// State sovereignty: the check that a transition exists in the compiled machine, and the decoration that
// the compiler adds to every object of a machine before it is stored. The check must give the verdict
// that the transitions as written call for.

module Sovereignty {
  import opened JsonValue
  import opened JsonCanonical

  const ABI := "v1"

  // ---- the check ----

  function FromOf(t: Json): Json {
    OrElse(OrElse(Get(t, "from"), Get(t, "from_state")), Get(t, "source"))
  }

  function OnOf(t: Json): Json {
    OrElse(OrElse(OrElse(Get(t, "trigger"), Get(t, "on")), Get(t, "command")), Get(t, "event"))
  }

  predicate NamesState(from: Json, state: string) {
    if from.Arr? then Str(state) in from.items else from == Str(state)
  }

  predicate NamesTrigger(on: Json, trigger: string) {
    on.Undef? || on == Str(trigger)
  }

  predicate Leaves(t: Json, state: string) {
    NamesState(FromOf(t), state)
  }

  predicate FiresOn(t: Json, trigger: string) {
    NamesTrigger(OnOf(t), trigger)
  }

  /** `Object.values` */
  function Values(v: Json): seq<Json> {
    match v
    case Arr(items) => items
    case Obj(fs) => seq(|fs|, i requires 0 <= i < |fs| => fs[i].value)
    case Str(s) => seq(|s|, i requires 0 <= i < |s| => Str([s[i]]))
    case _ => []
  }

  predicate SomeLeaves(ts: seq<Json>, state: string) {
    exists i :: 0 <= i < |ts| && Leaves(ts[i], state)
  }

  predicate SomeMatches(ts: seq<Json>, state: string, trigger: string) {
    exists i :: 0 <= i < |ts| && Leaves(ts[i], state) && FiresOn(ts[i], trigger)
  }

  /** The verdict on a list of transitions. */
  predicate Sovereign(ts: seq<Json>, state: string, trigger: string) {
    ts == [] || (state == "INIT" && !SomeLeaves(ts, "INIT")) || SomeMatches(ts, state, trigger)
  }

  /** The verdict on the transitions of a machine, in either form or missing. */
  predicate Allows(transitions: Json, state: string, trigger: string) {
    Sovereign(Values(OrElse(transitions, Obj([]))), state, trigger)
  }

  /** The first machine that governs the aggregate. */
  function Governing(machines: seq<Json>, aggregate: string): Json {
    if machines == [] then Undef
    else if Get(machines[0], "aggregate") == Str(aggregate) then machines[0]
    else Governing(machines[1..], aggregate)
  }

  /** `StateSovereigntyEnforcer.enforce` */
  predicate Enforce(entries: Json, aggregate: string, state: string, trigger: string) {
    var machine := Governing(Values(OrElse(entries, Obj([]))), aggregate);
    machine.Undef? || Allows(Get(machine, "transitions"), state, trigger)
  }

  // ---- the decoration ----

  function WithAbiItems(items: seq<Json>): (r: seq<Json>)
    ensures |r| == |items| && forall i :: 0 <= i < |items| ==> r[i] == WithAbi(items[i])
  {
    if items == [] then [] else [WithAbi(items[0])] + WithAbiItems(items[1..])
  }

  /** An `abi` field first, then the fields as they come. */
  function WithAbiFields(fs: seq<Field>): seq<Field> {
    if fs == [] then [Field("abi", Str(ABI))]
    else
      var f := fs[|fs| - 1];
      Assign(WithAbiFields(fs[..|fs| - 1]), f.key, WithAbi(f.value))
  }

  function WithAbi(v: Json): Json {
    match v
    case Arr(items) => Arr(WithAbiItems(items))
    case Obj(fs) => Obj(WithAbiFields(fs))
    case _ => v
  }

  method WithAbiLoop(v: Json) returns (r: Json)
    ensures r == WithAbi(v)
    decreases v
  {
    match v
    case Arr(items) =>
      var out: seq<Json> := [];
      for i := 0 to |items|
        invariant |out| == i && forall j :: 0 <= j < i ==> out[j] == WithAbi(items[j])
      {
        var x := WithAbiLoop(items[i]);
        out := out + [x];
      }
      assert out == WithAbiItems(items);
      return Arr(out);
    case Obj(fs) =>
      var out := [Field("abi", Str(ABI))];
      assert fs[..0] == [];
      for i := 0 to |fs|
        invariant out == WithAbiFields(fs[..i])
      {
        assert fs[..i + 1][..i] == fs[..i];
        var x := WithAbiLoop(fs[i].value);
        out := Assign(out, fs[i].key, x);
      }
      assert fs[..|fs|] == fs;
      return Obj(out);
    case _ =>
      return v;
  }

  /** The transitions as `machineRegistry` stores them. */
  function Decorated(transitions: Json): Json {
    WithAbi(OrElse(transitions, Obj([])))
  }

  /** The transitions as the runtime finds them, after printing and reading back. */
  function Loaded(transitions: Json): Json {
    Norm(Decorated(transitions))
  }

  // ---- transitions that the check cannot tell apart ----

  ghost predicate Alike(t: Json, u: Json) {
    && (forall s :: Leaves(t, s) <==> Leaves(u, s))
    && (forall s :: FiresOn(t, s) <==> FiresOn(u, s))
  }

  ghost predicate Inert(t: Json) {
    forall s :: !Leaves(t, s)
  }

  ghost predicate HasAlike(t: Json, us: seq<Json>) {
    exists j :: 0 <= j < |us| && Alike(t, us[j])
  }

  ghost predicate Covered(ts: seq<Json>, us: seq<Json>) {
    forall i :: 0 <= i < |ts| ==> Inert(ts[i]) || HasAlike(ts[i], us)
  }

  lemma CoveredLeaves(ts: seq<Json>, us: seq<Json>, state: string)
    requires Covered(ts, us) && SomeLeaves(ts, state)
    ensures SomeLeaves(us, state)
  {
    var i :| 0 <= i < |ts| && Leaves(ts[i], state);
    assert HasAlike(ts[i], us);
    var j :| 0 <= j < |us| && Alike(ts[i], us[j]);
    assert Leaves(us[j], state);
  }

  lemma CoveredMatches(ts: seq<Json>, us: seq<Json>, state: string, trigger: string)
    requires Covered(ts, us) && SomeMatches(ts, state, trigger)
    ensures SomeMatches(us, state, trigger)
  {
    var i :| 0 <= i < |ts| && Leaves(ts[i], state) && FiresOn(ts[i], trigger);
    assert HasAlike(ts[i], us);
    var j :| 0 <= j < |us| && Alike(ts[i], us[j]);
    assert Leaves(us[j], state) && FiresOn(us[j], trigger);
  }

  lemma SameLeaves(ts: seq<Json>, us: seq<Json>, state: string)
    requires Covered(ts, us) && Covered(us, ts)
    ensures SomeLeaves(ts, state) == SomeLeaves(us, state)
  {
    if SomeLeaves(ts, state) { CoveredLeaves(ts, us, state); }
    if SomeLeaves(us, state) { CoveredLeaves(us, ts, state); }
  }

  lemma SameVerdict(ts: seq<Json>, us: seq<Json>, state: string, trigger: string)
    requires Covered(ts, us) && Covered(us, ts) && ts != [] && us != []
    ensures Sovereign(ts, state, trigger) == Sovereign(us, state, trigger)
  {
    SameLeaves(ts, us, "INIT");
    if SomeMatches(ts, state, trigger) { CoveredMatches(ts, us, state, trigger); }
    if SomeMatches(us, state, trigger) { CoveredMatches(us, ts, state, trigger); }
  }

  // ---- decorating one value ----

  predicate PlainKeys(v: Json) {
    v.Obj? ==> DistinctKeys(v.fields) && !HasKey(v.fields, PROTO)
  }

  lemma {:induction false} GetFieldAppend(fs: seq<Field>, f: Field, k: string)
    ensures GetField(fs + [f], k) == if HasKey(fs, k) then GetField(fs, k) else if f.key == k then f.value else Undef
  {
    if fs != [] {
      assert (fs + [f])[1..] == fs[1..] + [f];
      HasKeyTail(fs, k);
      GetFieldAppend(fs[1..], f, k);
    }
  }

  lemma {:induction false} GetFieldAbsent(fs: seq<Field>, k: string)
    requires !HasKey(fs, k)
    ensures GetField(fs, k) == Undef
  {
    if fs != [] {
      HasKeyTail(fs, k);
      GetFieldAbsent(fs[1..], k);
    }
  }

  /** Reading a field of the decorated object is decorating the field. */
  lemma {:induction false} GetDecorated(fs: seq<Field>, k: string)
    requires DistinctKeys(fs) && !HasKey(fs, PROTO) && k != "abi"
    ensures GetField(WithAbiFields(fs), k) == WithAbi(GetField(fs, k))
  {
    if fs != [] {
      var front, f := fs[..|fs| - 1], fs[|fs| - 1];
      assert fs == front + [f];
      assert forall i :: 0 <= i < |front| ==> front[i] == fs[i];
      GetDecorated(front, k);
      GetPut(WithAbiFields(front), f.key, WithAbi(f.value), k);
      GetFieldAppend(front, f, k);
      if !HasKey(front, k) { GetFieldAbsent(front, k); }
      assert HasKey(fs, f.key);
    }
  }

  lemma OrElseCommutes(a: Json, b: Json)
    ensures WithAbi(OrElse(a, b)) == OrElse(WithAbi(a), WithAbi(b))
  {
  }

  lemma DecoratedNames(v: Json, s: string)
    ensures NamesState(WithAbi(v), s) <==> NamesState(v, s)
    ensures NamesTrigger(WithAbi(v), s) <==> NamesTrigger(v, s)
  {
    if v.Arr? {
      var r := WithAbi(v).items;
      assert forall i :: 0 <= i < |r| ==> (r[i] == Str(s) <==> v.items[i] == Str(s));
      if Str(s) in v.items {
        var i :| 0 <= i < |v.items| && v.items[i] == Str(s);
        assert r[i] == Str(s);
      }
    }
  }

  /** The names the check reads. */
  const READ := ["from", "from_state", "source", "trigger", "on", "command", "event", "aggregate", "transitions"]

  lemma ReadIsPlain(i: nat)
    requires i < |READ|
    ensures READ[i] != PROTO && READ[i] != "abi"
  {
    assert PROTO[0] == '_';
    assert |"aggregate"| != |"abi"|;
  }

  lemma GetDecoratedAt(t: Json, i: nat)
    requires PlainKeys(t) && i < |READ|
    ensures Get(WithAbi(t), READ[i]) == WithAbi(Get(t, READ[i]))
  {
    ReadIsPlain(i);
    if t.Obj? { GetDecorated(t.fields, READ[i]); }
  }

  lemma DecoratedEnds(t: Json)
    requires PlainKeys(t)
    ensures FromOf(WithAbi(t)) == WithAbi(FromOf(t)) && OnOf(WithAbi(t)) == WithAbi(OnOf(t))
  {
    forall i: nat | i < |READ| ensures Get(WithAbi(t), READ[i]) == WithAbi(Get(t, READ[i])) { GetDecoratedAt(t, i); }
    assert READ[0] == "from" && READ[1] == "from_state" && READ[2] == "source";
    assert READ[3] == "trigger" && READ[4] == "on" && READ[5] == "command" && READ[6] == "event";
    OrElseCommutes(Get(t, "from"), Get(t, "from_state"));
    OrElseCommutes(OrElse(Get(t, "from"), Get(t, "from_state")), Get(t, "source"));
    OrElseCommutes(Get(t, "trigger"), Get(t, "on"));
    OrElseCommutes(OrElse(Get(t, "trigger"), Get(t, "on")), Get(t, "command"));
    OrElseCommutes(OrElse(OrElse(Get(t, "trigger"), Get(t, "on")), Get(t, "command")), Get(t, "event"));
  }

  /** The check cannot tell a decorated transition from the original. */
  lemma DecoratedAlike(t: Json)
    requires PlainKeys(t)
    ensures Alike(t, WithAbi(t))
  {
    DecoratedEnds(t);
    forall s ensures Leaves(t, s) <==> Leaves(WithAbi(t), s) { DecoratedNames(FromOf(t), s); }
    forall s ensures FiresOn(t, s) <==> FiresOn(WithAbi(t), s) { DecoratedNames(OnOf(t), s); }
  }

  // ---- decorating the transitions ----

  lemma {:induction false} DecoratedFieldsComeFrom(fs: seq<Field>)
    requires DistinctKeys(fs) && !HasKey(fs, PROTO)
    ensures DistinctKeys(WithAbiFields(fs))
    ensures forall f :: f in WithAbiFields(fs) ==>
      f == Field("abi", Str(ABI)) || exists i :: 0 <= i < |fs| && f == Field(fs[i].key, WithAbi(fs[i].value))
  {
    if fs != [] {
      var front, g := fs[..|fs| - 1], fs[|fs| - 1];
      assert forall i :: 0 <= i < |front| ==> front[i] == fs[i];
      DecoratedFieldsComeFrom(front);
      PutIs(WithAbiFields(front), g.key, WithAbi(g.value));
      forall f | f in WithAbiFields(fs)
        ensures f == Field("abi", Str(ABI)) || exists i :: 0 <= i < |fs| && f == Field(fs[i].key, WithAbi(fs[i].value))
      {
        if f == Field(g.key, WithAbi(g.value)) {
          assert fs[|fs| - 1] == g;
        } else if f != Field("abi", Str(ABI)) {
          var i :| 0 <= i < |front| && f == Field(front[i].key, WithAbi(front[i].value));
          assert fs[i] == front[i];
        }
      }
    }
  }

  lemma {:induction false} DecoratedFieldPresent(fs: seq<Field>, i: nat)
    requires DistinctKeys(fs) && !HasKey(fs, PROTO) && i < |fs|
    ensures Field(fs[i].key, WithAbi(fs[i].value)) in WithAbiFields(fs)
  {
    var front, g := fs[..|fs| - 1], fs[|fs| - 1];
    assert forall i :: 0 <= i < |front| ==> front[i] == fs[i];
    DecoratedFieldsComeFrom(front);
    PutIs(WithAbiFields(front), g.key, WithAbi(g.value));
    assert HasKey(fs, g.key);
    if i < |front| { DecoratedFieldPresent(front, i); }
  }

  /** The decorated object holds the decorated fields and, unless one of them is called so, an `abi`. */
  lemma DecoratedFieldsAre(fs: seq<Field>)
    requires DistinctKeys(fs) && !HasKey(fs, PROTO)
    ensures DistinctKeys(WithAbiFields(fs))
    ensures forall i :: 0 <= i < |fs| ==> Field(fs[i].key, WithAbi(fs[i].value)) in WithAbiFields(fs)
    ensures forall f :: f in WithAbiFields(fs) ==>
      f == Field("abi", Str(ABI)) || exists i :: 0 <= i < |fs| && f == Field(fs[i].key, WithAbi(fs[i].value))
  {
    DecoratedFieldsComeFrom(fs);
    forall i | 0 <= i < |fs| ensures Field(fs[i].key, WithAbi(fs[i].value)) in WithAbiFields(fs) {
      DecoratedFieldPresent(fs, i);
    }
  }

  /** No key of the transitions or of any one of them is called `__proto__`. */
  ghost predicate PlainTransitions(v: Json) {
    PlainKeys(v) && forall i :: 0 <= i < |Values(v)| ==> PlainKeys(Values(v)[i])
  }

  lemma ObjectCovered(fs: seq<Field>)
    requires PlainTransitions(Obj(fs))
    ensures Covered(Values(Obj(fs)), Values(WithAbi(Obj(fs)))) && Covered(Values(WithAbi(Obj(fs))), Values(Obj(fs)))
    ensures Values(WithAbi(Obj(fs))) != []
  {
    var ts, us, ds := Values(Obj(fs)), Values(WithAbi(Obj(fs))), WithAbiFields(fs);
    DecoratedFieldsAre(fs);
    forall i | 0 <= i < |ts| ensures HasAlike(ts[i], us) {
      DecoratedAlike(ts[i]);
      assert Field(fs[i].key, WithAbi(fs[i].value)) in ds;
      var j :| 0 <= j < |ds| && ds[j] == Field(fs[i].key, WithAbi(fs[i].value));
      assert us[j] == WithAbi(ts[i]);
    }
    forall j | 0 <= j < |us| ensures Inert(us[j]) || HasAlike(us[j], ts) {
      assert ds[j] in ds;
      if ds[j] != Field("abi", Str(ABI)) {
        var i :| 0 <= i < |fs| && ds[j] == Field(fs[i].key, WithAbi(fs[i].value));
        DecoratedAlike(ts[i]);
        assert Alike(us[j], ts[i]);
      }
    }
    NeverEmpty(fs);
  }

  lemma {:induction false} NeverEmpty(fs: seq<Field>)
    ensures WithAbiFields(fs) != []
  {
    if fs != [] {
      NeverEmpty(fs[..|fs| - 1]);
    }
  }

  lemma ArrayCovered(items: seq<Json>)
    requires PlainTransitions(Arr(items))
    ensures Covered(items, WithAbiItems(items)) && Covered(WithAbiItems(items), items)
  {
    var us := WithAbiItems(items);
    forall i | 0 <= i < |items| ensures HasAlike(items[i], us) && HasAlike(us[i], items) {
      DecoratedAlike(Values(Arr(items))[i]);
      assert Alike(items[i], us[i]) && Alike(us[i], items[i]);
    }
  }

  /** Whether decorating makes no difference: there is a transition, or there is no object to decorate, or
      the aggregate does not exist yet. */
  predicate Unaffected(transitions: Json, state: string) {
    || Values(OrElse(transitions, Obj([]))) != []
    || !OrElse(transitions, Obj([])).Obj?
    || state == "INIT"
  }

  /** Decorated transitions get the verdict of the originals for every state and trigger, in map and array
      form, except that a machine without any transition loses its exemption. */
  lemma DecorationKeepsVerdict(transitions: Json, state: string, trigger: string)
    requires PlainTransitions(OrElse(transitions, Obj([])))
    ensures Allows(Decorated(transitions), state, trigger) == Allows(transitions, state, trigger)
       <==> Unaffected(transitions, state)
  {
    var v := OrElse(transitions, Obj([]));
    match v
    case Obj(fs) =>
      ObjectCovered(fs);
      if fs == [] {
        assert Values(WithAbi(v)) == [Str(ABI)];
      } else {
        SameVerdict(Values(v), Values(WithAbi(v)), state, trigger);
      }
    case Arr(items) =>
      ArrayCovered(items);
      if items != [] { SameVerdict(items, WithAbiItems(items), state, trigger); }
    case _ =>
  }

  // ---- printing and reading back ----

  /** What becomes of a field value: an undefined one is dropped. */
  function Stored(v: Json): Json {
    if v.Undef? then Undef else Norm(v)
  }

  lemma GetNorm(fs: seq<Field>, k: string)
    requires DistinctKeys(fs) && k != PROTO
    ensures GetField(NormFields(fs), k) == Stored(GetField(fs, k))
  {
    var ns := NormFields(fs);
    NormFieldsAre(fs);
    if i :| 0 <= i < |fs| && fs[i].key == k && !fs[i].value.Undef? {
      GetFieldAt(fs, i);
      var f := Field(k, Norm(fs[i].value));
      NormFieldPresent(fs, f, i);
      var j :| 0 <= j < |ns| && ns[j] == f;
      GetFieldAt(ns, j);
    } else {
      if i :| 0 <= i < |fs| && fs[i].key == k { GetFieldAt(fs, i); } else { GetFieldAbsent(fs, k); }
      forall j | 0 <= j < |ns| ensures ns[j].key != k {
        assert ns[j] in ns;
        var i :| NormOf(ns[j], fs, i);
      }
      GetFieldAbsent(ns, k);
    }
  }

  lemma StoredOrElse(a: Json, b: Json)
    ensures Stored(OrElse(a, b)) == OrElse(Stored(a), Stored(b))
  {
  }

  lemma StoredNames(v: Json, s: string)
    ensures NamesState(Stored(v), s) <==> NamesState(v, s)
    ensures NamesTrigger(Stored(v), s) <==> NamesTrigger(v, s)
  {
    if v.Arr? {
      var r := Norm(v).items;
      assert forall i :: 0 <= i < |r| ==> (r[i] == Str(s) <==> v.items[i] == Str(s));
      if Str(s) in v.items {
        var i :| 0 <= i < |v.items| && v.items[i] == Str(s);
        assert r[i] == Str(s);
      }
    }
  }

  lemma GetStoredAt(t: Json, i: nat)
    requires (t.Obj? ==> DistinctKeys(t.fields)) && i < |READ|
    ensures Get(Norm(t), READ[i]) == Stored(Get(t, READ[i]))
  {
    ReadIsPlain(i);
    if t.Obj? { GetNorm(t.fields, READ[i]); }
  }

  lemma StoredEnds(t: Json)
    requires t.Obj? ==> DistinctKeys(t.fields)
    ensures FromOf(Norm(t)) == Stored(FromOf(t)) && OnOf(Norm(t)) == Stored(OnOf(t))
  {
    forall i: nat | i < |READ| ensures Get(Norm(t), READ[i]) == Stored(Get(t, READ[i])) { GetStoredAt(t, i); }
    assert READ[0] == "from" && READ[1] == "from_state" && READ[2] == "source";
    assert READ[3] == "trigger" && READ[4] == "on" && READ[5] == "command" && READ[6] == "event";
    StoredOrElse(Get(t, "from"), Get(t, "from_state"));
    StoredOrElse(OrElse(Get(t, "from"), Get(t, "from_state")), Get(t, "source"));
    StoredOrElse(Get(t, "trigger"), Get(t, "on"));
    StoredOrElse(OrElse(Get(t, "trigger"), Get(t, "on")), Get(t, "command"));
    StoredOrElse(OrElse(OrElse(Get(t, "trigger"), Get(t, "on")), Get(t, "command")), Get(t, "event"));
  }

  lemma StoredAlike(t: Json)
    requires t.Obj? ==> DistinctKeys(t.fields)
    ensures Alike(t, Norm(t))
  {
    StoredEnds(t);
    forall s ensures Leaves(t, s) <==> Leaves(Norm(t), s) { StoredNames(FromOf(t), s); }
    forall s ensures FiresOn(t, s) <==> FiresOn(Norm(t), s) { StoredNames(OnOf(t), s); }
  }

  /** Each transition has distinct keys. */
  ghost predicate SoundTransitions(v: Json) {
    && (v.Obj? ==> DistinctKeys(v.fields) && !HasKey(v.fields, PROTO))
    && forall i :: 0 <= i < |Values(v)| ==> (Values(v)[i].Obj? ==> DistinctKeys(Values(v)[i].fields))
  }

  lemma StoredObjectCovered(fs: seq<Field>)
    requires SoundTransitions(Obj(fs))
    ensures Covered(Values(Obj(fs)), Values(Norm(Obj(fs)))) && Covered(Values(Norm(Obj(fs))), Values(Obj(fs)))
    ensures (exists i :: 0 <= i < |fs| && !fs[i].value.Undef?) ==> Values(Norm(Obj(fs))) != []
  {
    var ts, us, ns := Values(Obj(fs)), Values(Norm(Obj(fs))), NormFields(fs);
    NormFieldsAre(fs);
    forall i | 0 <= i < |ts| ensures Inert(ts[i]) || HasAlike(ts[i], us) {
      StoredAlike(ts[i]);
      assert HasKey(fs, fs[i].key);
      if !ts[i].Undef? {
        var f := Field(fs[i].key, Norm(fs[i].value));
        NormFieldPresent(fs, f, i);
        var j :| 0 <= j < |ns| && ns[j] == f;
        assert us[j] == Norm(ts[i]);
      }
    }
    forall j | 0 <= j < |us| ensures HasAlike(us[j], ts) {
      assert ns[j] in ns;
      var i :| NormOf(ns[j], fs, i);
      StoredAlike(ts[i]);
      assert Alike(us[j], ts[i]);
    }
    if i :| 0 <= i < |fs| && !fs[i].value.Undef? {
      assert HasKey(fs, fs[i].key);
      NormFieldPresent(fs, Field(fs[i].key, Norm(fs[i].value)), i);
    }
  }

  lemma StoredArrayCovered(items: seq<Json>)
    requires SoundTransitions(Arr(items))
    ensures Covered(items, Norm(Arr(items)).items) && Covered(Norm(Arr(items)).items, items)
  {
    var us := Norm(Arr(items)).items;
    forall i | 0 <= i < |items| ensures HasAlike(items[i], us) && HasAlike(us[i], items) {
      StoredAlike(Values(Arr(items))[i]);
      assert Alike(items[i], us[i]) && Alike(us[i], items[i]);
    }
  }

  /** Printing and reading back keeps the verdict. */
  lemma StoringKeepsVerdict(v: Json, state: string, trigger: string)
    requires SoundTransitions(v) && !v.Undef? && !v.Null?
    requires v.Obj? ==> v.fields == [] || exists i :: 0 <= i < |v.fields| && !v.fields[i].value.Undef?
    ensures Allows(Norm(v), state, trigger) == Allows(v, state, trigger)
  {
    match v
    case Obj(fs) =>
      StoredObjectCovered(fs);
      if fs != [] { SameVerdict(Values(v), Values(Norm(v)), state, trigger); }
    case Arr(items) =>
      StoredArrayCovered(items);
      if items != [] { SameVerdict(items, Norm(v).items, state, trigger); }
    case _ =>
  }

  lemma DecoratedFieldIsSound(fs: seq<Field>, f: Field)
    requires PlainTransitions(Obj(fs)) && f in WithAbiFields(fs) && forall i :: 0 <= i < |fs| ==> !fs[i].value.Undef?
    ensures f.key != PROTO && !f.value.Undef? && (f.value.Obj? ==> DistinctKeys(f.value.fields))
  {
    DecoratedFieldsComeFrom(fs);
    assert PROTO[0] == '_';
    if f != Field("abi", Str(ABI)) {
      var i :| 0 <= i < |fs| && f == Field(fs[i].key, WithAbi(fs[i].value));
      assert HasKey(fs, fs[i].key);
      DistinctWhenDecorated(Values(Obj(fs))[i]);
    }
  }

  lemma DecoratedObjectIsSound(fs: seq<Field>)
    requires PlainTransitions(Obj(fs)) && forall i :: 0 <= i < |fs| ==> !fs[i].value.Undef?
    ensures SoundTransitions(Obj(WithAbiFields(fs)))
    ensures exists i :: 0 <= i < |WithAbiFields(fs)| && !WithAbiFields(fs)[i].value.Undef?
  {
    var ds := WithAbiFields(fs);
    DecoratedFieldsComeFrom(fs);
    NeverEmpty(fs);
    forall j | 0 <= j < |ds|
      ensures ds[j].key != PROTO && !ds[j].value.Undef? && (ds[j].value.Obj? ==> DistinctKeys(ds[j].value.fields))
    {
      DecoratedFieldIsSound(fs, ds[j]);
    }
    assert !ds[0].value.Undef?;
  }

  lemma DecoratedIsSound(v: Json)
    requires PlainTransitions(v) && (v.Obj? ==> forall i :: 0 <= i < |v.fields| ==> !v.fields[i].value.Undef?)
    ensures SoundTransitions(WithAbi(v))
    ensures v.Obj? ==> exists i :: 0 <= i < |WithAbi(v).fields| && !WithAbi(v).fields[i].value.Undef?
  {
    match v
    case Obj(fs) =>
      DecoratedObjectIsSound(fs);
    case Arr(items) =>
      forall i | 0 <= i < |items| ensures WithAbi(items[i]).Obj? ==> DistinctKeys(WithAbi(items[i]).fields) {
        DistinctWhenDecorated(Values(v)[i]);
      }
    case _ =>
  }

  lemma DistinctWhenDecorated(t: Json)
    requires PlainKeys(t)
    ensures WithAbi(t).Obj? ==> DistinctKeys(WithAbi(t).fields)
  {
    if t.Obj? { DecoratedFieldsAre(t.fields); }
  }

  /** The runtime's verdict on the stored machine is the verdict on the transitions as written, with the
      same one exception. */
  lemma LoadedKeepsVerdict(transitions: Json, state: string, trigger: string)
    requires var v := OrElse(transitions, Obj([]));
             PlainTransitions(v) && (v.Obj? ==> forall i :: 0 <= i < |v.fields| ==> !v.fields[i].value.Undef?)
    ensures Allows(Loaded(transitions), state, trigger) == Allows(transitions, state, trigger)
       <==> Unaffected(transitions, state)
  {
    var v := OrElse(transitions, Obj([]));
    DecoratedIsSound(v);
    StoringKeepsVerdict(WithAbi(v), state, trigger);
    DecorationKeepsVerdict(transitions, state, trigger);
  }
}

module MachineRegistry {
  import opened JsonValue
  import opened JsonCanonical
  import opened Sovereignty

  /** A state machine of the intermediate representation, under its name. */
  datatype Node = Node(ref: string, body: Json)

  function MachineEntry(node: Json): Json {
    Obj([Field("abi", Str(ABI)),
         Field("id", Get(node, "id")),
         Field("domain", Get(node, "domain")),
         Field("aggregate", Get(node, "aggregate")),
         Field("initial_state", OrElse(Get(node, "initial_state"), Get(node, "initialState"))),
         Field("final_states", OrElse(OrElse(Get(node, "final_states"), Get(node, "finalStates")), Arr([]))),
         Field("states", Decorated(Get(node, "states"))),
         Field("transitions", Decorated(Get(node, "transitions")))])
  }

  function MachineFields(nodes: seq<Node>): (r: seq<Field>)
    ensures |r| == |nodes| && forall i :: 0 <= i < |nodes| ==> r[i] == Field(nodes[i].ref, MachineEntry(nodes[i].body))
  {
    seq(|nodes|, i requires 0 <= i < |nodes| => Field(nodes[i].ref, MachineEntry(nodes[i].body)))
  }

  /** An empty object after the assignments `fs`. */
  function Fill(fs: seq<Field>): seq<Field> {
    if fs == [] then []
    else Assign(Fill(fs[..|fs| - 1]), fs[|fs| - 1].key, fs[|fs| - 1].value)
  }

  function Entries(nodes: seq<Node>): seq<Field> {
    Fill(MachineFields(nodes))
  }

  method BuildEntries(nodes: seq<Node>) returns (entries: seq<Field>)
    ensures entries == Entries(nodes)
  {
    entries := [];
    ghost var fs := MachineFields(nodes);
    assert fs[..0] == [];
    for i := 0 to |nodes|
      invariant entries == Fill(fs[..i])
    {
      assert fs[..i + 1][..i] == fs[..i];
      entries := Assign(entries, nodes[i].ref, MachineEntry(nodes[i].body));
    }
    assert fs[..|nodes|] == fs;
  }

  ghost predicate ProperKeys(fs: seq<Field>) {
    DistinctKeys(fs) && forall i :: 0 <= i < |fs| ==> fs[i].key != PROTO
  }

  lemma {:induction false} FillIs(fs: seq<Field>)
    requires ProperKeys(fs)
    ensures DistinctKeys(Fill(fs)) && forall f :: f in Fill(fs) <==> f in fs
  {
    if fs != [] {
      var front, g := fs[..|fs| - 1], fs[|fs| - 1];
      FillIs(front);
      PutIs(Fill(front), g.key, g.value);
      assert fs == front + [g];
      assert forall f :: f in front ==> f.key != g.key;
    }
  }

  lemma EntryKeys(node: Json)
    ensures DistinctKeys(MachineEntry(node).fields)
    ensures Get(MachineEntry(node), "aggregate") == Get(node, "aggregate")
    ensures Get(MachineEntry(node), "transitions") == Decorated(Get(node, "transitions"))
  {
    var fs := MachineEntry(node).fields;
    assert fs[2].key[0] == 'd' && fs[6].key[0] == 's';
    assert |fs[0].key| == 3 && |fs[1].key| == 2 && |fs[2].key| == 6 && |fs[3].key| == 9;
    assert |fs[4].key| == 13 && |fs[5].key| == 12 && |fs[6].key| == 6 && |fs[7].key| == 11;
    assert DistinctKeys(fs);
    GetFieldAt(fs, 3);
    GetFieldAt(fs, 7);
  }

  /** What the runtime reads of a stored machine. */
  lemma StoredEntry(node: Json)
    ensures Get(Norm(MachineEntry(node)), "aggregate") == Stored(Get(node, "aggregate"))
    ensures Get(Norm(MachineEntry(node)), "transitions") == Stored(Decorated(Get(node, "transitions")))
  {
    EntryKeys(node);
    GetStoredAt(MachineEntry(node), 7);
    GetStoredAt(MachineEntry(node), 8);
  }

  lemma {:induction false} GoverningIs(machines: seq<Json>, aggregate: string, j: nat)
    requires j < |machines| && Governs(machines[j], aggregate)
    requires forall i :: 0 <= i < j ==> !Governs(machines[i], aggregate)
    ensures Governing(machines, aggregate) == machines[j]
  {
    if j > 0 {
      assert Governs(machines[1..][j - 1], aggregate);
      GoverningIs(machines[1..], aggregate, j - 1);
    }
  }

  lemma {:induction false} GoverningNone(machines: seq<Json>, aggregate: string)
    requires forall i :: 0 <= i < |machines| ==> Get(machines[i], "aggregate") != Str(aggregate)
    ensures Governing(machines, aggregate) == Undef
  {
    if machines != [] { GoverningNone(machines[1..], aggregate); }
  }

  /** What the runtime lists of the object filled with `fs`. */
  function Listed(fs: seq<Field>): seq<Json> {
    Values(Norm(Obj(Fill(fs))))
  }

  ghost predicate Governs(m: Json, aggregate: string) {
    Get(m, "aggregate") == Str(aggregate)
  }

  /** Element `j` of the list is what was put in under name `i`. */
  ghost predicate ListedAs(fs: seq<Field>, j: nat, i: nat)
    requires j < |Listed(fs)|
  {
    i < |fs| && NormFields(Fill(fs))[j] == Field(fs[i].key, Norm(fs[i].value)) && Listed(fs)[j] == Norm(fs[i].value)
  }

  lemma ListedComesFrom(fs: seq<Field>, j: nat) returns (i: nat)
    requires ProperKeys(fs) && j < |Listed(fs)|
    ensures ListedAs(fs, j, i)
  {
    var es := Fill(fs);
    FillIs(fs);
    NormFieldsAre(es);
    var f := NormFields(es)[j];
    assert f in NormFields(es);
    var k :| NormOf(f, es, k);
    assert es[k] in es;
    i :| 0 <= i < |fs| && fs[i] == es[k];
  }

  lemma ListedHas(fs: seq<Field>, i: nat) returns (j: nat)
    requires ProperKeys(fs) && i < |fs| && !fs[i].value.Undef?
    ensures j < |Listed(fs)| && ListedAs(fs, j, i)
  {
    var es := Fill(fs);
    FillIs(fs);
    assert fs[i] in es;
    var k :| 0 <= k < |es| && es[k] == fs[i];
    var g := Field(fs[i].key, Norm(fs[i].value));
    NormFieldPresent(es, g, k);
    j :| 0 <= j < |NormFields(es)| && NormFields(es)[j] == g;
    assert Listed(fs)[j] == g.value;
  }

  /** The list is in key order. */
  lemma ListedInOrder(fs: seq<Field>, j: nat, k: nat, i: nat, l: nat)
    requires ProperKeys(fs) && j < k < |Listed(fs)| && ListedAs(fs, j, i) && ListedAs(fs, k, l)
    ensures !KeyLess(fs[l].key, fs[i].key) && fs[l].key != fs[i].key
  {
    FillIs(fs);
    NormFieldsAre(Fill(fs));
    assert !FieldLess(NormFields(Fill(fs))[k], NormFields(Fill(fs))[j]);
  }

  /** Of the machines for the aggregate, the one whose name comes first in key order. */
  ghost predicate GovernsFirst(fs: seq<Field>, k: nat, aggregate: string) {
    && k < |fs| && Governs(fs[k].value, aggregate)
    && forall i :: 0 <= i < |fs| && i != k && Governs(fs[i].value, aggregate) ==> KeyLess(fs[k].key, fs[i].key)
  }

  lemma GoverningListed(fs: seq<Field>, k: nat, aggregate: string)
    requires ProperKeys(fs) && GovernsFirst(fs, k, aggregate)
    requires forall i :: 0 <= i < |fs| ==> (Governs(Norm(fs[i].value), aggregate) <==> Governs(fs[i].value, aggregate))
    ensures Governing(Listed(fs), aggregate) == Norm(fs[k].value)
  {
    var ms := Listed(fs);
    var j := ListedHas(fs, k);
    forall m | 0 <= m < j ensures !Governs(ms[m], aggregate) {
      var i := ListedComesFrom(fs, m);
      ListedInOrder(fs, m, j, i, k);
    }
    GoverningIs(ms, aggregate, j);
  }

  lemma GoverningNoneListed(fs: seq<Field>, aggregate: string)
    requires ProperKeys(fs) && forall i :: 0 <= i < |fs| ==> !Governs(Norm(fs[i].value), aggregate)
    ensures Governing(Listed(fs), aggregate) == Undef
  {
    var ms := Listed(fs);
    forall j | 0 <= j < |ms| ensures Get(ms[j], "aggregate") != Str(aggregate) {
      var i := ListedComesFrom(fs, j);
      assert !Governs(Norm(fs[i].value), aggregate);
    }
    GoverningNone(ms, aggregate);
  }

  ghost predicate ProperNames(nodes: seq<Node>) {
    && (forall i :: 0 <= i < |nodes| ==> nodes[i].ref != PROTO)
    && (forall i, j :: 0 <= i < j < |nodes| ==> nodes[i].ref != nodes[j].ref)
  }

  lemma EntryGoverns(node: Json, aggregate: string)
    ensures Governs(Norm(MachineEntry(node)), aggregate) <==> Governs(node, aggregate)
  {
    StoredEntry(node);
  }

  /** The check against the stored registry gives the verdict on the transitions, as they were written, of
      the machine for that aggregate whose name comes first in key order; the machine without transitions
      is the one exception. */
  lemma RegistryKeepsVerdict(nodes: seq<Node>, k: nat, aggregate: string, state: string, trigger: string)
    requires ProperNames(nodes) && k < |nodes| && Governs(nodes[k].body, aggregate)
    requires forall i :: 0 <= i < |nodes| && i != k && Governs(nodes[i].body, aggregate) ==>
      KeyLess(nodes[k].ref, nodes[i].ref)
    requires var v := OrElse(Get(nodes[k].body, "transitions"), Obj([]));
      PlainTransitions(v) && (v.Obj? ==> forall i :: 0 <= i < |v.fields| ==> !v.fields[i].value.Undef?)
    ensures Enforce(Norm(Obj(Entries(nodes))), aggregate, state, trigger)
         == Allows(Get(nodes[k].body, "transitions"), state, trigger)
       <==> Unaffected(Get(nodes[k].body, "transitions"), state)
  {
    var fs := MachineFields(nodes);
    forall i | 0 <= i < |fs|
      ensures Governs(Norm(fs[i].value), aggregate) <==> Governs(nodes[i].body, aggregate)
      ensures Governs(fs[i].value, aggregate) <==> Governs(nodes[i].body, aggregate)
    {
      EntryGoverns(nodes[i].body, aggregate);
      EntryKeys(nodes[i].body);
    }
    GoverningListed(fs, k, aggregate);
    StoredEntry(nodes[k].body);
    LoadedKeepsVerdict(Get(nodes[k].body, "transitions"), state, trigger);
  }

  /** An aggregate that no machine governs is outside the jurisdiction of the check. */
  lemma UngovernedIsAllowed(nodes: seq<Node>, aggregate: string, state: string, trigger: string)
    requires ProperNames(nodes) && forall i :: 0 <= i < |nodes| ==> !Governs(nodes[i].body, aggregate)
    ensures Enforce(Norm(Obj(Entries(nodes))), aggregate, state, trigger)
  {
    var fs := MachineFields(nodes);
    forall i | 0 <= i < |fs| ensures !Governs(Norm(fs[i].value), aggregate) {
      EntryGoverns(nodes[i].body, aggregate);
    }
    GoverningNoneListed(fs, aggregate);
  }
}

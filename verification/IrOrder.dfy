// The intermediate representation and its hash do not depend on the order in which the source documents
// list the keys of their maps.

module IrOrder {
  import opened Text
  import opened Sorting
  import opened JsonValue
  import opened JsonCanonical
  import opened JsonText
  import opened Js
  import opened IrRecipes
  import opened IrNodes
  import opened IrBuilder

  // ---- nodes up to the order of keys ----

  datatype View = View(id: string, meaning: Value)

  function ViewOf(n: Node): View {
    View(n.id, Meaning(NodeJson(n)))
  }

  function Views(ns: seq<Node>): (r: seq<View>)
    ensures |r| == |ns| && forall i :: 0 <= i < |ns| ==> r[i] == ViewOf(ns[i])
  {
    seq(|ns|, i requires 0 <= i < |ns| => ViewOf(ns[i]))
  }

  ghost predicate AllSolid(ns: seq<Node>) {
    forall n :: n in ns ==> Solid(NodeJson(n))
  }

  /** The same nodes up to the order of keys and the same edges, both in any order. */
  ghost predicate Alike(p: Outcome<Piece>, q: Outcome<Piece>) {
    && (p.Throws? <==> q.Throws?)
    && (p.Returns? ==>
          && multiset(Views(p.value.nodes)) == multiset(Views(q.value.nodes))
          && multiset(p.value.edges) == multiset(q.value.edges)
          && AllSolid(p.value.nodes) && AllSolid(q.value.nodes))
  }

  lemma ViewsAppend(a: seq<Node>, b: seq<Node>)
    ensures Views(a + b) == Views(a) + Views(b)
  {
  }

  lemma JoinAlike(p: Outcome<Piece>, q: Outcome<Piece>, r: Outcome<Piece>, s: Outcome<Piece>)
    requires Alike(p, q) && Alike(r, s)
    ensures Alike(Join2(p, r), Join2(q, s))
  {
    if p.Returns? && r.Returns? {
      ViewsAppend(p.value.nodes, r.value.nodes);
      ViewsAppend(q.value.nodes, s.value.nodes);
    }
  }

  lemma TakeOut(b: seq<Node>, j: nat)
    requires j < |b|
    ensures multiset(b[..j] + b[j + 1..]) == multiset(b) - multiset{b[j]}
    ensures multiset(Views(b)) == multiset(Views(b[..j] + b[j + 1..])) + multiset{ViewOf(b[j])}
  {
    assert b == b[..j] + ([b[j]] + b[j + 1..]);
    ViewsAppend(b[..j], b[j + 1..]);
    ViewsAppend([b[j]], b[j + 1..]);
    ViewsAppend(b[..j], [b[j]] + b[j + 1..]);
    assert Views([b[j]]) == [ViewOf(b[j])];
  }

  lemma TakeOutMember(b: seq<Node>, n: Node) returns (rest: seq<Node>)
    requires n in multiset(b)
    ensures |rest| == |b| - 1 && multiset(rest) == multiset(b) - multiset{n}
    ensures multiset(Views(b)) == multiset(Views(rest)) + multiset{ViewOf(n)}
  {
    var j :| 0 <= j < |b| && b[j] == n;
    TakeOut(b, j);
    rest := b[..j] + b[j + 1..];
  }

  lemma {:induction false} ViewsOfPermutation(a: seq<Node>, b: seq<Node>)
    requires multiset(a) == multiset(b)
    ensures multiset(Views(a)) == multiset(Views(b))
    decreases |a|
  {
    if a == [] {
      assert |b| == |multiset(b)| == 0;
    } else {
      assert a[0] in multiset(b);
      var c := TakeOutMember(a, a[0]);
      var d := TakeOutMember(b, a[0]);
      ViewsOfPermutation(c, d);
    }
  }

  lemma SolidPermutation(a: seq<Node>, b: seq<Node>)
    requires multiset(a) == multiset(b) && AllSolid(a)
    ensures AllSolid(b)
  {
    forall n | n in b ensures n in a {
      assert n in multiset(b);
      assert n in multiset(a);
    }
  }

  lemma ShuffledAlike(p: Outcome<Piece>, p2: Outcome<Piece>, q: Outcome<Piece>, q2: Outcome<Piece>)
    requires Shuffled(p, p2) && Shuffled(q, q2) && Alike(p, q)
    ensures Alike(p2, q2)
  {
    if p.Returns? {
      ViewsOfPermutation(p.value.nodes, p2.value.nodes);
      ViewsOfPermutation(q.value.nodes, q2.value.nodes);
      SolidPermutation(p.value.nodes, p2.value.nodes);
      SolidPermutation(q.value.nodes, q2.value.nodes);
    }
  }

  lemma ShuffledSymmetric(p: Outcome<Piece>, q: Outcome<Piece>)
    requires Shuffled(p, q)
    ensures Shuffled(q, p)
  {
  }

  lemma NodeJsonEquiv(m: Node, n: Node)
    requires m.id == n.id && m.kind == n.kind && FieldsEquiv(m.body, n.body)
    ensures Equiv(NodeJson(m), NodeJson(n))
  {
    var a, b := Literal(m.body), Literal(n.body);
    LiteralEquiv(m.body, n.body);
    PutEquiv(a, b, "type", Str(m.kind), Str(m.kind));
    PutIs(a, "type", Str(m.kind));
    PutIs(b, "type", Str(m.kind));
    var c, d := Put(a, "type", Str(m.kind)), Put(b, "type", Str(m.kind));
    PutEquiv(c, d, "id", Str(m.id), Str(m.id));
    PutIs(c, "id", Str(m.id));
    PutIs(d, "id", Str(m.id));
    ObjectEquiv(Put(c, "id", Str(m.id)), Put(d, "id", Str(m.id)));
  }

  ghost predicate NodeOut(p: Outcome<Node>, q: Outcome<Node>) {
    && (p.Throws? <==> q.Throws?)
    && (p.Returns? ==>
          p.value.id == q.value.id && p.value.kind == q.value.kind && FieldsEquiv(p.value.body, q.value.body))
  }

  lemma NodeOfEquiv(id: string, kind: string, recipe: seq<Binding>, x: Env, y: Env, num: Numbers)
    requires EnvEquiv(x, y) && OrderBlind(num)
    ensures NodeOut(NodeOf(id, kind, recipe, x, num), NodeOf(id, kind, recipe, y, num))
  {
    EvalAllEquiv(recipe, x, y, num);
  }

  lemma OneNodeAlike(m: Node, n: Node, edges: seq<Edge>)
    requires m.id == n.id && m.kind == n.kind && FieldsEquiv(m.body, n.body)
    ensures Alike(Returns(Piece([m], edges)), Returns(Piece([n], edges)))
  {
    NodeJsonEquiv(m, n);
    assert Views([m]) == [ViewOf(m)] == Views([n]);
  }

  // ---- the pieces ----

  lemma EnvIs(name: string, owner: string, v: Json, w: Json, c: Json, d: Json)
    requires name != PROTO && Equiv(v, w) && Equiv(c, d)
    ensures EnvEquiv(Env(name, owner, v, c, 0), Env(name, owner, w, d, 0))
  {
  }

  lemma DomainAlike(name: string, c: Json, d: Json, num: Numbers)
    requires name != PROTO && Equiv(c, d) && OrderBlind(num)
    ensures Alike(DomainPiece(name, c, num), DomainPiece(name, d, num))
  {
    var x, y := Env(name, "", Null, c, 0), Env(name, "", Null, d, 0);
    EnvIs(name, "", Null, Null, c, d);
    NodeOfEquiv("domain:" + name, "domain", DOMAIN_NODE, x, y, num);
    var p := NodeOf("domain:" + name, "domain", DOMAIN_NODE, x, num);
    var q := NodeOf("domain:" + name, "domain", DOMAIN_NODE, y, num);
    if p.Returns? { OneNodeAlike(p.value, q.value, []); }
  }

  lemma EntityAlike(domain: string, k: string, v: Json, w: Json, num: Numbers)
    requires k != PROTO && Equiv(v, w) && OrderBlind(num)
    ensures Alike(EntityPiece(domain, Field(k, v), num), EntityPiece(domain, Field(k, w), num))
  {
    var id := "entity:" + domain + "." + k;
    var x, y := Env(k, domain, v, Null, 0), Env(k, domain, w, Null, 0);
    EnvIs(k, domain, v, w, Null, Null);
    NodeOfEquiv(id, "entity", ENTITY_NODE, x, y, num);
    var p, q := NodeOf(id, "entity", ENTITY_NODE, x, num), NodeOf(id, "entity", ENTITY_NODE, y, num);
    if p.Returns? { OneNodeAlike(p.value, q.value, [Edge("domain_contains_entity", "domain:" + domain, id)]); }
  }

  lemma EventEdgesEqual(from: string, a: seq<Json>, b: seq<Json>)
    requires AllEquiv(a, b)
    ensures EventEdges(from, a) == EventEdges(from, b)
  {
    forall i | 0 <= i < |a| ensures StringOf(a[i]) == StringOf(b[i]) { StringEquiv(a[i], b[i]); }
  }

  lemma CommandFromAlike(id: string, n: Outcome<Node>, m: Outcome<Node>, d: Outcome<Json>, e: Outcome<Json>,
                         es: Outcome<seq<Json>>, fs: Outcome<seq<Json>>, c: Outcome<Json>, b: Outcome<Json>)
    requires NodeOut(n, m) && OutEquiv(d, e) && ItemsOut(es, fs) && OutEquiv(c, b)
    ensures Alike(CommandFrom(id, n, d, es, c), CommandFrom(id, m, e, fs, b))
  {
    if CommandFrom(id, n, d, es, c).Returns? {
      StringEquiv(d.value, e.value);
      StringEquiv(c.value, b.value);
      EventEdgesEqual(id, es.value, fs.value);
      OneNodeAlike(n.value, m.value, CommandFrom(id, n, d, es, c).value.edges);
    }
  }

  lemma CommandWithAlike(k: string, v: Json, w: Json, recipe: seq<Binding>, domain: Expr, events: Expr,
                         capability: Expr, num: Numbers)
    requires k != PROTO && Equiv(v, w) && OrderBlind(num)
    ensures Alike(CommandWith(Field(k, v), recipe, domain, events, capability, num),
                  CommandWith(Field(k, w), recipe, domain, events, capability, num))
  {
    var id := "command:" + k;
    var x, y := Env(k, "", v, Null, 0), Env(k, "", w, Null, 0);
    EnvIs(k, "", v, w, Null, Null);
    EvalEquiv(domain, x, y, num);
    EvalEquiv(events, x, y, num);
    EvalEquiv(capability, x, y, num);
    ElementsSame(Eval(events, x, num), Eval(events, y, num));
    NodeOfEquiv(id, "command", recipe, x, y, num);
    CommandFromAlike(id, NodeOf(id, "command", recipe, x, num), NodeOf(id, "command", recipe, y, num),
                     Eval(domain, x, num), Eval(domain, y, num),
                     Elements(Eval(events, x, num)), Elements(Eval(events, y, num)),
                     Eval(capability, x, num), Eval(capability, y, num));
  }

  lemma CommandAlike(k: string, v: Json, w: Json, num: Numbers)
    requires k != PROTO && Equiv(v, w) && OrderBlind(num)
    ensures Alike(CommandPiece(Field(k, v), num), CommandPiece(Field(k, w), num))
  {
    CommandWithAlike(k, v, w, COMMAND_NODE, COMMAND_DOMAIN, COMMAND_EVENTS, REQUIRED_CAPABILITY, num);
  }

  lemma EventAlike(k: string, v: Json, w: Json, c: Json, d: Json, num: Numbers)
    requires k != PROTO && Equiv(v, w) && Equiv(c, d) && OrderBlind(num)
    ensures Alike(EventPiece(Field(k, v), c, num), EventPiece(Field(k, w), d, num))
  {
    var x, y := Env(k, "", v, c, 0), Env(k, "", w, d, 0);
    EnvIs(k, "", v, w, c, d);
    NodeOfEquiv("event:" + k, "event", EVENT_NODE, x, y, num);
    var p, q := NodeOf("event:" + k, "event", EVENT_NODE, x, num), NodeOf("event:" + k, "event", EVENT_NODE, y, num);
    if p.Returns? { OneNodeAlike(p.value, q.value, []); }
  }

  lemma NodeAlone(id: string, kind: string, recipe: seq<Binding>, x: Env, y: Env, edges: seq<Edge>, num: Numbers)
    requires EnvEquiv(x, y) && OrderBlind(num)
    ensures var p, q := NodeOf(id, kind, recipe, x, num), NodeOf(id, kind, recipe, y, num);
      && (p.Throws? <==> q.Throws?)
      && (p.Returns? ==> Alike(Returns(Piece([p.value], edges)), Returns(Piece([q.value], edges))))
  {
    NodeOfEquiv(id, kind, recipe, x, y, num);
    var p, q := NodeOf(id, kind, recipe, x, num), NodeOf(id, kind, recipe, y, num);
    if p.Returns? { OneNodeAlike(p.value, q.value, edges); }
  }

  lemma CapabilityAlike(k: string, v: Json, w: Json, num: Numbers)
    requires Equiv(v, w) && OrderBlind(num)
    ensures Alike(CapabilityPiece(Field(k, v), num), CapabilityPiece(Field(k, w), num))
  {
    var id := "capability:" + StringOf(Get(v, "capability_id"));
    assert PROTO[0] == '_';
    GetEquiv(v, w, "capability_id");
    StringEquiv(Get(v, "capability_id"), Get(w, "capability_id"));
    var x, y := Env("", "", v, Null, 0), Env("", "", w, Null, 0);
    EnvIs("", "", v, w, Null, Null);
    NodeAlone(id, "capability", CAPABILITY_NODE, x, y, [], num);
  }

  lemma SagaFromAlike(id: string, p: Outcome<Node>, q: Outcome<Node>, d: Json, e: Json)
    requires NodeOut(p, q) && Equiv(d, e)
    ensures Alike(SagaFrom(id, p, d), SagaFrom(id, q, e))
  {
    StringEquiv(d, e);
    if p.Returns? { OneNodeAlike(p.value, q.value, SagaFrom(id, p, d).value.edges); }
  }

  lemma SagaWithAlike(k: string, v: Json, w: Json, recipe: seq<Binding>, num: Numbers)
    requires Equiv(v, w) && OrderBlind(num)
    ensures Alike(SagaWith(Field(k, v), recipe, num), SagaWith(Field(k, w), recipe, num))
  {
    var id := "saga:" + StringOf(Get(v, "saga_id"));
    GetEquiv(v, w, "saga_id");
    GetEquiv(v, w, "domain");
    StringEquiv(Get(v, "saga_id"), Get(w, "saga_id"));
    var x, y := Env("", "", v, Null, 0), Env("", "", w, Null, 0);
    EnvIs("", "", v, w, Null, Null);
    NodeOfEquiv(id, "saga", recipe, x, y, num);
    SagaFromAlike(id, NodeOf(id, "saga", recipe, x, num), NodeOf(id, "saga", recipe, y, num), Get(v, "domain"),
                  Get(w, "domain"));
  }

  lemma SagaAlike(k: string, v: Json, w: Json, num: Numbers)
    requires Equiv(v, w) && OrderBlind(num)
    ensures Alike(SagaPiece(Field(k, v), num), SagaPiece(Field(k, w), num))
  {
    SagaWithAlike(k, v, w, SAGA_NODE, num);
  }

  lemma MachineAlike(k: string, v: Json, w: Json, num: Numbers)
    requires k != PROTO && Equiv(v, w) && OrderBlind(num)
    ensures Alike(MachinePiece(Field(k, v), num), MachinePiece(Field(k, w), num))
  {
    var id := "state_machine:" + k;
    GetEquiv(v, w, "domain");
    StringEquiv(Get(v, "domain"), Get(w, "domain"));
    var x, y := Env(k, "", v, Null, 0), Env(k, "", w, Null, 0);
    EnvIs(k, "", v, w, Null, Null);
    NodeOfEquiv(id, "state_machine", MACHINE_NODE, x, y, num);
    var p, q := NodeOf(id, "state_machine", MACHINE_NODE, x, num), NodeOf(id, "state_machine", MACHINE_NODE, y, num);
    if p.Returns? {
      OneNodeAlike(p.value, q.value,
                   [Edge("state_machine_governs_entity", "domain:" + StringOf(Get(v, "domain")), id)]);
    }
  }

  // ---- the loops ----

  ghost predicate ParsedEquiv(v: Json, w: Json) {
    Parsed(v) && Parsed(w) && Meaning(v) == Meaning(w)
  }

  lemma ParsedEquivIsEquiv(v: Json, w: Json)
    requires ParsedEquiv(v, w)
    ensures Equiv(v, w)
  {
    ParsedIsSolid(v);
    ParsedIsSolid(w);
  }

  /** A document that is missing in both, or parsed in both and the same up to key order. */
  ghost predicate DocEquiv(v: Json, w: Json) {
    (v.Undef? && w.Undef?) || ParsedEquiv(v, w)
  }

  lemma DocEquivIsEquiv(v: Json, w: Json)
    requires DocEquiv(v, w)
    ensures Equiv(v, w)
  {
    if !v.Undef? { ParsedEquivIsEquiv(v, w); }
  }

  lemma GetDoc(v: Json, w: Json, k: string)
    requires DocEquiv(v, w) && k != PROTO
    ensures DocEquiv(Get(v, k), Get(w, k))
  {
    DocEquivIsEquiv(v, w);
    GetEquiv(v, w, k);
    if v.Obj? {
      ParsedField(v.fields, k);
      ParsedField(w.fields, k);
    }
  }

  ghost predicate EntriesMatch(a: seq<Field>, b: seq<Field>) {
    |a| == |b| &&
    forall i :: 0 <= i < |a| ==>
      a[i].key == b[i].key && a[i].key != PROTO && ParsedEquiv(a[i].value, b[i].value)
  }

  /** The two visits treat entries that are the same up to key order alike. */
  ghost predicate Respect(f: Visit, g: Visit) {
    forall k: string, v: Json, w: Json {:trigger f(Field(k, v)), g(Field(k, w))} ::
      k != PROTO && ParsedEquiv(v, w) ==> Alike(f(Field(k, v)), g(Field(k, w)))
  }

  lemma {:induction false} CollectMatching(f: Visit, g: Visit, a: seq<Field>, b: seq<Field>)
    requires Respect(f, g) && EntriesMatch(a, b)
    ensures Alike(Collect(f, a), Collect(g, b))
  {
    if a != [] {
      CollectMatching(f, g, a[1..], b[1..]);
      assert a[0] == Field(a[0].key, a[0].value) && b[0] == Field(b[0].key, b[0].value);
      assert Alike(f(a[0]), g(b[0])) by {
        assert Alike(f(Field(a[0].key, a[0].value)), g(Field(a[0].key, b[0].value)));
      }
      JoinAlike(f(a[0]), g(b[0]), Collect(f, a[1..]), Collect(g, b[1..]));
    }
  }

  lemma KeysInOrder(fs: seq<Field>, s: seq<Field>)
    requires DistinctKeys(fs) && s == Sort(fs, FieldLess)
    ensures |s| == |fs| && DistinctKeys(s) && Sorted(s, FieldLess)
    ensures forall f :: f in s <==> f in fs
    ensures forall i, j :: 0 <= i < j < |s| ==> KeyLess(s[i].key, s[j].key)
  {
    FieldOrderIsWeak();
    SortSorts(fs, FieldLess);
    SortPermutes(fs, FieldLess);
    forall f ensures f in s <==> f in fs { assert f in multiset(s) <==> f in multiset(fs); }
    forall i, j | 0 <= i < j < |s| ensures s[i].key != s[j].key && KeyLess(s[i].key, s[j].key) {
      DistinctAfterSort(fs, s, i, j);
      assert !FieldLess(s[j], s[i]);
      KeyLessTotal(s[i].key, s[j].key);
    }
  }

  /** Two increasing lists with the same elements are the same. */
  lemma {:induction false} SameKeys(a: seq<string>, b: seq<string>)
    requires forall i, j :: 0 <= i < j < |a| ==> KeyLess(a[i], a[j])
    requires forall i, j :: 0 <= i < j < |b| ==> KeyLess(b[i], b[j])
    requires forall k :: k in a <==> k in b
    ensures a == b
  {
    forall k: string ensures !KeyLess(k, k) { KeyLessIrreflexive(k); }
    assert Distinct(a) && Distinct(b);
    forall k ensures multiset(a)[k] == multiset(b)[k] {
      DistinctCountsOne(a, k);
      DistinctCountsOne(b, k);
      assert k in multiset(a) <==> k in a;
      assert k in multiset(b) <==> k in b;
    }
    forall i, j | 0 <= i < j < |a| ensures !KeyLess(a[j], a[i]) { NotBoth(a[i], a[j]); }
    forall i, j | 0 <= i < j < |b| ensures !KeyLess(b[j], b[i]) { NotBoth(b[i], b[j]); }
    forall x, y | x in a && y in a && x != y ensures KeyLess(x, y) || KeyLess(y, x) { KeyLessTotal(x, y); }
    SortedIsUnique(a, b, KeyLess);
  }

  lemma NotBoth(x: string, y: string)
    requires KeyLess(x, y)
    ensures !KeyLess(y, x)
  {
    if KeyLess(y, x) {
      KeyLessTransitive(x, y, x);
      KeyLessIrreflexive(x);
    }
  }

  lemma ValuesOfSorted(fs: seq<Field>, s: seq<Field>)
    requires DistinctKeys(fs) && s == Sort(fs, FieldLess)
    requires forall i :: 0 <= i < |fs| ==> Kept(fs[i])
    ensures forall i :: 0 <= i < |s| ==>
      s[i].key in FieldMeanings(fs) && Meaning(s[i].value) == FieldMeanings(fs)[s[i].key]
  {
    KeysInOrder(fs, s);
    FieldMeaningsAre(fs);
    forall i | 0 <= i < |s|
      ensures s[i].key in FieldMeanings(fs) && Meaning(s[i].value) == FieldMeanings(fs)[s[i].key]
    {
      assert s[i] in fs;
      var j :| 0 <= j < |fs| && fs[j] == s[i];
    }
  }

  lemma KeysOfSorted(fs: seq<Field>, s: seq<Field>, k: string)
    requires DistinctKeys(fs) && s == Sort(fs, FieldLess)
    requires forall i :: 0 <= i < |fs| ==> Kept(fs[i])
    ensures k in Keys(s) <==> k in FieldMeanings(fs)
  {
    if k in Keys(s) {
      ValuesOfSorted(fs, s);
      var i :| 0 <= i < |s| && Keys(s)[i] == k;
    }
    if k in FieldMeanings(fs) {
      KeysInOrder(fs, s);
      FieldMeaningsAre(fs);
      var j :| 0 <= j < |fs| && fs[j].key == k && Kept(fs[j]);
      assert fs[j] in s;
      var i :| 0 <= i < |s| && s[i] == fs[j];
      assert Keys(s)[i] == k;
    }
  }

  lemma ParsedFields(fs: seq<Field>)
    requires Parsed(Obj(fs))
    ensures DistinctKeys(fs) && forall i :: 0 <= i < |fs| ==> Kept(fs[i]) && Parsed(fs[i].value)
  {
  }

  /** Sorted by key, the entries of equivalent maps match one by one. */
  lemma SortedMatch(fs: seq<Field>, gs: seq<Field>)
    requires ParsedEquiv(Obj(fs), Obj(gs))
    ensures EntriesMatch(Sort(fs, FieldLess), Sort(gs, FieldLess))
  {
    var a, b := Sort(fs, FieldLess), Sort(gs, FieldLess);
    ParsedFields(fs);
    ParsedFields(gs);
    KeysInOrder(fs, a);
    KeysInOrder(gs, b);
    ValuesOfSorted(fs, a);
    ValuesOfSorted(gs, b);
    forall k ensures k in Keys(a) <==> k in Keys(b) {
      KeysOfSorted(fs, a, k);
      KeysOfSorted(gs, b, k);
    }
    SameKeys(Keys(a), Keys(b));
    assert |a| == |Keys(a)| && |b| == |Keys(b)|;
    forall i | 0 <= i < |a| ensures a[i].key == b[i].key && a[i].key != PROTO && ParsedEquiv(a[i].value, b[i].value) {
      assert Keys(a)[i] == Keys(b)[i];
      assert a[i] in fs && b[i] in gs;
    }
  }

  lemma IndexedMatch(a: seq<Json>, b: seq<Json>)
    requires |a| == |b| && forall i :: 0 <= i < |a| ==> ParsedEquiv(a[i], b[i])
    ensures EntriesMatch(Indexed(a), Indexed(b))
  {
    forall i | 0 <= i < |a| ensures NatText(i) != PROTO {
      NatTextDigits(i);
      assert PROTO[0] == '_';
    }
  }

  lemma ParsedItems(a: seq<Json>, b: seq<Json>)
    requires ParsedEquiv(Arr(a), Arr(b))
    ensures |a| == |b| && forall i :: 0 <= i < |a| ==> ParsedEquiv(a[i], b[i])
  {
    assert |Meanings(a)| == |Meanings(b)|;
    forall i | 0 <= i < |a| ensures ParsedEquiv(a[i], b[i]) { assert Meanings(a)[i] == Meanings(b)[i]; }
  }

  /** Visiting the entries of equivalent values, in whatever order they are listed, yields alike pieces. */
  lemma EntriesAlike(f: Visit, g: Visit, v: Json, w: Json)
    requires Respect(f, g) && ParsedEquiv(v, w)
    ensures Alike(Collect(f, ObjectEntries(v)), Collect(g, ObjectEntries(w)))
  {
    match v
    case Obj(fs) =>
      SortedMatch(fs, w.fields);
      CollectMatching(f, g, Sort(fs, FieldLess), Sort(w.fields, FieldLess));
      CollectSort(f, fs, FieldLess);
      CollectSort(g, w.fields, FieldLess);
      ShuffledAlike(Collect(f, Sort(fs, FieldLess)), Collect(f, fs), Collect(g, Sort(w.fields, FieldLess)),
                    Collect(g, w.fields));
    case Arr(items) =>
      ParsedItems(items, w.items);
      IndexedMatch(items, w.items);
      CollectMatching(f, g, Indexed(items), Indexed(w.items));
    case Str(s) =>
      IndexedMatch(Chars(s), Chars(s));
      CollectMatching(f, g, Indexed(Chars(s)), Indexed(Chars(s)));
    case _ =>
  }

  /** The same for the entries of a field of a document, sorted by name or not. */
  lemma LoopAlike(f: Visit, g: Visit, v: Json, w: Json, key: string)
    requires Respect(f, g) && DocEquiv(v, w) && key != PROTO
    ensures Alike(Collect(f, EntriesAt(v, key)), Collect(g, EntriesAt(w, key)))
    ensures Alike(Collect(f, Sort(EntriesAt(v, key), ByKey())), Collect(g, Sort(EntriesAt(w, key), ByKey())))
  {
    GetDoc(v, w, key);
    DocEquivIsEquiv(Get(v, key), Get(w, key));
    if !Falsy(Get(v, key)) { EntriesAlike(f, g, Get(v, key), Get(w, key)); }
    SortBothAlike(f, g, EntriesAt(v, key), EntriesAt(w, key));
  }

  lemma SortBothAlike(f: Visit, g: Visit, a: seq<Field>, b: seq<Field>)
    requires Alike(Collect(f, a), Collect(g, b))
    ensures Alike(Collect(f, Sort(a, ByKey())), Collect(g, Sort(b, ByKey())))
  {
    CollectSort(f, a, ByKey());
    CollectSort(g, b, ByKey());
    ShuffledSymmetric(Collect(f, Sort(a, ByKey())), Collect(f, a));
    ShuffledSymmetric(Collect(g, Sort(b, ByKey())), Collect(g, b));
    ShuffledAlike(Collect(f, a), Collect(f, Sort(a, ByKey())), Collect(g, b), Collect(g, Sort(b, ByKey())));
  }

  // ---- the seven loops ----

  lemma ListAlike(f: Visit, g: Visit, a: seq<Json>, b: seq<Json>)
    requires Respect(f, g) && |a| == |b| && forall i :: 0 <= i < |a| ==> ParsedEquiv(a[i], b[i])
    ensures Alike(Collect(f, Nameless(a)), Collect(g, Nameless(b)))
  {
    assert PROTO != "" by { assert PROTO[0] == '_'; }
    CollectMatching(f, g, Nameless(a), Nameless(b));
  }

  lemma DomainsRespect(c: Json, d: Json, num: Numbers)
    requires Equiv(c, d) && OrderBlind(num)
    ensures Respect(Domains(c, num), Domains(d, num))
  {
    var f, g := Domains(c, num), Domains(d, num);
    forall k: string, v: Json, w: Json | k != PROTO && ParsedEquiv(v, w) ensures Alike(f(Field(k, v)), g(Field(k, w))) {
      DomainAlike(k, c, d, num);
    }
  }

  lemma EntitiesRespect(domain: string, num: Numbers)
    requires OrderBlind(num)
    ensures Respect(Entities(domain, num), Entities(domain, num))
  {
    var f := Entities(domain, num);
    forall k: string, v: Json, w: Json | k != PROTO && ParsedEquiv(v, w) ensures Alike(f(Field(k, v)), f(Field(k, w))) {
      ParsedEquivIsEquiv(v, w);
      EntityAlike(domain, k, v, w, num);
    }
  }

  lemma DomainEntitiesRespect(num: Numbers)
    requires OrderBlind(num)
    ensures Respect(DomainEntities(num), DomainEntities(num))
  {
    var f := DomainEntities(num);
    forall k: string, v: Json, w: Json | k != PROTO && ParsedEquiv(v, w) ensures Alike(f(Field(k, v)), f(Field(k, w))) {
      EntitiesRespect(k, num);
      assert PROTO[0] == '_';
      LoopAlike(Entities(k, num), Entities(k, num), v, w, "entities");
    }
  }

  lemma CommandsRespect(num: Numbers)
    requires OrderBlind(num)
    ensures Respect(Commands(num), Commands(num))
  {
    var f := Commands(num);
    forall k: string, v: Json, w: Json | k != PROTO && ParsedEquiv(v, w) ensures Alike(f(Field(k, v)), f(Field(k, w))) {
      ParsedEquivIsEquiv(v, w);
      CommandAlike(k, v, w, num);
    }
  }

  lemma EventsRespect(c: Json, d: Json, num: Numbers)
    requires Equiv(c, d) && OrderBlind(num)
    ensures Respect(Events(c, num), Events(d, num))
  {
    var f, g := Events(c, num), Events(d, num);
    forall k: string, v: Json, w: Json | k != PROTO && ParsedEquiv(v, w) ensures Alike(f(Field(k, v)), g(Field(k, w))) {
      ParsedEquivIsEquiv(v, w);
      EventAlike(k, v, w, c, d, num);
    }
  }

  lemma CapabilitiesRespect(num: Numbers)
    requires OrderBlind(num)
    ensures Respect(Capabilities(num), Capabilities(num))
  {
    var f := Capabilities(num);
    forall k: string, v: Json, w: Json | k != PROTO && ParsedEquiv(v, w) ensures Alike(f(Field(k, v)), f(Field(k, w))) {
      ParsedEquivIsEquiv(v, w);
      CapabilityAlike(k, v, w, num);
    }
  }

  lemma SagasRespect(num: Numbers)
    requires OrderBlind(num)
    ensures Respect(Sagas(num), Sagas(num))
  {
    var f := Sagas(num);
    forall k: string, v: Json, w: Json | k != PROTO && ParsedEquiv(v, w) ensures Alike(f(Field(k, v)), f(Field(k, w))) {
      ParsedEquivIsEquiv(v, w);
      SagaAlike(k, v, w, num);
    }
  }

  lemma MachinesRespect(num: Numbers)
    requires OrderBlind(num)
    ensures Respect(Machines(num), Machines(num))
  {
    var f := Machines(num);
    forall k: string, v: Json, w: Json | k != PROTO && ParsedEquiv(v, w) ensures Alike(f(Field(k, v)), f(Field(k, w))) {
      ParsedEquivIsEquiv(v, w);
      MachineAlike(k, v, w, num);
    }
  }

  lemma DomainsAlike(f: Visit, g: Visit, v: Json, w: Json)
    requires Respect(f, g) && DocEquiv(v, w) && Falsy(v) == Falsy(w)
    ensures Alike(Collect(f, if Falsy(v) then DefaultEntries() else ObjectEntries(v)),
                  Collect(g, if Falsy(w) then DefaultEntries() else ObjectEntries(w)))
  {
    if Falsy(v) {
      DefaultsMatch(DefaultEntries());
      CollectMatching(f, g, DefaultEntries(), DefaultEntries());
    } else {
      EntriesAlike(f, g, v, w);
    }
  }

  lemma UnsortedDomainsAlike(f: Visit, g: Visit, c: Json, d: Json)
    requires Respect(f, g) && DocEquiv(c, d)
    ensures Alike(Collect(f, UnsortedDomains(c)), Collect(g, UnsortedDomains(d)))
  {
    assert PROTO[0] == '_';
    GetDoc(c, d, "domains");
    var v, w := Get(c, "domains"), Get(d, "domains");
    DocEquivIsEquiv(v, w);
    OrEquiv(v, v, w, w);
    DomainsAlike(f, g, v, w);
  }

  lemma DomainLoopAlike(c: Json, d: Json, num: Numbers)
    requires DocEquiv(c, d) && OrderBlind(num)
    ensures Alike(Collect(Domains(c, num), DomainEntries(c)), Collect(Domains(d, num), DomainEntries(d)))
  {
    DocEquivIsEquiv(c, d);
    DomainsRespect(c, d, num);
    UnsortedDomainsAlike(Domains(c, num), Domains(d, num), c, d);
    SortBothAlike(Domains(c, num), Domains(d, num), UnsortedDomains(c), UnsortedDomains(d));
  }

  lemma DefaultsMatch(fs: seq<Field>)
    requires |fs| == |DEFAULT_DOMAINS| && forall i :: 0 <= i < |fs| ==> fs[i] == Field(DEFAULT_DOMAINS[i], Null)
    ensures EntriesMatch(fs, fs)
  {
    assert PROTO[0] == '_';
    forall i | 0 <= i < |fs| ensures fs[i].key != PROTO { assert DEFAULT_DOMAINS[i][0] != '_'; }
  }

  lemma CapabilityLoopAlike(c: Json, d: Json, num: Numbers)
    requires DocEquiv(c, d) && OrderBlind(num)
    ensures Alike(CapabilityPieces(c, num), CapabilityPieces(d, num))
  {
    CapabilitiesRespect(num);
    assert PROTO[0] == '_';
    GetDoc(c, d, "capabilities");
    var v, w := Get(c, "capabilities"), Get(d, "capabilities");
    DocEquivIsEquiv(v, w);
    if !Falsy(v) && Iterate(v).Returns? {
      if v.Arr? { ParsedItems(v.items, w.items); }
      ListAlike(Capabilities(num), Capabilities(num), Iterate(v).value, Iterate(w).value);
    }
  }

  lemma ListOrNoneMatch(v: Json, w: Json)
    requires DocEquiv(v, w)
    ensures |ListOrNone(v)| == |ListOrNone(w)|
    ensures forall i :: 0 <= i < |ListOrNone(v)| ==> ParsedEquiv(ListOrNone(v)[i], ListOrNone(w)[i])
  {
    if v.Arr? { ParsedItems(v.items, w.items); }
  }

  lemma SagaLoopAlike(c: Json, d: Json, num: Numbers)
    requires DocEquiv(c, d) && OrderBlind(num)
    ensures Alike(Collect(Sagas(num), SagaEntries(c)), Collect(Sagas(num), SagaEntries(d)))
  {
    SagasRespect(num);
    assert PROTO[0] == '_';
    GetDoc(c, d, "sagas");
    GetDoc(c, d, "saga_templates");
    TwoListsAlike(Sagas(num), Get(c, "sagas"), Get(d, "sagas"), Get(c, "saga_templates"), Get(d, "saga_templates"));
  }

  lemma TwoListsAlike(f: Visit, v: Json, w: Json, x: Json, y: Json)
    requires Respect(f, f) && DocEquiv(v, w) && DocEquiv(x, y)
    ensures Alike(Collect(f, Nameless(ListOrNone(v) + ListOrNone(x))),
                  Collect(f, Nameless(ListOrNone(w) + ListOrNone(y))))
  {
    ListOrNoneMatch(v, w);
    ListOrNoneMatch(x, y);
    ListAlike(f, f, ListOrNone(v) + ListOrNone(x), ListOrNone(w) + ListOrNone(y));
  }

  ghost predicate DocsEquiv(a: Docs, b: Docs) {
    && DocEquiv(a.manifest, b.manifest) && DocEquiv(a.domainModel, b.domainModel) && DocEquiv(a.commands, b.commands)
    && DocEquiv(a.events, b.events) && DocEquiv(a.capabilities, b.capabilities) && DocEquiv(a.sagas, b.sagas)
    && DocEquiv(a.machines, b.machines)
  }

  lemma MapLoopsAlike(a: Docs, b: Docs, num: Numbers)
    requires DocsEquiv(a, b) && OrderBlind(num)
    ensures Alike(Collect(DomainEntities(num), EntriesAt(a.domainModel, "domains")),
                  Collect(DomainEntities(num), EntriesAt(b.domainModel, "domains")))
    ensures Alike(Collect(Commands(num), Sort(EntriesAt(a.commands, "commands"), ByKey())),
                  Collect(Commands(num), Sort(EntriesAt(b.commands, "commands"), ByKey())))
    ensures Alike(Collect(Events(a.events, num), Sort(EntriesAt(a.events, "events"), ByKey())),
                  Collect(Events(b.events, num), Sort(EntriesAt(b.events, "events"), ByKey())))
    ensures Alike(Collect(Machines(num), EntriesAt(a.machines, "state_machines")),
                  Collect(Machines(num), EntriesAt(b.machines, "state_machines")))
  {
    assert PROTO[0] == '_';
    DomainEntitiesRespect(num);
    LoopAlike(DomainEntities(num), DomainEntities(num), a.domainModel, b.domainModel, "domains");
    CommandsRespect(num);
    LoopAlike(Commands(num), Commands(num), a.commands, b.commands, "commands");
    DocEquivIsEquiv(a.events, b.events);
    EventsRespect(a.events, b.events, num);
    LoopAlike(Events(a.events, num), Events(b.events, num), a.events, b.events, "events");
    MachinesRespect(num);
    LoopAlike(Machines(num), Machines(num), a.machines, b.machines, "state_machines");
  }

  /** From documents that are the same up to key order, the same nodes up to key order and the same edges
      are collected, or collecting throws for both. */
  lemma GatherAlike(a: Docs, b: Docs, num: Numbers)
    requires DocsEquiv(a, b) && OrderBlind(num)
    ensures Alike(Gather(a, num), Gather(b, num))
  {
    MapLoopsAlike(a, b, num);
    DomainLoopAlike(a.manifest, b.manifest, num);
    CapabilityLoopAlike(a.capabilities, b.capabilities, num);
    SagaLoopAlike(a.sagas, b.sagas, num);
    var a1 := Collect(Domains(a.manifest, num), DomainEntries(a.manifest));
    var b1 := Collect(Domains(b.manifest, num), DomainEntries(b.manifest));
    var a2 := Collect(DomainEntities(num), EntriesAt(a.domainModel, "domains"));
    var b2 := Collect(DomainEntities(num), EntriesAt(b.domainModel, "domains"));
    var a3 := Collect(Commands(num), Sort(EntriesAt(a.commands, "commands"), ByKey()));
    var b3 := Collect(Commands(num), Sort(EntriesAt(b.commands, "commands"), ByKey()));
    var a4 := Collect(Events(a.events, num), Sort(EntriesAt(a.events, "events"), ByKey()));
    var b4 := Collect(Events(b.events, num), Sort(EntriesAt(b.events, "events"), ByKey()));
    var a5, b5 := CapabilityPieces(a.capabilities, num), CapabilityPieces(b.capabilities, num);
    var a6, b6 := Collect(Sagas(num), SagaEntries(a.sagas)), Collect(Sagas(num), SagaEntries(b.sagas));
    var a7 := Collect(Machines(num), EntriesAt(a.machines, "state_machines"));
    var b7 := Collect(Machines(num), EntriesAt(b.machines, "state_machines"));
    JoinAll(a1, a2, a3, a4, a5, a6, a7, b1, b2, b3, b4, b5, b6, b7);
  }

  lemma JoinAll(a1: Outcome<Piece>, a2: Outcome<Piece>, a3: Outcome<Piece>, a4: Outcome<Piece>, a5: Outcome<Piece>,
                a6: Outcome<Piece>, a7: Outcome<Piece>,
                b1: Outcome<Piece>, b2: Outcome<Piece>, b3: Outcome<Piece>, b4: Outcome<Piece>, b5: Outcome<Piece>,
                b6: Outcome<Piece>, b7: Outcome<Piece>)
    requires Alike(a1, b1) && Alike(a2, b2) && Alike(a3, b3) && Alike(a4, b4) && Alike(a5, b5) && Alike(a6, b6)
    requires Alike(a7, b7)
    ensures Alike(Join2(a1, Join2(a2, Join2(a3, Join2(a4, Join2(a5, Join2(a6, a7)))))),
                  Join2(b1, Join2(b2, Join2(b3, Join2(b4, Join2(b5, Join2(b6, b7)))))))
  {
    JoinAlike(a6, b6, a7, b7);
    var p6, q6 := Join2(a6, a7), Join2(b6, b7);
    JoinAlike(a5, b5, p6, q6);
    var p5, q5 := Join2(a5, p6), Join2(b5, q6);
    JoinAlike(a4, b4, p5, q5);
    var p4, q4 := Join2(a4, p5), Join2(b4, q5);
    JoinAlike(a3, b3, p4, q4);
    var p3, q3 := Join2(a3, p4), Join2(b3, q4);
    JoinAlike(a2, b2, p3, q3);
    JoinAlike(a1, b1, Join2(a2, p3), Join2(b2, q3));
  }

  // ---- sorting ----

  ghost predicate UniqueIds(ns: seq<Node>) {
    forall i, j :: 0 <= i < j < |ns| ==> ns[i].id != ns[j].id
  }

  function ViewLess(less: Collation): (View, View) -> bool {
    (x: View, y: View) => less(x.id, y.id)
  }

  lemma ByIdIsWeak(less: Collation)
    requires StrictTotal(less)
    ensures StrictWeak(ById(less))
  {
    var lt := ById(less);
    forall x: Node ensures !lt(x, x) { assert !less(x.id, x.id); }
    forall x: Node, y: Node, z: Node | lt(x, y) && lt(y, z) ensures lt(x, z) {
      assert less(x.id, y.id) && less(y.id, z.id);
    }
    forall x: Node, y: Node, z: Node | lt(x, z) ensures lt(x, y) || lt(y, z) {
      if x.id != y.id && !less(x.id, y.id) { assert less(y.id, x.id) && less(x.id, z.id); }
    }
  }

  lemma ViewsSorted(ns: seq<Node>, less: Collation)
    requires StrictTotal(less)
    ensures Sorted(Views(Sort(ns, ById(less))), ViewLess(less))
    ensures multiset(Views(Sort(ns, ById(less)))) == multiset(Views(ns))
  {
    ByIdIsWeak(less);
    SortSorts(ns, ById(less));
    SortPermutes(ns, ById(less));
    ViewsOfPermutation(Sort(ns, ById(less)), ns);
    var s := Sort(ns, ById(less));
    forall i, j | 0 <= i < j < |s| ensures !ViewLess(less)(Views(s)[j], Views(s)[i]) { assert !ById(less)(s[j], s[i]); }
  }

  lemma ViewsComparable(ns: seq<Node>, less: Collation, x: View, y: View)
    requires StrictTotal(less) && UniqueIds(ns) && x in Views(ns) && y in Views(ns) && x != y
    ensures ViewLess(less)(x, y) || ViewLess(less)(y, x)
  {
    var i :| 0 <= i < |Views(ns)| && Views(ns)[i] == x;
    var j :| 0 <= j < |Views(ns)| && Views(ns)[j] == y;
    assert i != j;
    assert ns[i].id != ns[j].id;
  }

  lemma SortedViewsAgree(a: seq<Node>, b: seq<Node>, less: Collation)
    requires StrictTotal(less) && UniqueIds(a) && multiset(Views(a)) == multiset(Views(b))
    ensures Views(Sort(a, ById(less))) == Views(Sort(b, ById(less)))
  {
    var x, y := Views(Sort(a, ById(less))), Views(Sort(b, ById(less)));
    ViewsSorted(a, less);
    ViewsSorted(b, less);
    forall u, v | u in x && v in x && u != v ensures ViewLess(less)(u, v) || ViewLess(less)(v, u) {
      assert u in multiset(Views(a)) && v in multiset(Views(a));
      ViewsComparable(a, less, u, v);
    }
    SortedIsUnique(x, y, ViewLess(less));
  }

  lemma ByEndsIsTotal(less: Collation)
    requires StrictTotal(less)
    ensures StrictTotal(ByEnds(less))
  {
    var lt := ByEnds(less);
    forall x: Edge ensures !lt(x, x) { assert !less(x.to, x.to); }
    forall x: Edge, y: Edge | x != y ensures lt(x, y) || lt(y, x) { EdgesComparable(x, y, less); }
    forall x: Edge, y: Edge, z: Edge | lt(x, y) && lt(y, z) ensures lt(x, z) { EdgesTransitive(x, y, z, less); }
  }

  lemma EdgesComparable(x: Edge, y: Edge, less: Collation)
    requires StrictTotal(less) && x != y
    ensures ByEnds(less)(x, y) || ByEnds(less)(y, x)
  {
  }

  lemma EdgesTransitive(x: Edge, y: Edge, z: Edge, less: Collation)
    requires StrictTotal(less) && ByEnds(less)(x, y) && ByEnds(less)(y, z)
    ensures ByEnds(less)(x, z)
  {
    assert !less(x.kind, x.kind) && !less(x.from, x.from) && !less(x.to, x.to);
  }

  lemma SortedEdgesAgree(a: seq<Edge>, b: seq<Edge>, less: Collation)
    requires StrictTotal(less) && multiset(a) == multiset(b)
    ensures Sort(a, ByEnds(less)) == Sort(b, ByEnds(less))
  {
    var lt := ByEnds(less);
    ByEndsIsTotal(less);
    TotalIsWeak(lt);
    SortSorts(a, lt);
    SortSorts(b, lt);
    SortPermutes(a, lt);
    SortPermutes(b, lt);
    SortedIsUnique(Sort(a, lt), Sort(b, lt), lt);
  }

  // ---- the representation and its hash ----

  /** The same nodes up to key order, in the same order, and the same edges. */
  ghost predicate SameIr(x: Ir, y: Ir) {
    && AllEquiv(NodesJson(x.nodes), NodesJson(y.nodes))
    && Views(x.nodes) == Views(y.nodes) && x.edges == y.edges && Equiv(x.protocolVersion, y.protocolVersion)
  }

  lemma SameViewsEquiv(a: seq<Node>, b: seq<Node>)
    requires Views(a) == Views(b) && AllSolid(a) && AllSolid(b)
    ensures AllEquiv(NodesJson(a), NodesJson(b))
  {
    assert |a| == |Views(a)| && |b| == |Views(b)|;
    forall i | 0 <= i < |a| ensures Equiv(NodeJson(a[i]), NodeJson(b[i])) {
      assert Views(a)[i] == Views(b)[i];
      assert a[i] in a && b[i] in b;
    }
  }

  lemma EdgeIsSolid(e: Edge)
    ensures Solid(EdgeJson(e))
  {
    assert |"from"| == 4 && |"to"| == 2 && "type"[0] == 't' && "from"[0] == 'f';
  }

  lemma EdgesEquiv(edges: seq<Edge>)
    ensures AllEquiv(EdgesJson(edges), EdgesJson(edges))
  {
    forall i | 0 <= i < |edges| ensures Equiv(EdgeJson(edges[i]), EdgeJson(edges[i])) { EdgeIsSolid(edges[i]); }
  }

  lemma SameIrSameText(x: Ir, y: Ir)
    requires SameIr(x, y)
    ensures IrText(x) == IrText(y)
  {
    var fs := [Field("nodes", Arr(NodesJson(x.nodes))), Field("edges", Arr(EdgesJson(x.edges))),
               Field("protocolVersion", x.protocolVersion), Field("compilerVersion", Str(COMPILER_VERSION))];
    var gs := [Field("nodes", Arr(NodesJson(y.nodes))), Field("edges", Arr(EdgesJson(y.edges))),
               Field("protocolVersion", y.protocolVersion), Field("compilerVersion", Str(COMPILER_VERSION))];
    ArrayEquiv(NodesJson(x.nodes), NodesJson(y.nodes));
    EdgesEquiv(x.edges);
    ArrayEquiv(EdgesJson(x.edges), EdgesJson(y.edges));
    assert FieldsEquiv(fs, gs);
    LiteralEquiv(fs, gs);
    ObjectEquiv(Literal(fs), Literal(gs));
    SolidIsWellFormed(IrJson(x));
    SolidIsWellFormed(IrJson(y));
    CanonicalIffSameMeaning(IrJson(x), IrJson(y));
  }

  /** Two protocols that differ in the order of map keys only compile to the same sorted nodes up to key order,
      the same sorted edges and the same hash, or both fail, provided node identifiers are unique. */
  lemma IrIgnoresKeyOrder(a: Docs, b: Docs, version: Json, other: Json, num: Numbers, less: Collation,
                          h: string -> string)
    requires DocsEquiv(a, b) && Equiv(version, other) && OrderBlind(num) && StrictTotal(less)
    requires Gather(a, num).Returns? ==> UniqueIds(Gather(a, num).value.nodes)
    ensures BuildIR(a, version, num, less).Throws? <==> BuildIR(b, other, num, less).Throws?
    ensures BuildIR(a, version, num, less).Returns? ==>
              var x, y := BuildIR(a, version, num, less).value, BuildIR(b, other, num, less).value;
              SameIr(x, y) && h(IrText(x)) == h(IrText(y))
  {
    GatherAlike(a, b, num);
    if BuildIR(a, version, num, less).Returns? {
      var p, q := Gather(a, num).value, Gather(b, num).value;
      SortedViewsAgree(p.nodes, q.nodes, less);
      SortedEdgesAgree(p.edges, q.edges, less);
      SortPermutes(p.nodes, ById(less));
      SortPermutes(q.nodes, ById(less));
      SolidPermutation(p.nodes, Sort(p.nodes, ById(less)));
      SolidPermutation(q.nodes, Sort(q.nodes, ById(less)));
      var x, y := BuildIR(a, version, num, less).value, BuildIR(b, other, num, less).value;
      SameViewsEquiv(x.nodes, y.nodes);
      SameIrSameText(x, y);
    }
  }

  // ---- the hash binds the representation ----

  lemma IrFields(x: Ir)
    ensures Get(IrJson(x), "nodes") == Arr(NodesJson(x.nodes)) && Get(IrJson(x), "edges") == Arr(EdgesJson(x.edges))
  {
    var f1, f2 := Field("nodes", Arr(NodesJson(x.nodes))), Field("edges", Arr(EdgesJson(x.edges)));
    var f3, f4 := Field("protocolVersion", x.protocolVersion), Field("compilerVersion", Str(COMPILER_VERSION));
    assert [f1, f2, f3, f4][..3] == [f1, f2, f3] && [f1, f2, f3][..2] == [f1, f2] && [f1, f2][..1] == [f1];
    assert [f1][..0] == [];
    assert "nodes"[0] == 'n' && "edges"[0] == 'e' && "protocolVersion"[0] == 'p' && "compilerVersion"[0] == 'c';
    ChainGet(f1, f2, f3, f4, "nodes");
    ChainGet(f1, f2, f3, f4, "edges");
    assert Literal([f1]) == [f1];
    assert Literal([f1, f2]) == Put([f1], f2.key, f2.value);
    assert Literal([f1, f2, f3]) == Put(Put([f1], f2.key, f2.value), f3.key, f3.value);
    assert Literal([f1, f2, f3, f4]) == Put(Put(Put([f1], f2.key, f2.value), f3.key, f3.value), f4.key, f4.value);
  }

  lemma ChainGet(f1: Field, f2: Field, f3: Field, f4: Field, k: string)
    requires k != f3.key && k != f4.key
    ensures GetField(Put(Put(Put([f1], f2.key, f2.value), f3.key, f3.value), f4.key, f4.value), k)
         == if k == f2.key then f2.value else GetField([f1], k)
  {
    var a := Put([f1], f2.key, f2.value);
    var b := Put(a, f3.key, f3.value);
    GetPut([f1], f2.key, f2.value, k);
    GetPut(a, f3.key, f3.value, k);
    GetPut(b, f4.key, f4.value, k);
  }

  lemma EdgeJsonInjective(e: Edge, f: Edge)
    requires Equiv(EdgeJson(e), EdgeJson(f))
    ensures e == f
  {
    assert PROTO[0] == '_' && |"from"| == 4 && |"to"| == 2 && "type"[0] == 't' && "from"[0] == 'f';
    GetEquiv(EdgeJson(e), EdgeJson(f), "from");
    GetEquiv(EdgeJson(e), EdgeJson(f), "to");
    GetEquiv(EdgeJson(e), EdgeJson(f), "type");
    GetFieldAt(EdgeJson(e).fields, 1);
    GetFieldAt(EdgeJson(e).fields, 2);
    GetFieldAt(EdgeJson(f).fields, 1);
    GetFieldAt(EdgeJson(f).fields, 2);
  }

  lemma SolidNodesArray(ns: seq<Node>)
    requires AllSolid(ns)
    ensures Solid(Arr(NodesJson(ns)))
  {
    forall i | 0 <= i < |ns| ensures Solid(NodeJson(ns[i])) { assert ns[i] in ns; }
  }

  lemma SolidEdgesArray(es: seq<Edge>)
    ensures Solid(Arr(EdgesJson(es)))
  {
    forall i | 0 <= i < |es| ensures Solid(EdgeJson(es[i])) { EdgeIsSolid(es[i]); }
  }

  lemma SolidIr(x: Ir)
    requires AllSolid(x.nodes) && Solid(x.protocolVersion)
    ensures Solid(IrJson(x))
  {
    SolidNodesArray(x.nodes);
    SolidEdgesArray(x.edges);
    var fs := [Field("nodes", Arr(NodesJson(x.nodes))), Field("edges", Arr(EdgesJson(x.edges))),
               Field("protocolVersion", x.protocolVersion), Field("compilerVersion", Str(COMPILER_VERSION))];
    assert FieldsEquiv(fs, fs);
    LiteralEquiv(fs, fs);
    ObjectEquiv(Literal(fs), Literal(fs));
  }

  /** Representations with the same hash, when the hash has no collision on their two texts, have the same
      nodes up to key order and the same edges. */
  lemma IrHashBinds(x: Ir, y: Ir, h: string -> string)
    requires AllSolid(x.nodes) && AllSolid(y.nodes) && Solid(x.protocolVersion) && Solid(y.protocolVersion)
    requires h(IrText(x)) == h(IrText(y)) && (h(IrText(x)) == h(IrText(y)) ==> IrText(x) == IrText(y))
    ensures AllEquiv(NodesJson(x.nodes), NodesJson(y.nodes)) && x.edges == y.edges
  {
    SolidIr(x);
    SolidIr(y);
    SolidIsWellFormed(IrJson(x));
    SolidIsWellFormed(IrJson(y));
    CanonicalIs(IrJson(x));
    CanonicalIs(IrJson(y));
    CanonicalIffSameMeaning(IrJson(x), IrJson(y));
    IrFields(x);
    IrFields(y);
    assert PROTO[0] == '_';
    GetEquiv(IrJson(x), IrJson(y), "nodes");
    GetEquiv(IrJson(x), IrJson(y), "edges");
    ArrayEquiv(NodesJson(x.nodes), NodesJson(y.nodes));
    ArrayEquiv(EdgesJson(x.edges), EdgesJson(y.edges));
    assert |x.edges| == |EdgesJson(x.edges)| && |y.edges| == |EdgesJson(y.edges)|;
    forall i | 0 <= i < |x.edges| ensures x.edges[i] == y.edges[i] {
      assert EdgesJson(x.edges)[i] == EdgeJson(x.edges[i]) && EdgesJson(y.edges)[i] == EdgeJson(y.edges[i]);
      EdgeJsonInjective(x.edges[i], y.edges[i]);
    }
  }
}

// The generator of TLA+ modules from state machines: the transitions it extracts, the operator names it
// gives them, and the specification that the emitted definitions amount to. The case conversion and the
// collation order of the host language are parameters.

module TlaNames {
  import opened Text

  function Numbered(op: string, n: nat): string {
    op + ("_" + NatText(n))
  }

  lemma NumberedInjective(op: string, a: nat, b: nat)
    requires Numbered(op, a) == Numbered(op, b)
    ensures a == b
  {
    assert Numbered(op, a)[|op| + 1..] == NatText(a) && Numbered(op, b)[|op| + 1..] == NatText(b);
    NatTextInjective(a, b);
  }

  /** `n` is the first number, from 2 on, whose name is not taken. */
  ghost predicate FirstFree(op: string, seen: set<string>, n: nat) {
    n >= 2 && Numbered(op, n) !in seen && forall k :: 2 <= k < n ==> Numbered(op, k) in seen
  }

  /** The names tried before `n` are all taken and all different, so there are no more of them than
      names taken: the search ends. */
  ghost predicate Tried(op: string, seen: set<string>, n: nat, tried: set<string>) {
    && n >= 2 && tried <= seen
    && (forall k :: 2 <= k < n ==> Numbered(op, k) in tried)
    && (forall s :: s in tried ==> exists k :: 2 <= k < n && s == Numbered(op, k))
  }

  lemma TriedNext(op: string, seen: set<string>, n: nat, tried: set<string>)
    requires Tried(op, seen, n, tried) && Numbered(op, n) in seen
    ensures Tried(op, seen, n + 1, tried + {Numbered(op, n)})
    ensures Numbered(op, n) !in tried && |tried + {Numbered(op, n)}| == |tried| + 1 <= |seen|
  {
    var next := tried + {Numbered(op, n)};
    if Numbered(op, n) in tried {
      var k :| 2 <= k < n && Numbered(op, n) == Numbered(op, k);
      NumberedInjective(op, n, k);
    }
    forall s | s in next ensures exists k :: 2 <= k < n + 1 && s == Numbered(op, k) {
      if s in tried {
        var k :| 2 <= k < n && s == Numbered(op, k);
      }
    }
    Cardinality(next, seen);
  }

  lemma {:induction false} Cardinality(a: set<string>, b: set<string>)
    requires a <= b
    ensures |a| <= |b|
  {
    if x :| x in a {
      Cardinality(a - {x}, b - {x});
    }
  }

  lemma FirstFreeUnique(op: string, seen: set<string>, a: nat, b: nat)
    requires FirstFree(op, seen, a) && FirstFree(op, seen, b)
    ensures a == b
  {
  }

  lemma {:induction false} FirstFreeFrom(op: string, seen: set<string>, n: nat, tried: set<string>)
    requires Tried(op, seen, n, tried)
    ensures exists k :: FirstFree(op, seen, k)
    decreases |seen| - |tried|
  {
    Cardinality(tried, seen);
    if Numbered(op, n) in seen {
      TriedNext(op, seen, n, tried);
      FirstFreeFrom(op, seen, n + 1, tried + {Numbered(op, n)});
    } else {
      assert FirstFree(op, seen, n);
    }
  }

  /** The name itself, or the first numbered one that is not taken. */
  ghost function Unique(op: string, seen: set<string>): string {
    if op !in seen then op
    else
      FirstFreeFrom(op, seen, 2, {});
      var n :| FirstFree(op, seen, n);
      Numbered(op, n)
  }

  method MakeUnique(op: string, seen: set<string>) returns (unique: string)
    ensures unique == Unique(op, seen) && unique !in seen
  {
    unique := op;
    var n := 2;
    ghost var tried: set<string> := {};
    while unique in seen
      invariant n >= 2 && unique == if n == 2 then op else Numbered(op, n - 1)
      invariant n > 2 ==> op in seen
      invariant Tried(op, seen, if n == 2 then 2 else n - 1, tried)
      decreases |seen| - |tried| + (if n == 2 then 1 else 0)
    {
      Cardinality(tried, seen);
      if n > 2 {
        TriedNext(op, seen, n - 1, tried);
        tried := tried + {unique};
      }
      unique := Numbered(op, n);
      n := n + 1;
    }
    if n > 2 {
      ghost var free :| FirstFree(op, seen, free) && Unique(op, seen) == Numbered(op, free);
      FirstFreeUnique(op, seen, n - 1, free);
    }
  }
}

module Tla {
  import opened Options
  import opened Text
  import opened Sorting
  import opened TlaNames

  /** A transition as written: a field that is absent or falsy is the empty string. */
  datatype Definition = Absent | Definition(name: Option<string>, from: string, to: string)

  datatype Entry = Entry(name: string, definition: Definition)

  datatype Transitions = Listed(items: seq<Definition>) | Keyed(entries: seq<Entry>)

  /** A state machine: the keys of its states, its transitions, its initial state and final states. */
  datatype Machine = Machine(
    states: seq<string>, transitions: Transitions, initial: Option<string>, finals: seq<string>)

  datatype Edge = Edge(from: string, to: string)

  datatype Action = Action(op: string, from: string, to: string)

  type Case = string -> string

  type Collation = (string, string) -> bool

  // ---- the transitions of a machine ----

  const MARKER := "_to_"

  /** `s.indexOf(w)` */
  function IndexOf(s: string, w: string): (r: int)
    ensures r == -1 || (0 <= r <= |s| && StartsWith(s[r..], w))
    ensures forall i :: 0 <= i <= |s| && (r == -1 || i < r) ==> !StartsWith(s[i..], w)
  {
    if StartsWith(s, w) then assert s[0..] == s; 0
    else if s == "" then -1
    else
      var r := IndexOf(s[1..], w);
      assert s[0..] == s && forall i :: 0 < i <= |s| ==> s[i..] == s[1..][i - 1..];
      if r == -1 then -1 else r + 1
  }

  /** `transitionEndpoints` */
  function Endpoints(e: Entry): Option<Edge> {
    if e.definition.Definition? && e.definition.from != "" && e.definition.to != ""
    then Some(Edge(e.definition.from, e.definition.to))
    else
      var i := IndexOf(e.name, MARKER);
      if i == -1 then None else Some(Edge(e.name[..i], e.name[i + |MARKER|..]))
  }

  /** Without both endpoints the name is split at its first marker, and a name without one gives nothing. */
  lemma EndpointsFromName(e: Entry, a: string, b: string)
    requires e.definition.Absent? || e.definition.from == "" || e.definition.to == ""
    ensures Endpoints(e) == Some(Edge(a, b))
       <==> e.name == a + (MARKER + b) && forall i :: 0 <= i < |a| ==> !StartsWith(e.name[i..], MARKER)
    ensures Endpoints(e) == None <==> forall i :: 0 <= i <= |e.name| ==> !StartsWith(e.name[i..], MARKER)
  {
    var i := IndexOf(e.name, MARKER);
    if e.name == a + (MARKER + b) {
      assert e.name[|a|..] == MARKER + b;
      assert StartsWith(e.name[|a|..], MARKER);
      assert e.name[..|a|] == a && e.name[|a| + |MARKER|..] == b;
    }
    if i != -1 {
      assert e.name[i..][..|MARKER|] == MARKER;
      assert e.name == e.name[..i] + (MARKER + e.name[i + |MARKER|..]);
    }
  }

  function Entries(ts: Transitions): seq<Entry> {
    match ts
    case Keyed(entries) => entries
    case Listed(items) =>
      seq(|items|, i requires 0 <= i < |items| =>
        Entry(if items[i].Definition? && items[i].name.Some? then items[i].name.value else NatText(i), items[i]))
  }

  /** The endpoints in order; nothing at all when a usable entry has no definition, since reading its
      trigger throws. */
  function Edges(es: seq<Entry>): Option<seq<Edge>> {
    if es == [] then Some([])
    else
      var front, e := Edges(es[..|es| - 1]), es[|es| - 1];
      var endpoints := Endpoints(e);
      if front.None? || endpoints.None? then front
      else if e.definition.Absent? then None
      else Some(front.value + [endpoints.value])
  }

  function BaseName(edge: Edge, upper: Case): string {
    var op := upper(edge.from) + ("_TO_" + upper(edge.to));
    if IsLetter(op[0]) then op else "T_" + op
  }

  ghost function OpNames(actions: seq<Action>): set<string> {
    set i | 0 <= i < |actions| :: actions[i].op
  }

  /** The actions in order of the transitions, each name different from those before it. */
  ghost function Actions(edges: seq<Edge>, upper: Case): seq<Action> {
    if edges == [] then []
    else
      var front, e := Actions(edges[..|edges| - 1], upper), edges[|edges| - 1];
      front + [Action(Unique(BaseName(e, upper), OpNames(front)), upper(e.from), upper(e.to))]
  }

  method CollectActions(entries: seq<Entry>, upper: Case) returns (actions: Option<seq<Action>>)
    ensures actions == match Edges(entries) case None => None case Some(edges) => Some(Actions(edges, upper))
  {
    var collected: seq<Action> := [];
    var seen: set<string> := {};
    ghost var edges: seq<Edge> := [];
    assert entries[..0] == [];
    for i := 0 to |entries|
      invariant Edges(entries[..i]) == Some(edges)
      invariant collected == Actions(edges, upper) && seen == OpNames(collected)
    {
      assert entries[..i + 1][..i] == entries[..i];
      var endpoints := Endpoints(entries[i]);
      if endpoints.None? { continue; }
      if entries[i].definition.Absent? {
        ThrowsEventually(entries, i + 1);
        return None;
      }
      var e := endpoints.value;
      var unique := MakeUnique(BaseName(e, upper), seen);
      var action := Action(unique, upper(e.from), upper(e.to));
      assert (edges + [e])[..|edges|] == edges;
      OpNamesAppend(collected, action);
      edges := edges + [e];
      seen := seen + {unique};
      collected := collected + [action];
    }
    assert entries[..|entries|] == entries;
    return Some(collected);
  }

  lemma OpNamesAppend(actions: seq<Action>, a: Action)
    ensures OpNames(actions + [a]) == OpNames(actions) + {a.op}
  {
    var all := actions + [a];
    forall s | s in OpNames(actions) ensures s in OpNames(all) {
      var i :| 0 <= i < |actions| && actions[i].op == s;
      assert all[i].op == s;
    }
    assert all[|actions|] == a;
  }

  lemma {:induction false} ThrowsEventually(es: seq<Entry>, i: nat)
    requires i <= |es| && Edges(es[..i]).None?
    ensures Edges(es).None?
    decreases |es| - i
  {
    if i < |es| {
      assert es[..i + 1][..i] == es[..i];
      ThrowsEventually(es, i + 1);
    } else {
      assert es[..i] == es;
    }
  }

  // ---- operator names ----

  predicate WordChar(c: char) {
    IsLetter(c) || IsDigit(c) || c == '_'
  }

  predicate Word(s: string) {
    forall i :: 0 <= i < |s| ==> WordChar(s[i])
  }

  /** The prefixes that TLA+ keeps for its fairness operators. */
  predicate Reserved(s: string) {
    StartsWith(s, "WF_") || StartsWith(s, "SF_")
  }

  /** What may stand to the left of `==`. */
  predicate IsIdentifier(s: string) {
    s != "" && IsLetter(s[0]) && Word(s) && !Reserved(s)
  }

  /** An upper-cased state whose outgoing actions get a reserved name. */
  predicate Fair(from: string) {
    from == "WF" || from == "SF" || Reserved(from)
  }

  /** The endpoints from which the generator makes an identifier. */
  predicate Nameable(e: Edge, upper: Case) {
    Word(upper(e.from)) && Word(upper(e.to)) && !Fair(upper(e.from))
  }

  lemma WordConcat(a: string, b: string)
    ensures Word(a + b) <==> Word(a) && Word(b)
  {
    var s := a + b;
    assert forall i :: 0 <= i < |a| ==> s[i] == a[i];
    assert forall i :: 0 <= i < |b| ==> s[|a| + i] == b[i];
    if Word(a) && Word(b) {
      forall i | 0 <= i < |s| ensures WordChar(s[i]) { assert s[i] == if i < |a| then a[i] else b[i - |a|]; }
    }
  }

  lemma {:induction false} NatTextIsWord(n: nat)
    ensures Word(NatText(n))
  {
    if n >= 10 { NatTextIsWord(n / 10); }
  }

  lemma UniqueIs(op: string, seen: set<string>)
    ensures Unique(op, seen) !in seen
    ensures Unique(op, seen) == op || exists n: nat :: Unique(op, seen) == Numbered(op, n)
  {
    if op in seen {
      FirstFreeFrom(op, seen, 2, {});
      ghost var n :| FirstFree(op, seen, n) && Unique(op, seen) == Numbered(op, n);
    }
  }

  lemma BaseNameIs(e: Edge, upper: Case)
    ensures IsLetter(BaseName(e, upper)[0])
    ensures Word(BaseName(e, upper)) <==> Word(upper(e.from)) && Word(upper(e.to))
    ensures exists i :: 0 <= i < |BaseName(e, upper)| && BaseName(e, upper)[i] == '_'
  {
    var from, to := upper(e.from), upper(e.to);
    var op := from + ("_TO_" + to);
    WordConcat(from, "_TO_" + to);
    WordConcat("_TO_", to);
    WordConcat("T_", op);
    assert op[|from|] == '_';
    assert ("T_" + op)[1] == '_';
    assert BaseName(e, upper) == op || BaseName(e, upper) == "T_" + op;
  }

  lemma ReservedAt(s: string)
    ensures Reserved(s) <==> |s| >= 3 && (s[0] == 'W' || s[0] == 'S') && s[1] == 'F' && s[2] == '_'
  {
    assert "WF_" == ['W', 'F', '_'] && "SF_" == ['S', 'F', '_'];
    if |s| >= 3 { assert s[..3] == [s[0], s[1], s[2]]; }
  }

  lemma FairAt(from: string)
    ensures Fair(from)
       <==> |from| >= 2 && (from[0] == 'W' || from[0] == 'S') && from[1] == 'F' && (|from| > 2 ==> from[2] == '_')
  {
    ReservedAt(from);
    assert "WF" == ['W', 'F'] && "SF" == ['S', 'F'];
    if |from| == 2 { assert from == [from[0], from[1]]; }
  }

  /** Only the name of a fair state leads to a reserved name. */
  lemma BaseNameReserved(e: Edge, upper: Case)
    ensures Reserved(BaseName(e, upper)) <==> Fair(upper(e.from))
  {
    var from := upper(e.from);
    var op := from + ("_TO_" + upper(e.to));
    ReservedAt(BaseName(e, upper));
    FairAt(from);
    assert op[|from|] == '_' && op[|from| + 1] == 'T';
    assert ("T_" + op)[0] == 'T';
    assert forall i :: 0 <= i < |from| ==> op[i] == from[i];
  }

  ghost predicate HasUnderscore(s: string) {
    exists i :: 0 <= i < |s| && s[i] == '_'
  }

  lemma UniqueKeeps(op: string, seen: set<string>)
    requires |op| >= 3 && IsLetter(op[0]) && HasUnderscore(op)
    ensures HasUnderscore(Unique(op, seen))
    ensures IsIdentifier(Unique(op, seen)) <==> Word(op) && !Reserved(op)
  {
    UniqueIs(op, seen);
    ReservedAt(op);
    ReservedAt(Unique(op, seen));
    if Unique(op, seen) != op {
      var n: nat :| Unique(op, seen) == Numbered(op, n);
      NatTextIsWord(n);
      WordConcat(op, "_" + NatText(n));
      WordConcat("_", NatText(n));
      assert Numbered(op, n)[0] == op[0] && Numbered(op, n)[|op|] == '_';
    }
  }

  /** The emitted action of an edge. */
  ghost predicate Renders(a: Action, e: Edge, upper: Case) {
    && a.from == upper(e.from) && a.to == upper(e.to)
    && HasUnderscore(a.op)
    && (IsIdentifier(a.op) <==> Nameable(e, upper))
  }

  ghost predicate AllRender(actions: seq<Action>, edges: seq<Edge>, upper: Case) {
    |actions| == |edges| && forall i :: 0 <= i < |edges| ==> Renders(actions[i], edges[i], upper)
  }

  ghost predicate OpsDistinct(actions: seq<Action>) {
    forall i, j :: 0 <= i < j < |actions| ==> actions[i].op != actions[j].op
  }

  lemma RenderOneMore(before: seq<Action>, a: Action, edges: seq<Edge>, upper: Case)
    requires edges != [] && AllRender(before, edges[..|edges| - 1], upper) && Renders(a, edges[|edges| - 1], upper)
    requires OpsDistinct(before) && a.op !in OpNames(before)
    ensures AllRender(before + [a], edges, upper) && OpsDistinct(before + [a])
  {
    forall i | 0 <= i < |before| ensures before[i].op in OpNames(before) {}
    assert forall i :: 0 <= i < |before| ==> edges[..|edges| - 1][i] == edges[i];
  }

  /** One action per edge, with its upper-cased endpoints, under a name that no other action has and that is
      an identifier exactly when both endpoints consist of letters, digits and underscores and the first is
      neither WF nor SF nor begins with WF_ or SF_. */
  lemma {:induction false} ActionsRender(edges: seq<Edge>, upper: Case)
    ensures AllRender(Actions(edges, upper), edges, upper) && OpsDistinct(Actions(edges, upper))
  {
    if edges != [] {
      var front, e := edges[..|edges| - 1], edges[|edges| - 1];
      var before := Actions(front, upper);
      ActionsRender(front, upper);
      RendersNew(e, OpNames(before), upper);
      RenderOneMore(before, Action(Unique(BaseName(e, upper), OpNames(before)), upper(e.from), upper(e.to)), edges,
                    upper);
    }
  }

  lemma RendersNew(e: Edge, taken: set<string>, upper: Case)
    ensures Renders(Action(Unique(BaseName(e, upper), taken), upper(e.from), upper(e.to)), e, upper)
    ensures Unique(BaseName(e, upper), taken) !in taken
  {
    BaseNameIs(e, upper);
    BaseNameReserved(e, upper);
    UniqueIs(BaseName(e, upper), taken);
    UniqueKeeps(BaseName(e, upper), taken);
  }

  /** A machine that leaves a state called `wf` gets an action whose name TLA+ does not accept. */
  lemma FairStateBreaksTheModule()
    ensures var actions := Actions([Edge("wf", "done")], ToUpper);
      |actions| == 1 && actions[0] == Action("WF_TO_DONE", "WF", "DONE") && !IsIdentifier(actions[0].op)
  {
    var edges := [Edge("wf", "done")];
    assert ToUpper("wf") == "WF" && ToUpper("done") == "DONE";
    assert "WF" + ("_TO_" + "DONE") == "WF_TO_DONE";
    assert edges[..0] == [] && Actions([], ToUpper) == [];
    assert OpNames([]) == {};
    ReservedAt("WF_TO_DONE");
  }
}

module TlaModel {
  import opened Options
  import opened Text
  import opened Sorting
  import opened Tla

  // ---- the emitted module ----

  /** What the emitted definitions say. */
  datatype Spec = Spec(states: seq<string>, finals: seq<string>, initial: string, actions: seq<Action>)

  const DEFAULT_STATES := ["INIT", "ACTIVE", "COMPLETED", "FAILED"]

  const DEFAULT_ACTIONS := [
    Action("INIT_TO_ACTIVE", "INIT", "ACTIVE"),
    Action("ACTIVE_TO_COMPLETED", "ACTIVE", "COMPLETED"),
    Action("ACTIVE_TO_FAILED", "ACTIVE", "FAILED")]

  function Uppers(names: seq<string>, upper: Case): seq<string> {
    seq(|names|, i requires 0 <= i < |names| => upper(names[i]))
  }

  function Declared(names: seq<string>, states: seq<string>): seq<string> {
    if names == [] then []
    else (if names[0] in states then [names[0]] else []) + Declared(names[1..], states)
  }

  function StatesOf(m: Machine, upper: Case): (r: seq<string>)
    ensures r != []
  {
    SortPermutes(m.states, TextLess);
    if m.states == [] then DEFAULT_STATES else Uppers(Sort(m.states, TextLess), upper)
  }

  function ByName(less: Collation): (Action, Action) -> bool {
    (a: Action, b: Action) => less(a.op, b.op)
  }

  function Emit(m: Machine, actions: seq<Action>, upper: Case, less: Collation): Spec {
    var states := StatesOf(m, upper);
    Spec(states, Sort(Declared(Uppers(m.finals, upper), states), TextLess),
         upper(if m.initial.Some? then m.initial.value else states[0]),
         Sort(if actions == [] then DEFAULT_ACTIONS else actions, ByName(less)))
  }

  /** The module for a machine whose transitions have the given endpoints. */
  ghost function Generate(m: Machine, edges: seq<Edge>, upper: Case, less: Collation): Spec {
    Emit(m, Actions(edges, upper), upper, less)
  }

  method GenerateTLA(m: Machine, upper: Case, less: Collation) returns (spec: Option<Spec>)
    ensures spec == match Edges(Entries(m.transitions))
                    case None => None
                    case Some(edges) => Some(Generate(m, edges, upper, less))
  {
    var actions := CollectActions(Entries(m.transitions), upper);
    spec := if actions.None? then None else Some(Emit(m, actions.value, upper, less));
  }

  // ---- what it means ----

  /** Values of the two TLA+ variables. */
  datatype Config = Config(state: string, visited: set<string>)

  const OTHER_NAMES := ["States", "FinalStates", "Init", "Terminated", "Next", "TypeOK", "ReachableStatesDeclared",
                        "CanTerminate", "Spec", "state", "visited"]

  /** The first action that a name refers to. */
  function Lookup(actions: seq<Action>, name: string): Option<Action> {
    if actions == [] then None else if actions[0].op == name then Some(actions[0]) else Lookup(actions[1..], name)
  }

  predicate Fires(a: Action, x: Config, y: Config) {
    x.state == a.from && y == Config(a.to, x.visited + {a.to})
  }

  predicate Terminated(s: Spec, x: Config, y: Config) {
    x.state in s.finals && y == x
  }

  /** The definition a name in `Next` refers to. */
  predicate Holds(s: Spec, name: string, x: Config, y: Config) {
    var a := Lookup(s.actions, name);
    if a.Some? then Fires(a.value, x, y) else name == "Terminated" && Terminated(s, x, y)
  }

  function NextNames(s: Spec): seq<string> {
    seq(|s.actions|, i requires 0 <= i < |s.actions| => s.actions[i].op) + ["Terminated"]
  }

  /** `Next`: the disjunction of the named definitions. */
  ghost predicate Next(s: Spec, x: Config, y: Config) {
    exists i :: 0 <= i < |NextNames(s)| && Holds(s, NextNames(s)[i], x, y)
  }

  /** A finite behaviour of `Init /\ [][Next]_<<state, visited>>`. */
  ghost predicate Behaviour(s: Spec, tr: seq<Config>) {
    && tr != [] && tr[0] == Config(s.initial, {s.initial})
    && forall i :: 0 <= i < |tr| - 1 ==> Next(s, tr[i], tr[i + 1]) || tr[i + 1] == tr[i]
  }

  // ---- names resolve ----

  /** Action names are distinct and none is the name of another definition or of a variable. */
  ghost predicate NamesResolve(s: Spec) {
    && OpsDistinct(s.actions)
    && (forall i :: 0 <= i < |s.actions| ==> s.actions[i].op !in OTHER_NAMES)
  }

  lemma NoOtherHasUnderscore(name: string)
    requires HasUnderscore(name)
    ensures name !in OTHER_NAMES
  {
  }

  lemma {:induction false} LookupFinds(actions: seq<Action>, i: nat)
    requires i < |actions| && OpsDistinct(actions)
    ensures Lookup(actions, actions[i].op) == Some(actions[i])
  {
    if i > 0 { LookupFinds(actions[1..], i - 1); }
  }

  lemma {:induction false} LookupNone(actions: seq<Action>, name: string)
    requires forall i :: 0 <= i < |actions| ==> actions[i].op != name
    ensures Lookup(actions, name) == None
  {
    if actions != [] { LookupNone(actions[1..], name); }
  }

  /** When names resolve, `Next` is some action or the final stuttering. */
  lemma NextMeans(s: Spec, x: Config, y: Config)
    requires NamesResolve(s)
    ensures Next(s, x, y) <==> (exists i :: 0 <= i < |s.actions| && Fires(s.actions[i], x, y)) || Terminated(s, x, y)
  {
    var names, n := NextNames(s), |s.actions|;
    assert "Terminated" in OTHER_NAMES by { assert OTHER_NAMES[3] == "Terminated"; }
    LookupNone(s.actions, "Terminated");
    assert names[n] == "Terminated";
    assert Holds(s, names[n], x, y) <==> Terminated(s, x, y);
    forall i | 0 <= i < n ensures Holds(s, names[i], x, y) <==> Fires(s.actions[i], x, y) {
      LookupFinds(s.actions, i);
    }
    assert |names| == n + 1;
  }

  lemma SortKeepsOps(actions: seq<Action>, lt: (Action, Action) -> bool)
    requires OpsDistinct(actions)
    ensures OpsDistinct(Sort(actions, lt))
    ensures forall a :: a in Sort(actions, lt) <==> a in actions
  {
    var r := Sort(actions, lt);
    SortPermutes(actions, lt);
    assert forall a :: a in r <==> a in multiset(r);
    assert forall a :: a in actions <==> a in multiset(actions);
    PermutationStaysDistinct(actions, r);
    forall i, j | 0 <= i < j < |r| ensures r[i].op != r[j].op {
      assert r[i] in actions && r[j] in actions;
      var a :| 0 <= a < |actions| && actions[a] == r[i];
      var b :| 0 <= b < |actions| && actions[b] == r[j];
      assert a != b;
    }
  }

  lemma DefaultsResolve()
    ensures OpsDistinct(DEFAULT_ACTIONS)
    ensures forall i :: 0 <= i < |DEFAULT_ACTIONS| ==> HasUnderscore(DEFAULT_ACTIONS[i].op)
  {
    assert "INIT_TO_ACTIVE"[4] == '_' && "ACTIVE_TO_COMPLETED"[6] == '_' && "ACTIVE_TO_FAILED"[6] == '_';
    assert "INIT_TO_ACTIVE"[0] == 'I' && "ACTIVE_TO_COMPLETED"[10] == 'C' && "ACTIVE_TO_FAILED"[10] == 'F';
    assert "ACTIVE_TO_COMPLETED"[0] == 'A' && "ACTIVE_TO_FAILED"[0] == 'A';
  }

  /** The actions before sorting. */
  ghost function Unsorted(edges: seq<Edge>, upper: Case): seq<Action> {
    if edges == [] then DEFAULT_ACTIONS else Actions(edges, upper)
  }

  lemma GeneratedActions(m: Machine, edges: seq<Edge>, upper: Case, less: Collation)
    ensures forall a :: a in Generate(m, edges, upper, less).actions <==> a in Unsorted(edges, upper)
    ensures OpsDistinct(Generate(m, edges, upper, less).actions)
    ensures forall a :: a in Unsorted(edges, upper) ==> HasUnderscore(a.op)
  {
    DefaultsResolve();
    ActionsRender(edges, upper);
    SortKeepsOps(Unsorted(edges, upper), ByName(less));
  }

  /** Every generated module has distinct action names, none of which hides or repeats another definition. */
  lemma GeneratedNamesResolve(m: Machine, edges: seq<Edge>, upper: Case, less: Collation)
    ensures NamesResolve(Generate(m, edges, upper, less))
  {
    var s := Generate(m, edges, upper, less);
    GeneratedActions(m, edges, upper, less);
    forall i | 0 <= i < |s.actions| ensures s.actions[i].op !in OTHER_NAMES {
      assert s.actions[i] in s.actions;
      NoOtherHasUnderscore(s.actions[i].op);
    }
  }
}

module TlaSimulation {
  import opened Options
  import opened Text
  import opened Sorting
  import opened Tla
  import opened TlaModel

  // ---- runs of the machine itself ----

  /** Where the machine starts: as written, or else in the first of its states. */
  function SourceInitial(m: Machine): string {
    SortPermutes(m.states, TextLess);
    if m.initial.Some? then m.initial.value else if m.states == [] then "INIT" else Sort(m.states, TextLess)[0]
  }

  ghost predicate SourceRun(m: Machine, edges: seq<Edge>, names: seq<string>) {
    && names != [] && names[0] == SourceInitial(m)
    && forall i :: 0 <= i < |names| - 1 ==> Edge(names[i], names[i + 1]) in edges
  }

  /** The states visited up to `i`, upper-cased. */
  function Visited(names: seq<string>, i: int, upper: Case): set<string> {
    set j | 0 <= j < |names| && j <= i :: upper(names[j])
  }

  /** The upper-cased trace. */
  function Lift(names: seq<string>, upper: Case): (r: seq<Config>)
    ensures |r| == |names|
  {
    seq(|names|, i requires 0 <= i < |names| => Config(upper(names[i]), Visited(names, i, upper)))
  }

  ghost predicate Idempotent(upper: Case) {
    forall s :: upper(upper(s)) == upper(s)
  }

  lemma InitialAgrees(m: Machine, edges: seq<Edge>, upper: Case, less: Collation)
    requires Idempotent(upper)
    ensures Generate(m, edges, upper, less).initial == upper(SourceInitial(m))
  {
    SortPermutes(m.states, TextLess);
    if m.initial.None? && m.states != [] {
      var k := Sort(m.states, TextLess)[0];
      assert upper(upper(k)) == upper(k);
    }
  }

  lemma LiftStep(names: seq<string>, i: nat, upper: Case)
    requires i + 1 < |names|
    ensures Visited(names, i + 1, upper) == Visited(names, i, upper) + {upper(names[i + 1])}
  {
  }

  /** The upper-cased trace of every run of the machine is a behaviour of the emitted module. */
  lemma Simulates(m: Machine, edges: seq<Edge>, upper: Case, less: Collation, names: seq<string>)
    requires Idempotent(upper) && SourceRun(m, edges, names)
    ensures Behaviour(Generate(m, edges, upper, less), Lift(names, upper))
  {
    var s, tr := Generate(m, edges, upper, less), Lift(names, upper);
    InitialAgrees(m, edges, upper, less);
    assert Visited(names, 0, upper) == {upper(names[0])};
    GeneratedNamesResolve(m, edges, upper, less);
    forall i | 0 <= i < |tr| - 1 ensures Next(s, tr[i], tr[i + 1]) {
      StepFires(m, edges, upper, less, Edge(names[i], names[i + 1]), tr[i], tr[i + 1]) by { LiftStep(names, i, upper); }
      NextMeans(s, tr[i], tr[i + 1]);
    }
  }

  lemma StepFires(m: Machine, edges: seq<Edge>, upper: Case, less: Collation, e: Edge, x: Config, y: Config)
    requires e in edges && x.state == upper(e.from) && y == Config(upper(e.to), x.visited + {upper(e.to)})
    ensures var s := Generate(m, edges, upper, less); exists i :: 0 <= i < |s.actions| && Fires(s.actions[i], x, y)
  {
    var s := Generate(m, edges, upper, less);
    ActionsRender(edges, upper);
    GeneratedActions(m, edges, upper, less);
    var k :| 0 <= k < |edges| && edges[k] == e;
    var a := Actions(edges, upper)[k];
    assert Renders(a, e, upper);
    assert a in Unsorted(edges, upper);
    assert a in s.actions;
    var i :| 0 <= i < |s.actions| && s.actions[i] == a;
    assert Fires(s.actions[i], x, y);
  }

  // ---- and back ----

  /** A behaviour without its stuttering steps. */
  function Compress(tr: seq<Config>): seq<Config> {
    if |tr| <= 1 then tr
    else
      var front := tr[..|tr| - 1];
      if tr[|tr| - 1] == front[|front| - 1] then Compress(front) else Compress(front) + [tr[|tr| - 1]]
  }

  /** Upper-casing tells the states of the machine apart. */
  ghost predicate TellsApart(upper: Case, m: Machine, edges: seq<Edge>) {
    && (forall e, f :: e in edges && f in edges && upper(e.to) == upper(f.from) ==> e.to == f.from)
    && (forall e :: e in edges && upper(SourceInitial(m)) == upper(e.from) ==> SourceInitial(m) == e.from)
  }

  ghost predicate Retraced(m: Machine, edges: seq<Edge>, upper: Case, tr: seq<Config>, names: seq<string>) {
    && SourceRun(m, edges, names) && Compress(tr) == Lift(names, upper)
    && tr != [] && tr[|tr| - 1] == Lift(names, upper)[|names| - 1]
  }

  lemma LiftAppend(names: seq<string>, b: string, upper: Case)
    requires names != []
    ensures Lift(names + [b], upper)
         == Lift(names, upper) + [Config(upper(b), Visited(names, |names| - 1, upper) + {upper(b)})]
  {
    var all, n := names + [b], |names|;
    forall i | 0 <= i < n ensures Visited(all, i, upper) == Visited(names, i, upper) {
      assert forall j :: 0 <= j <= i ==> all[j] == names[j];
    }
    assert all[n] == b;
    LiftStep(all, n - 1, upper);
  }

  lemma FiringIsAnEdge(m: Machine, edges: seq<Edge>, upper: Case, less: Collation, x: Config, y: Config)
    requires edges != [] && Next(Generate(m, edges, upper, less), x, y) && y != x
    ensures exists e :: e in edges && x.state == upper(e.from) && y == Config(upper(e.to), x.visited + {upper(e.to)})
  {
    var s := Generate(m, edges, upper, less);
    GeneratedNamesResolve(m, edges, upper, less);
    NextMeans(s, x, y);
    var i :| 0 <= i < |s.actions| && Fires(s.actions[i], x, y);
    var e := ActionIsAnEdge(m, edges, upper, less, s.actions[i]);
  }

  lemma ActionIsAnEdge(m: Machine, edges: seq<Edge>, upper: Case, less: Collation, a: Action) returns (e: Edge)
    requires edges != [] && a in Generate(m, edges, upper, less).actions
    ensures e in edges && a.from == upper(e.from) && a.to == upper(e.to)
  {
    GeneratedActions(m, edges, upper, less);
    ActionsRender(edges, upper);
    var actions := Actions(edges, upper);
    var k :| 0 <= k < |actions| && actions[k] == a;
    assert Renders(actions[k], edges[k], upper);
    e := edges[k];
  }

  lemma ExtendRun(m: Machine, edges: seq<Edge>, upper: Case, names: seq<string>, e: Edge)
    requires TellsApart(upper, m, edges) && SourceRun(m, edges, names) && e in edges
    requires upper(names[|names| - 1]) == upper(e.from)
    ensures SourceRun(m, edges, names + [e.to])
  {
    var all, n := names + [e.to], |names|;
    if n > 1 {
      assert Edge(names[n - 2], names[n - 2 + 1]) in edges;
      assert Edge(names[n - 2], names[n - 1]) in edges;
    }
    assert names[n - 1] == e.from;
    forall i | 0 <= i < |all| - 1 ensures Edge(all[i], all[i + 1]) in edges {
      if i < n - 1 { assert Edge(names[i], names[i + 1]) in edges; }
    }
  }

  lemma RetraceStart(m: Machine, edges: seq<Edge>, upper: Case, x: Config)
    requires x == Config(upper(SourceInitial(m)), {upper(SourceInitial(m))})
    ensures Retraced(m, edges, upper, [x], [SourceInitial(m)])
  {
    var names := [SourceInitial(m)];
    assert Visited(names, 0, upper) == {upper(names[0])};
    assert Lift(names, upper) == [x];
  }

  lemma RetraceStutter(m: Machine, edges: seq<Edge>, upper: Case, front: seq<Config>, names: seq<string>)
    requires Retraced(m, edges, upper, front, names)
    ensures Retraced(m, edges, upper, front + [front[|front| - 1]], names)
  {
    var tr := front + [front[|front| - 1]];
    assert tr[..|tr| - 1] == front;
  }

  lemma RetraceEdge(m: Machine, edges: seq<Edge>, upper: Case, front: seq<Config>, names: seq<string>, e: Edge)
    requires TellsApart(upper, m, edges) && Retraced(m, edges, upper, front, names) && e in edges
    requires front[|front| - 1].state == upper(e.from)
    requires var x := front[|front| - 1]; Config(upper(e.to), x.visited + {upper(e.to)}) != x
    ensures var x := front[|front| - 1];
      Retraced(m, edges, upper, front + [Config(upper(e.to), x.visited + {upper(e.to)})], names + [e.to])
  {
    var x := front[|front| - 1];
    var y := Config(upper(e.to), x.visited + {upper(e.to)});
    var tr := front + [y];
    assert tr[..|tr| - 1] == front;
    ExtendRun(m, edges, upper, names, e);
    LiftAppend(names, e.to, upper);
  }

  /** One more step of the behaviour: it stutters, or follows an edge. */
  lemma RetraceStep(m: Machine, edges: seq<Edge>, upper: Case, less: Collation, front: seq<Config>, y: Config,
                    names: seq<string>)
    requires edges != [] && TellsApart(upper, m, edges) && Retraced(m, edges, upper, front, names)
    requires y == front[|front| - 1] || Next(Generate(m, edges, upper, less), front[|front| - 1], y)
    ensures exists ns :: Retraced(m, edges, upper, front + [y], ns)
  {
    var x := front[|front| - 1];
    if y == x {
      RetraceStutter(m, edges, upper, front, names);
    } else {
      FiringIsAnEdge(m, edges, upper, less, x, y);
      var e :| e in edges && x.state == upper(e.from) && y == Config(upper(e.to), x.visited + {upper(e.to)});
      RetraceEdge(m, edges, upper, front, names, e);
    }
  }

  ghost predicate HasRun(m: Machine, edges: seq<Edge>, upper: Case, tr: seq<Config>) {
    exists names :: Retraced(m, edges, upper, tr, names)
  }

  lemma RetraceMore(m: Machine, edges: seq<Edge>, upper: Case, less: Collation, front: seq<Config>, y: Config)
    requires edges != [] && TellsApart(upper, m, edges) && HasRun(m, edges, upper, front) && front != []
    requires y == front[|front| - 1] || Next(Generate(m, edges, upper, less), front[|front| - 1], y)
    ensures HasRun(m, edges, upper, front + [y])
  {
    var names :| Retraced(m, edges, upper, front, names);
    RetraceStep(m, edges, upper, less, front, y, names);
  }

  lemma {:induction false} Retrace(m: Machine, edges: seq<Edge>, upper: Case, less: Collation, s: Spec, tr: seq<Config>)
    requires Idempotent(upper) && edges != [] && TellsApart(upper, m, edges)
    requires s == Generate(m, edges, upper, less) && Behaviour(s, tr)
    ensures HasRun(m, edges, upper, tr)
    decreases |tr|
  {
    var n := |tr|;
    if n == 1 {
      RetraceOne(m, edges, upper, less, s, tr);
    } else {
      var front := tr[..n - 1];
      BehaviourPrefix(s, tr, n - 1);
      LastStep(s, tr);
      SplitLast(tr);
      Retrace(m, edges, upper, less, s, front);
      RetraceMore(m, edges, upper, less, front, tr[n - 1]);
    }
  }

  lemma RetraceOne(m: Machine, edges: seq<Edge>, upper: Case, less: Collation, s: Spec, tr: seq<Config>)
    requires Idempotent(upper) && s == Generate(m, edges, upper, less) && Behaviour(s, tr) && |tr| == 1
    ensures Retraced(m, edges, upper, tr, [SourceInitial(m)])
  {
    InitialAgrees(m, edges, upper, less);
    RetraceStart(m, edges, upper, tr[0]);
    assert tr == [tr[0]];
  }

  lemma SplitLast(tr: seq<Config>)
    requires |tr| > 1
    ensures tr == tr[..|tr| - 1] + [tr[|tr| - 1]] && tr[..|tr| - 1][|tr| - 2] == tr[|tr| - 2]
  {
  }

  lemma LastStep(s: Spec, tr: seq<Config>)
    requires Behaviour(s, tr) && |tr| > 1
    ensures Next(s, tr[|tr| - 2], tr[|tr| - 1]) || tr[|tr| - 1] == tr[|tr| - 2]
  {
    var i := |tr| - 2;
    assert Next(s, tr[i], tr[i + 1]) || tr[i + 1] == tr[i];
  }

  /** Upper-casing tells the states of the machine apart; without transitions, it starts where no default
      action does. */
  ghost predicate Unambiguous(m: Machine, edges: seq<Edge>, upper: Case) {
    if edges != [] then TellsApart(upper, m, edges)
    else upper(SourceInitial(m)) != "INIT" && upper(SourceInitial(m)) != "ACTIVE"
  }

  /** Then every behaviour of the emitted module is, stuttering aside, the upper-cased trace of a run of the
      machine. */
  lemma BehavioursAreRuns(m: Machine, edges: seq<Edge>, upper: Case, less: Collation, tr: seq<Config>)
    requires Idempotent(upper) && Unambiguous(m, edges, upper)
    requires Behaviour(Generate(m, edges, upper, less), tr)
    ensures exists names :: SourceRun(m, edges, names) && Compress(tr) == Lift(names, upper)
  {
    if edges != [] {
      Retrace(m, edges, upper, less, Generate(m, edges, upper, less), tr);
      var names :| Retraced(m, edges, upper, tr, names);
    } else {
      DefaultsNeverFire(m, upper, less, Generate(m, edges, upper, less), tr);
    }
  }

  // ---- exactly when the module adds nothing ----

  /** Every behaviour of the emitted module is, stuttering aside, the trace of a run. */
  ghost predicate AddsNothing(m: Machine, edges: seq<Edge>, upper: Case, less: Collation) {
    forall tr :: Behaviour(Generate(m, edges, upper, less), tr) ==>
      exists names :: SourceRun(m, edges, names) && Compress(tr) == Lift(names, upper)
  }

  /** Every step of the run changes the upper-cased state. */
  predicate Moves(names: seq<string>, upper: Case) {
    forall i :: 0 <= i < |names| - 1 ==> upper(names[i]) != upper(names[i + 1])
  }

  function Upped(names: seq<string>, upper: Case): (r: seq<string>)
    ensures |r| == |names| && forall i :: 0 <= i < |names| ==> r[i] == upper(names[i])
  {
    seq(|names|, i requires 0 <= i < |names| => upper(names[i]))
  }

  /** A run that looks like `names` in upper case can go on to a state that looks like `to`. */
  ghost predicate Followed(m: Machine, edges: seq<Edge>, upper: Case, names: seq<string>, to: string) {
    exists ns, e :: SourceRun(m, edges, ns) && Upped(ns, upper) == Upped(names, upper)
                    && e in edges && e.from == ns[|ns| - 1] && upper(e.to) == upper(to)
  }

  /** Whatever upper-casing merges, the machine can do: where a run stands, in upper case, at the start of an
      edge, some run that looks the same can take a step that looks the same. */
  ghost predicate MergesNothing(m: Machine, edges: seq<Edge>, upper: Case) {
    forall names, f ::
      SourceRun(m, edges, names) && Moves(names, upper) && f in edges
      && upper(f.from) == upper(names[|names| - 1]) && upper(f.to) != upper(f.from)
      ==> Followed(m, edges, upper, names, f.to)
  }

  lemma SameUppedSameLift(a: seq<string>, b: seq<string>, upper: Case)
    requires Upped(a, upper) == Upped(b, upper)
    ensures Lift(a, upper) == Lift(b, upper)
  {
    var n := |Upped(a, upper)|;
    assert |a| == |b| == n;
    forall i | 0 <= i < n ensures upper(a[i]) == upper(b[i]) { assert Upped(a, upper)[i] == Upped(b, upper)[i]; }
    forall i | 0 <= i < n ensures Visited(a, i, upper) == Visited(b, i, upper) {}
  }

  lemma SameLiftSameUpped(a: seq<string>, b: seq<string>, upper: Case)
    requires Lift(a, upper) == Lift(b, upper)
    ensures Upped(a, upper) == Upped(b, upper)
  {
    assert |a| == |Lift(a, upper)| && |b| == |Lift(b, upper)|;
    forall i | 0 <= i < |a| ensures upper(a[i]) == upper(b[i]) { assert Lift(a, upper)[i] == Lift(b, upper)[i]; }
  }

  lemma LiftPrefix(names: seq<string>, upper: Case)
    requires |names| > 1
    ensures Lift(names[..|names| - 1], upper) == Lift(names, upper)[..|names| - 1]
  {
    var front := names[..|names| - 1];
    forall i | 0 <= i < |front| ensures Visited(front, i, upper) == Visited(names, i, upper) {
      assert forall j :: 0 <= j <= i ==> front[j] == names[j];
    }
  }

  lemma CompressMore(front: seq<Config>, y: Config)
    requires front != [] && y != front[|front| - 1]
    ensures Compress(front + [y]) == Compress(front) + [y]
  {
    assert (front + [y])[..|front|] == front;
  }

  lemma LiftLast(names: seq<string>, upper: Case)
    requires |names| > 1 && upper(names[|names| - 2]) != upper(names[|names| - 1])
    ensures var front, tr := names[..|names| - 1], Lift(names, upper);
      tr == Lift(front, upper) + [tr[|tr| - 1]] && tr[|tr| - 1] != Lift(front, upper)[|front| - 1]
  {
    LiftPrefix(names, upper);
  }

  /** The trace of a run that moves does not stutter. */
  lemma {:induction false} MovingIsCompressed(names: seq<string>, upper: Case)
    requires names != [] && Moves(names, upper)
    ensures Compress(Lift(names, upper)) == Lift(names, upper)
  {
    var n := |names|;
    if n > 1 {
      var front := names[..n - 1];
      assert Moves(front, upper);
      MovingIsCompressed(front, upper);
      assert upper(names[n - 2]) != upper(names[n - 2 + 1]);
      LiftLast(names, upper);
      CompressMore(Lift(front, upper), Lift(names, upper)[n - 1]);
    }
  }

  lemma RunPrefix(m: Machine, edges: seq<Edge>, names: seq<string>)
    requires SourceRun(m, edges, names) && |names| > 1
    ensures SourceRun(m, edges, names[..|names| - 1])
    ensures Edge(names[|names| - 2], names[|names| - 1]) in edges
  {
    var n := |names|;
    var front := names[..n - 1];
    forall i | 0 <= i < |front| - 1 ensures Edge(front[i], front[i + 1]) in edges {
      assert Edge(names[i], names[i + 1]) in edges;
    }
    assert Edge(names[n - 2], names[n - 2 + 1]) in edges;
  }

  /** One way: the behaviour that takes the merged step is the trace of a run. */
  lemma MergedIsFollowed(m: Machine, edges: seq<Edge>, upper: Case, less: Collation, names: seq<string>, f: Edge)
    requires Idempotent(upper) && AddsNothing(m, edges, upper, less) && SourceRun(m, edges, names)
    requires Moves(names, upper)
    requires f in edges && upper(f.from) == upper(names[|names| - 1]) && upper(f.to) != upper(f.from)
    ensures Followed(m, edges, upper, names, f.to)
  {
    var y := MergedStep(m, edges, upper, less, names, f);
    MovedOn(names, y, upper);
    var all := SomeRun(m, edges, upper, less, Lift(names, upper) + [y]);
    FollowedBy(m, edges, upper, names, y, all, f.to);
  }

  lemma MergedStep(m: Machine, edges: seq<Edge>, upper: Case, less: Collation, names: seq<string>, f: Edge)
    returns (y: Config)
    requires Idempotent(upper) && SourceRun(m, edges, names) && f in edges && upper(f.from) == upper(names[|names| - 1])
    ensures y.state == upper(f.to) && Behaviour(Generate(m, edges, upper, less), Lift(names, upper) + [y])
  {
    Simulates(m, edges, upper, less, names);
    LastIsVisited(names, upper);
    y := NextEdgeStep(m, edges, upper, less, Lift(names, upper), f);
  }

  lemma MovedOn(names: seq<string>, y: Config, upper: Case)
    requires names != [] && Moves(names, upper) && y.state != upper(names[|names| - 1])
    ensures Compress(Lift(names, upper) + [y]) == Lift(names, upper) + [y]
  {
    MovingIsCompressed(names, upper);
    CompressMore(Lift(names, upper), y);
  }

  lemma SomeRun(m: Machine, edges: seq<Edge>, upper: Case, less: Collation, tr: seq<Config>)
    returns (names: seq<string>)
    requires AddsNothing(m, edges, upper, less) && Behaviour(Generate(m, edges, upper, less), tr)
    ensures SourceRun(m, edges, names) && Compress(tr) == Lift(names, upper)
  {
    names :| SourceRun(m, edges, names) && Compress(tr) == Lift(names, upper);
  }

  lemma FollowedBy(m: Machine, edges: seq<Edge>, upper: Case, names: seq<string>, y: Config, all: seq<string>,
                   to: string)
    requires SourceRun(m, edges, all) && names != [] && Lift(names, upper) + [y] == Lift(all, upper)
    requires y.state == upper(to)
    ensures Followed(m, edges, upper, names, to)
  {
    var n := |names|;
    assert |all| == |Lift(all, upper)| == n + 1;
    var ns := all[..n];
    RunPrefix(m, edges, all);
    LiftPrefix(all, upper);
    assert Lift(ns, upper) == (Lift(names, upper) + [y])[..n] == Lift(names, upper);
    SameLiftSameUpped(ns, names, upper);
    var e := Edge(all[n - 1], all[n]);
    assert Lift(all, upper)[n] == y;
    assert e in edges && e.from == ns[n - 1] && upper(e.to) == upper(to);
  }

  /** A behaviour retraced by a run that moves. */
  ghost predicate RetracedMoving(m: Machine, edges: seq<Edge>, upper: Case, tr: seq<Config>, names: seq<string>) {
    Retraced(m, edges, upper, tr, names) && Moves(names, upper)
  }

  lemma UppedMoves(a: seq<string>, b: seq<string>, upper: Case)
    requires Upped(a, upper) == Upped(b, upper) && Moves(a, upper)
    ensures Moves(b, upper)
  {
    assert |a| == |Upped(a, upper)| && |b| == |Upped(b, upper)|;
    forall i | 0 <= i < |b| - 1 ensures upper(b[i]) != upper(b[i + 1]) {
      assert Upped(a, upper)[i] == Upped(b, upper)[i] && Upped(a, upper)[i + 1] == Upped(b, upper)[i + 1];
      assert upper(a[i]) != upper(a[i + 1]);
    }
  }

  lemma TakeStep(m: Machine, edges: seq<Edge>, upper: Case, front: seq<Config>, ns: seq<string>, e: Edge)
    requires RetracedMoving(m, edges, upper, front, ns) && e in edges && e.from == ns[|ns| - 1]
    requires upper(e.to) != upper(e.from)
    ensures var x := front[|front| - 1];
      RetracedMoving(m, edges, upper, front + [Config(upper(e.to), x.visited + {upper(e.to)})], ns + [e.to])
  {
    var x := front[|front| - 1];
    var y := Config(upper(e.to), x.visited + {upper(e.to)});
    var all, tr, n := ns + [e.to], front + [y], |ns|;
    forall i | 0 <= i < |all| - 1 ensures Edge(all[i], all[i + 1]) in edges && upper(all[i]) != upper(all[i + 1]) {
      if i < n - 1 {
        assert Edge(ns[i], ns[i + 1]) in edges && upper(ns[i]) != upper(ns[i + 1]);
      } else {
        assert e == Edge(ns[n - 1], e.to);
      }
    }
    LiftAppend(ns, e.to, upper);
    assert tr[..|tr| - 1] == front && x.state == upper(ns[n - 1]);
  }

  ghost predicate HasMovingRun(m: Machine, edges: seq<Edge>, upper: Case, tr: seq<Config>) {
    exists names :: RetracedMoving(m, edges, upper, tr, names)
  }

  /** A run that looks the same retraces as well. */
  lemma SwitchRun(m: Machine, edges: seq<Edge>, upper: Case, front: seq<Config>, names: seq<string>, ns: seq<string>)
    requires RetracedMoving(m, edges, upper, front, names) && SourceRun(m, edges, ns)
    requires Upped(ns, upper) == Upped(names, upper)
    ensures RetracedMoving(m, edges, upper, front, ns)
    ensures upper(ns[|ns| - 1]) == upper(names[|names| - 1])
  {
    SameUppedSameLift(ns, names, upper);
    UppedMoves(names, ns, upper);
    SameLast(names, ns, upper);
  }

  lemma TakeFollowed(m: Machine, edges: seq<Edge>, upper: Case, front: seq<Config>, y: Config, names: seq<string>,
                     to: string)
    requires RetracedMoving(m, edges, upper, front, names) && Followed(m, edges, upper, names, to)
    requires upper(to) != upper(names[|names| - 1])
    requires y == Config(upper(to), front[|front| - 1].visited + {upper(to)})
    ensures HasMovingRun(m, edges, upper, front + [y])
  {
    var ns, e :| SourceRun(m, edges, ns) && Upped(ns, upper) == Upped(names, upper)
                 && e in edges && e.from == ns[|ns| - 1] && upper(e.to) == upper(to);
    SwitchRun(m, edges, upper, front, names, ns);
    TakeStep(m, edges, upper, front, ns, e);
  }

  lemma IsFollowed(m: Machine, edges: seq<Edge>, upper: Case, names: seq<string>, f: Edge)
    requires MergesNothing(m, edges, upper) && SourceRun(m, edges, names) && Moves(names, upper) && f in edges
    requires upper(f.from) == upper(names[|names| - 1]) && upper(f.to) != upper(f.from)
    ensures Followed(m, edges, upper, names, f.to)
  {
  }

  lemma MovingStep(m: Machine, edges: seq<Edge>, upper: Case, less: Collation, front: seq<Config>, y: Config,
                   names: seq<string>)
    requires edges != [] && MergesNothing(m, edges, upper) && RetracedMoving(m, edges, upper, front, names)
    requires y == front[|front| - 1] || Next(Generate(m, edges, upper, less), front[|front| - 1], y)
    ensures HasMovingRun(m, edges, upper, front + [y])
  {
    var x := front[|front| - 1];
    if y == x {
      RetraceStutter(m, edges, upper, front, names);
      assert RetracedMoving(m, edges, upper, front + [y], names);
    } else {
      FiringIsAnEdge(m, edges, upper, less, x, y);
      var f :| f in edges && x.state == upper(f.from) && y == Config(upper(f.to), x.visited + {upper(f.to)});
      LastIsVisited(names, upper);
      VisitedGrows(x, y);
      IsFollowed(m, edges, upper, names, f);
      TakeFollowed(m, edges, upper, front, y, names, f.to);
    }
  }

  /** A step that changes nothing but the state it stays in is no step. */
  lemma VisitedGrows(x: Config, y: Config)
    requires x.state in x.visited && y == Config(y.state, x.visited + {y.state})
    ensures y.state == x.state ==> y == x
  {
    if y.state == x.state { assert x.visited + {y.state} == x.visited; }
  }

  lemma LastIsVisited(names: seq<string>, upper: Case)
    requires names != []
    ensures var x := Lift(names, upper)[|names| - 1]; x.state == upper(names[|names| - 1]) && x.state in x.visited
  {
    assert upper(names[|names| - 1]) in Visited(names, |names| - 1, upper);
  }

  lemma SameLast(a: seq<string>, b: seq<string>, upper: Case)
    requires a != [] && Upped(a, upper) == Upped(b, upper)
    ensures |a| == |b| && upper(a[|a| - 1]) == upper(b[|b| - 1])
  {
    assert |a| == |Upped(a, upper)| && |b| == |Upped(b, upper)|;
    assert Upped(a, upper)[|a| - 1] == Upped(b, upper)[|b| - 1];
  }

  lemma MovingMore(m: Machine, edges: seq<Edge>, upper: Case, less: Collation, front: seq<Config>, y: Config)
    requires edges != [] && MergesNothing(m, edges, upper) && HasMovingRun(m, edges, upper, front) && front != []
    requires y == front[|front| - 1] || Next(Generate(m, edges, upper, less), front[|front| - 1], y)
    ensures HasMovingRun(m, edges, upper, front + [y])
  {
    var names :| RetracedMoving(m, edges, upper, front, names);
    MovingStep(m, edges, upper, less, front, y, names);
  }

  lemma {:induction false} RetraceMoving(m: Machine, edges: seq<Edge>, upper: Case, less: Collation, s: Spec,
                                         tr: seq<Config>)
    requires Idempotent(upper) && edges != [] && MergesNothing(m, edges, upper)
    requires s == Generate(m, edges, upper, less) && Behaviour(s, tr)
    ensures HasMovingRun(m, edges, upper, tr)
    decreases |tr|
  {
    var n := |tr|;
    if n == 1 {
      RetraceOne(m, edges, upper, less, s, tr);
      assert RetracedMoving(m, edges, upper, tr, [SourceInitial(m)]);
    } else {
      var front := tr[..n - 1];
      BehaviourPrefix(s, tr, n - 1);
      LastStep(s, tr);
      SplitLast(tr);
      RetraceMoving(m, edges, upper, less, s, front);
      MovingMore(m, edges, upper, less, front, tr[n - 1]);
    }
  }

  /** For a machine with transitions the emitted module adds nothing exactly when upper-casing merges nothing
      that the machine cannot do. */
  lemma AddsNothingIff(m: Machine, edges: seq<Edge>, upper: Case, less: Collation)
    requires Idempotent(upper) && edges != []
    ensures AddsNothing(m, edges, upper, less) <==> MergesNothing(m, edges, upper)
  {
    if AddsNothing(m, edges, upper, less) {
      forall names, f | SourceRun(m, edges, names) && Moves(names, upper) && f in edges
                        && upper(f.from) == upper(names[|names| - 1]) && upper(f.to) != upper(f.from)
        ensures Followed(m, edges, upper, names, f.to)
      {
        MergedIsFollowed(m, edges, upper, less, names, f);
      }
    }
    if MergesNothing(m, edges, upper) {
      forall tr | Behaviour(Generate(m, edges, upper, less), tr)
        ensures exists names :: SourceRun(m, edges, names) && Compress(tr) == Lift(names, upper)
      {
        RetraceMoving(m, edges, upper, less, Generate(m, edges, upper, less), tr);
        var names :| RetracedMoving(m, edges, upper, tr, names);
      }
    }
  }

  // ---- where the converse fails ----

  lemma RunStep(m: Machine, edges: seq<Edge>, names: seq<string>, i: nat)
    requires SourceRun(m, edges, names) && i + 1 < |names|
    ensures Edge(names[i], names[i + 1]) in edges
  {
  }

  lemma RunsWithoutEdges(m: Machine, names: seq<string>)
    requires SourceRun(m, [], names)
    ensures |names| == 1
  {
    if |names| > 1 { RunStep(m, [], names, 0); }
  }

  /** A machine without transitions that starts where one of the default actions does gets a step it does
      not have. */
  lemma DefaultsAddSteps(m: Machine, upper: Case, less: Collation, a: Action)
    requires Idempotent(upper) && a in DEFAULT_ACTIONS && upper(SourceInitial(m)) == a.from
    ensures var tr := [Config(a.from, {a.from}), Config(a.to, {a.from} + {a.to})];
            Behaviour(Generate(m, [], upper, less), tr) && Compress(tr) == tr
            && forall names :: SourceRun(m, [], names) ==> |Lift(names, upper)| < |tr|
  {
    var s, x := Generate(m, [], upper, less), Config(a.from, {a.from});
    var y := Config(a.to, x.visited + {a.to});
    InitialAgrees(m, [], upper, less);
    GeneratedActions(m, [], upper, less);
    assert a in Unsorted([], upper);
    GeneratedNamesResolve(m, [], upper, less);
    DefaultsMove(a);
    FirstStep(s, x, a);
    TwoApart(x, y);
    forall names | SourceRun(m, [], names) ensures |names| == 1 { RunsWithoutEdges(m, names); }
  }

  lemma FirstStep(s: Spec, x: Config, a: Action)
    requires NamesResolve(s) && x == Config(s.initial, {s.initial}) && a in s.actions && a.from == x.state
    ensures Behaviour(s, [x, Config(a.to, x.visited + {a.to})])
  {
    assert Behaviour(s, [x]);
    Extend(s, [x], a);
    assert [x] + [Config(a.to, x.visited + {a.to})] == [x, Config(a.to, x.visited + {a.to})];
  }

  lemma TwoApart(x: Config, y: Config)
    requires x != y
    ensures Compress([x, y]) == [x, y]
  {
    assert [x, y][..1] == [x];
  }

  lemma DefaultsMove(a: Action)
    requires a in DEFAULT_ACTIONS
    ensures a.from != a.to && (a.from == "INIT" || a.from == "ACTIVE")
  {
    assert "INIT"[0] == 'I' && "ACTIVE"[0] == 'A' && "COMPLETED"[0] == 'C' && "FAILED"[0] == 'F';
  }

  /** Elsewhere no default action ever fires. */
  lemma {:induction false} DefaultsNeverFire(m: Machine, upper: Case, less: Collation, s: Spec, tr: seq<Config>)
    requires Idempotent(upper) && Unambiguous(m, [], upper)
    requires s == Generate(m, [], upper, less) && Behaviour(s, tr)
    ensures Retraced(m, [], upper, tr, [SourceInitial(m)])
    decreases |tr|
  {
    var n := |tr|;
    if n == 1 {
      RetraceOne(m, [], upper, less, s, tr);
    } else {
      var front := tr[..n - 1];
      BehaviourPrefix(s, tr, n - 1);
      LastStep(s, tr);
      SplitLast(tr);
      DefaultsNeverFire(m, upper, less, s, front);
      StaysAtStart(m, upper, less, front, tr[n - 1]);
    }
  }

  lemma StaysAtStart(m: Machine, upper: Case, less: Collation, front: seq<Config>, y: Config)
    requires Unambiguous(m, [], upper) && Retraced(m, [], upper, front, [SourceInitial(m)])
    requires Next(Generate(m, [], upper, less), front[|front| - 1], y) || y == front[|front| - 1]
    ensures Retraced(m, [], upper, front + [y], [SourceInitial(m)])
  {
    StepStays(m, upper, less, front[|front| - 1], y);
    RetraceStutter(m, [], upper, front, [SourceInitial(m)]);
  }

  lemma StepStays(m: Machine, upper: Case, less: Collation, x: Config, y: Config)
    requires x.state != "INIT" && x.state != "ACTIVE"
    requires Next(Generate(m, [], upper, less), x, y) || y == x
    ensures y == x
  {
    var s := Generate(m, [], upper, less);
    GeneratedNamesResolve(m, [], upper, less);
    GeneratedActions(m, [], upper, less);
    NextMeans(s, x, y);
    if i :| 0 <= i < |s.actions| && Fires(s.actions[i], x, y) {
      assert s.actions[i] in s.actions;
      DefaultsMove(s.actions[i]);
    }
  }

  /** For a machine without transitions the emitted module adds nothing exactly when the machine starts
      neither in INIT nor in ACTIVE. */
  lemma DefaultsAddNothingIff(m: Machine, upper: Case, less: Collation)
    requires Idempotent(upper)
    ensures AddsNothing(m, [], upper, less)
       <==> upper(SourceInitial(m)) != "INIT" && upper(SourceInitial(m)) != "ACTIVE"
  {
    var start := upper(SourceInitial(m));
    if start != "INIT" && start != "ACTIVE" {
      forall tr | Behaviour(Generate(m, [], upper, less), tr)
        ensures exists names :: SourceRun(m, [], names) && Compress(tr) == Lift(names, upper)
      {
        BehavioursAreRuns(m, [], upper, less, tr);
      }
    } else {
      var a := DEFAULT_ACTIONS[if start == "INIT" then 0 else 1];
      assert a in DEFAULT_ACTIONS;
      DefaultsAddSteps(m, upper, less, a);
      assert Behaviour(Generate(m, [], upper, less), [Config(a.from, {a.from}), Config(a.to, {a.from} + {a.to})]);
    }
  }

  lemma EdgeStep(m: Machine, edges: seq<Edge>, upper: Case, less: Collation, tr: seq<Config>, e: Edge)
    requires Behaviour(Generate(m, edges, upper, less), tr) && e in edges && tr[|tr| - 1].state == upper(e.from)
    ensures exists y: Config :: y.state == upper(e.to) && Behaviour(Generate(m, edges, upper, less), tr + [y])
  {
    var s, x := Generate(m, edges, upper, less), tr[|tr| - 1];
    var y := Config(upper(e.to), x.visited + {upper(e.to)});
    StepFires(m, edges, upper, less, e, x, y);
    var i :| 0 <= i < |s.actions| && Fires(s.actions[i], x, y);
    GeneratedNamesResolve(m, edges, upper, less);
    Extend(s, tr, s.actions[i]);
    assert Behaviour(s, tr + [y]);
  }

  lemma NextEdgeStep(m: Machine, edges: seq<Edge>, upper: Case, less: Collation, tr: seq<Config>, e: Edge)
    returns (y: Config)
    requires Behaviour(Generate(m, edges, upper, less), tr) && e in edges && tr[|tr| - 1].state == upper(e.from)
    ensures y.state == upper(e.to) && Behaviour(Generate(m, edges, upper, less), tr + [y])
  {
    EdgeStep(m, edges, upper, less, tr, e);
    y :| y.state == upper(e.to) && Behaviour(Generate(m, edges, upper, less), tr + [y]);
  }

  /** Two edges that only upper-casing joins are two steps of the module. */
  lemma MergedEdges(m: Machine, edges: seq<Edge>, upper: Case, less: Collation, e: Edge, f: Edge)
    requires Idempotent(upper) && e in edges && f in edges
    requires e.from == SourceInitial(m) && upper(e.to) == upper(f.from)
    ensures exists tr: seq<Config> :: Behaviour(Generate(m, edges, upper, less), tr)
              && |tr| == 3 && tr[0].state == upper(e.from) && tr[1].state == upper(e.to) && tr[2].state == upper(f.to)
  {
    var x := Config(upper(e.from), {upper(e.from)});
    InitialAgrees(m, edges, upper, less);
    assert Behaviour(Generate(m, edges, upper, less), [x]);
    var y := NextEdgeStep(m, edges, upper, less, [x], e);
    var z := NextEdgeStep(m, edges, upper, less, [x] + [y], f);
    var tr := [x] + [y] + [z];
    assert |tr| == 3 && tr[0] == x && tr[1] == y && tr[2] == z;
  }

  lemma TwoStatesAtMost(m: Machine, edges: seq<Edge>)
    requires edges == [Edge("a", "b"), Edge("B", "c")]
    ensures forall names :: SourceRun(m, edges, names) ==> |names| <= 2
  {
    forall names | SourceRun(m, edges, names) ensures |names| <= 2 {
      if |names| > 2 {
        RunStep(m, edges, names, 0);
        RunStep(m, edges, names, 1);
      }
    }
  }

  lemma UpperOfStates()
    ensures ToUpper("b") == ToUpper("B") && ToUpper("a") != ToUpper("b") && ToUpper("b") != ToUpper("c")
  {
    assert ToUpper("a")[0] == 'A' && ToUpper("b")[0] == 'B' && ToUpper("B")[0] == 'B' && ToUpper("c")[0] == 'C';
  }

  /** A machine that distinguishes `b` from `B` cannot take the second of these steps. */
  lemma CaseMergesStates(less: Collation)
    ensures var edges := [Edge("a", "b"), Edge("B", "c")];
            var m := Machine(["a", "b", "B", "c"], Keyed([]), Some("a"), []);
            && (forall names :: SourceRun(m, edges, names) ==> |names| <= 2)
            && exists tr: seq<Config> :: Behaviour(Generate(m, edges, ToUpper, less), tr) && |tr| == 3
                 && tr[0].state != tr[1].state && tr[1].state != tr[2].state
  {
    var edges := [Edge("a", "b"), Edge("B", "c")];
    var m := Machine(["a", "b", "B", "c"], Keyed([]), Some("a"), []);
    TwoStatesAtMost(m, edges);
    ToUpperIdempotent();
    assert edges[0] in edges && edges[1] in edges;
    UpperOfStates();
    MergedEdges(m, edges, ToUpper, less, edges[0], edges[1]);
  }

  lemma ToUpperIdempotent()
    ensures Idempotent(ToUpper)
  {
    forall s ensures ToUpper(ToUpper(s)) == ToUpper(s) {
      assert |ToUpper(ToUpper(s))| == |ToUpper(s)|;
    }
  }

  // ---- the two invariants ----

  ghost predicate Reachable(s: Spec, state: string) {
    exists tr: seq<Config> :: Behaviour(s, tr) && tr[|tr| - 1].state == state
  }

  ghost predicate TypeOK(s: Spec, x: Config) {
    x.state in s.states
  }

  ghost predicate ReachableStatesDeclared(s: Spec, x: Config) {
    forall v :: v in x.visited ==> v in s.states
  }

  ghost predicate AlwaysTypeOK(s: Spec) {
    forall tr :: Behaviour(s, tr) ==> TypeOK(s, tr[|tr| - 1])
  }

  ghost predicate AlwaysDeclared(s: Spec) {
    forall tr :: Behaviour(s, tr) ==> ReachableStatesDeclared(s, tr[|tr| - 1])
  }

  lemma BehaviourPrefix(s: Spec, tr: seq<Config>, n: nat)
    requires Behaviour(s, tr) && 0 < n <= |tr|
    ensures Behaviour(s, tr[..n])
  {
    var front := tr[..n];
    forall i | 0 <= i < |front| - 1 ensures Next(s, front[i], front[i + 1]) || front[i + 1] == front[i] {
      assert Next(s, tr[i], tr[i + 1]) || tr[i + 1] == tr[i];
    }
  }

  /** `visited` holds exactly the states seen so far. */
  lemma {:induction false} VisitedIsSeen(s: Spec, tr: seq<Config>)
    requires NamesResolve(s) && Behaviour(s, tr)
    ensures tr[|tr| - 1].visited == set i | 0 <= i < |tr| :: tr[i].state
    decreases |tr|
  {
    var n := |tr|;
    if n > 1 {
      var front := tr[..n - 1];
      BehaviourPrefix(s, tr, n - 1);
      VisitedIsSeen(s, front);
      LastStep(s, tr);
      NextMeans(s, tr[n - 2], tr[n - 1]);
      SeenMore(front, tr);
    }
  }

  lemma SeenMore(front: seq<Config>, tr: seq<Config>)
    requires |tr| > 1 && front == tr[..|tr| - 1]
    ensures (set i | 0 <= i < |tr| :: tr[i].state)
         == (set i | 0 <= i < |front| :: front[i].state) + {tr[|tr| - 1].state}
  {
  }

  lemma TypeOKDeclares(s: Spec, tr: seq<Config>)
    requires NamesResolve(s) && AlwaysTypeOK(s) && Behaviour(s, tr)
    ensures ReachableStatesDeclared(s, tr[|tr| - 1])
  {
    VisitedIsSeen(s, tr);
    forall i | 0 <= i < |tr| ensures tr[i].state in s.states {
      BehaviourPrefix(s, tr, i + 1);
      assert TypeOK(s, tr[..i + 1][|tr[..i + 1]| - 1]);
    }
  }

  lemma DeclaredIsTypeOK(s: Spec, tr: seq<Config>)
    requires NamesResolve(s) && AlwaysDeclared(s) && Behaviour(s, tr)
    ensures TypeOK(s, tr[|tr| - 1])
  {
    VisitedIsSeen(s, tr);
    assert ReachableStatesDeclared(s, tr[|tr| - 1]);
    assert tr[|tr| - 1].state in tr[|tr| - 1].visited;
  }

  /** The two invariants given to the model checker hold of the same modules. */
  lemma InvariantsAgree(s: Spec)
    requires NamesResolve(s)
    ensures AlwaysTypeOK(s) <==> AlwaysDeclared(s)
  {
    if AlwaysTypeOK(s) {
      forall tr: seq<Config> | Behaviour(s, tr) ensures ReachableStatesDeclared(s, tr[|tr| - 1]) {
        TypeOKDeclares(s, tr);
      }
    }
    if AlwaysDeclared(s) {
      forall tr: seq<Config> | Behaviour(s, tr) ensures TypeOK(s, tr[|tr| - 1]) { DeclaredIsTypeOK(s, tr); }
    }
  }

  lemma Extend(s: Spec, tr: seq<Config>, a: Action)
    requires NamesResolve(s) && Behaviour(s, tr) && a in s.actions && a.from == tr[|tr| - 1].state
    ensures var y := Config(a.to, tr[|tr| - 1].visited + {a.to}); Behaviour(s, tr + [y])
  {
    var x := tr[|tr| - 1];
    var y := Config(a.to, x.visited + {a.to});
    var i :| 0 <= i < |s.actions| && s.actions[i] == a;
    assert Fires(s.actions[i], x, y);
    NextMeans(s, x, y);
    var all := tr + [y];
    forall k | 0 <= k < |all| - 1 ensures Next(s, all[k], all[k + 1]) || all[k + 1] == all[k] {
      if k < |tr| - 1 { assert Next(s, tr[k], tr[k + 1]) || tr[k + 1] == tr[k]; }
    }
  }

  /** Every state of every behaviour is declared exactly when the initial state is and every action that can
      ever fire leads to a declared one. */
  lemma TypeOKIff(s: Spec)
    requires NamesResolve(s)
    ensures AlwaysTypeOK(s) <==> s.initial in s.states && ActionsDeclared(s)
  {
    if AlwaysTypeOK(s) { ReachedAreDeclared(s); }
    if s.initial in s.states && ActionsDeclared(s) {
      forall tr: seq<Config> | Behaviour(s, tr) ensures TypeOK(s, tr[|tr| - 1]) { LastDeclared(s, tr); }
    }
  }

  /** Every action that can ever fire leads to a declared state. */
  ghost predicate ActionsDeclared(s: Spec) {
    forall a :: a in s.actions && Reachable(s, a.from) ==> a.to in s.states
  }

  lemma ReachedAreDeclared(s: Spec)
    requires NamesResolve(s) && AlwaysTypeOK(s)
    ensures s.initial in s.states && ActionsDeclared(s)
  {
    var start := [Config(s.initial, {s.initial})];
    assert Behaviour(s, start);
    assert TypeOK(s, start[|start| - 1]);
    forall a | a in s.actions && Reachable(s, a.from) ensures a.to in s.states { FiredIsDeclared(s, a); }
  }

  lemma FiredIsDeclared(s: Spec, a: Action)
    requires NamesResolve(s) && AlwaysTypeOK(s) && a in s.actions && Reachable(s, a.from)
    ensures a.to in s.states
  {
    var tr: seq<Config> :| Behaviour(s, tr) && tr[|tr| - 1].state == a.from;
    Extend(s, tr, a);
    var all := tr + [Config(a.to, tr[|tr| - 1].visited + {a.to})];
    assert TypeOK(s, all[|all| - 1]);
  }

  lemma {:induction false} LastDeclared(s: Spec, tr: seq<Config>)
    requires NamesResolve(s) && Behaviour(s, tr)
    requires s.initial in s.states && ActionsDeclared(s)
    ensures TypeOK(s, tr[|tr| - 1])
    decreases |tr|
  {
    var n := |tr|;
    if n > 1 {
      var front := tr[..n - 1];
      BehaviourPrefix(s, tr, n - 1);
      LastDeclared(s, front);
      assert Next(s, tr[n - 2], tr[n - 2 + 1]) || tr[n - 2 + 1] == tr[n - 2];
      if tr[n - 1] != tr[n - 2] {
        NextMeans(s, tr[n - 2], tr[n - 1]);
        var i :| 0 <= i < |s.actions| && Fires(s.actions[i], tr[n - 2], tr[n - 1]);
        assert front[|front| - 1].state == s.actions[i].from;
        assert Reachable(s, s.actions[i].from);
        assert s.actions[i] in s.actions;
      }
    }
  }

  /** A machine that declares its initial state and every endpoint satisfies both invariants. */
  lemma DeclaredMachineIsTypeOK(m: Machine, edges: seq<Edge>, upper: Case, less: Collation)
    requires Idempotent(upper) && edges != [] && SourceInitial(m) in m.states
    requires forall e :: e in edges ==> e.to in m.states
    ensures AlwaysTypeOK(Generate(m, edges, upper, less)) && AlwaysDeclared(Generate(m, edges, upper, less))
  {
    var s := Generate(m, edges, upper, less);
    GeneratedNamesResolve(m, edges, upper, less);
    InitialAgrees(m, edges, upper, less);
    DeclaredUpper(m, upper, SourceInitial(m));
    forall a | a in s.actions ensures a.to in s.states {
      var e := ActionIsAnEdge(m, edges, upper, less, a);
      DeclaredUpper(m, upper, e.to);
    }
    TypeOKIff(s);
    InvariantsAgree(s);
  }

  lemma DeclaredUpper(m: Machine, upper: Case, name: string)
    requires name in m.states
    ensures upper(name) in StatesOf(m, upper)
  {
    var r := Sort(m.states, TextLess);
    SortPermutes(m.states, TextLess);
    assert name in multiset(m.states);
    assert name in multiset(r);
    var i :| 0 <= i < |r| && r[i] == name;
    assert StatesOf(m, upper)[i] == upper(name);
  }
}

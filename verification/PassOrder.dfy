// The compiler's pass registry: validation, and the execution order computed from the declared
// dependencies by Kahn's algorithm with an index-ordered queue.

module PassOrder {
  import opened Options
  import opened Sorting

  datatype Pass = Pass(
    id: string, name: string, phase: string, dependsOn: seq<string>, produces: seq<string>, deterministic: bool)

  datatype RegistryError =
    | NoPasses
    | DuplicateId(id: string)
    | NotDeterministic(id: string)
    | UnknownDependency(id: string, dep: string)
    | DependencyCycle(remaining: seq<string>)

  datatype Outcome = Order(passes: seq<Pass>) | Rejected(error: RegistryError)

  // ---- validation ----

  function Ids(passes: seq<Pass>): set<string> {
    set p | p in passes :: p.id
  }

  ghost predicate DistinctIds(passes: seq<Pass>) {
    forall i, j :: 0 <= i < j < |passes| ==> passes[i].id != passes[j].id
  }

  ghost predicate Validated(passes: seq<Pass>) {
    && passes != []
    && DistinctIds(passes)
    && (forall i :: 0 <= i < |passes| ==> passes[i].deterministic)
    && (forall i, d :: 0 <= i < |passes| && d in passes[i].dependsOn ==> d in Ids(passes))
  }

  /** The first loop: identifiers and the determinism flag. */
  method CheckPasses(passes: seq<Pass>) returns (error: Option<RegistryError>, seen: set<string>)
    ensures error.None? ==>
              seen == Ids(passes) && DistinctIds(passes) && forall i :: 0 <= i < |passes| ==> passes[i].deterministic
    ensures error.Some? ==> match error.value
      case DuplicateId(x) => exists i, j :: 0 <= i < j < |passes| && passes[i].id == passes[j].id == x
      case NotDeterministic(x) => exists i :: 0 <= i < |passes| && passes[i].id == x && !passes[i].deterministic
      case _ => false
  {
    seen := {};
    for i := 0 to |passes|
      invariant seen == set a | 0 <= a < i :: passes[a].id
      invariant forall a, b :: 0 <= a < b < i ==> passes[a].id != passes[b].id
      invariant forall a :: 0 <= a < i ==> passes[a].deterministic
    {
      if passes[i].id in seen { return Some(DuplicateId(passes[i].id)), seen; }
      seen := seen + {passes[i].id};
      if !passes[i].deterministic { return Some(NotDeterministic(passes[i].id)), seen; }
    }
    error := None;
  }

  /** The second loop: every dependency is a known pass. */
  method CheckDependencies(passes: seq<Pass>, seen: set<string>) returns (error: Option<RegistryError>)
    ensures error.None? <==> forall i, d :: 0 <= i < |passes| && d in passes[i].dependsOn ==> d in seen
    ensures error.Some? ==> match error.value
      case UnknownDependency(x, d) =>
        exists i :: 0 <= i < |passes| && passes[i].id == x && d in passes[i].dependsOn && d !in seen
      case _ => false
  {
    for i := 0 to |passes|
      invariant forall a, d :: 0 <= a < i && d in passes[a].dependsOn ==> d in seen
    {
      var deps := passes[i].dependsOn;
      for j := 0 to |deps|
        invariant forall b :: 0 <= b < j ==> deps[b] in seen
      {
        if deps[j] !in seen { return Some(UnknownDependency(passes[i].id, deps[j])); }
      }
    }
    return None;
  }

  /** Validation succeeds on exactly the well-formed registries, and the error names a real defect. */
  method ValidateRegistry(passes: seq<Pass>) returns (error: Option<RegistryError>)
    ensures error.None? <==> Validated(passes)
    ensures error.Some? ==> match error.value
      case NoPasses => passes == []
      case DuplicateId(x) => exists i, j :: 0 <= i < j < |passes| && passes[i].id == passes[j].id == x
      case NotDeterministic(x) => exists i :: 0 <= i < |passes| && passes[i].id == x && !passes[i].deterministic
      case UnknownDependency(x, d) =>
        exists i :: 0 <= i < |passes| && passes[i].id == x && d in passes[i].dependsOn && d !in Ids(passes)
      case DependencyCycle(_) => false
  {
    if |passes| == 0 { return Some(NoPasses); }
    var seen;
    error, seen := CheckPasses(passes);
    if error.Some? { return; }
    error := CheckDependencies(passes, seen);
  }

  // ---- the order, as a specification ----

  predicate AllIn(deps: seq<string>, done: set<string>) {
    forall d :: d in deps ==> d in done
  }

  /** Passes not yet done whose dependencies all are, by declaration index. */
  function Ready(passes: seq<Pass>, done: set<string>): seq<Pass> {
    if passes == [] then []
    else
      (if passes[0].id !in done && AllIn(passes[0].dependsOn, done) then [passes[0]] else [])
      + Ready(passes[1..], done)
  }

  ghost function Left(passes: seq<Pass>, done: set<string>): nat {
    |Ids(passes) - done|
  }

  lemma {:induction false} ReadyMembers(passes: seq<Pass>, done: set<string>)
    ensures forall p :: p in Ready(passes, done) <==> p in passes && p.id !in done && AllIn(p.dependsOn, done)
  {
    if passes != [] { ReadyMembers(passes[1..], done); }
  }

  lemma LeftDecreases(passes: seq<Pass>, done: set<string>, p: Pass)
    requires p in Ready(passes, done)
    ensures Left(passes, done + {p.id}) < Left(passes, done)
  {
    ReadyMembers(passes, done);
    assert Ids(passes) - (done + {p.id}) == (Ids(passes) - done) - {p.id};
  }

  /** Always run next the ready pass declared first. */
  ghost function Kahn(passes: seq<Pass>, done: set<string>): seq<Pass>
    decreases Left(passes, done)
  {
    var ready := Ready(passes, done);
    if ready == [] then []
    else
      LeftDecreases(passes, done, ready[0]);
      [ready[0]] + Kahn(passes, done + {ready[0].id})
  }

  // ---- what the order is ----

  /** `t` runs, after `done`, all other passes, each once and after its dependencies. */
  ghost predicate Topological(passes: seq<Pass>, done: set<string>, t: seq<Pass>) {
    && (forall k :: 0 <= k < |t| ==> t[k] in passes && t[k].id !in done)
    && DistinctIds(t)
    && Respects(done, t)
    && Ids(passes) <= done + Ids(t)
  }

  lemma IdsCons(p: Pass, t: seq<Pass>)
    ensures Ids([p] + t) == {p.id} + Ids(t)
  {
    assert forall q :: q in [p] + t <==> q == p || q in t;
  }

  lemma IdsPrefix(t: seq<Pass>, k: nat)
    requires t != [] && 0 < k <= |t|
    ensures Ids(t[..k]) == {t[0].id} + Ids(t[1..][..k - 1])
  {
    assert t[..k] == [t[0]] + t[1..][..k - 1];
    IdsCons(t[0], t[1..][..k - 1]);
  }

  /** Passes are placed at most once, and never from `done`. */
  lemma {:induction false} KahnPlaces(passes: seq<Pass>, done: set<string>)
    ensures var o := Kahn(passes, done);
            DistinctIds(o) && forall k :: 0 <= k < |o| ==> o[k] in passes && o[k].id !in done
    decreases Left(passes, done)
  {
    var ready := Ready(passes, done);
    if ready != [] {
      ReadyMembers(passes, done);
      LeftDecreases(passes, done, ready[0]);
      KahnPlaces(passes, done + {ready[0].id});
      PlacesCons(passes, done, ready[0], Kahn(passes, done + {ready[0].id}));
    }
  }

  lemma PlacesCons(passes: seq<Pass>, done: set<string>, p: Pass, o: seq<Pass>)
    requires p in passes && p.id !in done && DistinctIds(o)
    requires forall k :: 0 <= k < |o| ==> o[k] in passes && o[k].id !in done + {p.id}
    ensures DistinctIds([p] + o)
    ensures forall k :: 0 <= k < |[p] + o| ==> ([p] + o)[k] in passes && ([p] + o)[k].id !in done
  {
  }

  ghost predicate Respects(done: set<string>, o: seq<Pass>) {
    forall k :: 0 <= k < |o| ==> AllIn(o[k].dependsOn, done + Ids(o[..k]))
  }

  lemma RespectsCons(done: set<string>, p: Pass, r: seq<Pass>)
    requires AllIn(p.dependsOn, done) && Respects(done + {p.id}, r)
    ensures Respects(done, [p] + r)
  {
    var o := [p] + r;
    forall k | 0 <= k < |o| ensures AllIn(o[k].dependsOn, done + Ids(o[..k])) {
      if k > 0 {
        assert o[1..] == r;
        IdsPrefix(o, k);
        assert done + {p.id} + Ids(r[..k - 1]) == done + Ids(o[..k]);
      }
    }
  }

  /** A pass is placed after its dependencies. */
  lemma {:induction false} KahnRespects(passes: seq<Pass>, done: set<string>)
    ensures Respects(done, Kahn(passes, done))
    decreases Left(passes, done)
  {
    var ready := Ready(passes, done);
    if ready != [] {
      var p := ready[0];
      ReadyMembers(passes, done);
      LeftDecreases(passes, done, p);
      KahnRespects(passes, done + {p.id});
      RespectsCons(done, p, Kahn(passes, done + {p.id}));
    }
  }

  lemma KahnSound(passes: seq<Pass>, done: set<string>)
    ensures var o := Kahn(passes, done);
            && (forall k :: 0 <= k < |o| ==> o[k] in passes && o[k].id !in done)
            && DistinctIds(o)
            && Respects(done, o)
  {
    KahnPlaces(passes, done);
    KahnRespects(passes, done);
  }

  /** Where the order stops, nothing more is ready. */
  lemma {:induction false} KahnStops(passes: seq<Pass>, done: set<string>)
    ensures Ready(passes, done + Ids(Kahn(passes, done))) == []
    decreases Left(passes, done)
  {
    var ready := Ready(passes, done);
    if ready != [] {
      var p := ready[0];
      LeftDecreases(passes, done, p);
      KahnStops(passes, done + {p.id});
      IdsCons(p, Kahn(passes, done + {p.id}));
      assert done + Ids(Kahn(passes, done)) == done + {p.id} + Ids(Kahn(passes, done + {p.id}));
    } else {
      assert done + Ids([]) == done;
    }
  }

  // ---- cycles ----

  ghost predicate DependsOn(passes: seq<Pass>, x: string, y: string) {
    exists p :: p in passes && p.id == x && y in p.dependsOn
  }

  /** Each pass named in `c` depends on the next, and the last on the first. */
  ghost predicate Cycle(passes: seq<Pass>, c: seq<string>) {
    && c != [] && (forall i :: 0 <= i < |c| - 1 ==> DependsOn(passes, c[i], c[i + 1]))
    && DependsOn(passes, c[|c| - 1], c[0])
  }

  ghost predicate Acyclic(passes: seq<Pass>) {
    !exists c :: Cycle(passes, c)
  }

  lemma CycleBlocks(passes: seq<Pass>, done: set<string>, c: seq<string>, p: Pass)
    requires DistinctIds(passes) && Cycle(passes, c) && (forall x :: x in c ==> x !in done)
    requires p in passes && p.id in c
    ensures !AllIn(p.dependsOn, done)
  {
    var i :| 0 <= i < |c| && c[i] == p.id;
    var next := if i == |c| - 1 then c[0] else c[i + 1];
    assert next in c;
    var q :| q in passes && q.id == p.id && next in q.dependsOn;
    assert q == p;
  }

  /** No pass of a cycle is ever placed. */
  lemma {:induction false} CycleNeverPlaced(passes: seq<Pass>, done: set<string>, c: seq<string>)
    requires DistinctIds(passes) && Cycle(passes, c) && forall x :: x in c ==> x !in done
    ensures forall p :: p in Kahn(passes, done) ==> p.id !in c
    decreases Left(passes, done)
  {
    var ready := Ready(passes, done);
    if ready != [] {
      var p := ready[0];
      ReadyMembers(passes, done);
      LeftDecreases(passes, done, p);
      if p.id in c { CycleBlocks(passes, done, c, p); }
      CycleNeverPlaced(passes, done + {p.id}, c);
    }
  }

  ghost function Elements(s: seq<string>): set<string> {
    set x | x in s
  }

  lemma {:induction false} DistinctSize(s: seq<string>)
    requires Distinct(s)
    ensures |Elements(s)| == |s|
  {
    if s != [] {
      DistinctSize(s[1..]);
      assert Elements(s) == {s[0]} + Elements(s[1..]);
      assert s[0] !in s[1..];
    }
  }

  lemma CloseCycle(passes: seq<Pass>, w: seq<string>, i: nat)
    requires i < |w| && DependsOn(passes, w[|w| - 1], w[i])
    requires forall k :: 0 <= k < |w| - 1 ==> DependsOn(passes, w[k], w[k + 1])
    ensures Cycle(passes, w[i..])
  {
    var c := w[i..];
    forall k | 0 <= k < |c| - 1 ensures DependsOn(passes, c[k], c[k + 1]) {
      assert c[k] == w[i + k] && c[k + 1] == w[i + k + 1];
    }
  }

  ghost predicate Chain(passes: seq<Pass>, w: seq<string>) {
    forall i :: 0 <= i < |w| - 1 ==> DependsOn(passes, w[i], w[i + 1])
  }

  lemma LongerWalk(passes: seq<Pass>, stuck: set<string>, w: seq<string>, y: string)
    requires w != [] && Distinct(w) && Elements(w) <= stuck && Chain(passes, w)
    requires y in stuck && y !in w && DependsOn(passes, w[|w| - 1], y)
    ensures var v := w + [y]; Distinct(v) && Elements(v) <= stuck && Chain(passes, v) && |v| <= |stuck|
  {
    var v := w + [y];
    assert Elements(v) == Elements(w) + {y};
    DistinctSize(v);
    SubsetSize(Elements(v), stuck);
  }

  ghost predicate HasNext(passes: seq<Pass>, stuck: set<string>, x: string) {
    exists y :: y in stuck && DependsOn(passes, x, y)
  }

  /** Following dependencies inside a finite set closes a cycle. */
  lemma {:induction false} FindCycle(passes: seq<Pass>, stuck: set<string>, w: seq<string>) returns (c: seq<string>)
    requires forall x {:trigger HasNext(passes, stuck, x)} :: x in stuck ==> HasNext(passes, stuck, x)
    requires w != [] && Distinct(w) && Elements(w) <= stuck && Chain(passes, w)
    ensures Cycle(passes, c)
    decreases |stuck| - |w|
  {
    var x := w[|w| - 1];
    assert x in Elements(w);
    assert HasNext(passes, stuck, x);
    var y :| y in stuck && DependsOn(passes, x, y);
    if y in w {
      var i :| 0 <= i < |w| && w[i] == y;
      CloseCycle(passes, w, i);
      c := w[i..];
    } else {
      LongerWalk(passes, stuck, w, y);
      c := FindCycle(passes, stuck, w + [y]);
    }
  }

  lemma {:induction false} SubsetSize(a: set<string>, b: set<string>)
    requires a <= b
    ensures |a| <= |b|
  {
    assert b == a + (b - a);
  }

  /** What is never placed contains a dependency of each of its members. */
  lemma StuckHasDependency(passes: seq<Pass>, x: string)
    requires Validated(passes)
    requires x in Ids(passes) - Ids(Kahn(passes, {}))
    ensures HasNext(passes, Ids(passes) - Ids(Kahn(passes, {})), x)
  {
    var placed := Ids(Kahn(passes, {}));
    KahnStops(passes, {});
    assert {} + placed == placed;
    ReadyMembers(passes, placed);
    var p :| p in passes && p.id == x;
    assert p !in Ready(passes, placed);
    var y :| y in p.dependsOn && y !in placed;
    assert DependsOn(passes, x, y);
  }

  lemma PlacedAll(passes: seq<Pass>)
    requires DistinctIds(passes)
    ensures |Kahn(passes, {})| == |passes| <==> Ids(passes) <= Ids(Kahn(passes, {}))
  {
    var o := Kahn(passes, {});
    KahnSound(passes, {});
    SizeOfIds(o);
    SizeOfIds(passes);
    assert Ids(o) <= Ids(passes);
    if Ids(passes) <= Ids(o) {
      assert Ids(passes) == Ids(o);
    } else {
      assert Ids(o) < Ids(passes);
      ProperSubsetSize(Ids(o), Ids(passes));
    }
  }

  lemma ProperSubsetSize(a: set<string>, b: set<string>)
    requires a < b
    ensures |a| < |b|
  {
    assert b == a + (b - a);
    assert b - a != {};
  }

  lemma {:induction false} SizeOfIds(t: seq<Pass>)
    requires DistinctIds(t)
    ensures |Ids(t)| == |t|
  {
    if t != [] {
      SizeOfIds(t[1..]);
      assert t == [t[0]] + t[1..];
      IdsCons(t[0], t[1..]);
    }
  }

  lemma CycleMeansIncomplete(passes: seq<Pass>, c: seq<string>)
    requires Validated(passes) && Cycle(passes, c)
    ensures !(Ids(passes) <= Ids(Kahn(passes, {})))
  {
    CycleNeverPlaced(passes, {}, c);
    CycleMembers(passes, c);
    assert c[0] !in Ids(Kahn(passes, {}));
  }

  lemma IncompleteMeansCycle(passes: seq<Pass>) returns (c: seq<string>)
    requires Validated(passes) && !(Ids(passes) <= Ids(Kahn(passes, {})))
    ensures Cycle(passes, c)
  {
    var stuck := Ids(passes) - Ids(Kahn(passes, {}));
    forall x | x in stuck ensures HasNext(passes, stuck, x) { StuckHasDependency(passes, x); }
    var x :| x in Ids(passes) && x !in Ids(Kahn(passes, {}));
    c := FindCycle(passes, stuck, [x]);
  }

  /** All passes are placed exactly when no dependency cycle exists (a pass that depends on itself is
      a cycle of one). */
  lemma CompleteIffAcyclic(passes: seq<Pass>)
    requires Validated(passes)
    ensures |Kahn(passes, {})| == |passes| <==> Acyclic(passes)
  {
    PlacedAll(passes);
    if c :| Cycle(passes, c) { CycleMeansIncomplete(passes, c); }
    if !(Ids(passes) <= Ids(Kahn(passes, {}))) { var c := IncompleteMeansCycle(passes); }
  }

  lemma CycleMembers(passes: seq<Pass>, c: seq<string>)
    requires Cycle(passes, c)
    ensures c[0] in Ids(passes)
  {
    if |c| > 1 { assert DependsOn(passes, c[0], c[0 + 1]); }
  }

  // ---- among all topological orders, the first ----

  /** Declaration index. */
  ghost function Index(passes: seq<Pass>, p: Pass): nat
    requires p in passes
  {
    if passes[0] == p then 0 else 1 + Index(passes[1..], p)
  }

  ghost predicate LexAtMost(passes: seq<Pass>, a: seq<Pass>, b: seq<Pass>)
    requires (forall p :: p in a ==> p in passes) && (forall p :: p in b ==> p in passes)
  {
    a == [] ||
    (b != [] &&
     (Index(passes, a[0]) < Index(passes, b[0]) || (a[0] == b[0] && LexAtMost(passes, a[1..], b[1..]))))
  }

  lemma {:induction false} ReadyHeadIsFirst(passes: seq<Pass>, done: set<string>, p: Pass)
    requires p in Ready(passes, done)
    ensures Ready(passes, done)[0] in passes && p in passes
    ensures Index(passes, Ready(passes, done)[0]) <= Index(passes, p)
    ensures Index(passes, Ready(passes, done)[0]) == Index(passes, p) ==> Ready(passes, done)[0] == p
  {
    ReadyMembers(passes, done);
    if !(passes[0].id !in done && AllIn(passes[0].dependsOn, done)) {
      ReadyHeadIsFirst(passes[1..], done, p);
    }
  }

  lemma RespectsTail(done: set<string>, t: seq<Pass>)
    requires t != [] && Respects(done, t)
    ensures AllIn(t[0].dependsOn, done) && Respects(done + {t[0].id}, t[1..])
  {
    var r, done' := t[1..], done + {t[0].id};
    assert t[..0] == [] && done + Ids([]) == done;
    forall k | 0 <= k < |r| ensures AllIn(r[k].dependsOn, done' + Ids(r[..k])) {
      IdsPrefix(t, k + 1);
      assert AllIn(t[k + 1].dependsOn, done + Ids(t[..k + 1]));
      assert done' + Ids(r[..k]) == done + Ids(t[..k + 1]);
    }
  }

  /** A topological order without its first pass is one after that pass. */
  lemma HeadIsReady(passes: seq<Pass>, done: set<string>, t: seq<Pass>)
    requires Topological(passes, done, t) && t != []
    ensures t[0] in Ready(passes, done)
  {
    ReadyMembers(passes, done);
    RespectsTail(done, t);
  }

  lemma IdsAfterHead(passes: seq<Pass>, done: set<string>, t: seq<Pass>)
    requires t != [] && Ids(passes) <= done + Ids(t)
    ensures Ids(passes) <= done + {t[0].id} + Ids(t[1..])
  {
    assert t == [t[0]] + t[1..];
    IdsCons(t[0], t[1..]);
  }

  lemma TopologicalTail(passes: seq<Pass>, done: set<string>, t: seq<Pass>)
    requires Topological(passes, done, t) && t != []
    ensures t[0] in Ready(passes, done) && Topological(passes, done + {t[0].id}, t[1..])
  {
    HeadIsReady(passes, done, t);
    RespectsTail(done, t);
    TailMembers(passes, done, t);
    IdsAfterHead(passes, done, t);
  }

  lemma TailMembers(passes: seq<Pass>, done: set<string>, t: seq<Pass>)
    requires t != [] && DistinctIds(t) && forall k :: 0 <= k < |t| ==> t[k] in passes && t[k].id !in done
    ensures DistinctIds(t[1..])
    ensures forall k :: 0 <= k < |t[1..]| ==> t[1..][k] in passes && t[1..][k].id !in done + {t[0].id}
  {
    var r := t[1..];
    assert forall k :: 0 <= k < |r| ==> r[k] == t[k + 1];
  }

  /** The computed order comes first, by declaration indices, among all topological orders. */
  lemma {:induction false} KahnIsLeast(passes: seq<Pass>, done: set<string>, t: seq<Pass>)
    requires Topological(passes, done, t)
    ensures forall p :: p in Kahn(passes, done) ==> p in passes
    ensures LexAtMost(passes, Kahn(passes, done), t)
    decreases Left(passes, done)
  {
    KahnSound(passes, done);
    var ready := Ready(passes, done);
    if ready != [] {
      ReadyMembers(passes, done);
      LeftDecreases(passes, done, ready[0]);
      assert ready[0].id in Ids(passes);
      assert t != [];
      TopologicalTail(passes, done, t);
      ReadyHeadIsFirst(passes, done, t[0]);
      assert Kahn(passes, done)[1..] == Kahn(passes, done + {ready[0].id});
      if ready[0] == t[0] { KahnIsLeast(passes, done + {t[0].id}, t[1..]); }
    }
  }

  lemma SamePasses(o: seq<Pass>, passes: seq<Pass>)
    requires DistinctIds(o) && DistinctIds(passes)
    requires (forall p :: p in o ==> p in passes) && Ids(passes) <= Ids(o)
    ensures multiset(o) == multiset(passes)
  {
    forall p ensures multiset(o)[p] == multiset(passes)[p] {
      DistinctCountsOne(o, p);
      DistinctCountsOne(passes, p);
      if p in passes {
        assert p.id in Ids(o);
        var q :| q in o && q.id == p.id;
        assert q == p;
      }
    }
  }

  /** A complete result is itself a topological order of all passes, and a permutation of them. */
  lemma CompleteIsTopological(passes: seq<Pass>)
    requires Validated(passes) && |Kahn(passes, {})| == |passes|
    ensures Topological(passes, {}, Kahn(passes, {}))
    ensures multiset(Kahn(passes, {})) == multiset(passes)
  {
    KahnSound(passes, {});
    PlacedAll(passes);
    SamePasses(Kahn(passes, {}), passes);
  }

  /** Repeating an entry of `depends_on` changes nothing: only the set of dependencies matters. */
  lemma {:induction false} RepeatsAreHarmless(a: seq<Pass>, b: seq<Pass>, done: set<string>)
    requires |a| == |b|
    requires forall i :: 0 <= i < |a| ==> a[i].id == b[i].id && Elements(a[i].dependsOn) == Elements(b[i].dependsOn)
    ensures SameIds(Kahn(a, done), Kahn(b, done))
    decreases Left(a, done)
  {
    SameReady(a, b, done);
    var ra, rb := Ready(a, done), Ready(b, done);
    if ra != [] {
      LeftDecreases(a, done, ra[0]);
      LeftDecreases(b, done, rb[0]);
      RepeatsAreHarmless(a, b, done + {ra[0].id});
      SameIdsCons(ra[0], rb[0], Kahn(a, done + {ra[0].id}), Kahn(b, done + {ra[0].id}));
    }
  }

  /** The same identifiers in the same order. */
  ghost predicate SameIds(a: seq<Pass>, b: seq<Pass>) {
    |a| == |b| && forall k :: 0 <= k < |a| ==> a[k].id == b[k].id
  }

  lemma SameIdsCons(x: Pass, y: Pass, a: seq<Pass>, b: seq<Pass>)
    requires x.id == y.id && SameIds(a, b)
    ensures SameIds([x] + a, [y] + b)
  {
  }

  lemma {:induction false} SameReady(a: seq<Pass>, b: seq<Pass>, done: set<string>)
    requires |a| == |b|
    requires forall i :: 0 <= i < |a| ==> a[i].id == b[i].id && Elements(a[i].dependsOn) == Elements(b[i].dependsOn)
    ensures |Ready(a, done)| == |Ready(b, done)|
    ensures forall k :: 0 <= k < |Ready(a, done)| ==> Ready(a, done)[k].id == Ready(b, done)[k].id
  {
    if a != [] {
      assert forall d :: d in a[0].dependsOn <==> d in Elements(a[0].dependsOn);
      assert forall d :: d in b[0].dependsOn <==> d in Elements(b[0].dependsOn);
      SameReady(a[1..], b[1..], done);
    }
  }

  // ---- the algorithm ----

  /** Entries of `deps` outside `done`, repetitions counted. */
  function Missing(deps: seq<string>, done: set<string>): nat {
    if deps == [] then 0 else (if deps[0] in done then 0 else 1) + Missing(deps[1..], done)
  }

  lemma {:induction false} MissingZero(deps: seq<string>, done: set<string>)
    ensures Missing(deps, done) == 0 <==> AllIn(deps, done)
  {
    if deps != [] {
      assert deps == [deps[0]] + deps[1..];
      MissingZero(deps[1..], done);
    }
  }

  lemma {:induction false} MissingAll(deps: seq<string>)
    ensures Missing(deps, {}) == |deps|
  {
    if deps != [] { MissingAll(deps[1..]); }
  }

  lemma {:induction false} MissingAdd(deps: seq<string>, done: set<string>, x: string)
    requires x !in done
    ensures Missing(deps, done) == Missing(deps, done + {x}) + multiset(deps)[x]
  {
    if deps != [] {
      assert deps == [deps[0]] + deps[1..];
      MissingAdd(deps[1..], done, x);
    }
  }

  function Get(m: map<string, seq<string>>, k: string): seq<string> {
    if k in m then m[k] else []
  }

  /** `outgoing` lists, under each dependency, the dependent passes, one entry per declared entry. */
  ghost predicate Outgoing(passes: seq<Pass>, outgoing: map<string, seq<string>>) {
    && (forall d, p :: p in passes ==> multiset(Get(outgoing, d))[p.id] == multiset(p.dependsOn)[d])
    && (forall d, x :: x in Get(outgoing, d) ==> x in Ids(passes))
  }

  ghost predicate Indegree(passes: seq<Pass>, indegree: map<string, int>, done: set<string>, children: seq<string>) {
    forall p :: p in passes ==>
      p.id in indegree && indegree[p.id] == Missing(p.dependsOn, done) + multiset(children)[p.id]
  }

  /** Construction of the graph, complete for `passes[..i]` and begun for `passes[i]` with `part` of its entries. */
  ghost predicate OutgoingUpTo(passes: seq<Pass>, i: nat, part: seq<string>, outgoing: map<string, seq<string>>) {
    && Counts(passes, i, part, outgoing)
    && (forall d, x :: x in Get(outgoing, d) ==> x in Ids(passes))
  }

  lemma PushCount(outgoing: map<string, seq<string>>, dep: string, id: string, d: string, y: string)
    ensures var next := outgoing[dep := Get(outgoing, dep) + [id]];
            multiset(Get(next, d))[y] == multiset(Get(outgoing, d))[y] + (if d == dep && y == id then 1 else 0)
  {
    assert multiset(Get(outgoing, dep) + [id]) == multiset(Get(outgoing, dep)) + multiset{id};
  }

  lemma PartCount(deps: seq<string>, j: nat, d: string)
    requires j < |deps|
    ensures multiset(deps[..j + 1])[d] == multiset(deps[..j])[d] + (if d == deps[j] then 1 else 0)
  {
    assert deps[..j + 1] == deps[..j] + [deps[j]];
  }

  lemma PushChild(passes: seq<Pass>, i: nat, j: nat, outgoing: map<string, seq<string>>, next: map<string, seq<string>>)
    requires DistinctIds(passes) && i < |passes| && j < |passes[i].dependsOn|
    requires var d := passes[i].dependsOn[j]; next == outgoing[d := Get(outgoing, d) + [passes[i].id]]
    requires OutgoingUpTo(passes, i, passes[i].dependsOn[..j], outgoing)
    ensures OutgoingUpTo(passes, i, passes[i].dependsOn[..j + 1], next)
  {
    assert passes[i] in passes;
    PushMembers(passes, passes[i].dependsOn[j], passes[i].id, outgoing, next);
    PushCounts(passes, i, j, outgoing, next);
  }

  lemma PushMembers(passes: seq<Pass>, dep: string, id: string,
                    outgoing: map<string, seq<string>>, next: map<string, seq<string>>)
    requires id in Ids(passes) && next == outgoing[dep := Get(outgoing, dep) + [id]]
    requires forall d, x :: x in Get(outgoing, d) ==> x in Ids(passes)
    ensures forall d, x :: x in Get(next, d) ==> x in Ids(passes)
  {
    forall d, x | x in Get(next, d) ensures x in Ids(passes) {
      assert Get(next, d) == if d == dep then Get(outgoing, d) + [id] else Get(outgoing, d);
      assert x in Get(outgoing, d) || x == id;
    }
  }

  ghost predicate Counts(passes: seq<Pass>, i: nat, part: seq<string>, outgoing: map<string, seq<string>>) {
    forall d, k :: 0 <= k < |passes| ==>
      multiset(Get(outgoing, d))[passes[k].id]
      == (if k < i then multiset(passes[k].dependsOn)[d] else if k == i then multiset(part)[d] else 0)
  }

  lemma PushCounts(passes: seq<Pass>, i: nat, j: nat,
                   outgoing: map<string, seq<string>>, next: map<string, seq<string>>)
    requires DistinctIds(passes) && i < |passes| && j < |passes[i].dependsOn|
    requires var d := passes[i].dependsOn[j]; next == outgoing[d := Get(outgoing, d) + [passes[i].id]]
    requires Counts(passes, i, passes[i].dependsOn[..j], outgoing)
    ensures Counts(passes, i, passes[i].dependsOn[..j + 1], next)
  {
    var deps, id := passes[i].dependsOn, passes[i].id;
    forall d, k | 0 <= k < |passes|
      ensures multiset(Get(next, d))[passes[k].id]
           == (if k < i then multiset(passes[k].dependsOn)[d] else if k == i then multiset(deps[..j + 1])[d] else 0)
    {
      PushCount(outgoing, deps[j], id, d, passes[k].id);
      PartCount(deps, j, d);
    }
  }

  method AddEdges(passes: seq<Pass>, i: nat, before: map<string, seq<string>>)
    returns (outgoing: map<string, seq<string>>)
    requires DistinctIds(passes) && i < |passes| && OutgoingUpTo(passes, i, [], before)
    ensures OutgoingUpTo(passes, i, passes[i].dependsOn, outgoing)
  {
    var deps := passes[i].dependsOn;
    outgoing := before;
    assert deps[..0] == [];
    for j := 0 to |deps|
      invariant OutgoingUpTo(passes, i, deps[..j], outgoing)
    {
      ghost var was := outgoing;
      if deps[j] !in outgoing { outgoing := outgoing[deps[j] := []]; }
      outgoing := outgoing[deps[j] := outgoing[deps[j]] + [passes[i].id]];
      assert outgoing == was[deps[j] := Get(was, deps[j]) + [passes[i].id]];
      PushChild(passes, i, j, was, outgoing);
    }
    assert deps[..|deps|] == deps;
  }

  lemma NextPass(passes: seq<Pass>, i: nat, outgoing: map<string, seq<string>>)
    requires i < |passes| && OutgoingUpTo(passes, i, passes[i].dependsOn, outgoing)
    ensures OutgoingUpTo(passes, i + 1, [], outgoing)
  {
  }

  lemma GraphComplete(passes: seq<Pass>, outgoing: map<string, seq<string>>)
    requires OutgoingUpTo(passes, |passes|, [], outgoing)
    ensures Outgoing(passes, outgoing)
  {
    forall d, p | p in passes ensures multiset(Get(outgoing, d))[p.id] == multiset(p.dependsOn)[d] {
      var k :| 0 <= k < |passes| && passes[k] == p;
      CountComplete(passes, k, d, outgoing);
    }
  }

  lemma CountComplete(passes: seq<Pass>, k: nat, d: string, outgoing: map<string, seq<string>>)
    requires k < |passes| && Counts(passes, |passes|, [], outgoing)
    ensures multiset(Get(outgoing, d))[passes[k].id] == multiset(passes[k].dependsOn)[d]
  {
  }

  /** Incoming counts and outgoing lists of the dependency graph. */
  method BuildGraph(passes: seq<Pass>) returns (indegree: map<string, int>, outgoing: map<string, seq<string>>)
    requires DistinctIds(passes)
    ensures Indegree(passes, indegree, {}, [])
    ensures Outgoing(passes, outgoing)
  {
    indegree := map[];
    outgoing := map[];
    for i := 0 to |passes|
      invariant CountedUpTo(passes, i, indegree)
      invariant OutgoingUpTo(passes, i, [], outgoing)
    {
      CountNext(passes, i, indegree);
      indegree := indegree[passes[i].id := |passes[i].dependsOn|];
      outgoing := AddEdges(passes, i, outgoing);
      NextPass(passes, i, outgoing);
    }
    GraphComplete(passes, outgoing);
    NothingDone(passes, indegree);
  }

  /** The first `i` passes have their number of dependencies. */
  ghost predicate CountedUpTo(passes: seq<Pass>, i: nat, indegree: map<string, int>)
    requires i <= |passes|
  {
    forall k :: 0 <= k < i ==> passes[k].id in indegree && indegree[passes[k].id] == |passes[k].dependsOn|
  }

  lemma CountNext(passes: seq<Pass>, i: nat, indegree: map<string, int>)
    requires DistinctIds(passes) && i < |passes| && CountedUpTo(passes, i, indegree)
    ensures CountedUpTo(passes, i + 1, indegree[passes[i].id := |passes[i].dependsOn|])
  {
  }

  lemma NothingDone(passes: seq<Pass>, indegree: map<string, int>)
    requires CountedUpTo(passes, |passes|, indegree)
    ensures Indegree(passes, indegree, {}, [])
  {
    forall p | p in passes ensures p.id in indegree && indegree[p.id] == Missing(p.dependsOn, {}) + multiset([])[p.id] {
      MissingAll(p.dependsOn);
    }
  }

  // ---- the queue ----

  /** Positions by identifier. */
  ghost predicate Positions(passes: seq<Pass>, idx: map<string, nat>) {
    forall k :: 0 <= k < |passes| ==> passes[k].id in idx && idx[passes[k].id] == k
  }

  function Pos(idx: map<string, nat>, x: string): nat {
    if x in idx then idx[x] else 0
  }

  function ByIndex(idx: map<string, nat>): (string, string) -> bool {
    (a, b) => Pos(idx, a) < Pos(idx, b)
  }

  function IdSeq(t: seq<Pass>): (r: seq<string>)
    ensures |r| == |t| && forall k :: 0 <= k < |t| ==> r[k] == t[k].id
  {
    if t == [] then [] else [t[0].id] + IdSeq(t[1..])
  }

  ghost predicate Increases(passes: seq<Pass>, from: nat, idx: map<string, nat>, r: seq<Pass>) {
    && (forall a :: 0 <= a < |r| ==> r[a] in passes && Pos(idx, r[a].id) >= from)
    && (forall a, b :: 0 <= a < b < |r| ==> Pos(idx, r[a].id) < Pos(idx, r[b].id))
  }

  lemma IncreasesCons(passes: seq<Pass>, from: nat, idx: map<string, nat>, t: seq<Pass>)
    requires Positions(passes, idx) && from < |passes| && Increases(passes, from + 1, idx, t)
    ensures Increases(passes, from, idx, t) && Increases(passes, from, idx, [passes[from]] + t)
  {
  }

  lemma {:induction false} ReadyIncreases(passes: seq<Pass>, from: nat, done: set<string>, idx: map<string, nat>)
    requires Positions(passes, idx) && from <= |passes|
    ensures Increases(passes, from, idx, Ready(passes[from..], done))
    decreases |passes| - from
  {
    if from < |passes| {
      ReadyIncreases(passes, from + 1, done, idx);
      var t := Ready(passes[from + 1..], done);
      IncreasesCons(passes, from, idx, t);
      assert passes[from..][1..] == passes[from + 1..] && passes[from..][0] == passes[from];
      assert Ready(passes[from..], done) == [passes[from]] + t || Ready(passes[from..], done) == [] + t;
      assert [] + t == t;
    }
  }

  /** The queue holds, in declaration order, what the counts call ready. */
  ghost predicate Queued(passes: seq<Pass>, idx: map<string, nat>, indegree: map<string, int>, done: set<string>,
                         queue: seq<string>) {
    && Distinct(queue)
    && Sorted(queue, ByIndex(idx))
    && (forall p :: p in passes ==> p.id in indegree)
    && (forall x :: x in queue ==> x in Ids(passes))
    && (forall p :: p in passes ==> (p.id in queue <==> p.id !in done && indegree[p.id] == 0))
  }

  lemma SameElements(a: seq<string>, b: seq<string>)
    requires Distinct(a) && Distinct(b) && forall x :: x in a <==> x in b
    ensures multiset(a) == multiset(b)
  {
    forall x ensures multiset(a)[x] == multiset(b)[x] {
      DistinctCountsOne(a, x);
      DistinctCountsOne(b, x);
      assert x in a <==> x in b;
    }
  }

  lemma ReadyQueue(passes: seq<Pass>, idx: map<string, nat>, done: set<string>)
    requires DistinctIds(passes) && Positions(passes, idx)
    ensures var r := IdSeq(Ready(passes, done));
            Distinct(r) && Sorted(r, ByIndex(idx))
  {
    assert passes[0..] == passes;
    ReadyIncreases(passes, 0, done, idx);
  }

  lemma SameQueueMembers(passes: seq<Pass>, idx: map<string, nat>, indegree: map<string, int>, done: set<string>,
                         queue: seq<string>)
    requires DistinctIds(passes) && Queued(passes, idx, indegree, done, queue) && Indegree(passes, indegree, done, [])
    ensures forall x :: x in queue <==> x in IdSeq(Ready(passes, done))
  {
    var t := Ready(passes, done);
    ReadyMembers(passes, done);
    forall x | x in queue ensures x in IdSeq(t) {
      var p :| p in passes && p.id == x;
      MissingZero(p.dependsOn, done);
      assert p in t;
      var k :| 0 <= k < |t| && t[k] == p;
      assert IdSeq(t)[k] == x;
    }
    forall x | x in IdSeq(t) ensures x in queue {
      var k :| 0 <= k < |t| && IdSeq(t)[k] == x;
      assert t[k] in t;
      MissingZero(t[k].dependsOn, done);
    }
  }

  lemma PositionsDiffer(passes: seq<Pass>, idx: map<string, nat>, queue: seq<string>)
    requires Positions(passes, idx) && forall x :: x in queue ==> x in Ids(passes)
    ensures forall x, y :: x in queue && y in queue && x != y ==> ByIndex(idx)(x, y) || ByIndex(idx)(y, x)
  {
    forall x, y | x in queue && y in queue && x != y ensures ByIndex(idx)(x, y) || ByIndex(idx)(y, x) {
      var p :| p in passes && p.id == x;
      var q :| q in passes && q.id == y;
      var i :| 0 <= i < |passes| && passes[i] == p;
      var j :| 0 <= j < |passes| && passes[j] == q;
      assert Pos(idx, x) == i && Pos(idx, y) == j;
    }
  }

  /** So the queue is the list of ready passes. */
  lemma QueueIsReady(passes: seq<Pass>, idx: map<string, nat>, indegree: map<string, int>, done: set<string>,
                     queue: seq<string>)
    requires DistinctIds(passes) && Positions(passes, idx)
    requires Queued(passes, idx, indegree, done, queue) && Indegree(passes, indegree, done, [])
    ensures queue == IdSeq(Ready(passes, done))
  {
    var r := IdSeq(Ready(passes, done));
    ReadyQueue(passes, idx, done);
    SameQueueMembers(passes, idx, indegree, done, queue);
    SameElements(queue, r);
    PositionsDiffer(passes, idx, queue);
    SortedIsUnique(queue, r, ByIndex(idx));
  }

  lemma SortQueue(queue: seq<string>, child: string, idx: map<string, nat>)
    requires Distinct(queue) && child !in queue
    ensures var r := Sort(queue + [child], ByIndex(idx));
            Distinct(r) && Sorted(r, ByIndex(idx)) && forall x :: x in r <==> x in queue || x == child
  {
    var q := queue + [child];
    var r := Sort(q, ByIndex(idx));
    SortPermutes(q, ByIndex(idx));
    SortSorts(q, ByIndex(idx));
    PermutationStaysDistinct(q, r);
    forall x ensures x in r <==> x in q { assert x in multiset(r) <==> x in multiset(q); }
  }

  /** The inner loop: one count down per child, and those that reach zero join the queue. */
  method Release(passes: seq<Pass>, idx: map<string, nat>, counts: map<string, int>, waiting: seq<string>,
                 children: seq<string>, ghost done: set<string>)
    returns (indegree: map<string, int>, queue: seq<string>)
    requires DistinctIds(passes) && Indegree(passes, counts, done, children)
    requires Queued(passes, idx, counts, done, waiting)
    requires forall c :: c in children ==> c in Ids(passes) && c !in done
    ensures Indegree(passes, indegree, done, []) && Queued(passes, idx, indegree, done, queue)
  {
    indegree, queue := counts, waiting;
    assert children[0..] == children;
    for j := 0 to |children|
      invariant Indegree(passes, indegree, done, children[j..]) && Queued(passes, idx, indegree, done, queue)
    {
      var child := children[j];
      assert child in children;
      ghost var p :| p in passes && p.id == child;
      assert children[j..] == [child] + children[j + 1..];
      assert indegree[child] > 0 by { assert multiset(children[j..])[child] > 0; }
      ghost var before := indegree;
      indegree := indegree[child := indegree[child] - 1];
      assert Indegree(passes, indegree, done, children[j + 1..]) by {
        OneDown(passes, before, done, children[j..], child);
      }
      if indegree[child] == 0 {
        SortQueue(queue, child, idx);
        queue := Sort(queue + [child], ByIndex(idx));
      }
    }
    assert children[|children|..] == [];
  }

  lemma OneDown(passes: seq<Pass>, counts: map<string, int>, done: set<string>, children: seq<string>, child: string)
    requires DistinctIds(passes) && children != [] && children[0] == child && child in counts
    requires Indegree(passes, counts, done, children)
    ensures Indegree(passes, counts[child := counts[child] - 1], done, children[1..])
  {
    assert children == [child] + children[1..];
    assert multiset(children) == multiset{child} + multiset(children[1..]);
  }

  function Remaining(passes: seq<Pass>, ordered: seq<Pass>): seq<string> {
    if passes == [] then []
    else
      (if exists o :: o in ordered && o.id == passes[0].id then [] else [passes[0].id])
      + Remaining(passes[1..], ordered)
  }

  /** Passes without dependencies, by declaration index. */
  method InitialQueue(passes: seq<Pass>, idx: map<string, nat>, indegree: map<string, int>) returns (queue: seq<string>)
    requires DistinctIds(passes) && Positions(passes, idx) && Indegree(passes, indegree, {}, [])
    ensures Queued(passes, idx, indegree, {}, queue)
  {
    queue := [];
    for k := 0 to |passes|
      invariant Distinct(queue)
      invariant forall x :: x in queue ==> x in Ids(passes)
      invariant forall a :: 0 <= a < |passes| ==> (passes[a].id in queue <==> a < k && indegree[passes[a].id] == 0)
    {
      if indegree[passes[k].id] == 0 { queue := queue + [passes[k].id]; }
    }
    ghost var found := queue;
    SortPermutes(queue, ByIndex(idx));
    SortSorts(queue, ByIndex(idx));
    PermutationStaysDistinct(queue, Sort(queue, ByIndex(idx)));
    queue := Sort(queue, ByIndex(idx));
    forall x ensures x in queue <==> x in found { assert x in multiset(queue) <==> x in multiset(found); }
  }

  lemma HeadOfQueue(passes: seq<Pass>, idx: map<string, nat>, done: set<string>, id: string)
    requires DistinctIds(passes) && Positions(passes, idx)
    requires IdSeq(Ready(passes, done)) != [] && id == IdSeq(Ready(passes, done))[0]
    ensures id in idx && idx[id] < |passes| && passes[idx[id]] == Ready(passes, done)[0] && passes[idx[id]].id == id
    ensures id in Ids(passes) && id !in done && AllIn(passes[idx[id]].dependsOn, done)
  {
    ReadyMembers(passes, done);
    var p := Ready(passes, done)[0];
    assert p in passes;
    var k :| 0 <= k < |passes| && passes[k] == p;
  }

  /** The children of the pass just placed still wait, and their counts are due. */
  lemma ChildrenOfHead(passes: seq<Pass>, indegree: map<string, int>, outgoing: map<string, seq<string>>,
                       done: set<string>,
                       pass: Pass, children: seq<string>, idx: map<string, nat>)
    requires DistinctIds(passes) && Outgoing(passes, outgoing) && Indegree(passes, indegree, done, [])
    requires children == Sort(Get(outgoing, pass.id), ByIndex(idx))
    requires pass in passes && pass.id !in done && AllIn(pass.dependsOn, done)
    requires forall p :: p in passes && p.id in done ==> AllIn(p.dependsOn, done)
    ensures Indegree(passes, indegree, done + {pass.id}, children)
    ensures forall c :: c in children ==> c in Ids(passes) && c !in done + {pass.id}
  {
    var listed := Get(outgoing, pass.id);
    SortPermutes(listed, ByIndex(idx));
    forall p | p in passes
      ensures p.id in indegree && indegree[p.id] == Missing(p.dependsOn, done + {pass.id}) + multiset(children)[p.id]
    {
      MissingAdd(p.dependsOn, done, pass.id);
    }
    forall c | c in children ensures c in Ids(passes) && c !in done + {pass.id} {
      assert c in multiset(children) && c in multiset(listed);
      assert c in listed;
      assert c in Ids(passes);
      var p :| p in passes && p.id == c;
      assert multiset(p.dependsOn)[pass.id] > 0;
      assert pass.id in p.dependsOn;
    }
  }

  lemma Dequeue(passes: seq<Pass>, idx: map<string, nat>, indegree: map<string, int>, done: set<string>,
                queue: seq<string>)
    requires Queued(passes, idx, indegree, done, queue) && queue != []
    ensures Queued(passes, idx, indegree, done + {queue[0]}, queue[1..])
  {
    assert queue == [queue[0]] + queue[1..];
  }

  /** What holds each time round the loop. */
  ghost predicate Scheduling(passes: seq<Pass>, idx: map<string, nat>, indegree: map<string, int>, done: set<string>,
                             queue: seq<string>, ordered: seq<Pass>)
  {
    && Indegree(passes, indegree, done, []) && Queued(passes, idx, indegree, done, queue)
    && Progress(passes, done, ordered)
  }

  ghost predicate Progress(passes: seq<Pass>, done: set<string>, ordered: seq<Pass>) {
    && done == Ids(ordered)
    && (forall p :: p in passes && p.id in done ==> AllIn(p.dependsOn, done))
    && ordered + Kahn(passes, done) == Kahn(passes, {})
  }

  lemma Placed(passes: seq<Pass>, done: set<string>, ordered: seq<Pass>, pass: Pass)
    requires DistinctIds(passes) && Progress(passes, done, ordered)
    requires Ready(passes, done) != [] && Ready(passes, done)[0] == pass
    ensures Progress(passes, done + {pass.id}, ordered + [pass])
  {
    var next, done' := ordered + [pass], done + {pass.id};
    assert Ids(next) == done' by { assert forall q :: q in next <==> q in ordered || q == pass; }
    KahnStep(passes, done, ordered, pass);
    DoneIsClosed(passes, done, pass);
  }

  lemma KahnStep(passes: seq<Pass>, done: set<string>, ordered: seq<Pass>, pass: Pass)
    requires Ready(passes, done) != [] && Ready(passes, done)[0] == pass
    ensures (ordered + [pass]) + Kahn(passes, done + {pass.id}) == ordered + Kahn(passes, done)
  {
  }

  lemma DoneIsClosed(passes: seq<Pass>, done: set<string>, pass: Pass)
    requires DistinctIds(passes) && pass in Ready(passes, done)
    requires forall p :: p in passes && p.id in done ==> AllIn(p.dependsOn, done)
    ensures forall p :: p in passes && p.id in done + {pass.id} ==> AllIn(p.dependsOn, done + {pass.id})
  {
    ReadyMembers(passes, done);
    forall p | p in passes && p.id in done + {pass.id} ensures AllIn(p.dependsOn, done + {pass.id}) {
      if p.id == pass.id { assert p == pass; }
    }
  }

  /** The execution order: Kahn's algorithm over the validated registry. */
  method ComputeTopologicalOrder(passes: seq<Pass>) returns (r: Outcome)
    requires Validated(passes)
    ensures r == if |Kahn(passes, {})| == |passes| then Order(Kahn(passes, {}))
                 else Rejected(DependencyCycle(Remaining(passes, Kahn(passes, {}))))
  {
    var idx: map<string, nat> := map[];
    for k := 0 to |passes|
      invariant forall a :: 0 <= a < k ==> passes[a].id in idx && idx[passes[a].id] == a
    {
      idx := idx[passes[k].id := k];
    }
    var indegree, outgoing := BuildGraph(passes);
    var queue := InitialQueue(passes, idx, indegree);
    var ordered: seq<Pass> := [];
    ghost var done: set<string> := {};
    while queue != []
      invariant Scheduling(passes, idx, indegree, done, queue, ordered)
      decreases Left(passes, done)
    {
      var id := queue[0];
      QueueIsReady(passes, idx, indegree, done, queue);
      HeadOfQueue(passes, idx, done, id);
      var pass := passes[idx[id]];
      var children := Sort(Get(outgoing, id), ByIndex(idx));
      ChildrenOfHead(passes, indegree, outgoing, done, pass, children, idx);
      Dequeue(passes, idx, indegree, done, queue);
      LeftDecreases(passes, done, pass);
      Placed(passes, done, ordered, pass);
      indegree, queue := Release(passes, idx, indegree, queue[1..], children, done + {id});
      ordered := ordered + [pass];
      done := done + {id};
    }
    QueueIsReady(passes, idx, indegree, done, queue);
    assert ordered == Kahn(passes, {});
    if |ordered| != |passes| {
      return Rejected(DependencyCycle(Remaining(passes, ordered)));
    }
    return Order(ordered);
  }
}

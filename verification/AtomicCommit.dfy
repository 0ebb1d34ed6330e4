// Committing a batch of state updates together with a batch of events: states first, then the
// events, and a rollback of the states when either part fails.

module AtomicCommit {
  import opened Options
  import opened Text
  import opened StateRegistry
  import opened EventStore

  /** The first update of a key, with the state to go back to. */
  datatype Prepared = Prepared(update: Update, previous: Option<string>)

  // ---- the three phases, on snapshots ----

  predicate Seen(ps: seq<Prepared>, k: string) {
    exists i :: 0 <= i < |ps| && KeyOf(ps[i].update) == k
  }

  function Previous(s: Snapshot, u: Update, initial: Resolver): Option<string> {
    if KeyOf(u) in s.states then Some(CurrentState(s, u, initial)) else None
  }

  /** `prepare`: one entry per key, in order of first occurrence. */
  function Prepare(s: Snapshot, us: seq<Update>, initial: Resolver): seq<Prepared> {
    if us == [] then []
    else
      var front := Prepare(s, us[..|us| - 1], initial);
      var u := us[|us| - 1];
      if Seen(front, KeyOf(u)) then front else front + [Prepared(u, Previous(s, u, initial))]
  }

  function SetAll(s: Snapshot, us: seq<Update>): Snapshot {
    if us == [] then s else Set(SetAll(s, us[..|us| - 1]), us[|us| - 1])
  }

  /** Rollback in reverse order of preparation. */
  function UndoAll(s: Snapshot, ps: seq<Prepared>): Snapshot
    decreases |ps|
  {
    if ps == [] then s
    else
      var p := ps[|ps| - 1];
      UndoAll(Undo(s, p.update, p.previous), ps[..|ps| - 1])
  }

  /** The registry after a batch whose first `done` updates were applied before the failure. */
  function AfterFailure(s: Snapshot, us: seq<Update>, done: nat, initial: Resolver): Snapshot
    requires done <= |us|
  {
    UndoAll(SetAll(s, us[..done]), Prepare(s, us, initial))
  }

  // ---- the code ----

  method PrepareUpdates(registry: Registry, updates: seq<Update>) returns (prepared: seq<Prepared>)
    ensures prepared == Prepare(registry.Contents(), updates, registry.initialStateResolver)
  {
    prepared := [];
    var seen: set<string> := {};
    assert updates[..0] == [];
    for i := 0 to |updates|
      invariant prepared == Prepare(registry.Contents(), updates[..i], registry.initialStateResolver)
      invariant forall k :: k in seen <==> Seen(prepared, k)
    {
      var u := updates[i];
      assert updates[..i + 1][..i] == updates[..i];
      if KeyOf(u) !in seen {
        seen := seen + {KeyOf(u)};
        var has := registry.HasState(u);
        var previous := None;
        if has {
          var current := registry.GetState(u);
          previous := Some(current);
        }
        SeenAppend(prepared, Prepared(u, previous));
        prepared := prepared + [Prepared(u, previous)];
      }
    }
    assert updates[..|updates|] == updates;
  }

  lemma SeenAppend(ps: seq<Prepared>, p: Prepared)
    ensures forall k :: Seen(ps + [p], k) <==> Seen(ps, k) || k == KeyOf(p.update)
  {
    var all := ps + [p];
    forall k ensures Seen(all, k) <==> Seen(ps, k) || k == KeyOf(p.update) {
      if Seen(ps, k) {
        var j :| 0 <= j < |ps| && KeyOf(ps[j].update) == k;
        assert all[j] == ps[j];
      }
      assert all[|ps|] == p;
    }
  }

  /** `failAt` is the index of the update whose `setState` rejects, if there is one; `persists` tells
      whether the event store can write; `ids` are the event identifiers to be handed out. */
  datatype Batch = Batch(updates: seq<Update>, inputs: seq<Input>, ids: seq<string>, failAt: nat, persists: bool)

  predicate Commits(b: Batch, log: seq<Envelope>, strict: bool)
    requires |b.ids| == |b.inputs|
  {
    b.failAt >= |b.updates| && (b.inputs == [] || (b.persists && Appended(log, b.inputs, b.ids, strict).Some?))
  }

  /** Updates applied before the failure. */
  function Applied(us: seq<Update>, failAt: nat): nat {
    if failAt < |us| then failAt else |us|
  }

  /** The updates before the rejected one, in order. */
  method ApplyUpdates(registry: Registry, updates: seq<Update>, failAt: nat) returns (failed: bool)
    requires registry.Valid()
    modifies registry`states, registry`history
    ensures registry.Valid() && (failed <==> failAt < |updates|)
    ensures registry.Contents() == SetAll(old(registry.Contents()), updates[..Applied(updates, failAt)])
  {
    failed := false;
    assert updates[..0] == [];
    for i := 0 to |updates|
      invariant registry.Valid() && i <= failAt
      invariant registry.Contents() == SetAll(old(registry.Contents()), updates[..i])
    {
      assert updates[..i + 1][..i] == updates[..i];
      if i == failAt { return true; }
      registry.SetState(updates[i]);
    }
  }

  /** Rollback of the prepared updates, last first. */
  method RollbackAll(registry: Registry, prepared: seq<Prepared>)
    requires registry.Valid()
    modifies registry`states, registry`history
    ensures registry.Valid()
    ensures registry.Contents() == UndoAll(old(registry.Contents()), prepared)
  {
    var i := |prepared|;
    assert prepared[..i] == prepared;
    while i > 0
      invariant 0 <= i <= |prepared| && registry.Valid()
      invariant UndoAll(registry.Contents(), prepared[..i]) == UndoAll(old(registry.Contents()), prepared)
    {
      i := i - 1;
      assert prepared[..i + 1][..i] == prepared[..i];
      registry.Rollback(prepared[i].update, prepared[i].previous);
    }
  }

  /** One batch, committed whole or rolled back. */
  method Execute(registry: Registry, store: Store, updates: seq<Update>, inputs: seq<Input>, ids: seq<string>,
                 failAt: nat, persists: bool)
    returns (committed: bool)
    requires registry.Valid() && store.Valid() && |ids| == |inputs|
    modifies registry`states, registry`history, store
    ensures registry.Valid() && store.Valid()
    ensures committed
       <==> Commits(Batch(updates, inputs, ids, failAt, persists), old(store.events), store.strictCausation)
    ensures registry.Contents()
         == if committed then SetAll(old(registry.Contents()), updates)
            else AfterFailure(old(registry.Contents()), updates, Applied(updates, failAt),
                              registry.initialStateResolver)
    ensures store.events == if committed then old(store.events) + Envelopes(inputs, ids) else old(store.events)
  {
    var prepared := PrepareUpdates(registry, updates);
    var failed := ApplyUpdates(registry, updates, failAt);
    if !failed {
      assert updates[..|updates|] == updates;
      var events := store.AppendManyAtomic(inputs, ids, persists);
      if events.Some? { return true; }
    }
    RollbackAll(registry, prepared);
    return false;
  }

  // ---- key by key ----

  predicate Touched(us: seq<Update>, k: string) {
    exists i :: 0 <= i < |us| && KeyOf(us[i]) == k
  }

  /** The last update of `k`. */
  function LastOf(us: seq<Update>, k: string): Update
    requires Touched(us, k)
  {
    if KeyOf(us[|us| - 1]) == k then us[|us| - 1] else LastOf(us[..|us| - 1], k)
  }

  /** The first update of `k`. */
  function FirstOf(us: seq<Update>, k: string): Update
    requires Touched(us, k)
  {
    if KeyOf(us[0]) == k then us[0] else FirstOf(us[1..], k)
  }

  /** The transitions the updates add to the history of `k`. */
  function Pushes(us: seq<Update>, k: string): seq<Transition> {
    if us == [] then []
    else
      var u := us[|us| - 1];
      Pushes(us[..|us| - 1], k) + (if KeyOf(u) == k && u.transition.Some? then [Kept(u)] else [])
  }

  /** A committed batch leaves, under each key, its last update, and adds its transitions in order. */
  lemma {:induction false} SetAllAt(s: Snapshot, us: seq<Update>, k: string)
    ensures StateAt(SetAll(s, us), k)
         == if Touched(us, k) then Some(RecordOf(LastOf(us, k), LastOf(us, k).state)) else StateAt(s, k)
    ensures HistoryAt(SetAll(s, us), k) == HistoryAt(s, k) + Pushes(us, k)
  {
    if us != [] {
      SetAllAt(s, us[..|us| - 1], k);
      assert Touched(us, k) <==> Touched(us[..|us| - 1], k) || KeyOf(us[|us| - 1]) == k by { TouchedAppend(us, k); }
    }
  }

  lemma TouchedAppend(us: seq<Update>, k: string)
    requires us != []
    ensures Touched(us, k) <==> Touched(us[..|us| - 1], k) || KeyOf(us[|us| - 1]) == k
  {
    var front := us[..|us| - 1];
    if Touched(front, k) {
      var i :| 0 <= i < |front| && KeyOf(front[i]) == k;
      assert us[i] == front[i];
    }
    if i :| 0 <= i < |us| && KeyOf(us[i]) == k {
      if i < |us| - 1 { assert front[i] == us[i]; }
    }
  }

  ghost predicate OnePerKey(ps: seq<Prepared>) {
    forall i, j :: 0 <= i < j < |ps| ==> KeyOf(ps[i].update) != KeyOf(ps[j].update)
  }

  lemma {:induction false} PrepareSeen(s: Snapshot, us: seq<Update>, initial: Resolver, k: string)
    ensures Seen(Prepare(s, us, initial), k) <==> Touched(us, k)
  {
    if us != [] {
      var front := Prepare(s, us[..|us| - 1], initial);
      PrepareSeen(s, us[..|us| - 1], initial, k);
      TouchedAppend(us, k);
      SeenAppend(front, Prepared(us[|us| - 1], Previous(s, us[|us| - 1], initial)));
    }
  }

  lemma {:induction false} PrepareOnePerKey(s: Snapshot, us: seq<Update>, initial: Resolver)
    ensures OnePerKey(Prepare(s, us, initial))
  {
    if us != [] {
      PrepareOnePerKey(s, us[..|us| - 1], initial);
      var front, u := Prepare(s, us[..|us| - 1], initial), us[|us| - 1];
      if !Seen(front, KeyOf(u)) {
        assert forall i :: 0 <= i < |front| ==> KeyOf(front[i].update) != KeyOf(u);
      }
    }
  }

  lemma {:induction false} FirstOfAppend(us: seq<Update>, k: string)
    requires us != [] && Touched(us, k)
    ensures FirstOf(us, k) == if Touched(us[..|us| - 1], k) then FirstOf(us[..|us| - 1], k) else us[|us| - 1]
  {
    var front := us[..|us| - 1];
    TouchedAppend(us, k);
    if |us| > 1 && KeyOf(us[0]) != k {
      TouchedTail(us, k);
      TouchedTail(front, k);
      assert us[1..][..|us| - 2] == front[1..];
      FirstOfAppend(us[1..], k);
    } else if |us| > 1 {
      assert front[0] == us[0];
    }
  }

  lemma TouchedTail(us: seq<Update>, k: string)
    requires us != [] && KeyOf(us[0]) != k
    ensures Touched(us, k) <==> Touched(us[1..], k)
  {
    if i :| 0 <= i < |us| && KeyOf(us[i]) == k { assert us[1..][i - 1] == us[i]; }
    if i :| 0 <= i < |us[1..]| && KeyOf(us[1..][i]) == k { assert us[i + 1] == us[1..][i]; }
  }

  /** Each entry is the first update of its key. */
  lemma {:induction false} PrepareFirst(s: Snapshot, us: seq<Update>, initial: Resolver)
    ensures forall i :: 0 <= i < |Prepare(s, us, initial)| ==>
              var p := Prepare(s, us, initial)[i];
              Touched(us, KeyOf(p.update))
              && p == Prepared(FirstOf(us, KeyOf(p.update)), Previous(s, FirstOf(us, KeyOf(p.update)), initial))
  {
    if us != [] {
      var front, u := us[..|us| - 1], us[|us| - 1];
      var ps, all := Prepare(s, front, initial), Prepare(s, us, initial);
      PrepareFirst(s, front, initial);
      forall i | 0 <= i < |all|
        ensures Touched(us, KeyOf(all[i].update))
        ensures all[i]
             == Prepared(FirstOf(us, KeyOf(all[i].update)), Previous(s, FirstOf(us, KeyOf(all[i].update)), initial))
      {
        var k := KeyOf(all[i].update);
        PrepareSeen(s, front, initial, k);
        TouchedAppend(us, k);
        FirstOfAppend(us, k);
      }
    }
  }

  /** Undoing touches one key at a time. */
  lemma UndoAt(s: Snapshot, u: Update, previous: Option<string>, k: string)
    ensures StateAt(Undo(s, u, previous), k)
         == if KeyOf(u) != k then StateAt(s, k)
            else if previous.Some? then Some(RecordOf(u, previous.value)) else None
    ensures HistoryAt(Undo(s, u, previous), k)
         == if KeyOf(u) == k then WithoutLast(HistoryAt(s, k)) else HistoryAt(s, k)
  {
  }

  /** The entry at `i` is undone at its key. */
  ghost predicate UndoneAt(s: Snapshot, after: Snapshot, p: Prepared) {
    var k := KeyOf(p.update);
    && StateAt(after, k) == (if p.previous.Some? then Some(RecordOf(p.update, p.previous.value)) else None)
    && HistoryAt(after, k) == WithoutLast(HistoryAt(s, k))
  }

  lemma OnePerKeyFront(front: seq<Prepared>, p: Prepared)
    requires OnePerKey(front + [p])
    ensures OnePerKey(front) && !Seen(front, KeyOf(p.update))
  {
    var all := front + [p];
    assert forall i :: 0 <= i < |front| ==> all[i] == front[i];
    assert all[|front|] == p;
  }

  lemma {:induction false} UndoAllAt(s: Snapshot, ps: seq<Prepared>, k: string)
    requires OnePerKey(ps)
    ensures !Seen(ps, k) ==>
              StateAt(UndoAll(s, ps), k) == StateAt(s, k) && HistoryAt(UndoAll(s, ps), k) == HistoryAt(s, k)
    ensures forall i :: 0 <= i < |ps| && KeyOf(ps[i].update) == k ==> UndoneAt(s, UndoAll(s, ps), ps[i])
    decreases |ps|
  {
    if ps != [] {
      var front, p := ps[..|ps| - 1], ps[|ps| - 1];
      assert ps == front + [p];
      OnePerKeyFront(front, p);
      UndoAllAt(Undo(s, p.update, p.previous), front, k);
      UndoAt(s, p.update, p.previous, k);
      SeenAppend(front, p);
      forall i | 0 <= i < |ps| && KeyOf(ps[i].update) == k ensures UndoneAt(s, UndoAll(s, ps), ps[i]) {
        if i < |front| { assert ps[i] == front[i]; }
      }
    }
  }

  // ---- what a failed batch leaves ----

  /** What rollback puts under a touched key. */
  function Restored(s: Snapshot, us: seq<Update>, k: string, initial: Resolver): Option<StateRecord>
    requires Touched(us, k)
  {
    var u := FirstOf(us, k);
    if k in s.states then Some(RecordOf(u, CurrentState(s, u, initial))) else None
  }

  lemma {:induction false} FirstOfKey(us: seq<Update>, k: string)
    requires Touched(us, k)
    ensures KeyOf(FirstOf(us, k)) == k
  {
    if KeyOf(us[0]) != k {
      TouchedTail(us, k);
      FirstOfKey(us[1..], k);
    }
  }

  lemma {:induction false} PushesUntouched(us: seq<Update>, k: string)
    requires !Touched(us, k)
    ensures Pushes(us, k) == []
  {
    if us != [] {
      TouchedAppend(us, k);
      PushesUntouched(us[..|us| - 1], k);
    }
  }

  lemma PrefixUntouched(us: seq<Update>, done: nat, k: string)
    requires done <= |us| && !Touched(us, k)
    ensures !Touched(us[..done], k)
  {
    assert forall i :: 0 <= i < done ==> us[..done][i] == us[i];
  }

  lemma TouchedAfterFailure(s: Snapshot, us: seq<Update>, done: nat, initial: Resolver, k: string)
    requires done <= |us| && Touched(us, k)
    ensures StateAt(AfterFailure(s, us, done, initial), k) == Restored(s, us, k, initial)
    ensures HistoryAt(AfterFailure(s, us, done, initial), k) == WithoutLast(HistoryAt(s, k) + Pushes(us[..done], k))
  {
    var ps, applied := Prepare(s, us, initial), SetAll(s, us[..done]);
    PrepareOnePerKey(s, us, initial);
    PrepareSeen(s, us, initial, k);
    PrepareFirst(s, us, initial);
    var i :| 0 <= i < |ps| && KeyOf(ps[i].update) == k;
    UndoAllAt(applied, ps, k);
    assert UndoneAt(applied, UndoAll(applied, ps), ps[i]);
    SetAllAt(s, us[..done], k);
    FirstOfKey(us, k);
  }

  lemma UntouchedAfterFailure(s: Snapshot, us: seq<Update>, done: nat, initial: Resolver, k: string)
    requires done <= |us| && !Touched(us, k)
    ensures StateAt(AfterFailure(s, us, done, initial), k) == StateAt(s, k)
    ensures HistoryAt(AfterFailure(s, us, done, initial), k) == HistoryAt(s, k)
  {
    var ps, applied := Prepare(s, us, initial), SetAll(s, us[..done]);
    PrepareOnePerKey(s, us, initial);
    PrepareSeen(s, us, initial, k);
    UndoAllAt(applied, ps, k);
    SetAllAt(s, us[..done], k);
    PrefixUntouched(us, done, k);
    PushesUntouched(us[..done], k);
  }

  /** Key by key: rollback puts back the first update's view of the old state, and takes exactly one
      entry off the history of every touched key. */
  lemma AfterFailureAt(s: Snapshot, us: seq<Update>, done: nat, initial: Resolver, k: string)
    requires done <= |us|
    ensures StateAt(AfterFailure(s, us, done, initial), k)
         == if Touched(us, k) then Restored(s, us, k, initial) else StateAt(s, k)
    ensures HistoryAt(AfterFailure(s, us, done, initial), k)
         == if Touched(us, k) then WithoutLast(HistoryAt(s, k) + Pushes(us[..done], k)) else HistoryAt(s, k)
  {
    if Touched(us, k) {
      TouchedAfterFailure(s, us, done, initial, k);
    } else {
      UntouchedAfterFailure(s, us, done, initial, k);
    }
  }

  /** Rollback can name the old record of every touched key: the first update of the key spells the
      record's own domain, aggregate and identifier, and the old state is the one that reads back. */
  ghost predicate Nameable(s: Snapshot, us: seq<Update>, initial: Resolver) {
    forall k :: Touched(us, k) && k in s.states ==>
      var u := FirstOf(us, k);
      && s.states[k].domain == u.domain && s.states[k].aggregate == u.aggregate && s.states[k].aggregateId == u.id
      && (s.states[k].state != "" || CurrentState(s, u, initial) == "")
  }

  /** A failed batch leaves the states as they were exactly when the old records are nameable. */
  lemma StatesRestoredIff(s: Snapshot, us: seq<Update>, done: nat, initial: Resolver)
    requires done <= |us|
    ensures AfterFailure(s, us, done, initial).states == s.states <==> Nameable(s, us, initial)
  {
    var after := AfterFailure(s, us, done, initial);
    if Nameable(s, us, initial) {
      forall k ensures StateAt(after, k) == StateAt(s, k) {
        AfterFailureAt(s, us, done, initial, k);
        if Touched(us, k) { FirstOfKey(us, k); }
      }
      SameStates(after, s);
    }
    if after.states == s.states {
      forall k | Touched(us, k) && k in s.states
        ensures var u := FirstOf(us, k);
          && s.states[k].domain == u.domain && s.states[k].aggregate == u.aggregate && s.states[k].aggregateId == u.id
          && (s.states[k].state != "" || CurrentState(s, u, initial) == "")
      {
        AfterFailureAt(s, us, done, initial, k);
        assert StateAt(after, k) == StateAt(s, k);
      }
    }
  }

  lemma SameStates(a: Snapshot, b: Snapshot)
    requires forall k :: StateAt(a, k) == StateAt(b, k)
    ensures a.states == b.states
  {
    forall k ensures k in a.states <==> k in b.states { assert StateAt(a, k) == StateAt(b, k); }
    forall k | k in a.states ensures a.states[k] == b.states[k] { assert StateAt(a, k) == StateAt(b, k); }
  }

  /** Each touched key got exactly one history entry before the failure, or none onto an empty history. */
  ghost predicate PushedOnce(s: Snapshot, us: seq<Update>, done: nat)
    requires done <= |us|
  {
    forall k :: Touched(us, k) ==>
      |Pushes(us[..done], k)| == 1 || (Pushes(us[..done], k) == [] && HistoryAt(s, k) == [])
  }

  /** A failed batch leaves the histories as they were exactly when every touched key was pushed once.
      A batch that repeats a key, or that moves a state without recording a transition, breaks this. */
  lemma HistoryRestoredIff(s: Snapshot, us: seq<Update>, done: nat, initial: Resolver)
    requires done <= |us| && Consistent(s)
    ensures AfterFailure(s, us, done, initial).history == s.history <==> PushedOnce(s, us, done)
  {
    var after := AfterFailure(s, us, done, initial);
    if PushedOnce(s, us, done) {
      forall k ensures HistoryAt(after, k) == HistoryAt(s, k) {
        AfterFailureAt(s, us, done, initial, k);
        if Touched(us, k) { OneMore(HistoryAt(s, k), Pushes(us[..done], k)); }
      }
      AfterFailureConsistent(s, us, done, initial);
      SameHistory(after, s);
    }
    if after.history == s.history {
      forall k | Touched(us, k)
        ensures |Pushes(us[..done], k)| == 1 || (Pushes(us[..done], k) == [] && HistoryAt(s, k) == [])
      {
        AfterFailureAt(s, us, done, initial, k);
        OneMore(HistoryAt(s, k), Pushes(us[..done], k));
      }
    }
  }

  lemma OneMore(h: seq<Transition>, p: seq<Transition>)
    ensures WithoutLast(h + p) == h <==> |p| == 1 || (p == [] && h == [])
  {
    if |p| == 1 { assert (h + p)[..|h + p| - 1] == h; }
  }

  lemma SameHistory(a: Snapshot, b: Snapshot)
    requires (forall k :: k in a.history ==> a.history[k] != []) && (forall k :: k in b.history ==> b.history[k] != [])
    requires forall k :: HistoryAt(a, k) == HistoryAt(b, k)
    ensures a.history == b.history
  {
    forall k ensures k in a.history <==> k in b.history { assert HistoryAt(a, k) == HistoryAt(b, k); }
    forall k | k in a.history ensures a.history[k] == b.history[k] { assert HistoryAt(a, k) == HistoryAt(b, k); }
  }

  lemma {:induction false} SetAllConsistent(s: Snapshot, us: seq<Update>)
    requires Consistent(s)
    ensures Consistent(SetAll(s, us))
  {
    if us != [] { SetAllConsistent(s, us[..|us| - 1]); }
  }

  lemma {:induction false} UndoAllConsistent(s: Snapshot, ps: seq<Prepared>)
    requires Consistent(s)
    ensures Consistent(UndoAll(s, ps))
    decreases |ps|
  {
    if ps != [] { UndoAllConsistent(Undo(s, ps[|ps| - 1].update, ps[|ps| - 1].previous), ps[..|ps| - 1]); }
  }

  lemma AfterFailureConsistent(s: Snapshot, us: seq<Update>, done: nat, initial: Resolver)
    requires done <= |us| && Consistent(s)
    ensures Consistent(AfterFailure(s, us, done, initial))
  {
    SetAllConsistent(s, us[..done]);
    UndoAllConsistent(SetAll(s, us[..done]), Prepare(s, us, initial));
  }

  // ---- when names are safe ----

  predicate SafeNames(domain: Option<string>, aggregate: string) {
    Lacks(aggregate, ':') && (domain.Some? ==> Lacks(domain.value, ':') && domain.value != "*")
  }

  /** With safe names the key tells aggregate, identifier and domain apart; identifiers may hold colons. */
  lemma KeyInjective(a1: string, id1: string, d1: Option<string>, a2: string, id2: string, d2: Option<string>)
    requires SafeNames(d1, a1) && SafeNames(d2, a2) && Key(a1, id1, d1) == Key(a2, id2, d2)
    ensures a1 == a2 && id1 == id2 && d1 == d2
  {
    var x1, x2 := if d1.Some? then d1.value else "*", if d2.Some? then d2.value else "*";
    assert x1 + (":" + (a1 + (":" + id1))) == Key(a1, id1, d1);
    assert x2 + (":" + (a2 + (":" + id2))) == Key(a2, id2, d2);
    FirstMark(x1, a1 + (":" + id1), x2, a2 + (":" + id2), ':');
    FirstMark(a1, id1, a2, id2, ':');
  }

  ghost predicate SafeUpdates(us: seq<Update>) {
    forall i :: 0 <= i < |us| ==> SafeNames(us[i].domain, us[i].aggregate) && us[i].state != ""
  }

  ghost predicate SafeRegistry(s: Snapshot) {
    && Consistent(s)
    && forall k :: k in s.states ==> SafeNames(s.states[k].domain, s.states[k].aggregate) && s.states[k].state != ""
  }

  lemma {:induction false} FirstOfIn(us: seq<Update>, k: string)
    requires Touched(us, k)
    ensures FirstOf(us, k) in us
  {
    if KeyOf(us[0]) != k {
      TouchedTail(us, k);
      FirstOfIn(us[1..], k);
    }
  }

  lemma SafeIsNameable(s: Snapshot, us: seq<Update>, initial: Resolver)
    requires SafeRegistry(s) && SafeUpdates(us)
    ensures Nameable(s, us, initial)
  {
    forall k | Touched(us, k) && k in s.states
      ensures var u := FirstOf(us, k);
        && s.states[k].domain == u.domain && s.states[k].aggregate == u.aggregate && s.states[k].aggregateId == u.id
    {
      var u, r := FirstOf(us, k), s.states[k];
      FirstOfKey(us, k);
      FirstOfIn(us, k);
      KeyInjective(r.aggregate, r.aggregateId, r.domain, u.aggregate, u.id, u.domain);
    }
  }

  lemma {:induction false} SetAllSafe(s: Snapshot, us: seq<Update>)
    requires SafeRegistry(s) && SafeUpdates(us)
    ensures SafeRegistry(SetAll(s, us))
  {
    if us != [] { SetAllSafe(s, us[..|us| - 1]); }
  }

  // ---- over whole runs ----

  datatype System = System(registry: Snapshot, log: seq<Envelope>)

  function Step(y: System, b: Batch, initial: Resolver, strict: bool): System
    requires |b.ids| == |b.inputs|
  {
    if Commits(b, y.log, strict) then System(SetAll(y.registry, b.updates), y.log + Envelopes(b.inputs, b.ids))
    else System(AfterFailure(y.registry, b.updates, Applied(b.updates, b.failAt), initial), y.log)
  }

  ghost predicate WellTyped(bs: seq<Batch>) {
    forall i :: 0 <= i < |bs| ==> |bs[i].ids| == |bs[i].inputs|
  }

  function Run(y: System, bs: seq<Batch>, initial: Resolver, strict: bool): System
    requires WellTyped(bs)
    decreases |bs|
  {
    if bs == [] then y else Step(Run(y, bs[..|bs| - 1], initial, strict), bs[|bs| - 1], initial, strict)
  }

  /** The updates of the committed batches, in order. */
  function CommittedUpdates(y: System, bs: seq<Batch>, initial: Resolver, strict: bool): seq<Update>
    requires WellTyped(bs)
    decreases |bs|
  {
    if bs == [] then []
    else
      var front, b := bs[..|bs| - 1], bs[|bs| - 1];
      CommittedUpdates(y, front, initial, strict)
      + (if Commits(b, Run(y, front, initial, strict).log, strict) then b.updates else [])
  }

  function CommittedEvents(y: System, bs: seq<Batch>, initial: Resolver, strict: bool): seq<Envelope>
    requires WellTyped(bs)
    decreases |bs|
  {
    if bs == [] then []
    else
      var front, b := bs[..|bs| - 1], bs[|bs| - 1];
      CommittedEvents(y, front, initial, strict)
      + (if Commits(b, Run(y, front, initial, strict).log, strict) then Envelopes(b.inputs, b.ids) else [])
  }

  lemma {:induction false} SetAllAppend(s: Snapshot, a: seq<Update>, b: seq<Update>)
    ensures SetAll(s, a + b) == SetAll(SetAll(s, a), b)
    decreases |b|
  {
    if b == [] {
      assert a + b == a;
    } else {
      assert (a + b)[..|a + b| - 1] == a + b[..|b| - 1];
      SetAllAppend(s, a, b[..|b| - 1]);
    }
  }

  lemma {:induction false} StatesIgnoreHistory(s: Snapshot, t: Snapshot, us: seq<Update>)
    requires s.states == t.states
    ensures SetAll(s, us).states == SetAll(t, us).states
  {
    if us != [] { StatesIgnoreHistory(s, t, us[..|us| - 1]); }
  }

  lemma CommittedStates(base: Snapshot, mid: Snapshot, us: seq<Update>, next: seq<Update>)
    requires mid.states == SetAll(base, us).states
    ensures SetAll(mid, next).states == SetAll(base, us + next).states
  {
    SetAllAppend(base, us, next);
    StatesIgnoreHistory(mid, SetAll(base, us), next);
  }

  lemma FailedStates(mid: Snapshot, us: seq<Update>, done: nat, initial: Resolver)
    requires done <= |us| && SafeRegistry(mid) && SafeUpdates(us)
    ensures SafeRegistry(AfterFailure(mid, us, done, initial))
    ensures AfterFailure(mid, us, done, initial).states == mid.states
  {
    SafeIsNameable(mid, us, initial);
    StatesRestoredIff(mid, us, done, initial);
    AfterFailureConsistent(mid, us, done, initial);
  }

  /** What one more batch does to a system whose states and log are those of the commits so far. */
  lemma CommitStep(base: System, mid: System, us: seq<Update>, es: seq<Envelope>, b: Batch, initial: Resolver,
                   strict: bool)
    requires |b.ids| == |b.inputs| && SafeRegistry(mid.registry) && SafeUpdates(b.updates)
    requires Commits(b, mid.log, strict)
    requires mid.registry.states == SetAll(base.registry, us).states && mid.log == base.log + es
    ensures var end := Step(mid, b, initial, strict);
            && SafeRegistry(end.registry)
            && end.registry.states == SetAll(base.registry, us + b.updates).states
            && end.log == base.log + (es + Envelopes(b.inputs, b.ids))
  {
    SetAllSafe(mid.registry, b.updates);
    CommittedStates(base.registry, mid.registry, us, b.updates);
    assert (base.log + es) + Envelopes(b.inputs, b.ids) == base.log + (es + Envelopes(b.inputs, b.ids));
  }

  lemma FailStep(mid: System, b: Batch, initial: Resolver, strict: bool)
    requires |b.ids| == |b.inputs| && SafeRegistry(mid.registry) && SafeUpdates(b.updates)
    requires !Commits(b, mid.log, strict)
    ensures var end := Step(mid, b, initial, strict);
            SafeRegistry(end.registry) && end.registry.states == mid.registry.states && end.log == mid.log
  {
    FailedStates(mid.registry, b.updates, Applied(b.updates, b.failAt), initial);
  }

  lemma StepIsAllOrNothing(base: System, mid: System, us: seq<Update>, es: seq<Envelope>, b: Batch, initial: Resolver,
                           strict: bool)
    requires |b.ids| == |b.inputs| && SafeRegistry(mid.registry) && SafeUpdates(b.updates)
    requires mid.registry.states == SetAll(base.registry, us).states && mid.log == base.log + es
    ensures var end := Step(mid, b, initial, strict);
            && SafeRegistry(end.registry)
            && (if Commits(b, mid.log, strict)
                then end.registry.states == SetAll(base.registry, us + b.updates).states
                     && end.log == base.log + (es + Envelopes(b.inputs, b.ids))
                else end.registry.states == SetAll(base.registry, us).states && end.log == base.log + es)
  {
    if Commits(b, mid.log, strict) {
      CommitStep(base, mid, us, es, b, initial, strict);
    } else {
      FailStep(mid, b, initial, strict);
    }
  }

  ghost predicate SafeBatches(bs: seq<Batch>) {
    forall i :: 0 <= i < |bs| ==> SafeUpdates(bs[i].updates)
  }

  /** Over every run of batches with safe names, failures at any point included: the states are those of
      the committed updates alone and the log holds the committed events alone. */
  lemma {:induction false} RunIsAllOrNothing(y: System, bs: seq<Batch>, initial: Resolver, strict: bool)
    requires WellTyped(bs) && SafeRegistry(y.registry) && SafeBatches(bs)
    ensures var end := Run(y, bs, initial, strict);
            && SafeRegistry(end.registry)
            && end.registry.states == SetAll(y.registry, CommittedUpdates(y, bs, initial, strict)).states
            && end.log == y.log + CommittedEvents(y, bs, initial, strict)
    decreases |bs|
  {
    if bs != [] {
      var front, b := bs[..|bs| - 1], bs[|bs| - 1];
      assert SafeUpdates(b.updates);
      assert SafeBatches(front);
      RunIsAllOrNothing(y, front, initial, strict);
      var us, es := CommittedUpdates(y, front, initial, strict), CommittedEvents(y, front, initial, strict);
      StepIsAllOrNothing(y, Run(y, front, initial, strict), us, es, b, initial, strict);
      assert us + [] == us && es + [] == es;
    }
  }

  /** One update per key, each with its transition, and no rejection by the registry itself. */
  ghost predicate Regular(b: Batch) {
    && b.failAt >= |b.updates|
    && (forall i :: 0 <= i < |b.updates| ==> b.updates[i].transition.Some?)
    && (forall i, j :: 0 <= i < j < |b.updates| ==> KeyOf(b.updates[i]) != KeyOf(b.updates[j]))
  }

  lemma {:induction false} PushOnceEach(us: seq<Update>, k: string)
    requires forall i :: 0 <= i < |us| ==> us[i].transition.Some?
    requires forall i, j :: 0 <= i < j < |us| ==> KeyOf(us[i]) != KeyOf(us[j])
    ensures |Pushes(us, k)| == if Touched(us, k) then 1 else 0
  {
    if us != [] {
      var front := us[..|us| - 1];
      PushOnceEach(front, k);
      TouchedAppend(us, k);
      if KeyOf(us[|us| - 1]) == k {
        assert forall i :: 0 <= i < |front| ==> front[i] == us[i];
      }
    }
  }

  /** With regular batches the histories obey the same law: the registry is, entirely, what the
      committed updates make of it. */
  lemma {:induction false} RegularRunIsExact(y: System, bs: seq<Batch>, initial: Resolver, strict: bool)
    requires WellTyped(bs) && SafeRegistry(y.registry)
    requires SafeBatches(bs) && forall i :: 0 <= i < |bs| ==> Regular(bs[i])
    ensures Run(y, bs, initial, strict)
         == System(SetAll(y.registry, CommittedUpdates(y, bs, initial, strict)),
                   y.log + CommittedEvents(y, bs, initial, strict))
    decreases |bs|
  {
    RunIsAllOrNothing(y, bs, initial, strict);
    if bs != [] {
      var front, b := bs[..|bs| - 1], bs[|bs| - 1];
      RegularRunIsExact(y, front, initial, strict);
      RunIsAllOrNothing(y, front, initial, strict);
      var mid := Run(y, front, initial, strict);
      var us := CommittedUpdates(y, front, initial, strict);
      if Commits(b, mid.log, strict) {
        SetAllAppend(y.registry, us, b.updates);
      } else {
        FailedRegular(mid.registry, b, initial);
        assert us + [] == us;
      }
    }
  }

  lemma FailedRegular(s: Snapshot, b: Batch, initial: Resolver)
    requires SafeRegistry(s) && SafeUpdates(b.updates) && Regular(b)
    ensures AfterFailure(s, b.updates, |b.updates|, initial) == s
  {
    var us := b.updates;
    assert us[..|us|] == us;
    SafeIsNameable(s, us, initial);
    StatesRestoredIff(s, us, |us|, initial);
    forall k | Touched(us, k) ensures |Pushes(us[..|us|], k)| == 1 { PushOnceEach(us, k); }
    HistoryRestoredIff(s, us, |us|, initial);
  }

  // ---- inputs for which the states are not restored ----

  /** A record stored under other names that spell the same key is rewritten with the names of the update
      when the batch fails. */
  lemma AliasIsRenamed(stored: Update, u: Update, done: nat, initial: Resolver)
    requires KeyOf(stored) == KeyOf(u) && done <= 1
    requires stored.domain != u.domain || stored.aggregate != u.aggregate || stored.id != u.id
    ensures var s := Set(Snapshot(map[], map[]), stored); AfterFailure(s, [u], done, initial).states != s.states
  {
    var s := Set(Snapshot(map[], map[]), stored);
    assert KeyOf([u][0]) == KeyOf(u);
    assert Touched([u], KeyOf(u)) && FirstOf([u], KeyOf(u)) == u;
    StatesRestoredIff(s, [u], done, initial);
  }

  /** The domain called * and no domain at all. */
  lemma StarDomainIsLost(done: nat, initial: Resolver)
    requires done <= 1
    ensures var s := Set(Snapshot(map[], map[]), Update("a", "1", "X", Some("*"), None));
            AfterFailure(s, [Update("a", "1", "Y", None, None)], done, initial).states != s.states
  {
    AliasIsRenamed(Update("a", "1", "X", Some("*"), None), Update("a", "1", "Y", None, None), done, initial);
  }

  /** The aggregate x:y with identifier z, and the aggregate x with identifier y:z. */
  lemma ColonMovesNames(done: nat, initial: Resolver)
    requires done <= 1
    ensures var s := Set(Snapshot(map[], map[]), Update("x:y", "z", "X", None, None));
            AfterFailure(s, [Update("x", "y:z", "Y", None, None)], done, initial).states != s.states
  {
    assert "*" + ":" + "x:y" + ":" + "z" == "*" + ":" + "x" + ":" + "y:z";
    assert |"x:y"| != |"x"|;
    AliasIsRenamed(Update("x:y", "z", "X", None, None), Update("x", "y:z", "Y", None, None), done, initial);
  }

  // ---- inputs for which the histories are not restored ----

  /** A batch that moves one aggregate twice leaves the first transition behind when it fails. */
  lemma RepeatedKeyLeavesHistory(t: Transition, initial: Resolver)
    ensures var u := Update("a", "1", "X", None, Some(t));
            var v := Update("a", "1", "Y", None, Some(t));
            AfterFailure(Snapshot(map[], map[]), [u, v], 2, initial).history != map[]
  {
    var u := Update("a", "1", "X", None, Some(t));
    var v := Update("a", "1", "Y", None, Some(t));
    var us := [u, v];
    assert us[..2] == us && us[..1] == [u] && [u][..0] == [];
    assert Pushes([u], KeyOf(u)) == Pushes([], KeyOf(u)) + [Kept(u)];
    assert Pushes(us, KeyOf(u)) == Pushes([u], KeyOf(u)) + [Kept(v)];
    assert KeyOf(us[0]) == KeyOf(u);
    assert Touched(us, KeyOf(u));
    HistoryRestoredIff(Snapshot(map[], map[]), us, 2, initial);
  }

  /** A batch without a transition takes an older entry off the history when it fails. */
  lemma SilentUpdateLosesHistory(s: Snapshot, u: Update, initial: Resolver)
    requires Consistent(s) && u.transition.None? && HistoryAt(s, KeyOf(u)) != []
    ensures HistoryAt(AfterFailure(s, [u], 1, initial), KeyOf(u))
         == WithoutLast(HistoryAt(s, KeyOf(u))) != HistoryAt(s, KeyOf(u))
  {
    var us := [u];
    assert us[..1] == us && us[..0] == [];
    assert KeyOf(us[0]) == KeyOf(u);
    AfterFailureAt(s, us, 1, initial, KeyOf(u));
    assert Pushes(us, KeyOf(u)) == Pushes([], KeyOf(u)) + [];
    assert HistoryAt(s, KeyOf(u)) + [] == HistoryAt(s, KeyOf(u));
  }
}

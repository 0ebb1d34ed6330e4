// The gate in front of the event store: an event is appended only when its audit envelope is complete
// and its sequence number is the next one of its stream. Appends are taken one after the other.

module EventGate {
  import opened Options
  import opened Text
  import opened JsonValue
  import opened JsonCanonical

  /** `Number(x)` when that is an integer, for whatever value is found in the sequence field. */
  type Coercion = Json -> Option<int>

  /** The least double that adding 1 does not change. */
  const CAP := 9007199254740992

  function Cap(n: int): int {
    if n < CAP then n else CAP
  }

  // ---- audit completeness ----

  const REQUIRED_AUDIT_FIELDS := ["event_name", "aggregate_id", "actor_id", "correlation_id", "command_id"]

  predicate Absent(v: Json) {
    Nullish(v) || v == Str("")
  }

  function Missing(event: Json, names: seq<string>): seq<string> {
    if names == [] then []
    else (if Absent(Get(event, names[0])) then [names[0]] else []) + Missing(event, names[1..])
  }

  predicate IsObject(v: Json) {
    v.Obj? || v.Arr?
  }

  const REFERENCES := "constitutional_rules_referenced"

  /** `AuditTrailEnforcer.enforce` */
  function AuditAllows(event: Json, selfReference: bool): bool {
    if !IsObject(event) then false
    else if Missing(event, REQUIRED_AUDIT_FIELDS) != [] then false
    else if !IsObject(Get(event, "audit")) then false
    else
      var refs := Get(Get(event, "audit"), REFERENCES);
      if !refs.Arr? || refs.items == [] then false
      else !selfReference || Str("INV-005") in refs.items
  }

  /** A complete audit envelope. */
  ghost predicate Audited(event: Json, selfReference: bool) {
    && (forall i :: 0 <= i < |REQUIRED_AUDIT_FIELDS| ==> !Absent(Get(event, REQUIRED_AUDIT_FIELDS[i])))
    && var refs := Get(Get(event, "audit"), REFERENCES);
       refs.Arr? && refs.items != [] && (selfReference ==> Str("INV-005") in refs.items)
  }

  lemma {:induction false} MissingNone(event: Json, names: seq<string>)
    ensures Missing(event, names) == [] <==> forall i :: 0 <= i < |names| ==> !Absent(Get(event, names[i]))
  {
    if names != [] {
      MissingNone(event, names[1..]);
      assert forall i :: 0 < i < |names| ==> names[i] == names[1..][i - 1];
      assert Absent(Get(event, names[0])) ==> Missing(event, names)[0] == names[0];
    }
  }

  lemma AuditAllowsIff(event: Json, selfReference: bool)
    ensures AuditAllows(event, selfReference) <==> Audited(event, selfReference)
  {
    MissingNone(event, REQUIRED_AUDIT_FIELDS);
    assert Get(event, REQUIRED_AUDIT_FIELDS[0]) == Get(event, "event_name");
  }

  // ---- ordering ----

  function StreamOf(event: Json): Json {
    OrElse(Get(event, "stream_id"), Get(event, "aggregate_id"))
  }

  function RawSequence(event: Json): Json {
    OrElse(Get(event, "sequence"), Get(event, "stream_sequence"))
  }

  predicate Sequenced(event: Json) {
    !Nullish(RawSequence(event))
  }

  /** `last + 1` on doubles, for the values the tracker can hold. */
  function Successor(last: int): int {
    Cap(last + 1)
  }

  datatype Ordering = Allowed(tracker: map<Json, int>) | Violation

  /** `EventOrderingEnforcer.enforce`, with the tracker it leaves. */
  function OrderingOf(tracker: map<Json, int>, event: Json, number: Coercion): Ordering {
    var stream := StreamOf(event);
    if !Sequenced(event) then Allowed(tracker)
    else if Falsy(stream) then Violation
    else
      var sequence := number(RawSequence(event));
      if sequence.None? || sequence.value < 1 then Violation
      else
        var expected := if stream in tracker then Successor(tracker[stream]) else 1;
        if sequence.value != expected then Violation else Allowed(tracker[stream := sequence.value])
  }

  class InMemorySequenceTracker {
    var sequences: map<Json, int>

    constructor ()
      ensures sequences == map[]
    {
      sequences := map[];
    }

    method GetLastSequence(stream: Json) returns (last: Option<int>)
      ensures last == if stream in sequences then Some(sequences[stream]) else None
    {
      last := if stream in sequences then Some(sequences[stream]) else None;
    }

    method SetLastSequence(stream: Json, sequence: int)
      modifies this
      ensures sequences == old(sequences)[stream := sequence]
    {
      sequences := sequences[stream := sequence];
    }
  }

  class EventOrderingEnforcer {
    const tracker: InMemorySequenceTracker

    constructor (tracker: InMemorySequenceTracker)
      ensures this.tracker == tracker
    {
      this.tracker := tracker;
    }

    method Enforce(event: Json, number: Coercion) returns (allowed: bool)
      modifies tracker
      ensures allowed <==> OrderingOf(old(tracker.sequences), event, number).Allowed?
      ensures tracker.sequences
           == if allowed then OrderingOf(old(tracker.sequences), event, number).tracker else old(tracker.sequences)
    {
      if Nullish(RawSequence(event)) { return true; }
      var stream := StreamOf(event);
      if Falsy(stream) { return false; }
      var sequence := number(RawSequence(event));
      if sequence.None? || sequence.value < 1 { return false; }
      var last := tracker.GetLastSequence(stream);
      if last.None? {
        if sequence.value != 1 { return false; }
        tracker.SetLastSequence(stream, sequence.value);
        return true;
      }
      if sequence.value != Successor(last.value) { return false; }
      tracker.SetLastSequence(stream, sequence.value);
      return true;
    }
  }

  // ---- the wrapper ----

  /** The tracker and the events in the inner store. */
  datatype Gate = Gate(tracker: map<Json, int>, stored: seq<Json>)

  datatype Outcome = Stored | AuditViolation | OrderViolation | StoreFailure

  /** An append, and whether the inner store throws if it is reached. */
  datatype Attempt = Attempt(event: Json, fails: bool)

  function AppendTo(g: Gate, a: Attempt, selfReference: bool, number: Coercion): (Gate, Outcome) {
    if !AuditAllows(a.event, selfReference) then (g, AuditViolation)
    else
      match OrderingOf(g.tracker, a.event, number)
      case Violation => (g, OrderViolation)
      case Allowed(t) =>
        if a.fails then (Gate(t, g.stored), StoreFailure) else (Gate(t, g.stored + [a.event]), Stored)
  }

  class InnerStore {
    var events: seq<Json>

    constructor ()
      ensures events == []
    {
      events := [];
    }

    method Append(event: Json, fails: bool) returns (stored: bool)
      modifies this
      ensures stored == !fails && events == if fails then old(events) else old(events) + [event]
    {
      stored := !fails;
      if !fails { events := events + [event]; }
    }
  }

  class EventStoreEnforcementWrapper {
    const inner: InnerStore
    const orderingEnforcer: EventOrderingEnforcer
    const selfReference: bool

    constructor (inner: InnerStore, orderingEnforcer: EventOrderingEnforcer, selfReference: bool)
      ensures this.inner == inner && this.orderingEnforcer == orderingEnforcer && this.selfReference == selfReference
    {
      this.inner := inner;
      this.orderingEnforcer := orderingEnforcer;
      this.selfReference := selfReference;
    }

    function Contents(): Gate
      reads inner, orderingEnforcer.tracker
    {
      Gate(orderingEnforcer.tracker.sequences, inner.events)
    }

    method Append(event: Json, fails: bool, number: Coercion) returns (outcome: Outcome)
      modifies inner, orderingEnforcer.tracker
      ensures (Contents(), outcome) == AppendTo(old(Contents()), Attempt(event, fails), selfReference, number)
    {
      if !AuditAllows(event, selfReference) { return AuditViolation; }
      var allowed := orderingEnforcer.Enforce(event, number);
      if !allowed { return OrderViolation; }
      var stored := inner.Append(event, fails);
      outcome := if stored then Stored else StoreFailure;
    }
  }

  // ---- runs ----

  const EMPTY := Gate(map[], [])

  function Run(attempts: seq<Attempt>, selfReference: bool, number: Coercion): Gate {
    if attempts == [] then EMPTY
    else
      var front, a := attempts[..|attempts| - 1], attempts[|attempts| - 1];
      AppendTo(Run(front, selfReference, number), a, selfReference, number).0
  }

  /** The attempts that passed both gates, in order. */
  function Passed(attempts: seq<Attempt>, selfReference: bool, number: Coercion): seq<Attempt> {
    if attempts == [] then []
    else
      var front, a := attempts[..|attempts| - 1], attempts[|attempts| - 1];
      Passed(front, selfReference, number)
      + (if Passes(Run(front, selfReference, number), a, selfReference, number) then [a] else [])
  }

  predicate Passes(g: Gate, a: Attempt, selfReference: bool, number: Coercion) {
    var outcome := AppendTo(g, a, selfReference, number).1;
    outcome.Stored? || outcome.StoreFailure?
  }

  /** The sequence numbers that a list of attempts gives one stream. */
  function Sequences(attempts: seq<Attempt>, stream: Json, number: Coercion): seq<int> {
    if attempts == [] then []
    else
      var event := attempts[|attempts| - 1].event;
      Sequences(attempts[..|attempts| - 1], stream, number)
      + (if InStream(event, stream, number) then [SequenceOf(event, number)] else [])
  }

  predicate InStream(event: Json, stream: Json, number: Coercion) {
    Sequenced(event) && StreamOf(event) == stream && number(RawSequence(event)).Some?
  }

  function SequenceOf(event: Json, number: Coercion): int
    requires number(RawSequence(event)).Some?
  {
    number(RawSequence(event)).value
  }

  /** The attempts the inner store accepted. */
  function Succeeded(attempts: seq<Attempt>): seq<Attempt> {
    if attempts == [] then []
    else
      var a := attempts[|attempts| - 1];
      Succeeded(attempts[..|attempts| - 1]) + (if a.fails then [] else [a])
  }

  function Events(attempts: seq<Attempt>): seq<Json> {
    seq(|attempts|, i requires 0 <= i < |attempts| => attempts[i].event)
  }

  lemma SucceededAppend(p: seq<Attempt>, a: Attempt)
    ensures Succeeded(p + [a]) == if a.fails then Succeeded(p) else Succeeded(p) + [a]
  {
    assert (p + [a])[..|p|] == p;
    assert Succeeded(p) + [] == Succeeded(p);
  }

  lemma SequencesAppend(p: seq<Attempt>, a: Attempt, stream: Json, number: Coercion)
    ensures Sequences(p + [a], stream, number)
         == if InStream(a.event, stream, number) then Sequences(p, stream, number) + [SequenceOf(a.event, number)]
            else Sequences(p, stream, number)
  {
    assert (p + [a])[..|p|] == p;
    assert Sequences(p, stream, number) + [] == Sequences(p, stream, number);
  }

  lemma PassedAppend(front: seq<Attempt>, a: Attempt, selfReference: bool, number: Coercion)
    ensures Passed(front + [a], selfReference, number)
         == if Passes(Run(front, selfReference, number), a, selfReference, number)
            then Passed(front, selfReference, number) + [a] else Passed(front, selfReference, number)
    ensures Run(front + [a], selfReference, number)
         == AppendTo(Run(front, selfReference, number), a, selfReference, number).0
  {
    assert (front + [a])[..|front|] == front;
    assert Passed(front, selfReference, number) + [] == Passed(front, selfReference, number);
  }

  lemma AppendStores(g: Gate, a: Attempt, selfReference: bool, number: Coercion)
    ensures AppendTo(g, a, selfReference, number).0.stored
         == if Passes(g, a, selfReference, number) && !a.fails then g.stored + [a.event] else g.stored
  {
  }

  lemma StoreStep(g: Gate, p: seq<Attempt>, a: Attempt, selfReference: bool, number: Coercion)
    requires g.stored == Events(Succeeded(p))
    ensures AppendTo(g, a, selfReference, number).0.stored
         == Events(Succeeded(if Passes(g, a, selfReference, number) then p + [a] else p))
  {
    AppendStores(g, a, selfReference, number);
    SucceededAppend(p, a);
    assert Events(Succeeded(p) + [a]) == Events(Succeeded(p)) + [a.event];
  }

  /** What is stored is what passed and did not fail in the inner store. */
  lemma {:induction false} StoredAreThePassed(attempts: seq<Attempt>, selfReference: bool, number: Coercion)
    ensures Run(attempts, selfReference, number).stored == Events(Succeeded(Passed(attempts, selfReference, number)))
  {
    if attempts != [] {
      var front, a := attempts[..|attempts| - 1], attempts[|attempts| - 1];
      StoredAreThePassed(front, selfReference, number);
      assert front + [a] == attempts;
      PassedAppend(front, a, selfReference, number);
      StoreStep(Run(front, selfReference, number), Passed(front, selfReference, number), a, selfReference, number);
    }
  }

  ghost predicate Orderable(event: Json, number: Coercion) {
    Sequenced(event) ==>
      var n := number(RawSequence(event));
      n.Some? && n.value >= 1 && !Falsy(StreamOf(event))
  }

  ghost predicate Acceptable(event: Json, selfReference: bool, number: Coercion) {
    Audited(event, selfReference) && Orderable(event, number)
  }

  lemma PassesMeans(g: Gate, a: Attempt, selfReference: bool, number: Coercion)
    requires Passes(g, a, selfReference, number)
    ensures Acceptable(a.event, selfReference, number)
  {
    AuditAllowsIff(a.event, selfReference);
  }

  /** Every stored event carries a complete audit envelope and, when it carries a sequence number, a
      usable one and a stream to order it in. */
  lemma {:induction false} StoredAreAcceptable(attempts: seq<Attempt>, selfReference: bool, number: Coercion)
    ensures forall event :: event in Run(attempts, selfReference, number).stored ==>
      Acceptable(event, selfReference, number)
  {
    if attempts != [] {
      var front, a := attempts[..|attempts| - 1], attempts[|attempts| - 1];
      var g := Run(front, selfReference, number);
      StoredAreAcceptable(front, selfReference, number);
      AppendStores(g, a, selfReference, number);
      if Passes(g, a, selfReference, number) { PassesMeans(g, a, selfReference, number); }
    }
  }

  /** The numbers 1, 2, 3, … as far as doubles count. */
  ghost predicate Counts(s: seq<int>) {
    forall i :: 0 <= i < |s| ==> s[i] == Cap(i + 1)
  }

  /** The tracker holds the last of the numbers `s`. */
  ghost predicate Tracks(tracker: map<Json, int>, stream: Json, s: seq<int>) {
    (stream in tracker <==> s != []) && (stream in tracker ==> tracker[stream] == Cap(|s|))
  }

  /** The numbers `s` of a stream after one more attempt. */
  function Extended(s: seq<int>, g: Gate, a: Attempt, selfReference: bool, number: Coercion, stream: Json): seq<int> {
    if Passes(g, a, selfReference, number) && InStream(a.event, stream, number)
    then s + [SequenceOf(a.event, number)]
    else s
  }

  lemma AppendTracks(g: Gate, a: Attempt, selfReference: bool, number: Coercion, stream: Json, s: seq<int>)
    requires Tracks(g.tracker, stream, s)
    ensures Tracks(AppendTo(g, a, selfReference, number).0.tracker, stream,
                   Extended(s, g, a, selfReference, number, stream))
    ensures Extended(s, g, a, selfReference, number, stream) == s
         || Extended(s, g, a, selfReference, number, stream) == s + [Cap(|s| + 1)]
  {
  }

  lemma SequencesStep(attempts: seq<Attempt>, selfReference: bool, number: Coercion, stream: Json)
    requires attempts != []
    ensures var front := attempts[..|attempts| - 1];
      Sequences(Passed(attempts, selfReference, number), stream, number)
      == Extended(Sequences(Passed(front, selfReference, number), stream, number), Run(front, selfReference, number),
                  attempts[|attempts| - 1], selfReference, number, stream)
  {
    var front, a := attempts[..|attempts| - 1], attempts[|attempts| - 1];
    assert front + [a] == attempts;
    PassedAppend(front, a, selfReference, number);
    SequencesAppend(Passed(front, selfReference, number), a, stream, number);
  }

  /** The numbers that pass the gates in one stream are 1, 2, 3, …, and the tracker holds the last. */
  lemma {:induction false} PassedCount(attempts: seq<Attempt>, selfReference: bool, number: Coercion, stream: Json)
    ensures var s := Sequences(Passed(attempts, selfReference, number), stream, number);
            Counts(s) && Tracks(Run(attempts, selfReference, number).tracker, stream, s)
  {
    if attempts != [] {
      var front, a := attempts[..|attempts| - 1], attempts[|attempts| - 1];
      PassedCount(front, selfReference, number, stream);
      SequencesStep(attempts, selfReference, number, stream);
      AppendTracks(Run(front, selfReference, number), a, selfReference, number, stream,
                   Sequences(Passed(front, selfReference, number), stream, number));
    }
  }

  /** The numbers `s` are in order and none is above the last of `n` numbers. */
  ghost predicate InOrder(s: seq<int>, n: nat) {
    && |s| <= n
    && (forall i :: 0 <= i < |s| ==> 1 <= s[i] <= Cap(n))
    && (forall i, j :: 0 <= i < j < |s| ==> s[i] < s[j] || s[j] == CAP)
  }

  lemma InOrderAppend(s: seq<int>, n: nat)
    requires InOrder(s, n)
    ensures InOrder(s, n + 1) && InOrder(s + [Cap(n + 1)], n + 1)
  {
  }

  lemma OrderStep(front: seq<Attempt>, a: Attempt, stream: Json, number: Coercion)
    requires Counts(Sequences(front + [a], stream, number))
    requires InOrder(Sequences(Succeeded(front), stream, number), |Sequences(front, stream, number)|)
    ensures InOrder(Sequences(Succeeded(front + [a]), stream, number), |Sequences(front + [a], stream, number)|)
  {
    SucceededAppend(front, a);
    SequencesAppend(front, a, stream, number);
    SequencesAppend(Succeeded(front), a, stream, number);
    var all := Sequences(front, stream, number);
    InOrderAppend(Sequences(Succeeded(front), stream, number), |all|);
    if InStream(a.event, stream, number) {
      assert Sequences(front + [a], stream, number)[|all|] == SequenceOf(a.event, number);
    }
  }

  /** In any list of attempts whose numbers count, those that succeed are bounded and in order. */
  lemma {:induction false} SucceededInOrder(p: seq<Attempt>, stream: Json, number: Coercion)
    requires Counts(Sequences(p, stream, number))
    ensures InOrder(Sequences(Succeeded(p), stream, number), |Sequences(p, stream, number)|)
  {
    if p != [] {
      var front, a := p[..|p| - 1], p[|p| - 1];
      assert front + [a] == p;
      CountsFront(p, stream, number);
      SucceededInOrder(front, stream, number);
      OrderStep(front, a, stream, number);
    }
  }

  lemma CountsFront(p: seq<Attempt>, stream: Json, number: Coercion)
    requires p != [] && Counts(Sequences(p, stream, number))
    ensures Counts(Sequences(p[..|p| - 1], stream, number))
  {
    var s, t := Sequences(p, stream, number), Sequences(p[..|p| - 1], stream, number);
    assert forall i :: 0 <= i < |t| ==> t[i] == s[i];
  }

  /** Over every run, inner failures included: the stored numbers of a stream strictly increase, and the
      tracker is never below them, until the tracker reaches 2^53. */
  lemma StoredStrictlyIncrease(attempts: seq<Attempt>, selfReference: bool, number: Coercion, stream: Json)
    ensures var s := Sequences(Succeeded(Passed(attempts, selfReference, number)), stream, number);
            var t := Run(attempts, selfReference, number).tracker;
            && (s != [] ==> stream in t && forall i :: 0 <= i < |s| ==> 1 <= s[i] <= t[stream] <= CAP)
            && (forall i, j :: 0 <= i < j < |s| ==> s[i] < s[j] || s[j] == CAP)
            && (stream in t && t[stream] < CAP ==> forall i, j :: 0 <= i < j < |s| ==> s[i] < s[j])
  {
    PassedCount(attempts, selfReference, number, stream);
    SucceededInOrder(Passed(attempts, selfReference, number), stream, number);
  }

  lemma {:induction false} AllSucceed(p: seq<Attempt>)
    requires forall i :: 0 <= i < |p| ==> !p[i].fails
    ensures Succeeded(p) == p
  {
    if p != [] {
      AllSucceed(p[..|p| - 1]);
      assert p == p[..|p| - 1] + [p[|p| - 1]];
    }
  }

  lemma {:induction false} PassedAreAttempts(attempts: seq<Attempt>, selfReference: bool, number: Coercion)
    ensures forall a :: a in Passed(attempts, selfReference, number) ==> a in attempts
  {
    if attempts != [] {
      var front, a := attempts[..|attempts| - 1], attempts[|attempts| - 1];
      PassedAreAttempts(front, selfReference, number);
      assert front + [a] == attempts;
      PassedAppend(front, a, selfReference, number);
    }
  }

  /** When the inner store never fails, the stored numbers of a stream are exactly 1, 2, …, n and the
      tracker is n. */
  lemma StoredCount(attempts: seq<Attempt>, selfReference: bool, number: Coercion, stream: Json)
    requires forall i :: 0 <= i < |attempts| ==> !attempts[i].fails
    ensures var s := Sequences(Succeeded(Passed(attempts, selfReference, number)), stream, number);
            Counts(s) && Tracks(Run(attempts, selfReference, number).tracker, stream, s)
  {
    var p := Passed(attempts, selfReference, number);
    PassedAreAttempts(attempts, selfReference, number);
    forall i | 0 <= i < |p| ensures !p[i].fails { assert p[i] in attempts; }
    AllSucceed(p);
    PassedCount(attempts, selfReference, number, stream);
  }

  ghost predicate Increases(s: seq<int>) {
    forall i, j :: 0 <= i < j < |s| ==> s[i] < s[j]
  }

  lemma CountsIncreaseIff(s: seq<int>)
    requires Counts(s)
    ensures Increases(s) <==> |s| <= CAP
  {
    if |s| > CAP {
      assert s[CAP - 1] == CAP && s[CAP] == CAP;
    }
  }

  /** Over every run: the numbers that pass in a stream strictly increase exactly as long as no more than
      2^53 of them pass. */
  lemma PassedIncreaseIff(attempts: seq<Attempt>, selfReference: bool, number: Coercion, stream: Json)
    ensures var s := Sequences(Passed(attempts, selfReference, number), stream, number); Increases(s) <==> |s| <= CAP
  {
    PassedCount(attempts, selfReference, number, stream);
    CountsIncreaseIff(Sequences(Passed(attempts, selfReference, number), stream, number));
  }

  /** A stream whose tracker stands at 2^53 takes an event of that number, stores it and stands where it stood. */
  lemma CapIsTakenAgain(g: Gate, event: Json, selfReference: bool, number: Coercion)
    requires Audited(event, selfReference) && Sequenced(event) && !Falsy(StreamOf(event))
    requires StreamOf(event) in g.tracker && g.tracker[StreamOf(event)] == CAP
    requires number(RawSequence(event)) == Some(CAP)
    ensures AppendTo(g, Attempt(event, false), selfReference, number) == (Gate(g.tracker, g.stored + [event]), Stored)
  {
    AuditAllowsIff(event, selfReference);
    assert g.tracker[StreamOf(event) := CAP] == g.tracker;
  }

  /** Events of one stream, with a complete envelope and the number they are made for. */
  ghost predicate Makes(make: int -> Json, selfReference: bool, number: Coercion, stream: Json) {
    && !Falsy(stream)
    && forall n :: 1 <= n <= CAP ==> var event := make(n);
         Audited(event, selfReference) && Sequenced(event) && StreamOf(event) == stream
         && number(RawSequence(event)) == Some(n)
  }

  function Numbered(make: int -> Json, n: nat): seq<Attempt> {
    seq(n, i => Attempt(make(Cap(i + 1)), false))
  }

  lemma NextPasses(make: int -> Json, n: nat, g: Gate, selfReference: bool, number: Coercion, stream: Json, s: seq<int>)
    requires Makes(make, selfReference, number, stream) && Tracks(g.tracker, stream, s) && |s| == n
    ensures var a := Attempt(make(Cap(n + 1)), false);
            Passes(g, a, selfReference, number) && InStream(a.event, stream, number)
  {
    var event := make(Cap(n + 1));
    assert 1 <= Cap(n + 1) <= CAP;
    AuditAllowsIff(event, selfReference);
    assert OrderingOf(g.tracker, event, number).Allowed?;
  }

  lemma {:induction false} AllPass(make: int -> Json, n: nat, selfReference: bool, number: Coercion, stream: Json)
    requires Makes(make, selfReference, number, stream)
    ensures |Sequences(Passed(Numbered(make, n), selfReference, number), stream, number)| == n
  {
    if n > 0 {
      var all, front := Numbered(make, n), Numbered(make, n - 1);
      var a := Attempt(make(Cap(n)), false);
      AllPass(make, n - 1, selfReference, number, stream);
      PassedCount(front, selfReference, number, stream);
      NextPasses(make, n - 1, Run(front, selfReference, number), selfReference, number, stream,
                 Sequences(Passed(front, selfReference, number), stream, number));
      assert all == front + [a];
      OneMorePasses(front, a, selfReference, number, stream);
    }
  }

  lemma OneMorePasses(front: seq<Attempt>, a: Attempt, selfReference: bool, number: Coercion, stream: Json)
    requires Passes(Run(front, selfReference, number), a, selfReference, number) && InStream(a.event, stream, number)
    ensures |Sequences(Passed(front + [a], selfReference, number), stream, number)|
         == |Sequences(Passed(front, selfReference, number), stream, number)| + 1
  {
    PassedAppend(front, a, selfReference, number);
    SequencesAppend(Passed(front, selfReference, number), a, stream, number);
  }

  /** So there is a run that stores two events of one stream under one number. */
  lemma CapIsStoredTwice(make: int -> Json, selfReference: bool, number: Coercion, stream: Json)
    requires Makes(make, selfReference, number, stream)
    ensures var s := Sequences(Succeeded(Passed(Numbered(make, CAP + 1), selfReference, number)), stream, number);
      |s| == CAP + 1 && s[CAP - 1] == s[CAP] == CAP
  {
    var attempts := Numbered(make, CAP + 1);
    var p := Passed(attempts, selfReference, number);
    AllPass(make, CAP + 1, selfReference, number, stream);
    PassedCount(attempts, selfReference, number, stream);
    PassedAreAttempts(attempts, selfReference, number);
    forall i | 0 <= i < |p| ensures !p[i].fails { assert p[i] in attempts; }
    AllSucceed(p);
  }

  // ---- such events exist ----

  /** The number a string of digits stands for. */
  function DigitsValue(s: string): nat {
    if s == "" then 0
    else DigitsValue(s[..|s| - 1]) * 10 + (if IsDigit(s[|s| - 1]) then s[|s| - 1] as int - '0' as int else 0)
  }

  lemma {:induction false} ValueOfNatText(n: nat)
    ensures DigitsValue(NatText(n)) == n
  {
    var s := NatText(n);
    if n >= 10 {
      ValueOfNatText(n / 10);
      assert s[..|s| - 1] == NatText(n / 10) && s[|s| - 1] == DigitChar(n % 10);
    } else {
      assert s[..|s| - 1] == "";
    }
  }

  /** A conversion that reads decimal tokens. */
  function Decimal(v: Json): Option<int> {
    if v.Num? then Some(DigitsValue(v.token)) else None
  }

  /** An event of stream s with a complete envelope and this number. */
  function NumberedEvent(n: int): Json {
    Obj([Field("sequence", Num(if n >= 0 then NatText(n) else "")), Field("stream_id", Str("s")),
         Field("event_name", Str("x")), Field("aggregate_id", Str("x")), Field("actor_id", Str("x")),
         Field("correlation_id", Str("x")), Field("command_id", Str("x")),
         Field("audit", Obj([Field(REFERENCES, Arr([Str("INV-005")]))]))])
  }

  lemma EventKeysDiffer(n: int)
    ensures DistinctKeys(NumberedEvent(n).fields)
  {
    var fs := NumberedEvent(n).fields;
    assert |fs[0].key| == 8 && |fs[1].key| == 9 && |fs[2].key| == 10 && |fs[3].key| == 12;
    assert |fs[4].key| == 8 && |fs[5].key| == 14 && |fs[6].key| == 10 && |fs[7].key| == 5;
    assert fs[0].key[0] == 's' && fs[4].key[0] == 'a' && fs[2].key[0] == 'e' && fs[6].key[0] == 'c';
  }

  lemma EventFields(n: int, i: nat)
    requires i < |NumberedEvent(n).fields|
    ensures Get(NumberedEvent(n), NumberedEvent(n).fields[i].key) == NumberedEvent(n).fields[i].value
  {
    EventKeysDiffer(n);
    GetFieldAt(NumberedEvent(n).fields, i);
  }

  lemma EventIsAudited(n: int, selfReference: bool)
    ensures Audited(NumberedEvent(n), selfReference)
  {
    var event := NumberedEvent(n);
    forall i | 0 <= i < |REQUIRED_AUDIT_FIELDS| ensures !Absent(Get(event, REQUIRED_AUDIT_FIELDS[i])) {
      EventFields(n, i + 2);
    }
    EventFields(n, 7);
    assert Get(Get(event, "audit"), REFERENCES) == Arr([Str("INV-005")]);
    assert [Str("INV-005")][0] == Str("INV-005");
  }

  lemma EventIsNumbered(n: nat)
    ensures Sequenced(NumberedEvent(n)) && StreamOf(NumberedEvent(n)) == Str("s")
    ensures Decimal(RawSequence(NumberedEvent(n))) == Some(n)
  {
    EventFields(n, 0);
    EventFields(n, 1);
    ValueOfNatText(n);
  }

  lemma NumberedEventsMake(selfReference: bool)
    ensures Makes(NumberedEvent, selfReference, Decimal, Str("s"))
  {
    forall n | 1 <= n <= CAP
      ensures var event := NumberedEvent(n);
        Audited(event, selfReference) && Sequenced(event) && StreamOf(event) == Str("s")
        && Decimal(RawSequence(event)) == Some(n)
    {
      EventIsAudited(n, selfReference);
      EventIsNumbered(n);
    }
  }

  /** The run of 2^53 + 1 events written out: its last two events are stored under one number. */
  lemma DecimalCapIsStoredTwice(selfReference: bool)
    ensures var p := Passed(Numbered(NumberedEvent, CAP + 1), selfReference, Decimal);
            var s := Sequences(Succeeded(p), Str("s"), Decimal);
            |s| == CAP + 1 && s[CAP - 1] == s[CAP] == CAP
  {
    NumberedEventsMake(selfReference);
    CapIsStoredTwice(NumberedEvent, selfReference, Decimal, Str("s"));
  }

  lemma {:induction false} SequencesContain(p: seq<Attempt>, k: nat, stream: Json, number: Coercion)
    requires k < |p| && InStream(p[k].event, stream, number)
    ensures SequenceOf(p[k].event, number) in Sequences(p, stream, number)
  {
    var front := p[..|p| - 1];
    if k < |front| {
      SequencesContain(front, k, stream, number);
      assert forall n :: n in Sequences(front, stream, number) ==> n in Sequences(p, stream, number);
    }
  }

  lemma {:induction false} FailedNeverSucceeds(p: seq<Attempt>, k: nat, stream: Json, number: Coercion)
    requires Counts(Sequences(p, stream, number))
    requires k < |p| && p[k].fails && InStream(p[k].event, stream, number) && SequenceOf(p[k].event, number) < CAP
    ensures SequenceOf(p[k].event, number) !in Sequences(Succeeded(p), stream, number)
  {
    var front, a := p[..|p| - 1], p[|p| - 1];
    var n, all := SequenceOf(p[k].event, number), Sequences(front, stream, number);
    assert front + [a] == p;
    CountsFront(p, stream, number);
    SucceededAppend(front, a);
    SequencesAppend(front, a, stream, number);
    SequencesAppend(Succeeded(front), a, stream, number);
    if InStream(a.event, stream, number) { assert Sequences(p, stream, number)[|all|] == SequenceOf(a.event, number); }
    if k < |front| {
      FailedNeverSucceeds(front, k, stream, number);
      SequencesContain(front, k, stream, number);
      var i :| 0 <= i < |all| && all[i] == n;
      assert n == Cap(i + 1);
    } else {
      SucceededInOrder(front, stream, number);
    }
  }

  /** A number on which the inner store failed is used up: no later append puts it into its stream. */
  lemma FailureLosesNumber(attempts: seq<Attempt>, selfReference: bool, number: Coercion, stream: Json, k: nat)
    requires var p := Passed(attempts, selfReference, number);
      k < |p| && p[k].fails && InStream(p[k].event, stream, number) && SequenceOf(p[k].event, number) < CAP
    ensures var p := Passed(attempts, selfReference, number);
      SequenceOf(p[k].event, number) !in Sequences(Succeeded(p), stream, number)
  {
    PassedCount(attempts, selfReference, number, stream);
    FailedNeverSucceeds(Passed(attempts, selfReference, number), k, stream, number);
  }

  /** In this stream no failure of the inner store on a number below 2^53 is followed by a success. */
  ghost predicate NothingAfterFailure(p: seq<Attempt>, stream: Json, number: Coercion) {
    forall j, k :: 0 <= j < k < |p| && LostBelowCap(p[j], stream, number) ==> !StoredIn(p[k], stream, number)
  }

  predicate LostBelowCap(a: Attempt, stream: Json, number: Coercion) {
    a.fails && InStream(a.event, stream, number) && SequenceOf(a.event, number) < CAP
  }

  predicate StoredIn(a: Attempt, stream: Json, number: Coercion) {
    !a.fails && InStream(a.event, stream, number)
  }

  ghost predicate NothingLost(p: seq<Attempt>, stream: Json, number: Coercion) {
    forall j :: 0 <= j < |p| ==> !LostBelowCap(p[j], stream, number)
  }

  lemma NothingAfterFailureAppend(front: seq<Attempt>, a: Attempt, stream: Json, number: Coercion)
    ensures NothingAfterFailure(front + [a], stream, number)
       <==> NothingAfterFailure(front, stream, number)
            && (StoredIn(a, stream, number) ==> NothingLost(front, stream, number))
  {
    var p := front + [a];
    assert forall i :: 0 <= i < |front| ==> p[i] == front[i];
    if NothingAfterFailure(p, stream, number) {
      forall j, k | 0 <= j < k < |front| && LostBelowCap(front[j], stream, number)
        ensures !StoredIn(front[k], stream, number)
      {
        assert LostBelowCap(p[j], stream, number) && !StoredIn(p[k], stream, number);
      }
      if StoredIn(a, stream, number) {
        assert StoredIn(p[|front|], stream, number);
        forall j | 0 <= j < |front| ensures !LostBelowCap(front[j], stream, number) { assert p[j] == front[j]; }
      }
    }
  }

  /** When nothing was lost, the numbers that succeeded are as many as passed, or all that there are. */
  lemma {:induction false} AllKept(p: seq<Attempt>, stream: Json, number: Coercion)
    requires Counts(Sequences(p, stream, number)) && NothingLost(p, stream, number)
    ensures var n, m := |Sequences(Succeeded(p), stream, number)|, |Sequences(p, stream, number)|;
            n == m || CAP - 1 <= n <= m
  {
    if p != [] {
      var front, a := p[..|p| - 1], p[|p| - 1];
      assert front + [a] == p;
      CountsFront(p, stream, number);
      AllKept(front, stream, number);
      SucceededAppend(front, a);
      SequencesAppend(front, a, stream, number);
      SequencesAppend(Succeeded(front), a, stream, number);
      if InStream(a.event, stream, number) {
        assert Sequences(p, stream, number)[|Sequences(front, stream, number)|] == SequenceOf(a.event, number);
        assert !LostBelowCap(p[|p| - 1], stream, number);
      }
    }
  }

  lemma {:induction false} FewerWhenLost(p: seq<Attempt>, k: nat, stream: Json, number: Coercion)
    requires k < |p| && p[k].fails && InStream(p[k].event, stream, number)
    ensures |Sequences(Succeeded(p), stream, number)| < |Sequences(p, stream, number)|
  {
    var front, a := p[..|p| - 1], p[|p| - 1];
    assert front + [a] == p;
    SucceededAppend(front, a);
    SequencesAppend(front, a, stream, number);
    SequencesAppend(Succeeded(front), a, stream, number);
    if k < |front| { FewerWhenLost(front, k, stream, number); } else { NoMoreSucceed(front, stream, number); }
  }

  lemma {:induction false} NoMoreSucceed(p: seq<Attempt>, stream: Json, number: Coercion)
    ensures |Sequences(Succeeded(p), stream, number)| <= |Sequences(p, stream, number)|
  {
    if p != [] {
      var front, a := p[..|p| - 1], p[|p| - 1];
      assert front + [a] == p;
      NoMoreSucceed(front, stream, number);
      SucceededAppend(front, a);
      SequencesAppend(front, a, stream, number);
      SequencesAppend(Succeeded(front), a, stream, number);
    }
  }

  lemma CountsHold(s: seq<int>, n: int)
    requires Counts(s) && 1 <= n <= CAP
    ensures |s| >= n ==> n in s
  {
    if |s| >= n { assert s[n - 1] == n; }
  }

  /** A lost number leaves a gap: the next one stored does not continue the count. */
  lemma LossBreaksCount(p: seq<Attempt>, k: nat, stream: Json, number: Coercion)
    requires Counts(Sequences(p, stream, number)) && Counts(Sequences(Succeeded(p), stream, number))
    requires k < |p| && LostBelowCap(p[k], stream, number)
    ensures Cap(|Sequences(p, stream, number)| + 1) != Cap(|Sequences(Succeeded(p), stream, number)| + 1)
  {
    var s, n := Sequences(Succeeded(p), stream, number), SequenceOf(p[k].event, number);
    FailedNeverSucceeds(p, k, stream, number);
    FewerWhenLost(p, k, stream, number);
    SequencesContain(p, k, stream, number);
    var i :| 0 <= i < |Sequences(p, stream, number)| && Sequences(p, stream, number)[i] == n;
    assert n == i + 1;
    CountsHold(s, n);
  }

  lemma {:induction false} SucceededCountIff(p: seq<Attempt>, stream: Json, number: Coercion)
    requires Counts(Sequences(p, stream, number))
    ensures Counts(Sequences(Succeeded(p), stream, number)) <==> NothingAfterFailure(p, stream, number)
  {
    if p != [] {
      var front, a := p[..|p| - 1], p[|p| - 1];
      assert front + [a] == p;
      CountsFront(p, stream, number);
      SucceededCountIff(front, stream, number);
      NothingAfterFailureAppend(front, a, stream, number);
      SucceededAppend(front, a);
      if StoredIn(a, stream, number) {
        StoredCountStep(front, a, stream, number);
      } else {
        SequencesAppend(Succeeded(front), a, stream, number);
      }
    }
  }

  lemma StoredCountStep(front: seq<Attempt>, a: Attempt, stream: Json, number: Coercion)
    requires Counts(Sequences(front + [a], stream, number)) && Counts(Sequences(front, stream, number))
    requires StoredIn(a, stream, number)
    ensures Counts(Sequences(Succeeded(front + [a]), stream, number))
       <==> Counts(Sequences(Succeeded(front), stream, number)) && NothingLost(front, stream, number)
  {
    var s, all := Sequences(Succeeded(front), stream, number), Sequences(front, stream, number);
    SucceededAppend(front, a);
    SequencesAppend(front, a, stream, number);
    SequencesAppend(Succeeded(front), a, stream, number);
    assert Sequences(front + [a], stream, number)[|all|] == SequenceOf(a.event, number) == Cap(|all| + 1);
    CountsAppend(s, Cap(|all| + 1));
    if Counts(s) { KeptIffNothingLost(front, stream, number); }
  }

  /** The count of the stored numbers keeps up with the count of those that passed. */
  lemma KeptIffNothingLost(p: seq<Attempt>, stream: Json, number: Coercion)
    requires Counts(Sequences(p, stream, number)) && Counts(Sequences(Succeeded(p), stream, number))
    ensures Cap(|Sequences(p, stream, number)| + 1) == Cap(|Sequences(Succeeded(p), stream, number)| + 1)
       <==> NothingLost(p, stream, number)
  {
    if NothingLost(p, stream, number) {
      AllKept(p, stream, number);
    } else {
      var k :| 0 <= k < |p| && LostBelowCap(p[k], stream, number);
      LossBreaksCount(p, k, stream, number);
    }
  }

  lemma CountsAppend(s: seq<int>, n: int)
    ensures Counts(s + [n]) <==> Counts(s) && n == Cap(|s| + 1)
  {
    var t := s + [n];
    assert t[|s|] == n;
    assert forall i :: 0 <= i < |s| ==> t[i] == s[i];
  }

  /** With an inner store that may fail, the stored numbers of a stream are still 1, 2, …, n exactly when
      nothing was stored in the stream after a failure on a number below 2^53. */
  lemma StoredCountIff(attempts: seq<Attempt>, selfReference: bool, number: Coercion, stream: Json)
    ensures Counts(Sequences(Succeeded(Passed(attempts, selfReference, number)), stream, number))
       <==> NothingAfterFailure(Passed(attempts, selfReference, number), stream, number)
  {
    PassedCount(attempts, selfReference, number, stream);
    SucceededCountIff(Passed(attempts, selfReference, number), stream, number);
  }

  /** Trying a sequenced event again at once, after the inner store failed on it, is an order violation. */
  lemma RetryIsRejected(g: Gate, event: Json, selfReference: bool, number: Coercion)
    requires Sequenced(event) && AppendTo(g, Attempt(event, true), selfReference, number).1 == StoreFailure
    requires number(RawSequence(event)).value < CAP
    ensures var after := AppendTo(g, Attempt(event, true), selfReference, number).0;
            AppendTo(after, Attempt(event, false), selfReference, number).1 == OrderViolation
  {
    assert StreamOf(event) in AppendTo(g, Attempt(event, true), selfReference, number).0.tracker;
  }

  /** Between two appends in one stream, any number of rejected ones and of appends in other streams
      makes no difference to the next number it accepts. */
  lemma OthersDoNotMatter(g: Gate, a: Attempt, selfReference: bool, number: Coercion, stream: Json)
    requires var o := AppendTo(g, a, selfReference, number).1;
      o == AuditViolation || o == OrderViolation || !Sequenced(a.event) || StreamOf(a.event) != stream
    ensures var t := AppendTo(g, a, selfReference, number).0.tracker;
      (stream in t <==> stream in g.tracker) && (stream in t ==> t[stream] == g.tracker[stream])
  {
  }
}

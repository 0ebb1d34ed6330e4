// The circuit breaker that guards calls to an outside service. A call suspends between the check that
// admits it and the update that records its outcome, so a run is a sequence of separate events and
// calls may overlap in any way.

module CircuitBreaker {
  import opened Options

  datatype CircuitState = CLOSED | OPEN | HALF_OPEN

  datatype Config = Config(failureThreshold: int, successThreshold: int, timeoutMs: int)

  datatype Breaker = Breaker(state: CircuitState, failures: nat, successes: nat, lastFailureTime: Option<int>)

  /** A call asks to begin, or a call that began earlier finishes. */
  datatype Event = Begin(now: int) | Success | Failure(now: int)

  const INITIAL := Breaker(CLOSED, 0, 0, None)

  // ---- one step ----

  function Elapsed(b: Breaker, now: int): int {
    now - (if b.lastFailureTime.Some? then b.lastFailureTime.value else 0)
  }

  /** Whether a call may begin. */
  predicate Admits(c: Config, b: Breaker, now: int) {
    b.state == OPEN ==> Elapsed(b, now) >= c.timeoutMs
  }

  function Step(c: Config, b: Breaker, e: Event): Breaker {
    match e
    case Begin(now) =>
      if b.state == OPEN && Admits(c, b, now) then b.(state := HALF_OPEN, successes := 0) else b
    case Success =>
      if b.state != HALF_OPEN then b.(failures := 0)
      else if b.successes + 1 >= c.successThreshold then b.(state := CLOSED, failures := 0, successes := 0)
      else b.(successes := b.successes + 1)
    case Failure(now) =>
      Breaker(if b.failures + 1 >= c.failureThreshold then OPEN else b.state, b.failures + 1, b.successes, Some(now))
  }

  // ---- the object ----

  class Circuit {
    var state: CircuitState
    var failures: nat
    var successes: nat
    var lastFailureTime: Option<int>
    const config: Config

    function Snapshot(): Breaker
      reads this
    {
      Breaker(state, failures, successes, lastFailureTime)
    }

    constructor (config: Config)
      ensures this.config == config && Snapshot() == INITIAL
    {
      state, failures, successes, lastFailureTime := CLOSED, 0, 0, None;
      this.config := config;
    }

    method Enter(now: int) returns (admitted: bool)
      modifies this
      ensures admitted <==> Admits(config, old(Snapshot()), now)
      ensures Snapshot() == Step(config, old(Snapshot()), Begin(now))
    {
      if state == OPEN {
        var elapsed := now - (if lastFailureTime.Some? then lastFailureTime.value else 0);
        if elapsed >= config.timeoutMs {
          state := HALF_OPEN;
          successes := 0;
        } else {
          return false;
        }
      }
      return true;
    }

    method OnSuccess()
      modifies this
      ensures Snapshot() == Step(config, old(Snapshot()), Success)
    {
      if state == HALF_OPEN {
        successes := successes + 1;
        if successes >= config.successThreshold {
          state := CLOSED;
          failures := 0;
          successes := 0;
        }
      } else {
        failures := 0;
      }
    }

    method OnFailure(now: int)
      modifies this
      ensures Snapshot() == Step(config, old(Snapshot()), Failure(now))
    {
      failures := failures + 1;
      lastFailureTime := Some(now);
      if failures >= config.failureThreshold {
        state := OPEN;
      }
    }

    /** One call with nothing in between: its two events, or the first alone when it is turned away. */
    method Execute(begin: int, succeeds: bool, end: int) returns (admitted: bool)
      modifies this
      ensures admitted <==> Admits(config, old(Snapshot()), begin)
      ensures Snapshot()
           == (var begun := Step(config, old(Snapshot()), Begin(begin));
               if !admitted then old(Snapshot())
               else if succeeds then Step(config, begun, Success)
               else Step(config, begun, Failure(end)))
    {
      admitted := Enter(begin);
      if admitted && succeeds {
        OnSuccess();
      } else if admitted {
        OnFailure(end);
      }
    }
  }

  // ---- runs ----

  function Run(c: Config, es: seq<Event>): Breaker {
    if es == [] then INITIAL else Step(c, Run(c, es[..|es| - 1]), es[|es| - 1])
  }

  /** Calls begun and not yet finished. */
  function InFlight(c: Config, es: seq<Event>): int {
    if es == [] then 0
    else
      var front, e := es[..|es| - 1], es[|es| - 1];
      InFlight(c, front) + (if !e.Begin? then -1 else if Admits(c, Run(c, front), e.now) then 1 else 0)
  }

  /** Every call that finishes has begun. The laws below hold without this; the counterexample keeps to it. */
  ghost predicate Feasible(c: Config, es: seq<Event>) {
    forall i :: 0 <= i <= |es| ==> InFlight(c, es[..i]) >= 0
  }

  ghost predicate Sensible(c: Config) {
    c.failureThreshold >= 1 && c.successThreshold >= 1
  }

  /** The clock never runs backwards. */
  ghost predicate Monotone(es: seq<Event>) {
    forall i, j :: 0 <= i < j < |es| && !es[i].Success? && !es[j].Success? ==> es[i].now <= es[j].now
  }

  /** How many of the last finished calls failed, up to the last one that did not. */
  function TrailingFailures(es: seq<Event>): nat {
    if es == [] then 0
    else
      var front := es[..|es| - 1];
      match es[|es| - 1]
      case Begin(_) => TrailingFailures(front)
      case Success => 0
      case Failure(_) => TrailingFailures(front) + 1
  }

  function TrailingSuccesses(es: seq<Event>): nat {
    if es == [] then 0
    else
      var front := es[..|es| - 1];
      match es[|es| - 1]
      case Begin(_) => TrailingSuccesses(front)
      case Success => TrailingSuccesses(front) + 1
      case Failure(_) => 0
  }

  /** The counters stay below their thresholds where these decide, an open circuit knows when it failed,
      and a closed one counts exactly the failures since the last success. */
  lemma {:induction false} CountersAlways(c: Config, es: seq<Event>)
    requires Sensible(c)
    ensures var b := Run(c, es);
            && (b.state == CLOSED ==> b.failures < c.failureThreshold && b.failures == TrailingFailures(es))
            && (b.state == HALF_OPEN ==> b.successes < c.successThreshold)
            && (b.state == OPEN ==> b.lastFailureTime.Some?)
            && b.failures >= TrailingFailures(es)
  {
    if es != [] { CountersAlways(c, es[..|es| - 1]); }
  }

  /** A closed circuit opens at an event exactly when the last `failureThreshold` finished calls, that one
      included, all failed, whatever else is in flight. */
  lemma OpensExactlyAfterFailures(c: Config, es: seq<Event>, e: Event)
    requires Sensible(c) && Run(c, es).state == CLOSED
    ensures Run(c, es + [e]).state == (if TrailingFailures(es + [e]) >= c.failureThreshold then OPEN else CLOSED)
    ensures TrailingFailures(es + [e]) <= c.failureThreshold
  {
    CountersAlways(c, es);
    assert (es + [e])[..|es|] == es;
  }

  // ---- the pause after a failure ----

  lemma {:induction false} LastFailureRecorded(c: Config, es: seq<Event>, i: nat)
    requires Monotone(es) && i < |es| && es[i].Failure?
    ensures var last := Run(c, es).lastFailureTime; last.Some? && es[i].now <= last.value
    ensures exists j :: 0 <= j < |es| && es[j] == Failure(Run(c, es).lastFailureTime.value)
  {
    var front, e := es[..|es| - 1], es[|es| - 1];
    if e.Failure? {
      assert es[|es| - 1] == Failure(Run(c, es).lastFailureTime.value);
    } else {
      LastFailureRecorded(c, front, i);
      var j :| 0 <= j < |front| && front[j] == Failure(Run(c, front).lastFailureTime.value);
      assert es[j] == front[j];
    }
  }

  lemma {:induction false} FailureBeforeOpen(c: Config, es: seq<Event>)
    requires Run(c, es).state == OPEN
    ensures exists i :: 0 <= i < |es| && es[i].Failure?
  {
    var front, e := es[..|es| - 1], es[|es| - 1];
    if e.Failure? {
      assert es[|es| - 1].Failure?;
    } else {
      FailureBeforeOpen(c, front);
      var i :| 0 <= i < |front| && front[i].Failure?;
      assert es[i] == front[i];
    }
  }

  /** While the circuit is open a call begins exactly when every failure recorded so far is at least
      `timeoutMs` old. */
  lemma OpenAdmitsIff(c: Config, es: seq<Event>, now: int)
    requires Monotone(es) && Run(c, es).state == OPEN
    ensures Admits(c, Run(c, es), now)
       <==> forall i :: 0 <= i < |es| && es[i].Failure? ==> now - es[i].now >= c.timeoutMs
  {
    FailureBeforeOpen(c, es);
    var i :| 0 <= i < |es| && es[i].Failure?;
    LastFailureRecorded(c, es, i);
    var j :| 0 <= j < |es| && es[j] == Failure(Run(c, es).lastFailureTime.value);
    forall k | 0 <= k < |es| && es[k].Failure?
      ensures es[k].now <= Run(c, es).lastFailureTime.value
    {
      LastFailureRecorded(c, es, k);
    }
  }

  /** Open, and known to have failed at `t` or later. */
  ghost predicate Tripped(b: Breaker, t: int) {
    b.state == OPEN && b.lastFailureTime.Some? && b.lastFailureTime.value >= t
  }

  lemma StaysTripped(c: Config, b: Breaker, t: int, e: Event)
    requires Tripped(b, t) && (e.Begin? ==> e.now - t < c.timeoutMs) && (e.Failure? ==> e.now >= t)
    ensures Tripped(Step(c, b, e), t) && (e.Begin? ==> !Admits(c, b, e.now))
  {
  }

  /** No event of `after` is a call that begins `timeoutMs` after `t`, or a failure before `t`. */
  ghost predicate Inside(c: Config, t: int, after: seq<Event>) {
    forall i :: 0 <= i < |after| ==>
      (after[i].Begin? ==> after[i].now - t < c.timeoutMs) && (after[i].Failure? ==> after[i].now >= t)
  }

  lemma {:induction false} TrippedAfter(c: Config, start: seq<Event>, t: int, after: seq<Event>)
    requires Tripped(Run(c, start), t) && Inside(c, t, after)
    ensures Tripped(Run(c, start + after), t)
    decreases |after|
  {
    var all := start + after;
    if after == [] {
      assert all == start;
    } else {
      var front := after[..|after| - 1];
      assert all[..|all| - 1] == start + front;
      TrippedAfter(c, start, t, front);
      StaysTripped(c, Run(c, start + front), t, after[|after| - 1]);
    }
  }

  lemma TurnedAway(c: Config, start: seq<Event>, t: int, after: seq<Event>, i: nat)
    requires Tripped(Run(c, start), t) && Inside(c, t, after) && i < |after| && after[i].Begin?
    ensures !Admits(c, Run(c, start + after[..i]), after[i].now)
  {
    TrippedAfter(c, start, t, after[..i]);
    StaysTripped(c, Run(c, start + after[..i]), t, after[i]);
  }

  lemma InsideAfter(c: Config, tripped: seq<Event>, t: int, after: seq<Event>)
    requires Monotone(tripped + after) && tripped != [] && tripped[|tripped| - 1] == Failure(t)
    requires forall i :: 0 <= i < |after| && after[i].Begin? ==> after[i].now - t < c.timeoutMs
    ensures Inside(c, t, after)
  {
    var all := tripped + after;
    forall i | 0 <= i < |after| && after[i].Failure? ensures after[i].now >= t {
      assert all[|tripped| - 1] == Failure(t) && all[|tripped| + i] == after[i];
    }
  }

  lemma OpenedIsTripped(c: Config, tripped: seq<Event>, t: int)
    requires tripped != [] && tripped[|tripped| - 1] == Failure(t) && Run(c, tripped).state == OPEN
    ensures Tripped(Run(c, tripped), t)
  {
  }

  /** Once a failure at `t` leaves the circuit open, it stays open and turns every call away for
      `timeoutMs`, whatever calls finish in the meantime. */
  lemma Cooldown(c: Config, tripped: seq<Event>, t: int, after: seq<Event>)
    requires tripped != [] && tripped[|tripped| - 1] == Failure(t) && Run(c, tripped).state == OPEN
    requires Monotone(tripped + after)
    requires forall i :: 0 <= i < |after| && after[i].Begin? ==> after[i].now - t < c.timeoutMs
    ensures Run(c, tripped + after).state == OPEN
    ensures forall i :: 0 <= i < |after| && after[i].Begin? ==> !Admits(c, Run(c, tripped + after[..i]), after[i].now)
  {
    InsideAfter(c, tripped, t, after);
    OpenedIsTripped(c, tripped, t);
    TrippedAfter(c, tripped, t, after);
    forall i | 0 <= i < |after| && after[i].Begin? ensures !Admits(c, Run(c, tripped + after[..i]), after[i].now) {
      TurnedAway(c, tripped, t, after, i);
    }
  }

  // ---- one failure reopens, unless a late success came in while open ----

  /** Outside CLOSED the failure counter is still at the threshold, so that one more failure reopens. */
  predicate Armed(c: Config, b: Breaker) {
    b.state == CLOSED || b.failures >= c.failureThreshold
  }

  ghost predicate AlwaysArmed(c: Config, es: seq<Event>) {
    forall i :: 0 <= i <= |es| ==> Armed(c, Run(c, es[..i]))
  }

  /** No call finishes well while the circuit is open. */
  ghost predicate NoLateSuccess(c: Config, es: seq<Event>) {
    forall i :: 0 <= i < |es| && es[i].Success? ==> Run(c, es[..i]).state != OPEN
  }

  lemma ArmedPrefix(c: Config, es: seq<Event>)
    requires es != []
    ensures AlwaysArmed(c, es) <==> AlwaysArmed(c, es[..|es| - 1]) && Armed(c, Run(c, es))
  {
    var front := es[..|es| - 1];
    forall i | 0 <= i <= |front| ensures es[..i] == front[..i] {}
    assert es[..|es|] == es;
    if AlwaysArmed(c, es) {
      forall i | 0 <= i <= |front| ensures Armed(c, Run(c, front[..i])) { assert Armed(c, Run(c, es[..i])); }
      ArmedNow(c, es);
    }
    if AlwaysArmed(c, front) && Armed(c, Run(c, es)) {
      forall i | 0 <= i <= |es| ensures Armed(c, Run(c, es[..i])) {
        if i < |es| { assert Armed(c, Run(c, front[..i])); }
      }
    }
  }

  lemma NoLatePrefix(c: Config, es: seq<Event>)
    requires es != []
    ensures NoLateSuccess(c, es)
       <==> NoLateSuccess(c, es[..|es| - 1]) && (es[|es| - 1].Success? ==> Run(c, es[..|es| - 1]).state != OPEN)
  {
    var front := es[..|es| - 1];
    forall i | 0 <= i <= |front| ensures es[..i] == front[..i] {}
    if NoLateSuccess(c, es) {
      forall i | 0 <= i < |front| && front[i].Success? ensures Run(c, front[..i]).state != OPEN {
        assert es[i].Success? && Run(c, es[..i]).state != OPEN;
      }
    }
    if NoLateSuccess(c, front) && (es[|es| - 1].Success? ==> Run(c, front).state != OPEN) {
      forall i | 0 <= i < |es| && es[i].Success? ensures Run(c, es[..i]).state != OPEN {
        if i < |front| { assert front[i].Success? && Run(c, front[..i]).state != OPEN; }
      }
    }
  }

  /** Throughout a run the counter stays armed exactly when no success arrives while the circuit is open. */
  lemma {:induction false} ArmedIffNoLateSuccess(c: Config, es: seq<Event>)
    requires Sensible(c)
    ensures AlwaysArmed(c, es) <==> NoLateSuccess(c, es)
  {
    if es == [] {
      assert forall i :: 0 <= i <= |es| ==> es[..i] == [];
    } else {
      ArmedPrefix(c, es);
      NoLatePrefix(c, es);
      ArmedIffNoLateSuccess(c, es[..|es| - 1]);
      if AlwaysArmed(c, es[..|es| - 1]) { ArmedNow(c, es[..|es| - 1]); }
    }
  }

  lemma ArmedNow(c: Config, es: seq<Event>)
    requires AlwaysArmed(c, es)
    ensures Armed(c, Run(c, es))
  {
    assert es[..|es|] == es;
    assert Armed(c, Run(c, es[..|es|]));
  }

  /** Calls one after the other: an outcome directly follows the admission it belongs to. */
  ghost predicate Serial(c: Config, es: seq<Event>) {
    forall i :: 0 <= i < |es| && !es[i].Begin? ==>
      i > 0 && es[i - 1].Begin? && Admits(c, Run(c, es[..i - 1]), es[i - 1].now)
  }

  lemma SerialHasNoLateSuccess(c: Config, es: seq<Event>)
    requires Serial(c, es)
    ensures NoLateSuccess(c, es)
  {
    forall i | 0 <= i < |es| && es[i].Success? ensures Run(c, es[..i]).state != OPEN {
      assert es[..i][..i - 1] == es[..i - 1];
    }
  }

  /** In a serial run one failure in HALF_OPEN reopens the circuit. */
  lemma SerialFailureReopens(c: Config, es: seq<Event>, now: int)
    requires Sensible(c) && Serial(c, es) && Run(c, es).state == HALF_OPEN
    ensures Run(c, es + [Failure(now)]).state == OPEN
  {
    SerialHasNoLateSuccess(c, es);
    ArmedIffNoLateSuccess(c, es);
    ArmedNow(c, es);
    assert (es + [Failure(now)])[..|es|] == es;
  }

  /** Overlapping calls, two failures opening the circuit and a third call finishing well only then: the
      trial call after the pause fails and the circuit does not reopen. */
  lemma LateSuccessDisarms()
    ensures var c := Config(2, 2, 10);
            var es := [Begin(0), Begin(0), Begin(0), Failure(1), Failure(1), Success, Begin(11), Failure(12)];
            && Sensible(c) && Monotone(es) && Feasible(c, es) && !Serial(c, es)
            && Run(c, es[..7]).state == HALF_OPEN && Run(c, es).state == HALF_OPEN
            && Admits(c, Run(c, es), 12)
  {
    var c := Config(2, 2, 10);
    var es := [Begin(0), Begin(0), Begin(0), Failure(1), Failure(1), Success, Begin(11), Failure(12)];
    var e1 := [Begin(0)];
    var e2 := e1 + [Begin(0)];
    var e3 := e2 + [Begin(0)];
    var e4 := e3 + [Failure(1)];
    var e5 := e4 + [Failure(1)];
    var e6 := e5 + [Success];
    var e7 := e6 + [Begin(11)];
    var e8 := e7 + [Failure(12)];
    RunAppend(c, [], Begin(0));
    assert [] + [Begin(0)] == e1;
    RunAppend(c, e1, Begin(0));
    RunAppend(c, e2, Begin(0));
    RunAppend(c, e3, Failure(1));
    RunAppend(c, e4, Failure(1));
    RunAppend(c, e5, Success);
    RunAppend(c, e6, Begin(11));
    RunAppend(c, e7, Failure(12));
    assert Run(c, e7) == Breaker(HALF_OPEN, 0, 0, Some(1)) && Run(c, e8) == Breaker(HALF_OPEN, 1, 0, Some(12));
    assert es == e8 && e8[..7] == e7;
    assert !es[4].Begin? && !es[3].Begin?;
  }

  lemma RunAppend(c: Config, es: seq<Event>, e: Event)
    ensures Run(c, es + [e]) == Step(c, Run(c, es), e)
    ensures InFlight(c, es + [e])
         == InFlight(c, es) + (if !e.Begin? then -1 else if Admits(c, Run(c, es), e.now) then 1 else 0)
    ensures Feasible(c, es) && InFlight(c, es + [e]) >= 0 ==> Feasible(c, es + [e])
  {
    var all := es + [e];
    assert all[..|es|] == es && all[..|all|] == all;
    if Feasible(c, es) && InFlight(c, all) >= 0 {
      forall i | 0 <= i <= |all| ensures InFlight(c, all[..i]) >= 0 {
        if i <= |es| { assert all[..i] == es[..i]; }
      }
    }
  }

  // ---- closing again ----

  lemma {:induction false} TrialSuccesses(c: Config, es: seq<Event>)
    requires Sensible(c) && NoLateSuccess(c, es) && Run(c, es).state == HALF_OPEN
    ensures Run(c, es).successes <= TrailingSuccesses(es)
  {
    var front, e := es[..|es| - 1], es[|es| - 1];
    NoLatePrefix(c, es);
    ArmedIffNoLateSuccess(c, front);
    ArmedNow(c, front);
    if Run(c, front).state == HALF_OPEN { TrialSuccesses(c, front); }
  }

  /** Without late successes the circuit closes only after the last `successThreshold` finished calls all
      succeeded. */
  lemma ClosesOnlyAfterSuccesses(c: Config, es: seq<Event>, e: Event)
    requires Sensible(c) && NoLateSuccess(c, es) && Run(c, es).state != CLOSED && Run(c, es + [e]).state == CLOSED
    ensures Run(c, es).state == HALF_OPEN && e == Success
    ensures TrailingSuccesses(es + [e]) >= c.successThreshold
  {
    assert (es + [e])[..|es|] == es;
    TrialSuccesses(c, es);
  }

  function CountSuccesses(es: seq<Event>): nat {
    if es == [] then 0 else CountSuccesses(es[..|es| - 1]) + (if es[|es| - 1].Success? then 1 else 0)
  }

  ghost predicate NoFailure(es: seq<Event>) {
    forall i :: 0 <= i < |es| ==> !es[i].Failure?
  }

  /** From OPEN, after the pause, and as long as no call fails: the circuit closes with clear counters at the
      `successThreshold`-th success, whichever calls these successes belong to and whatever else begins. */
  lemma Recovers(c: Config, es: seq<Event>, now: int, after: seq<Event>)
    requires Sensible(c) && Run(c, es).state == OPEN && Admits(c, Run(c, es), now) && NoFailure(after)
    ensures var b := Run(c, es + [Begin(now)] + after);
      if CountSuccesses(after) >= c.successThreshold
      then b.state == CLOSED && b.failures == 0 && b.successes == 0
      else b.state == HALF_OPEN && b.successes == CountSuccesses(after) && b.failures == Run(c, es).failures
  {
    var start := es + [Begin(now)];
    assert start[..|es|] == es;
    Trial(c, start, after);
  }

  lemma {:induction false} Trial(c: Config, start: seq<Event>, after: seq<Event>)
    requires Sensible(c) && Run(c, start).state == HALF_OPEN && Run(c, start).successes == 0 && NoFailure(after)
    ensures var b := Run(c, start + after);
      if CountSuccesses(after) >= c.successThreshold
      then b.state == CLOSED && b.failures == 0 && b.successes == 0
      else b.state == HALF_OPEN && b.successes == CountSuccesses(after) && b.failures == Run(c, start).failures
    decreases |after|
  {
    var all := start + after;
    if after == [] {
      assert all == start;
    } else {
      var front := after[..|after| - 1];
      Trial(c, start, front);
      assert all[..|all| - 1] == start + front;
    }
  }

  /** Calls begun at the given times, each finishing well before the next begins. */
  function Trials(times: seq<int>): seq<Event> {
    if times == [] then [] else Trials(times[..|times| - 1]) + [Begin(times[|times| - 1]), Success]
  }

  lemma {:induction false} TrialsAre(times: seq<int>)
    ensures NoFailure(Trials(times)) && |Trials(times)| == 2 * |times|
    ensures CountSuccesses(Trials(times)) == |times|
    ensures times != [] ==> Trials(times)[0] == Begin(times[0]) && CountSuccesses(Trials(times)[1..]) == |times|
  {
    if times != [] {
      var front, t := Trials(times[..|times| - 1]), times[|times| - 1];
      TrialsAre(times[..|times| - 1]);
      TwoMore(front, t);
      if front != [] {
        assert (front + [Begin(t), Success])[1..] == front[1..] + [Begin(t), Success];
        TwoMore(front[1..], t);
      } else {
        assert [Begin(t), Success][1..] == [Success] && [Success][..0] == [];
      }
    }
  }

  lemma TwoMore(es: seq<Event>, t: int)
    ensures CountSuccesses(es + [Begin(t), Success]) == CountSuccesses(es) + 1
  {
    var all := es + [Begin(t), Success];
    var most := all[..|all| - 1];
    assert most == es + [Begin(t)] && most[..|most| - 1] == es;
  }

  lemma SerialTwoMore(c: Config, es: seq<Event>, t: int)
    requires Serial(c, es) && Admits(c, Run(c, es), t)
    ensures Serial(c, es + [Begin(t), Success])
  {
    var all := es + [Begin(t), Success];
    assert all[..|es|] == es;
    forall i | 0 <= i < |all| && !all[i].Begin?
      ensures i > 0 && all[i - 1].Begin? && Admits(c, Run(c, all[..i - 1]), all[i - 1].now)
    {
      if i < |es| { assert es[i] == all[i] && es[i - 1] == all[i - 1] && es[..i - 1] == all[..i - 1]; }
    }
  }

  lemma AfterTrials(c: Config, es: seq<Event>, times: seq<int>)
    requires Sensible(c) && Run(c, es).state == OPEN && times != [] && Admits(c, Run(c, es), times[0])
    ensures var b := Run(c, es + Trials(times));
      if |times| >= c.successThreshold then b.state == CLOSED && b.failures == 0 && b.successes == 0
      else b.state == HALF_OPEN && b.successes == |times|
  {
    var trials := Trials(times);
    TrialsAre(times);
    forall i | 0 <= i < |trials[1..]| ensures !trials[1..][i].Failure? { assert !trials[i + 1].Failure?; }
    Recovers(c, es, times[0], trials[1..]);
    assert es + trials == es + [Begin(times[0])] + trials[1..];
  }

  /** The ordinary recovery: trial calls one after the other, the first of them after the pause. The run is
      serial, every call of it is admitted, and it closes the circuit and clears its counters with the
      `successThreshold`-th. */
  lemma {:induction false} SerialRecovers(c: Config, es: seq<Event>, times: seq<int>)
    requires Sensible(c) && Serial(c, es) && Run(c, es).state == OPEN && times != [] && Admits(c, Run(c, es), times[0])
    ensures Serial(c, es + Trials(times))
    ensures var b := Run(c, es + Trials(times));
      if |times| >= c.successThreshold then b.state == CLOSED && b.failures == 0 && b.successes == 0
      else b.state == HALF_OPEN && b.successes == |times|
  {
    var front, t := times[..|times| - 1], times[|times| - 1];
    if front == [] {
      assert es + Trials([]) == es;
    } else {
      SerialRecovers(c, es, front);
    }
    SerialTwoMore(c, es + Trials(front), t);
    assert es + Trials(times) == (es + Trials(front)) + [Begin(t), Success];
    AfterTrials(c, es, times);
  }

  /** In a serial run every call that finishes has begun. */
  lemma {:induction false} SerialIsFeasible(c: Config, es: seq<Event>)
    requires Serial(c, es)
    ensures Feasible(c, es)
  {
    forall i | 0 <= i <= |es| ensures InFlight(c, es[..i]) >= 0 {
      SerialPrefix(c, es, i);
      SerialInFlight(c, es[..i]);
    }
  }

  lemma SerialPrefix(c: Config, es: seq<Event>, n: nat)
    requires Serial(c, es) && n <= |es|
    ensures Serial(c, es[..n])
  {
    var front := es[..n];
    forall i | 0 <= i < n && !front[i].Begin?
      ensures i > 0 && front[i - 1].Begin? && Admits(c, Run(c, front[..i - 1]), front[i - 1].now)
    {
      assert es[i] == front[i];
      assert es[..i - 1] == front[..i - 1];
    }
  }

  lemma {:induction false} SerialInFlight(c: Config, es: seq<Event>)
    requires Serial(c, es)
    ensures InFlight(c, es) >= 0
    decreases |es|
  {
    if es != [] {
      var n := |es|;
      var front := es[..n - 1];
      SerialPrefix(c, es, n - 1);
      SerialInFlight(c, front);
      if !es[n - 1].Begin? {
        assert front[..n - 2] == es[..n - 2] && front[n - 2] == es[n - 2];
        SerialPrefix(c, es, n - 2);
        SerialInFlight(c, es[..n - 2]);
      }
    }
  }
}

// The in-process event store: an append-only log with three indexes, and an all-or-nothing batch
// append that checks the causation chain.

module EventStore {
  import opened Options

  datatype Input = Input(eventName: string, aggregate: string, aggregateId: string, commandId: string,
                         causationId: string, correlationId: string)

  datatype Envelope = Envelope(eventId: string, input: Input)

  function AggregateKey(e: Envelope): string {
    e.input.aggregate + ":" + e.input.aggregateId
  }

  function Get<T>(m: map<string, seq<T>>, k: string): seq<T> {
    if k in m then m[k] else []
  }

  function Push<T>(m: map<string, seq<T>>, k: string, x: T): map<string, seq<T>> {
    m[k := Get(m, k) + [x]]
  }

  predicate IsParent(e: Envelope, causationId: string) {
    e.eventId == causationId || e.input.commandId == causationId
  }

  /** The chain is broken when a non-empty log holds no parent for a causation that is not a genesis. */
  predicate CausationHolds(log: seq<Envelope>, i: Input) {
    || i.causationId == "" || i.causationId == i.correlationId || log == []
    || exists k :: 0 <= k < |log| && IsParent(log[k], i.causationId)
  }

  /** The batch, appended one event after another; `ids` are the identifiers the generator hands out. */
  function Appended(log: seq<Envelope>, inputs: seq<Input>, ids: seq<string>, strict: bool): Option<seq<Envelope>>
    requires |ids| == |inputs|
    decreases inputs
  {
    if inputs == [] then Some(log)
    else if strict && !CausationHolds(log, inputs[0]) then None
    else Appended(log + [Envelope(ids[0], inputs[0])], inputs[1..], ids[1..], strict)
  }

  function Envelopes(inputs: seq<Input>, ids: seq<string>): (r: seq<Envelope>)
    requires |ids| == |inputs|
    ensures |r| == |inputs| && forall i :: 0 <= i < |inputs| ==> r[i] == Envelope(ids[i], inputs[i])
  {
    if inputs == [] then [] else [Envelope(ids[0], inputs[0])] + Envelopes(inputs[1..], ids[1..])
  }

  lemma Regroup(log: seq<Envelope>, e: Envelope, rest: seq<Envelope>)
    ensures (log + [e]) + rest == log + ([e] + rest)
  {
  }

  /** An accepted batch is appended whole and in order. */
  lemma {:induction false} AppendedIsWhole(log: seq<Envelope>, inputs: seq<Input>, ids: seq<string>, strict: bool)
    requires |ids| == |inputs| && Appended(log, inputs, ids, strict).Some?
    ensures Appended(log, inputs, ids, strict).value == log + Envelopes(inputs, ids)
    decreases inputs
  {
    if inputs == [] {
      assert log + [] == log;
    } else {
      var e, rest := Envelope(ids[0], inputs[0]), Envelopes(inputs[1..], ids[1..]);
      AppendedIsWhole(log + [e], inputs[1..], ids[1..], strict);
      assert Envelopes(inputs, ids) == [e] + rest;
      Regroup(log, e, rest);
    }
  }

  // ---- the chain of causes, over all runs ----

  /** Every event but the first has a parent before it, unless it starts a correlation. */
  ghost predicate Chained(log: seq<Envelope>) {
    forall i :: 0 < i < |log| ==> CausationHolds(log[..i], log[i].input)
  }

  lemma ChainedStep(log: seq<Envelope>, e: Envelope)
    requires Chained(log) && CausationHolds(log, e.input)
    ensures Chained(log + [e])
  {
    var next := log + [e];
    forall i | 0 < i < |next| ensures CausationHolds(next[..i], next[i].input) {
      assert next[..i] == if i < |log| then log[..i] else log;
    }
  }

  /** A strict store keeps the chain: it holds after every accepted batch. */
  lemma {:induction false} AppendKeepsChain(log: seq<Envelope>, inputs: seq<Input>, ids: seq<string>)
    requires |ids| == |inputs| && Chained(log) && Appended(log, inputs, ids, true).Some?
    ensures Chained(Appended(log, inputs, ids, true).value)
    decreases inputs
  {
    if inputs != [] {
      ChainedStep(log, Envelope(ids[0], inputs[0]));
      AppendKeepsChain(log + [Envelope(ids[0], inputs[0])], inputs[1..], ids[1..]);
    }
  }

  /** An event that need not name a cause: the first of the log, or one that started its correlation. */
  ghost predicate Genesis(log: seq<Envelope>, i: nat)
    requires i < |log|
  {
    i == 0 || log[i].input.causationId == "" || log[i].input.causationId == log[i].input.correlationId
  }

  ghost predicate CauseOf(log: seq<Envelope>, j: nat, i: nat) {
    j < i < |log| && IsParent(log[j], log[i].input.causationId)
  }

  /** Following causes backwards from any event of a chained log reaches a genesis event. */
  lemma {:induction false} ReachesGenesis(log: seq<Envelope>, i: nat) returns (path: seq<nat>)
    requires Chained(log) && i < |log|
    ensures path != [] && path[0] == i
    ensures forall k :: 0 <= k < |path| - 1 ==> CauseOf(log, path[k + 1], path[k])
    ensures path[|path| - 1] < |log| && Genesis(log, path[|path| - 1])
    decreases i
  {
    if Genesis(log, i) {
      path := [i];
    } else {
      var j :| 0 <= j < i && IsParent(log[..i][j], log[i].input.causationId);
      assert CauseOf(log, j, i);
      var rest := ReachesGenesis(log, j);
      path := [i] + rest;
    }
  }

  // ---- the indexes ----

  function ByAggregate(log: seq<Envelope>): map<string, seq<Envelope>> {
    if log == [] then map[] else Push(ByAggregate(log[..|log| - 1]), AggregateKey(log[|log| - 1]), log[|log| - 1])
  }

  function ByCorrelation(log: seq<Envelope>): map<string, seq<Envelope>> {
    if log == [] then map[]
    else Push(ByCorrelation(log[..|log| - 1]), log[|log| - 1].input.correlationId, log[|log| - 1])
  }

  function ByCausation(log: seq<Envelope>): map<string, seq<string>> {
    if log == [] then map[]
    else Push(ByCausation(log[..|log| - 1]), log[|log| - 1].input.causationId, log[|log| - 1].eventId)
  }

  function CorrelationOf(e: Envelope): string {
    e.input.correlationId
  }

  function CausationOf(e: Envelope): string {
    e.input.causationId
  }

  /** A scan of the log for the events with this property. */
  function Scan(log: seq<Envelope>, of: Envelope -> string, key: string): seq<Envelope> {
    if log == [] then []
    else
      var front, e := Scan(log[..|log| - 1], of, key), log[|log| - 1];
      if of(e) == key then front + [e] else front
  }

  function EventIds(log: seq<Envelope>): seq<string> {
    seq(|log|, i requires 0 <= i < |log| => log[i].eventId)
  }

  /** Each of the three indexes answers what a scan of the log would. */
  lemma {:induction false} IndexIsScan(log: seq<Envelope>, key: string)
    ensures Get(ByAggregate(log), key) == Scan(log, AggregateKey, key)
    ensures Get(ByCorrelation(log), key) == Scan(log, CorrelationOf, key)
    ensures Get(ByCausation(log), key) == EventIds(Scan(log, CausationOf, key))
  {
    if log != [] {
      var front, e := log[..|log| - 1], log[|log| - 1];
      IndexIsScan(front, key);
      assert EventIds(Scan(front, CausationOf, key) + [e]) == EventIds(Scan(front, CausationOf, key)) + [e.eventId];
    }
  }

  class Store {
    var events: seq<Envelope>
    var sequence: nat
    var aggregateIndex: map<string, seq<Envelope>>
    var correlationGroups: map<string, seq<Envelope>>
    var causationGraph: map<string, seq<string>>
    const strictCausation: bool

    /** The counter and the indexes say what the log says. */
    ghost predicate Valid()
      reads this
    {
      && sequence == |events|
      && aggregateIndex == ByAggregate(events)
      && correlationGroups == ByCorrelation(events)
      && causationGraph == ByCausation(events)
    }

    constructor (strict: bool)
      ensures Valid() && events == [] && strictCausation == strict
    {
      events := [];
      sequence := 0;
      aggregateIndex := map[];
      correlationGroups := map[];
      causationGraph := map[];
      strictCausation := strict;
    }

    method CommitEnvelope(e: Envelope)
      requires Valid()
      modifies this
      ensures Valid() && events == old(events) + [e]
    {
      ghost var before := events;
      sequence := sequence + 1;
      events := events + [e];
      aggregateIndex := Push(aggregateIndex, AggregateKey(e), e);
      correlationGroups := Push(correlationGroups, e.input.correlationId, e);
      causationGraph := Push(causationGraph, e.input.causationId, e.eventId);
      assert events[..|events| - 1] == before;
    }

    /** All or nothing: on a broken causation or a failed write, log, counter and indexes are put back. */
    method AppendManyAtomic(inputs: seq<Input>, ids: seq<string>, persists: bool) returns (r: Option<seq<Envelope>>)
      requires Valid() && |ids| == |inputs|
      modifies this
      ensures Valid()
      ensures r == if inputs == [] || (persists && Appended(old(events), inputs, ids, strictCausation).Some?)
                   then Some(Envelopes(inputs, ids)) else None
      ensures events == if r.Some? then old(events) + Envelopes(inputs, ids) else old(events)
    {
      if |inputs| == 0 { return Some([]); }
      var log := events;
      var count := sequence;
      var byAggregate := aggregateIndex;
      var byCorrelation := correlationGroups;
      var byCausation := causationGraph;
      assert inputs[0..] == inputs && ids[0..] == ids;
      var ok := true;
      for i := 0 to |inputs|
        invariant Valid() && ok
        invariant Appended(events, inputs[i..], ids[i..], strictCausation)
               == Appended(log, inputs, ids, strictCausation)
      {
        assert inputs[i..][1..] == inputs[i + 1..] && ids[i..][1..] == ids[i + 1..];
        if strictCausation && !CausationHolds(events, inputs[i]) {
          ok := false;
          break;
        }
        CommitEnvelope(Envelope(ids[i], inputs[i]));
      }
      if !ok || !persists {
        events, sequence := log, count;
        aggregateIndex, correlationGroups, causationGraph := byAggregate, byCorrelation, byCausation;
        return None;
      }
      AppendedIsWhole(log, inputs, ids, strictCausation);
      return Some(Envelopes(inputs, ids));
    }
  }
}

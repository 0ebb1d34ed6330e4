// The registry of aggregate states, in its in-process mode: a map of state records and a map of
// transition histories under one textual key.

module StateRegistry {
  import opened Options

  datatype StateRecord = StateRecord(domain: Option<string>, aggregate: string, aggregateId: string, state: string)

  datatype Transition = Transition(domain: Option<string>, aggregate: string, aggregateId: string,
                                   fromState: string, toState: string, trigger: string)

  datatype Update = Update(
    aggregate: string, id: string, state: string, domain: Option<string>, transition: Option<Transition>)

  /** What the registry holds. */
  datatype Snapshot = Snapshot(states: map<string, StateRecord>, history: map<string, seq<Transition>>)

  type Resolver = (Option<string>, string) -> Option<string>

  function Key(aggregate: string, id: string, domain: Option<string>): string {
    (if domain.Some? then domain.value else "*") + ":" + aggregate + ":" + id
  }

  function KeyOf(u: Update): string {
    Key(u.aggregate, u.id, u.domain)
  }

  function RecordOf(u: Update, state: string): StateRecord {
    StateRecord(u.domain, u.aggregate, u.id, state)
  }

  function StateAt(s: Snapshot, k: string): Option<StateRecord> {
    if k in s.states then Some(s.states[k]) else None
  }

  function HistoryAt(s: Snapshot, k: string): seq<Transition> {
    if k in s.history then s.history[k] else []
  }

  /** `getState`: an empty stored state counts as none and falls back to the initial one. */
  function CurrentState(s: Snapshot, u: Update, initial: Resolver): string {
    var k := KeyOf(u);
    if k in s.states && s.states[k].state != "" then s.states[k].state
    else
      var i := initial(u.domain, u.aggregate);
      if i.Some? && i.value != "" then i.value else "INIT"
  }

  /** The transition as it is kept. */
  function Kept(u: Update): Transition
    requires u.transition.Some?
  {
    u.transition.value.(domain := u.domain, aggregate := u.aggregate, aggregateId := u.id, toState := u.state)
  }

  /** `setState` */
  function Set(s: Snapshot, u: Update): Snapshot {
    var k := KeyOf(u);
    Snapshot(s.states[k := RecordOf(u, u.state)],
             if u.transition.Some? then s.history[k := HistoryAt(s, k) + [Kept(u)]] else s.history)
  }

  function WithoutLast(h: seq<Transition>): seq<Transition> {
    if h == [] then [] else h[..|h| - 1]
  }

  /** `rollbackState` */
  function Undo(s: Snapshot, u: Update, previous: Option<string>): Snapshot {
    var k := KeyOf(u);
    var h := WithoutLast(HistoryAt(s, k));
    Snapshot(if previous.Some? then s.states[k := RecordOf(u, previous.value)] else s.states - {k},
             if h == [] then s.history - {k} else s.history[k := h])
  }

  /** Records are stored under their own key and no history is kept empty. */
  ghost predicate Consistent(s: Snapshot) {
    && (forall k :: k in s.states ==> Key(s.states[k].aggregate, s.states[k].aggregateId, s.states[k].domain) == k)
    && (forall k :: k in s.history ==> s.history[k] != [])
  }

  class Registry {
    var states: map<string, StateRecord>
    var history: map<string, seq<Transition>>
    const initialStateResolver: Resolver

    function Contents(): Snapshot
      reads this
    {
      Snapshot(states, history)
    }

    ghost predicate Valid()
      reads this
    {
      Consistent(Contents())
    }

    constructor (resolver: Resolver)
      ensures Valid() && Contents() == Snapshot(map[], map[]) && initialStateResolver == resolver
    {
      states := map[];
      history := map[];
      initialStateResolver := resolver;
    }

    method HasState(u: Update) returns (r: bool)
      ensures r <==> StateAt(Contents(), KeyOf(u)).Some?
    {
      r := KeyOf(u) in states;
    }

    method GetState(u: Update) returns (r: string)
      ensures r == CurrentState(Contents(), u, initialStateResolver)
    {
      if KeyOf(u) in states && states[KeyOf(u)].state != "" { return states[KeyOf(u)].state; }
      var i := initialStateResolver(u.domain, u.aggregate);
      if i.None? || i.value == "" { return "INIT"; }
      return i.value;
    }

    method SetState(u: Update)
      requires Valid()
      modifies this`states, this`history
      ensures Valid() && Contents() == Set(old(Contents()), u)
    {
      var key := KeyOf(u);
      states := states[key := RecordOf(u, u.state)];
      if u.transition.Some? {
        if key !in history { history := history[key := []]; }
        history := history[key := history[key] + [Kept(u)]];
      }
      assert history == Set(old(Contents()), u).history;
    }

    method Rollback(u: Update, previous: Option<string>)
      requires Valid()
      modifies this`states, this`history
      ensures Valid() && Contents() == Undo(old(Contents()), u, previous)
    {
      var key := KeyOf(u);
      if previous.None? {
        states := states - {key};
      } else {
        states := states[key := RecordOf(u, previous.value)];
      }
      var h := if key in history then history[key] else [];
      if |h| > 0 { h := h[..|h| - 1]; }
      if |h| == 0 { history := history - {key}; } else { history := history[key := h]; }
    }
  }
}

// The fail-closed driver that runs the compiler passes in order over arbitrary handlers.

module PassRunner {
  import opened Options
  import opened PassOrder

  datatype Severity = INFO | WARNING | ERROR | FATAL

  datatype Diagnostic = Diagnostic(code: string, severity: Severity, stage: string)

  datatype Status = PASSED | FAILED

  datatype PassResult = PassResult(id: string, name: string, phase: string, status: Status, order: nat,
                                   diagnosticsBefore: nat, diagnosticsAfter: nat, produced: seq<string>)

  /** `world` is whatever else a handler can reach. */
  datatype Context<W> = Context(diagnostics: seq<Diagnostic>, passResults: seq<PassResult>, world: W)

  /** How a handler ends: normally, by one of the two errors the driver passes on, or by any other. */
  datatype Ending = Returned | ThrewFailClosed | ThrewRegistry | ThrewOther

  datatype Reply<W> = Reply(ending: Ending, context: Context<W>)

  type Handler<!W> = (Context<W>, Pass) -> Reply<W>

  datatype Halt =
    | OrderingViolated(pass: string, dep: string)
    | NoHandler(pass: string)
    | PassedOn(pass: string)
    | HaltedDuring(pass: string)
    | HaltedAfter(pass: string)

  /** One invocation of a handler, with the reply it gave. */
  datatype Call<W> = Call(pass: Pass, reply: Reply<W>)

  datatype Run<W> = Run(context: Context<W>, halt: Option<Halt>, calls: seq<Call<W>>)

  predicate Failing(d: Diagnostic) {
    d.severity == ERROR || d.severity == FATAL
  }

  predicate Clean(ds: seq<Diagnostic>) {
    forall d :: d in ds ==> !Failing(d)
  }

  function HandlerFor<W>(handlers: map<string, Handler<W>>, pass: Pass): Option<Handler<W>> {
    if pass.id in handlers then Some(handlers[pass.id])
    else if pass.name in handlers then Some(handlers[pass.name])
    else None
  }

  function ResultOf(pass: Pass, status: Status, results: seq<PassResult>, before: nat, after: nat): PassResult {
    PassResult(pass.id, pass.name, pass.phase, status, |results| + 1, before, after, pass.produces)
  }

  function FirstMissing(deps: seq<string>, completed: set<string>): Option<string> {
    if deps == [] then None
    else if deps[0] !in completed then Some(deps[0])
    else FirstMissing(deps[1..], completed)
  }

  /** The context after a pass whose handler ended normally, or threw an error the driver records. */
  function Recorded<W>(pass: Pass, reply: Reply<W>, before: nat): Context<W> {
    var c := reply.context;
    if reply.ending == Returned then
      c.(passResults := c.passResults + [ResultOf(pass, PASSED, c.passResults, before, |c.diagnostics|)])
    else
      var ds := c.diagnostics + [Diagnostic("COMPILER-PASS-FAILED", FATAL, pass.id)];
      c.(diagnostics := ds, passResults := c.passResults + [ResultOf(pass, FAILED, c.passResults, before, |ds|)])
  }

  /** The run, as a function. */
  function RunFrom<W>(order: seq<Pass>, handlers: map<string, Handler<W>>, context: Context<W>,
                      completed: set<string>): Run<W>
    decreases |order|
  {
    if order == [] then Run(context, None, [])
    else
      var pass := order[0];
      var missing := FirstMissing(pass.dependsOn, completed);
      if missing.Some? then Run(context, Some(OrderingViolated(pass.id, missing.value)), [])
      else
        var handler := HandlerFor(handlers, pass);
        if handler.None? then Run(context, Some(NoHandler(pass.id)), [])
        else
          var reply := handler.value(context, pass);
          var call := Call(pass, reply);
          if reply.ending == ThrewFailClosed || reply.ending == ThrewRegistry then
            Run(reply.context, Some(PassedOn(pass.id)), [call])
          else
            var after := Recorded(pass, reply, |context.diagnostics|);
            if reply.ending == ThrewOther then Run(after, Some(HaltedDuring(pass.id)), [call])
            else if !Clean(after.diagnostics) then Run(after, Some(HaltedAfter(pass.id)), [call])
            else
              var rest := RunFrom(order[1..], handlers, after, completed + {pass.id});
              rest.(calls := [call] + rest.calls)
  }

  lemma {:induction false} FirstMissingSpec(deps: seq<string>, completed: set<string>)
    ensures FirstMissing(deps, completed).None? <==> AllIn(deps, completed)
    ensures FirstMissing(deps, completed).Some? ==> FirstMissing(deps, completed).value !in completed
  {
    if deps != [] {
      assert deps == [deps[0]] + deps[1..];
      FirstMissingSpec(deps[1..], completed);
    }
  }

  method CheckDependenciesCompleted(pass: Pass, completed: set<string>) returns (missing: Option<string>)
    ensures missing == FirstMissing(pass.dependsOn, completed)
  {
    var deps := pass.dependsOn;
    assert deps[0..] == deps;
    for j := 0 to |deps|
      invariant FirstMissing(deps[j..], completed) == FirstMissing(deps, completed)
    {
      assert deps[j..][1..] == deps[j + 1..];
      if deps[j] !in completed { return Some(deps[j]); }
    }
    return None;
  }

  lemma CallsAppend<W>(a: seq<Call<W>>, c: Call<W>, b: seq<Call<W>>)
    ensures a + ([c] + b) == (a + [c]) + b
  {
  }

  /** The driver's loop. `calls` records the handler invocations. */
  method RunPasses<W>(order: seq<Pass>, handlers: map<string, Handler<W>>, initial: Context<W>) returns (run: Run<W>)
    ensures run == RunFrom(order, handlers, initial, {})
  {
    var completed: set<string> := {};
    var context := initial;
    var calls: seq<Call<W>> := [];
    ghost var whole := RunFrom(order, handlers, initial, {});
    assert order[0..] == order;
    for i := 0 to |order|
      invariant var rest := RunFrom(order[i..], handlers, context, completed);
                whole == rest.(calls := calls + rest.calls)
    {
      var pass := order[i];
      assert order[i..][1..] == order[i + 1..];
      ghost var rest := RunFrom(order[i..], handlers, context, completed);
      var missing := CheckDependenciesCompleted(pass, completed);
      if missing.Some? {
        assert calls + [] == calls;
        return Run(context, Some(OrderingViolated(pass.id, missing.value)), calls);
      }
      var handler := HandlerFor(handlers, pass);
      if handler.None? {
        assert calls + [] == calls;
        return Run(context, Some(NoHandler(pass.id)), calls);
      }
      var before := |context.diagnostics|;
      var reply := handler.value(context, pass);
      if reply.ending == ThrewFailClosed || reply.ending == ThrewRegistry {
        return Run(reply.context, Some(PassedOn(pass.id)), calls + [Call(pass, reply)]);
      }
      context := Recorded(pass, reply, before);
      if reply.ending == ThrewOther {
        return Run(context, Some(HaltedDuring(pass.id)), calls + [Call(pass, reply)]);
      }
      completed := completed + {pass.id};
      if !Clean(context.diagnostics) {
        return Run(context, Some(HaltedAfter(pass.id)), calls + [Call(pass, reply)]);
      }
      CallsAppend(calls, Call(pass, reply), RunFrom(order[i + 1..], handlers, context, completed).calls);
      calls := calls + [Call(pass, reply)];
    }
    return Run(context, None, calls);
  }

  // ---- what every run guarantees ----

  /** In the computed order the "Ordering invariant violated" error cannot occur. */
  lemma {:induction false} OrderingNeverViolated<W>(order: seq<Pass>, handlers: map<string, Handler<W>>,
                                                    context: Context<W>, completed: set<string>)
    requires Respects(completed, order)
    ensures var halt := RunFrom(order, handlers, context, completed).halt; halt.Some? ==> !halt.value.OrderingViolated?
    decreases |order|
  {
    if order != [] {
      RespectsTail(completed, order);
      FirstMissingSpec(order[0].dependsOn, completed);
      if HandlerFor(handlers, order[0]).Some? {
        var reply := HandlerFor(handlers, order[0]).value(context, order[0]);
        var after := Recorded(order[0], reply, |context.diagnostics|);
        OrderingNeverViolated(order[1..], handlers, after, completed + {order[0].id});
      }
    }
  }

  lemma ComputedOrderNeverViolated<W>(passes: seq<Pass>, handlers: map<string, Handler<W>>, context: Context<W>)
    requires Validated(passes)
    ensures var halt := RunFrom(Kahn(passes, {}), handlers, context, {}).halt;
            halt.Some? ==> !halt.value.OrderingViolated?
  {
    KahnSound(passes, {});
    OrderingNeverViolated(Kahn(passes, {}), handlers, context, {});
  }

  /** A call after which the run must stop. */
  ghost predicate Stops<W>(c: Call<W>) {
    c.reply.ending != Returned || !Clean(c.reply.context.diagnostics)
  }

  /** Handlers are invoked along the order without gaps, and none after a call that threw or left an
      ERROR or FATAL diagnostic. */
  lemma {:induction false} NothingRunsAfterFailure<W>(order: seq<Pass>, handlers: map<string, Handler<W>>,
                                                      context: Context<W>, completed: set<string>)
    ensures var calls := RunFrom(order, handlers, context, completed).calls;
            && |calls| <= |order|
            && (forall k :: 0 <= k < |calls| ==> calls[k].pass == order[k])
            && (forall k :: 0 <= k < |calls| - 1 ==> !Stops(calls[k]))
    decreases |order|
  {
    if order != [] && FirstMissing(order[0].dependsOn, completed).None? && HandlerFor(handlers, order[0]).Some? {
      var reply := HandlerFor(handlers, order[0]).value(context, order[0]);
      var after := Recorded(order[0], reply, |context.diagnostics|);
      NothingRunsAfterFailure(order[1..], handlers, after, completed + {order[0].id});
    }
  }

  /** One step of a run whose dependencies are met and whose handler exists. */
  lemma RunStep<W>(order: seq<Pass>, handlers: map<string, Handler<W>>, context: Context<W>, completed: set<string>)
    requires order != [] && AllIn(order[0].dependsOn, completed) && HandlerFor(handlers, order[0]).Some?
    ensures var pass := order[0];
            var reply := HandlerFor(handlers, pass).value(context, pass);
            var call := Call(pass, reply);
            var run := RunFrom(order, handlers, context, completed);
            var rest := RunFrom(order[1..], handlers, Recorded(pass, reply, |context.diagnostics|),
                                completed + {pass.id});
            if Stops(call) then run.halt.Some? && run.calls == [call]
            else run == rest.(calls := [call] + rest.calls)
  {
    FirstMissingSpec(order[0].dependsOn, completed);
  }

  ghost predicate AllWell<W>(calls: seq<Call<W>>) {
    forall k :: 0 <= k < |calls| ==> !Stops(calls[k])
  }

  /** A run completes exactly when every pass of the order was invoked and none of the calls threw or
      left a failing diagnostic. */
  lemma {:induction false} CompletesIff<W>(order: seq<Pass>, handlers: map<string, Handler<W>>, context: Context<W>,
                                           completed: set<string>)
    requires Respects(completed, order)
    ensures var run := RunFrom(order, handlers, context, completed);
            run.halt.None? <==> |run.calls| == |order| && AllWell(run.calls)
    decreases |order|
  {
    if order != [] {
      RespectsTail(completed, order);
      if HandlerFor(handlers, order[0]).Some? {
        var reply := HandlerFor(handlers, order[0]).value(context, order[0]);
        var after := Recorded(order[0], reply, |context.diagnostics|);
        RunStep(order, handlers, context, completed);
        CompletesIff(order[1..], handlers, after, completed + {order[0].id});
        WellCons(Call(order[0], reply), RunFrom(order[1..], handlers, after, completed + {order[0].id}).calls);
      }
    }
  }

  lemma WellCons<W>(c: Call<W>, rest: seq<Call<W>>)
    ensures AllWell([c] + rest) <==> !Stops(c) && AllWell(rest)
  {
    var all := [c] + rest;
    if AllWell(all) {
      assert !Stops(all[0]);
      forall k | 0 <= k < |rest| ensures !Stops(rest[k]) { assert !Stops(all[k + 1]); }
    }
  }

  /** A completed run of at least one pass ends without ERROR or FATAL diagnostics. */
  lemma {:induction false} CompletedRunIsClean<W>(order: seq<Pass>, handlers: map<string, Handler<W>>,
                                                  context: Context<W>, completed: set<string>)
    requires order != [] || Clean(context.diagnostics)
    requires RunFrom(order, handlers, context, completed).halt.None?
    ensures Clean(RunFrom(order, handlers, context, completed).context.diagnostics)
    decreases |order|
  {
    if order != [] {
      var reply := HandlerFor(handlers, order[0]).value(context, order[0]);
      CompletedRunIsClean(order[1..], handlers, Recorded(order[0], reply, |context.diagnostics|),
                          completed + {order[0].id});
    }
  }

  /** Handlers that leave the list of pass results to the driver. */
  ghost predicate LeavesResults<W(!new)>(handlers: map<string, Handler<W>>) {
    forall k, c: Context<W>, p: Pass :: k in handlers ==> handlers[k](c, p).context.passResults == c.passResults
  }

  /** The result of this pass, PASSED and with this number. */
  predicate PassedAs(r: PassResult, pass: Pass, number: nat) {
    && r.id == pass.id && r.name == pass.name && r.phase == pass.phase
    && r.status == PASSED && r.order == number && r.produced == pass.produces
  }

  ghost predicate NumberedPassed(order: seq<Pass>, results: seq<PassResult>, from: nat) {
    && |results| == from + |order|
    && forall k :: 0 <= k < |order| ==> PassedAs(results[from + k], order[k], from + k + 1)
  }

  /** Then a completed run adds exactly the passes of the order, all PASSED and numbered on. */
  lemma {:induction false} CompletedResults<W(!new)>(order: seq<Pass>, handlers: map<string, Handler<W>>,
                                                     context: Context<W>, completed: set<string>)
    requires LeavesResults(handlers) && RunFrom(order, handlers, context, completed).halt.None?
    ensures var results := RunFrom(order, handlers, context, completed).context.passResults;
            context.passResults <= results && NumberedPassed(order, results, |context.passResults|)
    decreases |order|
  {
    if order != [] {
      var h := HandlerFor(handlers, order[0]).value;
      var reply := h(context, order[0]);
      assert reply.context.passResults == context.passResults;
      var after := Recorded(order[0], reply, |context.diagnostics|);
      CompletedResults(order[1..], handlers, after, completed + {order[0].id});
      var results := RunFrom(order, handlers, context, completed).context.passResults;
      assert results[|context.passResults|] == after.passResults[|context.passResults|];
      OneMorePassed(order, results, |context.passResults|);
    }
  }

  lemma OneMorePassed(order: seq<Pass>, results: seq<PassResult>, n: nat)
    requires order != [] && NumberedPassed(order[1..], results, n + 1)
    requires PassedAs(results[n], order[0], n + 1)
    ensures NumberedPassed(order, results, n)
  {
    forall k | 0 <= k < |order| ensures PassedAs(results[n + k], order[k], n + k + 1) {
      if k > 0 { assert order[1..][k - 1] == order[k] && results[(n + 1) + (k - 1)] == results[n + k]; }
    }
  }

  /** From an empty list of results, a completed run of the computed order reports 1..n. */
  lemma CompletedFromEmpty<W(!new)>(passes: seq<Pass>, handlers: map<string, Handler<W>>, context: Context<W>)
    requires Validated(passes) && |Kahn(passes, {})| == |passes|
    requires LeavesResults(handlers) && context.passResults == []
    requires RunFrom(Kahn(passes, {}), handlers, context, {}).halt.None?
    ensures var end := RunFrom(Kahn(passes, {}), handlers, context, {}).context;
            && NumberedPassed(Kahn(passes, {}), end.passResults, 0)
            && |end.passResults| == |passes| && Clean(end.diagnostics)
  {
    CompletedResults(Kahn(passes, {}), handlers, context, {});
    CompletedRunIsClean(Kahn(passes, {}), handlers, context, {});
  }
}

/** The relayer's top-level control loop (`Relayer.Start` in relayer/start.go):
    one-time setup, then a wait/run loop over a merged event source, where the
    outcome of every processing cycle is classified as success, unrecoverable
    error or transient error, and a streak of transient errors is escalated to
    an unrecoverable one.

    The collaborators whose code is not part of this model (`init`,
    `buildProcessors`, `Process`, `updateExternalChainInfos`, the context and
    the ticker) are inputs: their outcomes are given, in the order the loop
    observes them. */
module Relayer {
  import opened Wrappers

  /** defaultErrorCountToExit: this many transient failures in a row end the loop. */
  const DefaultErrorCountToExit: nat := 5

  /** defaultLoopTimeout (one minute), the ticker's period, in seconds. The model keeps
      only the order in which ticks arrive, not their timing. */
  const DefaultLoopTimeoutSeconds: nat := 60

  /** The text wrapped around ErrUnknown when the merged tick channel closes. */
  const ClosedChannelText := "ticker channel for message processing was closed unexpectedly"

  /** The errors the loop sees and returns. */
  datatype Error =
    | Failure(text: string)        // an error reported by a collaborator
    | Unrecoverable(cause: Error)  // marked by errors.Unrecoverable
    | Group(errors: seq<Error>)    // a whoops.Group, in the order the errors were added
    | ContextDone                  // ctx.Err() once the context has ended
    | Unknown(text: string)        // ErrUnknown wrapped with a text

  /** errors.IsUnrecoverable: the error carries the unrecoverable marker. */
  predicate IsUnrecoverable(e: Error) {
    e.Unrecoverable?
  }

  /** What one run of the `process` closure observes: whether ctx.Err() is set when it
      starts, what the fresh `buildProcessors` returns, and what `Process` returns
      (None is a nil error). */
  datatype Cycle = Cycle(ctxDone: bool, build: Option<Error>, process: Option<Error>)

  /** What the wait point observes: a tick from the merged channel (carrying what the cycle
      it triggers observes), the merged channel reported closed (with the ctx.Err() state
      seen in that branch), or the ctx.Done() branch of the select. */
  datatype Event = Tick(cycle: Cycle) | ChannelClosed(ctxDone: bool) | Cancelled

  /** The collaborator calls the loop makes, in order. */
  datatype Call = CallInit | CallBuildProcessors | CallUpdateExternalChainInfos | CallProcess

  /** How far Start got: it returned (None is a nil error), or it is still waiting for the
      next event with the given consecutive-failure group. */
  datatype Exit = Returned(err: Option<Error>) | Waiting(failures: seq<Error>)

  datatype Run = Run(exit: Exit, calls: seq<Call>)

  /** The environment of one Start: the outcomes of the three setup steps, what the
      cycle triggered by the pre-buffered firstLoopEnter value observes, and every event
      the wait point observes after that. */
  datatype Env = Env(init: Option<Error>, build: Option<Error>, sync: Option<Error>,
                     first: Cycle, later: seq<Event>)

  /** The result of one run of `process`: its returned error, the consecutive-failure
      group afterwards, and the calls it made. */
  datatype CycleResult = CycleResult(err: Option<Error>, failures: seq<Error>, calls: seq<Call>)

  function After(prefix: seq<Call>, r: Run): Run {
    Run(r.exit, prefix + r.calls)
  }

  /** The merged event source, standing in for channels.FanIn(ticker.C, firstLoopEnter):
      the value pre-buffered in firstLoopEnter is there before the ticker's first period has
      elapsed, so it is what the first wait takes. */
  function Merged(env: Env): seq<Event> {
    [Tick(env.first)] + env.later
  }

  /** The `process` closure: cancellation check, rebuild, Process, classification. */
  function ProcessCycle(c: Cycle, failures: seq<Error>): CycleResult {
    if c.ctxDone then CycleResult(Some(ContextDone), failures, [])
    else if c.build.Some? then CycleResult(c.build, failures, [CallBuildProcessors])
    else
      var calls := [CallBuildProcessors, CallProcess];
      match c.process
      case None => CycleResult(None, if |failures| > 0 then [] else failures, calls)
      case Some(e) =>
        if IsUnrecoverable(e) then CycleResult(Some(e), failures, calls)
        else
          var group := failures + [e];
          if |group| >= DefaultErrorCountToExit then
            CycleResult(Some(Unrecoverable(Group(group))), group, calls)
          else
            CycleResult(None, group, calls)
  }

  /** What one cycle does to the consecutive-failure group and which calls it makes. */
  lemma CycleClassification(c: Cycle, failures: seq<Error>)
    ensures var r := ProcessCycle(c, failures);
      // a cycle that lets the loop go on leaves the group below the threshold ...
      && (r.err.None? ==> |r.failures| < DefaultErrorCountToExit)
      // ... and either cleared or grown by exactly this cycle's error
      && (r.err.None? ==> r.failures == [] || (c.process.Some? && r.failures == failures + [c.process.value]))
      // the group changes only by being cleared on success or by taking this cycle's error
      && (r.failures == [] || r.failures == failures || (c.process.Some? && r.failures == failures + [c.process.value]))
      // a cycle that grows the group and still fails returns the whole group, wrapped as unrecoverable
      && (r.failures != failures && r.err.Some? ==> r.err == Some(Unrecoverable(Group(r.failures))))
      // Process only ever runs on processors built in this same cycle
      && (CallProcess in r.calls ==> r.calls == [CallBuildProcessors, CallProcess])
      && (c.ctxDone ==> r.calls == [])
  {
  }

  /** The `for { select ... }` loop, from the given consecutive-failure group onwards. */
  function RunLoop(events: seq<Event>, failures: seq<Error>): Run
    decreases |events|
  {
    if events == [] then Run(Waiting(failures), [])
    else
      match events[0]
      case Cancelled => Run(Returned(Some(ContextDone)), [])
      case ChannelClosed(ctxDone) =>
        Run(Returned(if ctxDone then None else Some(Unknown(ClosedChannelText))), [])
      case Tick(c) =>
        var step := ProcessCycle(c, failures);
        if step.err.Some? then Run(Returned(step.err), step.calls)
        else After(step.calls, RunLoop(events[1..], step.failures))
  }

  /** One step of the loop, as the wait point sees the first event. */
  lemma RunLoopStep(events: seq<Event>, failures: seq<Error>)
    requires events != []
    ensures events[0].Cancelled? ==> RunLoop(events, failures) == Run(Returned(Some(ContextDone)), [])
    ensures events[0].ChannelClosed? ==>
      RunLoop(events, failures)
        == Run(Returned(if events[0].ctxDone then None else Some(Unknown(ClosedChannelText))), [])
    ensures events[0].Tick? && ProcessCycle(events[0].cycle, failures).err.Some? ==>
      var step := ProcessCycle(events[0].cycle, failures);
      RunLoop(events, failures) == Run(Returned(step.err), step.calls)
    ensures events[0].Tick? && ProcessCycle(events[0].cycle, failures).err.None? ==>
      var step := ProcessCycle(events[0].cycle, failures);
      RunLoop(events, failures) == After(step.calls, RunLoop(events[1..], step.failures))
  {
  }

  /** The loop invariant: while the loop still runs, the group stays below the threshold. */
  lemma {:induction false} LoopKeepsGroupBelowThreshold(events: seq<Event>, failures: seq<Error>)
    requires |failures| < DefaultErrorCountToExit
    ensures RunLoop(events, failures).exit.Waiting? ==>
      |RunLoop(events, failures).exit.failures| < DefaultErrorCountToExit
    decreases |events|
  {
    if events != [] && events[0].Tick? {
      var step := ProcessCycle(events[0].cycle, failures);
      if step.err.None? {
        CycleClassification(events[0].cycle, failures);
        LoopKeepsGroupBelowThreshold(events[1..], step.failures);
      }
    }
  }

  /** Start as a whole: setup, then the loop with an empty failure group. */
  function StartSpec(env: Env): (r: Run)
    ensures |r.calls| >= 1 && r.calls[0] == CallInit
  {
    if env.init.Some? then
      Run(Returned(env.init), [CallInit])
    else if env.build.Some? then
      Run(Returned(env.build), [CallInit, CallBuildProcessors])
    else if env.sync.Some? then
      Run(Returned(env.sync), [CallInit, CallBuildProcessors, CallUpdateExternalChainInfos])
    else
      After([CallInit, CallBuildProcessors, CallUpdateExternalChainInfos], RunLoop(Merged(env), []))
  }

  /** The `process` closure. The loop's consecutive-failure group, which the closure reads
      and reassigns, is passed in and handed back. */
  method RunProcess(c: Cycle, consecutiveFailures: seq<Error>) returns (err: Option<Error>, failures: seq<Error>, calls: seq<Call>)
    ensures CycleResult(err, failures, calls) == ProcessCycle(c, consecutiveFailures)
    ensures err.None? ==> |failures| < DefaultErrorCountToExit
  {
    failures, calls := consecutiveFailures, [];
    if c.ctxDone {
      return Some(ContextDone), failures, calls;
    }
    calls := [CallBuildProcessors];
    if c.build.Some? {
      return c.build, failures, calls;
    }
    calls := calls + [CallProcess];
    match c.process {
      case None =>
        if |failures| > 0 {
          failures := [];
        }
        return None, failures, calls;
      case Some(e) =>
        if IsUnrecoverable(e) {
          return c.process, failures, calls;
        }
        failures := failures + [e];
        if |failures| >= DefaultErrorCountToExit {
          return Some(Unrecoverable(Group(failures))), failures, calls;
        }
        return None, failures, calls;
    }
  }

  /** Relayer.Start: setup, then the wait/run loop over the merged event source. */
  method Start(env: Env) returns (exit: Exit, calls: seq<Call>)
    ensures Run(exit, calls) == StartSpec(env)
    ensures exit.Waiting? ==> |exit.failures| < DefaultErrorCountToExit
  {
    calls := [CallInit];
    if env.init.Some? {
      return Returned(env.init), calls;
    }
    calls := calls + [CallBuildProcessors];
    if env.build.Some? {
      return Returned(env.build), calls;
    }
    calls := calls + [CallUpdateExternalChainInfos];
    if env.sync.Some? {
      return Returned(env.sync), calls;
    }
    var loopCalls;
    exit, loopCalls := WaitAndRun(Merged(env));
    calls := calls + loopCalls;
    LoopKeepsGroupBelowThreshold(Merged(env), []);
  }

  /** The `for { select ... }` loop of Start, from an empty consecutive-failure group. */
  method WaitAndRun(tickerCh: seq<Event>) returns (exit: Exit, calls: seq<Call>)
    ensures Run(exit, calls) == RunLoop(tickerCh, [])
  {
    var consecutiveFailures: seq<Error> := [];
    calls := [];
    var i := 0;
    while i < |tickerCh|
      invariant 0 <= i <= |tickerCh|
      invariant |consecutiveFailures| < DefaultErrorCountToExit
      invariant RunLoop(tickerCh, []) == After(calls, RunLoop(tickerCh[i..], consecutiveFailures))
    {
      assert tickerCh[i..][1..] == tickerCh[i + 1..];
      RunLoopStep(tickerCh[i..], consecutiveFailures);
      match tickerCh[i]
      case Cancelled =>
        return Returned(Some(ContextDone)), calls;
      case ChannelClosed(ctxDone) =>
        if ctxDone {
          return Returned(None), calls;
        }
        return Returned(Some(Unknown(ClosedChannelText))), calls;
      case Tick(c) =>
        var err, cycleCalls;
        err, consecutiveFailures, cycleCalls := RunProcess(c, consecutiveFailures);
        calls := calls + cycleCalls;
        if err.Some? {
          return Returned(err), calls;
        }
      i := i + 1;
    }
    exit := Waiting(consecutiveFailures);
  }

  // ---------------------------------------------------------------------------
  // Properties of the loop

  /** A cycle whose Process reports an error without the unrecoverable marker. */
  predicate Transient(c: Cycle) {
    !c.ctxDone && c.build.None? && c.process.Some? && !IsUnrecoverable(c.process.value)
  }

  /** A cycle whose Process succeeds. */
  predicate Succeeds(c: Cycle) {
    !c.ctxDone && c.build.None? && c.process.None?
  }

  /** Every cycle of the streak is transient. */
  predicate AllTransient(cs: seq<Cycle>) {
    cs == [] || (Transient(cs[0]) && AllTransient(cs[1..]))
  }

  function Ticks(cs: seq<Cycle>): seq<Event> {
    if cs == [] then [] else [Tick(cs[0])] + Ticks(cs[1..])
  }

  /** The errors a streak of transient cycles reports, in order. */
  function ProcessErrors(cs: seq<Cycle>): seq<Error>
    requires AllTransient(cs)
  {
    if cs == [] then [] else [cs[0].process.value] + ProcessErrors(cs[1..])
  }

  /** The calls of n cycles that each rebuilt the processors and ran Process. */
  function CycleCalls(n: nat): seq<Call> {
    if n == 0 then [] else [CallBuildProcessors, CallProcess] + CycleCalls(n - 1)
  }

  /** If init, the initial buildProcessors or updateExternalChainInfos fails, Start returns
      that error and no processing cycle runs. */
  lemma SetupFailureEndsStart(env: Env)
    requires env.init.Some? || env.build.Some? || env.sync.Some?
    ensures StartSpec(env).exit
         == Returned(if env.init.Some? then env.init else if env.build.Some? then env.build else env.sync)
    ensures CallProcess !in StartSpec(env).calls
  {
  }

  /** The first cycle runs on the pre-buffered tick, before the ticker has produced anything:
      whatever comes later, the first calls after setup rebuild the processors and run Process. */
  lemma FirstCycleWithoutWaiting(env: Env)
    requires env.init.None? && env.build.None? && env.sync.None?
    requires !env.first.ctxDone
    ensures |StartSpec(env).calls| >= 4 && StartSpec(env).calls[3] == CallBuildProcessors
    ensures env.first.build.None? ==> |StartSpec(env).calls| >= 5 && StartSpec(env).calls[4] == CallProcess
  {
  }

  /** A successful Process clears the failure group, whatever it held, and the loop goes on. */
  lemma SuccessClearsFailures(c: Cycle, failures: seq<Error>, rest: seq<Event>)
    requires Succeeds(c)
    ensures RunLoop([Tick(c)] + rest, failures) == After(CycleCalls(1), RunLoop(rest, []))
  {
    assert ([Tick(c)] + rest)[1..] == rest;
  }

  /** An unrecoverable Process error ends the loop at once, whatever the failure group holds,
      and is not added to it. */
  lemma UnrecoverableEndsLoop(c: Cycle, failures: seq<Error>, rest: seq<Event>)
    requires !c.ctxDone && c.build.None? && c.process.Some? && IsUnrecoverable(c.process.value)
    ensures RunLoop([Tick(c)] + rest, failures) == Run(Returned(c.process), CycleCalls(1))
    ensures ProcessCycle(c, failures).failures == failures
  {
  }

  /** A transient error is appended; reaching the threshold returns the whole group wrapped
      as unrecoverable, otherwise the loop goes on with the grown group. */
  lemma TransientErrorAppended(c: Cycle, failures: seq<Error>, rest: seq<Event>)
    requires Transient(c)
    ensures |failures| + 1 >= DefaultErrorCountToExit ==>
      RunLoop([Tick(c)] + rest, failures)
        == Run(Returned(Some(Unrecoverable(Group(failures + [c.process.value])))), CycleCalls(1))
    ensures |failures| + 1 < DefaultErrorCountToExit ==>
      RunLoop([Tick(c)] + rest, failures)
        == After(CycleCalls(1), RunLoop(rest, failures + [c.process.value]))
  {
    assert ([Tick(c)] + rest)[1..] == rest;
  }

  /** A buildProcessors failure inside a cycle ends the loop with that error; the failure
      group plays no part and Process is not called. */
  lemma BuildFailureBypassesCounter(c: Cycle, failures: seq<Error>, rest: seq<Event>)
    requires !c.ctxDone && c.build.Some?
    ensures RunLoop([Tick(c)] + rest, failures) == Run(Returned(c.build), [CallBuildProcessors])
  {
  }

  /** A cancelled context ends the loop with ctx.Err(), whether the select takes ctx.Done()
      or a tick whose cycle then sees the context ended; no processors are rebuilt. */
  lemma CancellationEndsLoop(c: Cycle, failures: seq<Error>, rest: seq<Event>)
    requires c.ctxDone
    ensures RunLoop([Tick(c)] + rest, failures) == Run(Returned(Some(ContextDone)), [])
    ensures RunLoop([Cancelled] + rest, failures) == Run(Returned(Some(ContextDone)), [])
  {
  }

  /** A closed merged channel ends the loop: nil when the context has ended, an
      ErrUnknown-wrapped error otherwise. */
  lemma ChannelClosedEndsLoop(ctxDone: bool, failures: seq<Error>, rest: seq<Event>)
    ensures RunLoop([ChannelClosed(ctxDone)] + rest, failures).exit
         == Returned(if ctxDone then None else Some(Unknown(ClosedChannelText)))
    ensures RunLoop([ChannelClosed(ctxDone)] + rest, failures).calls == []
  {
  }


  lemma CyclesThenMore(n: nat, r: Run)
    ensures After(CycleCalls(1), After(CycleCalls(n), r)) == After(CycleCalls(n + 1), r)
  {
    assert CycleCalls(1) == [CallBuildProcessors, CallProcess];
  }

  /** The first cycle of a transient streak, taken on its own. */
  lemma TransientStreakHead(cs: seq<Cycle>, failures: seq<Error>, rest: seq<Event>)
    requires cs != [] && AllTransient(cs)
    ensures Ticks(cs) + rest == [Tick(cs[0])] + (Ticks(cs[1..]) + rest)
    ensures failures + ProcessErrors(cs) == failures + [cs[0].process.value] + ProcessErrors(cs[1..])
  {
    assert ProcessErrors(cs) == [cs[0].process.value] + ProcessErrors(cs[1..]);
    assert Ticks(cs) == [Tick(cs[0])] + Ticks(cs[1..]);
  }

  /** A transient cycle below the threshold, in front of whatever the loop then does. */
  lemma TransientStep(c: Cycle, tail: seq<Event>, failures: seq<Error>, prefix: seq<Call>, r: Run)
    requires Transient(c) && |failures| + 1 < DefaultErrorCountToExit
    requires RunLoop(tail, failures + [c.process.value]) == After(prefix, r)
    ensures RunLoop([Tick(c)] + tail, failures) == After([CallBuildProcessors, CallProcess] + prefix, r)
  {
    TransientErrorAppended(c, failures, tail);
    assert CycleCalls(1) == [CallBuildProcessors, CallProcess];
    assert [CallBuildProcessors, CallProcess] + (prefix + r.calls)
        == [CallBuildProcessors, CallProcess] + prefix + r.calls;
  }

  /** A streak of transient failures that stays below the threshold grows the group by
      exactly those errors, in order, and the loop goes on. */
  lemma {:induction false} TransientStreak(cs: seq<Cycle>, failures: seq<Error>, rest: seq<Event>)
    requires AllTransient(cs)
    requires |failures| + |cs| < DefaultErrorCountToExit
    ensures RunLoop(Ticks(cs) + rest, failures)
         == After(CycleCalls(|cs|), RunLoop(rest, failures + ProcessErrors(cs)))
  {
    if cs == [] {
      assert Ticks(cs) + rest == rest;
      assert failures + ProcessErrors(cs) == failures;
    } else {
      var grown := failures + [cs[0].process.value];
      TransientStreakHead(cs, failures, rest);
      TransientStreak(cs[1..], grown, rest);
      TransientStep(cs[0], Ticks(cs[1..]) + rest, failures, CycleCalls(|cs| - 1),
                    RunLoop(rest, failures + ProcessErrors(cs)));
    }
  }

  /** Any streak of at most four transient failures followed by a success clears the group
      and the loop goes on. */
  lemma StreakThenSuccessClears(cs: seq<Cycle>, s: Cycle, rest: seq<Event>)
    requires |cs| < DefaultErrorCountToExit
    requires AllTransient(cs)
    requires Succeeds(s)
    ensures RunLoop(Ticks(cs) + [Tick(s)] + rest, [])
         == After(CycleCalls(|cs|) + CycleCalls(1), RunLoop(rest, []))
  {
    assert Ticks(cs) + [Tick(s)] + rest == Ticks(cs) + ([Tick(s)] + rest);
    TransientStreak(cs, [], [Tick(s)] + rest);
    SuccessClearsFailures(s, [] + ProcessErrors(cs), rest);
  }

  /** A streak of transient failures that reaches the threshold ends the loop on its last
      cycle with one unrecoverable error wrapping every error of the group, in order. */
  lemma {:induction false} TransientStreakEscalates(cs: seq<Cycle>, failures: seq<Error>, rest: seq<Event>)
    requires |cs| > 0 && |failures| + |cs| == DefaultErrorCountToExit
    requires AllTransient(cs)
    ensures RunLoop(Ticks(cs) + rest, failures)
         == Run(Returned(Some(Unrecoverable(Group(failures + ProcessErrors(cs))))), CycleCalls(|cs|))
  {
    var e := cs[0].process.value;
    var tail := Ticks(cs[1..]) + rest;
    TransientStreakHead(cs, failures, rest);
    TransientErrorAppended(cs[0], failures, tail);
    if |cs| > 1 {
      TransientStreakEscalates(cs[1..], failures + [e], rest);
      CyclesThenMore(|cs| - 1, Run(Returned(Some(Unrecoverable(Group(failures + ProcessErrors(cs))))), []));
    } else {
      assert ProcessErrors(cs[1..]) == [];
      assert failures + ProcessErrors(cs) == failures + [e];
    }
  }

  /** Five transient failures in a row from an empty group end the loop on the fifth, with an
      unrecoverable error wrapping all five. */
  lemma FiveTransientFailuresTerminate(cs: seq<Cycle>, rest: seq<Event>)
    requires |cs| == DefaultErrorCountToExit
    requires AllTransient(cs)
    ensures RunLoop(Ticks(cs) + rest, [])
         == Run(Returned(Some(Unrecoverable(Group(ProcessErrors(cs))))), CycleCalls(DefaultErrorCountToExit))
  {
    TransientStreakEscalates(cs, [], rest);
    assert [] + ProcessErrors(cs) == ProcessErrors(cs);
  }



  /** The only errors the loop returns are ctx.Err(), the unexpected-closure error, an error
      carrying the unrecoverable marker (from Process or from escalation), or an error that
      a cycle's buildProcessors returned. */
  lemma {:induction false} LoopErrorsClassified(events: seq<Event>, failures: seq<Error>)
    ensures RunLoop(events, failures).exit.Returned? && RunLoop(events, failures).exit.err.Some? ==>
      var e := RunLoop(events, failures).exit.err.value;
      || e == ContextDone
      || e == Unknown(ClosedChannelText)
      || IsUnrecoverable(e)
      || exists k | 0 <= k < |events| :: events[k].Tick? && events[k].cycle.build == Some(e)
    decreases |events|
  {
    if events != [] && events[0].Tick? {
      var step := ProcessCycle(events[0].cycle, failures);
      if step.err.None? {
        LoopErrorsClassified(events[1..], step.failures);
        var r := RunLoop(events[1..], step.failures);
        if r.exit.Returned? && r.exit.err.Some? {
          var e := r.exit.err.value;
          if exists k | 0 <= k < |events[1..]| :: events[1..][k].Tick? && events[1..][k].cycle.build == Some(e) {
            var k :| 0 <= k < |events[1..]| && events[1..][k].Tick? && events[1..][k].cycle.build == Some(e);
            assert events[k + 1] == events[1..][k];
          }
        }
      } else if step.err == events[0].cycle.build {
        assert events[0].Tick? && events[0].cycle.build == step.err;
      }
    }
  }
}

/**
 A subscription whose creation fails. `newNotifications` then returns an error and no subscription, but it only
 cancels the context of its own waiting: the managers go on unless something else stops them.
 */
module FailedCreation {
  import opened Prelude
  import opened WaitGroup
  import opened Subscription
  import opened Lifecycle
  import Barrier
  import Resume

  // ---------- What stops the managers ----------

  ghost predicate ParentCancelled(steps: seq<Step>, n: nat)
    requires n <= |steps|
  {
    n > 0 && (ParentCancelled(steps, n - 1) || steps[n - 1] == Act(ParentCancel))
  }

  ghost predicate SomeFailure(s: State) {
    exists i :: 0 <= i < |s.shared.reports.init.calls| && ReportedFailure(s.shared.reports.init.calls[i])
  }

  /** A report that was made stays made. */
  lemma MoveKeepsFailure(m: Manager, log: seq<Batch>, sh: Shared, i: nat, move: Move, j: nat)
    requires MoveEnabled(m, log, sh, i, move) && j < |sh.reports.init.calls| && ReportedFailure(sh.reports.init.calls[j])
    ensures var t := Effect(m, log, sh, i, move);
            j < |t.reports.init.calls| && ReportedFailure(t.reports.init.calls[j])
  {
    hide IterationOrder;
  }

  lemma StepKeepsFailure(s: State, step: Step)
    requires Enabled(s, step) && SomeFailure(s)
    ensures SomeFailure(Next(s, step))
  {
    hide MoveEnabled, Effect, Moved, ReportedFailure;
    var j :| 0 <= j < |s.shared.reports.init.calls| && ReportedFailure(s.shared.reports.init.calls[j]);
    match step
    case Append(_, _) =>
    case Manage(i, move) => MoveKeepsFailure(s.managers[i], s.logs[i], s.shared, i, move, j);
    case Act(action) =>
      if action.AwaitInit? { AwaitKeepsCalls(s.shared.reports.init, action.step); }
  }

  /** Only the parent context, `Close` and a manager that has reported its failure cancel. */
  lemma StepCancels(s: State, step: Step)
    requires Lifecycle.Inv(s) && Enabled(s, step) && Next(s, step).shared.cancelled && !s.shared.cancelled
    ensures step == Act(ParentCancel) || !Next(s, step).shared.closing.Open? || SomeFailure(s)
  {
    hide IterationOrder, Converted, Report, Moved, Closed, CountSignalled, ReportedFailure;
    if step.Manage? {
      assert Reported(s.managers[step.i], s.shared.reports.init.calls[step.i]);
    }
  }

  lemma StepKeepsClosing(s: State, step: Step)
    requires Enabled(s, step) && !s.shared.closing.Open?
    ensures !Next(s, step).shared.closing.Open?
  {
    hide IterationOrder, Converted, Report, Moved;
  }

  lemma {:induction false} CancelledBecause(states: seq<State>, steps: seq<Step>, n: nat)
    requires Run(states, steps) && n < |states|
    ensures states[n].shared.cancelled ==>
              ParentCancelled(steps, n) || !states[n].shared.closing.Open? || SomeFailure(states[n])
  {
    hide Next, Enabled, SomeFailure, Lifecycle.Inv;
    if n > 0 && states[n].shared.cancelled {
      var s, step := states[n - 1], steps[n - 1];
      CancelledBecause(states, steps, n - 1);
      Lifecycle.RunKeepsInv(states, steps, n - 1);
      if !s.shared.cancelled { StepCancels(s, step); }
      if SomeFailure(s) { StepKeepsFailure(s, step); }
      if !s.shared.closing.Open? { StepKeepsClosing(s, step); }
    }
  }

  /** Manager `i` is out of its retry loop. */
  ghost predicate Stopped(s: State, i: nat) {
    i < |s.managers| && (s.managers[i].phase.Exited? || s.managers[i].phase.Signalled?)
  }

  lemma StepStops(s: State, step: Step, i: nat)
    requires Enabled(s, step) && Stopped(Next(s, step), i)
    ensures Stopped(s, i) || s.shared.cancelled
    ensures s.shared.cancelled ==> Next(s, step).shared.cancelled
  {
    hide IterationOrder, Converted, Report;
  }

  lemma {:induction false} StoppedOnlyCancelled(states: seq<State>, steps: seq<Step>, n: nat, i: nat)
    requires Run(states, steps) && n < |states| && Stopped(states[n], i)
    ensures states[n].shared.cancelled
  {
    hide Next, Enabled;
    if n > 0 {
      StepStops(states[n - 1], steps[n - 1], i);
      if Stopped(states[n - 1], i) { StoppedOnlyCancelled(states, steps, n - 1, i); }
    }
  }

  /**
   If creation failed, a manager stops only if some manager has reported a failure or the parent context was
   cancelled; a time-out alone stops none.
   */
  lemma FailedCreationStopsOnlyIf(states: seq<State>, steps: seq<Step>, n: nat, i: nat)
    requires Run(states, steps) && n < |states| && Created(states[n]).Some? && Created(states[n]) != Some(None)
    requires Stopped(states[n], i)
    ensures ParentCancelled(steps, n) || SomeFailure(states[n])
  {
    hide Run, SomeFailure, Stopped, ParentCancelled, Barrier.Inv;
    StoppedOnlyCancelled(states, steps, n, i);
    CancelledBecause(states, steps, n);
    Lifecycle.RunKeepsInv(states, steps, n);
  }

  // ---------- Why creation fails ----------

  /** Shard `i` failed to connect, or its stream broke, with this error. */
  ghost predicate FailedWith(steps: seq<Step>, n: nat, i: nat, e: Error) {
    exists k :: 0 <= k < n && k < |steps| && (steps[k] == Manage(i, ConnectError(e)) || steps[k] == Manage(i, Break(e)))
  }

  /** The context of the waiting goroutine was cancelled with this error. */
  ghost predicate WaitEndedWith(steps: seq<Step>, n: nat, e: Error) {
    exists k :: 0 <= k < n && k < |steps| && steps[k] == Act(AwaitInit(Barrier.Cancel(e)))
  }

  /** What a manager that has not started says went wrong did. */
  ghost predicate Genuine(m: Manager, call: Barrier.Call, steps: seq<Step>, n: nat, i: nat) {
    && (!m.initialized && (m.phase.Failed? || m.phase.Notifying?) ==> FailedWith(steps, n, i, m.phase.err))
    && (ReportedFailure(call) ==> FailedWith(steps, n, i, call.err.value))
  }

  ghost predicate AllGenuine(s: State, steps: seq<Step>, n: nat) {
    && Shaped(s)
    && (forall i :: 0 <= i < |s.managers| ==> Genuine(s.managers[i], s.shared.reports.init.calls[i], steps, n, i))
    && (s.shared.reports.init.cancelled.Some? ==> WaitEndedWith(steps, n, s.shared.reports.init.cancelled.value))
  }

  lemma MoreSteps(steps: seq<Step>, n: nat, i: nat, e: Error)
    ensures FailedWith(steps, n, i, e) ==> FailedWith(steps, n + 1, i, e)
    ensures WaitEndedWith(steps, n, e) ==> WaitEndedWith(steps, n + 1, e)
    ensures n < |steps| && (steps[n] == Manage(i, ConnectError(e)) || steps[n] == Manage(i, Break(e))) ==>
              FailedWith(steps, n + 1, i, e)
    ensures n < |steps| && steps[n] == Act(AwaitInit(Barrier.Cancel(e))) ==> WaitEndedWith(steps, n + 1, e)
  {
  }

  lemma MoveIsGenuine(m: Manager, log: seq<Batch>, sh: Shared, i: nat, move: Move, steps: seq<Step>, n: nat)
    requires MoveEnabled(m, log, sh, i, move) && i < |sh.reports.init.calls| && Closed(sh)
    requires Reported(m, sh.reports.init.calls[i]) && (!m.initialized ==> !m.phase.Pushing?)
    requires n < |steps| && steps[n] == Manage(i, move) && Genuine(m, sh.reports.init.calls[i], steps, n, i)
    ensures var t := Effect(m, log, sh, i, move);
            && |t.reports.init.calls| == |sh.reports.init.calls| && t.reports.init.cancelled == sh.reports.init.cancelled
            && Genuine(Moved(m, log, sh, i, move), t.reports.init.calls[i], steps, n + 1, i)
            && forall j :: 0 <= j < |sh.reports.init.calls| && j != i ==>
                 t.reports.init.calls[j] == sh.reports.init.calls[j]
  {
    hide Barrier.Inv, IterationOrder, Converted, FailedWith;
    forall e ensures FailedWith(steps, n, i, e) ==> FailedWith(steps, n + 1, i, e)
             ensures move == ConnectError(e) || move == Break(e) ==> FailedWith(steps, n + 1, i, e)
    {
      MoreSteps(steps, n, i, e);
    }
    if move.Receive? && !m.initialized {
      ReportKeeps(sh.reports, i, None);
    } else if move.Notify? && !m.initialized {
      ReportKeeps(sh.reports, i, Some(m.phase.err));
    }
  }

  lemma StepIsGenuine(s: State, steps: seq<Step>, n: nat)
    requires n < |steps| && Enabled(s, steps[n]) && AllGenuine(s, steps, n) && Lifecycle.Inv(s) && Resume.Inv(s)
    ensures AllGenuine(Next(s, steps[n]), steps, n + 1)
  {
    hide Closed, Reported, Effect, Moved, MoveEnabled, CountSignalled, FailedWith, WaitEndedWith;
    forall i: nat, e ensures FailedWith(steps, n, i, e) ==> FailedWith(steps, n + 1, i, e) {
      MoreSteps(steps, n, i, e);
    }
    forall e ensures WaitEndedWith(steps, n, e) || steps[n] == Act(AwaitInit(Barrier.Cancel(e))) ==>
                       WaitEndedWith(steps, n + 1, e)
    {
      MoreSteps(steps, n, 0, e);
    }
    match steps[n]
    case Append(_, _) =>
    case Manage(i, move) =>
      assert Resume.ManagerInv(s.managers[i], s.logs[i], s.shared.cancelled);
      MoveIsGenuine(s.managers[i], s.logs[i], s.shared, i, move, steps, n);
    case Act(action) =>
      if action.AwaitInit? { AwaitKeepsCalls(s.shared.reports.init, action.step); }
  }

  lemma {:induction false} RunIsGenuine(states: seq<State>, steps: seq<Step>, n: nat)
    requires Run(states, steps) && n < |states|
    ensures AllGenuine(states[n], steps, n)
  {
    hide Next, Enabled, Lifecycle.Inv, Resume.Inv, FailedWith, WaitEndedWith;
    if n > 0 {
      RunIsGenuine(states, steps, n - 1);
      Lifecycle.RunKeepsInv(states, steps, n - 1);
      Resume.RunKeepsInv(states, steps, n - 1);
      StepIsGenuine(states[n - 1], steps, n - 1);
    }
  }

  /** The error that creation returns is one with which some shard failed, or with which its own waiting ended. */
  lemma CreationErrorIsGenuine(states: seq<State>, steps: seq<Step>, n: nat, e: Error)
    requires Run(states, steps) && n < |states| && Created(states[n]) == Some(Some(e))
    ensures WaitEndedWith(steps, n, e) || exists i: nat :: FailedWith(steps, n, i, e)
  {
    hide Run, FailedWith, WaitEndedWith, Barrier.Inv;
    var b := states[n].shared.reports.init;
    Lifecycle.RunKeepsInv(states, steps, n);
    RunIsGenuine(states, steps, n);
    Barrier.ErrorIsReal(b, e);
    if b.cancelled != Some(e) {
      var i :| 0 <= i < |b.calls| && b.calls[i] == Barrier.Returned(Some(e));
      assert Genuine(states[n].managers[i], b.calls[i], steps, n, i);
    }
  }

  // ---------- A time-out that leaves the managers running ----------

  const BATCH: Batch := map[[] := Entry(KeyCreated, None)]
  const PUSHED := Notification([], KeyCreated, -1)
  const DEADLINE_EXCEEDED: Error := "context deadline exceeded"

  function TimedOut(): Barrier.State {
    Barrier.State([Barrier.Pending], [], 0, [Cancelled(DEADLINE_EXCEEDED)], Some(DEADLINE_EXCEEDED), [])
  }

  function Uncancelled(r: Reports, q: Queue): Shared {
    Shared(false, r, q, 0, false, Open)
  }

  function TimeOutSteps(): seq<Step> {
    [Act(AwaitInit(Barrier.Cancel(DEADLINE_EXCEEDED))), Act(AwaitInit(Barrier.WaitCancelled)), Manage(0, Connect),
     Manage(0, Receive([])), Append(0, BATCH), Manage(0, Receive([[]])), Manage(0, Push)]
  }

  function TimeOutStates(): (states: seq<State>)
    ensures |states| == 8
  {
    var init := Barrier.State([Barrier.Pending], [], 0, [], None, []);
    var r0, r1 := Reports(init, false), Reports(init.(cancelled := Some(DEADLINE_EXCEEDED)), false);
    var r2 := Reports(TimedOut(), false);
    var r3 := Report(r2, 0, None);
    var m := Manager(Streaming(None, 1), 0, true, Some(0), [], false);
    var x := Sent(0, PUSHED);
    [Alone(NEW_MANAGER, [map[]], Uncancelled(r0, EMPTY_QUEUE)),
     Alone(NEW_MANAGER, [map[]], Uncancelled(r1, EMPTY_QUEUE)),
     Alone(NEW_MANAGER, [map[]], Uncancelled(r2, EMPTY_QUEUE)),
     Alone(NEW_MANAGER.(phase := Streaming(Some(0), 1)), [map[]], Uncancelled(r2, EMPTY_QUEUE)),
     Alone(m, [map[]], Uncancelled(r3, EMPTY_QUEUE)),
     Alone(m, [map[], BATCH], Uncancelled(r3, EMPTY_QUEUE)),
     Alone(m.(phase := Pushing(1, [PUSHED], 2), chunks := [[]]), [map[], BATCH], Uncancelled(r3, EMPTY_QUEUE)),
     Alone(m.(phase := Pushing(1, [], 2), chunks := [[PUSHED]]), [map[], BATCH],
           Uncancelled(r3, Queue([x], [x], [], [], false, false)))]
  }

  ghost predicate TimeOutFollows(n: nat) {
    Follows(TimeOutStates(), TimeOutSteps(), n)
  }

  /** Creation times out; the manager connects, gets its initial batch and then pushes to a channel nobody has. */
  lemma TimeOutRun()
    ensures Run(TimeOutStates(), TimeOutSteps())
    ensures var last := TimeOutStates()[7];
            && Created(last) == Some(Some(DEADLINE_EXCEEDED)) && !last.shared.cancelled
            && last.shared.queue.sends == [Sent(0, PUSHED)]
  {
    hide Next, Enabled;
    TimesOut();
    StillConnects();
    StillReceives();
    StillPushes();
    var states, steps := TimeOutStates(), TimeOutSteps();
    forall n | 0 <= n < |steps| ensures Enabled(states[n], steps[n]) && states[n + 1] == Next(states[n], steps[n]) {
      assert TimeOutFollows(n);
    }
  }

  lemma TimesOut()
    ensures TimeOutFollows(0) && TimeOutFollows(1)
    ensures Created(TimeOutStates()[7]) == Some(Some(DEADLINE_EXCEEDED))
  {
  }

  lemma StillConnects()
    ensures TimeOutFollows(2) && TimeOutFollows(3)
  {
  }

  lemma StillReceives()
    ensures TimeOutFollows(4) && TimeOutFollows(5)
  {
    var s4, s5, s6 := TimeOutStates()[4], TimeOutStates()[5], TimeOutStates()[6];
    assert s4.logs[0] + [BATCH] == s5.logs[0];
    var keys: seq<Bytes> := [[]];
    assert keys[0] in BATCH && IterationOrder(keys, BATCH);
    assert NextBatch(s5.managers[0].phase, s5.logs[0]) == BATCH;
    assert Converted([[]], BATCH) == [PUSHED];
    assert Received(s5.managers[0], s5.logs[0], [[]]) == s6.managers[0];
  }

  lemma StillPushes()
    ensures TimeOutFollows(6)
  {
    var s6, s7 := TimeOutStates()[6], TimeOutStates()[7];
    assert [PUSHED][1..] == [];
    var chunks := s6.managers[0].chunks;
    assert chunks[0] + [PUSHED] == [PUSHED] && chunks[0 := [PUSHED]] == [[PUSHED]];
    assert PushOne(s6.managers[0]) == s7.managers[0];
    assert Send(s6.shared.queue, Sent(0, PUSHED)) == s7.shared.queue;
  }
}

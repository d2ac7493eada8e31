/**
 The life of a subscription: it is created only if every shard got its initial batch, and it is closed
 without sending on a closed channel, without leaving anything in the channel and without getting stuck.
 */
module Lifecycle {
  import opened Prelude
  import opened WaitGroup
  import opened Subscription
  import Barrier

  function CountSignalled(ms: seq<Manager>): (c: nat)
    ensures c <= |ms|
  {
    if ms == [] then 0 else CountSignalled(ms[1..]) + if ms[0].phase.Signalled? then 1 else 0
  }

  lemma {:induction false} CountAll(ms: seq<Manager>)
    ensures CountSignalled(ms) == |ms| <==> forall i :: 0 <= i < |ms| ==> ms[i].phase.Signalled?
  {
    if ms != [] {
      CountAll(ms[1..]);
      assert ms == [ms[0]] + ms[1..];
    }
  }

  lemma {:induction false} CountNew(ms: seq<Manager>)
    requires forall i :: 0 <= i < |ms| ==> ms[i] == NEW_MANAGER
    ensures CountSignalled(ms) == 0
  {
    if ms != [] { CountNew(ms[1..]); }
  }

  lemma {:induction false} CountUpdate(ms: seq<Manager>, i: nat, m: Manager)
    requires i < |ms| && !ms[i].phase.Signalled?
    ensures CountSignalled(ms[i := m]) == CountSignalled(ms) + if m.phase.Signalled? then 1 else 0
  {
    if i == 0 {
      assert ms[i := m][1..] == ms[1..];
    } else {
      CountUpdate(ms[1..], i - 1, m);
      assert ms[i := m][1..] == ms[1..][i - 1 := m];
    }
  }

  // ---------- The invariant ----------

  predicate ReportedFailure(call: Barrier.Call) {
    call.Returned? && call.err.Some?
  }

  /** A manager reports when it becomes initialised, and success exactly when it got its initial batch. */
  ghost predicate Reported(m: Manager, call: Barrier.Call) {
    && (m.initialized <==> !call.Pending?)
    && (m.start.Some? <==> call == Barrier.Returned(None))
    && (m.phase.Cancelling? ==> ReportedFailure(call))
  }

  ghost predicate Closed(sh: Shared) {
    && !sh.queue.panicked && !sh.reports.twice && Barrier.Inv(sh.reports.init)
    && (sh.queue.closed ==> sh.count == |sh.reports.init.calls|)
    && (sh.signalled ==> sh.queue.closed)
    && (sh.closing.Draining? || sh.closing.Done? ==> sh.signalled)
    && (sh.closing.Done? ==> sh.queue.channel == [])
    && (!sh.closing.Open? ==> sh.cancelled && Usable(sh)) && |sh.queue.channel| <= 100
  }

  ghost predicate Inv(s: State) {
    && Shaped(s) && Closed(s.shared) && s.shared.count == CountSignalled(s.managers)
    && (forall i :: 0 <= i < |s.managers| ==> Reported(s.managers[i], s.shared.reports.init.calls[i]))
  }

  lemma InitInv(s: State)
    requires Init(s)
    ensures Inv(s)
  {
    CountNew(s.managers);
    Barrier.InitInv(s.shared.reports.init, |s.managers|);
  }

  /** A report goes through: the manager has not reported before, and the group has room for it. */
  lemma ReportKeeps(r: Reports, i: nat, err: Option<Error>)
    requires !r.twice && Barrier.Inv(r.init) && i < |r.init.calls| && r.init.calls[i].Pending?
    ensures var t := Report(r, i, err);
            && !t.twice && Barrier.Inv(t.init) && |t.init.calls| == |r.init.calls|
            && t.init.Outcome() == r.init.Outcome()
            && t.init.calls[i] == Barrier.Returned(err)
            && forall j :: 0 <= j < |r.init.calls| && j != i ==> t.init.calls[j] == r.init.calls[j]
  {
    hide Barrier.Inv;
    var step := if err.None? then Barrier.CallOk(i) else Barrier.CallError(i, err.value);
    Barrier.NextKeepsInv(r.init, step);
    Barrier.SendKeepsInv(r.init, i, err);
  }

  /** The move of a manager that has not been counted by the closing goroutine yet. */
  lemma MoveKeepsClosed(m: Manager, log: seq<Batch>, sh: Shared, i: nat, move: Move)
    requires Closed(sh) && MoveEnabled(m, log, sh, i, move) && i < |sh.reports.init.calls|
    requires Reported(m, sh.reports.init.calls[i])
    requires sh.count < |sh.reports.init.calls|
    ensures var t := Effect(m, log, sh, i, move);
            && Closed(t) && |t.reports.init.calls| == |sh.reports.init.calls|
            && t.count == sh.count + (if move.Signal? then 1 else 0)
            && Reported(Moved(m, log, sh, i, move), t.reports.init.calls[i])
            && forall j :: 0 <= j < |sh.reports.init.calls| && j != i ==>
                t.reports.init.calls[j] == sh.reports.init.calls[j]
  {
    hide Barrier.Inv, Report, IterationOrder, Converted;
    if move.Receive? && !m.initialized {
      ReportKeeps(sh.reports, i, None);
    } else if move.Notify? && !m.initialized {
      ReportKeeps(sh.reports, i, Some(m.phase.err));
    }
  }

  lemma MoveKeepsInv(s: State, i: nat, move: Move)
    requires Inv(s) && Enabled(s, Manage(i, move))
    ensures Inv(Next(s, Manage(i, move)))
  {
    hide Closed, Reported, Effect, Moved;
    var m, log := s.managers[i], s.logs[i];
    NotSignalled(m, log, s.shared, i, move);
    CountAll(s.managers);
    MoveKeepsClosed(m, log, s.shared, i, move);
    CountUpdate(s.managers, i, Moved(m, log, s.shared, i, move));
  }

  lemma NotSignalled(m: Manager, log: seq<Batch>, sh: Shared, i: nat, move: Move)
    requires MoveEnabled(m, log, sh, i, move)
    ensures !m.phase.Signalled?
    ensures Moved(m, log, sh, i, move).phase.Signalled? <==> move.Signal?
  {
  }

  lemma ActionKeepsInv(s: State, act: Action)
    requires Inv(s) && ActionEnabled(s.shared, act)
    ensures Inv(s.(shared := Acted(s.shared, act)))
  {
    hide Barrier.Inv, Reported;
    if act.AwaitInit? {
      Barrier.NextKeepsInv(s.shared.reports.init, act.step);
      AwaitKeepsCalls(s.shared.reports.init, act.step);
    }
  }

  lemma AwaitKeepsCalls(b: Barrier.State, step: Barrier.Step)
    requires Barrier.Enabled(b, step) && (step.Receive? || step.Cancel? || step.WaitCancelled?)
    ensures Barrier.Next(b, step).calls == b.calls
    ensures b.Outcome().Some? ==> Barrier.Next(b, step).Outcome() == b.Outcome()
  {
  }

  lemma {:induction false} RunKeepsInv(states: seq<State>, steps: seq<Step>, n: nat)
    requires Run(states, steps) && n < |states|
    ensures Inv(states[n])
  {
    hide Closed, Reported, Effect, Moved, MoveEnabled, ActionEnabled, Acted;
    if n == 0 {
      InitInv(states[0]);
    } else {
      RunKeepsInv(states, steps, n - 1);
      match steps[n - 1]
      case Append(_, _) =>
      case Manage(i, move) => MoveKeepsInv(states[n - 1], i, move);
      case Act(action) => ActionKeepsInv(states[n - 1], action);
    }
  }

  // ---------- Creation ----------

  /** What `newNotifications` returns: nothing yet, nil or an error. */
  function Created(s: State): Option<Option<Error>> {
    s.shared.reports.init.Outcome()
  }

  /**
   No manager ever reports twice or blocks in its report, and creation succeeds only if every manager has
   received its initial batch.
   */
  lemma OneShotInitialisation(states: seq<State>, steps: seq<Step>, n: nat)
    requires Run(states, steps) && n < |states|
    ensures !states[n].shared.reports.twice && states[n].shared.reports.init.dropped == 0
    ensures forall i :: 0 <= i < |states[n].shared.reports.init.calls| ==>
              !states[n].shared.reports.init.calls[i].Blocked?
    ensures Created(states[n]) == Some(None) ==>
              forall i :: 0 <= i < |states[n].managers| ==> states[n].managers[i].start.Some?
  {
    hide Barrier.CountReturned;
    var s := states[n];
    RunKeepsInv(states, steps, n);
    if Created(s) == Some(None) {
      Barrier.NilMeansAll(s.shared.reports.init);
    }
  }

  // ---------- Shutdown ----------

  /**
   The user's channel never holds more than 100 notifications. It is closed only after the last manager is done, so
   nothing is ever sent on it closed; and once `Close` has returned it is closed and empty.
   */
  lemma SafeShutdown(states: seq<State>, steps: seq<Step>, n: nat)
    requires Run(states, steps) && n < |states|
    ensures !states[n].shared.queue.panicked && |states[n].shared.queue.channel| <= 100
    ensures states[n].shared.queue.closed ==>
              forall i :: 0 <= i < |states[n].managers| ==> states[n].managers[i].phase.Signalled?
    ensures states[n].shared.closing.Done? ==> states[n].shared.queue.closed && states[n].shared.queue.channel == []
  {
    RunKeepsInv(states, steps, n);
    CountAll(states[n].managers);
  }

  /** A manager with something to send waits only while the channel holds 100 notifications. */
  lemma PushesWhileRoom(s: State, i: nat)
    requires i < |s.managers| && i < |s.logs| && s.managers[i].phase.Pushing? && s.managers[i].phase.rest != []
    ensures !s.shared.queue.closed ==> (Enabled(s, Manage(i, Push)) <==> |s.shared.queue.channel| < 100)
  {
  }

  function TimesClosed(steps: seq<Step>, n: nat): nat
    requires n <= |steps|
  {
    if n == 0 then 0 else TimesClosed(steps, n - 1) + if steps[n - 1] == Act(CloseChannel) then 1 else 0
  }

  lemma StepCloses(s: State, step: Step)
    requires Enabled(s, step)
    ensures Next(s, step).shared.queue.closed <==> s.shared.queue.closed || step == Act(CloseChannel)
    ensures step == Act(CloseChannel) ==> !s.shared.queue.closed
  {
    hide IterationOrder, Converted, Moved, Report;
  }

  /** The channel is closed at most once, and every send comes before that. */
  lemma {:induction false} ClosedOnceAndLast(states: seq<State>, steps: seq<Step>, n: nat)
    requires Run(states, steps) && n < |states|
    ensures TimesClosed(steps, n) == if states[n].shared.queue.closed then 1 else 0
    ensures forall j :: 0 <= j < n && steps[j].Manage? && steps[j].move.Push? ==> !states[j].shared.queue.closed
  {
    hide Next, Enabled;
    if n > 0 {
      ClosedOnceAndLast(states, steps, n - 1);
      StepCloses(states[n - 1], steps[n - 1]);
      SafeShutdown(states, steps, n - 1);
      if steps[n - 1].Manage? && steps[n - 1].move.Push? {
        PushIsAlive(states[n - 1], steps[n - 1]);
      }
    }
  }

  lemma PushIsAlive(s: State, step: Step)
    requires Enabled(s, step) && step.Manage? && step.move.Push?
    ensures step.i < |s.managers| && !s.managers[step.i].phase.Signalled?
  {
  }

  /** A step of the subscription itself, as opposed to the outside world. */
  predicate Internal(step: Step) {
    match step
    case Append(_, _) => false
    case Manage(_, move) => true
    case Act(action) => !action.ParentCancel? && !action.BeginClose? && !action.Read?
  }

  /** How far a manager is from being done, once its context is cancelled. */
  function PhaseRank(p: Phase): nat {
    match p
    case Signalled => 0
    case Exited => 1
    case Failed(_) => 2
    case Sleeping => 2
    case Idle => 3
    case Streaming(_, _) => 3
    case Cancelling => 3
    case Notifying(_) => 4
    case Pushing(_, _, _) => 4
  }

  function ManagersRank(ms: seq<Manager>): nat {
    if ms == [] then 0 else PhaseRank(ms[0].phase) + ManagersRank(ms[1..])
  }

  lemma {:induction false} RankUpdate(ms: seq<Manager>, i: nat, m: Manager)
    requires i < |ms|
    ensures ManagersRank(ms[i := m]) == ManagersRank(ms) - PhaseRank(ms[i].phase) + PhaseRank(m.phase)
  {
    hide PhaseRank;
    if i == 0 {
      assert ms[i := m][1..] == ms[1..];
    } else {
      RankUpdate(ms[1..], i - 1, m);
      assert ms[i := m][1..] == ms[1..][i - 1 := m];
    }
  }

  function ClosingRank(sh: Shared): nat {
    (match sh.closing case Open => 3 case Waiting => 2 case Draining => 1 case Done => 0)
    + (if sh.queue.closed then 0 else 1) + (if sh.signalled then 0 else 1) + |sh.queue.channel|
  }

  /** How much of the shutdown is left. */
  function Rank(s: State): nat {
    ManagersRank(s.managers) + ClosingRank(s.shared)
  }

  /** A manager that is not done can move once its context is cancelled, and get nearer to its end without sending. */
  lemma ManagerCanMove(m: Manager, log: seq<Batch>, sh: Shared, i: nat) returns (move: Move)
    requires sh.cancelled && !m.phase.Signalled? && i < |sh.reports.init.calls| && !sh.reports.init.calls[i].Blocked?
    requires sh.count < |sh.reports.init.calls|
    ensures MoveEnabled(m, log, sh, i, move)
    ensures PhaseRank(Moved(m, log, sh, i, move).phase) < PhaseRank(m.phase)
    ensures ClosingRank(Effect(m, log, sh, i, move)) == ClosingRank(sh)
    ensures Effect(m, log, sh, i, move).closing == sh.closing
  {
    hide Report, ClosingRank;
    match m.phase {
      case Idle => move := ConnectError(CONTEXT_CANCELED);
      case Streaming(_, _) => move := Break(CONTEXT_CANCELED);
      case Pushing(_, rest, _) => move := if rest == [] then Finish else CutPush;
      case Failed(_) => move := Stop;
      case Notifying(_) => move := Notify;
      case Cancelling => move := CancelAll;
      case Sleeping => move := SleepCancelled;
      case Exited => move := Signal;
    }
    SameClosingRank(sh, Effect(m, log, sh, i, move));
  }

  lemma SameClosingRank(sh: Shared, t: Shared)
    requires t.closing == sh.closing && t.queue == sh.queue && t.signalled == sh.signalled
    ensures ClosingRank(t) == ClosingRank(sh)
  {
  }

  /** Once every manager is done, the closing goroutine and `Close` can go on. */
  lemma CloserCanAct(sh: Shared) returns (act: Action)
    requires Closed(sh) && sh.count == |sh.reports.init.calls| && (sh.closing.Waiting? || sh.closing.Draining?)
    ensures ActionEnabled(sh, act) && !act.ParentCancel? && !act.BeginClose? && !act.Read?
    ensures ClosingRank(Acted(sh, act)) < ClosingRank(sh) && !Acted(sh, act).closing.Open?
  {
    hide Barrier.Inv;
    if !sh.queue.closed { return CloseChannel; }
    if !sh.signalled { return SignalClosed; }
    if sh.closing.Waiting? { return EndWait; }
    if sh.queue.channel != [] { return Drain; }
    return EndClose;
  }

  /** `Close` never gets stuck: until it returns, some step of the subscription is possible that brings it nearer. */
  lemma CloseCanProceed(states: seq<State>, steps: seq<Step>, n: nat) returns (step: Step)
    requires Run(states, steps) && n < |states|
    requires states[n].shared.closing.Waiting? || states[n].shared.closing.Draining?
    ensures Internal(step) && Enabled(states[n], step)
    ensures Rank(Next(states[n], step)) < Rank(states[n]) && !Next(states[n], step).shared.closing.Open?
  {
    hide Run, MoveEnabled, ActionEnabled, Moved, Effect, Acted, ClosingRank, PhaseRank, ManagersRank, CountSignalled;
    var s := states[n];
    RunKeepsInv(states, steps, n);
    OneShotInitialisation(states, steps, n);
    CountAll(s.managers);
    if i :| 0 <= i < |s.managers| && !s.managers[i].phase.Signalled? {
      var move := ManagerCanMove(s.managers[i], s.logs[i], s.shared, i);
      RankUpdate(s.managers, i, Moved(s.managers[i], s.logs[i], s.shared, i, move));
      return Manage(i, move);
    }
    var act := CloserCanAct(s.shared);
    return Act(act);
  }

  /**
   `Close` can always finish: every run in which it has begun has a continuation, by steps of the subscription
   alone and at most as many as its rank says, after which it has returned.
   */
  lemma {:induction false} CloseCanFinish(states: seq<State>, steps: seq<Step>)
    returns (after: seq<State>, more: seq<Step>)
    requires Run(states, steps) && |states| == |steps| + 1 && !states[|steps|].shared.closing.Open?
    ensures Run(states + after, steps + more) && |after| == |more| <= Rank(states[|steps|])
    ensures forall k :: 0 <= k < |more| ==> Internal(more[k])
    ensures (states + after)[|steps + more|].shared.closing.Done?
    decreases Rank(states[|steps|])
  {
    hide Enabled, Next, Rank, Internal, Init;
    var n := |steps|;
    if states[n].shared.closing.Done? {
      after, more := [], [];
      assert states + after == states && steps + more == steps;
    } else {
      var step := CloseCanProceed(states, steps, n);
      var next := Next(states[n], step);
      RunExtends(states, steps, step);
      var after', more' := CloseCanFinish(states + [next], steps + [step]);
      after, more := [next] + after', [step] + more';
      assert states + [next] + after' == states + after && steps + [step] + more' == steps + more;
    }
  }

  lemma RunExtends(states: seq<State>, steps: seq<Step>, step: Step)
    requires Run(states, steps) && |states| == |steps| + 1 && Enabled(states[|steps|], step)
    ensures Run(states + [Next(states[|steps|], step)], steps + [step])
  {
    hide Enabled, Next, Init;
  }
}

/**
 What a subscription can always still do: stop everything once it has been cancelled or a shard has failed to start,
 and otherwise bring the user everything that was logged.
 */
module CatchUp {
  import opened Prelude
  import opened WaitGroup
  import opened Subscription
  import opened Lifecycle
  import opened FailedCreation
  import Barrier
  import Delivery
  import Resume

  // ---------- A failure cancels ----------

  /** A manager that has reported a failure has cancelled the context of all, or is about to. */
  ghost predicate Cancels(m: Manager, call: Barrier.Call, cancelled: bool) {
    ReportedFailure(call) ==> cancelled || m.phase.Cancelling?
  }

  ghost predicate FailuresCancel(s: State) {
    && Shaped(s)
    && forall i :: 0 <= i < |s.managers| ==> Cancels(s.managers[i], s.shared.reports.init.calls[i], s.shared.cancelled)
  }

  lemma MoveCancels(m: Manager, log: seq<Batch>, sh: Shared, i: nat, move: Move)
    requires MoveEnabled(m, log, sh, i, move) && i < |sh.reports.init.calls| && Closed(sh)
    requires Reported(m, sh.reports.init.calls[i]) && Cancels(m, sh.reports.init.calls[i], sh.cancelled)
    ensures var t := Effect(m, log, sh, i, move);
            && |t.reports.init.calls| == |sh.reports.init.calls|
            && Cancels(Moved(m, log, sh, i, move), t.reports.init.calls[i], t.cancelled)
            && (sh.cancelled ==> t.cancelled)
            && forall j :: 0 <= j < |sh.reports.init.calls| && j != i ==>
                 t.reports.init.calls[j] == sh.reports.init.calls[j]
  {
    hide Barrier.Inv, Report, IterationOrder, Converted;
    if move.Receive? && !m.initialized {
      ReportKeeps(sh.reports, i, None);
    } else if move.Notify? && !m.initialized {
      ReportKeeps(sh.reports, i, Some(m.phase.err));
    }
  }

  lemma StepCancelsAll(s: State, step: Step)
    requires FailuresCancel(s) && Lifecycle.Inv(s) && Enabled(s, step)
    ensures FailuresCancel(Next(s, step))
    ensures s.shared.cancelled || step == Act(ParentCancel) ==> Next(s, step).shared.cancelled
  {
    hide Closed, Reported, Effect, Moved, MoveEnabled, ReportedFailure, CountSignalled;
    match step
    case Append(_, _) =>
    case Manage(i, move) => MoveCancels(s.managers[i], s.logs[i], s.shared, i, move);
    case Act(action) =>
      if action.AwaitInit? { AwaitKeepsCalls(s.shared.reports.init, action.step); }
  }

  /** In every run: a shard that failed to start has cancelled all of them or is about to, and so has the parent. */
  lemma {:induction false} FailureCancels(states: seq<State>, steps: seq<Step>, n: nat)
    requires Run(states, steps) && n < |states|
    ensures FailuresCancel(states[n])
    ensures ParentCancelled(steps, n) ==> states[n].shared.cancelled
  {
    hide Next, Enabled, Lifecycle.Inv;
    if n > 0 {
      FailureCancels(states, steps, n - 1);
      Lifecycle.RunKeepsInv(states, steps, n - 1);
      StepCancelsAll(states[n - 1], steps[n - 1]);
    }
  }

  // ---------- And then everything can stop ----------

  ghost predicate Doomed(s: State) {
    s.shared.cancelled || SomeFailure(s)
  }

  lemma StopCanProceed(states: seq<State>, steps: seq<Step>, n: nat) returns (step: Step)
    requires Run(states, steps) && n < |states| && Doomed(states[n]) && !states[n].shared.queue.closed
    ensures Internal(step) && Enabled(states[n], step)
    ensures Rank(Next(states[n], step)) < Rank(states[n]) && Doomed(Next(states[n], step))
  {
    hide Run, MoveEnabled, ActionEnabled, Moved, Effect, Acted, ClosingRank, PhaseRank, ManagersRank, CountSignalled;
    hide ReportedFailure, Closed, Reported;
    var s := states[n];
    RunKeepsInv(states, steps, n);
    FailureCancels(states, steps, n);
    OneShotInitialisation(states, steps, n);
    CountAll(s.managers);
    if !s.shared.cancelled {
      var i :| 0 <= i < |s.shared.reports.init.calls| && ReportedFailure(s.shared.reports.init.calls[i]);
      assert Cancels(s.managers[i], s.shared.reports.init.calls[i], false);
      CancelAllMoves(s.managers[i], s.logs[i], s.shared, i);
      RankUpdate(s.managers, i, Moved(s.managers[i], s.logs[i], s.shared, i, CancelAll));
      return Manage(i, CancelAll);
    }
    if i :| 0 <= i < |s.managers| && !s.managers[i].phase.Signalled? {
      var move := ManagerCanMove(s.managers[i], s.logs[i], s.shared, i);
      RankUpdate(s.managers, i, Moved(s.managers[i], s.logs[i], s.shared, i, move));
      Resume.EffectOnContext(s.managers[i], s.logs[i], s.shared, i, move);
      return Manage(i, move);
    }
    CloseChannelMoves(s.shared);
    return Act(CloseChannel);
  }

  lemma CancelAllMoves(m: Manager, log: seq<Batch>, sh: Shared, i: nat)
    requires m.phase.Cancelling? && i < |sh.reports.init.calls| && !sh.reports.init.calls[i].Blocked?
    ensures MoveEnabled(m, log, sh, i, CancelAll) && Effect(m, log, sh, i, CancelAll).cancelled
    ensures PhaseRank(Moved(m, log, sh, i, CancelAll).phase) < PhaseRank(m.phase)
    ensures ClosingRank(Effect(m, log, sh, i, CancelAll)) == ClosingRank(sh)
  {
  }

  lemma CloseChannelMoves(sh: Shared)
    requires sh.count == |sh.reports.init.calls| && !sh.queue.closed
    ensures ActionEnabled(sh, CloseChannel) && Acted(sh, CloseChannel).cancelled == sh.cancelled
    ensures ClosingRank(Acted(sh, CloseChannel)) < ClosingRank(sh)
  {
  }

  /**
   A run in which the context was cancelled, or a shard failed to start, always has a continuation, by at most as many
   steps of the subscription itself as its rank says, after which every manager is done and the channel is closed.
   */
  lemma {:induction false} EverythingCanStop(states: seq<State>, steps: seq<Step>)
    returns (after: seq<State>, more: seq<Step>)
    requires Run(states, steps) && |states| == |steps| + 1 && Doomed(states[|steps|])
    ensures Run(states + after, steps + more) && |after| == |more| <= Rank(states[|steps|])
    ensures forall k :: 0 <= k < |more| ==> Internal(more[k])
    ensures var s := (states + after)[|steps + more|];
            s.shared.queue.closed && forall i :: 0 <= i < |s.managers| ==> s.managers[i].phase.Signalled?
    decreases Rank(states[|steps|])
  {
    hide Enabled, Next, Rank, Internal, Init, Doomed;
    var n := |steps|;
    if states[n].shared.queue.closed {
      after, more := [], [];
      assert states + after == states && steps + more == steps;
      SafeShutdown(states, steps, n);
    } else {
      var step := StopCanProceed(states, steps, n);
      var next := Next(states[n], step);
      RunExtends(states, steps, step);
      var after', more' := EverythingCanStop(states + [next], steps + [step]);
      after, more := [next] + after', [step] + more';
      assert states + [next] + after' == states + after && steps + [step] + more' == steps + more;
    }
  }

  // ---------- Otherwise the user can read everything ----------

  /** The user has the subscription, nothing has been cancelled, and shard `i` started from an offset. */
  ghost predicate Live(s: State, i: nat) {
    && i < |s.managers| && i < |s.logs| && Usable(s.shared) && !s.shared.cancelled && s.shared.closing.Open?
    && s.managers[i].start.Some? && s.managers[i].start.value >= 0
  }

  /** The manager has pushed the whole log, and the user has read what is in the channel. */
  ghost predicate CaughtUp(s: State, i: nat) {
    && i < |s.managers| && i < |s.logs| && s.shared.queue.channel == []
    && s.managers[i].phase.Streaming? && s.managers[i].last == |s.logs[i]| - 1
  }

  /** Where the manager of a live shard can be. */
  ghost predicate Working(m: Manager, log: seq<Batch>) {
    && m.initialized && 0 <= m.last < |log|
    && match m.phase
       case Streaming(dummy, next) => dummy.None? && next == m.last + 1
       case Pushing(offset, _, next) => offset == m.last + 1 && next == m.last + 2 && offset < |log|
       case Idle => true
       case Failed(_) => true
       case Notifying(_) => true
       case Sleeping => true
       case _ => false
  }

  lemma LiveWorks(states: seq<State>, steps: seq<Step>, n: nat, i: nat)
    requires Run(states, steps) && n < |states| && Live(states[n], i)
    ensures Working(states[n].managers[i], states[n].logs[i]) && !states[n].shared.queue.closed
  {
    hide Run, Closed, CountSignalled, ReportedFailure;
    var s := states[n];
    Resume.RunKeepsInv(states, steps, n);
    Lifecycle.RunKeepsInv(states, steps, n);
    SafeShutdown(states, steps, n);
    assert Resume.ManagerInv(s.managers[i], s.logs[i], false);
    assert Reported(s.managers[i], s.shared.reports.init.calls[i]);
    ManagerWorks(s.managers[i], s.logs[i], s.shared.reports.init.calls[i]);
    if Stopped(s, i) { StoppedOnlyCancelled(states, steps, n, i); }
  }

  lemma ManagerWorks(m: Manager, log: seq<Batch>, call: Barrier.Call)
    requires Resume.ManagerInv(m, log, false) && m.start.Some? && m.start.value >= 0 && Reported(m, call)
    ensures Working(m, log) || m.phase.Exited? || m.phase.Signalled?
  {
    hide Delivers, DeliversPrefix;
  }

  function Distance(p: Phase): nat {
    match p
    case Failed(_) => 6
    case Notifying(_) => 5
    case Sleeping => 4
    case Idle => 3
    case Streaming(_, _) => 2
    case _ => 1
  }

  function Unsent(p: Phase): nat {
    if p.Pushing? then |p.rest| else 0
  }

  /** `b` is nearer to the end than `a`: fewer batches to push, a nearer phase, less to send or less to read. */
  ghost predicate Nearer(a: Manager, channelA: nat, b: Manager, channelB: nat) {
    || b.last > a.last
    || (b.last == a.last && Distance(b.phase) < Distance(a.phase))
    || (b.last == a.last && Distance(b.phase) == Distance(a.phase) && Unsent(b.phase) < Unsent(a.phase))
    || (b.last == a.last && b.phase == a.phase && channelB < channelA)
  }

  lemma {:induction false} SomeOrder(b: Batch) returns (keys: seq<Bytes>)
    ensures IterationOrder(keys, b)
    decreases |b|
  {
    if b == map[] {
      keys := [];
    } else {
      var k :| k in b;
      var rest := b - {k};
      assert b.Keys == rest.Keys + {k};
      var ks := SomeOrder(rest);
      keys := ks + [k];
    }
  }

  lemma WorkingCanMove(m: Manager, log: seq<Batch>, sh: Shared, i: nat) returns (move: Move)
    requires Working(m, log) && !sh.cancelled && !sh.queue.closed && sh.queue.channel == []
    requires !(m.phase.Streaming? && m.last == |log| - 1)
    ensures MoveEnabled(m, log, sh, i, move)
    ensures var t, u := Moved(m, log, sh, i, move), Effect(m, log, sh, i, move);
            && t.start == m.start && Nearer(m, |sh.queue.channel|, t, |u.queue.channel|)
            && u.reports == sh.reports && u.cancelled == sh.cancelled && u.closing == sh.closing
  {
    hide Report, Converted, IterationOrder;
    match m.phase {
      case Idle => move := Connect;
      case Streaming(_, next) =>
        var keys := SomeOrder(log[next]);
        move := Receive(keys);
      case Pushing(_, rest, _) => move := if rest == [] then Finish else Push;
      case Failed(_) => move := Check;
      case Notifying(_) => move := Notify;
      case Sleeping => move := Wake;
    }
  }

  lemma ReadMoves(sh: Shared)
    requires sh.queue.channel != [] && Usable(sh)
    ensures ActionEnabled(sh, Read)
    ensures var t := Acted(sh, Read);
            && |t.queue.channel| < |sh.queue.channel| && t.reports == sh.reports
            && t.cancelled == sh.cancelled && t.closing == sh.closing
  {
  }

  /** A step of shard `i` or a read of the user. */
  predicate OfShardOrUser(step: Step, i: nat) {
    step == Act(Read) || (step.Manage? && step.i == i)
  }

  lemma CanComeNearer(states: seq<State>, steps: seq<Step>, n: nat, i: nat) returns (step: Step)
    requires Run(states, steps) && n < |states| && Live(states[n], i) && !CaughtUp(states[n], i)
    ensures Enabled(states[n], step) && OfShardOrUser(step, i)
    ensures var s, t := states[n], Next(states[n], step);
            && Live(t, i) && t.logs == s.logs && t.managers[i].start == s.managers[i].start
            && Nearer(s.managers[i], |s.shared.queue.channel|, t.managers[i], |t.shared.queue.channel|)
  {
    hide Run, MoveEnabled, ActionEnabled, Moved, Effect, Acted, Working;
    var s := states[n];
    LiveWorks(states, steps, n, i);
    if s.shared.queue.channel != [] {
      ReadMoves(s.shared);
      return Act(Read);
    }
    var move := WorkingCanMove(s.managers[i], s.logs[i], s.shared, i);
    return Manage(i, move);
  }

  /** Batch `o` of shard `i` was read: one notification for each of its keys, with its change and version. */
  ghost predicate ReadWhole(s: State, i: nat, o: nat)
    requires i < |s.logs| && o < |s.logs[i]|
  {
    var seen := Delivery.OfShard(s.shared.queue.read, i);
    exists from, to :: 0 <= from <= to <= |seen| && Delivers(seen[from..to], s.logs[i][o])
  }

  lemma CaughtUpHasRead(states: seq<State>, steps: seq<Step>, n: nat, i: nat)
    requires Run(states, steps) && n < |states| && Live(states[n], i) && CaughtUp(states[n], i)
    ensures forall o :: states[n].managers[i].start.value < o < |states[n].logs[i]| ==> ReadWhole(states[n], i, o)
  {
    hide Run, Delivery.OfShard, Delivers, Usable;
    var s := states[n];
    forall o | s.managers[i].start.value < o < |s.logs[i]| ensures ReadWhole(s, i, o) {
      Delivery.CompleteBatchIsRead(states, steps, n, i, o);
    }
  }

  /**
   Nothing is lost for good: while nothing is cancelled, whatever broke before, every run has a continuation, by steps
   of the shard's manager and reads of the user alone, after which the user has read every batch of the shard's log
   after the initial offset.
   */
  lemma {:induction false} UserCanCatchUp(states: seq<State>, steps: seq<Step>, i: nat)
    returns (after: seq<State>, more: seq<Step>)
    requires Run(states, steps) && |states| == |steps| + 1 && Live(states[|steps|], i)
    ensures Run(states + after, steps + more) && |after| == |more|
    ensures forall k :: 0 <= k < |more| ==> OfShardOrUser(more[k], i)
    ensures var s, t := states[|steps|], (states + after)[|steps + more|];
            && t.logs == s.logs && i < |t.logs|
            && forall o :: s.managers[i].start.value < o < |t.logs[i]| ==> ReadWhole(t, i, o)
    decreases var s := states[|steps|]; |s.logs[i]| - s.managers[i].last,
              var s := states[|steps|]; Distance(s.managers[i].phase),
              var s := states[|steps|]; Unsent(s.managers[i].phase),
              var s := states[|steps|]; |s.shared.queue.channel|
  {
    hide Enabled, Next, Init, ReadWhole, Usable;
    var n := |steps|;
    if CaughtUp(states[n], i) {
      after, more := [], [];
      assert states + after == states && steps + more == steps;
      CaughtUpHasRead(states, steps, n, i);
    } else {
      LiveWorks(states, steps, n, i);
      var step := CanComeNearer(states, steps, n, i);
      var next := Next(states[n], step);
      RunExtends(states, steps, step);
      LiveWorks(states + [next], steps + [step], n + 1, i);
      var after', more' := UserCanCatchUp(states + [next], steps + [step], i);
      after, more := [next] + after', [step] + more';
      assert states + [next] + after' == states + after && steps + [step] + more' == steps + more;
    }
  }
}

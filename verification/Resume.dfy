/**
 Resuming from an offset: under any sequence of stream breaks and reconnects, each manager pushes the
 batches of its shard's log after the initial one, in order, each exactly once.
 */
module Resume {
  import opened Prelude
  import opened Subscription
  import Barrier

  /** How many batches after the initial one have been pushed to the end. */
  function Complete(m: Manager): int {
    |m.chunks| - if m.phase.Pushing? || m.cut then 1 else 0
  }

  /** A manager that has had no batch yet. */
  ghost predicate Unstarted(m: Manager) {
    && m.last == -1 && m.start.None? && m.chunks == [] && !m.cut && !m.phase.Pushing?
    && (m.phase.Streaming? ==> m.phase.dummy.Some?)
  }

  /** Where the manager is in the log. A dummy batch is only due when there is no offset yet. */
  ghost predicate Positioned(m: Manager, log: seq<Batch>) {
    && -1 <= m.last < |log|
    && (m.phase.Streaming? ==>
          && m.phase.next <= |log|
          && (if m.phase.dummy.Some? then m.last == -1 && m.phase.dummy.value == m.phase.next - 1 >= -1
              else m.phase.next == m.last + 1))
    && (m.phase.Pushing? ==>
          m.phase.offset == m.last + 1 < |log| && m.phase.next == m.last + 2 && m.chunks != [])
  }

  /** A manager is cut only by the cancellation, and then never goes back to its stream. */
  ghost predicate CutShort(m: Manager, cancelled: bool) {
    m.cut ==> cancelled && m.chunks != [] && (m.phase.Failed? || m.phase.Exited? || m.phase.Signalled?)
  }

  /** Everything after the initial offset `c` was pushed in order, up to where the manager is now. */
  ghost predicate InOrder(m: Manager, log: seq<Batch>, c: int) {
    && 0 <= Complete(m) && m.last == c + Complete(m) && -1 <= c && c + |m.chunks| < |log|
    && (forall j :: 0 <= j < Complete(m) ==> Delivers(m.chunks[j], log[c + 1 + j]))
    && (m.phase.Pushing? ==> Delivers(m.chunks[Complete(m)] + m.phase.rest, log[m.last + 1]))
    && (m.cut ==> DeliversPrefix(m.chunks[Complete(m)], log[m.last + 1]))
  }

  /** The manager is further in the log than what it pushed accounts for. */
  ghost predicate Gap(m: Manager, c: int) {
    0 <= Complete(m) && m.last > c + Complete(m)
  }

  ghost predicate Started(m: Manager, log: seq<Batch>, c: int) {
    -1 <= c && (InOrder(m, log, c) || (c == -1 && Gap(m, c)))
  }

  ghost predicate ManagerInv(m: Manager, log: seq<Batch>, cancelled: bool) {
    && (!m.initialized ==> Unstarted(m)) && Positioned(m, log) && CutShort(m, cancelled)
    && (m.start.Some? ==> Started(m, log, m.start.value))
  }

  lemma NewManagerInv(log: seq<Batch>)
    ensures ManagerInv(NEW_MANAGER, log, false)
  {
  }

  /** The log only grows, and the context stays cancelled. */
  lemma GrowKeepsManager(m: Manager, log: seq<Batch>, b: Batch, cancelled: bool)
    requires ManagerInv(m, log, cancelled)
    ensures ManagerInv(m, log + [b], cancelled) && ManagerInv(m, log, true)
  {
  }

  lemma ConnectKeepsManager(m: Manager, log: seq<Batch>, cancelled: bool)
    requires ManagerInv(m, log, cancelled) && m.phase.Idle?
    ensures ManagerInv(m.(phase := Connected(m, log)), log, cancelled)
  {
  }

  lemma ReceiveKeepsManager(m: Manager, log: seq<Batch>, cancelled: bool, keys: seq<Bytes>)
    requires ManagerInv(m, log, cancelled) && m.phase.Streaming? && (m.phase.dummy.Some? || 0 <= m.phase.next < |log|)
    requires IterationOrder(keys, NextBatch(m.phase, log))
    ensures ManagerInv(Received(m, log, keys), log, cancelled)
  {
    hide Converted, Delivers, DeliversPrefix;
    var n := Received(m, log, keys);
    if m.initialized && m.start.Some? && m.phase.dummy.None? {
      assert [] + n.phase.rest == n.phase.rest;
      ConvertedDelivers(keys, NextBatch(m.phase, log));
    }
  }

  lemma PushKeepsManager(m: Manager, log: seq<Batch>, cancelled: bool)
    requires ManagerInv(m, log, cancelled) && m.phase.Pushing? && m.phase.rest != []
    ensures ManagerInv(PushOne(m), log, cancelled)
  {
    hide InOrder;
    if m.start.Some? && InOrder(m, log, m.start.value) {
      PushKeepsOrder(m, log, m.start.value);
    }
  }

  lemma PushKeepsOrder(m: Manager, log: seq<Batch>, c: int)
    requires InOrder(m, log, c) && m.phase.Pushing? && m.phase.rest != [] && !m.cut
    ensures InOrder(PushOne(m), log, c)
  {
    hide Delivers, DeliversPrefix;
    var n, rest := Complete(m), m.phase.rest;
    assert m.chunks[n] + [rest[0]] + rest[1..] == m.chunks[n] + rest;
    assert forall j :: 0 <= j < n ==> PushOne(m).chunks[j] == m.chunks[j];
  }

  lemma FinishKeepsManager(m: Manager, log: seq<Batch>, cancelled: bool)
    requires ManagerInv(m, log, cancelled) && m.phase.Pushing? && m.phase.rest == []
    ensures ManagerInv(m.(phase := Streaming(None, m.phase.next), last := m.phase.offset), log, cancelled)
  {
    hide Delivers;
    var last := m.chunks[|m.chunks| - 1];
    assert last + [] == last;
  }

  lemma CutKeepsManager(m: Manager, log: seq<Batch>, err: string)
    requires ManagerInv(m, log, true) && m.phase.Pushing?
    ensures ManagerInv(m.(phase := Failed(err), cut := true), log, true)
  {
    hide Delivers;
  }

  lemma MoveKeepsManager(m: Manager, log: seq<Batch>, sh: Shared, i: nat, move: Move)
    requires ManagerInv(m, log, sh.cancelled) && MoveEnabled(m, log, sh, i, move)
    ensures ManagerInv(Moved(m, log, sh, i, move), log, sh.cancelled)
  {
    hide ManagerInv, Received, PushOne, Connected;
    match move
    case Connect => ConnectKeepsManager(m, log, sh.cancelled);
    case Receive(keys) => ReceiveKeepsManager(m, log, sh.cancelled, keys);
    case Push => PushKeepsManager(m, log, sh.cancelled);
    case Finish => FinishKeepsManager(m, log, sh.cancelled);
    case CutPush => CutKeepsManager(m, log, CONTEXT_CANCELED);
    case _ => QuietMoveKeepsManager(m, log, sh, i, move);
  }

  lemma QuietMoveKeepsManager(m: Manager, log: seq<Batch>, sh: Shared, i: nat, move: Move)
    requires ManagerInv(m, log, sh.cancelled) && MoveEnabled(m, log, sh, i, move)
    requires !move.Connect? && !move.Receive? && !move.Push? && !move.Finish? && !move.CutPush?
    ensures ManagerInv(Moved(m, log, sh, i, move), log, sh.cancelled)
  {
    hide Delivers, DeliversPrefix;
  }

  // ---------- All managers, over whole runs ----------

  ghost predicate Inv(s: State) {
    Shaped(s) && forall i :: 0 <= i < |s.managers| ==> ManagerInv(s.managers[i], s.logs[i], s.shared.cancelled)
  }

  lemma EffectOnContext(m: Manager, log: seq<Batch>, sh: Shared, i: nat, move: Move)
    requires MoveEnabled(m, log, sh, i, move)
    ensures sh.cancelled ==> Effect(m, log, sh, i, move).cancelled
    ensures |Effect(m, log, sh, i, move).reports.init.calls| == |sh.reports.init.calls|
  {
  }

  lemma ActionOnContext(sh: Shared, act: Action)
    requires ActionEnabled(sh, act)
    ensures sh.cancelled ==> Acted(sh, act).cancelled
    ensures |Acted(sh, act).reports.init.calls| == |sh.reports.init.calls|
  {
  }

  lemma CancelKeepsManager(m: Manager, log: seq<Batch>, before: bool, after: bool)
    requires ManagerInv(m, log, before) && (before ==> after)
    ensures ManagerInv(m, log, after)
  {
  }

  lemma NextKeepsInv(s: State, step: Step)
    requires Inv(s) && Enabled(s, step)
    ensures Inv(Next(s, step))
  {
    hide ManagerInv, Moved, Effect, Acted, MoveEnabled, ActionEnabled;
    match step
    case Append(i, batch) => GrowKeepsManager(s.managers[i], s.logs[i], batch, s.shared.cancelled);
    case Manage(i, move) =>
      var m, log := s.managers[i], s.logs[i];
      var after := Effect(m, log, s.shared, i, move);
      MoveKeepsManager(m, log, s.shared, i, move);
      EffectOnContext(m, log, s.shared, i, move);
      var managers := s.managers[i := Moved(m, log, s.shared, i, move)];
      forall j | 0 <= j < |managers| ensures ManagerInv(managers[j], s.logs[j], after.cancelled) {
        CancelKeepsManager(managers[j], s.logs[j], s.shared.cancelled, after.cancelled);
      }
    case Act(action) =>
      ActionOnContext(s.shared, action);
      forall j | 0 <= j < |s.managers| ensures ManagerInv(s.managers[j], s.logs[j], Acted(s.shared, action).cancelled) {
        CancelKeepsManager(s.managers[j], s.logs[j], s.shared.cancelled, Acted(s.shared, action).cancelled);
      }
  }

  lemma {:induction false} RunKeepsInv(states: seq<State>, steps: seq<Step>, n: nat)
    requires Run(states, steps) && n < |states|
    ensures Inv(states[n])
  {
    hide Next, Enabled, ManagerInv;
    if n == 0 {
      forall i | 0 <= i < |states[0].managers| ensures ManagerInv(states[0].managers[i], states[0].logs[i], false) {
        NewManagerInv(states[0].logs[i]);
      }
    } else {
      RunKeepsInv(states, steps, n - 1);
      NextKeepsInv(states[n - 1], steps[n - 1]);
    }
  }

  // ---------- Exactly once ----------

  /**
   What the manager pushed after its initial batch is the log from there on, without a gap: its offset is as
   many batches on as it pushed to the end; every batch but the last is complete, and so is the last unless it
   is being pushed or was cut, which only the cancellation does.
   */
  ghost predicate ExactlyOnce(m: Manager, log: seq<Batch>, cancelled: bool) {
    m.start.Some? ==>
      var c, n := m.start.value, |m.chunks|;
      && -1 <= c && c + n < |log| && m.last == c + Complete(m)
      && (forall j :: 0 <= j < n - 1 ==> Delivers(m.chunks[j], log[c + 1 + j]))
      && (n > 0 ==> DeliversPrefix(m.chunks[n - 1], log[c + n]))
      && (n > 0 && !m.phase.Pushing? && !m.cut ==> Delivers(m.chunks[n - 1], log[c + n]))
      && (m.cut ==> cancelled)
  }

  lemma DeliversAll(ns: seq<Notification>, b: Batch)
    requires Delivers(ns, b)
    ensures DeliversPrefix(ns, b)
  {
    assert ns + [] == ns;
  }

  /** A started manager is exactly-once if and only if it has no gap. */
  lemma ExactlyOnceIffNoGap(m: Manager, log: seq<Batch>, cancelled: bool)
    requires ManagerInv(m, log, cancelled) && m.start.Some?
    ensures ExactlyOnce(m, log, cancelled) <==> !Gap(m, m.start.value)
  {
    hide Delivers;
    var n := |m.chunks|;
    if InOrder(m, log, m.start.value) && Complete(m) == n && n > 0 {
      DeliversAll(m.chunks[n - 1], log[m.start.value + n]);
    }
  }

  /** For every manager whose initial offset is not negative, in every run. */
  lemma ResumeIsExactlyOnce(states: seq<State>, steps: seq<Step>, n: nat, i: nat)
    requires Run(states, steps) && n < |states| && i < |states[n].managers| && i < |states[n].logs|
    requires states[n].managers[i].start.Some? && states[n].managers[i].start.value >= 0
    ensures ExactlyOnce(states[n].managers[i], states[n].logs[i], states[n].shared.cancelled)
  {
    hide Run, ExactlyOnce, Positioned, CutShort;
    RunKeepsInv(states, steps, n);
    ExactlyOnceIffNoGap(states[n].managers[i], states[n].logs[i], states[n].shared.cancelled);
  }

  // ---------- When a run is not exactly-once ----------

  /** A manager that has started receives a dummy batch again, and its offset jumps over what was logged before. */
  ghost predicate Skips(m: Manager, move: Move) {
    move.Receive? && m.start.Some? && m.phase.Streaming? && m.phase.dummy.Some? && m.phase.dummy.value >= 0
  }

  /** A gap opens in exactly such a move, and never closes. */
  lemma MoveOpensGap(m: Manager, log: seq<Batch>, sh: Shared, i: nat, move: Move)
    requires ManagerInv(m, log, sh.cancelled) && MoveEnabled(m, log, sh, i, move)
    ensures var t := Moved(m, log, sh, i, move);
            && (m.start.Some? ==>
                t.start == m.start && (Gap(t, m.start.value) <==> Gap(m, m.start.value) || Skips(m, move)))
            && (m.start.None? && t.start.Some? ==> !Gap(t, t.start.value))
  {
    hide Delivers, DeliversPrefix, IterationOrder, Converted, NextBatch;
  }

  ghost predicate SkipsAt(s: State, step: Step, i: nat) {
    step.Manage? && step.i == i < |s.managers| && Skips(s.managers[i], step.move)
  }

  /** Manager `i` has skipped something in the first `n` steps. */
  ghost predicate Skipped(states: seq<State>, steps: seq<Step>, i: nat, n: nat)
    requires n <= |steps| && n <= |states|
  {
    n > 0 && (Skipped(states, steps, i, n - 1) || SkipsAt(states[n - 1], steps[n - 1], i))
  }

  /** The manager has started and has a gap. */
  ghost predicate HasGap(m: Manager) {
    m.start.Some? && Gap(m, m.start.value)
  }

  lemma StepOpensGap(s: State, step: Step, i: nat)
    requires Inv(s) && Enabled(s, step) && i < |s.managers|
    ensures i < |Next(s, step).managers|
    ensures HasGap(Next(s, step).managers[i]) <==> HasGap(s.managers[i]) || SkipsAt(s, step, i)
  {
    hide ManagerInv, Moved, Effect, Acted, MoveEnabled, ActionEnabled, Gap, Skips;
    if step.Manage? && step.i == i {
      MoveOpensGap(s.managers[i], s.logs[i], s.shared, i, step.move);
      OnlyStartedSkip(s.managers[i], step.move);
    }
  }

  lemma OnlyStartedSkip(m: Manager, move: Move)
    ensures Skips(m, move) ==> m.start.Some?
  {
  }

  lemma {:induction false} GapIffSkipped(states: seq<State>, steps: seq<Step>, n: nat, i: nat)
    requires Run(states, steps) && n < |states| && i < |states[0].managers|
    ensures i < |states[n].managers| && (HasGap(states[n].managers[i]) <==> Skipped(states, steps, i, n))
  {
    hide Next, Enabled, ManagerInv, HasGap, SkipsAt;
    if n == 0 {
      NewHasNoGap();
    } else {
      GapIffSkipped(states, steps, n - 1, i);
      RunKeepsInv(states, steps, n - 1);
      StepOpensGap(states[n - 1], steps[n - 1], i);
    }
  }

  lemma NewHasNoGap()
    ensures !HasGap(NEW_MANAGER)
  {
  }

  /** In every run, a started manager is exactly-once if and only if it has never skipped. */
  lemma ExactlyOnceIffNotSkipped(states: seq<State>, steps: seq<Step>, n: nat, i: nat)
    requires Run(states, steps) && n < |states| && i < |states[0].managers|
    ensures i < |states[n].managers| && i < |states[n].logs|
    ensures states[n].managers[i].start.Some? ==>
              (ExactlyOnce(states[n].managers[i], states[n].logs[i], states[n].shared.cancelled)
               <==> !Skipped(states, steps, i, n))
  {
    hide Run, ExactlyOnce, ManagerInv, Gap, Skipped;
    GapIffSkipped(states, steps, n, i);
    RunKeepsInv(states, steps, n);
    var m := states[n].managers[i];
    if m.start.Some? {
      ExactlyOnceIffNoGap(m, states[n].logs[i], states[n].shared.cancelled);
    }
  }

  /** A started manager without an offset connects again although something has been logged. */
  ghost predicate BlindAt(s: State, step: Step, i: nat) {
    && step == Manage(i, Connect) && i < |s.managers| && i < |s.logs|
    && s.managers[i].start.Some? && s.managers[i].last == -1 && |s.logs[i]| > 0
  }

  ghost predicate Blind(states: seq<State>, steps: seq<Step>, i: nat, n: nat)
    requires n <= |steps| && n <= |states|
  {
    n > 0 && (Blind(states, steps, i, n - 1) || BlindAt(states[n - 1], steps[n - 1], i))
  }

  /** The dummy batch that would make the manager skip is due. */
  ghost predicate SkipDue(m: Manager) {
    m.start.Some? && m.phase.Streaming? && m.phase.dummy.Some? && m.phase.dummy.value >= 0
  }

  lemma StepMakesDue(s: State, step: Step, i: nat)
    requires Inv(s) && Enabled(s, step) && i < |s.managers|
    ensures i < |Next(s, step).managers|
    ensures SkipDue(Next(s, step).managers[i]) ==> SkipDue(s.managers[i]) || BlindAt(s, step, i)
    ensures SkipsAt(s, step, i) ==> SkipDue(s.managers[i])
  {
    hide ManagerInv, Moved, Effect, Acted, MoveEnabled, ActionEnabled, SkipDue, Skips;
    if step.Manage? && step.i == i {
      MoveMakesDue(s.managers[i], s.logs[i], s.shared, i, step.move);
    }
  }

  lemma MoveMakesDue(m: Manager, log: seq<Batch>, sh: Shared, i: nat, move: Move)
    requires MoveEnabled(m, log, sh, i, move)
    ensures SkipDue(Moved(m, log, sh, i, move)) ==>
              SkipDue(m) || (move.Connect? && m.start.Some? && m.last < 0 && |log| > 0)
    ensures Skips(m, move) ==> SkipDue(m)
    ensures ManagerInv(m, log, sh.cancelled) ==> m.last >= -1
  {
    hide IterationOrder, Converted, NextBatch;
  }

  lemma {:induction false} SkippedOnlyBlind(states: seq<State>, steps: seq<Step>, n: nat, i: nat)
    requires Run(states, steps) && n < |states| && i < |states[0].managers|
    ensures i < |states[n].managers|
    ensures SkipDue(states[n].managers[i]) || Skipped(states, steps, i, n) ==> Blind(states, steps, i, n)
  {
    hide Next, Enabled, ManagerInv, SkipDue, SkipsAt, BlindAt;
    if n == 0 {
      NewIsNotDue();
    } else {
      SkippedOnlyBlind(states, steps, n - 1, i);
      RunKeepsInv(states, steps, n - 1);
      StepMakesDue(states[n - 1], steps[n - 1], i);
    }
  }

  lemma NewIsNotDue()
    ensures !SkipDue(NEW_MANAGER)
  {
  }

  /** A manager that never reconnects blindly is exactly-once, whatever its initial offset. */
  lemma NotBlindIsExactlyOnce(states: seq<State>, steps: seq<Step>, n: nat, i: nat)
    requires Run(states, steps) && n < |states| && i < |states[0].managers| && !Blind(states, steps, i, n)
    ensures i < |states[n].managers| && i < |states[n].logs|
    ensures ExactlyOnce(states[n].managers[i], states[n].logs[i], states[n].shared.cancelled)
  {
    hide Run, Blind, Skipped;
    SkippedOnlyBlind(states, steps, n, i);
    ExactlyOnceIffNotSkipped(states, steps, n, i);
  }

  // ---------- An empty shard is the exception ----------

  ghost predicate Reachable(s: State) {
    exists states: seq<State>, steps: seq<Step> :: Run(states, steps) && s in states
  }

  ghost predicate ExactlyOnceFrom(c: int) {
    forall s: State, i: nat {:trigger Reachable(s), s.managers[i]} ::
      Reachable(s) && i < |s.managers| && i < |s.logs| && s.managers[i].start == Some(c) ==>
        ExactlyOnce(s.managers[i], s.logs[i], s.shared.cancelled)
  }

  /**
   Every run that starts at offset `c` delivers exactly once if and only if `c` is not negative. The initial
   offset is -1 when the shard's log is empty; a manager that then reconnects before its first batch asks
   again for a dummy batch, and skips everything written in between.
   */
  lemma ExactlyOnceIff(c: int)
    requires c >= -1
    ensures ExactlyOnceFrom(c) <==> c >= 0
  {
    hide Run, ExactlyOnce;
    if c >= 0 {
      forall s: State, i: nat | Reachable(s) && i < |s.managers| && i < |s.logs| && s.managers[i].start == Some(c)
        ensures ExactlyOnce(s.managers[i], s.logs[i], s.shared.cancelled)
      {
        var states: seq<State>, steps: seq<Step> :| Run(states, steps) && s in states;
        var n :| 0 <= n < |states| && states[n] == s;
        ResumeIsExactlyOnce(states, steps, n, i);
      }
    } else {
      SkippingRun();
      var s := SkippingStates()[9];
      assert Reachable(s) && s.managers[0].start == Some(c);
    }
  }

  const SKIPPED: Batch := map[[] := Entry(KeyCreated, None)]

  function SharedAtFirst(): Shared {
    var init := Barrier.State([Barrier.Pending], [], 0, [], None, []);
    Shared(false, Reports(init, false), EMPTY_QUEUE, 0, false, Open)
  }

  function SkippingSteps(): seq<Step> {
    [Manage(0, Connect), Manage(0, Receive([])), Manage(0, Break("EOF")), Manage(0, Check), Manage(0, Notify),
     Manage(0, Wake), Append(0, SKIPPED), Manage(0, Connect), Manage(0, Receive([]))]
  }

  function SkippingStates(): (states: seq<State>)
    ensures |states| == 10
  {
    var m := Manager(Idle, -1, true, Some(-1), [], false);
    var sh0 := SharedAtFirst();
    var sh := sh0.(reports := Report(sh0.reports, 0, None));
    [Alone(NEW_MANAGER, [], sh0),
     Alone(NEW_MANAGER.(phase := Streaming(Some(-1), 0)), [], sh0),
     Alone(m.(phase := Streaming(None, 0)), [], sh),
     Alone(m.(phase := Failed("EOF")), [], sh),
     Alone(m.(phase := Notifying("EOF")), [], sh),
     Alone(m.(phase := Sleeping), [], sh),
     Alone(m, [], sh),
     Alone(m, [SKIPPED], sh),
     Alone(m.(phase := Streaming(Some(0), 1)), [SKIPPED], sh),
     Alone(m.(phase := Streaming(None, 1), last := 0), [SKIPPED], sh)]
  }

  /** The stream of an empty shard breaks, a batch is logged, and the manager goes on behind it without pushing it. */
  lemma SkippingRun()
    ensures Run(SkippingStates(), SkippingSteps())
    ensures var last := SkippingStates()[9];
            && last.managers[0].start == Some(-1) && last.managers[0].chunks == [] && last.managers[0].last == 0
            && !ExactlyOnce(last.managers[0], last.logs[0], last.shared.cancelled)
  {
    hide Next, Enabled;
    var states, steps := SkippingStates(), SkippingSteps();
    SkippingFirst();
    SkippingRetry();
    SkippingAgain();
    forall n | 0 <= n < |steps| ensures Enabled(states[n], steps[n]) && states[n + 1] == Next(states[n], steps[n]) {
      assert Follows(states, steps, n);
    }
  }

  lemma SkippingFirst()
    ensures forall n :: 0 <= n < 3 ==> Follows(SkippingStates(), SkippingSteps(), n)
  {
  }

  lemma SkippingRetry()
    ensures forall n :: 3 <= n < 6 ==> Follows(SkippingStates(), SkippingSteps(), n)
  {
  }

  lemma SkippingAgain()
    ensures forall n :: 6 <= n < 9 ==> Follows(SkippingStates(), SkippingSteps(), n)
  {
    var s6 := SkippingStates()[6];
    assert s6.logs[0] + [SKIPPED] == [SKIPPED];
  }
}

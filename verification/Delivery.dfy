/**
 What the user reads: for each shard the notifications its manager pushed, in that order and none repeated. None
 is missing until `Close` starts to throw away what is left in the channel.
 */
module Delivery {
  import opened Prelude
  import opened Subscription
  import Barrier
  import Resume
  import Lifecycle

  /** The notifications of shard `i` among `xs`. */
  function OfShard(xs: seq<Sent>, i: nat): seq<Notification> {
    if xs == [] then []
    else
      var last := xs[|xs| - 1];
      OfShard(xs[..|xs| - 1], i) + if last.shard == i then [last.n] else []
  }

  function Flatten(chunks: seq<seq<Notification>>): seq<Notification> {
    if chunks == [] then [] else Flatten(chunks[..|chunks| - 1]) + chunks[|chunks| - 1]
  }

  lemma OfShardOne(xs: seq<Sent>, x: Sent, i: nat)
    ensures OfShard(xs + [x], i) == OfShard(xs, i) + if x.shard == i then [x.n] else []
  {
  }

  lemma {:induction false} OfShardPrefix(xs: seq<Sent>, ys: seq<Sent>, i: nat)
    ensures OfShard(xs, i) <= OfShard(xs + ys, i)
    decreases |ys|
  {
    if ys == [] {
      assert xs + ys == xs;
    } else {
      var init, y := ys[..|ys| - 1], ys[|ys| - 1];
      OfShardPrefix(xs, init, i);
      assert xs + ys == (xs + init) + [y];
      OfShardOne(xs + init, y, i);
    }
  }

  lemma FlattenNew(chunks: seq<seq<Notification>>)
    ensures Flatten(chunks + [[]]) == Flatten(chunks)
  {
  }

  lemma FlattenGrow(chunks: seq<seq<Notification>>, x: Notification)
    requires chunks != []
    ensures var n := |chunks| - 1; Flatten(chunks[n := chunks[n] + [x]]) == Flatten(chunks) + [x]
  {
  }

  /** `a` is `b` with some elements left out. */
  ghost predicate Subsequence<T>(a: seq<T>, b: seq<T>)
    decreases |b|
  {
    if b == [] then a == []
    else
      var n := |b| - 1;
      || (a != [] && a[|a| - 1] == b[n] && Subsequence(a[..|a| - 1], b[..n]))
      || Subsequence(a, b[..n])
  }

  lemma SubsequenceOne<T>(a: seq<T>, b: seq<T>, x: T)
    requires Subsequence(a, b)
    ensures Subsequence(a + [x], b + [x]) && Subsequence(a, b + [x])
  {
    assert (a + [x])[..|a|] == a && (b + [x])[..|b|] == b;
  }

  lemma {:induction false} SubsequenceOfMore<T>(a: seq<T>, b: seq<T>, c: seq<T>)
    requires Subsequence(a, b) && b <= c
    ensures Subsequence(a, c)
    decreases |c|
  {
    if |b| < |c| {
      SubsequenceOfMore(a, b, c[..|c| - 1]);
    } else {
      assert b == c;
    }
  }

  lemma {:induction false} SubsequenceOfShard(a: seq<Sent>, b: seq<Sent>, i: nat)
    requires Subsequence(a, b)
    ensures Subsequence(OfShard(a, i), OfShard(b, i))
    decreases |b|
  {
    if b != [] {
      var n := |b| - 1;
      var x := b[n];
      assert OfShard(b[..n], i) + [] == OfShard(b[..n], i) && OfShard(a, i) + [] == OfShard(a, i);
      if Subsequence(a, b[..n]) {
        SubsequenceOfShard(a, b[..n], i);
        if x.shard == i { SubsequenceOne(OfShard(a, i), OfShard(b[..n], i), x.n); }
      } else {
        SubsequenceOfShard(a[..|a| - 1], b[..n], i);
        assert OfShard(a[..|a| - 1], i) + [] == OfShard(a[..|a| - 1], i);
        if x.shard == i { SubsequenceOne(OfShard(a[..|a| - 1], i), OfShard(b[..n], i), x.n); }
      }
    }
  }

  /** What the user read of what was taken: all of it, as long as `Close` does not drain the channel. */
  ghost predicate ReadsOk(sh: Shared) {
    && Subsequence(sh.queue.read, sh.queue.taken)
    && (sh.closing.Open? || sh.closing.Waiting? ==> sh.queue.read == sh.queue.taken)
  }

  lemma TakeKeepsQueue(q: Queue)
    requires q.channel != []
    ensures Taken(q).taken + Taken(q).channel == q.taken + q.channel
    ensures Taken(q).taken == q.taken + [q.channel[0]] && Taken(q).sends == q.sends && Taken(q).read == q.read
  {
    assert q.channel == [q.channel[0]] + q.channel[1..];
  }

  lemma ActionKeepsReads(sh: Shared, act: Action)
    requires ReadsOk(sh) && ActionEnabled(sh, act)
    ensures ReadsOk(Acted(sh, act)) && Acted(sh, act).queue.sends == sh.queue.sends
    ensures Acted(sh, act).queue.taken + Acted(sh, act).queue.channel == sh.queue.taken + sh.queue.channel
  {
    hide Subsequence, Usable, Taken, Barrier.Next, Barrier.Enabled;
    if act.Read? || act.Drain? {
      TakeKeepsQueue(sh.queue);
      SubsequenceOne(sh.queue.read, sh.queue.taken, sh.queue.channel[0]);
    }
  }

  /** The channel is a queue, and for each shard holds what its manager pushed. */
  ghost predicate Inv(s: State) {
    && s.shared.queue.sends == s.shared.queue.taken + s.shared.queue.channel && ReadsOk(s.shared)
    && forall i :: 0 <= i < |s.managers| ==> OfShard(s.shared.queue.sends, i) == Flatten(s.managers[i].chunks)
  }

  lemma PushKeeps(s: State, i: nat)
    requires Inv(s) && Enabled(s, Manage(i, Push)) && !s.shared.queue.closed && s.managers[i].chunks != []
    ensures Inv(Next(s, Manage(i, Push)))
  {
    hide OfShard, Flatten, Subsequence;
    var m := s.managers[i];
    var x := Sent(i, m.phase.rest[0]);
    FlattenGrow(m.chunks, x.n);
    forall j | 0 <= j < |s.managers|
      ensures OfShard(s.shared.queue.sends + [x], j) == OfShard(s.shared.queue.sends, j) + if j == i then [x.n] else []
    {
      OfShardOne(s.shared.queue.sends, x, j);
    }
  }

  /** Every other move leaves the channel alone, and at most starts a new batch. */
  lemma QuietMove(m: Manager, log: seq<Batch>, sh: Shared, i: nat, move: Move)
    requires MoveEnabled(m, log, sh, i, move) && !move.Push?
    ensures var t := Effect(m, log, sh, i, move); t.queue == sh.queue && t.closing == sh.closing
    ensures Flatten(Moved(m, log, sh, i, move).chunks) == Flatten(m.chunks)
  {
    hide Flatten, IterationOrder, Converted, Report;
    FlattenNew(m.chunks);
  }

  lemma QuietStepKeeps(s: State, step: Step)
    requires Inv(s) && Enabled(s, step) && !(step.Manage? && step.move.Push?)
    ensures Inv(Next(s, step))
  {
    hide OfShard, Flatten, Moved, Effect, MoveEnabled, Acted, ActionEnabled, ReadsOk, Subsequence;
    if step.Manage? {
      QuietMove(s.managers[step.i], s.logs[step.i], s.shared, step.i, step.move);
      SameReads(s.shared, Next(s, step).shared);
    } else if step.Act? {
      ActionKeepsReads(s.shared, step.action);
    }
  }

  lemma SameReads(sh: Shared, t: Shared)
    requires ReadsOk(sh) && t.queue == sh.queue && t.closing == sh.closing
    ensures ReadsOk(t)
  {
  }

  lemma NothingYet(s: State)
    requires Init(s)
    ensures Inv(s)
  {
  }

  lemma PushHasChunk(m: Manager, log: seq<Batch>, cancelled: bool)
    requires Resume.ManagerInv(m, log, cancelled) && m.phase.Pushing?
    ensures m.chunks != []
  {
  }

  lemma {:induction false} RunKeepsInv(states: seq<State>, steps: seq<Step>, n: nat)
    requires Run(states, steps) && n < |states|
    ensures Inv(states[n])
  {
    hide OfShard, Flatten, Next, Resume.ManagerInv;
    if n == 0 {
      NothingYet(states[0]);
    } else {
      var s, step := states[n - 1], steps[n - 1];
      RunKeepsInv(states, steps, n - 1);
      if step.Manage? && step.move.Push? {
        Resume.RunKeepsInv(states, steps, n - 1);
        Lifecycle.ClosedOnceAndLast(states, steps, n);
        PushHasChunk(s.managers[step.i], s.logs[step.i], s.shared.cancelled);
        PushKeeps(s, step.i);
      } else {
        QuietStepKeeps(s, step);
      }
    }
  }

  /**
   In every run, what has been taken from the user's channel for a shard is a prefix of what its manager pushed.
   Until `Close` drains the channel the user has read all of that; from then on a subsequence of it. And from an
   initial offset that is not negative, what the manager pushed is the shard's log after it, exactly once.
   */
  lemma UserSeesLog(states: seq<State>, steps: seq<Step>, n: nat, i: nat)
    requires Run(states, steps) && n < |states| && i < |states[n].managers| && i < |states[n].logs|
    ensures var q, pushed := states[n].shared.queue, Flatten(states[n].managers[i].chunks);
            && OfShard(q.taken, i) <= pushed
            && (q.channel == [] ==> OfShard(q.taken, i) == pushed)
            && (states[n].shared.closing.Open? || states[n].shared.closing.Waiting? ==> q.read == q.taken)
            && Subsequence(OfShard(q.read, i), pushed)
    ensures states[n].managers[i].start.Some? && states[n].managers[i].start.value >= 0 ==>
              Resume.ExactlyOnce(states[n].managers[i], states[n].logs[i], states[n].shared.cancelled)
  {
    hide Run, Resume.ExactlyOnce, OfShard, Flatten, Subsequence;
    var s := states[n];
    var q := s.shared.queue;
    RunKeepsInv(states, steps, n);
    OfShardPrefix(q.taken, q.channel, i);
    assert q.taken + [] == q.taken;
    SubsequenceOfShard(q.read, q.taken, i);
    SubsequenceOfMore(OfShard(q.read, i), OfShard(q.taken, i), Flatten(s.managers[i].chunks));
    if s.managers[i].start.Some? && s.managers[i].start.value >= 0 {
      Resume.ResumeIsExactlyOnce(states, steps, n, i);
    }
  }

  // ---------- What a notification says ----------

  ghost predicate FromLog(n: Notification, log: seq<Batch>) {
    exists o :: 0 <= o < |log| && Tells(n, log[o])
  }

  ghost predicate AllFromLog(ns: seq<Notification>, log: seq<Batch>) {
    forall k :: 0 <= k < |ns| ==> FromLog(ns[k], log)
  }

  /** Everything sent, and everything about to be sent, tells what some batch of its shard's log says. */
  ghost predicate Truthful(s: State) {
    && Shaped(s)
    && (forall k :: 0 <= k < |s.shared.queue.sends| ==>
          var x := s.shared.queue.sends[k]; x.shard < |s.logs| && FromLog(x.n, s.logs[x.shard]))
    && (forall i :: 0 <= i < |s.managers| && s.managers[i].phase.Pushing? ==>
          AllFromLog(s.managers[i].phase.rest, s.logs[i]))
  }

  lemma ConvertedFromLog(keys: seq<Bytes>, log: seq<Batch>, o: nat)
    requires o < |log| && IterationOrder(keys, log[o])
    ensures AllFromLog(Converted(keys, log[o]), log)
  {
    hide Tells;
    ConvertedDelivers(keys, log[o]);
  }

  lemma LogGrows(log: seq<Batch>, b: Batch, n: Notification)
    requires FromLog(n, log)
    ensures FromLog(n, log + [b])
  {
    var o :| 0 <= o < |log| && Tells(n, log[o]);
    assert (log + [b])[o] == log[o];
  }

  lemma MoveIsTruthful(m: Manager, log: seq<Batch>, sh: Shared, i: nat, move: Move)
    requires MoveEnabled(m, log, sh, i, move) && (m.phase.Pushing? ==> AllFromLog(m.phase.rest, log))
    ensures var t := Moved(m, log, sh, i, move); t.phase.Pushing? ==> AllFromLog(t.phase.rest, log)
    ensures var q := Effect(m, log, sh, i, move).queue;
            || q.sends == sh.queue.sends
            || (exists n :: q.sends == sh.queue.sends + [Sent(i, n)] && FromLog(n, log))
  {
    hide FromLog, IterationOrder, Converted, Report;
    if move.Receive? && m.initialized && m.phase.dummy.None? {
      ConvertedFromLog(move.keys, log, m.phase.next);
    } else if move.Push? {
      assert FromLog(m.phase.rest[0], log);
    }
  }

  lemma StepIsTruthful(s: State, step: Step)
    requires Truthful(s) && Enabled(s, step)
    ensures Truthful(Next(s, step))
  {
    hide Moved, Effect, MoveEnabled, FromLog;
    match step
    case Append(i, batch) =>
      forall n | FromLog(n, s.logs[i]) ensures FromLog(n, s.logs[i] + [batch]) { LogGrows(s.logs[i], batch, n); }
    case Manage(i, move) =>
      MoveIsTruthful(s.managers[i], s.logs[i], s.shared, i, move);
      Resume.EffectOnContext(s.managers[i], s.logs[i], s.shared, i, move);
    case Act(action) =>
      Resume.ActionOnContext(s.shared, action);
  }

  lemma {:induction false} RunIsTruthful(states: seq<State>, steps: seq<Step>, n: nat)
    requires Run(states, steps) && n < |states|
    ensures Truthful(states[n])
  {
    hide Next, Enabled, FromLog;
    if n > 0 {
      RunIsTruthful(states, steps, n - 1);
      StepIsTruthful(states[n - 1], steps[n - 1]);
    }
  }

  lemma {:induction false} SubsequenceMember<T>(a: seq<T>, b: seq<T>, x: T)
    requires Subsequence(a, b) && x in a
    ensures x in b
    decreases |b|
  {
    if b != [] {
      var n := |b| - 1;
      if Subsequence(a, b[..n]) {
        SubsequenceMember(a, b[..n], x);
      } else if x != b[n] {
        SubsequenceMember(a[..|a| - 1], b[..n], x);
      }
    }
  }

  /**
   In every run, whatever the initial offset, each notification the user reads names a shard and a key of some batch
   of that shard's log, and tells that key's change there, and its version or -1 if it has none.
   */
  lemma UserReadsTheLog(states: seq<State>, steps: seq<Step>, n: nat, x: Sent)
    requires Run(states, steps) && n < |states| && x in states[n].shared.queue.read
    ensures x.shard < |states[n].logs|
    ensures var log := states[n].logs[x.shard]; exists o :: 0 <= o < |log| && Tells(x.n, log[o])
  {
    hide Run, Subsequence;
    RunIsTruthful(states, steps, n);
    RunKeepsInv(states, steps, n);
    var q := states[n].shared.queue;
    SubsequenceMember(q.read, q.taken, x);
    assert x in q.sends;
  }

  /** Batch `k` of those that were pushed lies in one piece in what was pushed. */
  lemma {:induction false} FlattenBlock(chunks: seq<seq<Notification>>, k: nat)
    requires k < |chunks|
    ensures var from, all := |Flatten(chunks[..k])|, Flatten(chunks);
            from + |chunks[k]| <= |all| && all[from..from + |chunks[k]|] == chunks[k]
    decreases |chunks|
  {
    var init := chunks[..|chunks| - 1];
    if k == |chunks| - 1 {
      assert Flatten(chunks) == Flatten(init) + chunks[k];
    } else {
      FlattenBlock(init, k);
      assert init[..k] == chunks[..k] && init[k] == chunks[k];
      assert Flatten(chunks) == Flatten(init) + chunks[|chunks| - 1];
    }
  }

  /**
   Once the user has read all there is, and before `Close` drains the channel, every batch of the shard's log after
   the initial offset and up to the manager's last one has been read in one piece: one notification for each of its
   keys and no other, each with that key's change and version.
   */
  lemma CompleteBatchIsRead(states: seq<State>, steps: seq<Step>, n: nat, i: nat, o: nat)
    requires Run(states, steps) && n < |states| && i < |states[n].managers| && i < |states[n].logs|
    requires var m := states[n].managers[i]; m.start.Some? && 0 <= m.start.value < o <= m.last
    requires states[n].shared.queue.channel == []
    requires states[n].shared.closing.Open? || states[n].shared.closing.Waiting?
    ensures o < |states[n].logs[i]|
    ensures var seen := OfShard(states[n].shared.queue.read, i);
            exists from, to :: 0 <= from <= to <= |seen| && Delivers(seen[from..to], states[n].logs[i][o])
  {
    hide Run, OfShard, Flatten, Subsequence, Delivers, DeliversPrefix;
    var m := states[n].managers[i];
    UserSeesLog(states, steps, n, i);
    var k := o - m.start.value - 1;
    FlattenBlock(m.chunks, k);
    assert Delivers(m.chunks[k], states[n].logs[i][o]);
  }
}

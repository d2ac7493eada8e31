/**
 What a stale entry does to `ReadModifyUpdate`: a refused put keeps the entry, so every retry hits it again
 and is refused again, until the entry is gone.
 */
module StaleUpdates {
  import opened Prelude
  import opened Cache
  import opened Atomicity

  /** The put of an update is accepted if and only if the record it read is the current one. */
  lemma AcceptedIffCurrent<V(!new)>(s: State<V>, c: nat)
    requires Inv(s) && c < |s.calls| && s.calls[c].kind.Update? && Writes(s.calls[c])
    ensures Accepted(s, s.calls[c]) <==> s.calls[c].phase.record == Current(s, s.calls[c].key)
  {
    hide Inv;
    if Accepted(s, s.calls[c]) {
      ReadIsCurrent(s, c);
    }
  }

  /** From state `a` to state `b` the cache keeps `r` under `k`, and `r` is not the server's record. */
  ghost predicate StaysStale<V(!new)>(states: seq<State<V>>, k: Key, r: Option<Record<V>>, a: nat, b: nat) {
    a <= b < |states| && forall n :: a <= n <= b ==> StaleAt(states[n], k, r)
  }

  ghost predicate StaleAt<V>(s: State<V>, k: Key, r: Option<Record<V>>) {
    k in s.cache && s.cache[k] == r && r != Current(s, k)
  }

  /** An update that has come no further than the entry `r`, or has ended without effect. */
  ghost predicate Refused<V>(call: Call<V>, k: Key, r: Option<Record<V>>) {
    && call.key == k && call.kind.Update?
    && (call.phase.Ready? || call.phase == Got(r) || call.phase == Answered(false, false) ||
        call.phase == Returned(false, false))
  }

  lemma StepKeepsRefused<V(!new)>(s: State<V>, step: Step<V>, c: nat, k: Key, r: Option<Record<V>>)
    requires Inv(s) && Enabled(s, step) && c < |s.calls| && Refused(s.calls[c], k, r) && StaleAt(s, k, r)
    ensures c < |Next(s, step).calls| && Refused(Next(s, step).calls[c], k, r)
    ensures Writer(s, step) != Some(c)
  {
    hide Inv, Next, Enabled, Writer, Refused, StaleAt;
    WriterIsCall(s, step);
    if CallOf(step) == Some(c) {
      OwnStepIsRefused(s, step, c, k, r);
    } else {
      OthersLeaveCall(s, step, c);
    }
  }

  lemma OwnStepIsRefused<V(!new)>(s: State<V>, step: Step<V>, c: nat, k: Key, r: Option<Record<V>>)
    requires Inv(s) && Enabled(s, step) && CallOf(step) == Some(c)
    requires c < |s.calls| && Refused(s.calls[c], k, r) && StaleAt(s, k, r)
    ensures c < |Next(s, step).calls| && Refused(Next(s, step).calls[c], k, r)
    ensures Writer(s, step) != Some(c)
  {
    hide Inv, Accepted, Apply, SetPhase, Current;
    if Writes(s.calls[c]) {
      AcceptedIffCurrent(s, c);
    }
  }

  /**
   While the entry of `k` stays and differs from the server's record, no update of `k` that works on it is
   ever accepted, however often it retries.
   */
  lemma {:induction false} StaleEntryRefusesUpdates<V(!new)>(
    states: seq<State<V>>, steps: seq<Step<V>>, k: Key, r: Option<Record<V>>, c: nat, a: nat, b: nat)
    requires Run(states, steps) && StaysStale(states, k, r, a, b)
    requires c < |states[a].calls| && Refused(states[a].calls[c], k, r)
    ensures c < |states[b].calls| && Refused(states[b].calls[c], k, r)
    ensures TimesTaken(states, steps, c, b) == TimesTaken(states, steps, c, a)
    decreases b
  {
    hide Inv, Next, Enabled, Writer, Refused, StaleAt;
    if a < b {
      StaleEntryRefusesUpdates(states, steps, k, r, c, a, b - 1);
      RunKeepsInv(states, steps, b - 1);
      assert StaleAt(states[b - 1], k, r);
      StepKeepsRefused(states[b - 1], steps[b - 1], c, k, r);
    }
  }
}

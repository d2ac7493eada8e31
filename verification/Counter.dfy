/** The use `ReadModifyUpdate` is made for: concurrent increments of one counter, none of them lost. */
module Counter {
  import opened Prelude
  import opened Cache
  import opened Atomicity

  function Increment(v: Option<int>): Option<int> {
    match v
    case None => Some(1)
    case Some(x) => Some(x + 1)
  }

  /** The counter under `k`; an absent record counts as zero. */
  function CounterAt(s: State<int>, k: Key): int {
    match ValueOf(Current(s, k))
    case None => 0
    case Some(x) => x
  }

  ghost predicate CountsOnly(kind: Kind<int>) {
    kind.Get? || (kind.Update? && kind.change == Increment)
  }

  /** Nothing but increments and reads is ever done to `k`. */
  ghost predicate OnlyIncrements(steps: seq<Step<int>>, k: Key) {
    forall n :: 0 <= n < |steps| ==> Harmless(steps[n], k)
  }

  ghost predicate Harmless(step: Step<int>, k: Key) {
    match step
    case Invoke(key, kind) => key == k ==> CountsOnly(kind)
    case OtherPut(key, _) => key != k
    case OtherDelete(key) => key != k
    case _ => true
  }

  ghost predicate CountersOnly(s: State<int>, k: Key) {
    forall c :: 0 <= c < |s.calls| && s.calls[c].key == k ==> CountsOnly(s.calls[c].kind)
  }

  /** How many of the first `n` calls are on `k` and satisfy `p`. */
  function CountIf(calls: seq<Call<int>>, k: Key, p: Call<int> -> bool, n: nat): nat
    requires n <= |calls|
  {
    if n == 0 then 0
    else CountIf(calls, k, p, n - 1) + if calls[n - 1].key == k && p(calls[n - 1]) then 1 else 0
  }

  lemma {:induction false} CountGrows(a: seq<Call<int>>, b: seq<Call<int>>, k: Key, w: Option<nat>, n: nat)
    requires |a| <= |b| && n <= |b| && (w.Some? ==> w.value < |a| && !Applied(a[w.value]))
    requires forall c :: 0 <= c < |a| ==> b[c].key == a[c].key
    requires forall c :: 0 <= c < |b| ==> (Applied(b[c]) <==> (c < |a| && Applied(a[c])) || w == Some(c))
    ensures CountIf(b, k, Applied, n) == CountIf(a, k, Applied, if n < |a| then n else |a|) +
                                         if w.Some? && w.value < n && a[w.value].key == k then 1 else 0
  {
    hide Applied;
    if n > 0 { CountGrows(a, b, k, w, n - 1); }
  }

  /** One step raises the counter exactly when it takes an increment. */
  lemma StepCounts(s: State<int>, step: Step<int>, k: Key)
    requires Inv(s) && Enabled(s, step) && CountersOnly(s, k) && Harmless(step, k)
    ensures var w := Writer(s, step);
            CounterAt(Next(s, step), k) == CounterAt(s, k) + if w.Some? && s.calls[w.value].key == k then 1 else 0
  {
    hide Inv, Next, Enabled, Values, Accepted;
    StepIsAtomic(s, step);
    LookupIsCurrent(s, k);
    LookupIsCurrent(Next(s, step), k);
  }

  lemma StepKeepsCountersOnly(s: State<int>, step: Step<int>, k: Key)
    requires Enabled(s, step) && CountersOnly(s, k) && Harmless(step, k)
    ensures CountersOnly(Next(s, step), k)
  {
    hide Next, Enabled, CountsOnly;
    forall c | 0 <= c < |Next(s, step).calls| && Next(s, step).calls[c].key == k
      ensures CountsOnly(Next(s, step).calls[c].kind)
    {
      StepOfCall(s, step, c);
      if c >= |s.calls| {
        NewCall(s, step, c);
      }
    }
  }

  lemma StepCountsCalls(s: State<int>, step: Step<int>, k: Key)
    requires Enabled(s, step)
    ensures var w, calls := Writer(s, step), Next(s, step).calls;
            CountIf(calls, k, Applied, |calls|) ==
            CountIf(s.calls, k, Applied, |s.calls|) + if w.Some? && s.calls[w.value].key == k then 1 else 0
  {
    hide Next, Enabled, Writer, Applied, CountIf;
    var t := Next(s, step);
    CallsGrow(s, step);
    forall c | 0 <= c < |t.calls|
      ensures c < |s.calls| ==> t.calls[c].key == s.calls[c].key
      ensures Applied(t.calls[c]) <==> (c < |s.calls| && Applied(s.calls[c])) || Writer(s, step) == Some(c)
      ensures c < |s.calls| && Writer(s, step) == Some(c) ==> !Applied(s.calls[c])
    {
      StepOfCall(s, step, c);
    }
    CountGrows(s.calls, t.calls, k, Writer(s, step), |t.calls|);
  }

  /** The counter is its initial value plus the increments the server took, in every run. */
  lemma {:induction false} CounterIsExact(states: seq<State<int>>, steps: seq<Step<int>>, k: Key, n: nat)
    requires Run(states, steps) && OnlyIncrements(steps, k) && n < |states|
    ensures CountersOnly(states[n], k)
    ensures CounterAt(states[n], k) ==
            CounterAt(states[0], k) + CountIf(states[n].calls, k, Applied, |states[n].calls|)
  {
    hide Inv, Next, Writer, Applied, Harmless, CounterAt, Enabled, CountsOnly;
    if n > 0 {
      CounterIsExact(states, steps, k, n - 1);
      RunKeepsInv(states, steps, n - 1);
      StepCounts(states[n - 1], steps[n - 1], k);
      StepCountsCalls(states[n - 1], steps[n - 1], k);
      StepKeepsCountersOnly(states[n - 1], steps[n - 1], k);
    }
  }

  // ---------- Counting successes ----------

  predicate Succeeded(call: Call<int>) {
    call.kind.Update? && call.phase.Returned? && call.phase.ok
  }

  /** No answer of the server to a call on `k` is lost. */
  ghost predicate NoneLost(states: seq<State<int>>, steps: seq<Step<int>>, k: Key) {
    |steps| <= |states| &&
    forall n :: 0 <= n < |steps| && steps[n].Lose? && steps[n].c < |states[n].calls| ==>
        states[n].calls[steps[n].c].key != k
  }

  predicate OkIfApplied(call: Call<int>) {
    Applied(call) ==> call.phase.ok
  }

  ghost predicate AppliedAreOk(s: State<int>, k: Key) {
    forall c :: 0 <= c < |s.calls| && s.calls[c].key == k ==> OkIfApplied(s.calls[c])
  }

  lemma StepKeepsAppliedOk(s: State<int>, step: Step<int>, k: Key)
    requires Enabled(s, step) && AppliedAreOk(s, k)
    requires step.Lose? && step.c < |s.calls| ==> s.calls[step.c].key != k
    ensures AppliedAreOk(Next(s, step), k)
  {
    hide Next, Enabled, OkIfApplied, Writer;
    var t := Next(s, step);
    forall c | 0 <= c < |t.calls| && t.calls[c].key == k ensures OkIfApplied(t.calls[c]) {
      StepOfCall(s, step, c);
      if c >= |s.calls| {
        NewCall(s, step, c);
        ReadyIsOk(t.calls[c]);
      } else if CallOf(step) == Some(c) {
        OwnStepIsOk(s, step, c);
      } else {
        OthersLeaveCall(s, step, c);
      }
    }
  }

  lemma ReadyIsOk(call: Call<int>)
    requires call.phase.Ready?
    ensures OkIfApplied(call)
  {
  }

  lemma OwnStepIsOk(s: State<int>, step: Step<int>, c: nat)
    requires Enabled(s, step) && CallOf(step) == Some(c) && c < |s.calls| && !step.Lose? && OkIfApplied(s.calls[c])
    ensures c < |Next(s, step).calls| && OkIfApplied(Next(s, step).calls[c])
  {
    hide Accepted, Apply, SetPhase, Current;
  }

  lemma {:induction false} RunKeepsAppliedOk(states: seq<State<int>>, steps: seq<Step<int>>, k: Key, n: nat)
    requires Run(states, steps) && NoneLost(states, steps, k) && n < |states|
    ensures AppliedAreOk(states[n], k)
  {
    hide Next, Enabled, Applied;
    if n > 0 {
      RunKeepsAppliedOk(states, steps, k, n - 1);
      StepKeepsAppliedOk(states[n - 1], steps[n - 1], k);
    }
  }

  lemma {:induction false} SameCount(calls: seq<Call<int>>, k: Key, n: nat)
    requires n <= |calls| && forall c :: 0 <= c < n && calls[c].key == k ==> (Applied(calls[c]) <==> Succeeded(calls[c]))
    ensures CountIf(calls, k, Applied, n) == CountIf(calls, k, Succeeded, n)
  {
    hide Applied, Succeeded;
    if n > 0 { SameCount(calls, k, n - 1); }
  }

  /** Once every call on `k` has returned, and no answer was lost, N successes have raised the counter by exactly N. */
  lemma SuccessesAddUp(states: seq<State<int>>, steps: seq<Step<int>>, k: Key, n: nat)
    requires Run(states, steps) && OnlyIncrements(steps, k) && NoneLost(states, steps, k) && n < |states|
    requires forall c :: 0 <= c < |states[n].calls| && states[n].calls[c].key == k ==> states[n].calls[c].phase.Returned?
    ensures CounterAt(states[n], k) ==
            CounterAt(states[0], k) + CountIf(states[n].calls, k, Succeeded, |states[n].calls|)
  {
    hide Next, Enabled, CounterAt, CountIf, Run, OnlyIncrements, NoneLost;
    var calls := states[n].calls;
    CounterIsExact(states, steps, k, n);
    RunKeepsAppliedOk(states, steps, k, n);
    RunKeepsHonest(states, steps, n);
    RunKeepsReadsPure(states, steps, n);
    forall c | 0 <= c < |calls| && calls[c].key == k ensures Applied(calls[c]) <==> Succeeded(calls[c]) {
      assert OkIfApplied(calls[c]) && HonestCall(calls[c]) && ReadIsPure(calls[c]) && CountsOnly(calls[c].kind);
    }
    SameCount(calls, k, |calls|);
  }

  /** A `Get` is never applied. */
  predicate ReadIsPure(call: Call<int>) {
    call.kind.Get? ==> !Applied(call)
  }

  lemma StepKeepsReadsPure(s: State<int>, step: Step<int>)
    requires Enabled(s, step) && forall c :: 0 <= c < |s.calls| ==> ReadIsPure(s.calls[c])
    ensures forall c :: 0 <= c < |Next(s, step).calls| ==> ReadIsPure(Next(s, step).calls[c])
  {
    hide Next, Enabled, Writer, Applied;
    forall c | 0 <= c < |Next(s, step).calls| ensures ReadIsPure(Next(s, step).calls[c]) {
      StepOfCall(s, step, c);
      if c >= |s.calls| {
        NewCall(s, step, c);
        ReadyIsNotApplied(Next(s, step).calls[c]);
      } else {
        assert ReadIsPure(s.calls[c]);
        WriterWrites(s, step);
      }
    }
  }

  lemma WriterWrites(s: State<int>, step: Step<int>)
    requires Enabled(s, step)
    ensures Writer(s, step).Some? ==> !s.calls[Writer(s, step).value].kind.Get?
  {
    hide Accepted, Enabled;
  }

  lemma {:induction false} RunKeepsReadsPure(states: seq<State<int>>, steps: seq<Step<int>>, n: nat)
    requires Run(states, steps) && n < |states|
    ensures forall c :: 0 <= c < |states[n].calls| ==> ReadIsPure(states[n].calls[c])
  {
    hide Next, Enabled, ReadIsPure;
    if n > 0 {
      RunKeepsReadsPure(states, steps, n - 1);
      StepKeepsReadsPure(states[n - 1], steps[n - 1]);
    }
  }
}

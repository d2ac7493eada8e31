/**
 `ReadModifyUpdate` is atomic: whatever interleaves, the server evolves as if every update that it took
 had read, changed and written its record in a single step.
 */
module Atomicity {
  import opened Prelude
  import opened Cache

  // ---------- The atomic store ----------

  /** What a store without versions or caches does in one step. */
  datatype Op<!V> = Nothing | Change(key: Key, change: Modify<V>) | SetTo(key: Key, value: V) | Remove(key: Key)

  function Lookup<V>(store: map<Key, V>, k: Key): Option<V> {
    if k in store then Some(store[k]) else None
  }

  function Perform<V>(op: Op<V>, store: map<Key, V>): map<Key, V> {
    match op
    case Nothing => store
    case Change(k, change) => (match change(Lookup(store, k)) case Some(v) => store[k := v] case None => store)
    case SetTo(k, v) => store[k := v]
    case Remove(k) => store - {k}
  }

  function Replay<V>(store: map<Key, V>, ops: seq<Op<V>>): map<Key, V> {
    if ops == [] then store else Perform(ops[|ops| - 1], Replay(store, ops[..|ops| - 1]))
  }

  // ---------- What each step of the real system stands for ----------

  function Values<V>(s: State<V>): map<Key, V> {
    map k | k in s.server :: s.server[k].value
  }

  /** The call whose write the server takes in this step, if any. */
  function Writer<V>(s: State<V>, step: Step<V>): (c: Option<nat>)
    requires Enabled(s, step)
    ensures c.Some? ==> c.value < |s.calls| && Writes(s.calls[c.value]) && Accepted(s, s.calls[c.value])
  {
    match step
    case Submit(c) => if Accepted(s, s.calls[c]) then Some(c) else None
    case Lose(c, reached) => if reached && Accepted(s, s.calls[c]) then Some(c) else None
    case _ => None
  }

  function OpOfCall<V>(call: Call<V>): Op<V> {
    match call.kind
    case Get => Nothing
    case Update(change) => Change(call.key, change)
    case Put(value, _) => SetTo(call.key, value)
    case Delete(_) => Remove(call.key)
  }

  function OpOf<V>(s: State<V>, step: Step<V>): Op<V>
    requires Enabled(s, step)
  {
    if step.OtherPut? then SetTo(step.key, step.value)
    else if step.OtherDelete? then Remove(step.key)
    else var writer := Writer(s, step);
         if writer.Some? then OpOfCall(s.calls[writer.value]) else Nothing
  }

  /** The record an accepted update works on, from the cache or not, is the current one. */
  lemma ReadIsCurrent<V(!new)>(s: State<V>, c: nat)
    requires Inv(s) && c < |s.calls| && s.calls[c].kind.Update? && Writes(s.calls[c]) && Accepted(s, s.calls[c])
    ensures s.calls[c].phase.record == Current(s, s.calls[c].key)
  {
    var call := s.calls[c];
    assert Known(s, call.key, call.phase.record) && Known(s, call.key, Current(s, call.key));
  }

  lemma PutIsSet<V(!new)>(s: State<V>, k: Key, v: V)
    ensures Values(ServerPut(s, k, v)) == Values(s)[k := v]
  {
  }

  lemma DeleteIsRemove<V(!new)>(s: State<V>, k: Key)
    ensures Values(ServerDelete(s, k)) == Values(s) - {k}
  {
  }

  lemma LookupIsCurrent<V(!new)>(s: State<V>, k: Key)
    ensures Lookup(Values(s), k) == ValueOf(Current(s, k))
  {
  }

  lemma ApplyIsAtomic<V(!new)>(s: State<V>, c: nat)
    requires Inv(s) && c < |s.calls| && Writes(s.calls[c]) && Accepted(s, s.calls[c])
    ensures Values(Apply(s, s.calls[c])) == Perform(OpOfCall(s.calls[c]), Values(s))
  {
    hide Inv, Values, ServerPut, ServerDelete;
    var call := s.calls[c];
    match call.kind
    case Update(change) =>
      ReadIsCurrent(s, c);
      LookupIsCurrent(s, call.key);
      PutIsSet(s, call.key, change(ValueOf(call.phase.record)).value);
    case Put(value, _) => PutIsSet(s, call.key, value);
    case Delete(_) => DeleteIsRemove(s, call.key);
  }

  lemma SameServer<V(!new)>(s: State<V>, t: State<V>)
    requires s.server == t.server
    ensures Values(s) == Values(t)
  {
  }

  /** Every step of the system is one atomic operation on the store, or none. */
  lemma StepIsAtomic<V(!new)>(s: State<V>, step: Step<V>)
    requires Inv(s) && Enabled(s, step)
    ensures Values(Next(s, step)) == Perform(OpOf(s, step), Values(s))
  {
    hide Inv, Values, ServerPut, ServerDelete, Writes, Accepted, Apply, OpOfCall, AfterGet, Rejected;
    if step.OtherPut? {
      PutIsSet(s, step.key, step.value);
    } else if step.OtherDelete? {
      DeleteIsRemove(s, step.key);
    } else if Writer(s, step).Some? {
      var c := Writer(s, step).value;
      ApplyIsAtomic(s, c);
      SameServer(Apply(s, s.calls[c]), Next(s, step));
    } else {
      SameServer(s, Next(s, step));
    }
  }

  function Ops<V>(states: seq<State<V>>, steps: seq<Step<V>>, n: nat): (ops: seq<Op<V>>)
    requires n <= |steps| <= |states| && forall j :: 0 <= j < n ==> Enabled(states[j], steps[j])
    ensures |ops| == n && forall j :: 0 <= j < n ==> ops[j] == OpOf(states[j], steps[j])
  {
    if n == 0 then [] else Ops(states, steps, n - 1) + [OpOf(states[n - 1], steps[n - 1])]
  }

  /** Every run is a sequential run of the atomic store. */
  lemma {:induction false} RunIsAtomic<V(!new)>(states: seq<State<V>>, steps: seq<Step<V>>, n: nat)
    requires Run(states, steps) && n < |states|
    ensures Values(states[n]) == Replay(Values(states[0]), Ops(states, steps, n))
  {
    hide Inv, Values, Next, OpOf, Perform;
    if n > 0 {
      RunIsAtomic(states, steps, n - 1);
      RunKeepsInv(states, steps, n - 1);
      StepIsAtomic(states[n - 1], steps[n - 1]);
      assert Ops(states, steps, n)[..n - 1] == Ops(states, steps, n - 1);
    }
  }

  // ---------- Each call takes effect at most once ----------

  predicate Applied<V>(call: Call<V>) {
    (call.phase.Answered? || call.phase.Returned?) && call.phase.applied
  }

  /** How often the server took a write of call `c` in the first `n` steps. */
  function TimesTaken<V>(states: seq<State<V>>, steps: seq<Step<V>>, c: nat, n: nat): nat
    requires n <= |steps| <= |states| && forall j :: 0 <= j < n ==> Enabled(states[j], steps[j])
  {
    if n == 0 then 0
    else TimesTaken(states, steps, c, n - 1) + if Writer(states[n - 1], steps[n - 1]) == Some(c) then 1 else 0
  }

  /** A call keeps its key and kind; it becomes applied in the step that takes its write and stays so. */
  lemma StepOfCall<V(!new)>(s: State<V>, step: Step<V>, c: nat)
    requires Enabled(s, step) && c < |Next(s, step).calls|
    ensures c < |s.calls| ==>
              Next(s, step).calls[c].key == s.calls[c].key && Next(s, step).calls[c].kind == s.calls[c].kind
    ensures c < |s.calls| && Writer(s, step) == Some(c) ==> !Applied(s.calls[c])
    ensures Applied(Next(s, step).calls[c]) <==> (c < |s.calls| && Applied(s.calls[c])) || Writer(s, step) == Some(c)
  {
    hide Next, Enabled, Writer, Applied;
    WriterIsCall(s, step);
    if c >= |s.calls| {
      NewCall(s, step, c);
      ReadyIsNotApplied(Next(s, step).calls[c]);
    } else if CallOf(step) == Some(c) {
      OwnStep(s, step, c);
    } else {
      OthersLeaveCall(s, step, c);
    }
  }

  lemma WriterIsCall<V(!new)>(s: State<V>, step: Step<V>)
    requires Enabled(s, step)
    ensures Writer(s, step).Some? ==> CallOf(step) == Writer(s, step)
  {
    hide Accepted, Writes;
  }

  lemma ReadyIsNotApplied<V(!new)>(call: Call<V>)
    requires call.phase.Ready?
    ensures !Applied(call)
  {
  }

  lemma OwnStep<V(!new)>(s: State<V>, step: Step<V>, c: nat)
    requires Enabled(s, step) && CallOf(step) == Some(c) && c < |s.calls|
    ensures var t := Next(s, step);
            && |t.calls| == |s.calls| && t.calls[c].key == s.calls[c].key && t.calls[c].kind == s.calls[c].kind
            && (Writer(s, step) == Some(c) ==> !Applied(s.calls[c]))
            && (Applied(t.calls[c]) <==> Applied(s.calls[c]) || Writer(s, step) == Some(c))
  {
    hide Accepted, Apply, SetPhase, Current;
  }

  lemma {:induction false} TakenIffApplied<V(!new)>(states: seq<State<V>>, steps: seq<Step<V>>, c: nat, n: nat)
    requires Run(states, steps) && n < |states|
    ensures TimesTaken(states, steps, c, n) == if c < |states[n].calls| && Applied(states[n].calls[c]) then 1 else 0
  {
    hide Inv, Next, Writer, Applied;
    if n > 0 {
      TakenIffApplied(states, steps, c, n - 1);
      if c < |states[n].calls| {
        StepOfCall(states[n - 1], steps[n - 1], c);
      } else {
        CallsGrow(states[n - 1], steps[n - 1]);
      }
    }
  }

  lemma CallsGrow<V(!new)>(s: State<V>, step: Step<V>)
    requires Enabled(s, step)
    ensures |Next(s, step).calls| >= |s.calls|
  {
    hide Next, Enabled;
    if |s.calls| > 0 {
      var last := |s.calls| - 1;
      if CallOf(step) == Some(last) {
        OwnStep(s, step, last);
      } else {
        OthersLeaveCall(s, step, last);
      }
    }
  }

  /** A call that reports success was applied, if it was to write at all; only calls that read load. */
  ghost predicate Honest<V>(s: State<V>) {
    forall c :: 0 <= c < |s.calls| ==> HonestCall(s.calls[c])
  }

  predicate HonestCall<V>(call: Call<V>) {
    && ((call.phase.Answered? || call.phase.Returned?) && call.phase.ok && !call.kind.Get? ==> call.phase.applied)
    && (call.phase.Missed? || call.phase.Loaded? ==> call.kind.Get? || call.kind.Update?)
  }

  lemma StepKeepsHonest<V(!new)>(s: State<V>, step: Step<V>)
    requires Honest(s) && Enabled(s, step)
    ensures Honest(Next(s, step))
  {
    hide Next, Enabled, HonestCall;
    forall c | 0 <= c < |Next(s, step).calls| ensures HonestCall(Next(s, step).calls[c]) {
      if c >= |s.calls| {
        NewCall(s, step, c);
        ReadyIsHonest(Next(s, step).calls[c]);
      } else if CallOf(step) == Some(c) {
        OwnStepIsHonest(s, step, c);
      } else {
        OthersLeaveCall(s, step, c);
      }
    }
  }

  lemma ReadyIsHonest<V(!new)>(call: Call<V>)
    requires call.phase.Ready?
    ensures HonestCall(call)
  {
  }

  lemma OwnStepIsHonest<V(!new)>(s: State<V>, step: Step<V>, c: nat)
    requires Enabled(s, step) && CallOf(step) == Some(c) && c < |s.calls| && HonestCall(s.calls[c])
    ensures |Next(s, step).calls| == |s.calls| && HonestCall(Next(s, step).calls[c])
  {
    hide Accepted, Apply, SetPhase, Current;
  }

  lemma {:induction false} RunKeepsHonest<V(!new)>(states: seq<State<V>>, steps: seq<Step<V>>, n: nat)
    requires Run(states, steps) && n < |states|
    ensures Honest(states[n])
  {
    hide Next, HonestCall;
    if n > 0 {
      RunKeepsHonest(states, steps, n - 1);
      StepKeepsHonest(states[n - 1], steps[n - 1]);
    }
  }

  /** Step `j` applies `change` to exactly the value that is current at that instant. */
  ghost predicate AppliesAt<V(!new)>(states: seq<State<V>>, steps: seq<Step<V>>, j: nat, c: nat, k: Key,
                                     change: Modify<V>)
    requires Run(states, steps)
  {
    && j < |steps| && Writer(states[j], steps[j]) == Some(c)
    && var now := ValueOf(Current(states[j], k));
       && change(now).Some?
       && Values(states[j + 1]) == Values(states[j])[k := change(now).value]
  }

  lemma TakenSomewhere<V(!new)>(states: seq<State<V>>, steps: seq<Step<V>>, c: nat, n: nat) returns (j: nat)
    requires Run(states, steps) && n < |states| && TimesTaken(states, steps, c, n) > 0
    ensures j < n && Writer(states[j], steps[j]) == Some(c)
  {
    hide Next, Writer;
    j := n - 1;
    while Writer(states[j], steps[j]) != Some(c)
      invariant j < n && TimesTaken(states, steps, c, j + 1) > 0
      decreases j
    {
      j := j - 1;
    }
  }

  lemma {:induction false} CallStays<V(!new)>(states: seq<State<V>>, steps: seq<Step<V>>, c: nat, j: nat, n: nat)
    requires Run(states, steps) && j <= n < |states| && c < |states[j].calls|
    ensures c < |states[n].calls|
    ensures states[n].calls[c].key == states[j].calls[c].key && states[n].calls[c].kind == states[j].calls[c].kind
    decreases n
  {
    hide Next, Writer;
    if j < n {
      CallStays(states, steps, c, j, n - 1);
      CallsGrow(states[n - 1], steps[n - 1]);
      StepOfCall(states[n - 1], steps[n - 1], c);
    }
  }

  /**
   Atomic read-modify-update: for every call that returned nil there is one step, and only one, at which
   its function was applied to the value current at that step and the result became the new value.
   */
  lemma UpdateIsAtomic<V(!new)>(states: seq<State<V>>, steps: seq<Step<V>>, n: nat, c: nat, change: Modify<V>)
    requires Run(states, steps) && n < |states| && c < |states[n].calls|
    requires states[n].calls[c].kind == Update(change) && states[n].calls[c].phase.Returned?
    requires states[n].calls[c].phase.ok
    ensures TimesTaken(states, steps, c, n) == 1
    ensures exists j :: 0 <= j < n && AppliesAt(states, steps, j, c, states[n].calls[c].key, change)
  {
    RunKeepsHonest(states, steps, n);
    assert HonestCall(states[n].calls[c]);
    TakenIffApplied(states, steps, c, n);
    var j := TakenSomewhere(states, steps, c, n);
    TakenIsAtomic(states, steps, c, j, n, change);
  }

  lemma TakenIsAtomic<V(!new)>(states: seq<State<V>>, steps: seq<Step<V>>, c: nat, j: nat, n: nat, change: Modify<V>)
    requires Run(states, steps) && j < n < |states| && c < |states[n].calls|
    requires states[n].calls[c].kind == Update(change) && Writer(states[j], steps[j]) == Some(c)
    ensures AppliesAt(states, steps, j, c, states[n].calls[c].key, change)
  {
    hide Next, Inv, Values, Writer;
    CallsGrow(states[j], steps[j]);
    CallStays(states, steps, c, j, n);
    RunKeepsInv(states, steps, j);
    StepIsAtomic(states[j], steps[j]);
    WriterChanges(states[j], steps[j], c, change);
    LookupIsCurrent(states[j], states[j].calls[c].key);
  }

  lemma WriterChanges<V(!new)>(s: State<V>, step: Step<V>, c: nat, change: Modify<V>)
    requires Inv(s) && Enabled(s, step) && Writer(s, step) == Some(c) && c < |s.calls|
    requires s.calls[c].kind == Update(change)
    ensures OpOf(s, step) == Change(s.calls[c].key, change)
    ensures change(ValueOf(Current(s, s.calls[c].key))).Some?
  {
  }
}

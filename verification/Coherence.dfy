/** How far the cache may lag behind the server. */
module Coherence {
  import opened Prelude
  import opened Cache

  /** The cache's entry for `k`, if there is one, is the server's record, or a notification for `k` is on its way. */
  ghost predicate Coherent<V>(s: State<V>, k: Key) {
    k in s.cache && s.cache[k] != Current(s, k) ==> k in s.undelivered
  }

  ghost predicate OutOfDate<V>(s: State<V>, call: Call<V>) {
    call.phase.Loaded? && call.phase.record != Current(s, call.key)
  }

  /** The same for records that were read but are not stored yet. */
  ghost predicate LoadsCoherent<V>(s: State<V>, k: Key) {
    forall c :: 0 <= c < |s.calls| && s.calls[c].key == k && OutOfDate(s, s.calls[c]) ==> k in s.undelivered
  }

  /** Some load of `k` has read a record that is no longer the server's. */
  ghost predicate Lagging<V>(s: State<V>, k: Key) {
    exists c :: 0 <= c < |s.calls| && s.calls[c].key == k && OutOfDate(s, s.calls[c])
  }

  /** Delivering the last notification for `k` now would overtake a load that still needs it. */
  ghost predicate Overtakes<V>(s: State<V>, k: Key) {
    s.undelivered[k] == 1 && Lagging(s, k)
  }

  ghost predicate NoOvertaking<V(!new)>(states: seq<State<V>>, steps: seq<Step<V>>, k: Key) {
    |steps| <= |states| && forall n :: 0 <= n < |steps| && steps[n] == Deliver(k) ==> !Overtakes(states[n], k)
  }

  ghost predicate Loading<V>(s: State<V>, k: Key) {
    exists c :: 0 <= c < |s.calls| && s.calls[c].key == k && s.calls[c].phase.Loaded?
  }

  /** In particular when nothing for `k` is delivered between the read of a load of `k` and its store. */
  ghost predicate NoDeliveryWhileLoading<V(!new)>(states: seq<State<V>>, steps: seq<Step<V>>, k: Key) {
    |steps| <= |states| &&
    forall n :: 0 <= n < |steps| && steps[n] == Deliver(k) ==> !Loading(states[n], k)
  }

  lemma PutTells<V(!new)>(s: State<V>, k: Key, v: V, j: Key)
    requires Coherent(s, j) && LoadsCoherent(s, j)
    ensures Coherent(ServerPut(s, k, v), j) && LoadsCoherent(ServerPut(s, k, v), j)
  {
  }

  lemma DeleteTells<V(!new)>(s: State<V>, k: Key, j: Key)
    requires Coherent(s, j) && LoadsCoherent(s, j)
    ensures Coherent(ServerDelete(s, k), j) && LoadsCoherent(ServerDelete(s, k), j)
  {
  }

  lemma ApplyTells<V(!new)>(s: State<V>, call: Call<V>, j: Key)
    requires Coherent(s, j) && LoadsCoherent(s, j) && Writes(call)
    ensures Coherent(Apply(s, call), j) && LoadsCoherent(Apply(s, call), j)
  {
  }

  /** A call moves on without a new load that is out of date. */
  lemma PhaseTells<V(!new)>(s: State<V>, c: nat, phase: Phase<V>, j: Key)
    requires Coherent(s, j) && LoadsCoherent(s, j) && c < |s.calls|
    requires phase.Loaded? ==> phase.record == Current(s, s.calls[c].key)
    ensures Coherent(SetPhase(s, c, phase), j) && LoadsCoherent(SetPhase(s, c, phase), j)
  {
  }

  lemma ForgetTells<V(!new)>(s: State<V>, k: Key, j: Key)
    requires Coherent(s, j) && LoadsCoherent(s, j)
    ensures Coherent(Forget(s, k), j) && LoadsCoherent(Forget(s, k), j)
  {
  }

  lemma StoreTells<V(!new)>(s: State<V>, c: nat, j: Key)
    requires Coherent(s, j) && LoadsCoherent(s, j) && c < |s.calls| && s.calls[c].phase.Loaded?
    ensures var t := s.(cache := s.cache[s.calls[c].key := s.calls[c].phase.record]);
            Coherent(t, j) && LoadsCoherent(t, j)
  {
  }

  lemma DeliverTells<V(!new)>(s: State<V>, k: Key, j: Key)
    requires Coherent(s, j) && LoadsCoherent(s, j) && k in s.undelivered && (k == j ==> !Overtakes(s, j))
    ensures var t := Forget(s.(undelivered := s.undelivered - multiset{k}), k);
            Coherent(t, j) && LoadsCoherent(t, j)
  {
  }

  lemma InvokeTells<V(!new)>(s: State<V>, call: Call<V>, j: Key)
    requires Coherent(s, j) && LoadsCoherent(s, j) && call.phase.Ready?
    ensures var t := s.(calls := s.calls + [call]); Coherent(t, j) && LoadsCoherent(t, j)
  {
  }

  lemma StepKeepsCoherent<V(!new)>(s: State<V>, step: Step<V>, j: Key)
    requires Coherent(s, j) && LoadsCoherent(s, j) && Enabled(s, step) && (step == Deliver(j) ==> !Overtakes(s, j))
    ensures Coherent(Next(s, step), j) && LoadsCoherent(Next(s, step), j)
  {
    hide Coherent, LoadsCoherent, Overtakes, Writes, Accepted, Apply, ServerPut, ServerDelete, SetPhase, Forget;
    match step
    case Invoke(k, kind) => InvokeTells(s, Call(k, kind, Ready), j);
    case Hit(c) => PhaseTells(s, c, AfterGet(s.calls[c], s.cache[s.calls[c].key]), j);
    case Miss(c) => PhaseTells(s, c, Missed, j);
    case Read(c) => PhaseTells(s, c, Loaded(Current(s, s.calls[c].key)), j);
    case Store(c) =>
      var record := s.calls[c].phase.record;
      StoreTells(s, c, j);
      PhaseTells(s.(cache := s.cache[s.calls[c].key := record]), c, AfterGet(s.calls[c], record), j);
    case Submit(c) =>
      ApplyTells(s, s.calls[c], j);
      if Accepted(s, s.calls[c]) { PhaseTells(Apply(s, s.calls[c]), c, Answered(true, true), j); }
      else { PhaseTells(s, c, Rejected(s.calls[c]), j); }
    case Lose(c, reached) =>
      ApplyTells(s, s.calls[c], j);
      if reached && Accepted(s, s.calls[c]) { PhaseTells(Apply(s, s.calls[c]), c, Answered(false, true), j); }
      else { PhaseTells(s, c, Answered(false, false), j); }
    case Invalidate(c) =>
      ForgetTells(s, s.calls[c].key, j);
      PhaseTells(Forget(s, s.calls[c].key), c, Returned(s.calls[c].phase.ok, s.calls[c].phase.applied), j);
    case GiveUp(c) => PhaseTells(s, c, Returned(false, false), j);
    case Deliver(k) => DeliverTells(s, k, j);
    case Evict(k) => ForgetTells(s, k, j);
    case OtherPut(k, v) => PutTells(s, k, v, j);
    case OtherDelete(k) => DeleteTells(s, k, j);
  }

  lemma {:induction false} RunIsCoherent<V(!new)>(states: seq<State<V>>, steps: seq<Step<V>>, k: Key, n: nat)
    requires Run(states, steps) && NoOvertaking(states, steps, k) && n < |states|
    ensures Coherent(states[n], k) && LoadsCoherent(states[n], k)
  {
    hide Next, Enabled, Overtakes;
    if n > 0 {
      RunIsCoherent(states, steps, k, n - 1);
      StepKeepsCoherent(states[n - 1], steps[n - 1], k);
    }
  }

  /** Once every notification for `k` has been delivered, a cache hit is the server's record. */
  lemma HitIsCurrent<V(!new)>(states: seq<State<V>>, steps: seq<Step<V>>, k: Key, n: nat)
    requires Run(states, steps) && NoOvertaking(states, steps, k) && n < |states|
    requires k !in states[n].undelivered && k in states[n].cache
    ensures states[n].cache[k] == Current(states[n], k)
  {
    RunIsCoherent(states, steps, k, n);
  }

  lemma NotLoadingIsEnough<V(!new)>(states: seq<State<V>>, steps: seq<Step<V>>, k: Key)
    requires NoDeliveryWhileLoading(states, steps, k)
    ensures NoOvertaking(states, steps, k)
  {
  }

  // ---------- The condition is exact ----------

  /** A delivery that overtakes a load leaves it out of date with nothing on its way, and storing it is then wrong. */
  lemma OvertakenLoadIsStale<V(!new)>(s: State<V>, k: Key)
    requires Overtakes(s, k)
    ensures Enabled(s, Deliver(k)) && !LoadsCoherent(Next(s, Deliver(k)), k)
    ensures exists c :: Enabled(Next(s, Deliver(k)), Store(c)) && !Coherent(Next(Next(s, Deliver(k)), Store(c)), k)
  {
    var t := Next(s, Deliver(k));
    assert k !in t.undelivered && t.calls == s.calls;
    var c :| 0 <= c < |s.calls| && s.calls[c].key == k && OutOfDate(s, s.calls[c]);
    assert OutOfDate(t, t.calls[c]);
    var u := Next(t, Store(c));
    assert u.cache[k] == s.calls[c].phase.record && Current(u, k) == Current(s, k);
  }

  /** A run keeps entries and loads coherent throughout if and only if no delivery overtakes a load. */
  lemma CoherentIffNoOvertaking<V(!new)>(states: seq<State<V>>, steps: seq<Step<V>>, k: Key)
    requires Run(states, steps)
    ensures NoOvertaking(states, steps, k) <==>
            forall n :: 0 <= n < |states| ==> Coherent(states[n], k) && LoadsCoherent(states[n], k)
  {
    hide Next, Enabled, Overtakes, Coherent, LoadsCoherent;
    if NoOvertaking(states, steps, k) {
      forall n | 0 <= n < |states| ensures Coherent(states[n], k) && LoadsCoherent(states[n], k) {
        RunIsCoherent(states, steps, k, n);
      }
    } else {
      var n :| 0 <= n < |steps| && steps[n] == Deliver(k) && Overtakes(states[n], k);
      OvertakenLoadIsStale(states[n], k);
      assert !LoadsCoherent(states[n + 1], k);
    }
  }

  /**
   Such runs exist: a load reads a record, another client replaces it, the notification finds nothing to
   delete, and then the load stores what it had read. No notification will remove this entry; only eviction,
   expiry or a later write of the key does.
   */
  lemma StaleEntryRun(k: Key, u: int, v: int)
    ensures Run(StaleStates(k, u, v), StaleSteps(k, v))
    ensures var last := StaleStates(k, u, v)[6];
            && !Coherent(last, k) && last.undelivered == multiset{}
            && last.cache == map[k := Some(Record(u, 0))] && Current(last, k) == Some(Record(v, 1))
  {
    hide Next, Enabled;
    StaleLoad(k, u, v);
    StaleStore(k, u, v);
  }

  function StaleSteps(k: Key, v: int): seq<Step<int>> {
    [Invoke(k, Get), Miss(0), Read(0), OtherPut(k, v), Deliver(k), Store(0)]
  }

  function StaleStates(k: Key, u: int, v: int): (states: seq<State<int>>)
    ensures |states| == 7
  {
    var load := Call(k, Get, Loaded(Some(Record(u, 0))));
    var s0: State<int> := State(map[k := Record(u, 0)], [Written(k, u)], multiset{}, map[], []);
    var s4 := State(map[k := Record(v, 1)], [Written(k, u), Written(k, v)], multiset{k}, map[], [load]);
    var s5 := s4.(undelivered := multiset{});
    [s0, s0.(calls := [Call(k, Get, Ready)]), s0.(calls := [Call(k, Get, Missed)]), s0.(calls := [load]), s4, s5,
     s5.(cache := map[k := Some(Record(u, 0))], calls := [load.(phase := Result(Some(Record(u, 0))))])]
  }

  lemma StaleLoad(k: Key, u: int, v: int)
    ensures var states, steps := StaleStates(k, u, v), StaleSteps(k, v);
            forall n :: 0 <= n < 3 ==> Enabled(states[n], steps[n]) && states[n + 1] == Next(states[n], steps[n])
  {
    hide Accepted, Apply, Writes;
  }

  lemma StaleStore(k: Key, u: int, v: int)
    ensures var states, steps := StaleStates(k, u, v), StaleSteps(k, v);
            forall n :: 3 <= n < 6 ==> Enabled(states[n], steps[n]) && states[n + 1] == Next(states[n], steps[n])
  {
    hide Accepted, Apply, Writes;
    var s3, s4, s5 := StaleStates(k, u, v)[3], StaleStates(k, u, v)[4], StaleStates(k, u, v)[5];
    assert Next(s3, OtherPut(k, v)) == s4;
    assert k in s4.undelivered && Next(s4, Deliver(k)) == s5;
  }
}

/** What a client reads of its own writes, and how old a record may be that the cache hands out. */
module OwnWrites {
  import opened Prelude
  import opened Cache

  /** `r` was what the server held under `k` in some state from `from` up to `n`. */
  ghost predicate CurrentSince<V(!new)>(states: seq<State<V>>, from: nat, n: nat, k: Key, r: Option<Record<V>>) {
    exists m :: from <= m <= n && m < |states| && Current(states[m], k) == r
  }

  lemma StillCurrentSince<V(!new)>(states: seq<State<V>>, from: nat, n: nat, k: Key, r: Option<Record<V>>)
    requires CurrentSince(states, from, n, k, r)
    ensures CurrentSince(states, from, n + 1, k, r)
  {
  }

  /** The entry of `k` in state `n`, if there is one, is not older than state `from`. */
  ghost predicate FreshEntry<V(!new)>(states: seq<State<V>>, from: nat, n: nat, k: Key) {
    n < |states| && (k in states[n].cache ==> CurrentSince(states, from, n, k, states[n].cache[k]))
  }

  /** Nor is any record of `k` that was read and is not stored yet. */
  ghost predicate FreshLoads<V(!new)>(states: seq<State<V>>, from: nat, n: nat, k: Key) {
    && n < |states|
    && forall c :: 0 <= c < |states[n].calls| && states[n].calls[c].key == k && states[n].calls[c].phase.Loaded? ==>
         CurrentSince(states, from, n, k, states[n].calls[c].phase.record)
  }

  /** Nor any record of `k` that a call works on or has returned. */
  ghost predicate FreshResults<V(!new)>(states: seq<State<V>>, from: nat, n: nat, k: Key) {
    && n < |states|
    && forall c :: 0 <= c < |states[n].calls| && states[n].calls[c].key == k && Holds(states[n].calls[c].phase) ==>
         CurrentSince(states, from, n, k, states[n].calls[c].phase.record)
  }

  // ---------- Where records come from ----------

  ghost predicate LoadedBy<V>(s: State<V>, c: nat, k: Key, r: Option<Record<V>>) {
    c < |s.calls| && s.calls[c].key == k && s.calls[c].phase == Loaded(r)
  }

  /** An entry was there before, or a load has just stored it. */
  lemma EntrySource<V(!new)>(s: State<V>, step: Step<V>, k: Key)
    requires Enabled(s, step) && k in Next(s, step).cache
    ensures var r := Next(s, step).cache[k];
            (k in s.cache && r == s.cache[k]) || (step.Store? && LoadedBy(s, step.c, k, r))
  {
    hide Accepted, Apply, SetPhase, ServerPut, ServerDelete, AfterGet, Rejected, Writes, Current;
  }

  /** A held record was held before, or has just been read from the server, or taken from the cache. */
  lemma RecordSource<V(!new)>(s: State<V>, step: Step<V>, c: nat)
    requires Enabled(s, step) && c < |Next(s, step).calls| && Holds(Next(s, step).calls[c].phase)
    ensures var call := Next(s, step).calls[c];
            || (c < |s.calls| && s.calls[c] == call)
            || (call.phase.Loaded? && call.phase.record == Current(s, call.key))
            || (!call.phase.Loaded? && call.key in s.cache && call.phase.record == s.cache[call.key])
            || (!call.phase.Loaded? && LoadedBy(s, c, call.key, call.phase.record))
  {
    hide Accepted, Apply, SetPhase, ServerPut, ServerDelete, Writes, Current, Forget;
    if c >= |s.calls| {
      NewCall(s, step, c);
    } else if CallOf(step) != Some(c) {
      OthersLeaveCall(s, step, c);
    }
  }

  /** The server's record of a key stays, or is removed, or is replaced by one with the next version. */
  lemma ServerStep<V(!new)>(s: State<V>, step: Step<V>, k: Key)
    requires Enabled(s, step)
    ensures var r := Current(Next(s, step), k);
            r == Current(s, k) || r.None? || r.value.version == |s.log|
    ensures |s.log| <= |Next(s, step).log|
  {
    hide SetPhase, Accepted, AfterGet, Rejected, Writes;
  }

  // ---------- Every record was current once ----------

  lemma StepStaysFresh<V(!new)>(states: seq<State<V>>, steps: seq<Step<V>>, from: nat, n: nat, k: Key)
    requires n < |steps| && from <= n && n + 1 < |states|
    requires Enabled(states[n], steps[n]) && states[n + 1] == Next(states[n], steps[n])
    requires FreshEntry(states, from, n, k) && FreshLoads(states, from, n, k)
    ensures FreshEntry(states, from, n + 1, k) && FreshLoads(states, from, n + 1, k)
    ensures FreshResults(states, from, n, k) ==> FreshResults(states, from, n + 1, k)
  {
    hide Next, Enabled, CurrentSince, Current;
    var s, t := states[n], states[n + 1];
    forall r | CurrentSince(states, from, n, k, r) ensures CurrentSince(states, from, n + 1, k, r) {
      StillCurrentSince(states, from, n, k, r);
    }
    IsCurrentSince(states, from, n, k);
    if k in t.cache {
      EntrySource(s, steps[n], k);
    }
    forall c | 0 <= c < |t.calls| && t.calls[c].key == k && t.calls[c].phase.Loaded?
      ensures CurrentSince(states, from, n + 1, k, t.calls[c].phase.record)
    {
      RecordSource(s, steps[n], c);
    }
    if FreshResults(states, from, n, k) {
      forall c | 0 <= c < |t.calls| && t.calls[c].key == k && Holds(t.calls[c].phase)
        ensures CurrentSince(states, from, n + 1, k, t.calls[c].phase.record)
      {
        RecordSource(s, steps[n], c);
      }
    }
  }

  lemma IsCurrentSince<V(!new)>(states: seq<State<V>>, from: nat, n: nat, k: Key)
    requires from <= n < |states|
    ensures CurrentSince(states, from, n, k, Current(states[n], k))
  {
  }

  /** In every run: an entry, a loaded record and what `Get` returns is what the server held at some time before. */
  lemma {:induction false} RecordsWereCurrent<V(!new)>(states: seq<State<V>>, steps: seq<Step<V>>, n: nat, k: Key)
    requires Run(states, steps) && n < |states|
    ensures FreshEntry(states, 0, n, k) && FreshLoads(states, 0, n, k) && FreshResults(states, 0, n, k)
  {
    hide Next, Enabled, CurrentSince;
    if n > 0 {
      RecordsWereCurrent(states, steps, n - 1, k);
      StepStaysFresh(states, steps, 0, n - 1, k);
    }
  }

  // ---------- After an invalidation ----------

  /** Step `m` stores a record of `k` that the server has not held since state `from`. */
  ghost predicate StoresOld<V(!new)>(states: seq<State<V>>, steps: seq<Step<V>>, from: nat, m: nat, k: Key) {
    && m < |steps| && m < |states| && steps[m].Store?
    && exists r :: LoadedBy(states[m], steps[m].c, k, r) && !CurrentSince(states, from, m, k, r)
  }

  /** No step from `i` on and before `n` does. */
  ghost predicate NoOldStore<V(!new)>(states: seq<State<V>>, steps: seq<Step<V>>, from: nat, i: nat, n: nat, k: Key) {
    forall m :: i <= m < n ==> !StoresOld(states, steps, from, m, k)
  }

  lemma EntryStaysFresh<V(!new)>(states: seq<State<V>>, steps: seq<Step<V>>, from: nat, m: nat, k: Key)
    requires m < |steps| && from <= m && m + 1 < |states|
    requires Enabled(states[m], steps[m]) && states[m + 1] == Next(states[m], steps[m])
    requires FreshEntry(states, from, m, k)
    ensures FreshEntry(states, from, m + 1, k) <==> !StoresOld(states, steps, from, m, k)
  {
    hide Next, Enabled, CurrentSince, Current;
    var s, t := states[m], states[m + 1];
    if k in t.cache {
      EntrySource(s, steps[m], k);
      StoreSource(s, steps[m], k);
      SameSince(states, steps, from, m, k, t.cache[k]);
    } else {
      StoreSource(s, steps[m], k);
    }
  }

  /** A store puts the loaded record in the cache and leaves the server alone. */
  lemma StoreSource<V(!new)>(s: State<V>, step: Step<V>, k: Key)
    requires Enabled(s, step)
    ensures step.Store? ==> Next(s, step).server == s.server
    ensures forall r :: step.Store? && LoadedBy(s, step.c, k, r) ==>
                          k in Next(s, step).cache && Next(s, step).cache[k] == r
  {
    hide Accepted, Apply;
  }

  /** A record that was current before still was; and a store makes none current. */
  lemma SameSince<V(!new)>(states: seq<State<V>>, steps: seq<Step<V>>, from: nat, m: nat, k: Key, r: Option<Record<V>>)
    requires m < |steps| && from <= m && m + 1 < |states|
    requires steps[m].Store? ==> states[m + 1].server == states[m].server
    ensures CurrentSince(states, from, m, k, r) ==> CurrentSince(states, from, m + 1, k, r)
    ensures steps[m].Store? && CurrentSince(states, from, m + 1, k, r) ==> CurrentSince(states, from, m, k, r)
  {
    if steps[m].Store? {
      assert Current(states[m + 1], k) == Current(states[m], k);
    }
  }

  /**
   The entry of `k` is gone in state `i`. Up to state `n` no entry of it is older than state `from` if and only if no
   load in between stores an older record.
   */
  lemma {:induction false} FreshIffNoOldStore<V(!new)>(states: seq<State<V>>, steps: seq<Step<V>>, from: nat, i: nat,
                                                       n: nat, k: Key)
    requires Run(states, steps) && from <= i <= n < |states| && k !in states[i].cache
    ensures (forall m :: i <= m <= n ==> FreshEntry(states, from, m, k)) <==> NoOldStore(states, steps, from, i, n, k)
    decreases n
  {
    hide Next, Enabled, CurrentSince, StoresOld;
    if n > i {
      FreshIffNoOldStore(states, steps, from, i, n - 1, k);
      if FreshEntry(states, from, n - 1, k) {
        EntryStaysFresh(states, steps, from, n - 1, k);
      }
    }
  }

  lemma {:induction false} StaysFresh<V(!new)>(states: seq<State<V>>, steps: seq<Step<V>>, from: nat, i: nat, n: nat,
                                               k: Key)
    requires Run(states, steps) && from <= i <= n < |states|
    requires k !in states[i].cache && FreshLoads(states, from, i, k)
    ensures FreshEntry(states, from, n, k) && FreshLoads(states, from, n, k)
    decreases n
  {
    hide Next, Enabled, CurrentSince;
    if n > i {
      StaysFresh(states, steps, from, i, n - 1, k);
      StepStaysFresh(states, steps, from, n - 1, k);
    }
  }

  /** However the run goes on, no entry of `k` is older than state `from`. */
  ghost predicate FreshForGood<V(!new)>(states: seq<State<V>>, steps: seq<Step<V>>, from: nat, k: Key) {
    forall states': seq<State<V>>, steps': seq<Step<V>>, n: nat
      {:trigger Run(states', steps'), FreshEntry(states', from, n, k)} ::
      Run(states', steps') && states <= states' && steps <= steps' && |steps| <= n < |states'| ==>
        FreshEntry(states', from, n, k)
  }

  /**
   A run has just removed the entry of `k`. From there on entries of `k` are never older than state `from` if and
   only if no load of `k` is under way that holds an older record.
   */
  lemma FreshIffNoOldLoad<V(!new)>(states: seq<State<V>>, steps: seq<Step<V>>, from: nat, k: Key)
    requires Run(states, steps) && from <= |steps| && k !in states[|steps|].cache
    ensures FreshForGood(states, steps, from, k) <==> FreshLoads(states, from, |steps|, k)
  {
    hide Next, Enabled, CurrentSince, Run, FreshEntry;
    RunShape(states, steps);
    var i := |steps|;
    if FreshLoads(states, from, i, k) {
      forall states': seq<State<V>>, steps': seq<Step<V>>, n: nat
        | Run(states', steps') && states <= states' && steps <= steps' && i <= n < |states'|
        ensures FreshEntry(states', from, n, k)
      {
        assert states'[i] == states[i];
        forall r ensures CurrentSince(states, from, i, k, r) ==> CurrentSince(states', from, i, k, r) {
          SamePast(states, states', from, i, k, r);
        }
        StaysFresh(states', steps', from, i, n, k);
      }
    } else {
      var c :| 0 <= c < |states[i].calls| && states[i].calls[c].key == k && states[i].calls[c].phase.Loaded?
               && !CurrentSince(states, from, i, k, states[i].calls[c].phase.record);
      OldLoadStores(states, steps, from, c);
      var t := Next(states[i], Store(c));
      assert !FreshEntry(states + [t], from, i + 1, k);
      assert states <= states + [t] && steps <= steps + [Store(c)];
    }
  }

  lemma RunShape<V(!new)>(states: seq<State<V>>, steps: seq<Step<V>>)
    requires Run(states, steps)
    ensures |states| == |steps| + 1
  {
  }

  lemma SamePast<V(!new)>(states: seq<State<V>>, longer: seq<State<V>>, from: nat, n: nat, k: Key, r: Option<Record<V>>)
    requires states <= longer && n < |states|
    ensures CurrentSince(states, from, n, k, r) <==> CurrentSince(longer, from, n, k, r)
  {
    assert forall m :: 0 <= m < |states| ==> states[m] == longer[m];
  }

  /** A load that holds an older record can store it now. */
  lemma OldLoadStores<V(!new)>(states: seq<State<V>>, steps: seq<Step<V>>, from: nat, c: nat)
    requires Run(states, steps) && |states| == |steps| + 1 && from <= |steps| && c < |states[|steps|].calls|
    requires states[|steps|].calls[c].phase.Loaded?
    requires var call := states[|steps|].calls[c]; !CurrentSince(states, from, |steps|, call.key, call.phase.record)
    ensures Enabled(states[|steps|], Store(c))
    ensures var i, t := |steps|, Next(states[|steps|], Store(c));
            && Run(states + [t], steps + [Store(c)]) && !FreshEntry(states + [t], from, i + 1, states[i].calls[c].key)
  {
    hide Run, CurrentSince;
    var i := |steps|;
    var s, call := states[i], states[i].calls[c];
    var t := Next(s, Store(c));
    RunExtends(states, steps, Store(c));
    assert t.cache[call.key] == call.phase.record && t.server == s.server;
    NotCurrentSince(states, t, from, i, call.key, call.phase.record);
  }

  lemma NotCurrentSince<V(!new)>(states: seq<State<V>>, t: State<V>, from: nat, i: nat, k: Key, r: Option<Record<V>>)
    requires |states| == i + 1 && from <= i && t.server == states[i].server && !CurrentSince(states, from, i, k, r)
    ensures !CurrentSince(states + [t], from, i + 1, k, r)
  {
    assert Current(t, k) == Current(states[i], k);
    assert forall m :: 0 <= m <= i ==> (states + [t])[m] == states[m];
  }

  // ---------- A client sees its own writes ----------

  /** Step `j` replaced or removed the server's record of `k`. */
  ghost predicate Changes<V(!new)>(states: seq<State<V>>, j: nat, k: Key) {
    j + 1 < |states| && Current(states[j + 1], k) != Current(states[j], k)
  }

  lemma {:induction false} VersionsMoveOn<V(!new)>(states: seq<State<V>>, steps: seq<Step<V>>, j: nat, m: nat, k: Key)
    requires Run(states, steps) && Changes(states, j, k) && j < m < |states|
    ensures Current(states[m], k).Some? ==> Current(states[m], k).value.version >= |states[j].log|
    ensures |states[j].log| <= |states[m].log|
    decreases m
  {
    hide Next, Enabled;
    ServerStep(states[m - 1], steps[m - 1], k);
    if m > j + 1 {
      VersionsMoveOn(states, steps, j, m - 1, k);
    }
  }

  /** A record that was replaced or removed never comes back. */
  lemma ReplacedForGood<V(!new)>(states: seq<State<V>>, steps: seq<Step<V>>, j: nat, n: nat, k: Key)
    requires Run(states, steps) && Changes(states, j, k) && n < |states| && Current(states[j], k).Some?
    ensures !CurrentSince(states, j + 1, n, k, Current(states[j], k))
  {
    hide Next, Enabled, Run;
    RunKeepsInv(states, steps, j);
    forall m | j + 1 <= m <= n ensures Current(states[m], k) != Current(states[j], k) {
      VersionsMoveOn(states, steps, j, m, k);
    }
  }

  /** Step `j` is the write of call `c`, which the server took. */
  ghost predicate WroteAt<V(!new)>(states: seq<State<V>>, steps: seq<Step<V>>, j: nat, c: nat) {
    && j < |steps| && j + 1 < |states| && Enabled(states[j], steps[j]) && c < |states[j].calls|
    && (steps[j] == Submit(c) || steps[j] == Lose(c, true))
    && Writes(states[j].calls[c]) && Accepted(states[j], states[j].calls[c])
  }

  /** A write that is taken changes the record: a put gives it a new version, a delete removes it. */
  lemma WriteChanges<V(!new)>(states: seq<State<V>>, steps: seq<Step<V>>, j: nat, c: nat)
    requires Run(states, steps) && WroteAt(states, steps, j, c)
    ensures Changes(states, j, states[j].calls[c].key)
  {
    hide Run, Next, SetPhase;
    RunKeepsInv(states, steps, j);
    RunStep(states, steps, j);
    WriteStep(states[j], steps[j], c);
    var k := states[j].calls[c].key;
    ApplyChanges(states[j], states[j].calls[c]);
    assert Current(states[j + 1], k) == Current(Apply(states[j], states[j].calls[c]), k);
  }

  lemma RunStep<V(!new)>(states: seq<State<V>>, steps: seq<Step<V>>, j: nat)
    requires Run(states, steps) && j < |steps|
    ensures j + 1 < |states| && Enabled(states[j], steps[j]) && states[j + 1] == Next(states[j], steps[j])
  {
  }

  lemma WriteStep<V(!new)>(s: State<V>, step: Step<V>, c: nat)
    requires Enabled(s, step) && c < |s.calls| && (step == Submit(c) || step == Lose(c, true))
    requires Writes(s.calls[c]) && Accepted(s, s.calls[c])
    ensures Next(s, step).server == Apply(s, s.calls[c]).server
  {
    hide Apply, Accepted;
  }

  lemma ApplyChanges<V(!new)>(s: State<V>, call: Call<V>)
    requires Inv(s) && Writes(call) && Accepted(s, call)
    ensures Current(Apply(s, call), call.key) != Current(s, call.key)
  {
  }

  /**
   A call wrote `k` in step `j` and has invalidated its entry in step `i`, in any run and with any steps of others in
   between. Unless a load that had read `k` before the write stores it after the invalidation, each later hit on `k`
   yields what the server held at some time since the write, and so never the record that was replaced or removed.
   */
  lemma OwnWriteIsSeen<V(!new)>(states: seq<State<V>>, steps: seq<Step<V>>, j: nat, i: nat, n: nat, c: nat, d: nat)
    requires Run(states, steps) && WroteAt(states, steps, j, c) && j < i < n < |steps| && steps[i] == Invalidate(c)
    requires NoOldStore(states, steps, j + 1, i + 1, n, states[j].calls[c].key)
    requires steps[n] == Hit(d) && d < |states[n].calls| && states[n].calls[d].key == states[j].calls[c].key
    ensures d < |states[n + 1].calls| && Holds(states[n + 1].calls[d].phase)
    ensures var k, r := states[j].calls[c].key, states[n + 1].calls[d].phase.record;
            && CurrentSince(states, j + 1, n, k, r)
            && (Current(states[j], k).Some? ==> r != Current(states[j], k))
  {
    hide Run, Next, Enabled, CurrentSince, NoOldStore, Changes, Current, Writes, Accepted;
    var k := states[j].calls[c].key;
    RunStep(states, steps, i);
    RunStep(states, steps, n);
    SameKey(states, steps, j, i, c);
    InvalidateForgets(states[i], c);
    FreshIffNoOldStore(states, steps, j + 1, i + 1, n, k);
    assert FreshEntry(states, j + 1, n, k);
    HitYields(states[n], d);
    WriteChanges(states, steps, j, c);
    if Current(states[j], k).Some? {
      ReplacedForGood(states, steps, j, n, k);
    }
  }

  lemma InvalidateForgets<V(!new)>(s: State<V>, c: nat)
    requires Enabled(s, Invalidate(c))
    ensures c < |s.calls| && s.calls[c].key !in Next(s, Invalidate(c)).cache
  {
  }

  lemma HitYields<V(!new)>(s: State<V>, d: nat)
    requires Enabled(s, Hit(d))
    ensures d < |s.calls| && s.calls[d].key in s.cache && d < |Next(s, Hit(d)).calls|
    ensures Holds(Next(s, Hit(d)).calls[d].phase) && Next(s, Hit(d)).calls[d].phase.record == s.cache[s.calls[d].key]
  {
    hide Accepted, Apply;
  }

  /** A call keeps its key. */
  lemma {:induction false} SameKey<V(!new)>(states: seq<State<V>>, steps: seq<Step<V>>, j: nat, i: nat, c: nat)
    requires Run(states, steps) && j <= i < |states| && c < |states[j].calls|
    ensures c < |states[i].calls| && states[i].calls[c].key == states[j].calls[c].key
    decreases i
  {
    hide Next, Enabled;
    if i > j {
      SameKey(states, steps, j, i - 1, c);
      StepKeepsKey(states[i - 1], steps[i - 1], c);
    }
  }

  lemma StepKeepsKey<V(!new)>(s: State<V>, step: Step<V>, c: nat)
    requires Enabled(s, step) && c < |s.calls|
    ensures c < |Next(s, step).calls| && Next(s, step).calls[c].key == s.calls[c].key
  {
    hide Accepted, Apply, SetPhase, ServerPut, ServerDelete, AfterGet, Rejected, Writes, Current, Forget;
  }
}

/**
 `ReadModifyUpdate` as it is written: a retry loop over the cache and the server, run in a world where
 others take steps whenever it is not looking.
 */
module CacheLoop {
  import opened Prelude
  import opened Cache
  import opened Atomicity

  /**
   What happens around one attempt of the loop: the steps others take before it looks, after a miss before it
   reads, before it stores what it loaded, before it puts and before it invalidates; what goes wrong in a load;
   and whether the answer to its put is lost (and if so, whether the request had reached the server).
   */
  datatype Attempt<!V> = Attempt(
    before: seq<Step<V>>, beforeRead: seq<Step<V>>, fault: Fault, beforeStore: seq<Step<V>>,
    beforePut: seq<Step<V>>, lost: Option<bool>, beforeDel: seq<Step<V>>
  )

  /**
   A load fails if the server's answer is an error other than not-found, or if the value cannot be decoded; absence
   needs no decoding.
   */
  datatype Fault = NoFault | ReadFails | DecodeFails

  class World<V(!new)> {
    var s: State<V>
    ghost var states: seq<State<V>>
    ghost var steps: seq<Step<V>>

    /** Any server in front of which an empty cache is put. */
    constructor (s: State<V>)
      requires Init(s)
      ensures Valid() && this.s == s && steps == []
    {
      this.s := s;
      states, steps := [s], [];
    }

    /** The world is at the end of a run. */
    ghost predicate Valid()
      reads this
    {
      Run(states, steps) && |states| == |steps| + 1 && states[|steps|] == s
    }

    ghost predicate At(c: nat, call: Call<V>)
      reads this
    {
      Valid() && c < |s.calls| && s.calls[c] == call
    }

    method Do(step: Step<V>)
      requires Valid() && Enabled(s, step)
      modifies this
      ensures Valid() && s == Next(old(s), step) && steps == old(steps) + [step] && states == old(states) + [s]
    {
      hide Run, Next, Enabled;
      RunExtends(states, steps, step);
      s := Next(s, step);
      states, steps := states + [s], steps + [step];
    }

    /** Everyone but call `c` takes these steps, as far as they are possible. */
    method Others(script: seq<Step<V>>, c: nat, ghost call: Call<V>)
      requires At(c, call)
      modifies this
      ensures At(c, call) && old(steps) <= steps && old(states) <= states
    {
      hide Run, Next, Enabled;
      for n := 0 to |script|
        invariant At(c, call) && old(steps) <= steps && old(states) <= states
      {
        if Enabled(s, script[n]) && CallOf(script[n]) != Some(c) {
          OthersLeaveCall(s, script[n], c);
          Do(script[n]);
        }
      }
    }

    method Begin(k: Key, kind: Kind<V>) returns (c: nat)
      requires Valid()
      modifies this
      ensures c == |old(s.calls)| && At(c, Call(k, kind, Ready))
      ensures old(steps) <= steps && old(states) <= states
    {
      hide Run;
      c := |s.calls|;
      Do(Invoke(k, kind));
    }

    /** The call returns an error without having sent anything. */
    method Abandon(c: nat, ghost call: Call<V>)
      requires At(c, call) && Trying(call.phase) && !Writes(call)
      modifies this
      ensures At(c, call.(phase := Returned(false, false))) && s.cache == old(s.cache)
      ensures old(steps) <= steps && old(states) <= states
    {
      hide Run;
      Do(GiveUp(c));
    }

    /**
     `Get`, on its own or in an update: the cached entry, or what a load reads and stores. A load that fails stores
     nothing and ends the call.
     */
    method Get(c: nat, k: Key, kind: Kind<V>, attempt: Attempt<V>) returns (failed: bool, record: Option<Record<V>>)
      requires At(c, Call(k, kind, Ready)) && (kind.Get? || kind.Update?)
      modifies this
      ensures old(steps) <= steps && old(states) <= states
      ensures failed ==> attempt.fault != NoFault && At(c, Call(k, kind, Returned(false, false)))
      ensures !failed ==> At(c, Call(k, kind, if kind.Get? then Result(record) else Got(record)))
      ensures failed <==> k !in old(s.cache) &&
                          (attempt.fault.ReadFails? || (attempt.fault.DecodeFails? && record.Some?))
      ensures k in old(s.cache) ==> record == old(s.cache[k])
      ensures k !in old(s.cache) ==> ReadSince(states, |old(states)|, k, record)
      ensures k !in old(s.cache) && !failed ==> k in s.cache && s.cache[k] == record
    {
      hide Run;
      if k in s.cache {
        failed, record := false, s.cache[k];
        Do(Hit(c));
        return;
      }
      Do(Miss(c));
      failed, record := Load(c, k, kind, attempt);
    }

    method Load(c: nat, k: Key, kind: Kind<V>, attempt: Attempt<V>) returns (failed: bool, record: Option<Record<V>>)
      requires At(c, Call(k, kind, Missed)) && (kind.Get? || kind.Update?)
      modifies this
      ensures old(steps) <= steps && old(states) <= states
      ensures failed <==> attempt.fault.ReadFails? || (attempt.fault.DecodeFails? && record.Some?)
      ensures failed ==> At(c, Call(k, kind, Returned(false, false)))
      ensures !failed ==> At(c, Call(k, kind, if kind.Get? then Result(record) else Got(record)))
      ensures ReadSince(states, |old(steps)|, k, record)
      ensures !failed ==> k in s.cache && s.cache[k] == record
    {
      hide Run, Next, Enabled, ReadSince;
      Others(attempt.beforeRead, c, Call(k, kind, Missed));
      record := if k in s.server then Some(s.server[k]) else None;
      ReadNow(states, |old(steps)|, k, record);
      ghost var atRead := states;
      if attempt.fault.ReadFails? {
        failed := true;
        Abandon(c, Call(k, kind, Missed));
      } else {
        ReadStep(s, c);
        Do(Read(c));
        failed := Keep(c, k, kind, record, attempt);
      }
      ReadBefore(atRead, states, |old(steps)|, k, record);
    }

    /** What was read is decoded, if there is anything, and stored. */
    method Keep(c: nat, k: Key, kind: Kind<V>, record: Option<Record<V>>, attempt: Attempt<V>) returns (failed: bool)
      requires At(c, Call(k, kind, Loaded(record))) && (kind.Get? || kind.Update?)
      modifies this
      ensures old(steps) <= steps && old(states) <= states
      ensures failed <==> attempt.fault.DecodeFails? && record.Some?
      ensures failed ==> At(c, Call(k, kind, Returned(false, false)))
      ensures !failed ==> At(c, Call(k, kind, if kind.Get? then Result(record) else Got(record)))
      ensures !failed ==> k in s.cache && s.cache[k] == record
    {
      hide Run, Next, Enabled;
      Others(attempt.beforeStore, c, Call(k, kind, Loaded(record)));
      failed := attempt.fault.DecodeFails? && record.Some?;
      if failed {
        Abandon(c, Call(k, kind, Loaded(record)));
        return;
      }
      StoreStep(s, c);
      Do(Store(c));
    }

    /**
     Any write: taken, refused because the server has another version, or its answer lost. Step `j` is the one in which
     the server decides. Unless a put or an update is refused, the entry is gone when the call returns.
     */
    method Write(c: nat, ghost call: Call<V>, attempt: Attempt<V>)
      returns (ok: bool, refused: bool, ghost applied: bool, ghost j: nat)
      requires At(c, call) && Writes(call)
      modifies this
      ensures old(steps) <= steps && old(states) <= states
      ensures j == |old(steps)| < |steps| && states[j] == old(s)
      ensures steps[j] == if attempt.lost.Some? then Lose(c, attempt.lost.value) else Submit(c)
      ensures attempt.lost.None? ==> ok == applied == !refused == Accepted(old(s), call)
      ensures attempt.lost.Some? ==> !ok && !refused && applied == (attempt.lost.value && Accepted(old(s), call))
      ensures refused && !call.kind.Delete? ==>
                At(c, call.(phase := Rejected(call))) && s.cache == old(s.cache) && s.server == old(s.server)
      ensures !refused || call.kind.Delete? ==> At(c, call.(phase := Returned(ok, applied))) && call.key !in s.cache
    {
      hide Run, Next, Enabled, Accepted, Writes, Rejected;
      j, applied := |steps|, Accepted(s, call);
      var kind := s.calls[c].kind;
      if attempt.lost.Some? {
        ok, refused := false, false;
        applied := attempt.lost.value && applied;
        LoseStep(s, c, attempt.lost.value);
        Do(Lose(c, attempt.lost.value));
      } else {
        ok := Accepted(s, s.calls[c]);
        refused := !ok;
        SubmitStep(s, c);
        Do(Submit(c));
        if refused && !kind.Delete? { return; }
      }
      Others(attempt.beforeDel, c, call.(phase := Answered(ok, applied)));
      InvalidateStep(s, c);
      Do(Invalidate(c));
    }

    /** `Put` of an update, with the version it has read. */
    method Put(c: nat, k: Key, change: Modify<V>, record: Option<Record<V>>, attempt: Attempt<V>)
      returns (ok: bool, conflict: bool)
      requires At(c, Call(k, Update(change), Got(record))) && change(ValueOf(record)).Some?
      modifies this
      ensures conflict ==> !ok && At(c, Call(k, Update(change), Ready)) && s.cache == old(s.cache)
      ensures conflict ==> s.server == old(s.server)
      ensures attempt.lost.None? ==> ok == !conflict
      ensures attempt.lost.None? ==> (ok <==> AsExpected(old(s), k, if record.Some? then record.value.version else -1))
      ensures attempt.lost.Some? ==> !ok && !conflict
      ensures !conflict ==> k !in s.cache && exists applied :: At(c, Call(k, Update(change), Returned(ok, applied)))
    {
      hide Run, Apply, ServerPut, ServerDelete;
      ghost var applied, j;
      ok, conflict, applied, j := Write(c, Call(k, Update(change), Got(record)), attempt);
      if !conflict { assert At(c, Call(k, Update(change), Returned(ok, applied))); }
    }

    /**
     A plain put. Step `j` is the one in which the server decides: it takes the put if no version is expected or the
     expected one is its own, and stores the value with the next version. Unless it is refused, the entry is gone.
     */
    method PlainPut(k: Key, value: V, expected: Option<int>, attempt: Attempt<V>)
      returns (ok: bool, refused: bool, ghost j: nat)
      requires Valid()
      modifies this
      ensures Valid() && old(steps) <= steps && old(states) <= states && |old(steps)| <= j < |steps|
      ensures attempt.lost.None? ==>
                && ok == !refused && (ok <==> expected.None? || AsExpected(states[j], k, expected.value))
                && if ok then Stored(states[j], states[j + 1], k, value) else Untouched(states[j], states[j + 1])
      ensures attempt.lost.Some? ==> !ok && !refused
      ensures !refused ==> k !in s.cache
    {
      hide Run, Next, Enabled, Apply, ServerPut, ServerDelete, Stored, Untouched;
      var c := Begin(k, Kind.Put(value, expected));
      ghost var call := Call(k, Kind.Put(value, expected), Ready);
      Others(attempt.before, c, call);
      if attempt.lost.None? { SubmitPut(s, c, value, expected); }
      ghost var applied;
      ok, refused, applied, j := Write(c, call, attempt);
      RunAt(states, steps, j);
    }

    /** A plain delete: taken if there is a record, of the expected version if one is given. The entry goes anyway. */
    method Delete(k: Key, expected: Option<int>, attempt: Attempt<V>) returns (ok: bool, ghost j: nat)
      requires Valid()
      modifies this
      ensures Valid() && old(steps) <= steps && old(states) <= states && |old(steps)| <= j < |steps|
      ensures attempt.lost.None? ==>
                var s0, s1 := states[j], states[j + 1];
                && (ok <==> k in s0.server && (expected.None? || AsExpected(s0, k, expected.value)))
                && s1.server == if ok then s0.server - {k} else s0.server
      ensures attempt.lost.Some? ==> !ok
      ensures k !in s.cache
    {
      hide Run, Next, Enabled, Apply, ServerPut, ServerDelete;
      var c := Begin(k, Kind.Delete(expected));
      ghost var call := Call(k, Kind.Delete(expected), Ready);
      Others(attempt.before, c, call);
      if attempt.lost.None? { SubmitDelete(s, c, expected); }
      var refused;
      ghost var applied;
      ok, refused, applied, j := Write(c, call, attempt);
      RunAt(states, steps, j);
    }

    /**
     The loop. Whatever others do in between, if it returns nil then there is one step at which `change` was
     applied to the current value of `k`. If it returns an error, and no answer of the server was lost, it
     changed nothing. Attempts run out when the back-off or the context says so.
     */
    method ReadModifyUpdate(k: Key, change: Modify<V>, attempts: seq<Attempt<V>>) returns (ok: bool, ghost c: nat)
      requires Valid()
      modifies this
      ensures Valid() && c == |old(s.calls)|
      ensures ok ==> TimesTaken(states, steps, c, |steps|) == 1
      ensures !ok && (forall n :: 0 <= n < |attempts| ==> attempts[n].lost.None?) ==>
                TimesTaken(states, steps, c, |steps|) == 0
      ensures ok ==> exists j :: 0 <= j < |steps| && AppliesAt(states, steps, j, c, k, change)
    {
      hide Run, TimesTaken, AppliesAt, Next, Enabled;
      var id := Begin(k, Update(change));
      c := id;
      for n := 0 to |attempts|
        invariant At(id, Call(k, Update(change), Ready))
      {
        Others(attempts[n].before, id, Call(k, Update(change), Ready));
        var failed, record := Get(id, k, Update(change), attempts[n]);
        if failed {
          TakenIffApplied(states, steps, id, |steps|);
          return false, c;
        }
        Others(attempts[n].beforePut, id, Call(k, Update(change), Got(record)));
        if change(ValueOf(record)).None? {
          Abandon(id, Call(k, Update(change), Got(record)));
          TakenIffApplied(states, steps, id, |steps|);
          return false, c;
        }
        var conflict;
        ok, conflict := Put(id, k, change, record, attempts[n]);
        if !conflict {
          if ok { UpdateIsAtomic(states, steps, |steps|, id, change); }
          return ok, c;
        }
      }
      Abandon(id, Call(k, Update(change), Ready));
      TakenIffApplied(states, steps, id, |steps|);
      ok := false;
    }
  }

  /** The server held `record` under `k`, or nothing if there is none, in one of the states from number `n` on. */
  ghost predicate ReadSince<V(!new)>(states: seq<State<V>>, n: nat, k: Key, record: Option<Record<V>>) {
    exists m :: n <= m < |states| && record == if k in states[m].server then Some(states[m].server[k]) else None
  }

  lemma ReadNow<V(!new)>(states: seq<State<V>>, n: nat, k: Key, record: Option<Record<V>>)
    requires n < |states|
    requires var s := states[|states| - 1]; record == if k in s.server then Some(s.server[k]) else None
    ensures ReadSince(states, n, k, record)
  {
  }

  lemma ReadBefore<V(!new)>(states: seq<State<V>>, longer: seq<State<V>>, n: nat, k: Key, record: Option<Record<V>>)
    requires ReadSince(states, n, k, record) && states <= longer
    ensures ReadSince(longer, n, k, record)
  {
    var m :| n <= m < |states| && record == if k in states[m].server then Some(states[m].server[k]) else None;
    assert longer[m] == states[m];
  }

  lemma ReadStep<V(!new)>(s: State<V>, c: nat)
    requires c < |s.calls| && s.calls[c].phase.Missed?
    ensures Enabled(s, Read(c)) && c < |Next(s, Read(c)).calls|
    ensures var k := s.calls[c].key;
            Next(s, Read(c)).calls[c]
            == s.calls[c].(phase := Loaded(if k in s.server then Some(s.server[k]) else None))
  {
  }

  lemma StoreStep<V(!new)>(s: State<V>, c: nat)
    requires c < |s.calls| && s.calls[c].phase.Loaded?
    ensures Enabled(s, Store(c)) && c < |Next(s, Store(c)).calls|
    ensures var call, r := s.calls[c], s.calls[c].phase.record;
            && Next(s, Store(c)).calls[c] == call.(phase := if call.kind.Update? then Got(r) else Result(r))
            && call.key in Next(s, Store(c)).cache && Next(s, Store(c)).cache[call.key] == r
  {
  }

  lemma SubmitStep<V(!new)>(s: State<V>, c: nat)
    requires c < |s.calls| && Writes(s.calls[c])
    ensures Enabled(s, Submit(c)) && c < |Next(s, Submit(c)).calls| && Next(s, Submit(c)).cache == s.cache
    ensures var call := s.calls[c];
            if Accepted(s, call) then Next(s, Submit(c)).calls[c] == call.(phase := Answered(true, true))
            else
              && Next(s, Submit(c)).server == s.server && Next(s, Submit(c)).calls[c] == call.(phase := Rejected(call))
              && (call.kind.Delete? ==> Rejected(call) == Answered(false, false))
  {
    hide Accepted, Apply;
  }

  lemma LoseStep<V(!new)>(s: State<V>, c: nat, reached: bool)
    requires c < |s.calls| && Writes(s.calls[c])
    ensures Enabled(s, Lose(c, reached)) && c < |Next(s, Lose(c, reached)).calls|
    ensures Next(s, Lose(c, reached)).calls[c]
            == s.calls[c].(phase := Answered(false, reached && Accepted(s, s.calls[c])))
  {
    hide Accepted, Apply;
  }

  lemma InvalidateStep<V(!new)>(s: State<V>, c: nat)
    requires c < |s.calls| && s.calls[c].phase.Answered?
    ensures Enabled(s, Invalidate(c)) && c < |Next(s, Invalidate(c)).calls|
    ensures var call := s.calls[c];
            && Next(s, Invalidate(c)).calls[c] == call.(phase := Returned(call.phase.ok, call.phase.applied))
            && call.key !in Next(s, Invalidate(c)).cache
  {
    InvalidateMeans(s, c);
  }

  lemma RunAt<V(!new)>(states: seq<State<V>>, steps: seq<Step<V>>, j: nat)
    requires Run(states, steps) && j < |steps|
    ensures j + 1 < |states| && Enabled(states[j], steps[j]) && states[j + 1] == Next(states[j], steps[j])
  {
  }

  lemma SubmitPut<V(!new)>(s: State<V>, c: nat, v: V, expected: Option<int>)
    requires c < |s.calls| && s.calls[c].kind == Kind.Put(v, expected) && s.calls[c].phase.Ready?
    ensures Enabled(s, Submit(c)) && Writes(s.calls[c])
    ensures Accepted(s, s.calls[c]) <==> expected.None? || AsExpected(s, s.calls[c].key, expected.value)
    ensures if Accepted(s, s.calls[c]) then Stored(s, Next(s, Submit(c)), s.calls[c].key, v)
            else Untouched(s, Next(s, Submit(c)))
  {
    PutMeans(s, c, v, expected);
  }

  lemma SubmitDelete<V(!new)>(s: State<V>, c: nat, expected: Option<int>)
    requires c < |s.calls| && s.calls[c].kind == Kind.Delete(expected) && s.calls[c].phase.Ready?
    ensures Enabled(s, Submit(c)) && Writes(s.calls[c])
    ensures var k := s.calls[c].key;
            && (Accepted(s, s.calls[c]) <==> k in s.server && (expected.None? || AsExpected(s, k, expected.value)))
            && Next(s, Submit(c)).server == if Accepted(s, s.calls[c]) then s.server - {k} else s.server
  {
    DeleteMeans(s, c, expected);
  }
}

/**
 The invalidating cache and its optimistic `ReadModifyUpdate`, as a step system: a versioned server, the
 notifications not delivered yet, the cached entries, and any number of concurrent calls, each split
 where another step can come in between.
 */
module Cache {
  import opened Prelude

  type Key = Bytes

  /** `None` is an error of the caller's function. */
  type Modify<!V> = Option<V> -> Option<V>

  datatype Record<+V> = Record(value: V, version: nat)

  /** What one write stored, and where; the version of a write is its position in the log. */
  datatype Written<+V> = Written(key: Key, value: V)

  datatype Kind<!V> =
    | Get
    | Update(change: Modify<V>)
    | Put(value: V, expected: Option<int>)
    | Delete(expected: Option<int>)

  /**
   Where a call is: before its first or next attempt; having missed the cache but not read the server yet;
   with a record read from the server but not stored in the cache yet; with the record it works on; a `Get`
   that has returned a record or absence; answered by the server but with its local invalidation still to do;
   or returned. `applied` says whether the server took its write.
   */
  datatype Phase<+V> =
    | Ready
    | Missed
    | Loaded(record: Option<Record<V>>)
    | Got(record: Option<Record<V>>)
    | Result(record: Option<Record<V>>)
    | Answered(ok: bool, applied: bool)
    | Returned(ok: bool, applied: bool)

  datatype Call<!V> = Call(key: Key, kind: Kind<V>, phase: Phase<V>)

  datatype State<!V> = State(
    server: map<Key, Record<V>>, log: seq<Written<V>>, undelivered: multiset<Key>,
    cache: map<Key, Option<Record<V>>>, calls: seq<Call<V>>
  )

  datatype Step<!V> =
    | Invoke(key: Key, kind: Kind<V>)
    | Hit(c: nat)
    | Miss(c: nat)
    | Read(c: nat)
    | Store(c: nat)
    | Submit(c: nat)
    | Lose(c: nat, reached: bool)
    | Invalidate(c: nat)
    | GiveUp(c: nat)
    | Deliver(key: Key)
    | Evict(key: Key)
    | OtherPut(key: Key, value: V)
    | OtherDelete(key: Key)

  // ---------- The server ----------

  const VERSION_ID_NOT_EXISTS := -1

  function Current<V>(s: State<V>, k: Key): Option<Record<V>> {
    if k in s.server then Some(s.server[k]) else None
  }

  function VersionOf<V>(r: Option<Record<V>>): int {
    match r
    case None => VERSION_ID_NOT_EXISTS
    case Some(record) => record.version
  }

  /** `checkExpectedVersionId`. */
  predicate Accepts<V>(s: State<V>, k: Key, expected: Option<int>) {
    expected.None? || VersionOf(Current(s, k)) == expected.value
  }

  function ServerPut<V>(s: State<V>, k: Key, v: V): (t: State<V>)
    ensures t.calls == s.calls && t.cache == s.cache
  {
    s.(server := s.server[k := Record(v, |s.log|)], log := s.log + [Written(k, v)],
       undelivered := s.undelivered + multiset{k})
  }

  function ServerDelete<V>(s: State<V>, k: Key): (t: State<V>)
    ensures t.calls == s.calls && t.cache == s.cache
  {
    if k in s.server then s.(server := s.server - {k}, undelivered := s.undelivered + multiset{k}) else s
  }

  // ---------- The steps of a call ----------

  function ValueOf<V>(r: Option<Record<V>>): Option<V> {
    match r
    case None => None
    case Some(record) => Some(record.value)
  }

  function SetPhase<V>(s: State<V>, c: nat, phase: Phase<V>): (t: State<V>)
    requires c < |s.calls|
    ensures t == s.(calls := t.calls) && |t.calls| == |s.calls|
    ensures forall d :: 0 <= d < |s.calls| && d != c ==> t.calls[d] == s.calls[d]
    ensures t.calls[c] == s.calls[c].(phase := phase)
  {
    s.(calls := s.calls[c := s.calls[c].(phase := phase)])
  }

  function Forget<V>(s: State<V>, k: Key): (t: State<V>)
    ensures t.calls == s.calls
  {
    s.(cache := s.cache - {k})
  }

  /** `Get` has its answer: a plain call returns it, an update goes on to change it. */
  function AfterGet<V>(call: Call<V>, record: Option<Record<V>>): Phase<V> {
    if call.kind.Update? then Got(record) else Result(record)
  }

  /** The call is about to send a write to the server. */
  predicate Writes<V>(call: Call<V>) {
    match call.kind
    case Get => false
    case Update(change) => call.phase.Got? && change(ValueOf(call.phase.record)).Some?
    case Put(_, _) => call.phase.Ready?
    case Delete(_) => call.phase.Ready?
  }

  function Expected<V>(call: Call<V>): Option<int>
    requires Writes(call)
  {
    match call.kind
    case Update(_) => Some(VersionOf(call.phase.record))
    case Put(_, expected) => expected
    case Delete(expected) => expected
  }

  /** The server would take the write of this call. */
  predicate Accepted<V>(s: State<V>, call: Call<V>)
    requires Writes(call)
  {
    Accepts(s, call.key, Expected(call)) && (call.kind.Delete? ==> call.key in s.server)
  }

  function Apply<V>(s: State<V>, call: Call<V>): (t: State<V>)
    requires Writes(call)
    ensures t.calls == s.calls && t.cache == s.cache
  {
    match call.kind
    case Update(change) => ServerPut(s, call.key, change(ValueOf(call.phase.record)).value)
    case Put(value, _) => ServerPut(s, call.key, value)
    case Delete(_) => ServerDelete(s, call.key)
  }

  /** After a rejected write: an update retries, a put returns, a delete still invalidates its entry. */
  function Rejected<V>(call: Call<V>): Phase<V> {
    match call.kind
    case Update(_) => Ready
    case Put(_, _) => Returned(false, false)
    case _ => Answered(false, false)
  }

  /** The call has not been answered by the server yet. */
  predicate Trying<V>(phase: Phase<V>) {
    phase.Ready? || phase.Missed? || phase.Loaded? || phase.Got?
  }

  predicate Enabled<V>(s: State<V>, step: Step<V>) {
    match step
    case Invoke(_, _) => true
    case Hit(c) =>
      && c < |s.calls| && s.calls[c].phase.Ready? && (s.calls[c].kind.Get? || s.calls[c].kind.Update?)
      && s.calls[c].key in s.cache
    case Miss(c) =>
      && c < |s.calls| && s.calls[c].phase.Ready? && (s.calls[c].kind.Get? || s.calls[c].kind.Update?)
      && s.calls[c].key !in s.cache
    case Read(c) => c < |s.calls| && s.calls[c].phase.Missed?
    case Store(c) => c < |s.calls| && s.calls[c].phase.Loaded?
    case Submit(c) => c < |s.calls| && Writes(s.calls[c])
    case Lose(c, _) => c < |s.calls| && Writes(s.calls[c])
    case Invalidate(c) => c < |s.calls| && s.calls[c].phase.Answered?
    case GiveUp(c) => c < |s.calls| && Trying(s.calls[c].phase) && !Writes(s.calls[c])
    case Deliver(k) => k in s.undelivered
    case Evict(_) => true
    case OtherPut(_, _) => true
    case OtherDelete(_) => true
  }

  function Next<V>(s: State<V>, step: Step<V>): State<V>
    requires Enabled(s, step)
  {
    match step
    case Invoke(k, kind) => s.(calls := s.calls + [Call(k, kind, Ready)])
    case Hit(c) => SetPhase(s, c, AfterGet(s.calls[c], s.cache[s.calls[c].key]))
    case Miss(c) => SetPhase(s, c, Missed)
    case Read(c) => SetPhase(s, c, Loaded(Current(s, s.calls[c].key)))
    case Store(c) =>
      var record := s.calls[c].phase.record;
      SetPhase(s.(cache := s.cache[s.calls[c].key := record]), c, AfterGet(s.calls[c], record))
    case Submit(c) =>
      if Accepted(s, s.calls[c]) then SetPhase(Apply(s, s.calls[c]), c, Answered(true, true))
      else SetPhase(s, c, Rejected(s.calls[c]))
    case Lose(c, reached) =>
      if reached && Accepted(s, s.calls[c]) then SetPhase(Apply(s, s.calls[c]), c, Answered(false, true))
      else SetPhase(s, c, Answered(false, false))
    case Invalidate(c) =>
      SetPhase(Forget(s, s.calls[c].key), c, Returned(s.calls[c].phase.ok, s.calls[c].phase.applied))
    case GiveUp(c) => SetPhase(s, c, Returned(false, false))
    case Deliver(k) => Forget(s.(undelivered := s.undelivered - multiset{k}), k)
    case Evict(k) => Forget(s, k)
    case OtherPut(k, v) => ServerPut(s, k, v)
    case OtherDelete(k) => ServerDelete(s, k)
  }

  /** The call that takes this step, if it is a step of a call. */
  function CallOf<V>(step: Step<V>): Option<nat> {
    match step
    case Hit(c) => Some(c)
    case Miss(c) => Some(c)
    case Read(c) => Some(c)
    case Store(c) => Some(c)
    case Submit(c) => Some(c)
    case Lose(c, _) => Some(c)
    case Invalidate(c) => Some(c)
    case GiveUp(c) => Some(c)
    case _ => None
  }

  /** A step of somebody else leaves a call where it is. */
  lemma OthersLeaveCall<V(!new)>(s: State<V>, step: Step<V>, c: nat)
    requires Enabled(s, step) && c < |s.calls| && CallOf(step) != Some(c)
    ensures c < |Next(s, step).calls| && Next(s, step).calls[c] == s.calls[c]
  {
    hide Accepted, Apply, SetPhase, ServerPut, ServerDelete, AfterGet, Rejected, Writes, Current, Forget;
  }

  /** A call that was not there before has just been invoked. */
  lemma NewCall<V(!new)>(s: State<V>, step: Step<V>, c: nat)
    requires Enabled(s, step) && |s.calls| <= c < |Next(s, step).calls|
    ensures CallOf(step).None? && Next(s, step).calls[c].phase.Ready?
    ensures step.Invoke? && Next(s, step).calls[c] == Call(step.key, step.kind, Ready)
  {
    hide Accepted, Apply, SetPhase, ServerPut, ServerDelete, AfterGet, Rejected, Writes, Current;
  }

  /** An empty cache in front of a server that may already hold records. */
  ghost predicate Init<V>(s: State<V>) {
    && s.cache == map[] && s.calls == [] && s.undelivered == multiset{}
    && forall k :: k in s.server ==> Known(s, k, Some(s.server[k]))
  }

  ghost predicate Run<V(!new)>(states: seq<State<V>>, steps: seq<Step<V>>) {
    && |states| == |steps| + 1 && Init(states[0])
    && forall n :: 0 <= n < |steps| ==> Enabled(states[n], steps[n]) && states[n + 1] == Next(states[n], steps[n])
  }

  lemma RunExtends<V(!new)>(states: seq<State<V>>, steps: seq<Step<V>>, step: Step<V>)
    requires Run(states, steps) && Enabled(states[|steps|], step)
    ensures Run(states + [Next(states[|steps|], step)], steps + [step])
  {
    hide Next, Enabled, Init;
  }

  // ---------- A version names one write ----------

  /** `r` is absence, or exactly what the write with its version stored under `k`. */
  ghost predicate Known<V>(s: State<V>, k: Key, r: Option<Record<V>>) {
    r.Some? ==> r.value.version < |s.log| && s.log[r.value.version] == Written(k, r.value.value)
  }

  predicate Holds<V>(phase: Phase<V>) {
    phase.Loaded? || phase.Got? || phase.Result?
  }

  ghost predicate Inv<V(!new)>(s: State<V>) {
    && (forall k :: k in s.server ==> Known(s, k, Some(s.server[k])))
    && (forall k :: k in s.cache ==> Known(s, k, s.cache[k]))
    && (forall c :: 0 <= c < |s.calls| && Holds(s.calls[c].phase) ==> Known(s, s.calls[c].key, s.calls[c].phase.record))
  }

  lemma PutKeepsInv<V(!new)>(s: State<V>, k: Key, v: V)
    requires Inv(s)
    ensures Inv(ServerPut(s, k, v))
  {
  }

  lemma SameLogKeepsKnown<V(!new)>(s: State<V>, t: State<V>, k: Key, r: Option<Record<V>>)
    requires Known(s, k, r) && t.log == s.log
    ensures Known(t, k, r)
  {
  }

  lemma DeleteKeepsInv<V(!new)>(s: State<V>, k: Key)
    requires Inv(s)
    ensures Inv(ServerDelete(s, k))
  {
  }

  lemma PhaseKeepsInv<V(!new)>(s: State<V>, c: nat, phase: Phase<V>)
    requires Inv(s) && c < |s.calls| && (Holds(phase) ==> Known(s, s.calls[c].key, phase.record))
    ensures Inv(SetPhase(s, c, phase))
  {
  }

  lemma ApplyKeepsInv<V(!new)>(s: State<V>, call: Call<V>)
    requires Inv(s) && Writes(call)
    ensures Inv(Apply(s, call))
  {
    hide Inv;
    match call.kind
    case Update(change) => PutKeepsInv(s, call.key, change(ValueOf(call.phase.record)).value);
    case Put(value, _) => PutKeepsInv(s, call.key, value);
    case Delete(_) => DeleteKeepsInv(s, call.key);
  }

  lemma CacheKeepsInv<V(!new)>(s: State<V>, k: Key, r: Option<Record<V>>)
    requires Inv(s) && Known(s, k, r)
    ensures Inv(s.(cache := s.cache[k := r]))
  {
  }

  lemma InvokeKeepsInv<V(!new)>(s: State<V>, call: Call<V>)
    requires Inv(s) && call.phase.Ready?
    ensures Inv(s.(calls := s.calls + [call]))
  {
  }

  lemma HitKeepsInv<V(!new)>(s: State<V>, c: nat)
    requires Inv(s) && Enabled(s, Hit(c))
    ensures Inv(Next(s, Hit(c)))
  {
    hide Known, SetPhase;
    PhaseKeepsInv(s, c, AfterGet(s.calls[c], s.cache[s.calls[c].key]));
  }

  lemma ReadKeepsInv<V(!new)>(s: State<V>, c: nat)
    requires Inv(s) && Enabled(s, Read(c))
    ensures Inv(Next(s, Read(c)))
  {
    hide Known, SetPhase;
    AbsenceIsKnown(s);
    PhaseKeepsInv(s, c, Loaded(Current(s, s.calls[c].key)));
  }

  lemma StoreKeepsInv<V(!new)>(s: State<V>, c: nat)
    requires Inv(s) && Enabled(s, Store(c))
    ensures Inv(Next(s, Store(c)))
  {
    hide Known, SetPhase;
    var record := s.calls[c].phase.record;
    CacheKeepsInv(s, s.calls[c].key, record);
    var t := s.(cache := s.cache[s.calls[c].key := record]);
    SameLogKeepsKnown(s, t, s.calls[c].key, record);
    PhaseKeepsInv(t, c, AfterGet(s.calls[c], record));
  }

  lemma NextKeepsInv<V(!new)>(s: State<V>, step: Step<V>)
    requires Inv(s) && Enabled(s, step)
    ensures Inv(Next(s, step))
  {
    hide Inv, Known, Writes, Accepted, Apply, ServerPut, ServerDelete, SetPhase, Expected;
    match step
    case Invoke(k, kind) => InvokeKeepsInv(s, Call(k, kind, Ready));
    case Hit(c) => HitKeepsInv(s, c);
    case Miss(c) => PhaseKeepsInv(s, c, Missed);
    case Read(c) => ReadKeepsInv(s, c);
    case Store(c) => StoreKeepsInv(s, c);
    case Submit(c) =>
      ApplyKeepsInv(s, s.calls[c]);
      if Accepted(s, s.calls[c]) { PhaseKeepsInv(Apply(s, s.calls[c]), c, Answered(true, true)); }
      else { PhaseKeepsInv(s, c, Rejected(s.calls[c])); }
    case Lose(c, reached) =>
      ApplyKeepsInv(s, s.calls[c]);
      if reached && Accepted(s, s.calls[c]) { PhaseKeepsInv(Apply(s, s.calls[c]), c, Answered(false, true)); }
      else { PhaseKeepsInv(s, c, Answered(false, false)); }
    case Invalidate(c) =>
      ForgetKeepsInv(s, s.calls[c].key);
      PhaseKeepsInv(Forget(s, s.calls[c].key), c, Returned(s.calls[c].phase.ok, s.calls[c].phase.applied));
    case GiveUp(c) => PhaseKeepsInv(s, c, Returned(false, false));
    case Deliver(k) => DeliverKeepsInv(s, k);
    case Evict(k) => ForgetKeepsInv(s, k);
    case OtherPut(k, v) => PutKeepsInv(s, k, v);
    case OtherDelete(k) => DeleteKeepsInv(s, k);
  }

  lemma ForgetKeepsInv<V(!new)>(s: State<V>, k: Key)
    requires Inv(s)
    ensures Inv(Forget(s, k))
  {
  }

  lemma DeliverKeepsInv<V(!new)>(s: State<V>, k: Key)
    requires Inv(s)
    ensures Inv(Forget(s.(undelivered := s.undelivered - multiset{k}), k))
  {
  }

  lemma AbsenceIsKnown<V(!new)>(s: State<V>)
    ensures forall k :: Known(s, k, None)
  {
  }

  lemma {:induction false} RunKeepsInv<V(!new)>(states: seq<State<V>>, steps: seq<Step<V>>, n: nat)
    requires Run(states, steps) && n < |states|
    ensures Inv(states[n])
  {
    hide Next;
    if n > 0 {
      RunKeepsInv(states, steps, n - 1);
      NextKeepsInv(states[n - 1], steps[n - 1]);
    }
  }

  // ---------- What the calls do ----------

  /** The server holds nothing under `k` and -1 was expected, or holds a record with the expected version. */
  predicate AsExpected<V>(s: State<V>, k: Key, expected: int) {
    if k in s.server then s.server[k].version == expected else expected == -1
  }

  /** The server has a new record of `k`, with the next version, and a notification of it is on its way. */
  ghost predicate Stored<V(!new)>(s: State<V>, t: State<V>, k: Key, v: V) {
    && t.server == s.server[k := Record(v, |s.log|)] && t.log == s.log + [Written(k, v)]
    && t.undelivered == s.undelivered + multiset{k} && t.cache == s.cache
  }

  ghost predicate Untouched<V(!new)>(s: State<V>, t: State<V>) {
    t.server == s.server && t.log == s.log && t.undelivered == s.undelivered && t.cache == s.cache
  }

  /**
   A plain put without an expected version is always taken; with one, exactly if it is the server's. If it is refused
   it returns at once, and the entry stays.
   */
  lemma PutMeans<V(!new)>(s: State<V>, c: nat, v: V, expected: Option<int>)
    requires Enabled(s, Submit(c)) && s.calls[c].kind == Put(v, expected)
    ensures var k, t := s.calls[c].key, Next(s, Submit(c));
            if expected.None? || AsExpected(s, k, expected.value) then
              Stored(s, t, k, v) && t.calls[c].phase == Answered(true, true)
            else
              Untouched(s, t) && t.calls[c].phase == Returned(false, false)
  {
  }

  /** A delete needs a record, and the expected version if one is given; taken or not, it goes on to invalidate. */
  lemma DeleteMeans<V(!new)>(s: State<V>, c: nat, expected: Option<int>)
    requires Enabled(s, Submit(c)) && s.calls[c].kind == Delete(expected)
    ensures var k, t := s.calls[c].key, Next(s, Submit(c));
            if k in s.server && (expected.None? || AsExpected(s, k, expected.value)) then
              && t.server == s.server - {k} && t.log == s.log && t.cache == s.cache
              && t.undelivered == s.undelivered + multiset{k} && t.calls[c].phase == Answered(true, true)
            else
              Untouched(s, t) && t.calls[c].phase == Answered(false, false)
  {
  }

  /** An update puts the changed value if the server's version is the one it has read, and otherwise tries again. */
  lemma UpdateMeans<V(!new)>(s: State<V>, c: nat, change: Modify<V>)
    requires Enabled(s, Submit(c)) && s.calls[c].kind == Update(change)
    ensures s.calls[c].phase.Got?
    ensures var k, r, t := s.calls[c].key, s.calls[c].phase.record, Next(s, Submit(c));
            var v := change(if r.Some? then Some(r.value.value) else None);
            && v.Some?
            && if AsExpected(s, k, if r.Some? then r.value.version else -1) then
                 Stored(s, t, k, v.value) && t.calls[c].phase == Answered(true, true)
               else
                 Untouched(s, t) && t.calls[c].phase == Ready
  {
  }

  /** A `Get` that hits returns the entry; one that loads returns, and stores, what it read from the server. */
  lemma GetMeans<V(!new)>(s: State<V>, c: nat)
    requires c < |s.calls| && s.calls[c].kind.Get?
    ensures Enabled(s, Hit(c)) ==>
              && s.calls[c].key in s.cache
              && Next(s, Hit(c)) == s.(calls := s.calls[c := s.calls[c].(phase := Result(s.cache[s.calls[c].key]))])
    ensures Enabled(s, Read(c)) ==>
              var k := s.calls[c].key;
              var r := if k in s.server then Some(s.server[k]) else None;
              Next(s, Read(c)) == s.(calls := s.calls[c := s.calls[c].(phase := Loaded(r))])
    ensures Enabled(s, Store(c)) ==>
              var k, r := s.calls[c].key, s.calls[c].phase.record;
              Next(s, Store(c)) == s.(cache := s.cache[k := r], calls := s.calls[c := s.calls[c].(phase := Result(r))])
  {
  }

  /** An invalidation removes the entry of its key and no other, and the call returns what the server answered. */
  lemma InvalidateMeans<V(!new)>(s: State<V>, c: nat)
    requires Enabled(s, Invalidate(c))
    ensures var k, t := s.calls[c].key, Next(s, Invalidate(c));
            && t.cache == s.cache - {k} && t.server == s.server && t.undelivered == s.undelivered
            && t.calls[c].phase == Returned(s.calls[c].phase.ok, s.calls[c].phase.applied)
  {
  }

  /** A notification is used up and removes the entry of its key, and no other; an eviction only removes the entry. */
  lemma RemovalMeans<V(!new)>(s: State<V>, k: Key)
    ensures k in s.undelivered ==>
              Next(s, Deliver(k)) == s.(cache := s.cache - {k}, undelivered := s.undelivered - multiset{k})
    ensures Next(s, Evict(k)) == s.(cache := s.cache - {k})
  {
  }
}

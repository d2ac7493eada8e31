/**
 One shard manager as it is written: an object with its last offset and its `initialized` flag, a loop over
 the batches of a stream and a retry loop over streams.
 */
module ManagerLoop {
  import opened Prelude
  import opened Subscription

  /**
   One attempt of the retry loop: whether it connects, the server's commit offset at that time, how many
   batches arrive at most before the stream breaks, at which notification of the batch after those the context
   is cancelled, if it is, and whether the context is cancelled once the attempt has failed.
   */
  datatype Attempt = Attempt(connects: bool, commit: int, batches: nat, cut: Option<nat>, stops: bool)

  /** An iteration order for the batch at every offset of the log. */
  ghost predicate Orders(orders: seq<seq<Bytes>>, log: seq<Batch>) {
    |orders| == |log| && forall o :: 0 <= o < |log| ==> IterationOrder(orders[o], log[o])
  }

  /** The notifications of the log from offset `lo` up to, but not including, `hi`. */
  function Pushed(log: seq<Batch>, orders: seq<seq<Bytes>>, lo: nat, hi: nat): seq<Notification>
    requires lo <= hi <= |log| && Orders(orders, log)
    decreases hi
  {
    if lo == hi then [] else Pushed(log, orders, lo, hi - 1) + Converted(orders[hi - 1], log[hi - 1])
  }

  /** The manager gets at least one batch in this attempt: the initial one, if it is the first. */
  predicate Starts(a: Attempt) {
    a.connects && a.batches > 0
  }

  /** The last offset after an attempt that nothing cuts, with a log of `size` entries. */
  function After(last: int, a: Attempt, size: nat): int {
    if !a.connects || (last < 0 && a.batches == 0) then last
    else
      var base := if last >= 0 then last else a.commit;
      if base + Arrivals(last, a) < size then base + Arrivals(last, a) else size - 1
  }

  /** How many batches of the log arrive at most; the dummy batch is the first of those that do. */
  function Arrivals(last: int, a: Attempt): nat
    requires last >= 0 || a.batches > 0
  {
    if last >= 0 then a.batches else a.batches - 1
  }

  function AfterAll(attempts: seq<Attempt>, n: nat, size: nat): int
    requires n <= |attempts|
  {
    if n == 0 then -1 else After(AfterAll(attempts, n - 1, size), attempts[n - 1], size)
  }

  /** How many attempts are made: up to the first after which the context is cancelled. */
  function Made(attempts: seq<Attempt>, n: nat): (k: nat)
    requires n <= |attempts|
    ensures n <= k <= |attempts|
    decreases |attempts| - n
  {
    if n == |attempts| then n else if attempts[n].stops then n + 1 else Made(attempts, n + 1)
  }

  class ShardManager {
    var lastOffsetReceived: int
    var initialized: bool
    var cancelled: bool
    var sent: seq<Notification>
    /** What was reported to the wait group: success or failure. */
    var reports: seq<bool>
    ghost var start: Option<int>

    constructor ()
      ensures lastOffsetReceived == -1 && !initialized && !cancelled && sent == [] && reports == [] && start == None
    {
      lastOffsetReceived, initialized, cancelled, sent, reports, start := -1, false, false, [], [], None;
    }

    /** The manager is between two batches: it has sent the log after its initial offset, up to the last one. */
    ghost predicate Between(log: seq<Batch>, orders: seq<seq<Bytes>>)
      reads this
      requires Orders(orders, log)
    {
      && -1 <= lastOffsetReceived < |log|
      && (!initialized ==> reports == [] && start == None && sent == [] && lastOffsetReceived == -1)
      && (initialized ==> reports == [start.Some?])
      && (start.Some? ==> -1 <= start.value <= lastOffsetReceived)
      && (start.Some? && start.value >= 0 ==>
            start.value <= lastOffsetReceived && sent == Pushed(log, orders, start.value + 1, lastOffsetReceived + 1))
    }

    /** The manager was cut by the cancellation: it has also sent some of the next batch, but not all. */
    ghost predicate Cut(log: seq<Batch>, orders: seq<seq<Bytes>>)
      reads this
      requires Orders(orders, log)
    {
      && -1 <= lastOffsetReceived < |log| && cancelled && initialized && reports == [start.Some?]
      && (start.Some? && start.value >= 0 ==>
            && start.value <= lastOffsetReceived && lastOffsetReceived + 1 < |log|
            && Pushed(log, orders, start.value + 1, lastOffsetReceived + 1) <= sent
            && sent < Pushed(log, orders, start.value + 1, lastOffsetReceived + 2))
    }

    method MultiplexNotificationBatch(offset: int, b: Batch, keys: seq<Bytes>, cut: Option<nat>) returns (err: bool)
      requires IterationOrder(keys, b)
      modifies this
      ensures !old(initialized) ==>
                && !err && initialized && reports == old(reports) + [true] && sent == old(sent)
                && lastOffsetReceived == offset && start == Some(offset) && cancelled == old(cancelled)
      ensures old(initialized) ==>
                && initialized && reports == old(reports) && start == old(start)
                && lastOffsetReceived == old(lastOffsetReceived) && cancelled == (old(cancelled) || err)
      ensures old(initialized) && !err ==> sent == old(sent) + Converted(keys, b)
      ensures cut.None? ==> !err
      ensures err ==> old(sent) <= sent < old(sent) + Converted(keys, b)
      ensures old(sent) <= sent
      ensures old(initialized) && !err ==> Delivers(sent[|old(sent)|..], b)
      ensures err ==> DeliversPrefix(sent[|old(sent)|..], b) && !Delivers(sent[|old(sent)|..], b)
    {
      hide IterationOrder, Delivers, DeliversPrefix;
      if !initialized {
        initialized, reports := true, reports + [true];
        lastOffsetReceived, start := offset, Some(offset);
        return false;
      }
      ghost var ns := Notifications(keys, b);
      ConvertedDelivers(keys, b);
      for n := 0 to |keys|
        invariant initialized && reports == old(reports) && start == old(start) && cancelled == old(cancelled)
        invariant lastOffsetReceived == old(lastOffsetReceived) && sent == old(sent) + ns[..n]
      {
        if cut == Some(n) {
          CutDelivers(ns, n, b);
          cancelled := true;
          return true;
        }
        KeyOf(keys, b, n);
        assert ns[..n + 1] == ns[..n] + [ns[n]];
        sent := sent + [Convert(keys[n], b[keys[n]])];
      }
      assert ns[..|keys|] == ns;
      err := false;
    }

    /** One batch, the first one included; only after it was pushed is its offset remembered. */
    method MultiplexNotificationBatchOnce(offset: int, b: Batch, keys: seq<Bytes>, cut: Option<nat>) returns (err: bool)
      requires IterationOrder(keys, b)
      modifies this
      ensures initialized && lastOffsetReceived == if err then old(lastOffsetReceived) else offset
      ensures !old(initialized) ==>
                && !err && reports == old(reports) + [true] && sent == old(sent)
                && start == Some(offset) && cancelled == old(cancelled)
      ensures old(initialized) ==> reports == old(reports) && start == old(start) && cancelled == (old(cancelled) || err)
      ensures old(initialized) && !err ==> sent == old(sent) + Converted(keys, b)
      ensures cut.None? ==> !err
      ensures err ==> old(sent) <= sent < old(sent) + Converted(keys, b)
    {
      hide IterationOrder, Converted;
      err := MultiplexNotificationBatch(offset, b, keys, cut);
      if !err {
        lastOffsetReceived := offset;
      }
    }

    /** The batch at offset `o` of the log, for a manager that has its initial batch. */
    method LogBatch(log: seq<Batch>, orders: seq<seq<Bytes>>, o: nat, cut: Option<nat>) returns (err: bool)
      requires Orders(orders, log) && Between(log, orders) && !cancelled && initialized && o < |log|
      requires start.Some? && start.value >= 0 ==> o == lastOffsetReceived + 1
      modifies this
      ensures initialized && start == old(start)
      ensures !err ==> Between(log, orders) && !cancelled && lastOffsetReceived == o
      ensures err ==> Cut(log, orders) && cut.Some?
    {
      err := MultiplexNotificationBatchOnce(o, log[o], orders[o], cut);
    }

    /** The batches of one stream: the dummy batch if the server was not given an offset, then the log from `first`. */
    method MultiplexNotifications(log: seq<Batch>, orders: seq<seq<Bytes>>, dummy: Option<int>, first: nat,
                                  attempt: Attempt)
      requires Orders(orders, log) && Between(log, orders) && !cancelled && first <= |log|
      requires dummy.Some? ==> dummy.value == first - 1
      requires dummy.None? ==> initialized && first == lastOffsetReceived + 1
      requires dummy.Some? ==> lastOffsetReceived == -1 && (start.Some? ==> start.value == -1)
      modifies this
      ensures if cancelled then Cut(log, orders) else Between(log, orders)
      ensures initialized == (old(initialized) || attempt.batches > 0)
      ensures start == if initialized && !old(initialized) then dummy else old(start)
      ensures attempt.cut.None? && dummy.Some? && attempt.batches == 0 ==>
                !cancelled && lastOffsetReceived == old(lastOffsetReceived)
      ensures attempt.cut.None? && !(dummy.Some? && attempt.batches == 0) ==>
                var n := if dummy.Some? then attempt.batches - 1 else attempt.batches;
                !cancelled && lastOffsetReceived == if first + n <= |log| then first + n - 1 else |log| - 1
    {
      var next, n := first, 0;
      if dummy.Some? {
        if attempt.batches == 0 { return; }
        var _ := MultiplexNotificationBatchOnce(dummy.value, map[], [], None);
        n := 1;
      }
      ghost var arrived := n;
      while n < attempt.batches && next < |log|
        invariant first <= next <= |log| && initialized && Between(log, orders) && !cancelled
        invariant start == if old(initialized) then old(start) else dummy
        invariant next == lastOffsetReceived + 1 && n - arrived == next - first
        invariant arrived <= n && (n <= attempt.batches || n == arrived)
      {
        var _ := LogBatch(log, orders, next, None);
        next, n := next + 1, n + 1;
      }
      if attempt.cut.Some? && next < |log| {
        var _ := LogBatch(log, orders, next, attempt.cut);
      }
    }

    method GetNotifications(log: seq<Batch>, orders: seq<seq<Bytes>>, attempt: Attempt)
      requires Orders(orders, log) && Between(log, orders) && !cancelled && -1 <= attempt.commit < |log|
      modifies this
      ensures if cancelled then Cut(log, orders) else Between(log, orders)
      ensures initialized == (old(initialized) || Starts(attempt))
      ensures start == if initialized && !old(initialized) then Some(attempt.commit) else old(start)
      ensures attempt.cut.None? ==> !cancelled && lastOffsetReceived == After(old(lastOffsetReceived), attempt, |log|)
    {
      if !attempt.connects { return; }
      var startOffsetExclusive: Option<int> := None;
      if lastOffsetReceived >= 0 {
        startOffsetExclusive := Some(lastOffsetReceived);
      }
      if startOffsetExclusive.Some? {
        MultiplexNotifications(log, orders, None, startOffsetExclusive.value + 1, attempt);
      } else {
        MultiplexNotifications(log, orders, Some(attempt.commit), attempt.commit + 1, attempt);
      }
    }

    /**
     The retry loop, over any attempts. The manager reports at most once, success exactly if it got its initial
     batch, and nothing exactly if the context was cancelled before it could tell. From an initial offset that is
     not negative it has sent the log after it, batch by batch, and of the batch that the cancellation cut a
     proper prefix. Without a cut the last offset is as far as the attempts that were made reach.
     */
    method GetNotificationsWithRetries(log: seq<Batch>, orders: seq<seq<Bytes>>, attempts: seq<Attempt>)
      requires Orders(orders, log) && Between(log, orders) && !initialized && !cancelled
      requires forall n :: 0 <= n < |attempts| ==> -1 <= attempts[n].commit < |log|
      modifies this
      ensures Between(log, orders) || Cut(log, orders)
      ensures |reports| <= 1 && (initialized ==> reports == [start.Some?])
      ensures initialized <==> |attempts| > 0 && (Starts(attempts[0]) || !attempts[0].stops)
      ensures start.Some? <==> |attempts| > 0 && Starts(attempts[0])
      ensures start.Some? ==> start.value == attempts[0].commit
      ensures (forall n :: 0 <= n < |attempts| ==> attempts[n].cut.None?) && start.Some? ==>
                lastOffsetReceived == AfterAll(attempts, Made(attempts, 0), |log|)
    {
      for n := 0 to |attempts|
        invariant Between(log, orders) && !cancelled
        invariant initialized <==> n > 0
        invariant Made(attempts, n) == Made(attempts, 0)
        invariant n > 0 ==> Starts(attempts[0]) && start == Some(attempts[0].commit)
        invariant (forall m :: 0 <= m < n ==> attempts[m].cut.None?) ==>
                  lastOffsetReceived == AfterAll(attempts, n, |log|)
      {
        GetNotifications(log, orders, attempts[n]);
        if cancelled { return; }
        if attempts[n].stops {
          cancelled := true;
          return;
        }
        if !initialized {
          initialized, reports, cancelled := true, reports + [false], true;
          return;
        }
      }
    }
  }

  function Notifications(keys: seq<Bytes>, b: Batch): (ns: seq<Notification>)
    requires IterationOrder(keys, b)
    ensures ns == Converted(keys, b) && |ns| == |keys|
  {
    Converted(keys, b)
  }

  /** Cut at notification `n`, a batch is delivered in part only. */
  lemma CutDelivers(ns: seq<Notification>, n: nat, b: Batch)
    requires Delivers(ns, b) && n < |ns|
    ensures DeliversPrefix(ns[..n], b) && !Delivers(ns[..n], b)
  {
    assert ns[..n] + ns[n..] == ns;
    assert Tells(ns[n], b);
    assert forall i :: 0 <= i < n ==> ns[..n][i].key != ns[n].key;
  }

  /** What is pushed of a log: one block of notifications for each batch, in order, and each delivers its batch. */
  lemma {:induction false} PushedInBlocks(log: seq<Batch>, orders: seq<seq<Bytes>>, lo: nat, o: nat, hi: nat)
    requires lo <= o < hi <= |log| && Orders(orders, log)
    ensures var all, from, to := Pushed(log, orders, lo, hi), |Pushed(log, orders, lo, o)|,
                                 |Pushed(log, orders, lo, o + 1)|;
            from <= to <= |all| && Delivers(all[from..to], log[o])
    decreases hi
  {
    hide Delivers, IterationOrder, Converted;
    var before := Pushed(log, orders, lo, hi - 1);
    OrderAt(orders, log, hi - 1);
    assert Pushed(log, orders, lo, hi) == before + Converted(orders[hi - 1], log[hi - 1]);
    if o == hi - 1 {
      ConvertedDelivers(orders[o], log[o]);
      var all := Pushed(log, orders, lo, hi);
      assert all[|before|..|all|] == Converted(orders[o], log[o]);
    } else {
      PushedInBlocks(log, orders, lo, o, hi - 1);
      var from, to := |Pushed(log, orders, lo, o)|, |Pushed(log, orders, lo, o + 1)|;
      assert Pushed(log, orders, lo, hi)[from..to] == before[from..to];
    }
  }

  lemma OrderAt(orders: seq<seq<Bytes>>, log: seq<Batch>, o: nat)
    requires Orders(orders, log) && o < |log|
    ensures IterationOrder(orders[o], log[o]) && forall k :: k in orders[o] ==> k in log[o]
  {
  }

  lemma KeyOf(keys: seq<Bytes>, b: Batch, n: nat)
    requires IterationOrder(keys, b) && n < |keys|
    ensures keys[n] in b && Converted(keys, b)[n] == Convert(keys[n], b[keys[n]])
  {
  }
}

/**
 The priority queue of a range scan: the five methods of `ResultHeap`, and the push and pop of
 `container/heap` on top of them.
 */
module ResultHeap {
  import opened Prelude
  import opened KeyOrder

  /** One record or error of a range scan; an error carries the empty key. */
  datatype GetResult = GetResult(key: Bytes, value: Bytes, versionId: int, err: Option<string>)

  /** A result and the channel it was read from. */
  datatype Item = Item(gr: GetResult, ch: nat)

  // ---------- Heap order on sequences ----------

  function Parent(k: nat): nat {
    if k == 0 then 0 else (k - 1) / 2
  }

  ghost predicate InOrder(s: seq<Item>, i: nat, k: nat)
    requires i < |s| && k < |s|
  {
    Leq(s[i].gr.key, s[k].gr.key)
  }

  /** The first `n` items form a heap. */
  ghost predicate HeapOrdered(s: seq<Item>, n: nat)
    requires n <= |s|
  {
    forall k :: 0 < k < n ==> InOrder(s, Parent(k), k)
  }

  function Swapped(s: seq<Item>, i: nat, j: nat): (t: seq<Item>)
    requires i < |s| && j < |s|
    ensures |t| == |s| && t[i] == s[j] && t[j] == s[i]
    ensures forall k :: 0 <= k < |s| && k != i && k != j ==> t[k] == s[k]
  {
    s[i := s[j]][j := s[i]]
  }

  lemma SwappedBag(s: seq<Item>, i: nat, j: nat)
    requires i < |s| && j < |s|
    ensures multiset(Swapped(s, i, j)) == multiset(s)
  {
  }

  lemma Trans(s: seq<Item>, a: nat, b: nat, c: nat)
    requires a < |s| && b < |s| && c < |s| && InOrder(s, a, b) && InOrder(s, b, c)
    ensures InOrder(s, a, c)
  {
    CompareTransitive(s[a].gr.key, s[b].gr.key, s[c].gr.key);
  }

  /** The root of a heap is a least item. */
  lemma {:induction false} RootIsLeast(s: seq<Item>, n: nat, k: nat)
    requires k < n <= |s| && HeapOrdered(s, n)
    ensures InOrder(s, 0, k)
    decreases k
  {
    if k == 0 {
      CompareAntisymmetric(s[0].gr.key, s[0].gr.key);
    } else {
      RootIsLeast(s, n, Parent(k));
      Trans(s, 0, Parent(k), k);
    }
  }

  /** Heap order everywhere except between `j` and its parent. */
  ghost predicate RisingAt(s: seq<Item>, j: nat) {
    && j < |s|
    && (forall k :: 0 < k < |s| && k != j ==> InOrder(s, Parent(k), k))
    && (forall k :: 0 < k < |s| && Parent(k) == j && j > 0 ==> InOrder(s, Parent(j), k))
  }

  /** Heap order in the first `n` items except between `i` and its children. */
  ghost predicate SinkingAt(s: seq<Item>, i: nat, n: nat) {
    && i < n <= |s|
    && (forall k :: 0 < k < n && Parent(k) != i ==> InOrder(s, Parent(k), k))
    && (forall k :: 0 < k < n && Parent(k) == i && i > 0 ==> InOrder(s, Parent(i), k))
  }

  lemma RiseStep(s: seq<Item>, j: nat)
    requires RisingAt(s, j) && j > 0 && Less(s[j].gr.key, s[Parent(j)].gr.key)
    ensures RisingAt(Swapped(s, Parent(j), j), Parent(j))
  {
    hide Less;
    var i, t := Parent(j), Swapped(s, Parent(j), j);
    assert InOrder(s, j, i) by { LessIsLeq(s[j].gr.key, s[i].gr.key); }
    forall k | 0 < k < |s| && k != i ensures InOrder(t, Parent(k), k) {
      if k != j && Parent(k) == i {
        Trans(s, j, i, k);
      }
    }
    forall k | 0 < k < |s| && Parent(k) == i && i > 0 ensures InOrder(t, Parent(i), k) {
      if k != j {
        Trans(s, Parent(i), i, k);
      }
    }
  }

  lemma LessIsLeq(a: Bytes, b: Bytes)
    ensures Less(a, b) ==> Leq(a, b)
    ensures !Less(a, b) <==> Leq(b, a)
  {
    CompareAntisymmetric(a, b);
  }

  /** Sinking past the smaller child `j`. */
  lemma SinkStep(s: seq<Item>, i: nat, j: nat, n: nat)
    requires SinkingAt(s, i, n) && i < j < n && Parent(j) == i
    requires forall k :: 0 < k < n && Parent(k) == i ==> InOrder(s, j, k)
    requires Less(s[j].gr.key, s[i].gr.key)
    ensures SinkingAt(Swapped(s, i, j), j, n)
  {
  }

  lemma SinkDone(s: seq<Item>, i: nat, j: nat, n: nat)
    requires SinkingAt(s, i, n) && i < j < n
    requires forall k :: 0 < k < n && Parent(k) == i ==> InOrder(s, j, k)
    requires !Less(s[j].gr.key, s[i].gr.key)
    ensures HeapOrdered(s, n)
  {
    hide Less;
    assert InOrder(s, i, j) by { LessIsLeq(s[j].gr.key, s[i].gr.key); }
    forall k | 0 < k < n ensures InOrder(s, Parent(k), k) {
      if Parent(k) == i { Trans(s, i, j, k); }
    }
  }

  // ---------- The heap ----------

  class ResultHeap {
    var items: seq<Item>

    constructor ()
      ensures items == []
    {
      items := [];
    }

    ghost predicate Valid()
      reads this
    {
      HeapOrdered(items, |items|)
    }

    function Len(): nat
      reads this
    {
      |items|
    }

    predicate LessAt(i: nat, j: nat)
      reads this
      requires i < |items| && j < |items|
    {
      Less(items[i].gr.key, items[j].gr.key)
    }

    method Swap(i: nat, j: nat)
      requires i < |items| && j < |items|
      modifies this
      ensures items == Swapped(old(items), i, j)
    {
      items := items[i := items[j]][j := items[i]];
    }

    method Append(x: Item)
      modifies this
      ensures items == old(items) + [x]
    {
      items := items + [x];
    }

    method RemoveLast() returns (x: Item)
      requires items != []
      modifies this
      ensures x == old(items)[|old(items)| - 1] && items == old(items)[..|old(items)| - 1]
    {
      x := items[|items| - 1];
      items := items[..|items| - 1];
    }

    /** `heap.up`. */
    method Up(j0: nat)
      requires RisingAt(items, j0)
      modifies this
      ensures Valid() && multiset(items) == multiset(old(items)) && |items| == |old(items)|
    {
      hide InOrder;
      var j := j0;
      while true
        invariant RisingAt(items, j)
        invariant multiset(items) == multiset(old(items)) && |items| == |old(items)|
        decreases j
      {
        var i := Parent(j);
        if i == j || !LessAt(j, i) {
          if j > 0 { ParentOf(items, j); }
          return;
        }
        RiseStep(items, j);
        SwappedBag(items, i, j);
        Swap(i, j);
        j := i;
      }
    }

    /** `heap.down` from the root, over the first `n` items. */
    method Down(n: nat)
      requires n <= |items| && (n == 0 || SinkingAt(items, 0, n))
      modifies this
      ensures |items| == |old(items)| && HeapOrdered(items, n)
      ensures multiset(items) == multiset(old(items))
      ensures items[n..] == old(items)[n..]
    {
      hide InOrder, Less;
      var i := 0;
      while n > 0
        invariant n > 0 ==> SinkingAt(items, i, n)
        invariant multiset(items) == multiset(old(items)) && |items| == |old(items)|
        invariant forall k :: n <= k < |items| ==> items[k] == old(items)[k]
        decreases n - i
      {
        var j1 := 2 * i + 1;
        if j1 >= n {
          return;
        }
        var j := j1;
        var j2 := j1 + 1;
        if j2 < n && LessAt(j2, j1) {
          j := j2;
        }
        SmallerChild(items, i, j, n);
        if !LessAt(j, i) {
          SinkDone(items, i, j, n);
          return;
        }
        SinkStep(items, i, j, n);
        SwappedBag(items, i, j);
        Swap(i, j);
        i := j;
      }
    }

    /** `heap.Push`: adds `x` and keeps the heap order. */
    method Push(x: Item)
      requires Valid()
      modifies this
      ensures Valid() && multiset(items) == multiset(old(items)) + multiset{x}
    {
      Append(x);
      Up(|items| - 1);
    }

    /** `heap.Pop`: removes a least item and keeps the heap order. */
    method Pop() returns (x: Item)
      requires Valid() && items != []
      modifies this
      ensures Valid() && multiset(old(items)) == multiset(items) + multiset{x}
      ensures forall y :: y in multiset(old(items)) ==> Leq(x.gr.key, y.gr.key)
    {
      hide InOrder, Leq, SinkingAt, HeapOrdered, Swapped;
      var n := |items| - 1;
      ghost var before := items;
      RootBelowAll(items);
      SwapEnds(items);
      SwappedBag(items, 0, n);
      Swap(0, n);
      Down(n);
      Popped(before, items);
      x := RemoveLast();
    }
  }

  /** The last item after the sift is the old root, and the others are the rest. */
  lemma Popped(before: seq<Item>, after: seq<Item>)
    requires before != [] && |after| == |before| && multiset(after) == multiset(before)
    requires var n := |before| - 1; HeapOrdered(after, n) && after[n..] == Swapped(before, 0, n)[n..]
    ensures var n := |before| - 1;
            && after[n] == before[0] && HeapOrdered(after[..n], n)
            && multiset(before) == multiset(after[..n]) + multiset{after[n]}
  {
    hide InOrder;
    var n := |before| - 1;
    assert after[n] == after[n..][0] == before[0];
    assert after == after[..n] + [after[n]];
    HeapPrefix(after, n);
  }

  lemma RootBelowAll(s: seq<Item>)
    requires s != [] && HeapOrdered(s, |s|)
    ensures forall y :: y in multiset(s) ==> Leq(s[0].gr.key, y.gr.key)
  {
    forall y | y in multiset(s) ensures Leq(s[0].gr.key, y.gr.key) {
      assert y in s;
      var k :| 0 <= k < |s| && s[k] == y;
      RootIsLeast(s, |s|, k);
    }
  }

  /** Moving the last item to the root leaves only the root out of order. */
  lemma SwapEnds(s: seq<Item>)
    requires s != [] && HeapOrdered(s, |s|)
    ensures var n := |s| - 1; n == 0 || SinkingAt(Swapped(s, 0, n), 0, n)
  {
  }

  lemma HeapPrefix(s: seq<Item>, n: nat)
    requires n <= |s| && HeapOrdered(s, n)
    ensures HeapOrdered(s[..n], n)
  {
  }

  lemma ParentOf(s: seq<Item>, j: nat)
    requires 0 < j < |s| && !Less(s[j].gr.key, s[Parent(j)].gr.key)
    ensures InOrder(s, Parent(j), j)
  {
    LessIsLeq(s[j].gr.key, s[Parent(j)].gr.key);
  }

  lemma SmallerChild(s: seq<Item>, i: nat, j: nat, n: nat)
    requires n <= |s| && 2 * i + 1 < n
    requires j == if 2 * i + 2 < n && Less(s[2 * i + 2].gr.key, s[2 * i + 1].gr.key) then 2 * i + 2 else 2 * i + 1
    ensures Parent(j) == i && i < j < n
    ensures forall k :: 0 < k < n && Parent(k) == i ==> InOrder(s, j, k)
  {
    forall k | 0 < k < n && Parent(k) == i ensures InOrder(s, j, k) {
      assert k == 2 * i + 1 || k == 2 * i + 2;
      LessIsLeq(s[j].gr.key, s[k].gr.key);
      LessIsLeq(s[k].gr.key, s[j].gr.key);
      CompareAntisymmetric(s[j].gr.key, s[j].gr.key);
    }
  }
}

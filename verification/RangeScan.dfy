/**
 Range scan across shards (`aggregateAndSortRangeScanAcrossShards`): a k-way merge of the shards'
 streams, driven by a heap that holds at most one result per shard.
 */
module RangeScan {
  import opened Prelude
  import opened KeyOrder
  import opened ResultHeap

  /**
   What is still to be read from one shard's channel. A shard that fails sends its error last; if the
   scan could not even start, the channel is then left open, and reading it again would block forever.
   */
  datatype Stream = Stream(items: seq<GetResult>, closed: bool)

  ghost predicate Good(s: Stream) {
    && (forall i :: 0 <= i < |s.items| - 1 ==> s.items[i].err.None?)
    && (forall i :: 0 <= i < |s.items| && s.items[i].err.Some? ==> s.items[i].key == [])
    && (forall i, j :: 0 <= i < j < |s.items| && s.items[j].err.None? ==> Leq(s.items[i].key, s.items[j].key))
    && (s.closed || (s.items != [] && s.items[|s.items| - 1].err.Some?))
  }

  /** `<-ch`: the next result, or nothing once the channel is closed and empty. */
  method Receive(chs: seq<Stream>, c: nat) returns (gr: Option<GetResult>, rest: seq<Stream>)
    requires c < |chs| && (chs[c].items != [] || chs[c].closed)
    ensures chs[c].items == [] ==> gr == None && rest == chs
    ensures chs[c].items != [] ==> gr == Some(chs[c].items[0]) && rest == Advance(chs, c)
  {
    gr, rest := None, chs;
    if chs[c].items != [] {
      gr, rest := Some(chs[c].items[0]), Advance(chs, c);
    }
  }

  function Advance(chs: seq<Stream>, c: nat): (rest: seq<Stream>)
    requires c < |chs| && chs[c].items != []
    ensures |rest| == |chs| && rest[c] == chs[c].(items := chs[c].items[1..])
    ensures forall d :: 0 <= d < |chs| && d != c ==> rest[d] == chs[d]
  {
    chs[c := chs[c].(items := chs[c].items[1..])]
  }

  // ---------- Everything the streams hold, tagged with the channel ----------

  function Tagged(rs: seq<GetResult>, c: nat): seq<Item> {
    if rs == [] then [] else [Item(rs[0], c)] + Tagged(rs[1..], c)
  }

  lemma {:induction false} TaggedMember(rs: seq<GetResult>, c: nat, x: Item)
    ensures x in Tagged(rs, c) <==> x.ch == c && x.gr in rs
  {
    if rs != [] { TaggedMember(rs[1..], c, x); }
  }

  function Flat(chs: seq<Stream>, c: nat): seq<Item>
    requires c <= |chs|
    decreases |chs| - c
  {
    if c == |chs| then [] else Tagged(chs[c].items, c) + Flat(chs, c + 1)
  }

  lemma {:induction false} FlatSame(a: seq<Stream>, b: seq<Stream>, c: nat)
    requires c <= |a| == |b| && forall d :: c <= d < |a| ==> a[d] == b[d]
    ensures Flat(a, c) == Flat(b, c)
    decreases |a| - c
  {
    if c < |a| { FlatSame(a, b, c + 1); }
  }

  lemma FlatAdvanceHere(chs: seq<Stream>, c: nat)
    requires c < |chs| && chs[c].items != []
    ensures Flat(chs, c) == [Item(chs[c].items[0], c)] + Flat(Advance(chs, c), c)
  {
    hide Tagged, Advance;
    var rest := Advance(chs, c);
    FlatSame(chs, rest, c + 1);
    TaggedHead(chs[c].items, c);
    Regroup(Item(chs[c].items[0], c), Tagged(rest[c].items, c), Flat(rest, c + 1));
  }

  lemma TaggedHead(rs: seq<GetResult>, c: nat)
    requires rs != []
    ensures Tagged(rs, c) == [Item(rs[0], c)] + Tagged(rs[1..], c)
  {
  }

  lemma Regroup(x: Item, t: seq<Item>, f: seq<Item>)
    ensures ([x] + t) + f == [x] + (t + f)
  {
  }

  lemma BagBehind(a: seq<Item>, b: seq<Item>, b': seq<Item>, x: Item)
    requires multiset(b) == multiset(b') + multiset{x}
    ensures multiset(a + b) == multiset(a + b') + multiset{x}
  {
  }

  /** Reading one result moves exactly that result out of the streams. */
  lemma {:induction false} FlatAdvance(chs: seq<Stream>, c: nat, d: nat)
    requires d <= c < |chs| && chs[c].items != []
    ensures multiset(Flat(chs, d)) == multiset(Flat(Advance(chs, c), d)) + multiset{Item(chs[c].items[0], c)}
    ensures |Flat(chs, d)| == |Flat(Advance(chs, c), d)| + 1
    decreases c - d
  {
    hide Tagged;
    if d == c {
      FlatAdvanceHere(chs, c);
    } else {
      FlatAdvance(chs, c, d + 1);
      BagBehind(Tagged(chs[d].items, d), Flat(chs, d + 1), Flat(Advance(chs, c), d + 1), Item(chs[c].items[0], c));
    }
  }

  lemma {:induction false} FlatMember(chs: seq<Stream>, c: nat, x: Item)
    requires c <= |chs| && x in Flat(chs, c)
    ensures c <= x.ch < |chs| && x.gr in chs[x.ch].items
    decreases |chs| - c
  {
    TaggedMember(chs[c].items, c, x);
    if x !in Tagged(chs[c].items, c) {
      FlatMember(chs, c + 1, x);
    }
  }

  /** Every result is there once for each time its channel holds it, and under no other channel. */
  lemma {:induction false} FlatCount(chs: seq<Stream>, d: nat, c: nat, g: GetResult)
    requires d <= |chs| && c < |chs|
    ensures multiset(Flat(chs, d))[Item(g, c)] == if d <= c then multiset(chs[c].items)[g] else 0
    decreases |chs| - d
  {
    hide Tagged;
    if d < |chs| {
      FlatCount(chs, d + 1, c, g);
      TaggedCount(chs[d].items, d, c, g);
      CountOfBoth(Tagged(chs[d].items, d), Flat(chs, d + 1), Item(g, c));
    }
  }

  lemma CountOfBoth(a: seq<Item>, b: seq<Item>, x: Item)
    ensures multiset(a + b)[x] == multiset(a)[x] + multiset(b)[x]
  {
  }

  lemma {:induction false} TaggedCount(rs: seq<GetResult>, d: nat, c: nat, g: GetResult)
    ensures multiset(Tagged(rs, d))[Item(g, c)] == if c == d then multiset(rs)[g] else 0
  {
    if rs != [] {
      TaggedCount(rs[1..], d, c, g);
      assert rs == [rs[0]] + rs[1..];
    }
  }

  // ---------- The loop invariant ----------

  /** `x` came out of stream `s` last: nothing left in `s` is below it, and after an error nothing is left. */
  ghost predicate HeadOf(x: Item, s: Stream) {
    && (x.gr.err.Some? ==> x.gr.key == [] && s.items == [])
    && (x.gr.err.None? ==> Good(s) && forall i :: 0 <= i < |s.items| && s.items[i].err.None? ==>
                                         Leq(x.gr.key, s.items[i].key))
  }

  ghost predicate HasHead(h: multiset<Item>, c: nat) {
    exists x :: x in h && x.ch == c
  }

  /** The heap `h` holds one head of every stream that is not empty, except those in `unread`. */
  ghost predicate Heads(h: multiset<Item>, chs: seq<Stream>, unread: set<nat>) {
    && (forall x :: x in h ==> x.ch < |chs| && x.ch !in unread && h[x] == 1 && HeadOf(x, chs[x.ch]))
    && (forall x, y :: x in h && y in h && x.ch == y.ch ==> x == y)
    && (forall c :: c in unread && c < |chs| ==> Good(chs[c]))
    && (forall c :: 0 <= c < |chs| && c !in unread && chs[c].items != [] ==> HasHead(h, c))
  }

  /** What was emitted so far: sorted successes, none above a success in the heap. */
  ghost predicate Emitted(out: seq<Item>, h: multiset<Item>) {
    && (forall i :: 0 <= i < |out| ==> out[i].gr.err.None?)
    && (forall i, j :: 0 <= i < j < |out| ==> Leq(out[i].gr.key, out[j].gr.key))
    && (forall i, x :: 0 <= i < |out| && x in h && x.gr.err.None? ==> Leq(out[i].gr.key, x.gr.key))
  }

  lemma AdvanceHead(s: Stream, c: nat)
    requires Good(s) && s.items != []
    ensures HeadOf(Item(s.items[0], c), s.(items := s.items[1..]))
  {
  }

  lemma AddOne(h: multiset<Item>, x: Item)
    requires x !in h
    ensures forall y :: y in h + multiset{x} <==> y in h || y == x
    ensures (h + multiset{x})[x] == 1 && forall y :: y in h ==> (h + multiset{x})[y] == h[y]
  {
  }

  lemma HasHeadMore(h: multiset<Item>, x: Item, d: nat)
    requires HasHead(h, d) || x.ch == d
    ensures HasHead(h + multiset{x}, d)
  {
  }

  /** Reading an unread channel: it is exhausted, or its head joins the heap. */
  lemma HeadsRead(h: multiset<Item>, chs: seq<Stream>, unread: set<nat>, c: nat)
    requires Heads(h, chs, unread) && c in unread && c < |chs|
    ensures chs[c].items == [] ==> Heads(h, chs, unread - {c})
    ensures chs[c].items != [] ==> Heads(h + multiset{Item(chs[c].items[0], c)}, Advance(chs, c), unread - {c})
  {
    hide Good, HeadOf, Leq, HasHead;
    if chs[c].items != [] {
      var x, rest := Item(chs[c].items[0], c), Advance(chs, c);
      var g := h + multiset{x};
      AdvanceHead(chs[c], c);
      AddOne(h, x);
      forall d | 0 <= d < |chs| && d !in unread - {c} && rest[d].items != [] ensures HasHead(g, d) {
        HasHeadMore(h, x, d);
      }
    }
  }

  /** Popping a success leaves its channel, and only that, to be read. */
  lemma HeadsPop(h: multiset<Item>, g: multiset<Item>, chs: seq<Stream>, x: Item)
    requires Heads(h, chs, {}) && h == g + multiset{x} && x.gr.err.None?
    ensures x.ch < |chs| && Heads(g, chs, {x.ch})
  {
    hide Leq, Good;
    assert x in h && h[x] == 1 && x !in g;
    assert forall y :: y in g ==> y in h && g[y] == h[y];
    forall d | 0 <= d < |chs| && d != x.ch && chs[d].items != [] ensures HasHead(g, d) {
      assert HasHead(h, d);
      var y :| y in h && y.ch == d;
      assert y in g;
    }
  }

  /** Emitting a least head keeps the output sorted, also against the head that replaces it. */
  lemma EmittedPop(out: seq<Item>, h: multiset<Item>, g: multiset<Item>, x: Item)
    requires Emitted(out, h) && h == g + multiset{x} && x.gr.err.None?
    requires forall y :: y in h ==> Leq(x.gr.key, y.gr.key)
    ensures Emitted(out + [x], g)
  {
    hide Leq;
    assert x in h && forall y :: y in g ==> y in h;
  }

  lemma EmittedPush(out: seq<Item>, h: multiset<Item>, x: Item)
    requires Emitted(out, h)
    requires x.gr.err.None? ==> forall i :: 0 <= i < |out| ==> Leq(out[i].gr.key, x.gr.key)
    ensures Emitted(out, h + multiset{x})
  {
  }

  /** Everything emitted is at or below everything still to come. */
  lemma EmittedBelowRest(out: seq<Item>, h: multiset<Item>, chs: seq<Stream>, unread: set<nat>, x: Item)
    requires Emitted(out, h) && Heads(h, chs, unread) && x in Flat(chs, 0) && x.gr.err.None?
    requires x.ch !in unread
    ensures forall i :: 0 <= i < |out| ==> Leq(out[i].gr.key, x.gr.key)
  {
    FlatMember(chs, 0, x);
    assert HasHead(h, x.ch);
    var y :| y in h && y.ch == x.ch;
    assert HeadOf(y, chs[x.ch]);
    forall i | 0 <= i < |out| ensures Leq(out[i].gr.key, x.gr.key) {
      CompareTransitive(out[i].gr.key, y.gr.key, x.gr.key);
    }
  }

  // ---------- The merge ----------

  ghost predicate HasError(chs: seq<Stream>) {
    exists x :: x in Flat(chs, 0) && x.gr.err.Some?
  }

  ghost function Results(xs: seq<Item>): (rs: seq<GetResult>)
    ensures |rs| == |xs| && forall i :: 0 <= i < |xs| ==> rs[i] == xs[i].gr
  {
    seq(|xs|, i requires 0 <= i < |xs| => xs[i].gr)
  }

  /** The channels `c, c + 1, .. n - 1`. */
  function Channels(c: nat, n: nat): (cs: set<nat>)
    ensures forall d :: d in cs <==> c <= d < n
    decreases n - c
  {
    if c >= n then {} else {c} + Channels(c + 1, n)
  }

  /** What was emitted, what is in the heap and what is unread make up what the channels held. */
  ghost predicate Conserved(out: seq<Item>, h: multiset<Item>, chs: seq<Stream>, channels: seq<Stream>) {
    multiset(out) + h + multiset(Flat(chs, 0)) == multiset(Flat(channels, 0))
  }

  lemma ConservedRead(out: seq<Item>, h: multiset<Item>, chs: seq<Stream>, channels: seq<Stream>, c: nat)
    requires Conserved(out, h, chs, channels) && c < |chs| && chs[c].items != []
    ensures Conserved(out, h + multiset{Item(chs[c].items[0], c)}, Advance(chs, c), channels)
  {
    FlatAdvance(chs, c, 0);
  }

  lemma ConservedPop(out: seq<Item>, h: multiset<Item>, g: multiset<Item>, x: Item,
                     chs: seq<Stream>, channels: seq<Stream>)
    requires Conserved(out, h, chs, channels) && h == g + multiset{x}
    ensures Conserved(out + [x], g, chs, channels)
  {
  }

  /** First one result from each channel. */
  method Fill(channels: seq<Stream>) returns (h: ResultHeap, chs: seq<Stream>)
    requires forall c :: 0 <= c < |channels| ==> Good(channels[c])
    ensures fresh(h) && h.Valid() && |chs| == |channels|
    ensures Heads(multiset(h.items), chs, {}) && Conserved([], multiset(h.items), chs, channels)
  {
    hide Good, Heads, Conserved;
    chs := channels;
    h := new ResultHeap();
    HeadsStart(channels);
    for c := 0 to |channels|
      invariant fresh(h) && h.Valid() && |chs| == |channels|
      invariant Heads(multiset(h.items), chs, Channels(c, |channels|))
      invariant Conserved([], multiset(h.items), chs, channels)
    {
      ReadNow(multiset(h.items), chs, Channels(c, |channels|), c);
      assert Channels(c, |channels|) - {c} == Channels(c + 1, |channels|);
      var gr, rest := Receive(chs, c);
      if gr.Some? {
        ConservedRead([], multiset(h.items), chs, channels, c);
        h.Push(Item(gr.value, c));
      }
      chs := rest;
    }
    assert Channels(|channels|, |channels|) == {};
  }

  /** Then, after emitting `r`, one more from the channel it came from. */
  method ReadAgain(h: ResultHeap, chs: seq<Stream>, r: Item, ghost out: seq<Item>, ghost before: multiset<Item>,
                   ghost channels: seq<Stream>)
    returns (rest: seq<Stream>)
    requires h.Valid() && before == multiset(h.items) + multiset{r} && r.gr.err.None?
    requires forall y :: y in before ==> Leq(r.gr.key, y.gr.key)
    requires Heads(before, chs, {}) && Emitted(out, before) && Conserved(out, before, chs, channels)
    modifies h
    ensures h.Valid() && |rest| == |chs|
    ensures Heads(multiset(h.items), rest, {}) && Emitted(out + [r], multiset(h.items))
    ensures Conserved(out + [r], multiset(h.items), rest, channels)
    ensures |h.items| + |Flat(rest, 0)| == |old(h.items)| + |Flat(chs, 0)|
  {
    hide Leq, Good, Heads, Emitted, Conserved, Flat;
    ghost var g := multiset(h.items);
    HeadsPop(before, g, chs, r);
    EmittedPop(out, before, g, r);
    ConservedPop(out, before, g, r, chs, channels);
    ReadNow(g, chs, {r.ch}, r.ch);
    assert {r.ch} - {r.ch} == {};
    var gr;
    gr, rest := Receive(chs, r.ch);
    if gr.Some? {
      FlatAdvance(chs, r.ch, 0);
      NextIsAbove(out, before, chs, r);
      EmittedPush(out + [r], g, Item(gr.value, r.ch));
      ConservedRead(out + [r], g, chs, channels, r.ch);
      h.Push(Item(gr.value, r.ch));
    }
  }

  /**
   What the merge promises of its output `out`, with `from` the channel each result came from and `left` what
   was never emitted. Without errors everything is emitted, in key order; otherwise the output is a sorted
   run of successes, none above any success left behind, followed by one error.
   */
  ghost predicate Merged(channels: seq<Stream>, out: seq<GetResult>, from: seq<Item>, left: multiset<Item>) {
    && out == Results(from)
    && multiset(from) + left == multiset(Flat(channels, 0))
    && (forall i :: 0 <= i < |out| - 1 ==> out[i].err.None?)
    && (forall i, j :: 0 <= i < j < |out| && out[j].err.None? ==> Leq(out[i].key, out[j].key))
    && (!HasError(channels) ==> left == multiset{} && forall i :: 0 <= i < |out| ==> out[i].err.None?)
    && (HasError(channels) ==> out != [] && out[|out| - 1].err.Some?)
    && (forall i, x :: 0 <= i < |out| && out[i].err.None? && x in left && x.gr.err.None? ==> Leq(out[i].key, x.gr.key))
  }

  /** The merge, for any number of shards. */
  method Merge(channels: seq<Stream>) returns (out: seq<GetResult>, ghost from: seq<Item>, ghost left: multiset<Item>)
    requires forall c :: 0 <= c < |channels| ==> Good(channels[c])
    ensures Merged(channels, out, from, left)
  {
    hide Leq, Good, HeadOf, Heads, Emitted, Flat, Conserved, HasError, Merged, Results;
    var h, chs := Fill(channels);
    out, from := [], [];
    EmittedNothing(multiset(h.items));
    while h.Len() > 0
      invariant h.Valid() && fresh(h) && |chs| == |channels| && out == Results(from)
      invariant Heads(multiset(h.items), chs, {}) && Emitted(from, multiset(h.items))
      invariant Conserved(from, multiset(h.items), chs, channels)
      decreases |Flat(chs, 0)| + |h.items|
    {
      ghost var before, emitted := multiset(h.items), from;
      var r := h.Pop();
      SizeAfterPop(before, multiset(h.items), r);
      ResultsOne(from, r);
      out, from := out + [r.gr], from + [r];
      if r.gr.err.Some? {
        left := multiset(h.items) + multiset(Flat(chs, 0));
        ErrorEnds(emitted, before, multiset(h.items), chs, r, channels);
        return;
      }
      chs := ReadAgain(h, chs, r, emitted, before, channels);
    }
    left := multiset{};
    AllRead(from, chs, channels);
  }

  lemma ResultsOne(from: seq<Item>, r: Item)
    ensures Results(from + [r]) == Results(from) + [r.gr]
  {
  }

  lemma SizeAfterPop(h: multiset<Item>, g: multiset<Item>, x: Item)
    requires h == g + multiset{x}
    ensures |h| == |g| + 1
  {
  }

  lemma HeadsStart(chs: seq<Stream>)
    requires forall c :: 0 <= c < |chs| ==> Good(chs[c])
    ensures Heads(multiset{}, chs, Channels(0, |chs|)) && Conserved([], multiset{}, chs, chs)
  {
  }

  lemma EmittedNothing(h: multiset<Item>)
    ensures Emitted([], h)
  {
  }

  /** An unread channel may be read, and reading it restores the invariant. */
  lemma ReadNow(h: multiset<Item>, chs: seq<Stream>, unread: set<nat>, c: nat)
    requires Heads(h, chs, unread) && c in unread && c < |chs|
    ensures chs[c].items != [] || chs[c].closed
    ensures chs[c].items == [] ==> Heads(h, chs, unread - {c})
    ensures chs[c].items != [] ==> Heads(h + multiset{Item(chs[c].items[0], c)}, Advance(chs, c), unread - {c})
  {
    HeadsRead(h, chs, unread, c);
    assert Good(chs[c]);
  }

  /** The next result of the channel just popped is above everything emitted, the popped result included. */
  lemma NextIsAbove(out: seq<Item>, h: multiset<Item>, chs: seq<Stream>, x: Item)
    requires Emitted(out, h) && Heads(h, chs, {}) && x in h && x.gr.err.None? && x.ch < |chs| && chs[x.ch].items != []
    ensures var z := chs[x.ch].items[0];
            z.err.None? ==> forall i :: 0 <= i < |out + [x]| ==> Leq((out + [x])[i].gr.key, z.key)
  {
    var z := chs[x.ch].items[0];
    assert HeadOf(x, chs[x.ch]);
    if z.err.None? {
      forall i | 0 <= i < |out| ensures Leq(out[i].gr.key, z.key) {
        CompareTransitive(out[i].gr.key, x.gr.key, z.key);
      }
    }
  }

  lemma ErrorEnds(out: seq<Item>, h: multiset<Item>, g: multiset<Item>, chs: seq<Stream>, x: Item, channels: seq<Stream>)
    requires Emitted(out, h) && Heads(h, chs, {}) && h == g + multiset{x} && x.gr.err.Some?
    requires Conserved(out, h, chs, channels)
    ensures Merged(channels, Results(out + [x]), out + [x], g + multiset(Flat(chs, 0)))
  {
    hide Leq, Heads, HasError, Flat, Emitted, Conserved, Merged, Results;
    var left := g + multiset(Flat(chs, 0));
    ErrorIsThere(out, h, g, chs, x, channels);
    forall i, y | 0 <= i < |out| && y in left && y.gr.err.None? ensures Leq(out[i].gr.key, y.gr.key) {
      LeftIsAbove(out, h, g, chs, x, y, i);
    }
    MergedWithError(out, h, x, left, channels);
  }

  lemma MergedWithError(out: seq<Item>, h: multiset<Item>, x: Item, left: multiset<Item>, channels: seq<Stream>)
    requires Emitted(out, h) && HasError(channels) && x.gr.err.Some?
    requires multiset(out + [x]) + left == multiset(Flat(channels, 0))
    requires forall i, y :: 0 <= i < |out| && y in left && y.gr.err.None? ==> Leq(out[i].gr.key, y.gr.key)
    ensures Merged(channels, Results(out + [x]), out + [x], left)
  {
    hide Leq, HasError, Flat;
    var from := out + [x];
    assert from[|out|] == x && forall i :: 0 <= i < |out| ==> from[i] == out[i];
  }

  lemma ErrorIsThere(out: seq<Item>, h: multiset<Item>, g: multiset<Item>, chs: seq<Stream>, x: Item,
                     channels: seq<Stream>)
    requires Conserved(out, h, chs, channels) && h == g + multiset{x} && x.gr.err.Some?
    ensures HasError(channels)
    ensures multiset(out + [x]) + (g + multiset(Flat(chs, 0))) == multiset(Flat(channels, 0))
  {
    hide Flat;
    assert x in multiset(Flat(channels, 0));
    assert x in Flat(channels, 0);
  }

  lemma LeftIsAbove(out: seq<Item>, h: multiset<Item>, g: multiset<Item>, chs: seq<Stream>, x: Item, y: Item, i: nat)
    requires Emitted(out, h) && Heads(h, chs, {}) && h == g + multiset{x} && i < |out|
    requires y in g + multiset(Flat(chs, 0)) && y.gr.err.None?
    ensures Leq(out[i].gr.key, y.gr.key)
  {
    hide Leq, Heads, Flat;
    if y in g {
      assert y in h;
    } else {
      assert y in Flat(chs, 0);
      EmittedBelowRest(out, h, chs, {}, y);
    }
  }

  lemma NothingUnread(chs: seq<Stream>)
    requires Heads(multiset{}, chs, {})
    ensures Flat(chs, 0) == []
  {
    hide Leq, Good, HeadOf;
    if Flat(chs, 0) != [] {
      var x := Flat(chs, 0)[0];
      FlatMember(chs, 0, x);
      assert false;
    }
  }

  /** With an empty heap every stream is exhausted, so no error was among them. */
  lemma AllRead(out: seq<Item>, chs: seq<Stream>, channels: seq<Stream>)
    requires Heads(multiset{}, chs, {}) && Emitted(out, multiset{})
    requires Conserved(out, multiset{}, chs, channels)
    ensures Merged(channels, Results(out), out, multiset{})
  {
    hide Leq, Good, HeadOf, Heads, Flat;
    NothingUnread(chs);
    assert multiset(out) + multiset{} + multiset{} == multiset(out) == multiset(out) + multiset{};
    SameMembers(out, Flat(channels, 0));
  }
}

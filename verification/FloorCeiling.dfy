/**
 Floor, lower, ceiling and higher queries across shards (`doFloorCeilingGet`): every shard answers the
 query on its own records, and the callbacks, in whatever order they arrive, pick the answer for all.
 */
module FloorCeiling {
  import opened Prelude
  import opened KeyOrder
  import opened ResultHeap

  datatype Comparison = Floor | Lower | Ceiling | Higher

  datatype Record = Record(value: Bytes, versionId: int)

  type Shard = map<Bytes, Record>

  /** What a shard answers; for these comparisons a response always carries its key. */
  datatype Response = Found(key: Bytes, record: Record) | NotFound

  // ---------- What the query asks for ----------

  predicate Matches(c: Comparison, query: Bytes, key: Bytes) {
    match c
    case Floor => Leq(key, query)
    case Lower => Less(key, query)
    case Ceiling => Leq(query, key)
    case Higher => Less(query, key)
  }

  predicate FromBelow(c: Comparison) {
    c.Floor? || c.Lower?
  }

  /** Key `a` is at least as near to the query as key `b`, both matching it. */
  predicate AsNear(c: Comparison, a: Bytes, b: Bytes) {
    if FromBelow(c) then Leq(b, a) else Leq(a, b)
  }

  /** `r` is an answer over all the records of `shards`: a nearest matching record, or none matches. */
  ghost predicate IsAnswer(c: Comparison, query: Bytes, shards: seq<Shard>, r: Response) {
    match r
    case NotFound => forall s, k :: s in shards && k in s ==> !Matches(c, query, k)
    case Found(key, record) =>
      && Matches(c, query, key)
      && (exists s :: s in shards && key in s && s[key] == record)
      && (forall s, k :: s in shards && k in s && Matches(c, query, k) ==> AsNear(c, key, k))
  }

  /** On one set of records there is only one answer. */
  lemma AnswerIsUnique(c: Comparison, query: Bytes, shard: Shard, a: Response, b: Response)
    requires IsAnswer(c, query, [shard], a) && IsAnswer(c, query, [shard], b)
    ensures a == b
  {
    hide Leq, Less, Compare;
    assert shard in [shard];
    if a.Found? && b.Found? {
      LeqAntisymmetric(a.key, b.key);
    }
  }

  lemma LeqAntisymmetric(a: Bytes, b: Bytes)
    ensures Leq(a, b) && Leq(b, a) ==> a == b
    ensures Leq(a, b) || Leq(b, a)
  {
    CompareAntisymmetric(a, b);
  }

  // ---------- All shards as one store ----------

  function Union(shards: seq<Shard>): Shard {
    if shards == [] then map[] else Union(shards[1..]) + shards[0]
  }

  /** No key is on two shards: a key is on the shard that owns its hash. */
  ghost predicate Disjoint(shards: seq<Shard>) {
    forall s, t, k :: s in shards && t in shards && k in s && k in t ==> s == t
  }

  lemma {:induction false} UnionHolds(shards: seq<Shard>, k: Bytes)
    requires Disjoint(shards)
    ensures k in Union(shards) <==> exists s :: s in shards && k in s
    ensures forall s :: s in shards && k in s ==> k in Union(shards) && Union(shards)[k] == s[k]
  {
    if shards != [] {
      assert forall s :: s in shards <==> s == shards[0] || s in shards[1..];
      UnionHolds(shards[1..], k);
    }
  }

  /** Asking every shard is asking the union. */
  lemma AnswerOnUnion(c: Comparison, query: Bytes, shards: seq<Shard>, r: Response)
    requires Disjoint(shards)
    ensures IsAnswer(c, query, shards, r) <==> IsAnswer(c, query, [Union(shards)], r)
  {
    hide Matches, AsNear, Union, Disjoint;
    var u := Union(shards);
    assert u in [u];
    forall k
      ensures k in u <==> exists s :: s in shards && k in s
      ensures forall s :: s in shards && k in s ==> k in u && u[k] == s[k]
    {
      UnionHolds(shards, k);
    }
  }

  // ---------- Sorting the responses ----------

  ghost predicate Sorted(rs: seq<Response>) {
    && (forall i :: 0 <= i < |rs| ==> rs[i].Found?)
    && (forall i, j :: 0 <= i < j < |rs| ==> Leq(rs[i].key, rs[j].key))
  }

  lemma InsertKeepsSorted(rs: seq<Response>, k: nat, r: Response)
    requires Sorted(rs) && k <= |rs| && r.Found?
    requires forall i :: 0 <= i < k ==> Leq(rs[i].key, r.key)
    requires k < |rs| ==> Leq(r.key, rs[k].key)
    ensures Sorted(rs[..k] + [r] + rs[k..])
  {
    hide Leq;
    forall i | k <= i < |rs| ensures Leq(r.key, rs[i].key) {
      LeqTransitive(r.key, rs[k].key, rs[i].key);
    }
  }

  lemma InsertKeepsBag(rs: seq<Response>, k: nat, r: Response)
    requires k <= |rs|
    ensures multiset(rs[..k] + [r] + rs[k..]) == multiset(rs) + multiset{r} == multiset(rs + [r])
  {
    assert rs == rs[..k] + rs[k..];
  }

  lemma LeqTransitive(a: Bytes, b: Bytes, c: Bytes)
    ensures Leq(a, b) && Leq(b, c) ==> Leq(a, c)
    ensures Leq(b, b)
  {
    CompareAntisymmetric(b, b);
    if Leq(a, b) && Leq(b, c) { CompareTransitive(a, b, c); }
  }

  /** `slices.SortFunc` with `CompareWithSlash` on the keys. */
  method SortFunc(rs: seq<Response>) returns (sorted: seq<Response>)
    requires forall i :: 0 <= i < |rs| ==> rs[i].Found?
    ensures Sorted(sorted) && multiset(sorted) == multiset(rs)
  {
    hide Sorted, Leq, Compare;
    sorted := [];
    SortedNothing();
    for n := 0 to |rs|
      invariant Sorted(sorted) && multiset(sorted) == multiset(rs[..n])
    {
      var k := FindSlot(sorted, rs[n].key);
      InsertKeepsSorted(sorted, k, rs[n]);
      InsertKeepsBag(sorted, k, rs[n]);
      assert rs[..n + 1] == rs[..n] + [rs[n]];
      sorted := sorted[..k] + [rs[n]] + sorted[k..];
    }
    assert rs[..|rs|] == rs;
  }

  lemma SortedNothing()
    ensures Sorted([])
  {
  }

  method FindSlot(sorted: seq<Response>, key: Bytes) returns (k: nat)
    requires Sorted(sorted)
    ensures k <= |sorted| && (forall i :: 0 <= i < k ==> sorted[i].Found? && Leq(sorted[i].key, key))
    ensures k < |sorted| ==> sorted[k].Found? && Leq(key, sorted[k].key)
  {
    k := 0;
    while k < |sorted|
      invariant k <= |sorted| && forall i :: 0 <= i < k ==> Leq(sorted[i].key, key)
    {
      LeqAntisymmetric(sorted[k].key, key);
      var c := CompareWithSlash(sorted[k].key, key);
      if c > 0 { return; }
      k := k + 1;
    }
  }

  // ---------- Picking the answer ----------

  /** `selected` is a nearest of the found records, or not-found if there is none. */
  ghost predicate IsNearest(c: Comparison, results: seq<Response>, selected: Response) {
    && (results == [] ==> selected == NotFound)
    && (results != [] ==> selected in results && selected.Found?)
    && (forall r :: r in results ==> r.Found? && AsNear(c, selected.key, r.key))
  }

  /** `processAllGetResponses`, up to the channel send. */
  method Select(c: Comparison, results: seq<Response>) returns (selected: Response)
    requires forall i :: 0 <= i < |results| ==> results[i].Found?
    ensures IsNearest(c, results, selected)
  {
    hide Leq, Compare;
    if |results| == 0 {
      return NotFound;
    }
    var sorted := SortFunc(results);
    SameMembers(results, sorted);
    match c {
      case Floor => selected := sorted[|sorted| - 1];
      case Lower => selected := sorted[|sorted| - 1];
      case Ceiling => selected := sorted[0];
      case Higher => selected := sorted[0];
    }
    forall r | r in results ensures r.Found? && AsNear(c, selected.key, r.key) {
      var i :| 0 <= i < |sorted| && sorted[i] == r;
      LeqTransitive(r.key, r.key, r.key);
    }
  }

  function ToGetResult(r: Response): GetResult {
    match r
    case NotFound => GetResult([], [], 0, Some("key not found"))
    case Found(key, record) => GetResult(key, record.value, record.versionId, None)
  }

  /**
   `g` is what the query promises its caller, over all the records of `shards`: a stored record whose key satisfies
   the comparison, with no stored key in between, or the key-not-found error when no stored key satisfies it.
   */
  ghost predicate Returns(c: Comparison, query: Bytes, shards: seq<Shard>, g: GetResult) {
    if g.err.None? then
      && (exists s :: s in shards && g.key in s && s[g.key] == Record(g.value, g.versionId))
      && match c
         case Floor => Leq(g.key, query) && forall s, k :: s in shards && k in s && Leq(k, query) ==> Leq(k, g.key)
         case Lower => Less(g.key, query) && forall s, k :: s in shards && k in s && Less(k, query) ==> Leq(k, g.key)
         case Ceiling => Leq(query, g.key) && forall s, k :: s in shards && k in s && Leq(query, k) ==> Leq(g.key, k)
         case Higher => Less(query, g.key) && forall s, k :: s in shards && k in s && Less(query, k) ==> Leq(g.key, k)
    else
      && g == GetResult([], [], 0, Some("key not found"))
      && match c
         case Floor => forall s, k :: s in shards && k in s ==> Less(query, k)
         case Lower => forall s, k :: s in shards && k in s ==> Leq(query, k)
         case Ceiling => forall s, k :: s in shards && k in s ==> Less(k, query)
         case Higher => forall s, k :: s in shards && k in s ==> Leq(k, query)
  }

  lemma AnswerIsReturned(c: Comparison, query: Bytes, shards: seq<Shard>, r: Response)
    requires IsAnswer(c, query, shards, r)
    ensures Returns(c, query, shards, ToGetResult(r))
  {
    hide Leq, Less, Compare;
    match r {
      case NotFound =>
        forall s, k | s in shards && k in s
          ensures !Leq(k, query) <==> Less(query, k)
          ensures !Less(k, query) <==> Leq(query, k)
        {
          LeqOrLess(k, query);
        }
      case Found(key, record) =>
        var s :| s in shards && key in s && s[key] == record;
        assert record == Record(record.value, record.versionId);
    }
  }

  lemma LeqOrLess(a: Bytes, b: Bytes)
    ensures Less(a, b) <==> !Leq(b, a)
    ensures Less(b, a) <==> !Leq(a, b)
  {
    CompareAntisymmetric(a, b);
  }

  /** `g` is a found record with the greatest or the least key of all those found, or the error if none was. */
  ghost predicate Nearest(c: Comparison, results: seq<Response>, g: GetResult) {
    if results == [] then g == GetResult([], [], 0, Some("key not found"))
    else
      && g.err.None?
      && Found(g.key, Record(g.value, g.versionId)) in results
      && forall r :: r in results && r.Found? ==> if c.Floor? || c.Lower? then Leq(r.key, g.key) else Leq(g.key, r.key)
  }

  lemma NearestIsReturned(c: Comparison, results: seq<Response>, selected: Response)
    requires IsNearest(c, results, selected)
    ensures Nearest(c, results, ToGetResult(selected))
  {
    hide Leq;
    if selected.Found? {
      assert selected == Found(selected.key, Record(selected.record.value, selected.record.versionId));
    }
  }

  // ---------- The callbacks ----------

  /** What a shard's callback is given: a response, or an error and no response. */
  datatype Reply = Answer(response: Response) | Failed(err: string)

  function Collect(results: seq<Response>, r: Response): seq<Response> {
    if r.Found? then results + [r] else results
  }

  /** What the callbacks of one query share, under its mutex, and what they sent on the result channel. */
  class FanOut {
    const comparison: Comparison
    var results: seq<Response>
    var counter: int
    var sent: seq<GetResult>
    var closed: bool

    constructor (c: Comparison, shards: nat)
      ensures comparison == c && results == [] && counter == shards && sent == [] && !closed
    {
      comparison, results, counter, sent, closed := c, [], shards, [], false;
    }

    /**
     The callback of one shard. After an error it goes on to look at the response, which is nil then, and
     panics; by that time it has sent the error and closed the channel.
     */
    method Callback(reply: Reply) returns (panicked: bool, ghost selected: Response)
      requires !closed && counter > 0 && forall i :: 0 <= i < |results| ==> results[i].Found?
      modifies this
      ensures panicked <==> reply.Failed?
      ensures panicked ==> closed && sent == old(sent) + [GetResult([], [], 0, Some(reply.err))]
      ensures !panicked ==> results == Collect(old(results), reply.response) && counter == old(counter) - 1
      ensures !panicked && counter > 0 ==> sent == old(sent) && !closed
      ensures !panicked && counter == 0 ==>
                closed && sent == old(sent) + [ToGetResult(selected)] && IsNearest(comparison, results, selected)
      ensures !panicked && counter == 0 ==> Nearest(comparison, results, sent[|sent| - 1])
    {
      hide IsNearest, Nearest, ToGetResult;
      panicked, selected := false, NotFound;
      if reply.Failed? {
        sent, closed := sent + [GetResult([], [], 0, Some(reply.err))], true;
        counter := 0;
        return true, selected;
      }
      if reply.response.Found? {
        results := results + [reply.response];
      }
      counter := counter - 1;
      if counter == 0 {
        var s := Select(comparison, results);
        selected := s;
        NearestIsReturned(comparison, results, s);
        sent, closed := sent + [ToGetResult(s)], true;
      }
    }
  }

  /** The first `n` callbacks brought no error, and `results` are the records they found. */
  ghost predicate Collected(results: seq<Response>, replies: seq<Reply>, order: seq<nat>, n: nat) {
    && n <= |order|
    && (forall i :: 0 <= i < n ==> order[i] < |replies| && replies[order[i]].Answer?)
    && (forall r :: r in results <==> r.Found? && Brought(replies, order, n, r))
    && (forall i :: 0 <= i < |results| ==> results[i].Found?)
  }

  ghost predicate Brought(replies: seq<Reply>, order: seq<nat>, n: nat, r: Response) {
    exists i :: 0 <= i < n && i < |order| && order[i] < |replies| && replies[order[i]] == Answer(r)
  }

  lemma BroughtOne(replies: seq<Reply>, order: seq<nat>, n: nat, r: Response)
    requires n < |order| && order[n] < |replies| && replies[order[n]].Answer?
    ensures Brought(replies, order, n + 1, r) <==> Brought(replies, order, n, r) || r == replies[order[n]].response
  {
  }

  lemma CollectOne(results: seq<Response>, replies: seq<Reply>, order: seq<nat>, n: nat)
    requires Collected(results, replies, order, n) && n < |order| && order[n] < |replies| && replies[order[n]].Answer?
    ensures Collected(Collect(results, replies[order[n]].response), replies, order, n + 1)
  {
    hide Brought;
    forall r ensures Brought(replies, order, n + 1, r) <==>
                     Brought(replies, order, n, r) || r == replies[order[n]].response
    {
      BroughtOne(replies, order, n, r);
    }
  }

  /** Each shard that answered did so for its own records. */
  ghost predicate LocalAnswers(c: Comparison, query: Bytes, shards: seq<Shard>, replies: seq<Reply>) {
    && |replies| == |shards|
    && forall i :: 0 <= i < |shards| && replies[i].Answer? ==> IsAnswer(c, query, [shards[i]], replies[i].response)
  }

  /** `order` lists every one of the `n` shards once. */
  ghost predicate CallbackOrder(order: seq<nat>, n: nat) {
    && |order| == n
    && (forall i :: 0 <= i < n ==> order[i] < n)
    && (forall c :: 0 <= c < n ==> c in order)
  }

  /** The `n`-th callback is the first one that brings an error. */
  ghost predicate FirstFailure(replies: seq<Reply>, order: seq<nat>, n: nat) {
    && n < |order| && order[n] < |replies| && replies[order[n]].Failed?
    && forall i :: 0 <= i < n ==> order[i] < |replies| && replies[order[i]].Answer?
  }

  lemma FailsFirst(results: seq<Response>, replies: seq<Reply>, order: seq<nat>, n: nat)
    requires Collected(results, replies, order, n) && n < |order| && order[n] < |replies| && replies[order[n]].Failed?
    ensures FirstFailure(replies, order, n)
  {
    hide Brought;
  }

  lemma CollectedFrom(results: seq<Response>, replies: seq<Reply>, order: seq<nat>, j: nat)
    requires Collected(results, replies, order, |order|) && CallbackOrder(order, |replies|) && j < |replies|
    ensures replies[j].Answer? && (replies[j].response.Found? ==> replies[j].response in results)
  {
    assert j in order;
    var i :| 0 <= i < |order| && order[i] == j;
    assert replies[order[i]].Answer?;
    assert Brought(replies, order, |order|, replies[j].response);
  }

  /** A nearest of the local answers is an answer for all shards. */
  lemma NearestOfAll(c: Comparison, query: Bytes, shards: seq<Shard>, replies: seq<Reply>, order: seq<nat>,
                     results: seq<Response>, selected: Response)
    requires LocalAnswers(c, query, shards, replies) && CallbackOrder(order, |shards|)
    requires Collected(results, replies, order, |order|) && IsNearest(c, results, selected)
    ensures IsAnswer(c, query, shards, selected)
  {
    hide Leq, Less, Compare, Matches, AsNear, Collected, CallbackOrder, IsAnswer;
    if selected.Found? {
      SelectedIsThere(c, query, shards, replies, order, results, selected);
    }
    forall s, k | s in shards && k in s && Matches(c, query, k)
      ensures selected.Found? && AsNear(c, selected.key, k)
    {
      var j :| 0 <= j < |shards| && shards[j] == s;
      CollectedFrom(results, replies, order, j);
      LocalBound(c, query, shards[j], replies[j].response, k);
      NearEnough(c, selected.key, replies[j].response.key, k);
    }
    AnswerOf(c, query, shards, selected);
  }

  lemma SelectedIsThere(c: Comparison, query: Bytes, shards: seq<Shard>, replies: seq<Reply>, order: seq<nat>,
                        results: seq<Response>, selected: Response)
    requires LocalAnswers(c, query, shards, replies) && CallbackOrder(order, |shards|)
    requires Collected(results, replies, order, |order|) && selected in results
    ensures selected.Found? && Matches(c, query, selected.key) && Stored(shards, selected)
  {
    hide Matches, AsNear;
    assert Brought(replies, order, |order|, selected);
    var i :| 0 <= i < |order| && order[i] < |replies| && replies[order[i]] == Answer(selected);
    var s := shards[order[i]];
    assert s in shards;
    assert IsAnswer(c, query, [s], selected);
  }

  ghost predicate Stored(shards: seq<Shard>, r: Response)
    requires r.Found?
  {
    exists s :: s in shards && r.key in s && s[r.key] == r.record
  }

  lemma LocalBound(c: Comparison, query: Bytes, s: Shard, r: Response, k: Bytes)
    requires IsAnswer(c, query, [s], r) && k in s && Matches(c, query, k)
    ensures r.Found? && AsNear(c, r.key, k)
  {
    hide Matches, AsNear;
    assert s in [s];
  }

  lemma NearEnough(c: Comparison, a: Bytes, b: Bytes, k: Bytes)
    requires AsNear(c, a, b) && AsNear(c, b, k)
    ensures AsNear(c, a, k)
  {
    LeqTransitive(a, b, k);
    LeqTransitive(k, b, a);
  }

  lemma AnswerOf(c: Comparison, query: Bytes, shards: seq<Shard>, r: Response)
    requires r.Found? ==> Matches(c, query, r.key) && Stored(shards, r)
    requires forall s, k :: s in shards && k in s && Matches(c, query, k) ==> r.Found? && AsNear(c, r.key, k)
    ensures IsAnswer(c, query, shards, r)
  {
    hide Matches, AsNear;
  }

  /**
   One query, for any records on any number of shards and any order of the callbacks. If every shard answers,
   nothing is sent before the last callback, and that one sends exactly one result, the answer over all
   shards. If and only if some shard reports an error, the first callback that does sends the error and panics.
   */
  method DoFloorCeilingGet(c: Comparison, query: Bytes, shards: seq<Shard>, replies: seq<Reply>, order: seq<nat>)
    returns (sent: seq<GetResult>, closed: bool, panicked: bool)
    requires LocalAnswers(c, query, shards, replies) && CallbackOrder(order, |shards|)
    ensures |shards| == 0 ==> sent == [] && !closed
    ensures panicked <==> exists i :: 0 <= i < |replies| && replies[i].Failed?
    ensures panicked ==> closed && exists n: nat :: FirstFailure(replies, order, n) &&
                                                    sent == [GetResult([], [], 0, Some(replies[order[n]].err))]
    ensures !panicked && |shards| > 0 ==> closed && |sent| == 1 && Returns(c, query, shards, sent[0])
    ensures !panicked && |shards| > 0 && Disjoint(shards) ==> Returns(c, query, [Union(shards)], sent[0])
  {
    hide IsAnswer, Collected, Union, Disjoint, LocalAnswers, IsNearest, Nearest, ToGetResult, Returns,
         FirstFailure;
    SameCount(c, query, shards, replies);
    var f := new FanOut(c, |shards|);
    ghost var selected := NotFound;
    CollectedNothing(replies, order);
    for n := 0 to |order|
      invariant fresh(f) && f.comparison == c && f.counter == |order| - n
      invariant Collected(f.results, replies, order, n)
      invariant f.counter > 0 || |order| == 0 ==> f.sent == [] && !f.closed
      invariant f.counter == 0 && |order| > 0 ==> f.closed && f.sent == [ToGetResult(selected)]
      invariant f.counter == 0 && |order| > 0 ==> IsNearest(c, f.results, selected)
    {
      OnlyFound(f.results, replies, order, n);
      ghost var before := f.results;
      panicked, selected := f.Callback(replies[order[n]]);
      if panicked {
        FailsFirst(before, replies, order, n);
        return f.sent, f.closed, true;
      }
      CollectOne(before, replies, order, n);
    }
    AllAnswered(f.results, replies, order);
    if |shards| > 0 {
      NearestOfAll(c, query, shards, replies, order, f.results, selected);
      AnswerIsReturned(c, query, shards, selected);
      if Disjoint(shards) {
        AnswerOnUnion(c, query, shards, selected);
        AnswerIsReturned(c, query, [Union(shards)], selected);
      }
    }
    return f.sent, f.closed, false;
  }

  lemma SameCount(c: Comparison, query: Bytes, shards: seq<Shard>, replies: seq<Reply>)
    requires LocalAnswers(c, query, shards, replies)
    ensures |replies| == |shards|
  {
  }

  lemma CollectedNothing(replies: seq<Reply>, order: seq<nat>)
    ensures Collected([], replies, order, 0)
  {
  }

  lemma OnlyFound(results: seq<Response>, replies: seq<Reply>, order: seq<nat>, n: nat)
    requires Collected(results, replies, order, n)
    ensures forall i :: 0 <= i < |results| ==> results[i].Found?
  {
  }

  lemma AllAnswered(results: seq<Response>, replies: seq<Reply>, order: seq<nat>)
    requires Collected(results, replies, order, |order|) && CallbackOrder(order, |replies|)
    ensures forall i :: 0 <= i < |replies| ==> replies[i].Answer?
  {
    hide Collected;
    forall j | 0 <= j < |replies| ensures replies[j].Answer? {
      CollectedFrom(results, replies, order, j);
    }
  }
}

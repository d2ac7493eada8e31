/**
 Size functions and marshallers of whole messages. Each writes exactly the message's bytes, ending at
 `hi`, into a buffer with at least that much room, and leaves every other byte alone.
 */
module Marshallers {
  import opened Prelude
  import opened Varint
  import opened Wire
  import opened Messages
  import opened Marshal

  // ---------- Messages without sub-messages ----------

  method MarshalPut(m: Option<PutRequest>, dAtA: array<byte>, hi: nat) returns (n: nat)
    requires |EncodePut(OrElse(m, EMPTY_PUT))| <= hi <= dAtA.Length && hi <= MAX_BUFFER
    modifies dAtA
    ensures n == |EncodePut(OrElse(m, EMPTY_PUT))|
    ensures Wrote(old(dAtA[..]), dAtA[..], hi - n, hi, EncodePut(OrElse(m, EMPTY_PUT)))
  {
    hide Wrote, PackedField, OptionalBytes, OptionalInt64, NonEmpty, SizeOfVarint, Varints;
    ghost var b0 := dAtA[..];
    if m.None? {
      EmptyEncodings();
      WroteNothing(b0, hi);
      return 0;
    }
    var v := m.value;
    var i := PutBytes(dAtA, hi, v.unknown);
    ghost var done := v.unknown;
    i, done := PutPacked(dAtA, i, 0x3a, v.sequenceKeyDelta, hi, b0, done);
    i, done := PutOptionalBytes(dAtA, i, 0x32, v.partitionKey, hi, b0, done);
    i, done := PutOptionalBytes(dAtA, i, 0x2a, v.clientIdentity, hi, b0, done);
    i, done := PutOptionalInt64(dAtA, i, 0x20, v.sessionId, hi, b0, done);
    i, done := PutOptionalInt64(dAtA, i, 0x18, v.expectedVersionId, hi, b0, done);
    i, done := PutNonEmpty(dAtA, i, 0x12, OrElse(v.value, []), hi, b0, done);
    i, done := PutNonEmpty(dAtA, i, 0x0a, v.key, hi, b0, done);
    n := hi - i;
  }

  method MarshalDelete(m: Option<DeleteRequest>, dAtA: array<byte>, hi: nat) returns (n: nat)
    requires |EncodeDelete(OrElse(m, EMPTY_DELETE))| <= hi <= dAtA.Length && hi <= MAX_BUFFER
    modifies dAtA
    ensures n == |EncodeDelete(OrElse(m, EMPTY_DELETE))|
    ensures Wrote(old(dAtA[..]), dAtA[..], hi - n, hi, EncodeDelete(OrElse(m, EMPTY_DELETE)))
  {
    hide Wrote, OptionalInt64, NonEmpty;
    ghost var b0 := dAtA[..];
    if m.None? {
      EmptyEncodings();
      WroteNothing(b0, hi);
      return 0;
    }
    var v := m.value;
    var i := PutBytes(dAtA, hi, v.unknown);
    ghost var done := v.unknown;
    i, done := PutOptionalInt64(dAtA, i, 0x10, v.expectedVersionId, hi, b0, done);
    i, done := PutNonEmpty(dAtA, i, 0x0a, v.key, hi, b0, done);
    n := hi - i;
  }

  method MarshalDeleteRange(m: Option<DeleteRangeRequest>, dAtA: array<byte>, hi: nat) returns (n: nat)
    requires |EncodeDeleteRange(OrElse(m, EMPTY_DELETE_RANGE))| <= hi <= dAtA.Length && hi <= MAX_BUFFER
    modifies dAtA
    ensures n == |EncodeDeleteRange(OrElse(m, EMPTY_DELETE_RANGE))|
    ensures Wrote(old(dAtA[..]), dAtA[..], hi - n, hi, EncodeDeleteRange(OrElse(m, EMPTY_DELETE_RANGE)))
  {
    hide Wrote, NonEmpty;
    ghost var b0 := dAtA[..];
    if m.None? {
      EmptyEncodings();
      WroteNothing(b0, hi);
      return 0;
    }
    var v := m.value;
    var i := PutBytes(dAtA, hi, v.unknown);
    ghost var done := v.unknown;
    i, done := PutNonEmpty(dAtA, i, 0x12, v.endExclusive, hi, b0, done);
    i, done := PutNonEmpty(dAtA, i, 0x0a, v.startInclusive, hi, b0, done);
    n := hi - i;
  }

  method MarshalVersion(m: Option<Version>, dAtA: array<byte>, hi: nat) returns (n: nat)
    requires |EncodeVersion(OrElse(m, EMPTY_VERSION))| <= hi <= dAtA.Length && hi <= MAX_BUFFER
    modifies dAtA
    ensures n == |EncodeVersion(OrElse(m, EMPTY_VERSION))|
    ensures Wrote(old(dAtA[..]), dAtA[..], hi - n, hi, EncodeVersion(OrElse(m, EMPTY_VERSION)))
  {
    hide Wrote, OptionalBytes, OptionalInt64, NonZeroFixed64, NonZero, SizeOfVarint;
    ghost var b0 := dAtA[..];
    if m.None? {
      EmptyEncodings();
      WroteNothing(b0, hi);
      return 0;
    }
    var v := m.value;
    var i := PutBytes(dAtA, hi, v.unknown);
    ghost var done := v.unknown;
    i, done := PutOptionalBytes(dAtA, i, 0x32, v.clientIdentity, hi, b0, done);
    i, done := PutOptionalInt64(dAtA, i, 0x28, v.sessionId, hi, b0, done);
    i, done := PutNonZeroFixed64(dAtA, i, 0x21, v.modifiedTimestamp, hi, b0, done);
    i, done := PutNonZeroFixed64(dAtA, i, 0x19, v.createdTimestamp, hi, b0, done);
    i, done := PutNonZero(dAtA, i, 0x10, v.modificationsCount, hi, b0, done);
    i, done := PutNonZero(dAtA, i, 0x08, v.versionId, hi, b0, done);
    n := hi - i;
  }

  method MarshalNotification(m: Option<Notification>, dAtA: array<byte>, hi: nat) returns (n: nat)
    requires |EncodeNotification(OrElse(m, EMPTY_NOTIFICATION))| <= hi <= dAtA.Length && hi <= MAX_BUFFER
    modifies dAtA
    ensures n == |EncodeNotification(OrElse(m, EMPTY_NOTIFICATION))|
    ensures Wrote(old(dAtA[..]), dAtA[..], hi - n, hi, EncodeNotification(OrElse(m, EMPTY_NOTIFICATION)))
  {
    hide Wrote, OptionalInt64, NonZero;
    ghost var b0 := dAtA[..];
    if m.None? {
      EmptyEncodings();
      WroteNothing(b0, hi);
      return 0;
    }
    var v := m.value;
    var i := PutBytes(dAtA, hi, v.unknown);
    ghost var done := v.unknown;
    i, done := PutOptionalInt64(dAtA, i, 0x10, v.versionId, hi, b0, done);
    i, done := PutNonZero(dAtA, i, 0x08, v.kind, hi, b0, done);
    n := hi - i;
  }

  // ---------- WriteRequest ----------

  /** The backward loop over `m.Puts`. */
  method PutPuts(ps: seq<Option<PutRequest>>, dAtA: array<byte>, hi: nat) returns (i: nat)
    requires |EncodePuts(ps)| <= hi <= dAtA.Length && hi <= MAX_BUFFER
    modifies dAtA
    ensures Wrote(old(dAtA[..]), dAtA[..], i, hi, EncodePuts(ps))
  {
    hide Wrote, EncodePut, LengthField;
    ghost var b0 := dAtA[..];
    i := hi;
    WroteNothing(b0, hi);
    var k := |ps|;
    assert ps[k..] == [];
    while k > 0
      invariant 0 <= k <= |ps| && 0 <= i <= hi && i == hi - |EncodePuts(ps[k..])|
      invariant Wrote(b0, dAtA[..], i, hi, EncodePuts(ps[k..]))
    {
      k := k - 1;
      ghost var b, j, enc := dAtA[..], i, EncodePut(OrElse(ps[k], EMPTY_PUT));
      assert ps[k..][1..] == ps[k + 1..];
      EncodePutsSuffix(ps, k);
      var size := MarshalPut(ps[k], dAtA, i);
      i := PutLength(dAtA, i - size, i, 0x12, b, enc);
      WroteBelow(b0, b, dAtA[..], i, j, hi, LengthField(0x12, enc), EncodePuts(ps[k + 1..]));
    }
    assert ps[0..] == ps;
  }

  lemma {:induction false} EncodePutsSuffix(ps: seq<Option<PutRequest>>, k: nat)
    requires k <= |ps|
    ensures |EncodePuts(ps[k..])| <= |EncodePuts(ps)|
  {
    if k > 0 {
      assert ps[1..][k - 1..] == ps[k..];
      EncodePutsSuffix(ps[1..], k - 1);
    }
  }

  /** The backward loop over `m.Deletes`. */
  method PutDeletes(ds: seq<Option<DeleteRequest>>, dAtA: array<byte>, hi: nat) returns (i: nat)
    requires |EncodeDeletes(ds)| <= hi <= dAtA.Length && hi <= MAX_BUFFER
    modifies dAtA
    ensures Wrote(old(dAtA[..]), dAtA[..], i, hi, EncodeDeletes(ds))
  {
    hide Wrote, EncodeDelete, LengthField;
    ghost var b0 := dAtA[..];
    i := hi;
    WroteNothing(b0, hi);
    var k := |ds|;
    assert ds[k..] == [];
    while k > 0
      invariant 0 <= k <= |ds| && 0 <= i <= hi && i == hi - |EncodeDeletes(ds[k..])|
      invariant Wrote(b0, dAtA[..], i, hi, EncodeDeletes(ds[k..]))
    {
      k := k - 1;
      ghost var b, j, enc := dAtA[..], i, EncodeDelete(OrElse(ds[k], EMPTY_DELETE));
      assert ds[k..][1..] == ds[k + 1..];
      EncodeDeletesSuffix(ds, k);
      var size := MarshalDelete(ds[k], dAtA, i);
      i := PutLength(dAtA, i - size, i, 0x1a, b, enc);
      WroteBelow(b0, b, dAtA[..], i, j, hi, LengthField(0x1a, enc), EncodeDeletes(ds[k + 1..]));
    }
    assert ds[0..] == ds;
  }

  lemma {:induction false} EncodeDeletesSuffix(ds: seq<Option<DeleteRequest>>, k: nat)
    requires k <= |ds|
    ensures |EncodeDeletes(ds[k..])| <= |EncodeDeletes(ds)|
  {
    if k > 0 {
      assert ds[1..][k - 1..] == ds[k..];
      EncodeDeletesSuffix(ds[1..], k - 1);
    }
  }

  /** The backward loop over `m.DeleteRanges`. */
  method PutDeleteRanges(ds: seq<Option<DeleteRangeRequest>>, dAtA: array<byte>, hi: nat) returns (i: nat)
    requires |EncodeDeleteRanges(ds)| <= hi <= dAtA.Length && hi <= MAX_BUFFER
    modifies dAtA
    ensures Wrote(old(dAtA[..]), dAtA[..], i, hi, EncodeDeleteRanges(ds))
  {
    hide Wrote, EncodeDeleteRange, LengthField;
    ghost var b0 := dAtA[..];
    i := hi;
    WroteNothing(b0, hi);
    var k := |ds|;
    assert ds[k..] == [];
    while k > 0
      invariant 0 <= k <= |ds| && 0 <= i <= hi && i == hi - |EncodeDeleteRanges(ds[k..])|
      invariant Wrote(b0, dAtA[..], i, hi, EncodeDeleteRanges(ds[k..]))
    {
      k := k - 1;
      ghost var b, j, enc := dAtA[..], i, EncodeDeleteRange(OrElse(ds[k], EMPTY_DELETE_RANGE));
      assert ds[k..][1..] == ds[k + 1..];
      EncodeDeleteRangesSuffix(ds, k);
      var size := MarshalDeleteRange(ds[k], dAtA, i);
      i := PutLength(dAtA, i - size, i, 0x22, b, enc);
      WroteBelow(b0, b, dAtA[..], i, j, hi, LengthField(0x22, enc), EncodeDeleteRanges(ds[k + 1..]));
    }
    assert ds[0..] == ds;
  }

  lemma {:induction false} EncodeDeleteRangesSuffix(ds: seq<Option<DeleteRangeRequest>>, k: nat)
    requires k <= |ds|
    ensures |EncodeDeleteRanges(ds[k..])| <= |EncodeDeleteRanges(ds)|
  {
    if k > 0 {
      assert ds[1..][k - 1..] == ds[k..];
      EncodeDeleteRangesSuffix(ds[1..], k - 1);
    }
  }

  method MarshalWrite(m: WriteRequest, dAtA: array<byte>, hi: nat) returns (n: nat)
    requires |EncodeWrite(m)| <= hi <= dAtA.Length && hi <= MAX_BUFFER
    modifies dAtA
    ensures n == |EncodeWrite(m)| && Wrote(old(dAtA[..]), dAtA[..], hi - n, hi, EncodeWrite(m))
  {
    hide Wrote, EncodePuts, EncodeDeletes, EncodeDeleteRanges, OptionalInt64;
    ghost var b0 := dAtA[..];
    var i := PutBytes(dAtA, hi, m.unknown);
    ghost var b, j, done := dAtA[..], i, m.unknown;
    i := PutDeleteRanges(m.deleteRanges, dAtA, i);
    WroteBelow(b0, b, dAtA[..], i, j, hi, EncodeDeleteRanges(m.deleteRanges), done);
    b, j, done := dAtA[..], i, EncodeDeleteRanges(m.deleteRanges) + done;
    i := PutDeletes(m.deletes, dAtA, i);
    WroteBelow(b0, b, dAtA[..], i, j, hi, EncodeDeletes(m.deletes), done);
    b, j, done := dAtA[..], i, EncodeDeletes(m.deletes) + done;
    i := PutPuts(m.puts, dAtA, i);
    WroteBelow(b0, b, dAtA[..], i, j, hi, EncodePuts(m.puts), done);
    done := EncodePuts(m.puts) + done;
    i, done := PutOptionalInt64(dAtA, i, 0x08, m.shard, hi, b0, done);
    n := hi - i;
  }

  // ---------- PutResponse ----------

  method MarshalPutResponse(m: PutResponse, dAtA: array<byte>, hi: nat) returns (n: nat)
    requires |EncodePutResponse(m)| <= hi <= dAtA.Length && hi <= MAX_BUFFER
    modifies dAtA
    ensures n == |EncodePutResponse(m)| && Wrote(old(dAtA[..]), dAtA[..], hi - n, hi, EncodePutResponse(m))
  {
    hide Wrote, OptionalBytes, NonZero, EncodeVersion, LengthField;
    ghost var b0 := dAtA[..];
    var i := PutBytes(dAtA, hi, m.unknown);
    ghost var done := m.unknown;
    i, done := PutOptionalBytes(dAtA, i, 0x1a, m.key, hi, b0, done);
    if m.version.Some? {
      ghost var b, j := dAtA[..], i;
      ghost var enc := EncodeVersion(m.version.value);
      var size := MarshalVersion(m.version, dAtA, i);
      i := PutLength(dAtA, i - size, i, 0x12, b, enc);
      WroteBelow(b0, b, dAtA[..], i, j, hi, LengthField(0x12, enc), done);
      done := LengthField(0x12, enc) + done;
    } else {
      assert [] + done == done;
    }
    i, done := PutNonZero(dAtA, i, 0x08, m.status, hi, b0, done);
    n := hi - i;
  }

  // ---------- NotificationBatch ----------

  function EntrySize(k: Bytes, v: Option<Notification>): nat {
    |LengthField(0x22, EncodeEntry(k, v))|
  }

  /** The bytes of the entries of `keys`, added up in some order. */
  ghost function EntriesSize(keys: set<Bytes>, ns: map<Bytes, Option<Notification>>): nat
    requires keys <= ns.Keys
    decreases |keys|
  {
    if keys == {} then 0
    else
      var k :| k in keys;
      EntrySize(k, ns[k]) + EntriesSize(keys - {k}, ns)
  }

  lemma EntriesSizeOfNothing(ns: map<Bytes, Option<Notification>>)
    ensures EntriesSize({}, ns) == 0
  {
  }

  /** The order does not matter. */
  lemma {:induction false} EntriesSizeRemove(keys: set<Bytes>, ns: map<Bytes, Option<Notification>>, k: Bytes)
    requires keys <= ns.Keys && k in keys
    ensures EntriesSize(keys, ns) == EntrySize(k, ns[k]) + EntriesSize(keys - {k}, ns)
    decreases |keys|
  {
    hide EntrySize;
    var x :| x in keys && EntriesSize(keys, ns) == EntrySize(x, ns[x]) + EntriesSize(keys - {x}, ns);
    if x != k {
      EntriesSizeRemove(keys - {x}, ns, k);
      EntriesSizeRemove(keys - {k}, ns, x);
      assert keys - {x} - {k} == keys - {k} - {x};
    }
  }

  /** The size of a batch, whatever order its map is iterated in. */
  ghost function BatchSize(m: NotificationBatch): nat {
    |NonZero(0x08, m.shard)| + |NonZero(0x10, m.offset)| + |NonZeroFixed64(0x19, m.timestamp)|
    + EntriesSize(m.notifications.Keys, m.notifications) + |m.unknown|
  }

  lemma {:induction false} EncodeEntriesSize(ks: seq<Bytes>, keys: set<Bytes>, ns: map<Bytes, Option<Notification>>)
    requires keys <= ns.Keys && (forall k :: k in ks <==> k in keys)
    requires forall i, j :: 0 <= i < j < |ks| ==> ks[i] != ks[j]
    ensures |EncodeEntries(ks, ns)| == EntriesSize(keys, ns)
    decreases |ks|
  {
    hide LengthField, EncodeEntry;
    if ks == [] {
      assert keys == {};
    } else {
      var k := ks[0];
      EntriesSizeRemove(keys, ns, k);
      EncodeEntriesSize(ks[1..], keys - {k}, ns);
    }
  }

  /** Every iteration order gives the same number of bytes. */
  lemma BatchSizeOfAnyOrder(m: NotificationBatch, ks: seq<Bytes>)
    requires IterationOrder(ks, m.notifications)
    ensures |EncodeBatch(m, ks)| == BatchSize(m)
  {
    EncodeEntriesSize(ks, m.notifications.Keys, m.notifications);
  }

  /** One map entry: value, key, then the entry's own length, from the back. */
  method PutEntry(k: Bytes, v: Option<Notification>, dAtA: array<byte>, hi: nat) returns (i: nat)
    requires EntrySize(k, v) <= hi <= dAtA.Length && hi <= MAX_BUFFER
    modifies dAtA
    ensures Wrote(old(dAtA[..]), dAtA[..], i, hi, LengthField(0x22, EncodeEntry(k, v)))
  {
    hide Wrote, EncodeNotification, LengthField;
    ghost var b0, enc := dAtA[..], EncodeNotification(OrElse(v, EMPTY_NOTIFICATION));
    var size := MarshalNotification(v, dAtA, hi);
    i := PutLength(dAtA, hi - size, hi, 0x12, b0, enc);
    ghost var b, j := dAtA[..], i;
    i := PutLengthField(dAtA, i, 0x0a, k);
    WroteBelow(b0, b, dAtA[..], i, j, hi, LengthField(0x0a, k), LengthField(0x12, enc));
    i := PutLength(dAtA, i, hi, 0x22, b0, EncodeEntry(k, v));
  }

  /**
   The loop over the map, in whatever order its keys come. Written from the back, the entries end up in
   the reverse of that order; `ks` is the order in the buffer.
   */
  method PutEntries(ns: map<Bytes, Option<Notification>>, dAtA: array<byte>, hi: nat)
    returns (i: nat, ghost ks: seq<Bytes>)
    requires EntriesSize(ns.Keys, ns) <= hi <= dAtA.Length && hi <= MAX_BUFFER
    modifies dAtA
    ensures IterationOrder(ks, ns)
    ensures Wrote(old(dAtA[..]), dAtA[..], i, hi, EncodeEntries(ks, ns))
  {
    hide Wrote, EntrySize, EncodeEntry, LengthField;
    ghost var b0 := dAtA[..];
    i, ks := hi, [];
    WroteNothing(b0, hi);
    var todo := ns.Keys;
    while todo != {}
      invariant todo <= ns.Keys && (forall k :: k in ks <==> k in ns.Keys - todo)
      invariant forall a, b :: 0 <= a < b < |ks| ==> ks[a] != ks[b]
      invariant 0 <= i <= hi && i == hi - |EncodeEntries(ks, ns)|
      invariant EntriesSize(todo, ns) <= i
      invariant Wrote(b0, dAtA[..], i, hi, EncodeEntries(ks, ns))
      decreases |todo|
    {
      var k :| k in todo;
      assert k !in ks;
      ghost var b, j := dAtA[..], i;
      EntriesSizeRemove(todo, ns, k);
      i := PutEntry(k, ns[k], dAtA, i);
      WroteBelow(b0, b, dAtA[..], i, j, hi, LengthField(0x22, EncodeEntry(k, ns[k])), EncodeEntries(ks, ns));
      EncodeEntriesCons(k, ks, ns);
      assert forall x :: x in [k] + ks <==> x == k || x in ks;
      todo, ks := todo - {k}, [k] + ks;
    }
  }

  lemma EncodeEntriesCons(k: Bytes, ks: seq<Bytes>, ns: map<Bytes, Option<Notification>>)
    requires k in ns && forall x :: x in ks ==> x in ns
    ensures EncodeEntries([k] + ks, ns) == LengthField(0x22, EncodeEntry(k, ns[k])) + EncodeEntries(ks, ns)
    ensures EntrySize(k, ns[k]) == |LengthField(0x22, EncodeEntry(k, ns[k]))|
  {
  }

  /** Marshals the batch in some iteration order `ks` of its map. */
  method MarshalBatch(m: NotificationBatch, dAtA: array<byte>, hi: nat) returns (n: nat, ghost ks: seq<Bytes>)
    requires BatchSize(m) <= hi <= dAtA.Length && hi <= MAX_BUFFER
    modifies dAtA
    ensures n == BatchSize(m) && IterationOrder(ks, m.notifications)
    ensures Wrote(old(dAtA[..]), dAtA[..], hi - n, hi, EncodeBatch(m, ks))
  {
    hide Wrote, EncodeEntries, EntriesSize, NonZero, NonZeroFixed64;
    ghost var b0 := dAtA[..];
    var i := PutBytes(dAtA, hi, m.unknown);
    ghost var b, j, done := dAtA[..], i, m.unknown;
    i, ks := PutEntries(m.notifications, dAtA, i);
    BatchSizeOfAnyOrder(m, ks);
    WroteBelow(b0, b, dAtA[..], i, j, hi, EncodeEntries(ks, m.notifications), done);
    done := EncodeEntries(ks, m.notifications) + done;
    i, done := PutNonZeroFixed64(dAtA, i, 0x19, m.timestamp, hi, b0, done);
    i, done := PutNonZero(dAtA, i, 0x10, m.offset, hi, b0, done);
    i, done := PutNonZero(dAtA, i, 0x08, m.shard, hi, b0, done);
    n := hi - i;
  }

  // ---------- SizeVT ----------

  method SizePut(m: Option<PutRequest>) returns (n: nat)
    ensures n == |EncodePut(OrElse(m, EMPTY_PUT))|
  {
    EmptyEncodings();
    hide EncodePut, SizeOfVarint;
    n := 0;
    if m.None? { return; }
    var v := m.value;
    if |v.key| > 0 { n := n + 1 + |v.key| + SizeOfVarint(|v.key|); }
    var l := if v.value.Some? then |v.value.value| else 0;
    if l > 0 { n := n + 1 + l + SizeOfVarint(l); }
    ghost var n1 := n;
    assert n1 == |NonEmpty(0x0a, v.key)| + |NonEmpty(0x12, OrElse(v.value, []))|;
    if v.expectedVersionId.Some? { n := n + 1 + SizeOfVarint(ToUint64(v.expectedVersionId.value)); }
    if v.sessionId.Some? { n := n + 1 + SizeOfVarint(ToUint64(v.sessionId.value)); }
    ghost var n2 := n;
    assert n2 == n1 + |OptionalInt64(0x18, v.expectedVersionId)| + |OptionalInt64(0x20, v.sessionId)|;
    if v.clientIdentity.Some? {
      l := |v.clientIdentity.value|;
      n := n + 1 + l + SizeOfVarint(l);
    }
    if v.partitionKey.Some? {
      l := |v.partitionKey.value|;
      n := n + 1 + l + SizeOfVarint(l);
    }
    ghost var n3 := n;
    assert n3 == n2 + |OptionalBytes(0x2a, v.clientIdentity)| + |OptionalBytes(0x32, v.partitionKey)|;
    if |v.sequenceKeyDelta| > 0 {
      l := SizeOfVarints(v.sequenceKeyDelta);
      n := n + 1 + SizeOfVarint(l) + l;
    }
    assert n == n3 + |PackedField(0x3a, v.sequenceKeyDelta)|;
    n := n + |v.unknown|;
    EncodePutSize(v);
  }

  lemma EncodePutSize(m: PutRequest)
    ensures |EncodePut(m)| == |NonEmpty(0x0a, m.key)| + |NonEmpty(0x12, OrElse(m.value, []))|
                              + |OptionalInt64(0x18, m.expectedVersionId)| + |OptionalInt64(0x20, m.sessionId)|
                              + |OptionalBytes(0x2a, m.clientIdentity)| + |OptionalBytes(0x32, m.partitionKey)|
                              + |PackedField(0x3a, m.sequenceKeyDelta)| + |m.unknown|
  {
  }

  method SizeDelete(m: Option<DeleteRequest>) returns (n: nat)
    ensures n == |EncodeDelete(OrElse(m, EMPTY_DELETE))|
  {
    hide EncodeVarint, SizeOfVarint, LengthField, VarintField;
    n := 0;
    if m.None? { return; }
    var v := m.value;
    if |v.key| > 0 { n := n + 1 + |v.key| + SizeOfVarint(|v.key|); }
    if v.expectedVersionId.Some? { n := n + 1 + SizeOfVarint(ToUint64(v.expectedVersionId.value)); }
    n := n + |v.unknown|;
  }

  method SizeDeleteRange(m: Option<DeleteRangeRequest>) returns (n: nat)
    ensures n == |EncodeDeleteRange(OrElse(m, EMPTY_DELETE_RANGE))|
  {
    hide EncodeVarint, SizeOfVarint, LengthField, VarintField;
    n := 0;
    if m.None? { return; }
    var v := m.value;
    if |v.startInclusive| > 0 { n := n + 1 + |v.startInclusive| + SizeOfVarint(|v.startInclusive|); }
    if |v.endExclusive| > 0 { n := n + 1 + |v.endExclusive| + SizeOfVarint(|v.endExclusive|); }
    n := n + |v.unknown|;
  }

  method SizeWrite(m: WriteRequest) returns (n: nat)
    ensures n == |EncodeWrite(m)|
  {
    hide EncodeVarint, SizeOfVarint, LengthField, VarintField, EncodePut, EncodeDelete, EncodeDeleteRange;
    n := 0;
    if m.shard.Some? { n := n + 1 + SizeOfVarint(ToUint64(m.shard.value)); }
    for k := 0 to |m.puts|
      invariant n + |EncodePuts(m.puts[k..])| == |OptionalInt64(0x08, m.shard)| + |EncodePuts(m.puts)|
    {
      assert m.puts[k..][0] == m.puts[k] && m.puts[k..][1..] == m.puts[k + 1..];
      var l := SizePut(m.puts[k]);
      n := n + 1 + l + SizeOfVarint(l);
    }
    ghost var n1 := n;
    for k := 0 to |m.deletes|
      invariant n + |EncodeDeletes(m.deletes[k..])| == n1 + |EncodeDeletes(m.deletes)|
    {
      assert m.deletes[k..][0] == m.deletes[k] && m.deletes[k..][1..] == m.deletes[k + 1..];
      var l := SizeDelete(m.deletes[k]);
      n := n + 1 + l + SizeOfVarint(l);
    }
    ghost var n2 := n;
    for k := 0 to |m.deleteRanges|
      invariant n + |EncodeDeleteRanges(m.deleteRanges[k..])| == n2 + |EncodeDeleteRanges(m.deleteRanges)|
    {
      assert m.deleteRanges[k..][0] == m.deleteRanges[k] && m.deleteRanges[k..][1..] == m.deleteRanges[k + 1..];
      var l := SizeDeleteRange(m.deleteRanges[k]);
      n := n + 1 + l + SizeOfVarint(l);
    }
    n := n + |m.unknown|;
  }

  method SizeVersion(m: Version) returns (n: nat)
    ensures n == |EncodeVersion(m)|
  {
    hide EncodeVarint, SizeOfVarint, LengthField, VarintField;
    n := 0;
    if m.versionId != 0 { n := n + 1 + SizeOfVarint(ToUint64(m.versionId)); }
    if m.modificationsCount != 0 { n := n + 1 + SizeOfVarint(ToUint64(m.modificationsCount)); }
    if m.createdTimestamp != 0 { n := n + 9; }
    if m.modifiedTimestamp != 0 { n := n + 9; }
    if m.sessionId.Some? { n := n + 1 + SizeOfVarint(ToUint64(m.sessionId.value)); }
    if m.clientIdentity.Some? {
      var l := |m.clientIdentity.value|;
      n := n + 1 + l + SizeOfVarint(l);
    }
    n := n + |m.unknown|;
  }

  method SizePutResponse(m: PutResponse) returns (n: nat)
    ensures n == |EncodePutResponse(m)|
  {
    hide EncodeVarint, SizeOfVarint, LengthField, VarintField, EncodeVersion;
    n := 0;
    if m.status != 0 { n := n + 1 + SizeOfVarint(ToUint64(m.status)); }
    if m.version.Some? {
      var l := SizeVersion(m.version.value);
      n := n + 1 + l + SizeOfVarint(l);
    }
    if m.key.Some? {
      var l := |m.key.value|;
      n := n + 1 + l + SizeOfVarint(l);
    }
    n := n + |m.unknown|;
  }

  method SizeNotification(m: Option<Notification>) returns (n: nat)
    ensures n == |EncodeNotification(OrElse(m, EMPTY_NOTIFICATION))|
  {
    hide EncodeVarint, SizeOfVarint, LengthField, VarintField;
    n := 0;
    if m.None? { return; }
    if m.value.kind != 0 { n := n + 1 + SizeOfVarint(ToUint64(m.value.kind)); }
    if m.value.versionId.Some? { n := n + 1 + SizeOfVarint(ToUint64(m.value.versionId.value)); }
    n := n + |m.value.unknown|;
  }

  method SizeEntry(k: Bytes, v: Option<Notification>) returns (n: nat)
    ensures n == EntrySize(k, v)
  {
    hide EncodeVarint, SizeOfVarint, LengthField, EncodeNotification;
    var l := SizeNotification(v);
    l := l + 1 + SizeOfVarint(l);
    var mapEntrySize := 1 + |k| + SizeOfVarint(|k|) + l;
    n := mapEntrySize + 1 + SizeOfVarint(mapEntrySize);
  }

  method SizeBatch(m: NotificationBatch) returns (n: nat)
    ensures n == BatchSize(m)
  {
    hide EncodeVarint, SizeOfVarint, VarintField, EntrySize, EntriesSize;
    n := 0;
    if m.shard != 0 { n := n + 1 + SizeOfVarint(ToUint64(m.shard)); }
    if m.offset != 0 { n := n + 1 + SizeOfVarint(ToUint64(m.offset)); }
    if m.timestamp != 0 { n := n + 9; }
    ghost var n1 := n;
    var ns := m.notifications;
    var todo := ns.Keys;
    while todo != {}
      invariant todo <= ns.Keys
      invariant n + EntriesSize(todo, ns) == n1 + EntriesSize(ns.Keys, ns)
      decreases |todo|
    {
      var k :| k in todo;
      EntriesSizeRemove(todo, ns, k);
      var size := SizeEntry(k, ns[k]);
      n := n + size;
      todo := todo - {k};
    }
    EntriesSizeOfNothing(ns);
    n := n + |m.unknown|;
  }

  // ---------- MarshalVT ----------

  /** Sizing and filling agree: the allocated buffer is filled exactly. */
  method MarshalWriteVT(m: WriteRequest) returns (dAtA: array<byte>)
    requires |EncodeWrite(m)| <= MAX_BUFFER
    ensures fresh(dAtA) && dAtA[..] == EncodeWrite(m)
  {
    var size := SizeWrite(m);
    dAtA := new byte[size];
    var n := MarshalWrite(m, dAtA, size);
    assert dAtA[0..size] == dAtA[..];
  }

  method MarshalPutResponseVT(m: PutResponse) returns (dAtA: array<byte>)
    requires |EncodePutResponse(m)| <= MAX_BUFFER
    ensures fresh(dAtA) && dAtA[..] == EncodePutResponse(m)
  {
    var size := SizePutResponse(m);
    dAtA := new byte[size];
    var n := MarshalPutResponse(m, dAtA, size);
    assert dAtA[0..size] == dAtA[..];
  }

  method MarshalBatchVT(m: NotificationBatch) returns (dAtA: array<byte>, ghost ks: seq<Bytes>)
    requires BatchSize(m) <= MAX_BUFFER
    ensures fresh(dAtA) && IterationOrder(ks, m.notifications) && dAtA[..] == EncodeBatch(m, ks)
  {
    var size := SizeBatch(m);
    dAtA := new byte[size];
    var n;
    n, ks := MarshalBatch(m, dAtA, size);
    assert dAtA[0..size] == dAtA[..];
  }
}

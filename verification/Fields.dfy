/**
 Reading back one marshalled field: parsing it changes that field of the receiver and nothing else. A
 field that was marshalled wins over what the receiver held; one that was left out leaves it alone.
 */
module Fields {
  import opened Prelude
  import opened Varint
  import opened Wire
  import opened Messages
  import opened Parser
  import opened Concat

  function LastSet<T>(earlier: Option<T>, later: Option<T>): Option<T> {
    if later.Some? then later else earlier
  }

  function LastNonEmpty(earlier: Bytes, later: Bytes): Bytes {
    if later == [] then earlier else later
  }

  function LastNonZero(earlier: int, later: int): int {
    if later == 0 then earlier else later
  }

  // ---------- By wire type ----------

  lemma ParseLengthField(skip: Skipper, m: Msg, tag: byte, payload: Bytes)
    requires 8 <= tag < 128 && tag % 8 == 2 && tag / 8 <= LastField(m) && |payload| < TWO_63
    ensures var r := LengthField(tag, payload)[1..];
            var f := Field(skip, m, Tag(tag / 8, 2, 1), r);
            && ReadPayload(r) == Some((payload, |r|)) && r[|r| - |payload|..] == payload
            && (f.Some? && f.value.1 == |r| ==> Parse(skip, m, LengthField(tag, payload)) == Some(f.value.0))
  {
    hide Field, ReadHeader, ReadPayload;
    var s := LengthField(tag, payload);
    assert s == [tag] + (EncodeVarint(|payload|) + payload);
    ReadHeaderOfByte(tag, EncodeVarint(|payload|) + payload);
    assert s[1..] == EncodeVarint(|payload|) + payload;
    ReadPayloadOf(payload);
    var f := Field(skip, m, Tag(tag / 8, 2, 1), s[1..]);
    if f.Some? && f.value.1 == |s| - 1 {
      ParseOneStep(skip, m, s, f.value.0);
    }
  }

  lemma ParseVarintField(skip: Skipper, m: Msg, tag: byte, v: Uint64)
    requires 8 <= tag < 128 && tag % 8 == 0 && tag / 8 <= LastField(m)
    ensures var r := VarintField(tag, v)[1..];
            var f := Field(skip, m, Tag(tag / 8, 0, 1), r);
            && ReadVarint(r) == Some((v, |r|))
            && (f.Some? && f.value.1 == |r| ==> Parse(skip, m, VarintField(tag, v)) == Some(f.value.0))
  {
    hide Field, ReadHeader, ReadVarint;
    var s := VarintField(tag, v);
    ReadHeaderOfByte(tag, EncodeVarint(v));
    assert s[1..] == EncodeVarint(v);
    VarintRoundTrip(v, []);
    assert EncodeVarint(v) + [] == EncodeVarint(v);
    var f := Field(skip, m, Tag(tag / 8, 0, 1), s[1..]);
    if f.Some? && f.value.1 == |s| - 1 {
      ParseOneStep(skip, m, s, f.value.0);
    }
  }

  lemma ParseFixed64Field(skip: Skipper, m: Msg, tag: byte, v: Uint64)
    requires 8 <= tag < 128 && tag % 8 == 1 && tag / 8 <= LastField(m)
    ensures var r := Fixed64Field(tag, v)[1..];
            var f := Field(skip, m, Tag(tag / 8, 1, 1), r);
            && ReadFixed64(r) == Some((v, |r|))
            && (f.Some? && f.value.1 == |r| ==> Parse(skip, m, Fixed64Field(tag, v)) == Some(f.value.0))
  {
    hide Field, ReadHeader, ReadFixed64;
    var s := Fixed64Field(tag, v);
    ReadHeaderOfByte(tag, LittleEndian(v, 8));
    assert s[1..] == LittleEndian(v, 8);
    Fixed64RoundTrip(v);
    var f := Field(skip, m, Tag(tag / 8, 1, 1), s[1..]);
    if f.Some? && f.value.1 == |s| - 1 {
      ParseOneStep(skip, m, s, f.value.0);
    }
  }

  // ---------- PutRequest ----------

  lemma {:induction false} ReadPackedOf(vs: seq<Uint64>)
    ensures ReadPacked(Varints(vs), |Varints(vs)|) == Some((vs, |Varints(vs)|))
  {
    hide ReadVarint;
    if vs != [] {
      var h, t := EncodeVarint(vs[0]), Varints(vs[1..]);
      VarintRoundTrip(vs[0], t);
      assert (h + t)[|h|..] == t;
      ReadPackedOf(vs[1..]);
      assert [vs[0]] + vs[1..] == vs;
    }
  }

  lemma PutKey(skip: Skipper, m: PutRequest, p: Bytes)
    requires |p| < TWO_63
    ensures Parse(skip, Put(m), NonEmpty(0x0a, p)) == Some(Put(m.(key := LastNonEmpty(m.key, p))))
  {
    hide ReadPayload;
    ParseLengthField(skip, Put(m), 0x0a, p);
  }

  lemma PutValue(skip: Skipper, m: PutRequest, p: Option<Bytes>)
    requires |OrElse(p, [])| < TWO_63
    ensures Parse(skip, Put(m), NonEmpty(0x12, OrElse(p, [])))
            == Some(Put(m.(value := if OrElse(p, []) == [] then m.value else p)))
  {
    hide ReadPayload;
    ParseLengthField(skip, Put(m), 0x12, OrElse(p, []));
  }

  lemma PutExpectedVersionId(skip: Skipper, m: PutRequest, v: Option<Int64>)
    ensures Parse(skip, Put(m), OptionalInt64(0x18, v)) ==
            Some(Put(m.(expectedVersionId := LastSet(m.expectedVersionId, v))))
  {
    hide ReadVarint;
    if v.Some? { ParseVarintField(skip, Put(m), 0x18, ToUint64(v.value)); }
  }

  lemma PutSessionId(skip: Skipper, m: PutRequest, v: Option<Int64>)
    ensures Parse(skip, Put(m), OptionalInt64(0x20, v)) == Some(Put(m.(sessionId := LastSet(m.sessionId, v))))
  {
    hide ReadVarint;
    if v.Some? { ParseVarintField(skip, Put(m), 0x20, ToUint64(v.value)); }
  }

  lemma PutClientIdentity(skip: Skipper, m: PutRequest, p: Option<Bytes>)
    requires p.Some? ==> |p.value| < TWO_63
    ensures Parse(skip, Put(m), OptionalBytes(0x2a, p)) == Some(Put(m.(clientIdentity := LastSet(m.clientIdentity, p))))
  {
    hide ReadPayload;
    if p.Some? { ParseLengthField(skip, Put(m), 0x2a, p.value); }
  }

  lemma PutPartitionKey(skip: Skipper, m: PutRequest, p: Option<Bytes>)
    requires p.Some? ==> |p.value| < TWO_63
    ensures Parse(skip, Put(m), OptionalBytes(0x32, p)) == Some(Put(m.(partitionKey := LastSet(m.partitionKey, p))))
  {
    hide ReadPayload;
    if p.Some? { ParseLengthField(skip, Put(m), 0x32, p.value); }
  }

  lemma PutSequenceKeyDelta(skip: Skipper, m: PutRequest, vs: seq<Uint64>)
    requires |Varints(vs)| < TWO_63
    ensures Parse(skip, Put(m), PackedField(0x3a, vs)) == Some(Put(m.(sequenceKeyDelta := m.sequenceKeyDelta + vs)))
  {
    hide ReadPayload, ReadPacked, Parse, Varints;
    if vs != [] {
      ParseLengthField(skip, Put(m), 0x3a, Varints(vs));
      ReadPackedOf(vs);
    } else {
      ParseNothing(skip, Put(m));
      assert m.sequenceKeyDelta + vs == m.sequenceKeyDelta;
    }
  }

  // ---------- DeleteRequest and DeleteRangeRequest ----------

  lemma DeleteKey(skip: Skipper, m: DeleteRequest, p: Bytes)
    requires |p| < TWO_63
    ensures Parse(skip, Delete(m), NonEmpty(0x0a, p)) == Some(Delete(m.(key := LastNonEmpty(m.key, p))))
  {
    hide ReadPayload;
    ParseLengthField(skip, Delete(m), 0x0a, p);
  }

  lemma DeleteExpectedVersionId(skip: Skipper, m: DeleteRequest, v: Option<Int64>)
    ensures Parse(skip, Delete(m), OptionalInt64(0x10, v)) ==
            Some(Delete(m.(expectedVersionId := LastSet(m.expectedVersionId, v))))
  {
    hide ReadVarint;
    if v.Some? { ParseVarintField(skip, Delete(m), 0x10, ToUint64(v.value)); }
  }

  lemma DeleteRangeStartInclusive(skip: Skipper, m: DeleteRangeRequest, p: Bytes)
    requires |p| < TWO_63
    ensures Parse(skip, DeleteRange(m), NonEmpty(0x0a, p)) ==
            Some(DeleteRange(m.(startInclusive := LastNonEmpty(m.startInclusive, p))))
  {
    hide ReadPayload;
    ParseLengthField(skip, DeleteRange(m), 0x0a, p);
  }

  lemma DeleteRangeEndExclusive(skip: Skipper, m: DeleteRangeRequest, p: Bytes)
    requires |p| < TWO_63
    ensures Parse(skip, DeleteRange(m), NonEmpty(0x12, p)) ==
            Some(DeleteRange(m.(endExclusive := LastNonEmpty(m.endExclusive, p))))
  {
    hide ReadPayload;
    ParseLengthField(skip, DeleteRange(m), 0x12, p);
  }

  // ---------- Version ----------

  lemma VerVersionId(skip: Skipper, m: Version, v: Int64)
    ensures Parse(skip, Ver(m), NonZero(0x08, v)) == Some(Ver(m.(versionId := LastNonZero(m.versionId, v))))
  {
    hide ReadVarint;
    ParseVarintField(skip, Ver(m), 0x08, ToUint64(v));
  }

  lemma VerModificationsCount(skip: Skipper, m: Version, v: Int64)
    ensures Parse(skip, Ver(m), NonZero(0x10, v)) ==
            Some(Ver(m.(modificationsCount := LastNonZero(m.modificationsCount, v))))
  {
    hide ReadVarint;
    ParseVarintField(skip, Ver(m), 0x10, ToUint64(v));
  }

  lemma VerCreatedTimestamp(skip: Skipper, m: Version, v: Uint64)
    ensures Parse(skip, Ver(m), NonZeroFixed64(0x19, v)) ==
            Some(Ver(m.(createdTimestamp := LastNonZero(m.createdTimestamp, v))))
  {
    hide ReadFixed64;
    ParseFixed64Field(skip, Ver(m), 0x19, v);
  }

  lemma VerModifiedTimestamp(skip: Skipper, m: Version, v: Uint64)
    ensures Parse(skip, Ver(m), NonZeroFixed64(0x21, v)) ==
            Some(Ver(m.(modifiedTimestamp := LastNonZero(m.modifiedTimestamp, v))))
  {
    hide ReadFixed64;
    ParseFixed64Field(skip, Ver(m), 0x21, v);
  }

  lemma VerSessionId(skip: Skipper, m: Version, v: Option<Int64>)
    ensures Parse(skip, Ver(m), OptionalInt64(0x28, v)) == Some(Ver(m.(sessionId := LastSet(m.sessionId, v))))
  {
    hide ReadVarint;
    if v.Some? { ParseVarintField(skip, Ver(m), 0x28, ToUint64(v.value)); }
  }

  lemma VerClientIdentity(skip: Skipper, m: Version, p: Option<Bytes>)
    requires p.Some? ==> |p.value| < TWO_63
    ensures Parse(skip, Ver(m), OptionalBytes(0x32, p)) == Some(Ver(m.(clientIdentity := LastSet(m.clientIdentity, p))))
  {
    hide ReadPayload;
    if p.Some? { ParseLengthField(skip, Ver(m), 0x32, p.value); }
  }

  // ---------- Notification ----------

  lemma NotifKind(skip: Skipper, m: Notification, v: Int32)
    ensures Parse(skip, Notif(m), NonZero(0x08, v)) == Some(Notif(m.(kind := LastNonZero(m.kind, v))))
  {
    hide ReadVarint, ToInt32, ToUint64;
    Int32RoundTrip(v);
    ParseVarintField(skip, Notif(m), 0x08, ToUint64(v));
  }

  lemma NotifVersionId(skip: Skipper, m: Notification, v: Option<Int64>)
    ensures Parse(skip, Notif(m), OptionalInt64(0x10, v)) == Some(Notif(m.(versionId := LastSet(m.versionId, v))))
  {
    hide ReadVarint;
    if v.Some? { ParseVarintField(skip, Notif(m), 0x10, ToUint64(v.value)); }
  }

  // ---------- PutResponse ----------

  lemma PutRespStatus(skip: Skipper, m: PutResponse, v: Int32)
    ensures Parse(skip, PutResp(m), NonZero(0x08, v)) == Some(PutResp(m.(status := LastNonZero(m.status, v))))
  {
    hide ReadVarint, ToInt32, ToUint64;
    Int32RoundTrip(v);
    ParseVarintField(skip, PutResp(m), 0x08, ToUint64(v));
  }

  lemma PutRespKey(skip: Skipper, m: PutResponse, p: Option<Bytes>)
    requires p.Some? ==> |p.value| < TWO_63
    ensures Parse(skip, PutResp(m), OptionalBytes(0x1a, p)) == Some(PutResp(m.(key := LastSet(m.key, p))))
  {
    hide ReadPayload;
    if p.Some? { ParseLengthField(skip, PutResp(m), 0x1a, p.value); }
  }

  // ---------- WriteRequest ----------

  lemma WriteShard(skip: Skipper, m: WriteRequest, v: Option<Int64>)
    ensures Parse(skip, Write(m), OptionalInt64(0x08, v)) == Some(Write(m.(shard := LastSet(m.shard, v))))
  {
    hide ReadVarint;
    if v.Some? { ParseVarintField(skip, Write(m), 0x08, ToUint64(v.value)); }
  }

  // ---------- NotificationBatch ----------

  lemma BatchShard(skip: Skipper, m: NotificationBatch, v: Int64)
    ensures Parse(skip, Batch(m), NonZero(0x08, v)) == Some(Batch(m.(shard := LastNonZero(m.shard, v))))
  {
    hide ReadVarint;
    ParseVarintField(skip, Batch(m), 0x08, ToUint64(v));
  }

  lemma BatchOffset(skip: Skipper, m: NotificationBatch, v: Int64)
    ensures Parse(skip, Batch(m), NonZero(0x10, v)) == Some(Batch(m.(offset := LastNonZero(m.offset, v))))
  {
    hide ReadVarint;
    ParseVarintField(skip, Batch(m), 0x10, ToUint64(v));
  }

  lemma BatchTimestamp(skip: Skipper, m: NotificationBatch, v: Uint64)
    ensures Parse(skip, Batch(m), NonZeroFixed64(0x19, v)) == Some(Batch(m.(timestamp := LastNonZero(m.timestamp, v))))
  {
    hide ReadFixed64;
    ParseFixed64Field(skip, Batch(m), 0x19, v);
  }
}

/**
 What each record on the wire does to a receiver, in the schema's own numbers: which field it sets, with which
 value, which records are errors, and which are kept as unknown. This covers what no marshaller of this
 package writes but another peer may: zero and empty values, unpacked numbers, repeated fields, any order.
 */
module Records {
  import opened Prelude
  import opened Varint
  import opened Wire
  import opened Messages
  import opened Parser

  /** A 64-bit varint as a signed number. */
  function Signed(v: Uint64): Int64 {
    if v < 0x8000_0000_0000_0000 then v else v - 0x1_0000_0000_0000_0000
  }

  /** The low 32 bits of a varint as a signed number. */
  function SignedLow32(v: Uint64): Int32 {
    var low := v % 0x1_0000_0000;
    if low < 0x8000_0000 then low else low - 0x1_0000_0000
  }

  // ---------- One record ----------

  lemma RecordStep(skip: Skipper, m: Msg, tag: byte, r: Bytes, q: Msg, k: nat)
    requires 8 <= tag < 128 && tag % 8 != 4 && tag / 8 <= LastField(m) && k <= |r|
    requires Field(skip, m, Tag(tag / 8, tag % 8, 1), r) == Some((q, k))
    ensures Parse(skip, m, [tag] + r) == Parse(skip, q, r[k..])
  {
    hide Field, ReadHeader;
    ReadHeaderOfByte(tag, r);
    assert ([tag] + r)[1..] == r && ([tag] + r)[1 + k..] == r[k..];
  }

  lemma RecordFails(skip: Skipper, m: Msg, tag: byte, r: Bytes)
    requires 8 <= tag < 128 && tag / 8 <= LastField(m)
    requires tag % 8 != 4 ==> Field(skip, m, Tag(tag / 8, tag % 8, 1), r).None?
    ensures Parse(skip, m, [tag] + r).None?
  {
    hide Field, ReadVarint;
    OneByteVarint(tag, r);
    SmallFieldNumber(tag);
    assert ([tag] + r)[1..] == r;
  }

  lemma AfterLength(p: Bytes, rest: Bytes)
    requires |p| < TWO_63
    ensures var r, n := EncodeVarint(|p|) + (p + rest), |EncodeVarint(|p|)| + |p|;
            ReadPayload(r) == Some((p, n)) && r[n..] == rest && r[n - |p|..] == p + rest
  {
    hide ReadVarint, EncodeVarint;
    var h := EncodeVarint(|p|);
    VarintRoundTrip(|p|, p + rest);
    assert (h + (p + rest))[|h|..|h| + |p|] == p;
    assert (h + (p + rest))[|h| + |p|..] == rest;
  }

  lemma AfterVarint(v: Uint64, rest: Bytes)
    ensures ReadVarint(EncodeVarint(v) + rest) == Some((v, |EncodeVarint(v)|))
    ensures (EncodeVarint(v) + rest)[|EncodeVarint(v)|..] == rest
  {
    hide ReadVarint, EncodeVarint;
    VarintRoundTrip(v, rest);
  }

  // ---------- Messages without sub-messages ----------

  lemma PutBytesRecords(skip: Skipper, m: PutRequest, r: Bytes, p: Bytes, n: nat)
    requires ReadPayload(r) == Some((p, n))
    ensures Parse(skip, Put(m), [0x0a] + r) == Parse(skip, Put(m.(key := p)), r[n..])
    ensures Parse(skip, Put(m), [0x12] + r) == Parse(skip, Put(m.(value := Some(p))), r[n..])
    ensures Parse(skip, Put(m), [0x2a] + r) == Parse(skip, Put(m.(clientIdentity := Some(p))), r[n..])
    ensures Parse(skip, Put(m), [0x32] + r) == Parse(skip, Put(m.(partitionKey := Some(p))), r[n..])
  {
    hide Parse, ReadHeader, ReadPayload, DeleteField, DeleteRangeField, WriteField, VersionField,
         PutResponseField, NotificationField, BatchField;
    RecordStep(skip, Put(m), 0x0a, r, Put(m.(key := p)), n);
    RecordStep(skip, Put(m), 0x12, r, Put(m.(value := Some(p))), n);
    RecordStep(skip, Put(m), 0x2a, r, Put(m.(clientIdentity := Some(p))), n);
    RecordStep(skip, Put(m), 0x32, r, Put(m.(partitionKey := Some(p))), n);
  }

  lemma PutNumberRecords(skip: Skipper, m: PutRequest, r: Bytes, v: Uint64, n: nat)
    requires ReadVarint(r) == Some((v, n))
    ensures Parse(skip, Put(m), [0x18] + r) == Parse(skip, Put(m.(expectedVersionId := Some(Signed(v)))), r[n..])
    ensures Parse(skip, Put(m), [0x20] + r) == Parse(skip, Put(m.(sessionId := Some(Signed(v)))), r[n..])
    ensures Parse(skip, Put(m), [0x38] + r)
            == Parse(skip, Put(m.(sequenceKeyDelta := m.sequenceKeyDelta + [v])), r[n..])
  {
    hide Parse, ReadHeader, ReadVarint, DeleteField, DeleteRangeField, WriteField, VersionField,
         PutResponseField, NotificationField, BatchField;
    RecordStep(skip, Put(m), 0x18, r, Put(m.(expectedVersionId := Some(Signed(v)))), n);
    RecordStep(skip, Put(m), 0x20, r, Put(m.(sessionId := Some(Signed(v)))), n);
    RecordStep(skip, Put(m), 0x38, r, Put(m.(sequenceKeyDelta := m.sequenceKeyDelta + [v])), n);
  }

  lemma DeleteBytesRecords(skip: Skipper, m: DeleteRequest, r: Bytes, p: Bytes, n: nat)
    requires ReadPayload(r) == Some((p, n))
    ensures Parse(skip, Delete(m), [0x0a] + r) == Parse(skip, Delete(m.(key := p)), r[n..])
  {
    hide Parse, ReadHeader, ReadPayload, PutField, DeleteRangeField, WriteField, VersionField,
         PutResponseField, NotificationField, BatchField;
    RecordStep(skip, Delete(m), 0x0a, r, Delete(m.(key := p)), n);
  }

  lemma DeleteNumberRecords(skip: Skipper, m: DeleteRequest, r: Bytes, v: Uint64, n: nat)
    requires ReadVarint(r) == Some((v, n))
    ensures Parse(skip, Delete(m), [0x10] + r) == Parse(skip, Delete(m.(expectedVersionId := Some(Signed(v)))), r[n..])
  {
    hide Parse, ReadHeader, ReadVarint, PutField, DeleteRangeField, WriteField, VersionField,
         PutResponseField, NotificationField, BatchField;
    RecordStep(skip, Delete(m), 0x10, r, Delete(m.(expectedVersionId := Some(Signed(v)))), n);
  }

  lemma DeleteRangeBytesRecords(skip: Skipper, m: DeleteRangeRequest, r: Bytes, p: Bytes, n: nat)
    requires ReadPayload(r) == Some((p, n))
    ensures Parse(skip, DeleteRange(m), [0x0a] + r) == Parse(skip, DeleteRange(m.(startInclusive := p)), r[n..])
    ensures Parse(skip, DeleteRange(m), [0x12] + r) == Parse(skip, DeleteRange(m.(endExclusive := p)), r[n..])
  {
    hide Parse, ReadHeader, ReadPayload, PutField, DeleteField, WriteField, VersionField,
         PutResponseField, NotificationField, BatchField;
    RecordStep(skip, DeleteRange(m), 0x0a, r, DeleteRange(m.(startInclusive := p)), n);
    RecordStep(skip, DeleteRange(m), 0x12, r, DeleteRange(m.(endExclusive := p)), n);
  }

  lemma VersionBytesRecords(skip: Skipper, m: Version, r: Bytes, p: Bytes, n: nat)
    requires ReadPayload(r) == Some((p, n))
    ensures Parse(skip, Ver(m), [0x32] + r) == Parse(skip, Ver(m.(clientIdentity := Some(p))), r[n..])
  {
    hide Parse, ReadHeader, ReadPayload, PutField, DeleteField, DeleteRangeField, WriteField,
         PutResponseField, NotificationField, BatchField;
    RecordStep(skip, Ver(m), 0x32, r, Ver(m.(clientIdentity := Some(p))), n);
  }

  lemma VersionNumberRecords(skip: Skipper, m: Version, r: Bytes, v: Uint64, n: nat)
    requires ReadVarint(r) == Some((v, n))
    ensures Parse(skip, Ver(m), [0x08] + r) == Parse(skip, Ver(m.(versionId := Signed(v))), r[n..])
    ensures Parse(skip, Ver(m), [0x10] + r) == Parse(skip, Ver(m.(modificationsCount := Signed(v))), r[n..])
    ensures Parse(skip, Ver(m), [0x28] + r) == Parse(skip, Ver(m.(sessionId := Some(Signed(v)))), r[n..])
  {
    hide Parse, ReadHeader, ReadVarint, PutField, DeleteField, DeleteRangeField, WriteField,
         PutResponseField, NotificationField, BatchField;
    RecordStep(skip, Ver(m), 0x08, r, Ver(m.(versionId := Signed(v))), n);
    RecordStep(skip, Ver(m), 0x10, r, Ver(m.(modificationsCount := Signed(v))), n);
    RecordStep(skip, Ver(m), 0x28, r, Ver(m.(sessionId := Some(Signed(v)))), n);
  }

  lemma VersionFixedRecords(skip: Skipper, m: Version, r: Bytes, v: Uint64, n: nat)
    requires ReadFixed64(r) == Some((v, n))
    ensures Parse(skip, Ver(m), [0x19] + r) == Parse(skip, Ver(m.(createdTimestamp := v)), r[n..])
    ensures Parse(skip, Ver(m), [0x21] + r) == Parse(skip, Ver(m.(modifiedTimestamp := v)), r[n..])
  {
    hide Parse, ReadHeader, ReadFixed64, PutField, DeleteField, DeleteRangeField, WriteField,
         PutResponseField, NotificationField, BatchField;
    RecordStep(skip, Ver(m), 0x19, r, Ver(m.(createdTimestamp := v)), n);
    RecordStep(skip, Ver(m), 0x21, r, Ver(m.(modifiedTimestamp := v)), n);
  }

  lemma NotificationNumberRecords(skip: Skipper, m: Notification, r: Bytes, v: Uint64, n: nat)
    requires ReadVarint(r) == Some((v, n))
    ensures Parse(skip, Notif(m), [0x08] + r) == Parse(skip, Notif(m.(kind := SignedLow32(v))), r[n..])
    ensures Parse(skip, Notif(m), [0x10] + r) == Parse(skip, Notif(m.(versionId := Some(Signed(v)))), r[n..])
  {
    hide Parse, ReadHeader, ReadVarint, PutField, DeleteField, DeleteRangeField, WriteField,
         VersionField, PutResponseField, BatchField;
    RecordStep(skip, Notif(m), 0x08, r, Notif(m.(kind := SignedLow32(v))), n);
    RecordStep(skip, Notif(m), 0x10, r, Notif(m.(versionId := Some(Signed(v)))), n);
  }

  // ---------- Messages with sub-messages ----------

  lemma WriteNumberRecords(skip: Skipper, m: WriteRequest, r: Bytes, v: Uint64, n: nat)
    requires ReadVarint(r) == Some((v, n))
    ensures Parse(skip, Write(m), [0x08] + r) == Parse(skip, Write(m.(shard := Some(Signed(v)))), r[n..])
  {
    hide Parse, ReadHeader, ReadVarint, PutField, DeleteField, DeleteRangeField, VersionField, BatchField;
    RecordStep(skip, Write(m), 0x08, r, Write(m.(shard := Some(Signed(v)))), n);
  }

  /** A request record is parsed into a fresh request, which is appended. */
  lemma WriteRequestRecords(skip: Skipper, m: WriteRequest, r: Bytes, p: Bytes, n: nat)
    requires ReadPayload(r) == Some((p, n))
    ensures var sub := Parse(skip, Put(EMPTY_PUT), p);
            Parse(skip, Write(m), [0x12] + r)
            == if sub.None? then None else Parse(skip, Write(m.(puts := m.puts + [Some(sub.value.put)])), r[n..])
    ensures var sub := Parse(skip, Delete(EMPTY_DELETE), p);
            Parse(skip, Write(m), [0x1a] + r)
            == if sub.None? then None
               else Parse(skip, Write(m.(deletes := m.deletes + [Some(sub.value.delete)])), r[n..])
    ensures var sub := Parse(skip, DeleteRange(EMPTY_DELETE_RANGE), p);
            Parse(skip, Write(m), [0x22] + r)
            == if sub.None? then None
               else Parse(skip, Write(m.(deleteRanges := m.deleteRanges + [Some(sub.value.deleteRange)])), r[n..])
  {
    hide Parse, ReadHeader, ReadPayload, PutField, DeleteField, DeleteRangeField, VersionField, BatchField;
    var put := Parse(skip, Put(EMPTY_PUT), p);
    if put.None? { RecordFails(skip, Write(m), 0x12, r); }
    else { RecordStep(skip, Write(m), 0x12, r, Write(m.(puts := m.puts + [Some(put.value.put)])), n); }
    var delete := Parse(skip, Delete(EMPTY_DELETE), p);
    if delete.None? { RecordFails(skip, Write(m), 0x1a, r); }
    else { RecordStep(skip, Write(m), 0x1a, r, Write(m.(deletes := m.deletes + [Some(delete.value.delete)])), n); }
    var range := Parse(skip, DeleteRange(EMPTY_DELETE_RANGE), p);
    if range.None? { RecordFails(skip, Write(m), 0x22, r); }
    else {
      var q := m.(deleteRanges := m.deleteRanges + [Some(range.value.deleteRange)]);
      RecordStep(skip, Write(m), 0x22, r, Write(q), n);
    }
  }

  lemma PutResponseNumberRecords(skip: Skipper, m: PutResponse, r: Bytes, v: Uint64, n: nat)
    requires ReadVarint(r) == Some((v, n))
    ensures Parse(skip, PutResp(m), [0x08] + r) == Parse(skip, PutResp(m.(status := SignedLow32(v))), r[n..])
  {
    hide Parse, ReadHeader, ReadVarint, PutField, WriteField, VersionField, BatchField;
    RecordStep(skip, PutResp(m), 0x08, r, PutResp(m.(status := SignedLow32(v))), n);
  }

  /** A version record is parsed into the version that is already there, or into an empty one. */
  lemma PutResponseBytesRecords(skip: Skipper, m: PutResponse, r: Bytes, p: Bytes, n: nat)
    requires ReadPayload(r) == Some((p, n))
    ensures var sub := Parse(skip, Ver(if m.version.Some? then m.version.value else EMPTY_VERSION), p);
            Parse(skip, PutResp(m), [0x12] + r)
            == if sub.None? then None else Parse(skip, PutResp(m.(version := Some(sub.value.version))), r[n..])
    ensures Parse(skip, PutResp(m), [0x1a] + r) == Parse(skip, PutResp(m.(key := Some(p))), r[n..])
  {
    hide Parse, ReadHeader, ReadPayload, PutField, WriteField, VersionField, BatchField;
    var sub := Parse(skip, Ver(if m.version.Some? then m.version.value else EMPTY_VERSION), p);
    if sub.None? { RecordFails(skip, PutResp(m), 0x12, r); }
    else { RecordStep(skip, PutResp(m), 0x12, r, PutResp(m.(version := Some(sub.value.version))), n); }
    RecordStep(skip, PutResp(m), 0x1a, r, PutResp(m.(key := Some(p))), n);
  }

  lemma BatchNumberRecords(skip: Skipper, m: NotificationBatch, r: Bytes, v: Uint64, n: nat)
    requires ReadVarint(r) == Some((v, n))
    ensures Parse(skip, Batch(m), [0x08] + r) == Parse(skip, Batch(m.(shard := Signed(v))), r[n..])
    ensures Parse(skip, Batch(m), [0x10] + r) == Parse(skip, Batch(m.(offset := Signed(v))), r[n..])
  {
    hide Parse, ReadHeader, ReadVarint, ReadEntry, PutField, WriteField, VersionField;
    RecordStep(skip, Batch(m), 0x08, r, Batch(m.(shard := Signed(v))), n);
    RecordStep(skip, Batch(m), 0x10, r, Batch(m.(offset := Signed(v))), n);
  }

  /**
   The entry at `n`, of `len` bytes, replaces what its key held; parsing resumes at the declared end `n + len`,
   wherever the last field of the entry ended.
   */
  lemma BatchEntryRecords(skip: Skipper, m: NotificationBatch, r: Bytes, len: Uint64, n: nat)
    requires ReadVarint(r) == Some((len, n)) && len < TWO_63 && n + len <= |r|
    ensures var entry := ReadEntry(skip, r[n..], len, [], None);
            Parse(skip, Batch(m), [0x22] + r)
            == if entry.None? then None
               else
                 var (k, v) := entry.value;
                 Parse(skip, Batch(m.(notifications := m.notifications[k := v])), r[n + len..])
  {
    hide Parse, ReadHeader, ReadVarint, ReadEntry, PutField, WriteField, VersionField;
    var entry := ReadEntry(skip, r[n..], len, [], None);
    if entry.None? { RecordFails(skip, Batch(m), 0x22, r); }
    else {
      var q := m.(notifications := m.notifications[entry.value.0 := entry.value.1]);
      RecordStep(skip, Batch(m), 0x22, r, Batch(q), n + len);
    }
  }

  lemma BatchFixedRecords(skip: Skipper, m: NotificationBatch, r: Bytes, v: Uint64, n: nat)
    requires ReadFixed64(r) == Some((v, n))
    ensures Parse(skip, Batch(m), [0x19] + r) == Parse(skip, Batch(m.(timestamp := v)), r[n..])
  {
    hide Parse, ReadHeader, ReadFixed64, ReadEntry, PutField, WriteField, VersionField;
    RecordStep(skip, Batch(m), 0x19, r, Batch(m.(timestamp := v)), n);
  }

  // ---------- Inside a map entry ----------

  lemma EntryStepOne(skip: Skipper, s: Bytes, len: nat, k: Bytes, v: Option<Notification>,
                     k': Bytes, v': Option<Notification>, n: nat)
    requires len > 0 && n <= |s| && EntryStep(skip, s, len, k, v) == Some((k', v', n))
    ensures ReadEntry(skip, s, len, k, v) == ReadEntry(skip, s[n..], len - n, k', v')
  {
    hide EntryStep;
  }

  lemma EntryStepFails(skip: Skipper, s: Bytes, len: nat, k: Bytes, v: Option<Notification>)
    requires len > 0 && EntryStep(skip, s, len, k, v).None?
    ensures ReadEntry(skip, s, len, k, v).None?
  {
    hide EntryStep;
  }

  /** In an entry of which `len > 0` bytes are left, a key record replaces the key. */
  lemma EntryKeyRecord(skip: Skipper, len: nat, k: Bytes, v: Option<Notification>, r: Bytes, p: Bytes, n: nat)
    requires ReadPayload(r) == Some((p, n)) && len > 0
    ensures ReadEntry(skip, [0x0a] + r, len, k, v) == ReadEntry(skip, r[n..], len - 1 - n, p, v)
  {
    hide Parse, ReadVarint, ReadPayload, ReadEntry;
    OneByteVarint(0x0a, r);
    assert ([0x0a] + r)[1..] == r && ([0x0a] + r)[1 + n..] == r[n..];
    EntryStepOne(skip, [0x0a] + r, len, k, v, p, v, 1 + n);
  }

  /** A value record replaces the value by what its payload parses to, whatever came before. */
  lemma EntryValueRecord(skip: Skipper, len: nat, k: Bytes, v: Option<Notification>, r: Bytes, p: Bytes, n: nat)
    requires ReadPayload(r) == Some((p, n)) && len > 0
    ensures var sub := Parse(skip, Notif(EMPTY_NOTIFICATION), p);
            ReadEntry(skip, [0x12] + r, len, k, v)
            == if sub.None? then None else ReadEntry(skip, r[n..], len - 1 - n, k, Some(sub.value.notification))
  {
    hide Parse, ReadVarint, ReadPayload, ReadEntry;
    OneByteVarint(0x12, r);
    assert ([0x12] + r)[1..] == r && ([0x12] + r)[1 + n..] == r[n..];
    var sub := Parse(skip, Notif(EMPTY_NOTIFICATION), p);
    if sub.None? {
      EntryStepFails(skip, [0x12] + r, len, k, v);
    } else {
      EntryStepOne(skip, [0x12] + r, len, k, v, k, Some(sub.value.notification), 1 + n);
    }
  }

  /** Once the declared bytes are used up, also by a field that ran past them, the entry is done. */
  lemma EntryEnds(skip: Skipper, s: Bytes, len: int, k: Bytes, v: Option<Notification>)
    requires len <= 0
    ensures ReadEntry(skip, s, len, k, v) == Some((k, v))
  {
  }

  /** Any other record in an entry is skipped if it ends inside the entry, and is an error otherwise. */
  lemma EntrySkips(skip: Skipper, s: Bytes, len: nat, k: Bytes, v: Option<Notification>)
    requires len > 0 && ReadVarint(s).Some? && SignedLow32(ReadVarint(s).value.0 / 8) != 1
    requires SignedLow32(ReadVarint(s).value.0 / 8) != 2
    ensures ReadEntry(skip, s, len, k, v)
            == if skip(s).None? || skip(s).value > |s| || skip(s).value > len then None
               else ReadEntry(skip, s[skip(s).value..], len - skip(s).value, k, v)
  {
    hide Parse, ReadVarint, ReadPayload;
  }

  // ---------- Repeated numbers ----------

  /** One record of a repeated number: a single value, or any number of them packed. */
  datatype Run = Single(v: Uint64) | Packed(vs: seq<Uint64>)

  function EncodeRuns(rs: seq<Run>): Bytes {
    if rs == [] then []
    else
      (match rs[0]
       case Single(v) => [0x38] + EncodeVarint(v)
       case Packed(vs) => [0x3a] + (EncodeVarint(|Varints(vs)|) + Varints(vs)))
      + EncodeRuns(rs[1..])
  }

  function Numbers(rs: seq<Run>): seq<Uint64> {
    if rs == [] then []
    else (match rs[0] case Single(v) => [v] case Packed(vs) => vs) + Numbers(rs[1..])
  }

  /** Packed numbers are read until the declared bytes are used up; the last one may run past them. */
  lemma {:induction false} PackedNumbers(vs: seq<Uint64>, len: int, rest: Bytes)
    requires vs != [] ==> |Varints(vs[..|vs| - 1])| < len <= |Varints(vs)|
    requires vs == [] ==> len == 0
    ensures ReadPacked(Varints(vs) + rest, len) == Some((vs, |Varints(vs)|))
    decreases |vs|
  {
    hide ReadVarint, EncodeVarint, ReadPacked;
    if vs == [] {
      NoNumbers(rest, len);
      assert [] + rest == rest;
    } else {
      var h, t := EncodeVarint(vs[0]), Varints(vs[1..]);
      assert Varints(vs) + rest == h + (t + rest) && vs == [vs[0]] + vs[1..];
      VarintRoundTrip(vs[0], t + rest);
      if |vs| == 1 {
        NoNumbers(t + rest, len - |h|);
        NextNumber(h + (t + rest), len, vs[0], |h|, t + rest, [], 0);
      } else {
        assert vs[..|vs| - 1][0] == vs[0] && vs[..|vs| - 1][1..] == vs[1..][..|vs| - 2];
        PackedNumbers(vs[1..], len - |h|, rest);
        NextNumber(h + (t + rest), len, vs[0], |h|, t + rest, vs[1..], |t|);
      }
    }
  }

  lemma NoNumbers(s: Bytes, len: int)
    requires len <= 0
    ensures ReadPacked(s, len) == Some(([], 0))
  {
  }

  lemma NextNumber(s: Bytes, len: int, v: Uint64, n: nat, rest: Bytes, vs: seq<Uint64>, k: nat)
    requires len > 0 && ReadVarint(s) == Some((v, n)) && s[n..] == rest
    requires ReadPacked(rest, len - n) == Some((vs, k))
    ensures ReadPacked(s, len) == Some(([v] + vs, n + k))
  {
    hide ReadVarint;
  }

  lemma PackedRecord(skip: Skipper, m: PutRequest, vs: seq<Uint64>, rest: Bytes)
    requires |Varints(vs)| < TWO_63
    ensures Parse(skip, Put(m), [0x3a] + (EncodeVarint(|Varints(vs)|) + (Varints(vs) + rest)))
            == Parse(skip, Put(m.(sequenceKeyDelta := m.sequenceKeyDelta + vs)), rest)
  {
    hide Parse, ReadVarint, ReadPacked, EncodeVarint, Varints;
    var p := Varints(vs);
    AfterLength(p, rest);
    LastVarint(vs);
    PackedNumbers(vs, |p|, rest);
    RecordStep(skip, Put(m), 0x3a, EncodeVarint(|p|) + (p + rest),
               Put(m.(sequenceKeyDelta := m.sequenceKeyDelta + vs)), |EncodeVarint(|p|)| + |p|);
  }

  lemma {:induction false} LastVarint(vs: seq<Uint64>)
    ensures vs == [] ==> |Varints(vs)| == 0
    ensures vs != [] ==> |Varints(vs[..|vs| - 1])| < |Varints(vs)|
  {
    if |vs| > 1 {
      LastVarint(vs[1..]);
      assert vs[..|vs| - 1][0] == vs[0] && vs[..|vs| - 1][1..] == vs[1..][..|vs| - 2];
    }
  }

  /** However the deltas are split into packed and single records, they are appended in order. */
  lemma {:induction false} MixedDeltas(skip: Skipper, m: PutRequest, rs: seq<Run>)
    requires |EncodeRuns(rs)| < TWO_63
    ensures Parse(skip, Put(m), EncodeRuns(rs))
            == Some(Put(m.(sequenceKeyDelta := m.sequenceKeyDelta + Numbers(rs))))
    decreases |rs|
  {
    hide Parse, EncodeVarint, Varints;
    if rs == [] {
      ParseEnds(skip, Put(m));
      assert m.sequenceKeyDelta + [] == m.sequenceKeyDelta;
    } else {
      var rest := EncodeRuns(rs[1..]);
      var first := match rs[0] case Single(v) => [v] case Packed(vs) => vs;
      match rs[0] {
        case Single(v) =>
          assert EncodeRuns(rs) == [0x38] + (EncodeVarint(v) + rest);
          AfterVarint(v, rest);
          PutNumberRecords(skip, m, EncodeVarint(v) + rest, v, |EncodeVarint(v)|);
        case Packed(vs) =>
          assert EncodeRuns(rs) == [0x3a] + (EncodeVarint(|Varints(vs)|) + (Varints(vs) + rest));
          PackedRecord(skip, m, vs, rest);
      }
      MixedDeltas(skip, m.(sequenceKeyDelta := m.sequenceKeyDelta + first), rs[1..]);
      assert m.sequenceKeyDelta + first + Numbers(rs[1..]) == m.sequenceKeyDelta + Numbers(rs);
    }
  }

  lemma ParseEnds(skip: Skipper, m: Msg)
    ensures Parse(skip, m, []) == Some(m)
  {
  }

  // ---------- Errors ----------

  /** The tag is that of a known field, but with another wire type than the schema's. */
  predicate Mistyped(m: Msg, tag: byte) {
    8 <= tag < 128 &&
    match m
    case Put(_) =>
      || (tag / 8 in {1, 2, 5, 6} && tag % 8 != 2) || (tag / 8 in {3, 4} && tag % 8 != 0)
      || (tag / 8 == 7 && tag % 8 != 0 && tag % 8 != 2)
    case Delete(_) => (tag / 8 == 1 && tag % 8 != 2) || (tag / 8 == 2 && tag % 8 != 0)
    case DeleteRange(_) => tag / 8 in {1, 2} && tag % 8 != 2
    case Write(_) => (tag / 8 == 1 && tag % 8 != 0) || (tag / 8 in {2, 3, 4} && tag % 8 != 2)
    case Ver(_) =>
      || (tag / 8 in {1, 2, 5} && tag % 8 != 0) || (tag / 8 in {3, 4} && tag % 8 != 1) || (tag / 8 == 6 && tag % 8 != 2)
    case PutResp(_) => (tag / 8 == 1 && tag % 8 != 0) || (tag / 8 in {2, 3} && tag % 8 != 2)
    case Notif(_) => tag / 8 in {1, 2} && tag % 8 != 0
    case Batch(_) =>
      (tag / 8 in {1, 2} && tag % 8 != 0) || (tag / 8 == 3 && tag % 8 != 1) || (tag / 8 == 4 && tag % 8 != 2)
  }

  lemma WrongWireType(skip: Skipper, m: Msg, tag: byte, rest: Bytes)
    requires Mistyped(m, tag)
    ensures Parse(skip, m, [tag] + rest).None?
  {
    hide Parse, ReadVarint, ReadPayload, ReadPacked, ReadFixed64, ReadEntry;
    RecordFails(skip, m, tag, rest);
  }

  /** The tags of the known length-delimited, varint and fixed fields, as one byte each. */
  function BytesTags(m: Msg): set<byte> {
    match m
    case Put(_) => {0x0a, 0x12, 0x2a, 0x32, 0x3a}
    case Delete(_) => {0x0a}
    case DeleteRange(_) => {0x0a, 0x12}
    case Write(_) => {0x12, 0x1a, 0x22}
    case Ver(_) => {0x32}
    case PutResp(_) => {0x12, 0x1a}
    case Notif(_) => {}
    case Batch(_) => {0x22}
  }

  function NumberTags(m: Msg): set<byte> {
    match m
    case Put(_) => {0x18, 0x20, 0x38}
    case Delete(_) => {0x10}
    case DeleteRange(_) => {}
    case Write(_) => {0x08}
    case Ver(_) => {0x08, 0x10, 0x28}
    case PutResp(_) => {0x08}
    case Notif(_) => {0x08, 0x10}
    case Batch(_) => {0x08, 0x10}
  }

  function FixedTags(m: Msg): set<byte> {
    match m
    case Ver(_) => {0x19, 0x21}
    case Batch(_) => {0x19}
    case _ => {}
  }

  /** A known field of the schema's wire type whose value cannot be read is an error. */
  lemma Unreadable(skip: Skipper, m: Msg, tag: byte, rest: Bytes)
    requires tag in BytesTags(m) + NumberTags(m) + FixedTags(m)
    requires tag in BytesTags(m) ==> ReadPayload(rest).None?
    requires tag in NumberTags(m) ==> ReadVarint(rest).None?
    requires tag in FixedTags(m) ==> |rest| < 8
    ensures Parse(skip, m, [tag] + rest).None?
  {
    hide Parse, ReadVarint, ReadPayload, ReadPacked, ReadEntry;
    RecordFails(skip, m, tag, rest);
  }

  /** When a header is refused: unreadable, an end-group tag, or a field number whose low 32 bits are not positive. */
  lemma HeaderMeans(s: Bytes)
    ensures ReadHeader(s).Some? <==>
              && ReadVarint(s).Some?
              && var wire := ReadVarint(s).value.0;
                 wire % 8 != 4 && 0 < wire / 8 % 0x1_0000_0000 < 0x8000_0000
    ensures ReadHeader(s).Some? ==>
              var (wire, n) := ReadVarint(s).value;
              ReadHeader(s).value == Tag(wire / 8 % 0x1_0000_0000, wire % 8, n)
  {
    hide ReadVarint;
  }

  /** However many bytes the tag of a known field is spread over, the record does what it does with a tag of one byte. */
  lemma AnyHeader(skip: Skipper, m: Msg, s: Bytes)
    requires ReadHeader(s).Some? && ReadHeader(s).value.field <= LastField(m)
    ensures var t := ReadHeader(s).value;
            Parse(skip, m, s) == Parse(skip, m, [8 * t.field + t.wireType] + s[t.size..])
  {
    hide Field, ReadHeader, Parse;
    HeaderMeans(s);
    var t := ReadHeader(s).value;
    var tag, r := 8 * t.field + t.wireType, s[t.size..];
    var u := Tag(t.field, t.wireType, 1);
    assert tag / 8 == u.field && tag % 8 == u.wireType;
    ReadHeaderOfByte(tag, r);
    SameField(skip, m, t, u, r);
    assert ([tag] + r)[1..] == r;
    KnownField(skip, m, s, t, r);
    KnownField(skip, m, [tag] + r, u, r);
  }

  lemma KnownField(skip: Skipper, m: Msg, s: Bytes, t: Tag, r: Bytes)
    requires ReadHeader(s) == Some(t) && t.field <= LastField(m) && t.size <= |s| && s[t.size..] == r
    ensures var field := Field(skip, m, t, r);
            Parse(skip, m, s) == if field.None? then None else Parse(skip, field.value.0, r[field.value.1..])
  {
    hide Field, ReadHeader;
    var field := Field(skip, m, t, r);
    if field.Some? {
      assert s[t.size + field.value.1..] == r[field.value.1..];
    }
  }

  /** A field does not depend on the size of its tag. */
  lemma SameField(skip: Skipper, m: Msg, t: Tag, u: Tag, r: Bytes)
    requires t.field == u.field && t.wireType == u.wireType
    ensures Field(skip, m, t, r) == Field(skip, m, u, r)
  {
    hide Parse, ReadVarint, ReadPayload, ReadPacked, ReadFixed64, ReadEntry;
  }

  lemma BadHeader(skip: Skipper, m: Msg, s: Bytes)
    requires s != [] && ReadHeader(s).None?
    ensures Parse(skip, m, s).None?
  {
  }

  /** A payload is there exactly if its length is not negative as a signed number and fits in what is left. */
  lemma PayloadMeans(s: Bytes)
    ensures ReadPayload(s).Some? <==>
              ReadVarint(s).Some? && var (len, n) := ReadVarint(s).value; len < 0x8000_0000_0000_0000 && n + len <= |s|
    ensures ReadPayload(s).Some? ==>
              var (len, n) := ReadVarint(s).value; ReadPayload(s).value == (s[n..n + len], n + len)
  {
    hide ReadVarint;
  }

  // ---------- Unknown records ----------

  /** The field number `f` is beyond the schema of the message. */
  predicate Beyond(m: Msg, f: int) {
    && (m.Put? ==> f > 7) && (m.Delete? ==> f > 2) && (m.DeleteRange? ==> f > 2) && (m.Write? ==> f > 4)
    && (m.Ver? ==> f > 6) && (m.PutResp? ==> f > 3) && (m.Notif? ==> f > 2) && (m.Batch? ==> f > 4)
  }

  /** A record with a larger field number is kept byte for byte behind what was unknown before. */
  lemma LargerFieldIsKept(skip: Skipper, m: Msg, s: Bytes)
    requires s != [] && ReadHeader(s).Some? && skip(s).Some? && skip(s).value <= |s|
    requires Beyond(m, ReadHeader(s).value.field)
    ensures var record, rest := s[..skip(s).value], s[skip(s).value..];
            Parse(skip, m, s)
            == match m
               case Put(x) => Parse(skip, Put(x.(unknown := x.unknown + record)), rest)
               case Delete(x) => Parse(skip, Delete(x.(unknown := x.unknown + record)), rest)
               case DeleteRange(x) => Parse(skip, DeleteRange(x.(unknown := x.unknown + record)), rest)
               case Write(x) => Parse(skip, Write(x.(unknown := x.unknown + record)), rest)
               case Ver(x) => Parse(skip, Ver(x.(unknown := x.unknown + record)), rest)
               case PutResp(x) => Parse(skip, PutResp(x.(unknown := x.unknown + record)), rest)
               case Notif(x) => Parse(skip, Notif(x.(unknown := x.unknown + record)), rest)
               case Batch(x) => Parse(skip, Batch(x.(unknown := x.unknown + record)), rest)
  {
    hide ReadHeader, Field;
  }

  /** Such a record that cannot be skipped, or does not fit, is an error. */
  lemma LargerFieldFails(skip: Skipper, m: Msg, s: Bytes)
    requires s != [] && ReadHeader(s).Some? && (skip(s).None? || skip(s).value > |s|)
    requires Beyond(m, ReadHeader(s).value.field)
    ensures Parse(skip, m, s).None?
  {
    hide ReadHeader, Field;
  }
}

/**
 Concatenation is merge: parsing `a ++ b` is parsing `a` and then `b` into the same receiver, for every
 message, every old value and every pair of byte strings of which the first parses.
 */
module Concat {
  import opened Prelude
  import opened Varint
  import opened Wire
  import opened Messages
  import opened Parser

  // ---------- One record is decided by its own bytes ----------

  lemma {:induction false} ReadPackedLocal(s: Bytes, len: int, e: Bytes)
    requires ReadPacked(s, len).Some?
    ensures ReadPacked(s + e, len) == ReadPacked(s, len)
    decreases |s|
  {
    hide ReadVarint;
    if len > 0 {
      ReadVarintLocal(s, e);
      var n := ReadVarint(s).value.1;
      assert (s + e)[n..] == s[n..] + e;
      ReadPackedLocal(s[n..], len - n, e);
    }
  }

  /** The scalar readers, together. */
  lemma ReadersLocal(r: Bytes, e: Bytes)
    ensures ReadVarint(r).Some? ==> ReadVarint(r + e) == ReadVarint(r)
    ensures ReadPayload(r).Some? ==> ReadPayload(r + e) == ReadPayload(r)
    ensures ReadFixed64(r).Some? ==> ReadFixed64(r + e) == ReadFixed64(r)
  {
    if ReadVarint(r).Some? { ReadVarintLocal(r, e); }
    if ReadPayload(r).Some? { ReadPayloadLocal(r, e); }
    if ReadFixed64(r).Some? { ReadFixed64Local(r, e); }
  }

  lemma ReadDeltasLocal(t: Tag, r: Bytes, e: Bytes)
    requires ReadDeltas(t, r).Some?
    ensures ReadDeltas(t, r + e) == ReadDeltas(t, r)
  {
    hide ReadVarint, ReadPayload, ReadPacked;
    if t.wireType == 0 {
      ReadVarintLocal(r, e);
    } else {
      ReadPayloadLocal(r, e);
      var (p, n) := ReadPayload(r).value;
      assert (r + e)[n - |p|..] == r[n - |p|..] + e;
      ReadPackedLocal(r[n - |p|..], |p|, e);
    }
  }

  lemma PutFieldLocal(m: PutRequest, t: Tag, r: Bytes, e: Bytes)
    requires PutField(m, t, r).Some?
    ensures PutField(m, t, r + e) == PutField(m, t, r)
  {
    hide ReadVarint, ReadPayload, ReadDeltas;
    if t.field == 7 {
      ReadDeltasLocal(t, r, e);
    } else {
      ReadersLocal(r, e);
    }
  }

  lemma WriteFieldLocal(skip: Skipper, m: WriteRequest, t: Tag, r: Bytes, e: Bytes)
    requires WriteField(skip, m, t, r).Some?
    ensures WriteField(skip, m, t, r + e) == WriteField(skip, m, t, r)
  {
    hide ReadVarint, ReadPayload, Parse;
    ReadersLocal(r, e);
  }

  lemma PutResponseFieldLocal(skip: Skipper, m: PutResponse, t: Tag, r: Bytes, e: Bytes)
    requires PutResponseField(skip, m, t, r).Some?
    ensures PutResponseField(skip, m, t, r + e) == PutResponseField(skip, m, t, r)
  {
    hide ReadVarint, ReadPayload, Parse;
    ReadersLocal(r, e);
  }

  lemma EntryStepLocal(skip: Skipper, s: Bytes, len: nat, k: Bytes, v: Option<Notification>, e: Bytes)
    requires SkipContract(skip)
    requires EntryStep(skip, s, len, k, v).Some?
    ensures EntryStep(skip, s + e, len, k, v) == EntryStep(skip, s, len, k, v)
  {
    hide SkipContract, ReadTag, ReadPayload, SkipRecord, Parse;
    ReadTagLocal(s, e);
    var t := ReadTag(s).value;
    if t.field == 1 || t.field == 2 {
      assert (s + e)[t.size..] == s[t.size..] + e;
      ReadPayloadLocal(s[t.size..], e);
    } else {
      SkipRecordLocal(skip, s, e);
    }
  }

  lemma {:induction false} ReadEntryLocal(skip: Skipper, s: Bytes, len: int, k: Bytes,
                                          v: Option<Notification>, e: Bytes)
    requires SkipContract(skip)
    requires ReadEntry(skip, s, len, k, v).Some?
    ensures ReadEntry(skip, s + e, len, k, v) == ReadEntry(skip, s, len, k, v)
    decreases |s|
  {
    hide SkipContract, EntryStep;
    if len > 0 {
      EntryStepLocal(skip, s, len, k, v, e);
      var (k', v', n) := EntryStep(skip, s, len, k, v).value;
      assert (s + e)[n..] == s[n..] + e;
      ReadEntryLocal(skip, s[n..], len - n, k', v', e);
    }
  }

  lemma BatchFieldLocal(skip: Skipper, m: NotificationBatch, t: Tag, r: Bytes, e: Bytes)
    requires SkipContract(skip)
    requires BatchField(skip, m, t, r).Some?
    ensures BatchField(skip, m, t, r + e) == BatchField(skip, m, t, r)
  {
    hide SkipContract, ReadVarint, ReadPayload, ReadFixed64, ReadEntry;
    ReadersLocal(r, e);
    if t.field == 4 {
      var (p, n) := ReadPayload(r).value;
      assert (r + e)[n - |p|..] == r[n - |p|..] + e;
      ReadEntryLocal(skip, r[n - |p|..], |p|, [], None, e);
    }
  }

  lemma DeleteFieldLocal(m: DeleteRequest, t: Tag, r: Bytes, e: Bytes)
    requires DeleteField(m, t, r).Some?
    ensures DeleteField(m, t, r + e) == DeleteField(m, t, r)
  {
    hide ReadVarint, ReadPayload, ReadFixed64;
    ReadersLocal(r, e);
  }

  lemma DeleteRangeFieldLocal(m: DeleteRangeRequest, t: Tag, r: Bytes, e: Bytes)
    requires DeleteRangeField(m, t, r).Some?
    ensures DeleteRangeField(m, t, r + e) == DeleteRangeField(m, t, r)
  {
    hide ReadVarint, ReadPayload, ReadFixed64;
    ReadersLocal(r, e);
  }

  lemma VersionFieldLocal(m: Version, t: Tag, r: Bytes, e: Bytes)
    requires VersionField(m, t, r).Some?
    ensures VersionField(m, t, r + e) == VersionField(m, t, r)
  {
    hide ReadVarint, ReadPayload, ReadFixed64;
    ReadersLocal(r, e);
  }

  lemma NotificationFieldLocal(m: Notification, t: Tag, r: Bytes, e: Bytes)
    requires NotificationField(m, t, r).Some?
    ensures NotificationField(m, t, r + e) == NotificationField(m, t, r)
  {
    hide ReadVarint, ReadPayload, ReadFixed64;
    ReadersLocal(r, e);
  }

  lemma FieldLocal(skip: Skipper, m: Msg, t: Tag, r: Bytes, e: Bytes)
    requires SkipContract(skip)
    requires Field(skip, m, t, r).Some?
    ensures Field(skip, m, t, r + e) == Field(skip, m, t, r)
  {
    hide SkipContract, PutField, DeleteField, DeleteRangeField, WriteField, VersionField, PutResponseField,
         NotificationField, BatchField;
    match m
    case Put(p) => PutFieldLocal(p, t, r, e);
    case Delete(d) => DeleteFieldLocal(d, t, r, e);
    case DeleteRange(d) => DeleteRangeFieldLocal(d, t, r, e);
    case Write(w) => WriteFieldLocal(skip, w, t, r, e);
    case Ver(v) => VersionFieldLocal(v, t, r, e);
    case PutResp(p) => PutResponseFieldLocal(skip, p, t, r, e);
    case Notif(n) => NotificationFieldLocal(n, t, r, e);
    case Batch(b) => BatchFieldLocal(skip, b, t, r, e);
  }

  /** An iteration that succeeds does the same with more input behind it. */
  lemma StepLocal(skip: Skipper, m: Msg, s: Bytes, e: Bytes)
    requires SkipContract(skip)
    requires Step(skip, m, s).Some?
    ensures Step(skip, m, s + e) == Step(skip, m, s)
  {
    hide SkipContract, Field, ReadHeader, SkipRecord;
    ReadHeaderLocal(s, e);
    var t := ReadHeader(s).value;
    if t.field <= LastField(m) {
      assert (s + e)[t.size..] == s[t.size..] + e;
      FieldLocal(skip, m, t, s[t.size..], e);
    } else {
      SkipRecordLocal(skip, s, e);
      var n := SkipRecord(skip, s).value;
      assert (s + e)[..n] == s[..n];
    }
  }

  // ---------- The theorem ----------

  /** If `a` parses, then parsing `a ++ b` gives what parsing `a` and then `b` gives. */
  lemma {:induction false} ConcatenationIsMerge(skip: Skipper, m: Msg, a: Bytes, b: Bytes)
    requires SkipContract(skip)
    requires Parse(skip, m, a).Some?
    ensures Parse(skip, m, a + b) == Parse(skip, Parse(skip, m, a).value, b)
    decreases |a|
  {
    hide SkipContract, Step;
    if a == [] {
      assert a + b == b;
    } else {
      StepLocal(skip, m, a, b);
      var (q, n) := Step(skip, m, a).value;
      assert (a + b)[n..] == a[n..] + b;
      ConcatenationIsMerge(skip, q, a[n..], b);
    }
  }

  lemma ParseNothing(skip: Skipper, m: Msg)
    ensures Parse(skip, m, []) == Some(m)
  {
  }

  lemma ParseOneStep(skip: Skipper, m: Msg, s: Bytes, q: Msg)
    requires s != [] && Step(skip, m, s) == Some((q, |s|))
    ensures Parse(skip, m, s) == Some(q)
  {
    assert s[|s|..] == [];
  }
}

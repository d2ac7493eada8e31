/**
 Every message a parser can produce survives marshalling: whatever bytes it came from, marshalling it
 and parsing again gives an equal message, unknown fields included.
 */
module Reparse {
  import opened Prelude
  import opened Varint
  import opened Wire
  import opened Messages
  import opened Parser
  import opened Concat
  import opened RoundTrip

  // ---------- Runs of unknown records ----------

  /** A tag is decided by any prefix that covers it. */
  lemma ReadHeaderOfPrefix(s: Bytes, n: nat)
    requires ReadHeader(s).Some? && ReadHeader(s).value.size <= n <= |s|
    ensures ReadHeader(s[..n]) == ReadHeader(s)
  {
    var k := ReadHeader(s).value.size;
    ReadVarintPrefix(s);
    ReadVarintLocal(s[..k], s[k..n]);
    assert s[..k] + s[k..n] == s[..n];
  }

  lemma OneUnknownRecord(skip: Skipper, last: nat, s: Bytes)
    requires SkipContract(skip)
    requires ReadHeader(s).Some? && ReadHeader(s).value.field > last && SkipRecord(skip, s).Some?
    ensures UnknownRecords(skip, last, s[..SkipRecord(skip, s).value])
  {
    hide RawVarint;
    var n := SkipRecord(skip, s).value;
    ReadHeaderOfPrefix(s, n);
    assert SamePrefix(skip, s, s[..n]);
    assert SkipRecord(skip, s[..n]) == Some(n);
    assert s[..n][n..] == [];
  }

  lemma {:induction false} UnknownRecordsAppend(skip: Skipper, last: nat, u: Bytes, w: Bytes)
    requires SkipContract(skip)
    requires UnknownRecords(skip, last, u) && UnknownRecords(skip, last, w)
    ensures UnknownRecords(skip, last, u + w)
    decreases |u|
  {
    hide SkipContract, ReadHeader, SkipRecord;
    if u == [] {
      assert u + w == w;
    } else {
      ReadHeaderLocal(u, w);
      SkipRecordLocal(skip, u, w);
      var n := SkipRecord(skip, u).value;
      assert (u + w)[n..] == u[n..] + w;
      UnknownRecordsAppend(skip, last, u[n..], w);
    }
  }

  // ---------- Parsing keeps messages sound ----------

  lemma UnknownRecordsOfNothing(skip: Skipper, last: nat)
    ensures UnknownRecords(skip, last, [])
  {
  }

  lemma WriteFieldSound(skip: Skipper, m: WriteRequest, t: Tag, r: Bytes)
    requires SkipContract(skip) && Sound(skip, Write(m))
    requires WriteField(skip, m, t, r).Some?
    ensures Sound(skip, Write(WriteField(skip, m, t, r).value.0))
    decreases |r|, 0
  {
    hide SkipContract, UnknownRecords, ReadPayload, ReadVarint, Parse;
    if t.field != 1 {
      var p := ReadPayload(r).value.0;
      UnknownRecordsOfNothing(skip, 7);
      UnknownRecordsOfNothing(skip, 2);
      if t.field == 2 {
        ParseSound(skip, Put(EMPTY_PUT), p);
      } else if t.field == 3 {
        ParseSound(skip, Delete(EMPTY_DELETE), p);
      } else {
        ParseSound(skip, DeleteRange(EMPTY_DELETE_RANGE), p);
      }
    }
  }

  lemma PutResponseFieldSound(skip: Skipper, m: PutResponse, t: Tag, r: Bytes)
    requires SkipContract(skip) && Sound(skip, PutResp(m))
    requires PutResponseField(skip, m, t, r).Some?
    ensures Sound(skip, PutResp(PutResponseField(skip, m, t, r).value.0))
    decreases |r|, 0
  {
    hide SkipContract, UnknownRecords, ReadPayload, ReadVarint, Parse;
    if t.field == 2 {
      ParseSound(skip, Ver(OrElse(m.version, EMPTY_VERSION)), ReadPayload(r).value.0);
    }
  }

  lemma EntryStepSound(skip: Skipper, s: Bytes, len: nat, k: Bytes, v: Option<Notification>)
    requires SkipContract(skip) && UnknownRecords(skip, 2, OrElse(v, EMPTY_NOTIFICATION).unknown)
    requires EntryStep(skip, s, len, k, v).Some?
    ensures UnknownRecords(skip, 2, OrElse(EntryStep(skip, s, len, k, v).value.1, EMPTY_NOTIFICATION).unknown)
    decreases |s|, 0
  {
    hide SkipContract, UnknownRecords, ReadPayload, ReadTag, SkipRecord, Parse;
    var t := ReadTag(s).value;
    if t.field == 2 {
      UnknownRecordsOfNothing(skip, 2);
      ParseSound(skip, Notif(EMPTY_NOTIFICATION), ReadPayload(s[t.size..]).value.0);
    }
  }

  lemma {:induction false} ReadEntrySound(skip: Skipper, s: Bytes, len: int, k: Bytes, v: Option<Notification>)
    requires SkipContract(skip) && UnknownRecords(skip, 2, OrElse(v, EMPTY_NOTIFICATION).unknown)
    requires ReadEntry(skip, s, len, k, v).Some?
    ensures UnknownRecords(skip, 2, OrElse(ReadEntry(skip, s, len, k, v).value.1, EMPTY_NOTIFICATION).unknown)
    decreases |s|, 1
  {
    hide SkipContract, UnknownRecords, EntryStep;
    if len > 0 {
      EntryStepSound(skip, s, len, k, v);
      var (k', v', n) := EntryStep(skip, s, len, k, v).value;
      ReadEntrySound(skip, s[n..], len - n, k', v');
    }
  }

  lemma BatchFieldSound(skip: Skipper, m: NotificationBatch, t: Tag, r: Bytes)
    requires SkipContract(skip) && Sound(skip, Batch(m))
    requires BatchField(skip, m, t, r).Some?
    ensures Sound(skip, Batch(BatchField(skip, m, t, r).value.0))
    decreases |r|, 2
  {
    hide SkipContract, UnknownRecords, ReadPayload, ReadVarint, ReadFixed64, ReadEntry;
    if t.field == 4 {
      var (p, n) := ReadPayload(r).value;
      UnknownRecordsOfNothing(skip, 2);
      ReadEntrySound(skip, r[n - |p|..], |p|, [], None);
    }
  }

  lemma StepSound(skip: Skipper, m: Msg, s: Bytes)
    requires SkipContract(skip) && Sound(skip, m)
    requires Step(skip, m, s).Some?
    ensures Sound(skip, Step(skip, m, s).value.0)
    decreases |s|, 0
  {
    hide SkipContract, UnknownRecords, ReadHeader, SkipRecord,
         ReadPayload, ReadVarint, ReadFixed64, ReadDeltas, WriteField, PutResponseField, BatchField;
    var t := ReadHeader(s).value;
    if t.field <= LastField(m) {
      match m
      case Put(p) =>
      case Delete(d) =>
      case DeleteRange(d) =>
      case Write(w) => WriteFieldSound(skip, w, t, s[t.size..]);
      case Ver(v) =>
      case PutResp(p) => PutResponseFieldSound(skip, p, t, s[t.size..]);
      case Notif(n) =>
      case Batch(b) => BatchFieldSound(skip, b, t, s[t.size..]);
    } else {
      OneUnknownRecord(skip, LastField(m), s);
      UnknownRecordsAppend(skip, LastField(m), Unknown(m), s[..SkipRecord(skip, s).value]);
    }
  }

  /** Parsing any bytes into a sound message leaves a sound message. */
  lemma {:induction false} ParseSound(skip: Skipper, m: Msg, s: Bytes)
    requires SkipContract(skip) && Sound(skip, m)
    requires Parse(skip, m, s).Some?
    ensures Sound(skip, Parse(skip, m, s).value)
    decreases |s|, 1
  {
    hide SkipContract, Sound, Step;
    if s != [] {
      StepSound(skip, m, s);
      var (q, n) := Step(skip, m, s).value;
      ParseSound(skip, q, s[n..]);
    }
  }

  // ---------- Marshalling what was parsed ----------

  /** Any bytes that parse as a WriteRequest give one that survives a round trip. */
  lemma ParsedWriteSurvives(skip: Skipper, s: Bytes)
    requires SkipContract(skip) && Parse(skip, Write(EMPTY_WRITE), s).Some?
    requires |EncodeWrite(Parse(skip, Write(EMPTY_WRITE), s).value.write)| <= MAX_BUFFER
    ensures var w := Parse(skip, Write(EMPTY_WRITE), s).value.write;
            var r := Parse(skip, Write(EMPTY_WRITE), EncodeWrite(w));
            r.Some? && EqualWrite(r.value.write, w)
  {
    hide SkipContract, Parse, EncodeWrite;
    UnknownRecordsOfNothing(skip, 4);
    ParseSound(skip, Write(EMPTY_WRITE), s);
    WriteRoundTrip(skip, Parse(skip, Write(EMPTY_WRITE), s).value.write);
  }

  /** The same for batches, whatever order their map is then marshalled in. */
  lemma ParsedBatchSurvives(skip: Skipper, s: Bytes, ks: seq<Bytes>)
    requires SkipContract(skip) && Parse(skip, Batch(EMPTY_BATCH), s).Some?
    requires IterationOrder(ks, Parse(skip, Batch(EMPTY_BATCH), s).value.batch.notifications)
    requires |EncodeBatch(Parse(skip, Batch(EMPTY_BATCH), s).value.batch, ks)| <= MAX_BUFFER
    ensures var b := Parse(skip, Batch(EMPTY_BATCH), s).value.batch;
            var r := Parse(skip, Batch(EMPTY_BATCH), EncodeBatch(b, ks));
            r.Some? && EqualBatch(r.value.batch, b)
  {
    hide SkipContract, Parse, EncodeBatch;
    UnknownRecordsOfNothing(skip, 4);
    ParseSound(skip, Batch(EMPTY_BATCH), s);
    BatchRoundTrip(skip, Parse(skip, Batch(EMPTY_BATCH), s).value.batch, ks);
  }
}

/**
 Parsing marshalled bytes into a fresh message gives the message back, up to `EqualVT`, unknown fields
 included.
 */
module RoundTrip {
  import opened Prelude
  import opened Varint
  import opened Wire
  import opened Messages
  import opened Parser
  import opened Concat
  import opened Fields

  // ---------- Which unknown bytes a message can hold ----------

  /** `u` is a run of whole records whose field numbers are above `last`. */
  ghost predicate UnknownRecords(skip: Skipper, last: nat, u: Bytes)
    decreases |u|
  {
    u == [] ||
    (&& ReadHeader(u).Some? && ReadHeader(u).value.field > last
     && SkipRecord(skip, u).Some?
     && UnknownRecords(skip, last, u[SkipRecord(skip, u).value..]))
  }

  /** Every unknown-fields slice in the message is such a run for its own message type. */
  ghost predicate Sound(skip: Skipper, m: Msg) {
    && UnknownRecords(skip, LastField(m), Unknown(m))
    && (m.Write? ==>
          && (forall i :: 0 <= i < |m.write.puts| ==>
                UnknownRecords(skip, 7, OrElse(m.write.puts[i], EMPTY_PUT).unknown))
          && (forall i :: 0 <= i < |m.write.deletes| ==>
                UnknownRecords(skip, 2, OrElse(m.write.deletes[i], EMPTY_DELETE).unknown))
          && (forall i :: 0 <= i < |m.write.deleteRanges| ==>
                UnknownRecords(skip, 2, OrElse(m.write.deleteRanges[i], EMPTY_DELETE_RANGE).unknown)))
    && (m.PutResp? ==>
          UnknownRecords(skip, 6, OrElse(m.putResponse.version, EMPTY_VERSION).unknown))
    && (m.Batch? ==>
          forall k :: k in m.batch.notifications ==>
            UnknownRecords(skip, 2, OrElse(m.batch.notifications[k], EMPTY_NOTIFICATION).unknown))
  }

  lemma StepUnknownRecord(skip: Skipper, m: Msg, u: Bytes)
    requires ReadHeader(u).Some? && ReadHeader(u).value.field > LastField(m) && SkipRecord(skip, u).Some?
    ensures var n := SkipRecord(skip, u).value;
            Step(skip, m, u) == Some((WithUnknown(m, Unknown(m) + u[..n]), n))
  {
    hide ReadHeader, SkipRecord, Field;
  }

  /** Unknown records are re-read as unknown records. */
  lemma {:induction false} ParseUnknownRecords(skip: Skipper, m: Msg, u: Bytes)
    requires UnknownRecords(skip, LastField(m), u)
    ensures Parse(skip, m, u) == Some(WithUnknown(m, Unknown(m) + u))
    decreases |u|
  {
    hide ReadHeader, SkipRecord, Step;
    if u == [] {
      assert Unknown(m) + u == Unknown(m);
    } else {
      var n := SkipRecord(skip, u).value;
      var q := WithUnknown(m, Unknown(m) + u[..n]);
      StepUnknownRecord(skip, m, u);
      ParseUnknownRecords(skip, q, u[n..]);
      assert Unknown(m) + u[..n] + u[n..] == Unknown(m) + u;
    }
  }

  // ---------- Normal forms ----------

  /** The representative of `m` under `EqualVT`: a nil and an empty value are one. */
  function NormalPut(m: PutRequest): PutRequest {
    m.(value := if OrElse(m.value, []) == [] then None else m.value)
  }

  /** A nil element stands for an empty message. */
  function NormalPuts(ps: seq<Option<PutRequest>>): seq<Option<PutRequest>> {
    if ps == [] then [] else [Some(NormalPut(OrElse(ps[0], EMPTY_PUT)))] + NormalPuts(ps[1..])
  }

  function NonNil<T>(xs: seq<Option<T>>, empty: T): seq<Option<T>> {
    if xs == [] then [] else [Some(OrElse(xs[0], empty))] + NonNil(xs[1..], empty)
  }

  lemma {:induction false} NormalPutsAt(ps: seq<Option<PutRequest>>)
    ensures |NormalPuts(ps)| == |ps|
    ensures forall i :: 0 <= i < |ps| ==> NormalPuts(ps)[i] == Some(NormalPut(OrElse(ps[i], EMPTY_PUT)))
  {
    if ps != [] { NormalPutsAt(ps[1..]); }
  }

  lemma {:induction false} NonNilAt<T>(xs: seq<Option<T>>, empty: T)
    ensures |NonNil(xs, empty)| == |xs|
    ensures forall i :: 0 <= i < |xs| ==> NonNil(xs, empty)[i] == Some(OrElse(xs[i], empty))
  {
    if xs != [] { NonNilAt(xs[1..], empty); }
  }

  function NormalWrite(m: WriteRequest): WriteRequest {
    m.(puts := NormalPuts(m.puts), deletes := NonNil(m.deletes, EMPTY_DELETE),
       deleteRanges := NonNil(m.deleteRanges, EMPTY_DELETE_RANGE))
  }

  function NormalBatch(m: NotificationBatch): NotificationBatch {
    m.(notifications := map k | k in m.notifications :: Some(OrElse(m.notifications[k], EMPTY_NOTIFICATION)))
  }

  lemma NormalWriteAt(w: WriteRequest)
    ensures var n := NormalWrite(w);
            && |n.puts| == |w.puts| && |n.deletes| == |w.deletes| && |n.deleteRanges| == |w.deleteRanges|
            && (forall i :: 0 <= i < |w.puts| ==> n.puts[i] == Some(NormalPut(OrElse(w.puts[i], EMPTY_PUT))))
            && (forall i :: 0 <= i < |w.deletes| ==> n.deletes[i] == Some(OrElse(w.deletes[i], EMPTY_DELETE)))
            && (forall i :: 0 <= i < |w.deleteRanges| ==>
                  n.deleteRanges[i] == Some(OrElse(w.deleteRanges[i], EMPTY_DELETE_RANGE)))
  {
    NormalPutsAt(w.puts);
    NonNilAt(w.deletes, EMPTY_DELETE);
    NonNilAt(w.deleteRanges, EMPTY_DELETE_RANGE);
  }

  /** Two PutRequests are equal for the generated code exactly when they have one normal form. */
  lemma EqualPutIsNormalEquality(a: PutRequest, b: PutRequest)
    ensures EqualPut(a, b) <==> NormalPut(a) == NormalPut(b)
  {
  }

  lemma EqualWriteIsNormalEquality(a: WriteRequest, b: WriteRequest)
    ensures EqualWrite(a, b) <==> NormalWrite(a) == NormalWrite(b)
  {
    var na, nb := NormalWrite(a), NormalWrite(b);
    NormalWriteAt(a);
    NormalWriteAt(b);
    if EqualWrite(a, b) {
      assert na.puts == nb.puts;
      assert na.deletes == nb.deletes;
      assert na.deleteRanges == nb.deleteRanges;
    }
    if na == nb {
      forall i | 0 <= i < |a.puts|
        ensures EqualPut(OrElse(a.puts[i], EMPTY_PUT), OrElse(b.puts[i], EMPTY_PUT))
      {
        assert na.puts[i] == nb.puts[i];
      }
      forall i | 0 <= i < |a.deletes|
        ensures OrElse(a.deletes[i], EMPTY_DELETE) == OrElse(b.deletes[i], EMPTY_DELETE)
      {
        assert na.deletes[i] == nb.deletes[i];
      }
      forall i | 0 <= i < |a.deleteRanges|
        ensures OrElse(a.deleteRanges[i], EMPTY_DELETE_RANGE) == OrElse(b.deleteRanges[i], EMPTY_DELETE_RANGE)
      {
        assert na.deleteRanges[i] == nb.deleteRanges[i];
      }
    }
  }

  /** Comparing sizes and looking up each key of one map compares the maps in both directions. */
  lemma EqualBatchIsNormalEquality(a: NotificationBatch, b: NotificationBatch)
    ensures EqualBatch(a, b) <==> NormalBatch(a) == NormalBatch(b)
  {
    var na, nb := NormalBatch(a).notifications, NormalBatch(b).notifications;
    assert na.Keys == a.notifications.Keys && nb.Keys == b.notifications.Keys;
    if EqualBatch(a, b) {
      SubsetOfSameSize(a.notifications.Keys, b.notifications.Keys);
      assert na == nb;
    }
    if NormalBatch(a) == NormalBatch(b) {
      assert |a.notifications.Keys| == |b.notifications.Keys|;
      forall k | k in a.notifications
        ensures k in b.notifications
                && OrElse(a.notifications[k], EMPTY_NOTIFICATION) == OrElse(b.notifications[k], EMPTY_NOTIFICATION)
      {
        assert na[k] == nb[k];
      }
    }
  }

  lemma SubsetOfSameSize<T>(a: set<T>, b: set<T>)
    requires a <= b && |a| == |b|
    ensures a == b
  {
    assert |b - a| == |b| - |a|;
  }

  // ---------- Messages without sub-messages ----------
  // Parsing the marshalled bytes of a message into any receiver merges the message into it; into a fresh
  // receiver, that is a round trip.

  function MergePut(m: PutRequest, p: PutRequest): PutRequest {
    PutRequest(LastNonEmpty(m.key, p.key), LastSet(m.value, NormalPut(p).value),
               LastSet(m.expectedVersionId, p.expectedVersionId), LastSet(m.sessionId, p.sessionId),
               LastSet(m.clientIdentity, p.clientIdentity), LastSet(m.partitionKey, p.partitionKey),
               m.sequenceKeyDelta + p.sequenceKeyDelta, m.unknown + p.unknown)
  }

  lemma ParsePut(skip: Skipper, m0: PutRequest, p: PutRequest)
    requires SkipContract(skip) && UnknownRecords(skip, 7, p.unknown)
    requires |EncodePut(p)| <= MAX_BUFFER
    ensures Parse(skip, Put(m0), EncodePut(p)) == Some(Put(MergePut(m0, p)))
  {
    hide SkipContract, Parse, UnknownRecords, NonEmpty, OptionalInt64, OptionalBytes, PackedField;
    var r := MergePut(m0, p);
    var m1 := m0.(key := r.key);
    var m2 := m1.(value := r.value);
    var m3 := m2.(expectedVersionId := r.expectedVersionId);
    var m4 := m3.(sessionId := r.sessionId);
    var m5 := m4.(clientIdentity := r.clientIdentity);
    var m6 := m5.(partitionKey := r.partitionKey);
    var m7 := m6.(sequenceKeyDelta := r.sequenceKeyDelta);
    var r6 := PackedField(0x3a, p.sequenceKeyDelta) + p.unknown;
    var r5 := OptionalBytes(0x32, p.partitionKey) + r6;
    var r4 := OptionalBytes(0x2a, p.clientIdentity) + r5;
    var r3 := OptionalInt64(0x20, p.sessionId) + r4;
    var r2 := OptionalInt64(0x18, p.expectedVersionId) + r3;
    var r1 := NonEmpty(0x12, OrElse(p.value, [])) + r2;
    PutKey(skip, m0, p.key);
    ConcatenationIsMerge(skip, Put(m0), NonEmpty(0x0a, p.key), r1);
    PutValue(skip, m1, p.value);
    ConcatenationIsMerge(skip, Put(m1), NonEmpty(0x12, OrElse(p.value, [])), r2);
    PutExpectedVersionId(skip, m2, p.expectedVersionId);
    ConcatenationIsMerge(skip, Put(m2), OptionalInt64(0x18, p.expectedVersionId), r3);
    PutSessionId(skip, m3, p.sessionId);
    ConcatenationIsMerge(skip, Put(m3), OptionalInt64(0x20, p.sessionId), r4);
    PutClientIdentity(skip, m4, p.clientIdentity);
    ConcatenationIsMerge(skip, Put(m4), OptionalBytes(0x2a, p.clientIdentity), r5);
    PutPartitionKey(skip, m5, p.partitionKey);
    ConcatenationIsMerge(skip, Put(m5), OptionalBytes(0x32, p.partitionKey), r6);
    PutSequenceKeyDelta(skip, m6, p.sequenceKeyDelta);
    ConcatenationIsMerge(skip, Put(m6), PackedField(0x3a, p.sequenceKeyDelta), p.unknown);
    ParseUnknownRecords(skip, Put(m7), p.unknown);
  }

  lemma PutRoundTrip(skip: Skipper, p: PutRequest)
    requires SkipContract(skip) && UnknownRecords(skip, 7, p.unknown)
    requires |EncodePut(p)| <= MAX_BUFFER
    ensures Parse(skip, Put(EMPTY_PUT), EncodePut(p)) == Some(Put(NormalPut(p)))
  {
    hide SkipContract, UnknownRecords, EncodePut, Parse;
    ParsePut(skip, EMPTY_PUT, p);
    assert [] + p.sequenceKeyDelta == p.sequenceKeyDelta && [] + p.unknown == p.unknown;
  }

  lemma DeleteRoundTrip(skip: Skipper, d: DeleteRequest)
    requires SkipContract(skip) && UnknownRecords(skip, 2, d.unknown)
    requires |EncodeDelete(d)| <= MAX_BUFFER
    ensures Parse(skip, Delete(EMPTY_DELETE), EncodeDelete(d)) == Some(Delete(d))
  {
    hide SkipContract, Parse, UnknownRecords, NonEmpty, OptionalInt64;
    var m1 := EMPTY_DELETE.(key := d.key);
    var m2 := m1.(expectedVersionId := d.expectedVersionId);
    DeleteKey(skip, EMPTY_DELETE, d.key);
    ConcatenationIsMerge(skip, Delete(EMPTY_DELETE), NonEmpty(0x0a, d.key),
                         OptionalInt64(0x10, d.expectedVersionId) + d.unknown);
    DeleteExpectedVersionId(skip, m1, d.expectedVersionId);
    ConcatenationIsMerge(skip, Delete(m1), OptionalInt64(0x10, d.expectedVersionId), d.unknown);
    ParseUnknownRecords(skip, Delete(m2), d.unknown);
    assert [] + d.unknown == d.unknown;
  }

  lemma DeleteRangeRoundTrip(skip: Skipper, d: DeleteRangeRequest)
    requires SkipContract(skip) && UnknownRecords(skip, 2, d.unknown)
    requires |EncodeDeleteRange(d)| <= MAX_BUFFER
    ensures Parse(skip, DeleteRange(EMPTY_DELETE_RANGE), EncodeDeleteRange(d)) == Some(DeleteRange(d))
  {
    hide SkipContract, Parse, UnknownRecords, NonEmpty;
    var m1 := EMPTY_DELETE_RANGE.(startInclusive := d.startInclusive);
    var m2 := m1.(endExclusive := d.endExclusive);
    DeleteRangeStartInclusive(skip, EMPTY_DELETE_RANGE, d.startInclusive);
    ConcatenationIsMerge(skip, DeleteRange(EMPTY_DELETE_RANGE), NonEmpty(0x0a, d.startInclusive),
                         NonEmpty(0x12, d.endExclusive) + d.unknown);
    DeleteRangeEndExclusive(skip, m1, d.endExclusive);
    ConcatenationIsMerge(skip, DeleteRange(m1), NonEmpty(0x12, d.endExclusive), d.unknown);
    ParseUnknownRecords(skip, DeleteRange(m2), d.unknown);
    assert [] + d.unknown == d.unknown;
  }

  function MergeVersion(m: Version, v: Version): Version {
    Version(LastNonZero(m.versionId, v.versionId), LastNonZero(m.modificationsCount, v.modificationsCount),
            LastNonZero(m.createdTimestamp, v.createdTimestamp), LastNonZero(m.modifiedTimestamp, v.modifiedTimestamp),
            LastSet(m.sessionId, v.sessionId), LastSet(m.clientIdentity, v.clientIdentity), m.unknown + v.unknown)
  }

  lemma ParseVersion(skip: Skipper, m0: Version, v: Version)
    requires SkipContract(skip) && UnknownRecords(skip, 6, v.unknown)
    requires |EncodeVersion(v)| <= MAX_BUFFER
    ensures Parse(skip, Ver(m0), EncodeVersion(v)) == Some(Ver(MergeVersion(m0, v)))
  {
    hide SkipContract, Parse, UnknownRecords, NonZero, NonZeroFixed64, OptionalInt64, OptionalBytes;
    var r := MergeVersion(m0, v);
    var m1 := m0.(versionId := r.versionId);
    var m2 := m1.(modificationsCount := r.modificationsCount);
    var m3 := m2.(createdTimestamp := r.createdTimestamp);
    var m4 := m3.(modifiedTimestamp := r.modifiedTimestamp);
    var m5 := m4.(sessionId := r.sessionId);
    var m6 := m5.(clientIdentity := r.clientIdentity);
    var r5 := OptionalBytes(0x32, v.clientIdentity) + v.unknown;
    var r4 := OptionalInt64(0x28, v.sessionId) + r5;
    var r3 := NonZeroFixed64(0x21, v.modifiedTimestamp) + r4;
    var r2 := NonZeroFixed64(0x19, v.createdTimestamp) + r3;
    var r1 := NonZero(0x10, v.modificationsCount) + r2;
    VerVersionId(skip, m0, v.versionId);
    ConcatenationIsMerge(skip, Ver(m0), NonZero(0x08, v.versionId), r1);
    VerModificationsCount(skip, m1, v.modificationsCount);
    ConcatenationIsMerge(skip, Ver(m1), NonZero(0x10, v.modificationsCount), r2);
    VerCreatedTimestamp(skip, m2, v.createdTimestamp);
    ConcatenationIsMerge(skip, Ver(m2), NonZeroFixed64(0x19, v.createdTimestamp), r3);
    VerModifiedTimestamp(skip, m3, v.modifiedTimestamp);
    ConcatenationIsMerge(skip, Ver(m3), NonZeroFixed64(0x21, v.modifiedTimestamp), r4);
    VerSessionId(skip, m4, v.sessionId);
    ConcatenationIsMerge(skip, Ver(m4), OptionalInt64(0x28, v.sessionId), r5);
    VerClientIdentity(skip, m5, v.clientIdentity);
    ConcatenationIsMerge(skip, Ver(m5), OptionalBytes(0x32, v.clientIdentity), v.unknown);
    ParseUnknownRecords(skip, Ver(m6), v.unknown);
  }

  lemma NotificationRoundTrip(skip: Skipper, n: Notification)
    requires SkipContract(skip) && UnknownRecords(skip, 2, n.unknown)
    ensures Parse(skip, Notif(EMPTY_NOTIFICATION), EncodeNotification(n)) == Some(Notif(n))
  {
    hide SkipContract, Parse, UnknownRecords, NonZero, OptionalInt64;
    var m1 := EMPTY_NOTIFICATION.(kind := n.kind);
    var m2 := m1.(versionId := n.versionId);
    NotifKind(skip, EMPTY_NOTIFICATION, n.kind);
    ConcatenationIsMerge(skip, Notif(EMPTY_NOTIFICATION), NonZero(0x08, n.kind),
                         OptionalInt64(0x10, n.versionId) + n.unknown);
    NotifVersionId(skip, m1, n.versionId);
    ConcatenationIsMerge(skip, Notif(m1), OptionalInt64(0x10, n.versionId), n.unknown);
    ParseUnknownRecords(skip, Notif(m2), n.unknown);
    assert [] + n.unknown == n.unknown;
  }

  // ---------- WriteRequest ----------

  lemma WritePut(skip: Skipper, m: WriteRequest, p: PutRequest)
    requires SkipContract(skip) && UnknownRecords(skip, 7, p.unknown) && |EncodePut(p)| <= MAX_BUFFER
    ensures Parse(skip, Write(m), LengthField(0x12, EncodePut(p)))
            == Some(Write(m.(puts := m.puts + [Some(NormalPut(p))])))
  {
    hide SkipContract, UnknownRecords, ReadPayload, EncodePut, Step, Parse;
    PutRoundTrip(skip, p);
    ParseLengthField(skip, Write(m), 0x12, EncodePut(p));
  }

  lemma WriteDelete(skip: Skipper, m: WriteRequest, d: DeleteRequest)
    requires SkipContract(skip) && UnknownRecords(skip, 2, d.unknown) && |EncodeDelete(d)| <= MAX_BUFFER
    ensures Parse(skip, Write(m), LengthField(0x1a, EncodeDelete(d)))
            == Some(Write(m.(deletes := m.deletes + [Some(d)])))
  {
    hide SkipContract, UnknownRecords, ReadPayload, EncodeDelete, Step, Parse;
    DeleteRoundTrip(skip, d);
    ParseLengthField(skip, Write(m), 0x1a, EncodeDelete(d));
  }

  lemma WriteDeleteRange(skip: Skipper, m: WriteRequest, d: DeleteRangeRequest)
    requires SkipContract(skip) && UnknownRecords(skip, 2, d.unknown) && |EncodeDeleteRange(d)| <= MAX_BUFFER
    ensures Parse(skip, Write(m), LengthField(0x22, EncodeDeleteRange(d)))
            == Some(Write(m.(deleteRanges := m.deleteRanges + [Some(d)])))
  {
    hide SkipContract, UnknownRecords, ReadPayload, EncodeDeleteRange, Step, Parse;
    DeleteRangeRoundTrip(skip, d);
    ParseLengthField(skip, Write(m), 0x22, EncodeDeleteRange(d));
  }

  /** The next element of the repeated field is appended, and parsing goes on behind it. */
  lemma OneMorePut(skip: Skipper, m: WriteRequest, x: PutRequest, rest: Bytes)
    requires SkipContract(skip) && UnknownRecords(skip, 7, x.unknown) && |EncodePut(x)| <= MAX_BUFFER
    ensures Parse(skip, Write(m), LengthField(0x12, EncodePut(x)) + rest)
            == Parse(skip, Write(m.(puts := m.puts + [Some(NormalPut(x))])), rest)
  {
    hide SkipContract, UnknownRecords, EncodePut, LengthField, Parse;
    WritePut(skip, m, x);
    ConcatenationIsMerge(skip, Write(m), LengthField(0x12, EncodePut(x)), rest);
  }

  lemma PutsCons(xs: seq<Option<PutRequest>>)
    requires xs != []
    ensures var f := LengthField(0x12, EncodePut(OrElse(xs[0], EMPTY_PUT)));
            EncodePuts(xs) == f + EncodePuts(xs[1..]) && |EncodePut(OrElse(xs[0], EMPTY_PUT))| <= |f|
    ensures NormalPuts(xs) == [Some(NormalPut(OrElse(xs[0], EMPTY_PUT)))] + NormalPuts(xs[1..])
  {
    hide EncodePut;
  }

  /** The next element of the repeated field is appended, and parsing goes on behind it. */
  lemma OneMoreDelete(skip: Skipper, m: WriteRequest, x: DeleteRequest, rest: Bytes)
    requires SkipContract(skip) && UnknownRecords(skip, 2, x.unknown) && |EncodeDelete(x)| <= MAX_BUFFER
    ensures Parse(skip, Write(m), LengthField(0x1a, EncodeDelete(x)) + rest)
            == Parse(skip, Write(m.(deletes := m.deletes + [Some(x)])), rest)
  {
    hide SkipContract, UnknownRecords, EncodeDelete, LengthField, Parse;
    WriteDelete(skip, m, x);
    ConcatenationIsMerge(skip, Write(m), LengthField(0x1a, EncodeDelete(x)), rest);
  }

  lemma DeletesCons(xs: seq<Option<DeleteRequest>>)
    requires xs != []
    ensures var f := LengthField(0x1a, EncodeDelete(OrElse(xs[0], EMPTY_DELETE)));
            EncodeDeletes(xs) == f + EncodeDeletes(xs[1..]) && |EncodeDelete(OrElse(xs[0], EMPTY_DELETE))| <= |f|
    ensures NonNil(xs, EMPTY_DELETE) == [Some(OrElse(xs[0], EMPTY_DELETE))] + NonNil(xs[1..], EMPTY_DELETE)
  {
    hide EncodeDelete;
  }

  /** The next element of the repeated field is appended, and parsing goes on behind it. */
  lemma OneMoreDeleteRange(skip: Skipper, m: WriteRequest, x: DeleteRangeRequest, rest: Bytes)
    requires SkipContract(skip) && UnknownRecords(skip, 2, x.unknown) && |EncodeDeleteRange(x)| <= MAX_BUFFER
    ensures Parse(skip, Write(m), LengthField(0x22, EncodeDeleteRange(x)) + rest)
            == Parse(skip, Write(m.(deleteRanges := m.deleteRanges + [Some(x)])), rest)
  {
    hide SkipContract, UnknownRecords, EncodeDeleteRange, LengthField, Parse;
    WriteDeleteRange(skip, m, x);
    ConcatenationIsMerge(skip, Write(m), LengthField(0x22, EncodeDeleteRange(x)), rest);
  }

  lemma DeleteRangesCons(xs: seq<Option<DeleteRangeRequest>>)
    requires xs != []
    ensures var f := LengthField(0x22, EncodeDeleteRange(OrElse(xs[0], EMPTY_DELETE_RANGE)));
            && EncodeDeleteRanges(xs) == f + EncodeDeleteRanges(xs[1..])
            && |EncodeDeleteRange(OrElse(xs[0], EMPTY_DELETE_RANGE))| <= |f|
    ensures NonNil(xs, EMPTY_DELETE_RANGE)
            == [Some(OrElse(xs[0], EMPTY_DELETE_RANGE))] + NonNil(xs[1..], EMPTY_DELETE_RANGE)
  {
    hide EncodeDeleteRange;
  }

  /** Each marshalled element of a repeated field is appended to what the receiver already holds. */
  lemma {:induction false} ParsePuts(skip: Skipper, m: WriteRequest, ps: seq<Option<PutRequest>>)
    requires SkipContract(skip) && |EncodePuts(ps)| <= MAX_BUFFER
    requires forall i :: 0 <= i < |ps| ==> UnknownRecords(skip, 7, OrElse(ps[i], EMPTY_PUT).unknown)
    ensures Parse(skip, Write(m), EncodePuts(ps)) == Some(Write(m.(puts := m.puts + NormalPuts(ps))))
    decreases |ps|
  {
    if ps == [] {
      ParseNothing(skip, Write(m));
      assert m.puts + NormalPuts(ps) == m.puts;
    } else {
      ParsePutsStep(skip, m, ps);
    }
  }

  lemma {:induction false} ParsePutsStep(skip: Skipper, m: WriteRequest, ps: seq<Option<PutRequest>>)
    requires SkipContract(skip) && |EncodePuts(ps)| <= MAX_BUFFER && ps != []
    requires forall i :: 0 <= i < |ps| ==> UnknownRecords(skip, 7, OrElse(ps[i], EMPTY_PUT).unknown)
    ensures Parse(skip, Write(m), EncodePuts(ps)) == Some(Write(m.(puts := m.puts + NormalPuts(ps))))
    decreases |ps|, 0
  {
    hide SkipContract, UnknownRecords, EncodePut, EncodePuts, NormalPuts, LengthField, Parse;
    var p := OrElse(ps[0], EMPTY_PUT);
    PutsCons(ps);
    OneMorePut(skip, m, p, EncodePuts(ps[1..]));
    ParsePuts(skip, m.(puts := m.puts + [Some(NormalPut(p))]), ps[1..]);
    assert m.puts + [Some(NormalPut(p))] + NormalPuts(ps[1..]) == m.puts + ([Some(NormalPut(p))] + NormalPuts(ps[1..]));
  }

  lemma {:induction false} ParseDeletes(skip: Skipper, m: WriteRequest, ds: seq<Option<DeleteRequest>>)
    requires SkipContract(skip) && |EncodeDeletes(ds)| <= MAX_BUFFER
    requires forall i :: 0 <= i < |ds| ==> UnknownRecords(skip, 2, OrElse(ds[i], EMPTY_DELETE).unknown)
    ensures Parse(skip, Write(m), EncodeDeletes(ds))
            == Some(Write(m.(deletes := m.deletes + NonNil(ds, EMPTY_DELETE))))
    decreases |ds|
  {
    if ds == [] {
      ParseNothing(skip, Write(m));
      assert m.deletes + NonNil(ds, EMPTY_DELETE) == m.deletes;
    } else {
      ParseDeletesStep(skip, m, ds);
    }
  }

  lemma {:induction false} ParseDeletesStep(skip: Skipper, m: WriteRequest, ds: seq<Option<DeleteRequest>>)
    requires SkipContract(skip) && |EncodeDeletes(ds)| <= MAX_BUFFER && ds != []
    requires forall i :: 0 <= i < |ds| ==> UnknownRecords(skip, 2, OrElse(ds[i], EMPTY_DELETE).unknown)
    ensures Parse(skip, Write(m), EncodeDeletes(ds))
            == Some(Write(m.(deletes := m.deletes + NonNil(ds, EMPTY_DELETE))))
    decreases |ds|, 0
  {
    hide SkipContract, UnknownRecords, EncodeDelete, EncodeDeletes, NonNil, LengthField, Parse;
    var d, tail := OrElse(ds[0], EMPTY_DELETE), NonNil(ds[1..], EMPTY_DELETE);
    DeletesCons(ds);
    OneMoreDelete(skip, m, d, EncodeDeletes(ds[1..]));
    ParseDeletes(skip, m.(deletes := m.deletes + [Some(d)]), ds[1..]);
    assert m.deletes + [Some(d)] + tail == m.deletes + ([Some(d)] + tail);
  }

  lemma {:induction false} ParseDeleteRanges(skip: Skipper, m: WriteRequest, ds: seq<Option<DeleteRangeRequest>>)
    requires SkipContract(skip) && |EncodeDeleteRanges(ds)| <= MAX_BUFFER
    requires forall i :: 0 <= i < |ds| ==> UnknownRecords(skip, 2, OrElse(ds[i], EMPTY_DELETE_RANGE).unknown)
    ensures Parse(skip, Write(m), EncodeDeleteRanges(ds))
            == Some(Write(m.(deleteRanges := m.deleteRanges + NonNil(ds, EMPTY_DELETE_RANGE))))
    decreases |ds|
  {
    if ds == [] {
      ParseNothing(skip, Write(m));
      assert m.deleteRanges + NonNil(ds, EMPTY_DELETE_RANGE) == m.deleteRanges;
    } else {
      ParseDeleteRangesStep(skip, m, ds);
    }
  }

  lemma {:induction false} ParseDeleteRangesStep(skip: Skipper, m: WriteRequest, ds: seq<Option<DeleteRangeRequest>>)
    requires SkipContract(skip) && |EncodeDeleteRanges(ds)| <= MAX_BUFFER && ds != []
    requires forall i :: 0 <= i < |ds| ==> UnknownRecords(skip, 2, OrElse(ds[i], EMPTY_DELETE_RANGE).unknown)
    ensures Parse(skip, Write(m), EncodeDeleteRanges(ds))
            == Some(Write(m.(deleteRanges := m.deleteRanges + NonNil(ds, EMPTY_DELETE_RANGE))))
    decreases |ds|, 0
  {
    hide SkipContract, UnknownRecords, EncodeDeleteRange, EncodeDeleteRanges, NonNil, LengthField, Parse;
    var d, tail := OrElse(ds[0], EMPTY_DELETE_RANGE), NonNil(ds[1..], EMPTY_DELETE_RANGE);
    DeleteRangesCons(ds);
    OneMoreDeleteRange(skip, m, d, EncodeDeleteRanges(ds[1..]));
    ParseDeleteRanges(skip, m.(deleteRanges := m.deleteRanges + [Some(d)]), ds[1..]);
    assert m.deleteRanges + [Some(d)] + tail == m.deleteRanges + ([Some(d)] + tail);
  }

  function MergeWrite(m: WriteRequest, w: WriteRequest): WriteRequest {
    WriteRequest(LastSet(m.shard, w.shard), m.puts + NormalPuts(w.puts), m.deletes + NonNil(w.deletes, EMPTY_DELETE),
                 m.deleteRanges + NonNil(w.deleteRanges, EMPTY_DELETE_RANGE), m.unknown + w.unknown)
  }

  /** Parsing a marshalled WriteRequest into any receiver: the last shard wins, repeated fields append. */
  lemma ParseWrite(skip: Skipper, m0: WriteRequest, w: WriteRequest)
    requires SkipContract(skip) && Sound(skip, Write(w)) && |EncodeWrite(w)| <= MAX_BUFFER
    ensures Parse(skip, Write(m0), EncodeWrite(w)) == Some(Write(MergeWrite(m0, w)))
  {
    hide SkipContract, Parse, UnknownRecords, OptionalInt64, EncodePuts, EncodeDeletes, EncodeDeleteRanges,
         NormalPuts, NonNil;
    var r := MergeWrite(m0, w);
    var m1 := m0.(shard := r.shard);
    var m2 := m1.(puts := r.puts);
    var m3 := m2.(deletes := r.deletes);
    var m4 := m3.(deleteRanges := r.deleteRanges);
    var r3 := EncodeDeleteRanges(w.deleteRanges) + w.unknown;
    var r2 := EncodeDeletes(w.deletes) + r3;
    var r1 := EncodePuts(w.puts) + r2;
    WriteShard(skip, m0, w.shard);
    ConcatenationIsMerge(skip, Write(m0), OptionalInt64(0x08, w.shard), r1);
    ParsePuts(skip, m1, w.puts);
    ConcatenationIsMerge(skip, Write(m1), EncodePuts(w.puts), r2);
    ParseDeletes(skip, m2, w.deletes);
    ConcatenationIsMerge(skip, Write(m2), EncodeDeletes(w.deletes), r3);
    ParseDeleteRanges(skip, m3, w.deleteRanges);
    ConcatenationIsMerge(skip, Write(m3), EncodeDeleteRanges(w.deleteRanges), w.unknown);
    ParseUnknownRecords(skip, Write(m4), w.unknown);
  }

  /** Every WriteRequest that fits in a buffer comes back in normal form. */
  lemma WriteNormalRoundTrip(skip: Skipper, w: WriteRequest)
    requires SkipContract(skip) && Sound(skip, Write(w)) && |EncodeWrite(w)| <= MAX_BUFFER
    ensures Parse(skip, Write(EMPTY_WRITE), EncodeWrite(w)) == Some(Write(NormalWrite(w)))
  {
    hide SkipContract, Sound, EncodeWrite, Parse, NormalPuts, NonNil;
    ParseWrite(skip, EMPTY_WRITE, w);
    assert MergeWrite(EMPTY_WRITE, w) == NormalWrite(w);
  }

  lemma {:induction false} NormalWriteIsStable(w: WriteRequest)
    ensures NormalWrite(NormalWrite(w)) == NormalWrite(w)
  {
    var n := NormalWrite(w);
    NormalWriteAt(w);
    NormalWriteAt(n);
    assert NormalPuts(n.puts) == n.puts;
    assert NonNil(n.deletes, EMPTY_DELETE) == n.deletes;
    assert NonNil(n.deleteRanges, EMPTY_DELETE_RANGE) == n.deleteRanges;
  }

  /** Nested and packed round trip: parsing a marshalled WriteRequest gives a message EqualVT to it. */
  lemma WriteRoundTrip(skip: Skipper, w: WriteRequest)
    requires SkipContract(skip) && Sound(skip, Write(w)) && |EncodeWrite(w)| <= MAX_BUFFER
    ensures var r := Parse(skip, Write(EMPTY_WRITE), EncodeWrite(w));
            r.Some? && EqualWrite(r.value.write, w)
  {
    WriteNormalRoundTrip(skip, w);
    NormalWriteIsStable(w);
    EqualWriteIsNormalEquality(NormalWrite(w), w);
  }

  // ---------- PutResponse ----------

  lemma PutRespVersion(skip: Skipper, m: PutResponse, v: Version)
    requires SkipContract(skip) && UnknownRecords(skip, 6, v.unknown) && |EncodeVersion(v)| <= MAX_BUFFER
    ensures Parse(skip, PutResp(m), LengthField(0x12, EncodeVersion(v)))
            == Some(PutResp(m.(version := Some(MergeVersion(OrElse(m.version, EMPTY_VERSION), v)))))
  {
    hide SkipContract, UnknownRecords, ReadPayload, EncodeVersion, Step, Parse;
    ParseVersion(skip, OrElse(m.version, EMPTY_VERSION), v);
    ParseLengthField(skip, PutResp(m), 0x12, EncodeVersion(v));
  }

  function MergePutResponse(m: PutResponse, p: PutResponse): PutResponse {
    PutResponse(LastNonZero(m.status, p.status),
                if p.version.None? then m.version
                else Some(MergeVersion(OrElse(m.version, EMPTY_VERSION), p.version.value)),
                LastSet(m.key, p.key), m.unknown + p.unknown)
  }

  /** Parsing a marshalled PutResponse into any receiver merges the version field by field. */
  lemma ParsePutResponse(skip: Skipper, m0: PutResponse, p: PutResponse)
    requires SkipContract(skip) && Sound(skip, PutResp(p)) && |EncodePutResponse(p)| <= MAX_BUFFER
    ensures Parse(skip, PutResp(m0), EncodePutResponse(p)) == Some(PutResp(MergePutResponse(m0, p)))
  {
    hide SkipContract, Parse, UnknownRecords, NonZero, OptionalBytes, EncodeVersion, MergeVersion;
    var r := MergePutResponse(m0, p);
    var m1 := m0.(status := r.status);
    var m2 := m1.(version := r.version);
    var m3 := m2.(key := r.key);
    var f2 := if p.version.None? then [] else LengthField(0x12, EncodeVersion(p.version.value));
    var r2 := OptionalBytes(0x1a, p.key) + p.unknown;
    PutRespStatus(skip, m0, p.status);
    ConcatenationIsMerge(skip, PutResp(m0), NonZero(0x08, p.status), f2 + r2);
    if p.version.Some? {
      PutRespVersion(skip, m1, p.version.value);
      ConcatenationIsMerge(skip, PutResp(m1), f2, r2);
    } else {
      assert f2 + r2 == r2;
    }
    PutRespKey(skip, m2, p.key);
    ConcatenationIsMerge(skip, PutResp(m2), OptionalBytes(0x1a, p.key), p.unknown);
    ParseUnknownRecords(skip, PutResp(m3), p.unknown);
  }

  /** A PutResponse comes back exactly: an absent and an empty version stay apart. */
  lemma PutResponseRoundTrip(skip: Skipper, p: PutResponse)
    requires SkipContract(skip) && Sound(skip, PutResp(p)) && |EncodePutResponse(p)| <= MAX_BUFFER
    ensures Parse(skip, PutResp(EMPTY_PUT_RESPONSE), EncodePutResponse(p)) == Some(PutResp(p))
  {
    hide SkipContract, Sound, EncodePutResponse, Parse;
    ParsePutResponse(skip, EMPTY_PUT_RESPONSE, p);
    assert [] + p.unknown == p.unknown;
    if p.version.Some? { assert [] + p.version.value.unknown == p.version.value.unknown; }
  }

  // ---------- NotificationBatch ----------

  /** The entry loop finds the key and the value of a marshalled entry. */
  lemma ReadEntryOf(skip: Skipper, k: Bytes, v: Option<Notification>)
    requires SkipContract(skip) && UnknownRecords(skip, 2, OrElse(v, EMPTY_NOTIFICATION).unknown)
    requires |EncodeEntry(k, v)| <= MAX_BUFFER
    ensures var s := EncodeEntry(k, v);
            ReadEntry(skip, s, |s|, [], None) == Some((k, Some(OrElse(v, EMPTY_NOTIFICATION))))
  {
    hide SkipContract, UnknownRecords, EncodeNotification, EntryStep;
    var x := OrElse(v, EMPTY_NOTIFICATION);
    var f, g := LengthField(0x0a, k), LengthField(0x12, EncodeNotification(x));
    var s := EncodeEntry(k, v);
    assert EntryStep(skip, f, |s|, [], None) == Some((k, None, |f|)) by {
      EntryKeyStep(skip, k, |s|);
    }
    EntryStepLocal(skip, f, |s|, [], None, g);
    assert s[|f|..] == g;
    assert EntryStep(skip, g, |g|, k, None) == Some((k, Some(x), |g|)) by {
      NotificationRoundTrip(skip, x);
      EntryValueStep(skip, k, x, |g|);
    }
    assert ReadEntry(skip, g, |g|, k, None) == Some((k, Some(x))) by {
      assert g[|g|..] == [];
    }
  }

  lemma EntryKeyStep(skip: Skipper, k: Bytes, len: nat)
    requires |k| < TWO_63
    ensures EntryStep(skip, LengthField(0x0a, k), len, [], None) == Some((k, None, |LengthField(0x0a, k)|))
  {
    hide ReadPayload;
    var body := EncodeVarint(|k|) + k;
    assert LengthField(0x0a, k) == [0x0a] + body;
    ReadHeaderOfByte(0x0a, body);
    ReadPayloadOf(k);
    assert LengthField(0x0a, k)[1..] == body;
  }

  lemma EntryValueStep(skip: Skipper, k: Bytes, x: Notification, len: nat)
    requires |EncodeNotification(x)| < TWO_63
    requires Parse(skip, Notif(EMPTY_NOTIFICATION), EncodeNotification(x)) == Some(Notif(x))
    ensures var g := LengthField(0x12, EncodeNotification(x));
            EntryStep(skip, g, len, k, None) == Some((k, Some(x), |g|))
  {
    hide ReadPayload, EncodeNotification, Parse;
    var payload := EncodeNotification(x);
    var body := EncodeVarint(|payload|) + payload;
    assert LengthField(0x12, payload) == [0x12] + body;
    ReadHeaderOfByte(0x12, body);
    ReadPayloadOf(payload);
    assert LengthField(0x12, payload)[1..] == body;
  }

  lemma BatchEntry(skip: Skipper, m: NotificationBatch, k: Bytes, v: Option<Notification>)
    requires SkipContract(skip) && UnknownRecords(skip, 2, OrElse(v, EMPTY_NOTIFICATION).unknown)
    requires |EncodeEntry(k, v)| <= MAX_BUFFER
    ensures Parse(skip, Batch(m), LengthField(0x22, EncodeEntry(k, v)))
            == Some(Batch(m.(notifications := m.notifications[k := Some(OrElse(v, EMPTY_NOTIFICATION))])))
  {
    hide SkipContract, UnknownRecords, ReadPayload, EncodeEntry, ReadEntry, Step, Parse;
    ReadEntryOf(skip, k, v);
    ParseLengthField(skip, Batch(m), 0x22, EncodeEntry(k, v));
  }

  /** The receiver's map after the entries `ks` of `ns`, in order. */
  function AddEntries(acc: map<Bytes, Option<Notification>>, ks: seq<Bytes>, ns: map<Bytes, Option<Notification>>)
    : map<Bytes, Option<Notification>>
    requires forall k :: k in ks ==> k in ns
    decreases |ks|
  {
    if ks == [] then acc
    else AddEntries(acc[ks[0] := Some(OrElse(ns[ks[0]], EMPTY_NOTIFICATION))], ks[1..], ns)
  }

  lemma {:induction false} AddEntriesUnion(acc: map<Bytes, Option<Notification>>, ks: seq<Bytes>,
                                           ns: map<Bytes, Option<Notification>>)
    requires forall k :: k in ks ==> k in ns
    ensures AddEntries(acc, ks, ns) == acc + (map k | k in ks :: Some(OrElse(ns[k], EMPTY_NOTIFICATION)))
    decreases |ks|
  {
    if ks != [] {
      AddEntriesUnion(acc[ks[0] := Some(OrElse(ns[ks[0]], EMPTY_NOTIFICATION))], ks[1..], ns);
    }
  }

  lemma {:induction false} ParseEntries(skip: Skipper, m: NotificationBatch, ks: seq<Bytes>,
                                        ns: map<Bytes, Option<Notification>>)
    requires SkipContract(skip) && (forall k :: k in ks ==> k in ns) && |EncodeEntries(ks, ns)| <= MAX_BUFFER
    requires forall k :: k in ns ==> UnknownRecords(skip, 2, OrElse(ns[k], EMPTY_NOTIFICATION).unknown)
    ensures Parse(skip, Batch(m), EncodeEntries(ks, ns))
            == Some(Batch(m.(notifications := AddEntries(m.notifications, ks, ns))))
    decreases |ks|
  {
    hide SkipContract, UnknownRecords, EncodeEntry, LengthField, Parse;
    if ks == [] {
      ParseNothing(skip, Batch(m));
    } else {
      var k := ks[0];
      var f, rest := LengthField(0x22, EncodeEntry(k, ns[k])), EncodeEntries(ks[1..], ns);
      BatchEntry(skip, m, k, ns[k]);
      ConcatenationIsMerge(skip, Batch(m), f, rest);
      var v := Some(OrElse(ns[k], EMPTY_NOTIFICATION));
      ParseEntries(skip, m.(notifications := m.notifications[k := v]), ks[1..], ns);
    }
  }

  function MergeBatch(m: NotificationBatch, b: NotificationBatch): NotificationBatch {
    NotificationBatch(LastNonZero(m.shard, b.shard), LastNonZero(m.offset, b.offset),
                      LastNonZero(m.timestamp, b.timestamp), m.notifications + NormalBatch(b).notifications,
                      m.unknown + b.unknown)
  }

  /** Parsing a marshalled batch into any receiver, whatever the order its map was written in. */
  lemma ParseBatch(skip: Skipper, m0: NotificationBatch, b: NotificationBatch, ks: seq<Bytes>)
    requires SkipContract(skip) && Sound(skip, Batch(b))
    requires IterationOrder(ks, b.notifications) && |EncodeBatch(b, ks)| <= MAX_BUFFER
    ensures Parse(skip, Batch(m0), EncodeBatch(b, ks)) == Some(Batch(MergeBatch(m0, b)))
  {
    hide SkipContract, Parse, UnknownRecords, NonZero, NonZeroFixed64, EncodeEntries, NormalBatch;
    var r := MergeBatch(m0, b);
    var m1 := m0.(shard := r.shard);
    var m2 := m1.(offset := r.offset);
    var m3 := m2.(timestamp := r.timestamp);
    var r3 := EncodeEntries(ks, b.notifications) + b.unknown;
    var r2 := NonZeroFixed64(0x19, b.timestamp) + r3;
    var r1 := NonZero(0x10, b.offset) + r2;
    BatchShard(skip, m0, b.shard);
    ConcatenationIsMerge(skip, Batch(m0), NonZero(0x08, b.shard), r1);
    BatchOffset(skip, m1, b.offset);
    ConcatenationIsMerge(skip, Batch(m1), NonZero(0x10, b.offset), r2);
    BatchTimestamp(skip, m2, b.timestamp);
    ConcatenationIsMerge(skip, Batch(m2), NonZeroFixed64(0x19, b.timestamp), r3);
    ParseMapAndUnknown(skip, m3, b, ks);
  }

  /** The map entries and the unknown records at the end of a batch. */
  lemma ParseMapAndUnknown(skip: Skipper, m: NotificationBatch, b: NotificationBatch, ks: seq<Bytes>)
    requires SkipContract(skip) && Sound(skip, Batch(b)) && IterationOrder(ks, b.notifications)
    requires |EncodeEntries(ks, b.notifications)| <= MAX_BUFFER
    ensures var r := MergeBatch(m, b);
            Parse(skip, Batch(m), EncodeEntries(ks, b.notifications) + b.unknown)
            == Some(Batch(m.(notifications := r.notifications, unknown := r.unknown)))
  {
    hide SkipContract, Parse, UnknownRecords, EncodeEntries, AddEntries, NormalBatch;
    var m4 := m.(notifications := AddEntries(m.notifications, ks, b.notifications));
    ParseEntries(skip, m, ks, b.notifications);
    ConcatenationIsMerge(skip, Batch(m), EncodeEntries(ks, b.notifications), b.unknown);
    ParseUnknownRecords(skip, Batch(m4), b.unknown);
    AddedIsMerged(m, b, ks);
  }

  lemma AddedIsMerged(m: NotificationBatch, b: NotificationBatch, ks: seq<Bytes>)
    requires IterationOrder(ks, b.notifications)
    ensures AddEntries(m.notifications, ks, b.notifications) == MergeBatch(m, b).notifications
  {
    hide AddEntries;
    AddEntriesUnion(m.notifications, ks, b.notifications);
  }

  /** A batch marshalled in any iteration order of its map comes back in normal form. */
  lemma BatchNormalRoundTrip(skip: Skipper, b: NotificationBatch, ks: seq<Bytes>)
    requires SkipContract(skip) && Sound(skip, Batch(b))
    requires IterationOrder(ks, b.notifications) && |EncodeBatch(b, ks)| <= MAX_BUFFER
    ensures Parse(skip, Batch(EMPTY_BATCH), EncodeBatch(b, ks)) == Some(Batch(NormalBatch(b)))
  {
    hide SkipContract, Sound, EncodeBatch, Parse;
    ParseBatch(skip, EMPTY_BATCH, b, ks);
    assert MergeBatch(EMPTY_BATCH, b) == NormalBatch(b);
  }

  /** Map round trip: whatever the iteration order, the parsed batch is EqualVT to the marshalled one. */
  lemma BatchRoundTrip(skip: Skipper, b: NotificationBatch, ks: seq<Bytes>)
    requires SkipContract(skip) && Sound(skip, Batch(b))
    requires IterationOrder(ks, b.notifications) && |EncodeBatch(b, ks)| <= MAX_BUFFER
    ensures var r := Parse(skip, Batch(EMPTY_BATCH), EncodeBatch(b, ks));
            r.Some? && EqualBatch(r.value.batch, b)
  {
    hide SkipContract, Parse, EncodeBatch;
    BatchNormalRoundTrip(skip, b, ks);
    EqualBatchIsNormalEquality(NormalBatch(b), b);
    assert NormalBatch(NormalBatch(b)).notifications == NormalBatch(b).notifications;
  }

  /** Batches that marshal to the same bytes, in whatever orders, are EqualVT. */
  lemma BatchEncodingIsInjective(skip: Skipper, a: NotificationBatch, ka: seq<Bytes>,
                                 b: NotificationBatch, kb: seq<Bytes>)
    requires SkipContract(skip) && Sound(skip, Batch(a)) && Sound(skip, Batch(b))
    requires IterationOrder(ka, a.notifications) && IterationOrder(kb, b.notifications)
    requires EncodeBatch(a, ka) == EncodeBatch(b, kb) && |EncodeBatch(a, ka)| <= MAX_BUFFER
    ensures EqualBatch(a, b)
  {
    BatchNormalRoundTrip(skip, a, ka);
    BatchNormalRoundTrip(skip, b, kb);
    EqualBatchIsNormalEquality(a, b);
  }

  /** WriteRequests that marshal to the same bytes are EqualVT. */
  lemma WriteEncodingIsInjective(skip: Skipper, a: WriteRequest, b: WriteRequest)
    requires SkipContract(skip) && Sound(skip, Write(a)) && Sound(skip, Write(b))
    requires EncodeWrite(a) == EncodeWrite(b) && |EncodeWrite(a)| <= MAX_BUFFER
    ensures EqualWrite(a, b)
  {
    WriteNormalRoundTrip(skip, a);
    WriteNormalRoundTrip(skip, b);
    EqualWriteIsNormalEquality(a, b);
  }
}

/**
 The messages of the client protocol that are modelled, as values, with the structural equality of
 the generated code (`EqualVT`) and the bytes they marshal to.
 */
module Messages {
  import opened Prelude
  import opened Varint
  import opened Wire

  // A `None` in `puts`, `deletes`, `deleteRanges` or `notifications` is a nil pointer held by the
  // slice or map. `value` distinguishes a nil byte slice from an empty one.

  datatype PutRequest = PutRequest(
    key: Bytes, value: Option<Bytes>, expectedVersionId: Option<Int64>, sessionId: Option<Int64>,
    clientIdentity: Option<Bytes>, partitionKey: Option<Bytes>, sequenceKeyDelta: seq<Uint64>,
    unknown: Bytes)

  datatype DeleteRequest = DeleteRequest(key: Bytes, expectedVersionId: Option<Int64>, unknown: Bytes)

  datatype DeleteRangeRequest = DeleteRangeRequest(startInclusive: Bytes, endExclusive: Bytes, unknown: Bytes)

  datatype WriteRequest = WriteRequest(
    shard: Option<Int64>, puts: seq<Option<PutRequest>>, deletes: seq<Option<DeleteRequest>>,
    deleteRanges: seq<Option<DeleteRangeRequest>>, unknown: Bytes)

  datatype Version = Version(
    versionId: Int64, modificationsCount: Int64, createdTimestamp: Uint64, modifiedTimestamp: Uint64,
    sessionId: Option<Int64>, clientIdentity: Option<Bytes>, unknown: Bytes)

  datatype PutResponse = PutResponse(status: Int32, version: Option<Version>, key: Option<Bytes>, unknown: Bytes)

  datatype Notification = Notification(kind: Int32, versionId: Option<Int64>, unknown: Bytes)

  datatype NotificationBatch = NotificationBatch(
    shard: Int64, offset: Int64, timestamp: Uint64, notifications: map<Bytes, Option<Notification>>,
    unknown: Bytes)

  const EMPTY_PUT := PutRequest([], None, None, None, None, None, [], [])
  const EMPTY_DELETE := DeleteRequest([], None, [])
  const EMPTY_DELETE_RANGE := DeleteRangeRequest([], [], [])
  const EMPTY_WRITE := WriteRequest(None, [], [], [], [])
  const EMPTY_VERSION := Version(0, 0, 0, 0, None, None, [])
  const EMPTY_PUT_RESPONSE := PutResponse(0, None, None, [])
  const EMPTY_NOTIFICATION := Notification(0, None, [])
  const EMPTY_BATCH := NotificationBatch(0, 0, 0, map[], [])

  function OrElse<T>(p: Option<T>, default: T): T {
    if p.Some? then p.value else default
  }

  // ---------- EqualVT ----------

  predicate EqualPut(a: PutRequest, b: PutRequest) {
    && a.key == b.key
    && OrElse(a.value, []) == OrElse(b.value, [])
    && a.expectedVersionId == b.expectedVersionId
    && a.sessionId == b.sessionId
    && a.clientIdentity == b.clientIdentity
    && a.partitionKey == b.partitionKey
    && a.sequenceKeyDelta == b.sequenceKeyDelta
    && a.unknown == b.unknown
  }

  predicate EqualWrite(a: WriteRequest, b: WriteRequest) {
    && a.shard == b.shard
    && |a.puts| == |b.puts|
    && (forall i :: 0 <= i < |a.puts| ==>
          a.puts[i] == b.puts[i] || EqualPut(OrElse(a.puts[i], EMPTY_PUT), OrElse(b.puts[i], EMPTY_PUT)))
    && |a.deletes| == |b.deletes|
    && (forall i :: 0 <= i < |a.deletes| ==>
          OrElse(a.deletes[i], EMPTY_DELETE) == OrElse(b.deletes[i], EMPTY_DELETE))
    && |a.deleteRanges| == |b.deleteRanges|
    && (forall i :: 0 <= i < |a.deleteRanges| ==>
          OrElse(a.deleteRanges[i], EMPTY_DELETE_RANGE) == OrElse(b.deleteRanges[i], EMPTY_DELETE_RANGE))
    && a.unknown == b.unknown
  }

  predicate EqualVersion(a: Version, b: Version) {
    && a.versionId == b.versionId
    && a.modificationsCount == b.modificationsCount
    && a.createdTimestamp == b.createdTimestamp
    && a.modifiedTimestamp == b.modifiedTimestamp
    && a.sessionId == b.sessionId
    && a.clientIdentity == b.clientIdentity
    && a.unknown == b.unknown
  }

  /** Nil and empty sub-messages differ here: the generated code compares the pointers' presence. */
  predicate EqualPutResponse(a: PutResponse, b: PutResponse) {
    && a.status == b.status
    && (if a.version.Some? && b.version.Some? then EqualVersion(a.version.value, b.version.value)
        else a.version.None? && b.version.None?)
    && a.key == b.key
    && a.unknown == b.unknown
  }

  /** Put responses are `EqualVT` exactly if nothing distinguishes them, presence of version and key included. */
  lemma EqualPutResponseIsEquality(a: PutResponse, b: PutResponse)
    ensures EqualPutResponse(a, b) <==> a == b
  {
    if EqualPutResponse(a, b) && a.version.Some? {
      assert a.version.value == b.version.value;
    }
  }

  predicate EqualBatch(a: NotificationBatch, b: NotificationBatch) {
    && a.shard == b.shard
    && a.offset == b.offset
    && a.timestamp == b.timestamp
    && |a.notifications| == |b.notifications|
    && (forall k :: k in a.notifications ==>
          k in b.notifications
          && OrElse(a.notifications[k], EMPTY_NOTIFICATION) == OrElse(b.notifications[k], EMPTY_NOTIFICATION))
    && a.unknown == b.unknown
  }

  // ---------- Marshalled bytes ----------

  function NonEmpty(tag: byte, payload: Bytes): (s: Bytes)
    ensures |payload| <= |s|
  {
    if payload == [] then [] else LengthField(tag, payload)
  }

  function OptionalBytes(tag: byte, payload: Option<Bytes>): (s: Bytes)
    ensures payload.Some? ==> |payload.value| <= |s|
  {
    if payload.None? then [] else LengthField(tag, payload.value)
  }

  function OptionalInt64(tag: byte, v: Option<Int64>): Bytes {
    if v.None? then [] else VarintField(tag, ToUint64(v.value))
  }

  function NonZero(tag: byte, v: Int64): Bytes {
    if v == 0 then [] else VarintField(tag, ToUint64(v))
  }

  function NonZeroFixed64(tag: byte, v: Uint64): Bytes {
    if v == 0 then [] else Fixed64Field(tag, v)
  }

  function Varints(vs: seq<Uint64>): Bytes {
    if vs == [] then [] else EncodeVarint(vs[0]) + Varints(vs[1..])
  }

  function PackedField(tag: byte, vs: seq<Uint64>): (s: Bytes)
    ensures |Varints(vs)| <= |s|
  {
    if vs == [] then [] else LengthField(tag, Varints(vs))
  }

  function EncodePut(m: PutRequest): Bytes {
    NonEmpty(0x0a, m.key) + (NonEmpty(0x12, OrElse(m.value, [])) + (OptionalInt64(0x18, m.expectedVersionId)
    + (OptionalInt64(0x20, m.sessionId) + (OptionalBytes(0x2a, m.clientIdentity)
    + (OptionalBytes(0x32, m.partitionKey) + (PackedField(0x3a, m.sequenceKeyDelta) + m.unknown))))))
  }

  function EncodeDelete(m: DeleteRequest): Bytes {
    NonEmpty(0x0a, m.key) + (OptionalInt64(0x10, m.expectedVersionId) + m.unknown)
  }

  function EncodeDeleteRange(m: DeleteRangeRequest): Bytes {
    NonEmpty(0x0a, m.startInclusive) + (NonEmpty(0x12, m.endExclusive) + m.unknown)
  }

  // A nil element marshals to no bytes at all, like an empty message.

  function EncodePuts(ps: seq<Option<PutRequest>>): Bytes {
    if ps == [] then []
    else LengthField(0x12, EncodePut(OrElse(ps[0], EMPTY_PUT))) + EncodePuts(ps[1..])
  }

  function EncodeDeletes(ds: seq<Option<DeleteRequest>>): Bytes {
    if ds == [] then []
    else LengthField(0x1a, EncodeDelete(OrElse(ds[0], EMPTY_DELETE))) + EncodeDeletes(ds[1..])
  }

  function EncodeDeleteRanges(ds: seq<Option<DeleteRangeRequest>>): Bytes {
    if ds == [] then []
    else LengthField(0x22, EncodeDeleteRange(OrElse(ds[0], EMPTY_DELETE_RANGE))) + EncodeDeleteRanges(ds[1..])
  }

  function EncodeWrite(m: WriteRequest): Bytes {
    OptionalInt64(0x08, m.shard) + (EncodePuts(m.puts) + (EncodeDeletes(m.deletes)
    + (EncodeDeleteRanges(m.deleteRanges) + m.unknown)))
  }

  function EncodeVersion(m: Version): Bytes {
    NonZero(0x08, m.versionId) + (NonZero(0x10, m.modificationsCount)
    + (NonZeroFixed64(0x19, m.createdTimestamp) + (NonZeroFixed64(0x21, m.modifiedTimestamp)
    + (OptionalInt64(0x28, m.sessionId) + (OptionalBytes(0x32, m.clientIdentity) + m.unknown)))))
  }

  function EncodePutResponse(m: PutResponse): Bytes {
    NonZero(0x08, m.status)
    + ((if m.version.None? then [] else LengthField(0x12, EncodeVersion(m.version.value)))
    + (OptionalBytes(0x1a, m.key) + m.unknown))
  }

  function EncodeNotification(m: Notification): Bytes {
    NonZero(0x08, m.kind) + (OptionalInt64(0x10, m.versionId) + m.unknown)
  }

  /** One map entry: key field, then value field; a nil value is an empty message. */
  function EncodeEntry(k: Bytes, v: Option<Notification>): Bytes {
    LengthField(0x0a, k) + LengthField(0x12, EncodeNotification(OrElse(v, EMPTY_NOTIFICATION)))
  }

  /** The entries of a map in the order `ks`. */
  function EncodeEntries(ks: seq<Bytes>, m: map<Bytes, Option<Notification>>): Bytes
    requires forall k :: k in ks ==> k in m
  {
    if ks == [] then []
    else LengthField(0x22, EncodeEntry(ks[0], m[ks[0]])) + EncodeEntries(ks[1..], m)
  }

  function EncodeBatch(m: NotificationBatch, ks: seq<Bytes>): Bytes
    requires forall k :: k in ks ==> k in m.notifications
  {
    NonZero(0x08, m.shard) + (NonZero(0x10, m.offset) + (NonZeroFixed64(0x19, m.timestamp)
    + (EncodeEntries(ks, m.notifications) + m.unknown)))
  }

  /** Empty messages without sub-messages, and so nil elements, marshal to nothing. */
  lemma EmptyEncodings()
    ensures EncodePut(EMPTY_PUT) == [] && EncodeDelete(EMPTY_DELETE) == []
    ensures EncodeDeleteRange(EMPTY_DELETE_RANGE) == [] && EncodeVersion(EMPTY_VERSION) == []
    ensures EncodeNotification(EMPTY_NOTIFICATION) == []
  {
  }
}

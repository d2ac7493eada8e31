/**
 The generated parsers (`UnmarshalVT`) as functions from the receiver's old value and the bytes that
 remain to its new value, or failure.
 */
module Parser {
  import opened Prelude
  import opened Varint
  import opened Wire
  import opened Messages

  datatype Msg =
    | Put(put: PutRequest)
    | Delete(delete: DeleteRequest)
    | DeleteRange(deleteRange: DeleteRangeRequest)
    | Write(write: WriteRequest)
    | Ver(version: Version)
    | PutResp(putResponse: PutResponse)
    | Notif(notification: Notification)
    | Batch(batch: NotificationBatch)

  predicate SameKind(a: Msg, b: Msg) {
    match a
    case Put(_) => b.Put?
    case Delete(_) => b.Delete?
    case DeleteRange(_) => b.DeleteRange?
    case Write(_) => b.Write?
    case Ver(_) => b.Ver?
    case PutResp(_) => b.PutResp?
    case Notif(_) => b.Notif?
    case Batch(_) => b.Batch?
  }

  /** The declared field numbers of each message are `1..LastField`. */
  function LastField(m: Msg): nat {
    match m
    case Put(_) => 7
    case Delete(_) => 2
    case DeleteRange(_) => 2
    case Write(_) => 4
    case Ver(_) => 6
    case PutResp(_) => 3
    case Notif(_) => 2
    case Batch(_) => 4
  }

  function Unknown(m: Msg): Bytes {
    match m
    case Put(p) => p.unknown
    case Delete(d) => d.unknown
    case DeleteRange(d) => d.unknown
    case Write(w) => w.unknown
    case Ver(v) => v.unknown
    case PutResp(r) => r.unknown
    case Notif(n) => n.unknown
    case Batch(b) => b.unknown
  }

  function WithUnknown(m: Msg, u: Bytes): (r: Msg)
    ensures SameKind(m, r)
  {
    match m
    case Put(p) => Put(p.(unknown := u))
    case Delete(d) => Delete(d.(unknown := u))
    case DeleteRange(d) => DeleteRange(d.(unknown := u))
    case Write(w) => Write(w.(unknown := u))
    case Ver(v) => Ver(v.(unknown := u))
    case PutResp(r) => PutResp(r.(unknown := u))
    case Notif(n) => Notif(n.(unknown := u))
    case Batch(b) => Batch(b.(unknown := u))
  }

  // ---------- Fields of messages without sub-messages ----------
  // Each reads the field announced by tag `t` from `r`, the bytes after the tag.

  /**
   Varints until `len` bytes are used up. Only the end of the whole input stops a varint, so the last
   one may run past the announced length.
   */
  function ReadPacked(s: Bytes, len: int): (r: Option<(seq<Uint64>, nat)>)
    ensures r.Some? ==> r.value.1 <= |s|
    decreases |s|
  {
    if len <= 0 then Some(([], 0))
    else
      var (v, n) :- ReadVarint(s);
      var (vs, k) :- ReadPacked(s[n..], len - n);
      Some(([v] + vs, n + k))
  }

  /** A repeated uint64 field: one element as a plain varint, or any number of them packed. */
  function ReadDeltas(t: Tag, r: Bytes): (res: Option<(seq<Uint64>, nat)>)
    ensures res.Some? ==> res.value.1 <= |r|
  {
    if t.wireType == 0 then
      var (v, n) :- ReadVarint(r);
      Some(([v], n))
    else if t.wireType == 2 then
      var (p, n) :- ReadPayload(r);
      var (vs, k) :- ReadPacked(r[n - |p|..], |p|);
      Some((vs, n - |p| + k))
    else None
  }

  function PutField(m: PutRequest, t: Tag, r: Bytes): (res: Option<(PutRequest, nat)>)
    ensures res.Some? ==> res.value.1 <= |r|
  {
    if t.field == 1 then
      if t.wireType != 2 then None else var (p, n) :- ReadPayload(r); Some((m.(key := p), n))
    else if t.field == 2 then
      if t.wireType != 2 then None else var (p, n) :- ReadPayload(r); Some((m.(value := Some(p)), n))
    else if t.field == 3 then
      if t.wireType != 0 then None else var (v, n) :- ReadInt64(r); Some((m.(expectedVersionId := Some(v)), n))
    else if t.field == 4 then
      if t.wireType != 0 then None else var (v, n) :- ReadInt64(r); Some((m.(sessionId := Some(v)), n))
    else if t.field == 5 then
      if t.wireType != 2 then None else var (p, n) :- ReadPayload(r); Some((m.(clientIdentity := Some(p)), n))
    else if t.field == 6 then
      if t.wireType != 2 then None else var (p, n) :- ReadPayload(r); Some((m.(partitionKey := Some(p)), n))
    else if t.field == 7 then
      var (vs, n) :- ReadDeltas(t, r);
      Some((m.(sequenceKeyDelta := m.sequenceKeyDelta + vs), n))
    else None
  }

  function DeleteField(m: DeleteRequest, t: Tag, r: Bytes): (res: Option<(DeleteRequest, nat)>)
    ensures res.Some? ==> res.value.1 <= |r|
  {
    if t.field == 1 then
      if t.wireType != 2 then None else var (p, n) :- ReadPayload(r); Some((m.(key := p), n))
    else if t.field == 2 then
      if t.wireType != 0 then None else var (v, n) :- ReadInt64(r); Some((m.(expectedVersionId := Some(v)), n))
    else None
  }

  function DeleteRangeField(m: DeleteRangeRequest, t: Tag, r: Bytes): (res: Option<(DeleteRangeRequest, nat)>)
    ensures res.Some? ==> res.value.1 <= |r|
  {
    if t.field == 1 then
      if t.wireType != 2 then None else var (p, n) :- ReadPayload(r); Some((m.(startInclusive := p), n))
    else if t.field == 2 then
      if t.wireType != 2 then None else var (p, n) :- ReadPayload(r); Some((m.(endExclusive := p), n))
    else None
  }

  function VersionField(m: Version, t: Tag, r: Bytes): (res: Option<(Version, nat)>)
    ensures res.Some? ==> res.value.1 <= |r|
  {
    if t.field == 1 then
      if t.wireType != 0 then None else var (v, n) :- ReadInt64(r); Some((m.(versionId := v), n))
    else if t.field == 2 then
      if t.wireType != 0 then None else var (v, n) :- ReadInt64(r); Some((m.(modificationsCount := v), n))
    else if t.field == 3 then
      if t.wireType != 1 then None else var (v, n) :- ReadFixed64(r); Some((m.(createdTimestamp := v), n))
    else if t.field == 4 then
      if t.wireType != 1 then None else var (v, n) :- ReadFixed64(r); Some((m.(modifiedTimestamp := v), n))
    else if t.field == 5 then
      if t.wireType != 0 then None else var (v, n) :- ReadInt64(r); Some((m.(sessionId := Some(v)), n))
    else if t.field == 6 then
      if t.wireType != 2 then None else var (p, n) :- ReadPayload(r); Some((m.(clientIdentity := Some(p)), n))
    else None
  }

  function NotificationField(m: Notification, t: Tag, r: Bytes): (res: Option<(Notification, nat)>)
    ensures res.Some? ==> res.value.1 <= |r|
  {
    if t.field == 1 then
      if t.wireType != 0 then None else var (v, n) :- ReadInt32(r); Some((m.(kind := v), n))
    else if t.field == 2 then
      if t.wireType != 0 then None else var (v, n) :- ReadInt64(r); Some((m.(versionId := Some(v)), n))
    else None
  }

  // ---------- Messages with sub-messages, and the outer loop ----------

  function WriteField(skip: Skipper, m: WriteRequest, t: Tag, r: Bytes): (res: Option<(WriteRequest, nat)>)
    ensures res.Some? ==> res.value.1 <= |r|
    decreases |r|, 3
  {
    if t.field == 1 then
      if t.wireType != 0 then None else var (v, n) :- ReadInt64(r); Some((m.(shard := Some(v)), n))
    else if t.wireType != 2 then None
    else if t.field == 2 then
      var (p, n) :- ReadPayload(r);
      var sub :- Parse(skip, Put(EMPTY_PUT), p);
      Some((m.(puts := m.puts + [Some(sub.put)]), n))
    else if t.field == 3 then
      var (p, n) :- ReadPayload(r);
      var sub :- Parse(skip, Delete(EMPTY_DELETE), p);
      Some((m.(deletes := m.deletes + [Some(sub.delete)]), n))
    else if t.field == 4 then
      var (p, n) :- ReadPayload(r);
      var sub :- Parse(skip, DeleteRange(EMPTY_DELETE_RANGE), p);
      Some((m.(deleteRanges := m.deleteRanges + [Some(sub.deleteRange)]), n))
    else None
  }

  /** A second `Version` record is merged into the first: the sub-parser starts from the old value. */
  function PutResponseField(skip: Skipper, m: PutResponse, t: Tag, r: Bytes): (res: Option<(PutResponse, nat)>)
    ensures res.Some? ==> res.value.1 <= |r|
    decreases |r|, 3
  {
    if t.field == 1 then
      if t.wireType != 0 then None else var (v, n) :- ReadInt32(r); Some((m.(status := v), n))
    else if t.wireType != 2 then None
    else if t.field == 2 then
      var (p, n) :- ReadPayload(r);
      var sub :- Parse(skip, Ver(OrElse(m.version, EMPTY_VERSION)), p);
      Some((m.(version := Some(sub.version)), n))
    else if t.field == 3 then
      var (p, n) :- ReadPayload(r); Some((m.(key := Some(p)), n))
    else None
  }

  /**
   One iteration of the loop over a map entry of which `len` bytes are left. Keys and values are
   bounded by the whole input only, so they may run past `len`; a skipped record may not. Wire types
   and field numbers below one are not checked here.
   */
  function EntryStep(skip: Skipper, s: Bytes, len: nat, k: Bytes, v: Option<Notification>)
    : (res: Option<(Bytes, Option<Notification>, nat)>)
    ensures res.Some? ==> 0 < res.value.2 <= |s|
    decreases |s|, 3
  {
    var t :- ReadTag(s);
    if t.field == 1 then
      var (p, n) :- ReadPayload(s[t.size..]);
      Some((p, v, t.size + n))
    else if t.field == 2 then
      var (p, n) :- ReadPayload(s[t.size..]);
      var sub :- Parse(skip, Notif(EMPTY_NOTIFICATION), p);
      Some((k, Some(sub.notification), t.size + n))
    else
      var n :- SkipRecord(skip, s);
      if n > len then None else Some((k, v, n))
  }

  /** The loop over a map entry: the last key and the last value found in it. */
  function ReadEntry(skip: Skipper, s: Bytes, len: int, k: Bytes, v: Option<Notification>)
    : (res: Option<(Bytes, Option<Notification>)>)
    decreases |s|, 4
  {
    if len <= 0 then Some((k, v))
    else
      var (k', v', n) :- EntryStep(skip, s, len, k, v);
      ReadEntry(skip, s[n..], len - n, k', v')
  }

  /** The map field: whatever the entry loop consumed, parsing resumes at the announced end. */
  function BatchField(skip: Skipper, m: NotificationBatch, t: Tag, r: Bytes)
    : (res: Option<(NotificationBatch, nat)>)
    ensures res.Some? ==> res.value.1 <= |r|
    decreases |r|, 5
  {
    if t.field == 1 then
      if t.wireType != 0 then None else var (v, n) :- ReadInt64(r); Some((m.(shard := v), n))
    else if t.field == 2 then
      if t.wireType != 0 then None else var (v, n) :- ReadInt64(r); Some((m.(offset := v), n))
    else if t.field == 3 then
      if t.wireType != 1 then None else var (v, n) :- ReadFixed64(r); Some((m.(timestamp := v), n))
    else if t.field == 4 then
      if t.wireType != 2 then None else
      var (p, n) :- ReadPayload(r);
      var (k, v) :- ReadEntry(skip, r[n - |p|..], |p|, [], None);
      Some((m.(notifications := m.notifications[k := v]), n))
    else None
  }

  function Field(skip: Skipper, m: Msg, t: Tag, r: Bytes): (res: Option<(Msg, nat)>)
    ensures res.Some? ==> res.value.1 <= |r| && SameKind(m, res.value.0)
    decreases |r|, 6
  {
    match m
    case Put(p) => var (q, n) :- PutField(p, t, r); Some((Put(q), n))
    case Delete(d) => var (q, n) :- DeleteField(d, t, r); Some((Delete(q), n))
    case DeleteRange(d) => var (q, n) :- DeleteRangeField(d, t, r); Some((DeleteRange(q), n))
    case Write(w) => var (q, n) :- WriteField(skip, w, t, r); Some((Write(q), n))
    case Ver(v) => var (q, n) :- VersionField(v, t, r); Some((Ver(q), n))
    case PutResp(p) => var (q, n) :- PutResponseField(skip, p, t, r); Some((PutResp(q), n))
    case Notif(x) => var (q, n) :- NotificationField(x, t, r); Some((Notif(q), n))
    case Batch(b) => var (q, n) :- BatchField(skip, b, t, r); Some((Batch(q), n))
  }

  /** One iteration of the outer loop: the new receiver and the number of bytes consumed. */
  function Step(skip: Skipper, m: Msg, s: Bytes): (res: Option<(Msg, nat)>)
    ensures res.Some? ==> 0 < res.value.1 <= |s| && SameKind(m, res.value.0)
    decreases |s|, 1
  {
    var t :- ReadHeader(s);
    if t.field <= LastField(m) then
      var (q, n) :- Field(skip, m, t, s[t.size..]);
      Some((q, t.size + n))
    else
      var n :- SkipRecord(skip, s);
      Some((WithUnknown(m, Unknown(m) + s[..n]), n))
  }

  /** `UnmarshalVT` of `s` into a receiver whose value is `m`. */
  function Parse(skip: Skipper, m: Msg, s: Bytes): (res: Option<Msg>)
    ensures res.Some? ==> SameKind(m, res.value)
    decreases |s|, 2
  {
    if s == [] then Some(m)
    else
      var (q, n) :- Step(skip, m, s);
      Parse(skip, q, s[n..])
  }
}

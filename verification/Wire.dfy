/**
 Wire-level records: tags, length-delimited payloads and skipped unknown records.
 Readers work on the bytes that remain, that is on `dAtA[iNdEx:]`.
 */
module Wire {
  import opened Prelude
  import opened Varint

  /** The largest buffer whose indices, plus the eight bytes of a fixed64, still fit in a Go `int`. */
  const MAX_BUFFER: int := 0x7FFF_FFFF_FFFF_FFF7

  // ---------- Writing ----------

  /** A varint field. */
  function VarintField(tag: byte, v: Uint64): (s: Bytes)
    ensures |s| == 1 + SizeOfVarint(v)
  {
    [tag] + EncodeVarint(v)
  }

  /** A length-delimited field. */
  function LengthField(tag: byte, payload: Bytes): (s: Bytes)
    ensures |s| == 1 + SizeOfVarint(|payload|) + |payload|
  {
    [tag] + EncodeVarint(|payload|) + payload
  }

  /** A fixed64 field. */
  function Fixed64Field(tag: byte, v: Uint64): Bytes {
    [tag] + LittleEndian(v, 8)
  }

  // ---------- Reading ----------

  datatype Tag = Tag(field: Int32, wireType: nat, size: nat)

  /** The tag at the front of `s`: the field number keeps only 32 bits. */
  function ReadTag(s: Bytes): (r: Option<Tag>)
    ensures r.Some? ==> 0 < r.value.size <= |s|
  {
    var (wire, n) :- ReadVarint(s);
    Some(Tag(ToInt32(wire / 8), wire % 8, n))
  }

  /** A message-level tag: an end-group tag or a field number below one is an error. */
  function ReadHeader(s: Bytes): (r: Option<Tag>)
    ensures r.Some? ==> 0 < r.value.size <= |s|
  {
    var t :- ReadTag(s);
    if t.wireType == 4 || t.field <= 0 then None else Some(t)
  }

  /**
   A length and the payload it announces. The length is a 64-bit value read as a signed int; it is
   refused when negative and when the payload would pass the end of the input.
   */
  function ReadPayload(s: Bytes): (r: Option<(Bytes, nat)>)
    ensures r.Some? ==> |r.value.0| < r.value.1 <= |s|
  {
    var (len, n) :- ReadVarint(s);
    if ToInt64(len) < 0 || n + ToInt64(len) > |s| then None
    else Some((s[n..n + ToInt64(len)], n + ToInt64(len)))
  }

  function ReadInt64(s: Bytes): (r: Option<(Int64, nat)>)
    ensures r.Some? ==> 0 < r.value.1 <= |s|
  {
    var (v, n) :- ReadVarint(s);
    Some((ToInt64(v), n))
  }

  function ReadInt32(s: Bytes): (r: Option<(Int32, nat)>)
    ensures r.Some? ==> 0 < r.value.1 <= |s|
  {
    var (v, n) :- ReadVarint(s);
    Some((ToInt32(v), n))
  }

  // ---------- Skipping ----------

  /** A positive Go `int`. */
  type pos = x: int | 0 < x < 0x8000_0000_0000_0000 witness 1

  /** The helper that measures an unknown record; it lives outside the repository. */
  type Skipper = Bytes -> Option<pos>

  /**
   What the parsers rely on: a skipped record covers at least its own tag, and its length is decided
   by the bytes it covers.
   */
  ghost predicate SkipContract(skip: Skipper) {
    && (forall d :: skip(d).Some? ==> ReadTag(d).Some? && ReadTag(d).value.size <= skip(d).value)
    && (forall d, e :: SamePrefix(skip, d, e) ==> skip(e) == skip(d))
  }

  ghost predicate SamePrefix(skip: Skipper, d: Bytes, e: Bytes) {
    && skip(d).Some? && skip(d).value <= |d| && skip(d).value <= |e|
    && e[..skip(d).value] == d[..skip(d).value]
  }

  /** The length of the unknown record at the front of `s`, if it fits. */
  function SkipRecord(skip: Skipper, s: Bytes): (r: Option<pos>)
    ensures r.Some? ==> r.value <= |s|
  {
    var n :- skip(s);
    if n > |s| then None else Some(n)
  }

  // ---------- Readers are local: bytes after what they read change nothing ----------

  lemma ReadTagLocal(s: Bytes, e: Bytes)
    requires ReadTag(s).Some?
    ensures ReadTag(s + e) == ReadTag(s)
  {
    ReadVarintLocal(s, e);
  }

  lemma ReadHeaderLocal(s: Bytes, e: Bytes)
    requires ReadHeader(s).Some?
    ensures ReadHeader(s + e) == ReadHeader(s)
  {
    ReadVarintLocal(s, e);
  }

  lemma ReadPayloadLocal(s: Bytes, e: Bytes)
    requires ReadPayload(s).Some?
    ensures ReadPayload(s + e) == ReadPayload(s)
  {
    ReadVarintLocal(s, e);
    var (len, n) := ReadVarint(s).value;
    assert (s + e)[n..n + ToInt64(len)] == s[n..n + ToInt64(len)];
  }

  lemma SkipRecordLocal(skip: Skipper, s: Bytes, e: Bytes)
    requires SkipContract(skip)
    requires SkipRecord(skip, s).Some?
    ensures SkipRecord(skip, s + e) == SkipRecord(skip, s)
  {
  }

  // ---------- Reading back what was written ----------

  /** A one-byte tag is read back as its field number and wire type. */
  lemma ReadHeaderOfByte(tag: byte, rest: Bytes)
    requires 8 <= tag < 128 && tag % 8 != 4
    ensures ReadHeader([tag] + rest) == Some(Tag(tag / 8, tag % 8, 1))
  {
    hide ReadVarint, ToInt32;
    OneByteVarint(tag, rest);
    SmallFieldNumber(tag);
  }

  lemma OneByteVarint(b: byte, rest: Bytes)
    requires b < 128
    ensures ReadVarint([b] + rest) == Some((b, 1))
  {
    assert RawVarint([b] + rest, 0) == Some((b, 1));
  }

  lemma SmallFieldNumber(tag: byte)
    requires 8 <= tag
    ensures ToInt32(tag / 8) == tag / 8 > 0
  {
  }

  lemma ReadPayloadOf(payload: Bytes)
    requires |payload| < TWO_63
    ensures var s := EncodeVarint(|payload|) + payload;
            ReadPayload(s) == Some((payload, |s|))
  {
    hide ReadVarint, EncodeVarint;
    var h := EncodeVarint(|payload|);
    VarintRoundTrip(|payload|, payload);
    assert (h + payload)[|h|..|h| + |payload|] == payload;
  }
}

/**
 The generated size functions and marshallers, in place: a marshaller fills `dAtA[:hi]` from the back
 and returns how many bytes it wrote. The nil checks of the generated code are the `None` cases here.
 */
module Marshal {
  import opened Prelude
  import opened Varint
  import opened Wire
  import opened Messages

  // ---------- Frames ----------

  /** The buffer went from `before` to `after` by putting exactly the bytes `s` at `[lo, hi)`. */
  ghost predicate Wrote(before: Bytes, after: Bytes, lo: int, hi: int, s: Bytes): (r: bool)
    ensures r ==> 0 <= lo == hi - |s| && hi <= |before| == |after|
  {
    && 0 <= lo <= hi <= |before| && |after| == |before|
    && after[lo..hi] == s
    && after[..lo] == before[..lo]
    && after[hi..] == before[hi..]
  }

  /** Writing `t` just below an earlier write of `s` amounts to writing `t + s`. */
  lemma WroteBelow(b0: Bytes, b1: Bytes, b2: Bytes, lo: int, mid: int, hi: int, t: Bytes, s: Bytes)
    requires Wrote(b0, b1, mid, hi, s) && Wrote(b1, b2, lo, mid, t)
    ensures Wrote(b0, b2, lo, hi, t + s)
  {
  }

  // ---------- Helpers of the generated code ----------

  /** The varint loop, forward from `start`. */
  method PutVarintAt(dAtA: array<byte>, start: nat, v: Uint64) returns (at: nat)
    requires start + SizeOfVarint(v) <= dAtA.Length
    modifies dAtA
    ensures at == start + SizeOfVarint(v)
    ensures Wrote(old(dAtA[..]), dAtA[..], start, at, EncodeVarint(v))
  {
    at := start;
    var rest := v;
    ghost var done: Bytes := [];
    ghost var end := start + SizeOfVarint(v);
    while rest >= 128
      invariant 0 <= rest <= v && start <= at && at + SizeOfVarint(rest) == end
      invariant dAtA[start..at] == done && done + EncodeVarint(rest) == EncodeVarint(v)
      invariant dAtA[..start] == old(dAtA[..start]) && dAtA[end..] == old(dAtA[end..])
      decreases rest
    {
      PutVarintStep(done, rest);
      dAtA[at] := rest % 128 + 128;
      done := done + [rest % 128 + 128];
      rest := rest / 128;
      at := at + 1;
    }
    dAtA[at] := rest;
    at := at + 1;
    assert dAtA[start..at] == done + [rest];
  }

  lemma PutVarintStep(done: Bytes, rest: nat)
    requires rest >= 128
    ensures done + EncodeVarint(rest) == done + [rest % 128 + 128] + EncodeVarint(rest / 128)
    ensures SizeOfVarint(rest) == 1 + SizeOfVarint(rest / 128)
  {
    assert EncodeVarint(rest) == [rest % 128 + 128] + EncodeVarint(rest / 128);
  }

  /** `protohelpers.EncodeVarint`: the minimal varint of `v`, ending at `offset`. */
  method PutVarint(dAtA: array<byte>, offset: nat, v: Uint64) returns (base: nat)
    requires SizeOfVarint(v) <= offset <= dAtA.Length
    modifies dAtA
    ensures Wrote(old(dAtA[..]), dAtA[..], base, offset, EncodeVarint(v))
  {
    base := offset - SizeOfVarint(v);
    var _ := PutVarintAt(dAtA, base, v);
  }

  /** `i -= len(s); copy(dAtA[i:], s)`. */
  method PutBytes(dAtA: array<byte>, hi: nat, s: Bytes) returns (i: nat)
    requires |s| <= hi <= dAtA.Length
    modifies dAtA
    ensures Wrote(old(dAtA[..]), dAtA[..], i, hi, s)
  {
    i := hi - |s|;
    forall k | 0 <= k < |s| {
      dAtA[i + k] := s[k];
    }
  }

  /** The tag byte in front of a field body that ends at `hi` and starts at `at`. */
  method PutTag(dAtA: array<byte>, at: nat, ghost hi: nat, tag: byte, ghost before: Bytes, ghost body: Bytes)
    returns (i: nat)
    requires 0 < at <= dAtA.Length && Wrote(before, dAtA[..], at, hi, body)
    modifies dAtA
    ensures i == at - 1 && Wrote(before, dAtA[..], i, hi, [tag] + body)
  {
    ghost var b1 := dAtA[..];
    i := at - 1;
    dAtA[i] := tag;
    WroteBelow(before, b1, dAtA[..], i, at, hi, [tag], body);
  }

  method PutVarintField(dAtA: array<byte>, hi: nat, tag: byte, v: Uint64) returns (i: nat)
    requires |VarintField(tag, v)| <= hi <= dAtA.Length
    modifies dAtA
    ensures Wrote(old(dAtA[..]), dAtA[..], i, hi, VarintField(tag, v))
  {
    ghost var b0 := dAtA[..];
    i := PutVarint(dAtA, hi, v);
    i := PutTag(dAtA, i, hi, tag, b0, EncodeVarint(v));
  }

  /** Length and tag in front of a payload already written at `[at, hi)`. */
  method PutLength(dAtA: array<byte>, at: nat, hi: nat, tag: byte, ghost before: Bytes, ghost payload: Bytes)
    returns (i: nat)
    requires at <= hi <= dAtA.Length && hi - at < TWO_64 && |LengthField(tag, payload)| <= hi
    requires Wrote(before, dAtA[..], at, hi, payload)
    modifies dAtA
    ensures Wrote(before, dAtA[..], i, hi, LengthField(tag, payload))
  {
    ghost var b1 := dAtA[..];
    i := PutVarint(dAtA, at, hi - at);
    WroteBelow(before, b1, dAtA[..], i, at, hi, EncodeVarint(|payload|), payload);
    i := PutTag(dAtA, i, hi, tag, before, EncodeVarint(|payload|) + payload);
    assert LengthField(tag, payload) == [tag] + (EncodeVarint(|payload|) + payload);
  }

  method PutLengthField(dAtA: array<byte>, hi: nat, tag: byte, payload: Bytes) returns (i: nat)
    requires |LengthField(tag, payload)| <= hi <= dAtA.Length && hi < TWO_64
    modifies dAtA
    ensures Wrote(old(dAtA[..]), dAtA[..], i, hi, LengthField(tag, payload))
  {
    ghost var b0 := dAtA[..];
    i := PutBytes(dAtA, hi, payload);
    i := PutLength(dAtA, i, hi, tag, b0, payload);
  }

  method PutFixed64Field(dAtA: array<byte>, hi: nat, tag: byte, v: Uint64) returns (i: nat)
    requires 9 <= hi <= dAtA.Length
    modifies dAtA
    ensures Wrote(old(dAtA[..]), dAtA[..], i, hi, Fixed64Field(tag, v))
  {
    ghost var b0 := dAtA[..];
    i := PutBytes(dAtA, hi, LittleEndian(v, 8));
    i := PutTag(dAtA, i, hi, tag, b0, LittleEndian(v, 8));
  }

  // ---------- Optional and repeated scalar fields ----------
  // Each goes in front of `done`, the bytes already written at `[at, hi)`.

  method PutNonEmpty(dAtA: array<byte>, at: nat, tag: byte, payload: Bytes,
                     ghost hi: nat, ghost b0: Bytes, ghost done: Bytes)
    returns (i: nat, ghost done': Bytes)
    requires |NonEmpty(tag, payload)| <= at < TWO_63 && Wrote(b0, dAtA[..], at, hi, done)
    modifies dAtA
    ensures done' == NonEmpty(tag, payload) + done && Wrote(b0, dAtA[..], i, hi, done')
  {
    i, done' := at, NonEmpty(tag, payload) + done;
    if |payload| > 0 {
      ghost var b := dAtA[..];
      i := PutLengthField(dAtA, at, tag, payload);
      WroteBelow(b0, b, dAtA[..], i, at, hi, NonEmpty(tag, payload), done);
    } else {
      assert done' == done;
    }
  }

  method PutOptionalBytes(dAtA: array<byte>, at: nat, tag: byte, payload: Option<Bytes>,
                          ghost hi: nat, ghost b0: Bytes, ghost done: Bytes)
    returns (i: nat, ghost done': Bytes)
    requires |OptionalBytes(tag, payload)| <= at < TWO_63 && Wrote(b0, dAtA[..], at, hi, done)
    modifies dAtA
    ensures done' == OptionalBytes(tag, payload) + done && Wrote(b0, dAtA[..], i, hi, done')
  {
    i, done' := at, OptionalBytes(tag, payload) + done;
    if payload.Some? {
      ghost var b := dAtA[..];
      i := PutLengthField(dAtA, at, tag, payload.value);
      WroteBelow(b0, b, dAtA[..], i, at, hi, OptionalBytes(tag, payload), done);
    } else {
      assert done' == done;
    }
  }

  method PutOptionalInt64(dAtA: array<byte>, at: nat, tag: byte, v: Option<Int64>,
                          ghost hi: nat, ghost b0: Bytes, ghost done: Bytes)
    returns (i: nat, ghost done': Bytes)
    requires |OptionalInt64(tag, v)| <= at && Wrote(b0, dAtA[..], at, hi, done)
    modifies dAtA
    ensures done' == OptionalInt64(tag, v) + done && Wrote(b0, dAtA[..], i, hi, done')
  {
    i, done' := at, OptionalInt64(tag, v) + done;
    if v.Some? {
      ghost var b := dAtA[..];
      i := PutVarintField(dAtA, at, tag, ToUint64(v.value));
      WroteBelow(b0, b, dAtA[..], i, at, hi, OptionalInt64(tag, v), done);
    } else {
      assert done' == done;
    }
  }

  method PutNonZero(dAtA: array<byte>, at: nat, tag: byte, v: Int64,
                    ghost hi: nat, ghost b0: Bytes, ghost done: Bytes)
    returns (i: nat, ghost done': Bytes)
    requires |NonZero(tag, v)| <= at && Wrote(b0, dAtA[..], at, hi, done)
    modifies dAtA
    ensures done' == NonZero(tag, v) + done && Wrote(b0, dAtA[..], i, hi, done')
  {
    i, done' := at, NonZero(tag, v) + done;
    if v != 0 {
      ghost var b := dAtA[..];
      i := PutVarintField(dAtA, at, tag, ToUint64(v));
      WroteBelow(b0, b, dAtA[..], i, at, hi, NonZero(tag, v), done);
    } else {
      assert done' == done;
    }
  }

  method PutNonZeroFixed64(dAtA: array<byte>, at: nat, tag: byte, v: Uint64,
                           ghost hi: nat, ghost b0: Bytes, ghost done: Bytes)
    returns (i: nat, ghost done': Bytes)
    requires |NonZeroFixed64(tag, v)| <= at && Wrote(b0, dAtA[..], at, hi, done)
    modifies dAtA
    ensures done' == NonZeroFixed64(tag, v) + done && Wrote(b0, dAtA[..], i, hi, done')
  {
    i, done' := at, NonZeroFixed64(tag, v) + done;
    if v != 0 {
      ghost var b := dAtA[..];
      i := PutFixed64Field(dAtA, at, tag, v);
      WroteBelow(b0, b, dAtA[..], i, at, hi, NonZeroFixed64(tag, v), done);
    } else {
      assert done' == done;
    }
  }

  /** The packed payload's length, the `pksize` loop. */
  method SizeOfVarints(vs: seq<Uint64>) returns (n: nat)
    ensures n == |Varints(vs)|
  {
    n := 0;
    for k := 0 to |vs|
      invariant n + |Varints(vs[k..])| == |Varints(vs)|
    {
      assert vs[k..][0] == vs[k] && vs[k..][1..] == vs[k + 1..];
      n := n + SizeOfVarint(vs[k]);
    }
  }

  /** The packed payload, forward from `start`. */
  method PutVarints(dAtA: array<byte>, start: nat, vs: seq<Uint64>) returns (j: nat)
    requires start + |Varints(vs)| <= dAtA.Length
    modifies dAtA
    ensures Wrote(old(dAtA[..]), dAtA[..], start, j, Varints(vs))
  {
    ghost var b0 := dAtA[..];
    j := start;
    ghost var done: Bytes := [];
    WroteNothing(b0, start);
    hide Wrote, EncodeVarint;
    for k := 0 to |vs|
      invariant start <= j && j + |Varints(vs[k..])| == start + |Varints(vs)|
      invariant done + Varints(vs[k..]) == Varints(vs)
      invariant Wrote(b0, dAtA[..], start, j, done)
    {
      ghost var b1, j0 := dAtA[..], j;
      VarintsStep(vs, k, done);
      j := PutVarintAt(dAtA, j, vs[k]);
      WroteAbove(b0, b1, dAtA[..], start, j0, j, done, EncodeVarint(vs[k]));
      done := done + EncodeVarint(vs[k]);
    }
    assert done == Varints(vs);
  }

  lemma VarintsStep(vs: seq<Uint64>, k: nat, done: Bytes)
    requires k < |vs|
    ensures |Varints(vs[k..])| == SizeOfVarint(vs[k]) + |Varints(vs[k + 1..])|
    ensures done + Varints(vs[k..]) == done + EncodeVarint(vs[k]) + Varints(vs[k + 1..])
  {
  }

  lemma WroteNothing(b: Bytes, at: nat)
    requires at <= |b|
    ensures Wrote(b, b, at, at, [])
  {
  }

  /** A packed field: the payload is written forward, its length and tag in front of it. */
  method PutPacked(dAtA: array<byte>, at: nat, tag: byte, vs: seq<Uint64>, ghost hi: nat, ghost b0: Bytes,
                   ghost done: Bytes)
    returns (i: nat, ghost done': Bytes)
    requires |PackedField(tag, vs)| <= at < TWO_63 && Wrote(b0, dAtA[..], at, hi, done)
    modifies dAtA
    ensures done' == PackedField(tag, vs) + done && Wrote(b0, dAtA[..], i, hi, done')
  {
    i, done' := at, PackedField(tag, vs) + done;
    if |vs| > 0 {
      ghost var b := dAtA[..];
      var pksize := SizeOfVarints(vs);
      i := i - pksize;
      var _ := PutVarints(dAtA, i, vs);
      i := PutLength(dAtA, i, at, tag, b, Varints(vs));
      WroteBelow(b0, b, dAtA[..], i, at, hi, PackedField(tag, vs), done);
    } else {
      assert done' == done;
    }
  }

  /** Writing `t` just above an earlier write of `s` amounts to writing `s + t`. */
  lemma WroteAbove(b0: Bytes, b1: Bytes, b2: Bytes, lo: int, mid: int, hi: int, s: Bytes, t: Bytes)
    requires Wrote(b0, b1, lo, mid, s) && Wrote(b1, b2, mid, hi, t)
    ensures Wrote(b0, b2, lo, hi, s + t)
  {
  }
}

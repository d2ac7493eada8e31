/**
 The inner pieces of the generated parsers as they run: an index that advances through `dAtA` and
 64-bit lengths that may wrap.
 */
module Scan {
  import opened Prelude
  import opened Varint
  import opened Wire

  datatype Error =
    | IntOverflow
    | UnexpectedEOF
    | InvalidLength
    | EndGroup
    | IllegalTag
    | WrongWireType
    | SkipFailed

  /** The method failed exactly when the specification does, and otherwise computed the same value. */
  ghost predicate Agrees<T(!new)>(err: Option<Error>, spec: Option<T>, result: T) {
    (err.None? <==> spec.Some?) && (err.None? ==> spec == Some(result))
  }

  // ---------- Scalars ----------

  ghost predicate AllContinue(s: Bytes) {
    forall k :: 0 <= k < |s| ==> s[k] >= 128
  }

  lemma {:induction false} RawVarintNone(s: Bytes, k: nat)
    requires k <= 10 && AllContinue(s[..if |s| < 10 - k then |s| else 10 - k])
    ensures RawVarint(s, k).None?
    decreases |s|
  {
    if k < 10 && s != [] {
      var n := if |s| < 10 - k then |s| else 10 - k;
      assert s[0] == s[..n][0];
      assert s[1..][..n - 1] == s[..n][1..];
      RawVarintNone(s[1..], k + 1);
    }
  }

  /** Groups `0..k` of a varint, all marked as continued. */
  function Groups(s: Bytes): nat {
    if s == [] then 0 else s[0] % 128 + 128 * Groups(s[1..])
  }

  lemma {:induction false} GroupsSnoc(s: Bytes, b: byte)
    ensures Groups(s + [b]) == Groups(s) + Pow128(|s|) * (b % 128)
  {
    if s == [] {
      assert s + [b] == [b] && [b][1..] == [];
    } else {
      assert (s + [b])[1..] == s[1..] + [b];
      GroupsSnoc(s[1..], b);
      ShiftGroup(Pow128(|s| - 1), b % 128);
    }
  }

  lemma ShiftGroup(p: nat, d: nat)
    ensures (128 * p) * d == 128 * (p * d)
  {
  }

  /** Continued groups followed by a final one: the value is all of them added up. */
  lemma {:induction false} RawVarintGroups(s: Bytes, k: nat, n: nat)
    requires n < |s| && k + n < 10 && AllContinue(s[..n]) && s[n] < 128
    ensures RawVarint(s, k) == Some((Groups(s[..n + 1]), n + 1))
    decreases n
  {
    if n > 0 {
      assert s[0] == s[..n][0];
      assert s[1..][..n - 1] == s[..n][1..];
      RawVarintGroups(s[1..], k + 1, n - 1);
      assert s[..n + 1][1..] == s[1..][..n];
    } else {
      assert s[..1] == [s[0]] && [s[0]][1..] == [];
    }
  }

  /** `s` starts with a varint of `n + 1` bytes: at most ten, all but the last marked as continued. */
  ghost predicate VarintEndsAt(s: Bytes, n: nat) {
    n < |s| && n < 10 && s[n] < 128 && AllContinue(s[..n])
  }

  /** What a varint means: its seven-bit groups, least significant first, modulo 2^64; cut or too long, nothing. */
  lemma VarintMeans(s: Bytes, n: nat)
    ensures VarintEndsAt(s, n) ==> ReadVarint(s) == Some((Groups(s[..n + 1]) % TWO_64, n + 1))
    ensures (forall k: nat :: !VarintEndsAt(s, k)) ==> ReadVarint(s).None?
  {
    if VarintEndsAt(s, n) {
      RawVarintGroups(s, 0, n);
    }
    if forall k: nat :: !VarintEndsAt(s, k) {
      NoEndContinues(s, if |s| < 10 then |s| else 10);
      RawVarintNone(s, 0);
    }
  }

  lemma {:induction false} NoEndContinues(s: Bytes, n: nat)
    requires n <= |s| && n <= 10 && forall k: nat :: !VarintEndsAt(s, k)
    ensures AllContinue(s[..n])
  {
    if n > 0 {
      NoEndContinues(s, n - 1);
      assert !VarintEndsAt(s, n - 1);
      assert s[..n] == s[..n - 1] + [s[n - 1]];
    }
  }

  /** The encoder's bytes are the groups of `v`, and no shorter string is: the last group is not zero. */
  lemma {:induction false} EncodeVarintMeans(v: nat)
    ensures Groups(EncodeVarint(v)) == v && AllContinue(EncodeVarint(v)[..|EncodeVarint(v)| - 1])
    ensures EncodeVarint(v)[|EncodeVarint(v)| - 1] < 128
    ensures |EncodeVarint(v)| > 1 ==> EncodeVarint(v)[|EncodeVarint(v)| - 1] > 0
  {
    var s := EncodeVarint(v);
    if v < 128 {
      assert s[1..] == [];
    } else {
      var t := EncodeVarint(v / 128);
      EncodeVarintMeans(v / 128);
      assert s == [v % 128 + 128] + t && s[1..] == t && s[|s| - 1] == t[|t| - 1];
      assert s[..|s| - 1] == [s[0]] + t[..|t| - 1];
      if |t| == 1 {
        assert t[0] == v / 128;
      }
    }
  }

  /** The inline varint loop; `|=` of a shifted group is addition because the bits do not overlap. */
  method VarintAt(dAtA: Bytes, start: nat) returns (v: Uint64, i: nat, err: Option<Error>)
    requires start <= |dAtA|
    ensures start <= i <= |dAtA| && Agrees(err, ReadVarint(dAtA[start..]), (v, i - start))
    ensures err == Some(IntOverflow) <==> start + 10 <= |dAtA| && AllContinue(dAtA[start..start + 10])
    ensures err == Some(UnexpectedEOF) <==> start + 10 > |dAtA| && AllContinue(dAtA[start..])
    ensures err in {None, Some(IntOverflow), Some(UnexpectedEOF)}
  {
    hide ReadVarint, Groups, AllContinue;
    v, i, err := 0, start, None;
    var shift: nat, scale: nat := 0, 1;
    ghost var s := dAtA[start..];
    NoGroups(s);
    while true
      invariant 0 <= i - start <= 10 && i <= |dAtA| && shift == 7 * (i - start) && scale == Pow128(i - start)
      invariant AllContinue(s[..i - start])
      invariant v == Groups(s[..i - start]) % TWO_64
      decreases 10 - (i - start)
    {
      ghost var n := i - start;
      if shift >= 64 {
        VarintTooLong(dAtA, start);
        return v, i, Some(IntOverflow);
      }
      if i >= |dAtA| {
        VarintCut(dAtA, start);
        return v, i, Some(UnexpectedEOF);
      }
      var b := dAtA[i];
      i := i + 1;
      OneMoreGroup(s, n, v, scale);
      v := (v + (b % 128) * scale) % TWO_64;
      if b < 128 {
        VarintEnds(dAtA, start, n);
        return;
      }
      shift := shift + 7;
      scale := 128 * scale;
    }
  }

  lemma NoGroups(s: Bytes)
    ensures Groups(s[..0]) == 0 && AllContinue(s[..0]) && Pow128(0) == 1
  {
  }

  lemma OneMoreGroup(s: Bytes, n: nat, v: nat, scale: nat)
    requires n < |s| && v == Groups(s[..n]) % TWO_64 && scale == Pow128(n) && AllContinue(s[..n])
    ensures (v + (s[n] % 128) * scale) % TWO_64 == Groups(s[..n + 1]) % TWO_64
    ensures Pow128(n + 1) == 128 * scale
    ensures s[n] >= 128 ==> AllContinue(s[..n + 1])
  {
    hide Groups, Pow128;
    GroupAdds(s, n);
    AddModulo(Groups(s[..n]), (s[n] % 128) * scale);
    NextScale(n);
  }

  lemma NextScale(n: nat)
    ensures Pow128(n + 1) == 128 * Pow128(n)
  {
  }

  lemma GroupAdds(s: Bytes, n: nat)
    requires n < |s|
    ensures Groups(s[..n + 1]) == Groups(s[..n]) + (s[n] % 128) * Pow128(n)
  {
    hide Groups, Pow128;
    assert s[..n + 1] == s[..n] + [s[n]];
    GroupsSnoc(s[..n], s[n]);
    Commute(s[n] % 128, Pow128(n));
  }

  lemma Commute(x: nat, y: nat)
    ensures x * y == y * x
  {
  }

  lemma VarintTooLong(dAtA: Bytes, start: nat)
    requires start + 10 <= |dAtA| && AllContinue(dAtA[start..][..10])
    ensures ReadVarint(dAtA[start..]).None? && AllContinue(dAtA[start..start + 10])
  {
    assert dAtA[start..][..10] == dAtA[start..start + 10];
    RawVarintNone(dAtA[start..], 0);
  }

  lemma VarintCut(dAtA: Bytes, start: nat)
    requires start <= |dAtA| < start + 10 && AllContinue(dAtA[start..][..|dAtA| - start])
    ensures ReadVarint(dAtA[start..]).None? && AllContinue(dAtA[start..])
  {
    assert dAtA[start..][..|dAtA| - start] == dAtA[start..];
    RawVarintNone(dAtA[start..], 0);
  }

  lemma VarintEnds(dAtA: Bytes, start: nat, n: nat)
    requires n < 10 && start + n < |dAtA| && AllContinue(dAtA[start..][..n]) && dAtA[start + n] < 128
    ensures ReadVarint(dAtA[start..]) == Some((Groups(dAtA[start..][..n + 1]) % TWO_64, n + 1))
    ensures start + 10 <= |dAtA| ==> !AllContinue(dAtA[start..start + 10])
    ensures !AllContinue(dAtA[start..])
  {
    RawVarintGroups(dAtA[start..], 0, n);
    assert dAtA[start..][n] < 128;
    if start + 10 <= |dAtA| {
      assert dAtA[start..start + 10][n] < 128;
    }
  }

  lemma AddModulo(a: nat, b: nat)
    ensures (a % TWO_64 + b) % TWO_64 == (a + b) % TWO_64
  {
  }

  // ---------- Tags, payloads, fixed64 and skipped records ----------

  /** The tag of a record, with the two checks every message parser makes on it. */
  method HeaderAt(dAtA: Bytes, start: nat) returns (t: Tag, err: Option<Error>)
    requires start <= |dAtA|
    ensures Agrees(err, ReadHeader(dAtA[start..]), t)
  {
    hide ReadVarint;
    var wire, i;
    wire, i, err := VarintAt(dAtA, start);
    t := Tag(ToInt32(wire / 8), wire % 8, i - start);
    if err.Some? { return; }
    if t.wireType == 4 { return t, Some(EndGroup); }
    if t.field <= 0 { return t, Some(IllegalTag); }
  }

  /**
   A length and the payload `dAtA[from:to]` it announces. `iNdEx + len` is computed in 64 bits: a sum
   past the largest int comes out negative and is refused like a negative length.
   */
  method PayloadAt(dAtA: Bytes, start: nat) returns (from: nat, to: nat, err: Option<Error>)
    requires start <= |dAtA| <= MAX_BUFFER
    ensures err.None? ==> start < from <= to <= |dAtA|
    ensures err.None? <==> ReadPayload(dAtA[start..]).Some?
    ensures err.None? ==> ReadPayload(dAtA[start..]) == Some((dAtA[from..to], to - start))
    ensures err == Some(InvalidLength) <==>
            && ReadVarint(dAtA[start..]).Some?
            && var (v, n) := ReadVarint(dAtA[start..]).value;
            (ToInt64(v) < 0 || start + n + ToInt64(v) >= TWO_63)
  {
    hide ReadVarint;
    var v;
    v, from, err := VarintAt(dAtA, start);
    to := from;
    if err.Some? { return; }
    var len := ToInt64(v);
    if len < 0 { return from, to, Some(InvalidLength); }
    var postIndex := WrapAdd(from, len);
    assert postIndex == if from + len < TWO_63 then from + len else from + len - TWO_64;
    if postIndex < 0 { return from, to, Some(InvalidLength); }
    if postIndex > |dAtA| { return from, to, Some(UnexpectedEOF); }
    to := postIndex;
    assert dAtA[start..][from - start..to - start] == dAtA[from..to];
  }

  method Fixed64At(dAtA: Bytes, start: nat) returns (v: Uint64, i: nat, err: Option<Error>)
    requires start <= |dAtA| <= MAX_BUFFER
    ensures start <= i <= |dAtA| && Agrees(err, ReadFixed64(dAtA[start..]), (v, i - start))
  {
    v, i, err := 0, start, None;
    if start + 8 > |dAtA| { return v, i, Some(UnexpectedEOF); }
    v := ReadFixed64(dAtA[start..]).value.0;
    i := start + 8;
  }

  /** The length of an unknown record, with the checks made on it: here too the sum may wrap. */
  method SkipAt(skip: Skipper, dAtA: Bytes, start: nat) returns (n: pos, err: Option<Error>)
    requires start <= |dAtA| <= MAX_BUFFER
    ensures Agrees(err, SkipRecord(skip, dAtA[start..]), n)
  {
    n := 1;
    var skippy := skip(dAtA[start..]);
    if skippy.None? { return n, Some(SkipFailed); }
    n := skippy.value;
    var end := WrapAdd(start, n);
    assert end == if start + n < TWO_63 then start + n else start + n - TWO_64;
    if end < 0 { return n, Some(InvalidLength); }
    if end > |dAtA| { return n, Some(UnexpectedEOF); }
    err := None;
  }
}

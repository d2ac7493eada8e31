/**
 Base 128 varints, the 64-bit conversions around them and little-endian fixed64,
 as the generated codec and its helper package compute them.
 */
module Varint {
  import opened Prelude

  const TWO_31: int := 0x8000_0000
  const TWO_63: int := 0x8000_0000_0000_0000
  const TWO_64: int := 0x1_0000_0000_0000_0000

  type Uint64 = x: int | 0 <= x < 0x1_0000_0000_0000_0000
  type Int64 = x: int | -0x8000_0000_0000_0000 <= x < 0x8000_0000_0000_0000
  type Int32 = x: int | -0x8000_0000 <= x < 0x8000_0000

  // ---------- Go integer conversions ----------

  /** `uint64(x)` of a signed 32- or 64-bit value: sign extension, then reinterpretation. */
  function ToUint64(x: Int64): Uint64 {
    if x < 0 then x + TWO_64 else x
  }

  /** `int64(u)` (and `int(u)` on a 64-bit platform). */
  function ToInt64(u: Uint64): Int64 {
    if u < TWO_63 then u else u - TWO_64
  }

  /** `int32(u)`: keep the low 32 bits. */
  function ToInt32(u: Uint64): Int32 {
    var low := u % TWO_32;
    if low < TWO_31 then low else low - TWO_32
  }

  /** Wrapping addition of two Go `int` values. */
  function WrapAdd(a: Int64, b: Int64): Int64 {
    ToInt64((a + b) % TWO_64)
  }

  lemma Int64RoundTrip(x: Int64)
    ensures ToInt64(ToUint64(x)) == x
  {
  }

  lemma Int32RoundTrip(x: Int32)
    ensures ToInt32(ToUint64(x)) == x
  {
  }

  // ---------- Varints ----------

  /** The minimal varint of `v`, least significant group first. */
  function EncodeVarint(v: nat): (s: Bytes)
    ensures |s| > 0
  {
    if v < 128 then [v] else [v % 128 + 128] + EncodeVarint(v / 128)
  }

  /** Number of bytes of the minimal varint of `v`. */
  function SizeOfVarint(v: nat): (n: nat)
    ensures n > 0
    ensures n == |EncodeVarint(v)|
  {
    if v < 128 then 1 else 1 + SizeOfVarint(v / 128)
  }

  /**
   The groups read by the inline loop, starting with group number `k`: the value they add up to
   before 64-bit truncation, and how many bytes they span. Fails when an eleventh group would be
   needed (shift 70 >= 64) or the bytes run out.
   */
  function RawVarint(s: Bytes, k: nat): (r: Option<(nat, nat)>)
    ensures r.Some? ==> 0 < r.value.1 <= |s|
    decreases |s|
  {
    if k >= 10 || s == [] then None
    else if s[0] < 128 then Some((s[0], 1))
    else
      var (v, n) :- RawVarint(s[1..], k + 1);
      Some((s[0] - 128 + 128 * v, n + 1))
  }

  /** The uint64 at the front of `s` and the number of bytes it spans. */
  function ReadVarint(s: Bytes): (r: Option<(Uint64, nat)>)
    ensures r.Some? ==> 0 < r.value.1 <= |s|
  {
    var (v, n) :- RawVarint(s, 0);
    Some((v % TWO_64, n))
  }

  lemma {:induction false} RawVarintLocal(s: Bytes, e: Bytes, k: nat)
    requires RawVarint(s, k).Some?
    ensures RawVarint(s + e, k) == RawVarint(s, k)
    decreases |s|
  {
    if s[0] >= 128 {
      assert (s + e)[1..] == s[1..] + e;
      RawVarintLocal(s[1..], e, k + 1);
    }
  }

  /** A varint is decided by the bytes it spans: more input after it changes nothing. */
  lemma ReadVarintLocal(s: Bytes, e: Bytes)
    requires ReadVarint(s).Some?
    ensures ReadVarint(s + e) == ReadVarint(s)
  {
    RawVarintLocal(s, e, 0);
  }

  /** The bytes spanned by a varint already decide it. */
  lemma {:induction false} RawVarintPrefix(s: Bytes, k: nat)
    requires RawVarint(s, k).Some?
    ensures RawVarint(s[..RawVarint(s, k).value.1], k) == RawVarint(s, k)
    decreases |s|
  {
    if s[0] >= 128 {
      RawVarintPrefix(s[1..], k + 1);
      var n := RawVarint(s, k).value.1;
      assert s[..n][1..] == s[1..][..n - 1];
    }
  }

  lemma ReadVarintPrefix(s: Bytes)
    requires ReadVarint(s).Some?
    ensures ReadVarint(s[..ReadVarint(s).value.1]) == ReadVarint(s)
  {
    RawVarintPrefix(s, 0);
  }

  function Pow128(k: nat): (p: nat)
    ensures p > 0
  {
    if k == 0 then 1 else 128 * Pow128(k - 1)
  }

  lemma Pow128Values()
    ensures Pow128(9) == TWO_63
  {
  }

  /** Reading undoes writing, for every value that fits in `k` groups. */
  lemma {:induction false} RawVarintRoundTrip(v: nat, k: nat)
    requires 1 <= k <= 10 && v < Pow128(k)
    ensures RawVarint(EncodeVarint(v), 10 - k) == Some((v, |EncodeVarint(v)|))
    decreases k
  {
    if v >= 128 {
      assert k > 1 by {
        assert Pow128(1) == 128;
      }
      assert v / 128 < Pow128(k - 1) by {
        assert Pow128(k) == 128 * Pow128(k - 1);
      }
      RawVarintRoundTrip(v / 128, k - 1);
      assert EncodeVarint(v)[1..] == EncodeVarint(v / 128);
    }
  }

  /** Every uint64 survives a trip through its minimal varint, whatever bytes come behind it. */
  lemma VarintRoundTrip(v: Uint64, behind: Bytes)
    ensures ReadVarint(EncodeVarint(v) + behind) == Some((v, |EncodeVarint(v)|))
  {
    Pow128Values();
    assert Pow128(10) == 128 * Pow128(9);
    RawVarintRoundTrip(v, 10);
    ReadVarintLocal(EncodeVarint(v), behind);
  }

  // ---------- fixed64 ----------

  /** `n` bytes of `v`, least significant first. */
  function LittleEndian(v: nat, n: nat): (s: Bytes)
    ensures |s| == n
  {
    if n == 0 then [] else [v % 256] + LittleEndian(v / 256, n - 1)
  }

  function FromLittleEndian(s: Bytes): (v: nat)
  {
    if s == [] then 0 else s[0] + 256 * FromLittleEndian(s[1..])
  }

  function Pow256(n: nat): (p: nat)
    ensures p > 0
  {
    if n == 0 then 1 else 256 * Pow256(n - 1)
  }

  lemma {:induction false} LittleEndianRoundTrip(v: nat, n: nat)
    requires v < Pow256(n)
    ensures FromLittleEndian(LittleEndian(v, n)) == v
  {
    if n > 0 {
      assert v / 256 < Pow256(n - 1) by {
        assert Pow256(n) == 256 * Pow256(n - 1);
      }
      LittleEndianRoundTrip(v / 256, n - 1);
      assert LittleEndian(v, n)[1..] == LittleEndian(v / 256, n - 1);
    }
  }

  lemma {:induction false} FromLittleEndianBound(s: Bytes)
    ensures FromLittleEndian(s) < Pow256(|s|)
  {
    if s != [] {
      FromLittleEndianBound(s[1..]);
      assert Pow256(|s|) == 256 * Pow256(|s| - 1);
    }
  }

  lemma Pow256Values()
    ensures Pow256(8) == TWO_64
  {
  }

  /** The fixed64 at the front of `s`. */
  function ReadFixed64(s: Bytes): (r: Option<(Uint64, nat)>)
    ensures r.Some? ==> r.value.1 == 8 <= |s|
  {
    if |s| < 8 then None
    else
      FromLittleEndianBound(s[..8]);
      Pow256Values();
      Some((FromLittleEndian(s[..8]), 8))
  }

  lemma Fixed64RoundTrip(v: Uint64)
    ensures ReadFixed64(LittleEndian(v, 8)) == Some((v, 8))
  {
    Pow256Values();
    LittleEndianRoundTrip(v, 8);
    assert LittleEndian(v, 8)[..8] == LittleEndian(v, 8);
  }

  lemma ReadFixed64Local(s: Bytes, e: Bytes)
    requires ReadFixed64(s).Some?
    ensures ReadFixed64(s + e) == ReadFixed64(s)
  {
    assert (s + e)[..8] == s[..8];
  }
}

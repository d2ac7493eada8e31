/**
 The order of keys (`compare.CompareWithSlash`): keys are compared segment by segment, and a key that
 has no further `/` comes before one that has. It is a total order whose least key is the empty one.
 */
module KeyOrder {
  import opened Prelude

  const SLASH: byte := 47

  /** `bytes.Compare`. */
  function CompareBytes(a: Bytes, b: Bytes): (c: int)
    ensures -1 <= c <= 1
  {
    if a == [] && b == [] then 0
    else if a == [] then -1
    else if b == [] then 1
    else if a[0] < b[0] then -1
    else if a[0] > b[0] then 1
    else CompareBytes(a[1..], b[1..])
  }

  /** `bytes.IndexByte(s, '/')`. */
  function IndexSlash(s: Bytes): (i: int)
    ensures -1 <= i < |s|
    ensures i >= 0 ==> s[i] == SLASH && SLASH !in s[..i]
    ensures i < 0 ==> SLASH !in s
  {
    if s == [] then -1
    else if s[0] == SLASH then 0
    else var i := IndexSlash(s[1..]); if i < 0 then -1 else i + 1
  }

  function Compare(a: Bytes, b: Bytes): (c: int)
    ensures -1 <= c <= 1
    decreases |a|
  {
    if a == [] || b == [] then
      if |a| < |b| then -1 else if |a| > |b| then 1 else 0
    else
      var i, j := IndexSlash(a), IndexSlash(b);
      if i < 0 && j < 0 then CompareBytes(a, b)
      else if i < 0 then -1
      else if j < 0 then 1
      else if CompareBytes(a[..i], b[..j]) != 0 then CompareBytes(a[..i], b[..j])
      else Compare(a[i + 1..], b[j + 1..])
  }

  /** The loop as it runs. */
  method CompareWithSlash(a0: Bytes, b0: Bytes) returns (c: int)
    ensures c == Compare(a0, b0)
    ensures c < 0 <==> exists d: nat :: DecidedAt(Segments(a0), Segments(b0), d)
    ensures c == 0 <==> a0 == b0
  {
    hide CompareBytes, DecidedAt, Segments;
    LessMeans(a0, b0);
    CompareAntisymmetric(a0, b0);
    var a, b := a0, b0;
    while |a| > 0 && |b| > 0
      invariant Compare(a, b) == Compare(a0, b0)
      decreases |a|
    {
      var idxA, idxB := IndexSlash(a), IndexSlash(b);
      if idxA < 0 && idxB < 0 { return CompareBytes(a, b); }
      if idxA < 0 { return -1; }
      if idxB < 0 { return 1; }
      var spanRes := CompareBytes(a[..idxA], b[..idxB]);
      if spanRes != 0 { return spanRes; }
      a, b := a[idxA + 1..], b[idxB + 1..];
    }
    if |a| < |b| { return -1; }
    if |a| > |b| { return 1; }
    return 0;
  }

  // ---------- CompareBytes is a total order ----------

  lemma {:induction false} CompareBytesAntisymmetric(a: Bytes, b: Bytes)
    ensures CompareBytes(a, b) == -CompareBytes(b, a)
    ensures CompareBytes(a, b) == 0 <==> a == b
  {
    if a != [] && b != [] && a[0] == b[0] {
      CompareBytesAntisymmetric(a[1..], b[1..]);
      assert a == [a[0]] + a[1..] && b == [b[0]] + b[1..];
    }
  }

  lemma {:induction false} CompareBytesTransitive(a: Bytes, b: Bytes, c: Bytes)
    requires CompareBytes(a, b) <= 0 && CompareBytes(b, c) <= 0
    ensures CompareBytes(a, c) <= 0
    ensures CompareBytes(a, c) == 0 ==> CompareBytes(a, b) == 0 && CompareBytes(b, c) == 0
  {
    if a != [] && b != [] && c != [] && a[0] == b[0] == c[0] {
      CompareBytesTransitive(a[1..], b[1..], c[1..]);
    }
  }

  // ---------- So is Compare ----------

  lemma {:induction false} CompareAntisymmetric(a: Bytes, b: Bytes)
    ensures Compare(a, b) == -Compare(b, a)
    ensures Compare(a, b) == 0 <==> a == b
    decreases |a|
  {
    hide CompareBytes, IndexSlash;
    if a != [] && b != [] {
      var i, j := IndexSlash(a), IndexSlash(b);
      if i < 0 && j < 0 {
        CompareBytesAntisymmetric(a, b);
      } else if i >= 0 && j >= 0 {
        CompareBytesAntisymmetric(a[..i], b[..j]);
        CompareAntisymmetric(a[i + 1..], b[j + 1..]);
        if a[..i] == b[..j] && a[i + 1..] == b[j + 1..] { SameSegments(a, b, i, j); }
      }
    }
  }

  /** Keys are equal if their first segments and the rests behind the slash are. */
  lemma SameSegments(a: Bytes, b: Bytes, i: nat, j: nat)
    requires i < |a| && j < |b| && a[i] == SLASH && b[j] == SLASH
    requires a[..i] == b[..j] && a[i + 1..] == b[j + 1..]
    ensures a == b
  {
    assert a == a[..i] + [SLASH] + a[i + 1..] && b == b[..j] + [SLASH] + b[j + 1..];
  }

  lemma {:induction false} CompareTransitive(a: Bytes, b: Bytes, c: Bytes)
    requires Compare(a, b) <= 0 && Compare(b, c) <= 0
    ensures Compare(a, c) <= 0
    decreases |a|
  {
    hide CompareBytes, IndexSlash;
    if a != [] && b != [] && c != [] {
      var i, j, k := IndexSlash(a), IndexSlash(b), IndexSlash(c);
      if i < 0 && j < 0 && k < 0 {
        CompareBytesTransitive(a, b, c);
      } else if i >= 0 && j >= 0 && k >= 0 {
        CompareBytesTransitive(a[..i], b[..j], c[..k]);
        if CompareBytes(a[..i], c[..k]) == 0 {
          CompareTransitive(a[i + 1..], b[j + 1..], c[k + 1..]);
        }
      }
    }
  }

  predicate Leq(a: Bytes, b: Bytes) {
    Compare(a, b) <= 0
  }

  predicate Less(a: Bytes, b: Bytes) {
    Compare(a, b) < 0
  }

  /** `Leq` is a total order, `Less` its strict part, and the empty key is least. */
  lemma TotalOrder()
    ensures forall a, b :: Leq(a, b) || Leq(b, a)
    ensures forall a, b :: Leq(a, b) && Leq(b, a) ==> a == b
    ensures forall a, b, c :: Leq(a, b) && Leq(b, c) ==> Leq(a, c)
    ensures forall a, b :: Less(a, b) <==> !Leq(b, a)
    ensures forall a :: Leq([], a)
  {
    forall a, b
      ensures Leq(a, b) || Leq(b, a)
      ensures Leq(a, b) && Leq(b, a) ==> a == b
      ensures Less(a, b) <==> !Leq(b, a)
    {
      CompareAntisymmetric(a, b);
    }
    forall a, b, c | Leq(a, b) && Leq(b, c) ensures Leq(a, c) {
      CompareTransitive(a, b, c);
    }
  }

  /** A first segment in common does not matter. */
  lemma StripSegment(p: Bytes, x: Bytes, y: Bytes)
    requires SLASH !in p
    ensures Compare(p + [SLASH] + x, p + [SLASH] + y) == Compare(x, y)
  {
    hide CompareBytes, IndexSlash;
    var a, b := p + [SLASH] + x, p + [SLASH] + y;
    IndexOfFirst(p, x);
    IndexOfFirst(p, y);
    assert a[|p| + 1..] == x && b[|p| + 1..] == y;
    assert a[..|p|] == p && b[..|p|] == p;
    CompareBytesAntisymmetric(p, p);
  }

  /** Keys below a directory `p` stay together: all keys `p/x` with `x` free of `/` precede all keys `p/y/z`. */
  lemma {:induction false} ChildrenBeforeGrandchildren(p: Bytes, x: Bytes, y: Bytes, z: Bytes)
    requires SLASH !in x && SLASH !in y
    ensures Less(p + [SLASH] + x, p + [SLASH] + (y + [SLASH] + z))
    decreases |p|
  {
    hide Compare, CompareBytes, IndexSlash;
    var i, below := IndexSlash(p), y + [SLASH] + z;
    if i < 0 {
      StripSegment(p, x, below);
      LeafBeforeDirectory(x, y, z);
    } else {
      var q := p[i + 1..];
      assert p + [SLASH] + x == p[..i] + [SLASH] + (q + [SLASH] + x);
      assert p + [SLASH] + below == p[..i] + [SLASH] + (q + [SLASH] + below);
      StripSegment(p[..i], q + [SLASH] + x, q + [SLASH] + below);
      ChildrenBeforeGrandchildren(q, x, y, z);
    }
  }

  lemma LeafBeforeDirectory(x: Bytes, y: Bytes, z: Bytes)
    requires SLASH !in x && SLASH !in y
    ensures Compare(x, y + [SLASH] + z) < 0
  {
    hide CompareBytes, IndexSlash;
    IndexOfFirst(y, z);
    NoSlash(x);
    assert |y + [SLASH] + z| > 0;
  }

  lemma NoSlash(s: Bytes)
    requires SLASH !in s
    ensures IndexSlash(s) == -1
  {
  }

  lemma {:induction false} IndexOfFirst(p: Bytes, rest: Bytes)
    requires SLASH !in p
    ensures IndexSlash(p + [SLASH] + rest) == |p|
  {
    if p != [] {
      assert (p + [SLASH] + rest)[1..] == p[1..] + [SLASH] + rest;
      IndexOfFirst(p[1..], rest);
    }
  }

  // ---------- What the order is, without the loop ----------

  /** `a` is a proper prefix of `b`, or smaller at the first byte in which they differ. */
  ghost predicate ByteLess(a: Bytes, b: Bytes) {
    a < b || exists i :: 0 <= i < |a| && i < |b| && a[..i] == b[..i] && a[i] < b[i]
  }

  lemma {:induction false} CompareBytesMeans(a: Bytes, b: Bytes)
    ensures CompareBytes(a, b) < 0 <==> ByteLess(a, b)
  {
    if a != [] && b != [] && a[0] == b[0] {
      CompareBytesMeans(a[1..], b[1..]);
      ByteLessTail(a, b);
    } else if a != [] && b != [] && a[0] < b[0] {
      assert a[..0] == b[..0];
    }
  }

  lemma ByteLessTail(a: Bytes, b: Bytes)
    requires a != [] && b != [] && a[0] == b[0]
    ensures ByteLess(a[1..], b[1..]) <==> ByteLess(a, b)
  {
    var x, y := a[1..], b[1..];
    assert a == [a[0]] + x && b == [a[0]] + y;
    forall i | 0 <= i < |x| && i < |y| && x[..i] == y[..i] && x[i] < y[i]
      ensures a[..i + 1] == b[..i + 1] && a[i + 1] < b[i + 1]
    {
      assert a[..i + 1] == [a[0]] + x[..i] && b[..i + 1] == [a[0]] + y[..i];
    }
    forall i | 0 <= i < |a| && i < |b| && a[..i] == b[..i] && a[i] < b[i]
      ensures i > 0 && x[..i - 1] == y[..i - 1] && x[i - 1] < y[i - 1]
    {
      assert x[..i - 1] == a[..i][1..] && y[..i - 1] == b[..i][1..];
    }
  }

  /** The parts of a key between its slashes, of which there is always one. */
  function Segments(s: Bytes): (r: seq<Bytes>)
    ensures |r| > 0 && forall x :: x in r ==> '/' as int !in x
    ensures Joined(r) == s
  {
    var i := IndexSlash(s);
    if i < 0 then [s]
    else
      assert s == s[..i] + ([SLASH] + s[i + 1..]);
      var t := Segments(s[i + 1..]);
      assert ([s[..i]] + t)[1..] == t;
      [s[..i]] + t
  }

  function Joined(r: seq<Bytes>): Bytes
    requires |r| > 0
  {
    if |r| == 1 then r[0] else r[0] + (['/' as int] + Joined(r[1..]))
  }

  /**
   The first `d` segments agree and the next ones decide: if it is the last segment of `a` but not of `b`, then `a`
   is less whatever they hold; otherwise both are last or neither is, and their bytes decide.
   */
  ghost predicate DecidedAt(a: seq<Bytes>, b: seq<Bytes>, d: nat) {
    && d < |a| && d < |b| && a[..d] == b[..d]
    && ((d == |a| - 1 && d < |b| - 1) || ((d == |a| - 1 <==> d == |b| - 1) && ByteLess(a[d], b[d])))
  }

  /** The whole order: some segment decides it. */
  lemma {:induction false} LessMeans(a: Bytes, b: Bytes)
    ensures Less(a, b) <==> exists d: nat :: DecidedAt(Segments(a), Segments(b), d)
    decreases |a|
  {
    hide CompareBytes, ByteLess, DecidedAt, Segments;
    var i, j := IndexSlash(a), IndexSlash(b);
    FirstSegment(a);
    FirstSegment(b);
    if i >= 0 && j >= 0 {
      CompareBytesAntisymmetric(a[..i], b[..j]);
      CompareBytesMeans(a[..i], b[..j]);
      LessBehind(a, b, i, j);
      DecidedBehind(Segments(a), Segments(b));
      if a[..i] == b[..j] { LessMeans(a[i + 1..], b[j + 1..]); }
    } else {
      CompareBytesMeans(a, b);
      LessAtEnd(a, b);
      DecidedAtEnd(Segments(a), Segments(b));
    }
  }

  lemma FirstSegment(s: Bytes)
    ensures var i := IndexSlash(s);
            if i < 0 then Segments(s) == [s] else |Segments(s)| > 1 && Segments(s)[0] == s[..i]
                                                  && Segments(s)[1..] == Segments(s[i + 1..])
  {
  }

  lemma LessBehind(a: Bytes, b: Bytes, i: nat, j: nat)
    requires IndexSlash(a) == i && IndexSlash(b) == j
    ensures Less(a, b) <==> CompareBytes(a[..i], b[..j]) < 0
                            || (CompareBytes(a[..i], b[..j]) == 0 && Less(a[i + 1..], b[j + 1..]))
  {
    hide CompareBytes, IndexSlash;
  }

  lemma LessAtEnd(a: Bytes, b: Bytes)
    requires IndexSlash(a) < 0 || IndexSlash(b) < 0
    ensures Less(a, b) <==> IndexSlash(a) < 0 && (IndexSlash(b) >= 0 || CompareBytes(a, b) < 0)
  {
    hide IndexSlash;
  }

  lemma DecidedAtEnd(a: seq<Bytes>, b: seq<Bytes>)
    requires |a| > 0 && |b| > 0 && (|a| == 1 || |b| == 1)
    ensures (exists d: nat :: DecidedAt(a, b, d)) <==> |a| == 1 && (|b| > 1 || ByteLess(a[0], b[0]))
  {
    hide ByteLess;
    assert a[..0] == b[..0];
    if |a| == 1 && (|b| > 1 || ByteLess(a[0], b[0])) {
      assert DecidedAt(a, b, 0);
    }
  }

  lemma DecidedBehind(a: seq<Bytes>, b: seq<Bytes>)
    requires |a| > 1 && |b| > 1
    ensures (exists d: nat :: DecidedAt(a, b, d)) <==>
            ByteLess(a[0], b[0]) || (a[0] == b[0] && exists d: nat :: DecidedAt(a[1..], b[1..], d))
  {
    hide ByteLess;
    assert a[..0] == b[..0];
    if ByteLess(a[0], b[0]) {
      assert DecidedAt(a, b, 0);
    }
    forall d: nat | a[0] == b[0] && DecidedAt(a[1..], b[1..], d) ensures DecidedAt(a, b, d + 1) {
      assert a[..d + 1] == [a[0]] + a[1..][..d] && b[..d + 1] == [b[0]] + b[1..][..d];
    }
    forall d: nat | d > 0 && DecidedAt(a, b, d) ensures a[0] == b[0] && DecidedAt(a[1..], b[1..], d - 1) {
      assert a[0] == a[..d][0] && b[0] == b[..d][0];
      assert a[1..][..d - 1] == a[..d][1..] && b[1..][..d - 1] == b[..d][1..];
    }
  }

  /** Keys without a slash compare by their bytes. */
  lemma SlashFreeKeys(a: Bytes, b: Bytes)
    requires SLASH !in a && SLASH !in b
    ensures Less(a, b) <==> ByteLess(a, b)
  {
    hide CompareBytes, IndexSlash, ByteLess;
    NoSlash(a);
    NoSlash(b);
    LessAtEnd(a, b);
    CompareBytesMeans(a, b);
  }

  /** Keys below different first segments compare by those, whatever follows. */
  lemma FirstSegmentsDiffer(p: Bytes, x: Bytes, q: Bytes, y: Bytes)
    requires SLASH !in p && SLASH !in q && p != q
    ensures Less(p + [SLASH] + x, q + [SLASH] + y) <==> ByteLess(p, q)
  {
    hide CompareBytes, IndexSlash, ByteLess;
    var a, b := p + [SLASH] + x, q + [SLASH] + y;
    IndexOfFirst(p, x);
    IndexOfFirst(q, y);
    assert a[..|p|] == p && b[..|q|] == q;
    LessBehind(a, b, |p|, |q|);
    CompareBytesMeans(p, q);
    CompareBytesAntisymmetric(p, q);
  }
}

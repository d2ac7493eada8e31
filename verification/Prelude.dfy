/** Types shared by every module of the project. */
module Prelude {

  /** An optional value: a Go pointer, a comma-ok result, or a computation that may fail. */
  datatype Option<+T> = None | Some(value: T) {
    predicate IsFailure() {
      None?
    }

    function PropagateFailure<U>(): Option<U>
      requires None?
    {
      None
    }

    function Extract(): T
      requires Some?
    {
      value
    }
  }

  /** A byte of a Go `[]byte` or `string`. */
  type byte = x: int | 0 <= x < 256

  /** A Go string or byte slice, as the bytes it holds. */
  type Bytes = seq<byte>

  /** `ks` lists every key of `m` exactly once: one iteration order of the map. */
  ghost predicate IterationOrder<K(!new), V>(ks: seq<K>, m: map<K, V>) {
    && (forall i, j :: 0 <= i < j < |ks| ==> ks[i] != ks[j])
    && (forall k :: k in ks <==> k in m)
  }

  const TWO_32: int := 0x1_0000_0000

  lemma SameMembers<T>(a: seq<T>, b: seq<T>)
    requires multiset(a) == multiset(b)
    ensures |a| == |b| && forall x :: x in a <==> x in b
  {
    forall x ensures x in a <==> x in b {
      assert x in multiset(a) <==> x in multiset(b);
    }
    assert |multiset(a)| == |a| && |multiset(b)| == |b|;
  }
}

/**
 `UnmarshalVTUnsafe` of PutRequest: strings and bytes are views into the input buffer, not copies. A receiver
 that was filled before may hold views into other buffers.
 */
module ZeroCopy {
  import opened Prelude
  import opened Varint
  import opened Wire
  import opened Messages
  import opened Parser
  import opened Scan
  import opened Unmarshal

  /** The buffers that are alive, by their identity, with what they hold. */
  type Memory = map<nat, Bytes>

  /** `unsafe.String(&dAtA[off], len)`, or a slice of the buffer; a zero value looks at nothing. */
  datatype View = Nothing | View(buf: nat, off: nat, len: nat)

  datatype PutView = PutView(
    key: View, value: Option<View>, expectedVersionId: Option<Int64>, sessionId: Option<Int64>,
    clientIdentity: Option<View>, partitionKey: Option<View>, sequenceKeyDelta: seq<Uint64>, unknown: Bytes)

  const EMPTY_VIEW := PutView(Nothing, None, None, None, None, None, [], [])

  predicate InBounds(v: View, mem: Memory) {
    v.View? ==> v.buf in mem && v.off + v.len <= |mem[v.buf]|
  }

  predicate OptionalInBounds(v: Option<View>, mem: Memory) {
    v.Some? ==> InBounds(v.value, mem)
  }

  predicate AllInBounds(v: PutView, mem: Memory) {
    && InBounds(v.key, mem) && OptionalInBounds(v.value, mem)
    && OptionalInBounds(v.clientIdentity, mem) && OptionalInBounds(v.partitionKey, mem)
  }

  function Content(mem: Memory, v: View): Bytes
    requires InBounds(v, mem)
  {
    if v.Nothing? then [] else mem[v.buf][v.off..v.off + v.len]
  }

  function OptionalContent(mem: Memory, v: Option<View>): Option<Bytes>
    requires OptionalInBounds(v, mem)
  {
    if v.None? then None else Some(Content(mem, v.value))
  }

  /** The message a reader sees while the buffers hold `mem`. */
  function Resolve(mem: Memory, v: PutView): PutRequest
    requires AllInBounds(v, mem)
  {
    PutRequest(Content(mem, v.key), OptionalContent(mem, v.value), v.expectedVersionId, v.sessionId,
               OptionalContent(mem, v.clientIdentity), OptionalContent(mem, v.partitionKey),
               v.sequenceKeyDelta, v.unknown)
  }

  class ViewReceiver {
    var v: PutView

    ghost predicate Valid(mem: Memory)
      reads this
    {
      AllInBounds(v, mem)
    }

    ghost function Value(mem: Memory): PutRequest
      reads this
      requires Valid(mem)
    {
      Resolve(mem, v)
    }

    constructor ()
      ensures v == EMPTY_VIEW && forall mem :: Valid(mem) && Value(mem) == EMPTY_PUT
    {
      v := EMPTY_VIEW;
    }

    /** One field, parsed out of buffer `b`. */
    method FieldAt(mem: Memory, b: nat, start: nat, t: Tag) returns (i: nat, err: Option<Error>)
      requires Valid(mem) && b in mem && start <= |mem[b]| <= MAX_BUFFER
      modifies this
      ensures Valid(mem) && start <= i <= |mem[b]|
      ensures Agrees(err, PutField(old(Value(mem)), t, mem[b][start..]), (Value(mem), i - start))
    {
      hide PutField, Resolve, AllInBounds;
      if t.field == 3 || t.field == 4 {
        i, err := NumberAt(mem, b, start, t);
      } else if 1 <= t.field <= 6 {
        i, err := TextAt(mem, b, start, t);
      } else {
        i, err := DeltasAt(mem, b, start, t);
      }
    }

    method NumberAt(mem: Memory, b: nat, start: nat, t: Tag) returns (i: nat, err: Option<Error>)
      requires Valid(mem) && b in mem && start <= |mem[b]| && (t.field == 3 || t.field == 4)
      modifies this
      ensures Valid(mem) && start <= i <= |mem[b]|
      ensures Agrees(err, PutField(old(Value(mem)), t, mem[b][start..]), (Value(mem), i - start))
    {
      hide ReadVarint, ReadPayload, ReadPacked, Content;
      i, err := start, None;
      if t.wireType != 0 { return i, Some(WrongWireType); }
      var x;
      x, i, err := VarintAt(mem[b], start);
      if err.Some? { return; }
      v := if t.field == 3 then v.(expectedVersionId := Some(ToInt64(x))) else v.(sessionId := Some(ToInt64(x)));
    }

    /** The string or bytes are not copied: the field becomes a view into the buffer. */
    method TextAt(mem: Memory, b: nat, start: nat, t: Tag) returns (i: nat, err: Option<Error>)
      requires Valid(mem) && b in mem && start <= |mem[b]| <= MAX_BUFFER
      requires t.field == 1 || t.field == 2 || t.field == 5 || t.field == 6
      modifies this
      ensures Valid(mem) && start <= i <= |mem[b]|
      ensures Agrees(err, PutField(old(Value(mem)), t, mem[b][start..]), (Value(mem), i - start))
    {
      hide ReadVarint, ReadPayload, PutField, Resolve;
      ghost var m := Resolve(mem, v);
      i, err := start, None;
      PutTextField(m, t, mem[b][start..]);
      if t.wireType != 2 { return i, Some(WrongWireType); }
      var lo, hi;
      lo, hi, err := PayloadAt(mem[b], start);
      if err.Some? { return; }
      PointAt(mem, v, t.field, View(b, lo, hi - lo));
      v := Pointed(v, t.field, View(b, lo, hi - lo));
      i := hi;
    }

    method DeltasAt(mem: Memory, b: nat, start: nat, t: Tag) returns (i: nat, err: Option<Error>)
      requires Valid(mem) && b in mem && start <= |mem[b]| <= MAX_BUFFER && !(1 <= t.field <= 6)
      modifies this
      ensures Valid(mem) && start <= i <= |mem[b]|
      ensures Agrees(err, PutField(old(Value(mem)), t, mem[b][start..]), (Value(mem), i - start))
    {
      hide PutField, Content;
      var r := new Receiver(Put(Resolve(mem, v)));
      i, err := r.DeltasAt(mem[b], start, t);
      if err.None? {
        DeltasOnly(Resolve(mem, v), t, mem[b][start..]);
        v := v.(sequenceKeyDelta := r.m.put.sequenceKeyDelta);
      }
    }

    /** One iteration of the outer loop; unknown records are copied. */
    method StepAt(skip: Skipper, mem: Memory, b: nat, start: nat) returns (i: nat, err: Option<Error>)
      requires Valid(mem) && b in mem && start < |mem[b]| <= MAX_BUFFER
      modifies this
      ensures Valid(mem) && start <= i <= |mem[b]|
      ensures Agrees(err, Step(skip, Put(old(Value(mem))), mem[b][start..]), (Put(Value(mem)), i - start))
    {
      hide ReadHeader, SkipRecord, PutField, Content;
      var d := mem[b];
      i := start;
      var t;
      t, err := HeaderAt(d, start);
      if err.Some? { return; }
      if t.field <= 7 {
        assert d[start..][t.size..] == d[start + t.size..];
        i, err := FieldAt(mem, b, start + t.size, t);
      } else {
        var n;
        n, err := SkipAt(skip, d, start);
        if err.Some? { return; }
        assert d[start..][..n] == d[start..start + n];
        v := v.(unknown := v.unknown + d[start..start + n]);
        i := start + n;
      }
    }

    /**
     For every receiver, also one with views into other buffers: fails exactly when `UnmarshalVT` fails on the
     same bytes, and otherwise reads, while the buffers are left alone, as the message `UnmarshalVT` would
     have built.
     */
    method UnmarshalVTUnsafe(skip: Skipper, mem: Memory, b: nat) returns (err: Option<Error>)
      requires Valid(mem) && b in mem && |mem[b]| <= MAX_BUFFER
      modifies this
      ensures Valid(mem)
      ensures Agrees(err, Parse(skip, Put(old(Value(mem))), mem[b]), Put(Value(mem)))
    {
      hide Step, Resolve, AllInBounds;
      var dAtA := mem[b];
      err := None;
      var iNdEx := 0;
      assert dAtA[0..] == dAtA;
      while iNdEx < |dAtA|
        invariant 0 <= iNdEx <= |dAtA| && err.None? && Valid(mem)
        invariant Parse(skip, Put(old(Value(mem))), dAtA) == Parse(skip, Put(Value(mem)), dAtA[iNdEx..])
        decreases |dAtA| - iNdEx
      {
        ghost var i0 := iNdEx;
        iNdEx, err := StepAt(skip, mem, b, iNdEx);
        if err.Some? { return; }
        assert dAtA[i0..][iNdEx - i0..] == dAtA[iNdEx..];
      }
    }
  }

  /** The view with field `f`, a string or bytes, pointed at `s`. */
  function Pointed(v: PutView, f: int, s: View): PutView {
    if f == 1 then v.(key := s)
    else if f == 2 then v.(value := Some(s))
    else if f == 5 then v.(clientIdentity := Some(s))
    else v.(partitionKey := Some(s))
  }

  function WithText(m: PutRequest, f: int, p: Bytes): PutRequest {
    if f == 1 then m.(key := p)
    else if f == 2 then m.(value := Some(p))
    else if f == 5 then m.(clientIdentity := Some(p))
    else m.(partitionKey := Some(p))
  }

  lemma PointAt(mem: Memory, v: PutView, f: int, s: View)
    requires AllInBounds(v, mem) && InBounds(s, mem)
    ensures AllInBounds(Pointed(v, f, s), mem)
    ensures Resolve(mem, Pointed(v, f, s)) == WithText(Resolve(mem, v), f, Content(mem, s))
  {
    hide Content, InBounds, OptionalContent;
    OptionalOf(mem, s);
  }

  lemma OptionalOf(mem: Memory, s: View)
    requires InBounds(s, mem)
    ensures OptionalInBounds(Some(s), mem) && OptionalContent(mem, Some(s)) == Some(Content(mem, s))
  {
  }

  lemma PutTextField(m: PutRequest, t: Tag, r: Bytes)
    requires t.field == 1 || t.field == 2 || t.field == 5 || t.field == 6
    ensures PutField(m, t, r) ==
            if t.wireType != 2 || ReadPayload(r).None? then None
            else Some((WithText(m, t.field, ReadPayload(r).value.0), ReadPayload(r).value.1))
  {
    hide ReadVarint, ReadPayload, ReadPacked;
  }

  lemma DeltasOnly(m: PutRequest, t: Tag, r: Bytes)
    requires !(1 <= t.field <= 6) && PutField(m, t, r).Some?
    ensures var q := PutField(m, t, r).value.0; q == m.(sequenceKeyDelta := q.sequenceKeyDelta)
  {
  }

  /** The buffers agree on every byte that `v` looks at. */
  ghost predicate SameUnder(a: Memory, b: Memory, v: View)
    requires InBounds(v, a) && InBounds(v, b)
  {
    v.View? ==> forall k :: v.off <= k < v.off + v.len ==> a[v.buf][k] == b[v.buf][k]
  }

  ghost predicate OptionalSameUnder(a: Memory, b: Memory, v: Option<View>)
    requires OptionalInBounds(v, a) && OptionalInBounds(v, b)
  {
    v.Some? ==> SameUnder(a, b, v.value)
  }

  lemma ContentSame(a: Memory, b: Memory, v: View)
    requires InBounds(v, a) && InBounds(v, b)
    ensures Content(a, v) == Content(b, v) <==> SameUnder(a, b, v)
  {
    if v.View? && Content(a, v) == Content(b, v) {
      forall k | v.off <= k < v.off + v.len ensures a[v.buf][k] == b[v.buf][k] {
        assert a[v.buf][k] == Content(a, v)[k - v.off];
      }
    }
  }

  /**
   What sharing buffers costs: after they are overwritten, from `before` to `after`, the message still reads the
   same exactly if no byte under one of its views changed.
   */
  lemma StableUnderReuse(before: Memory, after: Memory, v: PutView)
    requires AllInBounds(v, before) && AllInBounds(v, after)
    ensures Resolve(after, v) == Resolve(before, v)
            <==> (&& SameUnder(before, after, v.key) && OptionalSameUnder(before, after, v.value)
                  && OptionalSameUnder(before, after, v.clientIdentity)
                  && OptionalSameUnder(before, after, v.partitionKey))
  {
    hide Content, SameUnder;
    ContentSame(before, after, v.key);
    if v.value.Some? { ContentSame(before, after, v.value.value); }
    if v.clientIdentity.Some? { ContentSame(before, after, v.clientIdentity.value); }
    if v.partitionKey.Some? { ContentSame(before, after, v.partitionKey.value); }
  }

  // ---------- A zero-copy receiver given to the copying parser ----------

  function Overwritten(b: Bytes, off: nat, p: Bytes): (r: Bytes)
    requires off + |p| <= |b|
    ensures |r| == |b| && r[off..off + |p|] == p
    ensures forall k :: 0 <= k < |b| ==> r[k] == if off <= k < off + |p| then p[k - off] else b[k]
  {
    b[..off] + p + b[off + |p|..]
  }

  /** The value is a view with room for `n` bytes up to the end of its buffer. */
  predicate HasRoom(mem: Memory, v: Option<View>, n: nat) {
    v.Some? && v.value.View? && v.value.buf in mem && v.value.off + n <= |mem[v.value.buf]|
  }

  /**
   `append(m.Value[:0], p...)`, as `UnmarshalVT` sets the value: it reuses the memory under the old value if there
   is room, and takes a new buffer, `spare`, otherwise.
   */
  function AppendInto(mem: Memory, v: Option<View>, p: Bytes, spare: nat): (r: (Memory, View))
    requires spare !in mem
  {
    if HasRoom(mem, v, |p|) then
      var w := v.value;
      (mem[w.buf := Overwritten(mem[w.buf], w.off, p)], View(w.buf, w.off, |p|))
    else (mem[spare := p], View(spare, 0, |p|))
  }

  /** The new value reads as `p`, and every view is still in bounds. */
  lemma AppendedReads(mem: Memory, v: Option<View>, p: Bytes, spare: nat)
    requires spare !in mem
    ensures var (mem', w) := AppendInto(mem, v, p, spare);
            InBounds(w, mem') && Content(mem', w) == p && forall u :: InBounds(u, mem) ==> InBounds(u, mem')
  {
  }

  /** No byte that `u` looks at is replaced by a different one when `p` is written at offset `off` of buffer `buf`. */
  ghost predicate Unharmed(mem: Memory, u: View, buf: nat, off: nat, p: Bytes)
    requires InBounds(u, mem)
  {
    u.View? && u.buf == buf ==>
      forall k :: u.off <= k < u.off + u.len && off <= k < off + |p| ==> mem[buf][k] == p[k - off]
  }

  lemma UnharmedIffSame(mem: Memory, v: Option<View>, p: Bytes, spare: nat, u: View)
    requires spare !in mem && HasRoom(mem, v, |p|) && InBounds(u, mem)
    ensures var (mem', w) := AppendInto(mem, v, p, spare);
            InBounds(u, mem') && (SameUnder(mem, mem', u) <==> Unharmed(mem, u, v.value.buf, v.value.off, p))
  {
  }

  ghost predicate OthersUnharmed(mem: Memory, v: PutView, p: Bytes)
    requires AllInBounds(v, mem)
  {
    HasRoom(mem, v.value, |p|) ==>
      var buf, off := v.value.value.buf, v.value.value.off;
      && Unharmed(mem, v.key, buf, off, p)
      && (v.clientIdentity.Some? ==> Unharmed(mem, v.clientIdentity.value, buf, off, p))
      && (v.partitionKey.Some? ==> Unharmed(mem, v.partitionKey.value, buf, off, p))
  }

  /**
   Setting the value by copying, in a receiver that the zero-copy parser filled, does what it does in any other
   receiver if and only if it does not write over a byte that another field looks at.
   */
  lemma CopyIntoViewsIff(mem: Memory, v: PutView, p: Bytes, spare: nat)
    requires AllInBounds(v, mem) && spare !in mem
    ensures var (mem', w) := AppendInto(mem, v.value, p, spare);
            && AllInBounds(v.(value := Some(w)), mem')
            && (Resolve(mem', v.(value := Some(w))) == Resolve(mem, v).(value := Some(p)) <==> OthersUnharmed(mem, v, p))
  {
    hide Content, InBounds, AppendInto, SameUnder, Unharmed, HasRoom;
    var (mem', w) := AppendInto(mem, v.value, p, spare);
    AppendedReads(mem, v.value, p, spare);
    KeptIff(mem, v, p, spare, v.key);
    if v.clientIdentity.Some? { KeptIff(mem, v, p, spare, v.clientIdentity.value); }
    if v.partitionKey.Some? { KeptIff(mem, v, p, spare, v.partitionKey.value); }
  }

  lemma KeptIff(mem: Memory, v: PutView, p: Bytes, spare: nat, u: View)
    requires AllInBounds(v, mem) && spare !in mem && InBounds(u, mem)
    ensures var (mem', w) := AppendInto(mem, v.value, p, spare);
            && InBounds(u, mem')
            && (Content(mem', u) == Content(mem, u) <==>
                (HasRoom(mem, v.value, |p|) ==> Unharmed(mem, u, v.value.value.buf, v.value.value.off, p)))
  {
    hide Content, SameUnder, Unharmed;
    var (mem', w) := AppendInto(mem, v.value, p, spare);
    if HasRoom(mem, v.value, |p|) {
      UnharmedIffSame(mem, v.value, p, spare, u);
      ContentSame(mem, mem', u);
    } else {
      ElsewhereSame(mem, u, p, spare);
    }
  }

  lemma ElsewhereSame(mem: Memory, u: View, p: Bytes, spare: nat)
    requires spare !in mem && InBounds(u, mem)
    ensures InBounds(u, mem[spare := p]) && Content(mem[spare := p], u) == Content(mem, u)
  {
  }

  /** It can do harm: a longer value runs over the client identity that follows the old one in the buffer. */
  lemma LongerValueOverwrites()
    ensures var mem: Memory := map[0 := [1, 2, 3]];
            var v := EMPTY_VIEW.(value := Some(View(0, 0, 1)), clientIdentity := Some(View(0, 2, 1)));
            AllInBounds(v, mem) && !OthersUnharmed(mem, v, [7, 8, 9])
  {
    var mem: Memory, p: Bytes := map[0 := [1, 2, 3]], [7, 8, 9];
    assert mem[0][2] != p[2];
  }
}

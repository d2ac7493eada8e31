/**
 The generated parsers as they run: an index moves through `dAtA` while the receiver is updated in
 place. The generated code repeats one template per message; here the outer loop is written once and
 dispatches to each message's own switch.
 */
module Unmarshal {
  import opened Prelude
  import opened Varint
  import opened Wire
  import opened Messages
  import opened Parser
  import opened Scan

  /** `spec` is `rest` with the elements `vs` and their `k` bytes in front. */
  ghost predicate InFront(spec: Option<(seq<Uint64>, nat)>, vs: seq<Uint64>, k: nat, rest: Option<(seq<Uint64>, nat)>) {
    spec == if rest.None? then None else Some((vs + rest.value.0, k + rest.value.1))
  }

  lemma ReadPackedStart(spec: Option<(seq<Uint64>, nat)>)
    ensures InFront(spec, [], 0, spec)
  {
    if spec.Some? { assert [] + spec.value.0 == spec.value.0; }
  }

  lemma ReadPackedStep(spec: Option<(seq<Uint64>, nat)>, dAtA: Bytes, i: nat, postIndex: nat, vs: seq<Uint64>, k: nat)
    requires i < postIndex <= |dAtA| && InFront(spec, vs, k, ReadPacked(dAtA[i..], postIndex - i))
    ensures ReadVarint(dAtA[i..]).None? ==> spec.None?
    ensures ReadVarint(dAtA[i..]).Some? ==>
              var (v, n) := ReadVarint(dAtA[i..]).value;
              InFront(spec, vs + [v], k + n, ReadPacked(dAtA[i + n..], postIndex - (i + n)))
  {
    hide ReadVarint, ReadPacked;
    ReadPackedUnfolds(dAtA[i..], postIndex - i);
    if ReadVarint(dAtA[i..]).Some? {
      var (v, n) := ReadVarint(dAtA[i..]).value;
      assert dAtA[i..][n..] == dAtA[i + n..];
      var rest := ReadPacked(dAtA[i + n..], postIndex - (i + n));
      if rest.Some? { assert vs + ([v] + rest.value.0) == vs + [v] + rest.value.0; }
    }
  }

  lemma ReadPackedUnfolds(s: Bytes, len: int)
    requires len > 0
    ensures ReadVarint(s).None? ==> ReadPacked(s, len).None?
    ensures ReadVarint(s).Some? ==>
              var (v, n) := ReadVarint(s).value;
              InFront(ReadPacked(s, len), [v], n, ReadPacked(s[n..], len - n))
  {
    hide ReadVarint;
  }

  lemma ReadPackedEnd(spec: Option<(seq<Uint64>, nat)>, s: Bytes, len: int, vs: seq<Uint64>, k: nat)
    requires len <= 0 && InFront(spec, vs, k, ReadPacked(s, len))
    ensures spec == Some((vs, k))
  {
    assert vs + [] == vs;
  }

  class Receiver {
    var m: Msg

    constructor (m: Msg)
      ensures this.m == m
    {
      this.m := m;
    }

    /** The inner loop over a packed field ending at `postIndex`. */
    static method PackedAt(dAtA: Bytes, start: nat, postIndex: nat) returns (vs: seq<Uint64>, i: nat, err: Option<Error>)
      requires start <= postIndex <= |dAtA|
      ensures start <= i <= |dAtA| && Agrees(err, ReadPacked(dAtA[start..], postIndex - start), (vs, i - start))
    {
      hide ReadVarint, ReadPacked, InFront, AllContinue;
      vs, i, err := [], start, None;
      ghost var spec := ReadPacked(dAtA[start..], postIndex - start);
      ReadPackedStart(spec);
      while i < postIndex
        invariant start <= i <= |dAtA| && err.None?
        invariant InFront(spec, vs, i - start, ReadPacked(dAtA[i..], postIndex - i))
        decreases |dAtA| - i
      {
        ReadPackedStep(spec, dAtA, i, postIndex, vs, i - start);
        var v;
        v, i, err := VarintAt(dAtA, i);
        if err.Some? { return; }
        vs := vs + [v];
      }
      ReadPackedEnd(spec, dAtA[i..], postIndex - i, vs, i - start);
    }

    method PutFieldAt(dAtA: Bytes, start: nat, t: Tag) returns (i: nat, err: Option<Error>)
      requires m.Put? && start <= |dAtA| <= MAX_BUFFER
      modifies this
      ensures m.Put? && start <= i <= |dAtA|
      ensures Agrees(err, PutField(old(m).put, t, dAtA[start..]), (m.put, i - start))
    {
      hide ReadVarint, ReadPayload, ReadPacked;
      i, err := start, None;
      var p := m.put;
      if t.field == 3 || t.field == 4 {
        if t.wireType != 0 { return i, Some(WrongWireType); }
        var v;
        v, i, err := VarintAt(dAtA, start);
        if err.Some? { return; }
        m := Put(if t.field == 3 then p.(expectedVersionId := Some(ToInt64(v))) else p.(sessionId := Some(ToInt64(v))));
      } else if t.field == 1 || t.field == 2 || t.field == 5 || t.field == 6 {
        if t.wireType != 2 { return i, Some(WrongWireType); }
        var from, to;
        from, to, err := PayloadAt(dAtA, start);
        if err.Some? { return; }
        var s := dAtA[from..to];
        m := Put(if t.field == 1 then p.(key := s)
                 else if t.field == 2 then p.(value := Some(s))
                 else if t.field == 5 then p.(clientIdentity := Some(s))
                 else p.(partitionKey := Some(s)));
        i := to;
      } else {
        i, err := DeltasAt(dAtA, start, t);
      }
    }

    method DeltasAt(dAtA: Bytes, start: nat, t: Tag) returns (i: nat, err: Option<Error>)
      requires m.Put? && start <= |dAtA| <= MAX_BUFFER && !(1 <= t.field <= 6)
      modifies this
      ensures m.Put? && start <= i <= |dAtA|
      ensures Agrees(err, PutField(old(m).put, t, dAtA[start..]), (m.put, i - start))
    {
      hide ReadVarint, ReadPayload, ReadPacked;
      i, err := start, None;
      var p := m.put;
      if t.field != 7 { return i, Some(IllegalTag); }
      if t.wireType == 0 {
        var v;
        v, i, err := VarintAt(dAtA, start);
        if err.Some? { return; }
        m := Put(p.(sequenceKeyDelta := p.sequenceKeyDelta + [v]));
      } else if t.wireType == 2 {
        var from, to, vs;
        from, to, err := PayloadAt(dAtA, start);
        if err.Some? { return; }
        assert dAtA[start..][from - start..] == dAtA[from..];
        vs, i, err := PackedAt(dAtA, from, to);
        if err.Some? { return; }
        m := Put(p.(sequenceKeyDelta := p.sequenceKeyDelta + vs));
      } else {
        err := Some(WrongWireType);
      }
    }

    method DeleteFieldAt(dAtA: Bytes, start: nat, t: Tag) returns (i: nat, err: Option<Error>)
      requires m.Delete? && start <= |dAtA| <= MAX_BUFFER
      modifies this
      ensures m.Delete? && start <= i <= |dAtA|
      ensures Agrees(err, DeleteField(old(m).delete, t, dAtA[start..]), (m.delete, i - start))
    {
      hide ReadVarint, ReadPayload;
      i, err := start, None;
      if t.field == 1 {
        if t.wireType != 2 { return i, Some(WrongWireType); }
        var from, to;
        from, to, err := PayloadAt(dAtA, start);
        if err.Some? { return; }
        m := Delete(m.delete.(key := dAtA[from..to]));
        i := to;
      } else if t.field == 2 {
        if t.wireType != 0 { return i, Some(WrongWireType); }
        var v;
        v, i, err := VarintAt(dAtA, start);
        if err.Some? { return; }
        m := Delete(m.delete.(expectedVersionId := Some(ToInt64(v))));
      } else {
        err := Some(IllegalTag);
      }
    }

    method DeleteRangeFieldAt(dAtA: Bytes, start: nat, t: Tag) returns (i: nat, err: Option<Error>)
      requires m.DeleteRange? && start <= |dAtA| <= MAX_BUFFER
      modifies this
      ensures m.DeleteRange? && start <= i <= |dAtA|
      ensures Agrees(err, DeleteRangeField(old(m).deleteRange, t, dAtA[start..]), (m.deleteRange, i - start))
    {
      hide ReadPayload;
      i, err := start, None;
      if t.field != 1 && t.field != 2 { return i, Some(IllegalTag); }
      if t.wireType != 2 { return i, Some(WrongWireType); }
      var from, to;
      from, to, err := PayloadAt(dAtA, start);
      if err.Some? { return; }
      var s := dAtA[from..to];
      m := DeleteRange(if t.field == 1 then m.deleteRange.(startInclusive := s)
                       else m.deleteRange.(endExclusive := s));
      i := to;
    }

    method VersionFieldAt(dAtA: Bytes, start: nat, t: Tag) returns (i: nat, err: Option<Error>)
      requires m.Ver? && start <= |dAtA| <= MAX_BUFFER
      modifies this
      ensures m.Ver? && start <= i <= |dAtA|
      ensures Agrees(err, VersionField(old(m).version, t, dAtA[start..]), (m.version, i - start))
    {
      hide ReadVarint, ReadPayload, ReadFixed64;
      i, err := start, None;
      var x := m.version;
      if t.field == 1 || t.field == 2 || t.field == 5 {
        if t.wireType != 0 { return i, Some(WrongWireType); }
        var v;
        v, i, err := VarintAt(dAtA, start);
        if err.Some? { return; }
        m := Ver(if t.field == 1 then x.(versionId := ToInt64(v))
                 else if t.field == 2 then x.(modificationsCount := ToInt64(v))
                 else x.(sessionId := Some(ToInt64(v))));
      } else if t.field == 3 || t.field == 4 {
        if t.wireType != 1 { return i, Some(WrongWireType); }
        var v;
        v, i, err := Fixed64At(dAtA, start);
        if err.Some? { return; }
        m := Ver(if t.field == 3 then x.(createdTimestamp := v) else x.(modifiedTimestamp := v));
      } else if t.field == 6 {
        if t.wireType != 2 { return i, Some(WrongWireType); }
        var from, to;
        from, to, err := PayloadAt(dAtA, start);
        if err.Some? { return; }
        m := Ver(x.(clientIdentity := Some(dAtA[from..to])));
        i := to;
      } else {
        err := Some(IllegalTag);
      }
    }

    method NotificationFieldAt(dAtA: Bytes, start: nat, t: Tag) returns (i: nat, err: Option<Error>)
      requires m.Notif? && start <= |dAtA| <= MAX_BUFFER
      modifies this
      ensures m.Notif? && start <= i <= |dAtA|
      ensures Agrees(err, NotificationField(old(m).notification, t, dAtA[start..]), (m.notification, i - start))
    {
      hide ReadVarint, ToInt32;
      i, err := start, None;
      if t.field != 1 && t.field != 2 { return i, Some(IllegalTag); }
      if t.wireType != 0 { return i, Some(WrongWireType); }
      var v;
      v, i, err := VarintAt(dAtA, start);
      if err.Some? { return; }
      m := Notif(if t.field == 1 then m.notification.(kind := ToInt32(v))
                 else m.notification.(versionId := Some(ToInt64(v))));
    }

    /** Each element is parsed into a fresh message of its own. */
    method WriteFieldAt(skip: Skipper, dAtA: Bytes, start: nat, t: Tag) returns (i: nat, err: Option<Error>)
      requires m.Write? && start <= |dAtA| <= MAX_BUFFER
      modifies this
      ensures m.Write? && start <= i <= |dAtA|
      ensures Agrees(err, WriteField(skip, old(m).write, t, dAtA[start..]), (m.write, i - start))
      decreases |dAtA| - start, 0
    {
      hide ReadVarint, ReadPayload, Parse;
      i, err := start, None;
      var w := m.write;
      if t.field == 1 {
        if t.wireType != 0 { return i, Some(WrongWireType); }
        var v;
        v, i, err := VarintAt(dAtA, start);
        if err.Some? { return; }
        m := Write(w.(shard := Some(ToInt64(v))));
      } else {
        if t.wireType != 2 { return i, Some(WrongWireType); }
        if !(2 <= t.field <= 4) { return i, Some(IllegalTag); }
        var from, to;
        from, to, err := PayloadAt(dAtA, start);
        if err.Some? { return; }
        var sub := new Receiver(if t.field == 2 then Put(EMPTY_PUT)
                                else if t.field == 3 then Delete(EMPTY_DELETE)
                                else DeleteRange(EMPTY_DELETE_RANGE));
        err := sub.UnmarshalVT(skip, dAtA[from..to]);
        if err.Some? { return; }
        m := Write(if t.field == 2 then w.(puts := w.puts + [Some(sub.m.put)])
                   else if t.field == 3 then w.(deletes := w.deletes + [Some(sub.m.delete)])
                   else w.(deleteRanges := w.deleteRanges + [Some(sub.m.deleteRange)]));
        i := to;
      }
    }

    /** A version record is parsed into the version already there, if any. */
    method PutResponseFieldAt(skip: Skipper, dAtA: Bytes, start: nat, t: Tag) returns (i: nat, err: Option<Error>)
      requires m.PutResp? && start <= |dAtA| <= MAX_BUFFER
      modifies this
      ensures m.PutResp? && start <= i <= |dAtA|
      ensures Agrees(err, PutResponseField(skip, old(m).putResponse, t, dAtA[start..]), (m.putResponse, i - start))
      decreases |dAtA| - start, 0
    {
      hide ReadVarint, ReadPayload, ToInt32, Parse;
      i, err := start, None;
      var r := m.putResponse;
      if t.field == 1 {
        if t.wireType != 0 { return i, Some(WrongWireType); }
        var v;
        v, i, err := VarintAt(dAtA, start);
        if err.Some? { return; }
        m := PutResp(r.(status := ToInt32(v)));
      } else {
        if t.wireType != 2 { return i, Some(WrongWireType); }
        if t.field != 2 && t.field != 3 { return i, Some(IllegalTag); }
        var from, to;
        from, to, err := PayloadAt(dAtA, start);
        if err.Some? { return; }
        if t.field == 2 {
          var sub := new Receiver(Ver(OrElse(r.version, EMPTY_VERSION)));
          err := sub.UnmarshalVT(skip, dAtA[from..to]);
          if err.Some? { return; }
          m := PutResp(r.(version := Some(sub.m.version)));
        } else {
          m := PutResp(r.(key := Some(dAtA[from..to])));
        }
        i := to;
      }
    }

    /** One iteration of the loop over a map entry that ends at `postIndex`. */
    static method EntryStepAt(skip: Skipper, dAtA: Bytes, start: nat, postIndex: nat, k0: Bytes,
                              v0: Option<Notification>)
      returns (k: Bytes, v: Option<Notification>, i: nat, err: Option<Error>)
      requires start < postIndex <= |dAtA| <= MAX_BUFFER
      ensures start <= i <= |dAtA|
      ensures Agrees(err, EntryStep(skip, dAtA[start..], postIndex - start, k0, v0), (k, v, i - start))
      decreases |dAtA| - start, 0
    {
      hide ReadVarint, ReadPayload, ToInt32, Parse, AllContinue;
      k, v, i, err := k0, v0, start, None;
      var wire, j;
      wire, j, err := VarintAt(dAtA, start);
      if err.Some? { return; }
      var fieldNum := ToInt32(wire / 8);
      assert dAtA[start..][j - start..] == dAtA[j..];
      if fieldNum == 1 || fieldNum == 2 {
        var from, to;
        from, to, err := PayloadAt(dAtA, j);
        if err.Some? { return; }
        if fieldNum == 1 {
          k := dAtA[from..to];
        } else {
          var sub := new Receiver(Notif(EMPTY_NOTIFICATION));
          err := sub.UnmarshalVT(skip, dAtA[from..to]);
          if err.Some? { return; }
          v := Some(sub.m.notification);
        }
        i := to;
      } else {
        var n;
        n, err := SkipAt(skip, dAtA, start);
        if err.Some? { return; }
        if start + n > postIndex { return k, v, i, Some(UnexpectedEOF); }
        i := start + n;
      }
    }

    /** The loop over a map entry; it may leave the index past `postIndex`. */
    static method EntryAt(skip: Skipper, dAtA: Bytes, start: nat, postIndex: nat)
      returns (k: Bytes, v: Option<Notification>, err: Option<Error>)
      requires start <= postIndex <= |dAtA| <= MAX_BUFFER
      ensures Agrees(err, ReadEntry(skip, dAtA[start..], postIndex - start, [], None), (k, v))
      decreases |dAtA| - start, 1
    {
      hide EntryStep;
      k, v, err := [], None, None;
      var i := start;
      while i < postIndex
        invariant start <= i <= |dAtA| && err.None?
        invariant ReadEntry(skip, dAtA[start..], postIndex - start, [], None)
                  == ReadEntry(skip, dAtA[i..], postIndex - i, k, v)
        decreases |dAtA| - i
      {
        ghost var i0 := i;
        k, v, i, err := EntryStepAt(skip, dAtA, i, postIndex, k, v);
        if err.Some? { return; }
        assert dAtA[i0..][i - i0..] == dAtA[i..];
      }
    }

    /** After a map entry the index is set to the announced end, wherever the entry loop stopped. */
    method BatchFieldAt(skip: Skipper, dAtA: Bytes, start: nat, t: Tag) returns (i: nat, err: Option<Error>)
      requires m.Batch? && start <= |dAtA| <= MAX_BUFFER
      modifies this
      ensures m.Batch? && start <= i <= |dAtA|
      ensures Agrees(err, BatchField(skip, old(m).batch, t, dAtA[start..]), (m.batch, i - start))
      decreases |dAtA| - start, 2
    {
      hide ReadVarint, ReadPayload, ReadFixed64, ReadEntry;
      i, err := start, None;
      var b := m.batch;
      if t.field == 1 || t.field == 2 {
        if t.wireType != 0 { return i, Some(WrongWireType); }
        var v;
        v, i, err := VarintAt(dAtA, start);
        if err.Some? { return; }
        m := Batch(if t.field == 1 then b.(shard := ToInt64(v)) else b.(offset := ToInt64(v)));
      } else if t.field == 3 {
        if t.wireType != 1 { return i, Some(WrongWireType); }
        var v;
        v, i, err := Fixed64At(dAtA, start);
        if err.Some? { return; }
        m := Batch(b.(timestamp := v));
      } else if t.field == 4 {
        if t.wireType != 2 { return i, Some(WrongWireType); }
        var from, to, k, v;
        from, to, err := PayloadAt(dAtA, start);
        if err.Some? { return; }
        assert dAtA[start..][from - start..] == dAtA[from..];
        k, v, err := EntryAt(skip, dAtA, from, to);
        if err.Some? { return; }
        m := Batch(b.(notifications := b.notifications[k := v]));
        i := to;
      } else {
        err := Some(IllegalTag);
      }
    }

    /** The switch on the field number, for a declared field. */
    method FieldAt(skip: Skipper, dAtA: Bytes, start: nat, t: Tag) returns (i: nat, err: Option<Error>)
      requires start <= |dAtA| <= MAX_BUFFER
      modifies this
      ensures start <= i <= |dAtA| && SameKind(old(m), m)
      ensures Agrees(err, Field(skip, old(m), t, dAtA[start..]), (m, i - start))
      decreases |dAtA| - start, 3
    {
      hide PutField, DeleteField, DeleteRangeField, WriteField, VersionField, PutResponseField,
           NotificationField, BatchField;
      match m
      case Put(_) => i, err := PutFieldAt(dAtA, start, t);
      case Delete(_) => i, err := DeleteFieldAt(dAtA, start, t);
      case DeleteRange(_) => i, err := DeleteRangeFieldAt(dAtA, start, t);
      case Write(_) => i, err := WriteFieldAt(skip, dAtA, start, t);
      case Ver(_) => i, err := VersionFieldAt(dAtA, start, t);
      case PutResp(_) => i, err := PutResponseFieldAt(skip, dAtA, start, t);
      case Notif(_) => i, err := NotificationFieldAt(dAtA, start, t);
      case Batch(_) => i, err := BatchFieldAt(skip, dAtA, start, t);
    }

    /** One iteration of the outer loop. It advances whenever it succeeds. */
    method StepAt(skip: Skipper, dAtA: Bytes, start: nat) returns (i: nat, err: Option<Error>)
      requires start < |dAtA| <= MAX_BUFFER
      modifies this
      ensures start <= i <= |dAtA| && SameKind(old(m), m)
      ensures Agrees(err, Step(skip, old(m), dAtA[start..]), (m, i - start))
      decreases |dAtA| - start, 4
    {
      hide ReadHeader, Field, SkipRecord;
      i := start;
      var t;
      t, err := HeaderAt(dAtA, start);
      if err.Some? { return; }
      if t.field <= LastField(m) {
        i, err := FieldAt(skip, dAtA, start + t.size, t);
        assert dAtA[start..][t.size..] == dAtA[start + t.size..];
      } else {
        var n;
        n, err := SkipAt(skip, dAtA, start);
        if err.Some? { return; }
        assert dAtA[start..][..n] == dAtA[start..start + n];
        m := WithUnknown(m, Unknown(m) + dAtA[start..start + n]);
        i := start + n;
      }
    }

    /**
     Total on every byte string: it stays in bounds, ends, fails exactly when the specification does, and
     otherwise leaves the receiver with the specified value.
     */
    method UnmarshalVT(skip: Skipper, dAtA: Bytes) returns (err: Option<Error>)
      requires |dAtA| <= MAX_BUFFER
      modifies this
      ensures SameKind(old(m), m)
      ensures Agrees(err, Parse(skip, old(m), dAtA), m)
      decreases |dAtA|, 5
    {
      hide Step;
      err := None;
      var iNdEx := 0;
      assert dAtA[0..] == dAtA;
      while iNdEx < |dAtA|
        invariant 0 <= iNdEx <= |dAtA| && err.None? && SameKind(old(m), m)
        invariant Parse(skip, old(m), dAtA) == Parse(skip, m, dAtA[iNdEx..])
        decreases |dAtA| - iNdEx
      {
        ghost var i0 := iNdEx;
        iNdEx, err := StepAt(skip, dAtA, iNdEx);
        if err.Some? { return; }
        assert dAtA[i0..][iNdEx - i0..] == dAtA[iNdEx..];
      }
    }
  }
}

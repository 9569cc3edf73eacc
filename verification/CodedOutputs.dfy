/** Where the serializers write: a growing stream, or an array in place behind a moving target. Both
    append the same records; the contracts of the two forms have the same shape. */
module CodedOutputs {
  import opened Options
  import opened Wire
  import opened MessageLoop
  import opened Messages

  lemma EncodeSnoc(rs: seq<Record>, r: Record)
    ensures EncodeRecords(rs + [r]) == EncodeRecords(rs) + EncodeRecord(r)
  {
    EncodeConcat(rs, [r]);
    assert [r][1..] == [] && EncodeRecords([r]) == EncodeRecord(r) + [];
  }

  /** A field that is written only when it is set. */
  lemma AppendWhen(before: Bytes, c: bool, r: Record)
    ensures before + EncodeRecords(When(c, r)) == if c then before + EncodeRecord(r) else before
  {
    if c {
      assert [r][1..] == [] && EncodeRecords([r]) == EncodeRecord(r) + [];
    }
  }

  /** A sub-message is its tag, its length and its bytes. */
  lemma SubMessageBytes(before: Bytes, tag: UInt32, b: Bytes)
    ensures before + EncodeRecords([Record(tag, Delimited(b))]) == before + (EncodeVarint(tag) + EncodeVarint(|b|)) + b
  {
    hide EncodeVarint;
    var r := Record(tag, Delimited(b));
    assert [r][1..] == [] && EncodeRecords([r]) == EncodeRecord(r) + [] == EncodeRecord(r);
    assert EncodeRecord(r) == (EncodeVarint(tag) + EncodeVarint(|b|)) + b;
  }

  lemma AppendTwo(before: Bytes, a: Bytes, b: Bytes)
    ensures before + a + b == before + (a + b)
  {
  }

  lemma AppendThree(before: Bytes, a: Bytes, b: Bytes, c: Bytes)
    ensures before + a + b + c == before + (a + b + c)
  {
  }

  lemma {:induction false} MapRecordsSnoc<V>(
    tag: UInt32, valueTag: UInt32, enc: V -> Value, m: map<Bytes, V>, order: seq<Bytes>, k: Bytes)
    requires (forall x :: x in order ==> x in m) && k in m
    ensures MapRecords(tag, valueTag, enc, m, order + [k])
         == MapRecords(tag, valueTag, enc, m, order) + [EntryRecord(tag, valueTag, k, enc(m[k]))]
    decreases order
  {
    var whole := order + [k];
    if order == [] {
      assert whole[1..] == [];
    } else {
      assert whole[1..] == order[1..] + [k];
      MapRecordsSnoc(tag, valueTag, enc, m, order[1..], k);
    }
  }

  lemma NoMapBytes<V>(tag: UInt32, valueTag: UInt32, enc: V -> Value, m: map<Bytes, V>, order: seq<Bytes>)
    requires forall x :: x in order ==> x in m
    ensures EncodeRecords(MapRecords(tag, valueTag, enc, m, order[..0])) == []
  {
  }

  /** A map field written up to one more key. */
  lemma MapBytesStep<V>(
    tag: UInt32, valueTag: UInt32, enc: V -> Value, m: map<Bytes, V>, order: seq<Bytes>, i: nat)
    requires (forall x :: x in order ==> x in m) && i < |order|
    ensures EncodeRecords(MapRecords(tag, valueTag, enc, m, order[..i + 1]))
         == EncodeRecords(MapRecords(tag, valueTag, enc, m, order[..i]))
          + EncodeRecord(EntryRecord(tag, valueTag, order[i], enc(m[order[i]])))
  {
    assert order[..i + 1] == order[..i] + [order[i]];
    MapRecordsSnoc(tag, valueTag, enc, m, order[..i], order[i]);
    EncodeSnoc(MapRecords(tag, valueTag, enc, m, order[..i]), EntryRecord(tag, valueTag, order[i], enc(m[order[i]])));
  }

  lemma {:induction false} MapPrefixFits<V>(
    tag: UInt32, valueTag: UInt32, enc: V -> Value, m: map<Bytes, V>, order: seq<Bytes>, i: nat)
    requires (forall x :: x in order ==> x in m) && i <= |order|
    ensures |EncodeRecords(MapRecords(tag, valueTag, enc, m, order[..i]))|
         <= |EncodeRecords(MapRecords(tag, valueTag, enc, m, order))|
    decreases |order| - i
  {
    if i < |order| {
      MapPrefixFits(tag, valueTag, enc, m, order, i + 1);
      MapBytesStep(tag, valueTag, enc, m, order, i);
    } else {
      assert order[..i] == order;
    }
  }

  // ----- the stream

  class CodedOutputStream {
    var bytes: Bytes
    const deterministic: bool

    constructor (deterministic: bool)
      ensures bytes == [] && this.deterministic == deterministic
    {
      bytes := [];
      this.deterministic := deterministic;
    }

    method WriteRecord(r: Record)
      modifies this`bytes
      ensures bytes == old(bytes) + EncodeRecord(r)
    {
      bytes := bytes + EncodeVarint(r.tag);
      bytes := bytes + EncodeValue(r.value);
      assert bytes == old(bytes) + (EncodeVarint(r.tag) + EncodeValue(r.value));
    }

    /** A field that is written only when it is set. */
    method WriteWhen(c: bool, r: Record)
      modifies this`bytes
      ensures bytes == old(bytes) + EncodeRecords(When(c, r))
    {
      hide EncodeRecords, EncodeRecord;
      AppendWhen(bytes, c, r);
      if c {
        WriteRecord(r);
      }
    }

    /** The tag of a sub-message and the length it has cached. */
    method WriteHeader(tag: UInt32, size: nat)
      modifies this`bytes
      ensures bytes == old(bytes) + (EncodeVarint(tag) + EncodeVarint(size))
    {
      bytes := bytes + EncodeVarint(tag);
      bytes := bytes + EncodeVarint(size);
      assert bytes == old(bytes) + (EncodeVarint(tag) + EncodeVarint(size));
    }

    method WriteMap<V>(tag: UInt32, valueTag: UInt32, enc: V -> Value, m: map<Bytes, V>, order: seq<Bytes>)
      requires forall k :: k in order ==> k in m
      modifies this`bytes
      ensures bytes == old(bytes) + EncodeRecords(MapRecords(tag, valueTag, enc, m, order))
    {
      hide EncodeRecords, EncodeRecord, MapRecords;
      NoMapBytes(tag, valueTag, enc, m, order);
      var i := 0;
      while i < |order|
        invariant i <= |order|
        invariant bytes == old(bytes) + EncodeRecords(MapRecords(tag, valueTag, enc, m, order[..i]))
      {
        MapBytesStep(tag, valueTag, enc, m, order, i);
        WriteRecord(EntryRecord(tag, valueTag, order[i], enc(m[order[i]])));
        i := i + 1;
      }
      assert order[..i] == order;
    }
  }

  // ----- the array

  /** What a write to an array does: it fills from `target` to `end` and touches nothing else. */
  twostate predicate Filled(a: array<Byte>, target: nat, end: nat, bytes: Bytes)
    requires target <= a.Length
    reads a
  {
    && end == target + |bytes| <= a.Length
    && a[..end] == old(a[..target]) + bytes
    && (forall i :: end <= i < a.Length ==> a[i] == old(a[i]))
  }

  method WriteBytesToArray(bytes: Bytes, a: array<Byte>, target: nat) returns (end: nat)
    requires target + |bytes| <= a.Length
    modifies a
    ensures Filled(a, target, end, bytes)
  {
    end := target;
    while end < target + |bytes|
      invariant target <= end <= target + |bytes|
      invariant a[..end] == old(a[..target]) + bytes[..end - target]
      invariant forall i :: end <= i < a.Length ==> a[i] == old(a[i])
    {
      a[end] := bytes[end - target];
      end := end + 1;
    }
    assert bytes[..end - target] == bytes;
  }

  method WriteRecordToArray(r: Record, a: array<Byte>, target: nat) returns (end: nat)
    requires target + |EncodeRecord(r)| <= a.Length
    modifies a
    ensures Filled(a, target, end, EncodeRecord(r))
  {
    hide EncodeVarint, EncodeValue;
    var middle := WriteBytesToArray(EncodeVarint(r.tag), a, target);
    end := WriteBytesToArray(EncodeValue(r.value), a, middle);
    assert a[..end] == old(a[..target]) + (EncodeVarint(r.tag) + EncodeValue(r.value));
  }

  method WriteWhenToArray(c: bool, r: Record, a: array<Byte>, target: nat) returns (end: nat)
    requires target + |EncodeRecords(When(c, r))| <= a.Length
    modifies a
    ensures Filled(a, target, end, EncodeRecords(When(c, r)))
  {
    hide EncodeRecords, EncodeRecord;
    AppendWhen([], c, r);
    AppendWhen(a[..target], c, r);
    end := target;
    if c {
      end := WriteRecordToArray(r, a, target);
    }
  }

  method WriteHeaderToArray(tag: UInt32, size: nat, a: array<Byte>, target: nat) returns (end: nat)
    requires target + |EncodeVarint(tag)| + |EncodeVarint(size)| <= a.Length
    modifies a
    ensures Filled(a, target, end, EncodeVarint(tag) + EncodeVarint(size))
  {
    hide EncodeVarint, EncodeValue;
    var middle := WriteBytesToArray(EncodeVarint(tag), a, target);
    end := WriteBytesToArray(EncodeVarint(size), a, middle);
    assert a[..end] == old(a[..target]) + (EncodeVarint(tag) + EncodeVarint(size));
  }

  method WriteMapToArray<V>(tag: UInt32, valueTag: UInt32, enc: V -> Value, m: map<Bytes, V>, order: seq<Bytes>,
                            a: array<Byte>, target: nat) returns (end: nat)
    requires forall k :: k in order ==> k in m
    requires target + |EncodeRecords(MapRecords(tag, valueTag, enc, m, order))| <= a.Length
    modifies a
    ensures Filled(a, target, end, EncodeRecords(MapRecords(tag, valueTag, enc, m, order)))
  {
    hide EncodeRecords, EncodeRecord, MapRecords;
    NoMapBytes(tag, valueTag, enc, m, order);
    end := target;
    var i := 0;
    while i < |order|
      invariant i <= |order|
      invariant Filled(a, target, end, EncodeRecords(MapRecords(tag, valueTag, enc, m, order[..i])))
    {
      MapBytesStep(tag, valueTag, enc, m, order, i);
      MapPrefixFits(tag, valueTag, enc, m, order, i + 1);
      end := WriteRecordToArray(EntryRecord(tag, valueTag, order[i], enc(m[order[i]])), a, end);
      i := i + 1;
    }
    assert order[..i] == order;
  }
}

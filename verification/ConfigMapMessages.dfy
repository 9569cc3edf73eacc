/** rpc::ConfigMap as the generated class holds it: four map fields and a parser whose jumps lead from one
    map's entries into the next map's. */
module ConfigMapMessages {
  import opened Options
  import opened Wire
  import opened MessageLoop
  import opened Messages
  import opened CodedStreams
  import opened CodedOutputs
  import opened Sizes
  import opened Canonical

  lemma AppendFour(before: Bytes, a: Bytes, b: Bytes, c: Bytes, d: Bytes)
    ensures before + (a + b + c + d) == before + a + b + c + d
  {
  }

  /** The order in which one map is written. */
  function Walk(deterministic: bool, order: seq<Bytes>): seq<Bytes> {
    if deterministic then Canon(order) else order
  }

  lemma WalkEnumerates<V>(deterministic: bool, order: seq<Bytes>, m: map<Bytes, V>)
    requires Enumerates(order, m)
    ensures Enumerates(Walk(deterministic, order), m)
  {
    CanonIsTheAscendingOrder(order, m);
  }

  /** Writing map by map gives the bytes of the whole, behind whatever was written before. */
  lemma ConfigAppended(before: Bytes, c: ConfigMap, d: bool, o: ConfigOrder)
    requires ConfigOrdered(o, c)
    ensures Enumerates(Walk(d, o.ints), c.ints) && Enumerates(Walk(d, o.strings), c.strings)
    ensures Enumerates(Walk(d, o.floats), c.floats) && Enumerates(Walk(d, o.bools), c.bools)
    ensures before + WriteConfig(c, d, o)
         == before + EncodeRecords(MapRecords(10, INT_VALUE, IntValue, c.ints, Walk(d, o.ints)))
                   + EncodeRecords(MapRecords(18, STRING_VALUE, StringValue, c.strings, Walk(d, o.strings)))
                   + EncodeRecords(MapRecords(26, DOUBLE_VALUE, DoubleValue, c.floats, Walk(d, o.floats)))
                   + EncodeRecords(MapRecords(34, BOOL_VALUE, BoolValue, c.bools, Walk(d, o.bools)))
  {
    hide EncodeRecords, MapRecords, Canon;
    WalkEnumerates(d, o.ints, c.ints);
    WalkEnumerates(d, o.strings, c.strings);
    WalkEnumerates(d, o.floats, c.floats);
    WalkEnumerates(d, o.bools, c.bools);
    var r1 := MapRecords(10, INT_VALUE, IntValue, c.ints, Walk(d, o.ints));
    var r2 := MapRecords(18, STRING_VALUE, StringValue, c.strings, Walk(d, o.strings));
    var r3 := MapRecords(26, DOUBLE_VALUE, DoubleValue, c.floats, Walk(d, o.floats));
    var r4 := MapRecords(34, BOOL_VALUE, BoolValue, c.bools, Walk(d, o.bools));
    assert WriteConfig(c, d, o) == EncodeRecords(r1 + r2 + r3 + r4) by {
      if d {
        CanonConfigOrders(c, o);
        assert ConfigRecords(c, CanonConfig(o)) == r1 + r2 + r3 + r4;
      } else {
        assert ConfigRecords(c, o) == r1 + r2 + r3 + r4;
      }
    }
    EncodeFour(r1, r2, r3, r4);
    AppendFour(before, EncodeRecords(r1), EncodeRecords(r2), EncodeRecords(r3), EncodeRecords(r4));
  }

  lemma WalkedKeys(c: ConfigMap, d: bool, o: ConfigOrder)
    requires ConfigOrdered(o, c)
    ensures (forall k :: k in Walk(d, o.ints) ==> k in c.ints)
        && (forall k :: k in Walk(d, o.strings) ==> k in c.strings)
    ensures (forall k :: k in Walk(d, o.floats) ==> k in c.floats)
        && (forall k :: k in Walk(d, o.bools) ==> k in c.bools)
  {
    WalkEnumerates(d, o.ints, c.ints);
    WalkEnumerates(d, o.strings, c.strings);
    WalkEnumerates(d, o.floats, c.floats);
    WalkEnumerates(d, o.bools, c.bools);
  }

  class ConfigMapMessage {
    var ints: map<Bytes, Int64>
    var strings: map<Bytes, Bytes>
    var floats: map<Bytes, UInt64>
    var bools: map<Bytes, bool>
    var cachedSize: nat

    function Value(): ConfigMap
      reads this`ints, this`strings, this`floats, this`bools
    {
      ConfigMap(ints, strings, floats, bools)
    }

    constructor ()
      ensures Value() == NO_CONFIG
    {
      ints, strings, floats, bools, cachedSize := map[], map[], map[], map[], 0;
    }

    /** The bodies under the case labels: the entry goes into its map first, its text is checked afterwards. */
    method ParseField(tag: UInt32, input: CodedInputStream) returns (ok: bool)
      requires input.Valid() && tag in {10, 18, 26, 34}
      modifies this`ints, this`strings, this`floats, this`bools, input`position
      ensures input.Valid() && input.position >= old(input.position)
      ensures ok ==> input.position > old(input.position)
      ensures FieldRead(ApplyConfig, tag, old(Value()), old(input.Rest()), ok, Value(), input.Rest())
    {
      hide Utf8, ReadEntry;
      var v := input.ReadField(tag);
      if v == None {
        return false;
      }
      var b := AsBytes(v.value);
      if tag == 10 {
        var e := ReadEntry(INT_VALUE, Varint(0), b);
        if e == None {
          return false;
        }
        ints := ints[e.value.key := ToInt64(AsVarint(e.value.value))];
        ok := Utf8(e.value.key);
      } else if tag == 18 {
        var e := ReadEntry(STRING_VALUE, Delimited([]), b);
        if e == None {
          return false;
        }
        strings := strings[e.value.key := AsBytes(e.value.value)];
        ok := Utf8(e.value.key) && Utf8(AsBytes(e.value.value));
      } else if tag == 26 {
        var e := ReadEntry(DOUBLE_VALUE, Fixed64(0), b);
        if e == None {
          return false;
        }
        floats := floats[e.value.key := AsFixed64(e.value.value)];
        ok := Utf8(e.value.key);
      } else {
        var e := ReadEntry(BOOL_VALUE, Varint(0), b);
        if e == None {
          return false;
        }
        bools := bools[e.value.key := AsVarint(e.value.value) != 0];
        ok := Utf8(e.value.key);
      }
    }

    /** What follows a field's body: the next field if its tag is there, the top of the loop if not, or the
        end of the message. */
    method NextField(tag: UInt32, input: CodedInputStream) returns (next: UInt32, end: bool)
      requires input.Valid() && tag in {10, 18, 26, 34}
      modifies input`position, input`legitimateEnd
      ensures input.Valid() && input.position >= old(input.position)
      ensures next in {0, 10, 18, 26, 34}
      ensures Resumes(Parse(ApplyConfig, Value(), old(input.Rest())), ApplyConfig, Value(), next, input.Rest())
      ensures end ==> Answers(Parse(ApplyConfig, Value(), old(input.Rest())), true, Value(), input.legitimateEnd, [])
      ensures end ==> input.Rest() == []
    {
      hide Parse, MessageLoop.ParseField, EncodeVarint;
      next, end := 0, false;
      var found := input.ExpectTag(tag);
      if found {
        next := tag;
      } else if tag < 34 {
        found := input.ExpectTag(tag + 8);
        if found {
          next := tag + 8;
        }
      } else {
        end := input.ExpectAtEnd();
        AtEnd(ApplyConfig, Value());
      }
      if found {
        ExpectedTag(ApplyConfig, Value(), next, input.Rest());
      }
    }

    method MergePartialFromCodedStream(input: CodedInputStream) returns (ok: bool)
      requires input.Valid()
      modifies this`ints, this`strings, this`floats, this`bools, input`position, input`legitimateEnd
      ensures input.Valid() && input.position >= old(input.position)
      ensures Answers(Parse(ApplyConfig, old(Value()), old(input.Rest())), ok, Value(), input.legitimateEnd,
          input.Rest())
    {
      hide Parse, MessageLoop.ParseField, ReadValue, ReadTag, EncodeVarint, FieldRead;
      ghost var whole := Parse(ApplyConfig, Value(), input.Rest());
      var next: UInt32 := 0;
      while true
        invariant input.Valid() && input.position >= old(input.position)
        invariant next in {0, 10, 18, 26, 34} && Resumes(whole, ApplyConfig, Value(), next, input.Rest())
        decreases input.limit - input.position
      {
        var tag, known := next, true;
        if next == 0 {
          ghost var b := input.Rest();
          tag, known := input.ReadTagWithCutoff(127);
          TagStep(ApplyConfig, Value(), b, tag, input.Rest());
        }
        next := 0;
        if known && tag in {10, 18, 26, 34} {
          ghost var m, b := Value(), input.Rest();
          ok := ParseField(tag, input);
          FieldStep(whole, ApplyConfig, tag, m, b, ok, Value(), input.Rest());
          if !ok {
            return;
          }
          var end: bool;
          next, end := NextField(tag, input);
          if end {
            return;
          }
        } else if tag == 0 || tag % 8 == END_GROUP {
          return true;
        } else {
          SkipStep(ApplyConfig, Value(), tag, input.Rest());
          var skipped := input.ReadField(tag);
          if skipped == None {
            return false;
          }
        }
      }
    }

    /** ReadMessageNoVirtual: the length, the message inside it, and nothing left over. */
    method ReadMessage(input: CodedInputStream) returns (ok: bool)
      requires input.Valid()
      modifies this`ints, this`strings, this`floats, this`bools, input`position, input`limit, input`legitimateEnd
      ensures input.Valid() && input.position >= old(input.position)
      ensures ok ==> input.limit == old(input.limit) && input.position > old(input.position)
      ensures MessageRead(ApplyConfig, old(Value()), old(input.Rest()), ok, Value(), input.Rest())
    {
      hide Parse, ReadDelimited;
      var outer := input.PushLimit();
      if outer == None {
        return false;
      }
      ok := MergePartialFromCodedStream(input);
      if ok {
        ok := input.PopLimit(outer.value);
      }
    }

    /** `o` is the order in which the hash maps happen to iterate. */
    method SerializeWithCachedSizes(output: CodedOutputStream, o: ConfigOrder)
      requires ConfigOrdered(o, Value())
      modifies output`bytes
      ensures output.bytes == old(output.bytes) + WriteConfig(Value(), output.deterministic, o)
    {
      hide EncodeRecords, MapRecords, Enumerates, WriteConfig;
      var d := output.deterministic;
      ConfigAppended(output.bytes, Value(), d, o);
      WalkedKeys(Value(), d, o);
      output.WriteMap(10, INT_VALUE, IntValue, ints, Walk(d, o.ints));
      output.WriteMap(18, STRING_VALUE, StringValue, strings, Walk(d, o.strings));
      output.WriteMap(26, DOUBLE_VALUE, DoubleValue, floats, Walk(d, o.floats));
      output.WriteMap(34, BOOL_VALUE, BoolValue, bools, Walk(d, o.bools));
    }

    method InternalSerializeWithCachedSizesToArray(d: bool, o: ConfigOrder, a: array<Byte>,
        target: nat) returns (end: nat)
      requires ConfigOrdered(o, Value())
      requires target + |WriteConfig(Value(), d, o)| <= a.Length
      modifies a
      ensures Filled(a, target, end, WriteConfig(Value(), d, o))
    {
      hide EncodeRecords, MapRecords, Enumerates, WriteConfig;
      ConfigAppended(a[..target], Value(), d, o);
      WalkedKeys(Value(), d, o);
      end := WriteMapToArray(10, INT_VALUE, IntValue, ints, Walk(d, o.ints), a, target);
      end := WriteMapToArray(18, STRING_VALUE, StringValue, strings, Walk(d, o.strings), a, end);
      end := WriteMapToArray(26, DOUBLE_VALUE, DoubleValue, floats, Walk(d, o.floats), a, end);
      end := WriteMapToArray(34, BOOL_VALUE, BoolValue, bools, Walk(d, o.bools), a, end);
    }

    method ByteSize(o: ConfigOrder) returns (size: nat)
      requires ConfigOrdered(o, Value())
      modifies this`cachedSize
      ensures cachedSize == size == ConfigSize(Value(), o)
    {
      hide MapSize, Enumerates;
      size := MapByteSize(Int64Size, ints, o.ints);
      var more := MapByteSize(BytesSize, strings, o.strings);
      size := size + more;
      more := MapByteSize(DoubleSize, floats, o.floats);
      size := size + more;
      more := MapByteSize(BoolSize, bools, o.bools);
      size := size + more;
      cachedSize := size;
    }

    method MergeFrom(from: ConfigMapMessage)
      modifies this`ints, this`strings, this`floats, this`bools
      ensures Value() == MergeConfig(old(Value()), old(from.Value()))
    {
      ints, strings := ints + from.ints, strings + from.strings;
      floats, bools := floats + from.floats, bools + from.bools;
    }
  }
}

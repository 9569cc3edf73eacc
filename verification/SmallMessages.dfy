/** The leaf messages as the generated classes hold them: mutable fields, and a parser that jumps from one
    field straight into the next. */
module SmallMessages {
  import opened Options
  import opened Wire
  import opened MessageLoop
  import opened Messages
  import opened CodedStreams
  import opened CodedOutputs
  import opened Sizes

  /** Writing field by field gives the bytes of the whole, behind whatever was written before. */
  lemma TimeAppended(before: Bytes, t: Time)
    ensures before + EncodeRecords(TimeRecords(t))
         == before + EncodeRecords(When(t.sec != 0, Record(8, Varint(FromInt64(t.sec)))))
                   + EncodeRecords(When(t.nsec != 0, Record(16, Varint(FromInt64(t.nsec)))))
  {
    hide EncodeRecords, When;
    var a, b := When(t.sec != 0, Record(8, Varint(FromInt64(t.sec)))),
        When(t.nsec != 0, Record(16, Varint(FromInt64(t.nsec))));
    EncodeConcat(a, b);
    AppendTwo(before, EncodeRecords(a), EncodeRecords(b));
  }

  lemma ElementAppended(before: Bytes, e: NamespaceElement)
    ensures before + EncodeRecords(ElementRecords(e))
         == before + EncodeRecords(When(e.value != [], Record(10, Delimited(e.value))))
                   + EncodeRecords(When(e.description != [], Record(18, Delimited(e.description))))
                   + EncodeRecords(When(e.name != [], Record(26, Delimited(e.name))))
  {
    hide EncodeRecords, When;
    var a, b := When(e.value != [], Record(10, Delimited(e.value))),
        When(e.description != [], Record(18, Delimited(e.description)));
    var c := When(e.name != [], Record(26, Delimited(e.name)));
    EncodeConcat(a, b);
    EncodeConcat(a + b, c);
    AppendThree(before, EncodeRecords(a), EncodeRecords(b), EncodeRecords(c));
  }

  /** rpc::Time */
  class TimeMessage {
    var sec: Int64
    var nsec: Int64
    var cachedSize: nat

    function Value(): Time
      reads this`sec, this`nsec
    {
      Time(sec, nsec)
    }

    constructor ()
      ensures Value() == NO_TIME
    {
      sec, nsec, cachedSize := 0, 0, 0;
    }

    /** The bodies under the case labels. */
    method ParseField(tag: UInt32, input: CodedInputStream) returns (ok: bool)
      requires input.Valid() && tag in {8, 16}
      modifies this`sec, this`nsec, input`position
      ensures input.Valid() && input.position >= old(input.position)
      ensures ok ==> input.position > old(input.position)
      ensures FieldRead(ApplyTime, tag, old(Value()), old(input.Rest()), ok, Value(), input.Rest())
    {
      var v := input.ReadField(tag);
      ok := v.Some?;
      if ok {
        if tag == 8 {
          sec := ToInt64(AsVarint(v.value));
        } else {
          nsec := ToInt64(AsVarint(v.value));
        }
      }
    }

    method MergePartialFromCodedStream(input: CodedInputStream) returns (ok: bool)
      requires input.Valid()
      modifies this`sec, this`nsec, input`position, input`legitimateEnd
      ensures input.Valid() && input.position >= old(input.position)
      ensures Answers(Parse(ApplyTime, old(Value()), old(input.Rest())), ok, Value(), input.legitimateEnd, input.Rest())
    {
      hide Parse, MessageLoop.ParseField, ReadValue, ReadTag, EncodeVarint, FieldRead;
      ghost var whole := Parse(ApplyTime, Value(), input.Rest());
      var next: UInt32 := 0;
      while true
        invariant input.Valid() && input.position >= old(input.position)
        invariant next in {0, 16} && Resumes(whole, ApplyTime, Value(), next, input.Rest())
        decreases input.limit - input.position
      {
        var tag, known := next, true;
        if next == 0 {
          ghost var b := input.Rest();
          tag, known := input.ReadTagWithCutoff(127);
          TagStep(ApplyTime, Value(), b, tag, input.Rest());
        }
        next := 0;
        if known && tag in {8, 16} {
          ghost var m, b := Value(), input.Rest();
          ok := ParseField(tag, input);
          FieldStep(whole, ApplyTime, tag, m, b, ok, Value(), input.Rest());
          if !ok {
            return;
          }
          var found := false;
          if tag == 8 {
            found := input.ExpectTag(16);
            if found {
              next := 16;
              ExpectedTag(ApplyTime, Value(), 16, input.Rest());
            }
          } else {
            found := input.ExpectAtEnd();
            if found {
              AtEnd(ApplyTime, Value());
              return;
            }
          }
        } else if tag == 0 || tag % 8 == END_GROUP {
          return true;
        } else {
          SkipStep(ApplyTime, Value(), tag, input.Rest());
          var skipped := input.ReadField(tag);
          if skipped == None {
            return false;
          }
        }
      }
    }

    /** ReadMessageNoVirtual: the length, the message inside it, and nothing left over. */
    method ReadMessage(input: CodedInputStream) returns (ok: bool)
      requires input.Valid()
      modifies this`sec, this`nsec, input`position, input`limit, input`legitimateEnd
      ensures input.Valid() && input.position >= old(input.position)
      ensures ok ==> input.limit == old(input.limit) && input.position > old(input.position)
      ensures MessageRead(ApplyTime, old(Value()), old(input.Rest()), ok, Value(), input.Rest())
    {
      hide Parse, ReadDelimited;
      var outer := input.PushLimit();
      if outer == None {
        return false;
      }
      ok := MergePartialFromCodedStream(input);
      if ok {
        ok := input.PopLimit(outer.value);
      }
    }

    method SerializeWithCachedSizes(output: CodedOutputStream)
      modifies output`bytes
      ensures output.bytes == old(output.bytes) + EncodeRecords(TimeRecords(Value()))
    {
      hide EncodeRecords, When;
      TimeAppended(output.bytes, Value());
      output.WriteWhen(sec != 0, Record(8, Varint(FromInt64(sec))));
      output.WriteWhen(nsec != 0, Record(16, Varint(FromInt64(nsec))));
    }

    method InternalSerializeWithCachedSizesToArray(a: array<Byte>, target: nat) returns (end: nat)
      requires target + |EncodeRecords(TimeRecords(Value()))| <= a.Length
      modifies a
      ensures Filled(a, target, end, EncodeRecords(TimeRecords(Value())))
    {
      hide EncodeRecords, When;
      TimeAppended(a[..target], Value());
      end := target;
      end := WriteWhenToArray(sec != 0, Record(8, Varint(FromInt64(sec))), a, end);
      end := WriteWhenToArray(nsec != 0, Record(16, Varint(FromInt64(nsec))), a, end);
    }

    method ByteSize() returns (size: nat)
      modifies this`cachedSize
      ensures cachedSize == size == |EncodeRecords(TimeRecords(Value()))|
    {
      size := 0;
      if sec != 0 {
        size := size + 1 + VarintSize(FromInt64(sec));
      }
      if nsec != 0 {
        size := size + 1 + VarintSize(FromInt64(nsec));
      }
      cachedSize := size;
      TimeSizeExact(Value());
    }

    method MergeFrom(from: TimeMessage)
      modifies this`sec, this`nsec
      ensures Value() == MergeTime(old(Value()), old(from.Value()))
    {
      if from.sec != 0 {
        sec := from.sec;
      }
      if from.nsec != 0 {
        nsec := from.nsec;
      }
    }
  }

  /** rpc::NamespaceElement */
  class NamespaceElementMessage {
    var value: Bytes
    var description: Bytes
    var name: Bytes
    var cachedSize: nat

    function Value(): NamespaceElement
      reads this`value, this`description, this`name
    {
      NamespaceElement(value, description, name)
    }

    constructor ()
      ensures Value() == NO_ELEMENT
    {
      value, description, name, cachedSize := [], [], [], 0;
    }

    /** The bodies under the case labels: the field is set first and its text checked afterwards. */
    method ParseField(tag: UInt32, input: CodedInputStream) returns (ok: bool)
      requires input.Valid() && tag in {10, 18, 26}
      modifies this`value, this`description, this`name, input`position
      ensures input.Valid() && input.position >= old(input.position)
      ensures ok ==> input.position > old(input.position)
      ensures FieldRead(ApplyElement, tag, old(Value()), old(input.Rest()), ok, Value(), input.Rest())
    {
      hide Utf8;
      var v := input.ReadField(tag);
      if v == None {
        return false;
      }
      if tag == 10 {
        value := AsBytes(v.value);
        ok := Utf8(value);
      } else if tag == 18 {
        description := AsBytes(v.value);
        ok := Utf8(description);
      } else {
        name := AsBytes(v.value);
        ok := Utf8(name);
      }
    }

    method MergePartialFromCodedStream(input: CodedInputStream) returns (ok: bool)
      requires input.Valid()
      modifies this`value, this`description, this`name, input`position, input`legitimateEnd
      ensures input.Valid() && input.position >= old(input.position)
      ensures Answers(Parse(ApplyElement, old(Value()), old(input.Rest())), ok, Value(), input.legitimateEnd,
          input.Rest())
    {
      hide Parse, MessageLoop.ParseField, ReadValue, ReadTag, EncodeVarint, FieldRead;
      ghost var whole := Parse(ApplyElement, Value(), input.Rest());
      var next: UInt32 := 0;
      while true
        invariant input.Valid() && input.position >= old(input.position)
        invariant next in {0, 18, 26} && Resumes(whole, ApplyElement, Value(), next, input.Rest())
        decreases input.limit - input.position
      {
        var tag, known := next, true;
        if next == 0 {
          ghost var b := input.Rest();
          tag, known := input.ReadTagWithCutoff(127);
          TagStep(ApplyElement, Value(), b, tag, input.Rest());
        }
        next := 0;
        if known && tag in {10, 18, 26} {
          ghost var m, b := Value(), input.Rest();
          ok := ParseField(tag, input);
          FieldStep(whole, ApplyElement, tag, m, b, ok, Value(), input.Rest());
          if !ok {
            return;
          }
          var found := false;
          if tag == 10 {
            found := input.ExpectTag(18);
            if found {
              next := 18;
              ExpectedTag(ApplyElement, Value(), 18, input.Rest());
            }
          } else if tag == 18 {
            found := input.ExpectTag(26);
            if found {
              next := 26;
              ExpectedTag(ApplyElement, Value(), 26, input.Rest());
            }
          } else {
            found := input.ExpectAtEnd();
            if found {
              AtEnd(ApplyElement, Value());
              return;
            }
          }
        } else if tag == 0 || tag % 8 == END_GROUP {
          return true;
        } else {
          SkipStep(ApplyElement, Value(), tag, input.Rest());
          var skipped := input.ReadField(tag);
          if skipped == None {
            return false;
          }
        }
      }
    }

    /** ReadMessageNoVirtual: the length, the message inside it, and nothing left over. */
    method ReadMessage(input: CodedInputStream) returns (ok: bool)
      requires input.Valid()
      modifies this`value, this`description, this`name, input`position, input`limit, input`legitimateEnd
      ensures input.Valid() && input.position >= old(input.position)
      ensures ok ==> input.limit == old(input.limit) && input.position > old(input.position)
      ensures MessageRead(ApplyElement, old(Value()), old(input.Rest()), ok, Value(), input.Rest())
    {
      hide Parse, ReadDelimited;
      var outer := input.PushLimit();
      if outer == None {
        return false;
      }
      ok := MergePartialFromCodedStream(input);
      if ok {
        ok := input.PopLimit(outer.value);
      }
    }

    method SerializeWithCachedSizes(output: CodedOutputStream)
      modifies output`bytes
      ensures output.bytes == old(output.bytes) + EncodeRecords(ElementRecords(Value()))
    {
      hide EncodeRecords, When;
      ElementAppended(output.bytes, Value());
      output.WriteWhen(value != [], Record(10, Delimited(value)));
      output.WriteWhen(description != [], Record(18, Delimited(description)));
      output.WriteWhen(name != [], Record(26, Delimited(name)));
    }

    method InternalSerializeWithCachedSizesToArray(a: array<Byte>, target: nat) returns (end: nat)
      requires target + |EncodeRecords(ElementRecords(Value()))| <= a.Length
      modifies a
      ensures Filled(a, target, end, EncodeRecords(ElementRecords(Value())))
    {
      hide EncodeRecords, When;
      ElementAppended(a[..target], Value());
      end := target;
      end := WriteWhenToArray(value != [], Record(10, Delimited(value)), a, end);
      end := WriteWhenToArray(description != [], Record(18, Delimited(description)), a, end);
      end := WriteWhenToArray(name != [], Record(26, Delimited(name)), a, end);
    }

    method ByteSize() returns (size: nat)
      modifies this`cachedSize
      ensures cachedSize == size == ElementSize(Value())
      ensures |EncodeRecords(ElementRecords(Value()))| < TWO_TO_31 ==> size == |EncodeRecords(ElementRecords(Value()))|
    {
      size := 0;
      if value != [] {
        size := size + 1 + BytesSize(value);
      }
      if description != [] {
        size := size + 1 + BytesSize(description);
      }
      if name != [] {
        size := size + 1 + BytesSize(name);
      }
      cachedSize := size;
      if |EncodeRecords(ElementRecords(Value()))| < TWO_TO_31 {
        ElementSizeExact(Value());
      }
    }

    method MergeFrom(from: NamespaceElementMessage)
      modifies this`value, this`description, this`name
      ensures Value() == MergeElement(old(Value()), old(from.Value()))
    {
      if from.value != [] {
        value := from.value;
      }
      if from.description != [] {
        description := from.description;
      }
      if from.name != [] {
        name := from.name;
      }
    }
  }
}

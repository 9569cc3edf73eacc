/** rpc::Metric as the generated class holds it: sub-messages behind pointers, a oneof, and a parser that
    jumps along its seventeen fields. */
module MetricMessages {
  import opened Options
  import opened Wire
  import opened MessageLoop
  import opened Messages
  import opened CodedStreams
  import opened CodedOutputs
  import opened RoundTrip
  import opened MergeProofs
  import opened Sizes
  import opened Canonical
  import opened SmallMessages
  import opened ConfigMapMessages

  /** The values behind the pointers. */
  ghost function Elements(es: seq<NamespaceElementMessage>): seq<NamespaceElement>
    reads es`value, es`description, es`name
  {
    if es == [] then [] else Elements(es[..|es| - 1]) + [es[|es| - 1].Value()]
  }

  ghost function TimeOf(t: TimeMessage?): Option<Time>
    reads t
  {
    if t == null then None else Some(t.Value())
  }

  ghost function ConfigOf(c: ConfigMapMessage?): Option<ConfigMap>
    reads c
  {
    if c == null then None else Some(c.Value())
  }

  const FIELDS: set<UInt32> := {10, 16, 26, 34, 42, 50, 58, 66, 74, 85, 89, 96, 104, 114, 120, 128, 136}

  /** The tag expected after a field. */
  function Following(tag: UInt32): UInt32
    requires tag in FIELDS && tag != 136
  {
    if tag == 10 then 16 else if tag == 16 then 26 else if tag == 26 then 34 else if tag == 34 then 42
    else if tag == 42 then 50 else if tag == 50 then 58 else if tag == 58 then 66 else if tag == 66 then 74
    else if tag == 74 then 85 else if tag == 85 then 89 else if tag == 89 then 96 else if tag == 96 then 104
    else if tag == 104 then 114 else if tag == 114 then 120 else if tag == 120 then 128 else 136
  }

  // ----- what is written, chunk by chunk

  lemma NoNamespace()
    ensures EncodeRecords(NamespaceRecords(Elements([]))) == []
  {
  }

  lemma {:induction false} NamespaceSnoc(es: seq<NamespaceElement>, e: NamespaceElement)
    ensures NamespaceRecords(es + [e]) == NamespaceRecords(es)
        + [Record(10, Delimited(EncodeRecords(ElementRecords(e))))]
    decreases es
  {
    if es == [] {
      assert [e][1..] == [];
    } else {
      assert (es + [e])[1..] == es[1..] + [e];
      NamespaceSnoc(es[1..], e);
    }
  }

  /** The namespace written up to one more element. */
  lemma NamespaceStep(ns: seq<NamespaceElementMessage>, i: nat)
    requires i < |ns|
    ensures EncodeRecords(NamespaceRecords(Elements(ns[..i + 1])))
         == EncodeRecords(NamespaceRecords(Elements(ns[..i])))
          + EncodeRecords([Record(10, Delimited(EncodeRecords(ElementRecords(ns[i].Value()))))])
  {
    assert ns[..i + 1][..i] == ns[..i];
    assert Elements(ns[..i + 1]) == Elements(ns[..i]) + [ns[i].Value()];
    NamespaceSnoc(Elements(ns[..i]), ns[i].Value());
    EncodeConcat(NamespaceRecords(Elements(ns[..i])),
        [Record(10, Delimited(EncodeRecords(ElementRecords(ns[i].Value()))))]);
  }

  lemma NamespaceFits(ns: seq<NamespaceElementMessage>, i: nat)
    requires i <= |ns|
    ensures |EncodeRecords(NamespaceRecords(Elements(ns[..i])))| <= |EncodeRecords(NamespaceRecords(Elements(ns)))|
    decreases |ns| - i
  {
    hide EncodeRecords, NamespaceRecords, Elements;
    if i < |ns| {
      NamespaceFits(ns, i + 1);
      NamespaceStep(ns, i);
    } else {
      assert ns[..i] == ns;
    }
  }

  /** The member of the oneof that is set, behind what was written before. */
  lemma DataBytes(before: Bytes, d: Data)
    ensures before + EncodeRecords(DataRecords(d))
         == if d.NotSet? then before else before + EncodeRecord(DataRecords(d)[0])
  {
    hide EncodeRecord;
    if !d.NotSet? {
      AppendWhen(before, true, DataRecords(d)[0]);
      assert DataRecords(d) == When(true, DataRecords(d)[0]);
    }
  }

  function ConfigFieldBytes(c: Option<ConfigMap>, d: bool, o: ConfigOrder): Bytes
    requires c.Some? ==> ConfigOrdered(o, c.value)
  {
    if c.Some? then EncodeRecords([Record(26, Delimited(WriteConfig(c.value, d, o)))]) else []
  }

  /** The order in which a Metric is written: its own tags sorted if `d`, its Config sorted if `nested`. */
  function Walked(o: MetricOrder, d: bool, nested: bool): MetricOrder {
    MetricOrder(if nested then CanonConfig(o.config) else o.config, Walk(d, o.tags))
  }

  lemma WalkedOrders(m: Metric, o: MetricOrder, d: bool, nested: bool)
    requires MetricOrdered(o, m)
    ensures MetricOrdered(Walked(o, d, nested), m)
  {
    WalkEnumerates(d, o.tags, m.tags);
    if m.config.Some? {
      CanonConfigOrders(m.config.value, o.config);
    }
  }

  function Written(m: Metric, o: MetricOrder, d: bool, nested: bool): Bytes
    requires MetricOrdered(o, m)
  {
    WalkedOrders(m, o, d, nested);
    WriteMetric(m, Walked(o, d, nested))
  }

  lemma ConfigSizeFits(c: ConfigMapMessage?, o: MetricOrder, d: bool, nested: bool)
    requires c != null ==> ConfigOrdered(o.config, c.Value()) && ConfigOrdered(Walked(o, d, nested).config, c.Value())
    requires c != null ==> c.cachedSize == |EncodeRecords(ConfigRecords(c.Value(), Walked(o, d, nested).config))|
    ensures c != null ==> c.cachedSize == |WriteConfig(c.Value(), nested, o.config)|
  {
  }

  lemma ConfigFieldWritten(c: Option<ConfigMap>, o: MetricOrder, d: bool, nested: bool)
    requires c.Some? ==> ConfigOrdered(o.config, c.value) && ConfigOrdered(Walked(o, d, nested).config, c.value)
    ensures EncodeRecords(ConfigField(c, Walked(o, d, nested).config)) == ConfigFieldBytes(c, nested, o.config)
  {
  }

  // ----- sizes

  lemma {:induction false} ElementsAt(es: seq<NamespaceElementMessage>)
    ensures |Elements(es)| == |es| && forall i :: 0 <= i < |es| ==> Elements(es)[i] == es[i].Value()
    decreases es
  {
    if es != [] {
      ElementsAt(es[..|es| - 1]);
    }
  }

  lemma NamespaceSizeStart(es: seq<NamespaceElement>)
    ensures NamespaceSize(es[..0]) == 0
  {
  }

  lemma {:induction false} NamespaceSizeSnoc(es: seq<NamespaceElement>, e: NamespaceElement)
    ensures NamespaceSize(es + [e]) == NamespaceSize(es) + 1 + MessageSize(ElementSize(e))
    decreases es
  {
    if es == [] {
      assert [e][1..] == [];
    } else {
      assert (es + [e])[1..] == es[1..] + [e];
      NamespaceSizeSnoc(es[1..], e);
    }
  }

  lemma NamespaceSizeStep(es: seq<NamespaceElement>, i: nat)
    requires i < |es|
    ensures NamespaceSize(es[..i + 1]) == NamespaceSize(es[..i]) + 1 + MessageSize(ElementSize(es[i]))
  {
    assert es[..i + 1] == es[..i] + [es[i]];
    NamespaceSizeSnoc(es[..i], es[i]);
  }

  lemma {:induction false} ElementFits(es: seq<NamespaceElement>, i: nat)
    requires i < |es| && |EncodeRecords(NamespaceRecords(es))| < TWO_TO_31
    ensures |EncodeRecords(ElementRecords(es[i]))| == ElementSize(es[i])
    decreases es
  {
    hide ElementRecords, ElementSize;
    var r := Record(10, Delimited(EncodeRecords(ElementRecords(es[0]))));
    EncodeConcat([r], NamespaceRecords(es[1..]));
    if i == 0 {
      SubMessageSize(10, ElementRecords(es[0]));
      ElementSizeExact(es[0]);
    } else {
      ElementFits(es[1..], i - 1);
    }
  }

  lemma ConfigFits(c: ConfigMap, sizing: ConfigOrder, o: ConfigOrder)
    requires ConfigOrdered(sizing, c) && ConfigOrdered(o, c)
    requires |EncodeRecords(ConfigField(Some(c), o))| < TWO_TO_31
    ensures |EncodeRecords(ConfigRecords(c, o))| == ConfigSize(c, sizing)
  {
    hide EncodeRecords, Enumerates, ConfigSize, ConfigRecords;
    SubMessageSize(26, ConfigRecords(c, o));
    ConfigSizeExact(c, o);
    ConfigSizeOfAnyOrder(c, o, sizing);
  }

  lemma NestedSizes(m: Metric, sizing: MetricOrder, w: MetricOrder)
    requires MetricOrdered(sizing, m) && MetricOrdered(w, m) && |WriteMetric(m, w)| < TWO_TO_31
    ensures forall i :: 0 <= i < |m.namespace| ==>
              |EncodeRecords(ElementRecords(m.namespace[i]))| == ElementSize(m.namespace[i])
    ensures m.config.Some? ==>
              |EncodeRecords(ConfigRecords(m.config.value, w.config))| == ConfigSize(m.config.value, sizing.config)
  {
    hide EncodeRecords, NamespaceRecords, ElementRecords, ElementSize, Enumerates, ConfigSize, ConfigRecords,
        MetricRest;
    SmallParts(MetricHead(m, w), MetricRest(m, w));
    SmallFour(NamespaceRecords(m.namespace), When(m.version != 0, Record(16, Varint(FromInt64(m.version)))),
              ConfigField(m.config, w.config), TimeField(34, m.lastAdvertised));
    forall i | 0 <= i < |m.namespace|
      ensures |EncodeRecords(ElementRecords(m.namespace[i]))| == ElementSize(m.namespace[i])
    {
      ElementFits(m.namespace, i);
    }
    if m.config.Some? {
      ConfigFits(m.config.value, sizing.config, w.config);
    }
  }

  /** The stream hands its flag down to the nested Config, the array form does not: their bytes agree
      exactly when nothing deterministic was asked for or the Config iterates in ascending order anyway. */
  lemma SerializersAgree(m: Metric, o: MetricOrder, d: bool)
    requires MetricOrdered(o, m) && |Written(m, o, d, false)| < TWO_TO_31
    ensures Written(m, o, d, d) == Written(m, o, d, false)
        <==> (d && m.config.Some? ==> CanonConfig(o.config) == o.config)
  {
    hide EncodeRecords, MapRecords, Enumerates, Canon;
    WalkedOrders(m, o, d, d);
    WalkedOrders(m, o, d, false);
    if d && m.config.Some? {
      if Written(m, o, d, d) == Written(m, o, d, false) {
        WrittenMetricFixesConfigOrder(m, Walked(o, d, false), Walked(o, d, d));
      } else {
        assert Walked(o, d, d).config != Walked(o, d, false).config;
      }
    } else if m.config == None {
      assert MetricRecords(m, Walked(o, d, d)) == MetricRecords(m, Walked(o, d, false));
    }
  }

  /** Caching a size changes no value. */
  twostate lemma SameElements(es: seq<NamespaceElementMessage>)
    requires forall e :: e in es ==> e.Value() == old(e.Value())
    ensures Elements(es) == old(Elements(es))
  {
    if es != [] {
      SameElements(es[..|es| - 1]);
    }
  }

  function HeadBytes(m: Metric, o: MetricOrder, d: bool, nested: bool): Bytes
    requires MetricOrdered(o, m)
  {
    WalkedOrders(m, o, d, nested);
    EncodeRecords(MetricHead(m, Walked(o, d, nested)))
  }

  function RestBytes(m: Metric, o: MetricOrder, d: bool, nested: bool): Bytes
    requires MetricOrdered(o, m)
  {
    WalkedOrders(m, o, d, nested);
    EncodeRecords(MetricRest(m, Walked(o, d, nested)))
  }

  /** Writing field by field gives the bytes of the whole, behind whatever was written before. */
  lemma HeadAppended(before: Bytes, m: Metric, o: MetricOrder, d: bool, nested: bool)
    requires MetricOrdered(o, m)
    ensures before + HeadBytes(m, o, d, nested)
         == before + EncodeRecords(NamespaceRecords(m.namespace))
                   + EncodeRecords(When(m.version != 0, Record(16, Varint(FromInt64(m.version)))))
                   + ConfigFieldBytes(m.config, nested, o.config)
                   + EncodeRecords(TimeField(34, m.lastAdvertised))
  {
    hide EncodeRecords, NamespaceRecords, TimeField, When, ConfigFieldBytes, ConfigField;
    WalkedOrders(m, o, d, nested);
    var w := Walked(o, d, nested);
    ConfigFieldWritten(m.config, o, d, nested);
    var a, b := NamespaceRecords(m.namespace), When(m.version != 0, Record(16, Varint(FromInt64(m.version))));
    var c, t := ConfigField(m.config, w.config), TimeField(34, m.lastAdvertised);
    EncodeFour(a, b, c, t);
    AppendFour(before, EncodeRecords(a), EncodeRecords(b), EncodeRecords(c), EncodeRecords(t));
  }

  lemma RestAppended(before: Bytes, m: Metric, o: MetricOrder, d: bool, nested: bool)
    requires MetricOrdered(o, m)
    ensures forall k :: k in Walk(d, o.tags) ==> k in m.tags
    ensures before + RestBytes(m, o, d, nested)
         == before + EncodeRecords(MapRecords(42, STRING_VALUE, StringValue, m.tags, Walk(d, o.tags)))
                   + EncodeRecords(TimeField(50, m.timestamp))
                   + EncodeRecords(When(m.unit != [], Record(58, Delimited(m.unit))))
                   + EncodeRecords(When(m.description != [], Record(66, Delimited(m.description))))
                   + EncodeRecords(DataRecords(m.data))
  {
    hide EncodeRecords, MapRecords, TimeField, DataRecords, When;
    WalkedOrders(m, o, d, nested);
    WalkEnumerates(d, o.tags, m.tags);
    var w := Walked(o, d, nested);
    var e, f := MapRecords(42, STRING_VALUE, StringValue, m.tags, w.tags), TimeField(50, m.timestamp);
    var g, h := When(m.unit != [], Record(58, Delimited(m.unit))),
        When(m.description != [], Record(66, Delimited(m.description)));
    var i := DataRecords(m.data);
    EncodeFour(e, f, g, h);
    EncodeConcat(e + f + g + h, i);
    AppendFour(before, EncodeRecords(e), EncodeRecords(f), EncodeRecords(g), EncodeRecords(h));
    AppendTwo(before, EncodeRecords(e + f + g + h), EncodeRecords(i));
  }

  /** The texts and the oneof, which are written after the tags and the timestamp. */
  function TextBytes(unit: Bytes, description: Bytes, data: Data): Bytes {
    EncodeRecords(When(unit != [], Record(58, Delimited(unit))))
    + EncodeRecords(When(description != [], Record(66, Delimited(description))))
    + EncodeRecords(DataRecords(data))
  }

  lemma TextAppended(before: Bytes, unit: Bytes, description: Bytes, data: Data)
    ensures before + TextBytes(unit, description, data)
         == before + EncodeRecords(When(unit != [], Record(58, Delimited(unit))))
                   + EncodeRecords(When(description != [], Record(66, Delimited(description))))
                   + EncodeRecords(DataRecords(data))
  {
    hide EncodeRecords, When, DataRecords;
    AppendThree(before, EncodeRecords(When(unit != [], Record(58, Delimited(unit)))),
                EncodeRecords(When(description != [], Record(66, Delimited(description)))),
                EncodeRecords(DataRecords(data)));
  }

  lemma RestInThree(before: Bytes, m: Metric, o: MetricOrder, d: bool, nested: bool)
    requires MetricOrdered(o, m)
    ensures forall k :: k in Walk(d, o.tags) ==> k in m.tags
    ensures before + RestBytes(m, o, d, nested)
         == before + EncodeRecords(MapRecords(42, STRING_VALUE, StringValue, m.tags, Walk(d, o.tags)))
                   + EncodeRecords(TimeField(50, m.timestamp))
                   + TextBytes(m.unit, m.description, m.data)
  {
    hide EncodeRecords, MapRecords, TimeField, TextBytes, RestBytes, When, DataRecords;
    RestAppended(before, m, o, d, nested);
    TextAppended(before + EncodeRecords(MapRecords(42, STRING_VALUE, StringValue, m.tags, Walk(d, o.tags)))
                        + EncodeRecords(TimeField(50, m.timestamp)), m.unit, m.description, m.data);
  }

  lemma MetricAppended(before: Bytes, m: Metric, o: MetricOrder, d: bool, nested: bool)
    requires MetricOrdered(o, m)
    ensures before + Written(m, o, d, nested) == before + HeadBytes(m, o, d, nested) + RestBytes(m, o, d, nested)
  {
    hide EncodeRecords, MetricHead, MetricRest;
    WalkedOrders(m, o, d, nested);
    var w := Walked(o, d, nested);
    EncodeConcat(MetricHead(m, w), MetricRest(m, w));
    AppendTwo(before, EncodeRecords(MetricHead(m, w)), EncodeRecords(MetricRest(m, w)));
  }

  // ----- the message

  lemma UnknownField(m: Metric, tag: UInt32)
    requires tag !in FIELDS
    ensures forall v :: ApplyMetric(m, Record(tag, v)) == Some(m)
  {
  }

  /** Clearing the oneof before it is read makes no difference. */
  lemma DataReplaced(m: Metric, r: Record)
    requires r.tag in {74, 85, 89, 96, 104, 114, 120, 128, 136}
    ensures ApplyMetric(m, r) == ApplyData(m, r) == ApplyData(m.(data := NotSet), r)
  {
  }

  class MetricMessage {
    var namespace: seq<NamespaceElementMessage>
    var version: Int64
    var config: ConfigMapMessage?
    var lastAdvertised: TimeMessage?
    var tags: map<Bytes, Bytes>
    var timestamp: TimeMessage?
    var unit: Bytes
    var description: Bytes
    var data: Data
    var cachedSize: nat

    ghost function Value(): Metric
      reads this, namespace, config, lastAdvertised, timestamp
    {
      Metric(Elements(namespace), version, ConfigOf(config), TimeOf(lastAdvertised), tags, TimeOf(timestamp), unit,
             description, data)
    }

    /** The two times are different objects. */
    ghost predicate Valid()
      reads this
    {
      lastAdvertised == null || lastAdvertised != timestamp
    }

    constructor ()
      ensures Valid() && Value() == NO_METRIC
      ensures namespace == [] && config == null && lastAdvertised == null && timestamp == null
    {
      namespace, version, config, lastAdvertised, tags := [], 0, null, null, map[];
      timestamp, unit, description, data, cachedSize := null, [], [], NotSet, 0;
    }

    method ParseNamespace(input: CodedInputStream) returns (ok: bool)
      requires Valid() && input.Valid()
      modifies this`namespace, input
      ensures Valid() && input.Valid() && input.position >= old(input.position)
      ensures ok ==> input.position > old(input.position) && input.limit == old(input.limit)
      ensures FieldRead(ApplyMetric, 10, old(Value()), old(input.Rest()), ok, Value(), input.Rest())
    {
      hide ReadValue, ReadDelimited, Parse;
      DelimitedField(10, input.Rest());
      var e := new NamespaceElementMessage();
      namespace := namespace + [e];
      ok := e.ReadMessage(input);
      assert namespace[..|namespace| - 1] == old(namespace);
    }

    method ParseConfig(input: CodedInputStream) returns (ok: bool)
      requires Valid() && input.Valid()
      modifies this`config, config, input
      ensures Valid() && input.Valid() && input.position >= old(input.position)
      ensures ok ==> input.position > old(input.position) && input.limit == old(input.limit)
      ensures config != null && (config == old(config) || (old(config) == null && fresh(config)))
      ensures FieldRead(ApplyMetric, 26, old(Value()), old(input.Rest()), ok, Value(), input.Rest())
    {
      hide ReadValue, ReadDelimited, Parse;
      DelimitedField(26, input.Rest());
      if config == null {
        config := new ConfigMapMessage();
      }
      ok := config.ReadMessage(input);
    }

    method ParseLastAdvertised(input: CodedInputStream) returns (ok: bool)
      requires Valid() && input.Valid()
      modifies this`lastAdvertised, lastAdvertised, input
      ensures Valid() && input.Valid() && input.position >= old(input.position)
      ensures ok ==> input.position > old(input.position) && input.limit == old(input.limit)
      ensures lastAdvertised != null
          && (lastAdvertised == old(lastAdvertised) || (old(lastAdvertised) == null && fresh(lastAdvertised)))
      ensures FieldRead(ApplyMetric, 34, old(Value()), old(input.Rest()), ok, Value(), input.Rest())
    {
      hide ReadValue, ReadDelimited, Parse;
      DelimitedField(34, input.Rest());
      if lastAdvertised == null {
        lastAdvertised := new TimeMessage();
      }
      ok := lastAdvertised.ReadMessage(input);
    }

    method ParseTimestamp(input: CodedInputStream) returns (ok: bool)
      requires Valid() && input.Valid()
      modifies this`timestamp, timestamp, input
      ensures Valid() && input.Valid() && input.position >= old(input.position)
      ensures ok ==> input.position > old(input.position) && input.limit == old(input.limit)
      ensures timestamp != null && (timestamp == old(timestamp) || (old(timestamp) == null && fresh(timestamp)))
      ensures FieldRead(ApplyMetric, 50, old(Value()), old(input.Rest()), ok, Value(), input.Rest())
    {
      hide ReadValue, ReadDelimited, Parse;
      DelimitedField(50, input.Rest());
      if timestamp == null {
        timestamp := new TimeMessage();
      }
      ok := timestamp.ReadMessage(input);
    }

    /** Fields 2, 5, 7 and 8. */
    method ParseScalar(tag: UInt32, input: CodedInputStream) returns (ok: bool)
      requires input.Valid() && tag in {16, 42, 58, 66}
      modifies this`version, this`tags, this`unit, this`description, input`position
      ensures input.Valid() && input.position >= old(input.position)
      ensures ok ==> input.position > old(input.position)
      ensures FieldRead(ApplyMetric, tag, old(Value()), old(input.Rest()), ok, Value(), input.Rest())
    {
      hide ReadValue, ReadEntry, Utf8, Elements, TimeOf, ConfigOf;
      var v := input.ReadField(tag);
      if v == None {
        return false;
      }
      var b := AsBytes(v.value);
      if tag == 16 {
        version, ok := ToInt64(AsVarint(v.value)), true;
      } else if tag == 42 {
        var e := ReadEntry(STRING_VALUE, Delimited([]), b);
        if e == None {
          return false;
        }
        tags := tags[e.value.key := AsBytes(e.value.value)];
        ok := Utf8(e.value.key) && Utf8(AsBytes(e.value.value));
      } else if tag == 58 {
        unit := b;
        ok := Utf8(unit);
      } else {
        description := b;
        ok := Utf8(description);
      }
    }

    /** The oneof, fields 9 to 17: what it held before is cleared. */
    method ParseData(tag: UInt32, input: CodedInputStream) returns (ok: bool)
      requires input.Valid() && tag in {74, 85, 89, 96, 104, 114, 120, 128, 136}
      modifies this`data, input`position
      ensures input.Valid() && input.position >= old(input.position)
      ensures ok ==> input.position > old(input.position)
      ensures FieldRead(ApplyMetric, tag, old(Value()), old(input.Rest()), ok, Value(), input.Rest())
    {
      hide ReadValue, ApplyData;
      ghost var m := Value();
      data := NotSet;
      var v := input.ReadField(tag);
      ok := v.Some?;
      if ok {
        ok := SetData(tag, v.value);
        DataReplaced(m, Record(tag, v.value));
      }
    }

    method SetData(tag: UInt32, v: Value) returns (ok: bool)
      requires tag in {74, 85, 89, 96, 104, 114, 120, 128, 136}
      modifies this`data
      ensures match ApplyData(old(Value()), Record(tag, v))
              case None => !ok
              case Some(m) => ok && Value() == m
    {
      hide Utf8;
      ok := true;
      if tag == 74 {
        data := StringData(AsBytes(v));
        ok := Utf8(data.s);
      } else if tag == 85 {
        data := Float32Data(AsFixed32(v));
      } else if tag == 89 {
        data := Float64Data(AsFixed64(v));
      } else if tag == 96 {
        data := Int32Data(ToInt32(AsVarint(v)));
      } else if tag == 104 {
        data := Int64Data(ToInt64(AsVarint(v)));
      } else if tag == 114 {
        data := BytesData(AsBytes(v));
      } else if tag == 120 {
        data := BoolData(AsVarint(v) != 0);
      } else if tag == 128 {
        data := Uint32Data(AsVarint(v) % TWO_TO_32);
      } else {
        data := Uint64Data(AsVarint(v));
      }
    }

    /** Sub-messages are created, never replaced. */
    twostate predicate PointersKept()
      reads this
    {
      && (config == old(config) || (old(config) == null && fresh(config)))
      && (lastAdvertised == old(lastAdvertised) || (old(lastAdvertised) == null && fresh(lastAdvertised)))
      && (timestamp == old(timestamp) || (old(timestamp) == null && fresh(timestamp)))
    }

    /** The bodies under the case labels. */
    method ParseField(tag: UInt32, input: CodedInputStream) returns (ok: bool)
      requires Valid() && input.Valid() && tag in FIELDS
      modifies this, config, lastAdvertised, timestamp, input
      ensures Valid() && input.Valid() && input.position >= old(input.position)
      ensures ok ==> input.position > old(input.position) && input.limit == old(input.limit)
      ensures PointersKept()
      ensures FieldRead(ApplyMetric, tag, old(Value()), old(input.Rest()), ok, Value(), input.Rest())
    {
      hide ReadValue, ApplyMetric;
      if tag == 10 {
        ok := ParseNamespace(input);
      } else if tag == 26 {
        ok := ParseConfig(input);
      } else if tag == 34 {
        ok := ParseLastAdvertised(input);
      } else if tag == 50 {
        ok := ParseTimestamp(input);
      } else if tag in {16, 42, 58, 66} {
        ok := ParseScalar(tag, input);
      } else {
        ok := ParseData(tag, input);
      }
    }

    /** What follows a field's body: another namespace element or tag, the next field, or the end. */
    method NextField(tag: UInt32, input: CodedInputStream) returns (next: UInt32, end: bool)
      requires input.Valid() && tag in FIELDS
      modifies input`position, input`legitimateEnd
      ensures input.Valid() && input.position >= old(input.position)
      ensures next == 0 || next in FIELDS
      ensures Resumes(Parse(ApplyMetric, Value(), old(input.Rest())), ApplyMetric, Value(), next, input.Rest())
      ensures end ==> Answers(Parse(ApplyMetric, Value(), old(input.Rest())), true, Value(), input.legitimateEnd, [])
      ensures end ==> input.Rest() == []
    {
      hide Parse, MessageLoop.ParseField, EncodeVarint, ApplyMetric, Elements, TimeOf, ConfigOf;
      next, end := 0, false;
      var found := false;
      if tag == 10 || tag == 42 {
        found := input.ExpectTag(tag);
        if found {
          next := tag;
        }
      }
      if !found && tag != 136 {
        next := Following(tag);
        found := input.ExpectTag(next);
        if !found {
          next := 0;
        }
      }
      if tag == 136 {
        end := input.ExpectAtEnd();
        AtEnd(ApplyMetric, Value());
      }
      if found {
        ExpectedTag(ApplyMetric, Value(), next, input.Rest());
      }
    }

    /** A case of the switch: the field's body and what follows it. */
    method ParseOn(tag: UInt32, input: CodedInputStream) returns (ok: bool, next: UInt32, end: bool)
      requires Valid() && input.Valid() && tag in FIELDS
      modifies this, config, lastAdvertised, timestamp, input
      ensures Valid() && input.Valid() && input.position >= old(input.position) && PointersKept()
      ensures ok ==> input.position > old(input.position) && input.limit == old(input.limit)
      ensures next == 0 || next in FIELDS
      ensures var whole := MessageLoop.ParseField(ApplyMetric, old(Value()), tag, old(input.Rest()));
        && (ok && !end ==> Resumes(whole, ApplyMetric, Value(), next, input.Rest()))
        && (!ok || end ==> Answers(whole, ok, Value(), input.legitimateEnd, input.Rest()))
    {
      hide Parse, MessageLoop.ParseField, ReadValue, FieldRead, ApplyMetric, Elements, TimeOf, ConfigOf;
      ghost var m, b := Value(), input.Rest();
      next, end := 0, false;
      ok := ParseField(tag, input);
      FieldStep(MessageLoop.ParseField(ApplyMetric, m, tag, b), ApplyMetric, tag, m, b, ok, Value(), input.Rest());
      if ok {
        next, end := NextField(tag, input);
      }
    }

    /** The label handle_unusual, for a tag that does not end the message. */
    method SkipUnknown(tag: UInt32, input: CodedInputStream) returns (ok: bool)
      requires input.Valid() && tag !in FIELDS
      modifies input`position
      ensures input.Valid() && input.position >= old(input.position)
      ensures MessageLoop.ParseField(ApplyMetric, Value(), tag, old(input.Rest()))
           == if ok then Parse(ApplyMetric, Value(), input.Rest()) else Failed
    {
      hide Parse, ReadValue, ApplyMetric, Elements, TimeOf, ConfigOf;
      UnknownField(Value(), tag);
      SkipStep(ApplyMetric, Value(), tag, input.Rest());
      var skipped := input.ReadField(tag);
      ok := skipped.Some?;
    }

    method MergePartialFromCodedStream(input: CodedInputStream) returns (ok: bool)
      requires Valid() && input.Valid()
      modifies this, config, lastAdvertised, timestamp, input
      ensures Valid() && input.Valid() && input.position >= old(input.position)
      ensures ok ==> input.limit == old(input.limit)
      ensures PointersKept()
      ensures Answers(Parse(ApplyMetric, old(Value()), old(input.Rest())), ok, Value(), input.legitimateEnd,
          input.Rest())
    {
      hide Parse, MessageLoop.ParseField, ReadValue, ReadTag, EncodeVarint, FieldRead, ApplyMetric, Elements, TimeOf,
          ConfigOf;
      ghost var whole := Parse(ApplyMetric, Value(), input.Rest());
      var next: UInt32 := 0;
      while true
        invariant Valid() && input.Valid() && input.position >= old(input.position) && input.limit == old(input.limit)
        invariant PointersKept()
        invariant (next == 0 || next in FIELDS) && Resumes(whole, ApplyMetric, Value(), next, input.Rest())
        decreases input.limit - input.position
      {
        var tag, known := next, true;
        if next == 0 {
          ghost var b := input.Rest();
          tag, known := input.ReadTagWithCutoff(16383);
          TagStep(ApplyMetric, Value(), b, tag, input.Rest());
        }
        next := 0;
        if known && tag in FIELDS {
          var end: bool;
          ok, next, end := ParseOn(tag, input);
          if !ok || end {
            return;
          }
        } else if tag == 0 || tag % 8 == END_GROUP {
          return true;
        } else {
          ok := SkipUnknown(tag, input);
          if !ok {
            return;
          }
        }
      }
    }

    // ----- serialization; `o` is the order in which the hash maps happen to iterate

    /** The sizes ByteSize left behind in the sub-messages are the sizes of what will be written. */
    ghost predicate SizesFit(w: MetricOrder)
      reads this, namespace, config, lastAdvertised, timestamp
    {
      && (forall i :: 0 <= i < |namespace| ==>
            namespace[i].cachedSize == |EncodeRecords(ElementRecords(namespace[i].Value()))|)
      && (config != null ==>
            && ConfigOrdered(w.config, config.Value())
            && config.cachedSize == |EncodeRecords(ConfigRecords(config.Value(), w.config))|)
      && (lastAdvertised != null ==> lastAdvertised.cachedSize == |EncodeRecords(TimeRecords(lastAdvertised.Value()))|)
      && (timestamp != null ==> timestamp.cachedSize == |EncodeRecords(TimeRecords(timestamp.Value()))|)
    }

    lemma SizesKnown(o: MetricOrder, d: bool, nested: bool)
      requires MetricOrdered(o, Value()) && SizesFit(Walked(o, d, nested))
      ensures forall i :: 0 <= i < |namespace| ==>
                namespace[i].cachedSize == |EncodeRecords(ElementRecords(namespace[i].Value()))|
      ensures config != null ==>
                && ConfigOrdered(o.config, config.Value())
                && config.cachedSize == |WriteConfig(config.Value(), nested, o.config)|
      ensures lastAdvertised != null ==>
                lastAdvertised.cachedSize == |EncodeRecords(TimeRecords(lastAdvertised.Value()))|
      ensures timestamp != null ==> timestamp.cachedSize == |EncodeRecords(TimeRecords(timestamp.Value()))|
    {
      hide EncodeRecords, ElementRecords, TimeRecords;
      ConfigSizeFits(config, o, d, nested);
    }

    method WriteNamespace(output: CodedOutputStream)
      requires forall i :: 0 <= i < |namespace| ==>
                 namespace[i].cachedSize == |EncodeRecords(ElementRecords(namespace[i].Value()))|
      modifies output`bytes
      ensures output.bytes == old(output.bytes) + EncodeRecords(NamespaceRecords(Elements(namespace)))
    {
      hide EncodeRecords, NamespaceRecords, EncodeVarint, ElementRecords, Elements;
      var i := 0;
      NoNamespace();
      while i < |namespace|
        invariant i <= |namespace|
        invariant output.bytes == old(output.bytes) + EncodeRecords(NamespaceRecords(Elements(namespace[..i])))
      {
        ghost var before := output.bytes;
        NamespaceStep(namespace, i);
        output.WriteHeader(10, namespace[i].cachedSize);
        namespace[i].SerializeWithCachedSizes(output);
        SubMessageBytes(before, 10, EncodeRecords(ElementRecords(namespace[i].Value())));
        i := i + 1;
      }
      assert namespace[..i] == namespace;
    }

    static method WriteTime(tag: UInt32, t: TimeMessage?, output: CodedOutputStream)
      requires t != null ==> t.cachedSize == |EncodeRecords(TimeRecords(t.Value()))|
      modifies output`bytes
      ensures output.bytes == old(output.bytes) + EncodeRecords(TimeField(tag, TimeOf(t)))
    {
      hide EncodeVarint, TimeRecords;
      if t != null {
        SubMessageBytes(output.bytes, tag, EncodeRecords(TimeRecords(t.Value())));
        output.WriteHeader(tag, t.cachedSize);
        t.SerializeWithCachedSizes(output);
      }
    }

    method WriteConfigField(output: CodedOutputStream, o: ConfigOrder)
      requires config != null ==> ConfigOrdered(o, config.Value())
      requires config != null ==> config.cachedSize == |WriteConfig(config.Value(), output.deterministic, o)|
      modifies output`bytes
      ensures output.bytes == old(output.bytes) + ConfigFieldBytes(ConfigOf(config), output.deterministic, o)
    {
      hide EncodeVarint, WriteConfig, ConfigOrdered;
      if config != null {
        SubMessageBytes(output.bytes, 26, WriteConfig(config.Value(), output.deterministic, o));
        output.WriteHeader(26, config.cachedSize);
        config.SerializeWithCachedSizes(output, o);
      }
    }

    method WriteData(output: CodedOutputStream)
      modifies output`bytes
      ensures output.bytes == old(output.bytes) + EncodeRecords(DataRecords(data))
    {
      hide EncodeRecord;
      DataBytes(output.bytes, data);
      match data
      case NotSet =>
      case StringData(s) => output.WriteRecord(Record(74, Delimited(s)));
      case Float32Data(f) => output.WriteRecord(Record(85, Fixed32(f)));
      case Float64Data(d) => output.WriteRecord(Record(89, Fixed64(d)));
      case Int32Data(i) => output.WriteRecord(Record(96, Varint(FromInt32(i))));
      case Int64Data(l) => output.WriteRecord(Record(104, Varint(FromInt64(l))));
      case BytesData(s) => output.WriteRecord(Record(114, Delimited(s)));
      case BoolData(t) => output.WriteRecord(Record(120, Varint(if t then 1 else 0)));
      case Uint32Data(u) => output.WriteRecord(Record(128, Varint(u)));
      case Uint64Data(u) => output.WriteRecord(Record(136, Varint(u)));
    }

    method WriteHead(output: CodedOutputStream, o: MetricOrder)
      requires MetricOrdered(o, Value()) && SizesFit(Walked(o, output.deterministic, output.deterministic))
      modifies output`bytes
      ensures output.bytes == old(output.bytes) + HeadBytes(Value(), o, output.deterministic, output.deterministic)
    {
      hide EncodeRecords, NamespaceRecords, TimeField, When, ConfigFieldBytes, HeadBytes, Elements, TimeOf, ConfigOf;
      hide SizesFit, MetricOrdered, ConfigOrdered, WriteConfig, ElementRecords, TimeRecords;
      HeadAppended(output.bytes, Value(), o, output.deterministic, output.deterministic);
      SizesKnown(o, output.deterministic, output.deterministic);
      WriteNamespace(output);
      output.WriteWhen(version != 0, Record(16, Varint(FromInt64(version))));
      WriteConfigField(output, o.config);
      WriteTime(34, lastAdvertised, output);
    }

    method WriteTexts(output: CodedOutputStream)
      modifies output`bytes
      ensures output.bytes == old(output.bytes) + TextBytes(unit, description, data)
    {
      hide EncodeRecords, When, DataRecords, TextBytes;
      TextAppended(output.bytes, unit, description, data);
      output.WriteWhen(unit != [], Record(58, Delimited(unit)));
      output.WriteWhen(description != [], Record(66, Delimited(description)));
      WriteData(output);
    }

    method WriteRest(output: CodedOutputStream, o: MetricOrder)
      requires MetricOrdered(o, Value()) && SizesFit(Walked(o, output.deterministic, output.deterministic))
      modifies output`bytes
      ensures output.bytes == old(output.bytes) + RestBytes(Value(), o, output.deterministic, output.deterministic)
    {
      hide EncodeRecords, MapRecords, TimeField, TextBytes, RestBytes, Elements, TimeOf, ConfigOf;
      hide SizesFit, MetricOrdered, ConfigOrdered, Walk, TimeRecords;
      var d := output.deterministic;
      RestInThree(output.bytes, Value(), o, d, d);
      SizesKnown(o, d, d);
      output.WriteMap(42, STRING_VALUE, StringValue, tags, Walk(d, o.tags));
      WriteTime(50, timestamp, output);
      WriteTexts(output);
    }

    method SerializeWithCachedSizes(output: CodedOutputStream, o: MetricOrder)
      requires MetricOrdered(o, Value()) && SizesFit(Walked(o, output.deterministic, output.deterministic))
      modifies output`bytes
      ensures output.bytes == old(output.bytes) + Written(Value(), o, output.deterministic, output.deterministic)
    {
      hide HeadBytes, RestBytes, Written, SizesFit, MetricOrdered, Value;
      MetricAppended(output.bytes, Value(), o, output.deterministic, output.deterministic);
      WriteHead(output, o);
      WriteRest(output, o);
    }

    // ----- into an array; nested messages are never asked to be deterministic

    method WriteNamespaceToArray(a: array<Byte>, target: nat) returns (end: nat)
      requires forall i :: 0 <= i < |namespace| ==>
                 namespace[i].cachedSize == |EncodeRecords(ElementRecords(namespace[i].Value()))|
      requires target + |EncodeRecords(NamespaceRecords(Elements(namespace)))| <= a.Length
      modifies a
      ensures Filled(a, target, end, EncodeRecords(NamespaceRecords(Elements(namespace))))
    {
      hide EncodeRecords, NamespaceRecords, EncodeVarint, ElementRecords, Elements;
      end := target;
      var i := 0;
      NoNamespace();
      while i < |namespace|
        invariant i <= |namespace|
        invariant Filled(a, target, end, EncodeRecords(NamespaceRecords(Elements(namespace[..i]))))
      {
        ghost var before := a[..end];
        NamespaceStep(namespace, i);
        NamespaceFits(namespace, i + 1);
        SubMessageBytes(before, 10, EncodeRecords(ElementRecords(namespace[i].Value())));
        end := WriteHeaderToArray(10, namespace[i].cachedSize, a, end);
        end := namespace[i].InternalSerializeWithCachedSizesToArray(a, end);
        i := i + 1;
      }
      assert namespace[..i] == namespace;
    }

    static method WriteTimeToArray(tag: UInt32, t: TimeMessage?, a: array<Byte>, target: nat) returns (end: nat)
      requires t != null ==> t.cachedSize == |EncodeRecords(TimeRecords(t.Value()))|
      requires target + |EncodeRecords(TimeField(tag, TimeOf(t)))| <= a.Length
      modifies a
      ensures Filled(a, target, end, EncodeRecords(TimeField(tag, TimeOf(t))))
    {
      hide EncodeVarint, TimeRecords;
      end := target;
      if t != null {
        SubMessageBytes(a[..target], tag, EncodeRecords(TimeRecords(t.Value())));
        end := WriteHeaderToArray(tag, t.cachedSize, a, end);
        end := t.InternalSerializeWithCachedSizesToArray(a, end);
      }
    }

    method WriteConfigFieldToArray(o: ConfigOrder, a: array<Byte>, target: nat) returns (end: nat)
      requires config != null ==> ConfigOrdered(o, config.Value())
      requires config != null ==> config.cachedSize == |WriteConfig(config.Value(), false, o)|
      requires target + |ConfigFieldBytes(ConfigOf(config), false, o)| <= a.Length
      modifies a
      ensures Filled(a, target, end, ConfigFieldBytes(ConfigOf(config), false, o))
    {
      hide EncodeVarint, WriteConfig, ConfigOrdered;
      end := target;
      if config != null {
        SubMessageBytes(a[..target], 26, WriteConfig(config.Value(), false, o));
        end := WriteHeaderToArray(26, config.cachedSize, a, end);
        end := config.InternalSerializeWithCachedSizesToArray(false, o, a, end);
      }
    }

    method WriteDataToArray(a: array<Byte>, target: nat) returns (end: nat)
      requires target + |EncodeRecords(DataRecords(data))| <= a.Length
      modifies a
      ensures Filled(a, target, end, EncodeRecords(DataRecords(data)))
    {
      hide EncodeRecord;
      DataBytes(a[..target], data);
      end := target;
      match data
      case NotSet =>
      case StringData(s) => end := WriteRecordToArray(Record(74, Delimited(s)), a, end);
      case Float32Data(f) => end := WriteRecordToArray(Record(85, Fixed32(f)), a, end);
      case Float64Data(d) => end := WriteRecordToArray(Record(89, Fixed64(d)), a, end);
      case Int32Data(i) => end := WriteRecordToArray(Record(96, Varint(FromInt32(i))), a, end);
      case Int64Data(l) => end := WriteRecordToArray(Record(104, Varint(FromInt64(l))), a, end);
      case BytesData(s) => end := WriteRecordToArray(Record(114, Delimited(s)), a, end);
      case BoolData(t) => end := WriteRecordToArray(Record(120, Varint(if t then 1 else 0)), a, end);
      case Uint32Data(u) => end := WriteRecordToArray(Record(128, Varint(u)), a, end);
      case Uint64Data(u) => end := WriteRecordToArray(Record(136, Varint(u)), a, end);
    }

    method WriteHeadToArray(d: bool, o: MetricOrder, a: array<Byte>, target: nat) returns (end: nat)
      requires MetricOrdered(o, Value()) && SizesFit(Walked(o, d, false))
      requires target + |HeadBytes(Value(), o, d, false)| <= a.Length
      modifies a
      ensures Filled(a, target, end, HeadBytes(Value(), o, d, false))
    {
      hide EncodeRecords, NamespaceRecords, TimeField, When, ConfigFieldBytes, HeadBytes, Elements, TimeOf, ConfigOf;
      hide SizesFit, MetricOrdered, ConfigOrdered, WriteConfig, ElementRecords, TimeRecords;
      HeadAppended(a[..target], Value(), o, d, false);
      SizesKnown(o, d, false);
      end := WriteNamespaceToArray(a, target);
      end := WriteWhenToArray(version != 0, Record(16, Varint(FromInt64(version))), a, end);
      end := WriteConfigFieldToArray(o.config, a, end);
      end := WriteTimeToArray(34, lastAdvertised, a, end);
    }

    method WriteTextsToArray(a: array<Byte>, target: nat) returns (end: nat)
      requires target + |TextBytes(unit, description, data)| <= a.Length
      modifies a
      ensures Filled(a, target, end, TextBytes(unit, description, data))
    {
      hide EncodeRecords, When, DataRecords, TextBytes;
      TextAppended(a[..target], unit, description, data);
      end := WriteWhenToArray(unit != [], Record(58, Delimited(unit)), a, target);
      end := WriteWhenToArray(description != [], Record(66, Delimited(description)), a, end);
      end := WriteDataToArray(a, end);
    }

    method WriteRestToArray(d: bool, o: MetricOrder, a: array<Byte>, target: nat) returns (end: nat)
      requires MetricOrdered(o, Value()) && SizesFit(Walked(o, d, false))
      requires target + |RestBytes(Value(), o, d, false)| <= a.Length
      modifies a
      ensures Filled(a, target, end, RestBytes(Value(), o, d, false))
    {
      hide EncodeRecords, MapRecords, TimeField, TextBytes, RestBytes, Elements, TimeOf, ConfigOf;
      hide SizesFit, MetricOrdered, ConfigOrdered, Walk, TimeRecords;
      RestInThree(a[..target], Value(), o, d, false);
      SizesKnown(o, d, false);
      end := WriteMapToArray(42, STRING_VALUE, StringValue, tags, Walk(d, o.tags), a, target);
      end := WriteTimeToArray(50, timestamp, a, end);
      end := WriteTextsToArray(a, end);
    }

    method InternalSerializeWithCachedSizesToArray(d: bool, o: MetricOrder, a: array<Byte>,
        target: nat) returns (end: nat)
      requires MetricOrdered(o, Value()) && SizesFit(Walked(o, d, false))
      requires target + |Written(Value(), o, d, false)| <= a.Length
      modifies a
      ensures Filled(a, target, end, Written(Value(), o, d, false))
    {
      hide HeadBytes, RestBytes, Written, MetricOrdered, SizesFit, Elements, TimeOf, ConfigOf;
      MetricAppended(a[..target], Value(), o, d, false);
      end := WriteHeadToArray(d, o, a, target);
      end := WriteRestToArray(d, o, a, end);
    }

    // ----- size and merge

    /** What ByteSize leaves behind, the maps walked in the order `o`. */
    ghost predicate SizesCached(o: MetricOrder)
      reads this, namespace, config, lastAdvertised, timestamp
    {
      && (forall i :: 0 <= i < |namespace| ==> namespace[i].cachedSize == ElementSize(namespace[i].Value()))
      && (config != null ==> config.cachedSize == ConfigSize(config.Value(), o.config))
      && (lastAdvertised != null ==> lastAdvertised.cachedSize == |EncodeRecords(TimeRecords(lastAdvertised.Value()))|)
      && (timestamp != null ==> timestamp.cachedSize == |EncodeRecords(TimeRecords(timestamp.Value()))|)
    }

    method NamespaceByteSize() returns (total: nat)
      modifies namespace
      ensures Elements(namespace) == old(Elements(namespace)) && total == NamespaceSize(Elements(namespace))
      ensures forall i :: 0 <= i < |namespace| ==> namespace[i].cachedSize == ElementSize(namespace[i].Value())
    {
      hide ElementSize, NamespaceSize, MessageSize, Elements, ElementRecords, EncodeRecords;
      ghost var values := Elements(namespace);
      ElementsAt(namespace);
      NamespaceSizeStart(values);
      total := 1 * |namespace|;
      var i := 0;
      while i < |namespace|
        invariant i <= |namespace|
        invariant forall e :: e in namespace ==> e.Value() == old(e.Value())
        invariant total + i == |namespace| + NamespaceSize(values[..i])
        invariant forall j :: 0 <= j < i ==> namespace[j].cachedSize == ElementSize(namespace[j].Value())
      {
        NamespaceSizeStep(values, i);
        var one := namespace[i].ByteSize();
        total := total + MessageSize(one);
        i := i + 1;
      }
      assert values[..i] == values;
      SameElements(namespace);
    }

    static method TimeByteSize(t: TimeMessage?) returns (total: nat)
      modifies t
      ensures TimeOf(t) == old(TimeOf(t)) && total == TimeFieldSize(TimeOf(t))
      ensures t != null ==> t.cachedSize == |EncodeRecords(TimeRecords(t.Value()))|
    {
      total := 0;
      if t != null {
        TimeSizeExact(t.Value());
        var size := t.ByteSize();
        total := 1 + MessageSize(size);
      }
    }

    method DataByteSize() returns (total: nat)
      ensures total == DataSize(data)
    {
      match data
      case NotSet => total := 0;
      case StringData(s) => total := 1 + BytesSize(s);
      case Float32Data(_) => total := 1 + 4;
      case Float64Data(_) => total := 1 + 8;
      case Int32Data(i) => total := 1 + Int32Size(i);
      case Int64Data(l) => total := 1 + Int64Size(l);
      case BytesData(s) => total := 1 + BytesSize(s);
      case BoolData(_) => total := 1 + 1;
      case Uint32Data(u) => total := 2 + VarintSize(u);
      case Uint64Data(w) => total := 2 + VarintSize(w);
    }

    method PointersByteSize(o: ConfigOrder) returns (total: nat)
      requires Valid() && (config != null ==> ConfigOrdered(o, config.Value()))
      modifies config, lastAdvertised, timestamp
      ensures ConfigOf(config) == old(ConfigOf(config))
      ensures TimeOf(lastAdvertised) == old(TimeOf(lastAdvertised)) && TimeOf(timestamp) == old(TimeOf(timestamp))
      ensures total == (if config != null then 1 + MessageSize(ConfigSize(config.Value(), o)) else 0)
                     + TimeFieldSize(TimeOf(lastAdvertised)) + TimeFieldSize(TimeOf(timestamp))
      ensures config != null ==> config.cachedSize == ConfigSize(config.Value(), o)
      ensures lastAdvertised != null ==>
                lastAdvertised.cachedSize == |EncodeRecords(TimeRecords(lastAdvertised.Value()))|
      ensures timestamp != null ==> timestamp.cachedSize == |EncodeRecords(TimeRecords(timestamp.Value()))|
    {
      hide TimeFieldSize, ConfigSize, EncodeRecords, TimeRecords, MessageSize, ConfigOrdered;
      total := 0;
      if config != null {
        var c := config.ByteSize(o);
        total := total + 1 + MessageSize(c);
      }
      var more := TimeByteSize(lastAdvertised);
      total := total + more;
      more := TimeByteSize(timestamp);
      total := total + more;
    }

    method ScalarsByteSize(o: MetricOrder) returns (total: nat)
      requires Enumerates(o.tags, tags)
      ensures total == (if version != 0 then 1 + Int64Size(version) else 0)
                     + (if unit != [] then 1 + BytesSize(unit) else 0)
                     + (if description != [] then 1 + BytesSize(description) else 0)
                     + MapSize(BytesSize, tags, o.tags) + DataSize(data)
    {
      hide MapSize, DataSize, Enumerates, BytesSize, Int64Size;
      total := if version != 0 then 1 + Int64Size(version) else 0;
      if unit != [] {
        total := total + 1 + BytesSize(unit);
      }
      if description != [] {
        total := total + 1 + BytesSize(description);
      }
      var more := MapByteSize(BytesSize, tags, o.tags);
      total := total + more;
      more := DataByteSize();
      total := total + more;
    }

    method ByteSize(o: MetricOrder) returns (size: nat)
      requires Valid() && MetricOrdered(o, Value())
      modifies this`cachedSize, namespace, config, lastAdvertised, timestamp
      ensures Value() == old(Value()) && SizesCached(o)
      ensures cachedSize == size == MetricSize(Value(), o)
    {
      hide ElementSize, NamespaceSize, MapSize, TimeFieldSize, DataSize, ConfigSize, EncodeRecords, TimeRecords,
          Elements;
      hide MessageSize, VarintSize, Enumerates, ConfigOrdered, BytesSize, Int64Size;
      size := ScalarsByteSize(o);
      var more := PointersByteSize(o.config);
      size := size + more;
      more := NamespaceByteSize();
      size := size + more;
      cachedSize := size;
    }

    /** The cached sizes are those of whatever order the maps are then written in. */
    lemma SizesReady(sizing: MetricOrder, w: MetricOrder)
      requires MetricOrdered(sizing, Value()) && MetricOrdered(w, Value())
      requires SizesCached(sizing) && |WriteMetric(Value(), w)| < TWO_TO_31
      ensures SizesFit(w)
    {
      hide EncodeRecords, Elements, NamespaceRecords, ElementRecords, ElementSize, TimeRecords, Enumerates, ConfigSize;
      ElementsAt(namespace);
      NestedSizes(Value(), sizing, w);
    }

    /** Sizing, allocating and writing in place: the array is filled to its last byte. */
    method SerializeToArray(d: bool, sizing: MetricOrder, o: MetricOrder) returns (a: array<Byte>)
      requires Valid() && MetricOrdered(sizing, Value()) && MetricOrdered(o, Value())
      requires |Written(Value(), o, d, false)| < TWO_TO_31
      modifies this`cachedSize, namespace, config, lastAdvertised, timestamp
      ensures Value() == old(Value()) && fresh(a) && a[..] == Written(Value(), o, d, false)
    {
      hide SizesCached, SizesFit, MetricSize, Elements, TimeOf, ConfigOf, MetricOrdered, EncodeRecords;
      var size := ByteSize(sizing);
      WalkedOrders(Value(), o, d, false);
      ByteSizeExact(Value(), Walked(o, d, false), sizing);
      SizesReady(sizing, Walked(o, d, false));
      a := new Byte[size];
      var end := InternalSerializeWithCachedSizesToArray(d, o, a, 0);
      assert a[..] == a[..end] == Written(Value(), o, d, false);
    }

    /** A whole buffer, read into a new message. */
    static method ParseFromBytes(b: Bytes) returns (ok: bool, m: MetricMessage)
      ensures fresh(m) && m.Valid()
      ensures match ParseWhole(ApplyMetric, NO_METRIC, b)
              case None => !ok
              case Some(x) => ok && m.Value() == x
    {
      hide Parse;
      m := new MetricMessage();
      var input := new CodedInputStream(b);
      ok := m.MergePartialFromCodedStream(input);
      ok := ok && input.legitimateEnd;
    }

    method MergeNamespace(from: seq<NamespaceElementMessage>)
      modifies this`namespace
      ensures Elements(namespace) == old(Elements(namespace)) + old(Elements(from))
      ensures forall e :: e in namespace ==> e in old(namespace) || fresh(e)
    {
      hide Elements;
      ElementsAt(namespace);
      ElementsAt(from);
      ghost var start := namespace;
      var i := 0;
      while i < |from|
        invariant i <= |from| && |namespace| == |start| + i && start <= namespace
        invariant forall j :: |start| <= j < |namespace| ==>
                    fresh(namespace[j]) && namespace[j].Value() == old(from[j - |start|].Value())
      {
        var e := new NamespaceElementMessage();
        e.MergeFrom(from[i]);
        namespace := namespace + [e];
        i := i + 1;
      }
      ElementsAt(namespace);
    }

    method MergeConfig(from: ConfigMapMessage?)
      requires from == null || from != config
      modifies this`config, config
      ensures ConfigOf(config)
          == MergeOption(Messages.MergeConfig, NO_CONFIG, old(ConfigOf(config)), old(ConfigOf(from)))
      ensures config == old(config) || (old(config) == null && fresh(config))
    {
      if from != null {
        if config == null {
          config := new ConfigMapMessage();
        }
        config.MergeFrom(from);
      }
    }

    method MergeTimes(from: MetricMessage)
      requires Valid() && from != this
      requires from.lastAdvertised == null || from.lastAdvertised !in {lastAdvertised, timestamp}
      requires from.timestamp == null || from.timestamp !in {lastAdvertised, timestamp}
      modifies this`lastAdvertised, this`timestamp, lastAdvertised, timestamp
      ensures Valid()
      ensures TimeOf(lastAdvertised)
           == MergeOption(MergeTime, NO_TIME, old(TimeOf(lastAdvertised)), old(TimeOf(from.lastAdvertised)))
      ensures TimeOf(timestamp) == MergeOption(MergeTime, NO_TIME, old(TimeOf(timestamp)), old(TimeOf(from.timestamp)))
      ensures lastAdvertised == old(lastAdvertised) || (old(lastAdvertised) == null && fresh(lastAdvertised))
      ensures timestamp == old(timestamp) || (old(timestamp) == null && fresh(timestamp))
    {
      if from.lastAdvertised != null {
        if lastAdvertised == null {
          lastAdvertised := new TimeMessage();
        }
        lastAdvertised.MergeFrom(from.lastAdvertised);
      }
      if from.timestamp != null {
        if timestamp == null {
          timestamp := new TimeMessage();
        }
        timestamp.MergeFrom(from.timestamp);
      }
    }

    method MergeScalars(from: MetricMessage)
      requires from != this
      modifies this`tags, this`data, this`version, this`unit, this`description
      ensures tags == old(tags) + from.tags && data == (if from.data.NotSet? then old(data) else from.data)
      ensures version == (if from.version != 0 then from.version else old(version))
      ensures unit == Override(old(unit), from.unit) && description == Override(old(description), from.description)
    {
      tags := tags + from.tags;
      if from.data != NotSet {
        data := from.data;
      }
      if from.version != 0 {
        version := from.version;
      }
      if from.unit != [] {
        unit := from.unit;
      }
      if from.description != [] {
        description := from.description;
      }
    }

    /** Nothing of `from` belongs to this message. */
    ghost predicate Separate(from: MetricMessage)
      reads this, from
    {
      && from != this && (from.config == null || from.config != config)
      && (from.lastAdvertised == null || from.lastAdvertised !in {lastAdvertised, timestamp})
      && (from.timestamp == null || from.timestamp !in {lastAdvertised, timestamp})
    }

    method MergePointers(from: MetricMessage)
      requires Valid() && Separate(from)
      modifies this`config, this`lastAdvertised, this`timestamp, config, lastAdvertised, timestamp
      ensures Valid() && PointersKept()
      ensures ConfigOf(config)
          == MergeOption(Messages.MergeConfig, NO_CONFIG, old(ConfigOf(config)), old(ConfigOf(from.config)))
      ensures TimeOf(lastAdvertised)
           == MergeOption(MergeTime, NO_TIME, old(TimeOf(lastAdvertised)), old(TimeOf(from.lastAdvertised)))
      ensures TimeOf(timestamp) == MergeOption(MergeTime, NO_TIME, old(TimeOf(timestamp)), old(TimeOf(from.timestamp)))
    {
      hide MergeTime, Messages.MergeConfig, MergeOption;
      MergeConfig(from.config);
      MergeTimes(from);
    }

    /** Everything but the namespace. */
    ghost function Fields(): Metric
      reads this, config, lastAdvertised, timestamp
    {
      Metric([], version, ConfigOf(config), TimeOf(lastAdvertised), tags, TimeOf(timestamp), unit, description, data)
    }

    method MergeFields(from: MetricMessage)
      requires Valid() && Separate(from)
      modifies this, config, lastAdvertised, timestamp
      ensures Valid() && Fields() == MergeMetric(old(Fields()), old(from.Fields())) && PointersKept()
      ensures namespace == old(namespace)
    {
      hide MergeTime, Messages.MergeConfig, MergeOption, Override, TimeOf, ConfigOf;
      ghost var mine, theirs := Fields(), from.Fields();
      MergePointers(from);
      MergeScalars(from);
      assert mine.namespace + theirs.namespace == [];
    }

    method MergeFrom(from: MetricMessage)
      requires Valid() && Separate(from)
      modifies this, config, lastAdvertised, timestamp
      ensures Valid() && Value() == MergeMetric(old(Value()), old(from.Value())) && PointersKept()
    {
      hide Elements, TimeOf, ConfigOf, MergeTime, Messages.MergeConfig, MergeOption, Override;
      ghost var mine, theirs := Value(), from.Value();
      MergeFields(from);
      MergeNamespace(from.namespace);
      assert Value().(namespace := []) == MergeMetric(mine.(namespace := []), theirs.(namespace := []));
    }
  }
}

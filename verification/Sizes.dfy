/** ByteSize as the code adds it up, and its agreement with what is written. Nested length prefixes are
    these sizes, and a deterministic writer sorts map keys while ByteSize does not: so the size has to be
    exact and must not depend on the order in which maps are walked. */
module Sizes {
  import opened Options
  import opened Seqs
  import opened Wire
  import opened MessageLoop
  import opened Messages
  import opened MergeProofs
  import opened RoundTrip

  function Int64Size(i: Int64): nat { VarintSize(FromInt64(i)) }

  /** Negative 32-bit numbers take ten bytes. */
  function Int32Size(i: Int32): nat { if i < 0 then 10 else VarintSize(i) }

  function BytesSize(s: Bytes): nat { VarintSize(|s|) + |s| }

  function DoubleSize(d: UInt64): nat { 8 }
  function BoolSize(b: bool): nat { 1 }

  function MessageSize(n: nat): nat { VarintSize(n) + n }

  function TimeSize(t: Time): nat {
    (if t.sec != 0 then 1 + Int64Size(t.sec) else 0) + (if t.nsec != 0 then 1 + Int64Size(t.nsec) else 0)
  }

  function ElementSize(e: NamespaceElement): nat {
    (if e.value != [] then 1 + BytesSize(e.value) else 0)
    + (if e.description != [] then 1 + BytesSize(e.description) else 0)
    + (if e.name != [] then 1 + BytesSize(e.name) else 0)
  }

  function EntrySize(k: Bytes, valueSize: nat): nat { 1 + BytesSize(k) + 1 + valueSize }

  /** A sum over the keys of a map, in the order they are walked. */
  function Sum(f: Bytes -> nat, order: seq<Bytes>): nat {
    if order == [] then 0 else f(order[0]) + Sum(f, order[1..])
  }

  /** What one entry adds to the size: its tag, its length and itself. */
  function EntryCost<V>(valueSize: V -> nat, m: map<Bytes, V>): Bytes -> nat {
    (k: Bytes) => if k in m then 1 + MessageSize(EntrySize(k, valueSize(m[k]))) else 0
  }

  function MapSize<V>(valueSize: V -> nat, m: map<Bytes, V>, order: seq<Bytes>): nat {
    Sum(EntryCost(valueSize, m), order)
  }

  function ConfigSize(c: ConfigMap, o: ConfigOrder): nat {
    MapSize(Int64Size, c.ints, o.ints)
    + MapSize(BytesSize, c.strings, o.strings)
    + MapSize(DoubleSize, c.floats, o.floats)
    + MapSize(BoolSize, c.bools, o.bools)
  }

  function NamespaceSize(es: seq<NamespaceElement>): nat {
    if es == [] then 0 else 1 + MessageSize(ElementSize(es[0])) + NamespaceSize(es[1..])
  }

  /** Fields 16 and 17 have two-byte tags. */
  function DataSize(d: Data): nat {
    match d
    case NotSet => 0
    case StringData(s) => 1 + BytesSize(s)
    case Float32Data(_) => 1 + 4
    case Float64Data(_) => 1 + 8
    case Int32Data(i) => 1 + Int32Size(i)
    case Int64Data(i) => 1 + Int64Size(i)
    case BytesData(s) => 1 + BytesSize(s)
    case BoolData(_) => 1 + 1
    case Uint32Data(u) => 2 + VarintSize(u)
    case Uint64Data(u) => 2 + VarintSize(u)
  }

  function TimeFieldSize(t: Option<Time>): nat {
    if t.Some? then 1 + MessageSize(TimeSize(t.value)) else 0
  }

  function MetricSize(m: Metric, o: MetricOrder): nat {
    (if m.version != 0 then 1 + Int64Size(m.version) else 0)
    + (if m.config.Some? then 1 + MessageSize(ConfigSize(m.config.value, o.config)) else 0)
    + TimeFieldSize(m.lastAdvertised) + TimeFieldSize(m.timestamp)
    + (if m.unit != [] then 1 + BytesSize(m.unit) else 0)
    + (if m.description != [] then 1 + BytesSize(m.description) else 0)
    + NamespaceSize(m.namespace)
    + MapSize(BytesSize, m.tags, o.tags)
    + DataSize(m.data)
  }

  // ----- exactness

  lemma WrittenValueSize(v: Value)
    requires v.Delimited? ==> |v.bytes| < TWO_TO_31
    ensures |EncodeValue(v)|
         == match v
            case Varint(n) => VarintSize(n)
            case Fixed64(_) => 8
            case Delimited(b) => BytesSize(b)
            case Fixed32(_) => 4
            case Group => 0
  {
    match v {
      case Varint(n) => VarintSizeExact(n);
      case Delimited(b) => VarintSizeExact(|b|);
      case _ =>
    }
  }

  lemma OneRecordSize(r: Record)
    requires r.tag < 0x4000 && (r.value.Delimited? ==> |r.value.bytes| < TWO_TO_31)
    ensures |EncodeRecords([r])| == |EncodeRecord(r)|
    ensures |EncodeRecord(r)| == (if r.tag < 0x80 then 1 else 2) + |EncodeValue(r.value)|
  {
    VarintSizeExact(r.tag);
    assert [r][1..] == [];
  }

  lemma WhenSize(c: bool, r: Record)
    requires r.tag < 0x80 && (r.value.Delimited? ==> |r.value.bytes| < TWO_TO_31)
    ensures |EncodeRecords(When(c, r))| == if c then 1 + |EncodeValue(r.value)| else 0
  {
    OneRecordSize(r);
  }

  lemma TimeSizeExact(t: Time)
    ensures |EncodeRecords(TimeRecords(t))| == TimeSize(t)
  {
    var r1, r2 := Record(8, Varint(FromInt64(t.sec))), Record(16, Varint(FromInt64(t.nsec)));
    EncodeConcat(When(t.sec != 0, r1), When(t.nsec != 0, r2));
    WhenSize(t.sec != 0, r1);
    WhenSize(t.nsec != 0, r2);
    WrittenValueSize(r1.value);
    WrittenValueSize(r2.value);
  }

  lemma TextFieldSize(tag: UInt32, s: Bytes)
    requires 0 < tag < 0x80 && |EncodeRecords(When(s != [], Record(tag, Delimited(s))))| < TWO_TO_31
    ensures |EncodeRecords(When(s != [], Record(tag, Delimited(s))))| == if s != [] then 1 + BytesSize(s) else 0
  {
    if s != [] {
      var r := Record(tag, Delimited(s));
      assert [r] + [] == [r];
      SmallCons(r, []);
      WhenSize(true, r);
      WrittenValueSize(r.value);
    }
  }

  lemma ElementSizeExact(e: NamespaceElement)
    requires |EncodeRecords(ElementRecords(e))| < TWO_TO_31
    ensures |EncodeRecords(ElementRecords(e))| == ElementSize(e)
  {
    var r1 := When(e.value != [], Record(10, Delimited(e.value)));
    var r2 := When(e.description != [], Record(18, Delimited(e.description)));
    var r3 := When(e.name != [], Record(26, Delimited(e.name)));
    EncodeConcat(r1 + r2, r3);
    EncodeConcat(r1, r2);
    TextFieldSize(10, e.value);
    TextFieldSize(18, e.description);
    TextFieldSize(26, e.name);
  }

  lemma EntrySizeExact(k: Bytes, valueTag: UInt32, v: Value)
    requires valueTag < 0x80 && |EncodeRecords(EntryRecords(k, valueTag, v))| < TWO_TO_31
    ensures |EncodeRecords(EntryRecords(k, valueTag, v))| == EntrySize(k, |EncodeValue(v)|)
  {
    var r1, r2 := Record(10, Delimited(k)), Record(valueTag, v);
    assert EntryRecords(k, valueTag, v) == [r1] + [r2];
    EncodeConcat([r1], [r2]);
    SmallCons(r1, [r2]);
    assert [r2] + [] == [r2];
    SmallCons(r2, []);
    OneRecordSize(r1);
    OneRecordSize(r2);
    WrittenValueSize(r1.value);
  }

  lemma SmallEntryValue(k: Bytes, valueTag: UInt32, v: Value)
    requires |EncodeRecords(EntryRecords(k, valueTag, v))| < TWO_TO_31
    ensures |EncodeValue(v)| < TWO_TO_31
  {
    var r1, r2 := Record(10, Delimited(k)), Record(valueTag, v);
    assert EntryRecords(k, valueTag, v) == [r1] + [r2];
    EncodeConcat([r1], [r2]);
    RecordsLength([r2], 0);
  }

  lemma {:induction false} MapSizeExact<V>(tag: UInt32, valueTag: UInt32, enc: V -> Value, valueSize: V -> nat,
                                           m: map<Bytes, V>, order: seq<Bytes>)
    requires (forall k :: k in order ==> k in m) && tag < 0x80 && valueTag < 0x80
    requires forall k :: k in m && |EncodeValue(enc(m[k]))| < TWO_TO_31 ==> |EncodeValue(enc(m[k]))| == valueSize(m[k])
    requires |EncodeRecords(MapRecords(tag, valueTag, enc, m, order))| < TWO_TO_31
    ensures |EncodeRecords(MapRecords(tag, valueTag, enc, m, order))| == MapSize(valueSize, m, order)
    decreases order
  {
    if order != [] {
      var k := order[0];
      var r := EntryRecord(tag, valueTag, k, enc(m[k]));
      var rest := MapRecords(tag, valueTag, enc, m, order[1..]);
      EncodeConcat([r], rest);
      SmallCons(r, rest);
      OneRecordSize(r);
      WrittenValueSize(r.value);
      SmallEntryValue(k, valueTag, enc(m[k]));
      EntrySizeExact(k, valueTag, enc(m[k]));
      MapSizeExact(tag, valueTag, enc, valueSize, m, order[1..]);
    }
  }

  lemma IntsSize(m: map<Bytes, Int64>, order: seq<Bytes>)
    requires forall k :: k in order ==> k in m
    requires |EncodeRecords(MapRecords(10, INT_VALUE, IntValue, m, order))| < TWO_TO_31
    ensures |EncodeRecords(MapRecords(10, INT_VALUE, IntValue, m, order))| == MapSize(Int64Size, m, order)
  {
    forall k | k in m ensures |EncodeValue(IntValue(m[k]))| == Int64Size(m[k]) {
      WrittenValueSize(IntValue(m[k]));
    }
    MapSizeExact(10, INT_VALUE, IntValue, Int64Size, m, order);
  }

  lemma StringsSize(tag: UInt32, m: map<Bytes, Bytes>, order: seq<Bytes>)
    requires (forall k :: k in order ==> k in m) && tag < 0x80
    requires |EncodeRecords(MapRecords(tag, STRING_VALUE, StringValue, m, order))| < TWO_TO_31
    ensures |EncodeRecords(MapRecords(tag, STRING_VALUE, StringValue, m, order))|
         == MapSize(BytesSize, m, order)
  {
    forall k | k in m && |EncodeValue(StringValue(m[k]))| < TWO_TO_31
      ensures |EncodeValue(StringValue(m[k]))| == BytesSize(m[k])
    {
      WrittenValueSize(StringValue(m[k]));
    }
    MapSizeExact(tag, STRING_VALUE, StringValue, BytesSize, m, order);
  }

  lemma FloatsSize(m: map<Bytes, UInt64>, order: seq<Bytes>)
    requires forall k :: k in order ==> k in m
    requires |EncodeRecords(MapRecords(26, DOUBLE_VALUE, DoubleValue, m, order))| < TWO_TO_31
    ensures |EncodeRecords(MapRecords(26, DOUBLE_VALUE, DoubleValue, m, order))| == MapSize(DoubleSize, m, order)
  {
    MapSizeExact(26, DOUBLE_VALUE, DoubleValue, DoubleSize, m, order);
  }

  lemma BoolsSize(m: map<Bytes, bool>, order: seq<Bytes>)
    requires forall k :: k in order ==> k in m
    requires |EncodeRecords(MapRecords(34, BOOL_VALUE, BoolValue, m, order))| < TWO_TO_31
    ensures |EncodeRecords(MapRecords(34, BOOL_VALUE, BoolValue, m, order))| == MapSize(BoolSize, m, order)
  {
    MapSizeExact(34, BOOL_VALUE, BoolValue, BoolSize, m, order);
  }

  lemma ConfigSizeExact(c: ConfigMap, o: ConfigOrder)
    requires ConfigOrdered(o, c) && |EncodeRecords(ConfigRecords(c, o))| < TWO_TO_31
    ensures |EncodeRecords(ConfigRecords(c, o))| == ConfigSize(c, o)
  {
    var r1 := MapRecords(10, INT_VALUE, IntValue, c.ints, o.ints);
    var r2 := MapRecords(18, STRING_VALUE, StringValue, c.strings, o.strings);
    var r3 := MapRecords(26, DOUBLE_VALUE, DoubleValue, c.floats, o.floats);
    var r4 := MapRecords(34, BOOL_VALUE, BoolValue, c.bools, o.bools);
    EncodeFour(r1, r2, r3, r4);
    IntsSize(c.ints, o.ints);
    StringsSize(18, c.strings, o.strings);
    FloatsSize(c.floats, o.floats);
    BoolsSize(c.bools, o.bools);
  }

  lemma EncodeFour(a: seq<Record>, b: seq<Record>, c: seq<Record>, d: seq<Record>)
    ensures EncodeRecords(a + b + c + d) == EncodeRecords(a) + EncodeRecords(b) + EncodeRecords(c) + EncodeRecords(d)
  {
    EncodeConcat(a + b + c, d);
    EncodeConcat(a + b, c);
    EncodeConcat(a, b);
  }

  /** A sub-message costs its tag, the varint of its size and its size. */
  lemma SubMessageSize(tag: UInt32, rs: seq<Record>)
    requires tag < 0x80 && |EncodeRecords([Record(tag, Delimited(EncodeRecords(rs)))])| < TWO_TO_31
    ensures |EncodeRecords(rs)| < TWO_TO_31
    ensures |EncodeRecords([Record(tag, Delimited(EncodeRecords(rs)))])| == 1 + MessageSize(|EncodeRecords(rs)|)
  {
    var r := Record(tag, Delimited(EncodeRecords(rs)));
    assert [r] + [] == [r];
    SmallCons(r, []);
    OneRecordSize(r);
    WrittenValueSize(r.value);
  }

  lemma {:induction false} NamespaceSizeExact(es: seq<NamespaceElement>)
    requires |EncodeRecords(NamespaceRecords(es))| < TWO_TO_31
    ensures |EncodeRecords(NamespaceRecords(es))| == NamespaceSize(es)
    decreases es
  {
    if es != [] {
      var r := Record(10, Delimited(EncodeRecords(ElementRecords(es[0]))));
      EncodeConcat([r], NamespaceRecords(es[1..]));
      SubMessageSize(10, ElementRecords(es[0]));
      ElementSizeExact(es[0]);
      NamespaceSizeExact(es[1..]);
    }
  }

  lemma TimeFieldSizeExact(tag: UInt32, t: Option<Time>)
    requires tag < 0x80 && |EncodeRecords(TimeField(tag, t))| < TWO_TO_31
    ensures |EncodeRecords(TimeField(tag, t))| == TimeFieldSize(t)
  {
    if t.Some? {
      SubMessageSize(tag, TimeRecords(t.value));
      TimeSizeExact(t.value);
    }
  }

  lemma ConfigFieldSize(c: Option<ConfigMap>, o: ConfigOrder)
    requires (c.Some? ==> ConfigOrdered(o, c.value)) && |EncodeRecords(ConfigField(c, o))| < TWO_TO_31
    ensures |EncodeRecords(ConfigField(c, o))| == if c.Some? then 1 + MessageSize(ConfigSize(c.value, o)) else 0
  {
    if c.Some? {
      SubMessageSize(26, ConfigRecords(c.value, o));
      ConfigSizeExact(c.value, o);
    }
  }

  lemma Int32SizeExact(i: Int32)
    ensures Int32Size(i) == VarintSize(FromInt32(i))
  {
  }

  lemma DataSizeExact(d: Data)
    requires |EncodeRecords(DataRecords(d))| < TWO_TO_31
    ensures |EncodeRecords(DataRecords(d))| == DataSize(d)
  {
    if !d.NotSet? {
      var r := DataRecords(d)[0];
      assert [r] + [] == DataRecords(d);
      SmallCons(r, []);
      OneRecordSize(r);
      WrittenValueSize(r.value);
      if d.Int32Data? {
        Int32SizeExact(d.i);
      }
    }
  }

  lemma HeadSizeExact(m: Metric, o: MetricOrder)
    requires MetricOrdered(o, m) && |EncodeRecords(MetricHead(m, o))| < TWO_TO_31
    ensures |EncodeRecords(MetricHead(m, o))|
         == NamespaceSize(m.namespace) + (if m.version != 0 then 1 + Int64Size(m.version) else 0)
            + (if m.config.Some? then 1 + MessageSize(ConfigSize(m.config.value, o.config)) else 0)
            + TimeFieldSize(m.lastAdvertised)
  {
    var version := Record(16, Varint(FromInt64(m.version)));
    EncodeFour(NamespaceRecords(m.namespace), When(m.version != 0, version), ConfigField(m.config, o.config),
               TimeField(34, m.lastAdvertised));
    NamespaceSizeExact(m.namespace);
    WhenSize(m.version != 0, version);
    WrittenValueSize(version.value);
    ConfigFieldSize(m.config, o.config);
    TimeFieldSizeExact(34, m.lastAdvertised);
  }

  lemma RestSizeExact(m: Metric, o: MetricOrder)
    requires MetricOrdered(o, m) && |EncodeRecords(MetricRest(m, o))| < TWO_TO_31
    ensures |EncodeRecords(MetricRest(m, o))|
         == MapSize(BytesSize, m.tags, o.tags) + TimeFieldSize(m.timestamp)
            + (if m.unit != [] then 1 + BytesSize(m.unit) else 0)
            + (if m.description != [] then 1 + BytesSize(m.description) else 0) + DataSize(m.data)
  {
    var tags, time := MapRecords(42, STRING_VALUE, StringValue, m.tags, o.tags), TimeField(50, m.timestamp);
    var unit := When(m.unit != [], Record(58, Delimited(m.unit)));
    var text := When(m.description != [], Record(66, Delimited(m.description)));
    EncodeConcat(tags + time + unit + text, DataRecords(m.data));
    EncodeFour(tags, time, unit, text);
    StringsSize(42, m.tags, o.tags);
    TimeFieldSizeExact(50, m.timestamp);
    TextFieldSize(58, m.unit);
    TextFieldSize(66, m.description);
    DataSizeExact(m.data);
  }

  // ----- independence of the order

  lemma {:induction false} SumConcat(f: Bytes -> nat, a: seq<Bytes>, b: seq<Bytes>)
    ensures Sum(f, a + b) == Sum(f, a) + Sum(f, b)
  {
    if a == [] {
      assert a + b == b;
    } else {
      assert (a + b)[1..] == a[1..] + b;
      SumConcat(f, a[1..], b);
    }
  }

  predicate SameKeys(a: seq<Bytes>, b: seq<Bytes>) {
    (forall k :: k in a ==> k in b) && (forall k :: k in b ==> k in a)
  }

  lemma {:induction false} SumOfAnyOrder(f: Bytes -> nat, a: seq<Bytes>, b: seq<Bytes>)
    requires Distinct(a) && Distinct(b) && SameKeys(a, b)
    ensures Sum(f, a) == Sum(f, b)
    decreases a
  {
    FirstIn(b);
    if a != [] {
      assert a[0] in a && a[0] in b;
      var i :| 0 <= i < |b| && b[i] == a[0];
      var b' := b[..i] + b[i + 1..];
      assert b == b[..i] + ([a[0]] + b[i + 1..]);
      SumConcat(f, b[..i], [a[0]] + b[i + 1..]);
      SumConcat(f, b[..i], b[i + 1..]);
      assert ([a[0]] + b[i + 1..])[1..] == b[i + 1..];
      WithoutOne(a, b, i);
      SumOfAnyOrder(f, a[1..], b');
    }
  }

  lemma WithoutOne(a: seq<Bytes>, b: seq<Bytes>, i: nat)
    requires Distinct(a) && Distinct(b) && SameKeys(a, b) && a != [] && i < |b| && b[i] == a[0]
    ensures Distinct(a[1..]) && Distinct(b[..i] + b[i + 1..]) && SameKeys(a[1..], b[..i] + b[i + 1..])
  {
    var b' := b[..i] + b[i + 1..];
    forall k | k in a[1..] ensures k in b' {
      assert k in a && k in b;
      var j :| 0 <= j < |b| && b[j] == k;
      assert j != i;
      assert k == if j < i then b'[j] else b'[j - 1];
    }
    forall k | k in b' ensures k in a[1..] {
      assert k in b && k != a[0];
      assert k in a;
    }
  }

  lemma MapSizeOfAnyOrder<V>(valueSize: V -> nat, m: map<Bytes, V>, o1: seq<Bytes>, o2: seq<Bytes>)
    requires Enumerates(o1, m) && Enumerates(o2, m)
    ensures MapSize(valueSize, m, o1) == MapSize(valueSize, m, o2)
  {
    SumOfAnyOrder(EntryCost(valueSize, m), o1, o2);
  }

  lemma ConfigSizeOfAnyOrder(c: ConfigMap, o1: ConfigOrder, o2: ConfigOrder)
    requires ConfigOrdered(o1, c) && ConfigOrdered(o2, c)
    ensures ConfigSize(c, o1) == ConfigSize(c, o2)
  {
    MapSizeOfAnyOrder(Int64Size, c.ints, o1.ints, o2.ints);
    MapSizeOfAnyOrder(BytesSize, c.strings, o1.strings, o2.strings);
    MapSizeOfAnyOrder(DoubleSize, c.floats, o1.floats, o2.floats);
    MapSizeOfAnyOrder(BoolSize, c.bools, o1.bools, o2.bools);
  }

  lemma MetricSizeOfAnyOrder(m: Metric, o1: MetricOrder, o2: MetricOrder)
    requires MetricOrdered(o1, m) && MetricOrdered(o2, m)
    ensures MetricSize(m, o1) == MetricSize(m, o2)
  {
    MapSizeOfAnyOrder(BytesSize, m.tags, o1.tags, o2.tags);
    if m.config.Some? {
      ConfigSizeOfAnyOrder(m.config.value, o1.config, o2.config);
    }
  }

  lemma {:induction false} DistinctCount(order: seq<Bytes>)
    requires Distinct(order)
    ensures |set k | k in order| == |order|
    decreases order
  {
    if order != [] {
      DistinctCount(order[1..]);
      assert (set k | k in order) == {order[0]} + (set k | k in order[1..]);
    }
  }

  lemma OrderCount<V>(order: seq<Bytes>, m: map<Bytes, V>)
    requires Enumerates(order, m)
    ensures |order| == |m|
  {
    DistinctCount(order);
    assert (set k | k in order) == m.Keys;
  }

  /** A sum without its tags, and with them. */
  lemma {:induction false} SumOfEntries<V>(valueSize: V -> nat, m: map<Bytes, V>, order: seq<Bytes>, i: nat)
    requires (forall k :: k in order ==> k in m) && i < |order|
    ensures MapSize(valueSize, m, order[..i + 1])
         == MapSize(valueSize, m, order[..i]) + 1 + MessageSize(EntrySize(order[i], valueSize(m[order[i]])))
  {
    assert order[..i + 1] == order[..i] + [order[i]];
    var last := [order[i]];
    SumConcat(EntryCost(valueSize, m), order[..i], last);
    assert last[1..] == [];
  }

  /** The loop over one map field inside ByteSize: a tag byte for every entry first, then the entries. */
  method MapByteSize<V>(valueSize: V -> nat, m: map<Bytes, V>, order: seq<Bytes>) returns (total: nat)
    requires Enumerates(order, m)
    ensures total == MapSize(valueSize, m, order)
  {
    hide MapSize;
    OrderCount(order, m);
    total := 1 * |m|;
    var i := 0;
    assert MapSize(valueSize, m, order[..0]) == 0 by {
      NoEntries(valueSize, m, order);
    }
    while i < |order|
      invariant i <= |order|
      invariant total + i == |m| + MapSize(valueSize, m, order[..i])
    {
      SumOfEntries(valueSize, m, order, i);
      total := total + MessageSize(EntrySize(order[i], valueSize(m[order[i]])));
      i := i + 1;
    }
    assert order[..i] == order;
  }

  lemma NoEntries<V>(valueSize: V -> nat, m: map<Bytes, V>, order: seq<Bytes>)
    ensures MapSize(valueSize, m, order[..0]) == 0
  {
  }

  // ----- main result

  /** ByteSize is the number of bytes written, whichever order the writer and ByteSize walk the maps in. */
  lemma ByteSizeExact(m: Metric, writing: MetricOrder, sizing: MetricOrder)
    requires MetricOrdered(writing, m) && MetricOrdered(sizing, m)
    requires |WriteMetric(m, writing)| < TWO_TO_31
    ensures MetricSize(m, sizing) == |WriteMetric(m, writing)|
  {
    SmallParts(MetricHead(m, writing), MetricRest(m, writing));
    EncodeConcat(MetricHead(m, writing), MetricRest(m, writing));
    HeadSizeExact(m, writing);
    RestSizeExact(m, writing);
    MetricSizeOfAnyOrder(m, writing, sizing);
  }
}

/** The messages that carry metrics: their values, what one record does to each of them, the records
    each of them is written as, and how two of them merge. */
module Messages {
  import opened Options
  import opened Wire
  import opened MessageLoop

  // ----- integers and text on the wire

  /** Signed numbers travel as their two's complement in 64 bits. */
  function FromInt64(i: Int64): UInt64 { if i < 0 then i + TWO_TO_64 else i }
  function ToInt64(u: UInt64): Int64 { if u < TWO_TO_63 then u else u - TWO_TO_64 }
  function FromInt32(i: Int32): UInt64 { FromInt64(i) }
  function ToInt32(u: UInt64): Int32 {
    var low := u % TWO_TO_32;
    if low < TWO_TO_31 then low else low - TWO_TO_32
  }

  lemma IntegersSurvive(i: Int64, j: Int32)
    ensures ToInt64(FromInt64(i)) == i && ToInt32(FromInt32(j)) == j
  {
    if j < 0 {
      assert FromInt32(j) == 0xFFFF_FFFF * TWO_TO_32 + (j + TWO_TO_32);
    }
  }

  predicate Tail(b: Byte) { 0x80 <= b <= 0xBF }

  /** Structurally valid UTF-8, section 4 of RFC 3629. */
  predicate Utf8(b: Bytes)
    decreases |b|
  {
    || b == []
    || (b[0] < 0x80 && Utf8(b[1..]))
    || (|b| >= 2 && 0xC2 <= b[0] <= 0xDF && Tail(b[1]) && Utf8(b[2..]))
    || (|b| >= 3 && 0xE0 <= b[0] <= 0xEF && Tail(b[1]) && Tail(b[2])
        && (b[0] == 0xE0 ==> b[1] >= 0xA0) && (b[0] == 0xED ==> b[1] <= 0x9F) && Utf8(b[3..]))
    || (|b| >= 4 && 0xF0 <= b[0] <= 0xF4 && Tail(b[1]) && Tail(b[2]) && Tail(b[3])
        && (b[0] == 0xF0 ==> b[1] >= 0x90) && (b[0] == 0xF4 ==> b[1] <= 0x8F) && Utf8(b[4..]))
  }

  function AsVarint(v: Value): UInt64 { if v.Varint? then v.v else 0 }
  function AsFixed64(v: Value): UInt64 { if v.Fixed64? then v.d else 0 }
  function AsFixed32(v: Value): UInt32 { if v.Fixed32? then v.f else 0 }
  function AsBytes(v: Value): Bytes { if v.Delimited? then v.bytes else [] }

  /** A record that is written only when its field is set. */
  function When(c: bool, r: Record): seq<Record> { if c then [r] else [] }

  lemma FoldWhen<M>(apply: (M, Record) -> Option<M>, m: M, c: bool, r: Record)
    ensures Fold(apply, m, When(c, r)) == if c then apply(m, r) else Some(m)
  {
    if c && apply(m, r).Some? {
      assert Fold(apply, apply(m, r).value, [r][1..]) == apply(m, r);
    }
  }

  // ----- Time

  datatype Time = Time(sec: Int64, nsec: Int64)
  const NO_TIME := Time(0, 0)

  function ApplyTime(t: Time, r: Record): Option<Time> {
    if r.tag == 8 then Some(t.(sec := ToInt64(AsVarint(r.value))))
    else if r.tag == 16 then Some(t.(nsec := ToInt64(AsVarint(r.value))))
    else Some(t)
  }

  function TimeRecords(t: Time): seq<Record> {
    When(t.sec != 0, Record(8, Varint(FromInt64(t.sec))))
    + When(t.nsec != 0, Record(16, Varint(FromInt64(t.nsec))))
  }

  function MergeTime(a: Time, b: Time): Time {
    Time(if b.sec != 0 then b.sec else a.sec, if b.nsec != 0 then b.nsec else a.nsec)
  }

  // ----- NamespaceElement

  datatype NamespaceElement = NamespaceElement(value: Bytes, description: Bytes, name: Bytes)
  const NO_ELEMENT := NamespaceElement([], [], [])

  function ApplyElement(e: NamespaceElement, r: Record): Option<NamespaceElement> {
    var text := AsBytes(r.value);
    if r.tag == 10 then if Utf8(text) then Some(e.(value := text)) else None
    else if r.tag == 18 then if Utf8(text) then Some(e.(description := text)) else None
    else if r.tag == 26 then if Utf8(text) then Some(e.(name := text)) else None
    else Some(e)
  }

  function ElementRecords(e: NamespaceElement): seq<Record> {
    When(e.value != [], Record(10, Delimited(e.value)))
    + When(e.description != [], Record(18, Delimited(e.description)))
    + When(e.name != [], Record(26, Delimited(e.name)))
  }

  function Override(a: Bytes, b: Bytes): Bytes { if b != [] then b else a }

  function MergeElement(a: NamespaceElement, b: NamespaceElement): NamespaceElement {
    NamespaceElement(Override(a.value, b.value), Override(a.description, b.description), Override(a.name, b.name))
  }

  predicate ElementText(e: NamespaceElement) { Utf8(e.value) && Utf8(e.description) && Utf8(e.name) }

  // ----- map entries, section "Maps": a message with a key in field 1 and a value in field 2

  datatype Entry = Entry(key: Bytes, value: Value)

  const INT_VALUE: UInt32 := 16
  const STRING_VALUE: UInt32 := 18
  const DOUBLE_VALUE: UInt32 := 17
  const BOOL_VALUE: UInt32 := 16

  function UpdateEntry(valueTag: UInt32, e: Entry, r: Record): Option<Entry> {
    if r.tag == 10 then Some(e.(key := AsBytes(r.value)))
    else if r.tag == valueTag then Some(e.(value := r.value))
    else Some(e)
  }

  function ApplyEntry(valueTag: UInt32): (Entry, Record) -> Option<Entry> {
    (e: Entry, r: Record) => UpdateEntry(valueTag, e, r)
  }

  /** A missing key or value reads as the default. */
  function ReadEntry(valueTag: UInt32, default: Value, b: Bytes): Option<Entry> {
    ParseWhole(ApplyEntry(valueTag), Entry([], default), b)
  }

  function EntryRecords(k: Bytes, valueTag: UInt32, v: Value): seq<Record> {
    [Record(10, Delimited(k)), Record(valueTag, v)]
  }

  function EntryRecord(tag: UInt32, valueTag: UInt32, k: Bytes, v: Value): Record {
    Record(tag, Delimited(EncodeRecords(EntryRecords(k, valueTag, v))))
  }

  /** A map field as it is written, its keys in some order. */
  function MapRecords<V>(tag: UInt32, valueTag: UInt32, enc: V -> Value, m: map<Bytes, V>,
      order: seq<Bytes>): seq<Record>
    requires forall k :: k in order ==> k in m
  {
    if order == [] then []
    else [EntryRecord(tag, valueTag, order[0], enc(m[order[0]]))] + MapRecords(tag, valueTag, enc, m, order[1..])
  }

  /** An iteration order of a map: every key once. */
  predicate Enumerates<V>(order: seq<Bytes>, m: map<Bytes, V>) {
    && (forall k :: k in order ==> k in m)
    && (forall k :: k in m ==> k in order)
    && (forall i, j :: 0 <= i < j < |order| ==> order[i] != order[j])
  }

  function IntValue(i: Int64): Value { Varint(FromInt64(i)) }
  function StringValue(s: Bytes): Value { Delimited(s) }
  function DoubleValue(d: UInt64): Value { Fixed64(d) }
  function BoolValue(b: bool): Value { Varint(if b then 1 else 0) }

  // ----- ConfigMap

  datatype ConfigMap = ConfigMap(
    ints: map<Bytes, Int64>, strings: map<Bytes, Bytes>, floats: map<Bytes, UInt64>, bools: map<Bytes, bool>)
  const NO_CONFIG := ConfigMap(map[], map[], map[], map[])

  function ApplyConfig(c: ConfigMap, r: Record): Option<ConfigMap> {
    var b := AsBytes(r.value);
    if r.tag == 10 then
      match ReadEntry(INT_VALUE, Varint(0), b)
      case None => None
      case Some(e) => if Utf8(e.key) then Some(c.(ints := c.ints[e.key := ToInt64(AsVarint(e.value))])) else None
    else if r.tag == 18 then
      match ReadEntry(STRING_VALUE, Delimited([]), b)
      case None => None
      case Some(e) =>
        if Utf8(e.key) && Utf8(AsBytes(e.value)) then Some(c.(strings := c.strings[e.key := AsBytes(e.value)]))
            else None
    else if r.tag == 26 then
      match ReadEntry(DOUBLE_VALUE, Fixed64(0), b)
      case None => None
      case Some(e) => if Utf8(e.key) then Some(c.(floats := c.floats[e.key := AsFixed64(e.value)])) else None
    else if r.tag == 34 then
      match ReadEntry(BOOL_VALUE, Varint(0), b)
      case None => None
      case Some(e) => if Utf8(e.key) then Some(c.(bools := c.bools[e.key := AsVarint(e.value) != 0])) else None
    else Some(c)
  }

  datatype ConfigOrder = ConfigOrder(ints: seq<Bytes>, strings: seq<Bytes>, floats: seq<Bytes>, bools: seq<Bytes>)

  predicate ConfigOrdered(o: ConfigOrder, c: ConfigMap) {
    Enumerates(o.ints, c.ints) && Enumerates(o.strings, c.strings)
    && Enumerates(o.floats, c.floats) && Enumerates(o.bools, c.bools)
  }

  function ConfigRecords(c: ConfigMap, o: ConfigOrder): seq<Record>
    requires ConfigOrdered(o, c)
  {
    MapRecords(10, INT_VALUE, IntValue, c.ints, o.ints)
    + MapRecords(18, STRING_VALUE, StringValue, c.strings, o.strings)
    + MapRecords(26, DOUBLE_VALUE, DoubleValue, c.floats, o.floats)
    + MapRecords(34, BOOL_VALUE, BoolValue, c.bools, o.bools)
  }

  function MergeConfig(a: ConfigMap, b: ConfigMap): ConfigMap {
    ConfigMap(a.ints + b.ints, a.strings + b.strings, a.floats + b.floats, a.bools + b.bools)
  }

  predicate KeyText<V>(m: map<Bytes, V>) { forall k :: k in m ==> Utf8(k) }
  predicate ValueText(m: map<Bytes, Bytes>) { forall k :: k in m ==> Utf8(m[k]) }

  predicate ConfigText(c: ConfigMap) {
    KeyText(c.ints) && KeyText(c.strings) && ValueText(c.strings) && KeyText(c.floats) && KeyText(c.bools)
  }

  // ----- Metric

  datatype Data =
    | NotSet | StringData(s: Bytes) | Float32Data(f: UInt32) | Float64Data(d: UInt64) | Int32Data(i: Int32)
    | Int64Data(l: Int64) | BytesData(b: Bytes) | BoolData(t: bool) | Uint32Data(u: UInt32) | Uint64Data(w: UInt64)

  datatype Metric = Metric(
    namespace: seq<NamespaceElement>, version: Int64, config: Option<ConfigMap>, lastAdvertised: Option<Time>,
    tags: map<Bytes, Bytes>, timestamp: Option<Time>, unit: Bytes, description: Bytes, data: Data)
  const NO_METRIC := Metric([], 0, None, None, map[], None, [], [], NotSet)

  function OrElse<T>(o: Option<T>, default: T): T { if o.Some? then o.value else default }

  function ApplyElementField(m: Metric, b: Bytes): Option<Metric> {
    match ParseWhole(ApplyElement, NO_ELEMENT, b)
    case None => None
    case Some(e) => Some(m.(namespace := m.namespace + [e]))
  }

  function ApplyConfigField(m: Metric, b: Bytes): Option<Metric> {
    match ParseWhole(ApplyConfig, OrElse(m.config, NO_CONFIG), b)
    case None => None
    case Some(c) => Some(m.(config := Some(c)))
  }

  function ApplyTagField(m: Metric, b: Bytes): Option<Metric> {
    match ReadEntry(STRING_VALUE, Delimited([]), b)
    case None => None
    case Some(e) =>
      if Utf8(e.key) && Utf8(AsBytes(e.value)) then Some(m.(tags := m.tags[e.key := AsBytes(e.value)])) else None
  }

  /** The oneof: reading any of its fields replaces the others. */
  function ApplyData(m: Metric, r: Record): Option<Metric> {
    if r.tag == 74 then if Utf8(AsBytes(r.value)) then Some(m.(data := StringData(AsBytes(r.value)))) else None
    else if r.tag == 85 then Some(m.(data := Float32Data(AsFixed32(r.value))))
    else if r.tag == 89 then Some(m.(data := Float64Data(AsFixed64(r.value))))
    else if r.tag == 96 then Some(m.(data := Int32Data(ToInt32(AsVarint(r.value)))))
    else if r.tag == 104 then Some(m.(data := Int64Data(ToInt64(AsVarint(r.value)))))
    else if r.tag == 114 then Some(m.(data := BytesData(AsBytes(r.value))))
    else if r.tag == 120 then Some(m.(data := BoolData(AsVarint(r.value) != 0)))
    else if r.tag == 128 then Some(m.(data := Uint32Data(AsVarint(r.value) % TWO_TO_32)))
    else if r.tag == 136 then Some(m.(data := Uint64Data(AsVarint(r.value))))
    else Some(m)
  }

  function ApplyMetric(m: Metric, r: Record): Option<Metric> {
    var b := AsBytes(r.value);
    if r.tag == 10 then ApplyElementField(m, b)
    else if r.tag == 16 then Some(m.(version := ToInt64(AsVarint(r.value))))
    else if r.tag == 26 then ApplyConfigField(m, b)
    else if r.tag == 34 then
      match ParseWhole(ApplyTime, OrElse(m.lastAdvertised, NO_TIME), b)
      case None => None
      case Some(t) => Some(m.(lastAdvertised := Some(t)))
    else if r.tag == 42 then ApplyTagField(m, b)
    else if r.tag == 50 then
      match ParseWhole(ApplyTime, OrElse(m.timestamp, NO_TIME), b)
      case None => None
      case Some(t) => Some(m.(timestamp := Some(t)))
    else if r.tag == 58 then if Utf8(b) then Some(m.(unit := b)) else None
    else if r.tag == 66 then if Utf8(b) then Some(m.(description := b)) else None
    else ApplyData(m, r)
  }

  datatype MetricOrder = MetricOrder(config: ConfigOrder, tags: seq<Bytes>)

  predicate MetricOrdered(o: MetricOrder, m: Metric) {
    Enumerates(o.tags, m.tags) && (m.config.Some? ==> ConfigOrdered(o.config, m.config.value))
  }

  function NamespaceRecords(es: seq<NamespaceElement>): seq<Record> {
    if es == [] then []
    else [Record(10, Delimited(EncodeRecords(ElementRecords(es[0]))))] + NamespaceRecords(es[1..])
  }

  function TimeField(tag: UInt32, t: Option<Time>): seq<Record> {
    if t.Some? then [Record(tag, Delimited(EncodeRecords(TimeRecords(t.value))))] else []
  }

  function ConfigField(c: Option<ConfigMap>, o: ConfigOrder): seq<Record>
    requires c.Some? ==> ConfigOrdered(o, c.value)
  {
    if c.Some? then [Record(26, Delimited(EncodeRecords(ConfigRecords(c.value, o))))] else []
  }

  /** The set member of the oneof is written even when it is zero or empty. */
  function DataRecords(d: Data): seq<Record> {
    match d
    case NotSet => []
    case StringData(s) => [Record(74, Delimited(s))]
    case Float32Data(f) => [Record(85, Fixed32(f))]
    case Float64Data(f) => [Record(89, Fixed64(f))]
    case Int32Data(i) => [Record(96, Varint(FromInt32(i)))]
    case Int64Data(i) => [Record(104, Varint(FromInt64(i)))]
    case BytesData(s) => [Record(114, Delimited(s))]
    case BoolData(t) => [Record(120, Varint(if t then 1 else 0))]
    case Uint32Data(u) => [Record(128, Varint(u))]
    case Uint64Data(u) => [Record(136, Varint(u))]
  }

  /** The fields before the tags, and the ones from the tags on, in the order they are written. */
  function MetricHead(m: Metric, o: MetricOrder): seq<Record>
    requires MetricOrdered(o, m)
  {
    NamespaceRecords(m.namespace)
    + When(m.version != 0, Record(16, Varint(FromInt64(m.version))))
    + ConfigField(m.config, o.config)
    + TimeField(34, m.lastAdvertised)
  }

  function MetricRest(m: Metric, o: MetricOrder): seq<Record>
    requires MetricOrdered(o, m)
  {
    MapRecords(42, STRING_VALUE, StringValue, m.tags, o.tags)
    + TimeField(50, m.timestamp)
    + When(m.unit != [], Record(58, Delimited(m.unit)))
    + When(m.description != [], Record(66, Delimited(m.description)))
    + DataRecords(m.data)
  }

  function MetricRecords(m: Metric, o: MetricOrder): seq<Record>
    requires MetricOrdered(o, m)
  {
    MetricHead(m, o) + MetricRest(m, o)
  }

  function MergeOption<T>(merge: (T, T) -> T, default: T, a: Option<T>, b: Option<T>): Option<T> {
    if b.None? then a else Some(merge(OrElse(a, default), b.value))
  }

  function MergeMetric(a: Metric, b: Metric): Metric {
    Metric(a.namespace + b.namespace,
           if b.version != 0 then b.version else a.version,
           MergeOption(MergeConfig, NO_CONFIG, a.config, b.config),
           MergeOption(MergeTime, NO_TIME, a.lastAdvertised, b.lastAdvertised),
           a.tags + b.tags,
           MergeOption(MergeTime, NO_TIME, a.timestamp, b.timestamp),
           Override(a.unit, b.unit),
           Override(a.description, b.description),
           if b.data.NotSet? then a.data else b.data)
  }

  predicate MetricText(m: Metric) {
    && (forall i :: 0 <= i < |m.namespace| ==> ElementText(m.namespace[i]))
    && (m.config.Some? ==> ConfigText(m.config.value))
    && KeyText(m.tags) && ValueText(m.tags)
    && Utf8(m.unit) && Utf8(m.description)
    && (m.data.StringData? ==> Utf8(m.data.s))
  }

  // ----- the replies

  datatype MetricsReply = MetricsReply(metrics: seq<Metric>, error: Bytes)
  const NO_METRICS := MetricsReply([], [])

  function ApplyMetrics(m: MetricsReply, r: Record): Option<MetricsReply> {
    var b := AsBytes(r.value);
    if r.tag == 10 then
      match ParseWhole(ApplyMetric, NO_METRIC, b)
      case None => None
      case Some(x) => Some(m.(metrics := m.metrics + [x]))
    else if r.tag == 18 then if Utf8(b) then Some(m.(error := b)) else None
    else Some(m)
  }

  predicate MetricsOrdered(os: seq<MetricOrder>, ms: seq<Metric>) {
    |os| == |ms| && forall i :: 0 <= i < |ms| ==> MetricOrdered(os[i], ms[i])
  }

  function MetricList(ms: seq<Metric>, os: seq<MetricOrder>): seq<Record>
    requires MetricsOrdered(os, ms)
  {
    if ms == [] then []
    else [Record(10, Delimited(EncodeRecords(MetricRecords(ms[0], os[0]))))] + MetricList(ms[1..], os[1..])
  }

  function MetricsRecords(m: MetricsReply, os: seq<MetricOrder>): seq<Record>
    requires MetricsOrdered(os, m.metrics)
  {
    MetricList(m.metrics, os) + When(m.error != [], Record(18, Delimited(m.error)))
  }

  function MergeMetrics(a: MetricsReply, b: MetricsReply): MetricsReply {
    MetricsReply(a.metrics + b.metrics, Override(a.error, b.error))
  }

  predicate MetricsText(m: MetricsReply) {
    (forall i :: 0 <= i < |m.metrics| ==> MetricText(m.metrics[i])) && Utf8(m.error)
  }

  datatype ErrReply = ErrReply(error: Bytes)
  const NO_ERROR := ErrReply([])

  function ApplyError(e: ErrReply, r: Record): Option<ErrReply> {
    if r.tag == 10 then if Utf8(AsBytes(r.value)) then Some(ErrReply(AsBytes(r.value))) else None
    else Some(e)
  }

  function ErrorRecords(e: ErrReply): seq<Record> {
    When(e.error != [], Record(10, Delimited(e.error)))
  }

  function MergeError(a: ErrReply, b: ErrReply): ErrReply { ErrReply(Override(a.error, b.error)) }

  datatype CollectReply = CollectReply(metrics: Option<MetricsReply>, error: Option<ErrReply>)
  const NO_REPLY := CollectReply(None, None)

  function ApplyReply(m: CollectReply, r: Record): Option<CollectReply> {
    var b := AsBytes(r.value);
    if r.tag == 10 then
      match ParseWhole(ApplyMetrics, OrElse(m.metrics, NO_METRICS), b)
      case None => None
      case Some(x) => Some(m.(metrics := Some(x)))
    else if r.tag == 18 then
      match ParseWhole(ApplyError, OrElse(m.error, NO_ERROR), b)
      case None => None
      case Some(x) => Some(m.(error := Some(x)))
    else Some(m)
  }

  function ReplyRecords(m: CollectReply, os: seq<MetricOrder>): seq<Record>
    requires m.metrics.Some? ==> MetricsOrdered(os, m.metrics.value.metrics)
  {
    (if m.metrics.Some? then [Record(10, Delimited(EncodeRecords(MetricsRecords(m.metrics.value, os))))] else [])
    + (if m.error.Some? then [Record(18, Delimited(EncodeRecords(ErrorRecords(m.error.value))))] else [])
  }

  function MergeReply(a: CollectReply, b: CollectReply): CollectReply {
    CollectReply(MergeOption(MergeMetrics, NO_METRICS, a.metrics, b.metrics),
                 MergeOption(MergeError, NO_ERROR, a.error, b.error))
  }

  predicate ReplyText(m: CollectReply) {
    (m.metrics.Some? ==> MetricsText(m.metrics.value)) && (m.error.Some? ==> Utf8(m.error.value.error))
  }
}

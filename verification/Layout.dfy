/** The bytes on the wire, written out number by number: the tags of the descriptor, the shape of a varint, and
    what a parser makes of bytes that no serializer wrote. */
module Layout {
  import opened Options
  import opened Seqs
  import opened Wire
  import opened MessageLoop
  import opened Messages
  import opened MergeProofs
  import opened Sizes
  import opened RoundTrip
  import opened Canonical

  // ----- numbers

  /** The number that groups of seven bits stand for, the least significant group first. */
  function Sum7(b: Bytes): nat {
    if b == [] then 0 else b[0] % 0x80 + 0x80 * Sum7(b[1..])
  }

  /** A varint ends at its first byte without the continuation bit. */
  predicate EndsAt(b: Bytes, k: nat) {
    k < |b| && b[k] < 0x80 && forall i :: 0 <= i < k ==> b[i] >= 0x80
  }

  /** The bytes of a varint: groups of seven bits, all but the last marked as continued, and none to spare. */
  lemma {:induction false} VarintBytes(n: nat)
    ensures var e := EncodeVarint(n);
      EndsAt(e, |e| - 1) && Sum7(e) == n && (|e| > 1 ==> e[|e| - 1] != 0)
  {
    var e := EncodeVarint(n);
    if n >= 0x80 {
      VarintBytes(n / 0x80);
      var tail := EncodeVarint(n / 0x80);
      assert e == [n % 0x80 + 0x80] + tail && e[1..] == tail;
      forall i | 0 < i < |e| - 1 ensures e[i] >= 0x80 {
        assert e[i] == tail[i - 1];
      }
      assert e[|e| - 1] == tail[|tail| - 1];
    } else {
      assert e[1..] == [];
    }
  }

  lemma {:induction false} GroupsRead(b: Bytes, k: nat, end: nat)
    requires EndsAt(b, end)
    ensures ReadGroups(b, k) == if end < k then Some((Sum7(b[..end + 1]), b[end + 1..])) else None
    decreases k
  {
    if k > 0 {
      assert b[..end + 1][1..] == b[1..][..end];
      if end > 0 {
        GroupsRead(b[1..], k - 1, end - 1);
        assert b[1..][end..] == b[end + 1..];
      }
    }
  }

  lemma {:induction false} GroupsEndless(b: Bytes, k: nat)
    requires forall i :: 0 <= i < |b| ==> b[i] >= 0x80
    ensures ReadGroups(b, k) == None
    decreases k
  {
    if k > 0 && b != [] {
      GroupsEndless(b[1..], k - 1);
    }
  }

  /** Which bytes read as a varint: those whose first unmarked byte is among the first ten, whether or not a
      shorter form exists; bits above the 64th are dropped. */
  lemma VarintAccepted(b: Bytes, end: nat)
    ensures EndsAt(b, end) && end < 10 ==>
      ReadVarint(b) == Some((Sum7(b[..end + 1]) % 0x1_0000_0000_0000_0000, b[end + 1..]))
    ensures EndsAt(b, end) && end >= 10 ==> ReadVarint(b) == None
    ensures (forall i :: 0 <= i < |b| ==> b[i] >= 0x80) ==> ReadVarint(b) == None
  {
    if EndsAt(b, end) {
      GroupsRead(b, 10, end);
    }
    if forall i :: 0 <= i < |b| ==> b[i] >= 0x80 {
      GroupsEndless(b, 10);
    }
  }

  /** A length is taken if it fits an int and that many bytes are there. */
  lemma DelimitedAccepted(n: UInt64, rest: Bytes)
    ensures ReadDelimited(EncodeVarint(n) + rest)
         == if n <= 0x7FFF_FFFF && n <= |rest| then Some((rest[..n], rest[n..])) else None
  {
    VarintRoundTrip(n, rest);
  }

  /** A tag is the lower 32 bits of a varint. */
  lemma TagAccepted(n: UInt64, rest: Bytes)
    ensures ReadTag(EncodeVarint(n) + rest) == Some((n % 0x1_0000_0000, rest))
  {
    VarintRoundTrip(n, rest);
  }

  /** Numbers in 64 bits are two's complement, negative 32-bit ones too; a reader of 32 bits drops the others. */
  lemma TwosComplement(i: int, j: int, u: int)
    requires -0x8000_0000_0000_0000 <= i < 0x8000_0000_0000_0000 && -0x8000_0000 <= j < 0x8000_0000
    requires 0 <= u < 0x1_0000_0000_0000_0000
    ensures FromInt64(i) == i % 0x1_0000_0000_0000_0000 && FromInt32(j) == j % 0x1_0000_0000_0000_0000
    ensures ToInt64(u) % 0x1_0000_0000_0000_0000 == u
    ensures -0x8000_0000_0000_0000 <= ToInt64(u) < 0x8000_0000_0000_0000
    ensures ToInt32(u) % 0x1_0000_0000 == u % 0x1_0000_0000 && -0x8000_0000 <= ToInt32(u) < 0x8000_0000
  {
  }

  lemma LowByteFirst(n: nat, k: nat)
    ensures EncodeFixed(n, k + 1) == [n % 0x100] + EncodeFixed(n / 0x100, k)
  {
  }

  lemma FourBytes(n: nat, k: nat)
    ensures EncodeFixed(n, k + 4)
         == [n % 0x100, n / 0x100 % 0x100, n / 0x1_0000 % 0x100, n / 0x100_0000 % 0x100]
          + EncodeFixed(n / 0x1_0000_0000, k)
  {
    hide EncodeFixed;
    var a := n / 0x100;
    var b := a / 0x100;
    var c := b / 0x100;
    ByteByByte(n);
    LowByteFirst(n, k + 3);
    LowByteFirst(a, k + 2);
    LowByteFirst(b, k + 1);
    LowByteFirst(c, k);
  }

  lemma ByteByByte(n: nat)
    ensures n / 0x100 / 0x100 == n / 0x1_0000
    ensures n / 0x1_0000 / 0x100 == n / 0x100_0000
    ensures n / 0x100_0000 / 0x100 == n / 0x1_0000_0000
  {
  }

  lemma NoBytes(n: nat)
    ensures EncodeFixed(n, 0) == []
  {
  }

  /** Fixed-width values have their least significant byte first. */
  lemma LittleEndian(n: nat)
    ensures EncodeFixed(n, 4) == [n % 0x100, n / 0x100 % 0x100, n / 0x1_0000 % 0x100, n / 0x100_0000 % 0x100]
    ensures EncodeFixed(n, 8) == EncodeFixed(n, 4) + EncodeFixed(n / 0x1_0000_0000, 4)
  {
    hide EncodeFixed;
    FourBytes(n, 0);
    FourBytes(n, 4);
    NoBytes(n / 0x1_0000_0000);
  }

  // ----- fields nobody knows

  /** The bytes of a group after its start tag: its fields and the end tag with its own number. */
  function GroupBytes(field: nat, fields: seq<Record>): Bytes {
    EncodeRecords(fields) + EncodeVarint(8 * field + 4)
  }

  /** A group is skipped up to its own end tag; another group's end tag does not close it. */
  lemma {:induction false} GroupSkipped(field: nat, last: nat, fields: seq<Record>, rest: Bytes)
    requires ValidRecords(fields) && 0 < last < 0x2000_0000
    ensures SkipGroup(field, GroupBytes(last, fields) + rest) == if last == field then Some(rest) else None
    decreases fields
  {
    hide EncodeVarint, ReadVarint, EncodeValue, ReadValue;
    var end := EncodeVarint(8 * last + 4);
    if fields == [] {
      assert GroupBytes(last, fields) + rest == end + rest;
      VarintRoundTrip(8 * last + 4, rest);
      SmallModulo(8 * last + 4, 0x1_0000_0000);
    } else {
      var r := fields[0];
      var after := GroupBytes(last, fields[1..]) + rest;
      assert GroupBytes(last, fields) + rest == EncodeVarint(r.tag) + (EncodeValue(r.value) + after);
      VarintRoundTrip(r.tag, EncodeValue(r.value) + after);
      SmallModulo(r.tag, 0x1_0000_0000);
      ReadEncodedValue(r.tag, r.value, after);
      GroupSkipped(field, last, fields[1..], rest);
    }
  }

  /** The loop takes a group, whatever is in it, as one field. */
  lemma GroupIsOneField<M>(apply: (M, Record) -> Option<M>, m: M, field: nat, fields: seq<Record>, rest: Bytes)
    requires ValidRecords(fields) && 0 < field < 0x2000_0000
    ensures Parse(apply, m, EncodeVarint(8 * field + 3) + (GroupBytes(field, fields) + rest))
         == match apply(m, Record(8 * field + 3, Group))
            case None => Failed
            case Some(m') => Parse(apply, m', rest)
  {
    hide EncodeVarint, ReadVarint, SkipGroup, GroupBytes;
    VarintRoundTrip(8 * field + 3, GroupBytes(field, fields) + rest);
    SmallModulo(8 * field + 3, 0x1_0000_0000);
    GroupSkipped(field, field, fields, rest);
  }

  lemma NoSuchWireType<M>(apply: (M, Record) -> Option<M>, m: M, tag: UInt32, rest: Bytes)
    requires tag % 8 == 6 || tag % 8 == 7
    ensures Parse(apply, m, EncodeVarint(tag) + rest) == Failed
  {
    hide EncodeVarint, ReadTag;
    TagAccepted(tag, rest);
    assert ReadValue(tag, rest) == None;
  }

  lemma VarintOfByte(n: nat)
    requires n < 0x80
    ensures EncodeVarint(n) == [n]
  {
  }

  /** The loop stops at a zero tag and at the end tag of any group, which a sub-message does not survive; a wire
      type that does not exist is an error at once. */
  lemma LoopStops<M>(apply: (M, Record) -> Option<M>, m: M, field: nat, rest: Bytes)
    requires field < 0x2000_0000
    ensures Parse(apply, m, [0x00] + rest) == Stopped(m)
    ensures Parse(apply, m, EncodeVarint(8 * field + 4) + rest) == Stopped(m)
    ensures ParseWhole(apply, m, [0x00] + rest) == ParseWhole(apply, m, EncodeVarint(8 * field + 4) + rest) == None
    ensures Parse(apply, m, EncodeVarint(8 * field + 6) + rest) == Failed
    ensures Parse(apply, m, EncodeVarint(8 * field + 7) + rest) == Failed
  {
    hide EncodeVarint, ReadTag, MessageLoop.ParseField;
    assert EncodeVarint(0) == [0x00] by {
      VarintOfByte(0);
    }
    TagAccepted(0, rest);
    TagAccepted(8 * field + 4, rest);
    NoSuchWireType(apply, m, 8 * field + 6, rest);
    NoSuchWireType(apply, m, 8 * field + 7, rest);
  }

  /** Fields with other numbers, or known numbers under another wire type, leave a message as it is. */
  lemma UnknownFields(r: Record)
    ensures r.tag !in {0x08, 0x10} ==> forall t: Time :: ApplyTime(t, r) == Some(t)
    ensures r.tag !in {0x0A, 0x12, 0x1A} ==> forall e: NamespaceElement :: ApplyElement(e, r) == Some(e)
    ensures r.tag !in {0x0A, 0x12, 0x1A, 0x22} ==> forall c: ConfigMap :: ApplyConfig(c, r) == Some(c)
    ensures r.tag !in {0x0A, 0x10, 0x1A, 0x22, 0x2A, 0x32, 0x3A, 0x42, 0x4A, 0x55, 0x59, 0x60, 0x68, 0x72, 0x78,
                       0x80, 0x88} ==>
      forall m: Metric :: ApplyMetric(m, r) == Some(m)
    ensures r.tag !in {0x0A, 0x12} ==> forall m: MetricsReply :: ApplyMetrics(m, r) == Some(m)
    ensures r.tag !in {0x0A, 0x12} ==> forall m: CollectReply :: ApplyReply(m, r) == Some(m)
    ensures r.tag != 0x0A ==> forall e: ErrReply :: ApplyError(e, r) == Some(e)
    ensures r.tag !in {0x0A, 0x10, 0x11, 0x12} ==> forall valueTag, e :: valueTag in {0x10, 0x11, 0x12} ==>
      UpdateEntry(valueTag, e, r) == Some(e)
  {
  }

  // ----- the messages

  function Sized(b: Bytes): Bytes { EncodeVarint(|b|) + b }

  function Signed(i: Int64): Bytes { EncodeVarint(i % 0x1_0000_0000_0000_0000) }

  function Counter(tag: Byte, i: Int64): Bytes { if i == 0 then [] else [tag] + Signed(i) }

  function Text(tag: Byte, s: Bytes): Bytes { if s == [] then [] else [tag] + Sized(s) }

  function TimeLayout(t: Time): Bytes { Counter(0x08, t.sec) + Counter(0x10, t.nsec) }

  function ElementLayout(e: NamespaceElement): Bytes {
    Text(0x0A, e.value) + Text(0x12, e.description) + Text(0x1A, e.name)
  }

  /** A map entry is a message of its own, with the key in field 1 and the value in field 2. */
  function IntEntry(k: Bytes, i: Int64): Bytes { [0x0A] + Sized(k) + ([0x10] + Signed(i)) }
  function StringEntry(k: Bytes, s: Bytes): Bytes { [0x0A] + Sized(k) + ([0x12] + Sized(s)) }
  function DoubleEntry(k: Bytes, d: UInt64): Bytes { [0x0A] + Sized(k) + ([0x11] + EncodeFixed(d, 8)) }
  function BoolEntry(k: Bytes, b: bool): Bytes { [0x0A] + Sized(k) + [0x10, if b then 1 else 0] }

  function MapLayout<V>(tag: Byte, entry: (Bytes, V) -> Bytes, m: map<Bytes, V>, order: seq<Bytes>): Bytes
    requires forall k :: k in order ==> k in m
  {
    if order == [] then []
    else [tag] + Sized(entry(order[0], m[order[0]])) + MapLayout(tag, entry, m, order[1..])
  }

  function ConfigLayout(c: ConfigMap, o: ConfigOrder): Bytes
    requires ConfigOrdered(o, c)
  {
    MapLayout(0x0A, IntEntry, c.ints, o.ints) + MapLayout(0x12, StringEntry, c.strings, o.strings)
    + MapLayout(0x1A, DoubleEntry, c.floats, o.floats) + MapLayout(0x22, BoolEntry, c.bools, o.bools)
  }

  function NamespaceLayout(es: seq<NamespaceElement>): Bytes {
    if es == [] then [] else [0x0A] + Sized(ElementLayout(es[0])) + NamespaceLayout(es[1..])
  }

  function DataLayout(d: Data): Bytes {
    match d
    case NotSet => []
    case StringData(s) => [0x4A] + Sized(s)
    case Float32Data(f) => [0x55] + EncodeFixed(f, 4)
    case Float64Data(f) => [0x59] + EncodeFixed(f, 8)
    case Int32Data(i) => [0x60] + Signed(i)
    case Int64Data(i) => [0x68] + Signed(i)
    case BytesData(s) => [0x72] + Sized(s)
    case BoolData(t) => [0x78, if t then 1 else 0]
    case Uint32Data(u) => [0x80, 0x01] + EncodeVarint(u)
    case Uint64Data(u) => [0x88, 0x01] + EncodeVarint(u)
  }

  function MetricHeadLayout(m: Metric, o: MetricOrder): Bytes
    requires MetricOrdered(o, m)
  {
    NamespaceLayout(m.namespace) + Counter(0x10, m.version)
    + (if m.config.Some? then [0x1A] + Sized(ConfigLayout(m.config.value, o.config)) else [])
    + (if m.lastAdvertised.Some? then [0x22] + Sized(TimeLayout(m.lastAdvertised.value)) else [])
  }

  function MetricLayout(m: Metric, o: MetricOrder): Bytes
    requires MetricOrdered(o, m)
  {
    MetricHeadLayout(m, o)
    + (MapLayout(0x2A, StringEntry, m.tags, o.tags)
       + (if m.timestamp.Some? then [0x32] + Sized(TimeLayout(m.timestamp.value)) else [])
       + Text(0x3A, m.unit) + Text(0x42, m.description) + DataLayout(m.data))
  }

  function MetricListLayout(ms: seq<Metric>, os: seq<MetricOrder>): Bytes
    requires MetricsOrdered(os, ms)
  {
    if ms == [] then [] else [0x0A] + Sized(MetricLayout(ms[0], os[0])) + MetricListLayout(ms[1..], os[1..])
  }

  function ReplyLayout(m: CollectReply, os: seq<MetricOrder>): Bytes
    requires m.metrics.Some? ==> MetricsOrdered(os, m.metrics.value.metrics)
  {
    (if m.metrics.Some?
     then [0x0A] + Sized(MetricListLayout(m.metrics.value.metrics, os) + Text(0x12, m.metrics.value.error)) else [])
    + (if m.error.Some? then [0x12] + Sized(Text(0x0A, m.error.value.error)) else [])
  }

  /** A tag below 128 is one byte. */
  lemma OneRecord(r: Record)
    requires r.tag < 0x80
    ensures EncodeRecords([r]) == [r.tag] + EncodeValue(r.value)
  {
    hide EncodeValue;
    assert [r][1..] == [];
    assert EncodeRecords([r]) == EncodeRecord(r) + [] == EncodeRecord(r);
  }

  lemma SubMessage(tag: UInt32, rs: seq<Record>)
    requires tag < 0x80
    ensures EncodeRecords([Record(tag, Delimited(EncodeRecords(rs)))]) == [tag] + Sized(EncodeRecords(rs))
  {
    hide EncodeRecords;
    OneRecord(Record(tag, Delimited(EncodeRecords(rs))));
  }

  lemma NothingWritten()
    ensures EncodeRecords([]) == []
  {
  }

  lemma CounterBytes(tag: UInt32, i: Int64)
    requires tag < 0x80
    ensures EncodeRecords(When(i != 0, Record(tag, Varint(FromInt64(i))))) == Counter(tag, i)
  {
    hide EncodeRecords, EncodeVarint;
    NothingWritten();
    OneRecord(Record(tag, Varint(FromInt64(i))));
    TwosComplement(i, 0, 0);
  }

  lemma TextBytes(tag: UInt32, s: Bytes)
    requires tag < 0x80
    ensures EncodeRecords(When(s != [], Record(tag, Delimited(s)))) == Text(tag, s)
  {
    hide EncodeRecords, EncodeVarint;
    NothingWritten();
    OneRecord(Record(tag, Delimited(s)));
  }

  lemma TimeBytes(t: Time)
    ensures EncodeRecords(TimeRecords(t)) == TimeLayout(t)
  {
    hide EncodeRecords;
    EncodeConcat(When(t.sec != 0, Record(8, Varint(FromInt64(t.sec)))),
                 When(t.nsec != 0, Record(16, Varint(FromInt64(t.nsec)))));
    CounterBytes(0x08, t.sec);
    CounterBytes(0x10, t.nsec);
  }

  lemma ElementBytes(e: NamespaceElement)
    ensures EncodeRecords(ElementRecords(e)) == ElementLayout(e)
  {
    hide EncodeRecords;
    var a, b := When(e.value != [], Record(10, Delimited(e.value))),
      When(e.description != [], Record(18, Delimited(e.description)));
    EncodeConcat(a + b, When(e.name != [], Record(26, Delimited(e.name))));
    EncodeConcat(a, b);
    TextBytes(0x0A, e.value);
    TextBytes(0x12, e.description);
    TextBytes(0x1A, e.name);
  }

  lemma EntryBytes(k: Bytes, valueTag: UInt32, v: Value)
    requires valueTag < 0x80
    ensures EncodeRecords(EntryRecords(k, valueTag, v)) == [0x0A] + Sized(k) + ([valueTag] + EncodeValue(v))
  {
    hide EncodeRecords, EncodeVarint;
    EncodeConcat([Record(10, Delimited(k))], [Record(valueTag, v)]);
    assert EntryRecords(k, valueTag, v) == [Record(10, Delimited(k))] + [Record(valueTag, v)];
    OneRecord(Record(10, Delimited(k)));
    OneRecord(Record(valueTag, v));
  }

  /** The bytes of an entry of each kind. */
  lemma EntriesBytes(k: Bytes, i: Int64, s: Bytes, d: UInt64, b: bool)
    ensures EncodeRecords(EntryRecords(k, INT_VALUE, IntValue(i))) == IntEntry(k, i)
    ensures EncodeRecords(EntryRecords(k, STRING_VALUE, StringValue(s))) == StringEntry(k, s)
    ensures EncodeRecords(EntryRecords(k, DOUBLE_VALUE, DoubleValue(d))) == DoubleEntry(k, d)
    ensures EncodeRecords(EntryRecords(k, BOOL_VALUE, BoolValue(b))) == BoolEntry(k, b)
  {
    hide EncodeRecords;
    EntryBytes(k, INT_VALUE, IntValue(i));
    TwosComplement(i, 0, 0);
    EntryBytes(k, STRING_VALUE, StringValue(s));
    EntryBytes(k, DOUBLE_VALUE, DoubleValue(d));
    EntryBytes(k, BOOL_VALUE, BoolValue(b));
  }

  /** Every entry of a map is laid out alike. */
  lemma {:induction false} MapBytes<V>(
    tag: UInt32, valueTag: UInt32, enc: V -> Value, entry: (Bytes, V) -> Bytes, m: map<Bytes, V>, order: seq<Bytes>)
    requires tag < 0x80 && forall k :: k in order ==> k in m
    requires forall k :: k in m ==> EncodeRecords(EntryRecords(k, valueTag, enc(m[k]))) == entry(k, m[k])
    ensures EncodeRecords(MapRecords(tag, valueTag, enc, m, order)) == MapLayout(tag, entry, m, order)
    decreases order
  {
    hide EncodeRecords;
    NothingWritten();
    if order != [] {
      var k := order[0];
      MapBytes(tag, valueTag, enc, entry, m, order[1..]);
      SubMessage(tag, EntryRecords(k, valueTag, enc(m[k])));
      EncodeConcat([EntryRecord(tag, valueTag, k, enc(m[k]))], MapRecords(tag, valueTag, enc, m, order[1..]));
    }
  }

  lemma AllEntriesBytes(c: ConfigMap)
    ensures forall k :: k in c.ints ==>
      EncodeRecords(EntryRecords(k, INT_VALUE, IntValue(c.ints[k]))) == IntEntry(k, c.ints[k])
    ensures forall k :: k in c.strings ==>
      EncodeRecords(EntryRecords(k, STRING_VALUE, StringValue(c.strings[k]))) == StringEntry(k, c.strings[k])
    ensures forall k :: k in c.floats ==>
      EncodeRecords(EntryRecords(k, DOUBLE_VALUE, DoubleValue(c.floats[k]))) == DoubleEntry(k, c.floats[k])
    ensures forall k :: k in c.bools ==>
      EncodeRecords(EntryRecords(k, BOOL_VALUE, BoolValue(c.bools[k]))) == BoolEntry(k, c.bools[k])
  {
    forall k
      ensures k in c.ints ==>
        EncodeRecords(EntryRecords(k, INT_VALUE, IntValue(c.ints[k]))) == IntEntry(k, c.ints[k])
      ensures k in c.strings ==>
        EncodeRecords(EntryRecords(k, STRING_VALUE, StringValue(c.strings[k]))) == StringEntry(k, c.strings[k])
      ensures k in c.floats ==>
        EncodeRecords(EntryRecords(k, DOUBLE_VALUE, DoubleValue(c.floats[k]))) == DoubleEntry(k, c.floats[k])
      ensures k in c.bools ==>
        EncodeRecords(EntryRecords(k, BOOL_VALUE, BoolValue(c.bools[k]))) == BoolEntry(k, c.bools[k])
    {
      EntriesBytes(k, if k in c.ints then c.ints[k] else 0, if k in c.strings then c.strings[k] else [],
                   if k in c.floats then c.floats[k] else 0, if k in c.bools then c.bools[k] else false);
    }
  }

  /** The bytes of a ConfigMap. */
  lemma ConfigBytes(c: ConfigMap, o: ConfigOrder)
    requires ConfigOrdered(o, c)
    ensures EncodeRecords(ConfigRecords(c, o)) == ConfigLayout(c, o)
  {
    hide EncodeRecords, MapRecords, EntryRecords, MapLayout, IntEntry, StringEntry, DoubleEntry, BoolEntry;
    AllEntriesBytes(c);
    MapBytes(10, INT_VALUE, IntValue, IntEntry, c.ints, o.ints);
    MapBytes(18, STRING_VALUE, StringValue, StringEntry, c.strings, o.strings);
    MapBytes(26, DOUBLE_VALUE, DoubleValue, DoubleEntry, c.floats, o.floats);
    MapBytes(34, BOOL_VALUE, BoolValue, BoolEntry, c.bools, o.bools);
    EncodeFour(MapRecords(10, INT_VALUE, IntValue, c.ints, o.ints),
               MapRecords(18, STRING_VALUE, StringValue, c.strings, o.strings),
               MapRecords(26, DOUBLE_VALUE, DoubleValue, c.floats, o.floats),
               MapRecords(34, BOOL_VALUE, BoolValue, c.bools, o.bools));
  }

  lemma TagsBytes(tags: map<Bytes, Bytes>, order: seq<Bytes>)
    requires forall k :: k in order ==> k in tags
    ensures EncodeRecords(MapRecords(42, STRING_VALUE, StringValue, tags, order))
         == MapLayout(0x2A, StringEntry, tags, order)
  {
    hide EncodeRecords, MapRecords, EntryRecords, MapLayout, StringEntry;
    forall k | k in tags
      ensures EncodeRecords(EntryRecords(k, STRING_VALUE, StringValue(tags[k]))) == StringEntry(k, tags[k])
    {
      EntriesBytes(k, 0, tags[k], 0, false);
    }
    MapBytes(42, STRING_VALUE, StringValue, StringEntry, tags, order);
  }

  lemma {:induction false} NamespaceBytes(es: seq<NamespaceElement>)
    ensures EncodeRecords(NamespaceRecords(es)) == NamespaceLayout(es)
  {
    hide EncodeRecords, ElementRecords, ElementLayout;
    NothingWritten();
    if es != [] {
      NamespaceBytes(es[1..]);
      ElementBytes(es[0]);
      SubMessage(10, ElementRecords(es[0]));
      EncodeConcat([Record(10, Delimited(EncodeRecords(ElementRecords(es[0]))))], NamespaceRecords(es[1..]));
    }
  }

  /** Tags from 128 on take two bytes. */
  lemma TwoByteTag(r: Record)
    requires r.tag == 0x80 || r.tag == 0x88
    ensures EncodeRecords([r]) == [r.tag, 0x01] + EncodeValue(r.value)
  {
    hide EncodeValue;
    assert [r][1..] == [];
    assert EncodeRecords([r]) == EncodeRecord(r) + [] == EncodeRecord(r);
    assert EncodeVarint(r.tag) == [r.tag] + EncodeVarint(1);
  }

  lemma DataBytes(d: Data)
    ensures EncodeRecords(DataRecords(d)) == DataLayout(d)
  {
    hide EncodeRecords;
    NothingWritten();
    var rs := DataRecords(d);
    if d.Uint32Data? || d.Uint64Data? {
      TwoByteTag(rs[0]);
    } else if !d.NotSet? {
      OneRecord(rs[0]);
      if d.Int32Data? {
        TwosComplement(d.i, 0, 0);
      } else if d.Int64Data? {
        TwosComplement(d.l, 0, 0);
      }
    }
  }

  lemma TimeFieldBytes(tag: UInt32, t: Option<Time>)
    requires tag < 0x80
    ensures EncodeRecords(TimeField(tag, t)) == if t.Some? then [tag] + Sized(TimeLayout(t.value)) else []
  {
    hide EncodeRecords, TimeRecords;
    NothingWritten();
    if t.Some? {
      TimeBytes(t.value);
      SubMessage(tag, TimeRecords(t.value));
    }
  }

  lemma ConfigFieldBytes(c: Option<ConfigMap>, o: ConfigOrder)
    requires c.Some? ==> ConfigOrdered(o, c.value)
    ensures EncodeRecords(ConfigField(c, o)) == if c.Some? then [0x1A] + Sized(ConfigLayout(c.value, o)) else []
  {
    hide EncodeRecords, ConfigRecords, ConfigLayout;
    NothingWritten();
    if c.Some? {
      ConfigBytes(c.value, o);
      SubMessage(26, ConfigRecords(c.value, o));
    }
  }

  lemma MetricHeadBytes(m: Metric, o: MetricOrder)
    requires MetricOrdered(o, m)
    ensures EncodeRecords(MetricHead(m, o)) == MetricHeadLayout(m, o)
  {
    hide EncodeRecords, NamespaceRecords, When, ConfigField, TimeField, ConfigLayout;
    var version := Record(16, Varint(FromInt64(m.version)));
    EncodeFour(NamespaceRecords(m.namespace), When(m.version != 0, version), ConfigField(m.config, o.config),
               TimeField(34, m.lastAdvertised));
    NamespaceBytes(m.namespace);
    CounterBytes(16, m.version);
    ConfigFieldBytes(m.config, o.config);
    TimeFieldBytes(34, m.lastAdvertised);
  }

  lemma MetricRestBytes(m: Metric, o: MetricOrder)
    requires MetricOrdered(o, m)
    ensures EncodeRecords(MetricRest(m, o))
         == MapLayout(0x2A, StringEntry, m.tags, o.tags)
          + (if m.timestamp.Some? then [0x32] + Sized(TimeLayout(m.timestamp.value)) else [])
          + Text(0x3A, m.unit) + Text(0x42, m.description) + DataLayout(m.data)
  {
    hide EncodeRecords, MapRecords, TimeField, When, DataRecords, MapLayout;
    var tags, time := MapRecords(42, STRING_VALUE, StringValue, m.tags, o.tags), TimeField(50, m.timestamp);
    var unit := When(m.unit != [], Record(58, Delimited(m.unit)));
    var description := When(m.description != [], Record(66, Delimited(m.description)));
    EncodeConcat(tags + time + unit + description, DataRecords(m.data));
    EncodeFour(tags, time, unit, description);
    TagsBytes(m.tags, o.tags);
    TimeFieldBytes(50, m.timestamp);
    TextBytes(58, m.unit);
    TextBytes(66, m.description);
    DataBytes(m.data);
  }

  /** The bytes of a Metric, to the last one. */
  lemma MetricBytes(m: Metric, o: MetricOrder)
    requires MetricOrdered(o, m)
    ensures EncodeRecords(MetricRecords(m, o)) == MetricLayout(m, o)
  {
    hide EncodeRecords, MetricHead, MetricRest, MapLayout, MetricHeadLayout;
    EncodeConcat(MetricHead(m, o), MetricRest(m, o));
    MetricHeadBytes(m, o);
    MetricRestBytes(m, o);
  }

  lemma {:induction false} MetricListBytes(ms: seq<Metric>, os: seq<MetricOrder>)
    requires MetricsOrdered(os, ms)
    ensures EncodeRecords(MetricList(ms, os)) == MetricListLayout(ms, os)
  {
    hide EncodeRecords, MetricRecords, MetricLayout;
    NothingWritten();
    if ms != [] {
      MetricListBytes(ms[1..], os[1..]);
      MetricBytes(ms[0], os[0]);
      SubMessage(10, MetricRecords(ms[0], os[0]));
      EncodeConcat([Record(10, Delimited(EncodeRecords(MetricRecords(ms[0], os[0]))))], MetricList(ms[1..], os[1..]));
    }
  }

  /** The bytes of a CollectReply. */
  lemma ReplyBytes(m: CollectReply, os: seq<MetricOrder>)
    requires m.metrics.Some? ==> MetricsOrdered(os, m.metrics.value.metrics)
    ensures EncodeRecords(ReplyRecords(m, os)) == ReplyLayout(m, os)
  {
    hide EncodeRecords, MetricsRecords, MetricList, MetricListLayout, When;
    NothingWritten();
    var a := if m.metrics.Some? then [Record(10, Delimited(EncodeRecords(MetricsRecords(m.metrics.value, os))))]
             else [];
    var b := if m.error.Some? then [Record(18, Delimited(EncodeRecords(ErrorRecords(m.error.value))))] else [];
    EncodeConcat(a, b);
    if m.metrics.Some? {
      MetricsBytes(m.metrics.value, os);
      SubMessage(10, MetricsRecords(m.metrics.value, os));
    }
    if m.error.Some? {
      TextBytes(10, m.error.value.error);
      SubMessage(18, ErrorRecords(m.error.value));
    }
  }

  lemma MetricsBytes(m: MetricsReply, os: seq<MetricOrder>)
    requires MetricsOrdered(os, m.metrics)
    ensures EncodeRecords(MetricsRecords(m, os)) == MetricListLayout(m.metrics, os) + Text(0x12, m.error)
  {
    hide EncodeRecords, MetricList, MetricListLayout, When;
    EncodeConcat(MetricList(m.metrics, os), When(m.error != [], Record(18, Delimited(m.error))));
    MetricListBytes(m.metrics, os);
    TextBytes(18, m.error);
  }

  // ----- reading entries

  /** The length fits an int. */
  predicate Short(s: Bytes) { |s| <= 0x7FFF_FFFF }

  lemma ReadEntries(k: Bytes, i: Int64, s: Bytes, d: UInt64, b: bool)
    requires Short(k) && Short(s)
    ensures ReadEntry(INT_VALUE, Varint(0), IntEntry(k, i)) == Some(Entry(k, IntValue(i)))
    ensures ReadEntry(STRING_VALUE, Delimited([]), StringEntry(k, s)) == Some(Entry(k, StringValue(s)))
    ensures ReadEntry(DOUBLE_VALUE, Fixed64(0), DoubleEntry(k, d)) == Some(Entry(k, DoubleValue(d)))
    ensures ReadEntry(BOOL_VALUE, Varint(0), BoolEntry(k, b)) == Some(Entry(k, BoolValue(b)))
  {
    hide ReadEntry, EncodeRecords, EntryRecords;
    EntriesBytes(k, i, s, d, b);
    ReadOneEntry(INT_VALUE, Varint(0), k, IntValue(i));
    ReadOneEntry(STRING_VALUE, Delimited([]), k, StringValue(s));
    ReadOneEntry(DOUBLE_VALUE, Fixed64(0), k, DoubleValue(d));
    ReadOneEntry(BOOL_VALUE, Varint(0), k, BoolValue(b));
  }

  lemma ReadOneEntry(valueTag: UInt32, default: Value, k: Bytes, v: Value)
    requires TaggedValue(valueTag, v) && valueTag != 10 && Short(k) && (v.Delimited? ==> Short(v.bytes))
    ensures ReadEntry(valueTag, default, EncodeRecords(EntryRecords(k, valueTag, v))) == Some(Entry(k, v))
  {
    var rs := EntryRecords(k, valueTag, v);
    ParseWholeEncoded(ApplyEntry(valueTag), Entry([], default), rs);
    var e := Entry(k, default);
    assert UpdateEntry(valueTag, Entry([], default), rs[0]) == Some(e);
    assert rs[1..] == [Record(valueTag, v)];
    FoldOne(ApplyEntry(valueTag), e, Record(valueTag, v));
  }

  /** A tag of a Metric, read from its bytes; a missing key or value is empty. */
  lemma TagRead(m: Metric, k: Bytes, v: Bytes)
    requires Short(k) && Short(v)
    ensures ApplyMetric(m, Record(0x2A, Delimited(StringEntry(k, v))))
         == if Utf8(k) && Utf8(v) then Some(m.(tags := m.tags[k := v])) else None
    ensures ApplyMetric(m, Record(0x2A, Delimited([]))) == Some(m.(tags := m.tags[[] := []]))
  {
    hide Utf8;
    ReadEntries(k, 0, v, 0, false);
    assert Utf8([]) by { NothingIsText(); }
  }

  lemma NothingIsText()
    ensures Utf8([])
  {
  }

  /** The same for the four maps of a ConfigMap. */
  lemma ConfigEntriesRead(c: ConfigMap, k: Bytes, i: Int64, s: Bytes, d: UInt64, b: bool)
    requires Short(k) && Short(s)
    ensures ApplyConfig(c, Record(0x0A, Delimited(IntEntry(k, i))))
         == if Utf8(k) then Some(c.(ints := c.ints[k := i])) else None
    ensures ApplyConfig(c, Record(0x12, Delimited(StringEntry(k, s))))
         == if Utf8(k) && Utf8(s) then Some(c.(strings := c.strings[k := s])) else None
    ensures ApplyConfig(c, Record(0x1A, Delimited(DoubleEntry(k, d))))
         == if Utf8(k) then Some(c.(floats := c.floats[k := d])) else None
    ensures ApplyConfig(c, Record(0x22, Delimited(BoolEntry(k, b))))
         == if Utf8(k) then Some(c.(bools := c.bools[k := b])) else None
  {
    hide Utf8, ReadEntry;
    ReadEntries(k, i, s, d, b);
    IntegersSurvive(i, 0);
  }

  /** The same number in 32 bits. */
  predicate Low32(low: int, u: UInt64) { low % 0x1_0000_0000 == u % 0x1_0000_0000 }

  /** A number of an entry's, written by whomever: any but zero is true. */
  lemma EntryNumbersRead(c: ConfigMap, k: Bytes, u: UInt64)
    requires Short(k)
    ensures ApplyConfig(c, Record(0x22, Delimited([0x0A] + Sized(k) + ([0x10] + EncodeVarint(u)))))
         == if Utf8(k) then Some(c.(bools := c.bools[k := u > 0])) else None
    ensures ApplyConfig(c, Record(0x0A, Delimited([0x0A] + Sized(k) + ([0x10] + EncodeVarint(u)))))
         == if Utf8(k) then Some(c.(ints := c.ints[k := if u < 0x8000_0000_0000_0000 then u
                                                        else u - 0x1_0000_0000_0000_0000])) else None
  {
    hide Utf8, ReadEntry, EncodeRecords, EntryRecords;
    EntryBytes(k, BOOL_VALUE, Varint(u));
    ReadOneEntry(BOOL_VALUE, Varint(0), k, Varint(u));
    ReadOneEntry(INT_VALUE, Varint(0), k, Varint(u));
  }

  /** What any varint at all means in each number field of a Metric, written by whomever: bits a field has no
      room for are dropped, and every number but zero is true. */
  lemma NumbersRead(m: Metric, u: UInt64)
    ensures var r := ApplyMetric(m, Record(0x10, Varint(u)));
      r.Some? && r == Some(m.(version := r.value.version)) && r.value.version % 0x1_0000_0000_0000_0000 == u
    ensures var r := ApplyMetric(m, Record(0x60, Varint(u)));
      && r.Some? && r == Some(m.(data := r.value.data)) && r.value.data.Int32Data?
      && Low32(r.value.data.i, u) && -0x8000_0000 <= r.value.data.i < 0x8000_0000
    ensures var r := ApplyMetric(m, Record(0x68, Varint(u)));
      && r.Some? && r == Some(m.(data := r.value.data)) && r.value.data.Int64Data?
      && r.value.data.l % 0x1_0000_0000_0000_0000 == u
    ensures ApplyMetric(m, Record(0x78, Varint(u))) == Some(m.(data := BoolData(u > 0)))
    ensures var r := ApplyMetric(m, Record(0x80, Varint(u)));
      && r.Some? && r == Some(m.(data := r.value.data)) && r.value.data.Uint32Data?
      && Low32(r.value.data.u, u) && 0 <= r.value.data.u < 0x1_0000_0000
    ensures ApplyMetric(m, Record(0x88, Varint(u))) == Some(m.(data := Uint64Data(u)))
  {
    TwosComplement(0, 0, u);
  }

  /** An entry without its fields reads as an empty key and a zero. */
  lemma EmptyEntriesRead(c: ConfigMap)
    ensures ApplyConfig(c, Record(0x0A, Delimited([]))) == Some(c.(ints := c.ints[[] := 0]))
    ensures ApplyConfig(c, Record(0x12, Delimited([]))) == Some(c.(strings := c.strings[[] := []]))
    ensures ApplyConfig(c, Record(0x1A, Delimited([]))) == Some(c.(floats := c.floats[[] := 0]))
    ensures ApplyConfig(c, Record(0x22, Delimited([]))) == Some(c.(bools := c.bools[[] := false]))
  {
    NothingIsText();
  }

  // ----- the deterministic form

  ghost predicate Sorted(o: ConfigOrder) {
    Lexicographic(o.ints) && Lexicographic(o.strings) && Lexicographic(o.floats) && Lexicographic(o.bools)
  }

  /** A deterministic ConfigMap is laid out with the keys of each map ascending, byte by byte as unsigned
      numbers and a prefix first; there is only one such order. */
  lemma DeterministicConfigBytes(c: ConfigMap, o: ConfigOrder) returns (sorted: ConfigOrder)
    requires ConfigOrdered(o, c)
    ensures ConfigOrdered(sorted, c) && Sorted(sorted)
    ensures WriteDeterministic(c, o) == ConfigLayout(c, sorted)
    ensures forall o' :: ConfigOrdered(o', c) && Sorted(o') ==> o' == sorted
  {
    hide ConfigLayout, ConfigRecords, Lexicographic, Sort;
    sorted := CanonConfig(o);
    CanonConfigOrders(c, o);
    ConfigBytes(c, sorted);
    OneSorting(o.ints, c.ints);
    OneSorting(o.strings, c.strings);
    OneSorting(o.floats, c.floats);
    OneSorting(o.bools, c.bools);
  }

  lemma OneSorting<V>(order: seq<Bytes>, m: map<Bytes, V>)
    requires Enumerates(order, m)
    ensures Lexicographic(Canon(order)) && Enumerates(Canon(order), m)
    ensures forall other :: Enumerates(other, m) && Lexicographic(other) ==> other == Canon(order)
  {
    hide Lexicographic, Sort;
    CanonIsTheAscendingOrder(order, m);
    AscendingMeans(Canon(order));
    forall other | Enumerates(other, m) && Lexicographic(other) ensures other == Canon(order) {
      AscendingMeans(other);
      AscendingIsUnique(other, Canon(order));
    }
  }

  /** A deterministic Metric is laid out with its tags in that order and its Config as it iterates. */
  lemma DeterministicMetricBytes(m: Metric, o: MetricOrder) returns (sorted: seq<Bytes>)
    requires MetricOrdered(o, m)
    ensures Enumerates(sorted, m.tags) && Lexicographic(sorted)
    ensures WriteMetricDeterministic(m, o) == MetricLayout(m, o.(tags := sorted))
    ensures forall other :: Enumerates(other, m.tags) && Lexicographic(other) ==> other == sorted
  {
    hide MetricLayout, MetricRecords, Lexicographic, Sort;
    sorted := Canon(o.tags);
    DeterministicOrders(m, o);
    OneSorting(o.tags, m.tags);
    MetricBytes(m, DeterministicOrder(o));
  }
}

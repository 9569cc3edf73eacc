/** Deterministic serialization: the keys of a top-level map are sorted before they are written. */
module Canonical {
  import opened Options
  import opened Seqs
  import opened Wire
  import opened MessageLoop
  import opened Messages
  import opened MergeProofs
  import opened RoundTrip
  import opened Sizes

  /** std::string's order: byte by byte, a proper prefix first. */
  predicate Less(a: Bytes, b: Bytes) {
    if a == [] then b != []
    else b != [] && (a[0] < b[0] || (a[0] == b[0] && Less(a[1..], b[1..])))
  }

  lemma {:induction false} LessIsStrict(a: Bytes, b: Bytes)
    ensures !(Less(a, b) && Less(b, a)) && !Less(a, a)
    decreases |a|
  {
    if a != [] {
      LessIsStrict(a[1..], if b == [] then [] else b[1..]);
    }
  }

  lemma {:induction false} LessIsTotal(a: Bytes, b: Bytes)
    requires a != b
    ensures Less(a, b) || Less(b, a)
    decreases |a|
  {
    if a != [] && b != [] && a[0] == b[0] {
      assert a == [a[0]] + a[1..] && b == [b[0]] + b[1..];
      LessIsTotal(a[1..], b[1..]);
    }
  }

  lemma {:induction false} LessIsTransitive(a: Bytes, b: Bytes, c: Bytes)
    requires Less(a, b) && Less(b, c)
    ensures Less(a, c)
    decreases |a|
  {
    if a != [] && a[0] == b[0] == c[0] {
      LessIsTransitive(a[1..], b[1..], c[1..]);
    }
  }

  /** Up to position n the two are the same; there `a` has ended, or has the smaller byte. */
  predicate LessAt(a: Bytes, b: Bytes, n: nat) {
    && n <= |a| && n <= |b| && a[..n] == b[..n]
    && ((n == |a| && n < |b|) || (n < |a| && n < |b| && a[n] < b[n]))
  }

  ghost predicate Precedes(a: Bytes, b: Bytes) { exists n: nat :: LessAt(a, b, n) }

  lemma SameStart(a: Bytes, b: Bytes, n: nat)
    requires LessAt(a, b, n)
    ensures n > 0 ==> a != [] && b != [] && a[0] == b[0]
  {
    if n > 0 {
      assert a[..n][0] == b[..n][0];
    }
  }

  /** What the order is, apart from how it is computed. */
  lemma {:induction false} LessMeans(a: Bytes, b: Bytes)
    ensures Less(a, b) <==> Precedes(a, b)
    decreases |a|
  {
    if a == [] || b == [] || a[0] != b[0] {
      assert a[..0] == b[..0];
      assert Less(a, b) ==> LessAt(a, b, 0);
      forall n: nat | LessAt(a, b, n) ensures n == 0 {
        SameStart(a, b, n);
      }
    } else {
      LessMeans(a[1..], b[1..]);
      if n: nat :| LessAt(a[1..], b[1..], n) {
        assert a[..n + 1] == [a[0]] + a[1..][..n] && b[..n + 1] == [b[0]] + b[1..][..n];
        assert LessAt(a, b, n + 1);
      }
      if n: nat :| LessAt(a, b, n) {
        assert a[1..][..n - 1] == a[..n][1..] && b[1..][..n - 1] == b[..n][1..];
        assert LessAt(a[1..], b[1..], n - 1);
      }
    }
  }

  predicate Ascending(order: seq<Bytes>) {
    forall i, j :: 0 <= i < j < |order| ==> Less(order[i], order[j])
  }

  /** Each key comes before the next ones where they first differ. */
  ghost predicate Lexicographic(order: seq<Bytes>) {
    forall i, j :: 0 <= i < j < |order| ==> Precedes(order[i], order[j])
  }

  lemma AscendingMeans(order: seq<Bytes>)
    ensures Ascending(order) <==> Lexicographic(order)
  {
    hide Less, Precedes;
    forall i, j | 0 <= i < j < |order| ensures Less(order[i], order[j]) <==> Precedes(order[i], order[j]) {
      LessMeans(order[i], order[j]);
    }
  }

  /** There is only one ascending order of a set of keys. */
  lemma {:induction false} AscendingIsUnique(a: seq<Bytes>, b: seq<Bytes>)
    requires Ascending(a) && Ascending(b) && SameKeys(a, b)
    ensures a == b
    decreases a
  {
    FirstIn(b);
    if a != [] {
      assert a[0] in a && a[0] in b;
      assert b[0] in b && b[0] in a;
      var i :| 0 <= i < |b| && b[i] == a[0];
      var j :| 0 <= j < |a| && a[j] == b[0];
      LessIsStrict(a[0], b[0]);
      assert a[0] == b[0];
      TailsSameKeys(a, b);
      AscendingIsUnique(a[1..], b[1..]);
      assert a == [a[0]] + a[1..] && b == [b[0]] + b[1..];
    }
  }

  lemma TailsSameKeys(a: seq<Bytes>, b: seq<Bytes>)
    requires Ascending(a) && Ascending(b) && SameKeys(a, b) && a != [] && b != [] && a[0] == b[0]
    ensures SameKeys(a[1..], b[1..])
  {
    forall k | k in a[1..] ensures k in b[1..] {
      LessIsStrict(k, k);
      assert k in a && k in b;
    }
    forall k | k in b[1..] ensures k in a[1..] {
      LessIsStrict(k, k);
      assert k in b && k in a;
    }
  }

  // ----- sorting

  function Insert(k: Bytes, order: seq<Bytes>): seq<Bytes> {
    if order == [] || Less(k, order[0]) then [k] + order else [order[0]] + Insert(k, order[1..])
  }

  function Sort(order: seq<Bytes>): seq<Bytes> {
    if order == [] then [] else Insert(order[0], Sort(order[1..]))
  }

  lemma {:induction false} InsertKeys(k: Bytes, order: seq<Bytes>)
    ensures forall x :: x in Insert(k, order) <==> x == k || x in order
    ensures |Insert(k, order)| == |order| + 1
  {
    if order != [] && !Less(k, order[0]) {
      InsertKeys(k, order[1..]);
      assert order == [order[0]] + order[1..];
    }
  }

  lemma {:induction false} InsertAscends(k: Bytes, order: seq<Bytes>)
    requires Ascending(order) && k !in order
    ensures Ascending(Insert(k, order))
  {
    if order == [] {
    } else if Less(k, order[0]) {
      forall j | 0 < j < |order| ensures Less(k, order[j]) {
        LessIsTransitive(k, order[0], order[j]);
      }
    } else {
      LessIsTotal(k, order[0]);
      InsertAscends(k, order[1..]);
      InsertKeys(k, order[1..]);
      var r := Insert(k, order[1..]);
      forall j | 0 <= j < |r| ensures Less(order[0], r[j]) {
        assert r[j] in r;
      }
    }
  }

  lemma HeadNotInTail(order: seq<Bytes>)
    requires Distinct(order) && order != []
    ensures order[0] !in order[1..]
  {
  }

  lemma {:induction false} SortSorts(order: seq<Bytes>)
    requires Distinct(order)
    ensures Ascending(Sort(order)) && SameKeys(Sort(order), order) && |Sort(order)| == |order|
    ensures Lexicographic(Sort(order))
  {
    hide Lexicographic;
    AscendingMeans(Sort(order));
    if order != [] {
      SortSorts(order[1..]);
      var s := Sort(order[1..]);
      HeadNotInTail(order);
      assert order[0] !in s;
      InsertAscends(order[0], s);
      InsertKeys(order[0], s);
      assert order == [order[0]] + order[1..];
    }
  }

  lemma AscendingIsDistinct(order: seq<Bytes>)
    requires Ascending(order)
    ensures Distinct(order)
  {
    forall i, j | 0 <= i < j < |order| ensures order[i] != order[j] {
      LessIsStrict(order[i], order[i]);
    }
  }

  /** What the deterministic writer does with the iteration order of one map. */
  function Canon(order: seq<Bytes>): seq<Bytes> {
    if |order| > 1 then Sort(order) else order
  }

  lemma CanonIsTheAscendingOrder<V>(order: seq<Bytes>, m: map<Bytes, V>)
    requires Enumerates(order, m)
    ensures Ascending(Canon(order)) && Enumerates(Canon(order), m)
  {
    if |order| > 1 {
      SortSorts(order);
      AscendingIsDistinct(Canon(order));
    }
  }

  lemma CanonForgetsTheOrder<V>(o1: seq<Bytes>, o2: seq<Bytes>, m: map<Bytes, V>)
    requires Enumerates(o1, m) && Enumerates(o2, m)
    ensures Canon(o1) == Canon(o2)
  {
    CanonIsTheAscendingOrder(o1, m);
    CanonIsTheAscendingOrder(o2, m);
    AscendingIsUnique(Canon(o1), Canon(o2));
  }

  function CanonConfig(o: ConfigOrder): ConfigOrder {
    ConfigOrder(Canon(o.ints), Canon(o.strings), Canon(o.floats), Canon(o.bools))
  }

  lemma CanonConfigOrders(c: ConfigMap, o: ConfigOrder)
    requires ConfigOrdered(o, c)
    ensures ConfigOrdered(CanonConfig(o), c)
  {
    CanonIsTheAscendingOrder(o.ints, c.ints);
    CanonIsTheAscendingOrder(o.strings, c.strings);
    CanonIsTheAscendingOrder(o.floats, c.floats);
    CanonIsTheAscendingOrder(o.bools, c.bools);
  }

  /** Deterministic serialization of a top-level ConfigMap. */
  function WriteDeterministic(c: ConfigMap, o: ConfigOrder): Bytes
    requires ConfigOrdered(o, c)
  {
    CanonConfigOrders(c, o);
    EncodeRecords(ConfigRecords(c, CanonConfig(o)))
  }

  /** Both serializers of a ConfigMap: sorted when the output is deterministic, else as its maps iterate. */
  function WriteConfig(c: ConfigMap, deterministic: bool, o: ConfigOrder): Bytes
    requires ConfigOrdered(o, c)
  {
    if deterministic then WriteDeterministic(c, o) else EncodeRecords(ConfigRecords(c, o))
  }

  /** Canonical form: equal ConfigMaps give identical bytes, whatever order their maps iterate in. */
  lemma ConfigIsCanonical(c: ConfigMap, o1: ConfigOrder, o2: ConfigOrder)
    requires ConfigOrdered(o1, c) && ConfigOrdered(o2, c)
    ensures WriteDeterministic(c, o1) == WriteDeterministic(c, o2)
  {
    CanonForgetsTheOrder(o1.ints, o2.ints, c.ints);
    CanonForgetsTheOrder(o1.strings, o2.strings, c.strings);
    CanonForgetsTheOrder(o1.floats, o2.floats, c.floats);
    CanonForgetsTheOrder(o1.bools, o2.bools, c.bools);
  }

  // ----- the flag does not reach nested messages

  /** Written records can be told apart: the encoding of a list of records is unique. */
  lemma {:induction false} EncodingIsInjective(a: seq<Record>, b: seq<Record>)
    requires ValidRecords(a) && ValidRecords(b) && EncodeRecords(a) == EncodeRecords(b)
    ensures a == b
    decreases a
  {
    NothingFromNothing(a);
    NothingFromNothing(b);
    if a != [] {
      FirstRecordIsKnown(a, b);
      EncodingIsInjective(a[1..], b[1..]);
      assert a == [a[0]] + a[1..] && b == [b[0]] + b[1..];
    }
  }

  lemma NothingFromNothing(rs: seq<Record>)
    ensures EncodeRecords(rs) == [] <==> rs == []
  {
    if rs != [] {
      assert |EncodeVarint(rs[0].tag)| > 0;
    }
  }

  /** Reading the first record of an encoding and what follows it. */
  lemma ReadFirst(rs: seq<Record>)
    requires ValidRecords(rs) && rs != []
    ensures var b := EncodeRecords(rs);
      && ReadTag(b) == Some((rs[0].tag, EncodeValue(rs[0].value) + EncodeRecords(rs[1..])))
      && ReadValue(rs[0].tag, EncodeValue(rs[0].value) + EncodeRecords(rs[1..]))
         == Some((rs[0].value, EncodeRecords(rs[1..])))
  {
    var rest := EncodeRecords(rs[1..]);
    var tail := EncodeValue(rs[0].value) + rest;
    assert EncodeRecords(rs) == EncodeVarint(rs[0].tag) + tail;
    VarintRoundTrip(rs[0].tag, tail);
    SmallModulo(rs[0].tag, TWO_TO_32);
    ReadEncodedValue(rs[0].tag, rs[0].value, rest);
  }

  lemma FirstRecordIsKnown(a: seq<Record>, b: seq<Record>)
    requires ValidRecords(a) && ValidRecords(b) && a != [] && b != [] && EncodeRecords(a) == EncodeRecords(b)
    ensures a[0] == b[0] && EncodeRecords(a[1..]) == EncodeRecords(b[1..])
  {
    ReadFirst(a);
    ReadFirst(b);
  }

  /** A deterministic top-level Metric: its own tags are sorted, its Config is written as it iterates. */
  function DeterministicOrder(o: MetricOrder): MetricOrder {
    o.(tags := Canon(o.tags))
  }

  lemma DeterministicOrders(m: Metric, o: MetricOrder)
    requires MetricOrdered(o, m)
    ensures MetricOrdered(DeterministicOrder(o), m)
  {
    CanonIsTheAscendingOrder(o.tags, m.tags);
  }

  function WriteMetricDeterministic(m: Metric, o: MetricOrder): Bytes
    requires MetricOrdered(o, m)
  {
    DeterministicOrders(m, o);
    WriteMetric(m, DeterministicOrder(o))
  }

  lemma SameLength<V>(o1: seq<Bytes>, o2: seq<Bytes>, m: map<Bytes, V>)
    requires Enumerates(o1, m) && Enumerates(o2, m)
    ensures |o1| == |o2|
  {
    SortSorts(o1);
    SortSorts(o2);
    AscendingIsUnique(Sort(o1), Sort(o2));
  }

  lemma EntryKeyIsKnown(tag: UInt32, valueTag: UInt32, k1: Bytes, v1: Value, k2: Bytes, v2: Value)
    requires EntryRecord(tag, valueTag, k1, v1) == EntryRecord(tag, valueTag, k2, v2)
    requires TaggedValue(valueTag, v1) && TaggedValue(valueTag, v2)
    requires |EncodeRecords(EntryRecords(k1, valueTag, v1))| < TWO_TO_31
    ensures k1 == k2
  {
    SmallRecords(EntryRecords(k1, valueTag, v1));
    SmallRecords(EntryRecords(k2, valueTag, v2));
    EncodingIsInjective(EntryRecords(k1, valueTag, v1), EntryRecords(k2, valueTag, v2));
    assert EntryRecords(k1, valueTag, v1)[0] == EntryRecords(k2, valueTag, v2)[0];
  }

  /** The first key written is known from the first record. */
  lemma FirstKeyIsKnown<V>(
    tag: UInt32, valueTag: UInt32, enc: V -> Value, m: map<Bytes, V>, o1: seq<Bytes>, o2: seq<Bytes>)
    requires (forall k :: k in o1 ==> k in m) && (forall k :: k in o2 ==> k in m) && o1 != [] && o2 != []
    requires TaggedValue(valueTag, enc(m[o1[0]])) && TaggedValue(valueTag, enc(m[o2[0]]))
    requires MapRecords(tag, valueTag, enc, m, o1) == MapRecords(tag, valueTag, enc, m, o2)
    requires |EncodeRecords(MapRecords(tag, valueTag, enc, m, o1))| < TWO_TO_31
    ensures o1[0] == o2[0]
    ensures MapRecords(tag, valueTag, enc, m, o1[1..]) == MapRecords(tag, valueTag, enc, m, o2[1..])
    ensures |EncodeRecords(MapRecords(tag, valueTag, enc, m, o1[1..]))| < TWO_TO_31
  {
    hide EncodeRecords, TaggedValue;
    var a, b := MapRecords(tag, valueTag, enc, m, o1), MapRecords(tag, valueTag, enc, m, o2);
    assert a[0] == b[0] && a[1..] == b[1..];
    SmallEntry(tag, valueTag, enc, m, o1);
    EntryKeyIsKnown(tag, valueTag, o1[0], enc(m[o1[0]]), o2[0], enc(m[o2[0]]));
  }

  /** The records of a map field tell in which order its keys were walked. */
  lemma {:induction false} MapRecordsFixTheOrder<V>(
    tag: UInt32, valueTag: UInt32, enc: V -> Value, m: map<Bytes, V>, o1: seq<Bytes>, o2: seq<Bytes>)
    requires (forall k :: k in o1 ==> k in m) && (forall k :: k in o2 ==> k in m)
    requires forall k :: k in m ==> TaggedValue(valueTag, enc(m[k]))
    requires MapRecords(tag, valueTag, enc, m, o1) == MapRecords(tag, valueTag, enc, m, o2)
    requires |EncodeRecords(MapRecords(tag, valueTag, enc, m, o1))| < TWO_TO_31
    ensures o1 == o2
    decreases o1
  {
    hide EncodeRecords, TaggedValue;
    if o1 != [] && o2 != [] {
      FirstKeyIsKnown(tag, valueTag, enc, m, o1, o2);
      MapRecordsFixTheOrder(tag, valueTag, enc, m, o1[1..], o2[1..]);
      assert o1 == [o1[0]] + o1[1..] && o2 == [o2[0]] + o2[1..];
    }
  }

  lemma {:induction false} MapRecordsCount<V>(tag: UInt32, valueTag: UInt32, enc: V -> Value, m: map<Bytes, V>,
      order: seq<Bytes>)
    requires forall k :: k in order ==> k in m
    ensures |MapRecords(tag, valueTag, enc, m, order)| == |order|
    decreases order
  {
    if order != [] {
      MapRecordsCount(tag, valueTag, enc, m, order[1..]);
    }
  }

  lemma SplitFour<T>(a: seq<T>, b: seq<T>, c: seq<T>, d: seq<T>, a': seq<T>, b': seq<T>, c': seq<T>, d': seq<T>)
    requires a + b + c + d == a' + b' + c' + d' && |a| == |a'| && |b| == |b'| && |c| == |c'|
    ensures a == a' && b == b' && c == c' && d == d'
  {
    var x, y := a + b + c + d, a' + b' + c' + d';
    assert a == x[..|a|] && a' == y[..|a|];
    assert b == x[|a|..|a| + |b|] && b' == y[|a|..|a| + |b|];
    assert c == x[|a| + |b|..|a| + |b| + |c|] && c' == y[|a| + |b|..|a| + |b| + |c|];
    assert d == x[|a| + |b| + |c|..] && d' == y[|a| + |b| + |c|..];
  }

  lemma ConfigPartsAreKnown(c: ConfigMap, o1: ConfigOrder, o2: ConfigOrder)
    requires ConfigOrdered(o1, c) && ConfigOrdered(o2, c) && ConfigRecords(c, o1) == ConfigRecords(c, o2)
    ensures MapRecords(10, INT_VALUE, IntValue, c.ints, o1.ints) == MapRecords(10, INT_VALUE, IntValue, c.ints, o2.ints)
    ensures MapRecords(18, STRING_VALUE, StringValue, c.strings, o1.strings)
         == MapRecords(18, STRING_VALUE, StringValue, c.strings, o2.strings)
    ensures MapRecords(26, DOUBLE_VALUE, DoubleValue, c.floats, o1.floats)
         == MapRecords(26, DOUBLE_VALUE, DoubleValue, c.floats, o2.floats)
    ensures MapRecords(34, BOOL_VALUE, BoolValue, c.bools, o1.bools)
         == MapRecords(34, BOOL_VALUE, BoolValue, c.bools, o2.bools)
  {
    ConfigCounts(c, o1, o2);
    SplitFour(MapRecords(10, INT_VALUE, IntValue, c.ints, o1.ints),
              MapRecords(18, STRING_VALUE, StringValue, c.strings, o1.strings),
              MapRecords(26, DOUBLE_VALUE, DoubleValue, c.floats, o1.floats),
              MapRecords(34, BOOL_VALUE, BoolValue, c.bools, o1.bools),
              MapRecords(10, INT_VALUE, IntValue, c.ints, o2.ints),
              MapRecords(18, STRING_VALUE, StringValue, c.strings, o2.strings),
              MapRecords(26, DOUBLE_VALUE, DoubleValue, c.floats, o2.floats),
              MapRecords(34, BOOL_VALUE, BoolValue, c.bools, o2.bools));
  }

  lemma ConfigPartsAreSmall(c: ConfigMap, o: ConfigOrder)
    requires ConfigOrdered(o, c) && |EncodeRecords(ConfigRecords(c, o))| < TWO_TO_31
    ensures |EncodeRecords(MapRecords(10, INT_VALUE, IntValue, c.ints, o.ints))| < TWO_TO_31
    ensures |EncodeRecords(MapRecords(18, STRING_VALUE, StringValue, c.strings, o.strings))| < TWO_TO_31
    ensures |EncodeRecords(MapRecords(26, DOUBLE_VALUE, DoubleValue, c.floats, o.floats))| < TWO_TO_31
    ensures |EncodeRecords(MapRecords(34, BOOL_VALUE, BoolValue, c.bools, o.bools))| < TWO_TO_31
  {
    SmallFour(MapRecords(10, INT_VALUE, IntValue, c.ints, o.ints),
              MapRecords(18, STRING_VALUE, StringValue, c.strings, o.strings),
              MapRecords(26, DOUBLE_VALUE, DoubleValue, c.floats, o.floats),
              MapRecords(34, BOOL_VALUE, BoolValue, c.bools, o.bools));
  }

  lemma IntsFixTheOrder(m: map<Bytes, Int64>, o1: seq<Bytes>, o2: seq<Bytes>)
    requires Enumerates(o1, m) && Enumerates(o2, m)
    requires MapRecords(10, INT_VALUE, IntValue, m, o1) == MapRecords(10, INT_VALUE, IntValue, m, o2)
    requires |EncodeRecords(MapRecords(10, INT_VALUE, IntValue, m, o1))| < TWO_TO_31
    ensures o1 == o2
  {
    hide EncodeRecords, MapRecords, EncodeValue;
    MapRecordsFixTheOrder(10, INT_VALUE, IntValue, m, o1, o2);
  }

  lemma StringsFixTheOrder(m: map<Bytes, Bytes>, o1: seq<Bytes>, o2: seq<Bytes>)
    requires Enumerates(o1, m) && Enumerates(o2, m)
    requires MapRecords(18, STRING_VALUE, StringValue, m, o1) == MapRecords(18, STRING_VALUE, StringValue, m, o2)
    requires |EncodeRecords(MapRecords(18, STRING_VALUE, StringValue, m, o1))| < TWO_TO_31
    ensures o1 == o2
  {
    hide EncodeRecords, MapRecords, EncodeValue;
    MapRecordsFixTheOrder(18, STRING_VALUE, StringValue, m, o1, o2);
  }

  lemma FloatsFixTheOrder(m: map<Bytes, UInt64>, o1: seq<Bytes>, o2: seq<Bytes>)
    requires Enumerates(o1, m) && Enumerates(o2, m)
    requires MapRecords(26, DOUBLE_VALUE, DoubleValue, m, o1) == MapRecords(26, DOUBLE_VALUE, DoubleValue, m, o2)
    requires |EncodeRecords(MapRecords(26, DOUBLE_VALUE, DoubleValue, m, o1))| < TWO_TO_31
    ensures o1 == o2
  {
    hide EncodeRecords, MapRecords, EncodeValue;
    MapRecordsFixTheOrder(26, DOUBLE_VALUE, DoubleValue, m, o1, o2);
  }

  lemma BoolsFixTheOrder(m: map<Bytes, bool>, o1: seq<Bytes>, o2: seq<Bytes>)
    requires Enumerates(o1, m) && Enumerates(o2, m)
    requires MapRecords(34, BOOL_VALUE, BoolValue, m, o1) == MapRecords(34, BOOL_VALUE, BoolValue, m, o2)
    requires |EncodeRecords(MapRecords(34, BOOL_VALUE, BoolValue, m, o1))| < TWO_TO_31
    ensures o1 == o2
  {
    hide EncodeRecords, MapRecords, EncodeValue;
    MapRecordsFixTheOrder(34, BOOL_VALUE, BoolValue, m, o1, o2);
  }

  /** Written without the sort, a ConfigMap shows its iteration order. */
  lemma ConfigRecordsFixTheOrder(c: ConfigMap, o1: ConfigOrder, o2: ConfigOrder)
    requires ConfigOrdered(o1, c) && ConfigOrdered(o2, c)
    requires |EncodeRecords(ConfigRecords(c, o1))| < TWO_TO_31
    requires ConfigRecords(c, o1) == ConfigRecords(c, o2)
    ensures o1 == o2
  {
    ConfigPartsAreKnown(c, o1, o2);
    ConfigPartsAreSmall(c, o1);
    IntsFixTheOrder(c.ints, o1.ints, o2.ints);
    StringsFixTheOrder(c.strings, o1.strings, o2.strings);
    FloatsFixTheOrder(c.floats, o1.floats, o2.floats);
    BoolsFixTheOrder(c.bools, o1.bools, o2.bools);
  }

  lemma ConfigCounts(c: ConfigMap, o1: ConfigOrder, o2: ConfigOrder)
    requires ConfigOrdered(o1, c) && ConfigOrdered(o2, c)
    ensures |MapRecords(10, INT_VALUE, IntValue, c.ints, o1.ints)|
        == |MapRecords(10, INT_VALUE, IntValue, c.ints, o2.ints)|
    ensures |MapRecords(18, STRING_VALUE, StringValue, c.strings, o1.strings)|
         == |MapRecords(18, STRING_VALUE, StringValue, c.strings, o2.strings)|
    ensures |MapRecords(26, DOUBLE_VALUE, DoubleValue, c.floats, o1.floats)|
         == |MapRecords(26, DOUBLE_VALUE, DoubleValue, c.floats, o2.floats)|
  {
    SameLength(o1.ints, o2.ints, c.ints);
    SameLength(o1.strings, o2.strings, c.strings);
    SameLength(o1.floats, o2.floats, c.floats);
    MapRecordsCount(10, INT_VALUE, IntValue, c.ints, o1.ints);
    MapRecordsCount(10, INT_VALUE, IntValue, c.ints, o2.ints);
    MapRecordsCount(18, STRING_VALUE, StringValue, c.strings, o1.strings);
    MapRecordsCount(18, STRING_VALUE, StringValue, c.strings, o2.strings);
    MapRecordsCount(26, DOUBLE_VALUE, DoubleValue, c.floats, o1.floats);
    MapRecordsCount(26, DOUBLE_VALUE, DoubleValue, c.floats, o2.floats);
  }

  lemma MiddleIsKnown<T>(a: seq<T>, b: seq<T>, c: seq<T>, d: seq<T>, e: seq<T>, c': seq<T>, e': seq<T>)
    requires (a + b + c + d) + e == (a + b + c' + d) + e' && |c| == |c'|
    ensures c == c'
  {
    var n := |a| + |b|;
    assert c == ((a + b + c + d) + e)[n..n + |c|];
    assert c' == ((a + b + c' + d) + e')[n..n + |c|];
  }

  /** The config record stands at the same place in both lists. */
  lemma ConfigRecordIsKnown(m: Metric, o1: MetricOrder, o2: MetricOrder)
    requires MetricOrdered(o1, m) && MetricOrdered(o2, m) && m.config.Some?
    requires MetricRecords(m, o1) == MetricRecords(m, o2)
    ensures ConfigField(m.config, o1.config) == ConfigField(m.config, o2.config)
  {
    MiddleIsKnown(NamespaceRecords(m.namespace), When(m.version != 0, Record(16, Varint(FromInt64(m.version)))),
                  ConfigField(m.config, o1.config), TimeField(34, m.lastAdvertised), MetricRest(m, o1),
                  ConfigField(m.config, o2.config), MetricRest(m, o2));
  }

  lemma WrittenMetricFixesConfigOrder(m: Metric, o1: MetricOrder, o2: MetricOrder)
    requires MetricOrdered(o1, m) && MetricOrdered(o2, m) && m.config.Some?
    requires |WriteMetric(m, o1)| < TWO_TO_31 && WriteMetric(m, o1) == WriteMetric(m, o2)
    ensures o1.config == o2.config
  {
    MetricTagged(m, o1);
    MetricTagged(m, o2);
    SmallRecords(MetricRecords(m, o1));
    SmallRecords(MetricRecords(m, o2));
    EncodingIsInjective(MetricRecords(m, o1), MetricRecords(m, o2));
    ConfigRecordIsKnown(m, o1, o2);
    var c := m.config.value;
    var r1, r2 := ConfigField(m.config, o1.config)[0], ConfigField(m.config, o2.config)[0];
    assert r1.value.bytes == EncodeRecords(ConfigRecords(c, o1.config));
    assert r2.value.bytes == EncodeRecords(ConfigRecords(c, o2.config));
    SmallParts(MetricHead(m, o1), MetricRest(m, o1));
    SmallFour(NamespaceRecords(m.namespace), When(m.version != 0, Record(16, Varint(FromInt64(m.version)))),
              ConfigField(m.config, o1.config), TimeField(34, m.lastAdvertised));
    SubMessageSize(26, ConfigRecords(c, o1.config));
    ConfigTagged(c, o1.config);
    ConfigTagged(c, o2.config);
    SmallRecords(ConfigRecords(c, o1.config));
    SmallRecords(ConfigRecords(c, o2.config));
    EncodingIsInjective(ConfigRecords(c, o1.config), ConfigRecords(c, o2.config));
    ConfigRecordsFixTheOrder(c, o1.config, o2.config);
  }

  /** The deterministic flag stops at the top level: two deterministic writes of one Metric agree exactly
      when its nested Config happened to iterate in the same order both times. */
  lemma MetricIsCanonicalUpToConfig(m: Metric, o1: MetricOrder, o2: MetricOrder)
    requires MetricOrdered(o1, m) && MetricOrdered(o2, m) && |WriteMetricDeterministic(m, o1)| < TWO_TO_31
    ensures WriteMetricDeterministic(m, o1) == WriteMetricDeterministic(m, o2)
       <==> (m.config.Some? ==> o1.config == o2.config)
  {
    CanonForgetsTheOrder(o1.tags, o2.tags, m.tags);
    DeterministicOrders(m, o1);
    DeterministicOrders(m, o2);
    if m.config.Some? && WriteMetricDeterministic(m, o1) == WriteMetricDeterministic(m, o2) {
      WrittenMetricFixesConfigOrder(m, DeterministicOrder(o1), DeterministicOrder(o2));
    }
  }
}

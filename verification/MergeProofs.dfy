/** Reading back what was written is merging: for each message type, folding the written records into a
    message merges the written message into it if its text is valid UTF-8, and fails otherwise. */
module MergeProofs {
  import opened Options
  import opened Wire
  import opened MessageLoop
  import opened Messages

  // ----- lengths

  /** A record whose tag fits its payload; its length is not looked at. */
  predicate Tagged(r: Record) {
    r.tag > 0 && r.tag % 8 == WireType(r.value) && !r.value.Group?
  }

  predicate AllTagged(rs: seq<Record>) {
    forall i :: 0 <= i < |rs| ==> Tagged(rs[i])
  }

  /** Fields of a buffer that fits an int fit it too. */
  lemma SmallRecords(rs: seq<Record>)
    requires AllTagged(rs) && |EncodeRecords(rs)| < TWO_TO_31
    ensures ValidRecords(rs)
  {
    forall i | 0 <= i < |rs| ensures ValidRecord(rs[i]) {
      RecordsLength(rs, i);
      assert Tagged(rs[i]);
    }
  }

  lemma SmallParts(a: seq<Record>, b: seq<Record>)
    requires |EncodeRecords(a + b)| < TWO_TO_31
    ensures |EncodeRecords(a)| < TWO_TO_31 && |EncodeRecords(b)| < TWO_TO_31
  {
    EncodeConcat(a, b);
  }

  /** Reading a sub-message out of a buffer that fits. */
  lemma ReadSub<M>(apply: (M, Record) -> Option<M>, m: M, rs: seq<Record>)
    requires AllTagged(rs) && |EncodeRecords(rs)| < TWO_TO_31
    ensures ParseWhole(apply, m, EncodeRecords(rs)) == Fold(apply, m, rs)
  {
    SmallRecords(rs);
    ParseWholeEncoded(apply, m, rs);
  }

  // ----- Time and NamespaceElement

  lemma TimeTagged(t: Time)
    ensures AllTagged(TimeRecords(t))
  {
  }

  lemma FoldTime(a: Time, b: Time)
    ensures Fold(ApplyTime, a, TimeRecords(b)) == Some(MergeTime(a, b))
  {
    var r1 := Record(8, Varint(FromInt64(b.sec)));
    var r2 := Record(16, Varint(FromInt64(b.nsec)));
    FoldConcat(ApplyTime, a, When(b.sec != 0, r1), When(b.nsec != 0, r2));
    FoldWhen(ApplyTime, a, b.sec != 0, r1);
    FoldWhen(ApplyTime, a.(sec := if b.sec != 0 then b.sec else a.sec), b.nsec != 0, r2);
  }

  lemma ElementTagged(e: NamespaceElement)
    ensures AllTagged(ElementRecords(e))
  {
  }

  lemma FoldElement(a: NamespaceElement, b: NamespaceElement)
    ensures Fold(ApplyElement, a, ElementRecords(b)) == if ElementText(b) then Some(MergeElement(a, b)) else None
  {
    var r1 := Record(10, Delimited(b.value));
    var r2 := Record(18, Delimited(b.description));
    var r3 := Record(26, Delimited(b.name));
    FoldConcat(ApplyElement, a, When(b.value != [], r1) + When(b.description != [], r2), When(b.name != [], r3));
    FoldConcat(ApplyElement, a, When(b.value != [], r1), When(b.description != [], r2));
    FoldWhen(ApplyElement, a, b.value != [], r1);
    var a1 := a.(value := Override(a.value, b.value));
    FoldWhen(ApplyElement, a1, b.description != [], r2);
    FoldWhen(ApplyElement, a1.(description := Override(a.description, b.description)), b.name != [], r3);
  }

  // ----- maps

  predicate TaggedValue(valueTag: UInt32, v: Value) {
    valueTag > 0 && valueTag % 8 == WireType(v) && !v.Group?
  }

  lemma ReadWrittenEntry(valueTag: UInt32, default: Value, k: Bytes, v: Value)
    requires TaggedValue(valueTag, v) && valueTag != 10
    requires |EncodeRecords(EntryRecords(k, valueTag, v))| < TWO_TO_31
    ensures ReadEntry(valueTag, default, EncodeRecords(EntryRecords(k, valueTag, v))) == Some(Entry(k, v))
  {
    var rs := EntryRecords(k, valueTag, v);
    var apply := ApplyEntry(valueTag);
    ReadSub(apply, Entry([], default), rs);
    assert apply(Entry([], default), rs[0]) == Some(Entry(k, default));
    assert apply(Entry(k, default), rs[1]) == Some(Entry(k, v));
    assert rs[1..] == [Record(valueTag, v)] && rs[1..][1..] == [];
    assert Fold(apply, Entry(k, v), rs[1..][1..]) == Some(Entry(k, v));
    assert Fold(apply, Entry(k, default), rs[1..]) == Some(Entry(k, v));
  }

  lemma {:induction false} MapTagged<V>(tag: UInt32, valueTag: UInt32, enc: V -> Value, m: map<Bytes, V>,
      order: seq<Bytes>)
    requires (forall k :: k in order ==> k in m) && tag > 0 && tag % 8 == 2
    ensures AllTagged(MapRecords(tag, valueTag, enc, m, order))
  {
    if order != [] {
      MapTagged(tag, valueTag, enc, m, order[1..]);
    }
  }

  /** The part of a map that an order lists. */
  function Listed<V>(m: map<Bytes, V>, order: seq<Bytes>): map<Bytes, V> {
    map k | k in order && k in m :: m[k]
  }

  lemma ListedAll<V>(m: map<Bytes, V>, order: seq<Bytes>)
    requires Enumerates(order, m)
    ensures Listed(m, order) == m
  {
  }

  lemma ListedStep<V>(have: map<Bytes, V>, m: map<Bytes, V>, order: seq<Bytes>)
    requires order != [] && order[0] in m
    ensures have[order[0] := m[order[0]]] + Listed(m, order[1..]) == have + Listed(m, order)
  {
  }

  lemma SmallEntry<V>(tag: UInt32, valueTag: UInt32, enc: V -> Value, m: map<Bytes, V>, order: seq<Bytes>)
    requires (forall k :: k in order ==> k in m) && order != []
    requires |EncodeRecords(MapRecords(tag, valueTag, enc, m, order))| < TWO_TO_31
    ensures |EncodeRecords(EntryRecords(order[0], valueTag, enc(m[order[0]])))| < TWO_TO_31
    ensures |EncodeRecords(MapRecords(tag, valueTag, enc, m, order[1..]))| < TWO_TO_31
  {
  }

  predicate KeyIsText<V>(k: Bytes, v: V) { Utf8(k) }
  predicate BothAreText(k: Bytes, v: Bytes) { Utf8(k) && Utf8(v) }

  /** One written entry of a map field, applied to a message that holds `h` there, adds its key or fails. */
  ghost predicate AddsEntry<M, V>(
    apply: (M, Record) -> Option<M>, holding: map<Bytes, V> -> M, tag: UInt32, valueTag: UInt32, enc: V -> Value,
    text: (Bytes, V) -> bool, h: map<Bytes, V>, k: Bytes, v: V)
  {
    |EncodeRecords(EntryRecords(k, valueTag, enc(v)))| < TWO_TO_31 ==>
      apply(holding(h), EntryRecord(tag, valueTag, k, enc(v))) == if text(k, v) then Some(holding(h[k := v])) else None
  }

  /** Folding a written map into a map field, for any message that has one. */
  lemma {:induction false} FoldMap<M, V(!new)>(
    apply: (M, Record) -> Option<M>, holding: map<Bytes, V> -> M, tag: UInt32, valueTag: UInt32, enc: V -> Value,
    text: (Bytes, V) -> bool, have: map<Bytes, V>, m: map<Bytes, V>, order: seq<Bytes>)
    requires forall h: map<Bytes, V>, k: Bytes, v: V :: AddsEntry(apply, holding, tag, valueTag, enc, text, h, k, v)
    requires forall k :: k in order ==> k in m
    requires |EncodeRecords(MapRecords(tag, valueTag, enc, m, order))| < TWO_TO_31
    ensures Fold(apply, holding(have), MapRecords(tag, valueTag, enc, m, order))
         == if forall k :: k in order ==> text(k, m[k]) then Some(holding(have + Listed(m, order))) else None
    decreases order
  {
    hide EncodeRecords;
    if order == [] {
      assert have + Listed(m, order) == have;
    } else {
      var k := order[0];
      SmallEntry(tag, valueTag, enc, m, order);
      assert AddsEntry(apply, holding, tag, valueTag, enc, text, have, k, m[k]);
      if text(k, m[k]) {
        ListedStep(have, m, order);
        FoldMap(apply, holding, tag, valueTag, enc, text, have[k := m[k]], m, order[1..]);
      }
    }
  }

  lemma ApplyInts(c: ConfigMap, k: Bytes, v: Int64)
    requires |EncodeRecords(EntryRecords(k, INT_VALUE, IntValue(v)))| < TWO_TO_31
    ensures ApplyConfig(c, EntryRecord(10, INT_VALUE, k, IntValue(v)))
         == if Utf8(k) then Some(c.(ints := c.ints[k := v])) else None
  {
    hide ReadEntry, EncodeRecords, Utf8;
    ReadWrittenEntry(INT_VALUE, Varint(0), k, IntValue(v));
  }

  lemma FoldInts(c: ConfigMap, m: map<Bytes, Int64>, order: seq<Bytes>)
    requires forall k :: k in order ==> k in m
    requires |EncodeRecords(MapRecords(10, INT_VALUE, IntValue, m, order))| < TWO_TO_31
    ensures Fold(ApplyConfig, c, MapRecords(10, INT_VALUE, IntValue, m, order))
         == if forall k :: k in order ==> Utf8(k) then Some(c.(ints := c.ints + Listed(m, order))) else None
  {
    hide EncodeRecords, ApplyConfig, Fold, Utf8;
    var holding := (h: map<Bytes, Int64>) => c.(ints := h);
    forall h: map<Bytes, Int64>, k: Bytes, v: Int64
      ensures AddsEntry(ApplyConfig, holding, 10, INT_VALUE, IntValue, KeyIsText, h, k, v)
    {
      if |EncodeRecords(EntryRecords(k, INT_VALUE, IntValue(v)))| < TWO_TO_31 {
        ApplyInts(holding(h), k, v);
      }
    }
    FoldMap(ApplyConfig, holding, 10, INT_VALUE, IntValue, KeyIsText, c.ints, m, order);
    assert holding(c.ints) == c;
  }

  lemma ApplyStrings(c: ConfigMap, k: Bytes, v: Bytes)
    requires |EncodeRecords(EntryRecords(k, STRING_VALUE, StringValue(v)))| < TWO_TO_31
    ensures ApplyConfig(c, EntryRecord(18, STRING_VALUE, k, StringValue(v)))
         == if Utf8(k) && Utf8(v) then Some(c.(strings := c.strings[k := v])) else None
  {
    hide ReadEntry, EncodeRecords, Utf8;
    ReadWrittenEntry(STRING_VALUE, Delimited([]), k, StringValue(v));
  }

  lemma FoldStrings(c: ConfigMap, m: map<Bytes, Bytes>, order: seq<Bytes>)
    requires forall k :: k in order ==> k in m
    requires |EncodeRecords(MapRecords(18, STRING_VALUE, StringValue, m, order))| < TWO_TO_31
    ensures Fold(ApplyConfig, c, MapRecords(18, STRING_VALUE, StringValue, m, order))
         == if forall k :: k in order ==> Utf8(k) && Utf8(m[k]) then Some(c.(strings := c.strings + Listed(m, order)))
             else None
  {
    hide EncodeRecords, ApplyConfig, Fold, Utf8;
    var holding := (h: map<Bytes, Bytes>) => c.(strings := h);
    forall h: map<Bytes, Bytes>, k: Bytes, v: Bytes
      ensures AddsEntry(ApplyConfig, holding, 18, STRING_VALUE, StringValue, BothAreText, h, k, v)
    {
      if |EncodeRecords(EntryRecords(k, STRING_VALUE, StringValue(v)))| < TWO_TO_31 {
        ApplyStrings(holding(h), k, v);
      }
    }
    FoldMap(ApplyConfig, holding, 18, STRING_VALUE, StringValue, BothAreText, c.strings, m, order);
    assert holding(c.strings) == c;
  }

  lemma ApplyFloats(c: ConfigMap, k: Bytes, v: UInt64)
    requires |EncodeRecords(EntryRecords(k, DOUBLE_VALUE, DoubleValue(v)))| < TWO_TO_31
    ensures ApplyConfig(c, EntryRecord(26, DOUBLE_VALUE, k, DoubleValue(v)))
         == if Utf8(k) then Some(c.(floats := c.floats[k := v])) else None
  {
    hide ReadEntry, EncodeRecords, Utf8;
    ReadWrittenEntry(DOUBLE_VALUE, Fixed64(0), k, DoubleValue(v));
  }

  lemma FoldFloats(c: ConfigMap, m: map<Bytes, UInt64>, order: seq<Bytes>)
    requires forall k :: k in order ==> k in m
    requires |EncodeRecords(MapRecords(26, DOUBLE_VALUE, DoubleValue, m, order))| < TWO_TO_31
    ensures Fold(ApplyConfig, c, MapRecords(26, DOUBLE_VALUE, DoubleValue, m, order))
         == if forall k :: k in order ==> Utf8(k) then Some(c.(floats := c.floats + Listed(m, order))) else None
  {
    hide EncodeRecords, ApplyConfig, Fold, Utf8;
    var holding := (h: map<Bytes, UInt64>) => c.(floats := h);
    forall h: map<Bytes, UInt64>, k: Bytes, v: UInt64
      ensures AddsEntry(ApplyConfig, holding, 26, DOUBLE_VALUE, DoubleValue, KeyIsText, h, k, v)
    {
      if |EncodeRecords(EntryRecords(k, DOUBLE_VALUE, DoubleValue(v)))| < TWO_TO_31 {
        ApplyFloats(holding(h), k, v);
      }
    }
    FoldMap(ApplyConfig, holding, 26, DOUBLE_VALUE, DoubleValue, KeyIsText, c.floats, m, order);
    assert holding(c.floats) == c;
  }

  lemma ApplyBools(c: ConfigMap, k: Bytes, v: bool)
    requires |EncodeRecords(EntryRecords(k, BOOL_VALUE, BoolValue(v)))| < TWO_TO_31
    ensures ApplyConfig(c, EntryRecord(34, BOOL_VALUE, k, BoolValue(v)))
         == if Utf8(k) then Some(c.(bools := c.bools[k := v])) else None
  {
    hide ReadEntry, EncodeRecords, Utf8;
    ReadWrittenEntry(BOOL_VALUE, Varint(0), k, BoolValue(v));
  }

  lemma FoldBools(c: ConfigMap, m: map<Bytes, bool>, order: seq<Bytes>)
    requires forall k :: k in order ==> k in m
    requires |EncodeRecords(MapRecords(34, BOOL_VALUE, BoolValue, m, order))| < TWO_TO_31
    ensures Fold(ApplyConfig, c, MapRecords(34, BOOL_VALUE, BoolValue, m, order))
         == if forall k :: k in order ==> Utf8(k) then Some(c.(bools := c.bools + Listed(m, order))) else None
  {
    hide EncodeRecords, ApplyConfig, Fold, Utf8;
    var holding := (h: map<Bytes, bool>) => c.(bools := h);
    forall h: map<Bytes, bool>, k: Bytes, v: bool
      ensures AddsEntry(ApplyConfig, holding, 34, BOOL_VALUE, BoolValue, KeyIsText, h, k, v)
    {
      if |EncodeRecords(EntryRecords(k, BOOL_VALUE, BoolValue(v)))| < TWO_TO_31 {
        ApplyBools(holding(h), k, v);
      }
    }
    FoldMap(ApplyConfig, holding, 34, BOOL_VALUE, BoolValue, KeyIsText, c.bools, m, order);
    assert holding(c.bools) == c;
  }

  lemma ApplyTags(c: Metric, k: Bytes, v: Bytes)
    requires |EncodeRecords(EntryRecords(k, STRING_VALUE, StringValue(v)))| < TWO_TO_31
    ensures ApplyMetric(c, EntryRecord(42, STRING_VALUE, k, StringValue(v)))
         == if Utf8(k) && Utf8(v) then Some(c.(tags := c.tags[k := v])) else None
  {
    hide ReadEntry, EncodeRecords, Utf8;
    ReadWrittenEntry(STRING_VALUE, Delimited([]), k, StringValue(v));
  }

  lemma FoldTags(c: Metric, m: map<Bytes, Bytes>, order: seq<Bytes>)
    requires forall k :: k in order ==> k in m
    requires |EncodeRecords(MapRecords(42, STRING_VALUE, StringValue, m, order))| < TWO_TO_31
    ensures Fold(ApplyMetric, c, MapRecords(42, STRING_VALUE, StringValue, m, order))
         == if forall k :: k in order ==> Utf8(k) && Utf8(m[k]) then Some(c.(tags := c.tags + Listed(m, order)))
             else None
  {
    hide EncodeRecords, ApplyMetric, Fold, Utf8;
    var holding := (h: map<Bytes, Bytes>) => c.(tags := h);
    forall h: map<Bytes, Bytes>, k: Bytes, v: Bytes
      ensures AddsEntry(ApplyMetric, holding, 42, STRING_VALUE, StringValue, BothAreText, h, k, v)
    {
      if |EncodeRecords(EntryRecords(k, STRING_VALUE, StringValue(v)))| < TWO_TO_31 {
        ApplyTags(holding(h), k, v);
      }
    }
    FoldMap(ApplyMetric, holding, 42, STRING_VALUE, StringValue, BothAreText, c.tags, m, order);
    assert holding(c.tags) == c;
  }

  // ----- ConfigMap

  lemma ConfigTagged(c: ConfigMap, o: ConfigOrder)
    requires ConfigOrdered(o, c)
    ensures AllTagged(ConfigRecords(c, o))
  {
    MapTagged(10, INT_VALUE, IntValue, c.ints, o.ints);
    MapTagged(18, STRING_VALUE, StringValue, c.strings, o.strings);
    MapTagged(26, DOUBLE_VALUE, DoubleValue, c.floats, o.floats);
    MapTagged(34, BOOL_VALUE, BoolValue, c.bools, o.bools);
  }

  /** Folding three or four parts one after the other, as long as each succeeds. */
  lemma FoldParts<M>(apply: (M, Record) -> Option<M>, m: M, a: seq<Record>, b: seq<Record>, c: seq<Record>,
      d: seq<Record>)
    ensures Fold(apply, m, a + b + c + d)
         == match Fold(apply, m, a)
            case None => None
            case Some(m1) =>
              match Fold(apply, m1, b)
              case None => None
              case Some(m2) =>
                match Fold(apply, m2, c)
                case None => None
                case Some(m3) => Fold(apply, m3, d)
  {
    FoldConcat(apply, m, a + b + c, d);
    FoldConcat(apply, m, a + b, c);
    FoldConcat(apply, m, a, b);
  }

  lemma SmallFour(a: seq<Record>, b: seq<Record>, c: seq<Record>, d: seq<Record>)
    requires |EncodeRecords(a + b + c + d)| < TWO_TO_31
    ensures |EncodeRecords(a)| < TWO_TO_31 && |EncodeRecords(b)| < TWO_TO_31
    ensures |EncodeRecords(c)| < TWO_TO_31 && |EncodeRecords(d)| < TWO_TO_31
  {
    SmallParts(a + b + c, d);
    SmallParts(a + b, c);
    SmallParts(a, b);
  }

  lemma FoldConfig(a: ConfigMap, b: ConfigMap, o: ConfigOrder)
    requires ConfigOrdered(o, b) && |EncodeRecords(ConfigRecords(b, o))| < TWO_TO_31
    ensures Fold(ApplyConfig, a, ConfigRecords(b, o)) == if ConfigText(b) then Some(MergeConfig(a, b)) else None
  {
    hide EncodeRecords, MapRecords, Fold;
    var r1 := MapRecords(10, INT_VALUE, IntValue, b.ints, o.ints);
    var r2 := MapRecords(18, STRING_VALUE, StringValue, b.strings, o.strings);
    var r3 := MapRecords(26, DOUBLE_VALUE, DoubleValue, b.floats, o.floats);
    var r4 := MapRecords(34, BOOL_VALUE, BoolValue, b.bools, o.bools);
    SmallFour(r1, r2, r3, r4);
    FoldParts(ApplyConfig, a, r1, r2, r3, r4);
    ListedAll(b.ints, o.ints);
    ListedAll(b.strings, o.strings);
    ListedAll(b.floats, o.floats);
    ListedAll(b.bools, o.bools);
    var a1 := a.(ints := a.ints + b.ints);
    var a2 := a1.(strings := a.strings + b.strings);
    var a3 := a2.(floats := a.floats + b.floats);
    FoldInts(a, b.ints, o.ints);
    FoldStrings(a1, b.strings, o.strings);
    FoldFloats(a2, b.floats, o.floats);
    FoldBools(a3, b.bools, o.bools);
  }

  // ----- Metric

  lemma {:induction false} NamespaceTagged(es: seq<NamespaceElement>)
    ensures AllTagged(NamespaceRecords(es))
  {
    if es != [] {
      NamespaceTagged(es[1..]);
    }
  }

  predicate AllElementText(es: seq<NamespaceElement>) {
    forall i :: 0 <= i < |es| ==> ElementText(es[i])
  }

  lemma FoldCons<M>(apply: (M, Record) -> Option<M>, m: M, r: Record, rest: seq<Record>)
    ensures Fold(apply, m, [r] + rest)
         == match apply(m, r) case None => None case Some(m') => Fold(apply, m', rest)
  {
    assert ([r] + rest)[1..] == rest;
  }

  lemma SmallCons(r: Record, rest: seq<Record>)
    requires |EncodeRecords([r] + rest)| < TWO_TO_31
    ensures |EncodeRecords(rest)| < TWO_TO_31
    ensures r.value.Delimited? ==> |r.value.bytes| < TWO_TO_31
  {
    assert ([r] + rest)[1..] == rest;
  }

  lemma ApplyElementRecord(m: Metric, e: NamespaceElement)
    requires |EncodeRecords(ElementRecords(e))| < TWO_TO_31
    ensures ApplyMetric(m, Record(10, Delimited(EncodeRecords(ElementRecords(e)))))
         == if ElementText(e) then Some(m.(namespace := m.namespace + [e])) else None
  {
    ElementTagged(e);
    ReadSub(ApplyElement, NO_ELEMENT, ElementRecords(e));
    FoldElement(NO_ELEMENT, e);
    assert MergeElement(NO_ELEMENT, e) == e;
  }

  lemma AllElementTextSplit(es: seq<NamespaceElement>)
    requires es != []
    ensures AllElementText(es) <==> ElementText(es[0]) && AllElementText(es[1..])
  {
  }

  function WithNamespace(m: Metric, es: seq<NamespaceElement>): Metric {
    m.(namespace := m.namespace + es)
  }

  lemma WithNamespaceStep(m: Metric, es: seq<NamespaceElement>)
    requires es != []
    ensures WithNamespace(WithNamespace(m, [es[0]]), es[1..]) == WithNamespace(m, es)
  {
    assert m.namespace + [es[0]] + es[1..] == m.namespace + es;
  }

  lemma {:induction false} FoldNamespace(m: Metric, es: seq<NamespaceElement>)
    requires |EncodeRecords(NamespaceRecords(es))| < TWO_TO_31
    ensures Fold(ApplyMetric, m, NamespaceRecords(es)) == if AllElementText(es) then Some(WithNamespace(m, es))
        else None
    decreases es
  {
    if es == [] {
      assert m.namespace + es == m.namespace;
    } else {
      var r := Record(10, Delimited(EncodeRecords(ElementRecords(es[0]))));
      var rest := NamespaceRecords(es[1..]);
      FoldCons(ApplyMetric, m, r, rest);
      SmallCons(r, rest);
      AllElementTextSplit(es);
      ApplyElementRecord(m, es[0]);
      WithNamespaceStep(m, es);
      if ElementText(es[0]) {
        FoldNamespace(WithNamespace(m, [es[0]]), es[1..]);
      }
    }
  }

  lemma FoldOne<M>(apply: (M, Record) -> Option<M>, m: M, r: Record)
    ensures Fold(apply, m, [r]) == apply(m, r)
  {
    FoldWhen(apply, m, true, r);
  }

  lemma FoldConfigField(m: Metric, c: Option<ConfigMap>, o: ConfigOrder)
    requires c.Some? ==> ConfigOrdered(o, c.value)
    requires |EncodeRecords(ConfigField(c, o))| < TWO_TO_31
    ensures Fold(ApplyMetric, m, ConfigField(c, o))
         == if c.Some? ==> ConfigText(c.value)
            then Some(m.(config := MergeOption(MergeConfig, NO_CONFIG, m.config, c))) else None
  {
    if c.Some? {
      var rs := ConfigRecords(c.value, o);
      var r := Record(26, Delimited(EncodeRecords(rs)));
      RecordsLength([r], 0);
      ConfigTagged(c.value, o);
      ReadSub(ApplyConfig, OrElse(m.config, NO_CONFIG), rs);
      FoldConfig(OrElse(m.config, NO_CONFIG), c.value, o);
      FoldOne(ApplyMetric, m, r);
    }
  }

  lemma ReadTimeField(have: Time, t: Time)
    requires |EncodeRecords(TimeRecords(t))| < TWO_TO_31
    ensures ParseWhole(ApplyTime, have, EncodeRecords(TimeRecords(t))) == Some(MergeTime(have, t))
  {
    TimeTagged(t);
    ReadSub(ApplyTime, have, TimeRecords(t));
    FoldTime(have, t);
  }

  lemma FoldLastAdvertised(m: Metric, t: Option<Time>)
    requires |EncodeRecords(TimeField(34, t))| < TWO_TO_31
    ensures Fold(ApplyMetric, m, TimeField(34, t))
         == Some(m.(lastAdvertised := MergeOption(MergeTime, NO_TIME, m.lastAdvertised, t)))
  {
    if t.Some? {
      var r := Record(34, Delimited(EncodeRecords(TimeRecords(t.value))));
      RecordsLength([r], 0);
      ReadTimeField(OrElse(m.lastAdvertised, NO_TIME), t.value);
      FoldOne(ApplyMetric, m, r);
    }
  }

  lemma FoldTimestamp(m: Metric, t: Option<Time>)
    requires |EncodeRecords(TimeField(50, t))| < TWO_TO_31
    ensures Fold(ApplyMetric, m, TimeField(50, t))
         == Some(m.(timestamp := MergeOption(MergeTime, NO_TIME, m.timestamp, t)))
  {
    if t.Some? {
      var r := Record(50, Delimited(EncodeRecords(TimeRecords(t.value))));
      RecordsLength([r], 0);
      ReadTimeField(OrElse(m.timestamp, NO_TIME), t.value);
      FoldOne(ApplyMetric, m, r);
    }
  }

  lemma FoldData(m: Metric, d: Data)
    ensures Fold(ApplyMetric, m, DataRecords(d))
         == if d.StringData? && !Utf8(d.s) then None
            else Some(m.(data := if d.NotSet? then m.data else d))
  {
    if !d.NotSet? {
      FoldOne(ApplyMetric, m, DataRecords(d)[0]);
      match d {
        case Int32Data(i) => IntegersSurvive(0, i);
        case Int64Data(i) => IntegersSurvive(i, 0);
        case Uint32Data(u) => SmallModulo(u, TWO_TO_32);
        case _ =>
      }
    }
  }

  lemma FoldVersion(m: Metric, v: Int64)
    ensures Fold(ApplyMetric, m, When(v != 0, Record(16, Varint(FromInt64(v)))))
         == Some(m.(version := if v != 0 then v else m.version))
  {
    FoldWhen(ApplyMetric, m, v != 0, Record(16, Varint(FromInt64(v))));
  }

  lemma FoldUnit(m: Metric, unit: Bytes)
    ensures Fold(ApplyMetric, m, When(unit != [], Record(58, Delimited(unit))))
         == if Utf8(unit) then Some(m.(unit := Override(m.unit, unit))) else None
  {
    FoldWhen(ApplyMetric, m, unit != [], Record(58, Delimited(unit)));
  }

  lemma FoldDescription(m: Metric, description: Bytes)
    ensures Fold(ApplyMetric, m, When(description != [], Record(66, Delimited(description))))
         == if Utf8(description) then Some(m.(description := Override(m.description, description))) else None
  {
    FoldWhen(ApplyMetric, m, description != [], Record(66, Delimited(description)));
  }

  predicate HeadText(m: Metric) {
    AllElementText(m.namespace) && (m.config.Some? ==> ConfigText(m.config.value))
  }

  function MergeHead(a: Metric, b: Metric): Metric {
    a.(namespace := a.namespace + b.namespace,
       version := if b.version != 0 then b.version else a.version,
       config := MergeOption(MergeConfig, NO_CONFIG, a.config, b.config),
       lastAdvertised := MergeOption(MergeTime, NO_TIME, a.lastAdvertised, b.lastAdvertised))
  }

  lemma FoldHead(a: Metric, b: Metric, o: MetricOrder)
    requires MetricOrdered(o, b) && |EncodeRecords(MetricHead(b, o))| < TWO_TO_31
    ensures Fold(ApplyMetric, a, MetricHead(b, o)) == if HeadText(b) then Some(MergeHead(a, b)) else None
  {
    var r := Record(16, Varint(FromInt64(b.version)));
    var r1, r2 := NamespaceRecords(b.namespace), When(b.version != 0, r);
    var r3, r4 := ConfigField(b.config, o.config), TimeField(34, b.lastAdvertised);
    SmallFour(r1, r2, r3, r4);
    FoldParts(ApplyMetric, a, r1, r2, r3, r4);
    var a1 := a.(namespace := a.namespace + b.namespace);
    var a2 := a1.(version := if b.version != 0 then b.version else a.version);
    var a3 := a2.(config := MergeOption(MergeConfig, NO_CONFIG, a.config, b.config));
    FoldNamespace(a, b.namespace);
    FoldVersion(a1, b.version);
    FoldConfigField(a2, b.config, o.config);
    FoldLastAdvertised(a3, b.lastAdvertised);
  }

  predicate RestText(m: Metric) {
    && KeyText(m.tags) && ValueText(m.tags) && Utf8(m.unit) && Utf8(m.description)
    && (m.data.StringData? ==> Utf8(m.data.s))
  }

  function MergeRest(a: Metric, b: Metric): Metric {
    a.(tags := a.tags + b.tags,
       timestamp := MergeOption(MergeTime, NO_TIME, a.timestamp, b.timestamp),
       unit := Override(a.unit, b.unit), description := Override(a.description, b.description),
       data := if b.data.NotSet? then a.data else b.data)
  }

  lemma FoldRest(a: Metric, b: Metric, o: MetricOrder)
    requires MetricOrdered(o, b) && |EncodeRecords(MetricRest(b, o))| < TWO_TO_31
    ensures Fold(ApplyMetric, a, MetricRest(b, o)) == if RestText(b) then Some(MergeRest(a, b)) else None
  {
    hide EncodeRecords, MapRecords, Fold, When, TimeField, DataRecords, MergeTime;
    var u, d := Record(58, Delimited(b.unit)), Record(66, Delimited(b.description));
    var r1, r2 := MapRecords(42, STRING_VALUE, StringValue, b.tags, o.tags), TimeField(50, b.timestamp);
    var r3, r4, r5 := When(b.unit != [], u), When(b.description != [], d), DataRecords(b.data);
    SmallParts(r1 + r2 + r3 + r4, r5);
    SmallFour(r1, r2, r3, r4);
    FoldConcat(ApplyMetric, a, r1 + r2 + r3 + r4, r5);
    FoldParts(ApplyMetric, a, r1, r2, r3, r4);
    ListedAll(b.tags, o.tags);
    var a1 := a.(tags := a.tags + b.tags);
    var a2 := a1.(timestamp := MergeOption(MergeTime, NO_TIME, a.timestamp, b.timestamp));
    var a3 := a2.(unit := Override(a.unit, b.unit));
    var a4 := a3.(description := Override(a.description, b.description));
    FoldTags(a, b.tags, o.tags);
    FoldTimestamp(a1, b.timestamp);
    FoldUnit(a2, b.unit);
    FoldDescription(a3, b.description);
    FoldData(a4, b.data);
  }

  lemma TaggedConcat(a: seq<Record>, b: seq<Record>)
    requires AllTagged(a) && AllTagged(b)
    ensures AllTagged(a + b)
  {
  }

  lemma TaggedFour(a: seq<Record>, b: seq<Record>, c: seq<Record>, d: seq<Record>)
    requires AllTagged(a) && AllTagged(b) && AllTagged(c) && AllTagged(d)
    ensures AllTagged(a + b + c + d)
  {
    TaggedConcat(a, b);
    TaggedConcat(a + b, c);
    TaggedConcat(a + b + c, d);
  }

  lemma HeadTagged(m: Metric, o: MetricOrder)
    requires MetricOrdered(o, m)
    ensures AllTagged(MetricHead(m, o))
  {
    hide EncodeRecords, NamespaceRecords, ConfigRecords, TimeRecords, ConfigOrdered;
    NamespaceTagged(m.namespace);
    var version := When(m.version != 0, Record(16, Varint(FromInt64(m.version))));
    TaggedFour(NamespaceRecords(m.namespace), version, ConfigField(m.config, o.config),
        TimeField(34, m.lastAdvertised));
  }

  lemma DataTagged(d: Data)
    ensures AllTagged(DataRecords(d))
  {
  }

  lemma EnumeratedKeys<V>(order: seq<Bytes>, m: map<Bytes, V>)
    requires Enumerates(order, m)
    ensures forall k :: k in order ==> k in m
  {
  }

  lemma RestTagged(m: Metric, o: MetricOrder)
    requires MetricOrdered(o, m)
    ensures AllTagged(MetricRest(m, o))
  {
    hide EncodeRecords, MapRecords, DataRecords, TimeRecords, Enumerates;
    EnumeratedKeys(o.tags, m.tags);
    MapTagged(42, STRING_VALUE, StringValue, m.tags, o.tags);
    DataTagged(m.data);
    var tags, time := MapRecords(42, STRING_VALUE, StringValue, m.tags, o.tags), TimeField(50, m.timestamp);
    var unit := When(m.unit != [], Record(58, Delimited(m.unit)));
    var text := When(m.description != [], Record(66, Delimited(m.description)));
    TaggedFour(tags, time, unit, text);
    TaggedConcat(tags + time + unit + text, DataRecords(m.data));
  }

  lemma MetricTagged(m: Metric, o: MetricOrder)
    requires MetricOrdered(o, m)
    ensures AllTagged(MetricRecords(m, o))
  {
    HeadTagged(m, o);
    RestTagged(m, o);
    TaggedConcat(MetricHead(m, o), MetricRest(m, o));
  }

  lemma FoldMetric(a: Metric, b: Metric, o: MetricOrder)
    requires MetricOrdered(o, b) && |EncodeRecords(MetricRecords(b, o))| < TWO_TO_31
    ensures Fold(ApplyMetric, a, MetricRecords(b, o)) == if MetricText(b) then Some(MergeMetric(a, b)) else None
  {
    SmallParts(MetricHead(b, o), MetricRest(b, o));
    FoldConcat(ApplyMetric, a, MetricHead(b, o), MetricRest(b, o));
    FoldHead(a, b, o);
    FoldRest(MergeHead(a, b), b, o);
    assert MetricText(b) <==> HeadText(b) && RestText(b);
  }
}

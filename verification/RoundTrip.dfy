/** The main results about the codec: parsing what was written, and parsing what was concatenated. */
module RoundTrip {
  import opened Options
  import opened Wire
  import opened MessageLoop
  import opened Messages
  import opened MergeProofs

  // ----- the replies

  function WithMetrics(m: MetricsReply, ms: seq<Metric>): MetricsReply {
    m.(metrics := m.metrics + ms)
  }

  predicate AllMetricText(ms: seq<Metric>) {
    forall i :: 0 <= i < |ms| ==> MetricText(ms[i])
  }

  lemma ApplyMetricRecord(m: MetricsReply, x: Metric, o: MetricOrder)
    requires MetricOrdered(o, x) && |EncodeRecords(MetricRecords(x, o))| < TWO_TO_31
    ensures ApplyMetrics(m, Record(10, Delimited(EncodeRecords(MetricRecords(x, o)))))
         == if MetricText(x) then Some(WithMetrics(m, [x])) else None
  {
    MetricTagged(x, o);
    ReadSub(ApplyMetric, NO_METRIC, MetricRecords(x, o));
    FoldMetric(NO_METRIC, x, o);
    MetricLeftIdentity(x);
  }

  lemma MetricListCons(ms: seq<Metric>, os: seq<MetricOrder>)
    requires ms != [] && MetricsOrdered(os, ms)
    ensures AllMetricText(ms) <==> MetricText(ms[0]) && AllMetricText(ms[1..])
    ensures MetricsOrdered(os[1..], ms[1..])
  {
  }

  lemma WithMetricsStep(m: MetricsReply, ms: seq<Metric>)
    requires ms != []
    ensures WithMetrics(WithMetrics(m, [ms[0]]), ms[1..]) == WithMetrics(m, ms)
  {
    assert m.metrics + [ms[0]] + ms[1..] == m.metrics + ms;
  }

  lemma {:induction false} FoldMetricList(m: MetricsReply, ms: seq<Metric>, os: seq<MetricOrder>)
    requires MetricsOrdered(os, ms) && |EncodeRecords(MetricList(ms, os))| < TWO_TO_31
    ensures Fold(ApplyMetrics, m, MetricList(ms, os)) == if AllMetricText(ms) then Some(WithMetrics(m, ms)) else None
    decreases ms
  {
    if ms == [] {
      assert m.metrics + ms == m.metrics;
    } else {
      MetricListCons(ms, os);
      var r := Record(10, Delimited(EncodeRecords(MetricRecords(ms[0], os[0]))));
      var rest := MetricList(ms[1..], os[1..]);
      FoldCons(ApplyMetrics, m, r, rest);
      SmallCons(r, rest);
      ApplyMetricRecord(m, ms[0], os[0]);
      WithMetricsStep(m, ms);
      if MetricText(ms[0]) {
        FoldMetricList(WithMetrics(m, [ms[0]]), ms[1..], os[1..]);
      }
    }
  }

  lemma OneTagged(r: Record)
    requires Tagged(r)
    ensures AllTagged([r]) && AllTagged([])
  {
  }

  lemma MetricListUnfolds(ms: seq<Metric>, os: seq<MetricOrder>)
    requires ms != [] && MetricsOrdered(os, ms) && MetricsOrdered(os[1..], ms[1..])
    ensures MetricList(ms, os)
         == [Record(10, Delimited(EncodeRecords(MetricRecords(ms[0], os[0]))))] + MetricList(ms[1..], os[1..])
  {
  }

  lemma ConsTagged(b: Bytes, rest: seq<Record>)
    requires AllTagged(rest)
    ensures AllTagged([Record(10, Delimited(b))] + rest)
  {
  }

  lemma {:induction false} MetricListTagged(ms: seq<Metric>, os: seq<MetricOrder>)
    requires MetricsOrdered(os, ms)
    ensures AllTagged(MetricList(ms, os))
    decreases ms
  {
    if ms != [] {
      MetricListCons(ms, os);
      MetricListTagged(ms[1..], os[1..]);
      ConsTagged(EncodeRecords(MetricRecords(ms[0], os[0])), MetricList(ms[1..], os[1..]));
      MetricListUnfolds(ms, os);
    }
  }

  lemma MetricsTagged(m: MetricsReply, os: seq<MetricOrder>)
    requires MetricsOrdered(os, m.metrics)
    ensures AllTagged(MetricsRecords(m, os))
  {
    var r := Record(18, Delimited(m.error));
    MetricListTagged(m.metrics, os);
    OneTagged(r);
    TaggedConcat(MetricList(m.metrics, os), When(m.error != [], Record(18, Delimited(m.error))));
  }

  lemma FoldMetrics(a: MetricsReply, b: MetricsReply, os: seq<MetricOrder>)
    requires MetricsOrdered(os, b.metrics) && |EncodeRecords(MetricsRecords(b, os))| < TWO_TO_31
    ensures Fold(ApplyMetrics, a, MetricsRecords(b, os)) == if MetricsText(b) then Some(MergeMetrics(a, b)) else None
  {
    var r := Record(18, Delimited(b.error));
    SmallParts(MetricList(b.metrics, os), When(b.error != [], r));
    FoldConcat(ApplyMetrics, a, MetricList(b.metrics, os), When(b.error != [], r));
    FoldMetricList(a, b.metrics, os);
    FoldWhen(ApplyMetrics, WithMetrics(a, b.metrics), b.error != [], r);
  }

  lemma FoldError(a: ErrReply, b: ErrReply)
    ensures Fold(ApplyError, a, ErrorRecords(b)) == if Utf8(b.error) then Some(MergeError(a, b)) else None
  {
    FoldWhen(ApplyError, a, b.error != [], Record(10, Delimited(b.error)));
  }

  lemma ReplyTagged(m: CollectReply, os: seq<MetricOrder>)
    requires m.metrics.Some? ==> MetricsOrdered(os, m.metrics.value.metrics)
    ensures AllTagged(ReplyRecords(m, os))
  {
    hide EncodeRecords, MetricsRecords, ErrorRecords, MetricsOrdered;
    TaggedConcat(MetricsField(m.metrics, os), ErrorField(m.error));
    assert ReplyRecords(m, os) == MetricsField(m.metrics, os) + ErrorField(m.error);
  }

  /** The two parts of a reply. */
  function MetricsField(m: Option<MetricsReply>, os: seq<MetricOrder>): seq<Record>
    requires m.Some? ==> MetricsOrdered(os, m.value.metrics)
  {
    if m.Some? then [Record(10, Delimited(EncodeRecords(MetricsRecords(m.value, os))))] else []
  }

  function ErrorField(e: Option<ErrReply>): seq<Record> {
    if e.Some? then [Record(18, Delimited(EncodeRecords(ErrorRecords(e.value))))] else []
  }

  lemma FoldMetricsField(a: CollectReply, m: Option<MetricsReply>, os: seq<MetricOrder>)
    requires (m.Some? ==> MetricsOrdered(os, m.value.metrics)) && |EncodeRecords(MetricsField(m, os))| < TWO_TO_31
    ensures Fold(ApplyReply, a, MetricsField(m, os))
         == if m.Some? ==> MetricsText(m.value)
            then Some(a.(metrics := MergeOption(MergeMetrics, NO_METRICS, a.metrics, m))) else None
  {
    if m.Some? {
      var rs := MetricsRecords(m.value, os);
      SmallCons(Record(10, Delimited(EncodeRecords(rs))), []);
      assert [Record(10, Delimited(EncodeRecords(rs)))] + [] == MetricsField(m, os);
      MetricsTagged(m.value, os);
      ReadSub(ApplyMetrics, OrElse(a.metrics, NO_METRICS), rs);
      FoldMetrics(OrElse(a.metrics, NO_METRICS), m.value, os);
      FoldOne(ApplyReply, a, Record(10, Delimited(EncodeRecords(rs))));
    }
  }

  lemma FoldErrorField(a: CollectReply, e: Option<ErrReply>)
    requires |EncodeRecords(ErrorField(e))| < TWO_TO_31
    ensures Fold(ApplyReply, a, ErrorField(e))
         == if e.Some? ==> Utf8(e.value.error)
            then Some(a.(error := MergeOption(MergeError, NO_ERROR, a.error, e))) else None
  {
    if e.Some? {
      var rs := ErrorRecords(e.value);
      SmallCons(Record(18, Delimited(EncodeRecords(rs))), []);
      assert [Record(18, Delimited(EncodeRecords(rs)))] + [] == ErrorField(e);
      ReadSub(ApplyError, OrElse(a.error, NO_ERROR), rs);
      FoldError(OrElse(a.error, NO_ERROR), e.value);
      FoldOne(ApplyReply, a, Record(18, Delimited(EncodeRecords(rs))));
    }
  }

  lemma FoldReply(a: CollectReply, b: CollectReply, os: seq<MetricOrder>)
    requires b.metrics.Some? ==> MetricsOrdered(os, b.metrics.value.metrics)
    requires |EncodeRecords(ReplyRecords(b, os))| < TWO_TO_31
    ensures Fold(ApplyReply, a, ReplyRecords(b, os)) == if ReplyText(b) then Some(MergeReply(a, b)) else None
  {
    SmallParts(MetricsField(b.metrics, os), ErrorField(b.error));
    FoldConcat(ApplyReply, a, MetricsField(b.metrics, os), ErrorField(b.error));
    FoldMetricsField(a, b.metrics, os);
    FoldErrorField(a.(metrics := MergeOption(MergeMetrics, NO_METRICS, a.metrics, b.metrics)), b.error);
  }

  // ----- merging is a monoid with the empty message as identity

  lemma TimeMonoid(a: Time, b: Time, c: Time)
    ensures MergeTime(a, MergeTime(b, c)) == MergeTime(MergeTime(a, b), c)
    ensures MergeTime(NO_TIME, a) == a == MergeTime(a, NO_TIME)
  {
  }

  lemma ElementMonoid(a: NamespaceElement, b: NamespaceElement, c: NamespaceElement)
    ensures MergeElement(a, MergeElement(b, c)) == MergeElement(MergeElement(a, b), c)
    ensures MergeElement(NO_ELEMENT, a) == a == MergeElement(a, NO_ELEMENT)
  {
  }

  lemma MapMonoid<V>(a: map<Bytes, V>, b: map<Bytes, V>, c: map<Bytes, V>)
    ensures a + (b + c) == (a + b) + c && map[] + a == a == a + map[]
  {
  }

  lemma ConfigMonoid(a: ConfigMap, b: ConfigMap, c: ConfigMap)
    ensures MergeConfig(a, MergeConfig(b, c)) == MergeConfig(MergeConfig(a, b), c)
    ensures MergeConfig(NO_CONFIG, a) == a == MergeConfig(a, NO_CONFIG)
  {
    MapMonoid(a.ints, b.ints, c.ints);
    MapMonoid(a.strings, b.strings, c.strings);
    MapMonoid(a.floats, b.floats, c.floats);
    MapMonoid(a.bools, b.bools, c.bools);
  }

  lemma ConfigOptionMonoid(a: Option<ConfigMap>, b: Option<ConfigMap>, c: Option<ConfigMap>)
    ensures var f := (x, y) => MergeOption(MergeConfig, NO_CONFIG, x, y); f(a, f(b, c)) == f(f(a, b), c)
    ensures MergeOption(MergeConfig, NO_CONFIG, None, a) == a
  {
    ConfigMonoid(OrElse(a, NO_CONFIG), OrElse(b, NO_CONFIG), OrElse(c, NO_CONFIG));
    ConfigMonoid(OrElse(c, NO_CONFIG), NO_CONFIG, NO_CONFIG);
  }

  lemma TimeOptionMonoid(a: Option<Time>, b: Option<Time>, c: Option<Time>)
    ensures var f := (x, y) => MergeOption(MergeTime, NO_TIME, x, y); f(a, f(b, c)) == f(f(a, b), c)
    ensures MergeOption(MergeTime, NO_TIME, None, a) == a
  {
  }

  lemma MetricLeftIdentity(a: Metric)
    ensures MergeMetric(NO_METRIC, a) == a
  {
    ConfigOptionMonoid(a.config, None, None);
    TimeOptionMonoid(a.lastAdvertised, None, None);
    TimeOptionMonoid(a.timestamp, None, None);
    MapMonoid(a.tags, map[], map[]);
  }

  lemma MetricMonoid(a: Metric, b: Metric, c: Metric)
    ensures MergeMetric(a, MergeMetric(b, c)) == MergeMetric(MergeMetric(a, b), c)
    ensures MergeMetric(NO_METRIC, a) == a == MergeMetric(a, NO_METRIC)
  {
    MetricLeftIdentity(a);
    ConfigOptionMonoid(a.config, b.config, c.config);
    TimeOptionMonoid(a.lastAdvertised, b.lastAdvertised, c.lastAdvertised);
    TimeOptionMonoid(a.timestamp, b.timestamp, c.timestamp);
    MapMonoid(a.tags, b.tags, c.tags);
  }

  // ----- main results

  function WriteMetric(m: Metric, o: MetricOrder): Bytes
    requires MetricOrdered(o, m)
  {
    EncodeRecords(MetricRecords(m, o))
  }

  /** Parsing a written Metric into any message is MergeFrom, whatever order its maps were written in. It
      succeeds exactly when all text in the written message is valid UTF-8. */
  lemma ParseIsMerge(a: Metric, b: Metric, o: MetricOrder)
    requires MetricOrdered(o, b) && |WriteMetric(b, o)| < TWO_TO_31
    ensures ParseWhole(ApplyMetric, a, WriteMetric(b, o)) == if MetricText(b) then Some(MergeMetric(a, b)) else None
  {
    MetricTagged(b, o);
    ReadSub(ApplyMetric, a, MetricRecords(b, o));
    FoldMetric(a, b, o);
  }

  /** Round trip, and exactly when it holds. */
  lemma MetricRoundTrip(m: Metric, o: MetricOrder)
    requires MetricOrdered(o, m) && |WriteMetric(m, o)| < TWO_TO_31
    ensures ParseWhole(ApplyMetric, NO_METRIC, WriteMetric(m, o)) == Some(m) <==> MetricText(m)
    ensures ParseWhole(ApplyMetric, NO_METRIC, WriteMetric(m, o)).None? <==> !MetricText(m)
  {
    ParseIsMerge(NO_METRIC, m, o);
    MetricLeftIdentity(m);
  }

  lemma ConcatParses<M>(apply: (M, Record) -> Option<M>, m: M, ra: seq<Record>, rb: seq<Record>)
    requires ValidRecords(ra) && ValidRecords(rb)
    ensures ParseWhole(apply, m, EncodeRecords(ra) + EncodeRecords(rb))
         == match Fold(apply, m, ra) case None => None case Some(m') => Fold(apply, m', rb)
  {
    ParseEncoded(apply, m, ra, EncodeRecords(rb));
    if Fold(apply, m, ra).Some? {
      ParseWholeEncoded(apply, Fold(apply, m, ra).value, rb);
    }
  }

  /** Merge homomorphism: parsing two written Metrics end to end is merging them. */
  lemma MergeHomomorphism(a: Metric, oa: MetricOrder, b: Metric, ob: MetricOrder)
    requires MetricOrdered(oa, a) && |WriteMetric(a, oa)| < TWO_TO_31
    requires MetricOrdered(ob, b) && |WriteMetric(b, ob)| < TWO_TO_31
    ensures ParseWhole(ApplyMetric, NO_METRIC, WriteMetric(a, oa) + WriteMetric(b, ob))
         == if MetricText(a) && MetricText(b) then Some(MergeMetric(a, b)) else None
  {
    MetricTagged(a, oa);
    MetricTagged(b, ob);
    SmallRecords(MetricRecords(a, oa));
    SmallRecords(MetricRecords(b, ob));
    ConcatParses(ApplyMetric, NO_METRIC, MetricRecords(a, oa), MetricRecords(b, ob));
    FoldMetric(NO_METRIC, a, oa);
    MetricLeftIdentity(a);
    FoldMetric(a, b, ob);
  }

  /** The same for the nested messages. */
  lemma TimeHomomorphism(a: Time, b: Time)
    ensures ParseWhole(ApplyTime, NO_TIME, EncodeRecords(TimeRecords(a)) + EncodeRecords(TimeRecords(b)))
         == Some(MergeTime(a, b))
  {
    TimesAreSmall(a);
    TimesAreSmall(b);
    ConcatParses(ApplyTime, NO_TIME, TimeRecords(a), TimeRecords(b));
    FoldTime(NO_TIME, a);
    FoldTime(a, b);
  }

  lemma TimesAreSmall(t: Time)
    ensures ValidRecords(TimeRecords(t))
  {
  }

  lemma ElementHomomorphism(a: NamespaceElement, b: NamespaceElement)
    requires |EncodeRecords(ElementRecords(a))| < TWO_TO_31 && |EncodeRecords(ElementRecords(b))| < TWO_TO_31
    ensures ParseWhole(ApplyElement, NO_ELEMENT, EncodeRecords(ElementRecords(a)) + EncodeRecords(ElementRecords(b)))
         == if ElementText(a) && ElementText(b) then Some(MergeElement(a, b)) else None
  {
    hide EncodeRecords, ElementRecords, Utf8;
    ElementTagged(a);
    ElementTagged(b);
    SmallRecords(ElementRecords(a));
    SmallRecords(ElementRecords(b));
    ConcatParses(ApplyElement, NO_ELEMENT, ElementRecords(a), ElementRecords(b));
    FoldElement(NO_ELEMENT, a);
    FoldElement(a, b);
  }

  lemma ConfigHomomorphism(a: ConfigMap, oa: ConfigOrder, b: ConfigMap, ob: ConfigOrder)
    requires ConfigOrdered(oa, a) && |EncodeRecords(ConfigRecords(a, oa))| < TWO_TO_31
    requires ConfigOrdered(ob, b) && |EncodeRecords(ConfigRecords(b, ob))| < TWO_TO_31
    ensures ParseWhole(ApplyConfig, NO_CONFIG, EncodeRecords(ConfigRecords(a, oa))
        + EncodeRecords(ConfigRecords(b, ob)))
         == if ConfigText(a) && ConfigText(b) then Some(MergeConfig(a, b)) else None
  {
    hide EncodeRecords, ConfigRecords, ConfigText, Enumerates;
    ConfigTagged(a, oa);
    ConfigTagged(b, ob);
    SmallRecords(ConfigRecords(a, oa));
    SmallRecords(ConfigRecords(b, ob));
    ConcatParses(ApplyConfig, NO_CONFIG, ConfigRecords(a, oa), ConfigRecords(b, ob));
    FoldConfig(NO_CONFIG, a, oa);
    ConfigMonoid(a, a, a);
    FoldConfig(a, b, ob);
  }

  /** The message on the stream: whatever the two senders write, the peer reads back. */
  lemma ReplyRoundTrip(m: CollectReply, os: seq<MetricOrder>)
    requires m.metrics.Some? ==> MetricsOrdered(os, m.metrics.value.metrics)
    requires |EncodeRecords(ReplyRecords(m, os))| < TWO_TO_31
    ensures ParseWhole(ApplyReply, NO_REPLY, EncodeRecords(ReplyRecords(m, os)))
         == if ReplyText(m) then Some(m) else None
  {
    ReplyTagged(m, os);
    ReadSub(ApplyReply, NO_REPLY, ReplyRecords(m, os));
    FoldReply(NO_REPLY, m, os);
    if m.metrics.Some? {
      assert NO_METRICS.metrics + m.metrics.value.metrics == m.metrics.value.metrics;
    }
  }

  /** Nested messages and maps on their own. */
  lemma ConfigRoundTrip(c: ConfigMap, o: ConfigOrder)
    requires ConfigOrdered(o, c) && |EncodeRecords(ConfigRecords(c, o))| < TWO_TO_31
    ensures ParseWhole(ApplyConfig, NO_CONFIG, EncodeRecords(ConfigRecords(c, o)))
         == if ConfigText(c) then Some(c) else None
  {
    ConfigTagged(c, o);
    ReadSub(ApplyConfig, NO_CONFIG, ConfigRecords(c, o));
    FoldConfig(NO_CONFIG, c, o);
    ConfigMonoid(c, c, c);
  }

  lemma ElementRoundTrip(e: NamespaceElement)
    requires |EncodeRecords(ElementRecords(e))| < TWO_TO_31
    ensures ParseWhole(ApplyElement, NO_ELEMENT, EncodeRecords(ElementRecords(e)))
         == if ElementText(e) then Some(e) else None
  {
    ElementTagged(e);
    ReadSub(ApplyElement, NO_ELEMENT, ElementRecords(e));
    FoldElement(NO_ELEMENT, e);
  }
}

/** The example plugin: its guarded bodies, and what they add to the handshake. */
module RandoPlugin {
  import opened Options
  import opened Seqs
  import opened Pipeline
  import opened PipelineSafety
  import opened PipelineReplies
  import opened PipelineHandshake

  const FLOAT32 := 0
  const FLOAT64 := 1
  const INT32 := 2
  const INT64 := 3
  const UINT32 := 4
  const UINT64 := 5
  const BOOLEAN := 6
  const STRING := 7

  const METRIC_TYPES: map<string, int> :=
    map["float32" := FLOAT32, "float64" := FLOAT64, "int32" := INT32, "int64" := INT64,
        "uint32" := UINT32, "uint64" := UINT64, "boolean" := BOOLEAN, "string" := STRING]

  /** What indexing the type table yields: a missing name is inserted with value zero. */
  function Kind(name: string): int {
    if name in METRIC_TYPES then METRIC_TYPES[name] else 0
  }

  /** So every name has a kind of the table. */
  lemma KindInTable(name: string)
    ensures FLOAT32 <= Kind(name) <= STRING
  {
  }

  /** The namespace element that names the type; shorter namespaces have none. */
  function TypeName(m: Metric): string {
    if |m.ns| > 4 then m.ns[4] else ""
  }

  function Decimal(n: nat): string {
    if n < 10 then [('0' as int + n) as char] else Decimal(n / 10) + [('0' as int + n % 10) as char]
  }

  /** The switch: the metric with its data set, or the error of the default branch. */
  function Switch(m: Metric, k: int, random: nat): (r: (Metric, Option<string>))
    ensures r.0.ns == m.ns
  {
    if k == FLOAT32 then (m.(data := Float32(random)), None)
    else if k == FLOAT64 then (m.(data := Float64(random)), None)
    else if k == INT32 then (m.(data := Int32(random)), None)
    else if k == INT64 then (m.(data := Int64(random)), None)
    else if k == UINT32 then (m.(data := Uint32(random)), None)
    else if k == UINT64 then (m.(data := Uint64(random)), None)
    else if k == BOOLEAN then (m.(data := Bool(random % 2 != 0)), None)
    else if k == STRING then (m.(data := Text(Decimal(random))), None)
    else (m, Some("Invalid type"))
  }

  /** The loop over a batch: every metric goes through the switch and takes a clock reading of its own, and
      the last error raised is the one that stays. `clock` lists the readings. */
  function Turn(b: Batch, random: nat, clock: seq<int>): (r: (Batch, Option<string>))
    requires |clock| == |b|
    ensures Ns(r.0) == Ns(b)
    decreases b
  {
    if b == [] then ([], None)
    else
      var last := |b| - 1;
      var (before, err) := Turn(b[..last], random, clock[..last]);
      var (m, raised) := Switch(b[last], Kind(TypeName(b[last])), random);
      var r := before + [m.(time := clock[last])];
      NsOfTurn(b, before, m.(time := clock[last]));
      (r, if raised.Some? then raised else err)
  }

  lemma NsOfTurn(b: Batch, before: Batch, m: Metric)
    requires b != [] && Ns(before) == Ns(b[..|b| - 1]) && m.ns == b[|b| - 1].ns
    ensures Ns(before + [m]) == Ns(b)
  {
    assert forall i :: 0 <= i < |before| ==> Ns(before)[i] == Ns(b[..|b| - 1])[i];
  }

  lemma TurnOfNothing(b: Batch, random: nat, clock: seq<int>)
    ensures Turn(b[..0], random, []) == ([], None) && (|clock| == |b| ==> clock[..0] == [])
  {
  }

  /** One turn of the loop more. */
  lemma TurnStep(b: Batch, random: nat, clock: seq<int>, i: nat)
    requires |clock| == |b| && i < |b|
    ensures var (done, err) := Turn(b[..i], random, clock[..i]);
            var (m, raised) := Switch(b[i], Kind(TypeName(b[i])), random);
            Turn(b[..i + 1], random, clock[..i + 1])
                == (done + [m.(time := clock[i])], if raised.Some? then raised else err)
  {
    assert b[..i + 1][..i] == b[..i] && clock[..i + 1][..i] == clock[..i];
  }

  // ----- what a turn puts into a batch

  /** The data for each name of a type; any other name stands for float32. */
  predicate DataFor(name: string, random: nat, d: Data) {
    && (name == "float64" ==> d == Float64(random))
    && (name == "int32" ==> d == Int32(random))
    && (name == "int64" ==> d == Int64(random))
    && (name == "uint32" ==> d == Uint32(random))
    && (name == "uint64" ==> d == Uint64(random))
    && (name == "boolean" ==> d == Bool(random % 2 == 1))
    && (name == "string" ==> d.Text? && Reads(d.t, random))
    && (name !in {"float64", "int32", "int64", "uint32", "uint64", "boolean", "string"} ==> d == Float32(random))
  }

  /** s is n in decimal digits, without leading zeros. */
  predicate Reads(s: string, n: nat) {
    && s != [] && (forall i :: 0 <= i < |s| ==> '0' <= s[i] <= '9')
    && (|s| > 1 ==> s[0] != '0') && DigitSum(s) == n
  }

  function DigitSum(s: string): int {
    if s == [] then 0 else 10 * DigitSum(s[..|s| - 1]) + (s[|s| - 1] as int - '0' as int)
  }

  lemma {:induction false} DecimalReads(n: nat)
    ensures Reads(Decimal(n), n)
    ensures n > 0 ==> Decimal(n)[0] != '0'
  {
    var s := Decimal(n);
    if n < 10 {
      assert s[..0] == [] && DigitSum([]) == 0;
    } else {
      DecimalReads(n / 10);
      assert s[..|s| - 1] == Decimal(n / 10);
    }
  }

  lemma SwitchData(m: Metric, random: nat)
    ensures DataFor(TypeName(m), random, Switch(m, Kind(TypeName(m)), random).0.data)
  {
    DecimalReads(random);
  }

  /** After a turn every metric carries data of the type that the fifth element of its namespace names, and
      its own reading of the clock; its namespace stays. */
  lemma {:induction false} TurnFills(b: Batch, random: nat, clock: seq<int>, i: nat)
    requires |clock| == |b| && i < |b|
    ensures var (filled, _) := Turn(b, random, clock);
      && |filled| == |b| && filled[i].ns == b[i].ns && filled[i].time == clock[i]
      && DataFor(if |b[i].ns| > 4 then b[i].ns[4] else "", random, filled[i].data)
    decreases b
  {
    hide DataFor, Kind;
    var last := |b| - 1;
    if i < last {
      TurnFills(b[..last], random, clock[..last], i);
    } else {
      SwitchData(b[last], random);
    }
  }

  class Rando {
    var metricsOut: Batch
    var metricsIn: Batch
    var errMsg: string
    var isPutMets: bool
    var isPutErr: bool
    var isGetMets: bool
    var isCancelled: bool
    var metricTypes: map<string, int>

    function View(): Plugin
      reads this
    {
      Plugin(metricsOut, metricsIn, errMsg, isPutMets, isPutErr, isGetMets, isCancelled)
    }

    /** The type table only ever gains names with the default value. */
    ghost predicate Valid()
      reads this
    {
      && METRIC_TYPES.Keys <= metricTypes.Keys
      && forall name :: name in metricTypes ==> metricTypes[name] == Kind(name)
    }

    constructor ()
      ensures Valid()
      ensures View() == Plugin([], [], "", false, false, false, false)
    {
      metricsOut, metricsIn, errMsg := [], [], "";
      isPutMets, isPutErr, isGetMets, isCancelled := false, false, false, false;
      metricTypes := METRIC_TYPES;
    }

    method MetricType(name: string) returns (k: int)
      requires Valid()
      modifies this`metricTypes
      ensures Valid() && k == Kind(name)
    {
      if name !in metricTypes {
        metricTypes := metricTypes[name := 0];
      }
      k := metricTypes[name];
    }

    /** The switch on the type, with its branch for a kind that is not in the table. */
    method SetData(m: Metric, kind: int, random: nat) returns (met: Metric)
      modifies this`errMsg, this`isPutErr
      ensures var (filled, err) := Switch(m, kind, random);
        && met == filled
        && errMsg == (if err.Some? then err.value else old(errMsg))
        && isPutErr == (err.Some? || old(isPutErr))
    {
      met := m;
      if kind == FLOAT32 {
        met := met.(data := Float32(random));
      } else if kind == FLOAT64 {
        met := met.(data := Float64(random));
      } else if kind == INT32 {
        met := met.(data := Int32(random));
      } else if kind == INT64 {
        met := met.(data := Int64(random));
      } else if kind == UINT32 {
        met := met.(data := Uint32(random));
      } else if kind == UINT64 {
        met := met.(data := Uint64(random));
      } else if kind == BOOLEAN {
        met := met.(data := Bool(random % 2 != 0));
      } else if kind == STRING {
        met := met.(data := Text(Decimal(random)));
      } else {
        errMsg := "Invalid type";
        isPutErr := true;
      }
    }

    /** One turn of stream_it: `clock` lists what the clock shows for each metric of the batch. */
    method StreamIt(random: nat, clock: seq<int>)
      requires Valid() && random < 1000 && |clock| == |metricsOut|
      modifies this
      ensures Valid()
      ensures View() == if ProduceEnabled(old(View()))
                        then var (filled, err) := Turn(old(metricsOut), random, clock);
                             Produce(old(View()), filled, err)
                        else old(View())
    {
      hide Turn;
      if !isCancelled && metricsOut != [] && !isGetMets && !isPutMets && !isPutErr {
        ghost var batch := metricsOut;
        var i := 0;
        TurnOfNothing(batch, random, clock);
        while i < |metricsOut|
          invariant Valid() && 0 <= i <= |metricsOut| == |batch|
          invariant metricsOut[..i] == Turn(batch[..i], random, clock[..i]).0
          invariant metricsOut[i..] == batch[i..]
          invariant var err := Turn(batch[..i], random, clock[..i]).1;
            View() == old(View()).(out := metricsOut, err := if err.Some? then err.value else old(errMsg),
                putErr := err.Some?)
        {
          assert metricsOut[i] == batch[i];
          TurnStep(batch, random, clock, i);
          var kind := MetricType(TypeName(metricsOut[i]));
          var met := SetData(metricsOut[i], kind, random);
          metricsOut := metricsOut[i := met.(time := clock[i])];
          i := i + 1;
        }
        assert batch[..i] == batch && clock[..i] == clock && metricsOut[..i] == metricsOut;
        isPutMets := true;
      }
    }

    /** One turn of drain_metrics. */
    method DrainMetrics()
      requires Valid()
      modifies this
      ensures Valid()
      ensures View() == if DrainEnabled(old(View())) then Drain(old(View())) else old(View())
    {
      if !isCancelled && isGetMets && !isPutMets && !isPutErr {
        errMsg := "";
        metricsOut := [];
        metricsOut := metricsOut + metricsIn;
        isGetMets := false;
      }
    }

    method GetMetricsIn(mets: Batch)
      requires Valid()
      modifies this
      ensures Valid()
      ensures View() == old(View()).(inp := mets, getMets := true)
    {
      metricsIn := [];
      metricsIn := metricsIn + mets;
      isGetMets := true;
    }

    method SetPutMets(b: bool)
      requires Valid()
      modifies this
      ensures Valid() && View() == old(View()).(putMets := b)
    {
      isPutMets := b;
    }

    method SetPutErr(b: bool)
      requires Valid()
      modifies this
      ensures Valid() && View() == old(View()).(putErr := b)
    {
      isPutErr := b;
    }

    method SetContextCancelled(b: bool)
      requires Valid()
      modifies this
      ensures Valid() && View() == old(View()).(cancelled := b)
    {
      isCancelled := b;
    }
  }

  // ----- runs of the library with this plugin

  /** A turn of stream_it hands over what the loop makes of the batch, error and all. */
  ghost predicate ByRando(s: State, e: Event) {
    && Handshake(s, e)
    && (e.Collect? ==> exists random: nat, clock: seq<int> :: TurnOf(s.plugin.out, e.filled, e.err, random, clock))
  }

  predicate TurnOf(b: Batch, filled: Batch, err: Option<string>, random: nat, clock: seq<int>) {
    |clock| == |b| && Turn(b, random, clock) == (filled, err)
  }

  lemma {:induction false} RandoHandshakes(s: State, es: seq<Event>)
    requires Run(s, es) && Within(ByRando, s, es)
    ensures Within(Handshake, s, es)
    decreases |es|
  {
    if es != [] {
      RandoHandshakes(Step(s, es[0]), es[1..]);
    }
  }

  /** The switch never takes its default branch: a name the table lacks reads as float32. */
  lemma {:induction false} TurnRaisesNothing(b: Batch, random: nat, clock: seq<int>)
    requires |clock| == |b|
    ensures Turn(b, random, clock).1 == None
    decreases b
  {
    if b != [] {
      KindInTable(TypeName(b[|b| - 1]));
      TurnRaisesNothing(b[..|b| - 1], random, clock[..|b| - 1]);
    }
  }

  lemma NothingRaised(s: State, e: Event)
    requires s.hist.raised == [] && Enabled(s, e) && ByRando(s, e)
    ensures Step(s, e).hist.raised == []
  {
    hide Turn;
    if e.Collect? {
      var random: nat, clock: seq<int> :| TurnOf(s.plugin.out, e.filled, e.err, random, clock);
      TurnRaisesNothing(s.plugin.out, random, clock);
    }
  }

  /** Rando raises errors only in the default branch of its switch, and never gets there: nothing is ever put
      on the error channel, errorSend never writes, and every reply goes out with an empty error. */
  lemma RandoNeverReportsErrors(s: State, es: seq<Event>)
    requires Started(s) && Run(s, es) && Within(ByRando, s, es)
    ensures var t := End(s, es);
      && t.hist.errPuts == [] && ErrorTexts(t.hist.writes) == []
      && forall i :: 0 <= i < |t.hist.writes| ==> t.hist.writes[i].reply.error == ""
  {
    var inv := (t: State) => t.hist.raised == [];
    forall t: State, e: Event | inv(t) && Enabled(t, e) && ByRando(t, e) ensures inv(Step(t, e)) {
      NothingRaised(t, e);
    }
    Invariance(ByRando, inv, s, es);
    RandoHandshakes(s, es);
    ExactlyOnceHandOff(s, es);
    SharedReply(s, es);
    var t := End(s, es);
    assert t.hist.errPuts == [];
    forall i | 0 <= i < |t.hist.writes| ensures t.hist.writes[i].reply.error == "" {
      assert Explained(t.hist.writes[..i], t.hist.writes[i], t.hist.stored, Flat(t.hist.sendPuts));
    }
  }

  /** The metric carries data of the type its namespace names. */
  ghost predicate Typed(m: Metric) { exists random: nat :: DataFor(TypeName(m), random, m.data) }

  ghost predicate AllTyped(bs: seq<Batch>) {
    forall i, j :: 0 <= i < |bs| && 0 <= j < |bs[i]| ==> Typed(bs[i][j])
  }

  lemma FilledIsTyped(b: Batch, random: nat, clock: seq<int>, i: nat)
    requires |clock| == |b| && i < |b|
    ensures Typed(Turn(b, random, clock).0[i])
  {
    hide Turn, DataFor;
    TurnFills(b, random, clock, i);
    var m := Turn(b, random, clock).0[i];
    assert DataFor(TypeName(m), random, m.data);
  }

  lemma TypedKept(s: State, e: Event)
    requires AllTyped(s.hist.produced) && Enabled(s, e) && ByRando(s, e)
    ensures AllTyped(Step(s, e).hist.produced)
  {
    hide Turn, DataFor;
    if e.Collect? {
      var random: nat, clock: seq<int> :| TurnOf(s.plugin.out, e.filled, e.err, random, clock);
      forall j | 0 <= j < |e.filled| ensures Typed(e.filled[j]) {
        FilledIsTyped(s.plugin.out, random, clock, j);
      }
    } else if e.PutSend? {
      assert PutSendStep(s).hist.produced == s.hist.produced;
    }
  }

  /** In every run with Rando's turns, each metric metricSend writes carries data of the type that the fifth
      element of its namespace names. */
  lemma WrittenIsTyped(s: State, es: seq<Event>, m: Metric)
    requires Started(s) && Run(s, es) && Within(ByRando, s, es)
    requires m in Flat(MetricBatches(End(s, es).hist.writes))
    ensures Typed(m)
  {
    var inv := (t: State) => AllTyped(t.hist.produced);
    forall t: State, e: Event | inv(t) && Enabled(t, e) && ByRando(t, e) ensures inv(Step(t, e)) {
      TypedKept(t, e);
    }
    Invariance(ByRando, inv, s, es);
    RandoHandshakes(s, es);
    ExactlyOnceHandOff(s, es);
    Conservation(s, es);
    var t := End(s, es);
    assert m in Flat(t.hist.sendPuts);
    FlatMember(t.hist.sendPuts, m);
    var i :| 0 <= i < |t.hist.sendPuts| && m in t.hist.sendPuts[i];
    assert t.hist.produced[i] == t.hist.sendPuts[i];
  }
}

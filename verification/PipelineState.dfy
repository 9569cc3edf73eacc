/** The streaming collector as a step-indexed state machine: four library workers, the plugin
    and the environment share three channels, one reply object and a few flags. */
module Pipeline {
  import opened Options
  import opened Seqs
  import opened Clocks
  import opened Channels

  /** The value last given to one of Metric's set_data overloads. */
  datatype Data = NotSet | Float32(n: int) | Float64(n: int) | Int32(n: int) | Int64(n: int)
                | Uint32(n: int) | Uint64(n: int) | Bool(b: bool) | Text(t: string)

  datatype Metric = Metric(ns: seq<string>, data: Data, time: int)
  type Batch = seq<Metric>

  function Ns(b: Batch): (r: seq<seq<string>>)
    ensures |r| == |b| && forall i :: 0 <= i < |b| ==> r[i] == b[i].ns
  {
    Map((m: Metric) => m.ns, b)
  }

  /** A request read from the stream; non-positive limits mean "keep the current one". */
  datatype CollectArg = CollectArg(duration: int, buffer: int, metrics: Option<Batch>)

  /** What one Write puts on the stream: the two sub-objects of _collect_reply. */
  datatype Reply = Reply(metrics: Batch, error: string)

  datatype Writer = ByMetricSend | ByErrorSend

  /** One Write, with the number of errors stored in the reply before it. */
  datatype Written = Written(writer: Writer, reply: Reply, stored: nat)

  /** Where control goes once a flush is complete. */
  datatype After = NextItem(rest: Batch) | ToTimer | ToLoop

  datatype MetricSendPc =
    | MsLoop | MsGet | MsItem(rest: Batch) | MsFull(rest: Batch) | MsTail | MsTimer
    | MsWrite(then_: After) | MsClear(then_: After) | MsClose | MsMark | MsDone

  datatype ErrorSendPc = EsLoop | EsGet | EsStore(err: string) | EsWrite | EsClose | EsMark | EsDone

  datatype StreamRecvPc =
    | SrLoop | SrRead | SrDuration(arg: CollectArg) | SrBuffer(arg: CollectArg) | SrPut(arg: CollectArg)
    | SrClose | SrMark | SrDone | SrThrown

  datatype PutSendPc =
    | PsLoop | PsTestMets | PsPutMets | PsClearMets | PsTestErr | PsPutErr | PsClearErr
    | PsGet | PsGive | PsMark | PsDone | PsThrown

  /** The plugin's side of the hand-off, as StreamCollectorInterface shows it. */
  datatype Plugin = Plugin(out: Batch, inp: Batch, err: string,
                           putMets: bool, putErr: bool, getMets: bool, cancelled: bool)

  /** What happened so far: every event of interest, in order. */
  datatype History = History(
    writes: seq<Written>, sendPuts: seq<Batch>, errPuts: seq<string>, recvPuts: seq<Batch>,
    args: seq<CollectArg>, stored: seq<string>, produced: seq<Batch>, raised: seq<string>)

  datatype State = State(
    cancelled: bool, clock: int,
    sendChan: Chan<Metric>, recvChan: Chan<Metric>, errChan: Chan<char>,
    buffer: Batch, error: string, maxBuffer: int, maxDuration: int, start: int,
    recvMets: Batch,
    ms: MetricSendPc, es: ErrorSendPc, sr: StreamRecvPc, ps: PutSendPc,
    plugin: Plugin, hist: History)

  function Init(maxBuffer: int, maxDuration: int, clock: int, plugin: Plugin): State {
    State(false, clock, Chan([], false), Chan([], false), Chan([], false),
          [], "", maxBuffer, maxDuration, clock, [],
          MsLoop, EsLoop, SrLoop, PsLoop, plugin, History([], [], [], [], [], [], [], []))
  }

  // ----- metricSend

  predicate MetricSendEnabled(s: State) {
    !s.ms.MsDone? && (s.ms.MsGet? ==> s.sendChan.Ready())
  }

  predicate TimerFires(s: State) {
    s.clock - s.start >= s.maxDuration * NANOS_PER_SECOND
  }

  function Resume(a: After): MetricSendPc {
    match a
    case NextItem(rest) => MsItem(rest)
    case ToTimer => MsTimer
    case ToLoop => MsLoop
  }

  /** sendReply: a reply without metrics is not written. */
  function SendReply(s: State): State {
    if s.buffer == [] then s
    else s.(hist := s.hist.(writes := s.hist.writes
                                     + [Written(ByMetricSend, Reply(s.buffer, s.error), |s.hist.stored|)]))
  }

  function MetricSendStep(s: State): State
    requires MetricSendEnabled(s)
  {
    match s.ms
    case MsLoop => s.(ms := if s.cancelled then MsClose else MsGet)
    case MsGet =>
      if s.sendChan.queue == [] then s.(ms := MsTimer)
      else
        var mets := s.sendChan.queue[0];
        s.(sendChan := s.sendChan.Rest(), ms := if mets == [] then MsTimer else MsItem(mets))
    case MsItem(rest) =>
      if rest == [] then s.(ms := MsTail)
      else s.(buffer := s.buffer + [rest[0]], ms := MsFull(rest[1..]))
    case MsFull(rest) => s.(ms := if |s.buffer| == s.maxBuffer then MsWrite(NextItem(rest)) else MsItem(rest))
    case MsTail => s.(ms := if s.maxBuffer == 0 then MsWrite(ToTimer) else MsTimer)
    case MsTimer => s.(ms := if TimerFires(s) then MsWrite(ToLoop) else MsLoop)
    case MsWrite(k) => SendReply(s).(ms := MsClear(k))
    case MsClear(k) => s.(buffer := [], start := s.clock, ms := Resume(k))
    case MsClose => s.(sendChan := s.sendChan.Close(), ms := MsMark)
    case MsMark => s.(plugin := s.plugin.(cancelled := true), ms := MsDone)
  }

  // ----- errorSend

  predicate ErrorSendEnabled(s: State) {
    !s.es.EsDone? && (s.es.EsGet? ==> s.errChan.Ready())
  }

  function ErrorSendStep(s: State): State
    requires ErrorSendEnabled(s)
  {
    match s.es
    case EsLoop => s.(es := if s.cancelled then EsClose else EsGet)
    case EsGet =>
      if s.errChan.queue == [] then s.(es := EsLoop)
      else s.(errChan := s.errChan.Rest(), es := EsStore(s.errChan.queue[0]))
    case EsStore(err) => s.(error := err, es := EsWrite, hist := s.hist.(stored := s.hist.stored + [err]))
    case EsWrite =>
      s.(es := EsLoop,
         hist := s.hist.(writes := s.hist.writes
                                  + [Written(ByErrorSend, Reply(s.buffer, s.error), |s.hist.stored|)]))
    case EsClose => s.(errChan := s.errChan.Close(), es := EsMark)
    case EsMark => s.(plugin := s.plugin.(cancelled := true), es := EsDone)
  }

  // ----- streamRecv

  predicate StreamRecvEnabled(s: State) {
    !s.sr.SrDone? && !s.sr.SrThrown?
  }

  /** `arg` is what Read delivers; it is only looked at by the reading step. */
  function StreamRecvStep(s: State, arg: CollectArg): State
    requires StreamRecvEnabled(s)
  {
    match s.sr
    case SrLoop => s.(sr := if s.cancelled then SrClose else SrRead)
    case SrRead => s.(sr := SrDuration(arg), hist := s.hist.(args := s.hist.args + [arg]))
    case SrDuration(a) => s.(sr := SrBuffer(a), maxDuration := if a.duration > 0 then a.duration else s.maxDuration)
    case SrBuffer(a) => s.(sr := SrPut(a), maxBuffer := if a.buffer > 0 then a.buffer else s.maxBuffer)
    case SrPut(a) =>
      if a.metrics.None? then s.(sr := SrLoop)
      else if s.recvChan.closed then s.(sr := SrThrown)
      else s.(sr := SrLoop, recvChan := s.recvChan.Put(a.metrics.value),
              hist := s.hist.(recvPuts := s.hist.recvPuts + [a.metrics.value]))
    case SrClose => s.(recvChan := s.recvChan.Close(), sr := SrMark)
    case SrMark => s.(plugin := s.plugin.(cancelled := true), sr := SrDone)
  }

  // ----- PutSendMetsAndErrMsg

  predicate PutSendEnabled(s: State) {
    !s.ps.PsDone? && !s.ps.PsThrown?
  }

  function PutSendStep(s: State): State
    requires PutSendEnabled(s)
  {
    match s.ps
    case PsLoop => s.(ps := if s.cancelled then PsMark else PsTestMets)
    case PsTestMets => s.(ps := if s.plugin.putMets then PsPutMets else PsTestErr)
    case PsPutMets =>
      if s.sendChan.closed then s.(ps := PsThrown)
      else s.(ps := PsClearMets, sendChan := s.sendChan.Put(s.plugin.out),
              hist := s.hist.(sendPuts := s.hist.sendPuts + [s.plugin.out]))
    case PsClearMets => s.(ps := PsTestErr, plugin := s.plugin.(putMets := false))
    case PsTestErr => s.(ps := if s.plugin.putErr then PsPutErr else PsGet)
    case PsPutErr =>
      if s.errChan.closed then s.(ps := PsThrown)
      else s.(ps := PsClearErr, errChan := s.errChan.Put(s.plugin.err),
              hist := s.hist.(errPuts := s.hist.errPuts + [s.plugin.err]))
    case PsClearErr => s.(ps := PsGet, plugin := s.plugin.(putErr := false))
    case PsGet =>
      if s.recvChan.queue == [] then s.(ps := PsLoop)
      else s.(ps := PsGive, recvMets := s.recvMets + s.recvChan.queue[0], recvChan := s.recvChan.Rest())
    case PsGive => s.(ps := PsLoop, plugin := s.plugin.(inp := s.recvMets, getMets := true))
    case PsMark => s.(ps := PsDone, plugin := s.plugin.(cancelled := true))
  }

  // ----- a plugin that keeps to the three-flag handshake

  predicate ProduceEnabled(p: Plugin) {
    !p.cancelled && p.out != [] && !p.getMets && !p.putMets && !p.putErr
  }

  /** The guarded body of a collecting thread: refill the batch, maybe raise an error, hand it over. */
  function Produce(p: Plugin, filled: Batch, err: Option<string>): Plugin {
    p.(out := filled, putMets := true,
       err := if err.Some? then err.value else p.err, putErr := err.Some?)
  }

  predicate DrainEnabled(p: Plugin) {
    !p.cancelled && p.getMets && !p.putMets && !p.putErr
  }

  function Drain(p: Plugin): Plugin {
    p.(err := "", out := p.inp, getMets := false)
  }

  // ----- events and runs

  datatype Event =
    | MetricSend | ErrorSend | StreamRecv(arg: CollectArg) | PutSend
    | Cancel | Clock(time: int)
    | Interfere(plugin: Plugin)                        // any plugin at all
    | Collect(filled: Batch, err: Option<string>) | Drained  // a plugin keeping to the handshake

  predicate IsWorker(e: Event) {
    e.MetricSend? || e.ErrorSend? || e.StreamRecv? || e.PutSend?
  }

  predicate Enabled(s: State, e: Event) {
    match e
    case MetricSend => MetricSendEnabled(s)
    case ErrorSend => ErrorSendEnabled(s)
    case StreamRecv(_) => StreamRecvEnabled(s)
    case PutSend => PutSendEnabled(s)
    case Cancel => true
    case Clock(_) => true
    case Interfere(p) => p.cancelled == s.plugin.cancelled
    case Collect(filled, _) => ProduceEnabled(s.plugin) && Ns(filled) == Ns(s.plugin.out)
    case Drained => DrainEnabled(s.plugin)
  }

  function Step(s: State, e: Event): State
    requires Enabled(s, e)
  {
    match e
    case MetricSend => MetricSendStep(s)
    case ErrorSend => ErrorSendStep(s)
    case StreamRecv(arg) => StreamRecvStep(s, arg)
    case PutSend => PutSendStep(s)
    case Cancel => s.(cancelled := true)
    case Clock(t) => s.(clock := t)
    case Interfere(p) => s.(plugin := p)
    case Collect(filled, err) =>
      s.(plugin := Produce(s.plugin, filled, err),
         hist := s.hist.(produced := s.hist.produced + [filled],
                         raised := s.hist.raised + if err.Some? then [err.value] else []))
    case Drained => s.(plugin := Drain(s.plugin))
  }

  /** es can be taken one after the other from s. */
  predicate Run(s: State, es: seq<Event>)
    decreases |es|
  {
    es != [] ==> Enabled(s, es[0]) && Run(Step(s, es[0]), es[1..])
  }

  function End(s: State, es: seq<Event>): State
    requires Run(s, es)
    decreases |es|
  {
    if es == [] then s else End(Step(s, es[0]), es[1..])
  }

  lemma {:induction false} RunConcat(s: State, a: seq<Event>, b: seq<Event>)
    requires Run(s, a) && Run(End(s, a), b)
    ensures Run(s, a + b) && End(s, a + b) == End(End(s, a), b)
    decreases |a|
  {
    if a == [] {
      assert a + b == b;
    } else {
      assert (a + b)[1..] == a[1..] + b;
      RunConcat(Step(s, a[0]), a[1..], b);
    }
  }

  /** es leads from s to t. */
  ghost predicate Takes(s: State, es: seq<Event>, t: State) { Run(s, es) && End(s, es) == t }

  lemma TakesNothing(s: State)
    ensures Takes(s, [], s)
  {
  }

  lemma TakesOne(s: State, e: Event, es: seq<Event>, t: State)
    requires Enabled(s, e) && Takes(Step(s, e), es, t)
    ensures Takes(s, [e] + es, t)
  {
    assert ([e] + es)[1..] == es;
  }

  lemma TakesThrough(s: State, a: seq<Event>, t: State, b: seq<Event>, u: State)
    requires Takes(s, a, t) && Takes(t, b, u)
    ensures Takes(s, a + b, u)
  {
    RunConcat(s, a, b);
  }

  /** Every step of the run is one that `ok` allows. */
  ghost predicate Within(ok: (State, Event) -> bool, s: State, es: seq<Event>)
    requires Run(s, es)
    decreases |es|
  {
    es != [] ==> ok(s, es[0]) && Within(ok, Step(s, es[0]), es[1..])
  }

  lemma {:induction false} WithinConcat(ok: (State, Event) -> bool, s: State, a: seq<Event>, b: seq<Event>)
    requires Run(s, a) && Run(End(s, a), b) && Within(ok, s, a) && Within(ok, End(s, a), b)
    ensures Run(s, a + b) && Within(ok, s, a + b) && End(s, a + b) == End(End(s, a), b)
    decreases |a|
  {
    if a == [] {
      assert a + b == b;
    } else {
      assert (a + b)[1..] == a[1..] + b;
      WithinConcat(ok, Step(s, a[0]), a[1..], b);
    }
  }

  /** The induction principle for runs. */
  lemma {:induction false} Invariance(ok: (State, Event) -> bool, inv: State -> bool, s: State, es: seq<Event>)
    requires Run(s, es) && Within(ok, s, es) && inv(s)
    requires forall t: State, e: Event :: inv(t) && Enabled(t, e) && ok(t, e) ==> inv(Step(t, e))
    ensures inv(End(s, es))
    decreases |es|
  {
    if es != [] {
      Invariance(ok, inv, Step(s, es[0]), es[1..]);
    }
  }

  predicate Anything(s: State, e: Event) { true }

  lemma {:induction false} AnyRun(s: State, es: seq<Event>)
    requires Run(s, es)
    ensures Within(Anything, s, es)
    decreases |es|
  {
    if es != [] {
      AnyRun(Step(s, es[0]), es[1..]);
    }
  }

  /** A plugin that keeps to the handshake never interferes otherwise. */
  predicate Handshake(s: State, e: Event) { !e.Interfere? }
}

/** What the four workers still do once the call is cancelled, and where they can stay. */
module PipelineShutdown {
  import opened Options
  import opened Seqs
  import opened Channels
  import opened Pipeline
  import opened PipelineSafety

  // ----- a bound on the remaining steps

  /** Steps metricSend can still take after cancellation: at most four for each metric in hand, at most
      one more batch, and the way out of the loop. */
  function MetricSendWork(s: State): nat {
    match s.ms
    case MsDone => 0
    case MsMark => 1
    case MsClose => 2
    case MsLoop => 3
    case MsClear(ToLoop) => 4
    case MsWrite(ToLoop) => 5
    case MsTimer => 6
    case MsClear(ToTimer) => 7
    case MsWrite(ToTimer) => 8
    case MsTail => 9
    case MsItem(rest) => 10 + 4 * |rest|
    case MsClear(NextItem(rest)) => 11 + 4 * |rest|
    case MsWrite(NextItem(rest)) => 12 + 4 * |rest|
    case MsFull(rest) => 13 + 4 * |rest|
    case MsGet => 11 + if s.sendChan.queue == [] then 0 else 4 * |s.sendChan.queue[0]|
  }

  function ErrorSendWork(pc: ErrorSendPc): nat {
    match pc
    case EsDone => 0
    case EsMark => 1
    case EsClose => 2
    case EsLoop => 3
    case EsWrite => 4
    case EsStore(_) => 5
    case EsGet => 6
  }

  function StreamRecvWork(pc: StreamRecvPc): nat {
    match pc
    case SrDone => 0
    case SrThrown => 0
    case SrMark => 1
    case SrClose => 2
    case SrLoop => 3
    case SrPut(_) => 4
    case SrBuffer(_) => 5
    case SrDuration(_) => 6
    case SrRead => 7
  }

  function PutSendWork(pc: PutSendPc): nat {
    match pc
    case PsDone => 0
    case PsThrown => 0
    case PsMark => 1
    case PsLoop => 2
    case PsGive => 3
    case PsGet => 4
    case PsClearErr => 5
    case PsPutErr => 6
    case PsTestErr => 7
    case PsClearMets => 8
    case PsPutMets => 9
    case PsTestMets => 10
  }

  function Work(s: State): nat {
    MetricSendWork(s) + ErrorSendWork(s.es) + StreamRecvWork(s.sr) + PutSendWork(s.ps)
  }

  /** Batches PutSendMetsAndErrMsg can still put after cancellation. */
  function PutsLeft(pc: PutSendPc): nat {
    if pc.PsTestMets? || pc.PsPutMets? then 1 else 0
  }

  function PutSize(s: State): nat { |Flat(s.hist.sendPuts)| }

  lemma PutSizeGrows(s: State, e: Event)
    requires Enabled(s, e)
    ensures PutSize(Step(s, e)) == PutSize(s) + if MoveOf(s, e).Put? then |MoveOf(s, e).batch| else 0
    ensures |Step(s, e).hist.sendPuts| == |s.hist.sendPuts| + if MoveOf(s, e).Put? then 1 else 0
  {
    StepMoves(s, e);
    assert LedgerOf(Step(s, e)).puts == Step(s, e).hist.sendPuts;
    if MoveOf(s, e).Put? {
      FlatSnoc(s.hist.sendPuts, MoveOf(s, e).batch);
    }
  }

  lemma MetricSendWorks(s: State)
    requires s.cancelled && MetricSendEnabled(s)
    ensures MetricSendWork(MetricSendStep(s)) < MetricSendWork(s)
  {
  }

  lemma PutSendWorks(s: State)
    requires s.cancelled && PutSendEnabled(s)
    ensures var t := PutSendStep(s);
      && PutSendWork(t.ps) < PutSendWork(s.ps)
      && MetricSendWork(t)
         <= MetricSendWork(s) + (if MoveOf(s, PutSend).Put? then 4 * |MoveOf(s, PutSend).batch| else 0)
      && PutsLeft(t.ps) + (if MoveOf(s, PutSend).Put? then 1 else 0) <= PutsLeft(s.ps)
  {
  }

  lemma MetricSendLeaves(s: State)
    requires MetricSendEnabled(s)
    ensures var t := MetricSendStep(s); t.cancelled == s.cancelled && t.es == s.es && t.sr == s.sr && t.ps == s.ps
  {
  }

  lemma PutSendLeaves(s: State)
    requires PutSendEnabled(s)
    ensures var t := PutSendStep(s); t.cancelled == s.cancelled && t.ms == s.ms && t.es == s.es && t.sr == s.sr
  {
  }

  lemma ErrorSendWorks(s: State)
    requires s.cancelled && ErrorSendEnabled(s)
    ensures var t := ErrorSendStep(s);
      && t.cancelled && t.ms == s.ms && t.sendChan == s.sendChan && t.sr == s.sr && t.ps == s.ps
      && ErrorSendWork(t.es) < ErrorSendWork(s.es)
  {
  }

  lemma StreamRecvWorks(s: State, arg: CollectArg)
    requires s.cancelled && StreamRecvEnabled(s)
    ensures var t := StreamRecvStep(s, arg);
      && t.cancelled && t.ms == s.ms && t.sendChan == s.sendChan && t.es == s.es && t.ps == s.ps
      && StreamRecvWork(t.sr) < StreamRecvWork(s.sr)
  {
  }

  /** Every worker step costs one, except that a batch put pays for its own metrics. */
  lemma WorkDecreases(s: State, e: Event)
    requires s.cancelled && Enabled(s, e)
    ensures var t := Step(s, e);
      && t.cancelled
      && Work(t) + (if IsWorker(e) then 1 else 0) <= Work(s) + 4 * (PutSize(t) - PutSize(s))
      && |t.hist.sendPuts| + PutsLeft(t.ps) <= |s.hist.sendPuts| + PutsLeft(s.ps)
      && PutSize(s) <= PutSize(t)
  {
    PutSizeGrows(s, e);
    match e {
      case MetricSend =>
        MetricSendWorks(s);
        MetricSendLeaves(s);
      case ErrorSend => ErrorSendWorks(s);
      case StreamRecv(arg) => StreamRecvWorks(s, arg);
      case PutSend =>
        PutSendWorks(s);
        PutSendLeaves(s);
      case _ =>
    }
  }

  function WorkerSteps(es: seq<Event>): nat {
    if es == [] then 0 else (if IsWorker(es[0]) then 1 else 0) + WorkerSteps(es[1..])
  }

  /** After cancellation the workers together take at most Work(s) steps, and four more for each metric
      of the at most one batch put meanwhile, whatever the plugin and the scheduler do. */
  lemma {:induction false} ShutdownMeasure(s: State, es: seq<Event>)
    requires s.cancelled && Run(s, es)
    ensures var t := End(s, es);
      && PutSize(s) <= PutSize(t)
      && WorkerSteps(es) + Work(t) <= Work(s) + 4 * (PutSize(t) - PutSize(s))
      && |t.hist.sendPuts| + PutsLeft(t.ps) <= |s.hist.sendPuts| + PutsLeft(s.ps)
    decreases |es|
  {
    if es != [] {
      WorkDecreases(s, es[0]);
      ShutdownMeasure(Step(s, es[0]), es[1..]);
    }
  }

  // ----- where the workers can stay

  predicate MetricSendWaits(s: State) {
    s.ms.MsGet? && s.sendChan == Chan([], false)
  }

  predicate ErrorSendWaits(s: State) {
    s.es.EsGet? && s.errChan == Chan([], false)
  }

  ghost predicate Halted(s: State) {
    forall e: Event :: IsWorker(e) ==> !Enabled(s, e)
  }

  /** No worker can move exactly when each has ended or waits in get on an open, empty channel. */
  lemma HaltedMeans(s: State)
    requires CancelSafe(s)
    ensures Halted(s) <==>
      && (s.ms.MsDone? || MetricSendWaits(s))
      && (s.es.EsDone? || ErrorSendWaits(s))
      && s.sr.SrDone?
      && (s.ps.PsDone? || s.ps.PsThrown?)
  {
    if Halted(s) {
      assert !Enabled(s, MetricSend) && !Enabled(s, ErrorSend) && !Enabled(s, PutSend);
      assert !Enabled(s, StreamRecv(CollectArg(0, 0, None)));
    }
  }

  /** Once PutSendMetsAndErrMsg has ended nobody else puts to the send channel, and metricSend is the only
      one to close it: if it waits then, it waits in every continuation. */
  predicate Hung(s: State) {
    MetricSendWaits(s) && (s.ps.PsDone? || s.ps.PsThrown?)
  }

  lemma HungForever(s: State, es: seq<Event>)
    requires Hung(s) && Run(s, es)
    ensures Hung(End(s, es))
  {
    AnyRun(s, es);
    forall t: State, e: Event | Hung(t) && Enabled(t, e) ensures Hung(Step(t, e)) {
      assert Step(t, e).ms == t.ms && Step(t, e).ps == t.ps && Step(t, e).sendChan == t.sendChan;
    }
    Invariance(Anything, Hung, s, es);
  }

  /** So shutdown is not unconditional: if metricSend starts to wait just before the cancellation and
      nothing was handed over, it never ends. */
  lemma ShutdownCanHang(s: State) returns (es: seq<Event>)
    requires Initial(s)
    ensures Run(s, es) && End(s, es).cancelled && Hung(End(s, es))
  {
    es := [MetricSend, Cancel, PutSend, PutSend];
    var s1 := Step(s, MetricSend);
    var s2 := Step(s1, Cancel);
    var s3 := Step(s2, PutSend);
    var s4 := Step(s3, PutSend);
    assert es[1..] == [Cancel, PutSend, PutSend];
    assert es[1..][1..] == [PutSend, PutSend];
    assert es[1..][1..][1..] == [PutSend];
    assert es[1..][1..][1..][1..] == [];
    assert Run(s4, []) && End(s4, []) == s4;
    assert Run(s3, [PutSend]) && End(s3, [PutSend]) == s4;
    assert Run(s2, [PutSend, PutSend]) && End(s2, [PutSend, PutSend]) == s4;
    assert Run(s1, [Cancel, PutSend, PutSend]) && End(s1, [Cancel, PutSend, PutSend]) == s4;
  }

  /** A closed and drained channel stays so, and get on it returns false from then on. */
  predicate Dead<E>(c: Chan<E>) { c == Chan([], true) }

  lemma DeadKept(s: State, e: Event)
    requires Enabled(s, e)
    ensures Dead(s.sendChan) ==> Dead(Step(s, e).sendChan)
    ensures Dead(s.errChan) ==> Dead(Step(s, e).errChan)
    ensures Dead(s.recvChan) ==> Dead(Step(s, e).recvChan)
  {
    match e {
      case MetricSend => assert Step(s, e).errChan == s.errChan && Step(s, e).recvChan == s.recvChan;
      case ErrorSend => assert Step(s, e).sendChan == s.sendChan && Step(s, e).recvChan == s.recvChan;
      case StreamRecv(_) => assert Step(s, e).sendChan == s.sendChan && Step(s, e).errChan == s.errChan;
      case _ =>
    }
  }

  lemma ClosedAndEmptyIsAbsorbing(s: State, es: seq<Event>)
    requires Run(s, es)
    ensures Dead(s.sendChan) ==> Dead(End(s, es).sendChan)
    ensures Dead(s.errChan) ==> Dead(End(s, es).errChan)
    ensures Dead(s.recvChan) ==> Dead(End(s, es).recvChan)
  {
    var inv := (t: State) =>
      && (Dead(s.sendChan) ==> Dead(t.sendChan))
      && (Dead(s.errChan) ==> Dead(t.errChan))
      && (Dead(s.recvChan) ==> Dead(t.recvChan));
    AnyRun(s, es);
    forall t: State, e: Event | inv(t) && Enabled(t, e) ensures inv(Step(t, e)) {
      DeadKept(t, e);
    }
    Invariance(Anything, inv, s, es);
  }
}

/** A plugin that keeps to the three-flag handshake, on top of the library workers. */
module PipelineHandshake {
  import opened Options
  import opened Seqs
  import opened Channels
  import opened Pipeline
  import opened PipelineSafety
  import opened PipelineLimits

  /** The plugin as its constructor leaves it. */
  predicate Started(s: State) {
    Initial(s) && s.plugin == Plugin([], [], "", false, false, false, false)
  }

  // ----- exactly-once hand-off

  /** The batch handed over and not on the send channel yet. */
  function PendingBatch(s: State): seq<Batch> {
    if s.plugin.putMets && !s.ps.PsClearMets? then [s.plugin.out] else []
  }

  function PendingError(s: State): seq<string> {
    if s.plugin.putErr && !s.ps.PsClearErr? then [s.plugin.err] else []
  }

  predicate BatchesHandedOff(s: State) {
    && s.hist.produced == s.hist.sendPuts + PendingBatch(s)
    && (s.ps.PsPutMets? || s.ps.PsClearMets? ==> s.plugin.putMets)
    && (s.ps.PsClearMets? ==> s.hist.sendPuts != [] && s.hist.sendPuts[|s.hist.sendPuts| - 1] == s.plugin.out)
  }

  predicate ErrorsHandedOff(s: State) {
    && s.hist.raised == s.hist.errPuts + PendingError(s)
    && (s.ps.PsPutErr? || s.ps.PsClearErr? ==> s.plugin.putErr)
    && (s.ps.PsClearErr? ==> s.hist.errPuts != [] && s.hist.errPuts[|s.hist.errPuts| - 1] == s.plugin.err)
  }

  lemma PutSendHandsBatches(s: State)
    requires BatchesHandedOff(s) && PutSendEnabled(s)
    ensures BatchesHandedOff(PutSendStep(s))
  {
    assert s.hist.sendPuts + [] == s.hist.sendPuts;
  }

  lemma PutSendHandsErrors(s: State)
    requires ErrorsHandedOff(s) && PutSendEnabled(s)
    ensures ErrorsHandedOff(PutSendStep(s))
  {
    assert s.hist.errPuts + [] == s.hist.errPuts;
  }

  /** What the hand-off depends on. */
  predicate SameHandOff(s: State, t: State) {
    && t.hist.produced == s.hist.produced && t.hist.sendPuts == s.hist.sendPuts
    && t.hist.raised == s.hist.raised && t.hist.errPuts == s.hist.errPuts && t.ps == s.ps
    && t.plugin.(cancelled := s.plugin.cancelled) == s.plugin
  }

  lemma MetricSendHandsNothing(s: State)
    requires MetricSendEnabled(s)
    ensures SameHandOff(s, MetricSendStep(s))
  {
  }

  lemma ErrorSendHandsNothing(s: State)
    requires ErrorSendEnabled(s)
    ensures SameHandOff(s, ErrorSendStep(s))
  {
  }

  lemma StreamRecvHandsNothing(s: State, arg: CollectArg)
    requires StreamRecvEnabled(s)
    ensures SameHandOff(s, StreamRecvStep(s, arg))
  {
  }

  lemma OtherWorkersHandOff(s: State, e: Event)
    requires Enabled(s, e) && !e.PutSend? && !e.Collect? && !e.Drained? && !e.Interfere?
    ensures SameHandOff(s, Step(s, e))
  {
    match e {
      case MetricSend => MetricSendHandsNothing(s);
      case ErrorSend => ErrorSendHandsNothing(s);
      case StreamRecv(arg) => StreamRecvHandsNothing(s, arg);
      case _ =>
    }
  }

  lemma HandOffKept(s: State, e: Event)
    requires BatchesHandedOff(s) && ErrorsHandedOff(s) && Enabled(s, e) && Handshake(s, e)
    ensures BatchesHandedOff(Step(s, e)) && ErrorsHandedOff(Step(s, e))
  {
    match e {
      case PutSend =>
        PutSendHandsBatches(s);
        PutSendHandsErrors(s);
      case Collect(filled, err) =>
      case Drained =>
      case _ => OtherWorkersHandOff(s, e);
    }
  }

  /** Each batch the plugin completes, and each error it raises, is put on its channel once, unchanged and
      in order; only the latest can still be waiting, and only while its flag is up. */
  lemma ExactlyOnceHandOff(s: State, es: seq<Event>)
    requires Started(s) && Run(s, es) && Within(Handshake, s, es)
    ensures var t := End(s, es);
      && t.hist.produced == t.hist.sendPuts + PendingBatch(t)
      && t.hist.raised == t.hist.errPuts + PendingError(t)
  {
    var inv := (t: State) => BatchesHandedOff(t) && ErrorsHandedOff(t);
    forall t: State, e: Event | inv(t) && Enabled(t, e) && Handshake(t, e) ensures inv(Step(t, e)) {
      HandOffKept(t, e);
    }
    Invariance(Handshake, inv, s, es);
  }

  /** How many steps of PutSendMetsAndErrMsg away the test of put_mets and the put are, at most. */
  function StepsToPut(pc: PutSendPc): nat {
    match pc
    case PsPutMets => 0
    case PsTestMets => 1
    case PsLoop => 2
    case PsGive => 3
    case PsGet => 4
    case PsClearErr => 5
    case PsPutErr => 6
    case PsTestErr => 7
    case _ => 8
  }

  /** Until the call is cancelled a waiting batch is on its way: every step of PutSendMetsAndErrMsg puts
      it or brings the put closer, and no other step of a handshaking run touches it. */
  lemma WaitingBatchAdvances(s: State, e: Event)
    requires CancelSafe(s) && BatchesHandedOff(s) && PendingBatch(s) != [] && !s.cancelled
    requires Enabled(s, e) && Handshake(s, e)
    ensures PutSendEnabled(s)
    ensures var t := Step(s, e);
      if e.PutSend? then
        || (t.hist.sendPuts == s.hist.sendPuts + PendingBatch(s) && PendingBatch(t) == [])
        || (PendingBatch(t) == PendingBatch(s) && StepsToPut(t.ps) < StepsToPut(s.ps))
      else PendingBatch(t) == PendingBatch(s) && t.ps == s.ps
  {
    if !e.PutSend? && !e.Collect? && !e.Drained? {
      OtherWorkersHandOff(s, e);
    }
  }

  /** How many steps of PutSendMetsAndErrMsg away the put of an error is, at most. */
  function StepsToPutError(pc: PutSendPc): nat {
    match pc
    case PsPutErr => 0
    case PsTestErr => 1
    case PsClearMets => 2
    case PsPutMets => 3
    case PsTestMets => 4
    case PsLoop => 5
    case PsGive => 6
    case PsGet => 7
    case _ => 8
  }

  /** The same for a raised error: a batch in front of it cannot stop it before the call is cancelled. */
  lemma WaitingErrorAdvances(s: State, e: Event)
    requires CancelSafe(s) && ErrorsHandedOff(s) && PendingError(s) != [] && !s.cancelled
    requires Enabled(s, e) && Handshake(s, e)
    ensures PutSendEnabled(s)
    ensures var t := Step(s, e);
      if e.PutSend? then
        || (t.hist.errPuts == s.hist.errPuts + PendingError(s) && PendingError(t) == [])
        || (PendingError(t) == PendingError(s) && StepsToPutError(t.ps) < StepsToPutError(s.ps))
      else PendingError(t) == PendingError(s) && t.ps == s.ps
  {
    if !e.PutSend? && !e.Collect? && !e.Drained? {
      OtherWorkersHandOff(s, e);
    }
  }

  // ----- requested-only output

  /** The request batches already moved into PutSendMetsAndErrMsg's accumulator. */
  function Received(s: State): seq<Batch> {
    if |s.recvChan.queue| <= |s.hist.recvPuts|
    then s.hist.recvPuts[..|s.hist.recvPuts| - |s.recvChan.queue|] else []
  }

  /** get appends, so the accumulator is everything received so far. */
  predicate Accumulated(s: State) {
    && |s.recvChan.queue| <= |s.hist.recvPuts|
    && s.hist.recvPuts == Received(s) + s.recvChan.queue
    && s.recvMets == Flat(Received(s))
  }

  predicate SameRequests(s: State, t: State) {
    t.recvChan.queue == s.recvChan.queue && t.hist.recvPuts == s.hist.recvPuts && t.recvMets == s.recvMets
  }

  lemma OthersSameRequests(s: State, e: Event)
    requires Enabled(s, e)
    requires !(e.PutSend? && s.ps.PsGet?) && !(e.StreamRecv? && s.sr.SrPut?)
    ensures SameRequests(s, Step(s, e))
  {
  }

  /** What get does, seen from the channel and the vector it appends to. */
  lemma GetTakes(s: State)
    requires s.ps.PsGet?
    ensures var t := PutSendStep(s);
      && t.hist.recvPuts == s.hist.recvPuts && t.recvChan.queue == s.recvChan.Rest().queue
      && t.recvMets == s.recvMets + s.recvChan.Front()
  {
    assert s.recvMets + [] == s.recvMets;
  }

  lemma GetAccumulates(s: State)
    requires Accumulated(s) && s.ps.PsGet?
    ensures Accumulated(PutSendStep(s))
    ensures Received(PutSendStep(s)) == Received(s) + if s.recvChan.queue == [] then [] else [s.recvChan.queue[0]]
  {
    hide PutSendStep, Flat;
    GetTakes(s);
    if s.recvChan.queue != [] {
      var x := s.recvChan.queue[0];
      assert Received(PutSendStep(s)) == Received(s) + [x];
      FlatSnoc(Received(s), x);
    }
  }

  lemma PutAccumulates(s: State, arg: CollectArg)
    requires Accumulated(s) && s.sr.SrPut?
    ensures Accumulated(StreamRecvStep(s, arg))
    ensures Received(s) <= Received(StreamRecvStep(s, arg))
  {
    assert Received(StreamRecvStep(s, arg)) == Received(s);
  }

  lemma AccumulatedKept(s: State, e: Event)
    requires Accumulated(s) && Enabled(s, e)
    ensures Accumulated(Step(s, e))
    ensures Received(s) <= Received(Step(s, e))
  {
    if e.PutSend? && s.ps.PsGet? {
      GetAccumulates(s);
    } else if e.StreamRecv? && s.sr.SrPut? {
      PutAccumulates(s, e.arg);
    } else {
      OthersSameRequests(s, e);
    }
  }

  lemma RequestsGrow(s: State, e: Event)
    requires Enabled(s, e)
    ensures s.hist.recvPuts <= Step(s, e).hist.recvPuts
  {
    if !(e.StreamRecv? && s.sr.SrPut?) {
      assert Step(s, e).hist.recvPuts == s.hist.recvPuts;
    }
  }

  /** A batch asks for exactly what the first k request batches asked for. */
  predicate AsRequested(b: Batch, requests: seq<Batch>, k: nat) {
    k <= |requests| && Ns(b) == Ns(Flat(requests[..k]))
  }

  ghost predicate Requested(b: Batch, requests: seq<Batch>) {
    exists k: nat :: AsRequested(b, requests, k)
  }

  lemma RequestedLater(b: Batch, requests: seq<Batch>, requests': seq<Batch>)
    requires Requested(b, requests) && requests <= requests'
    ensures Requested(b, requests')
  {
    var k: nat :| AsRequested(b, requests, k);
    assert requests'[..k] == requests[..k];
    assert AsRequested(b, requests', k);
  }

  ghost predicate RequestedOnly(s: State) {
    && Accumulated(s)
    && Requested(s.plugin.inp, s.hist.recvPuts) && Requested(s.plugin.out, s.hist.recvPuts)
    && forall i :: 0 <= i < |s.hist.sendPuts| ==> Requested(s.hist.sendPuts[i], s.hist.recvPuts)
  }

  lemma RequestedOnlyLater(s: State, requests: seq<Batch>)
    requires RequestedOnly(s) && s.hist.recvPuts <= requests
    ensures Requested(s.plugin.inp, requests) && Requested(s.plugin.out, requests)
    ensures forall i :: 0 <= i < |s.hist.sendPuts| ==> Requested(s.hist.sendPuts[i], requests)
  {
    RequestedLater(s.plugin.inp, s.hist.recvPuts, requests);
    RequestedLater(s.plugin.out, s.hist.recvPuts, requests);
    forall i | 0 <= i < |s.hist.sendPuts| ensures Requested(s.hist.sendPuts[i], requests) {
      RequestedLater(s.hist.sendPuts[i], s.hist.recvPuts, requests);
    }
  }

  lemma PutSendVectors(s: State)
    requires PutSendEnabled(s)
    ensures var p := PutSendStep(s).plugin; p.out == s.plugin.out && (p.inp == s.plugin.inp || p.inp == s.recvMets)
  {
  }

  /** Where a step takes the plugin's vectors from. */
  lemma VectorsMove(s: State, e: Event)
    requires Enabled(s, e) && Handshake(s, e)
    ensures var t := Step(s, e);
      && (t.plugin.inp == s.plugin.inp || t.plugin.inp == s.recvMets)
      && (Ns(t.plugin.out) == Ns(s.plugin.out) || t.plugin.out == s.plugin.inp)
  {
    if e.PutSend? {
      PutSendVectors(s);
    } else if !e.Collect? && !e.Drained? {
      OtherWorkersHandOff(s, e);
    }
  }

  /** Where a step takes the batches put from. */
  lemma PutsMove(s: State, e: Event)
    requires Enabled(s, e)
    ensures var puts := Step(s, e).hist.sendPuts;
      puts == s.hist.sendPuts || puts == s.hist.sendPuts + [s.plugin.out]
  {
    StepMoves(s, e);
    assert LedgerOf(Step(s, e)).puts == Step(s, e).hist.sendPuts;
  }

  lemma RequestedOnlyKept(s: State, e: Event)
    requires RequestedOnly(s) && Enabled(s, e) && Handshake(s, e)
    ensures RequestedOnly(Step(s, e))
  {
    var t := Step(s, e);
    AccumulatedKept(s, e);
    RequestsGrow(s, e);
    RequestedOnlyLater(s, t.hist.recvPuts);
    VectorsMove(s, e);
    PutsMove(s, e);
    assert AsRequested(s.recvMets, s.hist.recvPuts, |Received(s)|);
    RequestedLater(s.recvMets, s.hist.recvPuts, t.hist.recvPuts);
    if Ns(t.plugin.out) == Ns(s.plugin.out) {
      var k: nat :| AsRequested(s.plugin.out, t.hist.recvPuts, k);
      assert AsRequested(t.plugin.out, t.hist.recvPuts, k);
    }
  }

  /** Every batch put on the send channel has exactly the namespaces of the first k request batches,
      for some k, in every run of the library workers and a plugin that keeps to the handshake. */
  lemma RequestedOnlyOutput(s: State, es: seq<Event>)
    requires Started(s) && Run(s, es) && Within(Handshake, s, es)
    ensures var t := End(s, es);
      forall i :: 0 <= i < |t.hist.sendPuts| ==> Requested(t.hist.sendPuts[i], t.hist.recvPuts)
  {
    assert AsRequested([], [], 0);
    forall t: State, e: Event | RequestedOnly(t) && Enabled(t, e) && Handshake(t, e)
      ensures RequestedOnly(Step(t, e))
    {
      RequestedOnlyKept(t, e);
    }
    Invariance(Handshake, RequestedOnly, s, es);
  }

  lemma {:induction false} FlatMember<T>(ss: seq<seq<T>>, x: T)
    requires x in Flat(ss)
    ensures exists i :: 0 <= i < |ss| && x in ss[i]
  {
    if x in ss[0] {
    } else {
      FlatMember(ss[1..], x);
      var i :| 0 <= i < |ss[1..]| && x in ss[1..][i];
      assert x in ss[i + 1];
    }
  }

  lemma RequestedMember(b: Batch, requests: seq<Batch>, m: Metric)
    requires Requested(b, requests) && m in b
    ensures m.ns in Ns(Flat(requests))
  {
    var k: nat :| AsRequested(b, requests, k);
    var i :| 0 <= i < |b| && b[i] == m;
    assert Ns(b)[i] == m.ns;
    assert requests == requests[..k] + requests[k..];
    FlatConcat(requests[..k], requests[k..]);
    assert Ns(Flat(requests))[i] == Ns(Flat(requests[..k]))[i];
  }

  // ----- the requests read

  /** The batches asked for, in order; a request without metrics asks for none. */
  function Asked(args: seq<CollectArg>): seq<Batch> {
    if args == [] then []
    else
      var before, m := Asked(args[..|args| - 1]), args[|args| - 1].metrics;
      if m.Some? then before + [m.value] else before
  }

  /** The requests streamRecv is done with: all it has read but the one in hand. */
  function Handled(s: State): seq<CollectArg> {
    if s.sr.SrDuration? || s.sr.SrBuffer? || s.sr.SrPut? then AllButLast(s.hist.args) else s.hist.args
  }

  predicate PutAsAsked(s: State) {
    !s.sr.SrThrown? && Reading(s) && s.hist.recvPuts == Asked(Handled(s))
  }

  lemma AskedSnoc(args: seq<CollectArg>)
    requires args != []
    ensures var m := args[|args| - 1].metrics; var before := Asked(AllButLast(args));
      Asked(args) == if m.Some? then before + [m.value] else before
  {
  }

  lemma AllButLastOfSnoc<T>(s: seq<T>, x: T)
    ensures AllButLast(s + [x]) == s
  {
  }

  lemma StreamRecvPutsAsAsked(s: State, arg: CollectArg)
    requires CancelSafe(s) && PutAsAsked(s) && StreamRecvEnabled(s)
    ensures PutAsAsked(StreamRecvStep(s, arg))
  {
    hide Asked, AllButLast;
    if s.sr.SrRead? {
      AllButLastOfSnoc(s.hist.args, arg);
    } else if s.sr.SrPut? {
      AskedSnoc(s.hist.args);
    }
  }

  lemma PutAsAskedKept(s: State, e: Event)
    requires CancelSafe(s) && PutAsAsked(s) && Enabled(s, e)
    ensures PutAsAsked(Step(s, e))
  {
    if e.StreamRecv? {
      StreamRecvPutsAsAsked(s, e.arg);
    } else {
      assert Step(s, e).sr == s.sr && Step(s, e).hist.args == s.hist.args
          && Step(s, e).hist.recvPuts == s.hist.recvPuts;
    }
  }

  /** What is put on the receive channel are the metrics of the requests read, in order, but for a request
      still in hand. */
  lemma RequestsPutInOrder(s: State, es: seq<Event>)
    requires Initial(s) && Run(s, es)
    ensures End(s, es).hist.recvPuts == Asked(Handled(End(s, es)))
  {
    var inv := (t: State) => CancelSafe(t) && PutAsAsked(t);
    AnyRun(s, es);
    forall t: State, e: Event | inv(t) && Enabled(t, e) ensures inv(Step(t, e)) {
      CancelSafeKept(t, e);
      PutAsAskedKept(t, e);
    }
    Invariance(Anything, inv, s, es);
  }

  lemma {:induction false} AskedMember(args: seq<CollectArg>, b: Batch)
    requires b in Asked(args)
    ensures exists a :: a in args && a.metrics == Some(b)
    decreases args
  {
    var last := args[|args| - 1];
    if last.metrics == Some(b) {
      assert last in args;
    } else {
      AskedMember(args[..|args| - 1], b);
      var a :| a in args[..|args| - 1] && a.metrics == Some(b);
      assert a in args;
    }
  }

  /** A request read asks for the namespace. */
  predicate AsksFor(a: CollectArg, ns: seq<string>) { a.metrics.Some? && ns in Ns(a.metrics.value) }

  lemma AskedBySomeone(args: seq<CollectArg>, ns: seq<string>)
    requires ns in Ns(Flat(Asked(args)))
    ensures exists a :: a in args && AsksFor(a, ns)
  {
    var all := Flat(Asked(args));
    var i :| 0 <= i < |all| && Ns(all)[i] == ns;
    FlatMember(Asked(args), all[i]);
    var j :| 0 <= j < |Asked(args)| && all[i] in Asked(args)[j];
    var b := Asked(args)[j];
    AskedMember(args, b);
    var a :| a in args && a.metrics == Some(b);
    var k :| 0 <= k < |b| && b[k] == all[i];
    assert Ns(b)[k] == ns;
    assert AsksFor(a, ns);
  }

  /** End to end: whatever metricSend writes to the stream was asked for by a request read from it. */
  lemma WrittenWasRequested(s: State, es: seq<Event>, m: Metric)
    requires Started(s) && Run(s, es) && Within(Handshake, s, es)
    requires m in Flat(MetricBatches(End(s, es).hist.writes))
    ensures exists a :: a in End(s, es).hist.args && AsksFor(a, m.ns)
  {
    var t := End(s, es);
    Conservation(s, es);
    assert m in Flat(t.hist.sendPuts);
    FlatMember(t.hist.sendPuts, m);
    var i :| 0 <= i < |t.hist.sendPuts| && m in t.hist.sendPuts[i];
    RequestedOnlyOutput(s, es);
    RequestedMember(t.hist.sendPuts[i], t.hist.recvPuts, m);
    RequestsPutInOrder(s, es);
    AskedBySomeone(Handled(t), m.ns);
    var a :| a in Handled(t) && AsksFor(a, m.ns);
    assert a in t.hist.args;
  }
}

/** From a request to the batch that answers it: what a plugin that keeps to the handshake works on, at every
    moment of a run. */
module PipelineRequests {
  import opened Options
  import opened Seqs
  import opened Channels
  import opened Pipeline
  import opened PipelineSafety
  import opened PipelineLimits
  import opened PipelineHandshake

  /** The request batches handed to the plugin: all that were received, but for one still in the hands of
      PutSendMetsAndErrMsg. */
  function Given(s: State): seq<Batch> {
    if s.ps.PsGive? then AllButLast(Received(s)) else Received(s)
  }

  /** The namespaces of every request handed over, in order. */
  function Wanted(s: State): seq<seq<string>> { Ns(Flat(Given(s))) }

  /** The plugin holds every request handed over, and once it has taken them over works on exactly those. */
  predicate UpToDate(s: State) {
    && Accumulated(s) && (s.ps.PsGive? ==> Received(s) != [])
    && s.plugin.inp == Flat(Given(s))
    && (!s.plugin.getMets ==> Ns(s.plugin.out) == Wanted(s))
  }

  lemma ReceivedKept(s: State, e: Event)
    requires Accumulated(s) && Enabled(s, e) && !(e.PutSend? && s.ps.PsGet?)
    ensures Received(Step(s, e)) == Received(s)
  {
    if e.StreamRecv? && s.sr.SrPut? {
      assert Received(Step(s, e)) == Received(s);
    } else {
      OthersSameRequests(s, e);
    }
  }

  lemma PluginAfterPut(s: State)
    requires PutSendEnabled(s)
    ensures var t := PutSendStep(s);
      && (t.ps.PsGive? <==> s.ps.PsGet? && s.recvChan.queue != [])
      && t.plugin.out == s.plugin.out
      && t.plugin.inp == (if s.ps.PsGive? then s.recvMets else s.plugin.inp)
      && t.plugin.getMets == (s.ps.PsGive? || s.plugin.getMets)
  {
  }

  lemma PutSendUpToDate(s: State)
    requires UpToDate(s) && PutSendEnabled(s)
    ensures UpToDate(PutSendStep(s))
  {
    hide PutSendStep, Accumulated, Received, Flat, AllButLast;
    PluginAfterPut(s);
    AccumulatedKept(s, PutSend);
    if s.ps.PsGet? {
      GetAccumulates(s);
      if s.recvChan.queue == [] {
        assert Received(s) + [] == Received(s);
      } else {
        AllButLastOfSnoc(Received(s), s.recvChan.queue[0]);
      }
    } else {
      ReceivedKept(s, PutSend);
      assert s.recvMets == Flat(Received(s)) by {
        AccumulatesAll(s);
      }
    }
  }

  lemma AccumulatesAll(s: State)
    requires Accumulated(s)
    ensures s.recvMets == Flat(Received(s))
  {
  }

  lemma UpToDateKept(s: State, e: Event)
    requires UpToDate(s) && Enabled(s, e) && Handshake(s, e)
    ensures UpToDate(Step(s, e))
  {
    if e.PutSend? {
      PutSendUpToDate(s);
    } else {
      AccumulatedKept(s, e);
      ReceivedKept(s, e);
      if !e.Collect? && !e.Drained? {
        OtherWorkersHandOff(s, e);
      }
    }
  }

  lemma AlwaysUpToDate(s: State, es: seq<Event>)
    requires Started(s) && Run(s, es) && Within(Handshake, s, es)
    ensures UpToDate(End(s, es))
  {
    assert Ns([]) == [];
    forall t: State, e: Event | UpToDate(t) && Enabled(t, e) && Handshake(t, e) ensures UpToDate(Step(t, e)) {
      UpToDateKept(t, e);
    }
    Invariance(Handshake, UpToDate, s, es);
  }

  /** In every run: the vector handed over last holds every request received by then, and the next turn of
      drain_metrics makes it the batch to work on; handing over announces itself with the flag. */
  lemma RequestsAreTakenOver(s: State, es: seq<Event>)
    requires Started(s) && Run(s, es) && Within(Handshake, s, es)
    ensures var t := End(s, es);
      && t.plugin.inp == Flat(Given(t))
      && (Enabled(t, Drained) ==>
            var u := Step(t, Drained).plugin; u.out == u.inp == Flat(Given(t)) && !u.getMets && u.err == "")
      && (t.ps.PsGive? ==> var u := Step(t, PutSend).plugin; u.inp == Flat(Received(t)) && u.getMets)
  {
    AlwaysUpToDate(s, es);
  }

  /** In every run: a batch can be produced exactly when the plugin has not been told to stop, no flag is up,
      and its metrics have the namespaces of all the requests handed over so far, and of nothing else. */
  lemma BatchesAnswerAllRequests(s: State, es: seq<Event>, filled: Batch, err: Option<string>)
    requires Started(s) && Run(s, es) && Within(Handshake, s, es)
    ensures var t := End(s, es); var p := t.plugin;
      Enabled(t, Collect(filled, err)) <==>
        !p.cancelled && !p.getMets && !p.putMets && !p.putErr && filled != [] && Ns(filled) == Wanted(t)
  {
    AlwaysUpToDate(s, es);
  }

  /** So whatever was asked for before a turn of drain_metrics is answered by the turn of stream_it after it. */
  lemma DrainedRequestIsAnswered(s: State, es: seq<Event>, filled: Batch, err: Option<string>)
    requires Started(s) && Run(s, es) && Within(Handshake, s, es) && Enabled(End(s, es), Drained)
    requires filled != [] && Ns(filled) == Wanted(End(s, es))
    ensures var t := Step(End(s, es), Drained);
      && Enabled(t, Collect(filled, err))
      && Step(t, Collect(filled, err)).hist.produced == End(s, es).hist.produced + [filled]
  {
    AlwaysUpToDate(s, es);
  }

  /** How many steps of PutSendMetsAndErrMsg away its get is, at most. */
  function StepsToGet(pc: PutSendPc): nat {
    match pc
    case PsGet => 0
    case PsClearErr => 1
    case PsPutErr => 2
    case PsTestErr => 3
    case PsClearMets => 4
    case PsPutMets => 5
    case PsTestMets => 6
    case PsLoop => 7
    case _ => 8
  }

  /** Until the call is cancelled a request on the channel is on its way: every step of PutSendMetsAndErrMsg
      receives it or comes closer, and no other step takes it. */
  lemma WaitingRequestAdvances(s: State, e: Event)
    requires CancelSafe(s) && s.recvChan.queue != [] && !s.cancelled && Enabled(s, e)
    ensures PutSendEnabled(s)
    ensures var t := Step(s, e); var request := s.recvChan.queue[0];
      if e.PutSend? then
        || (s.ps.PsGet? && t.ps.PsGive? && t.recvMets == s.recvMets + request)
        || (t.recvChan.queue == s.recvChan.queue && StepsToGet(t.ps) < StepsToGet(s.ps))
      else t.recvChan.queue != [] && t.recvChan.queue[0] == request && t.ps == s.ps
  {
    if e.PutSend? {
      PutSendComesToGet(s);
    }
  }

  lemma PutSendComesToGet(s: State)
    requires CancelSafe(s) && s.recvChan.queue != [] && !s.cancelled && PutSendEnabled(s)
    ensures var t := PutSendStep(s);
      || (s.ps.PsGet? && t.ps.PsGive? && t.recvMets == s.recvMets + s.recvChan.queue[0])
      || (t.recvChan.queue == s.recvChan.queue && StepsToGet(t.ps) < StepsToGet(s.ps))
  {
  }

  /** How many steps of PutSendMetsAndErrMsg it takes, at most, to lower the flags that are up. */
  function StepsToFree(s: State): nat {
    if s.plugin.putMets then
      match s.ps
      case PsClearMets => 10
      case PsPutMets => 11
      case PsTestMets => 12
      case PsLoop => 13
      case PsGive => 14
      case PsGet => 15
      case PsClearErr => 16
      case PsPutErr => 17
      case _ => 18
    else if s.plugin.putErr then
      match s.ps
      case PsClearErr => 1
      case PsPutErr => 2
      case PsTestErr => 3
      case PsTestMets => 4
      case PsLoop => 5
      case PsGive => 6
      case PsGet => 7
      case _ => 8
    else 0
  }

  /** Until the call is cancelled a request handed over is on its way: the plugin can take it over once no
      other flag is up, which steps of PutSendMetsAndErrMsg bring about and none undoes; until it does,
      nothing is produced for older requests. */
  lemma HandedRequestAdvances(s: State, e: Event)
    requires CancelSafe(s) && BatchesHandedOff(s) && ErrorsHandedOff(s) && s.plugin.getMets && !s.cancelled
    requires Enabled(s, e) && Handshake(s, e)
    ensures Enabled(s, Drained) <==> StepsToFree(s) == 0
    ensures !e.Collect? && (!e.Drained? ==> Step(s, e).plugin.getMets)
    ensures StepsToFree(Step(s, e)) <= StepsToFree(s)
    ensures e.PutSend? && StepsToFree(s) > 0 ==> StepsToFree(Step(s, e)) < StepsToFree(s)
  {
    if e.PutSend? {
      PutSendFrees(s);
    } else if !e.Drained? {
      OtherWorkersHandOff(s, e);
    }
  }

  lemma PutSendFrees(s: State)
    requires CancelSafe(s) && BatchesHandedOff(s) && ErrorsHandedOff(s) && s.plugin.getMets && !s.cancelled
    requires PutSendEnabled(s)
    ensures PutSendStep(s).plugin.getMets
    ensures if StepsToFree(s) > 0 then StepsToFree(PutSendStep(s)) < StepsToFree(s)
            else StepsToFree(PutSendStep(s)) == 0
  {
  }

  // ----- after the call

  predicate Silent(s: State, produced: seq<Batch>, raised: seq<string>) {
    s.plugin.cancelled && s.hist.produced == produced && s.hist.raised == raised
  }

  lemma SilentKept(s: State, e: Event, produced: seq<Batch>, raised: seq<string>)
    requires Silent(s, produced, raised) && Enabled(s, e)
    ensures Silent(Step(s, e), produced, raised)
  {
    if e.PutSend? {
      SilentPutSend(s, produced, raised);
    }
  }

  lemma SilentPutSend(s: State, produced: seq<Batch>, raised: seq<string>)
    requires Silent(s, produced, raised) && PutSendEnabled(s)
    ensures Silent(PutSendStep(s), produced, raised)
  {
  }

  /** Once told of the cancellation, the plugin produces nothing and raises nothing any more. */
  lemma ToldMeansSilent(s: State, es: seq<Event>)
    requires s.plugin.cancelled && Run(s, es)
    ensures End(s, es).hist.produced == s.hist.produced && End(s, es).hist.raised == s.hist.raised
  {
    var inv := (t: State) => Silent(t, s.hist.produced, s.hist.raised);
    AnyRun(s, es);
    forall t: State, e: Event | inv(t) && Enabled(t, e) ensures inv(Step(t, e)) {
      SilentKept(t, e, s.hist.produced, s.hist.raised);
    }
    Invariance(Anything, inv, s, es);
  }
}

/** When shutdown completes: for each state of a cancelled call, whether every way on ends all workers. */
module PipelineCompletion {
  import opened Options
  import opened Seqs
  import opened Channels
  import opened Pipeline
  import opened PipelineSafety
  import opened PipelineHandshake
  import opened PipelineShutdown

  // ----- ways on

  /** A run of the workers and a handshaking plugin that leads from s to t. */
  ghost predicate Leads(s: State, es: seq<Event>, t: State) {
    Takes(s, es, t) && Within(Handshake, s, es)
  }

  lemma LeadsNowhere(s: State)
    ensures Leads(s, [], s)
  {
  }

  lemma LeadsOn(s: State, e: Event, es: seq<Event>, t: State)
    requires Enabled(s, e) && Handshake(s, e) && Leads(Step(s, e), es, t)
    ensures Leads(s, [e] + es, t)
  {
    TakesOne(s, e, es, t);
    assert ([e] + es)[1..] == es;
  }

  lemma LeadsThrough(s: State, a: seq<Event>, t: State, b: seq<Event>, u: State)
    requires Leads(s, a, t) && Leads(t, b, u)
    ensures Leads(s, a + b, u)
  {
    WithinConcat(Handshake, s, a, b);
  }

  /** After cancellation the workers can always be run until none of them can move. */
  lemma RunToHalt(s: State) returns (es: seq<Event>, t: State)
    requires s.cancelled
    ensures Leads(s, es, t) && Halted(t)
    decreases PutsLeft(s.ps), Work(s)
  {
    if Halted(s) {
      es, t := [], s;
      LeadsNowhere(s);
    } else {
      var e: Event :| IsWorker(e) && Enabled(s, e);
      WorkDecreases(s, e);
      PutSizeGrows(s, e);
      var rest;
      rest, t := RunToHalt(Step(s, e));
      es := [e] + rest;
      LeadsOn(s, e, rest, t);
    }
  }

  /** A way on, with a plugin that keeps to the handshake, that is over: no worker can move at its end. */
  ghost predicate Halts(s: State, es: seq<Event>) {
    Run(s, es) && Within(Handshake, s, es) && Halted(End(s, es))
  }

  // ----- metricSend

  /** PutSendMetsAndErrMsg is bound to put one more batch. */
  predicate WillPut(s: State) {
    s.ps.PsPutMets? || (s.ps.PsTestMets? && s.plugin.putMets)
  }

  /** metricSend waits for a batch that need not come. */
  predicate Stranded(s: State) {
    s.ms.MsGet? && s.sendChan.queue == [] && !WillPut(s)
  }

  lemma NotStrandedKept(s: State, e: Event)
    requires CancelSafe(s) && s.cancelled && !Stranded(s) && Enabled(s, e) && Handshake(s, e)
    ensures !Stranded(Step(s, e))
  {
    if e.ErrorSend? || e.StreamRecv? {
      assert Step(s, e).ms == s.ms && Step(s, e).sendChan == s.sendChan && Step(s, e).ps == s.ps;
      assert Step(s, e).plugin.putMets == s.plugin.putMets;
    }
  }

  /** When nothing is bound to be put, PutSendMetsAndErrMsg can end without a put. */
  lemma PutSendEndsIdle(s: State) returns (es: seq<Event>, t: State)
    requires s.cancelled && !WillPut(s)
    ensures Leads(s, es, t) && t.cancelled && (t.ps.PsDone? || t.ps.PsThrown?)
    ensures t.ms == s.ms && t.sendChan == s.sendChan
    decreases PutSendWork(s.ps)
  {
    if s.ps.PsDone? || s.ps.PsThrown? {
      es, t := [], s;
      LeadsNowhere(s);
    } else {
      var rest;
      rest, t := PutSendEndsIdle(Step(s, PutSend));
      es := [PutSend] + rest;
      LeadsOn(s, PutSend, rest, t);
    }
  }

  predicate CancelledSafely(s: State) { s.cancelled && CancelSafe(s) }

  lemma CancelledSafelyKept(s: State, e: Event)
    requires CancelledSafely(s) && Enabled(s, e)
    ensures CancelledSafely(Step(s, e))
  {
    CancelSafeKept(s, e);
    if IsWorker(e) {
      WorkDecreases(s, e);
    }
  }

  /** Not stranded, metricSend ends on every way on. */
  lemma UnstrandedEnds(s: State, es: seq<Event>)
    requires CancelledSafely(s) && !Stranded(s)
    requires Halts(s, es)
    ensures End(s, es).ms.MsDone?
  {
    var inv := (t: State) => CancelledSafely(t) && !Stranded(t);
    forall t: State, e: Event | inv(t) && Enabled(t, e) && Handshake(t, e) ensures inv(Step(t, e)) {
      CancelledSafelyKept(t, e);
      NotStrandedKept(t, e);
    }
    Invariance(Handshake, inv, s, es);
    HaltedMeans(End(s, es));
  }

  /** Stranded, there is a way on that leaves it waiting for good. */
  lemma StrandedHangs(s: State) returns (es: seq<Event>)
    requires CancelledSafely(s) && Stranded(s)
    ensures Halts(s, es) && MetricSendWaits(End(s, es))
  {
    var a, t := PutSendEndsIdle(s);
    var b, u := RunToHalt(t);
    LeadsThrough(s, a, t, b, u);
    HungForever(t, b);
    es := a + b;
  }

  /** metricSend ends on every way on exactly when it is not stranded. */
  lemma MetricSendEnds(s: State)
    requires CancelledSafely(s)
    ensures !Stranded(s) <==>
      forall es :: Halts(s, es) ==> End(s, es).ms.MsDone?
  {
    if Stranded(s) {
      var es := StrandedHangs(s);
      assert !End(s, es).ms.MsDone?;
    } else {
      forall es | Halts(s, es) ensures End(s, es).ms.MsDone? {
        UnstrandedEnds(s, es);
      }
    }
  }

  // ----- errorSend

  /** The error flag is up and the test of it still ahead, in a pass that gets there unless the put of a
      batch throws. */
  predicate ErrorAhead(s: State) {
    s.plugin.putErr && (s.ps.PsClearMets? || s.ps.PsTestErr? || (s.ps.PsTestMets? && !s.plugin.putMets))
  }

  /** PutSendMetsAndErrMsg is bound to put one more error: a put of a batch before it cannot throw as long
      as metricSend waits for that batch. */
  predicate WillPutError(s: State) {
    || s.ps.PsPutErr?
    || ErrorAhead(s)
    || (s.plugin.putErr && WillPut(s) && MetricSendWaits(s))
  }

  /** errorSend waits for an error that need not come. */
  predicate ErrorStranded(s: State) {
    s.es.EsGet? && s.errChan.queue == [] && !WillPutError(s)
  }

  lemma ErrorNotStrandedKept(s: State, e: Event)
    requires CancelledSafely(s) && !ErrorStranded(s) && Enabled(s, e) && Handshake(s, e)
    ensures !ErrorStranded(Step(s, e))
  {
    match e {
      case MetricSend => assert Step(s, e).es == s.es && Step(s, e).errChan == s.errChan && Step(s, e).ps == s.ps;
      case ErrorSend =>
      case PutSend => ErrorNotStrandedByPut(s);
      case StreamRecv(_) => assert Step(s, e).es == s.es && Step(s, e).errChan == s.errChan && Step(s, e).ps == s.ps;
      case _ =>
    }
  }

  lemma ErrorNotStrandedByPut(s: State)
    requires CancelledSafely(s) && !ErrorStranded(s) && PutSendEnabled(s)
    ensures !ErrorStranded(PutSendStep(s))
  {
    assert PutSendStep(s).es == s.es && PutSendStep(s).ms == s.ms;
  }

  /** Unless it waits, metricSend can be run to its end before anyone else moves. */
  lemma MetricSendEndsFirst(s: State) returns (es: seq<Event>, t: State)
    requires CancelledSafely(s) && !MetricSendWaits(s)
    ensures Leads(s, es, t) && CancelledSafely(t) && t.ms.MsDone?
    ensures t.ps == s.ps && t.es == s.es && t.errChan == s.errChan
    ensures t.plugin.putMets == s.plugin.putMets && t.plugin.putErr == s.plugin.putErr
    decreases MetricSendWork(s)
  {
    if s.ms.MsDone? {
      es, t := [], s;
      LeadsNowhere(s);
    } else {
      var s' := Step(s, MetricSend);
      CancelledSafelyKept(s, MetricSend);
      MetricSendWorks(s);
      MetricSendLeaves(s);
      assert s'.errChan == s.errChan && !s'.ms.MsGet?;
      var rest;
      rest, t := MetricSendEndsFirst(s');
      es := [MetricSend] + rest;
      LeadsOn(s, MetricSend, rest, t);
    }
  }

  /** The ways to an error put are closed: none is ahead, or the send channel, closed, stops the pass. */
  predicate NoErrorPut(s: State) {
    !s.ps.PsPutErr? && !ErrorAhead(s) && (s.plugin.putErr && WillPut(s) ==> s.sendChan.closed)
  }

  lemma PutSendEndsQuietly(s: State) returns (es: seq<Event>, t: State)
    requires s.cancelled && NoErrorPut(s)
    ensures Leads(s, es, t) && t.cancelled && (t.ps.PsDone? || t.ps.PsThrown?)
    ensures t.es == s.es && t.errChan == s.errChan
    decreases PutSendWork(s.ps)
  {
    if s.ps.PsDone? || s.ps.PsThrown? {
      es, t := [], s;
      LeadsNowhere(s);
    } else {
      var rest;
      rest, t := PutSendEndsQuietly(Step(s, PutSend));
      es := [PutSend] + rest;
      LeadsOn(s, PutSend, rest, t);
    }
  }

  predicate ErrorHung(s: State) {
    ErrorSendWaits(s) && (s.ps.PsDone? || s.ps.PsThrown?)
  }

  lemma ErrorHungForever(s: State, es: seq<Event>)
    requires ErrorHung(s) && Run(s, es)
    ensures ErrorHung(End(s, es))
  {
    AnyRun(s, es);
    forall t: State, e: Event | ErrorHung(t) && Enabled(t, e) ensures ErrorHung(Step(t, e)) {
      assert Step(t, e).es == t.es && Step(t, e).ps == t.ps && Step(t, e).errChan == t.errChan;
    }
    Invariance(Anything, ErrorHung, s, es);
  }

  lemma ErrorUnstrandedEnds(s: State, es: seq<Event>)
    requires CancelledSafely(s) && !ErrorStranded(s)
    requires Halts(s, es)
    ensures End(s, es).es.EsDone?
  {
    var inv := (t: State) => CancelledSafely(t) && !ErrorStranded(t);
    forall t: State, e: Event | inv(t) && Enabled(t, e) && Handshake(t, e) ensures inv(Step(t, e)) {
      CancelledSafelyKept(t, e);
      ErrorNotStrandedKept(t, e);
    }
    Invariance(Handshake, inv, s, es);
    HaltedMeans(End(s, es));
  }

  lemma ErrorStrandedHangs(s: State) returns (es: seq<Event>)
    requires CancelledSafely(s) && ErrorStranded(s)
    ensures Halts(s, es) && ErrorSendWaits(End(s, es))
  {
    var first, s' := [], s;
    LeadsNowhere(s);
    if s.plugin.putErr && WillPut(s) {
      first, s' := MetricSendEndsFirst(s);
    }
    var a, t := PutSendEndsQuietly(s');
    var b, u := RunToHalt(t);
    LeadsThrough(s, first, s', a, t);
    LeadsThrough(s, first + a, t, b, u);
    ErrorHungForever(t, b);
    es := first + a + b;
  }

  /** errorSend ends on every way on exactly when it is not stranded. */
  lemma ErrorSendEnds(s: State)
    requires CancelledSafely(s)
    ensures !ErrorStranded(s) <==>
      forall es :: Halts(s, es) ==> End(s, es).es.EsDone?
  {
    if ErrorStranded(s) {
      var es := ErrorStrandedHangs(s);
      assert !End(s, es).es.EsDone?;
    } else {
      forall es | Halts(s, es) ensures End(s, es).es.EsDone? {
        ErrorUnstrandedEnds(s, es);
      }
    }
  }

  // ----- main result

  /** Every worker has left. */
  predicate AllEnded(s: State) {
    s.ms.MsDone? && s.es.EsDone? && s.sr.SrDone? && (s.ps.PsDone? || s.ps.PsThrown?)
  }

  lemma StaysCancelledSafely(s: State, es: seq<Event>)
    requires CancelledSafely(s) && Run(s, es)
    ensures CancelledSafely(End(s, es))
  {
    AnyRun(s, es);
    forall t: State, e: Event | CancelledSafely(t) && Enabled(t, e) ensures CancelledSafely(Step(t, e)) {
      CancelledSafelyKept(t, e);
    }
    Invariance(Anything, CancelledSafely, s, es);
  }

  lemma UnstrandedCompletes(s: State, es: seq<Event>)
    requires CancelledSafely(s) && !Stranded(s) && !ErrorStranded(s) && Halts(s, es)
    ensures AllEnded(End(s, es))
  {
    UnstrandedEnds(s, es);
    ErrorUnstrandedEnds(s, es);
    StaysCancelledSafely(s, es);
    HaltedMeans(End(s, es));
  }

  lemma SomeWayHangs(s: State) returns (es: seq<Event>)
    requires CancelledSafely(s) && (Stranded(s) || ErrorStranded(s))
    ensures Halts(s, es) && !AllEnded(End(s, es))
  {
    if Stranded(s) {
      es := StrandedHangs(s);
    } else {
      es := ErrorStrandedHangs(s);
    }
  }

  /** In any reachable state of a cancelled call: shutdown completes under every scheduler, for a plugin that
      keeps to the handshake, exactly when neither sender is stranded. */
  lemma ShutdownCompletes(s0: State, before: seq<Event>)
    requires Initial(s0) && Run(s0, before) && End(s0, before).cancelled
    ensures var s := End(s0, before);
      !Stranded(s) && !ErrorStranded(s) <==> forall es :: Halts(s, es) ==> AllEnded(End(s, es))
  {
    AlwaysSafe(s0, before);
    var s := End(s0, before);
    if Stranded(s) || ErrorStranded(s) {
      var es := SomeWayHangs(s);
    } else {
      forall es | Halts(s, es) ensures AllEnded(End(s, es)) {
        UnstrandedCompletes(s, es);
      }
    }
  }

  // ----- any plugin

  /** A way on with any plugin at all. */
  ghost predicate HaltsAnyhow(s: State, es: seq<Event>) {
    Run(s, es) && Halted(End(s, es))
  }

  /** A plugin may lower its flags again before they are tested: only a put already begun is bound to come. */
  predicate Abandoned(s: State) {
    s.ms.MsGet? && s.sendChan.queue == [] && !s.ps.PsPutMets?
  }

  predicate ErrorAbandoned(s: State) {
    s.es.EsGet? && s.errChan.queue == [] && !s.ps.PsPutErr?
  }

  lemma NotAbandonedKept(s: State, e: Event)
    requires CancelledSafely(s) && !Abandoned(s) && Enabled(s, e)
    ensures !Abandoned(Step(s, e))
  {
    if !e.MetricSend? && !e.PutSend? {
      assert Step(s, e).ms == s.ms && Step(s, e).sendChan == s.sendChan && Step(s, e).ps == s.ps;
    }
  }

  lemma ErrorNotAbandonedKept(s: State, e: Event)
    requires CancelledSafely(s) && !ErrorAbandoned(s) && Enabled(s, e)
    ensures !ErrorAbandoned(Step(s, e))
  {
    if !e.ErrorSend? && !e.PutSend? {
      assert Step(s, e).es == s.es && Step(s, e).errChan == s.errChan && Step(s, e).ps == s.ps;
    }
  }

  lemma NotAbandonedCompletes(s: State, es: seq<Event>)
    requires CancelledSafely(s) && !Abandoned(s) && !ErrorAbandoned(s) && HaltsAnyhow(s, es)
    ensures AllEnded(End(s, es))
  {
    var inv := (t: State) => CancelledSafely(t) && !Abandoned(t) && !ErrorAbandoned(t);
    AnyRun(s, es);
    forall t: State, e: Event | inv(t) && Enabled(t, e) ensures inv(Step(t, e)) {
      CancelledSafelyKept(t, e);
      NotAbandonedKept(t, e);
      ErrorNotAbandonedKept(t, e);
    }
    Invariance(Anything, inv, s, es);
    HaltedMeans(End(s, es));
  }

  /** Once the flags are lowered, what is abandoned is stranded. */
  lemma AbandonedHangs(s: State) returns (es: seq<Event>)
    requires CancelledSafely(s) && (Abandoned(s) || ErrorAbandoned(s))
    ensures HaltsAnyhow(s, es) && !AllEnded(End(s, es))
  {
    var lowered := Interfere(s.plugin.(putMets := false, putErr := false));
    var t := Step(s, lowered);
    var rest := SomeWayHangs(t);
    es := [lowered] + rest;
    TakesOne(s, lowered, rest, End(t, rest));
  }

  /** The same for any plugin: shutdown completes exactly when no sender waits on an empty channel, but for
      one whose put has begun. */
  lemma ShutdownCompletesAnyhow(s0: State, before: seq<Event>)
    requires Initial(s0) && Run(s0, before) && End(s0, before).cancelled
    ensures var s := End(s0, before);
      !Abandoned(s) && !ErrorAbandoned(s) <==> forall es :: HaltsAnyhow(s, es) ==> AllEnded(End(s, es))
  {
    AlwaysSafe(s0, before);
    var s := End(s0, before);
    if Abandoned(s) || ErrorAbandoned(s) {
      var es := AbandonedHangs(s);
    } else {
      forall es | HaltsAnyhow(s, es) ensures AllEnded(End(s, es)) {
        NotAbandonedCompletes(s, es);
      }
    }
  }
}

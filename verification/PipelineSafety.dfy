/** What every step of the pipeline keeps, for any plugin, any limits and any interleaving. */
module PipelineSafety {
  import opened Seqs
  import opened Channels
  import opened Pipeline

  // ----- cancellation

  /** A worker leaves its loop, and closes the one channel it owns, only once the call is cancelled. */
  predicate CancelSafe(s: State) {
    && (s.sendChan.closed <==> s.ms.MsMark? || s.ms.MsDone?)
    && (s.errChan.closed <==> s.es.EsMark? || s.es.EsDone?)
    && (s.recvChan.closed <==> s.sr.SrMark? || s.sr.SrDone?)
    && (s.ms.MsClose? || s.ms.MsMark? || s.ms.MsDone? ==> s.cancelled)
    && (s.es.EsClose? || s.es.EsMark? || s.es.EsDone? ==> s.cancelled)
    && (s.sr.SrClose? || s.sr.SrMark? || s.sr.SrDone? ==> s.cancelled)
    && (s.ps.PsMark? || s.ps.PsDone? ==> s.cancelled)
    && (s.ps.PsThrown? ==> s.sendChan.closed || s.errChan.closed)
    && !s.sr.SrThrown?
    && (s.plugin.cancelled ==> s.cancelled)
  }

  // ----- conservation

  /** The batches written by metricSend, in order. */
  function MetricBatches(ws: seq<Written>): seq<Batch> {
    if ws == [] then []
    else
      var w := ws[|ws| - 1];
      var before := MetricBatches(ws[..|ws| - 1]);
      if w.writer.ByMetricSend? then before + [w.reply.metrics] else before
  }

  /** The error texts written by errorSend, in order. */
  function ErrorTexts(ws: seq<Written>): seq<string> {
    if ws == [] then []
    else
      var w := ws[|ws| - 1];
      var before := ErrorTexts(ws[..|ws| - 1]);
      if w.writer.ByErrorSend? then before + [w.reply.error] else before
  }

  lemma WritesSnoc(ws: seq<Written>, w: Written)
    ensures MetricBatches(ws + [w])
         == if w.writer.ByMetricSend? then MetricBatches(ws) + [w.reply.metrics] else MetricBatches(ws)
    ensures ErrorTexts(ws + [w])
         == if w.writer.ByErrorSend? then ErrorTexts(ws) + [w.reply.error] else ErrorTexts(ws)
  {
    assert (ws + [w])[..|ws|] == ws;
  }

  /** What is in the reply and still to be sent. */
  function Unflushed(s: State): Batch {
    if s.ms.MsClear? then [] else s.buffer
  }

  /** The part of the dequeued batch that metricSend has not looked at. */
  function InHand(s: State): Batch {
    match s.ms
    case MsItem(rest) => rest
    case MsFull(rest) => rest
    case MsWrite(NextItem(rest)) => rest
    case MsClear(NextItem(rest)) => rest
    case _ => []
  }

  /** The metric flow seen from outside: batches put, replies written, metrics between the two. */
  datatype Ledger = Ledger(puts: seq<Batch>, writes: seq<Written>, pending: Batch, queue: seq<Batch>)
  {
    /** Nothing is lost, duplicated or reordered between the puts and the writes of metricSend. */
    predicate Balanced() {
      Flat(puts) == Flat(MetricBatches(writes)) + pending + Flat(queue)
    }
  }

  function LedgerOf(s: State): Ledger {
    Ledger(s.hist.sendPuts, s.hist.writes, Unflushed(s) + InHand(s), s.sendChan.queue)
  }

  /** The ways a step can move metrics. */
  datatype Move = Still | Put(batch: Batch) | Take | Write(written: Written)

  predicate CanMove(l: Ledger, m: Move) {
    && (m.Take? ==> l.queue != [])
    && (m.Write? && m.written.writer.ByMetricSend? ==> m.written.reply.metrics <= l.pending)
  }

  function Moved(l: Ledger, m: Move): Ledger
    requires CanMove(l, m)
  {
    match m
    case Still => l
    case Put(x) => l.(puts := l.puts + [x], queue := l.queue + [x])
    case Take => l.(pending := l.pending + l.queue[0], queue := l.queue[1..])
    case Write(w) =>
      l.(writes := l.writes + [w],
         pending := if w.writer.ByMetricSend? then l.pending[|w.reply.metrics|..] else l.pending)
  }

  lemma Reassociate<T>(a: seq<T>, b: seq<T>, c: seq<T>, d: seq<T>)
    ensures a + (b + c) + d == (a + b) + c + d
  {
  }

  lemma FlushBalances(l: Ledger, m: Batch)
    requires l.Balanced() && m <= l.pending
    ensures Flat(l.puts) == Flat(MetricBatches(l.writes) + [m]) + l.pending[|m|..] + Flat(l.queue)
  {
    FlatSnoc(MetricBatches(l.writes), m);
    assert l.pending == m + l.pending[|m|..];
    Reassociate(Flat(MetricBatches(l.writes)), m, l.pending[|m|..], Flat(l.queue));
  }

  lemma MovesBalance(l: Ledger, m: Move)
    requires CanMove(l, m) && l.Balanced()
    ensures Moved(l, m).Balanced()
  {
    match m {
      case Still =>
      case Put(x) =>
        FlatSnoc(l.puts, x);
        FlatSnoc(l.queue, x);
      case Take =>
      case Write(w) =>
        WritesSnoc(l.writes, w);
        if w.writer.ByMetricSend? {
          FlushBalances(l, w.reply.metrics);
        }
    }
  }

  function MoveOf(s: State, e: Event): Move
    requires Enabled(s, e)
  {
    match e
    case MetricSend =>
      if s.ms.MsGet? && s.sendChan.queue != [] then Take
      else if s.ms.MsWrite? && s.buffer != [] then
        Write(Written(ByMetricSend, Reply(s.buffer, s.error), |s.hist.stored|))
      else Still
    case ErrorSend =>
      if s.es.EsWrite? then Write(Written(ByErrorSend, Reply(s.buffer, s.error), |s.hist.stored|)) else Still
    case PutSend => if s.ps.PsPutMets? && !s.sendChan.closed then Put(s.plugin.out) else Still
    case _ => Still
  }

  lemma MetricSendAppends(s: State)
    requires s.ms.MsItem? || s.ms.MsFull? || s.ms.MsTail?
    ensures LedgerOf(MetricSendStep(s)) == LedgerOf(s)
  {
    if s.ms.MsItem? && s.ms.rest != [] {
      assert s.buffer + s.ms.rest == s.buffer + [s.ms.rest[0]] + s.ms.rest[1..];
    }
  }

  lemma MetricSendFlushes(s: State)
    requires s.ms.MsWrite? || s.ms.MsClear?
    ensures CanMove(LedgerOf(s), MoveOf(s, MetricSend))
    ensures LedgerOf(MetricSendStep(s)) == Moved(LedgerOf(s), MoveOf(s, MetricSend))
  {
  }

  lemma MetricSendMoves(s: State)
    requires MetricSendEnabled(s)
    ensures CanMove(LedgerOf(s), MoveOf(s, MetricSend))
    ensures LedgerOf(MetricSendStep(s)) == Moved(LedgerOf(s), MoveOf(s, MetricSend))
  {
    if s.ms.MsItem? || s.ms.MsFull? || s.ms.MsTail? {
      MetricSendAppends(s);
    } else if s.ms.MsWrite? || s.ms.MsClear? {
      MetricSendFlushes(s);
    }
  }

  lemma ErrorSendMoves(s: State)
    requires ErrorSendEnabled(s)
    ensures LedgerOf(ErrorSendStep(s)) == Moved(LedgerOf(s), MoveOf(s, ErrorSend))
  {
  }

  lemma PutMetsMoves(s: State)
    requires s.ps.PsPutMets?
    ensures LedgerOf(PutSendStep(s)) == Moved(LedgerOf(s), MoveOf(s, PutSend))
  {
    hide Unflushed, InHand;
    assert Unflushed(PutSendStep(s)) == Unflushed(s) && InHand(PutSendStep(s)) == InHand(s) by {
      SameReply(s, PutSendStep(s));
    }
  }

  /** The rest of PutSendMetsAndErrMsg leaves the ledger alone. */
  lemma PutSendLeavesLedger(s: State)
    requires PutSendEnabled(s) && !s.ps.PsPutMets?
    ensures LedgerOf(PutSendStep(s)) == LedgerOf(s)
  {
    hide Unflushed, InHand;
    var t := PutSendStep(s);
    assert t.ms == s.ms && t.buffer == s.buffer && t.sendChan == s.sendChan;
    assert t.hist.sendPuts == s.hist.sendPuts && t.hist.writes == s.hist.writes;
    SameReply(s, t);
  }

  lemma SameReply(s: State, t: State)
    requires t.ms == s.ms && t.buffer == s.buffer
    ensures Unflushed(t) == Unflushed(s) && InHand(t) == InHand(s)
  {
  }

  lemma PutSendMoves(s: State)
    requires PutSendEnabled(s)
    ensures LedgerOf(PutSendStep(s)) == Moved(LedgerOf(s), MoveOf(s, PutSend))
  {
    hide LedgerOf, PutSendStep;
    if s.ps.PsPutMets? {
      PutMetsMoves(s);
    } else {
      PutSendLeavesLedger(s);
    }
  }

  lemma StreamRecvMoves(s: State, arg: CollectArg)
    requires StreamRecvEnabled(s)
    ensures LedgerOf(StreamRecvStep(s, arg)) == LedgerOf(s)
  {
  }

  lemma StepMoves(s: State, e: Event)
    requires Enabled(s, e)
    ensures CanMove(LedgerOf(s), MoveOf(s, e))
    ensures LedgerOf(Step(s, e)) == Moved(LedgerOf(s), MoveOf(s, e))
  {
    match e {
      case MetricSend => MetricSendMoves(s);
      case ErrorSend => ErrorSendMoves(s);
      case StreamRecv(arg) => StreamRecvMoves(s, arg);
      case PutSend => PutSendMoves(s);
      case _ =>
    }
  }

  /** metricSend adds the whole buffer; no other step adds a batch. */
  lemma BatchesWritten(s: State, e: Event)
    requires Enabled(s, e)
    ensures MetricBatches(Step(s, e).hist.writes)
         == if e.MetricSend? && s.ms.MsWrite? && s.buffer != [] then MetricBatches(s.hist.writes) + [s.buffer]
            else MetricBatches(s.hist.writes)
  {
    StepMoves(s, e);
    if MoveOf(s, e).Write? {
      WritesSnoc(s.hist.writes, MoveOf(s, e).written);
    }
  }

  // ----- what every step keeps

  /** Between a write and the clear that follows it, the reply still holds what was written. */
  predicate ClearPending(s: State) {
    s.ms.MsClear? && s.buffer != [] ==>
      var bs := MetricBatches(s.hist.writes); bs != [] && bs[|bs| - 1] == s.buffer
  }

  predicate Safe(s: State) {
    CancelSafe(s) && LedgerOf(s).Balanced() && ClearPending(s)
  }

  lemma MetricSendCancels(s: State)
    requires CancelSafe(s) && MetricSendEnabled(s)
    ensures CancelSafe(MetricSendStep(s))
  {
  }

  lemma ErrorSendCancels(s: State)
    requires CancelSafe(s) && ErrorSendEnabled(s)
    ensures CancelSafe(ErrorSendStep(s))
  {
  }

  lemma StreamRecvCancels(s: State, arg: CollectArg)
    requires CancelSafe(s) && StreamRecvEnabled(s)
    ensures CancelSafe(StreamRecvStep(s, arg))
  {
  }

  lemma PutSendCancels(s: State)
    requires CancelSafe(s) && PutSendEnabled(s)
    ensures CancelSafe(PutSendStep(s))
  {
  }

  lemma CancelSafeKept(s: State, e: Event)
    requires CancelSafe(s) && Enabled(s, e)
    ensures CancelSafe(Step(s, e))
  {
    match e {
      case MetricSend => MetricSendCancels(s);
      case ErrorSend => ErrorSendCancels(s);
      case StreamRecv(arg) => StreamRecvCancels(s, arg);
      case PutSend => PutSendCancels(s);
      case _ =>
    }
  }

  lemma MetricSendClears(s: State)
    requires ClearPending(s) && MetricSendEnabled(s)
    ensures ClearPending(MetricSendStep(s))
  {
    if s.ms.MsWrite? && s.buffer != [] {
      WritesSnoc(s.hist.writes, MoveOf(s, MetricSend).written);
    }
  }

  lemma ClearPendingKept(s: State, e: Event)
    requires ClearPending(s) && Enabled(s, e)
    ensures ClearPending(Step(s, e))
  {
    hide MetricBatches, ErrorTexts;
    match e {
      case MetricSend => MetricSendClears(s);
      case ErrorSend =>
        if s.es.EsWrite? {
          WritesSnoc(s.hist.writes, MoveOf(s, e).written);
        }
      case _ =>
    }
  }

  lemma SafeKept(s: State, e: Event)
    requires Safe(s) && Enabled(s, e)
    ensures Safe(Step(s, e))
  {
    CancelSafeKept(s, e);
    StepMoves(s, e);
    MovesBalance(LedgerOf(s), MoveOf(s, e));
    ClearPendingKept(s, e);
  }

  /** A call that has not started: nothing queued, nothing said to the plugin. */
  predicate Initial(s: State) {
    s == Init(s.maxBuffer, s.maxDuration, s.clock, s.plugin) && !s.plugin.cancelled
  }

  lemma AlwaysSafe(s: State, es: seq<Event>)
    requires Run(s, es) && Safe(s)
    ensures Safe(End(s, es))
  {
    AnyRun(s, es);
    forall t: State, e: Event | Safe(t) && Enabled(t, e) ensures Safe(Step(t, e)) {
      SafeKept(t, e);
    }
    Invariance(Anything, Safe, s, es);
  }

  // ----- main results

  /** End-to-end conservation, in every interleaving of one call. */
  lemma Conservation(s: State, es: seq<Event>)
    requires Initial(s) && Run(s, es)
    ensures var t := End(s, es);
      Flat(t.hist.sendPuts)
      == Flat(MetricBatches(t.hist.writes)) + (Unflushed(t) + InHand(t)) + Flat(t.sendChan.queue)
  {
    AlwaysSafe(s, es);
  }

  /** The plugin has been told once some worker is through. */
  predicate Told(s: State) {
    s.plugin.cancelled <==> s.ms.MsDone? || s.es.EsDone? || s.sr.SrDone? || s.ps.PsDone?
  }

  lemma PutSendTells(s: State)
    requires Told(s) && PutSendEnabled(s)
    ensures Told(PutSendStep(s))
  {
  }

  lemma ToldKept(s: State, e: Event)
    requires Told(s) && Enabled(s, e)
    ensures Told(Step(s, e))
  {
    if e.PutSend? {
      PutSendTells(s);
    }
  }

  /** Before the call is cancelled no channel closes, no worker ends or is thrown out, and the plugin is told
      nothing; streamRecv never puts to a closed channel. A channel is closed exactly once its worker is past
      closing it, and the plugin has been told exactly when some worker has ended. */
  lemma CancellationSafety(s: State, es: seq<Event>)
    requires Initial(s) && Run(s, es)
    ensures var t := End(s, es);
      && (t.sendChan.closed || t.errChan.closed || t.recvChan.closed || t.plugin.cancelled ==> t.cancelled)
      && (t.ms.MsDone? || t.es.EsDone? || t.sr.SrDone? || t.ps.PsDone? || t.ps.PsThrown? ==> t.cancelled)
      && !t.sr.SrThrown?
      && (t.sendChan.closed <==> t.ms.MsMark? || t.ms.MsDone?)
      && (t.errChan.closed <==> t.es.EsMark? || t.es.EsDone?)
      && (t.recvChan.closed <==> t.sr.SrMark? || t.sr.SrDone?)
      && Told(t)
  {
    AlwaysSafe(s, es);
    AnyRun(s, es);
    forall t: State, e: Event | Told(t) && Enabled(t, e) ensures Told(Step(t, e)) {
      ToldKept(t, e);
    }
    Invariance(Anything, Told, s, es);
  }
}

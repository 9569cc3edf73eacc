/** metricSend and errorSend write one shared reply: what each of those writes carries. */
module PipelineReplies {
  import opened Seqs
  import opened Channels
  import opened Pipeline
  import opened PipelineSafety

  function Last(errs: seq<string>): string {
    if errs == [] then "" else errs[|errs| - 1]
  }

  /** The errors stored before a write are the ones errorSend has written, and at most the one it is about
      to write; never fewer than at the write before. */
  predicate InPlace(before: seq<Written>, w: Written) {
    var n := |ErrorTexts(before)|;
    && n <= w.stored <= n + 1
    && (w.writer.ByErrorSend? ==> w.stored == n + 1)
    && (before != [] ==> before[|before| - 1].stored <= w.stored)
  }

  /** A write carries the last error stored so far. By metricSend it carries metrics never written
      before; by errorSend, what is buffered at that moment: either metrics still to be flushed,
      or the batch just flushed and not cleared yet. `sent` is everything put on the send channel. */
  predicate Carries(before: seq<Written>, w: Written, stored: seq<string>, sent: Batch) {
    var bs := MetricBatches(before);
    && w.stored <= |stored| && w.reply.error == Last(stored[..w.stored])
    && (w.writer.ByMetricSend? ==> w.reply.metrics != [])
    && (Flat(bs) + w.reply.metrics <= sent
        || (w.writer.ByErrorSend? && bs != [] && w.reply.metrics == bs[|bs| - 1]))
  }

  predicate Explained(before: seq<Written>, w: Written, stored: seq<string>, sent: Batch) {
    InPlace(before, w) && Carries(before, w, stored, sent)
  }

  predicate AllExplained(ws: seq<Written>, stored: seq<string>, sent: Batch) {
    forall i :: 0 <= i < |ws| ==> Explained(ws[..i], ws[i], stored, sent)
  }

  lemma ExplainedLater(before: seq<Written>, w: Written, stored: seq<string>, sent: Batch,
                       stored': seq<string>, sent': Batch)
    requires Explained(before, w, stored, sent) && stored <= stored' && sent <= sent'
    ensures Explained(before, w, stored', sent')
  {
    assert stored'[..w.stored] == stored[..w.stored];
  }

  lemma AllExplainedLater(ws: seq<Written>, stored: seq<string>, sent: Batch, stored': seq<string>, sent': Batch)
    requires AllExplained(ws, stored, sent) && stored <= stored' && sent <= sent'
    ensures AllExplained(ws, stored', sent')
  {
    forall i | 0 <= i < |ws| ensures Explained(ws[..i], ws[i], stored', sent') {
      ExplainedLater(ws[..i], ws[i], stored, sent, stored', sent');
    }
  }

  lemma AllExplainedSnoc(ws: seq<Written>, w: Written, stored: seq<string>, sent: Batch)
    requires AllExplained(ws, stored, sent) && Explained(ws, w, stored, sent)
    ensures AllExplained(ws + [w], stored, sent)
  {
    var all := ws + [w];
    forall i | 0 <= i < |all| ensures Explained(all[..i], all[i], stored, sent) {
      assert all[..i] == ws[..i];
    }
  }

  /** The error errorSend has taken off its channel and not stored yet. */
  function ErrorInHand(s: State): seq<string> {
    if s.es.EsStore? then [s.es.err] else []
  }

  predicate ErrorsInOrder(s: State) {
    && s.hist.errPuts == s.hist.stored + ErrorInHand(s) + s.errChan.queue
    && s.error == Last(s.hist.stored)
    && (if s.es.EsWrite?
        then s.hist.stored != [] && ErrorTexts(s.hist.writes) == s.hist.stored[..|s.hist.stored| - 1]
        else ErrorTexts(s.hist.writes) == s.hist.stored)
  }

  predicate Replies(s: State) {
    && Safe(s)
    && ErrorsInOrder(s)
    && AllExplained(s.hist.writes, s.hist.stored, Flat(s.hist.sendPuts))
  }

  lemma MetricSendErrors(s: State)
    requires ErrorsInOrder(s) && MetricSendEnabled(s)
    ensures ErrorsInOrder(MetricSendStep(s))
  {
    if s.ms.MsWrite? && s.buffer != [] {
      WritesSnoc(s.hist.writes, MoveOf(s, MetricSend).written);
    }
  }

  lemma ErrorGet(s: State)
    requires ErrorsInOrder(s) && s.es.EsGet? && ErrorSendEnabled(s)
    ensures ErrorsInOrder(ErrorSendStep(s))
  {
    hide ErrorTexts;
    var q := s.errChan.queue;
    if q != [] {
      assert s.hist.stored + [] + q == s.hist.stored + [q[0]] + q[1..];
    }
  }

  lemma ErrorStore(s: State)
    requires ErrorsInOrder(s) && s.es.EsStore?
    ensures ErrorsInOrder(ErrorSendStep(s))
  {
    hide ErrorTexts;
    var st := s.hist.stored;
    assert (st + [s.es.err])[..|st|] == st;
  }

  lemma ErrorWrite(s: State)
    requires ErrorsInOrder(s) && s.es.EsWrite?
    ensures ErrorsInOrder(ErrorSendStep(s))
  {
    hide ErrorTexts;
    var st := s.hist.stored;
    WritesSnoc(s.hist.writes, MoveOf(s, ErrorSend).written);
    assert st == st[..|st| - 1] + [st[|st| - 1]];
  }

  lemma ErrorSendErrors(s: State)
    requires ErrorsInOrder(s) && ErrorSendEnabled(s)
    ensures ErrorsInOrder(ErrorSendStep(s))
  {
    match s.es {
      case EsGet => ErrorGet(s);
      case EsStore(_) => ErrorStore(s);
      case EsWrite => ErrorWrite(s);
      case _ =>
    }
  }

  lemma PutSendErrors(s: State)
    requires ErrorsInOrder(s) && PutSendEnabled(s)
    ensures ErrorsInOrder(PutSendStep(s))
  {
    hide ErrorTexts, MetricBatches;
    if s.ps.PsPutErr? && !s.errChan.closed {
      var had := s.hist.stored + ErrorInHand(s);
      assert had + (s.errChan.queue + [s.plugin.err]) == (had + s.errChan.queue) + [s.plugin.err];
    } else {
      assert PutSendStep(s).errChan == s.errChan && PutSendStep(s).hist.errPuts == s.hist.errPuts;
    }
  }

  lemma OthersKeepErrors(s: State, e: Event)
    requires ErrorsInOrder(s) && Enabled(s, e) && !e.MetricSend? && !e.ErrorSend? && !e.PutSend?
    ensures ErrorsInOrder(Step(s, e))
  {
    hide ErrorTexts;
    var t := Step(s, e);
    assert t.es == s.es && t.errChan == s.errChan && t.error == s.error;
    assert t.hist.errPuts == s.hist.errPuts && t.hist.stored == s.hist.stored && t.hist.writes == s.hist.writes;
  }

  lemma ErrorsInOrderKept(s: State, e: Event)
    requires ErrorsInOrder(s) && Enabled(s, e)
    ensures ErrorsInOrder(Step(s, e))
  {
    hide ErrorsInOrder, MetricSendStep, ErrorSendStep, PutSendStep;
    match e {
      case MetricSend => MetricSendErrors(s);
      case ErrorSend => ErrorSendErrors(s);
      case PutSend => PutSendErrors(s);
      case _ => OthersKeepErrors(s, e);
    }
  }

  lemma WriteInPlace(s: State, e: Event)
    requires Replies(s) && Enabled(s, e) && MoveOf(s, e).Write?
    ensures InPlace(s.hist.writes, MoveOf(s, e).written)
  {
    hide MetricBatches, Flat, Safe;
    StoredInOrder(s);
    var ws := s.hist.writes;
    if ws != [] {
      var i := |ws| - 1;
      assert Explained(ws[..i], ws[i], s.hist.stored, Flat(s.hist.sendPuts));
    }
  }

  /** What a write adds is explained by the state it is made in. */
  lemma WriteExplained(s: State, e: Event)
    requires Replies(s) && Enabled(s, e) && MoveOf(s, e).Write?
    ensures Explained(s.hist.writes, MoveOf(s, e).written, s.hist.stored, Flat(s.hist.sendPuts))
  {
    hide InPlace, Carries, AllExplained, MoveOf;
    WriteInPlace(s, e);
    WriteCarries(s, e);
  }

  /** The buffer is a batch still to be written, or the one just written. */
  lemma BufferExplained(s: State)
    requires Safe(s)
    ensures var bs := MetricBatches(s.hist.writes);
      || Flat(bs) + s.buffer <= Flat(s.hist.sendPuts)
      || (s.ms.MsClear? && bs != [] && s.buffer == bs[|bs| - 1])
  {
    hide MetricBatches, Flat;
    var sent, queued := Flat(MetricBatches(s.hist.writes)), Flat(s.sendChan.queue);
    if !s.ms.MsClear? {
      Reassociate(sent, s.buffer, InHand(s), queued);
      assert Flat(s.hist.sendPuts) == sent + s.buffer + InHand(s) + queued;
    } else if s.buffer == [] {
      assert Flat(s.hist.sendPuts) == sent + s.buffer + (InHand(s) + queued);
    }
  }

  lemma WriteCarries(s: State, e: Event)
    requires Safe(s) && ErrorsInOrder(s) && Enabled(s, e) && MoveOf(s, e).Write?
    ensures Carries(s.hist.writes, MoveOf(s, e).written, s.hist.stored, Flat(s.hist.sendPuts))
  {
    hide ErrorTexts, MetricBatches, Flat, LedgerOf, ClearPending;
    BufferExplained(s);
    assert s.hist.stored[..|s.hist.stored|] == s.hist.stored;
  }

  lemma StoredGrows(s: State, e: Event)
    requires Enabled(s, e)
    ensures s.hist.stored <= Step(s, e).hist.stored
  {
    if !(e.ErrorSend? && s.es.EsStore?) {
      assert Step(s, e).hist.stored == s.hist.stored;
    }
  }

  lemma HistoryGrows(s: State, e: Event)
    requires Enabled(s, e)
    ensures s.hist.stored <= Step(s, e).hist.stored
    ensures Flat(s.hist.sendPuts) <= Flat(Step(s, e).hist.sendPuts)
  {
    hide Flat, Step, MoveOf, Enabled, Unflushed, InHand;
    StoredGrows(s, e);
    StepMoves(s, e);
    var m := MoveOf(s, e);
    assert Step(s, e).hist.sendPuts == Moved(LedgerOf(s), m).puts;
    if m.Put? {
      FlatSnoc(s.hist.sendPuts, m.batch);
    }
  }

  lemma RepliesKept(s: State, e: Event)
    requires Replies(s) && Enabled(s, e)
    ensures Replies(Step(s, e))
  {
    var t := Step(s, e);
    SafeKept(s, e);
    ErrorsInOrderKept(s, e);
    StepMoves(s, e);
    HistoryGrows(s, e);
    var m := MoveOf(s, e);
    if m.Write? {
      WriteExplained(s, e);
      AllExplainedSnoc(s.hist.writes, m.written, s.hist.stored, Flat(s.hist.sendPuts));
    }
    AllExplainedLater(t.hist.writes, s.hist.stored, Flat(s.hist.sendPuts), t.hist.stored, Flat(t.hist.sendPuts));
  }

  lemma AlwaysReplies(s: State, es: seq<Event>)
    requires Initial(s) && Run(s, es)
    ensures Replies(End(s, es))
  {
    AnyRun(s, es);
    forall t: State, e: Event | Replies(t) && Enabled(t, e) ensures Replies(Step(t, e)) {
      RepliesKept(t, e);
    }
    Invariance(Anything, Replies, s, es);
  }

  lemma SumIsPrefix<T>(all: seq<T>, a: seq<T>, b: seq<T>, c: seq<T>)
    requires all == a + b + c
    ensures a <= all
  {
  }

  lemma StoredInOrder(s: State)
    requires ErrorsInOrder(s)
    ensures ErrorTexts(s.hist.writes) <= s.hist.stored <= s.hist.errPuts
    ensures |s.hist.stored| <= |ErrorTexts(s.hist.writes)| + 1
  {
    SumIsPrefix(s.hist.errPuts, s.hist.stored, ErrorInHand(s), s.errChan.queue);
  }

  // ----- what errorSend shows of the next flush

  /** Metrics shown ahead of a flush: the flush then holds them and maybe more, unless they are the batch
      flushed before, shown once more. */
  predicate Ahead(before: seq<Written>, shown: Batch, next: Batch) {
    var bs := MetricBatches(before);
    shown <= next || (bs != [] && shown == bs[|bs| - 1])
  }

  /** The j-th write is the first flush after the i-th, which is errorSend's. */
  predicate NextFlush(ws: seq<Written>, i: nat, j: nat)
    requires i < |ws| && j < |ws|
  {
    && ws[i].writer.ByErrorSend? && ws[j].writer.ByMetricSend?
    && |MetricBatches(ws[..i])| == |MetricBatches(ws[..j])|
  }

  /** What errorSend writes comes ahead of the flush that follows. */
  predicate AheadOfFlush(ws: seq<Written>) {
    forall i, j :: 0 <= i < j < |ws| && NextFlush(ws, i, j) ==>
      Ahead(ws[..i], ws[i].reply.metrics, ws[j].reply.metrics)
  }

  /** What it has written since the last flush comes ahead of what is still to be flushed. */
  predicate AheadOfBuffer(ws: seq<Written>, buffer: Batch) {
    forall i :: 0 <= i < |ws| && ws[i].writer.ByErrorSend? && |MetricBatches(ws[..i])| == |MetricBatches(ws)| ==>
      Ahead(ws[..i], ws[i].reply.metrics, buffer)
  }

  predicate Foretold(s: State) {
    ClearPending(s) && AheadOfFlush(s.hist.writes) && AheadOfBuffer(s.hist.writes, Unflushed(s))
  }

  lemma {:induction false} BatchesGrow(ws: seq<Written>, i: nat)
    requires i <= |ws|
    ensures |MetricBatches(ws[..i])| <= |MetricBatches(ws)|
    decreases |ws|
  {
    if i < |ws| {
      assert ws[..|ws| - 1][..i] == ws[..i];
      BatchesGrow(ws[..|ws| - 1], i);
    } else {
      assert ws[..i] == ws;
    }
  }

  /** A flush fulfils what was shown ahead of it. */
  lemma FlushForetold(ws: seq<Written>, w: Written)
    requires AheadOfFlush(ws) && AheadOfBuffer(ws, w.reply.metrics) && w.writer.ByMetricSend?
    ensures AheadOfFlush(ws + [w]) && AheadOfBuffer(ws + [w], [])
  {
    hide MetricBatches, Ahead;
    var all := ws + [w];
    WritesSnoc(ws, w);
    assert all[..|ws|] == ws;
    forall i | 0 <= i < |ws| ensures all[i] == ws[i] && all[..i] == ws[..i] {
    }
    forall i | 0 <= i < |ws| ensures |MetricBatches(ws[..i])| < |MetricBatches(all)| {
      BatchesGrow(ws, i);
    }
  }

  /** What errorSend writes now is what is buffered now. */
  lemma ErrorForetold(ws: seq<Written>, w: Written, buffer: Batch)
    requires AheadOfFlush(ws) && AheadOfBuffer(ws, buffer) && w.writer.ByErrorSend?
    requires Ahead(ws, w.reply.metrics, buffer)
    ensures AheadOfFlush(ws + [w]) && AheadOfBuffer(ws + [w], buffer)
  {
    hide MetricBatches, Ahead;
    var all := ws + [w];
    WritesSnoc(ws, w);
    assert all[..|ws|] == ws;
    forall i | 0 <= i < |ws| ensures all[i] == ws[i] && all[..i] == ws[..i] {
    }
  }

  lemma AheadOfMore(ws: seq<Written>, buffer: Batch, more: Batch)
    requires AheadOfBuffer(ws, buffer) && buffer <= more
    ensures AheadOfBuffer(ws, more)
  {
    hide MetricBatches;
    forall i | 0 <= i < |ws| && ws[i].writer.ByErrorSend? && |MetricBatches(ws[..i])| == |MetricBatches(ws)|
      ensures Ahead(ws[..i], ws[i].reply.metrics, more)
    {
      assert Ahead(ws[..i], ws[i].reply.metrics, buffer);
    }
  }

  /** Between writes the metrics to be flushed only grow. */
  lemma UnflushedGrows(s: State, e: Event)
    requires Enabled(s, e) && !MoveOf(s, e).Write?
    ensures Unflushed(s) <= Unflushed(Step(s, e)) && Step(s, e).hist.writes == s.hist.writes
  {
    if !e.MetricSend? {
      assert Step(s, e).ms == s.ms && Step(s, e).buffer == s.buffer;
    }
    StepMoves(s, e);
    assert LedgerOf(Step(s, e)).writes == Step(s, e).hist.writes;
  }

  lemma WriteForetold(s: State, e: Event)
    requires Foretold(s) && Enabled(s, e) && MoveOf(s, e).Write?
    ensures var t := Step(s, e);
      AheadOfFlush(t.hist.writes) && AheadOfBuffer(t.hist.writes, Unflushed(t))
  {
    hide MetricBatches, AheadOfFlush, AheadOfBuffer;
    var w := MoveOf(s, e).written;
    assert Step(s, e).hist.writes == s.hist.writes + [w];
    if e.MetricSend? {
      FlushForetold(s.hist.writes, w);
    } else {
      assert Unflushed(Step(s, e)) == Unflushed(s);
      ErrorForetold(s.hist.writes, w, Unflushed(s));
    }
  }

  lemma ForetoldKept(s: State, e: Event)
    requires Foretold(s) && Enabled(s, e)
    ensures Foretold(Step(s, e))
  {
    hide MetricBatches, AheadOfFlush, AheadOfBuffer;
    ClearPendingKept(s, e);
    if MoveOf(s, e).Write? {
      WriteForetold(s, e);
    } else {
      UnflushedGrows(s, e);
      AheadOfMore(s.hist.writes, Unflushed(s), Unflushed(Step(s, e)));
    }
  }

  lemma AlwaysForetold(s: State, es: seq<Event>)
    requires Initial(s) && Run(s, es)
    ensures Foretold(End(s, es))
  {
    AnyRun(s, es);
    forall t: State, e: Event | Foretold(t) && Enabled(t, e) ensures Foretold(Step(t, e)) {
      ForetoldKept(t, e);
    }
    Invariance(Anything, Foretold, s, es);
  }

  // ----- main results

  /** In every interleaving of the two writers: leaving out errorSend's writes leaves every flushed
      metric once and in order; leaving out metricSend's leaves every error taken off its channel once
      and in order, the last one possibly still to be written; each write is the pair of what is buffered
      and the last error stored at its place in the log; and what errorSend shows of the buffer is what the
      next flush begins with, or what the last one held. */
  lemma SharedReply(s: State, es: seq<Event>)
    requires Initial(s) && Run(s, es)
    ensures var t := End(s, es);
      && Flat(MetricBatches(t.hist.writes)) <= Flat(t.hist.sendPuts)
      && ErrorTexts(t.hist.writes) <= t.hist.stored <= t.hist.errPuts
      && |t.hist.stored| <= |ErrorTexts(t.hist.writes)| + 1
      && AllExplained(t.hist.writes, t.hist.stored, Flat(t.hist.sendPuts))
      && AheadOfFlush(t.hist.writes) && AheadOfBuffer(t.hist.writes, Unflushed(t))
  {
    AlwaysReplies(s, es);
    AlwaysForetold(s, es);
    var l := LedgerOf(End(s, es));
    SumIsPrefix(Flat(l.puts), Flat(MetricBatches(l.writes)), l.pending, Flat(l.queue));
    StoredInOrder(End(s, es));
  }

  lemma {:induction false} StoredOnlyGrows(ws: seq<Written>, stored: seq<string>, sent: Batch, i: nat, j: nat)
    requires AllExplained(ws, stored, sent) && i <= j < |ws|
    ensures ws[i].stored <= ws[j].stored
    decreases j
  {
    if i < j {
      StoredOnlyGrows(ws, stored, sent, i, j - 1);
      assert Explained(ws[..j], ws[j], stored, sent);
    }
  }

  /** An error once written stays in the reply: every later write, by either thread, carries the same error
      until a newer one has been stored. */
  lemma ErrorStays(s: State, es: seq<Event>, i: nat, j: nat)
    requires Initial(s) && Run(s, es) && i <= j < |End(s, es).hist.writes|
    ensures var ws := End(s, es).hist.writes;
      ws[j].reply.error == ws[i].reply.error || ws[i].stored < ws[j].stored
  {
    hide MetricBatches, ErrorTexts, Flat, InPlace, AheadOfFlush, AheadOfBuffer, Initial;
    SharedReply(s, es);
    var t := End(s, es);
    var ws, sent := t.hist.writes, Flat(t.hist.sendPuts);
    StoredOnlyGrows(ws, t.hist.stored, sent, i, j);
    assert Explained(ws[..i], ws[i], t.hist.stored, sent) && Explained(ws[..j], ws[j], t.hist.stored, sent);
  }
}

/** With a fixed limit and no timer, metricSend's writes depend only on the concatenated input:
    the pipeline refines pure chunking. */
module PipelineChunking {
  import opened Seqs
  import opened Channels
  import opened Pipeline
  import opened PipelineSafety
  import opened PipelineLimits

  // ----- pure chunking

  /** The full chunks of n elements, from the front. */
  function Chunks<T>(n: nat, xs: seq<T>): seq<seq<T>>
    requires n > 0
    decreases |xs|
  {
    if |xs| < n then [] else [xs[..n]] + Chunks(n, xs[n..])
  }

  /** What is left after the full chunks. */
  function Remainder<T>(n: nat, xs: seq<T>): seq<T>
    requires n > 0
    decreases |xs|
  {
    if |xs| < n then xs else Remainder(n, xs[n..])
  }

  /** There is only one way to cut a sequence into n-sized pieces and a shorter rest. */
  lemma {:induction false} ChunksUnique<T>(n: nat, bs: seq<seq<T>>, rest: seq<T>)
    requires n > 0 && |rest| < n && forall b :: b in bs ==> |b| == n
    ensures Chunks(n, Flat(bs) + rest) == bs
    ensures Remainder(n, Flat(bs) + rest) == rest
  {
    if bs == [] {
      assert Flat(bs) + rest == rest;
    } else {
      var xs := Flat(bs) + rest;
      assert bs[0] in bs;
      assert xs == bs[0] + (Flat(bs[1..]) + rest);
      assert xs[..n] == bs[0] && xs[n..] == Flat(bs[1..]) + rest;
      forall b | b in bs[1..] ensures |b| == n {
        assert b in bs;
      }
      ChunksUnique(n, bs[1..], rest);
    }
  }

  /** The non-empty pieces, in order. */
  function NonEmpty<T>(bs: seq<seq<T>>): seq<seq<T>> {
    if bs == [] then []
    else
      var before := NonEmpty(bs[..|bs| - 1]);
      if bs[|bs| - 1] == [] then before else before + [bs[|bs| - 1]]
  }

  lemma NonEmptySnoc<T>(bs: seq<seq<T>>, b: seq<T>)
    ensures NonEmpty(bs + [b]) == if b == [] then NonEmpty(bs) else NonEmpty(bs) + [b]
  {
    assert (bs + [b])[..|bs|] == bs;
  }

  // ----- a positive limit

  predicate AllOfSize(bs: seq<Batch>, n: int) {
    forall i :: 0 <= i < |bs| ==> |bs[i]| == n
  }

  predicate Chunked(s: State, n: int) {
    && LimitIs(s, n) && n > 0
    && AllOfSize(MetricBatches(s.hist.writes), n)
    && (s.ms.MsWrite? || s.ms.MsClear? ==> s.ms.then_.NextItem?)
    && (if s.ms.MsFull? then |s.buffer| <= n
        else if s.ms.MsWrite? || s.ms.MsClear? then |s.buffer| == n
        else |s.buffer| < n)
  }

  lemma ChunkedKept(s: State, e: Event, n: int)
    requires Chunked(s, n) && Enabled(s, e) && Quiet(s, e)
    ensures Chunked(Step(s, e), n)
  {
    LimitKept(s, e, n);
    BatchesWritten(s, e);
    if !e.MetricSend? {
      assert Step(s, e).ms == s.ms && Step(s, e).buffer == s.buffer;
    }
  }

  /** Everything metricSend has looked at: the input without what is queued or in hand. */
  function Consumed(s: State): Batch
    requires LedgerOf(s).Balanced()
  {
    Flat(s.hist.sendPuts)[..|Flat(s.hist.sendPuts)| - |InHand(s)| - |Flat(s.sendChan.queue)|]
  }

  lemma ConsumedIsSentAndBuffered(s: State)
    requires LedgerOf(s).Balanced()
    ensures Consumed(s) == Flat(MetricBatches(s.hist.writes)) + Unflushed(s)
  {
    var sent := Flat(MetricBatches(s.hist.writes));
    assert Flat(s.hist.sendPuts) == (sent + Unflushed(s)) + (InHand(s) + Flat(s.sendChan.queue));
  }

  /** With a positive limit the writes are exactly the full chunks of the concatenated input, and the
      buffer is the remainder, however the plugin split that input into batches. */
  lemma ChunkingRefinement(s: State, es: seq<Event>)
    requires Initial(s) && s.maxBuffer > 0 && Run(s, es) && Within(Quiet, s, es)
    ensures LedgerOf(End(s, es)).Balanced()
    ensures var t := End(s, es);
      !Flushing(t) ==>
        && MetricBatches(t.hist.writes) == Chunks(s.maxBuffer, Consumed(t))
        && t.buffer == Remainder(s.maxBuffer, Consumed(t))
  {
    AlwaysSafe(s, es);
    var n := s.maxBuffer;
    var inv := (t: State) => Chunked(t, n);
    forall t: State, e: Event | inv(t) && Enabled(t, e) && Quiet(t, e) ensures inv(Step(t, e)) {
      ChunkedKept(t, e, n);
    }
    Invariance(Quiet, inv, s, es);
    var t := End(s, es);
    if !Flushing(t) {
      ConsumedIsSentAndBuffered(t);
      ChunksUnique(n, MetricBatches(t.hist.writes), t.buffer);
    }
  }

  // ----- limit zero

  /** The send channel is a queue of whole batches: what was put is what was taken, then what is queued. */
  predicate Fifo(s: State) {
    && |s.sendChan.queue| <= |s.hist.sendPuts|
    && s.hist.sendPuts == Taken(s) + s.sendChan.queue
  }

  /** The batches metricSend has dequeued. */
  function Taken(s: State): seq<Batch> {
    if |s.sendChan.queue| <= |s.hist.sendPuts|
    then s.hist.sendPuts[..|s.hist.sendPuts| - |s.sendChan.queue|] else []
  }

  lemma FifoMoves(l: Ledger, m: Move)
    requires CanMove(l, m) && |l.queue| <= |l.puts|
    requires l.puts == l.puts[..|l.puts| - |l.queue|] + l.queue
    ensures var n := Moved(l, m);
      && |n.queue| <= |n.puts|
      && n.puts == n.puts[..|n.puts| - |n.queue|] + n.queue
      && n.puts[..|n.puts| - |n.queue|]
         == l.puts[..|l.puts| - |l.queue|] + if m.Take? then [l.queue[0]] else []
  {
    var taken := l.puts[..|l.puts| - |l.queue|];
    match m {
      case Put(x) => assert l.puts + [x] == taken + (l.queue + [x]);
      case Take => assert l.puts == (taken + [l.queue[0]]) + l.queue[1..];
      case _ =>
    }
  }

  lemma FifoKept(s: State, e: Event)
    requires Fifo(s) && Enabled(s, e)
    ensures Fifo(Step(s, e))
    ensures Taken(Step(s, e)) == if MoveOf(s, e).Take? then Taken(s) + [s.sendChan.queue[0]] else Taken(s)
  {
    hide Step, MoveOf, Moved, CanMove, Enabled, Unflushed, InHand;
    StepMoves(s, e);
    FifoMoves(LedgerOf(s), MoveOf(s, e));
  }

  /** metricSend is moving a batch into the reply. */
  predicate Busy(s: State) {
    s.ms.MsItem? || s.ms.MsFull? || s.ms.MsTail? || s.ms.MsWrite?
  }

  predicate ZeroLimit(s: State) {
    && LimitIs(s, 0)
    && (s.ms.MsWrite? || s.ms.MsClear? ==> s.ms.then_.ToTimer?)
    && (!Busy(s) && !s.ms.MsClear? ==> s.buffer == [])
    && (s.ms.MsItem? ==> s.buffer != [] || s.ms.rest != [])
    && (s.ms.MsFull? || s.ms.MsTail? || s.ms.MsWrite? ==> s.buffer != [])
  }

  lemma ZeroLimitKept(s: State, e: Event)
    requires ZeroLimit(s) && Enabled(s, e) && Quiet(s, e)
    ensures ZeroLimit(Step(s, e))
  {
    LimitKept(s, e, 0);
    if !e.MetricSend? {
      assert Step(s, e).ms == s.ms && Step(s, e).buffer == s.buffer;
    }
  }

  /** The non-empty batches dequeued are the ones written and, if there is one, the one being moved. */
  predicate OneWriteEach(taken: seq<Batch>, batches: seq<Batch>, busy: bool, pending: Batch) {
    NonEmpty(taken) == if busy then batches + [pending] else batches
  }

  predicate Accounted(s: State) {
    OneWriteEach(Taken(s), MetricBatches(s.hist.writes), Busy(s), LedgerOf(s).pending)
  }

  lemma GetAccounts(s: State)
    requires ZeroLimit(s) && Accounted(s) && Fifo(s) && s.ms.MsGet? && MetricSendEnabled(s)
    ensures Accounted(MetricSendStep(s))
  {
    hide MetricBatches, Taken, NonEmpty, Fifo;
    BatchesWritten(s, MetricSend);
    FifoKept(s, MetricSend);
    if s.sendChan.queue != [] {
      var b := s.sendChan.queue[0];
      NonEmptySnoc(Taken(s), b);
      assert LedgerOf(s).pending + b == b;
      assert Busy(MetricSendStep(s)) == (b != []);
    }
  }

  lemma WriteAccounts(s: State)
    requires ZeroLimit(s) && Accounted(s) && Fifo(s) && s.ms.MsWrite?
    ensures Accounted(MetricSendStep(s))
  {
    hide MetricBatches, Taken, NonEmpty, Fifo;
    BatchesWritten(s, MetricSend);
    FifoKept(s, MetricSend);
    assert LedgerOf(s).pending == s.buffer;
  }

  lemma BusyKept(s: State)
    requires ZeroLimit(s) && MetricSendEnabled(s) && Quiet(s, MetricSend) && !s.ms.MsGet? && !s.ms.MsWrite?
    ensures Busy(MetricSendStep(s)) == Busy(s)
  {
  }

  lemma AccountedKept(s: State, e: Event)
    requires ZeroLimit(s) && Accounted(s) && Fifo(s) && Enabled(s, e) && Quiet(s, e)
    ensures Accounted(Step(s, e))
  {
    if e.MetricSend? && s.ms.MsGet? {
      GetAccounts(s);
    } else if e.MetricSend? && s.ms.MsWrite? {
      WriteAccounts(s);
    } else {
      BatchesWritten(s, e);
      FifoKept(s, e);
      PendingKept(s, e);
    }
  }

  lemma PendingKept(s: State, e: Event)
    requires ZeroLimit(s) && Enabled(s, e) && Quiet(s, e) && !(e.MetricSend? && (s.ms.MsGet? || s.ms.MsWrite?))
    ensures Busy(Step(s, e)) == Busy(s) && LedgerOf(Step(s, e)).pending == LedgerOf(s).pending
    ensures !MoveOf(s, e).Take?
  {
    StepMoves(s, e);
    if e.MetricSend? {
      BusyKept(s);
    } else {
      assert Step(s, e).ms == s.ms;
    }
  }

  predicate Immediate(s: State) {
    ZeroLimit(s) && Fifo(s) && Accounted(s)
  }

  lemma ImmediateKept(s: State, e: Event)
    requires Immediate(s) && Enabled(s, e) && Quiet(s, e)
    ensures Immediate(Step(s, e))
  {
    ZeroLimitKept(s, e);
    FifoKept(s, e);
    AccountedKept(s, e);
  }

  lemma StartsImmediate(s: State)
    requires Initial(s) && s.maxBuffer == 0
    ensures Immediate(s)
  {
    assert Taken(s) == [];
  }

  lemma LedgerPending(s: State)
    ensures LedgerOf(s).pending == Unflushed(s) + InHand(s)
  {
  }

  /** With limit zero the writes are exactly the non-empty batches, one write each: between batches
      nothing is buffered, and during one only that batch is still to be written. */
  lemma ImmediateRefinement(s: State, es: seq<Event>)
    requires Initial(s) && s.maxBuffer == 0 && Run(s, es) && Within(Quiet, s, es)
    ensures var t := End(s, es);
      && t.hist.sendPuts == Taken(t) + t.sendChan.queue
      && (Busy(t) ==> NonEmpty(Taken(t)) == MetricBatches(t.hist.writes) + [Unflushed(t) + InHand(t)])
      && (t.ms.MsGet? || t.ms.MsLoop? || t.ms.MsTimer? ==>
            t.buffer == [] && MetricBatches(t.hist.writes) == NonEmpty(Taken(t)))
  {
    hide MetricBatches, NonEmpty, Taken, LedgerOf;
    forall t: State, e: Event | Immediate(t) && Enabled(t, e) && Quiet(t, e) ensures Immediate(Step(t, e)) {
      ImmediateKept(t, e);
    }
    StartsImmediate(s);
    Invariance(Quiet, Immediate, s, es);
    LedgerPending(End(s, es));
  }
}

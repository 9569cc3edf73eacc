/** The two limits: how requests change them, and what metricSend writes under them. */
module PipelineLimits {
  import opened Seqs
  import opened Channels
  import opened Pipeline
  import opened PipelineSafety

  // ----- re-negotiation

  /** The last positive buffer limit asked for, or else the initial one. */
  function BufferLimit(args: seq<CollectArg>, initial: int): int {
    if args == [] then initial
    else if args[|args| - 1].buffer > 0 then args[|args| - 1].buffer
    else BufferLimit(args[..|args| - 1], initial)
  }

  function DurationLimit(args: seq<CollectArg>, initial: int): int {
    if args == [] then initial
    else if args[|args| - 1].duration > 0 then args[|args| - 1].duration
    else DurationLimit(args[..|args| - 1], initial)
  }

  function AllButLast<T>(s: seq<T>): seq<T> {
    if s == [] then [] else s[..|s| - 1]
  }

  /** The requests whose buffer (duration) limit streamRecv has already looked at. */
  function BufferSeen(s: State): seq<CollectArg> {
    if s.sr.SrDuration? || s.sr.SrBuffer? then AllButLast(s.hist.args) else s.hist.args
  }

  function DurationSeen(s: State): seq<CollectArg> {
    if s.sr.SrDuration? then AllButLast(s.hist.args) else s.hist.args
  }

  /** The request streamRecv is working on is the last one read. */
  predicate Reading(s: State) {
    match s.sr
    case SrDuration(a) => s.hist.args != [] && s.hist.args[|s.hist.args| - 1] == a
    case SrBuffer(a) => s.hist.args != [] && s.hist.args[|s.hist.args| - 1] == a
    case SrPut(a) => s.hist.args != [] && s.hist.args[|s.hist.args| - 1] == a
    case _ => true
  }

  predicate Negotiated(s: State, buffer: int, duration: int) {
    && Reading(s)
    && s.maxBuffer == BufferLimit(BufferSeen(s), buffer)
    && s.maxDuration == DurationLimit(DurationSeen(s), duration)
  }

  lemma StreamRecvNegotiates(s: State, arg: CollectArg, buffer: int, duration: int)
    requires Negotiated(s, buffer, duration) && StreamRecvEnabled(s)
    ensures Negotiated(StreamRecvStep(s, arg), buffer, duration)
  {
    if s.sr.SrRead? {
      assert (s.hist.args + [arg])[..|s.hist.args|] == s.hist.args;
    }
  }

  lemma OthersNegotiate(s: State, e: Event, buffer: int, duration: int)
    requires Negotiated(s, buffer, duration) && Enabled(s, e) && !e.StreamRecv?
    ensures Negotiated(Step(s, e), buffer, duration)
  {
    assert Step(s, e).sr == s.sr && Step(s, e).hist.args == s.hist.args
        && Step(s, e).maxBuffer == s.maxBuffer && Step(s, e).maxDuration == s.maxDuration;
  }

  /** Across any sequence of requests each limit is the last positive value received, or the initial one. */
  lemma LimitsAreLastPositive(s: State, es: seq<Event>)
    requires Initial(s) && Run(s, es)
    ensures var t := End(s, es);
      && t.maxBuffer == BufferLimit(BufferSeen(t), s.maxBuffer)
      && t.maxDuration == DurationLimit(DurationSeen(t), s.maxDuration)
  {
    var inv := (t: State) => Negotiated(t, s.maxBuffer, s.maxDuration);
    AnyRun(s, es);
    forall t: State, e: Event | inv(t) && Enabled(t, e) ensures inv(Step(t, e)) {
      if e.StreamRecv? {
        StreamRecvNegotiates(t, e.arg, s.maxBuffer, s.maxDuration);
      } else {
        OthersNegotiate(t, e, s.maxBuffer, s.maxDuration);
      }
    }
    Invariance(Anything, inv, s, es);
  }

  // ----- a bounded buffer

  /** metricSend is between a full-buffer test and the end of the flush it leads to. */
  predicate Flushing(s: State) {
    s.ms.MsFull? || (s.ms.MsWrite? && s.ms.then_.NextItem?) || (s.ms.MsClear? && s.ms.then_.NextItem?)
  }

  /** The buffer never passes the limit, and is below it between appends. */
  predicate WithinLimit(s: State) {
    |s.buffer| <= s.maxBuffer && (!Flushing(s) ==> |s.buffer| < s.maxBuffer)
  }

  /** What goes with it: the limit is positive, and the flush after a batch under limit zero never starts. */
  predicate PositiveLimit(s: State) {
    s.maxBuffer > 0 && (s.ms.MsWrite? || s.ms.MsClear? ==> !s.ms.then_.ToTimer?)
  }

  /** A new buffer limit exceeds what is buffered when it takes effect, or equals it while a flush is due. */
  predicate Roomy(s: State, e: Event) {
    e.StreamRecv? && s.sr.SrBuffer? && s.sr.arg.buffer > 0 ==>
      |s.buffer| < s.sr.arg.buffer || (|s.buffer| == s.sr.arg.buffer && Flushing(s))
  }

  lemma PositiveLimitKept(s: State, e: Event)
    requires PositiveLimit(s) && Enabled(s, e)
    ensures PositiveLimit(Step(s, e))
  {
    if !e.MetricSend? {
      assert Step(s, e).ms == s.ms;
    }
  }

  /** A step keeps the buffer within the limit exactly when it leaves room. */
  lemma RoomyStep(s: State, e: Event)
    requires WithinLimit(s) && PositiveLimit(s) && Enabled(s, e)
    ensures WithinLimit(Step(s, e)) <==> Roomy(s, e)
  {
    if !e.MetricSend? {
      assert Step(s, e).ms == s.ms && Step(s, e).buffer == s.buffer;
    }
  }

  /** inv holds in every state the run passes through. */
  ghost predicate Throughout(inv: State -> bool, s: State, es: seq<Event>)
    requires Run(s, es)
    decreases |es|
  {
    inv(s) && (es != [] ==> Throughout(inv, Step(s, es[0]), es[1..]))
  }

  lemma {:induction false} RoomyThroughout(s: State, es: seq<Event>)
    requires WithinLimit(s) && PositiveLimit(s) && Run(s, es)
    ensures Throughout(WithinLimit, s, es) <==> Within(Roomy, s, es)
    decreases |es|
  {
    if es != [] {
      RoomyStep(s, es[0]);
      PositiveLimitKept(s, es[0]);
      if Roomy(s, es[0]) {
        RoomyThroughout(Step(s, es[0]), es[1..]);
      } else if es[1..] == [] {
        assert !Throughout(WithinLimit, Step(s, es[0]), es[1..]);
      }
    }
  }

  /** A call that starts with a positive limit keeps its buffer within the limit all along exactly when
      every new limit leaves room. */
  lemma BufferStaysBounded(s: State, es: seq<Event>)
    requires Initial(s) && s.maxBuffer > 0 && Run(s, es)
    ensures Throughout(WithinLimit, s, es) <==> Within(Roomy, s, es)
  {
    RoomyThroughout(s, es);
  }

  /** Then no write, by either writer, exceeds the limit in force. */
  lemma WritesStayBounded(s: State, es: seq<Event>, e: Event)
    requires Initial(s) && s.maxBuffer > 0 && Run(s, es) && Within(Roomy, s, es) && Enabled(End(s, es), e)
    ensures var t := End(s, es); MoveOf(t, e).Write? ==> |MoveOf(t, e).written.reply.metrics| <= t.maxBuffer
  {
    var inv := (t: State) => WithinLimit(t) && PositiveLimit(t);
    forall t: State, e: Event | inv(t) && Enabled(t, e) && Roomy(t, e) ensures inv(Step(t, e)) {
      RoomyStep(t, e);
      PositiveLimitKept(t, e);
    }
    Invariance(Roomy, inv, s, es);
  }

  // ----- quiet runs: no new limit, no timer

  predicate Quiet(s: State, e: Event) {
    && (e.StreamRecv? && s.sr.SrRead? ==> e.arg.buffer <= 0)
    && (e.MetricSend? && s.ms.MsTimer? ==> !TimerFires(s))
  }

  predicate LimitIs(s: State, n: int) {
    && s.maxBuffer == n
    && (s.sr.SrDuration? || s.sr.SrBuffer? ==> s.sr.arg.buffer <= 0)
  }

  lemma LimitKept(s: State, e: Event, n: int)
    requires LimitIs(s, n) && Enabled(s, e) && Quiet(s, e)
    ensures LimitIs(Step(s, e), n)
  {
    if e.StreamRecv? {
    } else {
      assert Step(s, e).sr == s.sr && Step(s, e).maxBuffer == s.maxBuffer;
    }
  }

  // ----- a limit that no longer leaves room

  /** metricSend is past the last point where the size test could see this buffer at the limit n. */
  predicate Missed(s: State, n: int) {
    && !s.ms.MsWrite? && !s.ms.MsClear?
    && (n < 0 || (0 < n <= |s.buffer| && (s.ms.MsFull? ==> n < |s.buffer|)))
  }

  /** Only a new limit or the timer decides whether a positive limit is missed: other steps keep it so,
      and keep it otherwise. */
  lemma MissedStep(s: State, e: Event, n: int)
    requires LimitIs(s, n) && n > 0 && Enabled(s, e) && Quiet(s, e)
    ensures Missed(Step(s, e), n) <==> Missed(s, n)
  {
    if !e.MetricSend? {
      assert Step(s, e).ms == s.ms && Step(s, e).buffer == s.buffer;
    }
  }

  predicate Stuck(s: State, n: int, batches: seq<Batch>, size: nat) {
    LimitIs(s, n) && Missed(s, n) && |s.buffer| >= size && MetricBatches(s.hist.writes) == batches
  }

  lemma StuckInMetricSend(s: State, n: int, batches: seq<Batch>, size: nat)
    requires Stuck(s, n, batches, size) && MetricSendEnabled(s) && Quiet(s, MetricSend)
    ensures Stuck(MetricSendStep(s), n, batches, size)
  {
    hide MetricBatches;
    LimitKept(s, MetricSend, n);
    BatchesWritten(s, MetricSend);
  }

  lemma StuckKept(s: State, e: Event, n: int, batches: seq<Batch>, size: nat)
    requires Stuck(s, n, batches, size) && Enabled(s, e) && Quiet(s, e)
    ensures Stuck(Step(s, e), n, batches, size)
  {
    hide MetricBatches;
    if e.MetricSend? {
      StuckInMetricSend(s, n, batches, size);
    } else {
      LimitKept(s, e, n);
      BatchesWritten(s, e);
      assert Step(s, e).ms == s.ms && Step(s, e).buffer == s.buffer;
    }
  }

  /** A limit that is negative, or that the buffer has reached unseen by the size test, is never met
      again: metricSend writes nothing more and the buffer only grows, until the timer or a new limit. */
  lemma LoweredLimitNeverFlushes(s: State, es: seq<Event>)
    requires LimitIs(s, s.maxBuffer) && Missed(s, s.maxBuffer) && Run(s, es) && Within(Quiet, s, es)
    ensures MetricBatches(End(s, es).hist.writes) == MetricBatches(s.hist.writes)
    ensures |End(s, es).buffer| >= |s.buffer|
  {
    var bs := MetricBatches(s.hist.writes);
    var inv := (t: State) => Stuck(t, s.maxBuffer, bs, |s.buffer|);
    forall t: State, e: Event | inv(t) && Enabled(t, e) && Quiet(t, e) ensures inv(Step(t, e)) {
      StuckKept(t, e, s.maxBuffer, bs, |s.buffer|);
    }
    Invariance(Quiet, inv, s, es);
  }
}

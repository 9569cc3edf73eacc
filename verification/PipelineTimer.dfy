/** When metricSend writes without a full buffer: what starts a flush, and what the timer measures. */
module PipelineTimer {
  import opened Seqs
  import opened Channels
  import opened Pipeline
  import opened PipelineSafety
  import opened PipelineLimits

  /** The end of the last flush of the run, or `since` if it has none. */
  function LastFlush(since: int, s: State, es: seq<Event>): int
    requires Run(s, es)
    decreases |es|
  {
    if es == [] then since
    else LastFlush(if es[0].MetricSend? && s.ms.MsClear? then s.clock else since, Step(s, es[0]), es[1..])
  }

  lemma StartMoves(s: State, e: Event)
    requires Enabled(s, e)
    ensures Step(s, e).start == if e.MetricSend? && s.ms.MsClear? then s.clock else s.start
  {
  }

  /** The start time is when the last flush ended, by the clock of that moment. */
  lemma {:induction false} StartIsLastFlush(s: State, es: seq<Event>)
    requires Run(s, es)
    ensures End(s, es).start == LastFlush(s.start, s, es)
    decreases |es|
  {
    if es != [] {
      StartMoves(s, es[0]);
      StartIsLastFlush(Step(s, es[0]), es[1..]);
    }
  }

  /** A nanosecond count of at least so many seconds. */
  predicate AtLeast(nanos: int, seconds: int) { nanos >= seconds * 1_000_000_000 }

  /** In every run, a step of metricSend starts a flush exactly when an append has just met the buffer limit, a
      batch has ended under limit zero, or the timer is tested and the seconds last asked for have passed
      since the last flush ended, or since the call began. */
  lemma FlushesStart(s: State, es: seq<Event>)
    requires Initial(s) && Run(s, es) && MetricSendEnabled(End(s, es))
    ensures var t := End(s, es);
      MetricSendStep(t).ms.MsWrite? <==>
        || (t.ms.MsFull? && |t.buffer| == BufferLimit(BufferSeen(t), s.maxBuffer))
        || (t.ms.MsTail? && BufferLimit(BufferSeen(t), s.maxBuffer) == 0)
        || (t.ms.MsTimer?
            && AtLeast(t.clock - LastFlush(s.clock, s, es), DurationLimit(DurationSeen(t), s.maxDuration)))
  {
    hide Run, End;
    StartIsLastFlush(s, es);
    LimitsAreLastPositive(s, es);
    FlushStarts(End(s, es));
  }

  lemma FlushStarts(t: State)
    requires MetricSendEnabled(t)
    ensures MetricSendStep(t).ms.MsWrite? <==>
      || (t.ms.MsFull? && |t.buffer| == t.maxBuffer)
      || (t.ms.MsTail? && t.maxBuffer == 0)
      || (t.ms.MsTimer? && AtLeast(t.clock - t.start, t.maxDuration))
  {
    if t.ms.MsClear? {
      assert !Resume(t.ms.then_).MsWrite?;
    }
  }

  /** No write of metricSend is empty. */
  predicate NeverEmpty(s: State) {
    forall i :: 0 <= i < |s.hist.writes| ==>
      s.hist.writes[i].writer.ByErrorSend? || s.hist.writes[i].reply.metrics != []
  }

  /** metricSend never writes a reply without metrics, in any run. */
  lemma WritesAreNotEmpty(s: State, es: seq<Event>)
    requires Initial(s) && Run(s, es)
    ensures NeverEmpty(End(s, es))
  {
    AnyRun(s, es);
    forall t: State, e: Event | NeverEmpty(t) && Enabled(t, e) ensures NeverEmpty(Step(t, e)) {
      StepMoves(t, e);
      assert Step(t, e).hist.writes == LedgerOf(Step(t, e)).writes;
    }
    Invariance(Anything, NeverEmpty, s, es);
  }
}

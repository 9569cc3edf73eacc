/** StreamCollectorImpl as its methods update it in place, one turn of each worker's loop at a time. */
module StreamCollector {
  import opened Options
  import opened Seqs
  import opened Clocks
  import opened Channels
  import opened Pipeline
  import opened PipelineSafety
  import opened PipelineChunking
  import opened RandoPlugin

  // ----- the batching loop as a function

  /** What appending `mets` one at a time to `buf` flushes under limit n, and what stays buffered. */
  function Batched(n: int, buf: Batch, mets: Batch): (seq<Batch>, Batch)
    decreases mets
  {
    if mets == [] then ([], buf)
    else
      var b := buf + [mets[0]];
      if |b| == n then
        var (ws, rest) := Batched(n, [], mets[1..]);
        ([b] + ws, rest)
      else Batched(n, b, mets[1..])
  }

  /** Under a positive limit the loop cuts (buffer ++ batch) into full chunks and keeps the remainder. */
  lemma {:induction false} BatchedIsChunking(n: nat, buf: Batch, mets: Batch)
    requires n > 0 && |buf| < n
    ensures Batched(n, buf, mets) == (Chunks(n, buf + mets), Remainder(n, buf + mets))
    decreases mets
  {
    if mets == [] {
      assert buf + mets == buf;
    } else {
      var b := buf + [mets[0]];
      assert buf + mets == b + mets[1..];
      if |b| == n {
        BatchedIsChunking(n, [], mets[1..]);
        assert [] + mets[1..] == mets[1..];
        assert (b + mets[1..])[..n] == b && (b + mets[1..])[n..] == mets[1..];
      } else {
        BatchedIsChunking(n, b, mets[1..]);
      }
    }
  }

  /** Under any other limit the loop itself flushes nothing. */
  lemma {:induction false} BatchedNeverFlushes(n: int, buf: Batch, mets: Batch)
    requires n <= |buf|
    ensures Batched(n, buf, mets) == ([], buf + mets)
    decreases mets
  {
    if mets == [] {
      assert buf + mets == buf;
    } else {
      BatchedNeverFlushes(n, buf + [mets[0]], mets[1..]);
      assert buf + mets == buf + [mets[0]] + mets[1..];
    }
  }

  /** One append of the loop. */
  lemma BatchedStep(n: int, buf: Batch, mets: Batch, i: nat)
    requires i < |mets|
    ensures var b := buf + [mets[i]];
      Batched(n, buf, mets[i..])
      == if |b| == n then ([b] + Batched(n, [], mets[i + 1..]).0, Batched(n, [], mets[i + 1..]).1)
         else Batched(n, b, mets[i + 1..])
  {
    assert mets[i..][1..] == mets[i + 1..];
  }

  lemma BatchedAtEnd(n: int, buf: Batch, mets: Batch)
    ensures Batched(n, buf, mets[|mets|..]) == ([], buf)
  {
  }

  function Flushed(b: Batch): seq<Batch> { if b == [] then [] else [b] }

  /** What metricSend does with one get: the batch and, under limit zero, the flush that follows it. */
  function BatchTurn(n: int, buf: Batch, mets: Batch): (seq<Batch>, Batch) {
    var (ws, b) := Batched(n, buf, mets);
    if mets != [] && n == 0 then (ws + Flushed(b), []) else (ws, b)
  }

  /** One turn of metricSend: the batches written, the buffer and the start time it leaves, and how many
      readings of the clock it takes, the i-th being the first. */
  datatype MetricTurn = MetricTurn(writes: seq<Batch>, buffer: Batch, start: int, readings: nat)

  function TurnOfMetrics(n: int, duration: int, buf: Batch, mets: Batch, begun: int, clock: nat -> int,
      i: nat): MetricTurn {
    var (ws, b) := BatchTurn(n, buf, mets);
    var start := StartAfter(ws, begun, clock, i);
    if clock(i + |ws|) - start >= duration * NANOS_PER_SECOND
    then MetricTurn(ws + Flushed(b), [], clock(i + |ws| + 1), |ws| + 2)
    else MetricTurn(ws, b, start, |ws| + 1)
  }

  /** Every flush takes a reading; the last one is the start time. */
  function StartAfter(ws: seq<Batch>, begun: int, clock: nat -> int, i: nat): int {
    if ws == [] then begun else clock(i + |ws| - 1)
  }

  /** A turn that gets no metrics flushes only for the timer, whatever the limit. */
  lemma IdleTurn(n: int, duration: int, buf: Batch, begun: int, clock: nat -> int, i: nat)
    ensures TurnOfMetrics(n, duration, buf, [], begun, clock, i)
         == if clock(i) - begun >= duration * 1_000_000_000 then MetricTurn(Flushed(buf), [], clock(i + 1), 2)
            else MetricTurn([], buf, begun, 1)
  {
  }

  /** One turn of PutSendMetsAndErrMsg, with the vector it hands to get from turn to turn. */
  datatype PutTurn = PutTurn(thrown: bool, send: Chan<Metric>, err: Chan<char>, recv: Chan<Metric>, mets: Batch,
      plugin: Plugin)

  function TurnOfPuts(send: Chan<Metric>, err: Chan<char>, recv: Chan<Metric>, mets: Batch, p: Plugin): PutTurn {
    if p.putMets && send.closed then PutTurn(true, send, err, recv, mets, p)
    else
      var send' := if p.putMets then send.Put(p.out) else send;
      var p' := p.(putMets := false);
      if p.putErr && err.closed then PutTurn(true, send', err, recv, mets, p')
      else TurnOfGet(send', if p.putErr then err.Put(p.err) else err, recv, mets, p'.(putErr := false))
  }

  function TurnOfGet(send: Chan<Metric>, err: Chan<char>, recv: Chan<Metric>, mets: Batch, p: Plugin): PutTurn {
    if recv.queue == [] then PutTurn(false, send, err, recv, mets, p)
    else
      var got := mets + recv.queue[0];
      PutTurn(false, send, err, recv.Rest(), got, p.(inp := got, getMets := true))
  }

  function Replies(ws: seq<Batch>, error: string): (r: seq<Reply>)
    ensures |r| == |ws|
    ensures forall i :: 0 <= i < |ws| ==> r[i] == Reply(ws[i], error)
  {
    Map((b: Batch) => Reply(b, error), ws)
  }

  lemma RepliesConcat(a: seq<Batch>, b: seq<Batch>, error: string)
    ensures Replies(a + b, error) == Replies(a, error) + Replies(b, error)
  {
  }

  lemma NothingReplied(error: string)
    ensures Replies([], error) == []
  {
  }

  // ----- the objects

  class MetricsReply {
    var metrics: Batch

    constructor ()
      ensures metrics == []
    {
      metrics := [];
    }
  }

  class ErrReply {
    var error: string

    constructor ()
      ensures error == ""
    {
      error := "";
    }
  }

  /** The message both senders write; its two parts are also reached directly. */
  class CollectReply {
    const metricsReply: MetricsReply
    const error: ErrReply

    constructor (metricsReply: MetricsReply, error: ErrReply)
      ensures this.metricsReply == metricsReply && this.error == error
    {
      this.metricsReply, this.error := metricsReply, error;
    }

    function Value(): Reply
      reads this, metricsReply, error
    {
      Reply(metricsReply.metrics, error.error)
    }
  }

  /** The RPC stream: Write appends a copy of the message to what the peer sees. */
  class ReplyStream {
    var log: seq<Reply>

    constructor ()
      ensures log == []
    {
      log := [];
    }

    method Write(r: CollectReply)
      modifies this
      ensures log == old(log) + [r.Value()]
    {
      log := log + [r.Value()];
    }
  }

  class StreamCollectorImpl {
    const collectReply: CollectReply
    const metricsReply: MetricsReply
    const errReply: ErrReply
    const sendChan: StreamChannel<Metric>
    const recvChan: StreamChannel<Metric>
    const errChan: StreamChannel<char>
    var maxMetricsBuffer: int
    var maxCollectDuration: int

    /** metricsReply and errReply alias the parts of collectReply. */
    ghost predicate Valid()
      reads this
    {
      && collectReply.metricsReply == metricsReply && collectReply.error == errReply
      && sendChan != recvChan
    }

    constructor (maxMetricsBuffer: int, maxCollectDuration: int)
      ensures Valid()
      ensures this.maxMetricsBuffer == maxMetricsBuffer && this.maxCollectDuration == maxCollectDuration
      ensures collectReply.Value() == Reply([], "")
      ensures sendChan.Value() == recvChan.Value() == Chan([], false) && errChan.Value() == Chan([], false)
      ensures fresh(metricsReply) && fresh(errReply) && fresh(sendChan) && fresh(recvChan) && fresh(errChan)
    {
      var m := new MetricsReply();
      var e := new ErrReply();
      metricsReply, errReply := m, e;
      collectReply := new CollectReply(m, e);
      sendChan := new StreamChannel();
      recvChan := new StreamChannel();
      errChan := new StreamChannel();
      this.maxMetricsBuffer, this.maxCollectDuration := maxMetricsBuffer, maxCollectDuration;
    }

    /** Writes the whole reply unless it has no metrics. */
    method SendReply(stream: ReplyStream)
      requires Valid()
      modifies stream
      ensures stream.log == old(stream.log)
                            + if metricsReply.metrics == [] then [] else [Reply(metricsReply.metrics, errReply.error)]
    {
      if |collectReply.metricsReply.metrics| == 0 {
        return;
      }
      stream.Write(collectReply);
    }

    /** sendReply, clear_metrics and the new start time, as every flush does them. */
    method Flush(stream: ReplyStream, clock: SystemClock) returns (start: int)
      requires Valid()
      modifies stream, metricsReply, clock
      ensures clock.next == old(clock.next) + 1 && start == clock.readings(old(clock.next))
      ensures metricsReply.metrics == []
      ensures stream.log == old(stream.log)
                            + Replies(Flushed(old(metricsReply.metrics)), errReply.error)
    {
      SendReply(stream);
      metricsReply.metrics := [];
      start := clock.Now();
    }

    /** The loop over one batch. */
    method AppendAll(mets: Batch, stream: ReplyStream, begun: int, clock: SystemClock) returns (start: int)
      requires Valid()
      modifies stream, metricsReply, clock
      ensures var (ws, rest) := Batched(maxMetricsBuffer, old(metricsReply.metrics), mets);
        && stream.log == old(stream.log) + Replies(ws, errReply.error)
        && metricsReply.metrics == rest
        && clock.next == old(clock.next) + |ws|
        && start == StartAfter(ws, begun, clock.readings, old(clock.next))
    {
      hide Batched, Replies;
      NothingReplied(errReply.error);
      start := begun;
      ghost var flushed: seq<Batch> := [];
      ghost var all := Batched(maxMetricsBuffer, metricsReply.metrics, mets);
      var i := 0;
      assert mets[0..] == mets && flushed + all.0 == all.0;
      while i < |mets|
        invariant 0 <= i <= |mets|
        invariant stream.log == old(stream.log) + Replies(flushed, errReply.error)
        invariant var (ws, rest) := Batched(maxMetricsBuffer, metricsReply.metrics, mets[i..]);
          all == (flushed + ws, rest)
        invariant clock.next == old(clock.next) + |flushed|
        invariant start == StartAfter(flushed, begun, clock.readings, old(clock.next))
      {
        BatchedStep(maxMetricsBuffer, metricsReply.metrics, mets, i);
        metricsReply.metrics := metricsReply.metrics + [mets[i]];
        if |metricsReply.metrics| == maxMetricsBuffer {
          RepliesConcat(flushed, [metricsReply.metrics], errReply.error);
          ghost var later := Batched(maxMetricsBuffer, [], mets[i + 1..]).0;
          assert flushed + ([metricsReply.metrics] + later) == (flushed + [metricsReply.metrics]) + later;
          flushed := flushed + [metricsReply.metrics];
          start := Flush(stream, clock);
        }
        i := i + 1;
      }
      BatchedAtEnd(maxMetricsBuffer, metricsReply.metrics, mets);
    }

    /** What one turn of metricSend's loop does with the batch get delivered. */
    method TakeBatch(mets: Batch, stream: ReplyStream, begun: int, clock: SystemClock) returns (start: int)
      requires Valid()
      modifies stream, metricsReply, clock
      ensures var (ws, rest) := BatchTurn(maxMetricsBuffer, old(metricsReply.metrics), mets);
        && stream.log == old(stream.log) + Replies(ws, errReply.error)
        && metricsReply.metrics == rest
        && clock.next == old(clock.next) + |ws|
        && start == StartAfter(ws, begun, clock.readings, old(clock.next))
    {
      start := begun;
      if mets != [] {
        ghost var ws := Batched(maxMetricsBuffer, metricsReply.metrics, mets).0;
        start := AppendAll(mets, stream, start, clock);
        if maxMetricsBuffer == 0 {
          BatchedNeverFlushes(0, old(metricsReply.metrics), mets);
          RepliesConcat(ws, Flushed(metricsReply.metrics), errReply.error);
          start := Flush(stream, clock);
        }
      }
    }

    /** The timer test that ends a turn: one reading for the test, another for a new start. */
    method FlushIfLate(stream: ReplyStream, begun: int, clock: SystemClock) returns (start: int)
      requires Valid()
      modifies stream, metricsReply, clock
      ensures var late := clock.readings(old(clock.next)) - begun >= maxCollectDuration * 1_000_000_000;
        && stream.log == old(stream.log)
            + Replies(if late then Flushed(old(metricsReply.metrics)) else [], errReply.error)
        && metricsReply.metrics == (if late then [] else old(metricsReply.metrics))
        && start == (if late then clock.readings(old(clock.next) + 1) else begun)
        && clock.next == old(clock.next) + if late then 2 else 1
    {
      start := begun;
      var now := clock.Now();
      if now - start >= maxCollectDuration * NANOS_PER_SECOND {
        start := Flush(stream, clock);
      }
    }

    /** What a turn does with what get delivered; nothing, when get failed and left `mets` empty. */
    method SendBatch(mets: Batch, stream: ReplyStream, begun: int, clock: SystemClock) returns (start: int)
      requires Valid()
      modifies stream, metricsReply, clock
      ensures
        var t := TurnOfMetrics(maxMetricsBuffer, maxCollectDuration, old(metricsReply.metrics), mets, begun,
                               clock.readings, old(clock.next));
        && stream.log == old(stream.log) + Replies(t.writes, errReply.error)
        && metricsReply.metrics == t.buffer && start == t.start && clock.next == old(clock.next) + t.readings
    {
      hide BatchTurn, Replies;
      ghost var (ws, b) := BatchTurn(maxMetricsBuffer, metricsReply.metrics, mets);
      NothingReplied(errReply.error);
      start := TakeBatch(mets, stream, begun, clock);
      RepliesConcat(ws, Flushed(b), errReply.error);
      assert stream.log == old(stream.log) + Replies(ws, errReply.error);
      start := FlushIfLate(stream, start, clock);
    }

    /** One turn of metricSend's loop once get can return. */
    method MetricSendTurn(stream: ReplyStream, begun: int, clock: SystemClock) returns (start: int)
      requires Valid() && sendChan.Value().Ready()
      modifies stream, metricsReply, sendChan, clock
      ensures sendChan.Value() == old(sendChan.Value()).Rest()
      ensures
        var t := TurnOfMetrics(maxMetricsBuffer, maxCollectDuration, old(metricsReply.metrics),
                               old(sendChan.Value()).Front(), begun, clock.readings, old(clock.next));
        && stream.log == old(stream.log) + Replies(t.writes, errReply.error)
        && metricsReply.metrics == t.buffer && start == t.start && clock.next == old(clock.next) + t.readings
    {
      hide TurnOfMetrics, Replies;
      ghost var front := sendChan.Value().Front();
      var ok, mets := sendChan.Get([], true);
      assert mets == front;
      start := SendBatch(mets, stream, begun, clock);
    }

    /** One turn of errorSend's loop once get can return: the whole reply is written, metrics and all. */
    method ErrorSendTurn(stream: ReplyStream)
      requires Valid() && errChan.Value().Ready()
      modifies stream, errReply, errChan
      ensures errChan.Value() == old(errChan.Value()).Rest()
      ensures errReply.error == if old(errChan.queue) == [] then old(errReply.error) else old(errChan.queue)[0]
      ensures stream.log == old(stream.log)
                            + if old(errChan.queue) == [] then []
                                else [Reply(metricsReply.metrics, old(errChan.queue)[0])]
    {
      var ok, err := errChan.Get("", true);
      if ok {
        assert err == old(errChan.queue)[0];
        errReply.error := err;
        stream.Write(collectReply);
      }
    }

    /** One turn of streamRecv's loop on the request read. */
    method StreamRecvTurn(arg: CollectArg) returns (thrown: bool)
      requires Valid()
      modifies this`maxMetricsBuffer, this`maxCollectDuration, recvChan
      ensures maxCollectDuration == if arg.duration > 0 then arg.duration else old(maxCollectDuration)
      ensures maxMetricsBuffer == if arg.buffer > 0 then arg.buffer else old(maxMetricsBuffer)
      ensures thrown == (arg.metrics.Some? && old(recvChan.closed))
      ensures recvChan.Value() == if arg.metrics.Some? && !thrown then old(recvChan.Value()).Put(arg.metrics.value)
                                  else old(recvChan.Value())
    {
      if arg.duration > 0 {
        maxCollectDuration := arg.duration;
      }
      if arg.buffer > 0 {
        maxMetricsBuffer := arg.buffer;
      }
      thrown := false;
      if arg.metrics.Some? {
        thrown := recvChan.Put(arg.metrics.value);
      }
    }

    /** One turn of PutSendMetsAndErrMsg's loop; the accumulator is handed on from turn to turn. */
    method PutSendTurn(plugin: Rando, recvMets: Batch) returns (thrown: bool, mets: Batch)
      requires Valid() && plugin.Valid()
      modifies plugin, sendChan, recvChan, errChan
      ensures plugin.Valid()
      ensures PutTurn(thrown, sendChan.Value(), errChan.Value(), recvChan.Value(), mets, plugin.View())
           == TurnOfPuts(old(sendChan.Value()), old(errChan.Value()), old(recvChan.Value()), recvMets,
               old(plugin.View()))
    {
      mets := recvMets;
      thrown := false;
      if plugin.isPutMets {
        thrown := sendChan.Put(plugin.metricsOut);
        if thrown {
          return;
        }
        plugin.SetPutMets(false);
      }
      if plugin.isPutErr {
        thrown := errChan.Put(plugin.errMsg);
        if thrown {
          return;
        }
        plugin.SetPutErr(false);
      }
      var got;
      got, mets := recvChan.Get(mets, false);
      if got {
        plugin.GetMetricsIn(mets);
      }
    }

    /** What metricSend, errorSend and streamRecv do after their loops, each with the channel it gets from
        or puts to. */
    static method CloseAndMark<E>(chan: StreamChannel<E>, plugin: Rando)
      requires plugin.Valid()
      modifies chan, plugin
      ensures plugin.Valid()
      ensures chan.Value() == old(chan.Value()).Close()
      ensures plugin.View() == old(plugin.View()).(cancelled := true)
    {
      chan.Close();
      plugin.SetContextCancelled(true);
    }
  }

  // ----- the state machine agrees with the methods

  /** metricSend's own record of what it wrote. */
  function Records(ws: seq<Batch>, error: string, stored: nat): (r: seq<Written>)
    ensures |r| == |ws|
    ensures forall i :: 0 <= i < |ws| ==> r[i] == Written(ByMetricSend, Reply(ws[i], error), stored)
  {
    Map((b: Batch) => Written(ByMetricSend, Reply(b, error), stored), ws)
  }

  /** s after some writes of metricSend, with the buffer, the start time and the clock as given. */
  function Wrote(s: State, ms: MetricSendPc, ws: seq<Batch>, buffer: Batch, start: int, clock: int): State {
    s.(ms := ms, buffer := buffer, start := start, clock := clock,
       hist := s.hist.(writes := s.hist.writes + Records(ws, s.error, |s.hist.stored|)))
  }

  lemma WroteTwice(s: State, ms: MetricSendPc, ws: seq<Batch>, b: Batch, t: int, c: int,
                   ms': MetricSendPc, ws': seq<Batch>, b': Batch, t': int, c': int)
    ensures Wrote(Wrote(s, ms, ws, b, t, c), ms', ws', b', t', c') == Wrote(s, ms', ws + ws', b', t', c')
  {
    var n := |s.hist.stored|;
    assert s.hist.writes + Records(ws, s.error, n) + Records(ws', s.error, n)
        == s.hist.writes + Records(ws + ws', s.error, n);
  }

  lemma WroteNothing(s: State)
    ensures Wrote(s, s.ms, [], s.buffer, s.start, s.clock) == s
  {
    assert s.hist.writes + [] == s.hist.writes;
  }

  /** What the clock shows after k readings, the first of them the i-th. */
  function Shown(s: State, clock: nat -> int, i: nat, k: nat): int {
    if k == 0 then s.clock else clock(i + k - 1)
  }

  /** A flush: the write, a reading of the clock, the clear. */
  lemma FlushSteps(s: State, now: int) returns (es: seq<Event>)
    requires s.ms.MsWrite?
    ensures Takes(s, es, Wrote(s, Resume(s.ms.then_), Flushed(s.buffer), [], now, now))
  {
    var s1 := Step(s, MetricSend);
    var s2 := Step(s1, Clock(now));
    var s3 := Step(s2, MetricSend);
    TakesNothing(s3);
    TakesOne(s2, MetricSend, [], s3);
    TakesOne(s1, Clock(now), [MetricSend] + [], s3);
    es := [MetricSend] + ([Clock(now)] + ([MetricSend] + []));
    TakesOne(s, MetricSend, [Clock(now)] + ([MetricSend] + []), s3);
    assert s.hist.writes + [] == s.hist.writes;
    if s.buffer != [] {
      assert Records([s.buffer], s.error, |s.hist.stored|)
          == [Written(ByMetricSend, Reply(s.buffer, s.error), |s.hist.stored|)];
    }
  }

  /** One append, with the flush it may lead to. */
  lemma AppendSteps(s: State, now: int) returns (es: seq<Event>)
    requires s.ms.MsItem? && s.ms.rest != []
    ensures var b := s.buffer + [s.ms.rest[0]];
            Takes(s, es, if |b| == s.maxBuffer then Wrote(s, MsItem(s.ms.rest[1..]), [b], [], now, now)
                         else s.(ms := MsItem(s.ms.rest[1..]), buffer := b))
  {
    var s1 := Step(s, MetricSend);
    var s2 := Step(s1, MetricSend);
    var more := [];
    TakesNothing(s2);
    var t := s2;
    if s2.ms.MsWrite? {
      more := FlushSteps(s2, now);
      t := Wrote(s2, Resume(s2.ms.then_), Flushed(s2.buffer), [], now, now);
    }
    TakesOne(s1, MetricSend, more, t);
    TakesOne(s, MetricSend, [MetricSend] + more, t);
    es := [MetricSend] + ([MetricSend] + more);
  }

  /** Left alone, the step-by-step metricSend does to a batch exactly what AppendAll does, given the same
      readings of the clock. */
  lemma {:induction false} SoloBatch(s: State, clock: nat -> int, i: nat) returns (es: seq<Event>)
    requires s.ms.MsItem?
    ensures var (ws, rest) := Batched(s.maxBuffer, s.buffer, s.ms.rest);
            Takes(s, es, Wrote(s, MsItem([]), ws, rest, StartAfter(ws, s.start, clock, i), Shown(s, clock, i, |ws|)))
    decreases |s.ms.rest|
  {
    if s.ms.rest == [] {
      es := [];
      WroteNothing(s);
    } else {
      var b := s.buffer + [s.ms.rest[0]];
      var first := AppendSteps(s, clock(i));
      var t := End(s, first);
      var flushed := |b| == s.maxBuffer;
      var more := SoloBatch(t, clock, if flushed then i + 1 else i);
      TakesThrough(s, first, t, more, End(t, more));
      es := first + more;
      var (ws, rest) := Batched(s.maxBuffer, t.buffer, s.ms.rest[1..]);
      if flushed {
        var now := clock(i);
        WroteTwice(s, MsItem(s.ms.rest[1..]), [b], [], now, now,
                   MsItem([]), ws, rest, StartAfter(ws, now, clock, i + 1), Shown(t, clock, i + 1, |ws|));
      }
    }
  }

  /** The end of a batch: under limit zero it is flushed. */
  lemma TailSteps(s: State, now: int) returns (es: seq<Event>)
    requires s.ms == MsItem([])
    ensures Takes(s, es, if s.maxBuffer == 0 then Wrote(s, MsTimer, Flushed(s.buffer), [], now, now)
        else s.(ms := MsTimer))
  {
    var s1 := Step(s, MetricSend);
    var s2 := Step(s1, MetricSend);
    var more := [];
    TakesNothing(s2);
    var t := s2;
    if s2.ms.MsWrite? {
      more := FlushSteps(s2, now);
      t := Wrote(s2, Resume(s2.ms.then_), Flushed(s2.buffer), [], now, now);
    }
    TakesOne(s1, MetricSend, more, t);
    TakesOne(s, MetricSend, [MetricSend] + more, t);
    es := [MetricSend] + ([MetricSend] + more);
  }

  /** The timer test and the flush it may lead to. */
  lemma TimerSteps(s: State, test: int, now: int) returns (es: seq<Event>)
    requires s.ms.MsTimer?
    ensures Takes(s, es, if test - s.start >= s.maxDuration * NANOS_PER_SECOND
                         then Wrote(s, MsLoop, Flushed(s.buffer), [], now, now) else s.(ms := MsLoop, clock := test))
  {
    var s1 := Step(s, Clock(test));
    var s2 := Step(s1, MetricSend);
    var more := [];
    TakesNothing(s2);
    var t := s2;
    if s2.ms.MsWrite? {
      more := FlushSteps(s2, now);
      t := Wrote(s2, Resume(s2.ms.then_), Flushed(s2.buffer), [], now, now);
    }
    TakesOne(s1, MetricSend, more, t);
    TakesOne(s, Clock(test), [MetricSend] + more, t);
    es := [Clock(test)] + ([MetricSend] + more);
  }

  /** A batch taken off the channel, up to the timer test. */
  lemma SoloTake(s: State, clock: nat -> int, i: nat) returns (es: seq<Event>)
    requires s.ms.MsItem? && s.ms.rest != []
    ensures var (ws, b) := BatchTurn(s.maxBuffer, s.buffer, s.ms.rest);
            Takes(s, es, Wrote(s, MsTimer, ws, b, StartAfter(ws, s.start, clock, i), Shown(s, clock, i, |ws|)))
  {
    var (ws, b) := Batched(s.maxBuffer, s.buffer, s.ms.rest);
    var start, shown := StartAfter(ws, s.start, clock, i), Shown(s, clock, i, |ws|);
    var first := SoloBatch(s, clock, i);
    var t := Wrote(s, MsItem([]), ws, b, start, shown);
    var now := clock(i + |ws|);
    var more := TailSteps(t, now);
    es := first + more;
    if s.maxBuffer == 0 {
      BatchedNeverFlushes(0, s.buffer, s.ms.rest);
      WroteTwice(s, MsItem([]), ws, b, start, shown, MsTimer, Flushed(b), [], now, now);
      TakesThrough(s, first, t, more, Wrote(t, MsTimer, Flushed(b), [], now, now));
    } else {
      TakesThrough(s, first, t, more, t.(ms := MsTimer));
    }
  }

  lemma GetSteps(s: State) returns (es: seq<Event>)
    requires s.ms.MsLoop? && !s.cancelled && s.sendChan.Ready()
    ensures var front := s.sendChan.Front();
            Takes(s, es, s.(sendChan := s.sendChan.Rest(), ms := if front == [] then MsTimer else MsItem(front)))
  {
    var s1 := Step(s, MetricSend);
    var s2 := Step(s1, MetricSend);
    TakesNothing(s2);
    TakesOne(s1, MetricSend, [], s2);
    TakesOne(s, MetricSend, [MetricSend] + [], s2);
    es := [MetricSend] + ([MetricSend] + []);
  }

  /** Left alone, metricSend takes the turn its method takes, given the same readings of the clock. */
  lemma SoloMetricTurn(s: State, clock: nat -> int, i: nat) returns (es: seq<Event>)
    requires s.ms.MsLoop? && !s.cancelled && s.sendChan.Ready()
    ensures var t := TurnOfMetrics(s.maxBuffer, s.maxDuration, s.buffer, s.sendChan.Front(), s.start, clock, i);
            Takes(s, es, Wrote(s.(sendChan := s.sendChan.Rest()), MsLoop, t.writes, t.buffer, t.start,
                clock(i + t.readings - 1)))
  {
    var mets := s.sendChan.Front();
    var got := GetSteps(s);
    var s1 := End(s, got);
    var (ws, b) := BatchTurn(s.maxBuffer, s.buffer, mets);
    var start, shown := StartAfter(ws, s.start, clock, i), Shown(s, clock, i, |ws|);
    var s2 := Wrote(s1, MsTimer, ws, b, start, shown);
    var taken := [];
    if mets == [] {
      WroteNothing(s1);
    } else {
      taken := SoloTake(s1, clock, i);
    }
    TakesThrough(s, got, s1, taken, s2);
    var test, now := clock(i + |ws|), clock(i + |ws| + 1);
    var timer := TimerSteps(s2, test, now);
    var s3 := End(s2, timer);
    TakesThrough(s, got + taken, s2, timer, s3);
    es := got + taken + timer;
    WroteTwice(s1, MsTimer, ws, b, start, shown, MsLoop, Flushed(b), [], now, now);
  }

  /** Left alone, errorSend takes the turn its method takes. */
  lemma SoloErrorTurn(s: State) returns (es: seq<Event>)
    requires s.es.EsLoop? && !s.cancelled && s.errChan.Ready()
    ensures Takes(s, es,
                  if s.errChan.queue == [] then s
                  else
                    var err := s.errChan.queue[0];
                    s.(errChan := s.errChan.Rest(), error := err,
                       hist := s.hist.(stored := s.hist.stored + [err],
                                       writes := s.hist.writes
                                                 + [Written(ByErrorSend, Reply(s.buffer, err), |s.hist.stored| + 1)])))
  {
    var s1 := Step(s, ErrorSend);
    var s2 := Step(s1, ErrorSend);
    var more := [];
    TakesNothing(s2);
    var t := s2;
    if s2.es.EsStore? {
      var s3 := Step(s2, ErrorSend);
      t := Step(s3, ErrorSend);
      TakesNothing(t);
      TakesOne(s3, ErrorSend, [], t);
      TakesOne(s2, ErrorSend, [ErrorSend] + [], t);
      more := [ErrorSend] + ([ErrorSend] + []);
    }
    TakesOne(s1, ErrorSend, more, t);
    TakesOne(s, ErrorSend, [ErrorSend] + more, t);
    es := [ErrorSend] + ([ErrorSend] + more);
  }

  /** Left alone, streamRecv takes the turn its method takes on the request read. */
  lemma SoloRecvTurn(s: State, arg: CollectArg) returns (es: seq<Event>)
    requires s.sr.SrLoop? && !s.cancelled
    ensures Takes(s, es, AfterRequest(s, arg))
  {
    var e := StreamRecv(arg);
    var s1 := Step(s, e);
    var s2 := Step(s1, e);
    var s3 := Step(s2, e);
    var s4 := Step(s3, e);
    var s5 := Step(s4, e);
    TakesNothing(s5);
    TakesOne(s4, e, [], s5);
    TakesOne(s3, e, [e] + [], s5);
    TakesOne(s2, e, [e] + ([e] + []), s5);
    TakesOne(s1, e, [e] + ([e] + ([e] + [])), s5);
    TakesOne(s, e, [e] + ([e] + ([e] + ([e] + []))), s5);
    es := [e] + ([e] + ([e] + ([e] + ([e] + []))));
  }

  function AfterRequest(s: State, arg: CollectArg): State {
    var t := s.(maxDuration := if arg.duration > 0 then arg.duration else s.maxDuration,
                maxBuffer := if arg.buffer > 0 then arg.buffer else s.maxBuffer,
                hist := s.hist.(args := s.hist.args + [arg]));
    if arg.metrics.None? then t
    else if s.recvChan.closed then t.(sr := SrThrown)
    else t.(recvChan := s.recvChan.Put(arg.metrics.value),
            hist := t.hist.(recvPuts := s.hist.recvPuts + [arg.metrics.value]))
  }

  /** s after a turn of PutSendMetsAndErrMsg, with the record of what was put. */
  function AfterPuts(s: State): State {
    var r := TurnOfPuts(s.sendChan, s.errChan, s.recvChan, s.recvMets, s.plugin);
    var h := if s.plugin.putMets && !s.sendChan.closed then RecordedMets(s.hist, s.plugin.out) else s.hist;
    var err := s.plugin.putErr && !s.errChan.closed && !(s.plugin.putMets && s.sendChan.closed);
    s.(ps := if r.thrown then PsThrown else PsLoop, sendChan := r.send, errChan := r.err, recvChan := r.recv,
       recvMets := r.mets, plugin := r.plugin, hist := if err then RecordedErr(h, s.plugin.err) else h)
  }

  function RecordedMets(h: History, mets: Batch): History { h.(sendPuts := h.sendPuts + [mets]) }

  function RecordedErr(h: History, err: string): History { h.(errPuts := h.errPuts + [err]) }

  lemma PutMetsSteps(s: State) returns (es: seq<Event>, t: State)
    requires s.ps.PsTestMets? && !(s.plugin.putMets && s.sendChan.closed)
    ensures Takes(s, es, t)
    ensures t == s.(ps := PsTestErr, sendChan := if s.plugin.putMets then s.sendChan.Put(s.plugin.out) else s.sendChan,
                    plugin := s.plugin.(putMets := false),
                    hist := if s.plugin.putMets then RecordedMets(s.hist, s.plugin.out) else s.hist)
  {
    var s1 := Step(s, PutSend);
    t := s1;
    var more := [];
    TakesNothing(s1);
    if s.plugin.putMets {
      var s2 := Step(s1, PutSend);
      t := Step(s2, PutSend);
      TakesNothing(t);
      TakesOne(s2, PutSend, [], t);
      TakesOne(s1, PutSend, [PutSend] + [], t);
      more := [PutSend] + ([PutSend] + []);
    }
    TakesOne(s, PutSend, more, t);
    es := [PutSend] + more;
  }

  lemma PutErrSteps(s: State) returns (es: seq<Event>, t: State)
    requires s.ps.PsTestErr? && !(s.plugin.putErr && s.errChan.closed)
    ensures Takes(s, es, t)
    ensures t == s.(ps := PsGet, errChan := if s.plugin.putErr then s.errChan.Put(s.plugin.err) else s.errChan,
                    plugin := s.plugin.(putErr := false),
                    hist := if s.plugin.putErr then RecordedErr(s.hist, s.plugin.err) else s.hist)
  {
    var s1 := Step(s, PutSend);
    t := s1;
    var more := [];
    TakesNothing(s1);
    if s.plugin.putErr {
      var s2 := Step(s1, PutSend);
      t := Step(s2, PutSend);
      TakesNothing(t);
      TakesOne(s2, PutSend, [], t);
      TakesOne(s1, PutSend, [PutSend] + [], t);
      more := [PutSend] + ([PutSend] + []);
    }
    TakesOne(s, PutSend, more, t);
    es := [PutSend] + more;
  }

  lemma TakeMetsSteps(s: State) returns (es: seq<Event>, t: State)
    requires s.ps.PsGet?
    ensures Takes(s, es, t)
    ensures var r := TurnOfGet(s.sendChan, s.errChan, s.recvChan, s.recvMets, s.plugin);
            t == s.(ps := PsLoop, recvChan := r.recv, recvMets := r.mets, plugin := r.plugin)
  {
    var s1 := Step(s, PutSend);
    t := s1;
    var more := [];
    TakesNothing(s1);
    if s1.ps.PsGive? {
      t := Step(s1, PutSend);
      TakesNothing(t);
      TakesOne(s1, PutSend, [], t);
      more := [PutSend] + [];
    }
    TakesOne(s, PutSend, more, t);
    es := [PutSend] + more;
  }

  lemma TwoPutSteps(s: State) returns (es: seq<Event>)
    requires (s.ps.PsTestMets? && s.plugin.putMets && s.sendChan.closed)
          || (s.ps.PsTestErr? && s.plugin.putErr && s.errChan.closed)
    ensures Takes(s, es, s.(ps := PsThrown))
  {
    var s1 := Step(s, PutSend);
    var s2 := Step(s1, PutSend);
    TakesNothing(s2);
    TakesOne(s1, PutSend, [], s2);
    TakesOne(s, PutSend, [PutSend] + [], s2);
    es := [PutSend] + ([PutSend] + []);
  }

  /** Left alone, PutSendMetsAndErrMsg takes the turn its method takes, for any plugin. */
  lemma SoloPutTurn(s: State) returns (es: seq<Event>)
    requires s.ps.PsLoop? && !s.cancelled
    ensures Takes(s, es, AfterPuts(s))
  {
    var t: State;
    var s1 := Step(s, PutSend);
    var rest: seq<Event>;
    if s.plugin.putMets && s.sendChan.closed {
      rest := TwoPutSteps(s1);
      t := s1.(ps := PsThrown);
    } else {
      var a, s2 := PutMetsSteps(s1);
      if s.plugin.putErr && s.errChan.closed {
        var b := TwoPutSteps(s2);
        t := s2.(ps := PsThrown);
        TakesThrough(s1, a, s2, b, t);
        rest := a + b;
      } else {
        var b, s3 := PutErrSteps(s2);
        var c;
        c, t := TakeMetsSteps(s3);
        TakesThrough(s1, a, s2, b, s3);
        TakesThrough(s1, a + b, s3, c, t);
        rest := a + b + c;
      }
    }
    TakesOne(s, PutSend, rest, t);
    es := [PutSend] + rest;
  }
}

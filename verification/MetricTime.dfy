/** Plugin::Metric and the instants it keeps in its rpc message: nanoseconds since the epoch split into
    seconds and nanoseconds, and put together again. */
module MetricTimes {
  import opened Options
  import opened Clocks
  import opened Wire
  import opened MessageLoop
  import opened Messages
  import opened MergeProofs
  import opened Sizes
  import opened SmallMessages
  import opened MetricMessages

  /** The two counters written for an instant; a negative count is cast to uint64_t first. */
  function SplitInstant(n: Int64): Time {
    SplitInRange(FromInt64(n));
    Time(FromInt64(n) / NANOS_PER_SECOND, FromInt64(n) % NANOS_PER_SECOND)
  }

  lemma SplitInRange(u: UInt64)
    ensures 0 <= u / NANOS_PER_SECOND < TWO_TO_63 && 0 <= u % NANOS_PER_SECOND < NANOS_PER_SECOND
  {
  }

  predicate InInt64(n: int) { -TWO_TO_63 <= n < TWO_TO_63 }

  /** The sum of the two counters as 64-bit arithmetic; none when a step of it overflows. */
  function JoinInstant(t: Time): Option<Int64> {
    var whole := t.sec * NANOS_PER_SECOND;
    if InInt64(whole) && InInt64(whole + t.nsec) then Some(whole + t.nsec) else None
  }

  /** The counters are whole seconds and the nanoseconds left over, of the count as an unsigned number. Every
      instant from the epoch on is rebuilt exactly and without overflow, and only those are: a negative count
      ends in an overflow. */
  lemma InstantRebuilt(n: Int64)
    ensures 0 <= SplitInstant(n).nsec < 1_000_000_000 && 0 <= SplitInstant(n).sec
    ensures SplitInstant(n).sec * 1_000_000_000 + SplitInstant(n).nsec == n % 0x1_0000_0000_0000_0000
    ensures JoinInstant(SplitInstant(n)) == if n >= 0 then Some(n) else None
  {
    var u := FromInt64(n);
    assert u == n % 0x1_0000_0000_0000_0000;
    assert u == u / NANOS_PER_SECOND * NANOS_PER_SECOND + u % NANOS_PER_SECOND;
  }

  /** Any two counters, from whatever peer, are summed as they are: negative nanoseconds and those of a second
      or more too, unless a step of the sum leaves the 64 bits. */
  lemma AnyTimeRead(t: Time)
    ensures JoinInstant(t).Some? ==> JoinInstant(t).value == t.sec * 1_000_000_000 + t.nsec
    ensures JoinInstant(t).None? <==>
      || t.sec * 1_000_000_000 < -0x8000_0000_0000_0000 || t.sec * 1_000_000_000 > 0x7FFF_FFFF_FFFF_FFFF
      || t.sec * 1_000_000_000 + t.nsec < -0x8000_0000_0000_0000
      || t.sec * 1_000_000_000 + t.nsec > 0x7FFF_FFFF_FFFF_FFFF
  {
  }

  predicate Before(a: Time, b: Time) { a.sec < b.sec || (a.sec == b.sec && a.nsec < b.nsec) }

  /** Comparing the pairs compares the instants. */
  lemma PairOrderIsTimeOrder(a: Int64, b: Int64)
    requires a >= 0 && b >= 0
    ensures Before(SplitInstant(a), SplitInstant(b)) <==> a < b
    ensures SplitInstant(a) == SplitInstant(b) <==> a == b
  {
    assert a == a / NANOS_PER_SECOND * NANOS_PER_SECOND + a % NANOS_PER_SECOND;
    assert b == b / NANOS_PER_SECOND * NANOS_PER_SECOND + b % NANOS_PER_SECOND;
  }

  lemma SplitTellsInstants(a: Int64, b: Int64)
    ensures SplitInstant(a) == SplitInstant(b) ==> a == b
  {
    var u, w := FromInt64(a), FromInt64(b);
    assert u == u / NANOS_PER_SECOND * NANOS_PER_SECOND + u % NANOS_PER_SECOND;
    assert w == w / NANOS_PER_SECOND * NANOS_PER_SECOND + w % NANOS_PER_SECOND;
  }

  /** Any Time message is read back as it was written. */
  lemma TimeRoundTrip(t: Time)
    ensures ParseWhole(ApplyTime, NO_TIME, EncodeRecords(TimeRecords(t))) == Some(t)
  {
    TimeTagged(t);
    SmallTime(t);
    ReadSub(ApplyTime, NO_TIME, TimeRecords(t));
    FoldTime(NO_TIME, t);
  }

  lemma SmallTime(t: Time)
    ensures |EncodeRecords(TimeRecords(t))| < TWO_TO_31
  {
    TimeSizeExact(t);
    VarintSizeExact(FromInt64(t.sec));
    VarintSizeExact(FromInt64(t.nsec));
  }

  /** So an instant set on one side and read on the other is the same instant. */
  lemma InstantSurvivesTheWire(n: Int64)
    requires n >= 0
    ensures var received := ParseWhole(ApplyTime, NO_TIME, EncodeRecords(TimeRecords(SplitInstant(n))));
            received.Some? && JoinInstant(received.value) == Some(n)
  {
    TimeRoundTrip(SplitInstant(n));
    InstantRebuilt(n);
  }

  /** Plugin::Metric, as far as its instants go. */
  class MetricWrapper {
    const rpc: MetricMessage

    constructor (rpc: MetricMessage)
      ensures this.rpc == rpc
    {
      this.rpc := rpc;
    }

    /** set_ts: `n` is the count of nanoseconds since the epoch. */
    method SetTimestamp(n: Int64)
      requires rpc.Valid()
      modifies rpc`timestamp, rpc.timestamp
      ensures rpc.Valid()
      ensures rpc.Value() == old(rpc.Value()).(timestamp := Some(SplitInstant(n)))
    {
      if rpc.timestamp == null {
        rpc.timestamp := new TimeMessage();
      }
      var tm := rpc.timestamp;
      var nanos := FromInt64(n);
      SplitInRange(nanos);
      tm.sec := nanos / NANOS_PER_SECOND;
      tm.nsec := nanos % NANOS_PER_SECOND;
    }

    method SetLastAdvertised(n: Int64)
      requires rpc.Valid()
      modifies rpc`lastAdvertised, rpc.lastAdvertised
      ensures rpc.Valid()
      ensures rpc.Value() == old(rpc.Value()).(lastAdvertised := Some(SplitInstant(n)))
    {
      if rpc.lastAdvertised == null {
        rpc.lastAdvertised := new TimeMessage();
      }
      var tm := rpc.lastAdvertised;
      var nanos := FromInt64(n);
      SplitInRange(nanos);
      tm.sec := nanos / NANOS_PER_SECOND;
      tm.nsec := nanos % NANOS_PER_SECOND;
    }

    /** timestamp(): an unset Time reads as zero. None where the sum overflows. */
    method Timestamp() returns (n: Option<Int64>)
      ensures n == JoinInstant(OrElse(rpc.Value().timestamp, NO_TIME))
    {
      var sec, nsec := 0, 0;
      if rpc.timestamp != null {
        sec, nsec := rpc.timestamp.sec, rpc.timestamp.nsec;
      }
      var tp: int := sec * NANOS_PER_SECOND;
      if !InInt64(tp) || !InInt64(tp + nsec) {
        return None;
      }
      n := Some(tp + nsec);
    }
  }
}

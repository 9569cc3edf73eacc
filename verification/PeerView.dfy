/** The metrics of the pipeline as the messages of the codec, and what the peer of the stream makes of them. */
module PeerView {
  import opened Options
  import opened Seqs
  import opened Wire
  import opened MessageLoop
  import P = Pipeline
  import M = Messages
  import opened MetricTimes
  import opened RoundTrip

  // ----- text

  /** The bytes of a character, section 3 of RFC 3629: six bits to each byte but the first. */
  function EncodeChar(c: char): (r: Bytes)
    ensures 1 <= |r| <= 4
  {
    var n := c as int;
    var low, high := 0x80 + n % 0x40, n / 0x40;
    var low', high' := 0x80 + high % 0x40, high / 0x40;
    if n < 0x80 then [n]
    else if n < 0x800 then [0xC0 + high, low]
    else if n < 0x1_0000 then [0xE0 + high', low', low]
    else [0xF0 + high' / 0x40, 0x80 + high' % 0x40, low', low]
  }

  function EncodeText(s: string): Bytes {
    if s == "" then [] else EncodeChar(s[0]) + EncodeText(s[1..])
  }

  lemma CharIsUtf8(c: char, rest: Bytes)
    requires M.Utf8(rest)
    ensures M.Utf8(EncodeChar(c) + rest)
  {
    var e := EncodeChar(c);
    assert (e + rest)[|e|..] == rest;
  }

  lemma {:induction false} TextIsUtf8(s: string)
    ensures M.Utf8(EncodeText(s))
    decreases s
  {
    if s != "" {
      TextIsUtf8(s[1..]);
      CharIsUtf8(s[0], EncodeText(s[1..]));
    }
  }

  /** The character a byte string starts with, if that is valid. */
  lemma FirstChar(b: Bytes) returns (c: char)
    requires b != [] && M.Utf8(b)
    ensures |EncodeChar(c)| <= |b| && b[..|EncodeChar(c)|] == EncodeChar(c) && M.Utf8(b[|EncodeChar(c)|..])
  {
    var k := CharLength(b[0]);
    if k <= 2 {
      c := DecodeChar(b[..k]) as char;
      assert EncodeChar(c) == b[..k];
    } else {
      c := FirstLongChar(b);
    }
  }

  lemma FirstLongChar(b: Bytes) returns (c: char)
    requires b != [] && M.Utf8(b) && b[0] >= 0xE0
    ensures |EncodeChar(c)| <= |b| && b[..|EncodeChar(c)|] == EncodeChar(c) && M.Utf8(b[|EncodeChar(c)|..])
  {
    var k := CharLength(b[0]);
    c := DecodeChar(b[..k]) as char;
    assert EncodeChar(c) == b[..k];
  }

  /** Valid bytes are text, and only they are. */
  lemma {:induction false} Utf8Means(b: Bytes)
    ensures M.Utf8(b) <==> exists s :: EncodeText(s) == b
    decreases |b|
  {
    hide M.Utf8, EncodeChar;
    if s :| EncodeText(s) == b {
      TextIsUtf8(s);
    }
    if M.Utf8(b) {
      var s := TextOf(b);
    }
  }

  lemma {:induction false} TextOf(b: Bytes) returns (s: string)
    requires M.Utf8(b)
    ensures EncodeText(s) == b
    decreases |b|
  {
    hide M.Utf8, EncodeChar;
    s := "";
    if b != [] {
      var c := FirstChar(b);
      var rest := TextOf(b[|EncodeChar(c)|..]);
      s := [c] + rest;
      assert s[1..] == rest;
    }
  }

  /** How long a character is shows in its first byte. */
  function CharLength(b: Byte): nat {
    if b < 0x80 then 1 else if b < 0xE0 then 2 else if b < 0xF0 then 3 else 4
  }

  /** The bits a byte carries above its marker. */
  function Bits(b: Byte, marker: int): int { b - marker }

  function DecodeChar(b: Bytes): int {
    if |b| == 1 then b[0]
    else if |b| == 2 then Bits(b[0], 0xC0) * 0x40 + Bits(b[1], 0x80)
    else if |b| == 3 then (Bits(b[0], 0xE0) * 0x40 + Bits(b[1], 0x80)) * 0x40 + Bits(b[2], 0x80)
    else if |b| == 4 then
      ((Bits(b[0], 0xF0) * 0x40 + Bits(b[1], 0x80)) * 0x40 + Bits(b[2], 0x80)) * 0x40 + Bits(b[3], 0x80)
    else 0
  }

  lemma CharRoundTrip(c: char)
    ensures CharLength(EncodeChar(c)[0]) == |EncodeChar(c)| && DecodeChar(EncodeChar(c)) == c as int
  {
  }

  /** Different texts have different bytes. */
  lemma {:induction false} TextsDiffer(s: string, t: string)
    requires EncodeText(s) == EncodeText(t)
    ensures s == t
    decreases s
  {
    if s != "" && t != "" {
      var a, b := EncodeChar(s[0]), EncodeChar(t[0]);
      CharRoundTrip(s[0]);
      CharRoundTrip(t[0]);
      var all := EncodeText(s);
      assert a[0] == all[0] == b[0];
      assert all[..|a|] == a && all[..|b|] == b;
      assert all[|a|..] == EncodeText(s[1..]) && all[|b|..] == EncodeText(t[1..]);
      TextsDiffer(s[1..], t[1..]);
      assert s == [s[0]] + s[1..] && t == [t[0]] + t[1..];
    }
  }

  // ----- numbers

  /** The bit patterns of whole numbers as float and as double. */
  datatype Coding = Coding(float: int -> UInt32, double: int -> UInt64)

  /** Up to here every whole number has a float of its own (a 24-bit significand) ... */
  predicate InFloat(n: int) { -0x100_0000 <= n <= 0x100_0000 }

  /** ... and a double of its own (53 bits). */
  predicate InDouble(n: int) { -0x20_0000_0000_0000 <= n <= 0x20_0000_0000_0000 }

  ghost predicate Faithful(c: Coding) {
    && (forall i, j :: InFloat(i) && InFloat(j) && c.float(i) == c.float(j) ==> i == j)
    && (forall i, j :: InDouble(i) && InDouble(j) && c.double(i) == c.double(j) ==> i == j)
  }

  /** Such codings exist. */
  lemma SomeCodingIsFaithful() returns (c: Coding)
    ensures Faithful(c)
  {
    c := Coding((n: int) => n % TWO_TO_32, (n: int) => n % TWO_TO_64);
    forall i, j | InFloat(i) && InFloat(j) && c.float(i) == c.float(j) ensures i == j {
    }
    forall i, j | InDouble(i) && InDouble(j) && c.double(i) == c.double(j) ensures i == j {
    }
  }

  /** The value fits the C++ type of its set_data overload, and the time a 64-bit count. */
  predicate Fits(m: P.Metric) {
    && InInt64(m.time)
    && match m.data
       case Float32(n) => InFloat(n)
       case Float64(n) => InDouble(n)
       case Int32(n) => -TWO_TO_31 <= n < TWO_TO_31
       case Int64(n) => InInt64(n)
       case Uint32(n) => 0 <= n < TWO_TO_32
       case Uint64(n) => 0 <= n < TWO_TO_64
       case _ => true
  }

  function ToData(m: P.Metric, c: Coding): M.Data
    requires Fits(m)
  {
    match m.data
    case NotSet => M.NotSet
    case Float32(n) => M.Float32Data(c.float(n))
    case Float64(n) => M.Float64Data(c.double(n))
    case Int32(n) => M.Int32Data(n)
    case Int64(n) => M.Int64Data(n)
    case Uint32(n) => M.Uint32Data(n)
    case Uint64(n) => M.Uint64Data(n)
    case Bool(b) => M.BoolData(b)
    case Text(t) => M.StringData(EncodeText(t))
  }

  function ToElements(ns: seq<string>): (r: seq<M.NamespaceElement>)
    ensures |r| == |ns| && forall i :: 0 <= i < |ns| ==> r[i] == M.NamespaceElement(EncodeText(ns[i]), [], [])
  {
    Map((s: string) => M.NamespaceElement(EncodeText(s), [], []), ns)
  }

  function ToMetric(m: P.Metric, c: Coding): M.Metric
    requires Fits(m)
  {
    M.NO_METRIC.(namespace := ToElements(m.ns), timestamp := Some(SplitInstant(m.time)), data := ToData(m, c))
  }

  predicate AllFit(b: P.Batch) { forall i :: 0 <= i < |b| ==> Fits(b[i]) }

  function ToMetrics(b: P.Batch, c: Coding): (r: seq<M.Metric>)
    requires AllFit(b)
    ensures |r| == |b| && forall i :: 0 <= i < |b| ==> r[i] == ToMetric(b[i], c)
  {
    seq(|b|, i requires 0 <= i < |b| => ToMetric(b[i], c))
  }

  /** The collect reply both senders write: its two parts are always set. */
  function ToReply(r: P.Reply, c: Coding): M.CollectReply
    requires AllFit(r.metrics)
  {
    M.CollectReply(Some(M.MetricsReply(ToMetrics(r.metrics, c), [])), Some(M.ErrReply(EncodeText(r.error))))
  }

  lemma MetricsDiffer(a: P.Metric, b: P.Metric, c: Coding)
    requires Faithful(c) && Fits(a) && Fits(b) && ToMetric(a, c) == ToMetric(b, c)
    ensures a == b
  {
    assert a.ns == b.ns by {
      assert ToElements(a.ns) == ToElements(b.ns);
      forall i | 0 <= i < |a.ns| ensures a.ns[i] == b.ns[i] {
        assert ToElements(a.ns)[i] == ToElements(b.ns)[i];
        TextsDiffer(a.ns[i], b.ns[i]);
      }
    }
    assert a.data == b.data by {
      assert ToData(a, c) == ToData(b, c);
      if a.data.Text? {
        TextsDiffer(a.data.t, b.data.t);
      }
    }
    assert a.time == b.time by {
      SplitTellsInstants(a.time, b.time);
    }
  }

  /** Different replies are different messages. */
  lemma RepliesDiffer(a: P.Reply, b: P.Reply, c: Coding)
    requires Faithful(c) && AllFit(a.metrics) && AllFit(b.metrics) && ToReply(a, c) == ToReply(b, c)
    ensures a == b
  {
    TextsDiffer(a.error, b.error);
    assert ToMetrics(a.metrics, c) == ToMetrics(b.metrics, c);
    forall i | 0 <= i < |a.metrics| ensures a.metrics[i] == b.metrics[i] {
      assert ToMetrics(a.metrics, c)[i] == ToMetrics(b.metrics, c)[i];
      MetricsDiffer(a.metrics[i], b.metrics[i], c);
    }
  }

  lemma ReplyIsText(r: P.Reply, c: Coding)
    requires AllFit(r.metrics)
    ensures M.ReplyText(ToReply(r, c))
  {
    assert M.Utf8([]);
    TextIsUtf8(r.error);
    forall i | 0 <= i < |r.metrics| ensures M.MetricText(ToMetric(r.metrics[i], c)) {
      var m := ToMetric(r.metrics[i], c);
      forall j | 0 <= j < |m.namespace| ensures M.ElementText(m.namespace[j]) {
        TextIsUtf8(r.metrics[i].ns[j]);
      }
      if r.metrics[i].data.Text? {
        TextIsUtf8(r.metrics[i].data.t);
      }
    }
  }

  /** The peer reads back the reply written, whatever the pipeline put into it, and can tell it from any
      other. */
  lemma PeerReadsReply(r: P.Reply, c: Coding, os: seq<M.MetricOrder>, other: P.Reply)
    requires Faithful(c) && AllFit(r.metrics) && AllFit(other.metrics)
    requires M.MetricsOrdered(os, ToMetrics(r.metrics, c))
    requires |EncodeRecords(M.ReplyRecords(ToReply(r, c), os))| < TWO_TO_31
    ensures var read := ParseWhole(M.ApplyReply, M.NO_REPLY, EncodeRecords(M.ReplyRecords(ToReply(r, c), os)));
      read == Some(ToReply(r, c)) && (read == Some(ToReply(other, c)) <==> other == r)
  {
    ReplyIsText(r, c);
    ReplyRoundTrip(ToReply(r, c), os);
    if ToReply(other, c) == ToReply(r, c) {
      RepliesDiffer(other, r, c);
    }
  }
}

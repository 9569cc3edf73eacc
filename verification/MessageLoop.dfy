/** The loop every generated parser runs: read a tag, switch on it, read the value, update the message.
    A message type is given by what one record does to it. */
module MessageLoop {
  import opened Options
  import opened Wire

  /** How a parse of a whole buffer ends: at its end, at a tag that ends the loop early (which every
      caller then rejects), or in a failure. */
  datatype Parsed<+M> = Clean(message: M) | Stopped(message: M) | Failed

  function Parse<M>(apply: (M, Record) -> Option<M>, m: M, b: Bytes): Parsed<M>
    decreases |b|, 0
  {
    if b == [] then Clean(m)
    else
      match ReadTag(b)
      case None => Stopped(m)
      case Some((tag, rest)) =>
        if tag == 0 || tag % 8 == END_GROUP then Stopped(m) else ParseField(apply, m, tag, rest)
  }

  /** The rest of the parse once a tag has been read. */
  function ParseField<M>(apply: (M, Record) -> Option<M>, m: M, tag: UInt32, b: Bytes): Parsed<M>
    decreases |b|, 1
  {
    match ReadValue(tag, b)
    case None => Failed
    case Some((v, rest)) =>
      match apply(m, Record(tag, v))
      case None => Failed
      case Some(m') => Parse(apply, m', rest)
  }

  /** Reading a sub-message: its whole length has to be used up. */
  function ParseWhole<M>(apply: (M, Record) -> Option<M>, m: M, b: Bytes): Option<M> {
    match Parse(apply, m, b)
    case Clean(m') => Some(m')
    case _ => None
  }

  /** What a sequence of records does to a message. */
  function Fold<M>(apply: (M, Record) -> Option<M>, m: M, rs: seq<Record>): Option<M>
    decreases rs
  {
    if rs == [] then Some(m)
    else
      match apply(m, rs[0])
      case None => None
      case Some(m') => Fold(apply, m', rs[1..])
  }

  lemma {:induction false} FoldConcat<M>(apply: (M, Record) -> Option<M>, m: M, a: seq<Record>, b: seq<Record>)
    ensures Fold(apply, m, a + b)
         == match Fold(apply, m, a) case None => None case Some(m') => Fold(apply, m', b)
    decreases a
  {
    if a == [] {
      assert a + b == b;
    } else {
      assert (a + b)[1..] == a[1..] + b;
      if apply(m, a[0]).Some? {
        FoldConcat(apply, apply(m, a[0]).value, a[1..], b);
      }
    }
  }

  lemma {:induction false} EncodeConcat(a: seq<Record>, b: seq<Record>)
    ensures EncodeRecords(a + b) == EncodeRecords(a) + EncodeRecords(b)
  {
    if a == [] {
      assert a + b == b;
    } else {
      assert (a + b)[1..] == a[1..] + b;
      EncodeConcat(a[1..], b);
    }
  }

  /** Parsing one written record is applying it. */
  lemma ParseRecord<M>(apply: (M, Record) -> Option<M>, m: M, r: Record, rest: Bytes)
    requires ValidRecord(r)
    ensures Parse(apply, m, EncodeRecord(r) + rest)
         == match apply(m, r) case None => Failed case Some(m') => Parse(apply, m', rest)
  {
    var tail := EncodeValue(r.value) + rest;
    assert EncodeRecord(r) + rest == EncodeVarint(r.tag) + tail;
    VarintRoundTrip(r.tag, tail);
    SmallModulo(r.tag, TWO_TO_32);
    ReadEncodedValue(r.tag, r.value, rest);
  }

  /** Parsing written records is folding them, whatever follows. */
  lemma {:induction false} ParseEncoded<M>(apply: (M, Record) -> Option<M>, m: M, rs: seq<Record>, rest: Bytes)
    requires ValidRecords(rs)
    ensures Parse(apply, m, EncodeRecords(rs) + rest)
         == match Fold(apply, m, rs) case None => Failed case Some(m') => Parse(apply, m', rest)
    decreases rs
  {
    if rs == [] {
      assert EncodeRecords(rs) + rest == rest;
    } else {
      var tail := EncodeRecords(rs[1..]) + rest;
      assert EncodeRecords(rs) + rest == EncodeRecord(rs[0]) + tail;
      ParseRecord(apply, m, rs[0], tail);
      if apply(m, rs[0]).Some? {
        ParseEncoded(apply, apply(m, rs[0]).value, rs[1..], rest);
      }
    }
  }

  lemma ParseWholeEncoded<M>(apply: (M, Record) -> Option<M>, m: M, rs: seq<Record>)
    requires ValidRecords(rs)
    ensures ParseWhole(apply, m, EncodeRecords(rs)) == Fold(apply, m, rs)
  {
    ParseEncoded(apply, m, rs, []);
    assert EncodeRecords(rs) + [] == EncodeRecords(rs);
  }

  /** Concatenating two buffers, the first of which parses cleanly, parses the second into the result of
      the first: for every message type and all bytes. */
  lemma {:induction false} ParseConcat<M>(apply: (M, Record) -> Option<M>, m: M, x: Bytes, y: Bytes)
    requires Parse(apply, m, x).Clean?
    ensures Parse(apply, m, x + y) == Parse(apply, Parse(apply, m, x).message, y)
    decreases |x|
  {
    if x == [] {
      assert x + y == y;
    } else {
      ReadVarintLocal(x, y);
      var (tag, rest) := ReadTag(x).value;
      ReadValueLocal(tag, rest, y);
      var (v, rest') := ReadValue(tag, rest).value;
      ParseConcat(apply, apply(m, Record(tag, v)).value, rest', y);
    }
  }

  // ----- lengths

  lemma {:induction false} RecordsLength(rs: seq<Record>, i: nat)
    requires i < |rs|
    ensures |EncodeRecord(rs[i])| <= |EncodeRecords(rs)|
  {
    if i > 0 {
      RecordsLength(rs[1..], i - 1);
    }
  }
}

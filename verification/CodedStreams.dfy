/** The streams the generated code reads from and writes to: a cursor over a buffer with a limit for the
    message being read, and a growing output. */
module CodedStreams {
  import opened Options
  import opened Wire
  import opened MessageLoop

  // ----- everything is read from the front

  predicate Suffix(b: Bytes, rest: Bytes) {
    |rest| <= |b| && rest == b[|b| - |rest|..]
  }

  lemma SuffixOfRest(b: Bytes, n: nat, rest: Bytes)
    requires n <= |b| && Suffix(b[n..], rest)
    ensures Suffix(b, rest)
  {
  }

  lemma SuffixTransitive(a: Bytes, b: Bytes, c: Bytes)
    requires Suffix(a, b) && Suffix(b, c)
    ensures Suffix(a, c)
  {
  }

  lemma {:induction false} ReadGroupsSuffix(b: Bytes, k: nat)
    requires ReadGroups(b, k).Some?
    ensures Suffix(b, ReadGroups(b, k).value.1)
    decreases k
  {
    if b[0] >= 128 {
      ReadGroupsSuffix(b[1..], k - 1);
      SuffixOfRest(b, 1, ReadGroups(b, k).value.1);
    }
  }

  lemma ReadVarintSuffix(b: Bytes)
    requires ReadVarint(b).Some?
    ensures Suffix(b, ReadVarint(b).value.1)
  {
    ReadGroupsSuffix(b, MaxVarintBytes());
  }

  lemma ReadValueSuffix(tag: UInt32, b: Bytes)
    requires ReadValue(tag, b).Some?
    ensures Suffix(b, ReadValue(tag, b).value.1)
    decreases |b|, 1
  {
    if tag % 8 == 0 {
      ReadVarintSuffix(b);
    } else if tag % 8 == 2 {
      ReadVarintSuffix(b);
      SuffixTransitive(b, ReadVarint(b).value.1, ReadValue(tag, b).value.1);
    } else if tag % 8 == 3 {
      SkipGroupSuffix(tag / 8, b);
    }
  }

  lemma SkipGroupSuffix(field: nat, b: Bytes)
    requires SkipGroup(field, b).Some?
    ensures Suffix(b, SkipGroup(field, b).value)
    decreases |b|, 0
  {
    ReadVarintSuffix(b);
    var (tag, rest) := ReadTag(b).value;
    if tag % 8 != END_GROUP {
      ReadValueSuffix(tag, rest);
      var rest' := ReadValue(tag, rest).value.1;
      SkipGroupSuffix(field, rest');
      SuffixTransitive(rest, rest', SkipGroup(field, rest').value);
      SuffixTransitive(b, rest, SkipGroup(field, rest').value);
    }
  }

  // ----- the input

  class CodedInputStream {
    const buffer: Bytes
    var position: nat
    var limit: nat
    /** The last tag read was no tag but the end of the message. */
    var legitimateEnd: bool

    ghost predicate Valid()
      reads this
    {
      position <= limit <= |buffer|
    }

    /** What is left of the message being read. */
    function Rest(): Bytes
      requires Valid()
      reads this
    {
      buffer[position..limit]
    }

    constructor (b: Bytes)
      ensures Valid() && Rest() == b && buffer == b && !legitimateEnd
    {
      buffer, position, limit, legitimateEnd := b, 0, |b|, false;
    }

    method Advance(rest: Bytes)
      requires Valid() && Suffix(Rest(), rest)
      modifies this`position
      ensures Valid() && Rest() == rest && position >= old(position)
    {
      position := limit - |rest|;
    }

    /** The tag, 0 for none; and whether it is small enough to be one of the message's own fields. */
    method ReadTagWithCutoff(cutoff: UInt32) returns (tag: UInt32, known: bool)
      requires Valid()
      modifies this`position, this`legitimateEnd
      ensures Valid() && legitimateEnd == (old(Rest()) == [])
      ensures known == (0 < tag <= cutoff)
      ensures match ReadTag(old(Rest()))
              case None => tag == 0 && Rest() == old(Rest())
              case Some((t, rest)) => tag == t && Rest() == rest
    {
      legitimateEnd := position == limit;
      match ReadTag(Rest()) {
        case None => tag := 0;
        case Some((t, rest)) =>
          tag := t;
          ReadVarintSuffix(Rest());
          Advance(rest);
      }
      known := 0 < tag <= cutoff;
    }

    /** Consumes the encoded tag if it comes next. */
    method ExpectTag(expected: UInt32) returns (found: bool)
      requires Valid()
      modifies this`position
      ensures Valid() && found == (EncodeVarint(expected) <= old(Rest()))
      ensures old(Rest()) == if found then EncodeVarint(expected) + Rest() else Rest()
    {
      var bytes := EncodeVarint(expected);
      found := bytes <= Rest();
      if found {
        assert Rest() == bytes + Rest()[|bytes|..];
        Advance(Rest()[|bytes|..]);
      }
    }

    method ExpectAtEnd() returns (end: bool)
      requires Valid()
      modifies this`legitimateEnd
      ensures end == (Rest() == [])
      ensures legitimateEnd == (end || old(legitimateEnd))
    {
      end := position == limit;
      if end {
        legitimateEnd := true;
      }
    }

    /** A value of the wire type in `tag`: the primitive readers and SkipField. */
    method ReadField(tag: UInt32) returns (v: Option<Value>)
      requires Valid()
      modifies this`position
      ensures Valid()
      ensures match ReadValue(tag, old(Rest()))
              case None => v == None && Rest() == old(Rest())
              case Some((x, rest)) => v == Some(x) && Rest() == rest
      ensures position >= old(position) && (v.Some? && tag % 8 != 3 ==> position > old(position))
    {
      match ReadValue(tag, Rest())
      case None => v := None;
      case Some((x, rest)) =>
        v := Some(x);
        ReadValueSuffix(tag, Rest());
        Advance(rest);
    }

    /** Reads the length of a sub-message and makes its end the limit. */
    method PushLimit() returns (outer: Option<nat>)
      requires Valid()
      modifies this`position, this`limit
      ensures Valid() && position >= old(position)
      ensures match ReadDelimited(old(Rest()))
              case None => outer == None && limit == old(limit) && position == old(position)
              case Some((bytes, rest)) =>
                outer == Some(old(limit)) && position > old(position) && Rest() == bytes && limit <= old(limit)
                    && buffer[limit..old(limit)] == rest
    {
      outer := None;
      match ReadVarint(Rest())
      case None =>
      case Some((n, rest)) =>
        if n < TWO_TO_31 && n <= |rest| {
          outer := Some(limit);
          ReadVarintSuffix(Rest());
          Advance(rest);
          limit := position + n;
        }
    }

    /** Whether the sub-message was read to its limit; then the outer limit holds again. */
    method PopLimit(outer: nat) returns (consumed: bool)
      requires Valid() && limit <= outer <= |buffer|
      modifies this`limit, this`legitimateEnd
      ensures Valid() && limit == outer && consumed == old(legitimateEnd) && !legitimateEnd
    {
      consumed := legitimateEnd;
      limit, legitimateEnd := outer, false;
    }
  }

  // ----- where a parser stands

  /** The parse still to do: a tag to read, or the field `next` whose tag was expected and found. */
  ghost predicate Resumes<M>(whole: Parsed<M>, apply: (M, Record) -> Option<M>, m: M, next: UInt32, rest: Bytes) {
    whole == if next == 0 then Parse(apply, m, rest) else ParseField(apply, m, next, rest)
  }

  /** A parser's answer: true at the end and at a tag that ends the loop, and the stream tells which. */
  ghost predicate Answers<M>(whole: Parsed<M>, ok: bool, m: M, atEnd: bool, rest: Bytes) {
    match whole
    case Clean(x) => ok && m == x && atEnd && rest == []
    case Stopped(x) => ok && m == x && !atEnd
    case Failed => !ok
  }

  /** One field read into a message. */
  ghost predicate FieldRead<M>(
    apply: (M, Record) -> Option<M>, tag: UInt32, m: M, b: Bytes, ok: bool, m': M, rest: Bytes)
  {
    match ReadValue(tag, b)
    case None => !ok
    case Some((v, r)) =>
      match apply(m, Record(tag, v))
      case None => !ok
      case Some(x) => ok && m' == x && rest == r
  }

  /** A sub-message read into `m` from its length on. */
  ghost predicate MessageRead<M>(apply: (M, Record) -> Option<M>, m: M, b: Bytes, ok: bool, m': M, rest: Bytes) {
    match ReadDelimited(b)
    case None => !ok
    case Some((bytes, r)) =>
      match ParseWhole(apply, m, bytes)
      case None => !ok
      case Some(x) => ok && m' == x && rest == r
  }

  /** A field read keeps the parse on its way. */
  lemma FieldStep<M>(whole: Parsed<M>, apply: (M, Record) -> Option<M>, tag: UInt32, m: M, b: Bytes, ok: bool, m': M,
                     rest: Bytes)
    requires whole == ParseField(apply, m, tag, b) && FieldRead(apply, tag, m, b, ok, m', rest)
    ensures if ok then Resumes(whole, apply, m', 0, rest) else Answers(whole, false, m', false, rest)
  {
  }

  /** A tag read at the top of the loop: it ends the loop, or the parse goes on with its field. */
  lemma TagStep<M>(apply: (M, Record) -> Option<M>, m: M, b: Bytes, tag: UInt32, rest: Bytes)
    requires match ReadTag(b)
             case None => tag == 0 && rest == b
             case Some((t, r)) => tag == t && rest == r
    ensures if tag == 0 || tag % 8 == END_GROUP then Answers(Parse(apply, m, b), true, m, b == [], rest)
            else Parse(apply, m, b) == ParseField(apply, m, tag, rest)
  {
  }

  /** A field the message does not know changes nothing. */
  lemma SkipStep<M>(apply: (M, Record) -> Option<M>, m: M, tag: UInt32, b: Bytes)
    requires forall v :: apply(m, Record(tag, v)) == Some(m)
    ensures ParseField(apply, m, tag, b)
         == match ReadValue(tag, b) case None => Failed case Some((v, rest)) => Parse(apply, m, rest)
  {
  }

  /** A length-delimited field is a length and that many bytes. */
  lemma DelimitedField(tag: UInt32, b: Bytes)
    requires tag % 8 == 2
    ensures ReadValue(tag, b)
         == match ReadDelimited(b) case None => None case Some((bytes, rest)) => Some((Delimited(bytes), rest))
  {
  }

  /** The fast path out: nothing left is the end the slow loop would have met. */
  lemma AtEnd<M>(apply: (M, Record) -> Option<M>, m: M)
    ensures Parse(apply, m, []) == Clean(m)
  {
  }

  /** The fast path: a tag found where it was expected is the tag the slow loop would have read. */
  lemma ExpectedTag<M>(apply: (M, Record) -> Option<M>, m: M, tag: UInt32, rest: Bytes)
    requires 0 < tag && tag % 8 != END_GROUP
    ensures Parse(apply, m, EncodeVarint(tag) + rest) == ParseField(apply, m, tag, rest)
  {
    VarintRoundTrip(tag, rest);
    SmallModulo(tag, TWO_TO_32);
  }
}

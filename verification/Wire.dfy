/** The primitive layer of the Protocol Buffers encoding: varints, tags, fixed and length-delimited
    values, skipped groups, and the read-tag-and-switch loop over them. It follows the Encoding
    specification, sections "Base 128 Varints", "Message Structure" and "Length-Delimited Records". */
module Wire {
  import opened Options

  type Byte = b: int | 0 <= b < 256
  type Bytes = seq<Byte>

  const TWO_TO_31 := 0x8000_0000
  const TWO_TO_32 := 0x1_0000_0000
  const TWO_TO_63 := 0x8000_0000_0000_0000
  const TWO_TO_64 := 0x1_0000_0000_0000_0000

  type Int32 = i: int | -TWO_TO_31 <= i < TWO_TO_31
  type Int64 = i: int | -TWO_TO_63 <= i < TWO_TO_63
  type UInt32 = i: int | 0 <= i < TWO_TO_32
  type UInt64 = i: int | 0 <= i < TWO_TO_64

  // ----- varints

  function EncodeVarint(n: nat): (r: Bytes)
    ensures r != []
  {
    if n < 128 then [n] else [n % 128 + 128] + EncodeVarint(n / 128)
  }

  /** At most `k` bytes, seven bits from each, the least significant group first. */
  function ReadGroups(b: Bytes, k: nat): (r: Option<(nat, Bytes)>)
    ensures r.Some? ==> |r.value.1| < |b|
    decreases k
  {
    if k == 0 || b == [] then None
    else if b[0] < 128 then Some((b[0], b[1..]))
    else
      match ReadGroups(b[1..], k - 1)
      case None => None
      case Some((v, rest)) => Some((b[0] - 128 + 128 * v, rest))
  }

  /** A 64-bit value has at most ten groups of seven bits. */
  function MaxVarintBytes(): nat { 10 }

  /** Bits above the 64th are dropped. */
  function ReadVarint(b: Bytes): (r: Option<(UInt64, Bytes)>)
    ensures r.Some? ==> |r.value.1| < |b|
  {
    match ReadGroups(b, MaxVarintBytes())
    case None => None
    case Some((v, rest)) => Some((v % TWO_TO_64, rest))
  }

  /** The size computation of the library: one byte for every started group of seven bits, up to 64 bits. */
  function VarintSize(n: nat): nat {
    if n < 0x80 then 1
    else if n < 0x4000 then 2
    else if n < 0x20_0000 then 3
    else if n < 0x1000_0000 then 4
    else if n < 0x8_0000_0000 then 5
    else if n < 0x400_0000_0000 then 6
    else if n < 0x2_0000_0000_0000 then 7
    else if n < 0x100_0000_0000_0000 then 8
    else if n < 0x8000_0000_0000_0000 then 9
    else 10
  }

  function Pow128(k: nat): nat { if k == 0 then 1 else 128 * Pow128(k - 1) }

  lemma {:induction false} VarintLength(n: nat, k: nat)
    requires k > 0
    ensures |EncodeVarint(n)| <= k <==> n < Pow128(k)
    decreases k
  {
    assert Pow128(k) == 128 * Pow128(k - 1);
    if n >= 128 && k > 1 {
      VarintLength(n / 128, k - 1);
    } else if n < 128 {
      assert Pow128(k - 1) >= 1 by { Pow128Positive(k - 1); }
    } else {
      assert Pow128(0) == 1;
    }
  }

  lemma {:induction false} Pow128Positive(k: nat)
    ensures Pow128(k) >= 1
  {
    if k > 0 { Pow128Positive(k - 1); }
  }

  /** The size function is exact for every 64-bit value. */
  lemma VarintSizeExact(n: UInt64)
    ensures |EncodeVarint(n)| == VarintSize(n) <= 10
  {
    assert Pow128(1) == 0x80 && Pow128(2) == 0x4000 && Pow128(3) == 0x20_0000;
    assert Pow128(4) == 0x1000_0000 && Pow128(5) == 0x8_0000_0000 && Pow128(6) == 0x400_0000_0000;
    assert Pow128(7) == 0x2_0000_0000_0000 && Pow128(8) == 0x100_0000_0000_0000;
    assert Pow128(9) == 0x8000_0000_0000_0000 && Pow128(10) == 128 * Pow128(9);
    VarintLength(n, VarintSize(n));
    if VarintSize(n) > 1 {
      VarintLength(n, VarintSize(n) - 1);
    }
  }

  lemma {:induction false} ReadEncodedGroups(n: nat, rest: Bytes, k: nat)
    requires |EncodeVarint(n)| <= k
    ensures ReadGroups(EncodeVarint(n) + rest, k) == Some((n, rest))
  {
    var e := EncodeVarint(n) + rest;
    if n < 128 {
      assert e[1..] == rest;
    } else {
      assert e[1..] == EncodeVarint(n / 128) + rest;
      ReadEncodedGroups(n / 128, rest, k - 1);
    }
  }

  lemma AtMostMax(n: UInt64)
    ensures |EncodeVarint(n)| <= MaxVarintBytes()
  {
    VarintSizeExact(n);
  }

  lemma SmallModulo(n: nat, m: nat)
    requires n < m
    ensures n % m == n
  {
  }

  /** Reading back a written varint, whatever follows it. */
  lemma VarintRoundTrip(n: UInt64, rest: Bytes)
    ensures ReadVarint(EncodeVarint(n) + rest) == Some((n, rest))
  {
    AtMostMax(n);
    ReadEncodedGroups(n, rest, MaxVarintBytes());
    SmallModulo(n, TWO_TO_64);
  }

  lemma {:induction false} ReadGroupsLocal(b: Bytes, k: nat, y: Bytes)
    requires ReadGroups(b, k).Some?
    ensures ReadGroups(b + y, k) == Some((ReadGroups(b, k).value.0, ReadGroups(b, k).value.1 + y))
    decreases k
  {
    assert (b + y)[1..] == b[1..] + y;
    if b[0] >= 128 {
      ReadGroupsLocal(b[1..], k - 1, y);
    }
  }

  lemma ReadVarintLocal(b: Bytes, y: Bytes)
    requires ReadVarint(b).Some?
    ensures ReadVarint(b + y) == Some((ReadVarint(b).value.0, ReadVarint(b).value.1 + y))
  {
    ReadGroupsLocal(b, MaxVarintBytes(), y);
  }

  // ----- fixed-width values, least significant byte first

  function EncodeFixed(n: nat, k: nat): (r: Bytes)
    ensures |r| == k
  {
    if k == 0 then [] else [n % 256] + EncodeFixed(n / 256, k - 1)
  }

  function DecodeFixed(b: Bytes): nat {
    if b == [] then 0 else b[0] + 256 * DecodeFixed(b[1..])
  }

  function Pow256(k: nat): nat { if k == 0 then 1 else 256 * Pow256(k - 1) }

  lemma {:induction false} FixedRoundTrip(n: nat, k: nat)
    requires n < Pow256(k)
    ensures DecodeFixed(EncodeFixed(n, k)) == n
  {
    if k > 0 {
      FixedRoundTrip(n / 256, k - 1);
    }
  }

  lemma {:induction false} DecodeFixedRange(b: Bytes)
    ensures DecodeFixed(b) < Pow256(|b|)
  {
    if b != [] {
      DecodeFixedRange(b[1..]);
    }
  }

  function ReadFixed(b: Bytes, k: nat): (r: Option<(nat, Bytes)>)
    ensures r.Some? ==> r.value.0 < Pow256(k) && |r.value.1| == |b| - k
  {
    if |b| < k then None
    else
      DecodeFixedRange(b[..k]);
      Some((DecodeFixed(b[..k]), b[k..]))
  }

  lemma Pow256Values()
    ensures Pow256(4) == TWO_TO_32 && Pow256(8) == TWO_TO_64
  {
    assert Pow256(1) == 0x100 && Pow256(2) == 0x1_0000 && Pow256(3) == 0x100_0000;
    assert Pow256(5) == 0x100_0000_0000 && Pow256(6) == 0x1_0000_0000_0000 && Pow256(7) == 0x100_0000_0000_0000;
  }

  // ----- records

  /** The payload of a field, told apart by the wire type in its tag. */
  datatype Value = Varint(v: UInt64) | Fixed64(d: UInt64) | Delimited(bytes: Bytes) | Fixed32(f: UInt32) | Group

  datatype Record = Record(tag: UInt32, value: Value)

  const END_GROUP := 4

  function WireType(v: Value): nat {
    match v
    case Varint(_) => 0
    case Fixed64(_) => 1
    case Delimited(_) => 2
    case Group => 3
    case Fixed32(_) => 5
  }

  /** Tags are 32 bits wide. */
  function ReadTag(b: Bytes): (r: Option<(UInt32, Bytes)>)
    ensures r.Some? ==> |r.value.1| < |b|
  {
    match ReadVarint(b)
    case None => None
    case Some((v, rest)) => Some((v % TWO_TO_32, rest))
  }

  /** A length must fit an int and stay inside the enclosing message. */
  function ReadDelimited(b: Bytes): (r: Option<(Bytes, Bytes)>)
    ensures r.Some? ==> |r.value.0| < TWO_TO_31 && |r.value.1| < |b|
  {
    match ReadVarint(b)
    case None => None
    case Some((n, rest)) => if n < TWO_TO_31 && n <= |rest| then Some((rest[..n], rest[n..])) else None
  }

  /** The payload announced by `tag`. Wire types 6 and 7 do not exist. */
  function ReadValue(tag: UInt32, b: Bytes): (r: Option<(Value, Bytes)>)
    ensures r.Some? ==> |r.value.1| <= |b| && WireType(r.value.0) == tag % 8
    decreases |b|, 1
  {
    Pow256Values();
    if tag % 8 == 0 then
      match ReadVarint(b) case None => None case Some((v, rest)) => Some((Varint(v), rest))
    else if tag % 8 == 1 then
      match ReadFixed(b, 8) case None => None case Some((v, rest)) => Some((Fixed64(v), rest))
    else if tag % 8 == 2 then
      match ReadDelimited(b) case None => None case Some((v, rest)) => Some((Delimited(v), rest))
    else if tag % 8 == 3 then
      match SkipGroup(tag / 8, b) case None => None case Some(rest) => Some((Group, rest))
    else if tag % 8 == 5 then
      match ReadFixed(b, 4) case None => None case Some((v, rest)) => Some((Fixed32(v), rest))
    else None
  }

  /** Skips the fields of a group up to its own end tag. */
  function SkipGroup(field: nat, b: Bytes): (r: Option<Bytes>)
    ensures r.Some? ==> |r.value| <= |b|
    decreases |b|, 0
  {
    match ReadTag(b)
    case None => None
    case Some((tag, rest)) =>
      if tag == 0 then None
      else if tag % 8 == END_GROUP then if tag / 8 == field then Some(rest) else None
      else
        match ReadValue(tag, rest)
        case None => None
        case Some((_, rest')) => SkipGroup(field, rest')
  }

  function EncodeValue(v: Value): Bytes {
    match v
    case Varint(n) => EncodeVarint(n)
    case Fixed64(n) => EncodeFixed(n, 8)
    case Delimited(bytes) => EncodeVarint(|bytes|) + bytes
    case Fixed32(n) => EncodeFixed(n, 4)
    case Group => []
  }

  function EncodeRecord(r: Record): Bytes {
    EncodeVarint(r.tag) + EncodeValue(r.value)
  }

  function EncodeRecords(rs: seq<Record>): Bytes {
    if rs == [] then [] else EncodeRecord(rs[0]) + EncodeRecords(rs[1..])
  }

  /** A record a writer may produce: the tag names the payload's wire type, and lengths fit an int. */
  predicate ValidRecord(r: Record) {
    && r.tag > 0 && r.tag % 8 == WireType(r.value) && !r.value.Group?
    && (r.value.Delimited? ==> |r.value.bytes| < TWO_TO_31)
  }

  predicate ValidRecords(rs: seq<Record>) {
    forall i :: 0 <= i < |rs| ==> ValidRecord(rs[i])
  }

  lemma ReadEncodedFixed(n: nat, k: nat, rest: Bytes)
    requires n < Pow256(k)
    ensures ReadFixed(EncodeFixed(n, k) + rest, k) == Some((n, rest))
  {
    var e := EncodeFixed(n, k) + rest;
    FixedRoundTrip(n, k);
    assert e[..k] == EncodeFixed(n, k) && e[k..] == rest;
  }

  lemma ReadEncodedDelimited(bytes: Bytes, rest: Bytes)
    requires |bytes| < TWO_TO_31
    ensures ReadDelimited(EncodeVarint(|bytes|) + bytes + rest) == Some((bytes, rest))
  {
    hide EncodeVarint, ReadVarint;
    VarintRoundTrip(|bytes|, bytes + rest);
    assert EncodeVarint(|bytes|) + bytes + rest == EncodeVarint(|bytes|) + (bytes + rest);
    assert (bytes + rest)[..|bytes|] == bytes && (bytes + rest)[|bytes|..] == rest;
  }

  lemma ReadEncodedValue(tag: UInt32, v: Value, rest: Bytes)
    requires ValidRecord(Record(tag, v))
    ensures ReadValue(tag, EncodeValue(v) + rest) == Some((v, rest))
  {
    Pow256Values();
    match v {
      case Varint(n) => VarintRoundTrip(n, rest);
      case Fixed64(n) => ReadEncodedFixed(n, 8, rest);
      case Delimited(bytes) => ReadEncodedDelimited(bytes, rest);
      case Fixed32(n) => ReadEncodedFixed(n, 4, rest);
    }
  }

  lemma ReadValueLocal(tag: UInt32, b: Bytes, y: Bytes)
    requires ReadValue(tag, b).Some?
    ensures ReadValue(tag, b + y) == Some((ReadValue(tag, b).value.0, ReadValue(tag, b).value.1 + y))
    decreases |b|, 1
  {
    if tag % 8 == 0 {
      ReadVarintLocal(b, y);
    } else if tag % 8 == 1 {
      assert (b + y)[..8] == b[..8] && (b + y)[8..] == b[8..] + y;
    } else if tag % 8 == 2 {
      ReadDelimitedLocal(b, y);
    } else if tag % 8 == 3 {
      SkipGroupLocal(tag / 8, b, y);
    } else {
      assert (b + y)[..4] == b[..4] && (b + y)[4..] == b[4..] + y;
    }
  }

  lemma ReadDelimitedLocal(b: Bytes, y: Bytes)
    requires ReadDelimited(b).Some?
    ensures ReadDelimited(b + y) == Some((ReadDelimited(b).value.0, ReadDelimited(b).value.1 + y))
  {
    ReadVarintLocal(b, y);
    var (n, rest) := ReadVarint(b).value;
    assert (rest + y)[..n] == rest[..n] && (rest + y)[n..] == rest[n..] + y;
  }

  lemma SkipGroupLocal(field: nat, b: Bytes, y: Bytes)
    requires SkipGroup(field, b).Some?
    ensures SkipGroup(field, b + y) == Some(SkipGroup(field, b).value + y)
    decreases |b|, 0
  {
    ReadVarintLocal(b, y);
    var (tag, rest) := ReadTag(b).value;
    if tag % 8 != END_GROUP {
      ReadValueLocal(tag, rest, y);
      SkipGroupLocal(field, ReadValue(tag, rest).value.1, y);
    }
  }
}

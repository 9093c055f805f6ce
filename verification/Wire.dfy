/**
 The Protocol Buffers wire format, as far as the size of a request depends on it:
 base-128 varints, and records that are either a varint or length-delimited
 (Protocol Buffers Encoding, "Base 128 Varints" and "Length-Delimited Records").
 */
module Wire {
  import opened Basics

  newtype byte = x: int | 0 <= x < 256

  type Bytes = seq<byte>

  function Varint(n: nat): (b: Bytes)
    ensures |b| >= 1
  {
    if n < 128 then [n as byte] else [(n % 128 + 128) as byte] + Varint(n / 128)
  }

  /** One record; `num` is the field number of the .proto file. */
  datatype Field = Number(num: nat, value: nat) | Delimited(num: nat, body: Bytes)

  function EncodeField(f: Field): (b: Bytes)
    ensures |b| >= 2
  {
    match f
    case Number(num, value) => Varint(8 * num) + Varint(value)
    case Delimited(num, body) => Varint(8 * num + 2) + Varint(|body|) + body
  }

  function Encode(fields: seq<Field>): Bytes {
    if fields == [] then [] else EncodeField(fields[0]) + Encode(fields[1..])
  }

  // ---------- reading back what was written ----------

  function ReadVarint(b: Bytes): (r: Option<(nat, Bytes)>)
    ensures r.Some? ==> |r.value.1| < |b|
  {
    if b == [] then None
    else if b[0] < 128 then Some((b[0] as nat, b[1..]))
    else match ReadVarint(b[1..])
      case None => None
      case Some((high, rest)) => Some((high * 128 + (b[0] as nat - 128), rest))
  }

  function ReadField(b: Bytes): (r: Option<(Field, Bytes)>)
    ensures r.Some? ==> |r.value.1| < |b|
  {
    match ReadVarint(b)
    case None => None
    case Some((tag, rest)) =>
      match ReadVarint(rest)
      case None => None
      case Some((value, rest')) =>
        if tag % 8 == 0 then Some((Number(tag / 8, value), rest'))
        else if tag % 8 == 2 && value <= |rest'| then
          Some((Delimited(tag / 8, rest'[..value]), rest'[value..]))
        else None
  }

  function Decode(b: Bytes): Option<seq<Field>>
    decreases |b|
  {
    if b == [] then Some([])
    else match ReadField(b)
      case None => None
      case Some((f, rest)) =>
        match Decode(rest)
        case None => None
        case Some(fs) => Some([f] + fs)
  }

  lemma {:induction false} VarintRoundTrip(n: nat, rest: Bytes)
    ensures ReadVarint(Varint(n) + rest) == Some((n, rest))
  {
    var b := Varint(n) + rest;
    if n < 128 {
      assert b[1..] == rest;
    } else {
      assert b[1..] == Varint(n / 128) + rest;
      VarintRoundTrip(n / 128, rest);
    }
  }

  lemma NumberRoundTrip(num: nat, value: nat, rest: Bytes)
    ensures ReadField(EncodeField(Number(num, value)) + rest) == Some((Number(num, value), rest))
  {
    var b := EncodeField(Number(num, value)) + rest;
    assert b == Varint(8 * num) + (Varint(value) + rest);
    VarintRoundTrip(8 * num, Varint(value) + rest);
    VarintRoundTrip(value, rest);
  }

  lemma DelimitedRoundTrip(num: nat, body: Bytes, rest: Bytes)
    ensures ReadField(EncodeField(Delimited(num, body)) + rest) == Some((Delimited(num, body), rest))
  {
    var b := EncodeField(Delimited(num, body)) + rest;
    var tag := 8 * num + 2;
    var tail := body + rest;
    assert b == Varint(tag) + (Varint(|body|) + tail);
    VarintRoundTrip(tag, Varint(|body|) + tail);
    VarintRoundTrip(|body|, tail);
    assert tail[..|body|] == body && tail[|body|..] == rest;
    assert tag % 8 == 2 && tag / 8 == num;
  }

  /** No two lists of records share an encoding: the sizes below are sizes of real messages. */
  lemma {:induction false} EncodeRoundTrip(fields: seq<Field>)
    ensures Decode(Encode(fields)) == Some(fields)
  {
    if fields != [] {
      match fields[0] {
        case Number(num, value) => NumberRoundTrip(num, value, Encode(fields[1..]));
        case Delimited(num, body) => DelimitedRoundTrip(num, body, Encode(fields[1..]));
      }
      EncodeRoundTrip(fields[1..]);
      assert Encode(fields) != [];
      assert fields == [fields[0]] + fields[1..];
    }
  }

  // ---------- sizes ----------

  lemma {:induction false} EncodeAppend(a: seq<Field>, b: seq<Field>)
    ensures Encode(a + b) == Encode(a) + Encode(b)
  {
    hide EncodeField;
    if a == [] {
      assert a + b == b;
    } else {
      var head, tail := EncodeField(a[0]), Encode(a[1..]);
      calc {
        Encode(a + b);
        { assert (a + b)[1..] == a[1..] + b; }
        head + Encode(a[1..] + b);
        { EncodeAppend(a[1..], b); }
        head + (tail + Encode(b));
        (head + tail) + Encode(b);
      }
    }
  }

  /** A varint never shrinks as its value grows, and one more costs at most one byte more. */
  lemma {:induction false} VarintStep(n: nat)
    ensures |Varint(n)| <= |Varint(n + 1)| <= |Varint(n)| + 1
  {
    if n >= 127 && (n + 1) / 128 != n / 128 && n >= 128 {
      VarintStep(n / 128);
    }
  }

  lemma {:induction false} VarintMonotone(m: nat, n: nat)
    requires m <= n
    ensures |Varint(m)| <= |Varint(n)|
    decreases n
  {
    if m >= 128 {
      VarintMonotone(m / 128, n / 128);
    }
  }

  lemma VarintUint32(n: uint32)
    ensures |Varint(n)| <= 5 == |Varint(UINT32_MAX)|
  {
    VarintMonotone(n, UINT32_MAX);
    assert |Varint(15)| == 1;
    assert |Varint(2047)| == 2;
    assert |Varint(262143)| == 3;
    assert |Varint(33554431)| == 4;
  }

  /** Bytes taken by a length-delimited record whose field number fits a one-byte tag. */
  function DelimitedSize(body: nat): (n: nat)
    ensures n >= 2
  {
    1 + |Varint(body)| + body
  }

  lemma EncodeOne(f: Field)
    requires 1 <= f.num <= 15
    ensures Encode([f]) == EncodeField(f)
    ensures |Encode([f])| == if f.Number? then 1 + |Varint(f.value)| else DelimitedSize(|f.body|)
  {
    assert Encode([f]) == EncodeField(f) + Encode([]);
  }
}

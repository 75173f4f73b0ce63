/**
 * A self-delimiting byte encoding of datums, standing in for the key
 * encoding of package codec (`codec.EncodeKey` / `codec.Decode`), which is
 * not part of this model: a flag byte, then for integers the value offset by
 * 2^63 as 8 big-endian bytes, for byte strings their length as 8 big-endian
 * bytes and the bytes themselves.
 */
module DatumCodec {
  import opened Encoding
  import opened Datums
  import opened Outcomes

  const NilFlag: byte := 0
  const BytesFlag: byte := 1
  const MinNotNullFlag: byte := 2
  const IntFlag: byte := 3
  const MaxFlag: byte := 250

  lemma Pow256Eight()
    ensures Pow256(8) == 0x1_0000_0000_0000_0000
  {
    assert Pow256(0) == 1;
    assert Pow256(1) == 256;
    assert Pow256(2) == 0x1_0000;
    assert Pow256(3) == 0x100_0000;
    assert Pow256(4) == 0x1_0000_0000;
    assert Pow256(5) == 0x100_0000_0000;
    assert Pow256(6) == 0x1_0000_0000_0000;
    assert Pow256(7) == 0x100_0000_0000_0000;
  }

  /** The 8-byte big-endian form of a `uint64` (`binary.BigEndian.PutUint64`). */
  function Uint64Bytes(n: nat): (r: seq<byte>)
    requires n < 0x1_0000_0000_0000_0000
    ensures |r| == 8
  {
    ToBigEndian(n, 8)
  }

  /** Reading 8 big-endian bytes back gives the `uint64` written (`binary.BigEndian.Uint64`). */
  lemma Uint64BytesRoundTrip(n: nat)
    requires n < 0x1_0000_0000_0000_0000
    ensures FromBigEndian(Uint64Bytes(n)) == n
  {
    Pow256Eight();
    BigEndianRoundTrip(n, 8);
  }

  /** One datum: a flag byte, then for integers the value offset by 2^63, for byte strings their length and bytes. */
  function EncodeDatum(d: Datum): (r: seq<byte>)
    ensures |r| >= 1
  {
    match d
    case Null => [NilFlag]
    case MinNotNull => [MinNotNullFlag]
    case Int(i) => [IntFlag] + Uint64Bytes(i - MinInt64)
    case Bytes(b) => [BytesFlag] + Uint64Bytes(|b|) + b
    case MaxValue => [MaxFlag]
  }

  /** The datum at the front of `s` and the number of bytes it occupies. */
  function DecodeDatum(s: seq<byte>): (r: Option<(Datum, nat)>)
    ensures r.Some? ==> 1 <= r.value.1 <= |s|
  {
    if s == [] then None
    else if s[0] == NilFlag then Some((Null, 1))
    else if s[0] == MinNotNullFlag then Some((MinNotNull, 1))
    else if s[0] == MaxFlag then Some((MaxValue, 1))
    else if s[0] == IntFlag then
      if |s| < 9 then None
      else
        Pow256Eight();
        var u := FromBigEndian(s[1..9]);
        Some((Int(u + MinInt64), 9))
    else if s[0] == BytesFlag then
      if |s| < 9 then None
      else
        var n := FromBigEndian(s[1..9]);
        if n > MaxInt64 || |s| - 9 < n then None
        else Some((Bytes(s[9..9 + n]), 9 + n))
    else None
  }

  /** A datum decodes back from its encoding, whatever follows it. */
  lemma DecodeEncodeDatum(d: Datum, rest: seq<byte>)
    ensures DecodeDatum(EncodeDatum(d) + rest) == Some((d, |EncodeDatum(d)|))
  {
    match d
    case Int(i) => DecodeEncodeInt(i, rest);
    case Bytes(b) => DecodeEncodeBytes(b, rest);
    case _ =>
  }

  lemma DecodeEncodeInt(i: int64, rest: seq<byte>)
    ensures DecodeDatum(EncodeDatum(Int(i)) + rest) == Some((Int(i), |EncodeDatum(Int(i))|))
  {
    var h := Uint64Bytes(i - MinInt64);
    Uint64BytesRoundTrip(i - MinInt64);
    assert ([IntFlag] + h + rest)[1..9] == h;
  }

  lemma DecodeEncodeBytes(b: ByteString, rest: seq<byte>)
    ensures DecodeDatum(EncodeDatum(Bytes(b)) + rest) == Some((Bytes(b), |EncodeDatum(Bytes(b))|))
  {
    var h := Uint64Bytes(|b|);
    Uint64BytesRoundTrip(|b|);
    var s := [BytesFlag] + h + b + rest;
    assert s[1..9] == h;
    assert s[9..9 + |b|] == b;
  }

  function EncodeDatums(ds: seq<Datum>): seq<byte>
  {
    if ds == [] then [] else EncodeDatum(ds[0]) + EncodeDatums(ds[1..])
  }

  /** All the datums `s` holds, or None if it is not a sequence of encoded datums (`codec.Decode`). */
  function DecodeDatums(s: seq<byte>): Option<seq<Datum>>
    decreases |s|
  {
    if s == [] then Some([])
    else match DecodeDatum(s)
      case None => None
      case Some((d, n)) =>
        match DecodeDatums(s[n..])
        case None => None
        case Some(ds) => Some([d] + ds)
  }

  /** Decoding an encoded datum sequence gives it back. */
  lemma {:induction false} DecodeEncodeDatums(ds: seq<Datum>)
    ensures DecodeDatums(EncodeDatums(ds)) == Some(ds)
  {
    if ds != [] {
      var s := EncodeDatums(ds);
      var head := EncodeDatum(ds[0]);
      DecodeEncodeDatum(ds[0], EncodeDatums(ds[1..]));
      assert s[|head|..] == EncodeDatums(ds[1..]);
      DecodeEncodeDatums(ds[1..]);
      assert ds == [ds[0]] + ds[1..];
    }
  }

  /** Encoding two datum sequences one after the other is encoding their concatenation. */
  lemma {:induction false} EncodeDatumsAppend(a: seq<Datum>, b: seq<Datum>)
    ensures EncodeDatums(a + b) == EncodeDatums(a) + EncodeDatums(b)
  {
    if a == [] {
      assert a + b == b;
    } else {
      assert (a + b)[1..] == a[1..] + b;
      EncodeDatumsAppend(a[1..], b);
    }
  }

  /** The number of bytes a datum's encoding takes. */
  function DatumSize(d: Datum): nat
  {
    match d
    case Int(_) => 9
    case Bytes(b) => 9 + |b|
    case _ => 1
  }

  /** The number of bytes the encoding of a datum sequence takes. */
  function DatumsSize(ds: seq<Datum>): nat
  {
    if ds == [] then 0 else DatumSize(ds[0]) + DatumsSize(ds[1..])
  }

  /** The encoding of a datum sequence is as long as its size says. */
  lemma {:induction false} EncodeDatumsSize(ds: seq<Datum>)
    ensures |EncodeDatums(ds)| == DatumsSize(ds)
  {
    if ds != [] {
      EncodeDatumsSize(ds[1..]);
    }
  }

  /** The size of two datum sequences one after the other is the sum of their sizes. */
  lemma {:induction false} DatumsSizeAppend(a: seq<Datum>, b: seq<Datum>)
    ensures DatumsSize(a + b) == DatumsSize(a) + DatumsSize(b)
  {
    if a == [] {
      assert a + b == b;
    } else {
      assert (a + b)[1..] == a[1..] + b;
      DatumsSizeAppend(a[1..], b);
    }
  }
}

/**
 * The values that flow through the SQL layer (`types.Datum`) and their total
 * order (`Datum.CompareDatum`).  Only the kinds the modelled code inspects are
 * kept: NULL, the two sentinels used by range building, 64-bit integers and
 * byte strings.
 */
module Datums {
  import opened Encoding

  const MinInt64: int := -0x8000_0000_0000_0000
  const MaxInt64: int := 0x7fff_ffff_ffff_ffff

  type int64 = x: int | MinInt64 <= x <= MaxInt64

  /** A Go byte slice: its length is a non-negative `int`. */
  type ByteString = s: seq<byte> | |s| <= MaxInt64

  datatype Datum =
    | Null
    | MinNotNull          // sorts after NULL and before every other value
    | Int(i: int64)
    | Bytes(b: ByteString)
    | MaxValue            // sorts after every other value

  /** Position of a datum's kind in the order of kinds. */
  function KindRank(d: Datum): nat
  {
    match d
    case Null => 0
    case MinNotNull => 1
    case Int(_) => 2
    case Bytes(_) => 3
    case MaxValue => 4
  }

  /** Three-way lexicographic comparison of byte strings (`bytes.Compare`). */
  function CompareBytes(a: seq<byte>, b: seq<byte>): (c: int)
    ensures c == -1 || c == 0 || c == 1
    ensures c == 0 <==> a == b
  {
    if a == [] && b == [] then 0
    else if a == [] then -1
    else if b == [] then 1
    else if a[0] < b[0] then -1
    else if a[0] > b[0] then 1
    else
      var c := CompareBytes(a[1..], b[1..]);
      assert c == 0 ==> a == [a[0]] + a[1..] == [b[0]] + b[1..] == b;
      c
  }

  lemma {:induction false} CompareBytesAntisymmetric(a: seq<byte>, b: seq<byte>)
    ensures CompareBytes(b, a) == -CompareBytes(a, b)
  {
    if a != [] && b != [] && a[0] == b[0] {
      CompareBytesAntisymmetric(a[1..], b[1..]);
    }
  }

  lemma {:induction false} CompareBytesTransitive(a: seq<byte>, b: seq<byte>, c: seq<byte>)
    requires CompareBytes(a, b) < 0 && CompareBytes(b, c) < 0
    ensures CompareBytes(a, c) < 0
  {
    if a != [] && b != [] && c != [] && a[0] == b[0] == c[0] {
      CompareBytesTransitive(a[1..], b[1..], c[1..]);
    }
  }

  /** Three-way comparison of datums: kinds first, then the values of equal kinds. */
  function Compare(a: Datum, b: Datum): (c: int)
    ensures c == -1 || c == 0 || c == 1
    ensures c == 0 <==> a == b
  {
    if KindRank(a) < KindRank(b) then -1
    else if KindRank(a) > KindRank(b) then 1
    else match a
      case Int(x) => if x < b.i then -1 else if x > b.i then 1 else 0
      case Bytes(x) => CompareBytes(x, b.b)
      case _ => 0
  }

  /** Swapping the operands of `Compare` negates the result. */
  lemma CompareAntisymmetric(a: Datum, b: Datum)
    ensures Compare(b, a) == -Compare(a, b)
  {
    if a.Bytes? && b.Bytes? {
      CompareBytesAntisymmetric(a.b, b.b);
    }
  }

  /** `Compare` orders datums transitively; with antisymmetry this makes it a total order. */
  lemma CompareTransitive(a: Datum, b: Datum, c: Datum)
    requires Compare(a, b) < 0 && Compare(b, c) < 0
    ensures Compare(a, c) < 0
  {
    if a.Bytes? && b.Bytes? && c.Bytes? {
      CompareBytesTransitive(a.b, b.b, c.b);
    }
  }

  /** `a <= b` in the datum order. */
  predicate LessEq(a: Datum, b: Datum)
  {
    Compare(a, b) <= 0
  }

  /** `a < b` in the datum order. */
  predicate Less(a: Datum, b: Datum)
  {
    Compare(a, b) < 0
  }
}

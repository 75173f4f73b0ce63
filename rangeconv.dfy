/**
 * Turning range points into what a scan uses (sql/plan/range.go): inclusive
 * int64 handle ranges for a table (`buildTableRanges`) and datum ranges for
 * an index (`buildIndexRanges`, `appendIndexRanges`, `appendIndexRange`).
 */
module RangeConvert {
  import opened Outcomes
  import opened Datums
  import opened RangePoints

  /** `TableRange`: the handles from `low` to `high`, both included. */
  datatype TableRange = TableRange(low: int64, high: int64)

  /** `Datum.ToInt64`: an integer datum is its own value; any other kind goes through the datum library, passed in as `conv`. */
  function ToInt64(d: Datum, conv: Datum -> Result<int64>): (r: Result<int64>)
    ensures d.Int? ==> r == Ok(d.i)
  {
    if d.Int? then Ok(d.i) else conv(d)
  }

  /**
   * The first handle a start point admits, computed without overflow: NULL
   * and `MinNotNull` stand for the smallest int64, and the converted value
   * moves up by one when it lies below the point's value or equals an
   * excluded one.
   */
  function StartInt(p: Point, conv: Datum -> Result<int64>): (r: Result<int>)
    ensures r.Ok? ==> MinInt64 <= r.value <= MaxInt64 + 1
  {
    var v := if p.value == Null || p.value == MinNotNull then Int(MinInt64) else p.value;
    match ToInt64(v, conv)
    case Err(msg) => Err(msg)
    case Ok(n) =>
      var cmp := Compare(Int(n), v);
      Ok(if cmp < 0 || (cmp == 0 && p.excl) then n + 1 else n)
  }

  /**
   * The last handle an end point admits, computed without overflow: NULL
   * stands for the smallest int64 and `MaxValue` for the largest, and the
   * converted value moves down by one when it lies above the point's value
   * or equals an excluded one.
   */
  function EndInt(p: Point, conv: Datum -> Result<int64>): (r: Result<int>)
    ensures r.Ok? ==> MinInt64 - 1 <= r.value <= MaxInt64
  {
    var v := if p.value == Null then Int(MinInt64) else if p.value == MaxValue then Int(MaxInt64) else p.value;
    match ToInt64(v, conv)
    case Err(msg) => Err(msg)
    case Ok(n) =>
      var cmp := Compare(Int(n), v);
      Ok(if cmp > 0 || (cmp == 0 && p.excl) then n - 1 else n)
  }

  /** Two's-complement wrap-around of Go's `int64` arithmetic. */
  function Wrap64(x: int): int64
  {
    (x - MinInt64) % 0x1_0000_0000_0000_0000 + MinInt64
  }

  /**
   * The table range of one pair of bounds, or none when it is empty.  The
   * bounds are taken as they are, or, when `wrapping`, after the int64
   * wrap-around of the source's `startInt++` and `endInt--`.
   */
  function PairRange(lo: int, hi: int, wrapping: bool): (r: Option<TableRange>)
    requires MinInt64 <= lo && hi <= MaxInt64
    ensures !wrapping ==> (r.Some? <==> lo <= hi)
    ensures !wrapping && r.Some? ==> r.value.low == lo && r.value.high == hi
  {
    if wrapping then
      var l := Wrap64(lo);
      var h := Wrap64(hi);
      if l > h then None else Some(TableRange(l, h))
    else if lo > hi then None
    else Some(TableRange(lo, hi))
  }

  /**
   * The outcome of pair `k` of the points: a conversion error, no range
   * when the pair admits no handle, or its table range.
   */
  function PairResult(points: seq<Point>, conv: Datum -> Result<int64>, k: nat, wrapping: bool): Result<Option<TableRange>>
    requires 2 * k + 1 < |points|
  {
    match StartInt(points[2 * k], conv)
    case Err(msg) => Err(msg)
    case Ok(lo) =>
      match EndInt(points[2 * k + 1], conv)
      case Err(msg) => Err(msg)
      case Ok(hi) => Ok(PairRange(lo, hi, wrapping))
  }

  /**
   * `buildTableRanges` over the first `n` pairs of points: the ranges so
   * far, and the conversion error that stopped it, if any.
   */
  function TableRangesWith(points: seq<Point>, conv: Datum -> Result<int64>, n: nat, wrapping: bool): (seq<TableRange>, Option<string>)
    requires 2 * n <= |points|
  {
    if n == 0 then ([], None)
    else Next(TableRangesWith(points, conv, n - 1, wrapping), PairResult(points, conv, n - 1, wrapping))
  }

  /** One step of `buildTableRanges`: an earlier error stands, a new error stops, a range is appended. */
  function Next(prev: (seq<TableRange>, Option<string>), pair: Result<Option<TableRange>>): (seq<TableRange>, Option<string>)
  {
    if prev.1.Some? then prev
    else match pair
      case Err(msg) => (prev.0, Some(msg))
      case Ok(None) => (prev.0, None)
      case Ok(Some(r)) => (prev.0 + [r], None)
  }

  /** Once a conversion has failed, later pairs change nothing. */
  lemma {:induction false} ErrorStops(points: seq<Point>, conv: Datum -> Result<int64>, n: nat, m: nat, wrapping: bool)
    requires n <= m && 2 * m <= |points|
    requires TableRangesWith(points, conv, n, wrapping).1.Some?
    ensures TableRangesWith(points, conv, m, wrapping) == TableRangesWith(points, conv, n, wrapping)
    decreases m
  {
    if n < m {
      ErrorStops(points, conv, n, m - 1, wrapping);
    }
  }

  /** `buildTableRanges` as written: its increments and decrements wrap around. */
  function TableRangesAsWritten(points: seq<Point>, conv: Datum -> Result<int64>): (seq<TableRange>, Option<string>)
    requires |points| % 2 == 0
  {
    TableRangesWith(points, conv, |points| / 2, true)
  }

  /** `buildTableRanges` as intended: a bound pushed past the int64 range empties its range. */
  function TableRanges(points: seq<Point>, conv: Datum -> Result<int64>): (seq<TableRange>, Option<string>)
    requires |points| % 2 == 0
  {
    TableRangesWith(points, conv, |points| / 2, false)
  }

  /**
   * `buildTableRanges`, step by step.  A conversion error ends the loop
   * with the ranges built so far; an empty range is skipped.
   */
  method BuildTableRanges(points: seq<Point>, conv: Datum -> Result<int64>) returns (ranges: seq<TableRange>, err: Option<string>)
    requires |points| % 2 == 0
    ensures (ranges, err) == TableRanges(points, conv)
  {
    ranges := [];
    var i := 0;
    ghost var k := 0;
    while i < |points|
      invariant i == 2 * k <= |points|
      invariant TableRangesWith(points, conv, k, false) == (ranges, None)
    {
      var startInt := StartInt(points[i], conv);
      if startInt.Err? {
        PairError(points, conv, k, startInt.msg);
        StepError(points, conv, k, ranges, startInt.msg);
        return ranges, Some(startInt.msg);
      }
      var endInt := EndInt(points[i + 1], conv);
      if endInt.Err? {
        PairError(points, conv, k, endInt.msg);
        StepError(points, conv, k, ranges, endInt.msg);
        return ranges, Some(endInt.msg);
      }
      StepRange(points, conv, k, ranges);
      if startInt.value <= endInt.value {
        ranges := ranges + [TableRange(startInt.value, endInt.value)];
      }
      i, k := i + 2, k + 1;
    }
    err := None;
  }

  /** A conversion error at pair `k` is the result of the whole conversion. */
  lemma StepError(points: seq<Point>, conv: Datum -> Result<int64>, k: nat, ranges: seq<TableRange>, msg: string)
    requires 2 * k + 1 < |points| && |points| % 2 == 0
    requires TableRangesWith(points, conv, k, false) == (ranges, None)
    requires PairResult(points, conv, k, false) == Err(msg)
    ensures TableRanges(points, conv) == (ranges, Some(msg))
  {
    var pairs := |points| / 2;
    assert 2 * pairs == |points|;
    ErrorAt(points, conv, k, pairs, ranges, msg);
  }

  /** A conversion error at pair `k` is the outcome after any later pair. */
  lemma ErrorAt(points: seq<Point>, conv: Datum -> Result<int64>, k: nat, m: nat, ranges: seq<TableRange>, msg: string)
    requires k < m && 2 * m <= |points|
    requires TableRangesWith(points, conv, k, false) == (ranges, None)
    requires PairResult(points, conv, k, false) == Err(msg)
    ensures TableRangesWith(points, conv, m, false) == (ranges, Some(msg))
  {
    TableRangesStep(points, conv, k + 1, false);
    NextError(TableRangesWith(points, conv, k, false), PairResult(points, conv, k, false));
    ErrorStops(points, conv, k + 1, m, false);
  }

  /** A failed conversion of either bound is the outcome of the pair. */
  lemma PairError(points: seq<Point>, conv: Datum -> Result<int64>, k: nat, msg: string)
    requires 2 * k + 1 < |points|
    requires StartInt(points[2 * k], conv) == Err(msg)
             || (StartInt(points[2 * k], conv).Ok? && EndInt(points[2 * k + 1], conv) == Err(msg))
    ensures PairResult(points, conv, k, false) == Err(msg)
  {
  }

  /** A failed pair after no error stops with its message. */
  lemma NextError(prev: (seq<TableRange>, Option<string>), pair: Result<Option<TableRange>>)
    requires prev.1.None? && pair.Err?
    ensures Next(prev, pair) == (prev.0, Some(pair.msg))
  {
  }

  /** Pair `k` converts to its bounds and adds their range unless it is empty. */
  lemma StepRange(points: seq<Point>, conv: Datum -> Result<int64>, k: nat, ranges: seq<TableRange>)
    requires 2 * k + 1 < |points|
    requires TableRangesWith(points, conv, k, false) == (ranges, None)
    requires StartInt(points[2 * k], conv).Ok? && EndInt(points[2 * k + 1], conv).Ok?
    ensures var lo, hi := StartInt(points[2 * k], conv).value, EndInt(points[2 * k + 1], conv).value;
            TableRangesWith(points, conv, k + 1, false) == (if lo <= hi then ranges + [TableRange(lo, hi)] else ranges, None)
  {
  }

  /** Handle `x` lies in one of the table ranges. */
  predicate InTableRanges(ranges: seq<TableRange>, x: int)
  {
    exists j :: 0 <= j < |ranges| && ranges[j].low <= x <= ranges[j].high
  }

  /**
   * Points whose bounds the conversion keeps exactly: integer values, starts
   * from NULL or `MinNotNull` that include them, and ends at `MaxValue` that
   * include it.
   */
  predicate Supported(points: seq<Point>)
  {
    forall k :: 0 <= k < |points| ==> SupportedPoint(points[k], k % 2 == 0)
  }

  predicate SupportedPoint(p: Point, start: bool)
  {
    p.value.Int? || (!p.excl && if start then p.value == Null || p.value == MinNotNull else p.value == MaxValue)
  }

  /** Over an integer or a sentinel start, the first admitted handle is exact. */
  lemma StartIntAdmits(p: Point, conv: Datum -> Result<int64>, x: int64)
    requires SupportedPoint(p, true)
    ensures StartInt(p, conv).Ok?
    ensures StartInt(p, conv).value <= x <==> (if p.excl then Less(p.value, Int(x)) else LessEq(p.value, Int(x)))
  {
  }

  /** Over an integer or a `MaxValue` end, the last admitted handle is exact. */
  lemma EndIntAdmits(p: Point, conv: Datum -> Result<int64>, x: int64)
    requires SupportedPoint(p, false)
    ensures EndInt(p, conv).Ok?
    ensures x <= EndInt(p, conv).value <==> (if p.excl then Less(Int(x), p.value) else LessEq(Int(x), p.value))
  {
  }

  /** A pair of supported points converts to a range holding exactly the handles the pair admits. */
  lemma PairExact(points: seq<Point>, conv: Datum -> Result<int64>, k: nat, x: int64)
    requires 2 * k + 1 < |points| && Supported(points)
    ensures PairResult(points, conv, k, false).Ok?
    ensures var r := PairResult(points, conv, k, false).value;
            (r.Some? && r.value.low <= x <= r.value.high) <==> InPair(points, k, Int(x))
  {
    assert SupportedPoint(points[2 * k], (2 * k) % 2 == 0);
    assert SupportedPoint(points[2 * k + 1], (2 * k + 1) % 2 == 0);
    StartIntAdmits(points[2 * k], conv, x);
    EndIntAdmits(points[2 * k + 1], conv, x);
  }

  /** Over supported points the conversion never fails. */
  lemma TableRangesNoError(points: seq<Point>, conv: Datum -> Result<int64>, n: nat)
    requires 2 * n <= |points| && Supported(points)
    ensures TableRangesWith(points, conv, n, false).1 == None
  {
    forall k | 0 <= k < n
      ensures PairResult(points, conv, k, false).Ok?
    {
      SupportedPair(points, k);
      PairConverts(points, conv, k);
    }
    PairsConvert(points, conv, n);
  }

  /** When each of the first `n` pairs converts, the conversion of those pairs has no error. */
  lemma {:induction false} PairsConvert(points: seq<Point>, conv: Datum -> Result<int64>, n: nat)
    requires 2 * n <= |points|
    requires forall k :: 0 <= k < n ==> PairResult(points, conv, k, false).Ok?
    ensures TableRangesWith(points, conv, n, false).1 == None
  {
    if n > 0 {
      PairsConvert(points, conv, n - 1);
      TableRangesStep(points, conv, n, false);
      NextNoError(TableRangesWith(points, conv, n - 1, false), PairResult(points, conv, n - 1, false));
    }
  }

  lemma TableRangesStep(points: seq<Point>, conv: Datum -> Result<int64>, n: nat, wrapping: bool)
    requires 0 < n && 2 * n <= |points|
    ensures TableRangesWith(points, conv, n, wrapping)
            == Next(TableRangesWith(points, conv, n - 1, wrapping), PairResult(points, conv, n - 1, wrapping))
  {
  }

  /** A step over a converted pair after no error leaves no error. */
  lemma NextNoError(prev: (seq<TableRange>, Option<string>), pair: Result<Option<TableRange>>)
    requires prev.1.None? && pair.Ok?
    ensures Next(prev, pair).1.None?
  {
  }

  /** Pair `k` of supported points has a supported start and a supported end. */
  lemma SupportedPair(points: seq<Point>, k: nat)
    requires 2 * k + 1 < |points| && Supported(points)
    ensures SupportedPoint(points[2 * k], true) && SupportedPoint(points[2 * k + 1], false)
  {
    assert SupportedPoint(points[2 * k], (2 * k) % 2 == 0);
    assert SupportedPoint(points[2 * k + 1], (2 * k + 1) % 2 == 0);
  }

  /** A pair of supported bounds converts without error. */
  lemma PairConverts(points: seq<Point>, conv: Datum -> Result<int64>, k: nat)
    requires 2 * k + 1 < |points|
    requires SupportedPoint(points[2 * k], true) && SupportedPoint(points[2 * k + 1], false)
    ensures PairResult(points, conv, k, false).Ok?
  {
    StartIntAdmits(points[2 * k], conv, 0);
    EndIntAdmits(points[2 * k + 1], conv, 0);
  }

  /** Every table range comes from the pair at some position. */
  lemma {:induction false} TableRangeFrom(points: seq<Point>, conv: Datum -> Result<int64>, n: nat, wrapping: bool, j: nat) returns (k: nat)
    requires 2 * n <= |points| && j < |TableRangesWith(points, conv, n, wrapping).0|
    ensures k < n && PairResult(points, conv, k, wrapping) == Ok(Some(TableRangesWith(points, conv, n, wrapping).0[j]))
  {
    var before := TableRangesWith(points, conv, n - 1, wrapping);
    if j < |before.0| {
      k := TableRangeFrom(points, conv, n - 1, wrapping, j);
    } else {
      k := n - 1;
    }
  }

  /** Without an error, the range of every pair that has one is among the table ranges. */
  lemma {:induction false} TableRangeOf(points: seq<Point>, conv: Datum -> Result<int64>, n: nat, wrapping: bool, k: nat) returns (j: nat)
    requires 2 * n <= |points| && k < n && TableRangesWith(points, conv, n, wrapping).1 == None
    requires PairResult(points, conv, k, wrapping).Ok? && PairResult(points, conv, k, wrapping).value.Some?
    ensures j < |TableRangesWith(points, conv, n, wrapping).0|
    ensures TableRangesWith(points, conv, n, wrapping).0[j] == PairResult(points, conv, k, wrapping).value.value
  {
    var before := TableRangesWith(points, conv, n - 1, wrapping);
    if k < n - 1 {
      j := TableRangeOf(points, conv, n - 1, wrapping, k);
    } else {
      j := |before.0|;
    }
  }

  /**
   * What `buildTableRanges` promises: over supported points, a handle lies in
   * the table ranges exactly when it lies in the ranges the points describe.
   */
  lemma TableRangesMember(points: seq<Point>, conv: Datum -> Result<int64>, x: int64)
    requires |points| % 2 == 0 && Supported(points)
    ensures TableRanges(points, conv).1 == None
    ensures InTableRanges(TableRanges(points, conv).0, x) <==> Member(points, Int(x))
  {
    var n := |points| / 2;
    var ranges := TableRanges(points, conv).0;
    TableRangesNoError(points, conv, n);
    MemberPairs(points, Int(x));
    if InTableRanges(ranges, x) {
      var j :| 0 <= j < |ranges| && ranges[j].low <= x <= ranges[j].high;
      var k := TableRangeFrom(points, conv, n, false, j);
      PairExact(points, conv, k, x);
    }
    if Member(points, Int(x)) {
      var k: nat :| 2 * k + 1 < |points| && InPair(points, k, Int(x));
      PairExact(points, conv, k, x);
      var j := TableRangeOf(points, conv, n, false, k);
    }
  }

  /**
   * Handles above the largest int64: `id > 9223372036854775807` admits no
   * handle, yet the start's `startInt++` wraps to the smallest int64 and the
   * source scans the whole table.  The corrected conversion returns no range.
   */
  lemma StartWrapFinding(conv: Datum -> Result<int64>)
    ensures var points := [Start(Int(MaxInt64), true), End(MaxValue, false)];
            && TableRangesAsWritten(points, conv) == ([TableRange(MinInt64, MaxInt64)], None)
            && TableRanges(points, conv) == ([], None)
            && forall x: int64 :: !Member(points, Int(x))
  {
    var points := [Start(Int(MaxInt64), true), End(MaxValue, false)];
    assert StartInt(points[0], conv) == Ok(MaxInt64 + 1);
    assert EndInt(points[1], conv) == Ok(MaxInt64);
    assert Wrap64(MaxInt64 + 1) == MinInt64 && Wrap64(MaxInt64) == MaxInt64;
    assert PairResult(points, conv, 0, true) == Ok(Some(TableRange(MinInt64, MaxInt64)));
    assert PairResult(points, conv, 0, false) == Ok(None);
    assert TableRangesWith(points, conv, 0, true).0 + [TableRange(MinInt64, MaxInt64)] == [TableRange(MinInt64, MaxInt64)];
    assert TableRangesWith(points, conv, 1, false) == ([], None);
    forall x: int64
      ensures !Member(points, Int(x))
    {
      PairMember(points[0], points[1], Int(x));
    }
  }

  /** The mirror image: `id < -9223372036854775808` wraps the end's `endInt--` to the largest int64. */
  lemma EndWrapFinding(conv: Datum -> Result<int64>)
    ensures var points := [Start(MinNotNull, false), End(Int(MinInt64), true)];
            && TableRangesAsWritten(points, conv) == ([TableRange(MinInt64, MaxInt64)], None)
            && TableRanges(points, conv) == ([], None)
  {
    var points := [Start(MinNotNull, false), End(Int(MinInt64), true)];
    assert StartInt(points[0], conv) == Ok(MinInt64);
    assert EndInt(points[1], conv) == Ok(MinInt64 - 1);
    assert Wrap64(MinInt64 - 1) == MaxInt64 && Wrap64(MinInt64) == MinInt64;
    assert PairResult(points, conv, 0, true) == Ok(Some(TableRange(MinInt64, MaxInt64)));
    assert PairResult(points, conv, 0, false) == Ok(None);
    assert TableRangesWith(points, conv, 0, true).0 + [TableRange(MinInt64, MaxInt64)] == [TableRange(MinInt64, MaxInt64)];
    assert TableRangesWith(points, conv, 1, false) == ([], None);
  }

  /** `IndexRange`: bounds on the leading index columns, one datum per column. */
  datatype IndexRange = IndexRange(lowVal: seq<Datum>, lowExclude: bool, highVal: seq<Datum>, highExclude: bool)

  /** `convertPoint`: the cast of a point to the index column's type, passed in. */
  type Convert = Point -> Point

  /** The range `origin` extended by one more column bounded by `s` and `e`. */
  function Extend(origin: IndexRange, s: Point, e: Point): (r: IndexRange)
    ensures |r.lowVal| == |origin.lowVal| + 1 && r.lowVal[..|origin.lowVal|] == origin.lowVal
    ensures |r.highVal| == |origin.highVal| + 1 && r.highVal[..|origin.highVal|] == origin.highVal
    ensures r.lowVal[|origin.lowVal|] == s.value && r.highVal[|origin.highVal|] == e.value
    ensures r.lowExclude == s.excl && r.highExclude == e.excl
  {
    IndexRange(origin.lowVal + [s.value], s.excl, origin.highVal + [e.value], e.excl)
  }

  /** Pair `k` of the converted points is kept: its start sorts before its end. */
  predicate Kept(points: seq<Point>, convert: Convert, k: nat)
    requires 2 * k + 1 < |points|
  {
    PointLess(convert(points[2 * k]), convert(points[2 * k + 1]))
  }

  /** The range pair `k` adds to `origin`. */
  function PairExtend(origin: IndexRange, points: seq<Point>, convert: Convert, k: nat): IndexRange
    requires 2 * k + 1 < |points|
  {
    Extend(origin, convert(points[2 * k]), convert(points[2 * k + 1]))
  }

  /** `appendIndexRange` over the first `n` pairs of points: one extended range per kept pair, in order. */
  function IndexRangesOf(origin: IndexRange, points: seq<Point>, convert: Convert, n: nat): seq<IndexRange>
    requires 2 * n <= |points|
  {
    if n == 0 then []
    else
      IndexRangesOf(origin, points, convert, n - 1)
      + (if Kept(points, convert, n - 1) then [PairExtend(origin, points, convert, n - 1)] else [])
  }

  /**
   * `appendIndexRange`: each pair of converted points whose start sorts
   * before its end extends `origin` by one column.
   */
  method AppendIndexRange(origin: IndexRange, points: seq<Point>, convert: Convert) returns (ranges: seq<IndexRange>)
    requires |points| % 2 == 0
    ensures ranges == IndexRangesOf(origin, points, convert, |points| / 2)
  {
    ranges := [];
    var i := 0;
    while i < |points|
      invariant i % 2 == 0 && i <= |points|
      invariant ranges == IndexRangesOf(origin, points, convert, i / 2)
    {
      var startPoint := convert(points[i]);
      var endPoint := convert(points[i + 1]);
      assert (i + 2) / 2 - 1 == i / 2;
      if PointLess(startPoint, endPoint) {
        var lowVal := origin.lowVal + [startPoint.value];
        var highVal := origin.highVal + [endPoint.value];
        ranges := ranges + [IndexRange(lowVal, startPoint.excl, highVal, endPoint.excl)];
      }
      i := i + 2;
    }
  }

  /** The range with no column bounded yet. */
  const NoColumns := IndexRange([], false, [], false)

  /** `buildIndexRanges`: the first column's ranges, one single-datum range per kept pair. */
  method BuildIndexRanges(points: seq<Point>, convert: Convert) returns (ranges: seq<IndexRange>)
    requires |points| % 2 == 0
    ensures ranges == IndexRangesOf(NoColumns, points, convert, |points| / 2)
    ensures forall j :: 0 <= j < |ranges| ==> |ranges[j].lowVal| == 1 && |ranges[j].highVal| == 1
  {
    ranges := AppendIndexRange(NoColumns, points, convert);
    forall j | 0 <= j < |ranges|
      ensures |ranges[j].lowVal| == 1 && |ranges[j].highVal| == 1
    {
      var k := IndexRangeFrom(NoColumns, points, convert, |points| / 2, j);
    }
  }

  /** Every range built comes from a kept pair, extending `origin` by that pair's converted values. */
  lemma {:induction false} IndexRangeFrom(origin: IndexRange, points: seq<Point>, convert: Convert, n: nat, j: nat) returns (k: nat)
    requires 2 * n <= |points| && j < |IndexRangesOf(origin, points, convert, n)|
    ensures k < n && Kept(points, convert, k)
    ensures IndexRangesOf(origin, points, convert, n)[j] == PairExtend(origin, points, convert, k)
  {
    var before := IndexRangesOf(origin, points, convert, n - 1);
    if j < |before| {
      k := IndexRangeFrom(origin, points, convert, n - 1, j);
    } else {
      k := n - 1;
    }
  }

  /** Every kept pair gives a range, in pair order. */
  lemma {:induction false} IndexRangeOf(origin: IndexRange, points: seq<Point>, convert: Convert, n: nat, k: nat) returns (j: nat)
    requires 2 * n <= |points| && k < n && Kept(points, convert, k)
    ensures j < |IndexRangesOf(origin, points, convert, n)|
    ensures IndexRangesOf(origin, points, convert, n)[j] == PairExtend(origin, points, convert, k)
  {
    if k < n - 1 {
      j := IndexRangeOf(origin, points, convert, n - 1, k);
    } else {
      j := |IndexRangesOf(origin, points, convert, n - 1)|;
    }
  }

  /**
   * `appendIndexRanges`: a range that is not a point (`IndexRange.IsPoint`,
   * passed in as `isPoint`) is kept as it is; a point range is replaced by
   * its extensions.
   */
  function AppendAll(origin: seq<IndexRange>, points: seq<Point>, convert: Convert, isPoint: IndexRange -> bool, n: nat): seq<IndexRange>
    requires |points| % 2 == 0 && n <= |origin|
  {
    if n == 0 then []
    else
      AppendAll(origin, points, convert, isPoint, n - 1)
      + (if isPoint(origin[n - 1]) then IndexRangesOf(origin[n - 1], points, convert, |points| / 2) else [origin[n - 1]])
  }

  method AppendIndexRanges(origin: seq<IndexRange>, points: seq<Point>, convert: Convert, isPoint: IndexRange -> bool)
    returns (ranges: seq<IndexRange>)
    requires |points| % 2 == 0
    ensures ranges == AppendAll(origin, points, convert, isPoint, |origin|)
  {
    ranges := [];
    for i := 0 to |origin|
      invariant ranges == AppendAll(origin, points, convert, isPoint, i)
    {
      if !isPoint(origin[i]) {
        ranges := ranges + [origin[i]];
      } else {
        var extended := AppendIndexRange(origin[i], points, convert);
        ranges := ranges + extended;
      }
    }
  }

  /** Without point ranges nothing is appended: the ranges come back unchanged. */
  lemma {:induction false} AppendAllNoPoints(origin: seq<IndexRange>, points: seq<Point>, convert: Convert, isPoint: IndexRange -> bool, n: nat)
    requires |points| % 2 == 0 && n <= |origin|
    requires forall j :: 0 <= j < n ==> !isPoint(origin[j])
    ensures AppendAll(origin, points, convert, isPoint, n) == origin[..n]
  {
    if n > 0 {
      AppendAllNoPoints(origin, points, convert, isPoint, n - 1);
      assert origin[..n] == origin[..n - 1] + [origin[n - 1]];
    }
  }

  /** Each appended range keeps a point range's bounds as its prefix and adds exactly one datum on each side. */
  lemma {:induction false} AppendAllShape(origin: seq<IndexRange>, points: seq<Point>, convert: Convert, isPoint: IndexRange -> bool, n: nat, j: nat)
    returns (i: nat)
    requires |points| % 2 == 0 && n <= |origin| && j < |AppendAll(origin, points, convert, isPoint, n)|
    ensures i < n
    ensures var r := AppendAll(origin, points, convert, isPoint, n)[j];
            if isPoint(origin[i]) then
              && |r.lowVal| == |origin[i].lowVal| + 1 && r.lowVal[..|origin[i].lowVal|] == origin[i].lowVal
              && |r.highVal| == |origin[i].highVal| + 1 && r.highVal[..|origin[i].highVal|] == origin[i].highVal
            else r == origin[i]
  {
    var before := AppendAll(origin, points, convert, isPoint, n - 1);
    if j < |before| {
      i := AppendAllShape(origin, points, convert, isPoint, n - 1, j);
    } else {
      i := n - 1;
      if isPoint(origin[i]) {
        var k := IndexRangeFrom(origin[i], points, convert, |points| / 2, j - |before|);
      }
    }
  }
}

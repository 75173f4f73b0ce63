/**
 * The points ranges are built from (`rangePoint` in sql/plan/range.go): a
 * datum, whether the range starts or ends there, and whether that datum is
 * excluded.  A list of points describes ranges two by two: points 2k and
 * 2k + 1 are the start and the end of range k.
 */
module RangePoints {
  import opened Datums
  import opened Sorting

  /** `rangePoint`. */
  datatype Point = Point(value: Datum, excl: bool, start: bool)

  /** A range start at `d`, `d` included unless `excl`. */
  function Start(d: Datum, excl: bool): Point
  {
    Point(d, excl, true)
  }

  /** A range end at `d`, `d` included unless `excl`. */
  function End(d: Datum, excl: bool): Point
  {
    Point(d, excl, false)
  }

  /**
   * Where a point sorts among points of the same value: an excluded end
   * first, then an included start, an included end, and an excluded start.
   */
  function TieRank(p: Point): nat
  {
    if !p.start && p.excl then 0
    else if p.start && !p.excl then 1
    else if !p.start then 2
    else 3
  }

  /** `rangePointEqualValueLess`: the order of two points of equal value. */
  function EqualValueLess(a: Point, b: Point): bool
  {
    if a.start && b.start then !a.excl && b.excl
    else if a.start then !a.excl && !b.excl
    else if b.start then a.excl || b.excl
    else a.excl && !b.excl
  }

  /** The case analysis of `rangePointEqualValueLess` orders points by their tie rank. */
  lemma EqualValueLessIsTieRank(a: Point, b: Point)
    ensures EqualValueLess(a, b) <==> TieRank(a) < TieRank(b)
  {
  }

  /** The tie rank tells apart the four kinds of point. */
  lemma TieRankInjective(a: Point, b: Point)
    ensures TieRank(a) == TieRank(b) <==> a.start == b.start && a.excl == b.excl
  {
  }

  /** `rangePointLess`: by value, and by `rangePointEqualValueLess` at equal values. */
  function PointLess(a: Point, b: Point): bool
  {
    var c := Compare(a.value, b.value);
    if c != 0 then c < 0 else EqualValueLess(a, b)
  }

  /** `rangePointLess` as a relation, the order `rangePointSorter` sorts by. */
  function PointOrder(): (Point, Point) -> bool
  {
    (a: Point, b: Point) => PointLess(a, b)
  }

  /** Two distinct points are ordered one way or the other, and never both ways. */
  lemma PointLessTotal(a: Point, b: Point)
    ensures PointLess(a, b) ==> !PointLess(b, a)
    ensures a != b ==> PointLess(a, b) || PointLess(b, a)
  {
    CompareAntisymmetric(a.value, b.value);
    EqualValueLessIsTieRank(a, b);
    EqualValueLessIsTieRank(b, a);
    TieRankInjective(a, b);
  }

  /** `rangePointLess` is transitive. */
  lemma PointLessTransitive(a: Point, b: Point, c: Point)
    requires PointLess(a, b) && PointLess(b, c)
    ensures PointLess(a, c)
  {
    EqualValueLessIsTieRank(a, b);
    EqualValueLessIsTieRank(b, c);
    EqualValueLessIsTieRank(a, c);
    if Compare(a.value, b.value) < 0 && Compare(b.value, c.value) < 0 {
      CompareTransitive(a.value, b.value, c.value);
    }
  }

  /** `rangePointLess` is a strict total order, so `sort.Sort` may sort by it. */
  lemma PointOrderIsStrictWeakOrder()
    ensures StrictWeakOrder(PointOrder())
  {
    var less := PointOrder();
    forall a | true
      ensures !less(a, a)
    {
      PointLessTotal(a, a);
    }
    forall a, b, c | less(a, b) && less(b, c)
      ensures less(a, c)
    {
      PointLessTransitive(a, b, c);
    }
    forall a, b, c | !less(a, b) && !less(b, c)
      ensures !less(a, c)
    {
      PointLessTotal(a, b);
      PointLessTotal(b, c);
      if less(a, c) {
        PointLessTotal(a, c);
        if a != b {
          PointLessTransitive(b, a, c);
        }
      }
    }
  }

  /** Value `v` is on the inner side of start `lo` and of end `hi`. */
  predicate Admits(lo: Point, hi: Point, v: Datum)
  {
    && (if lo.excl then Less(lo.value, v) else LessEq(lo.value, v))
    && (if hi.excl then Less(v, hi.value) else LessEq(v, hi.value))
  }

  /** Value `v` lies in one of the ranges the points describe two by two. */
  predicate Member(points: seq<Point>, v: Datum)
    decreases |points|
  {
    |points| >= 2 && (Admits(points[0], points[1], v) || Member(points[2..], v))
  }

  /** A value lies in the one range of two points when the range admits it. */
  lemma PairMember(lo: Point, hi: Point, v: Datum)
    ensures Member([lo, hi], v) <==> Admits(lo, hi, v)
  {
    assert [lo, hi][2..] == [];
  }

  /** Range `k` of a list of points: points `2k` and `2k + 1`. */
  predicate InPair(points: seq<Point>, k: nat, v: Datum)
    requires 2 * k + 1 < |points|
  {
    Admits(points[2 * k], points[2 * k + 1], v)
  }

  /** A value lies in a list of points exactly when one of its ranges admits it. */
  lemma MemberPairs(points: seq<Point>, v: Datum)
    ensures Member(points, v) <==> exists k: nat :: 2 * k + 1 < |points| && InPair(points, k, v)
  {
    if Member(points, v) {
      var k := MemberPair(points, v);
    }
    if exists k: nat :: 2 * k + 1 < |points| && InPair(points, k, v) {
      var k: nat :| 2 * k + 1 < |points| && InPair(points, k, v);
      PairMemberOf(points, k, v);
    }
  }

  /** The range of a list of points that admits a member value. */
  lemma {:induction false} MemberPair(points: seq<Point>, v: Datum) returns (k: nat)
    requires Member(points, v)
    ensures 2 * k + 1 < |points| && InPair(points, k, v)
    decreases |points|
  {
    if Admits(points[0], points[1], v) {
      k := 0;
    } else {
      var j := MemberPair(points[2..], v);
      k := j + 1;
      assert points[2..][2 * j] == points[2 * k];
      assert points[2..][2 * j + 1] == points[2 * k + 1];
    }
  }

  /** A value one of the ranges admits is a member. */
  lemma {:induction false} PairMemberOf(points: seq<Point>, k: nat, v: Datum)
    requires 2 * k + 1 < |points| && InPair(points, k, v)
    ensures Member(points, v)
    decreases k
  {
    if k > 0 {
      assert points[2..][2 * (k - 1)] == points[2 * k];
      assert points[2..][2 * (k - 1) + 1] == points[2 * k + 1];
      PairMemberOf(points[2..], k - 1, v);
    }
  }

  /** The points alternate start, end, start, end, ... and come in pairs. */
  predicate Alternating(points: seq<Point>)
  {
    |points| % 2 == 0 && forall k :: 0 <= k < |points| ==> (points[k].start <==> k % 2 == 0)
  }

  /** `fullRange`: from NULL, included, to the largest value, included. */
  function FullRange(): seq<Point>
  {
    [Start(Null, false), End(MaxValue, false)]
  }

  /** Every datum lies in the full range. */
  lemma FullRangeHoldsAll(v: Datum)
    ensures Member(FullRange(), v)
  {
    assert Admits(Start(Null, false), End(MaxValue, false), v);
  }

  /** Any two distinct points are ordered. */
  lemma PointOrderIsTotal()
    ensures Total(PointOrder())
  {
    forall a, b | a != b
      ensures PointLess(a, b) || PointLess(b, a)
    {
      PointLessTotal(a, b);
    }
  }

  /**
   * The points `sort.Sort` leaves in `rangePointSorter` do not depend on
   * the algorithm: any sorted permutation of them is the one `Sort` gives.
   */
  lemma PointSortUnique(s: seq<Point>, t: seq<Point>)
    requires Sorted(t, PointOrder()) && multiset(t) == multiset(s)
    ensures t == Sort(s, PointOrder())
  {
    PointOrderIsStrictWeakOrder();
    PointOrderIsTotal();
    SortSorted(s, PointOrder());
    SortedUnique(t, Sort(s, PointOrder()), PointOrder());
  }
}

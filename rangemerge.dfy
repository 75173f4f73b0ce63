/**
 * The counting scan behind `merge` (sql/plan/range.go): over points sorted
 * by `rangePointLess`, a running count goes up at each start and down at
 * each end; a start is kept when the count reaches the required level (1
 * for a union, 2 for an intersection) and an end when the count is about
 * to drop below it.
 */
module RangeMerge {
  import opened Sorting
  import opened RangePoints

  /** What a point adds to the running count. */
  function Weight(p: Point): int
  {
    if p.start then 1 else -1
  }

  /** Starts minus ends. */
  function Balance(s: seq<Point>): int
  {
    if s == [] then 0 else Balance(s[..|s| - 1]) + Weight(s[|s| - 1])
  }

  /** Removing one point takes its weight out of the balance. */
  lemma BalanceRemove(s: seq<Point>, i: nat)
    requires i < |s|
    ensures Balance(s) == Balance(s[..i] + s[i + 1..]) + Weight(s[i])
  {
    assert s[..i + 1] + s[i + 1..] == s;
    BalanceConcat(s[..i + 1], s[i + 1..]);
    assert s[..i + 1][..i] == s[..i];
    BalanceConcat(s[..i], s[i + 1..]);
  }

  /** The balance depends only on which points there are, so sorting keeps it. */
  lemma {:induction false} BalancePermutation(s: seq<Point>, t: seq<Point>)
    requires multiset(s) == multiset(t)
    ensures Balance(s) == Balance(t)
  {
    if s != [] {
      var x := s[|s| - 1];
      assert s == s[..|s| - 1] + [x];
      assert x in multiset(t);
      var i :| 0 <= i < |t| && t[i] == x;
      BalanceRemove(t, i);
      assert t == t[..i] + [x] + t[i + 1..];
      assert multiset(t[..i] + t[i + 1..]) == multiset(t) - multiset{x};
      assert multiset(s[..|s| - 1]) == multiset(s) - multiset{x};
      BalancePermutation(s[..|s| - 1], t[..i] + t[i + 1..]);
    } else {
      assert |t| == |multiset(t)| == 0;
    }
  }

  lemma {:induction false} BalanceConcat(a: seq<Point>, b: seq<Point>)
    ensures Balance(a + b) == Balance(a) + Balance(b)
    decreases |b|
  {
    if b != [] {
      assert (a + b)[..|a + b| - 1] == a + b[..|b| - 1];
      BalanceConcat(a, b[..|b| - 1]);
    } else {
      assert a + b == a;
    }
  }

  /** Start, end, start, end, ...: as many starts as ends. */
  lemma {:induction false} AlternatingBalance(s: seq<Point>)
    requires Alternating(s)
    ensures Balance(s) == 0
    decreases |s|
  {
    if s != [] {
      var init := s[..|s| - 2];
      assert Alternating(init);
      AlternatingBalance(init);
      assert s[..|s| - 1][..|s| - 2] == init;
    }
  }

  /** The state of `merge`'s loop after the first `n` sorted points: the points kept and the running count. */
  function Scan(points: seq<Point>, required: int, n: nat): (state: (seq<Point>, int))
    requires n <= |points|
  {
    if n == 0 then ([], 0)
    else
      var (merged, count) := Scan(points, required, n - 1);
      var p := points[n - 1];
      if p.start then
        (if count + 1 == required then merged + [p] else merged, count + 1)
      else
        (if count == required then merged + [p] else merged, count - 1)
  }

  /** The points kept alternate start, end, start, ... */
  predicate StartsAndEnds(merged: seq<Point>)
  {
    forall k :: 0 <= k < |merged| ==> (merged[k].start <==> k % 2 == 0)
  }

  /**
   * The loop's invariant: the count is the balance so far; the kept points
   * alternate, starting with a start, and their number is odd exactly when
   * the count is at or above the required level; they are points of the
   * input, sorted when the input is.
   */
  lemma {:induction false} ScanShape(points: seq<Point>, required: int, n: nat)
    requires n <= |points| && required >= 1
    ensures Scan(points, required, n).1 == Balance(points[..n])
    ensures StartsAndEnds(Scan(points, required, n).0)
    ensures |Scan(points, required, n).0| % 2 == 1 <==> Scan(points, required, n).1 >= required
    ensures forall k :: 0 <= k < |Scan(points, required, n).0| ==> Scan(points, required, n).0[k] in points[..n]
  {
    if n > 0 {
      ScanShape(points, required, n - 1);
      assert points[..n][..n - 1] == points[..n - 1];
      var merged := Scan(points, required, n - 1).0;
      forall k | 0 <= k < |merged|
        ensures merged[k] in points[..n]
      {
        assert merged[k] in points[..n - 1];
      }
    }
  }

  /** Over sorted points the kept points are sorted too. */
  lemma {:induction false} ScanSorted(points: seq<Point>, required: int, n: nat)
    requires n <= |points| && required >= 1
    requires Sorted(points, PointOrder())
    ensures Sorted(Scan(points, required, n).0, PointOrder())
  {
    if n > 0 {
      ScanSorted(points, required, n - 1);
      ScanShape(points, required, n - 1);
      SortedExtend(Scan(points, required, n - 1).0, points, n, PointOrder());
    }
  }

  /**
   * A sorted sequence of elements from the first `n - 1` of sorted `points`
   * stays sorted when `points[n - 1]` is appended.
   */
  lemma SortedExtend<T>(s: seq<T>, points: seq<T>, n: nat, less: (T, T) -> bool)
    requires 0 < n <= |points| && Sorted(points, less) && Sorted(s, less)
    requires forall k :: 0 <= k < |s| ==> s[k] in points[..n - 1]
    ensures Sorted(s + [points[n - 1]], less)
  {
    forall k | 0 <= k < |s|
      ensures !less(points[n - 1], s[k])
    {
      var j :| 0 <= j < n - 1 && points[..n - 1][j] == s[k];
      assert points[j] == s[k];
    }
  }

  /** The level a start must reach to be kept: 1 for a union, 2 for an intersection. */
  function Required(union: bool): int
  {
    if union then 1 else 2
  }

  /** The input of `merge`'s scan: both lists, sorted by `rangePointLess`. */
  function MergeInput(a: seq<Point>, b: seq<Point>): (points: seq<Point>)
    ensures |points| == |a| + |b|
    ensures multiset(points) == multiset(a + b)
  {
    Sort(a + b, PointOrder())
  }

  /** What `merge` returns: the points its scan keeps. */
  function Merged(a: seq<Point>, b: seq<Point>, union: bool): seq<Point>
  {
    Scan(MergeInput(a, b), Required(union), |a| + |b|).0
  }

  /** The merged points alternate start/end beginning with a start, and are points of the inputs. */
  lemma MergeAlternates(a: seq<Point>, b: seq<Point>, union: bool)
    ensures StartsAndEnds(Merged(a, b, union))
    ensures forall k :: 0 <= k < |Merged(a, b, union)| ==> Merged(a, b, union)[k] in multiset(a + b)
  {
    var points := MergeInput(a, b);
    ScanShape(points, Required(union), |points|);
    assert points[..|points|] == points;
  }

  /** The merged points are sorted by `rangePointLess`. */
  lemma MergeSorted(a: seq<Point>, b: seq<Point>, union: bool)
    ensures Sorted(Merged(a, b, union), PointOrder())
  {
    PointOrderIsStrictWeakOrder();
    SortSorted(a + b, PointOrder());
    ScanSorted(MergeInput(a, b), Required(union), |a| + |b|);
  }

  /** Merging lists of whole ranges gives whole ranges: the merged list has even length. */
  lemma MergeWhole(a: seq<Point>, b: seq<Point>, union: bool)
    requires Alternating(a) && Alternating(b)
    ensures Alternating(Merged(a, b, union))
  {
    var points := MergeInput(a, b);
    ScanShape(points, Required(union), |points|);
    assert points[..|points|] == points;
    AlternatingBalance(a);
    AlternatingBalance(b);
    BalanceConcat(a, b);
    BalancePermutation(points, a + b);
  }
}

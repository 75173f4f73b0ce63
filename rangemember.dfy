/**
 * Which values a list of range points admits, counted the way `merge`
 * (sql/plan/range.go) counts: at a value, the ranges open there are the
 * starts that come before it less the ends that come before it.  Over
 * sorted points the points before a value are a prefix, and `merge`'s scan
 * is at the required level at the end of that prefix exactly when enough
 * of its inputs admit the value: one for a union, both for an
 * intersection.
 */
module RangeMembership {
  import opened Datums
  import opened Sorting
  import opened RangePoints
  import opened RangeMerge

  /** Point `p` comes before value `v`: a start that admits `v`, or an end that does not. */
  predicate Below(p: Point, v: Datum)
  {
    if p.start then (if p.excl then Less(p.value, v) else LessEq(p.value, v))
    else !(if p.excl then Less(v, p.value) else LessEq(v, p.value))
  }

  /** In the order of points, `v` sits after an included start and before an included end at its own value. */
  lemma BelowPosition(p: Point, v: Datum)
    ensures Below(p, v) <==> Less(p.value, v) || (p.value == v && TieRank(p) <= 1)
  {
    CompareAntisymmetric(p.value, v);
  }

  /** A point that sorts before one coming before `v` comes before `v` too. */
  lemma BelowMonotone(q: Point, p: Point, v: Datum)
    requires PointLess(q, p) && Below(p, v)
    ensures Below(q, v)
  {
    BelowPosition(p, v);
    BelowPosition(q, v);
    EqualValueLessIsTieRank(q, p);
    if Less(q.value, p.value) && Less(p.value, v) {
      CompareTransitive(q.value, p.value, v);
    }
  }

  /** The points of `s` that come before `v`, in their order. */
  function Before(s: seq<Point>, v: Datum): (r: seq<Point>)
    ensures |r| <= |s|
  {
    if s == [] then []
    else
      var last := s[|s| - 1];
      Before(s[..|s| - 1], v) + (if Below(last, v) then [last] else [])
  }

  /** Only points that come before `v` are among those before `v`. */
  lemma {:induction false} BeforeBelow(s: seq<Point>, v: Datum)
    ensures forall k :: 0 <= k < |Before(s, v)| ==> Below(Before(s, v)[k], v)
  {
    if s != [] {
      BeforeBelow(s[..|s| - 1], v);
    }
  }

  /** How many ranges of `s` are open at `v`: starts before it less ends before it. */
  function Open(s: seq<Point>, v: Datum): int
  {
    Balance(Before(s, v))
  }

  /**
   * At every value one range of `s` is open when the value is a member and
   * none is otherwise: no two ranges overlap and none ends before it starts.
   */
  ghost predicate Disjoint(s: seq<Point>)
  {
    forall v :: Open(s, v) == if Member(s, v) then 1 else 0
  }

  lemma {:induction false} BeforeConcat(a: seq<Point>, b: seq<Point>, v: Datum)
    ensures Before(a + b, v) == Before(a, v) + Before(b, v)
    decreases |b|
  {
    if b == [] {
      assert a + b == a;
    } else {
      assert (a + b)[..|a + b| - 1] == a + b[..|b| - 1];
      BeforeConcat(a, b[..|b| - 1], v);
    }
  }

  /** A point occurs among those before `v` as often as in `s` when it comes before `v`, and otherwise not at all. */
  lemma {:induction false} BeforeCount(s: seq<Point>, v: Datum, p: Point)
    ensures multiset(Before(s, v))[p] == if Below(p, v) then multiset(s)[p] else 0
  {
    if s != [] {
      var init, last := s[..|s| - 1], s[|s| - 1];
      BeforeCount(init, v, p);
      assert s == init + [last];
      assert multiset(s) == multiset(init) + multiset{last};
      if Below(last, v) {
        assert multiset(Before(s, v)) == multiset(Before(init, v)) + multiset{last};
      } else {
        assert Before(s, v) == Before(init, v);
      }
    }
  }

  /** The ranges open at a value depend only on which points there are, not on their order. */
  lemma OpenPermutation(s: seq<Point>, t: seq<Point>, v: Datum)
    requires multiset(s) == multiset(t)
    ensures Open(s, v) == Open(t, v)
  {
    forall p | true
      ensures multiset(Before(s, v))[p] == multiset(Before(t, v))[p]
    {
      BeforeCount(s, v, p);
      BeforeCount(t, v, p);
    }
    assert multiset(Before(s, v)) == multiset(Before(t, v));
    BalancePermutation(Before(s, v), Before(t, v));
  }

  /** The ranges open at a value in two lists together are those of each. */
  lemma OpenConcat(a: seq<Point>, b: seq<Point>, v: Datum)
    ensures Open(a + b, v) == Open(a, v) + Open(b, v)
  {
    BeforeConcat(a, b, v);
    BalanceConcat(Before(a, v), Before(b, v));
  }

  /** Over sorted points, the points before `v` are a prefix and no point after it comes before `v`. */
  lemma SortedBefore(s: seq<Point>, v: Datum)
    requires Sorted(s, PointOrder())
    ensures Before(s, v) == s[..|Before(s, v)|]
    ensures forall k :: 0 <= k < |s| ==> (Below(s[k], v) <==> k < |Before(s, v)|)
  {
    BelowClosed(s, v);
    ClosedBefore(s, v);
  }

  /** `SortedBefore`, from the only consequence of sortedness it needs. */
  lemma ClosedBefore(s: seq<Point>, v: Datum)
    requires forall i, j :: 0 <= i < j < |s| && Below(s[j], v) ==> Below(s[i], v)
    ensures Before(s, v) == s[..|Before(s, v)|]
    ensures forall k :: 0 <= k < |s| ==> (Below(s[k], v) <==> k < |Before(s, v)|)
  {
    var m := Boundary(s, v);
    assert s == s[..m] + s[m..];
    BeforeConcat(s[..m], s[m..], v);
    BeforeAll(s[..m], v);
    BeforeNone(s[m..], v);
  }

  /** Over sorted points, whatever comes before a point that comes before `v` comes before `v` too. */
  lemma BelowClosed(s: seq<Point>, v: Datum)
    requires Sorted(s, PointOrder())
    ensures forall i, j :: 0 <= i < j < |s| && Below(s[j], v) ==> Below(s[i], v)
  {
    forall i, j | 0 <= i < j < |s| && Below(s[j], v)
      ensures Below(s[i], v)
    {
      assert !PointOrder()(s[j], s[i]);
      PointLessTotal(s[i], s[j]);
      if s[i] != s[j] {
        BelowMonotone(s[i], s[j], v);
      }
    }
  }

  /** Where the points that come before `v` end, when they come first. */
  lemma {:induction false} Boundary(s: seq<Point>, v: Datum) returns (m: nat)
    requires forall i, j :: 0 <= i < j < |s| && Below(s[j], v) ==> Below(s[i], v)
    ensures m <= |s| && forall k :: 0 <= k < |s| ==> (Below(s[k], v) <==> k < m)
  {
    if s == [] {
      m := 0;
    } else if Below(s[|s| - 1], v) {
      m := |s|;
    } else {
      var init := s[..|s| - 1];
      m := Boundary(init, v);
      forall k | 0 <= k < |init|
        ensures s[k] == init[k]
      {
      }
    }
  }

  /** When every point comes before `v`, all of them are the points before it. */
  lemma {:induction false} BeforeAll(s: seq<Point>, v: Datum)
    requires forall k :: 0 <= k < |s| ==> Below(s[k], v)
    ensures Before(s, v) == s
  {
    if s != [] {
      BeforeAll(s[..|s| - 1], v);
    }
  }

  /** When no point comes before `v`, none is among the points before it. */
  lemma {:induction false} BeforeNone(s: seq<Point>, v: Datum)
    requires forall k :: 0 <= k < |s| ==> !Below(s[k], v)
    ensures Before(s, v) == []
  {
    if s != [] {
      BeforeNone(s[..|s| - 1], v);
    }
  }

  /** Over sorted points, when the first `n` come before `v` and the others do not, those are the points before it. */
  lemma SortedCut(s: seq<Point>, v: Datum, n: nat)
    requires Sorted(s, PointOrder()) && n <= |s|
    requires forall k :: 0 <= k < n ==> Below(s[k], v)
    requires forall k :: n <= k < |s| ==> !Below(s[k], v)
    ensures Before(s, v) == s[..n]
  {
    SortedBefore(s, v);
  }

  /** The first `n` of start, end, start, ... leave one range open when `n` is odd and none when it is even. */
  lemma {:induction false} PrefixBalance(s: seq<Point>, n: nat)
    requires StartsAndEnds(s) && n <= |s|
    ensures Balance(s[..n]) == n % 2
  {
    if n > 0 {
      PrefixBalance(s, n - 1);
      assert s[..n][..n - 1] == s[..n - 1];
    }
  }

  /** A value lies in sorted whole ranges exactly when an odd number of their points come before it. */
  lemma MemberCut(s: seq<Point>, v: Datum)
    requires Sorted(s, PointOrder()) && Alternating(s)
    ensures Member(s, v) <==> |Before(s, v)| % 2 == 1
  {
    SortedBefore(s, v);
    var m := |Before(s, v)|;
    if Member(s, v) {
      MemberSplits(s, v, m);
    } else if m % 2 == 1 {
      SplitMember(s, v, m);
    }
  }

  /** When the first `m` of whole ranges come before `v`, a member `v` lies in range `m / 2`, so `m` is odd. */
  lemma MemberSplits(s: seq<Point>, v: Datum, m: nat)
    requires Alternating(s) && Member(s, v)
    requires forall k :: 0 <= k < |s| ==> (Below(s[k], v) <==> k < m)
    ensures m % 2 == 1
  {
    var k := MemberPair(s, v);
    var lo, hi := s[2 * k], s[2 * k + 1];
    assert lo.start && !hi.start;
    assert Below(lo, v) && !Below(hi, v);
  }

  /** When an odd number `m` of whole ranges' points come before `v`, range `m / 2` admits it. */
  lemma SplitMember(s: seq<Point>, v: Datum, m: nat)
    requires Alternating(s) && m % 2 == 1 && m <= |s|
    requires forall k :: 0 <= k < |s| ==> (Below(s[k], v) <==> k < m)
    ensures Member(s, v)
  {
    var k: nat := m / 2;
    assert 2 * k + 1 == m < |s|;
    var lo, hi := s[2 * k], s[2 * k + 1];
    assert lo.start && !hi.start;
    assert Below(lo, v) && !Below(hi, v);
    PairMemberOf(s, k, v);
  }

  /** Sorted whole ranges are disjoint. */
  lemma SortedDisjoint(s: seq<Point>)
    requires Sorted(s, PointOrder()) && Alternating(s)
    ensures Disjoint(s)
  {
    forall v
      ensures Open(s, v) == if Member(s, v) then 1 else 0
    {
      SortedBefore(s, v);
      MemberCut(s, v);
      PrefixBalance(s, |Before(s, v)|);
    }
  }

  /** `merge`'s scan only appends: the points kept after `c` points stay, followed by points read later. */
  lemma {:induction false} ScanExtends(points: seq<Point>, required: int, c: nat, n: nat)
    requires c <= n <= |points|
    ensures var kept, more := Scan(points, required, c).0, Scan(points, required, n).0;
            && |kept| <= |more| && more[..|kept|] == kept
            && forall k :: |kept| <= k < |more| ==> more[k] in points[c..n]
    decreases n
  {
    if n > c {
      ScanExtends(points, required, c, n - 1);
      var kept := Scan(points, required, c).0;
      var prev, more := Scan(points, required, n - 1).0, Scan(points, required, n).0;
      forall k | |kept| <= k < |more|
        ensures more[k] in points[c..n]
      {
        if k < |prev| {
          assert more[k] == prev[k];
          var j :| 0 <= j < n - 1 - c && points[c..n - 1][j] == prev[k];
          assert points[c..n][j] == prev[k];
        } else {
          assert points[c..n][n - 1 - c] == points[n - 1];
        }
      }
    }
  }

  /**
   * `merge` keeps a value of whole ranges exactly when at least the
   * required number of its inputs' ranges are open there: one for a union,
   * two for an intersection.
   */
  lemma MergeOpen(a: seq<Point>, b: seq<Point>, union: bool, v: Datum)
    requires Alternating(a) && Alternating(b)
    ensures Member(Merged(a, b, union), v) <==> Open(a, v) + Open(b, v) >= Required(union)
  {
    var points := MergeInput(a, b);
    InputSorted(a, b);
    MergeWhole(a, b, union);
    ScanMember(points, Required(union), v);
    OpenConcat(a, b, v);
    OpenPermutation(points, a + b, v);
  }

  /** `merge` sorts its input by `rangePointLess`. */
  lemma InputSorted(a: seq<Point>, b: seq<Point>)
    ensures Sorted(MergeInput(a, b), PointOrder())
  {
    PointOrderIsStrictWeakOrder();
    SortSorted(a + b, PointOrder());
  }

  /** Over sorted points whose scan keeps whole ranges, the scan keeps the values where enough ranges are open. */
  lemma ScanMember(points: seq<Point>, required: int, v: Datum)
    requires Sorted(points, PointOrder()) && required >= 1
    requires Alternating(Scan(points, required, |points|).0)
    ensures Member(Scan(points, required, |points|).0, v) <==> Open(points, v) >= required
  {
    ScanBefore(points, required, v);
    ScanSorted(points, required, |points|);
    MemberCut(Scan(points, required, |points|).0, v);
    SortedBefore(points, v);
    ScanShape(points, required, |Before(points, v)|);
  }

  /** The points before `v` of what the scan keeps are what it had kept on reaching `v`. */
  lemma ScanBefore(points: seq<Point>, required: int, v: Datum)
    requires Sorted(points, PointOrder()) && required >= 1
    ensures Before(Scan(points, required, |points|).0, v) == Scan(points, required, |Before(points, v)|).0
  {
    SortedBefore(points, v);
    var c := |Before(points, v)|;
    ScanShape(points, required, c);
    ScanExtends(points, required, c, |points|);
    ScanSorted(points, required, |points|);
    var kept, merged := Scan(points, required, c).0, Scan(points, required, |points|).0;
    assert points[c..|points|] == points[c..];
    MergeCut(points, merged, kept, c, v);
    SortedCut(merged, v, |kept|);
  }

  /** The points the scan kept from the first `c`, which all come before `v`, are followed only by points that do not. */
  lemma MergeCut(points: seq<Point>, merged: seq<Point>, kept: seq<Point>, c: nat, v: Datum)
    requires c <= |points| && Before(points, v) == points[..c]
    requires forall k :: c <= k < |points| ==> !Below(points[k], v)
    requires |kept| <= |merged| && merged[..|kept|] == kept
    requires forall k :: 0 <= k < |kept| ==> kept[k] in points[..c]
    requires forall k :: |kept| <= k < |merged| ==> merged[k] in points[c..]
    ensures forall k :: 0 <= k < |kept| ==> Below(merged[k], v)
    ensures forall k :: |kept| <= k < |merged| ==> !Below(merged[k], v)
  {
    BeforeBelow(points, v);
    forall k | 0 <= k < |kept|
      ensures Below(merged[k], v)
    {
      assert merged[k] == kept[k];
      var j :| 0 <= j < c && points[..c][j] == kept[k];
      assert Below(Before(points, v)[j], v);
    }
    forall k | |kept| <= k < |merged|
      ensures !Below(merged[k], v)
    {
      var j :| 0 <= j < |points| - c && points[c..][j] == merged[k];
      assert points[c + j] == merged[k];
    }
  }

  /** Merged whole ranges are disjoint. */
  lemma MergeDisjoint(a: seq<Point>, b: seq<Point>, union: bool)
    requires Alternating(a) && Alternating(b)
    ensures Disjoint(Merged(a, b, union))
  {
    MergeSorted(a, b, union);
    MergeWhole(a, b, union);
    SortedDisjoint(Merged(a, b, union));
  }

  /**
   * The union of disjoint whole ranges admits the values either admits,
   * their intersection the values both admit.
   */
  lemma MergeMember(a: seq<Point>, b: seq<Point>, union: bool, v: Datum)
    requires Alternating(a) && Alternating(b) && Disjoint(a) && Disjoint(b)
    ensures Member(Merged(a, b, union), v) <==>
              if union then Member(a, v) || Member(b, v) else Member(a, v) && Member(b, v)
  {
    MergeOpen(a, b, union, v);
    assert Open(a, v) == if Member(a, v) then 1 else 0;
    assert Open(b, v) == if Member(b, v) then 1 else 0;
  }

  /** Sorted whole ranges merge to their union or their intersection. */
  lemma MergeSortedMember(a: seq<Point>, b: seq<Point>, union: bool, v: Datum)
    requires Alternating(a) && Alternating(b) && Sorted(a, PointOrder()) && Sorted(b, PointOrder())
    ensures Member(Merged(a, b, union), v) <==>
              if union then Member(a, v) || Member(b, v) else Member(a, v) && Member(b, v)
  {
    SortedDisjoint(a);
    SortedDisjoint(b);
    MergeMember(a, b, union, v);
  }

  /** The one range of a start and an end is open at a value when the start comes before it and the end does not. */
  lemma PairOpen(lo: Point, hi: Point, v: Datum)
    requires lo.start && !hi.start
    ensures Open([lo, hi], v) == (if Below(lo, v) then 1 else 0) - (if Below(hi, v) then 1 else 0)
    ensures Member([lo, hi], v) <==> Below(lo, v) && !Below(hi, v)
  {
    PairMember(lo, hi, v);
    PairBalance(lo, hi, v);
  }

  lemma PairBalance(lo: Point, hi: Point, v: Datum)
    requires lo.start && !hi.start
    ensures Open([lo, hi], v) == (if Below(lo, v) then 1 else 0) - (if Below(hi, v) then 1 else 0)
  {
    assert [lo][..0] == [] && [hi][..0] == [];
    assert [lo, hi][..1] == [lo];
    var before, after := if Below(lo, v) then [lo] else [], if Below(hi, v) then [hi] else [];
    assert Before([lo], v) == before;
    assert Before([lo, hi], v) == before + after;
    BalanceConcat(before, after);
    assert Balance(before) == if Below(lo, v) then 1 else 0;
    assert Balance(after) == if Below(hi, v) then -1 else 0;
  }

  /** An included start and an end after it are one disjoint range. */
  lemma PairDisjoint(lo: Point, hi: Point)
    requires lo.start && !hi.start && PointLess(lo, hi)
    ensures Disjoint([lo, hi])
  {
    forall v
      ensures Open([lo, hi], v) == if Member([lo, hi], v) then 1 else 0
    {
      PairOpen(lo, hi, v);
      if Below(hi, v) {
        BelowMonotone(lo, hi, v);
      }
    }
  }

  /** The ranges open at a value among four points are those of each pair. */
  lemma TwoPairsOpen(lo1: Point, hi1: Point, lo2: Point, hi2: Point, v: Datum)
    ensures Open([lo1, hi1, lo2, hi2], v) == Open([lo1, hi1], v) + Open([lo2, hi2], v)
  {
    assert [lo1, hi1, lo2, hi2] == [lo1, hi1] + [lo2, hi2];
    OpenConcat([lo1, hi1], [lo2, hi2], v);
  }

  /** No range is open anywhere in the empty list. */
  lemma EmptyDisjoint()
    ensures Disjoint([])
  {
    forall v
      ensures Open([], v) == if Member([], v) then 1 else 0
    {
    }
  }

  /** A point that comes before `v` does not sort after the included start at `v`. */
  lemma BelowNotAfter(q: Point, v: Datum)
    requires Below(q, v)
    ensures !PointLess(Start(v, false), q)
  {
    BelowPosition(q, v);
    EqualValueLessIsTieRank(Start(v, false), q);
    CompareAntisymmetric(v, q.value);
  }

  /** In sorted points, no point before the `n`-th sorts after it. */
  lemma LastNotAfter(s: seq<Point>, n: nat)
    requires Sorted(s, PointOrder()) && 0 < n <= |s|
    ensures forall j :: 0 <= j < n ==> !PointLess(s[n - 1], s[j])
  {
    forall j | 0 <= j < n
      ensures !PointLess(s[n - 1], s[j])
    {
      if j < n - 1 {
        assert !PointOrder()(s[n - 1], s[j]);
      } else {
        PointLessTotal(s[j], s[j]);
      }
    }
  }
}

/**
 * `rangeBuilder` (sql/plan/range.go): turns a filter on the indexed column
 * into range points, dispatching on the kind of expression and remembering
 * the last error it met in `err`.  The datum conversions it relies on are
 * passed in: `truth` stands for `Datum.ToBool` and `text` for
 * `Datum.ToString`.
 */
module RangeBuilding {
  import opened Outcomes
  import opened Encoding
  import opened Datums
  import opened Expressions
  import opened Sorting
  import opened RangePoints
  import opened RangeBuild
  import opened RangeMerge
  import opened RangeLike
  import opened RangeMembership

  /** A constant holding a single datum. */
  predicate ScalarConst(e: Expr)
  {
    e.Constant? && e.value.Scalar?
  }

  /**
   * The shapes the planner hands to the range builder: a comparison has a
   * constant on one side (the left one when the left is a constant), `AND`
   * and `OR` have two operands, `LIKE` has a constant pattern and a
   * constant integer escape, `NOT` wraps a function call, and every
   * constant holds a single datum.
   */
  predicate Rangeable(e: Expr)
  {
    match e
    case Constant(v, _) => v.Scalar?
    case Func(name, _, args, _, _) =>
      if IsCompareOp(name) then
        |args| == 2 && (if args[0].Constant? then ScalarConst(args[0]) else ScalarConst(args[1]))
      else if name == AndAnd || name == OrOr then
        |args| == 2 && Rangeable(args[0]) && Rangeable(args[1])
      else if name == In then
        |args| >= 1 && forall k :: 1 <= k < |args| ==> (args[k].Constant? ==> args[k].value.Scalar?)
      else if name == Like then
        |args| == 3 && ScalarConst(args[1]) && ScalarConst(args[2]) && args[2].value.d.Int?
      else if name == UnaryNot then
        |args| == 1 && args[0].Func?
      else true
    case _ => true
  }

  /** The points of `IN (items)` before sorting: `[v, v]` for each item, in order. */
  function InPoints(items: seq<Expr>): (points: seq<Point>)
    requires forall k :: 0 <= k < |items| ==> ScalarConst(items[k])
    ensures |points| == 2 * |items|
  {
    if items == [] then []
    else
      assert ScalarConst(items[|items| - 1]);
      var d := items[|items| - 1].value.d;
      InPoints(items[..|items| - 1]) + [Start(d, false), End(d, false)]
  }

  /** The point `[v` or `v]` of an item, and the end `v]` goes with either. */
  lemma {:induction false} InPointsShape(items: seq<Expr>, k: nat)
    requires forall k :: 0 <= k < |items| ==> ScalarConst(items[k])
    requires k < |InPoints(items)|
    ensures var p := InPoints(items)[k];
            && (p == Start(p.value, false) || p == End(p.value, false))
            && End(p.value, false) in InPoints(items)
  {
    var init := items[..|items| - 1];
    var d := items[|items| - 1].value.d;
    var points := InPoints(items);
    if k < |InPoints(init)| {
      InPointsShape(init, k);
      var j :| 0 <= j < |InPoints(init)| && InPoints(init)[j] == End(points[k].value, false);
      assert points[j] == InPoints(init)[j];
    } else {
      assert points[|points| - 1] == End(d, false);
    }
  }

  /**
   * The duplicate removal loop of `newBuildFromIn` over the first `n`
   * sorted points: a point is kept when it starts a range and the last
   * kept one did not, or the other way round.
   */
  function DedupeFrom(points: seq<Point>, n: nat): (state: (seq<Point>, bool))
    requires n <= |points|
  {
    if n == 0 then ([], false)
    else
      var (kept, isStart) := DedupeFrom(points, n - 1);
      if isStart == points[n - 1].start then (kept, isStart)
      else (kept + [points[n - 1]], points[n - 1].start)
  }

  /** The points with repeats removed. */
  function Dedupe(points: seq<Point>): seq<Point>
  {
    DedupeFrom(points, |points|).0
  }

  /**
   * The loop's invariant: the kept points alternate start, end, ...; the
   * last one kept starts a range exactly when their number is odd, and
   * that is the kind of the last point read; they are points read so far.
   */
  lemma {:induction false} DedupeShape(points: seq<Point>, n: nat)
    requires n <= |points|
    ensures StartsAndEnds(DedupeFrom(points, n).0)
    ensures DedupeFrom(points, n).1 <==> |DedupeFrom(points, n).0| % 2 == 1
    ensures n > 0 ==> DedupeFrom(points, n).1 == points[n - 1].start
    ensures forall k :: 0 <= k < |DedupeFrom(points, n).0| ==> DedupeFrom(points, n).0[k] in points[..n]
  {
    if n > 0 {
      DedupeShape(points, n - 1);
      assert points[..n][..n - 1] == points[..n - 1];
      var kept := DedupeFrom(points, n - 1).0;
      forall k | 0 <= k < |kept|
        ensures kept[k] in points[..n]
      {
        assert kept[k] in points[..n - 1];
      }
    }
  }

  /** Removing repeats from sorted points leaves them sorted. */
  lemma {:induction false} DedupeSorted(points: seq<Point>, n: nat)
    requires n <= |points| && Sorted(points, PointOrder())
    ensures Sorted(DedupeFrom(points, n).0, PointOrder())
  {
    if n > 0 {
      DedupeSorted(points, n - 1);
      DedupeShape(points, n - 1);
      SortedExtend(DedupeFrom(points, n - 1).0, points, n, PointOrder());
    }
  }

  /** Once a point is dropped, fewer points are kept than read. */
  lemma {:induction false} DedupeShrinks(points: seq<Point>, i: nat, n: nat)
    requires i < n <= |points|
    requires DedupeFrom(points, i).0 == points[..i] && DedupeFrom(points, i).1 == points[i].start
    ensures |DedupeFrom(points, n).0| < n
  {
    if n > i + 1 {
      DedupeShrinks(points, i, n - 1);
    }
  }

  /** The sorted points of an `IN` list end with a range end. */
  lemma LastIsEnd(items: seq<Expr>, sorted: seq<Point>)
    requires forall k :: 0 <= k < |items| ==> ScalarConst(items[k])
    requires Sorted(sorted, PointOrder()) && multiset(sorted) == multiset(InPoints(items)) && sorted != []
    ensures !sorted[|sorted| - 1].start
  {
    LastNotAfter(sorted, |sorted|);
    LastEnd(items, sorted);
  }

  lemma LastEnd(items: seq<Expr>, sorted: seq<Point>)
    requires forall k :: 0 <= k < |items| ==> ScalarConst(items[k])
    requires multiset(sorted) == multiset(InPoints(items)) && sorted != []
    requires forall j :: 0 <= j < |sorted| ==> !PointLess(sorted[|sorted| - 1], sorted[j])
    ensures !sorted[|sorted| - 1].start
  {
    var last := |sorted| - 1;
    var x := sorted[last];
    assert x in multiset(InPoints(items));
    var i :| 0 <= i < |InPoints(items)| && InPoints(items)[i] == x;
    InPointsShape(items, i);
    var y := End(x.value, false);
    assert y in multiset(sorted);
    var j :| 0 <= j < |sorted| && sorted[j] == y;
    assert !PointLess(x, y);
  }

  /** `newBuildFromIn` returns whole ranges, sorted, each a value of the list. */
  lemma InPointsAlternate(items: seq<Expr>)
    requires forall k :: 0 <= k < |items| ==> ScalarConst(items[k])
    ensures var r := Dedupe(Sort(InPoints(items), PointOrder()));
            Alternating(r) && Sorted(r, PointOrder())
            && forall k :: 0 <= k < |r| ==> r[k] in multiset(InPoints(items))
  {
    var sorted := Sort(InPoints(items), PointOrder());
    PointOrderIsStrictWeakOrder();
    SortSorted(InPoints(items), PointOrder());
    DedupeShape(sorted, |sorted|);
    assert sorted[..|sorted|] == sorted;
    if sorted != [] {
      LastIsEnd(items, sorted);
    }
    DedupeSorted(sorted, |sorted|);
  }

  /** `v` is the value of one of the constants of an `IN` list. */
  predicate Listed(items: seq<Expr>, v: Datum)
  {
    exists k :: 0 <= k < |items| && ScalarConst(items[k]) && items[k].value.d == v
  }

  /** Every point of an `IN` list is at the value of one of its items. */
  lemma {:induction false} InPointsValue(items: seq<Expr>, i: nat)
    requires forall k :: 0 <= k < |items| ==> ScalarConst(items[k])
    requires i < |InPoints(items)|
    ensures Listed(items, InPoints(items)[i].value)
  {
    var init := items[..|items| - 1];
    if i < |InPoints(init)| {
      InPointsValue(init, i);
      var k :| 0 <= k < |init| && ScalarConst(init[k]) && init[k].value.d == InPoints(init)[i].value;
      assert items[k] == init[k];
    } else {
      assert InPoints(items)[i].value == items[|items| - 1].value.d;
    }
  }

  /** The start `[v` of every item is among the points of an `IN` list. */
  lemma {:induction false} InPointsStart(items: seq<Expr>, i: nat)
    requires forall k :: 0 <= k < |items| ==> ScalarConst(items[k])
    requires i < |items|
    ensures ScalarConst(items[i]) && Start(items[i].value.d, false) in InPoints(items)
  {
    var init := items[..|items| - 1];
    var points := InPoints(items);
    assert ScalarConst(items[i]);
    if i < |init| {
      InPointsStart(init, i);
      var j :| 0 <= j < |InPoints(init)| && InPoints(init)[j] == Start(items[i].value.d, false);
      assert points[j] == InPoints(init)[j];
    } else {
      assert points[|points| - 2] == Start(items[i].value.d, false);
    }
  }

  /** The duplicate removal loop only appends: the points kept after `c` stay, followed by points read later. */
  lemma {:induction false} DedupeExtends(points: seq<Point>, c: nat, n: nat)
    requires c <= n <= |points|
    ensures var kept, more := DedupeFrom(points, c).0, DedupeFrom(points, n).0;
            && |kept| <= |more| && more[..|kept|] == kept
            && forall k :: |kept| <= k < |more| ==> more[k] in points[c..]
    decreases n
  {
    if n > c {
      DedupeExtends(points, c, n - 1);
      var kept := DedupeFrom(points, c).0;
      var prev, more := DedupeFrom(points, n - 1).0, DedupeFrom(points, n).0;
      forall k | |kept| <= k < |more|
        ensures more[k] in points[c..]
      {
        if k < |prev| {
          assert more[k] == prev[k];
        } else {
          assert points[c..][n - 1 - c] == points[n - 1];
        }
      }
    }
  }

  /** Over sorted points, the points before `v` of the deduplicated list are those kept on reaching `v`. */
  lemma DedupeBefore(points: seq<Point>, v: Datum)
    requires Sorted(points, PointOrder())
    ensures Before(Dedupe(points), v) == DedupeFrom(points, |Before(points, v)|).0
  {
    SortedBefore(points, v);
    var c := |Before(points, v)|;
    DedupeShape(points, c);
    DedupeExtends(points, c, |points|);
    DedupeSorted(points, |points|);
    var kept, deduped := DedupeFrom(points, c).0, Dedupe(points);
    MergeCut(points, deduped, kept, c, v);
    SortedCut(deduped, v, |kept|);
  }

  /**
   * Over the sorted points of an `IN` list, the last point before `v` is a
   * start exactly when `v` is listed: it is then `[v`, and otherwise the
   * end of the range of the last listed value below `v`.
   */
  lemma InLastBefore(items: seq<Expr>, sorted: seq<Point>, v: Datum)
    requires forall k :: 0 <= k < |items| ==> ScalarConst(items[k])
    requires Sorted(sorted, PointOrder()) && multiset(sorted) == multiset(InPoints(items))
    ensures var c := |Before(sorted, v)|;
            (c > 0 && sorted[c - 1].start) <==> Listed(items, v)
  {
    SortedBefore(sorted, v);
    var c := |Before(sorted, v)|;
    if c > 0 {
      LastNotAfter(sorted, c);
    }
    if Listed(items, v) {
      ListedLast(items, sorted, v, c);
    }
    if c > 0 && sorted[c - 1].start {
      LastListed(items, sorted, v, c);
    }
  }

  lemma ListedLast(items: seq<Expr>, sorted: seq<Point>, v: Datum, c: nat)
    requires forall k :: 0 <= k < |items| ==> ScalarConst(items[k])
    requires multiset(sorted) == multiset(InPoints(items)) && c <= |sorted|
    requires forall k :: 0 <= k < |sorted| ==> (Below(sorted[k], v) <==> k < c)
    requires c > 0 ==> forall j :: 0 <= j < c ==> !PointLess(sorted[c - 1], sorted[j])
    requires Listed(items, v)
    ensures c > 0 && sorted[c - 1] == Start(v, false)
  {
    var k :| 0 <= k < |items| && ScalarConst(items[k]) && items[k].value.d == v;
    InPointsStart(items, k);
    var p := Start(v, false);
    assert p in multiset(sorted);
    var j :| 0 <= j < |sorted| && sorted[j] == p;
    assert Below(p, v);
    var q := sorted[c - 1];
    assert Below(q, v);
    BelowNotAfter(q, v);
    PointLessTotal(p, q);
  }

  lemma LastListed(items: seq<Expr>, sorted: seq<Point>, v: Datum, c: nat)
    requires forall k :: 0 <= k < |items| ==> ScalarConst(items[k])
    requires multiset(sorted) == multiset(InPoints(items)) && 0 < c <= |sorted|
    requires forall k :: 0 <= k < |sorted| ==> (Below(sorted[k], v) <==> k < c)
    requires forall j :: 0 <= j < c ==> !PointLess(sorted[c - 1], sorted[j])
    requires sorted[c - 1].start
    ensures Listed(items, v)
  {
    var q := sorted[c - 1];
    assert q in multiset(InPoints(items));
    var i :| 0 <= i < |InPoints(items)| && InPoints(items)[i] == q;
    InPointsShape(items, i);
    InPointsValue(items, i);
    assert Below(q, v);
    BelowPosition(q, v);
    var e := End(q.value, false);
    assert e in multiset(sorted);
    var j :| 0 <= j < |sorted| && sorted[j] == e;
    BelowPosition(e, v);
    assert q.value == v || Below(e, v);
    assert PointLess(q, e);
    assert q.value == v;
  }

  /** `newBuildFromIn` over constants admits exactly the listed values. */
  lemma InMember(items: seq<Expr>, v: Datum)
    requires forall k :: 0 <= k < |items| ==> ScalarConst(items[k])
    ensures Member(Dedupe(Sort(InPoints(items), PointOrder())), v) <==> Listed(items, v)
  {
    var sorted := Sort(InPoints(items), PointOrder());
    PointOrderIsStrictWeakOrder();
    SortSorted(InPoints(items), PointOrder());
    InPointsAlternate(items);
    DedupeMember(sorted, v);
    InLastBefore(items, sorted, v);
  }

  /**
   * Over sorted points whose repeats removed alternate, a value is admitted
   * exactly when the last point at or before it starts a range.
   */
  lemma DedupeMember(sorted: seq<Point>, v: Datum)
    requires Sorted(sorted, PointOrder())
    requires Sorted(Dedupe(sorted), PointOrder()) && Alternating(Dedupe(sorted))
    ensures var c := |Before(sorted, v)|;
            c <= |sorted| && (Member(Dedupe(sorted), v) <==> c > 0 && sorted[c - 1].start)
  {
    DedupeBefore(sorted, v);
    MemberCut(Dedupe(sorted), v);
    SortedBefore(sorted, v);
    DedupeShape(sorted, |Before(sorted, v)|);
  }

  /** The ranges of an `IN` list are disjoint. */
  lemma InDisjoint(items: seq<Expr>)
    requires forall k :: 0 <= k < |items| ==> ScalarConst(items[k])
    ensures Disjoint(Dedupe(Sort(InPoints(items), PointOrder())))
  {
    InPointsAlternate(items);
    SortedDisjoint(Dedupe(Sort(InPoints(items), PointOrder())));
  }

  /** What `newBuildFromIn` returns over constants: disjoint whole ranges admitting exactly the listed values. */
  lemma InBuilt(items: seq<Expr>)
    requires forall k :: 0 <= k < |items| ==> ScalarConst(items[k])
    ensures var r := Dedupe(Sort(InPoints(items), PointOrder()));
            Alternating(r) && Disjoint(r) && forall v :: Member(r, v) <==> Listed(items, v)
  {
    InPointsAlternate(items);
    InDisjoint(items);
    forall v
      ensures Member(Dedupe(Sort(InPoints(items), PointOrder())), v) <==> Listed(items, v)
    {
      InMember(items, v);
    }
  }

  // ---------------------------------------------------------------------
  // The ranges of the other builders are disjoint

  /** The points of a comparison with a non-null constant are disjoint ranges, whatever the constant. */
  lemma OpPointsDisjoint(o: string, c: Datum)
    requires c != Null
    ensures Disjoint(OpPoints(o, c))
  {
    var points := OpPoints(o, c);
    forall v
      ensures Open(points, v) == if Member(points, v) then 1 else 0
    {
      SentinelBounds(v);
      SentinelBounds(c);
      CompareAntisymmetric(v, c);
      if o == NE {
        TwoPairsOpen(points[0], points[1], points[2], points[3], v);
        TwoPairsMember(points[0], points[1], points[2], points[3], v);
        PairOpen(points[0], points[1], v);
        PairOpen(points[2], points[3], v);
      } else if o == EQ || o == LT || o == LE || o == GT || o == GE {
        PairOpen(points[0], points[1], v);
      }
    }
  }

  /** `buildFormBinOp` returns disjoint ranges. */
  lemma BinOpDisjoint(op: string, constFirst: bool, value: Datum)
    ensures Disjoint(BuildFromBinOp(op, constFirst, value))
  {
    if value == Null {
      EmptyDisjoint();
    } else {
      OpPointsDisjoint(if constFirst then Mirror(op) else op, value);
    }
  }

  /** `buildFromColumn` returns disjoint ranges: those of `column != 0`. */
  lemma ColumnDisjoint()
    ensures Disjoint(BuildFromColumn())
  {
    assert BuildFromColumn() == OpPoints(NE, Int(0));
    OpPointsDisjoint(NE, Int(0));
  }

  /** The full range is one range. */
  lemma FullRangeDisjoint()
    ensures Disjoint(FullRange())
  {
    PairDisjoint(Start(Null, false), End(MaxValue, false));
  }

  /** The ranges of `IS [NOT] TRUE`, `IS [NOT] FALSE` and `IS [NOT] NULL` are disjoint. */
  lemma IsDisjoint(isNot: bool)
    ensures Disjoint(BuildFromIsTrue(isNot))
    ensures Disjoint(BuildFromIsFalse(isNot))
    ensures Disjoint(BuildFromIsNull(isNot))
  {
    if isNot {
      var t, f := BuildFromIsTrue(true), BuildFromIsFalse(true);
      forall v
        ensures Open(t, v) == (if Member(t, v) then 1 else 0)
        ensures Open(f, v) == (if Member(f, v) then 1 else 0)
      {
        SentinelBounds(v);
        CompareAntisymmetric(v, Null);
        CompareAntisymmetric(v, Int(0));
        TwoPairsOpen(t[0], t[1], t[2], t[3], v);
        PairOpen(t[0], t[1], v);
        PairOpen(t[2], t[3], v);
        TwoPairsMember(t[0], t[1], t[2], t[3], v);
        TwoPairsOpen(f[0], f[1], f[2], f[3], v);
        PairOpen(f[0], f[1], v);
        PairOpen(f[2], f[3], v);
        TwoPairsMember(f[0], f[1], f[2], f[3], v);
      }
      PairDisjoint(Start(MinNotNull, false), End(MaxValue, false));
    } else {
      assert BuildFromIsTrue(false) == OpPoints(NE, Int(0));
      OpPointsDisjoint(NE, Int(0));
      assert BuildFromIsFalse(false) == OpPoints(EQ, Int(0));
      OpPointsDisjoint(EQ, Int(0));
      PairDisjoint(Start(Null, false), End(Null, false));
    }
  }

  /** The range of a `LIKE` pattern is one range. */
  lemma LikeDisjoint(pattern: ByteString, escape: byte)
    ensures Disjoint(LikePoints(pattern, escape))
  {
    var points := LikePoints(pattern, escape);
    if pattern != [] {
      var (low, stop) := LikePrefix(pattern, escape);
      if low != [] && stop != Exact && !AllMax(low) {
        var i := IncrementAbove(low);
        FirstDifferenceCompare(low, Increment(low).value, i);
      }
    }
    PairDisjoint(points[0], points[1]);
  }

  const NotConstant := "expr is not constant"
  const NotInUnsupported := "NOT IN is not supported"
  const NotLikeUnsupported := "NOT LIKE is not supported."

  /**
   * What `merge` gives: sorted points, whole and disjoint ranges from whole
   * ranges, and from disjoint whole ranges their union or intersection.
   */
  lemma MergedProperties(a: seq<Point>, b: seq<Point>, union: bool)
    ensures Alternating(a) && Alternating(b) ==> Alternating(Merged(a, b, union)) && Disjoint(Merged(a, b, union))
    ensures Alternating(a) && Alternating(b) && Disjoint(a) && Disjoint(b) ==>
              forall v :: Member(Merged(a, b, union), v) <==>
                if union then Member(a, v) || Member(b, v) else Member(a, v) && Member(b, v)
    ensures Sorted(Merged(a, b, union), PointOrder())
  {
    if Alternating(a) && Alternating(b) {
      MergeWhole(a, b, union);
      MergeDisjoint(a, b, union);
      if Disjoint(a) && Disjoint(b) {
        forall v
          ensures Member(Merged(a, b, union), v) <==>
                    if union then Member(a, v) || Member(b, v) else Member(a, v) && Member(b, v)
        {
          MergeMember(a, b, union, v);
        }
      }
    }
    MergeSorted(a, b, union);
  }

  class RangeBuilder {
    /** The last error met, if any. */
    var err: Option<string>
    /** `Datum.ToBool`. */
    const truth: Datum -> Result<bool>
    /** `Datum.ToString`, as bytes. */
    const text: Datum -> Result<ByteString>

    constructor (truth: Datum -> Result<bool>, text: Datum -> Result<ByteString>)
      ensures err == None && this.truth == truth && this.text == text
    {
      err := None;
      this.truth := truth;
      this.text := text;
    }

    /**
     * The values of a column for which the filter `e` over that column can
     * hold, as the range builder reads it: a bare column is true when it is
     * neither NULL nor zero, a comparison with a constant when the value
     * compares that way, `AND` and `OR` combine their operands, `IN` over
     * constants holds for the listed values, `LIKE` for the values in the
     * range of its literal prefix.  Where the builder gives up (`NOT IN`,
     * `NOT LIKE`, an item or pattern it cannot read, an expression it does
     * not know) every value is kept, and a function it does not know keeps
     * none.
     */
    ghost predicate Passes(e: Expr, v: Datum)
      requires Rangeable(e)
      decreases e
    {
      match e
      case Column(_) => v != Null && v != Int(0)
      case Constant(value, _) => value.d != Null && truth(value.d) == Ok(true)
      case Func(op, _, args, _, _) =>
        if IsCompareOp(op) then
          var constFirst := args[0].Constant?;
          var c := if constFirst then args[0].value.d else args[1].value.d;
          c != Null && v != Null && (if constFirst then Holds(op, c, v) else Holds(op, v, c))
        else if op == AndAnd then Passes(args[0], v) && Passes(args[1], v)
        else if op == OrOr then Passes(args[0], v) || Passes(args[1], v)
        else if op == IsTruth then v != Null && v != Int(0)
        else if op == IsFalsity then v == Int(0)
        else if op == IsNull then v == Null
        else if op == In then
          var items := args[1..];
          (forall k :: 0 <= k < |items| ==> items[k].Constant?) ==> Listed(items, v)
        else if op == Like then
          var pattern := text(args[1].value.d);
          pattern.Ok? ==> Member(LikePoints(pattern.value, LowByte(args[2].value.d.i)), v)
        else if op == UnaryNot then
          var inner := args[0].name;
          if inner == IsTruth then v == Null || v == Int(0)
          else if inner == IsFalsity then v != Int(0)
          else if inner == IsNull then v != Null
          else inner == In || inner == Like
        else false
      case _ => true
    }

    /** The points `newBuildFromIn` returns admit the values for which `IN` can hold. */
    lemma InPasses(e: Expr, points: seq<Point>)
      requires e.Func? && e.name == In && Rangeable(e)
      requires var items := e.args[1..];
               if forall k :: 0 <= k < |items| ==> items[k].Constant? then
                 forall v :: Member(points, v) <==> Listed(items, v)
               else
                 points == FullRange()
      ensures forall v :: Member(points, v) <==> Passes(e, v)
    {
      forall v
        ensures Member(points, v) <==> Passes(e, v)
      {
        FullRangeHoldsAll(v);
      }
    }

    /**
     * `build`: a bare column, a function call or a constant; anything else
     * admits every value.  The points come in disjoint whole ranges that
     * admit exactly the values for which the filter can hold, and an
     * error, once met, is never cleared.
     */
    method Build(e: Expr) returns (points: seq<Point>)
      requires Rangeable(e)
      modifies this
      ensures Alternating(points) && Disjoint(points)
      ensures forall v :: Member(points, v) <==> Passes(e, v)
      ensures old(err).Some? ==> err.Some?
      decreases e, 1
    {
      match e
      case Column(_) =>
        points := BuildFromColumn();
        ColumnDisjoint();
      case Func(_, _, _, _, _) =>
        points := BuildFromScalarFunc(e);
      case Constant(_, _) =>
        points := BuildFromConstant(e);
      case _ =>
        points := FullRange();
        FullRangeDisjoint();
        forall v
          ensures Member(points, v)
        {
          FullRangeHoldsAll(v);
        }
    }

    /**
     * `buildFromConstant`: a NULL or false constant admits nothing, a true
     * one everything; a constant that cannot be read as a truth value
     * admits nothing and records the error.
     */
    method BuildFromConstant(e: Expr) returns (points: seq<Point>)
      requires ScalarConst(e)
      modifies this
      ensures var d := e.value.d;
              && (points == FullRange() <==> d != Null && truth(d) == Ok(true))
              && (points != FullRange() ==> points == [])
              && err == (if d != Null && truth(d).Err? then Some(truth(d).msg) else old(err))
      ensures Alternating(points) && Disjoint(points)
      ensures forall v :: Member(points, v) <==> Passes(e, v)
    {
      EmptyDisjoint();
      FullRangeDisjoint();
      forall v
        ensures Member(FullRange(), v)
      {
        FullRangeHoldsAll(v);
      }
      var d := e.value.d;
      if d == Null {
        return [];
      }
      var val := truth(d);
      if val.Err? {
        err := Some(val.msg);
        return [];
      }
      if !val.value {
        return [];
      }
      points := FullRange();
    }

    /**
     * `buildFromScalarFunc`: a comparison, `AND`/`OR` (the intersection or
     * union of the operands' points), `IS [NOT] TRUE`/`FALSE`, `IN`,
     * `LIKE`, `IS NULL` or `NOT`; any other function admits nothing.
     */
    method BuildFromScalarFunc(e: Expr) returns (points: seq<Point>)
      requires e.Func? && Rangeable(e)
      modifies this
      ensures Alternating(points) && Disjoint(points)
      ensures forall v :: Member(points, v) <==> Passes(e, v)
      ensures old(err).Some? ==> err.Some?
      ensures IsCompareOp(e.name) ==>
                var constFirst := e.args[0].Constant?;
                points == BuildFromBinOp(e.name, constFirst, if constFirst then e.args[0].value.d else e.args[1].value.d)
      ensures e.name == IsTruth ==> points == BuildFromIsTrue(false)
      ensures e.name == IsFalsity ==> points == BuildFromIsFalse(false)
      ensures e.name == IsNull ==> points == BuildFromIsNull(false)
      ensures !IsCompareOp(e.name) && e.name !in {AndAnd, OrOr, IsTruth, IsFalsity, In, Like, IsNull, UnaryNot} ==> points == []
      decreases e, 0
    {
      var op := e.name;
      if IsCompareOp(op) {
        var constFirst := e.args[0].Constant?;
        var value := if constFirst then e.args[0].value.d else e.args[1].value.d;
        points := BuildFromBinOp(op, constFirst, value);
        BinOpDisjoint(op, constFirst, value);
        forall v
          ensures Member(points, v) <==> Passes(e, v)
        {
          BinOpMember(op, constFirst, value, v);
        }
      } else if op == AndAnd || op == OrOr {
        var a := Build(e.args[0]);
        var b := Build(e.args[1]);
        points := Merge(a, b, op == OrOr);
        forall v
          ensures Member(points, v) <==> Passes(e, v)
        {
          assert Passes(e, v) <==> if op == OrOr then Passes(e.args[0], v) || Passes(e.args[1], v)
                                   else Passes(e.args[0], v) && Passes(e.args[1], v);
        }
      } else if op == IsTruth {
        points := BuildFromIsTrue(false);
        IsDisjoint(false);
        forall v
          ensures Member(points, v) <==> Passes(e, v)
        {
        }
      } else if op == IsFalsity {
        points := BuildFromIsFalse(false);
        IsDisjoint(false);
        forall v
          ensures Member(points, v) <==> Passes(e, v)
        {
        }
      } else if op == In {
        points := BuildFromIn(e);
        InPasses(e, points);
      } else if op == Like {
        points := BuildFromLike(e);
        forall v
          ensures Member(points, v) <==> Passes(e, v)
        {
          if text(e.args[1].value.d).Err? {
            FullRangeHoldsAll(v);
          }
        }
      } else if op == IsNull {
        points := BuildFromIsNull(false);
        IsDisjoint(false);
        forall v
          ensures Member(points, v) <==> Passes(e, v)
        {
        }
      } else if op == UnaryNot {
        points := BuildFromNot(e.args[0]);
        forall v
          ensures Member(points, v) <==> Passes(e, v)
        {
          FullRangeHoldsAll(v);
        }
      } else {
        points := [];
        EmptyDisjoint();
        forall v
          ensures Member(points, v) <==> Passes(e, v)
        {
        }
      }
    }

    /**
     * `buildFromNot`: `NOT` over `IS TRUE`, `IS FALSE` or `IS NULL` is the
     * negated test; `NOT IN` and `NOT LIKE` are not supported (the error
     * is recorded and every value admitted); anything else admits nothing.
     */
    method BuildFromNot(e: Expr) returns (points: seq<Point>)
      requires e.Func?
      modifies this
      ensures Alternating(points) && Disjoint(points)
      ensures e.name == IsTruth ==> points == BuildFromIsTrue(true) && err == old(err)
      ensures e.name == IsFalsity ==> points == BuildFromIsFalse(true) && err == old(err)
      ensures e.name == IsNull ==> points == BuildFromIsNull(true) && err == old(err)
      ensures e.name == In ==> points == FullRange() && err == Some(NotInUnsupported)
      ensures e.name == Like ==> points == FullRange() && err == Some(NotLikeUnsupported)
      ensures e.name !in {IsTruth, IsFalsity, IsNull, In, Like} ==> points == [] && err == old(err)
    {
      IsDisjoint(true);
      FullRangeDisjoint();
      EmptyDisjoint();
      var n := e.name;
      if n == IsTruth {
        points := BuildFromIsTrue(true);
      } else if n == IsFalsity {
        points := BuildFromIsFalse(true);
      } else if n == In {
        err := Some(NotInUnsupported);
        points := FullRange();
      } else if n == Like {
        err := Some(NotLikeUnsupported);
        points := FullRange();
      } else if n == IsNull {
        points := BuildFromIsNull(true);
      } else {
        points := [];
      }
    }

    /**
     * `newBuildFromIn`: the point `[v, v]` of every item, sorted, with
     * repeats removed.  An item that is not a constant is an error, and
     * then every value is admitted.
     */
    method BuildFromIn(e: Expr) returns (points: seq<Point>)
      requires e.Func? && |e.args| >= 1
      requires forall k :: 1 <= k < |e.args| ==> (e.args[k].Constant? ==> e.args[k].value.Scalar?)
      modifies this
      ensures var items := e.args[1..];
              if forall k :: 0 <= k < |items| ==> items[k].Constant? then
                points == Dedupe(Sort(InPoints(items), PointOrder())) && err == old(err)
              else
                points == FullRange() && err == Some(NotConstant)
      ensures Alternating(points) && Disjoint(points)
      ensures var items := e.args[1..];
              (forall k :: 0 <= k < |items| ==> items[k].Constant?) ==>
                forall v :: Member(points, v) <==> Listed(items, v)
    {
      var list := e.args[1..];
      var rangePoints := CollectInPoints(list);
      if rangePoints.None? {
        err := Some(NotConstant);
        FullRangeDisjoint();
        return FullRange();
      }
      InBuilt(list);
      var sorted := Sort(rangePoints.value, PointOrder());
      var hasDuplicate := HasRepeat(sorted);
      if !hasDuplicate {
        return sorted;
      }
      points := RemoveRepeats(sorted);
    }

    /** The first loop of `newBuildFromIn`: `[v, v]` per item, or none when an item is not a constant. */
    method CollectInPoints(list: seq<Expr>) returns (r: Option<seq<Point>>)
      requires forall k :: 0 <= k < |list| ==> (list[k].Constant? ==> list[k].value.Scalar?)
      ensures r.Some? <==> forall k :: 0 <= k < |list| ==> list[k].Constant?
      ensures r.Some? ==> (forall k :: 0 <= k < |list| ==> ScalarConst(list[k])) && r.value == InPoints(list)
    {
      var rangePoints: seq<Point> := [];
      for k := 0 to |list|
        invariant forall j :: 0 <= j < k ==> ScalarConst(list[j])
        invariant rangePoints == InPoints(list[..k])
      {
        if !list[k].Constant? {
          return None;
        }
        var d := list[k].value.d;
        assert list[..k + 1][..k] == list[..k];
        rangePoints := rangePoints + [Start(d, false), End(d, false)];
      }
      assert list[..|list|] == list;
      r := Some(rangePoints);
    }

    /** The duplicate check of `newBuildFromIn`: true unless the kinds already alternate from a start. */
    method HasRepeat(sorted: seq<Point>) returns (hasDuplicate: bool)
      ensures !hasDuplicate <==> Dedupe(sorted) == sorted
    {
      hasDuplicate := false;
      var isStart := false;
      var i := 0;
      while i < |sorted|
        invariant i <= |sorted|
        invariant !hasDuplicate ==> DedupeFrom(sorted, i) == (sorted[..i], isStart)
      {
        if isStart == sorted[i].start {
          hasDuplicate := true;
          DedupeShrinks(sorted, i, |sorted|);
          break;
        }
        isStart := sorted[i].start;
        assert sorted[..i + 1] == sorted[..i] + [sorted[i]];
        i := i + 1;
      }
      if !hasDuplicate {
        assert sorted[..|sorted|] == sorted;
      }
    }

    /** The duplicate removal loop of `newBuildFromIn`. */
    method RemoveRepeats(sorted: seq<Point>) returns (distinct: seq<Point>)
      ensures distinct == Dedupe(sorted)
    {
      distinct := [];
      var isStart := false;
      for j := 0 to |sorted|
        invariant DedupeFrom(sorted, j) == (distinct, isStart)
      {
        var current := sorted[j];
        if isStart == current.start {
          continue;
        }
        distinct := distinct + [current];
        isStart := current.start;
      }
    }

    /**
     * `newBuildFromPatternLike`: the points of the pattern's literal
     * prefix; a pattern that cannot be read as a string is an error, and
     * then every value is admitted.
     */
    method BuildFromLike(e: Expr) returns (points: seq<Point>)
      requires e.Func? && |e.args| == 3 && ScalarConst(e.args[1]) && ScalarConst(e.args[2]) && e.args[2].value.d.Int?
      modifies this
      ensures var pattern := text(e.args[1].value.d);
              if pattern.Ok? then
                points == LikePoints(pattern.value, LowByte(e.args[2].value.d.i)) && err == old(err)
              else
                points == FullRange() && err == Some(pattern.msg)
      ensures Alternating(points) && Disjoint(points)
    {
      var read := text(e.args[1].value.d);
      if read.Err? {
        err := Some(read.msg);
        FullRangeDisjoint();
        return FullRange();
      }
      var pattern := read.value;
      LikeDisjoint(pattern, LowByte(e.args[2].value.d.i));
      if pattern == [] {
        return [Start(Bytes([]), false), End(Bytes([]), false)];
      }
      var escape := LowByte(e.args[2].value.d.i);
      var low, stop := ScanPrefix(pattern, escape);
      if |low| == 0 {
        return [Start(MinNotNull, false), End(MaxValue, false)];
      }
      if stop == Exact {
        return [Start(Bytes(low), false), End(Bytes(low), false)];
      }
      var endPoint := UpperBound(low);
      points := [Start(Bytes(low), stop == AtUnderscore), endPoint];
    }

    /**
     * `merge`, and with it `union` (`union` true) and `intersection`: the
     * counting scan over both lists sorted together.  Whole ranges in give
     * whole ranges out.
     */
    method Merge(a: seq<Point>, b: seq<Point>, union: bool) returns (merged: seq<Point>)
      ensures merged == Merged(a, b, union)
      ensures Alternating(a) && Alternating(b) ==> Alternating(merged) && Disjoint(merged)
      ensures Alternating(a) && Alternating(b) && Disjoint(a) && Disjoint(b) ==>
                forall v :: Member(merged, v) <==> if union then Member(a, v) || Member(b, v) else Member(a, v) && Member(b, v)
      ensures Sorted(merged, PointOrder())
    {
      var sorted := MergeInput(a, b);
      var required := if union then 1 else 2;
      merged := [];
      var inRangeCount := 0;
      for k := 0 to |sorted|
        invariant (merged, inRangeCount) == Scan(sorted, required, k)
      {
        var val := sorted[k];
        if val.start {
          inRangeCount := inRangeCount + 1;
          if inRangeCount == required {
            merged := merged + [val];
          }
        } else {
          if inRangeCount == required {
            merged := merged + [val];
          }
          inRangeCount := inRangeCount - 1;
        }
      }
      MergedProperties(a, b, union);
    }
  }
}

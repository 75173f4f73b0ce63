/**
 * The pure case analyses of the range builder (sql/plan/range.go): the
 * points a comparison with a constant, a bare column, `IS [NOT] TRUE`,
 * `IS [NOT] FALSE` and `IS [NOT] NULL` stand for, each with what it means
 * for a value of the indexed column.
 */
module RangeBuild {
  import opened Datums
  import opened Expressions
  import opened RangePoints

  /** The comparison operators `buildFormBinOp` handles. */
  predicate IsCompareOp(op: string)
  {
    op == GE || op == GT || op == LT || op == LE || op == EQ || op == NE
  }

  /** `x op y` in the datum order; false for anything but a comparison. */
  predicate Holds(op: string, x: Datum, y: Datum)
  {
    if op == EQ then x == y
    else if op == NE then x != y
    else if op == LT then Less(x, y)
    else if op == LE then LessEq(x, y)
    else if op == GT then Less(y, x)
    else if op == GE then LessEq(y, x)
    else false
  }

  /** The operator that reads the same with its operands swapped. */
  function Mirror(op: string): string
  {
    if op == GE then LE
    else if op == GT then LT
    else if op == LT then GT
    else if op == LE then GE
    else op
  }

  /** Swapping the operands and mirroring the operator keeps the comparison's meaning. */
  lemma MirrorHolds(op: string, x: Datum, y: Datum)
    ensures Holds(Mirror(op), x, y) == Holds(op, y, x)
  {
  }

  /** Every non-null value lies between the two sentinels; NULL lies below both. */
  lemma SentinelBounds(v: Datum)
    ensures LessEq(MinNotNull, v) <==> v != Null
    ensures Less(Null, v) <==> v != Null
    ensures LessEq(v, MaxValue)
  {
  }

  /**
   * `buildFormBinOp`: the points of `column op value`, or of `value op
   * column` when the constant comes first (the operator is then mirrored).
   * A NULL constant gives no points.
   */
  function BuildFromBinOp(op: string, constFirst: bool, value: Datum): (points: seq<Point>)
    ensures Alternating(points)
  {
    if value == Null then [] else OpPoints(if constFirst then Mirror(op) else op, value)
  }

  /** The points of `column o value` for a non-null `value`. */
  function OpPoints(o: string, value: Datum): (points: seq<Point>)
    ensures Alternating(points)
  {
    if o == EQ then [Start(value, false), End(value, false)]
    else if o == NE then [Start(MinNotNull, false), End(value, true), Start(value, true), End(MaxValue, false)]
    else if o == LT then [Start(MinNotNull, false), End(value, true)]
    else if o == LE then [Start(MinNotNull, false), End(value, false)]
    else if o == GT then [Start(value, true), End(MaxValue, false)]
    else if o == GE then [Start(value, false), End(MaxValue, false)]
    else []
  }

  /**
   * A column value lies in the points of a comparison exactly when it is
   * not NULL, the constant is not NULL, and the comparison holds.
   */
  lemma BinOpMember(op: string, constFirst: bool, c: Datum, v: Datum)
    ensures Member(BuildFromBinOp(op, constFirst, c), v) <==>
              c != Null && v != Null && (if constFirst then Holds(op, c, v) else Holds(op, v, c))
  {
    if c != Null {
      var o := if constFirst then Mirror(op) else op;
      OpPointsMember(o, c, v);
      MirrorHolds(op, v, c);
    }
  }

  lemma OpPointsMember(o: string, c: Datum, v: Datum)
    requires c != Null
    ensures Member(OpPoints(o, c), v) <==> v != Null && Holds(o, v, c)
  {
    if o == NE {
      NotEqualMember(c, v);
    } else if o == EQ || o == LT || o == LE || o == GT || o == GE {
      var points := OpPoints(o, c);
      PairMember(points[0], points[1], v);
      SentinelBounds(v);
      CompareAntisymmetric(v, c);
    }
  }

  lemma NotEqualMember(c: Datum, v: Datum)
    requires c != Null
    ensures Member(OpPoints(NE, c), v) <==> v != Null && v != c
  {
    var points := OpPoints(NE, c);
    TwoPairsMember(points[0], points[1], points[2], points[3], v);
    SentinelBounds(v);
    CompareAntisymmetric(v, c);
  }

  /** A value lies in the two ranges of four points when either range admits it. */
  lemma TwoPairsMember(lo1: Point, hi1: Point, lo2: Point, hi2: Point, v: Datum)
    ensures Member([lo1, hi1, lo2, hi2], v) <==> Admits(lo1, hi1, v) || Admits(lo2, hi2, v)
  {
    assert [lo1, hi1, lo2, hi2][2..] == [lo2, hi2];
    PairMember(lo2, hi2, v);
  }

  /** `{[-inf, 0) (0, +inf]}`: the values that are true, as `buildFromColumn` and `IS TRUE` give them. */
  function TrueRange(): seq<Point>
  {
    [Start(MinNotNull, false), End(Int(0), true), Start(Int(0), true), End(MaxValue, false)]
  }

  /** `buildFromColumn`: a bare column stands for `column IS TRUE`. */
  function BuildFromColumn(): (points: seq<Point>)
    ensures Alternating(points)
    ensures forall v :: Member(points, v) <==> v != Null && v != Int(0)
  {
    TrueRangeMember();
    TrueRange()
  }

  lemma TrueRangeMember()
    ensures forall v :: Member(TrueRange(), v) <==> v != Null && v != Int(0)
  {
    forall v
      ensures Member(TrueRange(), v) <==> v != Null && v != Int(0)
    {
      SentinelBounds(v);
      CompareAntisymmetric(v, Int(0));
      assert TrueRange()[2..] == [Start(Int(0), true), End(MaxValue, false)];
    }
  }

  /** `buildFromIsTrue`: `IS TRUE` holds for non-null non-zero values, `IS NOT TRUE` for NULL and zero. */
  function BuildFromIsTrue(isNot: bool): (points: seq<Point>)
    ensures Alternating(points)
    ensures forall v :: Member(points, v) <==> if isNot then v == Null || v == Int(0) else v != Null && v != Int(0)
  {
    if isNot then
      var points := [Start(Null, false), End(Null, false), Start(Int(0), false), End(Int(0), false)];
      assert forall v :: Member(points, v) <==> v == Null || v == Int(0) by {
        forall v
          ensures Member(points, v) <==> v == Null || v == Int(0)
        {
          assert points[2..] == [Start(Int(0), false), End(Int(0), false)];
          CompareAntisymmetric(v, Null);
          CompareAntisymmetric(v, Int(0));
        }
      }
      points
    else
      TrueRangeMember();
      TrueRange()
  }

  /** `buildFromIsFalse`: `IS FALSE` holds for zero only, `IS NOT FALSE` for everything else, NULL included. */
  function BuildFromIsFalse(isNot: bool): (points: seq<Point>)
    ensures Alternating(points)
    ensures forall v :: Member(points, v) <==> if isNot then v != Int(0) else v == Int(0)
  {
    if isNot then
      var points := [Start(Null, false), End(Int(0), true), Start(Int(0), true), End(MaxValue, false)];
      assert forall v :: Member(points, v) <==> v != Int(0) by {
        forall v
          ensures Member(points, v) <==> v != Int(0)
        {
          assert points[2..] == [Start(Int(0), true), End(MaxValue, false)];
          SentinelBounds(v);
          CompareAntisymmetric(v, Int(0));
        }
      }
      points
    else
      var points := [Start(Int(0), false), End(Int(0), false)];
      assert forall v :: Member(points, v) <==> v == Int(0) by {
        forall v
          ensures Member(points, v) <==> v == Int(0)
        {
          CompareAntisymmetric(v, Int(0));
        }
      }
      points
  }

  /** The `IS NULL` case of `buildFromScalarFunc`, and the `NOT (IS NULL)` case of `buildFromNot`. */
  function BuildFromIsNull(isNot: bool): (points: seq<Point>)
    ensures Alternating(points)
    ensures forall v :: Member(points, v) <==> (v == Null) != isNot
  {
    if isNot then
      var points := [Start(MinNotNull, false), End(MaxValue, false)];
      assert forall v :: Member(points, v) <==> v != Null by {
        forall v
          ensures Member(points, v) <==> v != Null
        {
          SentinelBounds(v);
        }
      }
      points
    else
      var points := [Start(Null, false), End(Null, false)];
      assert forall v :: Member(points, v) <==> v == Null by {
        forall v
          ensures Member(points, v) <==> v == Null
        {
          CompareAntisymmetric(v, Null);
        }
      }
      points
  }
}

/**
 * Column pruning (sql/plan/column_pruning.go): each logical plan node is
 * told which of its output columns its parent uses, drops the others from
 * its schema together with the entries of its parallel lists, and tells
 * its children which columns it needs in turn.
 *
 * Plans are values here: `Pruned` is the pruned plan, and the method
 * `Prune` computes it with the reverse-index splice loops of the source.
 */
module ColumnPruning {
  import opened Outcomes
  import opened Expressions
  import opened ExprUtil
  import Columns

  // ---------------------------------------------------------------------
  // Plans

  datatype JoinType = InnerJoin | LeftOuterJoin | RightOuterJoin | SemiJoin | LeftOuterSemiJoin

  /** An aggregate function: only its arguments matter to pruning. */
  datatype AggFunc = AggFunc(name: string, args: seq<Expr>)

  /** The logical plan nodes that prune columns; a sort item is its expression. */
  datatype Plan =
    | Projection(schema: seq<ColumnRef>, exprs: seq<Expr>, child: Plan)
    | Selection(schema: seq<ColumnRef>, conditions: seq<Expr>, child: Plan)
    | Aggregation(schema: seq<ColumnRef>, aggFuncs: seq<AggFunc>, groupByItems: seq<Expr>, child: Plan)
    | Sort(schema: seq<ColumnRef>, byItems: seq<Expr>, child: Plan)
    | Union(schema: seq<ColumnRef>, children: seq<Plan>)
    | DataSource(schema: seq<ColumnRef>, columns: seq<Columns.Column>)
    | TableDual(schema: seq<ColumnRef>)
    | Trim(schema: seq<ColumnRef>, child: Plan)
    | Exists(schema: seq<ColumnRef>, child: Plan)
    | Insert(schema: seq<ColumnRef>, children: seq<Plan>)
    | Join(schema: seq<ColumnRef>, joinType: JoinType,
           equalConditions: seq<Expr>, leftConditions: seq<Expr>,
           rightConditions: seq<Expr>, otherConditions: seq<Expr>,
           left: Plan, right: Plan)
    | Apply(corCols: seq<ColumnRef>, join: Plan)   // an `Apply` embeds its join and shares its schema

  /** `GetSchema`. */
  function Schema(p: Plan): seq<ColumnRef>
  {
    if p.Apply? then Schema(p.join) else p.schema
  }

  /**
   * What pruning relies on to stay within bounds: parallel lists as long
   * as the schema, union children at least as wide as the union, and a
   * left-outer-semi-join schema holding its extra column.
   */
  predicate Prunable(p: Plan)
  {
    match p
    case Projection(s, exprs, c) => |exprs| == |s| && Prunable(c)
    case Selection(_, _, c) => Prunable(c)
    case Aggregation(s, aggs, _, c) => |aggs| == |s| && Prunable(c)
    case Sort(_, _, c) => Prunable(c)
    case Union(s, children) =>
      forall i :: 0 <= i < |children| ==> |Schema(children[i])| >= |s| && Prunable(children[i])
    case DataSource(s, columns) => |columns| == |s|
    case TableDual(_) => true
    case Trim(_, c) => Prunable(c)
    case Exists(_, c) => Prunable(c)
    case Insert(_, children) => forall i :: 0 <= i < |children| ==> Prunable(children[i])
    case Join(s, jt, _, _, _, _, l, r) => (jt == LeftOuterSemiJoin ==> |s| >= 1) && Prunable(l) && Prunable(r)
    case Apply(_, join) => Prunable(join)
  }

  /** The join schema the planner builds from the children's schemas. */
  predicate JoinSchema(s: seq<ColumnRef>, jt: JoinType, ls: seq<ColumnRef>, rs: seq<ColumnRef>)
  {
    match jt
    case SemiJoin => s == ls
    case LeftOuterSemiJoin => |s| >= 1 && s[..|s| - 1] == ls
    case _ => s == ls + rs
  }

  /** The schemas the planner sets up: a selection or sort shows its child's schema, a join its children's. */
  predicate Consistent(p: Plan)
  {
    match p
    case Projection(_, _, c) => Consistent(c)
    case Selection(s, _, c) => s == Schema(c) && Consistent(c)
    case Aggregation(_, _, _, c) => Consistent(c)
    case Sort(s, _, c) => s == Schema(c) && Consistent(c)
    case Union(_, children) => forall i :: 0 <= i < |children| ==> Consistent(children[i])
    case DataSource(_, _) => true
    case TableDual(_) => true
    case Trim(_, c) => Consistent(c)
    case Exists(_, c) => Consistent(c)
    case Insert(_, children) => forall i :: 0 <= i < |children| ==> Consistent(children[i])
    case Join(s, jt, _, _, _, _, l, r) => JoinSchema(s, jt, Schema(l), Schema(r)) && Consistent(l) && Consistent(r)
    case Apply(_, join) => Consistent(join)
  }

  // ---------------------------------------------------------------------
  // getUsedList

  /**
   * The used-column mask of a schema: a position is marked when some used
   * column's first position in the schema is that one.
   */
  function UsedMask(usedCols: seq<ColumnRef>, schema: seq<ColumnRef>): (used: seq<bool>)
    ensures |used| == |schema|
    ensures forall i :: 0 <= i < |schema| ==> (used[i] <==> FirstUse(usedCols, schema, i))
  {
    UsedMaskFirst(usedCols, schema);
    seq(|schema|, i requires 0 <= i < |schema| => exists k :: 0 <= k < |usedCols| && ColumnIndex(schema, usedCols[k]) == i)
  }

  /** Position `i` holds a used column, which occurs nowhere earlier in the schema. */
  predicate FirstUse(usedCols: seq<ColumnRef>, schema: seq<ColumnRef>, i: nat)
    requires i < |schema|
  {
    schema[i] in usedCols && schema[i] !in schema[..i]
  }

  /** The first position of a column is the only one whose column occurs nowhere earlier. */
  lemma FirstPosition(schema: seq<ColumnRef>, i: nat)
    requires i < |schema|
    ensures ColumnIndex(schema, schema[i]) == i <==> schema[i] !in schema[..i]
  {
    var j := ColumnIndex(schema, schema[i]);
    if j < i {
      assert schema[..i][j] == schema[i];
    }
  }

  lemma UsedMaskFirst(usedCols: seq<ColumnRef>, schema: seq<ColumnRef>)
    ensures forall i :: 0 <= i < |schema| ==>
              ((exists k :: 0 <= k < |usedCols| && ColumnIndex(schema, usedCols[k]) == i) <==> FirstUse(usedCols, schema, i))
  {
    forall i | 0 <= i < |schema|
      ensures (exists k :: 0 <= k < |usedCols| && ColumnIndex(schema, usedCols[k]) == i) <==> FirstUse(usedCols, schema, i)
    {
      FirstPosition(schema, i);
      if schema[i] in usedCols && schema[i] !in schema[..i] {
        var k :| 0 <= k < |usedCols| && usedCols[k] == schema[i];
        assert ColumnIndex(schema, usedCols[k]) == i;
      }
    }
  }

  /** A used column the schema holds stays marked. */
  lemma UsedColumnMarked(usedCols: seq<ColumnRef>, schema: seq<ColumnRef>, c: ColumnRef)
    requires c in usedCols && c in schema
    ensures var i := ColumnIndex(schema, c); 0 <= i < |schema| && UsedMask(usedCols, schema)[i] && schema[i] == c
  {
  }

  /**
   * `getUsedList`, corrected: a fresh mask as long as the schema, true
   * exactly at the first positions of the used columns; a used column the
   * schema lacks is skipped.
   */
  method GetUsedList(usedCols: seq<ColumnRef>, schema: seq<ColumnRef>) returns (used: array<bool>)
    ensures fresh(used)
    ensures used[..] == UsedMask(usedCols, schema)
  {
    used := new bool[|schema|](_ => false);
    for k := 0 to |usedCols|
      invariant forall i :: 0 <= i < used.Length ==>
                  (used[i] <==> exists j :: 0 <= j < k && ColumnIndex(schema, usedCols[j]) == i)
    {
      var idx := ColumnIndex(schema, usedCols[k]);
      if idx != -1 {
        used[idx] := true;
      }
    }
  }

  /**
   * `getUsedList` as written: after logging a used column the schema
   * lacks, it still sets `used[-1]`, which panics.  The mask over the
   * first `n` used columns.
   */
  function UsedListAsWritten(usedCols: seq<ColumnRef>, schema: seq<ColumnRef>, n: nat): Result<seq<bool>>
    requires n <= |usedCols|
  {
    if n == 0 then Ok(seq(|schema|, _ => false))
    else
      match UsedListAsWritten(usedCols, schema, n - 1)
      case Err(msg) => Err(msg)
      case Ok(used) =>
        var idx := ColumnIndex(schema, usedCols[n - 1]);
        if idx == -1 || idx >= |used| then Err("index out of range [-1]") else Ok(used[idx := true])
  }

  /** As written, the mask is right exactly when every used column is in the schema, and a panic otherwise. */
  lemma {:induction false} UsedListAsWrittenAgrees(usedCols: seq<ColumnRef>, schema: seq<ColumnRef>, n: nat)
    requires n <= |usedCols|
    ensures var r := UsedListAsWritten(usedCols, schema, n);
            (r.Ok? <==> forall k :: 0 <= k < n ==> usedCols[k] in schema) &&
            (r.Ok? ==> r.value == UsedMask(usedCols[..n], schema))
  {
    var r := UsedListAsWritten(usedCols, schema, n);
    if n == 0 {
      var m := UsedMask(usedCols[..0], schema);
      assert forall i :: 0 <= i < |schema| ==> !m[i];
      assert r.value == m;
    } else {
      UsedListAsWrittenAgrees(usedCols, schema, n - 1);
      var prev := UsedListAsWritten(usedCols, schema, n - 1);
      var idx := ColumnIndex(schema, usedCols[n - 1]);
      if prev.Err? {
        assert r.Err?;
        var k :| 0 <= k < n - 1 && usedCols[k] !in schema;
      } else if idx == -1 {
        assert r.Err?;
        assert usedCols[n - 1] !in schema;
      } else {
        assert |prev.value| == |schema|;
        assert r == Ok(prev.value[idx := true]);
        MaskStep(usedCols, schema, n);
      }
    }
  }

  /** Marking one more used column sets its first position. */
  lemma MaskStep(usedCols: seq<ColumnRef>, schema: seq<ColumnRef>, n: nat)
    requires 0 < n <= |usedCols| && usedCols[n - 1] in schema
    ensures UsedMask(usedCols[..n], schema) ==
            UsedMask(usedCols[..n - 1], schema)[ColumnIndex(schema, usedCols[n - 1]) := true]
  {
    var idx := ColumnIndex(schema, usedCols[n - 1]);
    var before, after := UsedMask(usedCols[..n - 1], schema), UsedMask(usedCols[..n], schema);
    assert usedCols[..n] == usedCols[..n - 1] + [usedCols[n - 1]];
    forall i | 0 <= i < |schema|
      ensures after[i] == before[idx := true][i]
    {
      if i == idx {
        assert schema[i] == usedCols[n - 1];
      }
    }
  }

  /** One column the schema lacks: the code as written panics where the corrected mask simply ignores it. */
  lemma UsedListPanicsOnMissingColumn()
    ensures UsedListAsWritten([ColumnRef(1, "a")], [], 1).Err?
    ensures UsedMask([ColumnRef(1, "a")], []) == []
  {
  }

  // ---------------------------------------------------------------------
  // exprHasSetVar

  /** A call of `setvar` occurs somewhere in the expression tree. */
  predicate CallsSetVar(e: Expr)
  {
    match e
    case Func(name, _, args, _, _) => name == SetVar || exists i :: 0 <= i < |args| && CallsSetVar(args[i])
    case _ => false
  }

  /** `exprHasSetVar`: true when the expression may be pruned (despite its name). */
  function ExprHasSetVar(e: Expr): bool
  {
    match e
    case Func(name, _, args, _, _) => if name == SetVar then false else ArgsCanPrune(args, 0)
    case _ => true
  }

  /** The argument loop: every argument from `i` on may be pruned. */
  function ArgsCanPrune(args: seq<Expr>, i: nat): bool
    requires i <= |args|
    decreases args, |args| - i
  {
    if i == |args| then true
    else if !ExprHasSetVar(args[i]) then false
    else ArgsCanPrune(args, i + 1)
  }

  /** An expression may be pruned exactly when no `setvar` call occurs in it. */
  lemma {:induction false} ExprHasSetVarMeaning(e: Expr)
    ensures ExprHasSetVar(e) <==> !CallsSetVar(e)
  {
    if e.Func? && e.name != SetVar {
      ArgsCanPruneMeaning(e.args, 0);
    }
  }

  lemma {:induction false} ArgsCanPruneMeaning(args: seq<Expr>, i: nat)
    requires i <= |args|
    ensures ArgsCanPrune(args, i) <==> forall j :: i <= j < |args| ==> !CallsSetVar(args[j])
    decreases args, |args| - i
  {
    if i < |args| {
      ExprHasSetVarMeaning(args[i]);
      ArgsCanPruneMeaning(args, i + 1);
    }
  }

  // ---------------------------------------------------------------------
  // Splicing parallel lists

  /** The entries of `xs` at and after `i` whose `keep` mark is set, in order. */
  function KeptFrom<T>(xs: seq<T>, keep: seq<bool>, i: nat): seq<T>
    requires |xs| == |keep| && i <= |xs|
    decreases |xs| - i
  {
    if i == |xs| then [] else (if keep[i] then [xs[i]] else []) + KeptFrom(xs, keep, i + 1)
  }

  function Kept<T>(xs: seq<T>, keep: seq<bool>): seq<T>
    requires |xs| == |keep|
  {
    KeptFrom(xs, keep, 0)
  }

  /** The marked positions at and after `i`, in increasing order. */
  function PositionsFrom(keep: seq<bool>, i: nat): (ps: seq<nat>)
    requires i <= |keep|
    ensures forall k :: 0 <= k < |ps| ==> i <= ps[k] < |keep| && keep[ps[k]]
    ensures forall k, l :: 0 <= k < l < |ps| ==> ps[k] < ps[l]
    ensures forall j :: i <= j < |keep| && keep[j] ==> j in ps
    decreases |keep| - i
  {
    if i == |keep| then []
    else if keep[i] then [i] + PositionsFrom(keep, i + 1)
    else PositionsFrom(keep, i + 1)
  }

  /**
   * Splicing keeps exactly the marked positions, in order: every list
   * spliced with the same mask keeps the same positions, so parallel
   * lists stay in lockstep.
   */
  lemma {:induction false} KeptAt<T>(xs: seq<T>, keep: seq<bool>, i: nat)
    requires |xs| == |keep| && i <= |xs|
    ensures var ps := PositionsFrom(keep, i);
            |KeptFrom(xs, keep, i)| == |ps| && forall k :: 0 <= k < |ps| ==> KeptFrom(xs, keep, i)[k] == xs[ps[k]]
    decreases |xs| - i
  {
    if i < |xs| {
      KeptAt(xs, keep, i + 1);
      var rest, ps' := KeptFrom(xs, keep, i + 1), PositionsFrom(keep, i + 1);
      if keep[i] {
        var ks, ps := [xs[i]] + rest, [i] + ps';
        assert KeptFrom(xs, keep, i) == ks && PositionsFrom(keep, i) == ps;
        forall k | 0 <= k < |ps|
          ensures ks[k] == xs[ps[k]]
        {
          if k > 0 {
            assert ks[k] == rest[k - 1] && ps[k] == ps'[k - 1];
          }
        }
      } else {
        assert KeptFrom(xs, keep, i) == rest;
        assert PositionsFrom(keep, i) == ps';
      }
    }
  }

  /** A spliced list holds exactly the entries at marked positions. */
  lemma {:induction false} KeptMembers<T>(xs: seq<T>, keep: seq<bool>, i: nat, x: T)
    requires |xs| == |keep| && i <= |xs|
    ensures x in KeptFrom(xs, keep, i) <==> exists j :: i <= j < |xs| && keep[j] && xs[j] == x
    decreases |xs| - i
  {
    if i < |xs| {
      KeptMembers(xs, keep, i + 1, x);
      var rest := KeptFrom(xs, keep, i + 1);
      if keep[i] {
        assert KeptFrom(xs, keep, i) == [xs[i]] + rest;
        assert x in [xs[i]] + rest <==> x == xs[i] || x in rest;
      } else {
        assert KeptFrom(xs, keep, i) == rest;
      }
    }
  }

  /** The reverse-index splice loop: drops every unmarked entry, from the last position down. */
  method Splice<T>(xs: seq<T>, keep: seq<bool>) returns (ys: seq<T>)
    requires |xs| == |keep|
    ensures ys == Kept(xs, keep)
  {
    ys := xs;
    var i := |keep|;
    while i > 0
      invariant 0 <= i <= |xs|
      invariant ys == xs[..i] + KeptFrom(xs, keep, i)
    {
      i := i - 1;
      assert xs[..i + 1] == xs[..i] + [xs[i]];
      if !keep[i] {
        assert ys[..i] == xs[..i];
        assert ys[i + 1..] == KeptFrom(xs, keep, i + 1);
        ys := ys[..i] + ys[i + 1..];
      }
    }
  }

  /** The projection keeps an output the parent uses, and one whose expression calls `setvar`. */
  function ProjectionKeep(used: seq<bool>, exprs: seq<Expr>): (keep: seq<bool>)
    requires |used| == |exprs|
    ensures |keep| == |used|
  {
    seq(|used|, i requires 0 <= i < |used| => used[i] || !ExprHasSetVar(exprs[i]))
  }

  /** The columns of a list of expressions, in order. */
  function ColumnsOf(es: seq<Expr>): seq<ColumnRef>
  {
    ArgsColumns(es, |es|)
  }

  /** The columns of the aggregate functions' arguments, in order. */
  function AggColumns(aggs: seq<AggFunc>, n: nat): seq<ColumnRef>
    requires n <= |aggs|
  {
    if n == 0 then [] else AggColumns(aggs, n - 1) + ColumnsOf(aggs[n - 1].args)
  }

  /** A union child's columns at the union's used positions. */
  function UnionChildCols(keep: seq<bool>, schema: seq<ColumnRef>): seq<ColumnRef>
    requires |schema| >= |keep|
  {
    Kept(schema[..|keep|], keep)
  }

  /** The needed columns the left child's schema holds, in order. */
  function RouteLeft(needed: seq<ColumnRef>, ls: seq<ColumnRef>, n: nat): (cols: seq<ColumnRef>)
    requires n <= |needed|
    ensures forall c :: c in cols <==> c in needed[..n] && c in ls
  {
    if n == 0 then []
    else
      var before := RouteLeft(needed, ls, n - 1);
      assert needed[..n] == needed[..n - 1] + [needed[n - 1]];
      if ColumnIndex(ls, needed[n - 1]) != -1 then before + [needed[n - 1]] else before
  }

  /** The needed columns only the right child's schema holds, in order. */
  function RouteRight(needed: seq<ColumnRef>, ls: seq<ColumnRef>, rs: seq<ColumnRef>, n: nat): (cols: seq<ColumnRef>)
    requires n <= |needed|
    ensures forall c :: c in cols <==> c in needed[..n] && c !in ls && c in rs
  {
    if n == 0 then []
    else
      var before := RouteRight(needed, ls, rs, n - 1);
      assert needed[..n] == needed[..n - 1] + [needed[n - 1]];
      if ColumnIndex(ls, needed[n - 1]) != -1 then before
      else if ColumnIndex(rs, needed[n - 1]) != -1 then before + [needed[n - 1]]
      else before
  }

  /** The columns a join needs: its parent's, then those of its four condition lists. */
  function JoinNeeded(p: Plan, parentUsed: seq<ColumnRef>): seq<ColumnRef>
    requires p.Join?
  {
    parentUsed + ColumnsOf(p.equalConditions) + ColumnsOf(p.leftConditions)
    + ColumnsOf(p.rightConditions) + ColumnsOf(p.otherConditions)
  }

  /** The join's schema after its children were pruned. */
  function JoinSchemaAfter(s: seq<ColumnRef>, jt: JoinType, ls: seq<ColumnRef>, rs: seq<ColumnRef>): seq<ColumnRef>
    requires jt == LeftOuterSemiJoin ==> |s| >= 1
  {
    match jt
    case SemiJoin => ls
    case LeftOuterSemiJoin => ls + [s[|s| - 1]]
    case _ => ls + rs
  }

  // ---------------------------------------------------------------------
  // PruneColumns

  /** `PruneColumns`: the plan after pruning, given the columns its parent uses. */
  function Pruned(p: Plan, parentUsed: seq<ColumnRef>): Plan
    requires Prunable(p)
  {
    match p
    case Projection(schema, exprs, child) =>
      var keep := ProjectionKeep(UsedMask(parentUsed, schema), exprs);
      var exprs' := Kept(exprs, keep);
      Projection(Kept(schema, keep), exprs', Pruned(child, ColumnsOf(exprs')))
    case Selection(_, conditions, child) =>
      var child' := Pruned(child, parentUsed + ColumnsOf(conditions));
      Selection(Schema(child'), conditions, child')
    case Aggregation(schema, aggs, groupBy, child) =>
      var keep := UsedMask(parentUsed, schema);
      var aggs' := Kept(aggs, keep);
      Aggregation(Kept(schema, keep), aggs', groupBy, Pruned(child, AggColumns(aggs', |aggs'|) + ColumnsOf(groupBy)))
    case Sort(_, byItems, child) =>
      var child' := Pruned(child, parentUsed + ColumnsOf(byItems));
      Sort(Schema(child'), byItems, child')
    case Union(schema, children) =>
      var keep := UsedMask(parentUsed, schema);
      Union(Kept(schema, keep),
            seq(|children|, i requires 0 <= i < |children| =>
                  Pruned(children[i], UnionChildCols(keep, Schema(children[i])))))
    case DataSource(schema, columns) =>
      var keep := UsedMask(parentUsed, schema);
      DataSource(Kept(schema, keep), Kept(columns, keep))
    case TableDual(_) => p
    case Trim(schema, child) =>
      Trim(Kept(schema, UsedMask(parentUsed, schema)), Pruned(child, parentUsed))
    case Exists(schema, child) => Exists(schema, Pruned(child, []))
    case Insert(schema, children) =>
      if |children| == 0 then p
      else Insert(schema, [Pruned(children[0], Schema(children[0]))] + children[1..])
    case Join(schema, jt, eq, lc, rc, oc, l, r) =>
      var needed := JoinNeeded(p, parentUsed);
      var l' := Pruned(l, RouteLeft(needed, Schema(l), |needed|));
      var r' := Pruned(r, RouteRight(needed, Schema(l), Schema(r), |needed|));
      Join(JoinSchemaAfter(schema, jt, Schema(l'), Schema(r')), jt, eq, lc, rc, oc, l', r')
    case Apply(corCols, join) => Apply(corCols, Pruned(join, parentUsed + corCols))
  }

  // ---------------------------------------------------------------------
  // The pruning loops

  /** The reverse-index splice loop over two parallel lists: an unmarked position leaves both at once. */
  method SpliceBoth<A, B>(xs: seq<A>, ys: seq<B>, keep: seq<bool>) returns (xs': seq<A>, ys': seq<B>)
    requires |xs| == |keep| && |ys| == |keep|
    ensures xs' == Kept(xs, keep) && ys' == Kept(ys, keep)
  {
    xs', ys' := xs, ys;
    var i := |keep|;
    while i > 0
      invariant 0 <= i <= |keep|
      invariant xs' == xs[..i] + KeptFrom(xs, keep, i)
      invariant ys' == ys[..i] + KeptFrom(ys, keep, i)
    {
      i := i - 1;
      assert xs[..i + 1] == xs[..i] + [xs[i]];
      assert ys[..i + 1] == ys[..i] + [ys[i]];
      if !keep[i] {
        assert xs'[..i] == xs[..i] && xs'[i + 1..] == KeptFrom(xs, keep, i + 1);
        assert ys'[..i] == ys[..i] && ys'[i + 1..] == KeptFrom(ys, keep, i + 1);
        xs' := xs'[..i] + xs'[i + 1..];
        ys' := ys'[..i] + ys'[i + 1..];
      }
    }
  }

  /** Appending the columns of each expression in turn. */
  method AppendColumns(cols: seq<ColumnRef>, es: seq<Expr>) returns (r: seq<ColumnRef>)
    ensures r == cols + ColumnsOf(es)
  {
    r := cols;
    for i := 0 to |es|
      invariant r == cols + ArgsColumns(es, i)
    {
      var extracted := ExtractColumns(es[i]);
      assert ArgsColumns(es, i + 1) == ArgsColumns(es, i) + extracted;
      r := r + extracted;
    }
  }

  /** Appending the columns of every argument of every aggregate function. */
  method AppendAggColumns(cols: seq<ColumnRef>, aggs: seq<AggFunc>) returns (r: seq<ColumnRef>)
    ensures r == cols + AggColumns(aggs, |aggs|)
  {
    r := cols;
    for i := 0 to |aggs|
      invariant r == cols + AggColumns(aggs, i)
    {
      ghost var before := r;
      r := AppendColumns(r, aggs[i].args);
      assert r == cols + (AggColumns(aggs, i) + ColumnsOf(aggs[i].args));
    }
  }

  /** A union child's columns at the used positions, collected in order. */
  method ChildCols(keep: seq<bool>, schema: seq<ColumnRef>) returns (newCols: seq<ColumnRef>)
    requires |schema| >= |keep|
    ensures newCols == UnionChildCols(keep, schema)
  {
    var s := schema[..|keep|];
    newCols := [];
    for i := 0 to |keep|
      invariant newCols + KeptFrom(s, keep, i) == Kept(s, keep)
    {
      ghost var rest := KeptFrom(s, keep, i + 1);
      if keep[i] {
        assert KeptFrom(s, keep, i) == [s[i]] + rest;
        assert s[i] == schema[i];
        assert newCols + ([schema[i]] + rest) == (newCols + [schema[i]]) + rest;
        newCols := newCols + [schema[i]];
      } else {
        assert KeptFrom(s, keep, i) == rest;
      }
    }
    assert KeptFrom(s, keep, |keep|) == [];
  }

  /** The join's routing loop: a needed column goes left when the left schema has it, else right when the right one has it. */
  method RouteColumns(needed: seq<ColumnRef>, ls: seq<ColumnRef>, rs: seq<ColumnRef>)
    returns (leftCols: seq<ColumnRef>, rightCols: seq<ColumnRef>)
    ensures leftCols == RouteLeft(needed, ls, |needed|)
    ensures rightCols == RouteRight(needed, ls, rs, |needed|)
  {
    leftCols, rightCols := [], [];
    for i := 0 to |needed|
      invariant leftCols == RouteLeft(needed, ls, i)
      invariant rightCols == RouteRight(needed, ls, rs, i)
    {
      var col := needed[i];
      if ColumnIndex(ls, col) != -1 {
        leftCols := leftCols + [col];
      } else if ColumnIndex(rs, col) != -1 {
        rightCols := rightCols + [col];
      }
    }
  }

  /** `PruneColumns`: prunes the plan for the columns its parent uses. */
  method Prune(p: Plan, parentUsed: seq<ColumnRef>) returns (q: Plan)
    requires Prunable(p)
    ensures q == Pruned(p, parentUsed)
    decreases p, 1
  {
    match p
    case Projection(_, _, _) =>
      q := PruneProjection(p, parentUsed);
    case Selection(_, conditions, child) =>
      var used := AppendColumns(parentUsed, conditions);
      var child' := Prune(child, used);
      q := Selection(Schema(child'), conditions, child');
    case Aggregation(_, _, _, _) =>
      q := PruneAggregation(p, parentUsed);
    case Sort(_, byItems, child) =>
      var used := AppendColumns(parentUsed, byItems);
      var child' := Prune(child, used);
      q := Sort(Schema(child'), byItems, child');
    case Union(_, _) =>
      q := PruneUnion(p, parentUsed);
    case DataSource(schema, columns) =>
      var used := GetUsedList(parentUsed, schema);
      var schema', columns' := SpliceBoth(schema, columns, used[..]);
      q := DataSource(schema', columns');
    case TableDual(_) =>
      q := p;
    case Trim(schema, child) =>
      var used := GetUsedList(parentUsed, schema);
      var schema' := Splice(schema, used[..]);
      var child' := Prune(child, parentUsed);
      q := Trim(schema', child');
    case Exists(schema, child) =>
      var child' := Prune(child, []);
      q := Exists(schema, child');
    case Insert(schema, children) =>
      if |children| == 0 {
        q := p;
      } else {
        var child' := Prune(children[0], Schema(children[0]));
        q := Insert(schema, [child'] + children[1..]);
      }
    case Join(_, _, _, _, _, _, _, _) =>
      q := PruneJoin(p, parentUsed);
    case Apply(corCols, join) =>
      var join' := Prune(join, parentUsed + corCols);
      q := Apply(corCols, join');
  }

  /**
   * The projection drops, from the last position down, each output the
   * parent does not use whose expression may be pruned; the mark of a
   * position depends only on its own output, so it is computed up front.
   */
  method PruneProjection(p: Plan, parentUsed: seq<ColumnRef>) returns (q: Plan)
    requires p.Projection? && Prunable(p)
    ensures q == Pruned(p, parentUsed)
    decreases p, 0
  {
    var used := GetUsedList(parentUsed, p.schema);
    var keep := ProjectionKeep(used[..], p.exprs);
    var schema', exprs' := SpliceBoth(p.schema, p.exprs, keep);
    var selfUsed := AppendColumns([], exprs');
    assert selfUsed == ColumnsOf(exprs');
    var child' := Prune(p.child, selfUsed);
    q := Projection(schema', exprs', child');
  }

  method PruneAggregation(p: Plan, parentUsed: seq<ColumnRef>) returns (q: Plan)
    requires p.Aggregation? && Prunable(p)
    ensures q == Pruned(p, parentUsed)
    decreases p, 0
  {
    var used := GetUsedList(parentUsed, p.schema);
    var schema', aggs' := SpliceBoth(p.schema, p.aggFuncs, used[..]);
    var selfUsed := AppendAggColumns([], aggs');
    assert selfUsed == AggColumns(aggs', |aggs'|);
    selfUsed := AppendColumns(selfUsed, p.groupByItems);
    var child' := Prune(p.child, selfUsed);
    q := Aggregation(schema', aggs', p.groupByItems, child');
  }

  method PruneUnion(p: Plan, parentUsed: seq<ColumnRef>) returns (q: Plan)
    requires p.Union? && Prunable(p)
    ensures q == Pruned(p, parentUsed)
    decreases p, 0
  {
    var used := GetUsedList(parentUsed, p.schema);
    var keep := used[..];
    var schema' := Splice(p.schema, keep);
    var children' := [];
    for i := 0 to |p.children|
      invariant |children'| == i
      invariant forall k :: 0 <= k < i ==>
                  children'[k] == Pruned(p.children[k], UnionChildCols(keep, Schema(p.children[k])))
    {
      var newCols := ChildCols(keep, Schema(p.children[i]));
      var child' := Prune(p.children[i], newCols);
      children' := children' + [child'];
    }
    q := Union(schema', children');
  }

  method PruneJoin(p: Plan, parentUsed: seq<ColumnRef>) returns (q: Plan)
    requires p.Join? && Prunable(p)
    ensures q == Pruned(p, parentUsed)
    decreases p, 0
  {
    var needed := AppendColumns(parentUsed, p.equalConditions);
    needed := AppendColumns(needed, p.leftConditions);
    needed := AppendColumns(needed, p.rightConditions);
    needed := AppendColumns(needed, p.otherConditions);
    var leftCols, rightCols := RouteColumns(needed, Schema(p.left), Schema(p.right));
    var l' := Prune(p.left, leftCols);
    var r' := Prune(p.right, rightCols);
    var schema';
    if p.joinType == SemiJoin {
      schema' := Schema(l');
    } else if p.joinType == LeftOuterSemiJoin {
      var joinCol := p.schema[|p.schema| - 1];
      schema' := Schema(l') + [joinCol];
    } else {
      schema' := Schema(l') + Schema(r');
    }
    q := Join(schema', p.joinType, p.equalConditions, p.leftConditions, p.rightConditions, p.otherConditions, l', r');
  }

  // ---------------------------------------------------------------------
  // What pruning keeps

  /** The projection keeps an output exactly when its parent uses it or its expression calls `setvar`. */
  lemma ProjectionKeepMeaning(used: seq<bool>, exprs: seq<Expr>)
    requires |used| == |exprs|
    ensures forall i :: 0 <= i < |used| ==> (ProjectionKeep(used, exprs)[i] <==> used[i] || CallsSetVar(exprs[i]))
  {
    forall i | 0 <= i < |used| {
      ExprHasSetVarMeaning(exprs[i]);
    }
  }

  /** A union child is asked for its own columns at exactly the union's used positions, in order. */
  lemma UnionChildColsAt(keep: seq<bool>, schema: seq<ColumnRef>)
    requires |schema| >= |keep|
    ensures var cols, ps := UnionChildCols(keep, schema), PositionsFrom(keep, 0);
            |cols| == |ps| && forall k :: 0 <= k < |ps| ==> cols[k] == schema[ps[k]]
  {
    KeptAt(schema[..|keep|], keep, 0);
  }

  /** Two lists spliced with one mask stay the same length. */
  lemma KeptLockstep<A, B>(xs: seq<A>, ys: seq<B>, keep: seq<bool>)
    requires |xs| == |keep| && |ys| == |keep|
    ensures |Kept(xs, keep)| == |Kept(ys, keep)|
  {
    KeptAt(xs, keep, 0);
    KeptAt(ys, keep, 0);
  }

  /** A mask that keeps at least the used positions keeps every used column the schema holds, and adds none. */
  lemma MaskKeeps(usedCols: seq<ColumnRef>, schema: seq<ColumnRef>, keep: seq<bool>)
    requires |keep| == |schema|
    requires forall i :: 0 <= i < |schema| && UsedMask(usedCols, schema)[i] ==> keep[i]
    ensures forall c :: c in usedCols && c in schema ==> c in Kept(schema, keep)
    ensures forall c :: c in Kept(schema, keep) ==> c in schema
  {
    forall c | c in usedCols && c in schema
      ensures c in Kept(schema, keep)
    {
      UsedColumnMarked(usedCols, schema, c);
      KeptMembers(schema, keep, 0, c);
    }
    forall c | c in Kept(schema, keep)
      ensures c in schema
    {
      KeptMembers(schema, keep, 0, c);
    }
  }

  /** The parallel lists of every node stay as long as its schema. */
  predicate Aligned(p: Plan)
  {
    match p
    case Projection(s, exprs, c) => |exprs| == |s| && Aligned(c)
    case Selection(_, _, c) => Aligned(c)
    case Aggregation(s, aggs, _, c) => |aggs| == |s| && Aligned(c)
    case Sort(_, _, c) => Aligned(c)
    case Union(_, children) => forall i :: 0 <= i < |children| ==> Aligned(children[i])
    case DataSource(s, columns) => |columns| == |s|
    case TableDual(_) => true
    case Trim(_, c) => Aligned(c)
    case Exists(_, c) => Aligned(c)
    case Insert(_, children) => forall i :: 0 <= i < |children| ==> Aligned(children[i])
    case Join(s, jt, _, _, _, _, l, r) => (jt == LeftOuterSemiJoin ==> |s| >= 1) && Aligned(l) && Aligned(r)
    case Apply(_, join) => Aligned(join)
  }

  lemma {:induction false} PrunableAligned(p: Plan)
    requires Prunable(p)
    ensures Aligned(p)
  {
    match p
    case Projection(_, _, c) => PrunableAligned(c);
    case Selection(_, _, c) => PrunableAligned(c);
    case Aggregation(_, _, _, c) => PrunableAligned(c);
    case Sort(_, _, c) => PrunableAligned(c);
    case Union(_, children) =>
      forall i | 0 <= i < |children| ensures Aligned(children[i]) { PrunableAligned(children[i]); }
    case DataSource(_, _) =>
    case TableDual(_) =>
    case Trim(_, c) => PrunableAligned(c);
    case Exists(_, c) => PrunableAligned(c);
    case Insert(_, children) =>
      forall i | 0 <= i < |children| ensures Aligned(children[i]) { PrunableAligned(children[i]); }
    case Join(_, _, _, _, _, _, l, r) => PrunableAligned(l); PrunableAligned(r);
    case Apply(_, join) => PrunableAligned(join);
  }

  /** Pruning removes entries of parallel lists in lockstep: every node's lists stay aligned with its schema. */
  lemma {:induction false} PruneAligned(p: Plan, parentUsed: seq<ColumnRef>)
    requires Prunable(p)
    ensures Aligned(Pruned(p, parentUsed))
    decreases p, 1
  {
    match p
    case Projection(schema, exprs, child) =>
      var keep := ProjectionKeep(UsedMask(parentUsed, schema), exprs);
      KeptLockstep(schema, exprs, keep);
      PruneAligned(child, ColumnsOf(Kept(exprs, keep)));
    case Selection(_, conditions, child) =>
      PruneAligned(child, parentUsed + ColumnsOf(conditions));
    case Aggregation(schema, aggs, groupBy, child) =>
      var keep := UsedMask(parentUsed, schema);
      var aggs' := Kept(aggs, keep);
      KeptLockstep(schema, aggs, keep);
      PruneAligned(child, AggColumns(aggs', |aggs'|) + ColumnsOf(groupBy));
    case Sort(_, byItems, child) =>
      PruneAligned(child, parentUsed + ColumnsOf(byItems));
    case Union(_, _) =>
      PruneAlignedChildren(p, parentUsed);
    case DataSource(schema, columns) =>
      KeptLockstep(schema, columns, UsedMask(parentUsed, schema));
    case TableDual(_) =>
    case Trim(_, child) =>
      PruneAligned(child, parentUsed);
    case Exists(_, child) =>
      PruneAligned(child, []);
    case Insert(_, _) =>
      PruneAlignedChildren(p, parentUsed);
    case Join(_, _, _, _, _, _, l, r) =>
      var needed := JoinNeeded(p, parentUsed);
      PruneAligned(l, RouteLeft(needed, Schema(l), |needed|));
      PruneAligned(r, RouteRight(needed, Schema(l), Schema(r), |needed|));
    case Apply(corCols, join) =>
      PruneAligned(join, parentUsed + corCols);
  }

  lemma {:induction false} PruneAlignedChildren(p: Plan, parentUsed: seq<ColumnRef>)
    requires (p.Union? || p.Insert?) && Prunable(p)
    ensures Aligned(Pruned(p, parentUsed))
    decreases p, 0
  {
    var q := Pruned(p, parentUsed);
    if p.Union? {
      var keep := UsedMask(parentUsed, p.schema);
      forall i | 0 <= i < |p.children|
        ensures Aligned(q.children[i])
      {
        PruneAligned(p.children[i], UnionChildCols(keep, Schema(p.children[i])));
      }
    } else if |p.children| > 0 {
      PruneAligned(p.children[0], Schema(p.children[0]));
      forall i | 1 <= i < |p.children| ensures Aligned(p.children[i]) { PrunableAligned(p.children[i]); }
      assert forall i :: 1 <= i < |q.children| ==> q.children[i] == p.children[i];
    }
  }

  /** Pruning keeps the schemas the planner set up: a selection or sort still shows its child's schema, a join its children's. */
  lemma {:induction false} PruneConsistent(p: Plan, parentUsed: seq<ColumnRef>)
    requires Prunable(p) && Consistent(p)
    ensures Consistent(Pruned(p, parentUsed))
    decreases p, 1
  {
    match p
    case Projection(schema, exprs, child) =>
      var keep := ProjectionKeep(UsedMask(parentUsed, schema), exprs);
      PruneConsistent(child, ColumnsOf(Kept(exprs, keep)));
    case Selection(_, conditions, child) =>
      PruneConsistent(child, parentUsed + ColumnsOf(conditions));
    case Aggregation(schema, aggs, groupBy, child) =>
      var aggs' := Kept(aggs, UsedMask(parentUsed, schema));
      PruneConsistent(child, AggColumns(aggs', |aggs'|) + ColumnsOf(groupBy));
    case Sort(_, byItems, child) =>
      PruneConsistent(child, parentUsed + ColumnsOf(byItems));
    case Union(_, _) =>
      PruneConsistentChildren(p, parentUsed);
    case DataSource(_, _) =>
    case TableDual(_) =>
    case Trim(_, child) =>
      PruneConsistent(child, parentUsed);
    case Exists(_, child) =>
      PruneConsistent(child, []);
    case Insert(_, _) =>
      PruneConsistentChildren(p, parentUsed);
    case Join(_, _, _, _, _, _, _, _) =>
      PruneConsistentJoin(p, parentUsed);
    case Apply(corCols, join) =>
      PruneConsistent(join, parentUsed + corCols);
  }

  lemma {:induction false} PruneConsistentChildren(p: Plan, parentUsed: seq<ColumnRef>)
    requires (p.Union? || p.Insert?) && Prunable(p) && Consistent(p)
    ensures Consistent(Pruned(p, parentUsed))
    decreases p, 0
  {
    var q := Pruned(p, parentUsed);
    if p.Union? {
      var keep := UsedMask(parentUsed, p.schema);
      forall i | 0 <= i < |p.children|
        ensures Consistent(q.children[i])
      {
        PruneConsistent(p.children[i], UnionChildCols(keep, Schema(p.children[i])));
      }
    } else if |p.children| > 0 {
      PruneConsistent(p.children[0], Schema(p.children[0]));
      assert forall i :: 1 <= i < |q.children| ==> q.children[i] == p.children[i];
    }
  }

  lemma {:induction false} PruneConsistentJoin(p: Plan, parentUsed: seq<ColumnRef>)
    requires p.Join? && Prunable(p) && Consistent(p)
    ensures Consistent(Pruned(p, parentUsed))
    decreases p, 0
  {
    var s, l, r := p.schema, p.left, p.right;
    var needed := JoinNeeded(p, parentUsed);
    var l' := Pruned(l, RouteLeft(needed, Schema(l), |needed|));
    PruneConsistent(l, RouteLeft(needed, Schema(l), |needed|));
    PruneConsistent(r, RouteRight(needed, Schema(l), Schema(r), |needed|));
    if p.joinType == LeftOuterSemiJoin {
      assert (Schema(l') + [s[|s| - 1]])[..|Schema(l')|] == Schema(l');
    }
  }

  /**
   * Pruning never drops a column the parent uses and never adds one: a
   * used column of the schema stays in the pruned schema, and the pruned
   * schema holds only columns of the old one.
   */
  lemma {:induction false} PruneSchema(p: Plan, parentUsed: seq<ColumnRef>)
    requires Prunable(p) && Consistent(p)
    ensures forall c :: c in parentUsed && c in Schema(p) ==> c in Schema(Pruned(p, parentUsed))
    ensures forall c :: c in Schema(Pruned(p, parentUsed)) ==> c in Schema(p)
    decreases p, 1
  {
    match p
    case Projection(schema, exprs, child) =>
      var used := UsedMask(parentUsed, schema);
      MaskKeeps(parentUsed, schema, ProjectionKeep(used, exprs));
    case Selection(_, conditions, child) =>
      PruneSchema(child, parentUsed + ColumnsOf(conditions));
    case Aggregation(schema, _, _, _) =>
      MaskKeeps(parentUsed, schema, UsedMask(parentUsed, schema));
    case Sort(_, byItems, child) =>
      PruneSchema(child, parentUsed + ColumnsOf(byItems));
    case Union(schema, _) =>
      MaskKeeps(parentUsed, schema, UsedMask(parentUsed, schema));
    case DataSource(schema, _) =>
      MaskKeeps(parentUsed, schema, UsedMask(parentUsed, schema));
    case TableDual(_) =>
    case Trim(schema, _) =>
      MaskKeeps(parentUsed, schema, UsedMask(parentUsed, schema));
    case Exists(_, _) =>
    case Insert(_, _) =>
    case Join(_, _, _, _, _, _, _, _) =>
      PruneJoinSchema(p, parentUsed);
    case Apply(corCols, join) =>
      PruneSchema(join, parentUsed + corCols);
  }

  /** `PruneSchema` for a join: a used column reaches the child whose schema holds it. */
  lemma {:induction false} PruneJoinSchema(p: Plan, parentUsed: seq<ColumnRef>)
    requires p.Join? && Prunable(p) && Consistent(p)
    ensures forall c :: c in parentUsed && c in Schema(p) ==> c in Schema(Pruned(p, parentUsed))
    ensures forall c :: c in Schema(Pruned(p, parentUsed)) ==> c in Schema(p)
    decreases p, 0
  {
    var s, jt, l, r := p.schema, p.joinType, p.left, p.right;
    var needed := JoinNeeded(p, parentUsed);
    var leftCols, rightCols := RouteLeft(needed, Schema(l), |needed|), RouteRight(needed, Schema(l), Schema(r), |needed|);
    PruneSchema(l, leftCols);
    PruneSchema(r, rightCols);
    var ls', rs' := Schema(Pruned(l, leftCols)), Schema(Pruned(r, rightCols));
    assert needed[..|needed|] == needed;
    assert Schema(Pruned(p, parentUsed)) == JoinSchemaAfter(s, jt, ls', rs');
    forall c | c in parentUsed && c in s
      ensures c in JoinSchemaAfter(s, jt, ls', rs')
    {
      assert c in needed;
      if jt == LeftOuterSemiJoin {
        assert s == s[..|s| - 1] + [s[|s| - 1]];
      }
    }
    forall c | c in JoinSchemaAfter(s, jt, ls', rs')
      ensures c in s
    {
      if jt == LeftOuterSemiJoin {
        assert s == s[..|s| - 1] + [s[|s| - 1]];
      }
    }
  }

  /** A table dual ignores pruning, and an exists or insert node prunes the same whatever its parent uses. */
  lemma PruneIgnoresParent(p: Plan, u1: seq<ColumnRef>, u2: seq<ColumnRef>)
    requires Prunable(p) && (p.TableDual? || p.Exists? || p.Insert?)
    ensures Pruned(p, u1) == Pruned(p, u2)
    ensures p.TableDual? ==> Pruned(p, u1) == p
  {
  }
}

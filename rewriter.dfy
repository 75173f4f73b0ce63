/**
 * The expression rewriter (`expressionRewriter` in
 * sql/plan/expression_rewriter.go): a visitor that turns a parsed SQL
 * expression into a planner expression.  Leaving a node (the tree is
 * walked in post-order) pops the translations of the node's operands off
 * a context stack and pushes the node's own translation; the first error
 * stops the walk.  The walk is given here as the sequence of nodes in the
 * order they are left.
 */
module ExpressionRewriting {
  import opened Outcomes
  import opened Datums
  import opened Expressions
  import opened Builtins
  import opened ScalarFunctions
  import opened Text
  import opened ConstantFolding

  /** The errors the rewriter raises, or passes on from the function registry. */
  datatype Failure =
    | OperandColumns(n: nat)          // `ErrOperandColumns`: "Operand should contain n column(s)"
    | UnknownUnaryOp
    | UnknownType
    | PositionOutOfRange(position: int)
    | ContextLen(n: nat)              // "context len n is invalid"
    | Ambiguous(name: string)         // `ErrAmbiguous` from a column lookup
    | UnknownColumn(name: string)
    | Call(msg: string)               // an error of `NewFunction`
    | AggregateMisplaced              // "Can't appear aggrFunctions"

  /** A translation or the error that stopped it. */
  datatype Outcome<T> = Done(value: T) | Failed(why: Failure)

  /** `NewFunction`'s outcome, its error message wrapped as a failure. */
  function FromCall(r: Result<Expr>): (o: Outcome<Expr>)
    ensures o.Done? <==> r.Ok?
    ensures r.Ok? ==> o.value == r.value
    ensures r.Err? ==> o.why == Call(r.msg)
  {
    match r
    case Ok(e) => Done(e)
    case Err(m) => Failed(Call(m))
  }

  /** What goes on the stack for an outcome: the expression, or Go's nil. */
  function Entry(o: Outcome<Expr>): Expr
  {
    if o.Done? then o.value else Nil
  }

  /** `types.NewFieldType(mysql.TypeTiny)`: the type of a comparison's result. */
  const Tiny := FieldType(1)

  /** A call of a registered function, as `NewFunction` builds it. */
  function CallOf(name: string, tp: FieldType, args: seq<Expr>): Expr
  {
    Func(name, tp, args, !NonDeterministic(name), Base)
  }

  /** The operator names the rewriter calls are lower-case already. */
  lemma OperatorNamesLower()
    ensures Lower(GE) == GE && Lower(LE) == LE && Lower(EQ) == EQ && Lower(AndAnd) == AndAnd
    ensures Lower(UnaryNot) == UnaryNot && Lower(In) == In && Lower(Case) == Case && Lower(RowFunc) == RowFunc
    ensures Lower(IsNull) == IsNull && Lower(IsTruth) == IsTruth && Lower(IsFalsity) == IsFalsity
    ensures Lower(Like) == Like && Lower(Regexp) == Regexp
  {
  }

  /** A registered function called with an argument count its class accepts is built without error. */
  lemma RegisteredCall(name: string, tp: FieldType, args: seq<Expr>)
    requires Funcs(name).Some? && AcceptsArgs(Funcs(name).value, |args|)
    requires Lower(name) == name
    ensures NewFunction(name, tp, args) == Ok(CallOf(name, tp, args))
  {
  }

  // ---------------------------------------------------------------------
  // Row operands

  /** `getRowLen`: the number of columns of a row constructor or a row constant, 1 for anything else. */
  function RowLen(e: Expr): nat
  {
    if e.Func? && e.name == RowFunc then |e.args|
    else if e.Constant? && e.value.RowValue? then |e.value.items|
    else 1
  }

  /** `getRowArg`: column `i` of a row operand; a column of a row constant keeps the row's type. */
  function RowArg(e: Expr, i: nat): (a: Expr)
    requires RowLen(e) != 1 && i < RowLen(e)
    ensures RowLen(a) != 1 ==> e.Func?
  {
    if e.Func? then e.args[i] else Constant(Scalar(e.value.items[i]), e.retType)
  }

  /** The number of nodes of an expression, a row constant counting two. */
  function Size(e: Expr): nat
    decreases e, 1
  {
    match e
    case Func(_, _, args, _, _) => 1 + SizeAll(args)
    case Constant(v, _) => if v.RowValue? then 2 else 1
    case _ => 1
  }

  /** The total size of a list of expressions. */
  function SizeAll(es: seq<Expr>): nat
    decreases es, 0
  {
    if es == [] then 0 else SizeAll(es[..|es| - 1]) + Size(es[|es| - 1])
  }

  lemma {:induction false} SizeAllBound(es: seq<Expr>, i: nat)
    requires i < |es|
    ensures Size(es[i]) <= SizeAll(es)
    decreases |es|
  {
    if i < |es| - 1 {
      SizeAllBound(es[..|es| - 1], i);
    }
  }

  /** A column of a row operand is smaller than the row. */
  lemma RowArgSmaller(e: Expr, i: nat)
    requires RowLen(e) != 1 && i < RowLen(e)
    ensures Size(RowArg(e, i)) < Size(e)
  {
    if e.Func? {
      SizeAllBound(e.args, i);
    }
  }

  /** A column of a row operand keeps the shape `NewCastFunc` gives casts. */
  lemma RowArgCasts(e: Expr, i: nat)
    requires RowLen(e) != 1 && i < RowLen(e) && CastsHaveArg(e)
    ensures CastsHaveArg(RowArg(e, i))
  {
  }

  /** The column structure of an operand: one column, or a row of operands. */
  datatype Shape = OneColumn | Columns(parts: seq<Shape>)

  function ShapeOf(e: Expr): Shape
    decreases Size(e)
  {
    if RowLen(e) == 1 then OneColumn
    else Columns(seq(RowLen(e), i requires 0 <= i < RowLen(e) => (RowArgSmaller(e, i); ShapeOf(RowArg(e, i)))))
  }

  /**
   * `constructBinaryOpFunction`: `(a0, a1, a2) op (b0, b1, b2)` becomes
   * `(a0 op b0) and (a1 op b1) and (a2 op b2)`, recursively for nested
   * rows; `compose` stands for `ComposeCNFCondition`, which joins the
   * column comparisons.  Two single columns make one call typed `Tiny`;
   * rows of different lengths fail with the left row's length.
   */
  function BinaryOpFunction(l: Expr, r: Expr, op: string, compose: seq<Expr> -> Expr): (o: Outcome<Expr>)
    ensures RowLen(l) == 1 && RowLen(r) == 1 ==> o == FromCall(NewFunction(op, Tiny, [l, r]))
    ensures RowLen(l) != RowLen(r) ==> o == Failed(OperandColumns(RowLen(l)))
    decreases Size(l) + Size(r), 1
  {
    var lLen, rLen := RowLen(l), RowLen(r);
    if lLen == 1 && rLen == 1 then FromCall(NewFunction(op, Tiny, [l, r]))
    else if rLen != lLen then Failed(OperandColumns(lLen))
    else
      match ColumnOps(l, r, op, compose, lLen)
      case Failed(why) => Failed(why)
      case Done(funcs) => Done(compose(funcs))
  }

  /** The comparisons of the first `n` column pairs of two rows of the same length; the first failure stops them. */
  function ColumnOps(l: Expr, r: Expr, op: string, compose: seq<Expr> -> Expr, n: nat): (o: Outcome<seq<Expr>>)
    requires RowLen(l) == RowLen(r) != 1 && n <= RowLen(l)
    ensures o.Done? ==> |o.value| == n
    decreases Size(l) + Size(r), 0, n
  {
    if n == 0 then Done([])
    else
      match ColumnOps(l, r, op, compose, n - 1)
      case Failed(why) => Failed(why)
      case Done(funcs) =>
        RowArgSmaller(l, n - 1);
        RowArgSmaller(r, n - 1);
        match BinaryOpFunction(RowArg(l, n - 1), RowArg(r, n - 1), op, compose)
        case Failed(why) => Failed(why)
        case Done(f) => Done(funcs + [f])
  }

  /** A binary operator of the registry: the comparisons the rewriter composes over rows are such. */
  predicate BinaryOperator(op: string)
  {
    Funcs(op).Some? && AcceptsArgs(Funcs(op).value, 2)
  }

  /**
   * For a binary operator the comparison of two operands succeeds exactly
   * when they have the same column structure, at every level of nesting.
   */
  lemma {:induction false} BinaryOpShapes(l: Expr, r: Expr, op: string, compose: seq<Expr> -> Expr)
    requires BinaryOperator(op)
    ensures BinaryOpFunction(l, r, op, compose).Done? <==> ShapeOf(l) == ShapeOf(r)
    decreases Size(l) + Size(r), 1
  {
    if RowLen(l) == RowLen(r) && RowLen(l) != 1 {
      var n := RowLen(l);
      ColumnOpsShapes(l, r, op, compose, n);
      var ls := seq(n, i requires 0 <= i < n => (RowArgSmaller(l, i); ShapeOf(RowArg(l, i))));
      var rs := seq(n, i requires 0 <= i < n => (RowArgSmaller(r, i); ShapeOf(RowArg(r, i))));
      assert ShapeOf(l) == Columns(ls) && ShapeOf(r) == Columns(rs);
      assert (forall i :: 0 <= i < n ==> ShapeOf(RowArg(l, i)) == ShapeOf(RowArg(r, i))) <==> ls == rs by {
        if ls == rs {
          forall i | 0 <= i < n
            ensures ShapeOf(RowArg(l, i)) == ShapeOf(RowArg(r, i))
          {
            assert ls[i] == rs[i];
          }
        }
      }
    } else if RowLen(l) != RowLen(r) {
      assert ShapeOf(l) != ShapeOf(r) by {
        if RowLen(l) != 1 && RowLen(r) != 1 {
          assert |ShapeOf(l).parts| != |ShapeOf(r).parts|;
        }
      }
    }
  }

  lemma {:induction false} ColumnOpsShapes(l: Expr, r: Expr, op: string, compose: seq<Expr> -> Expr, n: nat)
    requires BinaryOperator(op)
    requires RowLen(l) == RowLen(r) != 1 && n <= RowLen(l)
    ensures ColumnOps(l, r, op, compose, n).Done? <==>
              forall i :: 0 <= i < n ==> ShapeOf(RowArg(l, i)) == ShapeOf(RowArg(r, i))
    decreases Size(l) + Size(r), 0, n
  {
    if n > 0 {
      ColumnOpsShapes(l, r, op, compose, n - 1);
      RowArgSmaller(l, n - 1);
      RowArgSmaller(r, n - 1);
      BinaryOpShapes(RowArg(l, n - 1), RowArg(r, n - 1), op, compose);
      ColumnOpsShapesStep(l, r, op, compose, n);
    }
  }

  lemma ColumnOpsShapesStep(l: Expr, r: Expr, op: string, compose: seq<Expr> -> Expr, n: nat)
    requires RowLen(l) == RowLen(r) != 1 && 0 < n <= RowLen(l)
    requires ColumnOps(l, r, op, compose, n - 1).Done? <==>
               forall i :: 0 <= i < n - 1 ==> ShapeOf(RowArg(l, i)) == ShapeOf(RowArg(r, i))
    requires BinaryOpFunction(RowArg(l, n - 1), RowArg(r, n - 1), op, compose).Done? <==>
               ShapeOf(RowArg(l, n - 1)) == ShapeOf(RowArg(r, n - 1))
    ensures ColumnOps(l, r, op, compose, n).Done? <==>
              forall i :: 0 <= i < n ==> ShapeOf(RowArg(l, i)) == ShapeOf(RowArg(r, i))
  {
    ColumnOpsStep(l, r, op, compose, n);
  }

  /** The first `n` comparisons succeed when the first `n - 1` do and the last one does. */
  lemma ColumnOpsStep(l: Expr, r: Expr, op: string, compose: seq<Expr> -> Expr, n: nat)
    requires RowLen(l) == RowLen(r) != 1 && 0 < n <= RowLen(l)
    ensures ColumnOps(l, r, op, compose, n).Done? <==>
              ColumnOps(l, r, op, compose, n - 1).Done? && BinaryOpFunction(RowArg(l, n - 1), RowArg(r, n - 1), op, compose).Done?
    ensures ColumnOps(l, r, op, compose, n).Done? ==>
              ColumnOps(l, r, op, compose, n).value ==
                ColumnOps(l, r, op, compose, n - 1).value + [BinaryOpFunction(RowArg(l, n - 1), RowArg(r, n - 1), op, compose).value]
  {
  }

  /** `compose` keeps the cast shape: joining well-shaped comparisons gives a well-shaped condition. */
  ghost predicate ComposeKeepsCasts(compose: seq<Expr> -> Expr)
  {
    forall fs: seq<Expr> :: AllCastsHaveArg(fs) ==> CastsHaveArg(compose(fs))
  }

  predicate AllCastsHaveArg(es: seq<Expr>)
  {
    forall i :: 0 <= i < |es| ==> CastsHaveArg(es[i])
  }

  /** The comparison of well-shaped operands is well-shaped. */
  lemma {:induction false} BinaryOpCasts(l: Expr, r: Expr, op: string, compose: seq<Expr> -> Expr)
    requires CastsHaveArg(l) && CastsHaveArg(r) && ComposeKeepsCasts(compose)
    ensures BinaryOpFunction(l, r, op, compose).Done? ==> CastsHaveArg(BinaryOpFunction(l, r, op, compose).value)
    decreases Size(l) + Size(r), 1
  {
    if RowLen(l) == RowLen(r) && RowLen(l) != 1 {
      ColumnOpsCasts(l, r, op, compose, RowLen(l));
    }
  }

  lemma {:induction false} ColumnOpsCasts(l: Expr, r: Expr, op: string, compose: seq<Expr> -> Expr, n: nat)
    requires CastsHaveArg(l) && CastsHaveArg(r) && ComposeKeepsCasts(compose)
    requires RowLen(l) == RowLen(r) != 1 && n <= RowLen(l)
    ensures ColumnOps(l, r, op, compose, n).Done? ==> AllCastsHaveArg(ColumnOps(l, r, op, compose, n).value)
    decreases Size(l) + Size(r), 0, n
  {
    if n > 0 {
      ColumnOpsCasts(l, r, op, compose, n - 1);
      ColumnCasts(l, r, op, compose, n - 1);
      ColumnOpsCastsStep(l, r, op, compose, n);
    }
  }

  /** The comparison of column `i` of two well-shaped rows is well-shaped. */
  lemma {:induction false} ColumnCasts(l: Expr, r: Expr, op: string, compose: seq<Expr> -> Expr, i: nat)
    requires CastsHaveArg(l) && CastsHaveArg(r) && ComposeKeepsCasts(compose)
    requires RowLen(l) == RowLen(r) != 1 && i < RowLen(l)
    ensures BinaryOpFunction(RowArg(l, i), RowArg(r, i), op, compose).Done? ==>
              CastsHaveArg(BinaryOpFunction(RowArg(l, i), RowArg(r, i), op, compose).value)
    decreases Size(l) + Size(r), 0, 0
  {
    RowArgSmaller(l, i);
    RowArgSmaller(r, i);
    RowArgCasts(l, i);
    RowArgCasts(r, i);
    BinaryOpCasts(RowArg(l, i), RowArg(r, i), op, compose);
  }

  lemma ColumnOpsCastsStep(l: Expr, r: Expr, op: string, compose: seq<Expr> -> Expr, n: nat)
    requires RowLen(l) == RowLen(r) != 1 && 0 < n <= RowLen(l)
    requires ColumnOps(l, r, op, compose, n - 1).Done? ==> AllCastsHaveArg(ColumnOps(l, r, op, compose, n - 1).value)
    requires BinaryOpFunction(RowArg(l, n - 1), RowArg(r, n - 1), op, compose).Done? ==>
               CastsHaveArg(BinaryOpFunction(RowArg(l, n - 1), RowArg(r, n - 1), op, compose).value)
    ensures ColumnOps(l, r, op, compose, n).Done? ==> AllCastsHaveArg(ColumnOps(l, r, op, compose, n).value)
  {
    ColumnOpsStep(l, r, op, compose, n);
  }

  // ---------------------------------------------------------------------
  // Calls with an optional NOT

  /** `NOT f` when `hasNot`, `f` otherwise. */
  function Negated(hasNot: bool, tp: FieldType, f: Expr): Expr
  {
    if hasNot then CallOf(UnaryNot, tp, [f]) else f
  }

  /**
   * `notToExpression`: the call `op(args)`, wrapped in `not` when `hasNot`.
   * It fails exactly when the registry refuses the call.
   */
  function NotTo(hasNot: bool, op: string, tp: FieldType, args: seq<Expr>): (o: Outcome<Expr>)
    requires Lower(op) == op
    ensures o.Done? <==> Funcs(op).Some? && AcceptsArgs(Funcs(op).value, |args|)
    ensures o.Done? ==> o.value == Negated(hasNot, tp, CallOf(op, tp, args))
  {
    match NewFunction(op, tp, args)
    case Err(m) => Failed(Call(m))
    case Ok(f) =>
      if !hasNot then Done(f)
      else
        LogicArity(1);
        OperatorNamesLower();
        FromCall(NewFunction(UnaryNot, tp, [f]))
  }

  /** `checkArgsOneColumn`: every argument is a single column. */
  predicate OneColumnEach(args: seq<Expr>)
  {
    forall i :: 0 <= i < |args| ==> RowLen(args[i]) == 1
  }

  // ---------------------------------------------------------------------
  // The visited nodes

  /** The unary operators of the parser. */
  datatype UnaryOpcode = Plus | Minus | BitNegate | Not | OtherUnary

  /** Where a column name was found: `toColumn` looks in the schema, then in the outer schemas, innermost first. */
  datatype Lookup =
    | InSchema(c: ColumnRef)
    | InOuterSchema(c: ColumnRef)
    | AmbiguousIn(name: string)
    | Missing(name: string)

  /**
   * A node of the parsed expression, with what `Enter` and `Leave` need of
   * it.  The three nodes whose children `Enter` skips, pushing a
   * translation of its own, appear once, where `Leave` meets them.
   */
  datatype Node =
    | Passive                                         // column-name wrappers, parentheses, WHEN, subqueries
    | AggregateNode(column: Option<ColumnRef>)        // the schema column `aggrMap` gives, if any
    | MappedColumnNode(mapped: ColumnRef)             // a column name `colMapper` maps to a schema column
    | ValuesNode(offset: int, tp: FieldType)          // `VALUES(c)`, column `offset` of the inserted row
    | ValueNode(value: Value, tp: FieldType)         // a literal or a parameter marker
    | ColumnNameNode(lookup: Lookup)
    | FuncCallNode(name: string, argc: nat, tp: FieldType)
    | UnaryNode(op: UnaryOpcode, tp: FieldType)
    | BinaryNode(operator: string, tp: FieldType)          // the operator's name, as `opcode.String` gives it
    | BetweenNode(not: bool, tp: FieldType)
    | CaseNode(whens: nat, hasElse: bool, hasValue: bool, tp: FieldType)
    | CastNode(tp: FieldType)
    | LikeNode(not: bool, escape: bv8, tp: FieldType)
    | RegexpNode(not: bool, tp: FieldType)
    | RowNode(length: nat)
    | InNode(count: nat, subquery: bool, not: bool, tp: FieldType)
    | PositionNode(n: int)
    | IsNullNode(not: bool, tp: FieldType)
    | IsTruthNode(not: bool, isTrue: bool, tp: FieldType)
    | UnknownNode

  /** The function a unary operator calls. */
  function UnaryName(op: UnaryOpcode): string
    requires op != Plus && op != OtherUnary
  {
    match op
    case Minus => UnaryMinus
    case BitNegate => BitNeg
    case Not => UnaryNot
  }

  /** `-a`, `~a` and `NOT a` are calls of one argument the registry accepts. */
  lemma UnaryCall(op: UnaryOpcode, tp: FieldType, a: Expr)
    requires op != Plus && op != OtherUnary
    ensures NewFunction(UnaryName(op), tp, [a]) == Ok(CallOf(UnaryName(op), tp, [a]))
  {
    assert Lower(UnaryName(op)) == UnaryName(op);
  }

  /** The WHEN and ELSE operands of a CASE. */
  function CaseArgsLen(whens: nat, hasElse: bool): nat
  {
    2 * whens + (if hasElse then 1 else 0)
  }

  /** The nodes that push a translation of their own, or nothing, rather than combining operands. */
  predicate Operand(node: Node)
  {
    || node.Passive? || node.AggregateNode? || node.MappedColumnNode? || node.ValuesNode?
    || node.ValueNode? || node.ColumnNameNode? || node.PositionNode? || node.UnknownNode? || node.InNode?
  }

  /** The operators that compute a value from their operands. */
  predicate ValueOperator(node: Node)
  {
    node.FuncCallNode? || node.UnaryNode? || node.BinaryNode? || node.BetweenNode? || node.CaseNode? || node.CastNode?
  }

  /** How many translations leaving the node pops. */
  function Need(node: Node): nat
  {
    match node
    case FuncCallNode(_, argc, _) => argc
    case UnaryNode(_, _) => 1
    case BinaryNode(_, _) => 2
    case BetweenNode(_, _) => 3
    case CaseNode(whens, hasElse, hasValue, _) => CaseArgsLen(whens, hasElse) + (if hasValue then 1 else 0)
    case CastNode(_) => 1
    case LikeNode(_, _, _) => 2
    case RegexpNode(_, _) => 2
    case RowNode(length) => length
    case InNode(count, subquery, _, _) => if subquery then 0 else count + 1
    case IsNullNode(_, _) => 1
    case IsTruthNode(_, _, _) => 1
    case _ => 0
  }

  /** How many translations leaving the node pushes when it succeeds. */
  function Produce(node: Node): nat
  {
    match node
    case Passive => 0
    case UnknownNode => 0
    case InNode(_, subquery, _, _) => if subquery then 0 else 1
    case _ => 1
  }

  /** The stack depth after leaving `node` at depth `depth` without error. */
  function Step(depth: int, node: Node): int
  {
    depth - Need(node) + Produce(node)
  }

  /** The stack depth after leaving the first `n` nodes without error. */
  function Depth(nodes: seq<Node>, n: nat): int
    requires n <= |nodes|
  {
    if n == 0 then 0 else Step(Depth(nodes, n - 1), nodes[n - 1])
  }

  /** Node `n` finds its operands on the stack the nodes before it leave. */
  predicate Fits(nodes: seq<Node>, n: nat)
    requires n < |nodes|
  {
    Depth(nodes, n) >= Need(nodes[n])
  }

  /** A post-order walk: every node finds its operands on the stack. */
  predicate Balanced(nodes: seq<Node>)
  {
    forall n :: 0 <= n < |nodes| ==> Fits(nodes, n)
  }

  /** `SUM(a) + 1` is a walk: the aggregate's column and the literal are the two operands of `+`. */
  lemma AggregatePlusOne(c: ColumnRef, one: Value, tp: FieldType)
    ensures var nodes := [AggregateNode(Some(c)), ValueNode(one, tp), BinaryNode("plus", tp)];
            Balanced(nodes) && Depth(nodes, 3) == 1
  {
    var nodes := [AggregateNode(Some(c)), ValueNode(one, tp), BinaryNode("plus", tp)];
    assert Depth(nodes, 1) == 1;
    assert Depth(nodes, 2) == 2;
    assert Fits(nodes, 0) && Fits(nodes, 1) && Fits(nodes, 2);
  }

  /** A walk of one whole expression leaves one translation; leaving a node never lowers the depth below zero. */
  lemma {:induction false} DepthNonNegative(nodes: seq<Node>, n: nat)
    requires Balanced(nodes) && n <= |nodes|
    ensures Depth(nodes, n) >= 0
  {
    if n > 0 {
      DepthNonNegative(nodes, n - 1);
      assert Fits(nodes, n - 1);
    }
  }

  /** The translations of a CASE with a value: each WHEN condition becomes `value = condition`. */
  function WhenPairs(value: Expr, section: seq<Expr>, k: nat): (args: seq<Expr>)
    requires CastsHaveArg(value) && 2 * k <= |section|
    ensures |args| == 2 * k
  {
    if k == 0 then []
    else WhenPairs(value, section, k - 1) + [CallOf(EQ, Tiny, [Clone(value), section[2 * k - 2]]), section[2 * k - 1]]
  }

  /** The arguments of the `case` call. */
  function CaseArgs(value: Option<Expr>, section: seq<Expr>, whens: nat, hasElse: bool): (args: seq<Expr>)
    requires |section| == CaseArgsLen(whens, hasElse)
    requires value.Some? ==> CastsHaveArg(value.value)
    ensures |args| == |section|
  {
    match value
    case None => section
    case Some(v) => WhenPairs(v, section, whens) + (if hasElse then [section[|section| - 1]] else [])
  }

  /** The `case` call succeeds exactly when it has an argument. */
  lemma CaseCall(tp: FieldType, args: seq<Expr>)
    ensures |args| >= 1 ==> NewFunction(Case, tp, args) == Ok(CallOf(Case, tp, args))
    ensures |args| == 0 ==> NewFunction(Case, tp, args) == Err(IncorrectParameterCount)
  {
    CaseInArity(|args|);
    OperatorNamesLower();
  }

  /** `BETWEEN`: `e >= lo and e <= hi` over a clone of `e`, negated for `NOT BETWEEN`. */
  function BetweenOf(e: Expr, lo: Expr, hi: Expr, not: bool, tp: FieldType): Expr
    requires CastsHaveArg(e)
  {
    Negated(not, tp, CallOf(AndAnd, tp, [CallOf(GE, tp, [e, lo]), CallOf(LE, tp, [Clone(e), hi])]))
  }

  /** The error message `Position n is out of range` carries the position; its text is not modelled. */
  function PositionOf(schema: seq<ColumnRef>, n: int): (o: Outcome<Expr>)
    ensures o.Done? <==> 0 < n <= |schema|
    ensures o.Done? ==> o.value == Column(schema[n - 1])
  {
    if 0 < n <= |schema| then Done(Column(schema[n - 1])) else Failed(PositionOutOfRange(n))
  }

  /** `IS [NOT] NULL`, `IS [NOT] TRUE` and `IS [NOT] FALSE` over one operand are always built. */
  lemma PredicateCall(op: string, not: bool, tp: FieldType, a: Expr)
    requires op == IsNull || op == IsTruth || op == IsFalsity
    ensures NotTo(not, op, tp, [a]) == Done(Negated(not, tp, CallOf(op, tp, [a])))
  {
    LogicArity(1);
    OperatorNamesLower();
  }

  /** `[NOT] IN` over the operand and its items is always built. */
  lemma InCall(not: bool, tp: FieldType, args: seq<Expr>)
    requires |args| >= 1
    ensures NotTo(not, In, tp, args) == Done(Negated(not, tp, CallOf(In, tp, args)))
  {
    CaseInArity(|args|);
    OperatorNamesLower();
  }

  /** `[NOT] LIKE` over the operand, the pattern and the escape is always built. */
  lemma LikeCall(not: bool, tp: FieldType, a: Expr, pattern: Expr, escape: Expr)
    ensures NotTo(not, Like, tp, [a, pattern, escape]) == Done(Negated(not, tp, CallOf(Like, tp, [a, pattern, escape])))
  {
    LikeArity(3);
    OperatorNamesLower();
  }

  /** `[NOT] REGEXP` over the operand and the pattern is always built. */
  lemma RegexpCall(not: bool, tp: FieldType, a: Expr, pattern: Expr)
    ensures NotTo(not, Regexp, tp, [a, pattern]) == Done(Negated(not, tp, CallOf(Regexp, tp, [a, pattern])))
  {
    assert Funcs(Regexp) == Some(FunctionClass("regexp", 2, 2));
    OperatorNamesLower();
  }

  /** A row constructor needs two columns or more. */
  lemma RowCall(args: seq<Expr>)
    ensures |args| >= 2 ==> NewFunction(RowFunc, NoType, args) == Ok(CallOf(RowFunc, NoType, args))
    ensures |args| < 2 ==> NewFunction(RowFunc, NoType, args) == Err(IncorrectParameterCount)
  {
    RowArity(|args|);
    OperatorNamesLower();
  }

  /** The comparison of a CASE value with a WHEN condition is always built. */
  lemma EqCall(a: Expr, b: Expr)
    ensures NewFunction(EQ, Tiny, [a, b]) == Ok(CallOf(EQ, Tiny, [a, b]))
  {
    ComparisonArity(EQ, 2);
    OperatorNamesLower();
  }

  /**
   * The calls `betweenToExpression` makes: `ge(e, lo)`, `le(clone of e, hi)`,
   * their `and`, and its `not` for NOT BETWEEN; the first refused call
   * stops them.  None is refused: the result is `BetweenOf`.
   */
  function BetweenCall(e: Expr, lo: Expr, hi: Expr, not: bool, tp: FieldType): (o: Outcome<Expr>)
    requires CastsHaveArg(e)
    ensures o == Done(BetweenOf(e, lo, hi, not, tp))
  {
    ComparisonArity(GE, 2);
    ComparisonArity(LE, 2);
    LogicArity(2);
    LogicArity(1);
    OperatorNamesLower();
    match NewFunction(GE, tp, [e, lo])
    case Err(m) => Failed(Call(m))
    case Ok(l) =>
      (match NewFunction(LE, tp, [Clone(e), hi])
       case Err(m) => Failed(Call(m))
       case Ok(r) =>
         (match NewFunction(AndAnd, tp, [l, r])
          case Err(m) => Failed(Call(m))
          case Ok(f) => if not then FromCall(NewFunction(UnaryNot, tp, [f])) else Done(f)))
  }

  /**
   * The stack discipline of leaving a node: `popped` translations off the
   * top replaced by `pushed` new ones, everything below untouched.
   */
  predicate Replaced(before: seq<Expr>, after: seq<Expr>, popped: nat, pushed: nat)
  {
    popped <= |before| && |after| == |before| - popped + pushed &&
    after[..|before| - popped] == before[..|before| - popped]
  }

  /** The ordering comparisons, which need rows of the same length. */
  predicate IsOrdering(op: string)
  {
    op == GT || op == GE || op == LT || op == LE
  }

  /**
   * What `binaryOpToExpression` builds for `l op r`: row-wise comparisons
   * for `=`, `!=` and `<=>`; otherwise, after the column checks, one call
   * of the operator.
   */
  function BinaryOutcome(l: Expr, r: Expr, op: string, tp: FieldType, compose: seq<Expr> -> Expr): (o: Outcome<Expr>)
    ensures op == EQ || op == NE || op == NullEQ ==> o == BinaryOpFunction(l, r, op, compose)
    ensures IsOrdering(op) && RowLen(l) != RowLen(r) ==> o == Failed(OperandColumns(RowLen(l)))
    ensures !(op == EQ || op == NE || op == NullEQ) && !IsOrdering(op) && (RowLen(l) != 1 || RowLen(r) != 1) ==>
              o == Failed(OperandColumns(1))
    ensures o.Done? && !(op == EQ || op == NE || op == NullEQ) ==> o.value == CallOf(Lower(op), tp, [l, r])
  {
    if op == EQ || op == NE || op == NullEQ then BinaryOpFunction(l, r, op, compose)
    else if IsOrdering(op) && RowLen(l) != RowLen(r) then Failed(OperandColumns(RowLen(l)))
    else if !IsOrdering(op) && (RowLen(l) != 1 || RowLen(r) != 1) then Failed(OperandColumns(1))
    else FromCall(NewFunction(op, tp, [l, r]))
  }

  lemma BinaryOutcomeCasts(l: Expr, r: Expr, op: string, tp: FieldType, compose: seq<Expr> -> Expr)
    requires CastsHaveArg(l) && CastsHaveArg(r) && ComposeKeepsCasts(compose)
    ensures BinaryOutcome(l, r, op, tp, compose).Done? ==> CastsHaveArg(BinaryOutcome(l, r, op, tp, compose).value)
  {
    BinaryOpCasts(l, r, op, compose);
  }

  /**
   * The top `argc` translations replaced by the call `NewFunction` builds
   * over them, or by nil with its error recorded.
   */
  predicate CallPushed(before: seq<Expr>, after: seq<Expr>, err: Option<Failure>, name: string, argc: nat, tp: FieldType)
  {
    argc <= |before| &&
    var f := FromCall(NewFunction(name, tp, before[|before| - argc..]));
    after == before[..|before| - argc] + [Entry(f)] && err == (if f.Failed? then Some(f.why) else None) &&
    Replaced(before, after, argc, 1)
  }

  // ---------------------------------------------------------------------
  // The rewriter

  class ExpressionRewriter {
    /** `ctxStack`: the translations of the operands not yet consumed. */
    var stack: seq<Expr>
    /** The first error, which stops the walk. */
    var err: Option<Failure>
    /** The columns of the plan the expression is over. */
    const schema: seq<ColumnRef>
    /** `ComposeCNFCondition` (not part of this model): joins conditions with `and`. */
    const compose: seq<Expr> -> Expr

    /** Every translation on the stack has the cast shape `Clone` needs. */
    ghost predicate Valid()
      reads this
    {
      AllCastsHaveArg(stack)
    }

    constructor(schema: seq<ColumnRef>, compose: seq<Expr> -> Expr)
      ensures Valid()
      ensures stack == [] && err == None && this.schema == schema && this.compose == compose
    {
      this.schema := schema;
      this.compose := compose;
      stack := [];
      err := None;
    }

    /** Replaces the top `k` translations by `e`. */
    method Reduce(k: nat, e: Expr)
      requires |stack| >= k && Valid() && CastsHaveArg(e)
      modifies this`stack
      ensures Valid()
      ensures stack == old(stack)[..|old(stack)| - k] + [e]
      ensures Replaced(old(stack), stack, k, 1)
    {
      stack := stack[..|stack| - k] + [e];
    }

    /** Records the first failure; the stack is left as it is. */
    method Fail(why: Failure)
      modifies this`err
      ensures err == Some(why)
    {
      err := Some(why);
    }

    /**
     * `unaryOpToExpression`: `+a` is `a`; `-a`, `~a` and `NOT a` need one
     * column and become a call of one argument, which the registry always
     * accepts (`UnaryCall`).
     */
    method Unary(op: UnaryOpcode, tp: FieldType)
      requires Valid() && err.None? && |stack| >= 1
      modifies this
      ensures Valid()
      ensures err.None? ==> Replaced(old(stack), stack, 1, 1)
      ensures op == Plus ==> stack == old(stack) && err == None
      ensures op == OtherUnary ==> stack == old(stack) && err == Some(UnknownUnaryOp)
      ensures op != Plus && op != OtherUnary && RowLen(old(stack)[|old(stack)| - 1]) != 1 ==>
                stack == old(stack) && err == Some(OperandColumns(1))
      ensures op != Plus && op != OtherUnary && RowLen(old(stack)[|old(stack)| - 1]) == 1 ==>
                err == None && stack == old(stack)[..|old(stack)| - 1] + [CallOf(UnaryName(op), tp, [old(stack)[|old(stack)| - 1]])]
    {
      var n := |stack|;
      if op == Plus {
        return;
      } else if op == OtherUnary {
        Fail(UnknownUnaryOp);
        return;
      }
      if RowLen(stack[n - 1]) != 1 {
        Fail(OperandColumns(1));
        return;
      }
      Reduce(1, CallOf(UnaryName(op), tp, [stack[n - 1]]));
    }

    /**
     * `binaryOpToExpression`: `=`, `!=` and `<=>` compare rows column by
     * column; `<`, `<=`, `>` and `>=` need rows of the same length; every
     * other operator needs two single columns.  On error nothing is popped.
     */
    method Binary(op: string, tp: FieldType)
      requires Valid() && err.None? && |stack| >= 2 && ComposeKeepsCasts(compose)
      modifies this
      ensures Valid()
      ensures err.None? ==> Replaced(old(stack), stack, 2, 1)
      ensures err.Some? ==> stack == old(stack)
      ensures var o := BinaryOutcome(old(stack)[|old(stack)| - 2], old(stack)[|old(stack)| - 1], op, tp, compose);
              (o.Done? ==> err == None && stack == old(stack)[..|old(stack)| - 2] + [o.value]) &&
              (o.Failed? ==> err == Some(o.why))
    {
      var n := |stack|;
      var o := BinaryOutcome(stack[n - 2], stack[n - 1], op, tp, compose);
      if o.Failed? {
        Fail(o.why);
        return;
      }
      BinaryOutcomeCasts(stack[n - 2], stack[n - 1], op, tp, compose);
      Reduce(2, o.value);
    }

    /**
     * `isNullToExpression` and `isTrueToScalarFunc`: a one-column operand
     * becomes `op(a)`, negated for IS NOT; `notToExpression` always builds
     * it (`PredicateCall`).
     */
    method Predicate(op: string, not: bool, tp: FieldType)
      requires op == IsNull || op == IsTruth || op == IsFalsity
      requires Valid() && err.None? && |stack| >= 1
      modifies this
      ensures Valid()
      ensures err.None? ==> Replaced(old(stack), stack, 1, 1)
      ensures RowLen(old(stack)[|old(stack)| - 1]) != 1 ==> stack == old(stack) && err == Some(OperandColumns(1))
      ensures RowLen(old(stack)[|old(stack)| - 1]) == 1 ==>
                err == None && stack == old(stack)[..|old(stack)| - 1] +
                  [Negated(not, tp, CallOf(op, tp, [old(stack)[|old(stack)| - 1]]))]
    {
      var n := |stack|;
      if RowLen(stack[n - 1]) != 1 {
        Fail(OperandColumns(1));
        return;
      }
      Reduce(1, Negated(not, tp, CallOf(op, tp, [stack[n - 1]])));
    }

    /** `positionToScalarFunc`: `ORDER BY n` stands for the n-th column of the schema, counted from 1. */
    method Position(n: int)
      requires Valid() && err.None?
      modifies this
      ensures Valid()
      ensures err.None? ==> Replaced(old(stack), stack, 0, 1)
      ensures 0 < n <= |schema| ==> err == None && stack == old(stack) + [Column(schema[n - 1])]
      ensures !(0 < n <= |schema|) ==> err == Some(PositionOutOfRange(n)) && stack == old(stack)
    {
      var o := PositionOf(schema, n);
      if o.Failed? {
        Fail(o.why);
      } else {
        Reduce(0, o.value);
      }
    }

    /**
     * `inToExpression`: `a IN (b1, ..., bk)`; every item must have as many
     * columns as `a`, and the call is then always built (`InCall`).  An IN
     * over a subquery is handled on entering the node and is not part of
     * this model.
     */
    method InList(count: nat, not: bool, tp: FieldType)
      requires Valid() && err.None? && |stack| >= count + 1
      modifies this
      ensures Valid()
      ensures err.None? ==> Replaced(old(stack), stack, count + 1, 1)
      ensures var n := |old(stack)|;
              var a := old(stack)[n - count - 1];
              if forall i :: n - count <= i < n ==> RowLen(old(stack)[i]) == RowLen(a) then
                err == None && stack == old(stack)[..n - count - 1] + [Negated(not, tp, CallOf(In, tp, old(stack)[n - count - 1..]))]
              else
                err == Some(OperandColumns(RowLen(a))) && stack == old(stack)
    {
      var n := |stack|;
      var l := RowLen(stack[n - count - 1]);
      for i := 0 to count
        invariant forall j :: n - count <= j < n - count + i ==> RowLen(stack[j]) == l
      {
        if l != RowLen(stack[n - count + i]) {
          Fail(OperandColumns(l));
          return;
        }
      }
      Reduce(count + 1, Negated(not, tp, CallOf(In, tp, stack[n - count - 1..])));
    }

    /**
     * `caseToExpression`: the WHEN and ELSE operands must be single
     * columns.  With a CASE value, each WHEN condition is compared with a
     * clone of the value and the value is popped as well.  The `case` call
     * is refused only without arguments (`CaseCall`).
     */
    method CaseWhen(whens: nat, hasElse: bool, hasValue: bool, tp: FieldType)
      requires Valid() && err.None?
      requires |stack| >= CaseArgsLen(whens, hasElse) + (if hasValue then 1 else 0)
      modifies this
      ensures Valid()
      ensures err.None? ==> Replaced(old(stack), stack, CaseArgsLen(whens, hasElse) + (if hasValue then 1 else 0), 1)
      ensures !OneColumnEach(old(stack)[|old(stack)| - CaseArgsLen(whens, hasElse)..]) ==>
                err == Some(OperandColumns(1)) && stack == old(stack)
      ensures OneColumnEach(old(stack)[|old(stack)| - CaseArgsLen(whens, hasElse)..]) && CaseArgsLen(whens, hasElse) == 0 ==>
                err == Some(Call(IncorrectParameterCount)) && stack == old(stack)
      ensures var n, argsLen := |old(stack)|, CaseArgsLen(whens, hasElse);
              var value := if hasValue then Some(old(stack)[n - argsLen - 1]) else None;
              OneColumnEach(old(stack)[n - argsLen..]) && argsLen > 0 ==>
                err == None && stack == old(stack)[..n - argsLen - (if hasValue then 1 else 0)] +
                  [CallOf(Case, tp, CaseArgs(value, old(stack)[n - argsLen..], whens, hasElse))]
    {
      var n := |stack|;
      var argsLen := CaseArgsLen(whens, hasElse);
      if !OneColumnEach(stack[n - argsLen..]) {
        Fail(OperandColumns(1));
        return;
      }
      if argsLen == 0 {
        Fail(Call(IncorrectParameterCount));
        return;
      }
      CaseReduce(whens, hasElse, hasValue, tp);
    }

    /** The `case` call replaces its operands, and the CASE value if there is one. */
    method CaseReduce(whens: nat, hasElse: bool, hasValue: bool, tp: FieldType)
      requires Valid() && |stack| >= CaseArgsLen(whens, hasElse) + (if hasValue then 1 else 0)
      modifies this`stack
      ensures Valid()
      ensures var n, argsLen := |old(stack)|, CaseArgsLen(whens, hasElse);
              var value := if hasValue then Some(old(stack)[n - argsLen - 1]) else None;
              stack == old(stack)[..n - argsLen - (if hasValue then 1 else 0)] +
                [CallOf(Case, tp, CaseArgs(value, old(stack)[n - argsLen..], whens, hasElse))]
      ensures Replaced(old(stack), stack, CaseArgsLen(whens, hasElse) + (if hasValue then 1 else 0), 1)
    {
      var n := |stack|;
      var args := CaseCallArgs(n, whens, hasElse, hasValue);
      CaseArgsCasts(n, whens, hasElse, hasValue);
      Reduce(CaseArgsLen(whens, hasElse) + (if hasValue then 1 else 0), CallOf(Case, tp, args));
    }

    /** The arguments of the `case` call: the WHEN and ELSE operands, each condition compared with the value if there is one. */
    method CaseCallArgs(n: nat, whens: nat, hasElse: bool, hasValue: bool) returns (args: seq<Expr>)
      requires Valid() && n == |stack| >= CaseArgsLen(whens, hasElse) + (if hasValue then 1 else 0)
      ensures var argsLen := CaseArgsLen(whens, hasElse);
              var value := if hasValue then Some(stack[n - argsLen - 1]) else None;
              args == CaseArgs(value, stack[n - argsLen..], whens, hasElse)
    {
      if hasValue {
        args := WhenArgs(n, whens, hasElse);
      } else {
        args := stack[n - CaseArgsLen(whens, hasElse)..];
      }
    }

    /** The arguments of a CASE with a value, built pair by pair; each `eq` call is always built (`EqCall`). */
    method WhenArgs(n: nat, whens: nat, hasElse: bool) returns (args: seq<Expr>)
      requires Valid() && n == |stack| >= CaseArgsLen(whens, hasElse) + 1
      ensures args == CaseArgs(Some(stack[n - CaseArgsLen(whens, hasElse) - 1]), stack[n - CaseArgsLen(whens, hasElse)..], whens, hasElse)
    {
      var argsLen := CaseArgsLen(whens, hasElse);
      var value := stack[n - argsLen - 1];
      var section := stack[n - argsLen..];
      args := [];
      var i := n - argsLen;
      ghost var k := 0;
      while i < n - 1
        invariant 0 <= k <= whens && i == n - argsLen + 2 * k
        invariant args == WhenPairs(value, section, k)
        decreases n - i
      {
        assert stack[i] == section[2 * k] && stack[i + 1] == section[2 * k + 1];
        args := args + [CallOf(EQ, Tiny, [Clone(value), stack[i]]), stack[i + 1]];
        i := i + 2;
        k := k + 1;
      }
      if hasElse {
        args := args + [stack[n - 1]];
      }
    }

    /** The `case` call keeps the cast shape. */
    lemma CaseArgsCasts(n: nat, whens: nat, hasElse: bool, hasValue: bool)
      requires Valid() && n == |stack| >= CaseArgsLen(whens, hasElse) + (if hasValue then 1 else 0)
      ensures var argsLen := CaseArgsLen(whens, hasElse);
              var value := if hasValue then Some(stack[n - argsLen - 1]) else None;
              AllCastsHaveArg(CaseArgs(value, stack[n - argsLen..], whens, hasElse))
    {
      var argsLen := CaseArgsLen(whens, hasElse);
      var section := stack[n - argsLen..];
      assert AllCastsHaveArg(section);
      if hasValue {
        WhenPairsCasts(stack[n - argsLen - 1], section, whens);
      }
    }

    /** `likeToScalarFunc`: `like(a, pattern, escape)` over single columns, negated for NOT LIKE (`LikeCall`). */
    method LikePattern(not: bool, escape: bv8, tp: FieldType)
      requires Valid() && err.None? && |stack| >= 2
      modifies this
      ensures Valid()
      ensures err.None? ==> Replaced(old(stack), stack, 2, 1)
      ensures !OneColumnEach(old(stack)[|old(stack)| - 2..]) ==> err == Some(OperandColumns(1)) && stack == old(stack)
      ensures var n := |old(stack)|;
              OneColumnEach(old(stack)[n - 2..]) ==>
                err == None && stack == old(stack)[..n - 2] +
                  [Negated(not, tp, CallOf(Like, tp, [old(stack)[n - 2], old(stack)[n - 1], Constant(Scalar(Int(escape as int)), NoType)]))]
    {
      var n := |stack|;
      if !OneColumnEach(stack[n - 2..]) {
        Fail(OperandColumns(1));
        return;
      }
      Reduce(2, Negated(not, tp, CallOf(Like, tp, [stack[n - 2], stack[n - 1], Constant(Scalar(Int(escape as int)), NoType)])));
    }

    /** `regexpToScalarFunc`: `regexp(a, pattern)` over single columns, negated for NOT REGEXP (`RegexpCall`). */
    method RegexpPattern(not: bool, tp: FieldType)
      requires Valid() && err.None? && |stack| >= 2
      modifies this
      ensures Valid()
      ensures err.None? ==> Replaced(old(stack), stack, 2, 1)
      ensures !OneColumnEach(old(stack)[|old(stack)| - 2..]) ==> err == Some(OperandColumns(1)) && stack == old(stack)
      ensures var n := |old(stack)|;
              OneColumnEach(old(stack)[n - 2..]) ==>
                err == None && stack == old(stack)[..n - 2] + [Negated(not, tp, CallOf(Regexp, tp, [old(stack)[n - 2], old(stack)[n - 1]]))]
    {
      var n := |stack|;
      if !OneColumnEach(stack[n - 2..]) {
        Fail(OperandColumns(1));
        return;
      }
      Reduce(2, Negated(not, tp, CallOf(Regexp, tp, [stack[n - 2], stack[n - 1]])));
    }

    /**
     * `rowToScalarFunc`: the top `length` translations are popped and
     * become a row; a row needs two columns or more (`RowCall`), and a
     * refused row leaves its columns popped.
     */
    method Row(length: nat)
      requires Valid() && err.None? && |stack| >= length
      modifies this
      ensures Valid()
      ensures err.None? ==> Replaced(old(stack), stack, length, 1)
      ensures length >= 2 ==>
                err == None && stack == old(stack)[..|old(stack)| - length] + [CallOf(RowFunc, NoType, old(stack)[|old(stack)| - length..])]
      ensures length < 2 ==> err == Some(Call(IncorrectParameterCount)) && stack == old(stack)[..|old(stack)| - length]
    {
      var n := |stack|;
      if length < 2 {
        stack := stack[..n - length];
        Fail(Call(IncorrectParameterCount));
        return;
      }
      Reduce(length, CallOf(RowFunc, NoType, stack[n - length..]));
    }

    /** `betweenToExpression`: `a BETWEEN lo AND hi` over single columns becomes `a >= lo and a <= hi` (`BetweenCall`). */
    method Between(not: bool, tp: FieldType)
      requires Valid() && err.None? && |stack| >= 3
      modifies this
      ensures Valid()
      ensures err.None? ==> Replaced(old(stack), stack, 3, 1)
      ensures !OneColumnEach(old(stack)[|old(stack)| - 3..]) ==> err == Some(OperandColumns(1)) && stack == old(stack)
      ensures var n := |old(stack)|;
              OneColumnEach(old(stack)[n - 3..]) ==>
                err == None && stack == old(stack)[..n - 3] + [BetweenOf(old(stack)[n - 3], old(stack)[n - 2], old(stack)[n - 1], not, tp)]
    {
      var n := |stack|;
      if !OneColumnEach(stack[n - 3..]) {
        Fail(OperandColumns(1));
        return;
      }
      CloneCasts(stack[n - 3]);
      Reduce(3, BetweenOf(stack[n - 3], stack[n - 2], stack[n - 1], not, tp));
    }

    /** `funcCallToExpression`: a call over single columns; a refused call still replaces its arguments, by nil. */
    method FuncCall(name: string, argc: nat, tp: FieldType)
      requires Valid() && err.None? && |stack| >= argc
      modifies this
      ensures Valid()
      ensures err.None? ==> Replaced(old(stack), stack, argc, 1)
      ensures !OneColumnEach(old(stack)[|old(stack)| - argc..]) ==> err == Some(OperandColumns(1)) && stack == old(stack)
      ensures OneColumnEach(old(stack)[|old(stack)| - argc..]) ==> CallPushed(old(stack), stack, err, name, argc, tp)
    {
      var n := |stack|;
      if !OneColumnEach(stack[n - argc..]) {
        Fail(OperandColumns(1));
        return;
      }
      CallArgs(name, argc, tp);
    }

    /** The call of `funcCallToExpression`, through the registry. */
    method CallArgs(name: string, argc: nat, tp: FieldType)
      requires Valid() && err.None? && |stack| >= argc
      modifies this
      ensures Valid()
      ensures CallPushed(old(stack), stack, err, name, argc, tp)
    {
      var n := |stack|;
      var f := FromCall(NewFunction(name, tp, stack[n - argc..]));
      if f.Failed? {
        Fail(f.why);
      }
      Reduce(argc, Entry(f));
    }

    /** A CAST: the single-column top becomes a cast of itself. */
    method CastTop(tp: FieldType)
      requires Valid() && err.None? && |stack| >= 1
      modifies this
      ensures Valid()
      ensures err.None? ==> Replaced(old(stack), stack, 1, 1)
      ensures RowLen(old(stack)[|old(stack)| - 1]) != 1 ==> err == Some(OperandColumns(1)) && stack == old(stack)
      ensures RowLen(old(stack)[|old(stack)| - 1]) == 1 ==>
                err == None && stack == old(stack)[..|old(stack)| - 1] + [NewCastFunc(tp, old(stack)[|old(stack)| - 1])]
    {
      var n := |stack|;
      if RowLen(stack[n - 1]) != 1 {
        Fail(OperandColumns(1));
        return;
      }
      Reduce(1, NewCastFunc(tp, stack[n - 1]));
    }

    /** `toColumn`: a column of the schema, a correlated column of an outer schema, or an error. */
    method ColumnName(lookup: Lookup)
      requires Valid() && err.None?
      modifies this
      ensures Valid()
      ensures err.None? ==> Replaced(old(stack), stack, 0, 1)
      ensures lookup.InSchema? ==> err == None && stack == old(stack) + [Column(lookup.c)]
      ensures lookup.InOuterSchema? ==> err == None && stack == old(stack) + [Correlated(lookup.c)]
      ensures lookup.AmbiguousIn? ==> err == Some(Ambiguous(lookup.name)) && stack == old(stack)
      ensures lookup.Missing? ==> err == Some(UnknownColumn(lookup.name)) && stack == old(stack)
    {
      match lookup {
        case InSchema(c) => Reduce(0, Column(c));
        case InOuterSchema(c) => Reduce(0, Correlated(c));
        case AmbiguousIn(name) => Fail(Ambiguous(name));
        case Missing(name) => Fail(UnknownColumn(name));
      }
    }

    /**
     * `Leave`: nothing once an error is recorded; otherwise the node's
     * translation replaces its operands', and without an error the depth
     * changes by what the node produces minus what it needs, the
     * translations below its operands untouched.
     */
    method Leave(node: Node)
      requires Valid() && ComposeKeepsCasts(compose)
      requires err.None? ==> |stack| >= Need(node)
      modifies this
      ensures Valid()
      ensures old(err).Some? ==> err == old(err) && stack == old(stack)
      ensures old(err).None? && err.None? ==> Replaced(old(stack), stack, Need(node), Produce(node))
      ensures old(err).None? && node.AggregateNode? ==>
                if node.column.None? then err == Some(AggregateMisplaced) && stack == old(stack)
                else err == None && stack == old(stack) + [Column(node.column.value)]
      ensures old(err).None? && node.MappedColumnNode? ==> err == None && stack == old(stack) + [Column(node.mapped)]
      ensures old(err).None? && node.ValuesNode? ==> err == None && stack == old(stack) + [NewValuesFunc(node.offset, node.tp)]
    {
      if err.Some? {
        return;
      }
      if Operand(node) {
        LeaveOperand(node);
      } else {
        LeaveOperator(node);
      }
    }

    /**
     * Leaving a node that pushes an operand of its own: a literal, a column,
     * a position.  An aggregate, a mapped column name and `VALUES(c)` push
     * what `Enter` gives them; an aggregate missing from `aggrMap` is an
     * error.
     */
    method LeaveOperand(node: Node)
      requires Operand(node)
      requires Valid() && err.None? && |stack| >= Need(node)
      modifies this
      ensures Valid()
      ensures err.None? ==> Replaced(old(stack), stack, Need(node), Produce(node))
      ensures node.AggregateNode? && node.column.None? ==> err == Some(AggregateMisplaced) && stack == old(stack)
      ensures node.AggregateNode? && node.column.Some? ==> err == None && stack == old(stack) + [Column(node.column.value)]
      ensures node.MappedColumnNode? ==> err == None && stack == old(stack) + [Column(node.mapped)]
      ensures node.ValuesNode? ==> err == None && stack == old(stack) + [NewValuesFunc(node.offset, node.tp)]
    {
      match node {
        case Passive =>
        case AggregateNode(column) =>
          if column.None? {
            Fail(AggregateMisplaced);
          } else {
            Reduce(0, Column(column.value));
          }
        case MappedColumnNode(c) => Reduce(0, Column(c));
        case ValuesNode(offset, tp) => Reduce(0, NewValuesFunc(offset, tp));
        case ValueNode(value, tp) => Reduce(0, Constant(value, tp));
        case ColumnNameNode(lookup) => ColumnName(lookup);
        case PositionNode(n) => Position(n);
        case UnknownNode => err := Some(UnknownType);
        case InNode(count, subquery, not, tp) =>
          if !subquery {
            InList(count, not, tp);
          }
      }
    }

    /** Leaving an operator node: its operands' translations are replaced by its own. */
    method LeaveOperator(node: Node)
      requires !Operand(node)
      requires Valid() && err.None? && |stack| >= Need(node) && ComposeKeepsCasts(compose)
      modifies this
      ensures Valid()
      ensures err.None? ==> Replaced(old(stack), stack, Need(node), Produce(node))
    {
      if ValueOperator(node) {
        LeaveValueOperator(node);
      } else {
        LeaveTestOperator(node);
      }
    }

    /** Leaving a call, an arithmetic or comparison operator, `BETWEEN`, `CASE` or a cast. */
    method LeaveValueOperator(node: Node)
      requires ValueOperator(node)
      requires Valid() && err.None? && |stack| >= Need(node) && ComposeKeepsCasts(compose)
      modifies this
      ensures Valid()
      ensures err.None? ==> Replaced(old(stack), stack, Need(node), Produce(node))
    {
      match node {
        case FuncCallNode(name, argc, tp) => FuncCall(name, argc, tp);
        case UnaryNode(op, tp) => Unary(op, tp);
        case BinaryNode(op, tp) => Binary(op, tp);
        case BetweenNode(not, tp) => Between(not, tp);
        case CaseNode(whens, hasElse, hasValue, tp) => CaseWhen(whens, hasElse, hasValue, tp);
        case CastNode(tp) => CastTop(tp);
      }
    }

    /** Leaving `LIKE`, `REGEXP`, a row, or an `IS` test. */
    method LeaveTestOperator(node: Node)
      requires !Operand(node) && !ValueOperator(node)
      requires Valid() && err.None? && |stack| >= Need(node)
      modifies this
      ensures Valid()
      ensures err.None? ==> Replaced(old(stack), stack, Need(node), Produce(node))
    {
      match node {
        case LikeNode(not, escape, tp) => LikePattern(not, escape, tp);
        case RegexpNode(not, tp) => RegexpPattern(not, tp);
        case RowNode(length) => Row(length);
        case IsNullNode(not, tp) => Predicate(IsNull, not, tp);
        case IsTruthNode(not, isTrue, tp) => Predicate(if isTrue then IsTruth else IsFalsity, not, tp);
      }
    }

    /**
     * `rewrite`: leaves every node of the walk, then takes the one
     * translation left, which must be a single column, and folds its
     * constants.  A walk that leaves nothing, where no scalar is required,
     * gives no expression (the plan it may have built is not part of this
     * model).
     */
    method Rewrite(nodes: seq<Node>, asScalar: bool, eval: Eval) returns (r: Outcome<Option<Expr>>)
      requires Valid() && stack == [] && err == None && ComposeKeepsCasts(compose)
      requires Balanced(nodes)
      modifies this
      ensures err.None? ==> |stack| == Depth(nodes, |nodes|)
      ensures r == Finish(stack, err, asScalar, eval)
    {
      Walk(nodes);
      r := Finish(stack, err, asScalar, eval);
    }

    /** `expr.Accept`: leaves the nodes in order; without an error the depth is the walk's. */
    method Walk(nodes: seq<Node>)
      requires Valid() && stack == [] && err == None && ComposeKeepsCasts(compose)
      requires Balanced(nodes)
      modifies this
      ensures Valid()
      ensures err.None? ==> |stack| == Depth(nodes, |nodes|)
    {
      var i := 0;
      while i < |nodes|
        invariant 0 <= i <= |nodes| && Valid()
        invariant err.None? ==> |stack| == Depth(nodes, i)
      {
        LeaveAt(nodes, i);
        i := i + 1;
      }
    }

    /** One step of the walk: leaving node `i` of a balanced walk keeps the stack at the walk's depth. */
    method LeaveAt(nodes: seq<Node>, i: nat)
      requires i < |nodes| && Balanced(nodes)
      requires Valid() && ComposeKeepsCasts(compose)
      requires err.None? ==> |stack| == Depth(nodes, i)
      modifies this
      ensures Valid()
      ensures err.None? ==> |stack| == Depth(nodes, i + 1)
    {
      assert Fits(nodes, i);
      Leave(nodes[i]);
    }
  }

  /**
   * The checks `rewrite` makes after the walk: the recorded error, then an
   * empty stack where no scalar is required, then exactly one translation,
   * of one column, which comes back with its constants folded.
   */
  function Finish(stack: seq<Expr>, err: Option<Failure>, asScalar: bool, eval: Eval): (r: Outcome<Option<Expr>>)
    ensures err.Some? ==> r == Failed(err.value)
    ensures r.Done? && r.value.None? <==> err.None? && !asScalar && stack == []
    ensures r.Done? && r.value.Some? <==> err.None? && |stack| == 1 && RowLen(stack[0]) == 1
    ensures r.Done? && r.value.Some? ==> r.value.value == FoldConstant(stack[0], eval)
    ensures err.None? && (asScalar || stack != []) && |stack| != 1 ==> r == Failed(ContextLen(|stack|))
  {
    if err.Some? then Failed(err.value)
    else if !asScalar && |stack| == 0 then Done(None)
    else if |stack| != 1 then Failed(ContextLen(|stack|))
    else if RowLen(stack[0]) != 1 then Failed(OperandColumns(1))
    else Done(Some(FoldConstant(stack[0], eval)))
  }

  /** The CASE arguments built from well-shaped translations are well-shaped. */
  lemma {:induction false} WhenPairsCasts(value: Expr, section: seq<Expr>, k: nat)
    requires CastsHaveArg(value) && 2 * k <= |section| && AllCastsHaveArg(section)
    ensures AllCastsHaveArg(WhenPairs(value, section, k))
  {
    if k > 0 {
      WhenPairsCasts(value, section, k - 1);
      CloneCasts(value);
    }
  }

  /** A clone has the shape of what it copies. */
  lemma {:induction false} CloneCasts(e: Expr)
    requires CastsHaveArg(e)
    ensures CastsHaveArg(Clone(e))
    decreases e
  {
    if e.Func? {
      var newArgs := seq(|e.args|, i requires 0 <= i < |e.args| => Clone(e.args[i]));
      forall i | 0 <= i < |e.args|
        ensures CastsHaveArg(newArgs[i])
      {
        CloneCasts(e.args[i]);
      }
      assert Clone(e) == match e.sig
        case CastSig(tp) => NewCastFunc(tp, newArgs[0])
        case ValuesSig(offset) => NewValuesFunc(offset, e.retType)
        case Base => (match NewFunction(e.name, e.retType, newArgs) case Ok(f) => f case Err(_) => Nil);
    }
  }
}

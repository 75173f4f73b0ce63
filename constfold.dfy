/**
 * Constant folding (`FoldConstant` in sql/expression/constant_fold.go):
 * a call whose arguments all fold to constants is evaluated once and
 * replaced by a constant.  Evaluation is a parameter: `eval` stands for
 * `ScalarFunction.Eval` on a call whose arguments are constants, `None`
 * for an evaluation error.
 */
module ConstantFolding {
  import opened Outcomes
  import opened Datums
  import opened Expressions
  import opened Builtins
  import opened Text
  import opened ExprUtil

  /** `ScalarFunction.Eval` with no row, on a call whose arguments are constants. */
  type Eval = Expr -> Option<Datum>

  /** The call is one of `DynamicFuncs`, by its lower-case name. */
  predicate IsDynamic(e: Expr)
  {
    e.Func? && Lower(e.name) in DynamicFuncs
  }

  predicate AllConstant(args: seq<Expr>)
  {
    forall i :: 0 <= i < |args| ==> args[i].Constant?
  }

  /**
   * `FoldConstant`.  A non-call and a dynamic call come back as they are;
   * any other call gets its arguments folded (the source writes them back
   * into the call, so a call that is not folded itself still carries
   * folded arguments) and becomes a constant of its return type when every
   * folded argument is a constant and evaluation succeeds.
   */
  function FoldConstant(e: Expr, eval: Eval): (r: Expr)
    ensures !e.Func? || IsDynamic(e) ==> r == e
    ensures e.Func? ==> (r.Func? && r == e.(args := r.args) && |r.args| == |e.args|)
                        || (r.Constant? && r.retType == e.retType)
  {
    match e
    case Func(name, rt, args, _, _) =>
      if Lower(name) in DynamicFuncs then e
      else
        var folded := FoldArgs(args, eval);
        var call := e.(args := folded);
        if !AllConstant(folded) then call
        else
          (match eval(call)
           case Some(v) => Constant(Scalar(v), rt)
           case None => call)
    case _ => e
  }

  /** The arguments, each folded. */
  function FoldArgs(args: seq<Expr>, eval: Eval): (folded: seq<Expr>)
    ensures |folded| == |args|
    ensures forall i :: 0 <= i < |args| ==> folded[i] == FoldConstant(args[i], eval)
  {
    seq(|args|, i requires 0 <= i < |args| => FoldConstant(args[i], eval))
  }

  /** Folding a second time changes nothing. */
  lemma {:induction false} FoldIdempotent(e: Expr, eval: Eval)
    ensures FoldConstant(FoldConstant(e, eval), eval) == FoldConstant(e, eval)
  {
    if e.Func? && !IsDynamic(e) {
      var folded := FoldArgs(e.args, eval);
      forall i | 0 <= i < |e.args|
        ensures FoldConstant(folded[i], eval) == folded[i]
      {
        FoldIdempotent(e.args[i], eval);
      }
      assert FoldArgs(folded, eval) == folded;
    }
  }

  /** Folding brings in no column: every column of the result is a column of the input. */
  lemma {:induction false} FoldColumns(e: Expr, eval: Eval, c: ColumnRef)
    requires HasColumn(FoldConstant(e, eval), c)
    ensures HasColumn(e, c)
  {
    if e.Func? && !IsDynamic(e) {
      var r := FoldConstant(e, eval);
      var folded := FoldArgs(e.args, eval);
      assert r.args == folded;
      var i :| 0 <= i < |r.args| && HasColumn(r.args[i], c);
      FoldColumns(e.args[i], eval, c);
    }
  }

  /** Built of constants and calls that are not dynamic: nothing left to look up when evaluating. */
  predicate Closed(e: Expr)
  {
    match e
    case Constant(_, _) => true
    case Func(_, _, args, _, _) => !IsDynamic(e) && forall i :: 0 <= i < |args| ==> Closed(args[i])
    case _ => false
  }

  /** When evaluation never fails, a closed expression folds to a single constant of its return type. */
  lemma {:induction false} FoldClosed(e: Expr, eval: Eval)
    requires Closed(e)
    requires forall x :: eval(x).Some?
    ensures FoldConstant(e, eval).Constant?
    ensures FoldConstant(e, eval).retType == e.retType
  {
    if e.Func? {
      var folded := FoldArgs(e.args, eval);
      forall i | 0 <= i < |e.args|
        ensures folded[i].Constant?
      {
        FoldClosed(e.args[i], eval);
      }
      assert AllConstant(folded);
    }
  }

  /**
   * The call case of `FoldConstant` over the call's argument buffer: each
   * argument is folded and written back in place before evaluation.
   */
  method FoldCall(e: Expr, args: array<Expr>, eval: Eval) returns (r: Expr)
    requires e.Func? && !IsDynamic(e) && args[..] == e.args
    modifies args
    ensures args[..] == FoldArgs(old(args[..]), eval)
    ensures r == FoldConstant(e, eval)
  {
    var canFold := true;
    for i := 0 to args.Length
      invariant args[i..] == e.args[i..]
      invariant args[..i] == FoldArgs(e.args, eval)[..i]
      invariant canFold <==> AllConstant(args[..i])
    {
      var foldedArg := FoldConstant(args[i], eval);
      args[i] := foldedArg;
      if !foldedArg.Constant? {
        canFold := false;
      }
    }
    assert args[..] == args[..args.Length];
    var call := e.(args := args[..]);
    if !canFold {
      return call;
    }
    var value := eval(call);
    if value.None? {
      return call;
    }
    r := Constant(Scalar(value.value), e.retType);
  }
}

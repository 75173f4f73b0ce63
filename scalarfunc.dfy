/**
 * Scalar function calls (`ScalarFunction` in
 * sql/expression/scalar_function.go) and the expression operations whose
 * function case it implements: construction through the registry, cloning,
 * equality, rendering as text, and correlation with an outer query.
 * A function node keeps its lower-case name (`FuncName.L`), the only
 * spelling these operations use.
 */
module ScalarFunctions {
  import opened Outcomes
  import opened Expressions
  import opened Builtins
  import opened Text
  import Numerals

  const FunctionNotExists := "function does not exist"
  const IncorrectParameterCount := "incorrect parameter count"

  /**
   * `NewFunction`: looks the name up in the registry, checks the argument
   * count with the class, and builds a call over a copy of the arguments,
   * deterministic unless its class says otherwise (`rand`).
   */
  function NewFunction(funcName: string, retType: FieldType, args: seq<Expr>): (r: Result<Expr>)
    ensures r.Ok? <==> Funcs(funcName).Some? && AcceptsArgs(Funcs(funcName).value, |args|)
    ensures r.Err? ==> r.msg == if Funcs(funcName).None? then FunctionNotExists else IncorrectParameterCount
    ensures r.Ok? ==> r.value.Func? && r.value.name == Lower(funcName) && r.value.retType == retType
                      && r.value.args == args && r.value.sig == Base
  {
    match Funcs(funcName)
    case None => Err(FunctionNotExists)
    case Some(fc) =>
      if !AcceptsArgs(fc, |args|) then Err(IncorrectParameterCount)
      else Ok(Func(Lower(funcName), retType, args, !NonDeterministic(Lower(funcName)), Base))
  }

  /** A call `NewFunction` builds is deterministic unless its class says otherwise. */
  lemma NewFunctionDeterminism(funcName: string, retType: FieldType, args: seq<Expr>)
    requires NewFunction(funcName, retType, args).Ok?
    ensures NewFunction(funcName, retType, args).value.deterministic <==> !NonDeterministic(Lower(funcName))
  {
  }

  /** `NewCastFunc` (not part of this model): a cast of one argument to `tp`. */
  function NewCastFunc(tp: FieldType, arg: Expr): Expr
  {
    Func(Cast, tp, [arg], true, CastSig(tp))
  }

  /** `NewValuesFunc` (not part of this model): a reference to column `offset` of the inserted row. */
  function NewValuesFunc(offset: int, retType: FieldType): Expr
  {
    Func(Values, retType, [], true, ValuesSig(offset))
  }

  /** Every cast in the tree has its argument: the shape `NewCastFunc` builds. */
  predicate CastsHaveArg(e: Expr)
  {
    match e
    case Func(_, _, args, _, sig) =>
      (sig.CastSig? ==> |args| >= 1) && forall i :: 0 <= i < |args| ==> CastsHaveArg(args[i])
    case _ => true
  }

  /**
   * An expression as the constructors build it: no nil, every call with a
   * lower-case name, deterministic unless its class says otherwise, every
   * registered call with an
   * argument count its class accepts, every cast with one argument and its
   * target as return type, every `VALUES()` without arguments.
   */
  predicate WellFormed(e: Expr)
  {
    match e
    case Nil => false
    case Func(name, rt, args, det, sig) =>
      && (det <==> !(sig.Base? && NonDeterministic(name)))
      && (forall i :: 0 <= i < |args| ==> WellFormed(args[i]))
      && (match sig
          case Base => Lower(name) == name && Funcs(name).Some? && AcceptsArgs(Funcs(name).value, |args|)
          case CastSig(tp) => name == Cast && |args| == 1 && rt == tp
          case ValuesSig(_) => name == Values && args == [])
    case _ => true
  }

  /** Every well-formed expression has the shape cloning needs. */
  lemma {:induction false} WellFormedShaped(e: Expr)
    requires WellFormed(e)
    ensures CastsHaveArg(e)
  {
    if e.Func? {
      forall i | 0 <= i < |e.args|
        ensures CastsHaveArg(e.args[i])
      {
        WellFormedShaped(e.args[i]);
      }
    }
  }

  /** A call `NewFunction` builds from a lower-case name and well-formed arguments is well-formed. */
  lemma NewFunctionWellFormed(funcName: string, retType: FieldType, args: seq<Expr>)
    requires Lower(funcName) == funcName
    requires forall i :: 0 <= i < |args| ==> WellFormed(args[i])
    requires NewFunction(funcName, retType, args).Ok?
    ensures WellFormed(NewFunction(funcName, retType, args).value)
  {
  }

  /**
   * `Clone`: clones the arguments, then rebuilds a cast with its target
   * type, a `VALUES()` reference with its offset, and any other call
   * through `NewFunction` by its lower-case name, discarding an error as nil.
   * Columns and constants are values, so their clones are themselves.
   */
  function Clone(e: Expr): (c: Expr)
    requires CastsHaveArg(e)
    ensures !e.Func? ==> c == e
    ensures e.Func? && e.sig.CastSig? ==> c == NewCastFunc(e.sig.tp, Clone(e.args[0]))
  {
    match e
    case Func(name, rt, args, _, sig) =>
      var newArgs := seq(|args|, i requires 0 <= i < |args| => Clone(args[i]));
      (match sig
       case CastSig(tp) => NewCastFunc(tp, newArgs[0])
       case ValuesSig(offset) => NewValuesFunc(offset, rt)
       case Base =>
         (match NewFunction(name, rt, newArgs)
          case Ok(f) => f
          case Err(_) => Nil))
    case _ => e
  }

  /** Cloning a well-formed expression rebuilds every node exactly: the clone equals the original. */
  lemma {:induction false} CloneIdentity(e: Expr)
    requires WellFormed(e)
    ensures CastsHaveArg(e) && Clone(e) == e
  {
    WellFormedShaped(e);
    if e.Func? {
      var newArgs := seq(|e.args|, i requires 0 <= i < |e.args| => Clone(e.args[i]));
      forall i | 0 <= i < |e.args|
        ensures newArgs[i] == e.args[i]
      {
        CloneIdentity(e.args[i]);
      }
      assert newArgs == e.args;
      if e.sig.Base? {
        LowerIdempotent(e.name);
      }
    }
  }

  /**
   * `Expression.Equal`: columns by identity, constants by value, and a
   * call (`ScalarFunction.Equal`) by lower-case name and then by
   * `baseBuiltinFunc.equal`: both deterministic, as many arguments, and the
   * arguments pairwise equal.  Return types are not compared.
   */
  function ExprEqual(a: Expr, b: Expr): bool
    decreases a
  {
    match a
    case Column(c) => b.Column? && b.col == c
    case Correlated(c) => b.Correlated? && b.col == c
    case Constant(v, _) => b.Constant? && b.value == v
    case Func(name, _, args, det, _) =>
      && b.Func? && name == b.name
      && det && b.deterministic
      && |args| == |b.args|
      && ArgsEqualFrom(args, b.args, 0)
    case Nil => false
  }

  /** The argument loop of `baseBuiltinFunc.equal`, from position `i` on. */
  function ArgsEqualFrom(xs: seq<Expr>, ys: seq<Expr>, i: nat): bool
    requires |xs| == |ys| && i <= |xs|
    decreases xs, |xs| - i
  {
    i == |xs| || (ExprEqual(xs[i], ys[i]) && ArgsEqualFrom(xs, ys, i + 1))
  }

  /** No nil and no non-deterministic call anywhere in the tree. */
  predicate Comparable(e: Expr)
  {
    match e
    case Nil => false
    case Func(_, _, args, det, _) => det && forall i :: 0 <= i < |args| ==> Comparable(args[i])
    case _ => true
  }

  /** The expression with the parts equality ignores blanked: return types, signatures and determinism flags. */
  function Erase(e: Expr): (r: Expr)
  {
    match e
    case Constant(v, _) => Constant(v, NoType)
    case Func(name, _, args, _, _) =>
      Func(name, NoType, seq(|args|, i requires 0 <= i < |args| => Erase(args[i])), true, Base)
    case _ => e
  }

  /** The argument loop compares every remaining pair. */
  lemma {:induction false} ArgsEqualFromAll(xs: seq<Expr>, ys: seq<Expr>, i: nat)
    requires |xs| == |ys| && i <= |xs|
    ensures ArgsEqualFrom(xs, ys, i) <==> forall k :: i <= k < |xs| ==> ExprEqual(xs[k], ys[k])
    decreases |xs| - i
  {
    if i < |xs| {
      ArgsEqualFromAll(xs, ys, i + 1);
    }
  }

  /**
   * Equality of expressions is exactly equality up to return types,
   * signatures and determinism flags, restricted to trees with no nil and
   * no non-deterministic call: such a call is unequal even to itself.
   */
  lemma {:induction false} ExprEqualIsErasedEquality(a: Expr, b: Expr)
    ensures ExprEqual(a, b) <==> Comparable(a) && Comparable(b) && Erase(a) == Erase(b)
    decreases a
  {
    match a
    case Func(name, _, args, det, _) =>
      if b.Func? && |args| == |b.args| {
        ArgsEqualFromAll(args, b.args, 0);
        forall k | 0 <= k < |args|
          ensures ExprEqual(args[k], b.args[k]) <==>
                    Comparable(args[k]) && Comparable(b.args[k]) && Erase(args[k]) == Erase(b.args[k])
        {
          ExprEqualIsErasedEquality(args[k], b.args[k]);
        }
        var ea := seq(|args|, i requires 0 <= i < |args| => Erase(args[i]));
        var eb := seq(|b.args|, i requires 0 <= i < |b.args| => Erase(b.args[i]));
        assert Erase(a).args == ea && Erase(b).args == eb;
        if forall k :: 0 <= k < |args| ==> Erase(args[k]) == Erase(b.args[k]) {
          assert ea == eb;
        }
        if ea == eb {
          forall k | 0 <= k < |args|
            ensures Erase(args[k]) == Erase(b.args[k])
          {
            assert ea[k] == eb[k];
          }
        }
      }
    case _ =>
  }

  /** `Equal` is symmetric. */
  lemma ExprEqualSymmetric(a: Expr, b: Expr)
    ensures ExprEqual(a, b) == ExprEqual(b, a)
  {
    ExprEqualIsErasedEquality(a, b);
    ExprEqualIsErasedEquality(b, a);
  }

  /** An expression equals itself exactly when it holds no nil and no non-deterministic call. */
  lemma ExprEqualReflexive(a: Expr)
    ensures ExprEqual(a, a) <==> Comparable(a)
  {
    ExprEqualIsErasedEquality(a, a);
  }

  /**
   * A `rand` call is built non-deterministic, so `Equal` refuses it even
   * against itself, and so does its clone.
   */
  lemma RandUnequal(retType: FieldType, args: seq<Expr>)
    requires |args| <= 1
    ensures NewFunction("rand", retType, args).Ok?
    ensures var f := NewFunction("rand", retType, args).value;
              !f.deterministic && !ExprEqual(f, f) && !ExprEqual(f, f.(retType := NoType))
  {
  }

  /** The correlated columns of an expression. */
  function CorrelatedCols(e: Expr): set<ColumnRef>
  {
    match e
    case Correlated(c) => {c}
    case Func(_, _, args, _, _) => ArgsCorrelatedCols(args, |args|)
    case _ => {}
  }

  /** The correlated columns of the first `n` arguments. */
  function ArgsCorrelatedCols(args: seq<Expr>, n: nat): set<ColumnRef>
    requires n <= |args|
    decreases args, n
  {
    if n == 0 then {} else ArgsCorrelatedCols(args, n - 1) + CorrelatedCols(args[n - 1])
  }

  /** `IsCorrelated`: some argument, at any depth, is a correlated column. */
  function IsCorrelated(e: Expr): bool
  {
    match e
    case Correlated(_) => true
    case Func(_, _, args, _, _) => AnyCorrelatedFrom(args, 0)
    case _ => false
  }

  /** The argument loop of `ScalarFunction.IsCorrelated`, from position `i` on. */
  function AnyCorrelatedFrom(args: seq<Expr>, i: nat): bool
    requires i <= |args|
    decreases args, |args| - i
  {
    i < |args| && (IsCorrelated(args[i]) || AnyCorrelatedFrom(args, i + 1))
  }

  /** `CorrelatedColumn.Decorrelate` (not part of this model) and `ScalarFunction.Decorrelate`. */
  function Decorrelate(e: Expr, schema: seq<ColumnRef>): Expr
  {
    match e
    case Correlated(c) => if c in schema then Column(c) else e
    case Func(name, rt, args, det, sig) =>
      Func(name, rt, seq(|args|, i requires 0 <= i < |args| => Decorrelate(args[i], schema)), det, sig)
    case _ => e
  }

  /** An expression is correlated exactly when it has a correlated column. */
  lemma {:induction false} IsCorrelatedIffCols(e: Expr)
    ensures IsCorrelated(e) <==> CorrelatedCols(e) != {}
  {
    if e.Func? {
      ArgsCorrelated(e.args, 0);
    }
  }

  lemma {:induction false} ArgsCorrelated(args: seq<Expr>, i: nat)
    requires i <= |args|
    ensures AnyCorrelatedFrom(args, i) <==> exists k :: i <= k < |args| && CorrelatedCols(args[k]) != {}
    ensures ArgsCorrelatedCols(args, |args|) != {} <==> exists k :: 0 <= k < |args| && CorrelatedCols(args[k]) != {}
    decreases args, |args| - i
  {
    if i < |args| {
      IsCorrelatedIffCols(args[i]);
      ArgsCorrelated(args, i + 1);
    } else {
      ArgsColsMembers(args, |args|);
    }
  }

  lemma {:induction false} ArgsColsMembers(args: seq<Expr>, n: nat)
    requires n <= |args|
    ensures forall c :: c in ArgsCorrelatedCols(args, n) <==> exists k :: 0 <= k < n && c in CorrelatedCols(args[k])
  {
    if n > 0 {
      ArgsColsMembers(args, n - 1);
    }
  }

  /** Decorrelating against a schema removes exactly the correlated columns the schema has. */
  lemma {:induction false} DecorrelateCols(e: Expr, schema: seq<ColumnRef>)
    ensures CorrelatedCols(Decorrelate(e, schema)) == CorrelatedCols(e) - set c | c in schema
  {
    if e.Func? {
      var d := Decorrelate(e, schema);
      ArgsColsMembers(e.args, |e.args|);
      ArgsColsMembers(d.args, |d.args|);
      forall k | 0 <= k < |e.args|
        ensures CorrelatedCols(d.args[k]) == CorrelatedCols(e.args[k]) - set c | c in schema
      {
        DecorrelateCols(e.args[k], schema);
      }
    }
  }

  /** After decorrelation an expression stays correlated exactly when it refers to a column outside the schema. */
  lemma DecorrelateIsCorrelated(e: Expr, schema: seq<ColumnRef>)
    ensures IsCorrelated(Decorrelate(e, schema)) <==> exists c :: c in CorrelatedCols(e) && c !in schema
  {
    DecorrelateCols(e, schema);
    IsCorrelatedIffCols(Decorrelate(e, schema));
  }

  /**
   * `ScalarFunction.Decorrelate`: rewrites each argument slot of the
   * receiver in place.
   */
  method DecorrelateArgs(args: array<Expr>, schema: seq<ColumnRef>)
    modifies args
    ensures forall i :: 0 <= i < args.Length ==> args[i] == Decorrelate(old(args[i]), schema)
  {
    for i := 0 to args.Length
      invariant forall j :: 0 <= j < i ==> args[j] == Decorrelate(old(args[j]), schema)
      invariant forall j :: i <= j < args.Length ==> args[j] == old(args[j])
    {
      args[i] := Decorrelate(args[i], schema);
    }
  }

  /**
   * `ScalarFunction.String`: the name, then the rendered arguments
   * separated by ", " inside parentheses.  `argStrings` are the arguments'
   * own renderings.
   */
  method FuncString(name: string, argStrings: seq<string>) returns (s: string)
    ensures s == name + "(" + Numerals.Join(argStrings, ", ") + ")"
  {
    s := name + "(";
    var i := 0;
    while i < |argStrings|
      invariant 0 <= i <= |argStrings|
      invariant s == name + "(" + (if i == 0 then "" else Numerals.Join(argStrings[..i], ", ") + (if i < |argStrings| then ", " else ""))
    {
      if i > 0 {
        assert argStrings[..i + 1] == argStrings[..i] + [argStrings[i]];
        Numerals.JoinSnoc(argStrings[..i], argStrings[i], ", ");
      }
      s := s + argStrings[i];
      if i + 1 != |argStrings| {
        s := s + ", ";
      }
      i := i + 1;
    }
    assert argStrings[..i] == argStrings;
    s := s + ")";
  }
}

/**
 * The registry of built-in SQL functions and the state every function
 * signature shares (sql/expression/builtin.go): the arity table `funcs`,
 * the argument-count check of a function class, the functions constant
 * folding must leave alone, and the argument buffer filled by `evalArgs`.
 */
module Builtins {
  import opened Datums
  import opened Outcomes
  import opened Expressions

  /** A function class (`baseFunctionClass`): its name and its least and greatest argument count, -1 for no limit. */
  datatype FunctionClass = FunctionClass(funcName: string, minArgs: int, maxArgs: int)

  /** `verifyArgs`: a class accepts `n` arguments when `n` lies in its arity interval. */
  predicate AcceptsArgs(fc: FunctionClass, n: nat)
  {
    !(n < fc.minArgs || (fc.maxArgs != -1 && n > fc.maxArgs))
  }

  /** The argument counts a class accepts form an interval: from `minArgs`, up to `maxArgs` or unbounded. */
  lemma AcceptsArgsInterval(fc: FunctionClass, n: nat, m: nat)
    requires AcceptsArgs(fc, n) && fc.minArgs <= m <= n
    ensures AcceptsArgs(fc, m)
  {
  }

  /**
   * `funcs`, the registered built-in functions by name.  A Go map literal
   * has no order; the operators the planner builds come first here.
   */
  function Funcs(name: string): (fc: Option<FunctionClass>)
  {
    match name
    case "and" => Some(FunctionClass("and", 2, 2))
    case "or" => Some(FunctionClass("or", 2, 2))
    case "ge" => Some(FunctionClass("ge", 2, 2))
    case "le" => Some(FunctionClass("le", 2, 2))
    case "eq" => Some(FunctionClass("eq", 2, 2))
    case "ne" => Some(FunctionClass("ne", 2, 2))
    case "lt" => Some(FunctionClass("lt", 2, 2))
    case "gt" => Some(FunctionClass("gt", 2, 2))
    case "nulleq" => Some(FunctionClass("nulleq", 2, 2))
    case "not" => Some(FunctionClass("not", 1, 1))
    case "istrue" => Some(FunctionClass("istrue", 1, 1))
    case "isfalse" => Some(FunctionClass("isfalse", 1, 1))
    case "isnull" => Some(FunctionClass("isnull", 1, 1))
    case "in" => Some(FunctionClass("in", 1, -1))
    case "like" => Some(FunctionClass("like", 3, 3))
    case "regexp" => Some(FunctionClass("regexp", 2, 2))
    case "case" => Some(FunctionClass("case", 1, -1))
    case "row" => Some(FunctionClass("row", 2, -1))
    case "setvar" => Some(FunctionClass("setvar", 2, 2))
    case "getvar" => Some(FunctionClass("getvar", 1, 1))
    case "coalesce" => Some(FunctionClass("coalesce", 1, -1))
    case "greatest" => Some(FunctionClass("greatest", 2, -1))
    case "least" => Some(FunctionClass("least", 2, -1))
    case "interval" => Some(FunctionClass("interval", 2, -1))
    case "abs" => Some(FunctionClass("abs", 1, 1))
    case "ceil" => Some(FunctionClass("ceil", 1, 1))
    case "ceiling" => Some(FunctionClass("ceiling", 1, 1))
    case "floor" => Some(FunctionClass("floor", 1, 1))
    case "ln" => Some(FunctionClass("log", 1, 1))
    case "log" => Some(FunctionClass("log", 1, 2))
    case "log2" => Some(FunctionClass("log2", 1, 1))
    case "log10" => Some(FunctionClass("log10", 1, 1))
    case "pow" => Some(FunctionClass("pow", 2, 2))
    case "power" => Some(FunctionClass("pow", 2, 2))
    case "rand" => Some(FunctionClass("rand", 0, 1))
    case "round" => Some(FunctionClass("round", 1, 2))
    case "sign" => Some(FunctionClass("sign", 1, 1))
    case "sqrt" => Some(FunctionClass("sqrt", 1, 1))
    case "conv" => Some(FunctionClass("conv", 3, 3))
    case "crc32" => Some(FunctionClass("crc32", 1, 1))
    case "curdate" => Some(FunctionClass("curdate", 0, 0))
    case "current_date" => Some(FunctionClass("current_date", 0, 0))
    case "current_time" => Some(FunctionClass("current_time", 0, 1))
    case "date" => Some(FunctionClass("date", 1, 1))
    case "datediff" => Some(FunctionClass("datediff", 2, 2))
    case "date_add" => Some(FunctionClass("date_add", 3, 3))
    case "adddate" => Some(FunctionClass("adddate", 3, 3))
    case "date_sub" => Some(FunctionClass("date_sub", 3, 3))
    case "subdate" => Some(FunctionClass("subdate", 3, 3))
    case "date_format" => Some(FunctionClass("date_format", 2, 2))
    case "current_timestamp" => Some(FunctionClass("current_timestamp", 0, 1))
    case "now" => Some(FunctionClass("now", 0, 1))
    case "curtime" => Some(FunctionClass("curtime", 0, 1))
    case "day" => Some(FunctionClass("day", 1, 1))
    case "dayname" => Some(FunctionClass("dayname", 1, 1))
    case "dayofmonth" => Some(FunctionClass("dayofmonth", 1, 1))
    case "dayofweek" => Some(FunctionClass("dayofweek", 1, 1))
    case "dayofyear" => Some(FunctionClass("dayofyear", 1, 1))
    case "from_days" => Some(FunctionClass("from_days", 1, 1))
    case "extract" => Some(FunctionClass("extract", 2, 2))
    case "hour" => Some(FunctionClass("hour", 1, 1))
    case "microsecond" => Some(FunctionClass("microsecond", 1, 1))
    case "minute" => Some(FunctionClass("minute", 1, 1))
    case "month" => Some(FunctionClass("month", 1, 1))
    case "monthname" => Some(FunctionClass("monthname", 1, 1))
    case "second" => Some(FunctionClass("second", 1, 1))
    case "str_to_date" => Some(FunctionClass("str_to_date", 2, 2))
    case "sysdate" => Some(FunctionClass("sysdate", 0, 1))
    case "time" => Some(FunctionClass("time", 1, 1))
    case "utc_date" => Some(FunctionClass("utc_date", 0, 0))
    case "week" => Some(FunctionClass("week", 1, 2))
    case "weekday" => Some(FunctionClass("weekday", 1, 1))
    case "weekofyear" => Some(FunctionClass("weekofyear", 1, 1))
    case "year" => Some(FunctionClass("year", 1, 1))
    case "yearweek" => Some(FunctionClass("yearweek", 1, 2))
    case "from_unixtime" => Some(FunctionClass("from_unixtime", 1, 2))
    case "timediff" => Some(FunctionClass("timediff", 2, 2))
    case "timestampdiff" => Some(FunctionClass("timestampdiff", 3, 3))
    case "unix_timestamp" => Some(FunctionClass("unix_timestamp", 0, 1))
    case "ascii" => Some(FunctionClass("ascii", 1, 1))
    case "concat" => Some(FunctionClass("concat", 1, -1))
    case "concat_ws" => Some(FunctionClass("concat_ws", 2, -1))
    case "convert" => Some(FunctionClass("convert", 2, 2))
    case "field" => Some(FunctionClass("field", 2, -1))
    case "lcase" => Some(FunctionClass("lcase", 1, 1))
    case "left" => Some(FunctionClass("left", 2, 2))
    case "length" => Some(FunctionClass("length", 1, 1))
    case "locate" => Some(FunctionClass("locate", 2, 3))
    case "lower" => Some(FunctionClass("lower", 1, 1))
    case "ltrim" => Some(FunctionClass("ltrim", 1, 1))
    case "repeat" => Some(FunctionClass("repeat", 2, 2))
    case "replace" => Some(FunctionClass("replace", 3, 3))
    case "reverse" => Some(FunctionClass("reverse", 1, 1))
    case "rtrim" => Some(FunctionClass("rtrim", 1, 1))
    case "space" => Some(FunctionClass("space", 1, 1))
    case "strcmp" => Some(FunctionClass("strcmp", 2, 2))
    case "substring" => Some(FunctionClass("substring", 2, 3))
    case "substr" => Some(FunctionClass("substr", 2, 3))
    case "substring_index" => Some(FunctionClass("substring_index", 3, 3))
    case "trim" => Some(FunctionClass("trim", 1, 3))
    case "upper" => Some(FunctionClass("upper", 1, 1))
    case "ucase" => Some(FunctionClass("ucase", 1, 1))
    case "hex" => Some(FunctionClass("hex", 1, 1))
    case "unhex" => Some(FunctionClass("unhex", 1, 1))
    case "rpad" => Some(FunctionClass("rpad", 3, 3))
    case "bit_length" => Some(FunctionClass("bit_length", 1, 1))
    case "char_func" => Some(FunctionClass("char_func", 2, -1))
    case "char_length" => Some(FunctionClass("char_length", 1, 1))
    case "find_in_set" => Some(FunctionClass("find_in_set", 2, 2))
    case "current_user" => Some(FunctionClass("current_user", 0, 0))
    case "database" => Some(FunctionClass("database", 0, 0))
    case "schema" => Some(FunctionClass("schema", 0, 0))
    case "found_rows" => Some(FunctionClass("found_rows", 0, 0))
    case "user" => Some(FunctionClass("user", 0, 0))
    case "version" => Some(FunctionClass("version", 0, 0))
    case "if" => Some(FunctionClass("if", 3, 3))
    case "ifnull" => Some(FunctionClass("ifnull", 2, 2))
    case "nullif" => Some(FunctionClass("nullif", 2, 2))
    case "sleep" => Some(FunctionClass("sleep", 1, 1))
    case "get_lock" => Some(FunctionClass("get_lock", 2, 2))
    case "release_lock" => Some(FunctionClass("release_lock", 1, 1))
    case "plus" => Some(FunctionClass("plus", 2, 2))
    case "minus" => Some(FunctionClass("minus", 2, 2))
    case "mod" => Some(FunctionClass("mod", 2, 2))
    case "div" => Some(FunctionClass("div", 2, 2))
    case "mul" => Some(FunctionClass("mul", 2, 2))
    case "intdiv" => Some(FunctionClass("intdiv", 2, 2))
    case "leftshift" => Some(FunctionClass("leftshift", 2, 2))
    case "rightshift" => Some(FunctionClass("rightshift", 2, 2))
    case "bitand" => Some(FunctionClass("bitand", 2, 2))
    case "bitor" => Some(FunctionClass("bitor", 2, 2))
    case "bitxor" => Some(FunctionClass("bitxor", 2, 2))
    case "xor" => Some(FunctionClass("xor", 2, 2))
    case "bitneg" => Some(FunctionClass("bitneg", 1, 1))
    case "unaryplus" => Some(FunctionClass("unaryplus", 1, 1))
    case "unaryminus" => Some(FunctionClass("unaryminus", 1, 1))
    case _ => None
  }

  /** `row` takes two or more arguments. */
  lemma RowArity(n: nat)
    ensures Funcs(RowFunc).Some? && (AcceptsArgs(Funcs(RowFunc).value, n) <==> n >= 2)
  {
  }

  /** `like` takes exactly three arguments: the operand, the pattern and the escape byte. */
  lemma LikeArity(n: nat)
    ensures Funcs(Like).Some? && (AcceptsArgs(Funcs(Like).value, n) <==> n == 3)
  {
  }

  /** `case` and `in` take one or more arguments. */
  lemma CaseInArity(n: nat)
    ensures Funcs(Case).Some? && (AcceptsArgs(Funcs(Case).value, n) <==> n >= 1)
    ensures Funcs(In).Some? && (AcceptsArgs(Funcs(In).value, n) <==> n >= 1)
  {
  }

  /** The comparison operators. */
  predicate IsComparison(op: string)
  {
    op == GE || op == LE || op == EQ || op == NE || op == LT || op == GT || op == NullEQ
  }

  /** Every comparison takes exactly two arguments. */
  lemma ComparisonArity(op: string, n: nat)
    requires IsComparison(op)
    ensures Funcs(op).Some? && (AcceptsArgs(Funcs(op).value, n) <==> n == 2)
  {
  }

  /** `and` and `or` take exactly two arguments, `not`, `istrue`, `isfalse` and `isnull` exactly one. */
  lemma LogicArity(n: nat)
    ensures Funcs(AndAnd).Some? && (AcceptsArgs(Funcs(AndAnd).value, n) <==> n == 2)
    ensures Funcs(OrOr).Some? && (AcceptsArgs(Funcs(OrOr).value, n) <==> n == 2)
    ensures Funcs(UnaryNot).Some? && (AcceptsArgs(Funcs(UnaryNot).value, n) <==> n == 1)
    ensures Funcs(IsTruth).Some? && (AcceptsArgs(Funcs(IsTruth).value, n) <==> n == 1)
    ensures Funcs(IsFalsity).Some? && (AcceptsArgs(Funcs(IsFalsity).value, n) <==> n == 1)
    ensures Funcs(IsNull).Some? && (AcceptsArgs(Funcs(IsNull).value, n) <==> n == 1)
  {
  }

  /**
   * The functions whose class marks the calls it builds non-deterministic,
   * overriding the default of `newBaseBuiltinFunc`: `rand`, the example
   * the interface documents. The classes themselves are not part of this
   * model.
   */
  predicate NonDeterministic(name: string)
  {
    name == "rand"
  }

  /**
   * `DynamicFuncs`: functions whose result depends on the session or is
   * not determined by the arguments, which constant folding leaves alone.
   */
  const DynamicFuncs: set<string> :=
    {"rand", "connection_id", "current_user", "database", "found_rows",
     "last_insert_id", "user", "version", "sleep", GetVar, SetVar, Values}

  /** What evaluating one expression against a row gives: a datum and, when it failed, an error. */
  type Evaluator = (Expr, seq<Datum>) -> (Datum, Option<string>)

  /** The position of the first argument whose evaluation fails, or the argument count when none does. */
  function FirstFailure(args: seq<Expr>, row: seq<Datum>, eval: Evaluator, from: nat): (k: nat)
    requires from <= |args|
    ensures from <= k <= |args|
    ensures k < |args| ==> eval(args[k], row).1.Some?
    decreases |args| - from
  {
    if from == |args| then from
    else if eval(args[from], row).1.Some? then from
    else FirstFailure(args, row, eval, from + 1)
  }

  /** Every argument before the first failure evaluates without error. */
  lemma {:induction false} FirstFailureIsFirst(args: seq<Expr>, row: seq<Datum>, eval: Evaluator, from: nat)
    requires from <= |args|
    ensures forall i :: from <= i < FirstFailure(args, row, eval, from) ==> eval(args[i], row).1.None?
    decreases |args| - from
  {
    if from < |args| && eval(args[from], row).1.None? {
      FirstFailureIsFirst(args, row, eval, from + 1);
    }
  }

  /**
   * The state shared by every function signature (`baseBuiltinFunc`): the
   * argument expressions, a buffer for their values, and whether the
   * function gives the same result for the same arguments.
   */
  class BaseBuiltinFunc {
    const args: seq<Expr>
    const argValues: array<Datum>
    const deterministic: bool

    /** The buffer holds one value per argument. */
    predicate Valid()
    {
      argValues.Length == |args|
    }

    /** `newBaseBuiltinFunc`: a deterministic function with a fresh value slot per argument. */
    constructor (args: seq<Expr>)
      ensures Valid() && fresh(argValues)
      ensures this.args == args && deterministic
    {
      this.args := args;
      argValues := new Datum[|args|](_ => Null);
      deterministic := true;
    }

    /**
     * `evalArgs`: evaluates the arguments in order into the buffer and
     * stops at the first error.  The slot of the failing argument receives
     * the datum its evaluation gave with the error; later slots are untouched.
     */
    method EvalArgs(row: seq<Datum>, eval: Evaluator) returns (r: Result<seq<Datum>>)
      requires Valid()
      modifies argValues
      ensures var k := FirstFailure(args, row, eval, 0);
        && (r.Ok? <==> k == |args|)
        && (r.Ok? ==> r.value == argValues[..])
        && (r.Err? ==> r.msg == eval(args[k], row).1.value)
        && forall i :: 0 <= i < argValues.Length ==>
             argValues[i] == if i <= k then eval(args[i], row).0 else old(argValues[i])
    {
      FirstFailureIsFirst(args, row, eval, 0);
      var i := 0;
      while i < |args|
        invariant 0 <= i <= |args| && i <= FirstFailure(args, row, eval, 0)
        invariant forall j :: 0 <= j < argValues.Length ==>
                    argValues[j] == if j < i then eval(args[j], row).0 else old(argValues[j])
      {
        var (v, err) := eval(args[i], row);
        argValues[i] := v;
        if err.Some? {
          return Err(err.value);
        }
        i := i + 1;
      }
      return Ok(argValues[..]);
    }
  }
}

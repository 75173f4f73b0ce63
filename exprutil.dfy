/**
 * Expression utilities of sql/expression/util.go: collecting the columns
 * of an expression, substituting expressions for the columns of a schema,
 * and scanning the longest prefix of a text that reads as a number in a
 * given base.
 */
module ExprUtil {
  import opened Outcomes
  import opened Expressions
  import opened Builtins
  import opened ScalarFunctions
  import opened Text

  /** `ExtractColumns`: the column leaves of the tree from left to right; constants and correlated columns give none. */
  function ExtractColumns(e: Expr): seq<ColumnRef>
  {
    match e
    case Column(c) => [c]
    case Func(_, _, args, _, _) => ArgsColumns(args, |args|)
    case _ => []
  }

  /** The columns of the first `n` arguments, in order. */
  function ArgsColumns(args: seq<Expr>, n: nat): seq<ColumnRef>
    requires n <= |args|
    decreases args, n
  {
    if n == 0 then [] else ArgsColumns(args, n - 1) + ExtractColumns(args[n - 1])
  }

  /** Column `c` occurs as a leaf of the tree. */
  predicate HasColumn(e: Expr, c: ColumnRef)
  {
    match e
    case Column(d) => d == c
    case Func(_, _, args, _, _) => exists i :: 0 <= i < |args| && HasColumn(args[i], c)
    case _ => false
  }

  /** The extracted columns are exactly the column leaves. */
  lemma {:induction false} ExtractColumnsComplete(e: Expr, c: ColumnRef)
    ensures c in ExtractColumns(e) <==> HasColumn(e, c)
  {
    if e.Func? {
      ArgsColumnsComplete(e.args, |e.args|, c);
    }
  }

  lemma {:induction false} ArgsColumnsComplete(args: seq<Expr>, n: nat, c: ColumnRef)
    requires n <= |args|
    ensures c in ArgsColumns(args, n) <==> exists i :: 0 <= i < n && HasColumn(args[i], c)
    decreases args, n
  {
    if n > 0 {
      ArgsColumnsComplete(args, n - 1, c);
      ExtractColumnsComplete(args[n - 1], c);
    }
  }

  /** `Schema.GetColumnIndex` (not part of this model): the first position holding `c`, or -1. */
  function ColumnIndex(schema: seq<ColumnRef>, c: ColumnRef): (i: int)
    ensures -1 <= i < |schema|
    ensures i == -1 <==> c !in schema
    ensures i >= 0 ==> schema[i] == c && c !in schema[..i]
  {
    if |schema| == 0 then -1
    else if schema[0] == c then 0
    else
      var j := ColumnIndex(schema[1..], c);
      if j == -1 then -1
      else
        assert schema[..j + 1] == [schema[0]] + schema[1..][..j];
        j + 1
  }

  /** Substitution needs well-formed expressions, one for each schema column at least. */
  predicate SubstitutionArgs(schema: seq<ColumnRef>, newExprs: seq<Expr>)
  {
    |schema| <= |newExprs| && forall k :: 0 <= k < |newExprs| ==> WellFormed(newExprs[k])
  }

  /**
   * `ColumnSubstitute`: a column of the schema becomes a clone of the
   * expression at its position; a cast is cloned and only its first
   * argument substituted; any other call is rebuilt through `NewFunction`
   * over the substituted arguments, an error discarded as nil; everything
   * else is returned as it is.
   */
  function ColumnSubstitute(e: Expr, schema: seq<ColumnRef>, newExprs: seq<Expr>): (r: Expr)
    requires WellFormed(e) && SubstitutionArgs(schema, newExprs)
    decreases e, 1
  {
    match e
    case Column(c) =>
      var id := ColumnIndex(schema, c);
      if id == -1 then e else SubstituteClone(newExprs[id])
    case Func(name, rt, args, _, sig) =>
      if name == Cast then SubstituteCast(e, schema, newExprs)
      else
        var newArgs := seq(|args|, i requires 0 <= i < |args| => ColumnSubstitute(args[i], schema, newExprs));
        (match NewFunction(name, rt, newArgs)
         case Ok(f) => f
         case Err(_) => Nil)
    case _ => e
  }

  /** The clone of a well-formed expression put in place of a column. */
  function SubstituteClone(x: Expr): Expr
    requires WellFormed(x)
  {
    WellFormedShaped(x);
    Clone(x)
  }

  /** A cast under substitution: cloned, then its first argument substituted in the clone. */
  function SubstituteCast(e: Expr, schema: seq<ColumnRef>, newExprs: seq<Expr>): (r: Expr)
    requires WellFormed(e) && SubstitutionArgs(schema, newExprs) && e.Func? && e.name == Cast
    decreases e, 0
  {
    CloneIdentity(e);
    var newFunc := Clone(e);
    newFunc.(args := newFunc.args[0 := ColumnSubstitute(newFunc.args[0], schema, newExprs)])
  }

  /** A column of the schema becomes the expression at its first position; any other column stays. */
  lemma SubstituteColumn(c: ColumnRef, schema: seq<ColumnRef>, newExprs: seq<Expr>)
    requires SubstitutionArgs(schema, newExprs)
    ensures c !in schema ==> ColumnSubstitute(Column(c), schema, newExprs) == Column(c)
    ensures c in schema ==> ColumnSubstitute(Column(c), schema, newExprs) == newExprs[ColumnIndex(schema, c)]
  {
    if c in schema {
      CloneIdentity(newExprs[ColumnIndex(schema, c)]);
    }
  }

  /** No `VALUES()` reference anywhere in the tree. */
  predicate NoValuesRef(e: Expr)
  {
    match e
    case Func(_, _, args, _, sig) => !sig.ValuesSig? && forall i :: 0 <= i < |args| ==> NoValuesRef(args[i])
    case _ => true
  }

  /**
   * Substituting for columns an expression does not use changes nothing,
   * provided it holds no `VALUES()` reference (which `NewFunction` cannot
   * rebuild, so substitution turns it into nil).
   */
  lemma {:induction false} SubstituteUnusedIdentity(e: Expr, schema: seq<ColumnRef>, newExprs: seq<Expr>)
    requires WellFormed(e) && SubstitutionArgs(schema, newExprs) && NoValuesRef(e)
    requires forall c :: c in schema ==> !HasColumn(e, c)
    ensures ColumnSubstitute(e, schema, newExprs) == e
  {
    if e.Func? {
      if e.name == Cast {
        CloneIdentity(e);
        SubstituteUnusedIdentity(e.args[0], schema, newExprs);
        assert e.args[0 := e.args[0]] == e.args;
      } else {
        var newArgs := seq(|e.args|, i requires 0 <= i < |e.args| => ColumnSubstitute(e.args[i], schema, newExprs));
        forall i | 0 <= i < |e.args|
          ensures newArgs[i] == e.args[i]
        {
          SubstituteUnusedIdentity(e.args[i], schema, newExprs);
        }
        assert newArgs == e.args;
        LowerIdempotent(e.name);
      }
    }
  }

  /**
   * After substitution no column of the schema is left, except those the
   * substituted expressions bring in: every column of the result is an
   * unsubstituted column of the original or a column of one of `newExprs`.
   */
  lemma {:induction false} SubstituteColumns(e: Expr, schema: seq<ColumnRef>, newExprs: seq<Expr>, c: ColumnRef)
    requires WellFormed(e) && SubstitutionArgs(schema, newExprs)
    requires HasColumn(ColumnSubstitute(e, schema, newExprs), c)
    ensures (HasColumn(e, c) && c !in schema) || exists k :: 0 <= k < |newExprs| && HasColumn(newExprs[k], c)
    decreases e, 1
  {
    match e
    case Column(d) =>
      if d in schema {
        SubstituteColumn(d, schema, newExprs);
        assert HasColumn(newExprs[ColumnIndex(schema, d)], c);
      }
    case Func(_, _, _, _, _) =>
      SubstituteCallColumns(e, schema, newExprs, c);
    case _ =>
  }

  /** The call case of `SubstituteColumns`. */
  lemma {:induction false} SubstituteCallColumns(e: Expr, schema: seq<ColumnRef>, newExprs: seq<Expr>, c: ColumnRef)
    requires WellFormed(e) && SubstitutionArgs(schema, newExprs) && e.Func?
    requires HasColumn(ColumnSubstitute(e, schema, newExprs), c)
    ensures (HasColumn(e, c) && c !in schema) || exists k :: 0 <= k < |newExprs| && HasColumn(newExprs[k], c)
    decreases e, 0
  {
    if e.name == Cast {
      SubstituteCastArg(e, schema, newExprs);
      SubstituteColumns(e.args[0], schema, newExprs, c);
    } else {
      var i := SubstituteCallArg(e, schema, newExprs, c);
      SubstituteColumns(e.args[i], schema, newExprs, c);
      if HasColumn(e.args[i], c) && c !in schema {
        assert HasColumn(e, c);
      }
    }
  }

  /** A substituted cast is the cast over its one substituted argument. */
  lemma SubstituteCastArg(e: Expr, schema: seq<ColumnRef>, newExprs: seq<Expr>)
    requires WellFormed(e) && SubstitutionArgs(schema, newExprs) && e.Func? && e.name == Cast
    ensures ColumnSubstitute(e, schema, newExprs) == e.(args := [ColumnSubstitute(e.args[0], schema, newExprs)])
  {
    assert ColumnSubstitute(e, schema, newExprs) == SubstituteCast(e, schema, newExprs);
    WellFormedCast(e);
    CloneIdentity(e);
  }

  /** A well-formed call named `cast` is a cast signature over exactly one argument: `cast` is not in the function table. */
  lemma WellFormedCast(e: Expr)
    requires WellFormed(e) && e.Func? && e.name == Cast
    ensures e.sig.CastSig? && |e.args| == 1
  {
    assert Funcs(Cast).None?;
  }

  /** A column in a rebuilt call comes from one of its substituted arguments. */
  lemma SubstituteCallArg(e: Expr, schema: seq<ColumnRef>, newExprs: seq<Expr>, c: ColumnRef) returns (i: nat)
    requires WellFormed(e) && SubstitutionArgs(schema, newExprs) && e.Func? && e.name != Cast
    requires HasColumn(ColumnSubstitute(e, schema, newExprs), c)
    ensures i < |e.args| && HasColumn(ColumnSubstitute(e.args[i], schema, newExprs), c)
  {
    var r := ColumnSubstitute(e, schema, newExprs);
    var newArgs := seq(|e.args|, k requires 0 <= k < |e.args| => ColumnSubstitute(e.args[k], schema, newExprs));
    assert r == NewFunction(e.name, e.retType, newArgs).value;
    var k :| 0 <= k < |r.args| && HasColumn(r.args[k], c);
    i := k;
  }

  // ---------------------------------------------------------------------
  // getValidPrefix

  /** `rune(x)`: the conversion to a 32-bit rune keeps the low 32 bits, read as signed. */
  function Rune(x: int): (r: int)
    ensures -0x8000_0000 <= r < 0x8000_0000
    ensures (r - x) % 0x1_0000_0000 == 0
  {
    (x + 0x8000_0000) % 0x1_0000_0000 - 0x8000_0000
  }

  /**
   * The character bound of a base: letters and digits that upper-case
   * below it are digits of the base.  `None` for a base above 36, for
   * which the scan does not start.  The bound is a rune, so for a base far
   * below zero it wraps around.
   */
  function UpperBound(base: int): Option<int>
  {
    if 2 <= base <= 9 then Some(Rune('0' as int + base))
    else if base <= 36 then Some(Rune('A' as int + base - 10))
    else None
  }

  predicate IsAlnum(c: char)
  {
    IsDigit(c) || IsLower(c) || IsUpper(c)
  }

  /** A character the scan accepts as a digit: alphanumeric, and upper-cased below the bound. */
  predicate AcceptedDigit(c: char, upper: int)
  {
    IsAlnum(c) && (ToUpperChar(c) as int) < upper
  }

  predicate IsSign(c: char)
  {
    c == '+' || c == '-'
  }

  /** The value of an alphanumeric as a digit: 0-9, then 10-35 for the letters of either case. */
  function DigitValue(c: char): nat
    requires IsAlnum(c)
  {
    if IsDigit(c) then c as int - '0' as int
    else if IsLower(c) then c as int - 'a' as int + 10
    else c as int - 'A' as int + 10
  }

  /** For a base from 2 to 36 the scan accepts exactly the alphanumerics whose digit value is below the base. */
  lemma AcceptedDigitIsBelowBase(c: char, base: int)
    requires 2 <= base <= 36
    ensures AcceptedDigit(c, UpperBound(base).value) <==> IsAlnum(c) && DigitValue(c) < base
  {
  }

  /** The number of accepted digits from position `i` on. */
  function DigitRun(s: string, i: nat, upper: int): (n: nat)
    requires i <= |s|
    ensures i + n <= |s|
    decreases |s| - i
  {
    if i < |s| && AcceptedDigit(s[i], upper) then 1 + DigitRun(s, i + 1, upper) else 0
  }

  /** The run counts accepted digits only, and stops at a character that is not one. */
  lemma {:induction false} DigitRunMaximal(s: string, i: nat, upper: int)
    requires i <= |s|
    ensures forall k :: i <= k < i + DigitRun(s, i, upper) ==> AcceptedDigit(s[k], upper)
    ensures i + DigitRun(s, i, upper) < |s| ==> !AcceptedDigit(s[i + DigitRun(s, i, upper)], upper)
    decreases |s| - i
  {
    if i < |s| && AcceptedDigit(s[i], upper) {
      DigitRunMaximal(s, i + 1, upper);
    }
  }

  /** A run of accepted digits from `i` up to a non-digit or the end is the digit run. */
  lemma {:induction false} DigitRunIs(s: string, i: nat, j: nat, upper: int)
    requires i <= j <= |s|
    requires forall k :: i <= k < j ==> AcceptedDigit(s[k], upper)
    requires j == |s| || !AcceptedDigit(s[j], upper)
    ensures DigitRun(s, i, upper) == j - i
    decreases j - i
  {
    if i < j {
      DigitRunIs(s, i + 1, j, upper);
    }
  }

  /** 1 when the text starts with a sign, else 0. */
  function SignLen(s: string): nat
  {
    if |s| > 0 && IsSign(s[0]) then 1 else 0
  }

  /**
   * What `getValidPrefix` returns: nothing for a base above 36; otherwise
   * an optional sign with the digit run after it, or nothing when the run
   * is empty; a leading '+' is dropped.
   */
  function ValidPrefix(s: string, base: int): string
  {
    match UpperBound(base)
    case None => ""
    case Some(upper) =>
      var start := SignLen(s);
      var n := DigitRun(s, start, upper);
      var validLen := if n == 0 then 0 else start + n;
      if validLen > 1 && s[0] == '+' then s[1..validLen] else s[..validLen]
  }

  /**
   * `getValidPrefix`: scans the characters, extending the valid length
   * over each accepted digit, letting a sign through only at position 0,
   * and stopping at anything else.
   */
  method GetValidPrefix(s: string, base: int) returns (r: string)
    ensures r == ValidPrefix(s, base)
  {
    var upper: int;
    if 2 <= base <= 9 {
      upper := Rune('0' as int + base);
    } else if base <= 36 {
      upper := Rune('A' as int + base - 10);
    } else {
      return "";
    }
    var validLen := 0;
    var i := 0;
    var start := SignLen(s);
    while i < |s|
      invariant 0 <= i <= |s|
      invariant i == 0 || start <= i
      invariant forall k :: start <= k < i ==> AcceptedDigit(s[k], upper)
      invariant validLen == if i <= start then 0 else i
    {
      var c := s[i];
      if IsAlnum(c) {
        if (ToUpperChar(c) as int) < upper {
          validLen := i + 1;
        } else {
          break;
        }
      } else if IsSign(c) {
        if i != 0 {
          break;
        }
      } else {
        break;
      }
      i := i + 1;
    }
    DigitRunIs(s, start, i, upper);
    if validLen > 1 && s[0] == '+' {
      return s[1..validLen];
    }
    return s[..validLen];
  }

  /**
   * For a base from 2 to 36 the result is the text's optional sign and
   * longest run of digits below the base after it, '+' dropped; the
   * character after the run is not such a digit.
   */
  lemma ValidPrefixDigits(s: string, base: int)
    requires 2 <= base <= 36
    ensures var start, n := SignLen(s), DigitRun(s, SignLen(s), UpperBound(base).value);
      && (forall k :: start <= k < start + n ==> IsAlnum(s[k]) && DigitValue(s[k]) < base)
      && (start + n < |s| ==> !(IsAlnum(s[start + n]) && DigitValue(s[start + n]) < base))
      && ValidPrefix(s, base) == if n == 0 then "" else if s[0] == '+' then s[1..start + n] else s[..start + n]
  {
    var upper := UpperBound(base).value;
    var start := SignLen(s);
    var n := DigitRun(s, start, upper);
    DigitRunMaximal(s, start, upper);
    forall k | start <= k < start + n
      ensures IsAlnum(s[k]) && DigitValue(s[k]) < base
    {
      AcceptedDigitIsBelowBase(s[k], base);
    }
    if start + n < |s| {
      AcceptedDigitIsBelowBase(s[start + n], base);
    }
  }

  /** The result is always a prefix of the text, or a prefix of the text after its leading '+'. */
  lemma ValidPrefixIsPrefix(s: string, base: int)
    ensures var r := ValidPrefix(s, base);
      (|r| <= |s| && r == s[..|r|]) || (|s| > 0 && s[0] == '+' && 1 + |r| <= |s| && r == s[1..1 + |r|])
  {
  }

  /** Below base 2 the bound still admits digits: in base 1 the text "7" is accepted whole. */
  lemma ValidPrefixBaseOneAcceptsSeven()
    ensures ValidPrefix("7", 1) == "7"
  {
    assert AcceptedDigit('7', UpperBound(1).value);
    assert DigitRun("7", 0, UpperBound(1).value) == 1;
  }

  /** Far below zero the rune bound wraps around: base -4294967230 gets the bound 'y' and accepts "Z". */
  lemma ValidPrefixWrappedBaseAcceptsZ()
    ensures UpperBound(-4294967230) == Some('y' as int)
    ensures ValidPrefix("Z", -4294967230) == "Z"
  {
    assert AcceptedDigit('Z', UpperBound(-4294967230).value);
    assert DigitRun("Z", 0, UpperBound(-4294967230).value) == 1;
  }

  /** `getValidPrefix` as its documentation states it: bases outside 2 to 36 give the empty prefix. */
  function ValidPrefixCorrected(s: string, base: int): string
  {
    if base < 2 then "" else ValidPrefix(s, base)
  }

  /** With the correction every digit of the result, in any base, is a digit of that base. */
  lemma ValidPrefixCorrectedDigits(s: string, base: int)
    ensures var r := ValidPrefixCorrected(s, base);
      forall k :: 0 <= k < |r| ==> IsSign(r[k]) || (IsAlnum(r[k]) && DigitValue(r[k]) < base)
  {
    if 2 <= base <= 36 {
      ValidPrefixDigits(s, base);
    }
  }
}

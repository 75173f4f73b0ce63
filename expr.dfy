/**
 * The planner's expression trees (`expression.Expression` in
 * sql/expression): columns, correlated columns, constants and scalar
 * function calls.  Expressions are modelled as values; a Go `nil`
 * Expression, which several operations return after discarding an error,
 * is `Nil`.
 */
module Expressions {
  import opened Datums

  /** A return type (`*types.FieldType`), kept only as an identity; `NoType` is a nil type. */
  datatype FieldType = NoType | FieldType(tp: int)

  /** A constant's value: one datum, or a row of datums (`types.KindRow`). */
  datatype Value = Scalar(d: Datum) | RowValue(items: seq<Datum>)

  /** A column (`expression.Column`), identified by its unique id; the name is what SQL text uses. */
  datatype ColumnRef = ColumnRef(id: int, name: string)

  /**
   * The signature behind a scalar function: an ordinary built-in, a cast
   * (`builtinCastSig`, which carries its target type) or a `VALUES()`
   * reference (`builtinValuesSig`, which carries a column offset).
   */
  datatype Sig = Base | CastSig(tp: FieldType) | ValuesSig(offset: int)

  datatype Expr =
    | Column(col: ColumnRef)
    | Correlated(col: ColumnRef)            // `expression.CorrelatedColumn`
    | Constant(value: Value, retType: FieldType)
    | Func(name: string, retType: FieldType, args: seq<Expr>, deterministic: bool, sig: Sig)
    | Nil

  // Function names, spelled as the SQL parser's `ast` package spells them.
  const AndAnd := "and"
  const OrOr := "or"
  const GE := "ge"
  const LE := "le"
  const EQ := "eq"
  const NE := "ne"
  const LT := "lt"
  const GT := "gt"
  const NullEQ := "nulleq"
  const UnaryNot := "not"
  const UnaryMinus := "unaryminus"
  const BitNeg := "bitneg"
  const IsTruth := "istrue"
  const IsFalsity := "isfalse"
  const IsNull := "isnull"
  const In := "in"
  const Like := "like"
  const Regexp := "regexp"
  const Case := "case"
  const RowFunc := "row"
  const Cast := "cast"
  const Values := "values"
  const SetVar := "setvar"
  const GetVar := "getvar"
}

/**
 The expression tree of the kernel, reduced to what the data-skipping rewrite
 inspects: column references (a column name is a path of field names),
 literal scalars, unary NOT / IS NULL, binary operators and the variadic
 AND / OR.
 */
module Expressions {
  import opened Wrappers

  /** A possibly nested column name, e.g. ["minValues", "a"]. */
  type ColumnName = seq<string>

  /** Scalar values: integers stand for every ordered Delta type; Null is SQL null. */
  datatype Value = Int(i: int) | Bool(b: bool) | Null

  datatype UnaryOp = Not | IsNull

  datatype BinaryOp =
    | Plus | Minus | Multiply | Divide
    | LessThan | LessThanOrEqual | GreaterThan | GreaterThanOrEqual
    | Equal | NotEqual
    | Distinct

  datatype VariadicOp = And | Or

  datatype Expr =
    | Column(name: ColumnName)
    | Literal(value: Value)
    | Struct(fields: seq<Expr>)
    | Unary(uop: UnaryOp, operand: Expr)
    | Binary(bop: BinaryOp, left: Expr, right: Expr)
    | Variadic(vop: VariadicOp, operands: seq<Expr>)

  /** The six comparison operators the rewrite knows how to translate. */
  predicate IsComparison(op: BinaryOp) {
    op in {LessThan, LessThanOrEqual, GreaterThan, GreaterThanOrEqual, Equal, NotEqual}
  }

  /**
   The operator `op'` with `b op' a` equivalent to `a op b`: the strict and
   non-strict orderings swap direction, equality and inequality are
   symmetric, and no other operator is commuted.
   */
  function Commute(op: BinaryOp): Option<BinaryOp> {
    match op
    case LessThan => Some(GreaterThan)
    case GreaterThan => Some(LessThan)
    case LessThanOrEqual => Some(GreaterThanOrEqual)
    case GreaterThanOrEqual => Some(LessThanOrEqual)
    case Equal => Some(Equal)
    case NotEqual => Some(NotEqual)
    case _ => None
  }

  /** The operator computing the negation of `op`; only comparisons have one. */
  function Invert(op: BinaryOp): Option<BinaryOp> {
    match op
    case LessThan => Some(GreaterThanOrEqual)
    case GreaterThanOrEqual => Some(LessThan)
    case LessThanOrEqual => Some(GreaterThan)
    case GreaterThan => Some(LessThanOrEqual)
    case Equal => Some(NotEqual)
    case NotEqual => Some(Equal)
    case _ => None
  }

  /** AND and OR are each other's De Morgan dual. */
  function InvertVariadic(op: VariadicOp): VariadicOp {
    match op
    case And => Or
    case Or => And
  }

  /** Commuting is defined exactly on the comparisons and undoes itself. */
  lemma CommuteInvolution(op: BinaryOp)
    ensures Commute(op).Some? <==> IsComparison(op)
    ensures Commute(op).Some? ==> Commute(Commute(op).value) == Some(op)
  {
  }

  /** Inverting is defined exactly on the comparisons, undoes itself and never yields `op` again. */
  lemma InvertInvolution(op: BinaryOp)
    ensures Invert(op).Some? <==> IsComparison(op)
    ensures Invert(op).Some? ==> Invert(Invert(op).value) == Some(op) && Invert(op).value != op
  {
  }

  /** `Expr::and(a, b)` */
  function AndOf(a: Expr, b: Expr): Expr {
    Variadic(And, [a, b])
  }

  /** `Expr::or(a, b)` */
  function OrOf(a: Expr, b: Expr): Expr {
    Variadic(Or, [a, b])
  }

  /** `ColumnName::join`: the column `name` nested under the top-level field `prefix`. */
  function Joined(prefix: string, name: ColumnName): ColumnName {
    [prefix] + name
  }

  /** Every column name mentioned anywhere in `e`. */
  function References(e: Expr): set<ColumnName>
    decreases e
  {
    match e
    case Column(c) => {c}
    case Literal(_) => {}
    case Struct(fs) => ReferencesAll(fs)
    case Unary(_, x) => References(x)
    case Binary(_, a, b) => References(a) + References(b)
    case Variadic(_, es) => ReferencesAll(es)
  }

  function ReferencesAll(es: seq<Expr>): set<ColumnName>
    decreases es
  {
    if |es| == 0 then {} else References(es[0]) + ReferencesAll(es[1..])
  }
}

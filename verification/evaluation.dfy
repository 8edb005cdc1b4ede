/**
 A three-valued (SQL) evaluator for expressions over one record. The same
 evaluator gives the meaning of a query predicate on a table row and of a
 data-skipping predicate on a file's statistics record.
 */
module Evaluation {
  import opened Expressions

  /** A row, or a statistics record: absent fields read as null. */
  type Record = map<ColumnName, Value>

  function Lookup(r: Record, c: ColumnName): Value {
    if c in r then r[c] else Null
  }

  /** Three-valued NOT; a non-boolean operand reads as null. */
  function Not3(x: Value): (r: Value)
    ensures r == Bool(true) <==> x == Bool(false)
    ensures r == Bool(false) <==> x == Bool(true)
  {
    if x.Bool? then Bool(!x.b) else Null
  }

  /** Three-valued AND: false wins, true only when both are true. */
  function And3(x: Value, y: Value): (r: Value)
    ensures r == Bool(false) <==> x == Bool(false) || y == Bool(false)
    ensures r == Bool(true) <==> x == Bool(true) && y == Bool(true)
    ensures r.Bool? || r.Null?
  {
    if x == Bool(false) || y == Bool(false) then Bool(false)
    else if x == Bool(true) && y == Bool(true) then Bool(true)
    else Null
  }

  /** Three-valued OR: true wins, false only when both are false. */
  function Or3(x: Value, y: Value): (r: Value)
    ensures r == Bool(true) <==> x == Bool(true) || y == Bool(true)
    ensures r == Bool(false) <==> x == Bool(false) && y == Bool(false)
    ensures r.Bool? || r.Null?
  {
    if x == Bool(true) || y == Bool(true) then Bool(true)
    else if x == Bool(false) && y == Bool(false) then Bool(false)
    else Null
  }

  /** Equality and inequality compare two non-null values of the same kind. */
  predicate Comparable(x: Value, y: Value) {
    (x.Int? && y.Int?) || (x.Bool? && y.Bool?)
  }

  /**
   The value of `x op y`. Orderings compare integers; `=` and `!=` compare
   values of one kind; `IS DISTINCT FROM` is never null; anything else, and
   every comparison with a null, is null. Arithmetic is not interpreted.
   */
  function Apply(op: BinaryOp, x: Value, y: Value): Value {
    match op
    case LessThan => if x.Int? && y.Int? then Bool(x.i < y.i) else Null
    case LessThanOrEqual => if x.Int? && y.Int? then Bool(x.i <= y.i) else Null
    case GreaterThan => if x.Int? && y.Int? then Bool(x.i > y.i) else Null
    case GreaterThanOrEqual => if x.Int? && y.Int? then Bool(x.i >= y.i) else Null
    case Equal => if Comparable(x, y) then Bool(x == y) else Null
    case NotEqual => if Comparable(x, y) then Bool(x != y) else Null
    case Distinct => Bool(x != y)
    case _ => Null
  }

  function Eval(e: Expr, r: Record): Value
    decreases e
  {
    match e
    case Column(c) => Lookup(r, c)
    case Literal(x) => x
    case Struct(_) => Null
    case Unary(Not, x) => Not3(Eval(x, r))
    case Unary(IsNull, x) => Bool(Eval(x, r).Null?)
    case Binary(op, a, b) => Apply(op, Eval(a, r), Eval(b, r))
    case Variadic(And, es) => EvalAnd(es, r)
    case Variadic(Or, es) => EvalOr(es, r)
  }

  /** The conjunction of `es`; the empty conjunction is true. */
  function EvalAnd(es: seq<Expr>, r: Record): Value
    decreases es
  {
    if |es| == 0 then Bool(true) else And3(Eval(es[0], r), EvalAnd(es[1..], r))
  }

  /** The disjunction of `es`; the empty disjunction is false. */
  function EvalOr(es: seq<Expr>, r: Record): Value
    decreases es
  {
    if |es| == 0 then Bool(false) else Or3(Eval(es[0], r), EvalOr(es[1..], r))
  }

  /** A conjunction is false exactly when some conjunct is false, and true exactly when all are. */
  lemma {:induction false} EvalAndMeaning(es: seq<Expr>, r: Record)
    ensures EvalAnd(es, r) == Bool(false) <==> exists k :: 0 <= k < |es| && Eval(es[k], r) == Bool(false)
    ensures EvalAnd(es, r) == Bool(true) <==> forall k :: 0 <= k < |es| ==> Eval(es[k], r) == Bool(true)
    decreases es
  {
    if |es| > 0 {
      EvalAndMeaning(es[1..], r);
      forall k | 1 <= k < |es| ensures es[k] == es[1..][k - 1] { }
      if Eval(es[0], r) != Bool(false) && EvalAnd(es[1..], r) == Bool(false) {
        var k :| 0 <= k < |es[1..]| && Eval(es[1..][k], r) == Bool(false);
        assert Eval(es[k + 1], r) == Bool(false);
      }
    }
  }

  /** A disjunction is true exactly when some disjunct is true, and false exactly when all are. */
  lemma {:induction false} EvalOrMeaning(es: seq<Expr>, r: Record)
    ensures EvalOr(es, r) == Bool(true) <==> exists k :: 0 <= k < |es| && Eval(es[k], r) == Bool(true)
    ensures EvalOr(es, r) == Bool(false) <==> forall k :: 0 <= k < |es| ==> Eval(es[k], r) == Bool(false)
    decreases es
  {
    if |es| > 0 {
      EvalOrMeaning(es[1..], r);
      forall k | 1 <= k < |es| ensures es[k] == es[1..][k - 1] { }
      if Eval(es[0], r) != Bool(true) && EvalOr(es[1..], r) == Bool(true) {
        var k :| 0 <= k < |es[1..]| && Eval(es[1..][k], r) == Bool(true);
        assert Eval(es[k + 1], r) == Bool(true);
      }
    }
  }

  /** A two-operand AND / OR is the binary connective of its operands' values. */
  lemma EvalPair(a: Expr, b: Expr, r: Record)
    ensures EvalAnd([a, b], r) == And3(Eval(a, r), Eval(b, r))
    ensures EvalOr([a, b], r) == Or3(Eval(a, r), Eval(b, r))
  {
    assert [a, b][1..] == [b];
    assert [b][1..] == [];
    assert EvalAnd([b], r) == And3(Eval(b, r), Bool(true));
    assert EvalOr([b], r) == Or3(Eval(b, r), Bool(false));
  }

  /** Commuting the operator and swapping the operands never changes the value. */
  lemma CommuteSwapsOperands(op: BinaryOp, x: Value, y: Value)
    requires Commute(op).Some?
    ensures Apply(Commute(op).value, y, x) == Apply(op, x, y)
  {
  }

  /** The inverted operator computes the three-valued negation. */
  lemma InvertNegates(op: BinaryOp, x: Value, y: Value)
    requires Invert(op).Some?
    ensures Apply(Invert(op).value, x, y) == Not3(Apply(op, x, y))
  {
  }

  /** Each operand wrapped in NOT, as in `exprs.map(|e| !e)`. */
  function NegateAll(es: seq<Expr>): seq<Expr> {
    seq(|es|, k requires 0 <= k < |es| => Unary(Not, es[k]))
  }

  /** De Morgan's laws in three-valued logic: the operands negated under the dual operator. */
  lemma {:induction false} DeMorgan(op: VariadicOp, es: seq<Expr>, r: Record)
    ensures Eval(Variadic(InvertVariadic(op), NegateAll(es)), r) == Not3(Eval(Variadic(op, es), r))
    decreases es
  {
    if |es| > 0 {
      DeMorgan(op, es[1..], r);
      var negated := NegateAll(es);
      assert negated[0] == Unary(Not, es[0]);
      assert negated[1..] == NegateAll(es[1..]);
      match op
      case And =>
        assert EvalOr(negated, r) == Or3(Not3(Eval(es[0], r)), EvalOr(NegateAll(es[1..]), r));
      case Or =>
        assert EvalAnd(negated, r) == And3(Not3(Eval(es[0], r)), EvalAnd(NegateAll(es[1..]), r));
    }
  }
}

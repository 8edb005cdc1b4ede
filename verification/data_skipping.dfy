/**
 The rewrite of a query predicate into a data-skipping predicate over the
 per-file statistics of the Delta Lake transaction log protocol:
 `numRecords`, `tightBounds`, `nullCount.<col>`, `minValues.<col>` and
 `maxValues.<col>`. `None` means "not eligible for data skipping".
 */
module DataSkipping {
  import opened Wrappers
  import opened Expressions
  import opened Evaluation
  import opened Statistics

  /**
   Which of two readings of the two unsound spots the rewrite uses: the code
   as written, or the corrected `!=` bounds check and wide-bounds null check.
   Every other rule is shared.
   */
  datatype Variant = AsWritten | Corrected

  /** Could contain a null, when bounds are tight (tightBounds defaults to true when absent). */
  function TightNullExpr(nullCol: Expr): Expr {
    AndOf(Binary(Distinct, Column(TightBounds), Literal(Bool(false))),
          Binary(GreaterThan, nullCol, Literal(Int(0))))
  }

  /**
   Could contain a null, when bounds are wide. As written the check is
   "every record is null"; the corrected check is "some record may be null".
   */
  function WideNullExpr(v: Variant, nullCol: Expr): Expr {
    match v
    case AsWritten =>
      AndOf(Binary(Equal, Column(TightBounds), Literal(Bool(false))),
            Binary(Equal, Column(NumRecords), nullCol))
    case Corrected =>
      AndOf(Binary(Equal, Column(TightBounds), Literal(Bool(false))),
            Binary(GreaterThan, nullCol, Literal(Int(0))))
  }

  /** Could contain a non-null value, when bounds are tight. */
  function TightNotNullExpr(nullCol: Expr): Expr {
    AndOf(Binary(Distinct, Column(TightBounds), Literal(Bool(false))),
          Binary(LessThan, nullCol, Column(NumRecords)))
  }

  /** Could contain a non-null value, when bounds are wide: not every record is null. */
  function WideNotNullExpr(nullCol: Expr): Expr {
    AndOf(Binary(Equal, Column(TightBounds), Literal(Bool(false))),
          Binary(NotEqual, Column(NumRecords), nullCol))
  }

  /**
   Could contain a value different from `val`. As written: the bounds lie
   entirely above or below `val`. Corrected: some bound differs from `val`.
   */
  function NotEqualBounds(v: Variant, col: ColumnName, val: Value): Expr {
    match v
    case AsWritten =>
      OrOf(Binary(GreaterThan, MinOf(col), Literal(val)), Binary(LessThan, MaxOf(col), Literal(val)))
    case Corrected =>
      OrOf(Binary(NotEqual, MinOf(col), Literal(val)), Binary(NotEqual, MaxOf(col), Literal(val)))
  }

  /** A comparison normalised to `col op val`. */
  datatype Comparison = Comparison(op: BinaryOp, col: ColumnName, val: Value)

  /**
   Normalises a binary operation to "column op literal": a literal-first
   operation is commuted, and any other pair of operands is refused.
   */
  function Normalize(op: BinaryOp, left: Expr, right: Expr): (r: Option<Comparison>)
    ensures r.Some? <==> (left.Column? && right.Literal?) || (left.Literal? && right.Column? && Commute(op).Some?)
    ensures r.Some? ==> r.value.op == op || Commute(op) == Some(r.value.op)
    ensures r.Some? ==> forall rec :: Eval(Binary(r.value.op, Column(r.value.col), Literal(r.value.val)), rec) == Eval(Binary(op, left, right), rec)
  {
    if left.Column? && right.Literal? then Some(Comparison(op, left.name, right.value))
    else if left.Literal? && right.Column? then
      match Commute(op)
      case Some(op') =>
        assert forall rec :: Apply(op', Lookup(rec, right.name), left.value) == Apply(op, left.value, Lookup(rec, right.name)) by {
          forall rec { CommuteSwapsOperands(op, left.value, Lookup(rec, right.name)); }
        }
        Some(Comparison(op', right.name, left.value))
      case None => None
    else None
  }

  /** Weight of a binary node in the termination measure: `=`/`!=` expand into two comparisons. */
  function OpWeight(op: BinaryOp): nat {
    if op == Equal || op == NotEqual then 7 else 1
  }

  /** A size in which NOT weighs nothing, so that pushing NOT down does not grow it. */
  function Size(e: Expr): (n: nat)
    ensures n >= 1
    decreases e
  {
    match e
    case Unary(Not, x) => Size(x)
    case Unary(IsNull, x) => 1 + Size(x)
    case Binary(op, a, b) => OpWeight(op) + Size(a) + Size(b)
    case Variadic(_, es) => 2 + SizeAll(es)
    case _ => 1
  }

  function SizeAll(es: seq<Expr>): nat
    decreases es
  {
    if |es| == 0 then 0 else Size(es[0]) + SizeAll(es[1..])
  }

  /** The number of NOTs at the root. */
  function NotDepth(e: Expr): nat {
    if e.Unary? && e.uop == Not then 1 + NotDepth(e.operand) else 0
  }

  lemma {:induction false} SizeAllNegated(es: seq<Expr>)
    ensures SizeAll(NegateAll(es)) == SizeAll(es)
    decreases es
  {
    if |es| > 0 {
      assert NegateAll(es)[1..] == NegateAll(es[1..]);
      SizeAllNegated(es[1..]);
    }
  }

  lemma EqualExpansionSize(col: ColumnName, val: Value)
    ensures Size(AndOf(Binary(LessThanOrEqual, Column(col), Literal(val)),
                       Binary(LessThanOrEqual, Literal(val), Column(col)))) == 8
  {
    var pair := [Binary(LessThanOrEqual, Column(col), Literal(val)),
                 Binary(LessThanOrEqual, Literal(val), Column(col))];
    assert Size(pair[0]) == 3 && Size(pair[1]) == 3;
    assert pair[1..][1..] == [];
    assert SizeAll(pair[1..]) == 3;
    assert SizeAll(pair) == 6;
  }

  /** `as_data_skipping_predicate` */
  function Rewrite(v: Variant, e: Expr): Option<Expr>
    decreases Size(e), 2 * NotDepth(e)
  {
    match e
    case Binary(op, left, right) =>
      (match Normalize(op, left, right)
       case None => None
       case Some(Comparison(op', col, val)) =>
         if op' == LessThan || op' == LessThanOrEqual then
           Some(Binary(op', MinOf(col), Literal(val)))
         else if op' == GreaterThan || op' == GreaterThanOrEqual then
           Some(Binary(op', MaxOf(col), Literal(val)))
         else if op' == Equal then
           EqualExpansionSize(col, val);
           assert op == Equal;
           Rewrite(v, AndOf(Binary(LessThanOrEqual, Column(col), Literal(val)),
                            Binary(LessThanOrEqual, Literal(val), Column(col))))
         else if op' == NotEqual then
           Some(NotEqualBounds(v, col, val))
         else None)
    case Unary(Not, x) => RewriteInverted(v, x)
    case Unary(IsNull, x) =>
      if x.Column? then
        Some(OrOf(TightNullExpr(NullCountOf(x.name)), WideNullExpr(v, NullCountOf(x.name))))
      else None
    case Variadic(And, es) => Some(Variadic(And, RewriteKept(v, es)))
    case Variadic(Or, es) =>
      (match RewriteAll(v, es)
       case None => None
       case Some(ps) => Some(Variadic(Or, ps)))
    case _ => None
  }

  /** `as_inverted_data_skipping_predicate`: the rewrite of `NOT e`, pushing the NOT down. */
  function RewriteInverted(v: Variant, e: Expr): Option<Expr>
    decreases Size(e), 2 * NotDepth(e) + 1
  {
    match e
    case Unary(Not, x) => Rewrite(v, x)
    case Unary(IsNull, x) =>
      if x.Column? then
        Some(OrOf(TightNotNullExpr(NullCountOf(x.name)), WideNotNullExpr(NullCountOf(x.name))))
      else None
    case Binary(op, left, right) =>
      (match Invert(op)
       case None => None
       case Some(op') => Rewrite(v, Binary(op', left, right)))
    case Variadic(op, es) =>
      SizeAllNegated(es);
      Rewrite(v, Variadic(InvertVariadic(op), NegateAll(es)))
    case _ => None
  }

  /** The rewrites of the eligible operands, in order; ineligible ones are dropped. */
  function RewriteKept(v: Variant, es: seq<Expr>): seq<Expr>
    decreases SizeAll(es) + 1, 0
  {
    if |es| == 0 then []
    else
      (match Rewrite(v, es[0]) case Some(p) => [p] case None => []) + RewriteKept(v, es[1..])
  }

  /** The rewrites of all operands, or None as soon as one is ineligible. */
  function RewriteAll(v: Variant, es: seq<Expr>): Option<seq<Expr>>
    decreases SizeAll(es) + 1, 0
  {
    if |es| == 0 then Some([])
    else
      match Rewrite(v, es[0])
      case None => None
      case Some(p) =>
        match RewriteAll(v, es[1..])
        case None => None
        case Some(ps) => Some([p] + ps)
  }
}

/**
 The shape of the data-skipping predicate for each kind of input, as the
 rewrite's doc comment and its unit tests pin it down.
 */
module RewriteShape {
  import opened Wrappers
  import opened Expressions
  import opened Evaluation
  import opened Statistics
  import opened DataSkipping

  /** `col < v`, `col <= v` read `minValues.col`; `col > v`, `col >= v` read `maxValues.col`. */
  lemma ColumnFirstComparison(v: Variant, op: BinaryOp, col: ColumnName, val: Value)
    ensures op == LessThan || op == LessThanOrEqual ==>
      Rewrite(v, Binary(op, Column(col), Literal(val))) == Some(Binary(op, MinOf(col), Literal(val)))
    ensures op == GreaterThan || op == GreaterThanOrEqual ==>
      Rewrite(v, Binary(op, Column(col), Literal(val))) == Some(Binary(op, MaxOf(col), Literal(val)))
  {
  }

  /** `v op col` is rewritten as `col op' v` with the commuted operator, or refused if there is none. */
  lemma LiteralFirstComparison(v: Variant, op: BinaryOp, col: ColumnName, val: Value)
    ensures Commute(op).Some? ==>
      Rewrite(v, Binary(op, Literal(val), Column(col))) == Rewrite(v, Binary(Commute(op).value, Column(col), Literal(val)))
    ensures Commute(op).None? ==> Rewrite(v, Binary(op, Literal(val), Column(col))) == None
  {
  }

  /** Only a column compared with a literal, by one of the six comparisons, is eligible. */
  lemma IneligibleComparison(v: Variant, op: BinaryOp, left: Expr, right: Expr)
    requires (!(left.Column? && right.Literal?) && !(left.Literal? && right.Column?)) || !IsComparison(op)
    ensures Rewrite(v, Binary(op, left, right)) == None
  {
  }

  /** `col = v`, in either order, becomes `minValues.col <= v AND maxValues.col >= v`. */
  lemma EqualityRewrite(v: Variant, col: ColumnName, val: Value)
    ensures Rewrite(v, Binary(Equal, Column(col), Literal(val)))
         == Some(AndOf(Binary(LessThanOrEqual, MinOf(col), Literal(val)), Binary(GreaterThanOrEqual, MaxOf(col), Literal(val))))
    ensures Rewrite(v, Binary(Equal, Literal(val), Column(col))) == Rewrite(v, Binary(Equal, Column(col), Literal(val)))
  {
    var pair := [Binary(LessThanOrEqual, Column(col), Literal(val)), Binary(LessThanOrEqual, Literal(val), Column(col))];
    var low, high := Binary(LessThanOrEqual, MinOf(col), Literal(val)), Binary(GreaterThanOrEqual, MaxOf(col), Literal(val));
    assert Rewrite(v, pair[0]) == Some(low);
    assert Rewrite(v, pair[1]) == Some(high);
    assert pair[1..][1..] == [];
    assert RewriteKept(v, pair[1..][1..]) == [];
    assert RewriteKept(v, pair[1..]) == [high];
    assert RewriteKept(v, pair) == [low, high];
    assert Rewrite(v, Variadic(And, pair)) == Some(AndOf(low, high));
    assert Normalize(Equal, Literal(val), Column(col)) == Some(Comparison(Equal, col, val));
  }

  /** As written, `col != v`, in either order, becomes `minValues.col > v OR maxValues.col < v`. */
  lemma InequalityRewrite(col: ColumnName, val: Value)
    ensures Rewrite(AsWritten, Binary(NotEqual, Column(col), Literal(val)))
         == Some(OrOf(Binary(GreaterThan, MinOf(col), Literal(val)), Binary(LessThan, MaxOf(col), Literal(val))))
    ensures Rewrite(AsWritten, Binary(NotEqual, Literal(val), Column(col)))
         == Rewrite(AsWritten, Binary(NotEqual, Column(col), Literal(val)))
  {
  }

  /** The twelve cases of the rewrite's unit test, over column `a` and literal 1. */
  lemma BasicComparisonCases()
    ensures var a, one := Column(["a"]), Literal(Int(1));
            var minA, maxA := MinOf(["a"]), MaxOf(["a"]);
            && Rewrite(AsWritten, Binary(LessThan, a, one)) == Some(Binary(LessThan, minA, one))
            && Rewrite(AsWritten, Binary(LessThan, one, a)) == Some(Binary(GreaterThan, maxA, one))
            && Rewrite(AsWritten, Binary(GreaterThan, a, one)) == Some(Binary(GreaterThan, maxA, one))
            && Rewrite(AsWritten, Binary(GreaterThan, one, a)) == Some(Binary(LessThan, minA, one))
            && Rewrite(AsWritten, Binary(LessThanOrEqual, a, one)) == Some(Binary(LessThanOrEqual, minA, one))
            && Rewrite(AsWritten, Binary(LessThanOrEqual, one, a)) == Some(Binary(GreaterThanOrEqual, maxA, one))
            && Rewrite(AsWritten, Binary(GreaterThanOrEqual, a, one)) == Some(Binary(GreaterThanOrEqual, maxA, one))
            && Rewrite(AsWritten, Binary(GreaterThanOrEqual, one, a)) == Some(Binary(LessThanOrEqual, minA, one))
            && Rewrite(AsWritten, Binary(Equal, a, one)) == Some(AndOf(Binary(LessThanOrEqual, minA, one), Binary(GreaterThanOrEqual, maxA, one)))
            && Rewrite(AsWritten, Binary(Equal, one, a)) == Some(AndOf(Binary(LessThanOrEqual, minA, one), Binary(GreaterThanOrEqual, maxA, one)))
            && Rewrite(AsWritten, Binary(NotEqual, a, one)) == Some(OrOf(Binary(GreaterThan, minA, one), Binary(LessThan, maxA, one)))
            && Rewrite(AsWritten, Binary(NotEqual, one, a)) == Some(OrOf(Binary(GreaterThan, minA, one), Binary(LessThan, maxA, one)))
  {
    var a, one := ["a"], Int(1);
    ColumnFirstComparison(AsWritten, LessThan, a, one);
    ColumnFirstComparison(AsWritten, GreaterThan, a, one);
    ColumnFirstComparison(AsWritten, LessThanOrEqual, a, one);
    ColumnFirstComparison(AsWritten, GreaterThanOrEqual, a, one);
    LiteralFirstComparison(AsWritten, LessThan, a, one);
    LiteralFirstComparison(AsWritten, GreaterThan, a, one);
    LiteralFirstComparison(AsWritten, LessThanOrEqual, a, one);
    LiteralFirstComparison(AsWritten, GreaterThanOrEqual, a, one);
    EqualityRewrite(AsWritten, a, one);
    InequalityRewrite(a, one);
  }

  /** `IS NULL col` becomes the tight-or-wide null-count check; anything but a column is refused. */
  lemma IsNullRewrite(v: Variant, x: Expr)
    ensures x.Column? ==> (Rewrite(v, Unary(IsNull, x))
      == Some(OrOf(AndOf(Binary(Distinct, Column(TightBounds), Literal(Bool(false))),
                         Binary(GreaterThan, NullCountOf(x.name), Literal(Int(0)))),
                   WideNullExpr(v, NullCountOf(x.name)))))
    ensures v == AsWritten && x.Column? ==> (WideNullExpr(v, NullCountOf(x.name))
      == AndOf(Binary(Equal, Column(TightBounds), Literal(Bool(false))), Binary(Equal, Column(NumRecords), NullCountOf(x.name))))
    ensures !x.Column? ==> Rewrite(v, Unary(IsNull, x)) == None
  {
  }

  /** NOT is pushed down: double negation cancels, comparisons invert, AND/OR swap over negated operands. */
  lemma NotPushDown(v: Variant, e: Expr)
    ensures e.Unary? && e.uop == Not ==> Rewrite(v, Unary(Not, e)) == Rewrite(v, e.operand)
    ensures e.Binary? && Invert(e.bop).Some? ==>
      Rewrite(v, Unary(Not, e)) == Rewrite(v, Binary(Invert(e.bop).value, e.left, e.right))
    ensures e.Binary? && Invert(e.bop).None? ==> Rewrite(v, Unary(Not, e)) == None
    ensures e.Variadic? ==>
      Rewrite(v, Unary(Not, e)) == Rewrite(v, Variadic(InvertVariadic(e.vop), NegateAll(e.operands)))
    ensures e.Unary? && e.uop == IsNull && e.operand.Column? ==>
      Rewrite(v, Unary(Not, e)) == Some(OrOf(
        AndOf(Binary(Distinct, Column(TightBounds), Literal(Bool(false))), Binary(LessThan, NullCountOf(e.operand.name), Column(NumRecords))),
        AndOf(Binary(Equal, Column(TightBounds), Literal(Bool(false))), Binary(NotEqual, Column(NumRecords), NullCountOf(e.operand.name)))))
    ensures e.Unary? && e.uop == IsNull && !e.operand.Column? ==> Rewrite(v, Unary(Not, e)) == None
    ensures e.Column? || e.Literal? || e.Struct? ==> Rewrite(v, Unary(Not, e)) == None
  {
  }

  /** AND is always eligible: its rewrite is the AND of the eligible operands' rewrites. */
  lemma {:induction false} AndKeepsEligible(v: Variant, es: seq<Expr>)
    ensures Rewrite(v, Variadic(And, es)) == Some(Variadic(And, RewriteKept(v, es)))
    ensures |RewriteKept(v, es)| <= |es|
    ensures |RewriteKept(v, es)| == |es| <==> forall k :: 0 <= k < |es| ==> Rewrite(v, es[k]).Some?
    ensures (forall k :: 0 <= k < |es| ==> Rewrite(v, es[k]).Some?) ==>
      forall k :: 0 <= k < |es| ==> RewriteKept(v, es)[k] == Rewrite(v, es[k]).value
    decreases es
  {
    if |es| > 0 {
      AndKeepsEligible(v, es[1..]);
      forall k | 1 <= k < |es| ensures es[k] == es[1..][k - 1] { }
    }
  }

  /** Rewriting the operands of AND distributes over concatenation: each operand is kept or dropped on its own. */
  lemma {:induction false} RewriteKeptAppend(v: Variant, a: seq<Expr>, b: seq<Expr>)
    ensures RewriteKept(v, a + b) == RewriteKept(v, a) + RewriteKept(v, b)
    ensures |a| == 1 ==> RewriteKept(v, a) == (if Rewrite(v, a[0]).Some? then [Rewrite(v, a[0]).value] else [])
    decreases a
  {
    if |a| == 1 {
      assert a[1..] == [];
    }
    if |a| == 0 {
      assert a + b == b;
    } else {
      assert (a + b)[0] == a[0];
      assert (a + b)[1..] == a[1..] + b;
      RewriteKeptAppend(v, a[1..], b);
    }
  }

  /** OR is eligible exactly when every operand is, and then rewrites each operand in place. */
  lemma {:induction false} OrAllOrNothing(v: Variant, es: seq<Expr>)
    ensures Rewrite(v, Variadic(Or, es)).Some? <==> forall k :: 0 <= k < |es| ==> Rewrite(v, es[k]).Some?
    ensures Rewrite(v, Variadic(Or, es)).Some? ==>
      var r := Rewrite(v, Variadic(Or, es)).value;
      r.Variadic? && r.vop == Or && |r.operands| == |es| &&
      forall k :: 0 <= k < |es| ==> r.operands[k] == Rewrite(v, es[k]).value
    decreases es
  {
    if |es| > 0 {
      OrAllOrNothing(v, es[1..]);
      forall k | 1 <= k < |es| ensures es[k] == es[1..][k - 1] { }
    }
  }
}


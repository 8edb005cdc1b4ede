/**
 Skip soundness: whenever the data-skipping predicate evaluates to false on
 a valid statistics record, no live row of the file satisfies the query
 predicate, so skipping the file loses nothing. The corrected rewrite is
 sound for every predicate. The rewrite as written is sound for predicates
 in which no `!=` between a column and a literal survives NOT push-down; on
 statistics flagged wide, no IS NULL of a column may survive it either.
 */
module Soundness {
  import opened Wrappers
  import opened Expressions
  import opened Evaluation
  import opened Statistics
  import opened DataSkipping

  /**
   No `!=` between a column and a literal is reached once NOTs are pushed
   down: no such `!=` under an even number of NOTs and no such `=` under an
   odd number. Other comparisons with these operators are ineligible and
   dropped, which is sound.
   */
  predicate InequalityFree(e: Expr, positive: bool)
    decreases e
  {
    match e
    case Binary(op, l, r) => !(Normalize(op, l, r).Some? && op == (if positive then NotEqual else Equal))
    case Unary(Not, x) => InequalityFree(x, !positive)
    case Variadic(_, es) => forall k :: 0 <= k < |es| ==> InequalityFree(es[k], positive)
    case _ => true
  }

  /**
   No IS NULL check is reached once NOTs are pushed down: no IS NULL of a
   column under an even number of NOTs (under an odd number it becomes the IS
   NOT NULL check; IS NULL of anything else is ineligible).
   */
  predicate IsNullFree(e: Expr, positive: bool)
    decreases e
  {
    match e
    case Unary(IsNull, x) => !positive || !x.Column?
    case Unary(Not, x) => IsNullFree(x, !positive)
    case Variadic(_, es) => forall k :: 0 <= k < |es| ==> IsNullFree(es[k], positive)
    case _ => true
  }

  /**
   The inputs on which the variant's rewrite is claimed sound: every input
   for the corrected rewrite; as written, no reachable column-vs-literal
   `!=`, and either bounds that are not flagged wide or no reachable IS NULL
   of a column.
   */
  predicate Admissible(v: Variant, stats: Record, e: Expr, positive: bool) {
    v == Corrected ||
    (InequalityFree(e, positive) && (Lookup(stats, TightBounds) != Bool(false) || IsNullFree(e, positive)))
  }

  /** The IS NULL check is false only when column `c` has no null live row. */
  lemma IsNullSound(v: Variant, c: ColumnName, stats: Record, rows: seq<Record>, i: int)
    requires Describes(stats, rows) && 0 <= i < |rows|
    requires v == Corrected || Lookup(stats, TightBounds) != Bool(false)
    requires Eval(OrOf(TightNullExpr(NullCountOf(c)), WideNullExpr(v, NullCountOf(c))), stats) == Bool(false)
    ensures !Lookup(rows[i], c).Null?
  {
    var nc := NullCountOf(c);
    EvalPair(TightNullExpr(nc), WideNullExpr(v, nc), stats);
    EvalPair(Binary(Distinct, Column(TightBounds), Literal(Bool(false))), Binary(GreaterThan, nc, Literal(Int(0))), stats);
    EvalPair(Binary(Equal, Column(TightBounds), Literal(Bool(false))), Binary(GreaterThan, nc, Literal(Int(0))), stats);
    assert ColumnDescribed(stats, rows, c);
    NoNullWhenCountZero(rows, c, i);
  }

  /** The IS NOT NULL check (either variant) is false only when every live row of `c` is null. */
  lemma IsNotNullSound(c: ColumnName, stats: Record, rows: seq<Record>, i: int)
    requires Describes(stats, rows) && 0 <= i < |rows|
    requires Eval(OrOf(TightNotNullExpr(NullCountOf(c)), WideNotNullExpr(NullCountOf(c))), stats) == Bool(false)
    ensures Lookup(rows[i], c).Null?
  {
    var nc := NullCountOf(c);
    EvalPair(TightNotNullExpr(nc), WideNotNullExpr(nc), stats);
    EvalPair(Binary(Distinct, Column(TightBounds), Literal(Bool(false))), Binary(LessThan, nc, Column(NumRecords)), stats);
    EvalPair(Binary(Equal, Column(TightBounds), Literal(Bool(false))), Binary(NotEqual, Column(NumRecords), nc), stats);
    assert ColumnDescribed(stats, rows, c);
    AllNullWhenCountFull(rows, c, i);
  }

  /** A min/max comparison that is false rules out the normalised comparison on every live row. */
  lemma BoundsSound(v: Variant, op: BinaryOp, c: ColumnName, val: Value, p: Expr, stats: Record, rows: seq<Record>, i: int)
    requires Describes(stats, rows) && 0 <= i < |rows|
    requires op == LessThan || op == LessThanOrEqual ==> p == Binary(op, MinOf(c), Literal(val))
    requires op == GreaterThan || op == GreaterThanOrEqual ==> p == Binary(op, MaxOf(c), Literal(val))
    requires op == NotEqual ==> v == Corrected && p == NotEqualBounds(v, c, val)
    requires op != Equal && IsComparison(op)
    requires Eval(p, stats) == Bool(false)
    ensures Eval(Binary(op, Column(c), Literal(val)), rows[i]) != Bool(true)
  {
    assert ColumnDescribed(stats, rows, c);
    if op == NotEqual {
      EvalPair(Binary(NotEqual, MinOf(c), Literal(val)), Binary(NotEqual, MaxOf(c), Literal(val)), stats);
    }
  }

  lemma {:induction false} RewriteSound(v: Variant, e: Expr, p: Expr, stats: Record, rows: seq<Record>, i: int)
    requires Describes(stats, rows) && 0 <= i < |rows|
    requires Admissible(v, stats, e, true)
    requires Rewrite(v, e) == Some(p) && Eval(p, stats) == Bool(false)
    ensures Eval(e, rows[i]) != Bool(true)
    decreases Size(e), 2 * NotDepth(e)
  {
    match e
    case Binary(op, left, right) =>
      var cmp := Normalize(op, left, right).value;
      if cmp.op == Equal {
        EqualExpansionSize(cmp.col, cmp.val);
        var low, high := Binary(LessThanOrEqual, Column(cmp.col), Literal(cmp.val)), Binary(LessThanOrEqual, Literal(cmp.val), Column(cmp.col));
        assert InequalityFree(AndOf(low, high), true) by {
          assert [low, high][0] == low && [low, high][1] == high;
        }
        RewriteSound(v, AndOf(low, high), p, stats, rows, i);
        EvalPair(low, high, rows[i]);
      } else {
        BoundsSound(v, cmp.op, cmp.col, cmp.val, p, stats, rows, i);
      }
    case Unary(Not, x) =>
      RewriteInvertedSound(v, x, p, stats, rows, i);
    case Unary(IsNull, x) =>
      IsNullSound(v, x.name, stats, rows, i);
    case Variadic(And, es) =>
      RewriteKeptSound(v, es, stats, rows, i);
    case Variadic(Or, es) =>
      RewriteAllSound(v, es, RewriteAll(v, es).value, stats, rows, i);
  }

  lemma {:induction false} RewriteInvertedSound(v: Variant, e: Expr, p: Expr, stats: Record, rows: seq<Record>, i: int)
    requires Describes(stats, rows) && 0 <= i < |rows|
    requires Admissible(v, stats, e, false)
    requires RewriteInverted(v, e) == Some(p) && Eval(p, stats) == Bool(false)
    ensures Eval(e, rows[i]) != Bool(false)
    decreases Size(e), 2 * NotDepth(e) + 1
  {
    match e
    case Unary(Not, y) =>
      RewriteSound(v, y, p, stats, rows, i);
    case Unary(IsNull, x) =>
      IsNotNullSound(x.name, stats, rows, i);
    case Binary(op, left, right) =>
      var op' := Invert(op).value;
      RewriteSound(v, Binary(op', left, right), p, stats, rows, i);
      InvertNegates(op, Eval(left, rows[i]), Eval(right, rows[i]));
    case Variadic(op, es) =>
      SizeAllNegated(es);
      var negated := NegateAll(es);
      assert Admissible(v, stats, Variadic(InvertVariadic(op), negated), true) by {
        if v == AsWritten {
          forall k | 0 <= k < |negated| ensures InequalityFree(negated[k], true) && (IsNullFree(e, false) ==> IsNullFree(negated[k], true)) {
            assert negated[k] == Unary(Not, es[k]);
          }
        }
      }
      RewriteSound(v, Variadic(InvertVariadic(op), negated), p, stats, rows, i);
      DeMorgan(op, es, rows[i]);
  }

  lemma {:induction false} RewriteKeptSound(v: Variant, es: seq<Expr>, stats: Record, rows: seq<Record>, i: int)
    requires Describes(stats, rows) && 0 <= i < |rows|
    requires forall k :: 0 <= k < |es| ==> Admissible(v, stats, es[k], true)
    requires EvalAnd(RewriteKept(v, es), stats) == Bool(false)
    ensures EvalAnd(es, rows[i]) != Bool(true)
    decreases SizeAll(es) + 1, 0
  {
    if |es| > 0 {
      var rest := RewriteKept(v, es[1..]);
      assert forall k :: 0 <= k < |es[1..]| ==> Admissible(v, stats, es[1..][k], true) by {
        forall k | 0 <= k < |es[1..]| ensures Admissible(v, stats, es[1..][k], true) {
          assert es[1..][k] == es[k + 1];
        }
      }
      match Rewrite(v, es[0])
      case None =>
        assert RewriteKept(v, es) == rest;
        RewriteKeptSound(v, es[1..], stats, rows, i);
      case Some(q) =>
        assert RewriteKept(v, es) == [q] + rest;
        assert ([q] + rest)[1..] == rest;
        if Eval(q, stats) == Bool(false) {
          RewriteSound(v, es[0], q, stats, rows, i);
        } else {
          RewriteKeptSound(v, es[1..], stats, rows, i);
        }
    }
  }

  lemma {:induction false} RewriteAllSound(v: Variant, es: seq<Expr>, ps: seq<Expr>, stats: Record, rows: seq<Record>, i: int)
    requires Describes(stats, rows) && 0 <= i < |rows|
    requires forall k :: 0 <= k < |es| ==> Admissible(v, stats, es[k], true)
    requires RewriteAll(v, es) == Some(ps) && EvalOr(ps, stats) == Bool(false)
    ensures EvalOr(es, rows[i]) != Bool(true)
    decreases SizeAll(es) + 1, 0
  {
    if |es| > 0 {
      assert forall k :: 0 <= k < |es[1..]| ==> Admissible(v, stats, es[1..][k], true) by {
        forall k | 0 <= k < |es[1..]| ensures Admissible(v, stats, es[1..][k], true) {
          assert es[1..][k] == es[k + 1];
        }
      }
      var q := Rewrite(v, es[0]).value;
      var rest := RewriteAll(v, es[1..]).value;
      assert ps == [q] + rest;
      assert ps[1..] == rest;
      RewriteSound(v, es[0], q, stats, rows, i);
      RewriteAllSound(v, es[1..], rest, stats, rows, i);
    }
  }

  /**
   The corrected rewrite is sound: if its predicate is false on a valid
   statistics record, no live row satisfies the query predicate.
   */
  lemma SkipSound(e: Expr, p: Expr, stats: Record, rows: seq<Record>)
    requires Rewrite(Corrected, e) == Some(p)
    requires Describes(stats, rows)
    requires Eval(p, stats) == Bool(false)
    ensures forall i :: 0 <= i < |rows| ==> Eval(e, rows[i]) != Bool(true)
  {
    forall i | 0 <= i < |rows| ensures Eval(e, rows[i]) != Bool(true) {
      RewriteSound(Corrected, e, p, stats, rows, i);
    }
  }

  /**
   The rewrite as written is sound for predicates where no `!=` between a
   column and a literal survives NOT push-down, on statistics with tight
   bounds (or no `tightBounds` flag), and on wide statistics too when no IS
   NULL of a column survives NOT push-down.
   */
  lemma SkipSoundAsWritten(e: Expr, p: Expr, stats: Record, rows: seq<Record>)
    requires Rewrite(AsWritten, e) == Some(p)
    requires InequalityFree(e, true) && (Lookup(stats, TightBounds) != Bool(false) || IsNullFree(e, true))
    requires Describes(stats, rows)
    requires Eval(p, stats) == Bool(false)
    ensures forall i :: 0 <= i < |rows| ==> Eval(e, rows[i]) != Bool(true)
  {
    forall i | 0 <= i < |rows| ensures Eval(e, rows[i]) != Bool(true) {
      RewriteSound(AsWritten, e, p, stats, rows, i);
    }
  }
}

/**
 The skipping predicate reads only statistics fields, and only those of
 columns the query predicate references. An expression's value depends on
 nothing but the columns it references, so a statistics record parsed
 against a schema that keeps those fields gives the same value.
 */
module RewriteReads {
  import opened Wrappers
  import opened Expressions
  import opened Evaluation
  import opened Statistics
  import opened DataSkipping

  /** `c` is `numRecords`, `tightBounds`, or a per-column statistic of a column in `refs`. */
  predicate StatsColumnFor(c: ColumnName, refs: set<ColumnName>) {
    c == NumRecords || c == TightBounds ||
    (|c| >= 1 && c[0] in {"minValues", "maxValues", "nullCount"} && c[1..] in refs)
  }

  predicate ReadsStatsOf(es: set<ColumnName>, refs: set<ColumnName>) {
    forall c :: c in es ==> StatsColumnFor(c, refs)
  }

  lemma ReferencesCons(p: Expr, rest: seq<Expr>)
    ensures ReferencesAll([p] + rest) == References(p) + ReferencesAll(rest)
  {
    assert ([p] + rest)[1..] == rest;
  }

  lemma {:induction false} ReferencesNegated(es: seq<Expr>)
    ensures ReferencesAll(NegateAll(es)) == ReferencesAll(es)
    decreases es
  {
    if |es| > 0 {
      assert NegateAll(es)[1..] == NegateAll(es[1..]);
      ReferencesNegated(es[1..]);
    }
  }

  /** An expression's value depends only on the columns it references. */
  lemma {:induction false} EvalLocal(e: Expr, r1: Record, r2: Record)
    requires forall c :: c in References(e) ==> Lookup(r1, c) == Lookup(r2, c)
    ensures Eval(e, r1) == Eval(e, r2)
    decreases e
  {
    match e
    case Column(_) =>
    case Literal(_) =>
    case Struct(_) =>
    case Unary(_, x) =>
      EvalLocal(x, r1, r2);
    case Binary(_, a, b) =>
      EvalLocal(a, r1, r2);
      EvalLocal(b, r1, r2);
    case Variadic(_, es) =>
      EvalAllLocal(es, r1, r2);
  }

  lemma {:induction false} EvalAllLocal(es: seq<Expr>, r1: Record, r2: Record)
    requires forall c :: c in ReferencesAll(es) ==> Lookup(r1, c) == Lookup(r2, c)
    ensures EvalAnd(es, r1) == EvalAnd(es, r2) && EvalOr(es, r1) == EvalOr(es, r2)
    decreases es
  {
    if |es| > 0 {
      EvalLocal(es[0], r1, r2);
      EvalAllLocal(es[1..], r1, r2);
    }
  }

  /** A two-operand AND or OR references what its operands reference. */
  lemma PairReferences(op: VariadicOp, a: Expr, b: Expr)
    ensures References(Variadic(op, [a, b])) == References(a) + References(b)
  {
    ReferencesCons(a, [b]);
    ReferencesCons(b, []);
    assert [a] + [b] == [a, b] && [b] + [] == [b];
  }

  lemma StatisticOfReferenced(prefix: string, col: ColumnName, refs: set<ColumnName>)
    requires prefix in {"minValues", "maxValues", "nullCount"} && col in refs
    ensures StatsColumnFor(Joined(prefix, col), refs)
  {
    assert Joined(prefix, col)[1..] == col;
  }

  lemma NotEqualBoundsReads(v: Variant, col: ColumnName, val: Value, refs: set<ColumnName>)
    requires col in refs
    ensures ReadsStatsOf(References(NotEqualBounds(v, col, val)), refs)
  {
    StatisticOfReferenced("minValues", col, refs);
    StatisticOfReferenced("maxValues", col, refs);
    match v
    case AsWritten =>
      PairReferences(Or, Binary(GreaterThan, MinOf(col), Literal(val)), Binary(LessThan, MaxOf(col), Literal(val)));
    case Corrected =>
      PairReferences(Or, Binary(NotEqual, MinOf(col), Literal(val)), Binary(NotEqual, MaxOf(col), Literal(val)));
  }

  lemma NullCheckReads(v: Variant, col: ColumnName, refs: set<ColumnName>)
    requires col in refs
    ensures ReadsStatsOf(References(OrOf(TightNullExpr(NullCountOf(col)), WideNullExpr(v, NullCountOf(col)))), refs)
  {
    var nc := NullCountOf(col);
    StatisticOfReferenced("nullCount", col, refs);
    PairReferences(Or, TightNullExpr(nc), WideNullExpr(v, nc));
    PairReferences(And, Binary(Distinct, Column(TightBounds), Literal(Bool(false))), Binary(GreaterThan, nc, Literal(Int(0))));
    PairReferences(And, Binary(Equal, Column(TightBounds), Literal(Bool(false))), WideNullExpr(v, nc).operands[1]);
  }

  lemma NotNullCheckReads(col: ColumnName, refs: set<ColumnName>)
    requires col in refs
    ensures ReadsStatsOf(References(OrOf(TightNotNullExpr(NullCountOf(col)), WideNotNullExpr(NullCountOf(col)))), refs)
  {
    var nc := NullCountOf(col);
    StatisticOfReferenced("nullCount", col, refs);
    PairReferences(Or, TightNotNullExpr(nc), WideNotNullExpr(nc));
    PairReferences(And, Binary(Distinct, Column(TightBounds), Literal(Bool(false))), Binary(LessThan, nc, Column(NumRecords)));
    PairReferences(And, Binary(Equal, Column(TightBounds), Literal(Bool(false))), Binary(NotEqual, Column(NumRecords), nc));
  }

  lemma {:induction false} RewriteReadsStatistics(v: Variant, e: Expr, p: Expr)
    requires Rewrite(v, e) == Some(p)
    ensures ReadsStatsOf(References(p), References(e))
    decreases Size(e), 2 * NotDepth(e)
  {
    match e
    case Binary(op, left, right) =>
      var cmp := Normalize(op, left, right).value;
      assert cmp.col in References(e);
      if cmp.op == Equal {
        EqualExpansionSize(cmp.col, cmp.val);
        var low, high := Binary(LessThanOrEqual, Column(cmp.col), Literal(cmp.val)), Binary(LessThanOrEqual, Literal(cmp.val), Column(cmp.col));
        RewriteReadsStatistics(v, AndOf(low, high), p);
        PairReferences(And, low, high);
      } else if cmp.op == NotEqual {
        NotEqualBoundsReads(v, cmp.col, cmp.val, References(e));
      } else {
        StatisticOfReferenced("minValues", cmp.col, References(e));
        StatisticOfReferenced("maxValues", cmp.col, References(e));
      }
    case Unary(Not, x) =>
      RewriteInvertedReadsStatistics(v, x, p);
    case Unary(IsNull, x) =>
      assert References(e) == References(x) == {x.name};
      NullCheckReads(v, x.name, References(e));
    case Variadic(And, es) =>
      RewriteKeptReadsStatistics(v, es);
    case Variadic(Or, es) =>
      RewriteAllReadsStatistics(v, es, RewriteAll(v, es).value);
  }

  lemma {:induction false} RewriteInvertedReadsStatistics(v: Variant, e: Expr, p: Expr)
    requires RewriteInverted(v, e) == Some(p)
    ensures ReadsStatsOf(References(p), References(e))
    decreases Size(e), 2 * NotDepth(e) + 1
  {
    match e
    case Unary(Not, y) =>
      RewriteReadsStatistics(v, y, p);
    case Unary(IsNull, x) =>
      assert References(e) == References(x) == {x.name};
      NotNullCheckReads(x.name, References(e));
    case Binary(op, left, right) =>
      RewriteReadsStatistics(v, Binary(Invert(op).value, left, right), p);
    case Variadic(op, es) =>
      SizeAllNegated(es);
      ReferencesNegated(es);
      RewriteReadsStatistics(v, Variadic(InvertVariadic(op), NegateAll(es)), p);
  }

  lemma {:induction false} RewriteKeptReadsStatistics(v: Variant, es: seq<Expr>)
    ensures ReadsStatsOf(ReferencesAll(RewriteKept(v, es)), ReferencesAll(es))
    decreases SizeAll(es) + 1, 0
  {
    if |es| > 0 {
      RewriteKeptReadsStatistics(v, es[1..]);
      var rest := RewriteKept(v, es[1..]);
      match Rewrite(v, es[0])
      case None =>
        assert RewriteKept(v, es) == rest;
      case Some(q) =>
        RewriteReadsStatistics(v, es[0], q);
        assert RewriteKept(v, es) == [q] + rest;
        ReferencesCons(q, rest);
    }
  }

  lemma {:induction false} RewriteAllReadsStatistics(v: Variant, es: seq<Expr>, ps: seq<Expr>)
    requires RewriteAll(v, es) == Some(ps)
    ensures ReadsStatsOf(ReferencesAll(ps), ReferencesAll(es))
    decreases SizeAll(es) + 1, 0
  {
    if |es| > 0 {
      var q := Rewrite(v, es[0]).value;
      var rest := RewriteAll(v, es[1..]).value;
      RewriteReadsStatistics(v, es[0], q);
      RewriteAllReadsStatistics(v, es[1..], rest);
      assert ps == [q] + rest;
      ReferencesCons(q, rest);
    }
  }
}

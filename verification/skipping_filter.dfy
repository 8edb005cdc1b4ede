/**
 The decision layer around the rewrite (`DataSkippingFilter`): when a filter
 is built at all, and which add actions it keeps. Evaluating expressions
 over engine data is replaced by the three-valued evaluator. The stats
 string of each add action is taken as already parsed, and the filter reads
 it through the stats schema: only the statistics of the selected table
 fields survive parsing.
 */
module SkippingFilter {
  import opened Wrappers
  import opened Expressions
  import opened Evaluation
  import opened Statistics
  import opened DataSkipping
  import opened Soundness
  import opened RewriteReads

  /** A built filter: the top-level table fields whose statistics are read, and the skipping predicate. */
  datatype Filter = Filter(dataFields: seq<string>, skipping: Expr)

  /** An add action as the filter sees it: a path and its parsed statistics, if it has any. */
  datatype AddAction = AddAction(path: string, stats: Option<Record>)

  /** Missing statistics parse to a record in which every field is null. */
  function ParsedStats(a: AddAction): Record {
    a.stats.GetOr(map[])
  }

  /** The field of the skipping evaluator's output struct. */
  const PredicateColumn: ColumnName := ["predicate"]

  /** `column("predicate") IS DISTINCT FROM false`: keep unless the predicate is definitely false. */
  const FilterExpr: Expr := Binary(Distinct, Column(PredicateColumn), Literal(Bool(false)))

  /** The table fields, in schema order, that the predicate references as top-level columns. */
  function ReferencedFields(fields: seq<string>, refs: set<ColumnName>): (r: seq<string>)
    ensures forall f :: f in r <==> f in fields && [f] in refs
    ensures |r| <= |fields|
    decreases fields
  {
    if |fields| == 0 then []
    else (if [fields[0]] in refs then [fields[0]] else []) + ReferencedFields(fields[1..], refs)
  }

  /**
   `DataSkippingFilter::new`: no filter without a predicate, when the
   predicate references no top-level table field, or when the predicate is
   not eligible for data skipping.
   */
  function NewFilter(v: Variant, tableFields: seq<string>, query: Option<Expr>): (r: Option<Filter>)
    ensures r.Some? <==>
      && query.Some?
      && (exists f :: f in tableFields && [f] in References(query.value))
      && Rewrite(v, query.value).Some?
    ensures r.Some? ==>
      && r.value.skipping == Rewrite(v, query.value).value
      && (forall f :: f in r.value.dataFields <==> f in tableFields && [f] in References(query.value))
  {
    match query
    case None => None
    case Some(p) =>
      var dataFields := ReferencedFields(tableFields, References(p));
      if |dataFields| == 0 then None
      else
        assert dataFields[0] in dataFields;
        match Rewrite(v, p)
        case None => None
        case Some(s) => Some(Filter(dataFields, s))
  }

  /**
   Whether a file with statistics `stats` passes: no filter keeps every file;
   a filter evaluates its skipping predicate on the statistics parsed against
   its stats schema, then `FilterExpr` on the result.
   */
  function Keeps(filter: Option<Filter>, stats: Record): bool {
    match filter
    case None => true
    case Some(f) =>
      Eval(FilterExpr, map[PredicateColumn := Eval(f.skipping, StatsView(stats, f.dataFields))]) == Bool(true)
  }

  /**
   `DataSkippingFilter::apply`: one selection entry per add action, the keep
   decision for its statistics, which is true exactly when the skipping
   predicate is not false on the statistics parsed against the stats schema.
   */
  method Apply(f: Filter, actions: seq<AddAction>) returns (selection: seq<bool>)
    ensures |selection| == |actions|
    ensures forall i :: 0 <= i < |actions| ==> selection[i] == Keeps(Some(f), ParsedStats(actions[i]))
    ensures forall i :: 0 <= i < |actions| ==>
      (selection[i] <==> Eval(f.skipping, StatsView(ParsedStats(actions[i]), f.dataFields)) != Bool(false))
  {
    selection := [];
    var i := 0;
    while i < |actions|
      invariant 0 <= i <= |actions|
      invariant |selection| == i
      invariant forall j :: 0 <= j < i ==> selection[j] == Keeps(Some(f), ParsedStats(actions[j]))
      invariant forall j :: 0 <= j < i ==>
        (selection[j] <==> Eval(f.skipping, StatsView(ParsedStats(actions[j]), f.dataFields)) != Bool(false))
    {
      selection := selection + [Keeps(Some(f), ParsedStats(actions[i]))];
      i := i + 1;
    }
  }

  /** The skipping predicate is always a truth value or null, so "not false" means "true or null". */
  lemma {:induction false} RewriteIsTruthValued(v: Variant, e: Expr, p: Expr, r: Record)
    requires Rewrite(v, e) == Some(p)
    ensures Eval(p, r).Bool? || Eval(p, r).Null?
    decreases Size(e), 2 * NotDepth(e)
  {
    match e
    case Unary(Not, x) => RewriteInvertedIsTruthValued(v, x, p, r);
    case Variadic(_, es) =>
    case Unary(IsNull, x) =>
    case Binary(_, _, _) =>
  }

  lemma {:induction false} RewriteInvertedIsTruthValued(v: Variant, e: Expr, p: Expr, r: Record)
    requires RewriteInverted(v, e) == Some(p)
    ensures Eval(p, r).Bool? || Eval(p, r).Null?
    decreases Size(e), 2 * NotDepth(e) + 1
  {
    match e
    case Unary(Not, y) => RewriteIsTruthValued(v, y, p, r);
    case Unary(IsNull, x) =>
    case Binary(op, left, right) => RewriteIsTruthValued(v, Binary(Invert(op).value, left, right), p, r);
    case Variadic(op, es) =>
      SizeAllNegated(es);
      RewriteIsTruthValued(v, Variadic(InvertVariadic(op), NegateAll(es)), p, r);
  }

  /** A built filter keeps a file exactly when its skipping predicate is true or null on the parsed statistics. */
  lemma KeepRule(v: Variant, tableFields: seq<string>, query: Option<Expr>, stats: Record)
    requires NewFilter(v, tableFields, query).Some?
    ensures var f := NewFilter(v, tableFields, query).value;
      var parsed := StatsView(stats, f.dataFields);
      Keeps(Some(f), stats) <==> Eval(f.skipping, parsed) == Bool(true) || Eval(f.skipping, parsed).Null?
  {
    var f := NewFilter(v, tableFields, query).value;
    RewriteIsTruthValued(v, query.value, f.skipping, StatsView(stats, f.dataFields));
  }

  /**
   When every column the predicate references is a top-level table field,
   the stats schema keeps every statistic the skipping predicate reads, so
   parsing loses nothing: the predicate has the same value on the parsed and
   on the full statistics.
   */
  lemma ParsingKeepsWhatIsRead(v: Variant, tableFields: seq<string>, query: Expr, stats: Record)
    requires forall c :: c in References(query) ==> |c| == 1 && c[0] in tableFields
    requires NewFilter(v, tableFields, Some(query)).Some?
    ensures var f := NewFilter(v, tableFields, Some(query)).value;
      Eval(f.skipping, StatsView(stats, f.dataFields)) == Eval(f.skipping, stats)
  {
    var f := NewFilter(v, tableFields, Some(query)).value;
    var view := StatsView(stats, f.dataFields);
    RewriteReadsStatistics(v, query, f.skipping);
    forall c | c in References(f.skipping) ensures Lookup(view, c) == Lookup(stats, c) {
      assert StatsColumnFor(c, References(query));
      if c != NumRecords && c != TightBounds {
        var g := c[1];
        assert c[1..] == [g] && [g] in References(query) && g in tableFields;
        assert g in f.dataFields;
        assert InStatsSchema(c, f.dataFields);
      }
    }
    EvalLocal(f.skipping, view, stats);
  }

  /** A file a filter drops is one on whose parsed statistics the skipping predicate is false. */
  lemma DroppedMeansFalse(f: Filter, stats: Record)
    requires !Keeps(Some(f), stats)
    ensures Eval(f.skipping, StatsView(stats, f.dataFields)) == Bool(false)
  {
    var value := Eval(f.skipping, StatsView(stats, f.dataFields));
    assert Eval(FilterExpr, map[PredicateColumn := value]) == Bool(value != Bool(false));
  }

  /**
   With the corrected rewrite, a file the filter drops has no live row
   satisfying the predicate, for any valid statistics of that file.
   */
  lemma FilterSound(tableFields: seq<string>, query: Expr, stats: Record, rows: seq<Record>)
    requires Describes(stats, rows)
    requires !Keeps(NewFilter(Corrected, tableFields, Some(query)), stats)
    ensures forall i :: 0 <= i < |rows| ==> Eval(query, rows[i]) != Bool(true)
  {
    var f := NewFilter(Corrected, tableFields, Some(query)).value;
    DroppedMeansFalse(f, stats);
    ViewDescribes(stats, f.dataFields, rows);
    SkipSound(query, f.skipping, StatsView(stats, f.dataFields), rows);
  }

  /**
   The same for the rewrite as written, for predicates without a reachable
   `!=` between a column and a literal, on statistics not flagged wide or for
   predicates without a reachable IS NULL of a column.
   */
  lemma FilterSoundAsWritten(tableFields: seq<string>, query: Expr, stats: Record, rows: seq<Record>)
    requires Describes(stats, rows)
    requires InequalityFree(query, true) && (Lookup(stats, TightBounds) != Bool(false) || IsNullFree(query, true))
    requires !Keeps(NewFilter(AsWritten, tableFields, Some(query)), stats)
    ensures forall i :: 0 <= i < |rows| ==> Eval(query, rows[i]) != Bool(true)
  {
    var f := NewFilter(AsWritten, tableFields, Some(query)).value;
    DroppedMeansFalse(f, stats);
    ViewDescribes(stats, f.dataFields, rows);
    SkipSoundAsWritten(query, f.skipping, StatsView(stats, f.dataFields), rows);
  }
}

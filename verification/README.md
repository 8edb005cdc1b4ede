# Data skipping for a Delta table scan, in Dafny

This project models the data-skipping rewrite of the Delta kernel
(`kernel/src/scan/data_skipping.rs`). The rewrite turns a query predicate over
table columns into a predicate over the per-file statistics of the Delta Lake
transaction log protocol. Those statistics are `numRecords`, `tightBounds`,
`nullCount.<col>`, `minValues.<col>` and `maxValues.<col>`. A file may be
skipped when that predicate is false on the file's statistics.

The model has these parts:

- `Expressions`: the expression tree, with columns, literals, NOT, IS NULL,
  binary operators and AND/OR. It also holds the operator commute and invert
  tables, and column references.
- `Evaluation`: a three-valued (true/false/null) evaluator. It gives a
  predicate its meaning on a table row and on a statistics record alike.
- `Statistics`: the statistics record layout, and `Describes(stats, rows)`,
  which says when a statistics record is valid for a file's live rows.
- `DataSkipping`: `Rewrite` (`as_data_skipping_predicate`) and
  `RewriteInverted` (`as_inverted_data_skipping_predicate`), plus the four
  null-count helper expressions. Both functions follow the code step by step.
  An `=` recurses on a rebuilt AND. A NOT over a comparison, AND or OR recurses
  on a rebuilt expression. Termination uses a size in which NOT weighs nothing
  and `=`/`!=` weigh enough to pay for their expansion. The root NOT-depth
  breaks ties.
- `RewriteShape` and `RewriteReads`: the output shape the unit tests pin down,
  and which statistics columns the output reads.
- `Soundness`: if the skipping predicate is false on valid statistics, then no
  live row satisfies the query predicate.
- `Findings`: concrete files that the rewrite as written skips wrongly.
- `SkippingFilter`: `DataSkippingFilter::new` and `apply`. This covers when a
  filter is built, how statistics are read through the stats schema built
  from the referenced table fields, and the keep rule
  `predicate IS DISTINCT FROM false`.

`Variant` selects between the code as written (`AsWritten`) and a corrected
version (`Corrected`). They differ only in two rewrites, both described under
Findings. Everything else is shared.

Where the doc comment and the code disagree, the model follows the code. The
comment at `data_skipping.rs:97` says `1 < a` becomes `minValues.a > 1`. The
code (line 117) and the unit test (lines 323-326) give `maxValues.a > 1`.

## Model

| member | source | states |
|---|---|---|
| Expressions.CommuteInvolution | kernel/src/scan/data_skipping.rs:115-117 | only the six comparisons can be commuted, and commuting twice gives back the original operator |
| Expressions.InvertInvolution | kernel/src/scan/data_skipping.rs:80-82 | only the six comparisons can be inverted, inverting twice gives back the original operator, and no operator is its own inverse |
| Evaluation.CommuteSwapsOperands | kernel/src/scan/data_skipping.rs:117 | `y op' x` has the same three-valued value as `x op y` when `op'` is the commuted operator |
| Evaluation.InvertNegates | kernel/src/scan/data_skipping.rs:80-82 | the inverted operator computes exactly the three-valued NOT of the original comparison |
| Evaluation.EvalAndMeaning | kernel/src/scan/data_skipping.rs:155-158 | the n-ary AND built from the kept operands is false exactly when some operand is false, and true exactly when all are |
| Evaluation.EvalOrMeaning | kernel/src/scan/data_skipping.rs:155-160 | the n-ary OR is true exactly when some operand is true, and false exactly when all are |
| Evaluation.DeMorgan | kernel/src/scan/data_skipping.rs:84-87 | NOT of AND/OR equals OR/AND of the negated operands, in three-valued logic |
| DataSkipping.Normalize | kernel/src/scan/data_skipping.rs:115-119 | a comparison is normalised exactly when it is column-vs-literal, or literal-vs-column with a commutable operator; the normalised `col op v` has the same value as the original on every record |
| RewriteShape.ColumnFirstComparison | kernel/src/scan/data_skipping.rs:120-137 | `col < v` and `col <= v` keep their operator on `minValues.col`; `col > v` and `col >= v` keep theirs on `maxValues.col`; the literal is unchanged |
| RewriteShape.LiteralFirstComparison | kernel/src/scan/data_skipping.rs:115-118 | `v op col` rewrites like `col op' v` with the commuted operator, or is ineligible when there is none |
| RewriteShape.IneligibleComparison | kernel/src/scan/data_skipping.rs:115-135 | every other operand pair, and every operator that is not a comparison, is ineligible |
| RewriteShape.EqualityRewrite | kernel/src/scan/data_skipping.rs:123-128 | `col = v`, in either operand order, becomes `minValues.col <= v AND maxValues.col >= v` |
| RewriteShape.InequalityRewrite | kernel/src/scan/data_skipping.rs:129-134 | as written, `col != v`, in either operand order, becomes `minValues.col > v OR maxValues.col < v` |
| RewriteShape.BasicComparisonCases | kernel/src/scan/data_skipping.rs:311-385 | the twelve expected rewrites of the unit test over column `a` and literal 1 |
| RewriteShape.IsNullRewrite | kernel/src/scan/data_skipping.rs:141-153 | `IS NULL col` becomes the OR of the tight check (`tightBounds IS DISTINCT FROM false AND nullCount.col > 0`) and the wide check (`tightBounds = false AND numRecords = nullCount.col`); IS NULL of a non-column is ineligible |
| RewriteShape.NotPushDown | kernel/src/scan/data_skipping.rs:59-90 | under NOT: double negation cancels; a comparison is inverted or ineligible; AND/OR become OR/AND of negated operands; IS NULL becomes the tight/wide not-null check; anything else is ineligible |
| RewriteShape.AndKeepsEligible | kernel/src/scan/data_skipping.rs:155-158 | AND is always eligible; its operands are the rewrites of the eligible operands, never more than the input; the count matches the input exactly when all operands are eligible, and then each operand is rewritten in its own position |
| RewriteShape.RewriteKeptAppend | kernel/src/scan/data_skipping.rs:156-158 | the kept rewrites of a concatenation are the concatenation of the kept rewrites, and one operand yields its rewrite when eligible and nothing otherwise, so each operand is kept or dropped on its own, in order |
| RewriteShape.OrAllOrNothing | kernel/src/scan/data_skipping.rs:155-160 | OR is eligible exactly when every operand is; then it is the OR of the operands' rewrites, position by position |
| RewriteReads.RewriteReadsStatistics | kernel/src/scan/data_skipping.rs:108-164 | the skipping predicate reads only `numRecords`, `tightBounds`, and `minValues`/`maxValues`/`nullCount` of columns that the query predicate references |
| RewriteReads.RewriteInvertedReadsStatistics | kernel/src/scan/data_skipping.rs:59-90 | the same, for the rewrite under NOT |
| RewriteReads.RewriteKeptReadsStatistics | kernel/src/scan/data_skipping.rs:155-158 | the same, for the kept AND operands |
| RewriteReads.RewriteAllReadsStatistics | kernel/src/scan/data_skipping.rs:155-159 | the same, for the OR operands |
| RewriteReads.EvalLocal | kernel/src/scan/data_skipping.rs:194-197 | an expression has the same value on any two records that agree on the columns it references, which is why a stats schema built from the references suffices |
| RewriteReads.EvalAllLocal | kernel/src/scan/data_skipping.rs:194-197 | the same, for the AND and the OR of a list of expressions |
| Statistics.NoNullWhenCountZero | kernel/src/scan/data_skipping.rs:17-25 | a null count of zero means no row of the column is null |
| Statistics.AllNullWhenCountFull | kernel/src/scan/data_skipping.rs:48-57 | a null count equal to the row count means every row of the column is null |
| Statistics.StatsView | kernel/src/scan/data_skipping.rs:224-230 | statistics parsed against the stats schema keep `numRecords`, `tightBounds`, and the min, max and null count of anything under a selected table field; every other statistic reads as null |
| Statistics.ViewDescribes | kernel/src/scan/data_skipping.rs:224-230 | statistics that are valid for a file's live rows stay valid after parsing against the stats schema |
| Soundness.IsNullSound | kernel/src/scan/data_skipping.rs:17-36 | the IS NULL check is false on valid statistics only if no live row of the column is null; this holds for the corrected variant always, and as written only when bounds are not flagged wide |
| Soundness.IsNotNullSound | kernel/src/scan/data_skipping.rs:38-57 | the IS NOT NULL check is false on valid statistics only if every live row of the column is null, tight or wide |
| Soundness.BoundsSound | kernel/src/scan/data_skipping.rs:120-137 | a false `minValues`/`maxValues` comparison, or a false corrected `!=` bounds check, rules out the comparison on every live row |
| Soundness.RewriteSound | kernel/src/scan/data_skipping.rs:108-164 | a skipping predicate that is false on valid statistics means that no live row satisfies the input (for the variant's admissible inputs) |
| Soundness.RewriteInvertedSound | kernel/src/scan/data_skipping.rs:59-90 | a false inverted skipping predicate means that no live row makes the input false, so none satisfies its NOT |
| Soundness.RewriteKeptSound | kernel/src/scan/data_skipping.rs:155-158 | a false AND of the kept rewrites means that no live row satisfies the AND of all operands, including the dropped ones |
| Soundness.RewriteAllSound | kernel/src/scan/data_skipping.rs:155-160 | a false OR of the rewrites means that no live row satisfies any operand |
| Soundness.SkipSound | kernel/src/scan/data_skipping.rs:232-242 | corrected rewrite: if the skipping predicate is false on valid statistics, no live row satisfies the query predicate |
| Soundness.SkipSoundAsWritten | kernel/src/scan/data_skipping.rs:232-242 | rewrite as written: the same, for predicates where no `!=` between a column and a literal survives NOT push-down, on statistics not flagged wide or, when no IS NULL of a column survives NOT push-down either, on any valid statistics |
| Findings.NotEqualSkipsMatchingRow | kernel/src/scan/data_skipping.rs:129-134 | as written, `a != 1` and `NOT (a = 1)` give a false skipping predicate on valid statistics of a file whose row `a = 0` satisfies them |
| Findings.WideIsNullSkipsNullRow | kernel/src/scan/data_skipping.rs:27-36 | as written, `a IS NULL` gives a false skipping predicate on valid wide statistics of a file with a null `a` |
| Findings.CorrectedNotEqualKeepsFile | kernel/src/scan/data_skipping.rs:129-134 | the corrected `!=` check is true on that file's statistics |
| Findings.CorrectedIsNullKeepsFile | kernel/src/scan/data_skipping.rs:27-36 | the corrected wide IS NULL check is true on that file's statistics |
| SkippingFilter.ReferencedFields | kernel/src/scan/data_skipping.rs:194-204 | the stats fields are exactly the table fields whose top-level name the predicate references |
| SkippingFilter.NewFilter | kernel/src/scan/data_skipping.rs:175-208 | a filter is built exactly when there is a predicate, it references some top-level table field, and it is eligible; the filter holds its rewrite and exactly the referenced fields |
| SkippingFilter.Apply | kernel/src/scan/data_skipping.rs:271-296 | one selection entry per add action, equal to the filter's keep decision for that action, which is true exactly when the skipping predicate is not false on the action's statistics parsed against the stats schema (missing statistics read as all null) |
| SkippingFilter.RewriteIsTruthValued | kernel/src/scan/data_skipping.rs:236-239 | every skipping predicate evaluates to true, false or null |
| SkippingFilter.RewriteInvertedIsTruthValued | kernel/src/scan/data_skipping.rs:59-90 | the same, for the rewrite under NOT |
| SkippingFilter.KeepRule | kernel/src/scan/data_skipping.rs:241-242 | a built filter keeps a file exactly when its skipping predicate is true or null on the parsed statistics |
| SkippingFilter.DroppedMeansFalse | kernel/src/scan/data_skipping.rs:241-242 | a file the filter drops is one on whose parsed statistics the skipping predicate is definitely false |
| SkippingFilter.ParsingKeepsWhatIsRead | kernel/src/scan/data_skipping.rs:194-230 | when every column the predicate references is a top-level table field, the skipping predicate has the same value on the parsed statistics as on the full statistics |
| SkippingFilter.FilterSound | kernel/src/scan/data_skipping.rs:232-242 | with the corrected rewrite, a file the filter does not keep has no live row satisfying the predicate, given statistics valid for the file |
| SkippingFilter.FilterSoundAsWritten | kernel/src/scan/data_skipping.rs:232-242 | the same for the rewrite as written, for predicates without a reachable `!=` between a column and a literal, on statistics not flagged wide or for predicates without a reachable IS NULL of a column |

## Findings

| source | as written | input that shows it | evidently intended | confidence | as-written member | corrected member |
|---|---|---|---|---|---|---|
| kernel/src/scan/data_skipping.rs:129-134 | `col != v` becomes `minValues.col > v OR maxValues.col < v`. That is false whenever `min <= v <= max`. `NOT (col = v)` reduces to it. | `a != 1` on a file holding 0 and 2 (min 0, max 2). The predicate is false, so the file is skipped, yet row `a = 0` matches. | False only when every value equals `v`: `minValues.col != v OR maxValues.col != v` | high; not executed | Findings.NotEqualSkipsMatchingRow | Soundness.SkipSound |
| kernel/src/scan/data_skipping.rs:27-36 | With wide bounds, "could contain a null" is `numRecords = nullCount.col`, which is "every row is null" | `a IS NULL`, `tightBounds = false`, `numRecords = 2`, `nullCount.a = 1`, rows null and 5. The predicate is false, so the file is skipped, yet the first row matches. | With wide bounds too, a positive null count means a null may be present: `nullCount.col > 0` | medium; not executed | Findings.WideIsNullSkipsNullRow | Soundness.SkipSound |

`SkipSound` proves the corrected variant sound for every predicate, and
`SkippingFilter.FilterSound` lifts that to the filter.

## Left out

- `Rewrite`, `RewriteInverted`, `RewriteKept` and `RewriteAll` have no contracts
  of their own. Their behaviour is stated by the RewriteShape, RewriteReads and
  Soundness lemmas.
- Soundness.SkipSoundAsWritten: this is weaker than the doc comment at lines 236-239 promises. It excludes predicates in which a `!=` between a column and a literal (or such an `=` under NOT) is reached after NOT push-down. On statistics flagged wide, it also excludes predicates in which an IS NULL of a column is reached after push-down. Both cases are unsound as written (see Findings). Ineligible forms, such as `b != c` or `(a + 1) IS NULL`, are dropped by the rewrite and stay covered, as do wide statistics otherwise.
- SkippingFilter.FilterSoundAsWritten: restricted in the same way, for the same reason.
- `BinaryOperator::commute`/`invert`, `Expr::and`/`or`/`and_from`/`or_from`/`variadic` and `Expression::references` live in kernel/src/expressions, which is not part of this model. Their behaviour is assumed, as follows.
- `commute`: `<`↔`>` and `<=`↔`>=`, with `=` and `!=` mapping to themselves. This table agrees with the literal-first cases of the unit test (lines 318-378).
- `invert`: `<`↔`>=`, `<=`↔`>` and `=`↔`!=`. No unit test in data_skipping.rs exercises `invert` or NOT, so this table is an assumption.
- No operator other than the six comparisons commutes or inverts.
- `Expr::and`, `Expr::or`, `and_from`, `or_from` and `variadic` are modelled as building the n-ary AND/OR node from the operands exactly as given. They do not collapse an empty or one-operand list, and they do not flatten nested nodes. RewriteShape.AndKeepsEligible, RewriteShape.OrAllOrNothing and RewriteShape.NotPushDown state shapes under this assumption.
- `Expression::references` is modelled as the set of column names anywhere in the expression.
- The operator set is the six comparisons, `IS DISTINCT FROM` and four arithmetic operators, which stand for "any other operator". Arithmetic evaluates to null. The rewrite refuses every such operator, so no proved statement depends on its value.
- Typed values: literals and statistics are integers or booleans, with an explicit null. Orderings compare integers only. Rows of the modelled tables hold integers or nulls. Other Delta types are not modelled.
- The `ExpressionEvaluator` objects, `get_expression_handler`, `JsonHandler::parse_json`, `EngineData`, `extract`, `SelectionVectorVisitor`, the `LazyLock` statics, `Arc`/`Cow` and `tracing::debug` are engine plumbing. They are replaced by the three-valued evaluator. A missing statistics string parses to a record in which every field is null.
- `apply`'s error results and its length assertions (lines 275-288) cannot arise in the model, because evaluation never fails.
- The stats schema types (`NullCountStatsTransform`, the `StructType` values, the `?` on `transform_struct`) are not modelled as types. The schema's effect on parsing is modelled by `Statistics.StatsView`: a statistic outside the schema reads as null. The source's JSON parser might instead reject a record that holds such a field, or one whose field has the wrong type; that error path is not modelled.
- Nested column names are not supported by the source (TODO at line 199). The model mirrors this: only single-name references select table fields.
- Struct expressions are never eligible, and they evaluate to null.
- Log-segment resolution, log replay, protocol tracking, file-state accumulation and partition pruning are not part of this model.
- ffi/src/expressions/mod.rs only declares submodules and an FFI handle type. It has no logic to model.

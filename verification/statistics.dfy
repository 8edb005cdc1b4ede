/**
 The per-file statistics record of the Delta Lake transaction log protocol
 ("Per-file Statistics"), and what it means for such a record to describe
 the live rows of a file.
 */
module Statistics {
  import opened Expressions
  import opened Evaluation

  const NumRecords: ColumnName := ["numRecords"]
  const TightBounds: ColumnName := ["tightBounds"]

  function NullCountOf(col: ColumnName): Expr { Column(Joined("nullCount", col)) }
  function MinOf(col: ColumnName): Expr { Column(Joined("minValues", col)) }
  function MaxOf(col: ColumnName): Expr { Column(Joined("maxValues", col)) }

  /** The number of rows in which column `c` is null. */
  function NullCount(rows: seq<Record>, c: ColumnName): (n: nat)
    ensures n <= |rows|
    decreases rows
  {
    if |rows| == 0 then 0
    else (if Lookup(rows[0], c).Null? then 1 else 0) + NullCount(rows[1..], c)
  }

  /** Rows of the modelled tables hold integers (or nulls) only. */
  predicate IntegerRow(r: Record) {
    forall c :: c in r ==> !r[c].Bool?
  }

  /** `m` is absent, or no larger than any non-null value of column `c`. */
  predicate LowerBound(m: Value, rows: seq<Record>, c: ColumnName) {
    m.Null? || (m.Int? && forall i :: 0 <= i < |rows| && Lookup(rows[i], c).Int? ==> m.i <= Lookup(rows[i], c).i)
  }

  /** `m` is absent, or no smaller than any non-null value of column `c`. */
  predicate UpperBound(m: Value, rows: seq<Record>, c: ColumnName) {
    m.Null? || (m.Int? && forall i :: 0 <= i < |rows| && Lookup(rows[i], c).Int? ==> Lookup(rows[i], c).i <= m.i)
  }

  /**
   `n` is absent, or counts the nulls of `c` among the live rows plus at most
   the rows a deletion vector has removed since (the physical row count
   `total` less the live rows).
   */
  predicate NullCountBound(n: Value, total: Value, rows: seq<Record>, c: ColumnName) {
    n.Null? ||
    (n.Int? && NullCount(rows, c) <= n.i && (total.Int? ==> n.i - NullCount(rows, c) <= total.i - |rows|))
  }

  predicate ColumnDescribed(stats: Record, rows: seq<Record>, c: ColumnName) {
    && LowerBound(Lookup(stats, Joined("minValues", c)), rows, c)
    && UpperBound(Lookup(stats, Joined("maxValues", c)), rows, c)
    && NullCountBound(Lookup(stats, Joined("nullCount", c)), Lookup(stats, NumRecords), rows, c)
  }

  /**
   `stats` is a valid statistics record for a file whose live rows are
   `rows`: `numRecords`, when present, counts the physical rows (at least the
   live ones), and every column's bounds and null count are sound, whether
   the bounds are tight or wide. Any statistic may be missing.
   */
  ghost predicate Describes(stats: Record, rows: seq<Record>) {
    && (forall i :: 0 <= i < |rows| ==> IntegerRow(rows[i]))
    && (Lookup(stats, NumRecords).Null? || (Lookup(stats, NumRecords).Int? && Lookup(stats, NumRecords).i >= |rows|))
    && forall c :: ColumnDescribed(stats, rows, c)
  }

  /**
   Whether field `c` is in the stats schema built for the top-level table
   fields `fields`: `numRecords`, `tightBounds`, and the minimum, maximum and
   null count of anything under one of `fields`.
   */
  predicate InStatsSchema(c: ColumnName, fields: seq<string>) {
    c == NumRecords || c == TightBounds ||
    (|c| >= 2 && c[0] in {"minValues", "maxValues", "nullCount"} && c[1] in fields)
  }

  /** A statistics record as parsed against that schema: every field outside it reads as null. */
  function StatsView(stats: Record, fields: seq<string>): (r: Record)
    ensures forall c :: Lookup(r, c) == (if InStatsSchema(c, fields) then Lookup(stats, c) else Null)
  {
    map c | c in stats && InStatsSchema(c, fields) :: stats[c]
  }

  /** Dropping statistics keeps a valid record valid: a missing statistic promises nothing. */
  lemma ViewDescribes(stats: Record, fields: seq<string>, rows: seq<Record>)
    requires Describes(stats, rows)
    ensures Describes(StatsView(stats, fields), rows)
  {
    var view := StatsView(stats, fields);
    forall c ensures ColumnDescribed(view, rows, c) {
      assert ColumnDescribed(stats, rows, c);
    }
  }

  /** A null count of zero means no row is null. */
  lemma {:induction false} NoNullWhenCountZero(rows: seq<Record>, c: ColumnName, i: int)
    requires NullCount(rows, c) == 0 && 0 <= i < |rows|
    ensures !Lookup(rows[i], c).Null?
    decreases rows
  {
    if i > 0 {
      NoNullWhenCountZero(rows[1..], c, i - 1);
    }
  }

  /** A null count equal to the number of rows means every row is null. */
  lemma {:induction false} AllNullWhenCountFull(rows: seq<Record>, c: ColumnName, i: int)
    requires NullCount(rows, c) == |rows| && 0 <= i < |rows|
    ensures Lookup(rows[i], c).Null?
    decreases rows
  {
    if i > 0 {
      AllNullWhenCountFull(rows[1..], c, i - 1);
    }
  }
}

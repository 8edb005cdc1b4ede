/**
 Concrete files on which the rewrite as written skips a file that holds a
 matching row, and the same inputs under the corrected rewrite.
 */
module Findings {
  import opened Wrappers
  import opened Expressions
  import opened Evaluation
  import opened Statistics
  import opened DataSkipping

  /** Column `a` of a file holding the values 0 and 2, with exact tight bounds. */
  function SpreadRows(): seq<Record> {
    [map[["a"] := Int(0)], map[["a"] := Int(2)]]
  }

  function SpreadStats(): Record {
    map[Joined("minValues", ["a"]) := Int(0), Joined("maxValues", ["a"]) := Int(2),
        Joined("nullCount", ["a"]) := Int(0), NumRecords := Int(2), TightBounds := Bool(true)]
  }

  /** Column `a` of a file holding one null and one 5, with exact statistics flagged as wide. */
  function HalfNullRows(): seq<Record> {
    [map[], map[["a"] := Int(5)]]
  }

  function HalfNullWideStats(): Record {
    map[Joined("nullCount", ["a"]) := Int(1), NumRecords := Int(2), TightBounds := Bool(false)]
  }

  /** The top-level statistics field names differ from one another. */
  lemma FieldNamesDiffer()
    ensures "minValues" != "maxValues" && "minValues" != "nullCount" && "maxValues" != "nullCount"
    ensures ["numRecords"] != ["tightBounds"]
  {
    assert "minValues"[1] != "maxValues"[1];
    assert "minValues"[0] != "nullCount"[0];
    assert "maxValues"[0] != "nullCount"[0];
    assert "numRecords"[0] != "tightBounds"[0];
  }

  /** A nested statistics column name is not a top-level one, and determines its prefix and column. */
  lemma JoinedKey(prefix: string, c: ColumnName, k: ColumnName)
    requires prefix in {"minValues", "maxValues", "nullCount"}
    ensures Joined(prefix, c) != NumRecords && Joined(prefix, c) != TightBounds
    ensures |k| >= 1 && Joined(prefix, c) == k ==> k[0] == prefix && k[1..] == c
  {
    assert "minValues"[0] != "numRecords"[0] && "minValues"[0] != "tightBounds"[0];
    assert "maxValues"[0] != "numRecords"[0] && "maxValues"[0] != "tightBounds"[0];
    assert "nullCount"[2] != "numRecords"[2] && "nullCount"[0] != "tightBounds"[0];
    assert Joined(prefix, c)[0] == prefix && Joined(prefix, c)[1..] == c;
  }

  /** How the keys of the two statistics records read. */
  lemma StatsLookups(c: ColumnName)
    ensures Lookup(SpreadStats(), Joined("minValues", c)) == (if c == ["a"] then Int(0) else Null)
    ensures Lookup(SpreadStats(), Joined("maxValues", c)) == (if c == ["a"] then Int(2) else Null)
    ensures Lookup(SpreadStats(), Joined("nullCount", c)) == (if c == ["a"] then Int(0) else Null)
    ensures Lookup(SpreadStats(), NumRecords) == Int(2)
    ensures Lookup(SpreadStats(), TightBounds) == Bool(true)
    ensures Lookup(HalfNullWideStats(), Joined("minValues", c)) == Null
    ensures Lookup(HalfNullWideStats(), Joined("maxValues", c)) == Null
    ensures Lookup(HalfNullWideStats(), Joined("nullCount", c)) == (if c == ["a"] then Int(1) else Null)
    ensures Lookup(HalfNullWideStats(), NumRecords) == Int(2)
    ensures Lookup(HalfNullWideStats(), TightBounds) == Bool(false)
  {
    FieldNamesDiffer();
    JoinedKey("minValues", c, Joined("minValues", ["a"]));
    JoinedKey("minValues", c, Joined("maxValues", ["a"]));
    JoinedKey("minValues", c, Joined("nullCount", ["a"]));
    JoinedKey("maxValues", c, Joined("minValues", ["a"]));
    JoinedKey("maxValues", c, Joined("maxValues", ["a"]));
    JoinedKey("maxValues", c, Joined("nullCount", ["a"]));
    JoinedKey("nullCount", c, Joined("minValues", ["a"]));
    JoinedKey("nullCount", c, Joined("maxValues", ["a"]));
    JoinedKey("nullCount", c, Joined("nullCount", ["a"]));
    JoinedKey("nullCount", ["a"], NumRecords);
    JoinedKey("minValues", ["a"], NumRecords);
    JoinedKey("maxValues", ["a"], NumRecords);
  }

  lemma SpreadStatsDescribe()
    ensures Describes(SpreadStats(), SpreadRows())
  {
    var stats, rows := SpreadStats(), SpreadRows();
    StatsLookups([]);
    forall c ensures ColumnDescribed(stats, rows, c) {
      StatsLookups(c);
      assert rows[1..][1..] == [];
      if c != ["a"] {
        assert NullCount(rows, c) == 2;
      } else {
        assert NullCount(rows, c) == 0;
      }
    }
  }

  lemma HalfNullWideStatsDescribe()
    ensures Describes(HalfNullWideStats(), HalfNullRows())
  {
    var stats, rows := HalfNullWideStats(), HalfNullRows();
    StatsLookups([]);
    forall c ensures ColumnDescribed(stats, rows, c) {
      StatsLookups(c);
      assert rows[1..][1..] == [];
      if c == ["a"] {
        assert NullCount(rows, c) == 1;
      }
    }
  }

  /**
   The rewrite of `e` is false on statistics that are valid for `rows`, so
   the file would be skipped, yet some row satisfies `e`.
   */
  ghost predicate SkipsMatchingRow(v: Variant, e: Expr, stats: Record, rows: seq<Record>) {
    && Describes(stats, rows)
    && Rewrite(v, e).Some?
    && Eval(Rewrite(v, e).value, stats) == Bool(false)
    && exists i :: 0 <= i < |rows| && Eval(e, rows[i]) == Bool(true)
  }

  /**
   As written, `a != 1` and `NOT (a = 1)` rewrite to a predicate that is
   false on the statistics of a file whose row `a = 0` satisfies both.
   */
  lemma NotEqualSkipsMatchingRow()
    ensures SkipsMatchingRow(AsWritten, Binary(NotEqual, Column(["a"]), Literal(Int(1))), SpreadStats(), SpreadRows())
    ensures SkipsMatchingRow(AsWritten, Unary(Not, Binary(Equal, Column(["a"]), Literal(Int(1)))), SpreadStats(), SpreadRows())
  {
    SpreadStatsDescribe();
    StatsLookups(["a"]);
    var p := NotEqualBounds(AsWritten, ["a"], Int(1));
    EvalPair(Binary(GreaterThan, MinOf(["a"]), Literal(Int(1))), Binary(LessThan, MaxOf(["a"]), Literal(Int(1))), SpreadStats());
    assert Eval(p, SpreadStats()) == Bool(false);
    assert Eval(Binary(NotEqual, Column(["a"]), Literal(Int(1))), SpreadRows()[0]) == Bool(true);
    assert Eval(Unary(Not, Binary(Equal, Column(["a"]), Literal(Int(1)))), SpreadRows()[0]) == Bool(true);
  }

  /**
   As written, `a IS NULL` rewrites to a predicate that is false on wide
   statistics of a file whose first row has a null `a`.
   */
  lemma WideIsNullSkipsNullRow()
    ensures SkipsMatchingRow(AsWritten, Unary(IsNull, Column(["a"])), HalfNullWideStats(), HalfNullRows())
  {
    HalfNullWideStatsDescribe();
    StatsLookups(["a"]);
    var stats, nc := HalfNullWideStats(), NullCountOf(["a"]);
    EvalPair(TightNullExpr(nc), WideNullExpr(AsWritten, nc), stats);
    EvalPair(Binary(Distinct, Column(TightBounds), Literal(Bool(false))), Binary(GreaterThan, nc, Literal(Int(0))), stats);
    EvalPair(Binary(Equal, Column(TightBounds), Literal(Bool(false))), Binary(Equal, Column(NumRecords), nc), stats);
    assert Eval(Unary(IsNull, Column(["a"])), HalfNullRows()[0]) == Bool(true);
  }

  /** On the same inputs the corrected `!=` rewrite keeps the file. */
  lemma CorrectedNotEqualKeepsFile()
    ensures var e := Binary(NotEqual, Column(["a"]), Literal(Int(1)));
            Rewrite(Corrected, e).Some? && Eval(Rewrite(Corrected, e).value, SpreadStats()) == Bool(true)
  {
    StatsLookups(["a"]);
    var ne := NotEqualBounds(Corrected, ["a"], Int(1));
    assert Rewrite(Corrected, Binary(NotEqual, Column(["a"]), Literal(Int(1)))) == Some(ne);
    EvalPair(Binary(NotEqual, MinOf(["a"]), Literal(Int(1))), Binary(NotEqual, MaxOf(["a"]), Literal(Int(1))), SpreadStats());
  }

  /** On the same inputs the corrected IS NULL rewrite keeps the file. */
  lemma CorrectedIsNullKeepsFile()
    ensures var e := Unary(IsNull, Column(["a"]));
            Rewrite(Corrected, e).Some? && Eval(Rewrite(Corrected, e).value, HalfNullWideStats()) == Bool(true)
  {
    StatsLookups(["a"]);
    var stats, nc := HalfNullWideStats(), NullCountOf(["a"]);
    var wide := WideNullExpr(Corrected, nc);
    assert Rewrite(Corrected, Unary(IsNull, Column(["a"]))) == Some(OrOf(TightNullExpr(nc), wide));
    EvalPair(Binary(Equal, Column(TightBounds), Literal(Bool(false))), Binary(GreaterThan, nc, Literal(Int(0))), stats);
    assert Eval(wide, stats) == Bool(true);
    EvalPair(TightNullExpr(nc), wide, stats);
  }
}

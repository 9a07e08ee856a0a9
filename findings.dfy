/**
 * Inputs on which the comparator of SqlComparator.cs does something other
 * than what its authors evidently meant, next to what the collect-all variant
 * does with the same inputs.
 */
module Findings {
  import opened DataModel
  import opened SqlComparator
  import opened ResultSetComparison

  const Col1: ColumnInfo := ColumnInfo("Col1", "System.String", "varchar", false, 2)

  /** `SELECT 'V1' as 'Col1'` */
  const OneRow: ResultSet := ResultSet([Col1], [QueryRow([Str("V1")])])

  /** `SELECT 'V1' as 'Col1' UNION ALL SELECT 'V2'` */
  const TwoRows: ResultSet := ResultSet([Col1], [QueryRow([Str("V1")]), QueryRow([Str("V2")])])

  const Col2: ColumnInfo := ColumnInfo("Col2", "System.String", "varchar", false, 2)

  /** `SELECT 'V1' as 'Col1', 'W1' as 'Col2'` */
  const WideRow: ResultSet := ResultSet([Col1, Col2], [QueryRow([Str("V1"), Str("W1")])])

  /** `SELECT NULL as 'Col1'` */
  const NullRow: ResultSet :=
    ResultSet([ColumnInfo("Col1", "System.Int32", "int", true, 4)], [QueryRow([DbNull])])

  /**
   * As written: when output 2 has more rows than output 1, the rows beyond
   * output 1's count are never read, and the outputs are reported identical.
   */
  lemma ExtraRowsOfSecondOutputIgnored()
    ensures DataInBounds(OneRow, TwoRows) && !CastFails(OneRow, TwoRows)
    ensures ExpectedSummary(OneRow, TwoRows).resultsAreIdentical
    ensures OneRow.rows != TwoRows.rows
  {
    ColumnDiffsEmptyIff(OneRow.columns, TwoRows.columns);
    assert forall r, i :: Visited(OneRow, r, i) ==> r == 0 && i == 0;
  }

  /** Corrected: the same pair is reported with a row-count mismatch, not identical. */
  lemma ExtraRowsDetected()
    ensures var s := CompareResultSet(OneRow, TwoRows);
      !s.resultsAreIdentical && s.rowCountMismatch && s.columnsAreSame && s.dataDifferences == []
  {
    RowCountOnlyMismatch(OneRow, TwoRows);
  }

  /**
   * As written: when output 1 has more rows than output 2, the data pass
   * reads output 2 past its last row.
   */
  lemma MissingRowsOfSecondOutputOutOfBounds()
    ensures !DataInBounds(TwoRows, OneRow)
  {
  }

  /**
   * As written: when output 1 has more columns than output 2 and at least
   * one row, the data pass reads past the end of output 2's row, though both
   * outputs are well formed and have the same row count.
   */
  lemma NarrowerSecondOutputOutOfBounds()
    ensures WellFormed(WideRow) && WellFormed(OneRow) && |WideRow.rows| == |OneRow.rows|
    ensures Visited(WideRow, 0, 1) && |OneRow.rows[0].values| == 1
    ensures !DataInBounds(WideRow, OneRow)
  {
  }

  /**
   * Corrected: the same pair is reported with a column-count mismatch, no
   * column or data difference, and as not identical.
   */
  lemma NarrowerSecondOutputDetected()
    ensures var s := CompareResultSet(WideRow, OneRow);
      && !s.resultsAreIdentical && !s.columnsAreSame && s.columnCountMismatch
      && s.columnDifferences == [] && !s.rowCountMismatch && s.dataDifferences == []
  {
    ColumnDiffsEmptyIff(WideRow.columns, OneRow.columns);
    DataDifferencesEmptyIff(WideRow.rows, OneRow.rows, 1);
  }

  /** Corrected: the same pair is reported with a row-count mismatch and no data difference. */
  lemma MissingRowsDetected()
    ensures var s := CompareResultSet(TwoRows, OneRow);
      !s.resultsAreIdentical && s.rowCountMismatch && s.dataDifferences == []
  {
    RowCountOnlyMismatch(TwoRows, OneRow);
  }

  /**
   * As written: two NULL cells have the same runtime type, so they are cast
   * to int, which throws; even an output with a NULL compared with itself
   * throws.
   */
  lemma NullCellsFailCast()
    ensures AreOutputsSame(DbNull, DbNull) == InvalidCast
    ensures DataInBounds(NullRow, NullRow) && CastFails(NullRow, NullRow)
  {
    assert Visited(NullRow, 0, 0) && VerdictAt(NullRow, NullRow, 0, 0) == InvalidCast;
  }

  /** Corrected: NULL equals NULL, and the output compared with itself is identical. */
  lemma NullCellsCompareEqual()
    ensures AreValuesEqual(DbNull, DbNull)
    ensures CompareResultSet(NullRow, NullRow).resultsAreIdentical
  {
    SelfComparisonClean(NullRow);
  }
}

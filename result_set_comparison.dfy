/**
 * VARIANT, not the code of SqlComparator.cs: the collect-all, min-bounded
 * comparison that the test suite expects of CompareQueryOutputs. Rows are
 * compared up to the smaller row count, with a separate RowCountMismatch
 * flag; every differing cell is listed; a query may yield several result
 * sets, compared pairwise up to the smaller count. Cells compare by value
 * for every runtime type, so no comparison throws.
 */
module ResultSetComparison {
  import opened DataModel
  import opened SqlComparator

  /**
   * Corrected cell equality: values of different runtime types are unequal,
   * same-type values compare by value, whatever the type. It agrees with
   * AreOutputsSame wherever that does not throw.
   */
  function AreValuesEqual(value1: Cell, value2: Cell): (same: bool)
    ensures same <==> value1 == value2
    ensures AreOutputsSame(value1, value2) != InvalidCast ==>
      (same <==> AreOutputsSame(value1, value2) == Equal)
  {
    TypeOf(value1) == TypeOf(value2) &&
    match value1
    case Str(s) => s == value2.text
    case Int(n) => n == value2.number
    case Other(_, v) => v == value2.rendering
  }

  datatype CellDifference = CellDifference(columnIndex: nat)

  datatype RowDifference = RowDifference(rowIndex: nat, cellDifferences: seq<CellDifference>)

  /** The differing cells among the first `n` of two rows, left to right. */
  function CellDifferencesUpTo(values1: seq<Cell>, values2: seq<Cell>, n: nat): seq<CellDifference>
    requires n <= |values1| && n <= |values2|
  {
    if n == 0 then []
    else
      CellDifferencesUpTo(values1, values2, n - 1)
      + (if AreValuesEqual(values1[n - 1], values2[n - 1]) then [] else [CellDifference(n - 1)])
  }

  /** The differing cells of two rows, over the shorter row. */
  function CellDifferences(values1: seq<Cell>, values2: seq<Cell>): seq<CellDifference> {
    CellDifferencesUpTo(values1, values2, Min(|values1|, |values2|))
  }

  /**
   * Cell differences are listed in strictly increasing column order, and a
   * column below `n` is listed exactly when its two values differ.
   */
  lemma {:induction false} CellDifferencesExact(values1: seq<Cell>, values2: seq<Cell>, n: nat)
    requires n <= |values1| && n <= |values2|
    ensures var cs := CellDifferencesUpTo(values1, values2, n);
      && (forall k :: 0 <= k < |cs| ==> cs[k].columnIndex < n)
      && (forall j, k :: 0 <= j < k < |cs| ==> cs[j].columnIndex < cs[k].columnIndex)
      && (forall c :: 0 <= c < n ==> (CellDifference(c) in cs <==> values1[c] != values2[c]))
  {
    if n > 0 {
      CellDifferencesExact(values1, values2, n - 1);
      var prev := CellDifferencesUpTo(values1, values2, n - 1);
      forall k | 0 <= k < |prev|
        ensures prev[k] != CellDifference(n - 1)
      {
        assert prev[k].columnIndex < n - 1;
      }
    }
  }

  /** No cell difference is listed exactly when the shared cells are equal. */
  lemma CellDifferencesEmptyIff(values1: seq<Cell>, values2: seq<Cell>)
    ensures CellDifferences(values1, values2) == [] <==>
      forall c :: 0 <= c < |values1| && c < |values2| ==> values1[c] == values2[c]
  {
    var m := Min(|values1|, |values2|);
    CellDifferencesExact(values1, values2, m);
    if CellDifferences(values1, values2) != [] {
      var d := CellDifferences(values1, values2)[0];
      assert d in CellDifferences(values1, values2);
    }
  }

  /** The rows among the first `n` that hold differing cells, in row order. */
  function DataDifferencesUpTo(rows1: seq<QueryRow>, rows2: seq<QueryRow>, n: nat): seq<RowDifference>
    requires n <= |rows1| && n <= |rows2|
  {
    if n == 0 then []
    else
      var cells := CellDifferences(rows1[n - 1].values, rows2[n - 1].values);
      DataDifferencesUpTo(rows1, rows2, n - 1)
      + (if cells == [] then [] else [RowDifference(n - 1, cells)])
  }

  /** Row `r` of both sides has some differing shared cell. */
  predicate RowDiffers(rows1: seq<QueryRow>, rows2: seq<QueryRow>, r: nat)
    requires r < |rows1| && r < |rows2|
  {
    CellDifferences(rows1[r].values, rows2[r].values) != []
  }

  /**
   * Row differences are listed in strictly increasing row order, each lists
   * all of its row's differing cells and at least one, and a row below `n`
   * is listed exactly when it has a differing cell.
   */
  lemma {:induction false} DataDifferencesExact(rows1: seq<QueryRow>, rows2: seq<QueryRow>, n: nat)
    requires n <= |rows1| && n <= |rows2|
    ensures var ds := DataDifferencesUpTo(rows1, rows2, n);
      && (forall k :: 0 <= k < |ds| ==>
            && ds[k].rowIndex < n
            && ds[k].cellDifferences != []
            && ds[k].cellDifferences
               == CellDifferences(rows1[ds[k].rowIndex].values, rows2[ds[k].rowIndex].values))
      && (forall j, k :: 0 <= j < k < |ds| ==> ds[j].rowIndex < ds[k].rowIndex)
      && (forall r :: 0 <= r < n ==>
            (RowDiffers(rows1, rows2, r) <==> exists k :: 0 <= k < |ds| && ds[k].rowIndex == r))
  {
    if n > 0 {
      DataDifferencesExact(rows1, rows2, n - 1);
      var prev := DataDifferencesUpTo(rows1, rows2, n - 1);
      var ds := DataDifferencesUpTo(rows1, rows2, n);
      assert |prev| <= |ds| <= |prev| + 1;
      assert forall k :: 0 <= k < |prev| ==> ds[k] == prev[k];
      forall j, k | 0 <= j < k < |ds|
        ensures ds[j].rowIndex < ds[k].rowIndex
      {
        assert j < |prev|;
        if k == |prev| {
          assert ds[j] == prev[j] && prev[j].rowIndex < n - 1;
        }
      }
      forall r | 0 <= r < n
        ensures RowDiffers(rows1, rows2, r) <==> exists k :: 0 <= k < |ds| && ds[k].rowIndex == r
      {
        if r < n - 1 {
          if k :| 0 <= k < |ds| && ds[k].rowIndex == r {
            assert k < |prev|;
          }
        } else if RowDiffers(rows1, rows2, r) {
          assert ds[|ds| - 1].rowIndex == r;
        }
      }
    }
  }

  /** No row difference is listed exactly when the shared cells of the first `n` rows are equal. */
  lemma DataDifferencesEmptyIff(rows1: seq<QueryRow>, rows2: seq<QueryRow>, n: nat)
    requires n <= |rows1| && n <= |rows2|
    ensures DataDifferencesUpTo(rows1, rows2, n) == [] <==>
      forall r, c :: 0 <= r < n && 0 <= c < |rows1[r].values| && c < |rows2[r].values| ==>
        rows1[r].values[c] == rows2[r].values[c]
  {
    DataDifferencesExact(rows1, rows2, n);
    forall r | 0 <= r < n {
      CellDifferencesEmptyIff(rows1[r].values, rows2[r].values);
    }
  }

  /** The summary of one result-set pair, as ResultSetComparisonSummary holds it. */
  datatype ResultSetComparisonSummary = ResultSetComparisonSummary(
    resultsAreIdentical: bool,
    columnsAreSame: bool,
    columnDifferences: seq<ColumnDifference>,
    columnCountMismatch: bool,
    rowCountMismatch: bool,
    dataDifferences: seq<RowDifference>)

  /** Compares one result-set pair: the same column pass, then a min-bounded, collect-all data pass. */
  function CompareResultSet(output1: ResultSet, output2: ResultSet): ResultSetComparisonSummary {
    var columnDifferences := ColumnDiffs(output1.columns, output2.columns);
    var columnCountMismatch := |output1.columns| != |output2.columns|;
    var columnsAreSame := columnDifferences == [] && !columnCountMismatch;
    var rowCountMismatch := |output1.rows| != |output2.rows|;
    var dataDifferences :=
      DataDifferencesUpTo(output1.rows, output2.rows, Min(|output1.rows|, |output2.rows|));
    ResultSetComparisonSummary(
      columnsAreSame && !rowCountMismatch && dataDifferences == [],
      columnsAreSame, columnDifferences, columnCountMismatch, rowCountMismatch, dataDifferences)
  }

  /**
   * Reference definition of "the two result sets agree": same column count,
   * headers agreeing on name, provider type, nullability and size, same row
   * count, and equal values wherever both rows have one.
   */
  ghost predicate Agree(output1: ResultSet, output2: ResultSet) {
    && |output1.columns| == |output2.columns|
    && (forall c :: 0 <= c < |output1.columns| ==> SameHeader(output1.columns[c], output2.columns[c]))
    && |output1.rows| == |output2.rows|
    && (forall r, c ::
          0 <= r < |output1.rows| && 0 <= c < |output1.rows[r].values| && c < |output2.rows[r].values|
          ==> output1.rows[r].values[c] == output2.rows[r].values[c])
  }

  /** A result-set pair is reported identical exactly when the two agree. */
  lemma CompareResultSetIdenticalIff(output1: ResultSet, output2: ResultSet)
    ensures CompareResultSet(output1, output2).resultsAreIdentical <==> Agree(output1, output2)
  {
    ColumnDiffsEmptyIff(output1.columns, output2.columns);
    DataDifferencesEmptyIff(output1.rows, output2.rows, Min(|output1.rows|, |output2.rows|));
  }

  /**
   * For result sets whose rows are as wide as their headers, identical means
   * agreeing headers and exactly the same rows.
   */
  lemma WellFormedIdenticalIff(output1: ResultSet, output2: ResultSet)
    requires WellFormed(output1) && WellFormed(output2)
    ensures CompareResultSet(output1, output2).resultsAreIdentical <==>
      && |output1.columns| == |output2.columns|
      && (forall c :: 0 <= c < |output1.columns| ==> SameHeader(output1.columns[c], output2.columns[c]))
      && output1.rows == output2.rows
  {
    CompareResultSetIdenticalIff(output1, output2);
    if Agree(output1, output2) {
      forall r | 0 <= r < |output1.rows|
        ensures output1.rows[r] == output2.rows[r]
      {
        assert output1.rows[r].values == output2.rows[r].values;
      }
    }
  }

  /** Comparing a result set with itself reports no difference of any kind. */
  lemma SelfComparisonClean(output: ResultSet)
    ensures CompareResultSet(output, output)
      == ResultSetComparisonSummary(true, true, [], false, false, [])
  {
    CompareResultSetIdenticalIff(output, output);
    ColumnDiffsEmptyIff(output.columns, output.columns);
    DataDifferencesEmptyIff(output.rows, output.rows, |output.rows|);
  }

  /**
   * A pure row-count difference, with equal headers and equal shared rows,
   * sets RowCountMismatch, lists no data difference, and is not identical.
   */
  lemma RowCountOnlyMismatch(output1: ResultSet, output2: ResultSet)
    requires output1.columns == output2.columns
    requires |output1.rows| != |output2.rows|
    requires forall r :: 0 <= r < |output1.rows| && r < |output2.rows| ==> output1.rows[r] == output2.rows[r]
    ensures var s := CompareResultSet(output1, output2);
      s.rowCountMismatch && s.columnsAreSame && s.dataDifferences == [] && !s.resultsAreIdentical
  {
    ColumnDiffsEmptyIff(output1.columns, output2.columns);
    DataDifferencesEmptyIff(output1.rows, output2.rows, Min(|output1.rows|, |output2.rows|));
  }

  /** One result-set pair and its summary. */
  datatype ResultSetComparison = ResultSetComparison(
    output1: ResultSet,
    output2: ResultSet,
    resultSetSummary: ResultSetComparisonSummary)

  /** What comparing two queries produces, one entry per result-set pair compared. */
  datatype QueryComparison = QueryComparison(
    resultSetComparisons: seq<ResultSetComparison>,
    resultsAreIdentical: bool,
    resultSetCountsAreNotSame: bool)

  /**
   * Compares the result sets of two multi-statement batches pairwise, up to
   * the smaller count; extra result sets only set the count flag.
   */
  function CompareQueryOutputs(sets1: seq<ResultSet>, sets2: seq<ResultSet>): (q: QueryComparison)
    ensures |q.resultSetComparisons| == Min(|sets1|, |sets2|)
    ensures forall i :: 0 <= i < |q.resultSetComparisons| ==>
      q.resultSetComparisons[i] == ResultSetComparison(sets1[i], sets2[i], CompareResultSet(sets1[i], sets2[i]))
    ensures q.resultSetCountsAreNotSame <==> |sets1| != |sets2|
    ensures q.resultsAreIdentical <==>
      |sets1| == |sets2| && forall i :: 0 <= i < |sets1| ==> CompareResultSet(sets1[i], sets2[i]).resultsAreIdentical
  {
    var n := Min(|sets1|, |sets2|);
    var comparisons := seq(n, i requires 0 <= i < n =>
      ResultSetComparison(sets1[i], sets2[i], CompareResultSet(sets1[i], sets2[i])));
    var countsDiffer := |sets1| != |sets2|;
    QueryComparison(
      comparisons,
      !countsDiffer && forall i :: 0 <= i < n ==> comparisons[i].resultSetSummary.resultsAreIdentical,
      countsDiffer)
  }

  /**
   * Two batches are reported identical exactly when they yield the same
   * number of result sets and every pair agrees.
   */
  lemma QueryIdenticalIff(sets1: seq<ResultSet>, sets2: seq<ResultSet>)
    ensures CompareQueryOutputs(sets1, sets2).resultsAreIdentical <==>
      |sets1| == |sets2| && forall i :: 0 <= i < |sets1| ==> Agree(sets1[i], sets2[i])
  {
    forall i | 0 <= i < |sets1| && i < |sets2| {
      CompareResultSetIdenticalIff(sets1[i], sets2[i]);
    }
  }
}

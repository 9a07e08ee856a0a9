/**
 * The comparator as SqlComparator.cs has it: once both queries have been read,
 * a column pass and a data pass update one shared, mutable ComparisonSummary.
 */
module SqlComparator {
  import opened Wrappers
  import opened DataModel

  // ---------------------------------------------------------------------------
  // Cell equality
  // ---------------------------------------------------------------------------

  /** The exception the comparator can throw while comparing two cells. */
  datatype Fault = InvalidCastException

  /** What comparing two cells yields: a verdict, or the cast that throws. */
  datatype CellVerdict = Equal | NotEqual | InvalidCast

  /**
   * Values of different runtime types are unequal; two strings compare
   * ordinally; any other same-type pair is unboxed to `int`, which only a
   * boxed Int32 survives.
   */
  function AreOutputsSame(result1: Cell, result2: Cell): (v: CellVerdict)
    ensures v == InvalidCast <==> TypeOf(result1) == TypeOf(result2) && result1.Other?
    ensures v == Equal <==> result1 == result2 && !result1.Other?
    ensures TypeOf(result1) != TypeOf(result2) ==> v == NotEqual
  {
    if TypeOf(result1) != TypeOf(result2) then NotEqual
    else match result1
      case Str(s) => if s == result2.text then Equal else NotEqual
      case Int(n) => if n == result2.number then Equal else NotEqual
      case Other(_, _) => InvalidCast
  }

  // ---------------------------------------------------------------------------
  // Column pass: specification
  // ---------------------------------------------------------------------------

  /** One index at which the two outputs' headers differ. */
  datatype ColumnDifference = ColumnDifference(
    index: nat,
    nameIsDifferent: bool,
    typeIsDifferent: bool,
    nullabilityIsDifferent: bool,
    sizeIsDifferent: bool)

  /** The four header comparisons made at index `c`; `dataType` takes no part. */
  function HeaderComparison(c: nat, h1: ColumnInfo, h2: ColumnInfo): ColumnDifference {
    ColumnDifference(c, h1.name != h2.name, h1.sqlDataType != h2.sqlDataType,
                     h1.isNullable != h2.isNullable, h1.size != h2.size)
  }

  predicate AnyDifferent(d: ColumnDifference) {
    d.nameIsDifferent || d.typeIsDifferent || d.nullabilityIsDifferent || d.sizeIsDifferent
  }

  /** Two headers agree on every property the column pass looks at. */
  predicate SameHeader(h1: ColumnInfo, h2: ColumnInfo) {
    h1.name == h2.name && h1.sqlDataType == h2.sqlDataType
    && h1.isNullable == h2.isNullable && h1.size == h2.size
  }

  /** The differences the column pass records over the first `n` indices. */
  function ColumnDiffsUpTo(c1: seq<ColumnInfo>, c2: seq<ColumnInfo>, n: nat): seq<ColumnDifference>
    requires n <= |c1| && n <= |c2|
  {
    if n == 0 then []
    else
      var d := HeaderComparison(n - 1, c1[n - 1], c2[n - 1]);
      ColumnDiffsUpTo(c1, c2, n - 1) + (if AnyDifferent(d) then [d] else [])
  }

  /** The differences the column pass records: over the smaller column count. */
  function ColumnDiffs(c1: seq<ColumnInfo>, c2: seq<ColumnInfo>): seq<ColumnDifference> {
    ColumnDiffsUpTo(c1, c2, Min(|c1|, |c2|))
  }

  /** `d` is the full, truthful record of a differing index of `c1` and `c2`. */
  predicate Describes(c1: seq<ColumnInfo>, c2: seq<ColumnInfo>, d: ColumnDifference) {
    d.index < |c1| && d.index < |c2|
    && d == HeaderComparison(d.index, c1[d.index], c2[d.index])
    && AnyDifferent(d)
  }

  predicate StrictlyIncreasing(ds: seq<ColumnDifference>) {
    forall j, k :: 0 <= j < k < |ds| ==> ds[j].index < ds[k].index
  }

  /**
   * Every recorded difference lies below `n`, describes its index truthfully
   * (each flag is its own inequality, at least one is set), and the indices
   * strictly increase.
   */
  lemma {:induction false} ColumnDiffsWellFormed(c1: seq<ColumnInfo>, c2: seq<ColumnInfo>, n: nat)
    requires n <= |c1| && n <= |c2|
    ensures var ds := ColumnDiffsUpTo(c1, c2, n);
      |ds| <= n && StrictlyIncreasing(ds)
      && forall k :: 0 <= k < |ds| ==> ds[k].index < n && Describes(c1, c2, ds[k])
  {
    if n > 0 {
      ColumnDiffsWellFormed(c1, c2, n - 1);
    }
  }

  /** An index below `n` is recorded exactly when its headers differ. */
  lemma {:induction false} ColumnDiffsComplete(c1: seq<ColumnInfo>, c2: seq<ColumnInfo>, n: nat)
    requires n <= |c1| && n <= |c2|
    ensures forall c :: 0 <= c < n ==>
      (HeaderComparison(c, c1[c], c2[c]) in ColumnDiffsUpTo(c1, c2, n) <==> !SameHeader(c1[c], c2[c]))
  {
    if n > 0 {
      ColumnDiffsComplete(c1, c2, n - 1);
      ColumnDiffsWellFormed(c1, c2, n - 1);
      var prev := ColumnDiffsUpTo(c1, c2, n - 1);
      forall k | 0 <= k < |prev|
        ensures prev[k] != HeaderComparison(n - 1, c1[n - 1], c2[n - 1])
      {
        assert prev[k].index < n - 1;
      }
    }
  }

  /** No difference is recorded exactly when all shared headers agree. */
  lemma ColumnDiffsEmptyIff(c1: seq<ColumnInfo>, c2: seq<ColumnInfo>)
    ensures ColumnDiffs(c1, c2) == [] <==>
      forall c :: 0 <= c < |c1| && c < |c2| ==> SameHeader(c1[c], c2[c])
  {
    var m := Min(|c1|, |c2|);
    ColumnDiffsComplete(c1, c2, m);
    if ColumnDiffs(c1, c2) != [] {
      ColumnDiffsWellFormed(c1, c2, m);
      var d := ColumnDiffs(c1, c2)[0];
      assert Describes(c1, c2, d);
      assert !SameHeader(c1[d.index], c2[d.index]);
    }
  }

  /** Only the first `n` columns of each side matter to the first `n` indices. */
  lemma {:induction false} ColumnDiffsUpToPrefix(c1: seq<ColumnInfo>, c2: seq<ColumnInfo>, m: nat, n: nat)
    requires n <= m <= |c1| && m <= |c2|
    ensures ColumnDiffsUpTo(c1, c2, n) == ColumnDiffsUpTo(c1[..m], c2[..m], n)
  {
    if n > 0 {
      ColumnDiffsUpToPrefix(c1, c2, m, n - 1);
    }
  }

  /**
   * Columns beyond the smaller count never appear in the list: dropping them
   * changes nothing, and there are at most that many entries.
   */
  lemma ColumnDiffsIgnoreExtraColumns(c1: seq<ColumnInfo>, c2: seq<ColumnInfo>)
    ensures var m := Min(|c1|, |c2|);
      ColumnDiffs(c1, c2) == ColumnDiffs(c1[..m], c2[..m])
      && |ColumnDiffs(c1, c2)| <= m
  {
    var m := Min(|c1|, |c2|);
    ColumnDiffsUpToPrefix(c1, c2, m, m);
    ColumnDiffsWellFormed(c1, c2, m);
  }

  /** `c1` and `c2` are the same headers except, perhaps, for their .NET data types. */
  predicate SameUpToDataType(c1: seq<ColumnInfo>, c2: seq<ColumnInfo>) {
    |c1| == |c2|
    && forall c :: 0 <= c < |c1| ==> c1[c].(dataType := c2[c].dataType) == c2[c]
  }

  /**
   * The .NET data type takes no part: replacing it in any header changes no
   * recorded difference, so nvarchar and varchar differ even though both map
   * to System.String, and equal provider types agree whatever they map to.
   */
  lemma {:induction false} ColumnDiffsIgnoreDataType(c1: seq<ColumnInfo>, c2: seq<ColumnInfo>,
                                                     c1': seq<ColumnInfo>, c2': seq<ColumnInfo>, n: nat)
    requires SameUpToDataType(c1, c1') && SameUpToDataType(c2, c2')
    requires n <= |c1| && n <= |c2|
    ensures ColumnDiffsUpTo(c1, c2, n) == ColumnDiffsUpTo(c1', c2', n)
  {
    if n > 0 {
      ColumnDiffsIgnoreDataType(c1, c2, c1', c2', n - 1);
      assert c1[n - 1].(dataType := c1'[n - 1].dataType) == c1'[n - 1];
      assert c2[n - 1].(dataType := c2'[n - 1].dataType) == c2'[n - 1];
    }
  }

  /**
   * The provider type name and the size are compared as they are:
   * nvarchar(100) and varchar(100) differ in type alone, and varchar(max),
   * whose size is the 2147483647 sentinel, differs from varchar(50) in size.
   */
  lemma ProviderTypeAndSizeComparedVerbatim()
    ensures ColumnDiffs([ColumnInfo("VarCharCol", "System.String", "nvarchar", true, 100)],
                        [ColumnInfo("VarCharCol", "System.String", "varchar", true, 100)])
      == [ColumnDifference(0, false, true, false, false)]
    ensures ColumnDiffs([ColumnInfo("VarCharCol", "System.String", "varchar", true, MaxColumnSize)],
                        [ColumnInfo("VarCharCol", "System.String", "varchar", true, 50)])
      == [ColumnDifference(0, false, false, false, true)]
  {
    var nvarchar100 := ColumnInfo("VarCharCol", "System.String", "nvarchar", true, 100);
    var varchar100 := ColumnInfo("VarCharCol", "System.String", "varchar", true, 100);
    assert |"nvarchar"| != |"varchar"|;
    assert ColumnDiffsUpTo([nvarchar100], [varchar100], 0) == [];
    var varcharMax := ColumnInfo("VarCharCol", "System.String", "varchar", true, MaxColumnSize);
    var varchar50 := ColumnInfo("VarCharCol", "System.String", "varchar", true, 50);
    assert ColumnDiffsUpTo([varcharMax], [varchar50], 0) == [];
  }

  // ---------------------------------------------------------------------------
  // Data pass: specification
  // ---------------------------------------------------------------------------

  /**
   * The data pass reads row r of output 2 for every row r of output 1, and
   * value i of that row for every value i of output 1's row r.
   */
  predicate DataInBounds(o1: ResultSet, o2: ResultSet) {
    |o1.rows| <= |o2.rows|
    && forall r :: 0 <= r < |o1.rows| ==> |o1.rows[r].values| <= |o2.rows[r].values|
  }

  /** (r, i) is a cell the data pass visits: it walks output 1's shape. */
  predicate Visited(o1: ResultSet, r: int, i: int) {
    0 <= r < |o1.rows| && 0 <= i < |o1.rows[r].values|
  }

  function VerdictAt(o1: ResultSet, o2: ResultSet, r: int, i: int): CellVerdict
    requires DataInBounds(o1, o2) && Visited(o1, r, i)
  {
    AreOutputsSame(o1.rows[r].values[i], o2.rows[r].values[i])
  }

  /** Some visited cell pair makes the comparison throw. */
  ghost predicate CastFails(o1: ResultSet, o2: ResultSet)
    requires DataInBounds(o1, o2)
  {
    exists r, i :: Visited(o1, r, i) && VerdictAt(o1, o2, r, i) == InvalidCast
  }

  /** Every visited cell pair compares equal. */
  ghost predicate VisitedCellsEqual(o1: ResultSet, o2: ResultSet)
    requires DataInBounds(o1, o2)
  {
    forall r, i :: Visited(o1, r, i) ==> VerdictAt(o1, o2, r, i) == Equal
  }

  // ---------------------------------------------------------------------------
  // The summary the passes update
  // ---------------------------------------------------------------------------

  /** The value of a ComparisonSummary's four properties. */
  datatype SummaryState = SummaryState(
    resultsAreIdentical: bool,
    columnsAreSame: bool,
    columnDifferences: seq<ColumnDifference>,
    columnCountMismatch: bool)

  class ComparisonSummary {
    var resultsAreIdentical: bool
    var columnsAreSame: bool
    var columnDifferences: seq<ColumnDifference>
    var columnCountMismatch: bool

    /** A new summary: both flags false, no differences, no count mismatch. */
    constructor ()
      ensures State() == SummaryState(false, false, [], false)
    {
      resultsAreIdentical := false;
      columnsAreSame := false;
      columnDifferences := [];
      columnCountMismatch := false;
    }

    function State(): SummaryState
      reads this
    {
      SummaryState(resultsAreIdentical, columnsAreSame, columnDifferences, columnCountMismatch)
    }
  }

  /** Output 1 and output 2 as the comparison read them, and the summary of their comparison. */
  datatype ComparisonResult = ComparisonResult(
    output1: ResultSet,
    output2: ResultSet,
    comparisonSummary: ComparisonSummary)

  /**
   * The summary AreQueryOutputsIdentical leaves when no cell comparison
   * throws: both flags start true and each pass may only clear them.
   */
  ghost function ExpectedSummary(o1: ResultSet, o2: ResultSet): SummaryState
    requires DataInBounds(o1, o2)
  {
    var diffs := ColumnDiffs(o1.columns, o2.columns);
    var countMismatch := |o1.columns| != |o2.columns|;
    var columnsAreSame := diffs == [] && !countMismatch;
    SummaryState(columnsAreSame && VisitedCellsEqual(o1, o2), columnsAreSame, diffs, countMismatch)
  }

  // ---------------------------------------------------------------------------
  // The passes
  // ---------------------------------------------------------------------------

  /**
   * Compares headers by position up to the smaller column count, appending one
   * ColumnDifference per differing index; a count mismatch only sets flags.
   */
  method CompareColumnHeadersAndApplyToSummary(command1Output: ResultSet, command2Output: ResultSet,
                                                summary: ComparisonSummary)
    modifies summary
    ensures summary.columnDifferences
      == old(summary.columnDifferences) + ColumnDiffs(command1Output.columns, command2Output.columns)
    ensures summary.columnCountMismatch
      == (old(summary.columnCountMismatch) || |command1Output.columns| != |command2Output.columns|)
    ensures summary.columnsAreSame == (old(summary.columnsAreSame)
      && ColumnDiffs(command1Output.columns, command2Output.columns) == []
      && |command1Output.columns| == |command2Output.columns|)
    ensures summary.resultsAreIdentical == (old(summary.resultsAreIdentical)
      && ColumnDiffs(command1Output.columns, command2Output.columns) == []
      && |command1Output.columns| == |command2Output.columns|)
  {
    var columns1, columns2 := command1Output.columns, command2Output.columns;
    var command1ColumnCount := |columns1|;
    var command2ColumnCount := |columns2|;
    var fewestColumns := Min(command1ColumnCount, command2ColumnCount);
    for c := 0 to fewestColumns
      invariant summary.columnDifferences
        == old(summary.columnDifferences) + ColumnDiffsUpTo(columns1, columns2, c)
      invariant summary.columnsAreSame
        == (old(summary.columnsAreSame) && ColumnDiffsUpTo(columns1, columns2, c) == [])
      invariant summary.resultsAreIdentical
        == (old(summary.resultsAreIdentical) && ColumnDiffsUpTo(columns1, columns2, c) == [])
      invariant summary.columnCountMismatch == old(summary.columnCountMismatch)
    {
      var command1ColumnHeader := columns1[c];
      var command2ColumnHeader := columns2[c];
      var columnNameIsDifferent := command1ColumnHeader.name != command2ColumnHeader.name;
      var columnDataTypeIsDifferent := command1ColumnHeader.sqlDataType != command2ColumnHeader.sqlDataType;
      var columnNullabilityIsDifferent := command1ColumnHeader.isNullable != command2ColumnHeader.isNullable;
      var sizeIsDifferent := command1ColumnHeader.size != command2ColumnHeader.size;

      if columnNameIsDifferent || columnDataTypeIsDifferent
         || columnNullabilityIsDifferent || sizeIsDifferent
      {
        summary.resultsAreIdentical := false;
        summary.columnsAreSame := false;
        summary.columnDifferences := summary.columnDifferences + [ColumnDifference(
          c, columnNameIsDifferent, columnDataTypeIsDifferent,
          columnNullabilityIsDifferent, sizeIsDifferent)];
      }
    }

    if command1ColumnCount != command2ColumnCount {
      summary.resultsAreIdentical := false;
      summary.columnsAreSame := false;
      summary.columnCountMismatch := true;
    }
  }

  /**
   * Walks output 1's rows and cells, reading output 2 at the same positions,
   * and clears ResultsAreIdentical on any mismatch. A cell comparison that
   * throws ends the pass with that exception.
   */
  method CompareDataAndApplyToSummary(command1Output: ResultSet, command2Output: ResultSet,
                                      summary: ComparisonSummary)
    returns (outcome: Outcome<Fault>)
    requires DataInBounds(command1Output, command2Output)
    modifies summary
    ensures outcome.Fail? <==> CastFails(command1Output, command2Output)
    ensures outcome.Pass? ==>
      summary.resultsAreIdentical
      == (old(summary.resultsAreIdentical) && VisitedCellsEqual(command1Output, command2Output))
    ensures summary.resultsAreIdentical ==> old(summary.resultsAreIdentical)
    ensures summary.columnsAreSame == old(summary.columnsAreSame)
    ensures summary.columnDifferences == old(summary.columnDifferences)
    ensures summary.columnCountMismatch == old(summary.columnCountMismatch)
  {
    var o1, o2 := command1Output, command2Output;
    for r := 0 to |o1.rows|
      invariant forall r', i :: 0 <= r' < r && Visited(o1, r', i) ==> VerdictAt(o1, o2, r', i) != InvalidCast
      invariant summary.resultsAreIdentical == (old(summary.resultsAreIdentical)
        && forall r', i :: 0 <= r' < r && Visited(o1, r', i) ==> VerdictAt(o1, o2, r', i) == Equal)
      invariant summary.columnsAreSame == old(summary.columnsAreSame)
      invariant summary.columnDifferences == old(summary.columnDifferences)
      invariant summary.columnCountMismatch == old(summary.columnCountMismatch)
    {
      var row1 := o1.rows[r];
      var row2 := o2.rows[r];
      for i := 0 to |row1.values|
        invariant forall r', i' :: 0 <= r' < r && Visited(o1, r', i') ==> VerdictAt(o1, o2, r', i') != InvalidCast
        invariant forall i' :: 0 <= i' < i ==> VerdictAt(o1, o2, r, i') != InvalidCast
        invariant summary.resultsAreIdentical == (old(summary.resultsAreIdentical)
          && (forall r', i' :: 0 <= r' < r && Visited(o1, r', i') ==> VerdictAt(o1, o2, r', i') == Equal)
          && (forall i' :: 0 <= i' < i ==> VerdictAt(o1, o2, r, i') == Equal))
        invariant summary.columnsAreSame == old(summary.columnsAreSame)
        invariant summary.columnDifferences == old(summary.columnDifferences)
        invariant summary.columnCountMismatch == old(summary.columnCountMismatch)
      {
        var result1 := row1.values[i];
        var result2 := row2.values[i];
        var verdict := AreOutputsSame(result1, result2);
        assert verdict == VerdictAt(o1, o2, r, i);
        if verdict == InvalidCast {
          assert Visited(o1, r, i) && VerdictAt(o1, o2, r, i) == InvalidCast;
          return Fail(InvalidCastException);
        }
        if verdict == NotEqual {
          summary.resultsAreIdentical := false;
        }
      }
    }
    outcome := Pass;
  }

  /**
   * Compares two outputs that have already been read: starts a summary with
   * both flags true, then runs the column pass and the data pass.
   */
  method AreQueryOutputsIdentical(command1Output: ResultSet, command2Output: ResultSet)
    returns (result: Result<ComparisonResult, Fault>)
    requires DataInBounds(command1Output, command2Output)
    ensures result.Failure? <==> CastFails(command1Output, command2Output)
    ensures result.Success? ==>
      && result.value.output1 == command1Output
      && result.value.output2 == command2Output
      && fresh(result.value.comparisonSummary)
      && result.value.comparisonSummary.State() == ExpectedSummary(command1Output, command2Output)
  {
    var summary := new ComparisonSummary();
    summary.columnsAreSame := true;
    summary.resultsAreIdentical := true;

    var comparisonOutput := ComparisonResult(command1Output, command2Output, summary);

    CompareColumnHeadersAndApplyToSummary(command1Output, command2Output, summary);
    var outcome := CompareDataAndApplyToSummary(command1Output, command2Output, summary);
    if outcome.Fail? {
      return Failure(outcome.error);
    }
    return Success(comparisonOutput);
  }

  // ---------------------------------------------------------------------------
  // Properties of the summary
  // ---------------------------------------------------------------------------

  /**
   * ColumnsAreSame holds iff no difference was listed and the counts agree,
   * which is iff the headers agree everywhere; ResultsAreIdentical holds iff
   * ColumnsAreSame does and every visited cell pair is equal.
   */
  lemma SummaryFlagsMeaning(o1: ResultSet, o2: ResultSet)
    requires DataInBounds(o1, o2)
    ensures var s := ExpectedSummary(o1, o2);
      && (s.columnsAreSame <==> s.columnDifferences == [] && !s.columnCountMismatch)
      && (s.columnsAreSame <==>
            |o1.columns| == |o2.columns|
            && forall c :: 0 <= c < |o1.columns| ==> SameHeader(o1.columns[c], o2.columns[c]))
      && (s.resultsAreIdentical <==> s.columnsAreSame && VisitedCellsEqual(o1, o2))
      && (s.columnCountMismatch <==> |o1.columns| != |o2.columns|)
  {
    ColumnDiffsEmptyIff(o1.columns, o2.columns);
  }

  /**
   * When the summary says identical, the two outputs agree on every header
   * property compared and on every visited cell.
   */
  lemma IdenticalMeansAgreement(o1: ResultSet, o2: ResultSet)
    requires DataInBounds(o1, o2)
    requires ExpectedSummary(o1, o2).resultsAreIdentical
    ensures |o1.columns| == |o2.columns|
    ensures forall c :: 0 <= c < |o1.columns| ==> SameHeader(o1.columns[c], o2.columns[c])
    ensures forall r, i :: Visited(o1, r, i) ==> o1.rows[r].values[i] == o2.rows[r].values[i]
  {
    SummaryFlagsMeaning(o1, o2);
    forall r, i | Visited(o1, r, i)
      ensures o1.rows[r].values[i] == o2.rows[r].values[i]
    {
      assert VerdictAt(o1, o2, r, i) == Equal;
    }
  }

  /**
   * Extra columns on either side, with the shared headers agreeing, set only
   * ColumnCountMismatch and clear both flags; no ColumnDifference is listed.
   */
  lemma ColumnCountOnlyMismatch(o1: ResultSet, o2: ResultSet)
    requires DataInBounds(o1, o2)
    requires |o1.columns| != |o2.columns|
    requires forall c :: 0 <= c < |o1.columns| && c < |o2.columns| ==> o1.columns[c] == o2.columns[c]
    ensures ExpectedSummary(o1, o2) == SummaryState(false, false, [], true)
  {
    ColumnDiffsEmptyIff(o1.columns, o2.columns);
  }

  /** A cell of some type other than String and Int32 appears in `o`. */
  ghost predicate HasOtherCell(o: ResultSet) {
    exists r, i :: Visited(o, r, i) && o.rows[r].values[i].Other?
  }

  /**
   * Comparing an output with itself is always in bounds; it throws exactly
   * when a cell is neither a string nor an int, and otherwise leaves both
   * flags true, no count mismatch and no column differences.
   */
  lemma SelfComparisonIdentical(o: ResultSet)
    ensures DataInBounds(o, o)
    ensures CastFails(o, o) <==> HasOtherCell(o)
    ensures !HasOtherCell(o) ==> ExpectedSummary(o, o) == SummaryState(true, true, [], false)
  {
    ColumnDiffsEmptyIff(o.columns, o.columns);
    if HasOtherCell(o) {
      var r, i :| Visited(o, r, i) && o.rows[r].values[i].Other?;
      assert VerdictAt(o, o, r, i) == InvalidCast;
    }
  }
}

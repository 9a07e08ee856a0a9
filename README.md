# SqlScientist comparison core in Dafny

SqlScientist checks that two SQL queries behave the same. It runs both, reads
back what each produced, and compares the two outputs: column headers by
position, then the data cell by cell. An experiment repeats that comparison
once per parameter collection, one collection per test scenario.

This project models that comparison logic:

- `wrappers.dfy`, module `Wrappers`: `Result` and `Outcome`. An exception the
  comparator throws is modelled as one of these values.
- `data_model.dfy`, module `DataModel`: the data the comparator works on.
  - `Cell` is one value, tagged by its runtime type: `Str`, `Int` (32-bit) or
    `Other(typeName, rendering)`. DBNull, decimal, long and the rest are `Other`.
    By convention an `Other` never names System.String or System.Int32
    (predicate `Genuine`).
  - `ColumnInfo`, `QueryRow` and `ResultSet` (columns plus rows).
  - `ComparisonParameter`, `ComparisonParameterCollection` and `ComparisonInput`.
- `sql_comparator.dfy`, module `SqlComparator`: the comparator of
  `SqlScientist/SqlComparator.cs`, as written.
  - `AreOutputsSame` is a pure function.
  - The column pass and the data pass are methods that update one mutable
    `ComparisonSummary` object.
  - `AreQueryOutputsIdentical` creates the summary and runs the two passes.
  - Each method is proved against a specification function (`ColumnDiffs`,
    `VisitedCellsEqual`, `CastFails`, `ExpectedSummary`). Lemmas prove what
    those functions mean.
- `result_set_comparison.dfy`, module `ResultSetComparison`: a **variant**. It
  is not the code of `SqlComparator.cs`. It is the comparison the test suite
  expects of `CompareQueryOutputs`:
  - rows are compared up to the smaller row count, with a separate
    `RowCountMismatch` flag;
  - every differing cell is listed, as `DataDifferences`;
  - a batch may yield several result sets, which are compared pairwise.

  It also holds the corrected cell equality, `AreValuesEqual`.
- `experiment_runner.dfy`, module `Experiments`: `ExperimentRunner.RunExperiment`.
  It is a loop proved against the specification function `Experiment`, which
  maps the comparator over the collections.
- `findings.dfy`, module `Findings`: concrete inputs for each finding below.
  Each one is shown both as written and as corrected.

The test suite expects a collect-all, min-bounded data comparison
(`SqlScientist.Tests/SqlComparatorTests.cs:308-346`). `SqlComparator.cs` does
neither:

- it walks output 1's rows and cells and reads output 2 at the same positions;
- it only clears a flag when a cell differs.

The model follows the code. The tests' behaviour is kept apart, as the variant.

## Model

| member | source | states |
|---|---|---|
| `DataModel.TypeOf` | SqlScientist/SqlComparator.cs:125 | A cell's runtime type is String exactly for `Str` and Int32 exactly for `Int`. A genuine `Other` cell never reports String or Int32 as its type name |
| `SqlComparator.AreOutputsSame` | SqlScientist/SqlComparator.cs:123-134 | The comparison throws InvalidCast exactly when both cells have the same runtime type and it is neither String nor Int32 (DBNull, decimal, ...). It says Equal exactly when the cells are equal and not `Other`. Values of different runtime types are NotEqual, so "Test1" vs 123 is NotEqual |
| `SqlComparator.ColumnDiffsWellFormed` | SqlScientist/SqlComparator.cs:85-111 | Every listed ColumnDifference has an index below the smaller column count. Each of its four flags is exactly that property's inequality, and at least one is set. Indices strictly increase along the list |
| `SqlComparator.ColumnDiffsComplete` | SqlScientist/SqlComparator.cs:88-112 | An index below the smaller count gets a ColumnDifference exactly when name, provider type, nullability or size differ there |
| `SqlComparator.ColumnDiffsEmptyIff` | SqlScientist/SqlComparator.cs:88-112 | The list is empty exactly when every shared index has agreeing headers |
| `SqlComparator.ColumnDiffsIgnoreExtraColumns` | SqlScientist/SqlComparator.cs:85-88 | Columns beyond the smaller count never affect the list. Cutting both sides to that count gives the same list, and the list has at most that many entries |
| `SqlComparator.ColumnDiffsIgnoreDataType` | SqlScientist/SqlComparator.cs:92-95 | The .NET `DataType` is never compared. Changing it in any header of either output leaves the list unchanged |
| `SqlComparator.ProviderTypeAndSizeComparedVerbatim` | SqlScientist/SqlComparator.cs:93-95 | nvarchar(100) vs varchar(100) gives one entry with only the type flag set. The 2147483647 max-size sentinel vs 50 gives one entry with only the size flag set |
| `SqlComparator.ComparisonSummary.constructor` | SqlScientist/ComparisonSummary.cs:5-11 | A new summary has both flags false, no differences and no count mismatch |
| `SqlComparator.CompareColumnHeadersAndApplyToSummary` | SqlScientist/SqlComparator.cs:82-121 | Appends exactly `ColumnDiffs` to the summary's list. ColumnCountMismatch becomes old value OR unequal counts. Both flags become old value AND (no entry AND equal counts), so they only ever go from true to false |
| `SqlComparator.CompareDataAndApplyToSummary` | SqlScientist/SqlComparator.cs:62-80 | Requires output 2 to have at least output 1's rows and, row by row, values. Throws exactly when some visited cell pair fails the int cast. Otherwise ResultsAreIdentical becomes old value AND (every visited pair Equal). The flag is only ever cleared, and the other fields are untouched |
| `SqlComparator.AreQueryOutputsIdentical` | SqlScientist/SqlComparator.cs:40-58 | Fails exactly when a visited cell pair throws. Otherwise it returns both outputs and a fresh summary equal to `ExpectedSummary`, which starts with both flags true and then applies the column pass and the data pass |
| `SqlComparator.SummaryFlagsMeaning` | SqlScientist/SqlComparator.cs:40-56 | ColumnsAreSame holds iff the list is empty and the counts agree, which is iff every header agrees. ResultsAreIdentical holds iff ColumnsAreSame holds and every visited cell pair is Equal. ColumnCountMismatch holds iff the counts differ |
| `SqlComparator.IdenticalMeansAgreement` | SqlScientist/SqlComparator.cs:40-56 | If the result is identical, the counts agree, every header agrees on the four compared properties, and every visited cell of output 1 equals output 2's cell at that position |
| `SqlComparator.ColumnCountOnlyMismatch` | SqlScientist/SqlComparator.cs:115-120 | When the counts differ but the shared headers agree, the summary is exactly (not identical, columns not same, no entries, count mismatch) |
| `SqlComparator.SelfComparisonIdentical` | SqlScientist/SqlComparator.cs:40-56 | Comparing an output with itself stays in bounds. It throws exactly when the output holds a cell that is neither String nor Int32. Otherwise the summary is both flags true, no entries and no count mismatch |
| `ResultSetComparison.AreValuesEqual` | SqlScientist/SqlComparator.cs:123-134 | Corrected cell equality: true exactly when the values are equal. It agrees with `AreOutputsSame` wherever that does not throw |
| `ResultSetComparison.CellDifferencesExact` | SqlScientist.Tests/SqlComparatorTests.cs:308-334 | Listed cell differences lie below the shorter row, in strictly increasing column order. A shared column is listed exactly when its values differ |
| `ResultSetComparison.CellDifferencesEmptyIff` | SqlScientist.Tests/SqlComparatorTests.cs:308-334 | A row pair lists no cell difference exactly when all shared cells are equal |
| `ResultSetComparison.DataDifferencesExact` | SqlScientist.Tests/SqlComparatorTests.cs:308-334 | Row differences come in strictly increasing row order. Each lists all its row's differing cells, and at least one. A shared row is listed exactly when it has a differing cell |
| `ResultSetComparison.DataDifferencesEmptyIff` | SqlScientist.Tests/SqlComparatorTests.cs:308-346 | No row difference is listed exactly when every shared cell of the shared rows is equal |
| `ResultSetComparison.CompareResultSetIdenticalIff` | SqlScientist.Tests/SqlComparatorTests.cs:308-358 | Variant: a result-set pair is identical exactly when the column counts and row counts agree, every header agrees, and every shared cell is equal |
| `ResultSetComparison.WellFormedIdenticalIff` | SqlScientist.Tests/SqlComparatorTests.cs:308-358 | Variant: for result sets whose rows are as wide as their headers, identical means agreeing headers and exactly the same rows |
| `ResultSetComparison.SelfComparisonClean` | SqlScientist.Tests/SqlComparatorTests.cs:348-358 | Variant: comparing a result set with itself is identical, with no column or data differences and neither count flag set |
| `ResultSetComparison.RowCountOnlyMismatch` | SqlScientist.Tests/SqlComparatorTests.cs:336-346 | Variant: a pure row-count difference sets RowCountMismatch, lists no data difference and is not identical |
| `ResultSetComparison.CompareQueryOutputs` | SqlScientist.Tests/SqlComparatorTests.cs:386-430 | Variant: one ResultSetComparison per result-set pair, up to the smaller count, each pairing the i-th sets. ResultSetCountsAreNotSame holds iff the counts differ. ResultsAreIdentical holds iff the counts are equal and every pair is identical |
| `ResultSetComparison.QueryIdenticalIff` | SqlScientist.Tests/SqlComparatorTests.cs:386-430 | Variant: two batches are identical exactly when they yield equally many result sets and every pair agrees |
| `Experiments.ExperimentAt` | SqlScientist/ExperimentRunner.cs:23-28 | An experiment has exactly one comparison per collection. The i-th is the comparator's result for the unchanged query1 and query2 with the i-th collection's own parameters |
| `Experiments.ExperimentAppend` | SqlScientist/ExperimentRunner.cs:25-29 | Collections are compared independently: the experiment over `a + b` is the experiment over `a` followed by the one over `b` |
| `Experiments.DefaultCollectionBindsNothing` | SqlScientist/Parameterization/ComparisonParameterCollection.cs:13-16 | A collection built with the parameterless constructor is compared with an empty parameter list |
| `Experiments.ExperimentRunner.constructor` | SqlScientist/ExperimentRunner.cs:16-19 | The runner keeps the comparator it is given |
| `Experiments.ExperimentRunner.RunExperiment` | SqlScientist/ExperimentRunner.cs:21-35 | The result is `Experiment` of the collections. It has one comparison per collection, in input order, each computed from (query1, query2, that collection's parameters). The loop invariant: after k steps the list is the comparator mapped over the first k collections. An empty list of collections gives an empty result |
| `Findings.ExtraRowsOfSecondOutputIgnored` | SqlScientist/SqlComparator.cs:65-68 | As written: output 1 = one row "V1" and output 2 = rows "V1", "V2" (same header) are reported identical |
| `Findings.ExtraRowsDetected` | SqlScientist.Tests/SqlComparatorTests.cs:336-346 | Corrected: the same pair is not identical and sets RowCountMismatch |
| `Findings.MissingRowsOfSecondOutputOutOfBounds` | SqlScientist/SqlComparator.cs:65-68 | As written: with output 1 = rows "V1", "V2" and output 2 = row "V1", the data pass reads past output 2's last row |
| `Findings.NarrowerSecondOutputOutOfBounds` | SqlScientist/SqlComparator.cs:69-72 | As written: output 1 with columns Col1, Col2 and one row, against output 2 with column Col1 and one row: both are well formed with equal row counts, yet the data pass reads value 1 of a one-value row |
| `Findings.NarrowerSecondOutputDetected` | SqlScientist.Tests/SqlComparatorTests.cs:265-277 | Corrected: the same pair sets ColumnCountMismatch, lists no column or data difference, keeps the row counts equal and is not identical |
| `Findings.MissingRowsDetected` | SqlScientist.Tests/SqlComparatorTests.cs:336-346 | Corrected: the same pair sets RowCountMismatch, lists no data difference and is not identical |
| `Findings.NullCellsFailCast` | SqlScientist/SqlComparator.cs:125-133 | As written: two DBNull cells pass the type test and fail the int cast. An output holding a NULL, compared with itself, throws |
| `Findings.NullCellsCompareEqual` | SqlScientist/SqlComparator.cs:123-134 | Corrected: NULL equals NULL, and that output compared with itself is identical |

## Left out

- Reading the outputs (`SqlComparator.cs:136-177`) is not modelled. It covers `ExecuteReader`, `GetSchemaTable` and the reflection that fills `DataType`. Both outputs are inputs of the model, and `DataType` is kept only as a type name.
- Command creation, the connection and the `@returnValue` parameter setup (`SqlComparator.cs:22-35`) are database I/O and are not modelled.
- `ISqlCommandFactory`, the `RunExperiments` stub and the UI form have no comparison logic.
- The "stop on first mismatch" and "maximum concurrent experiments" settings exist only as UI labels. The model is sequential.
- The NSubstitute test helpers are test plumbing, not comparison logic.
- `QueryOutput`, the type `SqlComparator.cs` reads into, is modelled as `ResultSet`: its columns plus its rows. `ComparisonResult` holds the two outputs and the summary.
- `ComparisonInput.cs:7` shows only a two-argument constructor, but `ExperimentRunner.cs:27` and the tests pass three arguments. The model's `ComparisonInput` carries the parameters, as the three-argument call does.
- `SqlComparator.CompareDataAndApplyToSummary`: requires that output 2 has at least output 1's rows and, row by row, values. Outside that, the code throws `ArgumentOutOfRangeException`; that exception is not modelled, and the requires stands in for it.
- `SqlComparator.CompareDataAndApplyToSummary`: when a cast throws, the pass stops. The model states only that ResultsAreIdentical was never set back to true; the part-updated summary is discarded together with the exception.
- `Experiments.ExperimentRunner.RunExperiment`: the comparator is a total, deterministic function of its input. Its database work and any exception it throws are not modelled.
- `ResultSetComparison.AreValuesEqual`: values of other types compare by their rendering, so decimal `1.5` and `1.50` count as different unless rendered alike. Numeric normalisation is not modelled.
- Parameter binding into the queries, multi-statement execution and the typed execution errors are not modelled. The variant `CompareQueryOutputs` takes the result sets each batch produced as inputs.

## Findings

| source | as written | input that shows it | evidently intended | confidence | as-written member | corrected member |
|---|---|---|---|---|---|---|
| SqlScientist/SqlComparator.cs:65-68 | The row loop is bounded by output 1's row count alone, so rows that only output 2 has are never looked at | output 1 `SELECT 'V1' as 'Col1'`, output 2 `SELECT 'V1' as 'Col1' UNION ALL SELECT 'V2'`: reported identical | Not identical, with a row-count mismatch (SqlComparatorTests.cs:336-346, the other way round) | high; not executed | `Findings.ExtraRowsOfSecondOutputIgnored` | `Findings.ExtraRowsDetected` |
| SqlScientist/SqlComparator.cs:65-68 | Output 2's rows are indexed with output 1's row count, so an output 2 with fewer rows is read past its end | output 1 `SELECT 'V1' as 'Col1' UNION ALL SELECT 'V2'`, output 2 `SELECT 'V1' as 'Col1'`: row 1 of output 2 does not exist | RowCountMismatch, no data difference, not identical (SqlComparatorTests.cs:336-346) | high; not executed | `Findings.MissingRowsOfSecondOutputOutOfBounds` | `Findings.MissingRowsDetected` |
| SqlScientist/SqlComparator.cs:69-72 | The value loop is bounded by output 1's row width alone, so when output 1 has more columns than output 2 and at least one row, output 2's row is read past its end. The test `CanOutputWhenFirstQueryHasMoreColumns` (SqlComparatorTests.cs:265-277) only passes because its tables are empty; for well-formed outputs `SqlComparator.ColumnCountOnlyMismatch` applies to a wider output 1 only when it has no rows | output 1 `SELECT 'V1' as 'Col1', 'W1' as 'Col2'`, output 2 `SELECT 'V1' as 'Col1'`: value 1 of output 2's row 0 does not exist | ColumnCountMismatch, no column difference, not identical (SqlComparatorTests.cs:265-277) | high; not executed | `Findings.NarrowerSecondOutputOutOfBounds` | `Findings.NarrowerSecondOutputDetected` |
| SqlScientist/SqlComparator.cs:133 | Every same-type pair that is not a string is unboxed to `int`, and that throws for DBNull, decimal, long and the like | `SELECT NULL as 'Col1'` compared with itself: both cells are DBNull, and the cast throws | NULL equals NULL, and same-type values compare by value | medium; not executed | `Findings.NullCellsFailCast` | `Findings.NullCellsCompareEqual` |

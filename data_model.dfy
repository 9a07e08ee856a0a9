/**
 * The plain data the comparator works on: the cells, column headers and rows a
 * query produced, and the parameters an experiment binds to both queries.
 */
module DataModel {

  /** A 32-bit signed integer, the width of C#'s `int`. */
  newtype int32 = x: int | -0x8000_0000 <= x < 0x8000_0000

  /** The column size the driver reports for `varchar(max)` and friends. */
  const MaxColumnSize: int32 := 2147483647

  /**
   * One cell value, tagged by its runtime type. `Str` is a `System.String`,
   * `Int` a boxed `System.Int32`; every other runtime type (DBNull, decimal,
   * long, DateTime, byte[] ...) is `Other`, carrying the type's name and a
   * rendering of the value. By convention an `Other` never names
   * "System.String" or "System.Int32": those values are always `Str` and
   * `Int` (see `Genuine`).
   */
  datatype Cell =
    | Str(text: string)
    | Int(number: int32)
    | Other(typeName: string, rendering: string)

  /** A cell that stands for a real runtime value: `Other` is kept for the remaining types. */
  predicate Genuine(c: Cell) {
    c.Other? ==> c.typeName != "System.String" && c.typeName != "System.Int32"
  }

  /** The runtime type of a cell, as `GetType()` reports it. */
  datatype RuntimeType = StringType | Int32Type | OtherType(name: string)

  function TypeOf(c: Cell): (t: RuntimeType)
    ensures t == StringType <==> c.Str?
    ensures t == Int32Type <==> c.Int?
    ensures Genuine(c) ==> t != OtherType("System.String") && t != OtherType("System.Int32")
  {
    match c
    case Str(_) => StringType
    case Int(_) => Int32Type
    case Other(name, _) => OtherType(name)
  }

  /** The value a NULL column reads as. */
  const DbNull: Cell := Other("System.DBNull", "")

  /**
   * A column header. `dataType` is the name of the .NET type the driver maps
   * the column to; `sqlDataType` is the provider's own type name ("varchar").
   */
  datatype ColumnInfo = ColumnInfo(
    name: string,
    dataType: string,
    sqlDataType: string,
    isNullable: bool,
    size: int32)

  /** One row: the values of its cells, left to right. */
  datatype QueryRow = QueryRow(values: seq<Cell>)

  /** What one query produced: its column headers and its rows, in order. */
  datatype ResultSet = ResultSet(columns: seq<ColumnInfo>, rows: seq<QueryRow>)

  /** Every row has exactly one value per column, as a reader produces them. */
  predicate WellFormed(o: ResultSet) {
    forall r :: 0 <= r < |o.rows| ==> |o.rows[r].values| == |o.columns|
  }

  /** A name-to-value binding applied identically to both queries. */
  datatype ComparisonParameter = ComparisonParameter(name: string, value: Cell)

  /** One test scenario: the parameters to bind for one run of the query pair. */
  datatype ComparisonParameterCollection =
    ComparisonParameterCollection(parameters: seq<ComparisonParameter>)

  /** The parameterless constructor: a scenario that binds nothing. */
  function DefaultCollection(): ComparisonParameterCollection
  {
    ComparisonParameterCollection([])
  }

  /** What the comparator is asked to compare: two queries and their parameters. */
  datatype ComparisonInput = ComparisonInput(
    query1: string,
    query2: string,
    queryParameters: seq<ComparisonParameter>)

  function Min(a: int, b: int): (m: int)
    ensures m <= a && m <= b && (m == a || m == b)
  {
    if a < b then a else b
  }
}

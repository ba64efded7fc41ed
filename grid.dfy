/** The whole report grid: which tests the types hold, the layout of their
    rows (the plain tests from row 2, then every data-driven test from the
    row after the last plain test), every cell of the filled grid, and the
    data rows that the final sort reorders. */
module Grid {
  import opened Results
  import opened TestMetadata
  import opened Sheet
  import opened Report

  // ---------------------------------------------------------------------
  // Tests and their sources

  function PlainTestsOf(types: seq<TestType>): seq<Method> {
    TestsMarkedWith(AllMethods(types), "TestAttribute")
  }

  function DataDrivenTestsOf(types: seq<TestType>): seq<Method> {
    TestsMarkedWith(AllMethods(types), "TestCaseSourceAttribute")
  }

  /** Each of `ms` is a data-driven test whose source resolves. */
  predicate AllResolve(types: seq<TestType>, ms: seq<Method>) {
    forall m :: m in ms ==> HasAttributeNamed(m, "TestCaseSourceAttribute") && ResolveSource(types, m).Ok?
  }

  /** The tests `ms`, in order, each with the items its source yields. */
  function GroupsOf(types: seq<TestType>, ms: seq<Method>): seq<Group>
    requires AllResolve(types, ms)
  {
    seq(|ms|, j requires 0 <= j < |ms| => Group(ms[j], ResolveSource(types, ms[j]).value))
  }

  /** Resolving one more test adds its group at the end. */
  lemma GroupsOfSnoc(types: seq<TestType>, ms: seq<Method>, j: int)
    requires 0 <= j < |ms| && AllResolve(types, ms[..j])
    requires HasAttributeNamed(ms[j], "TestCaseSourceAttribute") && ResolveSource(types, ms[j]).Ok?
    ensures AllResolve(types, ms[..j + 1])
    ensures GroupsOf(types, ms[..j + 1]) == GroupsOf(types, ms[..j]) + [Group(ms[j], ResolveSource(types, ms[j]).value)]
  {
    assert ms[..j + 1] == ms[..j] + [ms[j]];
  }

  /** Every data-driven test's source resolves. */
  predicate SourcesResolve(types: seq<TestType>) {
    AllResolve(types, DataDrivenTestsOf(types))
  }

  /** The data-driven tests in enumeration order, each with its items. */
  function Groups(types: seq<TestType>): seq<Group>
    requires SourcesResolve(types)
  {
    GroupsOf(types, DataDrivenTestsOf(types))
  }

  // ---------------------------------------------------------------------
  // The layout of the grid

  /** What the grid is made of: the plain tests in row order and the
      data-driven tests with their items in the order they are written. */
  datatype Layout = Layout(plain: seq<Method>, groups: seq<Group>)

  /** Every row of the layout can be written without an exception. */
  predicate Writable(l: Layout) {
    && (forall m :: m in l.plain ==> PlainRowWritable(m))
    && (forall g :: g in l.groups ==> GroupWritable(g))
  }

  function LayoutOf(types: seq<TestType>): Layout
    requires SourcesResolve(types)
  {
    Layout(PlainTestsOf(types), Groups(types))
  }

  /** CreateExcelFileWithTestInfos gets through filling without an exception. */
  predicate ReportWritable(types: seq<TestType>) {
    SourcesResolve(types) && Writable(LayoutOf(types))
  }

  /** Every cell of the filled grid, before the sort. */
  function GridCell(l: Layout, newLine: string, a: Address): Cell
    requires Writable(l)
  {
    var col := ColumnNumber(a.column);
    if col < 0 || a.row < 1 then Blank
    else if a.row == 1 then Cell(Some(Columns[col]), false)
    else if a.row < |l.plain| + 2 then PlainCell(l.plain[a.row - 2], col, Blank, newLine)
    else DataDrivenCell(l.groups, |l.plain| + 2, col, a.row, Blank)
  }

  /** The last row of the filled grid. */
  function GridLastRow(l: Layout): nat {
    |l.plain| + 1 + MaxItems(l.groups)
  }

  /** The cell of column number `i` in the data row `k` (row `k + 2`). */
  function DataAddress(k: int, i: int): Address
    requires 0 <= i < |Columns|
  {
    Address(GetLetterByNumber(i), k + 2)
  }

  /** The seven cells of the data row `k`. */
  function RowAt(cells: map<Address, Cell>, k: int): seq<Cell> {
    seq(|Columns|, i requires 0 <= i < |Columns| => CellAt(cells, DataAddress(k, i)))
  }

  /** The rows below the header down to `lastRow`, the part the table sort reorders. */
  function DataRows(cells: map<Address, Cell>, lastRow: int): seq<seq<Cell>> {
    seq(if lastRow < 1 then 0 else lastRow - 1, k => RowAt(cells, k))
  }

  /** The rows below the header of the filled grid. */
  function GridRows(l: Layout, newLine: string): seq<seq<Cell>>
    requires Writable(l)
  {
    seq(GridLastRow(l) - 1, k =>
      seq(|Columns|, i requires 0 <= i < |Columns| => GridCell(l, newLine, DataAddress(k, i))))
  }

  /** The sort key: the text of a row's Test cell. */
  function TestText(row: seq<Cell>): string {
    var t := Position(Test);
    if t < |row| && row[t].value.Some? then row[t].value.value else ""
  }

  /** `lastRow` is the bottom of `RangeUsed()`: no cell below it holds a
      value, and, unless it is 0, some cell on it does. */
  ghost predicate LastRowIsBottom(cells: map<Address, Cell>, lastRow: int) {
    && (forall a: Address :: a.row > lastRow ==> CellAt(cells, a).value.None?)
    && (lastRow >= 1 ==> exists a: Address :: a.row == lastRow && CellAt(cells, a).value.Some?)
  }

  /** A cell outside the data rows: the header, below the last row, or not one of the seven columns. */
  predicate OutsideDataRows(a: Address, lastRow: int) {
    !(2 <= a.row <= lastRow && ColumnNumber(a.column) >= 0)
  }

  // ---------------------------------------------------------------------
  // How the grid is filled

  /** The header and the rows of the plain tests `plain`, before any
      data-driven test is written: what CreateExcelFileWithTestInfos has
      filled when it calls AddDataDrivenTests. */
  function HeaderAndPlain(plain: seq<Method>, newLine: string, a: Address): Cell
    requires forall m :: m in plain ==> PlainRowWritable(m)
  {
    var col := ColumnNumber(a.column);
    if col < 0 || a.row < 1 then Blank
    else if a.row == 1 then Cell(Some(Columns[col]), false)
    else if a.row < |plain| + 2 then PlainCell(plain[a.row - 2], col, Blank, newLine)
    else Blank
  }

  /** The grid holds the header and the rows of `plain`, and nothing else. */
  ghost predicate PlainFilled(cells: map<Address, Cell>, plain: seq<Method>, newLine: string)
    requires forall m :: m in plain ==> PlainRowWritable(m)
  {
    forall a :: CellAt(cells, a) == HeaderAndPlain(plain, newLine, a)
  }

  /** Writing the row of plain test `i` over the first `i` rows gives the first `i + 1`. */
  lemma PlainStep(plain: seq<Method>, i: int, newLine: string, a: Address)
    requires 0 <= i < |plain| && (forall m :: m in plain[..i] ==> PlainRowWritable(m)) && PlainRowWritable(plain[i])
    ensures forall m :: m in plain[..i + 1] ==> PlainRowWritable(m)
    ensures HeaderAndPlain(plain[..i + 1], newLine, a) ==
      if InRow(a, i + 2) then PlainCell(plain[i], ColumnNumber(a.column), HeaderAndPlain(plain[..i], newLine, a), newLine)
      else HeaderAndPlain(plain[..i], newLine, a)
  {
    assert plain[..i + 1] == plain[..i] + [plain[i]];
    if 2 <= a.row < i + 2 {
      assert plain[..i + 1][a.row - 2] == plain[..i][a.row - 2];
    }
  }

  /** The filled grid is the header and plain rows with every group
      written over them from the row after the last plain test. */
  lemma GridCellComposition(l: Layout, newLine: string, a: Address)
    requires Writable(l)
    ensures GridCell(l, newLine, a) == AfterGroups(l.groups, |l.plain| + 2, a, HeaderAndPlain(l.plain, newLine, a))
  {
    var col := ColumnNumber(a.column);
    if 0 <= col && a.row < |l.plain| + 2 {
      DataDrivenCellBeforeStart(l.groups, |l.plain| + 2, col, a.row, HeaderAndPlain(l.plain, newLine, a));
    }
  }

  /** Rows that agree cell by cell with a grid's data rows are its data rows. */
  lemma RowsFromCells(cells: map<Address, Cell>, lastRow: int, rows: seq<seq<Cell>>)
    requires |rows| == |DataRows(cells, lastRow)|
    requires forall k :: 0 <= k < |rows| ==> |rows[k]| == |Columns|
    requires forall k, i :: 0 <= k < |rows| && 0 <= i < |Columns| ==> rows[k][i] == CellAt(cells, DataAddress(k, i))
    ensures DataRows(cells, lastRow) == rows
  {
    forall k | 0 <= k < |rows| ensures DataRows(cells, lastRow)[k] == rows[k] {
      assert RowAt(cells, k) == rows[k];
    }
  }

  /** A grid holding the filled cells, read row by row, gives GridRows. */
  lemma RowsOfGrid(cells: map<Address, Cell>, l: Layout, newLine: string)
    requires Writable(l)
    requires forall a :: CellAt(cells, a) == GridCell(l, newLine, a)
    ensures DataRows(cells, GridLastRow(l)) == GridRows(l, newLine)
  {
    RowsFromCells(cells, GridLastRow(l), GridRows(l, newLine));
  }

  // ---------------------------------------------------------------------
  // Reordering the data rows

  /** The addresses of the data rows 2 to `lastRow`. */
  function DataAddresses(lastRow: int): set<Address> {
    set k, i | 0 <= k < lastRow - 1 && 0 <= i < |Columns| :: DataAddress(k, i)
  }

  /** The grid with its data rows replaced by `rows`, the rest kept. */
  function WithDataRows(cells: map<Address, Cell>, lastRow: int, rows: seq<seq<Cell>>): map<Address, Cell>
    requires |rows| == |DataRows(cells, lastRow)|
    requires forall k :: 0 <= k < |rows| ==> |rows[k]| == |Columns|
  {
    map a | a in cells.Keys + DataAddresses(lastRow) ::
      if OutsideDataRows(a, lastRow) then CellAt(cells, a) else rows[a.row - 2][ColumnNumber(a.column)]
  }

  /** WithDataRows puts `rows` in the data rows and leaves every other cell. */
  lemma WithDataRowsMeaning(cells: map<Address, Cell>, lastRow: int, rows: seq<seq<Cell>>)
    requires |rows| == |DataRows(cells, lastRow)|
    requires forall k :: 0 <= k < |rows| ==> |rows[k]| == |Columns|
    ensures DataRows(WithDataRows(cells, lastRow, rows), lastRow) == rows
    ensures forall a :: OutsideDataRows(a, lastRow) ==> CellAt(WithDataRows(cells, lastRow, rows), a) == CellAt(cells, a)
  {
    var result := WithDataRows(cells, lastRow, rows);
    forall k, i | 0 <= k < |rows| && 0 <= i < |Columns| ensures rows[k][i] == CellAt(result, DataAddress(k, i)) {
      ColumnLetters(i);
      assert DataAddress(k, i) in DataAddresses(lastRow);
    }
    RowsFromCells(result, lastRow, rows);
  }
}

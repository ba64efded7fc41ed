/** What the filled report shows, cell by cell: the header, the identity and
    annotation cells of the plain tests, the rows of the data-driven tests,
    where the grid ends, and what the sorted rows keep. */
module ReportProperties {
  import opened Results
  import opened Text
  import opened TestMetadata
  import opened Sheet
  import opened Report
  import opened Grid

  /** Row 1 holds each column's name in that column's cell, not highlighted. */
  lemma HeaderCells(l: Layout, newLine: string, c: Column)
    requires Writable(l)
    ensures GridCell(l, newLine, CellOf(c, 1)) == Cell(Some(Name(c)), false)
  {
    ColumnListed(c);
    ColumnLetters(Position(c));
  }

  /** The seven columns have seven different letters, A to G in order. */
  lemma ColumnLettersDistinct(c: Column, d: Column)
    ensures GetLetterByNumber(Position(c)) == ["ABCDEFG"[Position(c)]]
    ensures GetLetterByNumber(Position(c)) == GetLetterByNumber(Position(d)) <==> c == d
  {
    ColumnLetters(Position(c));
    ColumnLetters(Position(d));
  }

  /** The plain test `i` is on row `i + 2`: its Class cell holds the name of
      its type and its Test cell its own name, and neither is highlighted. */
  lemma PlainIdentityCells(l: Layout, newLine: string, i: int)
    requires Writable(l) && 0 <= i < |l.plain|
    ensures GridCell(l, newLine, CellOf(Class, i + 2)) == Cell(Some(l.plain[i].reflectedTypeName), false)
    ensures GridCell(l, newLine, CellOf(Test, i + 2)) == Cell(Some(l.plain[i].name), false)
  {
    ColumnLetters(Position(Class));
    ColumnLetters(Position(Test));
  }

  /** The TestCaseId, Priority and Description cells of a plain test: with
      no attribute whose type name contains the column's name, the cell is
      highlighted and holds nothing; otherwise it holds the first argument
      of the first such attribute and is not highlighted. */
  lemma PlainAnnotationCell(l: Layout, newLine: string, i: int, c: Column)
    requires Writable(l) && 0 <= i < |l.plain|
    requires c == TestCaseId || c == Priority || c == Description
    ensures var m := l.plain[i];
      GridCell(l, newLine, CellOf(c, i + 2)).highlighted <==>
        forall a :: a in m.attributes ==> !Contains(a.typeName, Name(c))
    ensures GridCell(l, newLine, CellOf(c, i + 2)).highlighted <==> GridCell(l, newLine, CellOf(c, i + 2)).value.None?
    ensures var m := l.plain[i];
      GridCell(l, newLine, CellOf(c, i + 2)).value.Some? ==>
        exists k :: 0 <= k < |m.attributes| && Contains(m.attributes[k].typeName, Name(c)) &&
          (forall j :: 0 <= j < k ==> !Contains(m.attributes[j].typeName, Name(c))) &&
          |m.attributes[k].args| > 0 && GridCell(l, newLine, CellOf(c, i + 2)).value == Some(m.attributes[k].args[0])
  {
    var m := l.plain[i];
    assert m in l.plain;
    ColumnLetters(Position(c));
    var cell := GridCell(l, newLine, CellOf(c, i + 2));
    assert cell == ConstructorCell(m, Name(c), Blank);
    match FirstAttributeContaining(m, Name(c))
    case None =>
    case Some(k) =>
      assert m.attributes[k] in m.attributes;
  }

  /** The Category cell of every row is never highlighted; on a plain test's
      row it holds the first arguments of all its category attributes joined
      with ", ", which is the empty text when there are none. */
  lemma CategoryNeverHighlighted(l: Layout, newLine: string, a: Address)
    requires Writable(l) && ColumnNumber(a.column) == Position(Category)
    ensures !GridCell(l, newLine, a).highlighted
    ensures 2 <= a.row < |l.plain| + 2 ==>
      CategoryArgumentsPresent(l.plain[a.row - 2]) &&
      GridCell(l, newLine, a).value == Some(Join(", ", CategoryValues(l.plain[a.row - 2])))
    ensures 2 <= a.row < |l.plain| + 2 && CategoryValues(l.plain[a.row - 2]) == [] ==>
      GridCell(l, newLine, a).value == Some("")
  {
    if 2 <= a.row < |l.plain| + 2 {
      assert l.plain[a.row - 2] in l.plain;
    } else if a.row >= |l.plain| + 2 {
      DataDrivenKeepsStyle(l.groups, |l.plain| + 2, Position(Category), a.row, Blank);
    }
  }

  /** The Property cell of a plain test is highlighted exactly when no
      attribute's type name contains "Property", and then holds nothing;
      otherwise it holds one "<name> -> <value>" line per such attribute,
      joined with the new-line text. */
  lemma PlainPropertyCell(l: Layout, newLine: string, i: int)
    requires Writable(l) && 0 <= i < |l.plain|
    ensures var m := l.plain[i];
      GridCell(l, newLine, CellOf(Property, i + 2)).highlighted <==>
        forall a :: a in m.attributes ==> !Contains(a.typeName, "Property")
    ensures GridCell(l, newLine, CellOf(Property, i + 2)).highlighted <==>
      GridCell(l, newLine, CellOf(Property, i + 2)).value.None?
    ensures var m := l.plain[i];
      !GridCell(l, newLine, CellOf(Property, i + 2)).highlighted ==>
        PropertyArgumentsPresent(m) &&
        |PropertyLines(m)| == |AttributesContaining(m, "Property")| > 0 &&
        GridCell(l, newLine, CellOf(Property, i + 2)).value == Some(Join(newLine, PropertyLines(m)))
  {
    var m := l.plain[i];
    assert m in l.plain;
    ColumnLetters(Position(Property));
    var ps := AttributesContaining(m, "Property");
    if |ps| > 0 {
      assert ps[0] in ps;
    }
  }

  /** A data-driven row `k` rows below the last plain test: no cell in it is
      highlighted, and when no data-driven test has an item `k` it is blank. */
  lemma DataRowCell(l: Layout, newLine: string, a: Address)
    requires Writable(l) && ColumnNumber(a.column) >= 0 && a.row >= |l.plain| + 2
    ensures !GridCell(l, newLine, a).highlighted
    ensures (forall j :: 0 <= j < |l.groups| ==> !Covers(l.groups[j], a.row - |l.plain| - 2)) ==>
      GridCell(l, newLine, a) == Blank
  {
    var col := ColumnNumber(a.column);
    var start := |l.plain| + 2;
    DataDrivenKeepsStyle(l.groups, start, col, a.row, Blank);
    if forall j :: 0 <= j < |l.groups| ==> !Covers(l.groups[j], a.row - start) {
      DataDrivenCellUncovered(l.groups, start, col, a.row, Blank);
    }
  }

  /** All data-driven tests start on the same row, so in a data-driven row
      `k` rows below the last plain test the last test with an item `k`
      decides every column but Property, which stays blank. */
  lemma DataRowFromLastCover(l: Layout, newLine: string, a: Address, j: int)
    requires Writable(l) && ColumnNumber(a.column) >= 0 && a.row >= |l.plain| + 2
    requires LastCover(l.groups, j, a.row - |l.plain| - 2)
    ensures GridCell(l, newLine, a) ==
      var col := ColumnNumber(a.column);
      if col == Position(Property) then Blank
      else Cell(Some(ItemValue(l.groups, j, a.row - |l.plain| - 2, col)), false)
  {
    DataDrivenCellLastCover(l.groups, |l.plain| + 2, ColumnNumber(a.column), a.row, j, Blank);
  }

  /** Every row from 2 to the last row of the grid names a test in its Test
      cell: the sort key is never missing. */
  lemma RowsNameTheirTest(l: Layout, newLine: string, row: int)
    requires Writable(l) && 2 <= row <= GridLastRow(l)
    ensures GridCell(l, newLine, CellOf(Test, row)).value.Some?
  {
    ColumnLetters(Position(Test));
    var start := |l.plain| + 2;
    if row >= start {
      var j :| 0 <= j < |l.groups| && |l.groups[j].items| == MaxItems(l.groups);
      DataDrivenCellCovered(l.groups, start, Position(Test), row, j, Blank);
    }
  }

  /** Nothing lies below the last row of the grid. */
  lemma BlankBelowLastRow(l: Layout, newLine: string, a: Address)
    requires Writable(l) && a.row > GridLastRow(l)
    ensures GridCell(l, newLine, a) == Blank
  {
    var col := ColumnNumber(a.column);
    if col >= 0 {
      var start := |l.plain| + 2;
      forall j | 0 <= j < |l.groups| ensures !Covers(l.groups[j], a.row - start) {
        assert l.groups[j] in l.groups;
      }
      DataDrivenCellUncovered(l.groups, start, col, a.row, Blank);
    }
  }

  /** Rows holding the same rows as the filled grid, in any order (as the
      sorted report does), are seven cells wide and each names its test. */
  lemma ReorderedRowsNameTheirTest(l: Layout, newLine: string, rows: seq<seq<Cell>>)
    requires Writable(l)
    requires multiset(rows) == multiset(GridRows(l, newLine))
    ensures forall r: seq<Cell> :: r in rows ==> |r| == |Columns| && r[Position(Test)].value.Some?
  {
    var grid := GridRows(l, newLine);
    forall r: seq<Cell> | r in rows ensures |r| == |Columns| && r[Position(Test)].value.Some? {
      assert r in multiset(grid);
      var k :| 0 <= k < |grid| && grid[k] == r;
      RowsNameTheirTest(l, newLine, k + 2);
      ColumnLetters(Position(Test));
    }
  }
}

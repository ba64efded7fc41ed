/** What the report's grid holds once every test has been written and before
    the sort: the header row, one row per plain test starting at row 2, and
    the rows of the data-driven tests, which all start at the row after the
    last plain test. Every cell is given as a function of the input types. */
module Report {
  import opened Results
  import opened Text
  import opened Sequences
  import opened TestMetadata
  import opened Sheet

  /** The `columns` field: the header text of each column, in column order. */
  const Columns: seq<string> := ["TestCaseId", "Class", "Test", "Category", "Priority", "Property", "Description"]

  /** `GetLetterByNumber`: the one-character string of code `65 + number`.
      It is defined only for codes 0 to 0xD7FF: Dafny characters exclude
      the UTF-16 surrogate range, and the wrap-around of a negative code
      under the C# cast is not modelled. */
  function GetLetterByNumber(number: int): string
    requires 0 <= number + 65 < 0xD800
  {
    [(number + 65) as char]
  }

  /** The column number of one of the seven column letters, otherwise -1. */
  function ColumnNumber(column: string): int {
    if |column| == 1 && 'A' <= column[0] <= 'G' then column[0] as int - 65 else -1
  }

  /** The seven columns are addressed by the letters A to G, one letter each,
      and ColumnNumber reads the number back. */
  lemma ColumnLetters(i: int)
    requires 0 <= i < |Columns|
    ensures GetLetterByNumber(i) == ["ABCDEFG"[i]]
    ensures ColumnNumber(GetLetterByNumber(i)) == i
  {
  }

  /** Every column letter is the letter of its own column number, so two
      addresses in one row are the same exactly when their numbers are. */
  lemma ColumnNumberInverse(column: string)
    requires ColumnNumber(column) >= 0
    ensures ColumnNumber(column) < |Columns|
    ensures GetLetterByNumber(ColumnNumber(column)) == column
  {
    assert column == [column[0]];
  }

  /** No two columns share a name. */
  lemma ColumnsDistinct()
    ensures forall i, j :: 0 <= i < j < |Columns| ==> Columns[i] != Columns[j]
  {
    forall i, j | 0 <= i < j < |Columns| ensures Columns[i] != Columns[j] {
      if |Columns[i]| == |Columns[j]| {
        assert Columns[i][0] != Columns[j][0] || Columns[i][2] != Columns[j][2];
      }
    }
  }

  /** `columns.IndexOf(name)` finds each column at its own position. */
  lemma IndexOfColumn(i: int)
    requires 0 <= i < |Columns|
    ensures IndexOf(Columns, Columns[i]) == i
  {
    ColumnsDistinct();
    assert Columns[i] in Columns;
    var r := IndexOf(Columns, Columns[i]);
    assert Columns[r] == Columns[i];
  }

  /** The seven columns by name, so that contracts can speak of "the Class
      column" without searching the list. */
  datatype Column = TestCaseId | Class | Test | Category | Priority | Property | Description

  /** The header text of a column. */
  function Name(c: Column): string {
    match c
    case TestCaseId => "TestCaseId"
    case Class => "Class"
    case Test => "Test"
    case Category => "Category"
    case Priority => "Priority"
    case Property => "Property"
    case Description => "Description"
  }

  /** The column's position in `columns`. */
  function Position(c: Column): nat {
    match c
    case TestCaseId => 0
    case Class => 1
    case Test => 2
    case Category => 3
    case Priority => 4
    case Property => 5
    case Description => 6
  }

  /** `columns.IndexOf(name)` finds each named column at its position. */
  lemma ColumnListed(c: Column)
    ensures Position(c) < |Columns| && Columns[Position(c)] == Name(c)
    ensures IndexOf(Columns, Name(c)) == Position(c)
  {
    IndexOfColumn(Position(c));
  }

  /** The cell of column `c` in row `row`: `GetLetterByNumber(columns.IndexOf(name)) + row`. */
  function CellOf(c: Column, row: int): Address {
    Address(GetLetterByNumber(Position(c)), row)
  }

  /** `a` is the cell of column `c` in row `row`, recognised by its column number. */
  predicate At(a: Address, c: Column, row: int) {
    a.row == row && ColumnNumber(a.column) == Position(c)
  }

  /** The cell of a column in a row is the one address with that column's letter. */
  lemma AtCellOf(c: Column, row: int)
    ensures forall a :: At(a, c, row) <==> a == CellOf(c, row)
  {
    ColumnListed(c);
    ColumnLetters(Position(c));
    forall a | At(a, c, row) ensures a == CellOf(c, row) {
      ColumnNumberInverse(a.column);
    }
  }

  /** `a` is one of the seven cells of row `row`. */
  predicate InRow(a: Address, row: int) {
    a.row == row && ColumnNumber(a.column) >= 0
  }

  // ---------------------------------------------------------------------
  // Reading attributes

  /** The attributes whose type name contains `part` (case-sensitive), in
      declaration order: `CustomAttributes.Where(a => a.AttributeType.Name.Contains(part))`. */
  function AttributesContaining(m: Method, part: string): seq<Attribute> {
    Where(m.attributes, (a: Attribute) => Contains(a.typeName, part))
  }

  /** `CustomAttributes.FirstOrDefault(a => a.AttributeType.Name.Contains(part))`, as an index. */
  function FirstAttributeContaining(m: Method, part: string): Option<nat> {
    FirstWhere(m.attributes, (a: Attribute) => Contains(a.typeName, part))
  }

  /** Some attribute's type name contains `part`. */
  predicate HasAttributeContaining(m: Method, part: string) {
    exists a :: a in m.attributes && Contains(a.typeName, part)
  }

  /** FillCellValuesFromConstructor does not throw: the attribute it finds, if
      any, has a first constructor argument. */
  predicate ConstructorArgumentPresent(m: Method, columnName: string) {
    match FirstAttributeContaining(m, columnName)
    case None => true
    case Some(k) => |m.attributes[k].args| > 0
  }

  /** The text FillCellValuesFromConstructor writes, or None when no attribute matches. */
  function ConstructorValue(m: Method, columnName: string): Option<string>
    requires ConstructorArgumentPresent(m, columnName)
  {
    match FirstAttributeContaining(m, columnName)
    case None => None
    case Some(k) => Some(m.attributes[k].args[0])
  }

  /** FillCellCategory does not throw: every category attribute has a first argument. */
  predicate CategoryArgumentsPresent(m: Method) {
    forall a :: a in AttributesContaining(m, "Category") ==> |a.args| > 0
  }

  /** The first argument of each category attribute, in declaration order. */
  function CategoryValues(m: Method): seq<string>
    requires CategoryArgumentsPresent(m)
  {
    var cs := AttributesContaining(m, "Category");
    seq(|cs|, i requires 0 <= i < |cs| => cs[i].args[0])
  }

  /** FillCellProperty does not throw: every property attribute has two arguments. */
  predicate PropertyArgumentsPresent(m: Method) {
    forall a :: a in AttributesContaining(m, "Property") ==> |a.args| >= 2
  }

  /** One `"<name> -> <value>"` line per property attribute, in declaration order. */
  function PropertyLines(m: Method): seq<string>
    requires PropertyArgumentsPresent(m)
  {
    var ps := AttributesContaining(m, "Property");
    seq(|ps|, i requires 0 <= i < |ps| => ps[i].args[0] + " -> " + ps[i].args[1])
  }

  // ---------------------------------------------------------------------
  // Plain test rows

  /** The cell FillCellValuesFromConstructor leaves over `base`: the value
      found, or the highlight when no attribute matches. */
  function ConstructorCell(m: Method, columnName: string, base: Cell): Cell
    requires ConstructorArgumentPresent(m, columnName)
  {
    match ConstructorValue(m, columnName)
    case None => base.(highlighted := true)
    case Some(v) => base.(value := Some(v))
  }

  /** The cell FillCellCategory leaves over `base`: the categories joined with ", ". */
  function CategoryCell(m: Method, base: Cell): Cell
    requires CategoryArgumentsPresent(m)
  {
    base.(value := Some(Join(", ", CategoryValues(m))))
  }

  /** The cell FillCellProperty leaves over `base`: the highlight when there is
      no property attribute, otherwise the property lines joined with `newLine`. */
  function PropertyCell(m: Method, base: Cell, newLine: string): Cell
    requires PropertyArgumentsPresent(m)
  {
    if |AttributesContaining(m, "Property")| == 0 then base.(highlighted := true)
    else base.(value := Some(Join(newLine, PropertyLines(m))))
  }

  /** FillLineForMethod runs without an exception. */
  predicate PlainRowWritable(m: Method) {
    AnnotationsWritable(m) && PropertyArgumentsPresent(m)
  }

  /** The TestCaseId, Category, Priority and Description cells can be written. */
  predicate AnnotationsWritable(m: Method) {
    && ConstructorArgumentPresent(m, Name(TestCaseId))
    && CategoryArgumentsPresent(m)
    && ConstructorArgumentPresent(m, Name(Priority))
    && ConstructorArgumentPresent(m, Name(Description))
  }

  /** The cell in column `col` of a plain test's row once its TestCaseId,
      Category, Priority and Description cells are written over `base`. */
  function AnnotationCell(m: Method, col: int, base: Cell): Cell
    requires AnnotationsWritable(m)
  {
    if col == 0 then ConstructorCell(m, Name(TestCaseId), base)
    else if col == 3 then CategoryCell(m, base)
    else if col == 4 then ConstructorCell(m, Name(Priority), base)
    else if col == 6 then ConstructorCell(m, Name(Description), base)
    else base
  }

  /** The cell in column `col` of a plain test's row, written over `base`. */
  function PlainCell(m: Method, col: int, base: Cell, newLine: string): Cell
    requires PlainRowWritable(m) && 0 <= col < |Columns|
  {
    if col == 1 then base.(value := Some(m.reflectedTypeName))
    else if col == 2 then base.(value := Some(m.name))
    else if col == 5 then PropertyCell(m, base, newLine)
    else AnnotationCell(m, col, base)
  }

  // ---------------------------------------------------------------------
  // Data-driven rows

  /** A data-driven test together with the items its source yields. */
  datatype Group = Group(test: Method, items: seq<DataItem>)

  /** AddDataDrivenTest can write this item: it is an `ITestCaseData` whose
      property bag has the three keys read. */
  predicate ItemWritable(item: DataItem) {
    && item.CaseData?
    && "TestCaseId" in item.properties
    && "Priority" in item.properties
    && "Description" in item.properties
  }

  /** AddDataDrivenTest runs without an exception. The category attributes
      are only read when there is at least one item. */
  predicate GroupWritable(g: Group) {
    && (|g.items| > 0 ==> CategoryArgumentsPresent(g.test))
    && forall item :: item in g.items ==> ItemWritable(item)
  }

  /** The text a data-driven row gets in column `col` (every column but Property). */
  function DataValue(m: Method, item: DataItem, col: int): string
    requires CategoryArgumentsPresent(m) && ItemWritable(item)
    requires 0 <= col < |Columns| && col != 5
  {
    if col == 1 then m.reflectedTypeName
    else if col == 2 then m.name + " : " + item.testName
    else if col == 3 then Join(", ", CategoryValues(m))
    else if col == 0 then item.properties["TestCaseId"]
    else if col == 4 then item.properties["Priority"]
    else item.properties["Description"]
  }

  /** The cell in column `col` of row `row` once every group has written its
      rows over `base`, all groups starting at row `start`: a later group
      overwrites an earlier one wherever both have an item. */
  function DataDrivenCell(groups: seq<Group>, start: int, col: int, row: int, base: Cell): Cell
    requires forall g :: g in groups ==> GroupWritable(g)
    requires 0 <= col < |Columns|
    decreases |groups|
  {
    if |groups| == 0 then base
    else
      var g := groups[|groups| - 1];
      var k := row - start;
      if 0 <= k < |g.items| && col != 5 then
        assert g in groups;
        assert GroupWritable(g);
        assert g.items[k] in g.items;
        assert ItemWritable(g.items[k]);
        base.(value := Some(DataValue(g.test, g.items[k], col)))
      else DataDrivenCell(groups[..|groups| - 1], start, col, row, base)
  }

  /** The largest number of items any group has. */
  function MaxItems(groups: seq<Group>): (n: nat)
    ensures forall g :: g in groups ==> |g.items| <= n
    ensures |groups| > 0 ==> exists j :: 0 <= j < |groups| && |groups[j].items| == n
    ensures |groups| == 0 ==> n == 0
    decreases |groups|
  {
    if |groups| == 0 then 0
    else
      var rest := MaxItems(groups[..|groups| - 1]);
      assert forall g :: g in groups ==> g in groups[..|groups| - 1] || g == groups[|groups| - 1];
      if |groups[|groups| - 1].items| > rest then |groups[|groups| - 1].items| else rest
  }

  /** Any cell after the groups' rows are written over it, all groups starting at `start`. */
  function AfterGroups(groups: seq<Group>, start: int, a: Address, base: Cell): Cell
    requires forall g :: g in groups ==> GroupWritable(g)
  {
    var col := ColumnNumber(a.column);
    if col < 0 then base else DataDrivenCell(groups, start, col, a.row, base)
  }

  /** The last row the groups write when they start at `start`, or 0 when they write nothing. */
  function Reach(groups: seq<Group>, start: int): int {
    if MaxItems(groups) == 0 then 0 else start + MaxItems(groups) - 1
  }

  function Max(x: int, y: int): int {
    if x < y then y else x
  }

  /** The data-driven rows only ever set values: the highlight stays as it was. */
  lemma {:induction false} DataDrivenKeepsStyle(groups: seq<Group>, start: int, col: int, row: int, base: Cell)
    requires forall g :: g in groups ==> GroupWritable(g)
    requires 0 <= col < |Columns|
    ensures DataDrivenCell(groups, start, col, row, base).highlighted == base.highlighted
    ensures col == 5 ==> DataDrivenCell(groups, start, col, row, base) == base
    decreases |groups|
  {
    if |groups| > 0 {
      DataDrivenKeepsStyle(groups[..|groups| - 1], start, col, row, base);
    }
  }

  /** Rows above `start` are untouched by the data-driven tests. */
  lemma {:induction false} DataDrivenCellBeforeStart(groups: seq<Group>, start: int, col: int, row: int, base: Cell)
    requires forall g :: g in groups ==> GroupWritable(g)
    requires 0 <= col < |Columns| && row < start
    ensures DataDrivenCell(groups, start, col, row, base) == base
    decreases |groups|
  {
    if |groups| > 0 {
      DataDrivenCellBeforeStart(groups[..|groups| - 1], start, col, row, base);
    }
  }

  /** The text item `k` of group `j` writes in column `col`. */
  function ItemValue(groups: seq<Group>, j: int, k: int, col: int): string
    requires forall g :: g in groups ==> GroupWritable(g)
    requires 0 <= j < |groups| && 0 <= k < |groups[j].items|
    requires 0 <= col < |Columns| && col != 5
  {
    var g := groups[j];
    assert g in groups;
    assert GroupWritable(g) && g.items[k] in g.items;
    assert ItemWritable(g.items[k]);
    DataValue(g.test, g.items[k], col)
  }

  /** Group `g` has an item for the row `k` rows below the start. */
  predicate Covers(g: Group, k: int) {
    0 <= k < |g.items|
  }

  /** Group `j` is the last group with an item for row `k`. */
  predicate LastCover(groups: seq<Group>, j: int, k: int) {
    0 <= j < |groups| && Covers(groups[j], k) && forall i :: j < i < |groups| ==> !Covers(groups[i], k)
  }

  /** A row no group has an item for is left as it was. */
  lemma {:induction false} DataDrivenCellUncovered(groups: seq<Group>, start: int, col: int, row: int, base: Cell)
    requires forall g :: g in groups ==> GroupWritable(g)
    requires 0 <= col < |Columns|
    requires forall j :: 0 <= j < |groups| ==> !Covers(groups[j], row - start)
    ensures DataDrivenCell(groups, start, col, row, base) == base
    decreases |groups|
  {
    if |groups| > 0 {
      var n := |groups| - 1;
      assert forall j :: 0 <= j < n ==> groups[..n][j] == groups[j];
      DataDrivenCellUncovered(groups[..n], start, col, row, base);
    }
  }

  /** Which item a data-driven cell shows: the last group with an item for
      the row decides it, in every column but Property, which stays as it was. */
  lemma {:induction false} DataDrivenCellLastCover(groups: seq<Group>, start: int, col: int, row: int, j: int, base: Cell)
    requires forall g :: g in groups ==> GroupWritable(g)
    requires 0 <= col < |Columns|
    requires LastCover(groups, j, row - start)
    ensures DataDrivenCell(groups, start, col, row, base) ==
      if col == 5 then base else base.(value := Some(ItemValue(groups, j, row - start, col)))
    decreases |groups|
  {
    var n := |groups| - 1;
    if col == 5 {
      DataDrivenKeepsStyle(groups, start, col, row, base);
    } else if j < n {
      assert !Covers(groups[n], row - start);
      var prefix := groups[..n];
      assert forall i :: 0 <= i < n ==> prefix[i] == groups[i];
      assert LastCover(prefix, j, row - start);
      DataDrivenCellLastCover(prefix, start, col, row, j, base);
    }
  }

  /** A row some group has an item for gets a value in every column but Property. */
  lemma {:induction false} DataDrivenCellCovered(groups: seq<Group>, start: int, col: int, row: int, j: int, base: Cell)
    requires forall g :: g in groups ==> GroupWritable(g)
    requires 0 <= col < |Columns| && col != 5
    requires 0 <= j < |groups| && 0 <= row - start < |groups[j].items|
    ensures DataDrivenCell(groups, start, col, row, base).value.Some?
    decreases |groups|
  {
    var n := |groups| - 1;
    if !(row - start < |groups[n].items|) {
      assert groups[..n][j] == groups[j];
      DataDrivenCellCovered(groups[..n], start, col, row, j, base);
    }
  }

  /** Writing one more group is writing it over what the earlier groups left. */
  lemma DataDrivenCellSnoc(groups: seq<Group>, g: Group, start: int, col: int, row: int, base: Cell)
    requires forall h :: h in groups ==> GroupWritable(h)
    requires GroupWritable(g) && 0 <= col < |Columns|
    ensures forall h :: h in groups + [g] ==> GroupWritable(h)
    ensures DataDrivenCell(groups + [g], start, col, row, base)
         == DataDrivenCell([g], start, col, row, DataDrivenCell(groups, start, col, row, base))
  {
    assert (groups + [g])[..|groups|] == groups;
    assert [g][..0] == [];
    DataDrivenKeepsStyle(groups, start, col, row, base);
  }

  /** A group on its own writes its k-th item on row `start + k`, in every
      column but Property, and leaves every other cell as it was. */
  lemma SingleGroupCell(g: Group, start: int, col: int, row: int, base: Cell)
    requires GroupWritable(g) && 0 <= col < |Columns|
    ensures forall h :: h in [g] ==> GroupWritable(h)
    ensures DataDrivenCell([g], start, col, row, base) ==
      if 0 <= row - start < |g.items| && col != 5
      then base.(value := Some(DataValue(g.test, g.items[row - start], col)))
      else base
  {
    assert [g][..0] == [];
  }

  /** Adding the item `k` to a group adds its row `start + k` and nothing else. */
  lemma ItemRow(m: Method, items: seq<DataItem>, k: int, start: int, b: Address, base: Cell)
    requires 0 <= k < |items| && GroupWritable(Group(m, items[..k + 1]))
    ensures GroupWritable(Group(m, items[..k]))
    ensures CategoryArgumentsPresent(m) && ItemWritable(items[k])
    ensures AfterGroups([Group(m, items[..k + 1])], start, b, base) ==
      var col := ColumnNumber(b.column);
      if b.row == start + k && 0 <= col && col != 5 then base.(value := Some(DataValue(m, items[k], col)))
      else AfterGroups([Group(m, items[..k])], start, b, base)
    ensures b.row == start + k ==> AfterGroups([Group(m, items[..k])], start, b, base) == base
  {
    assert items[..k + 1][k] == items[k];
    assert items[k] in items[..k + 1];
    assert forall j :: 0 <= j < k ==> items[..k][j] == items[..k + 1][j];
    assert GroupWritable(Group(m, items[..k])) by {
      forall item | item in items[..k] ensures ItemWritable(item) {
        var j :| 0 <= j < k && items[..k][j] == item;
        assert items[..k + 1][j] in items[..k + 1];
      }
    }
    var col := ColumnNumber(b.column);
    if 0 <= col {
      SingleGroupCell(Group(m, items[..k + 1]), start, col, b.row, base);
      SingleGroupCell(Group(m, items[..k]), start, col, b.row, base);
    }
  }

  /** A group stays writable when a writable item is added. */
  lemma GroupGrows(m: Method, items: seq<DataItem>, k: int)
    requires 0 <= k < |items| && GroupWritable(Group(m, items[..k]))
    requires CategoryArgumentsPresent(m) && ItemWritable(items[k])
    ensures GroupWritable(Group(m, items[..k + 1]))
  {
    forall item | item in items[..k + 1] ensures ItemWritable(item) {
      var j :| 0 <= j < k + 1 && items[..k + 1][j] == item;
      if j < k {
        assert items[..k][j] == item;
      }
    }
  }

  /** The last row of a single group. */
  lemma ReachSingle(g: Group, start: int)
    requires start >= 1
    ensures Reach([g], start) == if |g.items| == 0 then 0 else start + |g.items| - 1
  {
    ReachSnoc([], g, start);
    assert [] + [g] == [g];
  }

  /** AfterGroups of one more group is that group written over the earlier ones. */
  lemma AfterGroupsSnoc(groups: seq<Group>, g: Group, start: int, a: Address, base: Cell)
    requires forall h :: h in groups ==> GroupWritable(h)
    requires GroupWritable(g)
    ensures forall h :: h in groups + [g] ==> GroupWritable(h)
    ensures AfterGroups(groups + [g], start, a, base) == AfterGroups([g], start, a, AfterGroups(groups, start, a, base))
  {
    var col := ColumnNumber(a.column);
    if 0 <= col {
      DataDrivenCellSnoc(groups, g, start, col, a.row, base);
    }
  }

  /** MaxItems and Reach of one more group. */
  lemma ReachSnoc(groups: seq<Group>, g: Group, start: int)
    requires start >= 1
    ensures MaxItems(groups + [g]) == Max(MaxItems(groups), |g.items|)
    ensures Reach(groups + [g], start)
         == if |g.items| == 0 then Reach(groups, start) else Max(Reach(groups, start), start + |g.items| - 1)
  {
    assert (groups + [g])[..|groups|] == groups;
  }

  /** The last row after one more group, from the last rows before and of the group alone. */
  lemma ReachSnocMax(groups: seq<Group>, g: Group, start: int, x: int)
    requires start >= 1 && x >= 0
    ensures Max(Max(x, Reach(groups, start)), Reach([g], start)) == Max(x, Reach(groups + [g], start))
  {
    ReachSnoc(groups, g, start);
    ReachSingle(g, start);
  }
}

/** The report builder, `ExcelWorker`: it writes the header, one row per
    plain test, the rows of every data-driven test, and sorts the rows by
    the Test column. Each method changes only the worksheet it is given. */
module ExcelWorker {
  import opened Results
  import opened Text
  import opened Sequences
  import opened TestMetadata
  import opened Sheet
  import opened Sorting
  import opened Report
  import opened Grid
  import opened ReportProperties

  /** CreateExcelFileWithTestInfos, up to the point where the workbook is
      saved: the header, the plain tests (those with a `TestAttribute`) on
      rows 2 onwards in enumeration order, then every data-driven test from
      the row after the last plain test, and finally the rows below the
      header sorted on the Test column in the table sort's text order
      `textOrder`. The worksheet returned is the one the source saves; the
      run fails exactly when some row cannot be written. */
  method CreateExcelFileWithTestInfos(types: seq<TestType>, newLine: string, textOrder: (string, string) -> bool)
    returns (worksheet: Worksheet, err: Option<Error>)
    requires TotalPreorder(textOrder)
    ensures fresh(worksheet)
    ensures err.None? <==> ReportWritable(types)
    ensures err.None? ==> worksheet.lastRow == GridLastRow(LayoutOf(types))
    ensures err.None? ==> forall a :: OutsideDataRows(a, worksheet.lastRow) ==>
      CellAt(worksheet.cells, a) == GridCell(LayoutOf(types), newLine, a)
    ensures err.None? ==> multiset(DataRows(worksheet.cells, worksheet.lastRow)) == multiset(GridRows(LayoutOf(types), newLine))
    ensures err.None? ==> SortedBy(DataRows(worksheet.cells, worksheet.lastRow), TestText, textOrder)
  {
    var methods := AllMethods(types);
    worksheet := new Worksheet();
    AddTitleColumns(worksheet);
    var testMethods := TestsMarkedWith(methods, "TestAttribute");
    assert testMethods[..0] == [];
    for i := 0 to |testMethods|
      invariant forall m :: m in testMethods[..i] ==> PlainRowWritable(m)
      invariant PlainFilled(worksheet.cells, testMethods[..i], newLine)
      invariant worksheet.lastRow == i + 1
    {
      err := FillLineForMethod(worksheet, testMethods[i], i + 2, newLine);
      if err.Some? {
        assert testMethods[i] in testMethods;
        return;
      }
      forall a ensures CellAt(worksheet.cells, a) == HeaderAndPlain(testMethods[..i + 1], newLine, a) {
        PlainStep(testMethods, i, newLine, a);
      }
      assert PlainFilled(worksheet.cells, testMethods[..i + 1], newLine);
    }
    assert testMethods[..|testMethods|] == testMethods;
    err := AddDataDrivenTests(types, worksheet, |testMethods| + 2);
    if err.Some? {
      return;
    }
    ghost var layout := LayoutOf(types);
    forall a ensures CellAt(worksheet.cells, a) == GridCell(layout, newLine, a) {
      GridCellComposition(layout, newLine, a);
    }
    SortFilledGrid(worksheet, layout, newLine, textOrder);
  }

  /** The `AddSorting` call of CreateExcelFileWithTestInfos, on a worksheet
      holding the filled grid: the rows below the header become the grid's
      rows in `textOrder` of their Test text, and every other cell stays the
      grid's. */
  method SortFilledGrid(ws: Worksheet, ghost l: Layout, newLine: string, textOrder: (string, string) -> bool)
    requires TotalPreorder(textOrder) && Writable(l)
    requires ws.lastRow == GridLastRow(l)
    requires forall a :: CellAt(ws.cells, a) == GridCell(l, newLine, a)
    modifies ws
    ensures ws.lastRow == GridLastRow(l)
    ensures forall a :: OutsideDataRows(a, ws.lastRow) ==> CellAt(ws.cells, a) == GridCell(l, newLine, a)
    ensures multiset(DataRows(ws.cells, ws.lastRow)) == multiset(GridRows(l, newLine))
    ensures SortedBy(DataRows(ws.cells, ws.lastRow), TestText, textOrder)
  {
    RowsOfGrid(ws.cells, l, newLine);
    forall a: Address | a.row > ws.lastRow ensures CellAt(ws.cells, a).value.None? {
      BlankBelowLastRow(l, newLine, a);
    }
    if ws.lastRow >= 2 {
      RowsNameTheirTest(l, newLine, ws.lastRow);
    } else {
      HeaderCells(l, newLine, Test);
    }
    assert CellAt(ws.cells, CellOf(Test, ws.lastRow)).value.Some?;
    forall c ensures CellAt(ws.cells, CellOf(c, 1)).value == Some(Name(c)) {
      HeaderCells(l, newLine, c);
    }
    AddSorting(ws, textOrder);
  }

  /** AddTitleColumns: row 1 gets each column's name in that column. */
  method AddTitleColumns(ws: Worksheet)
    modifies ws
    ensures forall a :: InRow(a, 1) ==>
      CellAt(ws.cells, a) == CellAt(old(ws.cells), a).(value := Some(Columns[ColumnNumber(a.column)]))
    ensures forall a :: !InRow(a, 1) ==> CellAt(ws.cells, a) == CellAt(old(ws.cells), a)
    ensures ws.lastRow == Max(old(ws.lastRow), 1)
  {
    for i := 0 to |Columns|
      invariant forall a :: InRow(a, 1) && ColumnNumber(a.column) < i ==>
        CellAt(ws.cells, a) == CellAt(old(ws.cells), a).(value := Some(Columns[ColumnNumber(a.column)]))
      invariant forall a :: !(InRow(a, 1) && ColumnNumber(a.column) < i) ==> CellAt(ws.cells, a) == CellAt(old(ws.cells), a)
      invariant ws.lastRow == if i == 0 then old(ws.lastRow) else Max(old(ws.lastRow), 1)
    {
      ColumnLetters(i);
      ws.SetValue(Address(GetLetterByNumber(i), 1), Columns[i]);
      forall a | InRow(a, 1) && ColumnNumber(a.column) == i ensures a == Address(GetLetterByNumber(i), 1) {
        ColumnNumberInverse(a.column);
      }
    }
  }

  /** AddSorting: the used range becomes a table and the table is sorted on
      the column headed "Test", in ascending `textOrder`. The model covers
      the sheet the report builds: row 1 holds the seven captions, so the
      table's header is row 1 and its Test field is column C, and nothing
      lies outside columns A to G, so the table is rows 1 to the last row
      of those columns. Rows move whole; the header and every cell outside
      the table stay. */
  method AddSorting(ws: Worksheet, textOrder: (string, string) -> bool)
    requires TotalPreorder(textOrder)
    requires LastRowIsBottom(ws.cells, ws.lastRow)
    requires forall c :: CellAt(ws.cells, CellOf(c, 1)).value == Some(Name(c))
    requires forall a: Address :: ColumnNumber(a.column) < 0 ==> CellAt(ws.cells, a).value.None?
    modifies ws
    ensures ws.lastRow == old(ws.lastRow)
    ensures SortedBy(DataRows(ws.cells, ws.lastRow), TestText, textOrder)
    ensures multiset(DataRows(ws.cells, ws.lastRow)) == multiset(DataRows(old(ws.cells), ws.lastRow))
    ensures forall a :: OutsideDataRows(a, ws.lastRow) ==> CellAt(ws.cells, a) == CellAt(old(ws.cells), a)
  {
    var rows := DataRows(ws.cells, ws.lastRow);
    var sorted := SortBy(rows, TestText, textOrder);
    assert |sorted| == |multiset(sorted)| == |multiset(rows)| == |rows|;
    forall k | 0 <= k < |sorted| ensures |sorted[k]| == |Columns| {
      assert sorted[k] in multiset(rows);
    }
    WithDataRowsMeaning(ws.cells, ws.lastRow, sorted);
    ws.cells := WithDataRows(ws.cells, ws.lastRow, sorted);
  }

  /** `GetLetterByNumber(columns.IndexOf(name))`: the letter of a column,
      found by looking its name up in `columns`. */
  method LetterOf(c: Column) returns (letter: string)
    ensures letter == GetLetterByNumber(Position(c))
  {
    ColumnListed(c);
    letter := GetLetterByNumber(IndexOf(Columns, Name(c)));
  }

  /** FillLineForMethod: the row `lineNumber` of a plain test. The cells are
      written in the order Class, Test, TestCaseId, Category, Priority,
      Description, Property; the first exception stops the run. */
  method FillLineForMethod(ws: Worksheet, m: Method, lineNumber: int, newLine: string) returns (err: Option<Error>)
    requires lineNumber >= 1
    modifies ws
    ensures err.None? <==> PlainRowWritable(m)
    ensures err.None? ==> forall b :: InRow(b, lineNumber) ==>
      CellAt(ws.cells, b) == PlainCell(m, ColumnNumber(b.column), CellAt(old(ws.cells), b), newLine)
    ensures err.None? ==> forall b :: !InRow(b, lineNumber) ==> CellAt(ws.cells, b) == CellAt(old(ws.cells), b)
    ensures err.None? ==> ws.lastRow == Max(old(ws.lastRow), lineNumber)
  {
    FillCellClass(ws, lineNumber, m.reflectedTypeName);
    FillCellTestName(ws, lineNumber, m.name);
    err := FillAnnotationCells(ws, m, lineNumber);
    if err.Some? { return; }
    err := FillCellProperty(ws, m, lineNumber, newLine);
    if err.Some? { return; }
  }

  /** The middle of FillLineForMethod: the TestCaseId, Category, Priority
      and Description cells of the row, in that order. */
  method FillAnnotationCells(ws: Worksheet, m: Method, lineNumber: int) returns (err: Option<Error>)
    requires lineNumber >= 1
    modifies ws
    ensures err.None? <==> AnnotationsWritable(m)
    ensures err.None? ==> forall b ::
      CellAt(ws.cells, b) == (if b.row == lineNumber then AnnotationCell(m, ColumnNumber(b.column), CellAt(old(ws.cells), b)) else CellAt(old(ws.cells), b))
    ensures err.None? ==> ws.lastRow == Max(old(ws.lastRow), lineNumber)
  {
    err := FillCellValuesFromConstructor(ws, m, TestCaseId, lineNumber);
    if err.Some? { return; }
    err := FillCellCategory(ws, m, lineNumber);
    if err.Some? { return; }
    err := FillCellValuesFromConstructor(ws, m, Priority, lineNumber);
    if err.Some? { return; }
    err := FillCellValuesFromConstructor(ws, m, Description, lineNumber);
    if err.Some? { return; }
  }

  /** AddDataDrivenTests: every data-driven test, in enumeration order,
      writes its items starting at the same row `lineNumber`. The source's
      name is the first argument of the test's first `TestCaseSourceAttribute`;
      it is looked up in the first type named like the test's class. */
  method AddDataDrivenTests(types: seq<TestType>, ws: Worksheet, lineNumber: int) returns (err: Option<Error>)
    requires lineNumber >= 1
    modifies ws
    ensures err.None? <==> SourcesResolve(types) && forall g :: g in Groups(types) ==> GroupWritable(g)
    ensures err.None? ==> SourcesResolve(types) && forall b ::
      CellAt(ws.cells, b) == AfterGroups(Groups(types), lineNumber, b, CellAt(old(ws.cells), b))
    ensures err.None? ==> ws.lastRow == Max(old(ws.lastRow), Reach(Groups(types), lineNumber))
  {
    var methods := AllMethods(types);
    var dataDrivenTests := TestsMarkedWith(methods, "TestCaseSourceAttribute");
    assert dataDrivenTests[..0] == [];
    for j := 0 to |dataDrivenTests|
      invariant AllResolve(types, dataDrivenTests[..j])
      invariant forall g :: g in GroupsOf(types, dataDrivenTests[..j]) ==> GroupWritable(g)
      invariant forall b ::
        CellAt(ws.cells, b) == AfterGroups(GroupsOf(types, dataDrivenTests[..j]), lineNumber, b, CellAt(old(ws.cells), b))
      invariant ws.lastRow == Max(old(ws.lastRow), Reach(GroupsOf(types, dataDrivenTests[..j]), lineNumber))
    {
      var test := dataDrivenTests[j];
      assert test in dataDrivenTests;
      var className := test.reflectedTypeName;
      var attribute := FirstWhere(test.attributes, (a: Attribute) => a.typeName == "TestCaseSourceAttribute");
      var arguments := test.attributes[attribute.value].args;
      if |arguments| == 0 {
        return Some(NoDataSourceName(test.name));
      }
      var testDataMethodName := arguments[0];
      ResolveSourceMeaning(types, test);
      var typeIndex := TypeNamed(types, className).value;
      if testDataMethodName !in types[typeIndex].dataSources {
        return Some(DataSourceNotFound(className, testDataMethodName));
      }
      var testDataValues := types[typeIndex].dataSources[testDataMethodName];
      ghost var groups := GroupsOf(types, dataDrivenTests[..j]);
      ghost var g := Group(test, testDataValues);
      err := AddDataDrivenTest(ws, lineNumber, test, testDataValues);
      if err.Some? {
        if SourcesResolve(types) {
          assert Groups(types)[j] == g;
        }
        return;
      }
      GroupsOfSnoc(types, dataDrivenTests, j);
      forall b ensures CellAt(ws.cells, b) == AfterGroups(groups + [g], lineNumber, b, CellAt(old(ws.cells), b)) {
        AfterGroupsSnoc(groups, g, lineNumber, b, CellAt(old(ws.cells), b));
      }
      ReachSnocMax(groups, g, lineNumber, old(ws.lastRow));
    }
    assert dataDrivenTests[..|dataDrivenTests|] == dataDrivenTests;
    err := None;
  }

  /** AddDataDrivenTest: item `k` fills row `lineNumber + k` (the line
      number is a local copy, so the caller's is not advanced). Each item
      writes Category, Class, then reads the item as an `ITestCaseData` and
      writes Test, TestCaseId, Priority and Description from it; Property is
      left as it was. An item that is not test-case data, or whose property
      bag lacks a key, makes the run throw. */
  method AddDataDrivenTest(ws: Worksheet, lineNumber: int, m: Method, testDataValues: seq<DataItem>)
    returns (err: Option<Error>)
    requires lineNumber >= 1
    modifies ws
    ensures err.None? <==> GroupWritable(Group(m, testDataValues))
    ensures err.None? ==> forall b ::
      CellAt(ws.cells, b) == AfterGroups([Group(m, testDataValues)], lineNumber, b, CellAt(old(ws.cells), b))
    ensures err.None? ==> ws.lastRow == Max(old(ws.lastRow), Reach([Group(m, testDataValues)], lineNumber))
  {
    var line := lineNumber;
    ReachSingle(Group(m, testDataValues[..0]), lineNumber);
    forall b ensures AfterGroups([Group(m, testDataValues[..0])], lineNumber, b, CellAt(ws.cells, b)) == CellAt(ws.cells, b) {
      if 0 <= ColumnNumber(b.column) {
        SingleGroupCell(Group(m, testDataValues[..0]), lineNumber, ColumnNumber(b.column), b.row, CellAt(ws.cells, b));
      }
    }
    for k := 0 to |testDataValues|
      invariant line == lineNumber + k
      invariant GroupWritable(Group(m, testDataValues[..k]))
      invariant forall b ::
        CellAt(ws.cells, b) == AfterGroups([Group(m, testDataValues[..k])], lineNumber, b, CellAt(old(ws.cells), b))
      invariant ws.lastRow == Max(old(ws.lastRow), Reach([Group(m, testDataValues[..k])], lineNumber))
    {
      err := AddDataDrivenItem(ws, line, m, testDataValues[k]);
      if err.Some? {
        assert testDataValues[k] in testDataValues;
        return;
      }
      GroupGrows(m, testDataValues, k);
      forall b ensures CellAt(ws.cells, b)
        == AfterGroups([Group(m, testDataValues[..k + 1])], lineNumber, b, CellAt(old(ws.cells), b))
      {
        ItemRow(m, testDataValues, k, lineNumber, b, CellAt(old(ws.cells), b));
      }
      ReachSingle(Group(m, testDataValues[..k + 1]), lineNumber);
      line := line + 1;
    }
    assert testDataValues[..|testDataValues|] == testDataValues;
    err := None;
  }

  /** One pass of AddDataDrivenTest's loop: the row `lineNumber` of one item. */
  method AddDataDrivenItem(ws: Worksheet, lineNumber: int, m: Method, item: DataItem) returns (err: Option<Error>)
    requires lineNumber >= 1
    modifies ws
    ensures err.None? <==> CategoryArgumentsPresent(m) && ItemWritable(item)
    ensures err.None? ==> forall b ::
      CellAt(ws.cells, b) == (
        var col := ColumnNumber(b.column);
        if b.row == lineNumber && 0 <= col && col != 5
        then CellAt(old(ws.cells), b).(value := Some(DataValue(m, item, col)))
        else CellAt(old(ws.cells), b))
    ensures err.None? ==> ws.lastRow == Max(old(ws.lastRow), lineNumber)
  {
    err := FillCellCategory(ws, m, lineNumber);
    if err.Some? { return; }
    FillCellClass(ws, lineNumber, m.reflectedTypeName);
    if !item.CaseData? {
      return Some(NotTestCaseData(m.name));
    }
    SetColumnValue(ws, Test, lineNumber, m.name + " : " + item.testName);
    if "TestCaseId" !in item.properties {
      return Some(MissingProperty("TestCaseId"));
    }
    SetColumnValue(ws, TestCaseId, lineNumber, item.properties["TestCaseId"]);
    if "Priority" !in item.properties {
      return Some(MissingProperty("Priority"));
    }
    SetColumnValue(ws, Priority, lineNumber, item.properties["Priority"]);
    if "Description" !in item.properties {
      return Some(MissingProperty("Description"));
    }
    SetColumnValue(ws, Description, lineNumber, item.properties["Description"]);
  }

  /** `worksheet.Cell(GetLetterByNumber(columns.IndexOf(name)) + lineNumber).Value = text`. */
  method SetColumnValue(ws: Worksheet, c: Column, lineNumber: int, text: string)
    requires lineNumber >= 1
    modifies ws
    ensures forall b ::
      CellAt(ws.cells, b) == (if At(b, c, lineNumber) then CellAt(old(ws.cells), b).(value := Some(text)) else CellAt(old(ws.cells), b))
    ensures ws.lastRow == Max(old(ws.lastRow), lineNumber)
  {
    var cellLetter := LetterOf(c);
    AtCellOf(c, lineNumber);
    ws.SetValue(Address(cellLetter, lineNumber), text);
  }

  /** FillCellClass: the Class cell of row `lineNumber` gets `value`. */
  method FillCellClass(ws: Worksheet, lineNumber: int, value: string)
    requires lineNumber >= 1
    modifies ws
    ensures forall b ::
      CellAt(ws.cells, b) == (if At(b, Class, lineNumber) then CellAt(old(ws.cells), b).(value := Some(value)) else CellAt(old(ws.cells), b))
    ensures ws.lastRow == Max(old(ws.lastRow), lineNumber)
  {
    var cellLetter := LetterOf(Class);
    AtCellOf(Class, lineNumber);
    ws.SetValue(Address(cellLetter, lineNumber), value);
  }

  /** FillCellTestName: the Test cell of row `lineNumber` gets `testName`. */
  method FillCellTestName(ws: Worksheet, lineNumber: int, testName: string)
    requires lineNumber >= 1
    modifies ws
    ensures forall b ::
      CellAt(ws.cells, b) == (if At(b, Test, lineNumber) then CellAt(old(ws.cells), b).(value := Some(testName)) else CellAt(old(ws.cells), b))
    ensures ws.lastRow == Max(old(ws.lastRow), lineNumber)
  {
    var cellLetter := LetterOf(Test);
    AtCellOf(Test, lineNumber);
    ws.SetValue(Address(cellLetter, lineNumber), testName);
  }

  /** FillCellValuesFromConstructor: the first attribute whose type name
      contains the column's name gives the cell its first constructor
      argument; with no such attribute the cell is highlighted and gets no
      value. An attribute without arguments makes `First()` throw. */
  method FillCellValuesFromConstructor(ws: Worksheet, m: Method, column: Column, lineNumber: int)
    returns (err: Option<Error>)
    requires lineNumber >= 1
    modifies ws
    ensures err.None? <==> ConstructorArgumentPresent(m, Name(column))
    ensures err.None? ==> forall b ::
      CellAt(ws.cells, b) == (if At(b, column, lineNumber) then ConstructorCell(m, Name(column), CellAt(old(ws.cells), b)) else CellAt(old(ws.cells), b))
    ensures err.None? ==>
      ws.lastRow == if HasAttributeContaining(m, Name(column)) then Max(old(ws.lastRow), lineNumber) else old(ws.lastRow)
    ensures old(ws.lastRow) <= ws.lastRow <= Max(old(ws.lastRow), lineNumber)
  {
    var customAttribute := FirstAttributeContaining(m, Name(column));
    var cellLetter := LetterOf(column);
    AtCellOf(column, lineNumber);
    if customAttribute.None? {
      ws.Highlight(Address(cellLetter, lineNumber));
    } else {
      var attribute := m.attributes[customAttribute.value];
      if |attribute.args| == 0 {
        return Some(NoConstructorArgument(attribute.typeName));
      }
      ws.SetValue(Address(cellLetter, lineNumber), attribute.args[0]);
    }
    err := None;
  }

  /** FillCellCategory: the first argument of every category attribute, in
      declaration order, joined with ", ". The cell is never highlighted:
      the null check on the array `ToArray` returns cannot succeed. */
  method FillCellCategory(ws: Worksheet, m: Method, lineNumber: int) returns (err: Option<Error>)
    requires lineNumber >= 1
    modifies ws
    ensures err.None? <==> CategoryArgumentsPresent(m)
    ensures err.None? ==> forall b ::
      CellAt(ws.cells, b) == (if At(b, Category, lineNumber) then CategoryCell(m, CellAt(old(ws.cells), b)) else CellAt(old(ws.cells), b))
    ensures err.None? ==> ws.lastRow == Max(old(ws.lastRow), lineNumber)
  {
    var cellLetter := LetterOf(Category);
    AtCellOf(Category, lineNumber);
    var matching := AttributesContaining(m, "Category");
    var categories: array?<Attribute> := new Attribute[|matching|](i requires 0 <= i < |matching| => matching[i]);
    if categories == null {
      // The source highlights the cell here; this branch is dead.
      assert false;
    } else {
      var attributes := categories[..];
      assert attributes == matching;
      match FirstWhere(attributes, (a: Attribute) => |a.args| == 0)
      case Some(k) =>
        assert attributes[k] in matching;
        return Some(NoConstructorArgument(attributes[k].typeName));
      case None =>
        assert CategoryArgumentsPresent(m);
        var categoriesValues := seq(|attributes|, i requires 0 <= i < |attributes| => attributes[i].args[0]);
        assert categoriesValues == CategoryValues(m);
        ws.SetValue(Address(cellLetter, lineNumber), Join(", ", categoriesValues));
    }
    err := None;
  }

  /** FillCellProperty: highlighted when no attribute's type name contains
      "Property"; otherwise one `"<arg0> -> <arg1>"` line per such attribute,
      in declaration order, joined with the platform's new-line string. An
      attribute with fewer than two arguments makes the indexing throw. */
  method FillCellProperty(ws: Worksheet, m: Method, lineNumber: int, newLine: string) returns (err: Option<Error>)
    requires lineNumber >= 1
    modifies ws
    ensures err.None? <==> PropertyArgumentsPresent(m)
    ensures err.None? ==> forall b ::
      CellAt(ws.cells, b) == (if At(b, Property, lineNumber) then PropertyCell(m, CellAt(old(ws.cells), b), newLine) else CellAt(old(ws.cells), b))
    ensures err.None? ==>
      ws.lastRow == if |AttributesContaining(m, "Property")| == 0 then old(ws.lastRow) else Max(old(ws.lastRow), lineNumber)
    ensures old(ws.lastRow) <= ws.lastRow <= Max(old(ws.lastRow), lineNumber)
  {
    var cellLetter := LetterOf(Property);
    AtCellOf(Property, lineNumber);
    var properties := AttributesContaining(m, "Property");
    var propertyValues: seq<string> := [];
    if |properties| == 0 {
      ws.Highlight(Address(cellLetter, lineNumber));
    } else {
      for i := 0 to |properties|
        invariant |propertyValues| == i
        invariant forall j :: 0 <= j < i ==>
          |properties[j].args| >= 2 && propertyValues[j] == properties[j].args[0] + " -> " + properties[j].args[1]
      {
        var constructorArguments := properties[i].args;
        if |constructorArguments| < 2 {
          assert properties[i] in properties;
          return Some(TooFewPropertyArguments(properties[i].typeName));
        }
        propertyValues := propertyValues + [constructorArguments[0] + " -> " + constructorArguments[1]];
      }
      assert PropertyArgumentsPresent(m) by {
        forall a | a in properties ensures |a.args| >= 2 {
          var j :| 0 <= j < |properties| && properties[j] == a;
        }
      }
      assert propertyValues == PropertyLines(m);
      ws.SetValue(Address(cellLetter, lineNumber), Join(newLine, propertyValues));
    }
    err := None;
  }
}

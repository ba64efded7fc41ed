# ExcelWorker report model

A Dafny model of the `ExcelWorker` report builder in
`GetterTestInfo_Pvs.Taf/ExcelWorker.cs`. The builder takes the types of a
compiled NUnit test suite and fills one worksheet:

- row 1 is a header naming the seven columns `TestCaseId, Class, Test,
  Category, Priority, Property, Description`, in the letters A to G;
- each plain test (a method carrying a `TestAttribute`) gets one row, from
  row 2 on, in enumeration order. Its TestCaseId, Priority and Description
  cells come from the first argument of the first attribute whose type name
  contains the column's name, and are highlighted in red when there is no
  such attribute. Category holds the first arguments of all category
  attributes joined with `", "`. Property holds one `"<arg0> -> <arg1>"`
  line per property attribute, and is highlighted when there are none;
- each data-driven test (a method carrying a `TestCaseSourceAttribute`)
  looks up its source method by name on its class, and writes one row per
  item the source yields. Every data-driven test starts on the row after
  the last plain test, so a later one overwrites the rows of an earlier one;
- then the rows below the header are sorted on the Test column.

Modules:

- `Results`, `Text` and `Sequences` model the .NET pieces the code uses:
  `Option`/`Result`, ordinal `String.Contains`, `String.Join`, an ordinal
  text order (one instance of the sort's comparer), `Where`, `First`/`FirstOrDefault` and `List.IndexOf`.
- `TestMetadata` models reflection as plain values: types, their methods
  and attributes, and the data-source methods by name. It also covers test
  discovery and source resolution.
- `Sheet` is the worksheet, a class whose cell map and last used row its
  methods update in place.
- `Report` holds the column list, cell addressing and the cell each `FillCell…`
  method writes. It also defines the rows the data-driven tests write.
- `Grid` describes every cell of the filled grid, for a layout of plain
  tests and data-driven groups, and the data rows the sort reorders.
- `ExcelWorker` holds the source's methods, written as imperative methods
  over a `Worksheet` with loops, and proved against `Grid`.
- `ReportProperties` holds the properties of the filled report, cell by cell.

The exceptions listed in the `Error` datatype are modelled as a returned
`Some(error)` (or `Err(error)`). The error
ends the whole run, as the exception does, because nothing in the code
catches it. The grid an aborted run leaves behind is never saved, so it is
not specified.

## Model

| member | source | states |
|---|---|---|
| Report.Columns | GetterTestInfo_Pvs.Taf/ExcelWorker.cs:10 | the seven header texts in column order; `ColumnsDistinct` proves that no two are equal |
| Report.GetLetterByNumber | GetterTestInfo_Pvs.Taf/ExcelWorker.cs:176-179 | the one-character text of code `65 + number`; `ColumnLetters` proves that it gives the letters A to G for the seven columns and that `ColumnNumber` inverts it |
| Report.ColumnLetters | GetterTestInfo_Pvs.Taf/ExcelWorker.cs:176-179 | column number `i` (0..6) gets the one-letter string `"ABCDEFG"[i]` (the character of code 65 + i), and `ColumnNumber` reads `i` back |
| Report.ColumnNumberInverse | GetterTestInfo_Pvs.Taf/ExcelWorker.cs:176-179 | every column letter is the letter of its own number, so letters and numbers of the seven columns are in one-to-one correspondence |
| Report.ColumnsDistinct | GetterTestInfo_Pvs.Taf/ExcelWorker.cs:10 | no two entries of `columns` are equal |
| Report.IndexOfColumn | GetterTestInfo_Pvs.Taf/ExcelWorker.cs:10 | `columns.IndexOf(columns[i])` is `i` for each of the seven columns |
| Report.ColumnListed | GetterTestInfo_Pvs.Taf/ExcelWorker.cs:10 | each named column is listed at its position, and `IndexOf` of its name finds that position |
| Report.AtCellOf | GetterTestInfo_Pvs.Taf/ExcelWorker.cs:100-101 | the address `letter + lineNumber` of a column is the only address in that row with that column's number |
| ReportProperties.ColumnLettersDistinct | GetterTestInfo_Pvs.Taf/ExcelWorker.cs:176-179 | the seven columns get the letters A to G in order, and two columns share a letter only when they are the same column |
| ReportProperties.HeaderCells | GetterTestInfo_Pvs.Taf/ExcelWorker.cs:38-44 | in the filled grid, row 1 holds each column's name in its own column, unhighlighted |
| ExcelWorker.AddTitleColumns | GetterTestInfo_Pvs.Taf/ExcelWorker.cs:38-44 | every cell of row 1 in the seven columns gets `columns[i]` for its column `i` and keeps its style; no other cell changes; the last row becomes at least 1 |
| Text.ContainsIff | GetterTestInfo_Pvs.Taf/ExcelWorker.cs:112 | ordinal `Contains(s, sub)` holds exactly when `sub` occurs in `s` at some index |
| Text.JoinPart | GetterTestInfo_Pvs.Taf/ExcelWorker.cs:138 | in `Join(sep, parts)` part `k` stands at its offset, and the separator follows every part but the last |
| Text.JoinLength | GetterTestInfo_Pvs.Taf/ExcelWorker.cs:162 | the joined text is as long as the parts plus one separator fewer than there are parts, so nothing else is in it |
| Text.OffsetStep | GetterTestInfo_Pvs.Taf/ExcelWorker.cs:162 | each part of a join starts one separator after the end of the part before |
| Text.StrLeTotal | GetterTestInfo_Pvs.Taf/ExcelWorker.cs:168 | the ordinal text order compares any two texts |
| Text.StrLeTransitive | GetterTestInfo_Pvs.Taf/ExcelWorker.cs:168 | the ordinal text order is transitive |
| Text.StrLeAntisymmetric | GetterTestInfo_Pvs.Taf/ExcelWorker.cs:168 | two texts each at most the other are equal |
| Sequences.Where | GetterTestInfo_Pvs.Taf/ExcelWorker.cs:21 | `Where` keeps exactly the elements satisfying the filter, and is no longer than its input |
| Sequences.WhereAppend | GetterTestInfo_Pvs.Taf/ExcelWorker.cs:60 | filtering keeps enumeration order: the filter of a concatenation is the concatenation of the filters |
| Sequences.FirstWhere | GetterTestInfo_Pvs.Taf/ExcelWorker.cs:112 | `FirstOrDefault` finds the least index whose element matches, and finds nothing exactly when no element matches |
| Sequences.FirstWhereIsHeadOfWhere | GetterTestInfo_Pvs.Taf/ExcelWorker.cs:67 | the first match is the head of the filtered sequence, and there is none exactly when the filter is empty |
| Sequences.IndexOf | GetterTestInfo_Pvs.Taf/ExcelWorker.cs:100 | `IndexOf` gives the first index holding the element, and -1 exactly when it is absent |
| TestMetadata.AllMethods | GetterTestInfo_Pvs.Taf/ExcelWorker.cs:14 | `types.SelectMany(t => t.GetMethods())`, in type order; `AllMethodsMembers` proves which methods it yields |
| TestMetadata.AllMethodsMembers | GetterTestInfo_Pvs.Taf/ExcelWorker.cs:14 | `SelectMany(GetMethods)` yields exactly the methods `GetMethods()` lists for each given type (its public methods, inherited ones included, given as the type's method list), each with `ReflectedType` set to the type it was queried on |
| TestMetadata.TestsMarkedWith | GetterTestInfo_Pvs.Taf/ExcelWorker.cs:21 | a method is selected exactly when it is listed and has an attribute whose type name is the given one (`TestAttribute` for plain tests, `TestCaseSourceAttribute` for data-driven ones) |
| TestMetadata.ResolveSource | GetterTestInfo_Pvs.Taf/ExcelWorker.cs:64-73 | the source lookup and invocation of one data-driven test; `ResolveSourceMeaning` proves when it succeeds and what it yields |
| TestMetadata.ResolveSourceMeaning | GetterTestInfo_Pvs.Taf/ExcelWorker.cs:64-73 | the class lookup never fails for a listed method; resolution succeeds exactly when the first source attribute has an argument naming a data source of the first type with the class's name, and then yields what that source yields |
| Sheet.Worksheet.constructor | GetterTestInfo_Pvs.Taf/ExcelWorker.cs:16-17 | a new worksheet is empty and has no used rows |
| Sheet.Worksheet.SetValue | GetterTestInfo_Pvs.Taf/ExcelWorker.cs:101 | assigning `Cell(a).Value` replaces that cell's value, keeps its style, changes no other cell, and makes row `a` the last row if it is below it |
| Sheet.Worksheet.Highlight | GetterTestInfo_Pvs.Taf/ExcelWorker.cs:171-174 | highlighting sets that cell's flag, keeps its value, and changes nothing else |
| ExcelWorker.LetterOf | GetterTestInfo_Pvs.Taf/ExcelWorker.cs:100 | `GetLetterByNumber(columns.IndexOf(name))` is the letter of the column's position |
| ExcelWorker.SetColumnValue | GetterTestInfo_Pvs.Taf/ExcelWorker.cs:88-91 | the named column's cell in the given row gets the text and keeps its style; nothing else changes |
| ExcelWorker.FillCellClass | GetterTestInfo_Pvs.Taf/ExcelWorker.cs:98-102 | the Class cell of the row gets the given value, keeping its style; nothing else changes |
| ExcelWorker.FillCellTestName | GetterTestInfo_Pvs.Taf/ExcelWorker.cs:104-108 | the Test cell of the row gets the given name, keeping its style; nothing else changes |
| ExcelWorker.FillCellValuesFromConstructor | GetterTestInfo_Pvs.Taf/ExcelWorker.cs:110-123 | it fails exactly when the first attribute whose type name contains the column name has no argument; otherwise that column's cell is highlighted when no attribute matches, or else gets the first argument; nothing else changes; the last row is unchanged when only a highlight was made, and otherwise becomes the row if it is below it |
| ExcelWorker.FillCellCategory | GetterTestInfo_Pvs.Taf/ExcelWorker.cs:125-141 | it fails exactly when a category attribute has no argument; otherwise the Category cell gets the first arguments joined with `", "` and is never highlighted, because the null branch is unreachable |
| ExcelWorker.FillCellProperty | GetterTestInfo_Pvs.Taf/ExcelWorker.cs:143-164 | it fails exactly when a property attribute has fewer than two arguments; otherwise the Property cell is highlighted when there are no property attributes, and else gets the `"<arg0> -> <arg1>"` lines joined with the new-line text; the last row is unchanged when only a highlight was made, and otherwise becomes the row if it is below it |
| ExcelWorker.FillAnnotationCells | GetterTestInfo_Pvs.Taf/ExcelWorker.cs:50-53 | the TestCaseId, Category, Priority and Description calls together: they fail exactly when one of those cells cannot be written; otherwise each of the four cells is its plain-test cell over what was there, nothing else changes, and the row becomes the last row if it is below it |
| ExcelWorker.FillLineForMethod | GetterTestInfo_Pvs.Taf/ExcelWorker.cs:46-55 | it fails exactly when one of the cells cannot be written; otherwise each of the seven cells of the row is the plain-test cell for its column over what was there, no cell outside the row changes, and the row becomes the last row if it is below it |
| Report.MaxItems | GetterTestInfo_Pvs.Taf/ExcelWorker.cs:93 | the largest item count of the groups: no group has more, some group has that many, and it is 0 with no groups |
| Report.DataDrivenKeepsStyle | GetterTestInfo_Pvs.Taf/ExcelWorker.cs:79-96 | data-driven rows never change a cell's highlight and never touch the Property column |
| Report.DataDrivenCellBeforeStart | GetterTestInfo_Pvs.Taf/ExcelWorker.cs:79-96 | data-driven tests write nothing above their start row |
| Report.DataDrivenCellUncovered | GetterTestInfo_Pvs.Taf/ExcelWorker.cs:27 | a row that no data-driven test has an item for stays as it was |
| Report.DataDrivenCellLastCover | GetterTestInfo_Pvs.Taf/ExcelWorker.cs:62-76 | since every data-driven test starts on the same row, a data-driven cell outside Property shows the item of the last test that has an item for that row; Property stays as it was |
| Report.DataDrivenCellCovered | GetterTestInfo_Pvs.Taf/ExcelWorker.cs:81-93 | a row some data-driven test has an item for gets a value in every column but Property |
| Report.DataDrivenCellSnoc | GetterTestInfo_Pvs.Taf/ExcelWorker.cs:62-76 | writing one more data-driven test is writing its rows over what the earlier tests left |
| Report.SingleGroupCell | GetterTestInfo_Pvs.Taf/ExcelWorker.cs:81-94 | one data-driven test on its own writes its item `k` on row `start + k` in every column but Property, and leaves every other cell as it was |
| Report.ItemRow | GetterTestInfo_Pvs.Taf/ExcelWorker.cs:81-94 | adding an item to a data-driven test adds its row `start + k` and changes no other row |
| Report.GroupGrows | GetterTestInfo_Pvs.Taf/ExcelWorker.cs:81-94 | a data-driven test stays writable when a writable item is added |
| Report.ReachSingle | GetterTestInfo_Pvs.Taf/ExcelWorker.cs:93 | one data-driven test reaches down to row `start + items - 1`, or nowhere when it has no items |
| Report.ReachSnoc | GetterTestInfo_Pvs.Taf/ExcelWorker.cs:62-76 | the item count and last row after one more data-driven test are the larger of the earlier ones and the new test's |
| Report.ReachSnocMax | GetterTestInfo_Pvs.Taf/ExcelWorker.cs:62-76 | the last used row after one more data-driven test comes from the last rows before and of the test alone |
| Report.AfterGroupsSnoc | GetterTestInfo_Pvs.Taf/ExcelWorker.cs:62-76 | any cell after one more data-driven test is that test's rows written over the cell the earlier tests left |
| ExcelWorker.AddDataDrivenItem | GetterTestInfo_Pvs.Taf/ExcelWorker.cs:83-91 | it fails exactly when a category attribute lacks an argument, or the item is not test-case data, or its bag lacks one of the three keys; otherwise row `lineNumber` gets the item's values in every column but Property, styles are kept, and nothing else changes |
| ExcelWorker.AddDataDrivenTest | GetterTestInfo_Pvs.Taf/ExcelWorker.cs:79-96 | it fails exactly when an item cannot be written; otherwise item `k` fills row `lineNumber + k` as the single-test grid says, nothing else changes, and the last row reaches the last item's row |
| Grid.GroupsOfSnoc | GetterTestInfo_Pvs.Taf/ExcelWorker.cs:62-76 | resolving one more data-driven test adds its group, with the items its source yields, at the end |
| ExcelWorker.AddDataDrivenTests | GetterTestInfo_Pvs.Taf/ExcelWorker.cs:57-77 | it fails exactly when some data-driven test's source does not resolve or its rows cannot be written; otherwise every test, in enumeration order, writes its rows from the same `lineNumber`, and the last row reaches the longest test's last item |
| Grid.PlainStep | GetterTestInfo_Pvs.Taf/ExcelWorker.cs:22-25 | writing plain test `i` on row `i + 2` over the header and the first `i` plain rows gives the header and the first `i + 1` |
| Grid.GridCellComposition | GetterTestInfo_Pvs.Taf/ExcelWorker.cs:27 | the filled grid is the header and plain rows with every data-driven test written over them from row `plainCount + 2` |
| Grid.RowsFromCells | GetterTestInfo_Pvs.Taf/ExcelWorker.cs:168 | rows that agree cell by cell with a grid's rows 2 to the last row are that grid's data rows |
| Grid.RowsOfGrid | GetterTestInfo_Pvs.Taf/ExcelWorker.cs:168 | reading a filled grid's data rows gives the grid rows of its layout |
| Grid.WithDataRowsMeaning | GetterTestInfo_Pvs.Taf/ExcelWorker.cs:168 | replacing the data rows puts exactly the given rows there and leaves the header and every cell outside the table as they were |
| Sorting.InsertBy | GetterTestInfo_Pvs.Taf/ExcelWorker.cs:168 | inserting a row into sorted rows keeps them sorted, and adds exactly that row |
| Sorting.LeadBelowAll | GetterTestInfo_Pvs.Taf/ExcelWorker.cs:168 | a row whose key is at most the first key of sorted rows can lead them |
| Sorting.OrdinalIsTotalPreorder | GetterTestInfo_Pvs.Taf/ExcelWorker.cs:168 | the ordinal text order is a total preorder, so it is one of the orders the sort accepts |
| Sorting.SortBy | GetterTestInfo_Pvs.Taf/ExcelWorker.cs:168 | for any total preorder on keys, the sorted rows are in ascending order of the key and are a permutation of the input |
| ExcelWorker.AddSorting | GetterTestInfo_Pvs.Taf/ExcelWorker.cs:166-169 | given that the last row is the lowest row holding a value, that row 1 holds the seven captions (so the table's header is row 1 and its "Test" field is column C) and that nothing lies outside columns A to G (so the used range is rows 1 to the last row of those columns), the rows below the header end up in ascending order of their Test text under the comparer `textOrder`, any total preorder, and are a permutation of the rows before; the header, the cells outside the table and the last row are unchanged |
| ExcelWorker.SortFilledGrid | GetterTestInfo_Pvs.Taf/ExcelWorker.cs:29 | on a worksheet holding the filled grid, the sort leaves the last row and every cell outside the data rows as the grid has them, and makes the data rows the grid's rows, permuted, in ascending `textOrder` of their Test text |
| ExcelWorker.CreateExcelFileWithTestInfos | GetterTestInfo_Pvs.Taf/ExcelWorker.cs:12-36 | the worksheet is a new one, as `Worksheets.Add` makes; it fails exactly when some row of the report cannot be written; otherwise the last row is `plainCount + 1 + longest data-driven item count`, every cell outside the data rows is the filled grid's, and the data rows are the filled grid's rows sorted on Test under the comparer `textOrder` |
| ReportProperties.PlainIdentityCells | GetterTestInfo_Pvs.Taf/ExcelWorker.cs:46-49 | plain test `i` is on row `i + 2` with its type's name in Class and its own name in Test, neither highlighted |
| ReportProperties.PlainAnnotationCell | GetterTestInfo_Pvs.Taf/ExcelWorker.cs:110-123 | a plain test's TestCaseId, Priority or Description cell is highlighted exactly when no attribute's type name contains the column name, and then holds nothing; otherwise it holds the first argument of the first such attribute |
| ReportProperties.CategoryNeverHighlighted | GetterTestInfo_Pvs.Taf/ExcelWorker.cs:125-141 | no Category cell in any row is highlighted; on a plain test's row it holds all the category first arguments joined with `", "`, which is the empty text when there are none |
| ReportProperties.PlainPropertyCell | GetterTestInfo_Pvs.Taf/ExcelWorker.cs:143-164 | a plain test's Property cell is highlighted exactly when no attribute's type name contains `Property`, and then holds nothing; otherwise it holds one line per such attribute, joined with the new-line text |
| ReportProperties.DataRowCell | GetterTestInfo_Pvs.Taf/ExcelWorker.cs:79-96 | no cell in a data-driven row is highlighted, and a row no data-driven test has an item for is blank |
| ReportProperties.DataRowFromLastCover | GetterTestInfo_Pvs.Taf/ExcelWorker.cs:27 | in a data-driven row the last data-driven test that has an item for it decides every column but Property, which is blank |
| ReportProperties.RowsNameTheirTest | GetterTestInfo_Pvs.Taf/ExcelWorker.cs:88 | every row from 2 to the last row has a value in its Test cell |
| ReportProperties.BlankBelowLastRow | GetterTestInfo_Pvs.Taf/ExcelWorker.cs:93 | every cell below the last row of the filled grid is blank |
| ReportProperties.ReorderedRowsNameTheirTest | GetterTestInfo_Pvs.Taf/ExcelWorker.cs:166-169 | any reordering of the filled grid's data rows, and so the sorted report, has seven cells per row and a Test value in each |

## Left out

- ClosedXML rendering is not modelled. This covers workbook creation, the sheet's name, `CreateTable`, column width fitting and vertical alignment (lines 16-17, 32-33). Beyond the cells and the sort they have no effect on the data.
- `SaveAs` and the `DateTime.Now` file name (line 35) are file I/O and the clock. The model instead returns the worksheet that would be saved.
- `XLColor.Red` is modelled as a `highlighted` flag. No other style is modelled.
- Reflection is given as values. `GetMethods()` is the list of methods each `TestType` carries, `CustomAttributes` are the attribute lists, and the static non-public methods are a map from name to the sequence of items invoking them yields. The following are not modelled:
  - `GetMethod` throwing on overloads;
  - a source that throws or returns `null`;
  - `ConstructorArguments` values that are `null`;
  - a source whose result is not an `IEnumerable`, so that the cast `(IEnumerable)` on line 73 throws;
  - a `null` `TestName`.
- `Environment.NewLine` is a `newLine` parameter.
- ResolveSource (TestMetadata.ResolveSource): `types.First(t => t.Name == className)` takes the first type with that simple name. When two types share a simple name, a test of the second is looked up in the first, as in the code.
- AddSorting (ExcelWorker.AddSorting) is stated only for a sheet whose row 1 holds the seven captions and whose cells outside columns A to G are empty, as on every sheet the report builds. On another sheet `Sort("Test")` would take the first used row as the header, could find no "Test" field, and would move cells beyond column G with their rows; none of that is modelled.
- SortBy (Sorting.SortBy): the table sort is only specified by its outcome (ascending, a permutation, the header kept). The order is the `textOrder` parameter of `CreateExcelFileWithTestInfos` and `AddSorting`, and is only required to be a total preorder. ClosedXML's own comparison, which ignores case and follows the culture, is not defined here; the ordinal order `StrLe` is one instance. The sort is not claimed to be stable, so the order of rows whose Test texts tie is left open.
- GetLetterByNumber (Report.GetLetterByNumber) is defined only for codes 0 to 0xD7FF (`number` from -65 to 0xD7FF - 65). Dafny characters exclude the UTF-16 surrogates, and below code 0 the C# `(char)` cast would wrap modulo 65536, which is not modelled. The code only calls it with 0 to 6.
- Row numbers are unbounded integers. Excel's row limit and `int` overflow of the row counter are not modelled.
- When a run throws, the model promises nothing about the grid left behind. The code never saves that grid.
- `GetterTestInfo_Pvs.Taf/MainClass.cs` is not part of this model. It is the entry point that loads the assembly and filters types by namespace.

Three behaviours of the code that a reader might not expect, which the model keeps:

- an empty category list gives an empty, unhighlighted Category cell rather than a highlight;
- data-driven tests all start on the same row and overwrite one another, rather than filling consecutive rows;
- a data-source failure or a missing property key aborts the whole run.

/** The worksheet the report fills: cells addressed by a column letter string
    and a row number, each holding an optional text value and a highlight
    flag (the red background fill). */
module Sheet {
  import opened Results

  /** A cell address such as `"B" + 5`: column letters and a 1-based row. */
  datatype Address = Address(column: string, row: int)

  datatype Cell = Cell(value: Option<string>, highlighted: bool)

  /** A cell nobody has touched. */
  const Blank := Cell(None, false)

  /** The cell at `a` in a grid that lists only the cells touched so far. */
  function CellAt(cells: map<Address, Cell>, a: Address): Cell {
    if a in cells then cells[a] else Blank
  }

  class Worksheet {
    var cells: map<Address, Cell>
    /** The last row holding a value: the bottom of `RangeUsed()`. */
    var lastRow: nat

    constructor ()
      ensures cells == map[] && lastRow == 0
    {
      cells := map[];
      lastRow := 0;
    }

    /** `worksheet.Cell(a).Value = text`: the value is replaced, the style kept. */
    method SetValue(a: Address, text: string)
      requires a.row >= 1
      modifies this
      ensures CellAt(cells, a) == CellAt(old(cells), a).(value := Some(text))
      ensures forall b :: b != a ==> CellAt(cells, b) == CellAt(old(cells), b)
      ensures lastRow == if a.row > old(lastRow) then a.row else old(lastRow)
    {
      cells := cells[a := CellAt(cells, a).(value := Some(text))];
      if a.row > lastRow {
        lastRow := a.row;
      }
    }

    /** `HighlightCell`: the cell's background becomes red, its value is kept. */
    method Highlight(a: Address)
      requires a.row >= 1
      modifies this
      ensures CellAt(cells, a) == CellAt(old(cells), a).(highlighted := true)
      ensures forall b :: b != a ==> CellAt(cells, b) == CellAt(old(cells), b)
      ensures lastRow == old(lastRow)
    {
      cells := cells[a := CellAt(cells, a).(highlighted := true)];
    }
  }
}

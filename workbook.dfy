/** The workbook as the scripts see it through ExcelJS: sheets in position
    order, each with its non-empty rows in ascending row number, each row with
    its cells by column. Reading a file into this value is not modelled. */
module Workbook {
  import opened Wrappers
  import opened Text
  import opened Dates

  /** A cell: its formatted text (`cell.text`) and its raw value as a string
      (`cell.value.toString()`), each possibly absent. */
  datatype Cell = Cell(text: Option<string>, value: Option<string>)

  /** A row: its 1-based number and its cells, `cells[k]` being column `k + 1`. */
  datatype Row = Row(number: nat, cells: seq<Cell>)

  datatype Sheet = Sheet(name: string, rows: seq<Row>)

  /** `row.getCell(col)`: a column the row does not have reads as an empty cell. */
  function GetCell(row: Row, col: nat): (c: Cell)
    ensures 1 <= col <= |row.cells| ==> c == row.cells[col - 1]
    ensures !(1 <= col <= |row.cells|) ==> c.text.None? && c.value.None?
  {
    if 1 <= col <= |row.cells| then row.cells[col - 1] else Cell(None, None)
  }

  /** How a data cell is read: `text?.trim() || value?.toString().trim() || ''`. */
  function CellString(c: Cell): (r: string)
    ensures IsTrimmed(r)
    ensures r == [] <==> (c.text.None? || Trim(c.text.value) == []) && (c.value.None? || Trim(c.value.value) == [])
    ensures c.text.Some? && Trim(c.text.value) != [] ==> r == Trim(c.text.value)
    ensures (c.text.None? || Trim(c.text.value) == []) && c.value.Some? ==> r == Trim(c.value.value)
  {
    if c.text.Some? && Trim(c.text.value) != [] then Trim(c.text.value)
    else if c.value.Some? then Trim(c.value.value)
    else []
  }

  /** `String(cell.text || cell.value || '')`: the text unless it is empty, then
      the value unless it is empty, then the empty string. */
  function HeaderText(c: Cell): (r: string)
    ensures r == [] <==> (c.text.None? || c.text.value == []) && (c.value.None? || c.value.value == [])
    ensures c.text.Some? && c.text.value != [] ==> r == c.text.value
    ensures (c.text.None? || c.text.value == []) && c.value.Some? ==> r == c.value.value
  {
    if c.text.Some? && c.text.value != [] then c.text.value
    else if c.value.Some? && c.value.value != [] then c.value.value
    else []
  }

  /** How a header cell is read: `String(text || value || '').trim().toUpperCase()`.
      The choice between text and value is made before trimming. */
  function HeaderKey(c: Cell): (key: string)
    ensures |key| == |Trim(HeaderText(c))|
    ensures key == [] <==> Trim(HeaderText(c)) == []
  {
    ToUpper(Trim(HeaderText(c)))
  }

  /** A header cell whose text is blank but not empty hides its value, while the
      same cell in a data row is read from its value. */
  lemma HeaderKeyTextFirst()
    ensures HeaderKey(Cell(Some(" "), Some("placa"))) == []
    ensures CellString(Cell(Some(" "), Some("placa"))) != []
  {
    var blank := " ";
    assert Trim(blank) == [] by { TrimEmpty(blank); }
    var word := "placa";
    assert Trim(word) == word by { TrimFixpoint(word); }
  }

  /** `worksheet.getRow(1)`: the cells of row number 1, or none when the sheet has no such row. */
  function HeaderCells(sheet: Sheet): (cells: seq<Cell>)
    ensures forall i :: 0 <= i < |sheet.rows| && sheet.rows[i].number == 1
                        && (forall j :: 0 <= j < i ==> sheet.rows[j].number != 1)
                        ==> cells == sheet.rows[i].cells
    ensures (forall i :: 0 <= i < |sheet.rows| ==> sheet.rows[i].number != 1) ==> cells == []
  {
    match FindFirst(sheet.rows, (r: Row) => r.number == 1)
    case Some(i) => sheet.rows[i].cells
    case None => []
  }

  /** True when the sheet's name carries a date. */
  predicate IsDateBearing(sheet: Sheet) {
    ParseDateFromSheetName(sheet.name).Some?
  }

  /** `workbook.getWorksheet(name)`: the first sheet with exactly that name. */
  function FindSheetByName(sheets: seq<Sheet>, name: string): (r: Option<nat>)
    ensures r.Some? ==> r.value < |sheets| && sheets[r.value].name == name
    ensures r.Some? ==> forall j :: 0 <= j < r.value ==> sheets[j].name != name
    ensures r.None? <==> forall j :: 0 <= j < |sheets| ==> sheets[j].name != name
  {
    FindFirst(sheets, (s: Sheet) => s.name == name)
  }

  /** `workbook.worksheets.find(ws => parseDateFromSheetName(ws.name))`. */
  function FirstDateSheet(sheets: seq<Sheet>): (r: Option<nat>)
    ensures r.Some? ==> r.value < |sheets| && IsDateBearing(sheets[r.value])
    ensures r.Some? ==> forall j :: 0 <= j < r.value ==> !IsDateBearing(sheets[j])
    ensures r.None? <==> forall j :: 0 <= j < |sheets| ==> !IsDateBearing(sheets[j])
  {
    FindFirst(sheets, IsDateBearing)
  }
}

/** The part of `loadScheduleData` both scripts share once a worksheet is
    chosen: the header map built from row 1, the required-column check, and the
    pass over the rows that keeps each row with a plate and a driver as a shift
    record. */
module Extraction {
  import opened Wrappers
  import opened Text
  import opened Normalize
  import opened Workbook

  /** One vehicle/driver assignment: plate, driver, shift period and worker type. */
  datatype ShiftRecord = ShiftRecord(placa: string, motorista: string, turno: string, tipo: string)

  /** Why loading the schedule fails. */
  datatype LoadError =
    | NoWorksheet                        // the workbook has no sheet to use
    | MissingColumns(missing: seq<string>) // required headers absent, in the order they are required
    | NoRecords(sheetName: string)         // no row of the chosen sheet has a plate and a driver

  /** What loading the schedule returns: the records and the name of the sheet they came from. */
  datatype Loaded = Loaded(records: seq<ShiftRecord>, worksheetName: string)

  /** The headers every schedule sheet must have, in the order they are reported. */
  const Required: seq<string> := ["PLACA", "MOTORISTA", "TURNO", "TIPO"]

  // ---------------------------------------------------------------- header map

  /** The header map once `eachCell` has seen the keys `keys`, column `k + 1`
      reading as `keys[k]`: each non-empty key is mapped to its column, a later
      column overwriting an earlier one. */
  function ColumnMap(keys: seq<string>): map<string, nat> {
    if keys == [] then map[]
    else
      var m := ColumnMap(keys[..|keys| - 1]);
      if keys[|keys| - 1] != [] then m[keys[|keys| - 1] := |keys|] else m
  }

  /** Column `col` reads as `key`. */
  predicate KeyAt(keys: seq<string>, key: string, col: int) {
    1 <= col <= |keys| && keys[col - 1] == key
  }

  /** A key is in the map exactly when some column reads as it, and it is
      mapped to the last such column. */
  lemma {:induction false} ColumnMapSpec(keys: seq<string>, key: string)
    ensures key in ColumnMap(keys) <==> key != [] && exists c :: KeyAt(keys, key, c)
    ensures key in ColumnMap(keys) ==>
              KeyAt(keys, key, ColumnMap(keys)[key])
              && forall c :: ColumnMap(keys)[key] < c ==> !KeyAt(keys, key, c)
  {
    if keys != [] {
      var n := |keys|;
      var init := keys[..n - 1];
      ColumnMapSpec(init, key);
      forall c | KeyAt(init, key, c) ensures KeyAt(keys, key, c) {
        assert keys[c - 1] == init[c - 1];
      }
      forall c | c < n && KeyAt(keys, key, c) ensures KeyAt(init, key, c) {
        assert keys[c - 1] == init[c - 1];
      }
      if key == keys[n - 1] && key != [] {
        assert KeyAt(keys, key, n);
      } else if key != [] && exists c :: KeyAt(keys, key, c) {
        var c :| KeyAt(keys, key, c);
        assert KeyAt(init, key, c);
      }
    }
  }

  /** The keys the header row's cells read as, column by column. */
  function HeaderKeys(cells: seq<Cell>): (keys: seq<string>)
    ensures |keys| == |cells|
  {
    if cells == [] then []
    else HeaderKeys(cells[..|cells| - 1]) + [HeaderKey(cells[|cells| - 1])]
  }

  /** The header map built from the header row's cells. */
  function HeaderMapOf(cells: seq<Cell>): map<string, nat> {
    ColumnMap(HeaderKeys(cells))
  }

  /** One more column extends the map by its key, when that key is not empty. */
  lemma ColumnMapStep(keys: seq<string>, key: string)
    ensures ColumnMap(keys + [key]) == if key != [] then ColumnMap(keys)[key := |keys| + 1] else ColumnMap(keys)
  {
    assert (keys + [key])[..|keys|] == keys;
  }

  /** The header keys of one more cell are those before it and its own. */
  lemma HeaderKeysStep(cells: seq<Cell>, col: nat)
    requires col < |cells|
    ensures HeaderKeys(cells[..col + 1]) == HeaderKeys(cells[..col]) + [HeaderKey(cells[col])]
  {
    assert cells[..col + 1][..col] == cells[..col];
  }

  /** The `eachCell` loop over the header row. */
  method BuildHeaderMap(cells: seq<Cell>) returns (headerMap: map<string, nat>)
    ensures headerMap == HeaderMapOf(cells)
  {
    headerMap := map[];
    var col := 0;
    while col < |cells|
      invariant col <= |cells|
      invariant headerMap == ColumnMap(HeaderKeys(cells[..col]))
    {
      var key := HeaderKey(cells[col]);
      HeaderKeysStep(cells, col);
      ColumnMapStep(HeaderKeys(cells[..col]), key);
      if key != [] {
        headerMap := headerMap[key := col + 1];
      }
      col := col + 1;
    }
    assert cells[..col] == cells;
  }

  /** The headers of `hs` the map lacks, in the order of `hs`. */
  function MissingAmong(hs: seq<string>, headerMap: map<string, nat>): seq<string> {
    if hs == [] then []
    else (if hs[0] in headerMap then [] else [hs[0]]) + MissingAmong(hs[1..], headerMap)
  }

  /** A header is reported exactly when it is required and absent, and the
      report is never longer than the list checked. */
  lemma {:induction false} MissingAmongSpec(hs: seq<string>, headerMap: map<string, nat>, h: string)
    ensures h in MissingAmong(hs, headerMap) <==> h in hs && h !in headerMap
    ensures |MissingAmong(hs, headerMap)| <= |hs|
  {
    if hs != [] {
      MissingAmongSpec(hs[1..], headerMap, h);
      assert hs == [hs[0]] + hs[1..];
    }
  }

  /** `requiredHeaders.filter(header => !headerMap[header])`. */
  function MissingHeaders(headerMap: map<string, nat>): seq<string> {
    MissingAmong(Required, headerMap)
  }

  predicate HasRequired(headerMap: map<string, nat>) {
    "PLACA" in headerMap && "MOTORISTA" in headerMap && "TURNO" in headerMap && "TIPO" in headerMap
  }

  /** Nothing is reported missing exactly when all four headers are present. */
  lemma MissingHeadersEmpty(headerMap: map<string, nat>)
    ensures MissingHeaders(headerMap) == [] <==> HasRequired(headerMap)
  {
    MissingHeadersUnfold(headerMap);
  }

  /** Four headers are tested one after another. */
  lemma MissingAmongFour(a: string, b: string, c: string, d: string, headerMap: map<string, nat>)
    ensures MissingAmong([a, b, c, d], headerMap)
            == (if a in headerMap then [] else [a]) + (if b in headerMap then [] else [b])
               + (if c in headerMap then [] else [c]) + (if d in headerMap then [] else [d])
  {
    var hs4, hs3, hs2, hs1 := [a, b, c, d], [b, c, d], [c, d], [d];
    assert hs4[0] == a && hs4[1..] == hs3;
    assert hs3[0] == b && hs3[1..] == hs2;
    assert hs2[0] == c && hs2[1..] == hs1;
    assert hs1[0] == d && hs1[1..] == [];
    var ma := if a in headerMap then [] else [a];
    var mb := if b in headerMap then [] else [b];
    var mc := if c in headerMap then [] else [c];
    var md := if d in headerMap then [] else [d];
    assert MissingAmong(hs1, headerMap) == md;
    assert MissingAmong(hs2, headerMap) == mc + md;
    assert MissingAmong(hs3, headerMap) == mb + (mc + md);
    assert MissingAmong(hs4, headerMap) == ma + (mb + (mc + md));
  }

  /** The check tests PLACA, MOTORISTA, TURNO and TIPO in that order. */
  lemma MissingHeadersUnfold(headerMap: map<string, nat>)
    ensures MissingHeaders(headerMap)
            == (if "PLACA" in headerMap then [] else ["PLACA"])
               + (if "MOTORISTA" in headerMap then [] else ["MOTORISTA"])
               + (if "TURNO" in headerMap then [] else ["TURNO"])
               + (if "TIPO" in headerMap then [] else ["TIPO"])
  {
    MissingAmongFour("PLACA", "MOTORISTA", "TURNO", "TIPO", headerMap);
  }

  /** A header row with every required column but TIPO reports exactly TIPO. */
  lemma MissingOnlyTipo(headerMap: map<string, nat>)
    requires "PLACA" in headerMap && "MOTORISTA" in headerMap && "TURNO" in headerMap
    requires "TIPO" !in headerMap
    ensures MissingHeaders(headerMap) == ["TIPO"]
    ensures ErrorMessage(MissingColumns(MissingHeaders(headerMap)))
            == "Planilha de escala está sem as colunas obrigatórias: TIPO"
  {
    MissingHeadersUnfold(headerMap);
  }

  /** A header row with none of the required columns reports all four, in order. */
  lemma MissingAll(headerMap: map<string, nat>)
    requires "PLACA" !in headerMap && "MOTORISTA" !in headerMap
    requires "TURNO" !in headerMap && "TIPO" !in headerMap
    ensures MissingHeaders(headerMap) == Required
    ensures ErrorMessage(MissingColumns(MissingHeaders(headerMap)))
            == "Planilha de escala está sem as colunas obrigatórias: PLACA, MOTORISTA, TURNO, TIPO"
  {
    MissingHeadersUnfold(headerMap);
    MissingAllMessage();
  }

  /** The message that lists all four required headers. */
  lemma MissingAllMessage()
    ensures ErrorMessage(MissingColumns(Required))
            == "Planilha de escala está sem as colunas obrigatórias: PLACA, MOTORISTA, TURNO, TIPO"
  {
    RequiredJoined();
    assert "Planilha de escala está sem as colunas obrigatórias: " + "PLACA, MOTORISTA, TURNO, TIPO"
           == "Planilha de escala está sem as colunas obrigatórias: PLACA, MOTORISTA, TURNO, TIPO";
  }

  /** The four required headers, joined with a comma and a space. */
  lemma RequiredJoined()
    ensures Join(Required, ", ") == "PLACA, MOTORISTA, TURNO, TIPO"
  {
    JoinFour("PLACA", "MOTORISTA", "TURNO", "TIPO", ", ");
    assert "PLACA" + ", " == "PLACA, ";
    assert "PLACA, " + "MOTORISTA" == "PLACA, MOTORISTA";
    assert "PLACA, MOTORISTA" + ", " == "PLACA, MOTORISTA, ";
    assert "PLACA, MOTORISTA, " + "TURNO" == "PLACA, MOTORISTA, TURNO";
    assert "PLACA, MOTORISTA, TURNO" + ", " == "PLACA, MOTORISTA, TURNO, ";
    assert "PLACA, MOTORISTA, TURNO, " + "TIPO" == "PLACA, MOTORISTA, TURNO, TIPO";
  }

  /** The text of the error each failure raises. */
  function ErrorMessage(e: LoadError): string {
    match e
    case NoWorksheet => "Planilha de escala não contém abas válidas."
    case MissingColumns(missing) =>
      "Planilha de escala está sem as colunas obrigatórias: " + Join(missing, ", ")
    case NoRecords(name) => "Nenhum registro encontrado na aba " + name + "."
  }

  // ---------------------------------------------------------------- records

  /** The columns of the four required headers. */
  datatype Columns = Columns(placa: nat, motorista: nat, turno: nat, tipo: nat)

  function ColumnsOf(headerMap: map<string, nat>): Columns
    requires HasRequired(headerMap)
  {
    Columns(headerMap["PLACA"], headerMap["MOTORISTA"], headerMap["TURNO"], headerMap["TIPO"])
  }

  /** The record one row yields, if it is kept. */
  function RowRecord(row: Row, cols: Columns): Option<ShiftRecord> {
    if row.number == 1 then None
    else
      var placa := CellString(GetCell(row, cols.placa));
      var motorista := CellString(GetCell(row, cols.motorista));
      var rawTurno := CellString(GetCell(row, cols.turno));
      var rawTipo := CellString(GetCell(row, cols.tipo));
      if placa != [] && motorista != [] then
        Some(ShiftRecord(placa, motorista, NormalizeTurno(rawTurno), NormalizeTipo(rawTipo)))
      else None
  }

  /** The row step of the pass, for a fixed choice of columns. */
  function Keep(cols: Columns): Row -> Option<ShiftRecord> {
    (row: Row) => RowRecord(row, cols)
  }

  /** The records once `eachRow` has visited `rows`. */
  function RecordsOf(rows: seq<Row>, cols: Columns): seq<ShiftRecord> {
    FilterMap(rows, Keep(cols))
  }

  /** The `eachRow` loop: skip row 1, read the four columns, keep the row when
      it has a plate and a driver. */
  method CollectRecords(rows: seq<Row>, cols: Columns) returns (records: seq<ShiftRecord>)
    ensures records == RecordsOf(rows, cols)
  {
    records := [];
    var i := 0;
    while i < |rows|
      invariant i <= |rows|
      invariant records == RecordsOf(rows[..i], cols)
    {
      assert rows[..i + 1][..i] == rows[..i];
      var row := rows[i];
      if row.number != 1 {
        var placa := CellString(GetCell(row, cols.placa));
        var motorista := CellString(GetCell(row, cols.motorista));
        var rawTurno := CellString(GetCell(row, cols.turno));
        var rawTipo := CellString(GetCell(row, cols.tipo));
        var turno := NormalizeTurno(rawTurno);
        var tipo := NormalizeTipo(rawTipo);
        if placa != [] && motorista != [] {
          records := records + [ShiftRecord(placa, motorista, turno, tipo)];
        }
      }
      i := i + 1;
    }
    assert rows[..i] == rows;
  }

  /** A cell with something other than spaces in its text or its value. */
  predicate HasContent(c: Cell) {
    (c.text.Some? && Trim(c.text.value) != []) || (c.value.Some? && Trim(c.value.value) != [])
  }

  /** A row is kept exactly when it is not row 1 and both its plate cell and its
      driver cell have content; shift and type may be blank. */
  lemma RowKept(row: Row, cols: Columns)
    ensures RowRecord(row, cols).Some?
            <==> row.number != 1 && HasContent(GetCell(row, cols.placa)) && HasContent(GetCell(row, cols.motorista))
  {
  }

  /** A kept record has a trimmed non-empty plate and driver and a shift and a
      type already in normal form. */
  predicate WellFormedRecord(r: ShiftRecord) {
    r.placa != [] && r.motorista != [] && IsTrimmed(r.placa) && IsTrimmed(r.motorista)
    && IsTurnoForm(r.turno) && IsTipoForm(r.tipo)
  }

  /** Records of consecutive runs of rows come out in the same order: the pass
      over the rows keeps row order. */
  lemma RecordsOfAppend(a: seq<Row>, b: seq<Row>, cols: Columns)
    ensures RecordsOf(a + b, cols) == RecordsOf(a, cols) + RecordsOf(b, cols)
  {
    FilterMapAppend(a, b, Keep(cols));
  }

  /** A record is in the result exactly when some row yields it. */
  lemma RecordsOfMember(rows: seq<Row>, cols: Columns, r: ShiftRecord)
    ensures r in RecordsOf(rows, cols) <==> exists i :: 0 <= i < |rows| && RowRecord(rows[i], cols) == Some(r)
  {
    FilterMapMember(rows, Keep(cols), r);
  }

  /** No row yields a record exactly when the result is empty. */
  lemma {:induction false} RecordsOfEmpty(rows: seq<Row>, cols: Columns)
    ensures RecordsOf(rows, cols) == [] <==> forall i :: 0 <= i < |rows| ==> RowRecord(rows[i], cols).None?
  {
    if RecordsOf(rows, cols) != [] {
      RecordsOfMember(rows, cols, RecordsOf(rows, cols)[0]);
    } else {
      forall i | 0 <= i < |rows| ensures RowRecord(rows[i], cols).None? {
        if RowRecord(rows[i], cols).Some? {
          RecordsOfMember(rows, cols, RowRecord(rows[i], cols).value);
        }
      }
    }
  }

  /** Every record the pass keeps is well formed. */
  lemma {:induction false} RecordsOfWellFormed(rows: seq<Row>, cols: Columns)
    ensures forall r :: r in RecordsOf(rows, cols) ==> WellFormedRecord(r)
  {
    forall r | r in RecordsOf(rows, cols) ensures WellFormedRecord(r) {
      RecordsOfMember(rows, cols, r);
      var i :| 0 <= i < |rows| && RowRecord(rows[i], cols) == Some(r);
      var row := rows[i];
      NormalizeTurnoIdempotent(CellString(GetCell(row, cols.turno)));
      NormalizeTipoIdempotent(CellString(GetCell(row, cols.tipo)));
    }
  }

  // ---------------------------------------------------------------- one sheet

  /** The header row of the sheet has a column that reads as `key`. */
  ghost predicate HeaderPresent(sheet: Sheet, key: string) {
    exists c :: KeyAt(HeaderKeys(HeaderCells(sheet)), key, c)
  }

  /** Extraction from a chosen worksheet: the required-header check, then the records. */
  function ExtractSheet(sheet: Sheet): Result<seq<ShiftRecord>, LoadError> {
    var headerMap := HeaderMapOf(HeaderCells(sheet));
    var missing := MissingHeaders(headerMap);
    if missing != [] then Failure(MissingColumns(missing))
    else
      MissingHeadersEmpty(headerMap);
      var records := RecordsOf(sheet.rows, ColumnsOf(headerMap));
      if records == [] then Failure(NoRecords(sheet.name)) else Success(records)
  }

  /** The worksheet part of `loadScheduleData`: build the header map, check it,
      then collect the records. */
  method ReadWorksheet(sheet: Sheet) returns (res: Result<seq<ShiftRecord>, LoadError>)
    ensures res == ExtractSheet(sheet)
  {
    var headerMap := BuildHeaderMap(HeaderCells(sheet));
    var missing := MissingHeaders(headerMap);
    if missing != [] {
      return Failure(MissingColumns(missing));
    }
    MissingHeadersEmpty(headerMap);
    var records := CollectRecords(sheet.rows, ColumnsOf(headerMap));
    if records == [] {
      return Failure(NoRecords(sheet.name));
    }
    return Success(records);
  }

  /** The header map of a sheet has a required header exactly when some column
      of its first row reads as it. */
  lemma HeaderMapOfSheet(sheet: Sheet, h: string)
    requires h in Required
    ensures h in HeaderMapOf(HeaderCells(sheet)) <==> HeaderPresent(sheet, h)
  {
    ColumnMapSpec(HeaderKeys(HeaderCells(sheet)), h);
  }

  /** A header is reported missing exactly when it is required and no column
      of the first row reads as it. */
  lemma MissingHeadersOfSheet(sheet: Sheet, h: string)
    ensures h in MissingHeaders(HeaderMapOf(HeaderCells(sheet))) <==> h in Required && !HeaderPresent(sheet, h)
  {
    MissingAmongSpec(Required, HeaderMapOf(HeaderCells(sheet)), h);
    if h in Required {
      HeaderMapOfSheet(sheet, h);
    }
  }

  /** Extraction fails on its headers exactly when a required header is absent
      from the first row, and it then names exactly the absent ones. */
  lemma ExtractSheetMissing(sheet: Sheet)
    ensures ExtractSheet(sheet).Failure? && ExtractSheet(sheet).error.MissingColumns?
            <==> exists h :: h in Required && !HeaderPresent(sheet, h)
    ensures ExtractSheet(sheet).Failure? && ExtractSheet(sheet).error.MissingColumns? ==>
              forall h :: h in ExtractSheet(sheet).error.missing <==> h in Required && !HeaderPresent(sheet, h)
  {
    var missing := MissingHeaders(HeaderMapOf(HeaderCells(sheet)));
    var failed := ExtractSheet(sheet).Failure? && ExtractSheet(sheet).error.MissingColumns?;
    assert failed <==> missing != [];
    assert failed ==> ExtractSheet(sheet).error.missing == missing;
    forall h ensures h in missing <==> h in Required && !HeaderPresent(sheet, h) {
      MissingHeadersOfSheet(sheet, h);
    }
    if missing != [] {
      assert missing[0] in missing;
    }
  }

  /** Any other failure names the sheet; success gives its well-formed records. */
  lemma ExtractSheetRecords(sheet: Sheet)
    ensures ExtractSheet(sheet).Failure? ==>
              ExtractSheet(sheet).error.MissingColumns? || ExtractSheet(sheet).error == NoRecords(sheet.name)
    ensures ExtractSheet(sheet).Success? ==>
              ExtractSheet(sheet).value != []
              && forall r :: r in ExtractSheet(sheet).value ==> WellFormedRecord(r)
  {
    var headerMap := HeaderMapOf(HeaderCells(sheet));
    MissingHeadersEmpty(headerMap);
    if HasRequired(headerMap) {
      RecordsOfWellFormed(sheet.rows, ColumnsOf(headerMap));
    }
  }

  /** The columns the record pass reads: those the header map gives the four
      required headers. */
  function SheetColumns(sheet: Sheet): Columns
    requires HasRequired(HeaderMapOf(HeaderCells(sheet)))
  {
    ColumnsOf(HeaderMapOf(HeaderCells(sheet)))
  }

  /** Column `col` is the last column of the header row that reads as `key`. */
  ghost predicate LastColumnOf(sheet: Sheet, key: string, col: nat) {
    var keys := HeaderKeys(HeaderCells(sheet));
    KeyAt(keys, key, col) && forall c :: col < c ==> !KeyAt(keys, key, c)
  }

  /** The map has every required header exactly when each is on the header row. */
  lemma RequiredPresent(sheet: Sheet)
    ensures HasRequired(HeaderMapOf(HeaderCells(sheet))) <==> forall h :: h in Required ==> HeaderPresent(sheet, h)
  {
    HeaderMapOfSheet(sheet, "PLACA");
    HeaderMapOfSheet(sheet, "MOTORISTA");
    HeaderMapOfSheet(sheet, "TURNO");
    HeaderMapOfSheet(sheet, "TIPO");
  }

  /** Each required header is read from the last header-row column that reads as it. */
  lemma SheetColumnsSpec(sheet: Sheet)
    requires HasRequired(HeaderMapOf(HeaderCells(sheet)))
    ensures LastColumnOf(sheet, "PLACA", SheetColumns(sheet).placa)
    ensures LastColumnOf(sheet, "MOTORISTA", SheetColumns(sheet).motorista)
    ensures LastColumnOf(sheet, "TURNO", SheetColumns(sheet).turno)
    ensures LastColumnOf(sheet, "TIPO", SheetColumns(sheet).tipo)
  {
    var keys := HeaderKeys(HeaderCells(sheet));
    ColumnMapSpec(keys, "PLACA");
    ColumnMapSpec(keys, "MOTORISTA");
    ColumnMapSpec(keys, "TURNO");
    ColumnMapSpec(keys, "TIPO");
  }

  /** `row` is kept and `r` is read from it: plate and driver from their
      columns, shift and type normalised from theirs. */
  predicate RowGives(row: Row, cols: Columns, r: ShiftRecord) {
    row.number != 1
    && HasContent(GetCell(row, cols.placa)) && HasContent(GetCell(row, cols.motorista))
    && r.placa == CellString(GetCell(row, cols.placa))
    && r.motorista == CellString(GetCell(row, cols.motorista))
    && r.turno == NormalizeTurno(CellString(GetCell(row, cols.turno)))
    && r.tipo == NormalizeTipo(CellString(GetCell(row, cols.tipo)))
  }

  /** A row yields `r` exactly when it is kept and `r` holds what its columns read. */
  lemma RowRecordFields(row: Row, cols: Columns, r: ShiftRecord)
    ensures RowRecord(row, cols) == Some(r) <==> RowGives(row, cols, r)
  {
  }

  /** A sheet is read successfully exactly when it has every required header
      and some row after the first has a plate and a driver. */
  lemma ExtractSheetSucceeds(sheet: Sheet)
    ensures ExtractSheet(sheet).Success? <==>
              HasRequired(HeaderMapOf(HeaderCells(sheet)))
              && exists i :: 0 <= i < |sheet.rows| && sheet.rows[i].number != 1
                             && HasContent(GetCell(sheet.rows[i], SheetColumns(sheet).placa))
                             && HasContent(GetCell(sheet.rows[i], SheetColumns(sheet).motorista))
  {
    var headerMap := HeaderMapOf(HeaderCells(sheet));
    MissingHeadersEmpty(headerMap);
    if HasRequired(headerMap) {
      var cols := SheetColumns(sheet);
      RecordsOfEmpty(sheet.rows, cols);
      forall i | 0 <= i < |sheet.rows|
        ensures RowRecord(sheet.rows[i], cols).Some?
                <==> sheet.rows[i].number != 1 && HasContent(GetCell(sheet.rows[i], cols.placa))
                     && HasContent(GetCell(sheet.rows[i], cols.motorista))
      {
        RowKept(sheet.rows[i], cols);
      }
    }
  }

  /** A successful read returns, in row order, the records of the pass over
      the sheet's rows; a record is among them exactly when some row gives it. */
  lemma ExtractSheetRecordSource(sheet: Sheet, r: ShiftRecord)
    requires ExtractSheet(sheet).Success?
    ensures HasRequired(HeaderMapOf(HeaderCells(sheet)))
    ensures ExtractSheet(sheet).value == RecordsOf(sheet.rows, SheetColumns(sheet))
    ensures r in ExtractSheet(sheet).value <==>
              exists i :: 0 <= i < |sheet.rows| && RowGives(sheet.rows[i], SheetColumns(sheet), r)
  {
    var headerMap := HeaderMapOf(HeaderCells(sheet));
    MissingHeadersEmpty(headerMap);
    var cols := SheetColumns(sheet);
    RecordsOfMember(sheet.rows, cols, r);
    forall i | 0 <= i < |sheet.rows|
      ensures RowRecord(sheet.rows[i], cols) == Some(r) <==> RowGives(sheet.rows[i], cols, r)
    {
      RowRecordFields(sheet.rows[i], cols, r);
    }
  }

  /** Header matching ignores case: a header cell reads as a required header
      exactly when its trimmed text is that header up to ASCII case. */
  lemma HeaderMatchIgnoresCase(c: Cell, h: string)
    requires h in Required
    ensures HeaderKey(c) == h <==> EqualIgnoringCase(Trim(HeaderText(c)), h)
  {
    assert ToUpper("PLACA") == "PLACA";
    assert ToUpper("MOTORISTA") == "MOTORISTA";
    assert ToUpper("TURNO") == "TURNO";
    assert ToUpper("TIPO") == "TIPO";
    ToUpperMatches(Trim(HeaderText(c)), h);
  }

  /** A header typed `Placa ` is the PLACA column. */
  lemma HeaderMatchExample()
    ensures HeaderKey(Cell(Some("Placa "), None)) == "PLACA"
  {
    var c := Cell(Some("Placa "), None);
    assert HeaderText(c) == "Placa" + " ";
    TrimTrailingSpace("Placa");
    assert EqualIgnoringCase("Placa", "PLACA");
    HeaderMatchIgnoresCase(c, "PLACA");
  }

  // ---------------------------------------------------------------- after the sheet choice

  /** The rest of `loadScheduleData` once a worksheet is chosen (`choice` is its
      position, None when there is none): no worksheet is an error, otherwise the
      chosen sheet is read and its name is returned with the records. */
  function LoadChosen(sheets: seq<Sheet>, choice: Option<nat>): Result<Loaded, LoadError>
    requires choice.Some? ==> choice.value < |sheets|
  {
    match choice
    case None => Failure(NoWorksheet)
    case Some(i) =>
      match ExtractSheet(sheets[i])
      case Success(records) => Success(Loaded(records, sheets[i].name))
      case Failure(e) => Failure(e)
  }

  /** The `if (!worksheet) throw` check followed by the reading of the chosen sheet. */
  method ReadChosen(sheets: seq<Sheet>, choice: Option<nat>) returns (res: Result<Loaded, LoadError>)
    requires choice.Some? ==> choice.value < |sheets|
    ensures res == LoadChosen(sheets, choice)
  {
    if choice.None? {
      return Failure(NoWorksheet);
    }
    var worksheet := sheets[choice.value];
    var read := ReadWorksheet(worksheet);
    if read.Failure? {
      return Failure(read.error);
    }
    return Success(Loaded(read.value, worksheet.name));
  }

  /** Loading fails for want of a worksheet exactly when none was chosen; a
      chosen sheet either yields its well-formed records under its own name or
      fails on its headers or for want of records, naming the sheet. */
  lemma LoadChosenOutcome(sheets: seq<Sheet>, choice: Option<nat>)
    requires choice.Some? ==> choice.value < |sheets|
    ensures LoadChosen(sheets, choice) == Failure(NoWorksheet) <==> choice.None?
    ensures LoadChosen(sheets, choice).Success? ==>
              choice.Some?
              && LoadChosen(sheets, choice).value.worksheetName == sheets[choice.value].name
              && LoadChosen(sheets, choice).value.records != []
              && forall r :: r in LoadChosen(sheets, choice).value.records ==> WellFormedRecord(r)
    ensures LoadChosen(sheets, choice).Failure? && choice.Some? ==>
              LoadChosen(sheets, choice).error.MissingColumns?
              || LoadChosen(sheets, choice).error == NoRecords(sheets[choice.value].name)
    ensures choice.Some? ==>
              (LoadChosen(sheets, choice).Success? <==> ExtractSheet(sheets[choice.value]).Success?)
    ensures choice.Some? && ExtractSheet(sheets[choice.value]).Success? ==>
              LoadChosen(sheets, choice)
              == Success(Loaded(ExtractSheet(sheets[choice.value]).value, sheets[choice.value].name))
  {
    if choice.Some? {
      ExtractSheetRecords(sheets[choice.value]);
    }
  }
}

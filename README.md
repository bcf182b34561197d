# Daily schedule extraction, modelled in Dafny

The two scripts `src/rpa.js` and `src/rpa_single.js` do the same job. Each reads a daily driver schedule from an Excel workbook and types it into a web form. Before any browser work, each script does the following:

- It picks one worksheet.
- It builds a header map from the sheet's first row.
- It checks that the columns PLACA, MOTORISTA, TURNO and TIPO are present.
- It turns every later row that has a plate and a driver into a shift record. The shift (`turno`) and the worker type (`tipo`) are normalised to canonical words.
- It works out the schedule date from the sheet name, the configured sheet name or today's date.

This project models that logic and proves what it promises. The model also covers the helpers it relies on:

- the two normalisers;
- the date formatting and sheet-name date parsing;
- the regular-expression escaping used when searching for a driver or a plate.

The two scripts differ only in how the worksheet is chosen, so they share one model of everything else:

- `rpa.js` takes the configured sheet if present, else the first sheet whose name carries a date, else the first sheet.
- `rpa_single.js` looks for the configured sheet or, when none is configured, the sheet named for today's date (`DD-MM-YYYY`), else the first sheet.

Modules:

- `Wrappers`: `Option` and `Result`, plus two generic helpers:
  - the leftmost search behind `Array.prototype.find`;
  - the "push what is kept" loop shape (`FilterMap`).
- `Text`: the string primitives.
  - `trim`, with the exact ECMAScript white-space set.
  - ASCII case mapping, decimal digits, `String(n)`, `padStart(2, '0')` and `join`.
- `Normalize`: `normalizeTurno` and `normalizeTipo`.
- `RegexEscape`: `escapeForRegex`, and its inverse used for the round trip.
- `Dates`: the calendar, `formatDateToBR`, `formatDateToSheetName` and `parseDateFromSheetName`.
- `Workbook`: cells, rows and sheets as ExcelJS presents them, and how a data cell or a header cell is read.
  - A cell carries an optional `text` and an optional `value`, the latter already rendered as a string.
  - `rows` holds the sheet's non-empty rows in ascending row number, as `eachRow` visits them.
- `Extraction`: the part of `loadScheduleData` after the sheet choice, and shared by both scripts.
  - It covers the header map (`eachCell` loop), the required-header check and the record pass (`eachRow` loop), with the error each failure raises.
  - The loops are methods, each proved equal to a specification function.
  - Properties are proved about those functions.
- `Schedule`: the schedule-date fallback in `run`.
- `Rpa` and `RpaSingle`: each script's worksheet choice and its whole `loadScheduleData`, without the file reading.

An unset configured sheet name is the empty string. That is what `SCHEDULE_SHEET || ''` produces, and `parseDateFromSheetName(undefined)` returns null just as it does for `''`. A JavaScript `Date` is modelled as its calendar day (`Date(year, month, day)`).

`new Date("YYYY-MM-DDT00:00:00")` is modelled as V8 evaluates it:

- A month outside 01-12 or a day outside 01-31 gives an invalid date, and therefore null.
- A day past the end of its month rolls over into the next month. For example, `31_02_2023` is read as 3 March 2023.

Each script reads exactly one worksheet per run; neither keeps a queue of sheets.

## Model

| member | source | states |
|---|---|---|
| Text.Trim | src/rpa.js:35 | `trim` leaves no white space at either end and never lengthens the string |
| Text.TrimFixpoint | src/rpa.js:35 | a string is unchanged by `trim` exactly when it has no white space at either end |
| Text.TrimIdempotent | src/rpa.js:35 | trimming twice is trimming once |
| Text.TrimEmpty | src/rpa.js:35-36 | the trimmed string is empty exactly when every character is white space |
| Text.TrimStartShape | src/rpa.js:35 | the leading part `trim` removes is a run of white space, and the rest is kept as a suffix |
| Text.TrimEndShape | src/rpa.js:35 | the trailing part `trim` removes is a run of white space, and the rest is kept as a prefix |
| Text.TrimTrailingSpace | src/rpa.js:35 | a trimmed word followed by a space trims back to the word |
| Text.NatToStringValue | src/rpa.js:21-23 | the decimal digits `String(n)` produces read back as `n` |
| Text.NatToStringLength | src/rpa.js:21-23 | `String(n)` has one digit below 10, two below 100 and four from 1000 to 9999 |
| Text.Join | src/rpa.js:107 | `join` of no parts is empty and of one part is that part |
| Text.JoinAppend | src/rpa.js:107 | joining one more part appends the separator and that part, so every pair of neighbouring parts is separated once |
| Text.JoinFour | src/rpa.js:107 | four parts are joined as `a, b, c, d` with the separator between each pair |
| Text.PadStart2 | src/rpa.js:21-22 | `padStart(2, '0')` gives at least two characters, ends with the input, and fills only with `0` in front of it |
| Text.NatToString | src/rpa.js:21-23 | `String(n)` of a non-negative integer is a non-empty run of decimal digits with no leading zero |
| Text.IntToString | src/rpa.js:23 | `String(n)` of any integer: the digits of `n` when it is non-negative, else `-` followed by the digits of `-n`, read back as the same number |
| Text.ToLower | src/rpa.js:35 | `toLowerCase` keeps the length and lower-cases each character in place |
| Text.ToUpper | src/rpa.js:98 | `toUpperCase` keeps the length and upper-cases each character in place |
| Text.ToUpperMatches | src/rpa.js:98 | upper-casing a text gives an upper-case word exactly when the text is that word up to ASCII case |
| Normalize.NormalizeTurno | src/rpa.js:34-40 | the result is empty exactly when the trimmed input is empty, and it is always trimmed |
| Normalize.NormalizeTurnoCases | src/rpa.js:34-40 | a trimmed, lower-cased input starting with `d` gives `Dia`, with `n` gives `Noite`, and otherwise gives the trimmed input with its case |
| Normalize.TurnoFormIsFixpoint | src/rpa.js:34-40 | `normalizeTurno` leaves a value unchanged exactly when it is empty, `Dia`, `Noite`, or trimmed text whose first letter is not `d`/`n` in either case |
| Normalize.NormalizeTurnoIdempotent | src/rpa.js:34-40 | the output is always in that form, so normalising twice is normalising once |
| Normalize.NormalizeTipo | src/rpa.js:42-48 | the result is empty exactly when the trimmed input is empty, and it is always trimmed |
| Normalize.NormalizeTipoCases | src/rpa.js:42-48 | a trimmed, lower-cased input starting with `f` gives `Fichado`, with `d` gives `Diarista`, and otherwise gives the trimmed input with its case |
| Normalize.TipoFormIsFixpoint | src/rpa.js:42-48 | `normalizeTipo` leaves a value unchanged exactly when it is empty, `Fichado`, `Diarista`, or trimmed text whose first letter is not `f`/`d` in either case |
| Normalize.NormalizeTipoIdempotent | src/rpa.js:42-48 | the output is always in that form, so normalising twice is normalising once |
| Normalize.TurnoExampleDiurno | src/rpa.js:37 | `"diurno"` becomes `Dia` |
| Normalize.TurnoExampleNoite | src/rpa.js:38 | `"Noite "` becomes `Noite` |
| Normalize.TurnoExampleEmpty | src/rpa.js:36 | `""` stays `""` |
| Normalize.TurnoExampleIntegral | src/rpa.js:39 | `"Integral"` passes through unchanged |
| Normalize.TipoExampleFichado | src/rpa.js:45 | `"Fichado"` becomes `Fichado` |
| Normalize.TipoExampleDiarista | src/rpa.js:46 | `"diarista"` becomes `Diarista` |
| Normalize.TipoExampleTerceiro | src/rpa.js:47 | `"Terceiro"` passes through unchanged |
| RegexEscape.EscapeForRegex | src/rpa.js:50-52 | the output is as long as the input plus one per metacharacter, and starts with a backslash exactly when the input starts with a metacharacter |
| RegexEscape.UnescapeEscape | src/rpa.js:50-52 | removing each inserted backslash gives back the input |
| RegexEscape.EscapePlainText | src/rpa.js:50-52 | text without metacharacters is unchanged |
| RegexEscape.EscapeAppend | src/rpa.js:50-52 | escaping works character by character: it distributes over concatenation |
| RegexEscape.EscapedMetaIsQuoted | src/rpa.js:50-52 | every metacharacter of the input appears in the output right after a backslash |
| Dates.DaysInMonth | src/rpa.js:66-67 | a month has 28 to 31 days, December 31 |
| Dates.FormatWith | src/rpa.js:20-32 | the template `${day}<sep>${month}<sep>${year}` shared by both formatters; its shape and fields are stated by `Dates.FormatShape` |
| Dates.FormatShape | src/rpa.js:20-32 | for a year from 1000 to 9999 the formatted date has ten characters, the separator at positions 2 and 5, and a token whose fields are the year, month and day |
| Dates.FormatDateToBR | src/rpa.js:20-25 | for a year from 1000 to 9999: ten characters, `DD/MM/YYYY` with `/` separators, reading back as the same day, month and year |
| Dates.FormatDateToSheetName | src/rpa.js:27-32 | for a year from 1000 to 9999: ten characters, `DD-MM-YYYY` with `-` separators, reading back as the same day, month and year |
| Dates.FindToken | src/rpa.js:63 | finds the leftmost position where two digits, a separator in `-_/`, two digits, a separator and four digits begin, or reports that there is none |
| Dates.MakeDate | src/rpa.js:65-68 | an out-of-range month or day gives null; a real date is returned as it is; any result is a real date in the same year |
| Dates.ParseDateFromSheetName | src/rpa.js:61-69 | a result is a real date with a year of at most 9999, and only a name holding a token gives one |
| Dates.ParseUsesLeftmostToken | src/rpa.js:61-69 | the leftmost token decides: its day, month and year are taken, and the result is null exactly when its month or day is out of range |
| Dates.ParseWithoutToken | src/rpa.js:62-64 | a name without a token (the empty name included) gives null |
| Dates.ParseFormatSheetName | src/rpa.js:27-32 | parsing `formatDateToSheetName(d)` gives back `d`, for a year from 1000 to 9999 |
| Dates.ParseFormatBR | src/rpa.js:20-25 | parsing `formatDateToBR(d)` gives back `d`, for a year from 1000 to 9999 |
| Dates.ParseFullDateExample | src/rpa.js:61-69 | `"04-11-2024"` gives 4 November 2024 |
| Dates.ParseShortDayExample | src/rpa.js:63-64 | `"4-11-2024"` gives null |
| Dates.ParsePlainTextExample | src/rpa.js:63-64 | `"notes"` gives null |
| Dates.ParseRollOverExample | src/rpa.js:66-68 | `"31_02_2023"` gives 3 March 2023 |
| Workbook.GetCell | src/rpa.js:114 | `row.getCell(col)` gives the row's cell at a column it has and an empty cell (no text, no value) at any other column |
| Workbook.CellString | src/rpa.js:114-117 | a data cell reads as its trimmed text if that is not empty, else as its trimmed value when it has one; the result is trimmed and is empty exactly when both are blank |
| Workbook.HeaderText | src/rpa.js:98 | the text if not empty, else the value if there is one; empty exactly when both are missing or empty |
| Workbook.HeaderKey | src/rpa.js:98 | the header key is as long as the trimmed header text and empty exactly when that text is blank; what it holds is stated by `Extraction.HeaderMatchIgnoresCase` |
| Workbook.HeaderKeyTextFirst | src/rpa.js:98 | a header cell whose text is a blank space hides its value, while a data cell with the same contents reads as its value |
| Workbook.HeaderCells | src/rpa.js:95 | `getRow(1)`: the cells of the first row numbered 1, and no cells when no row has number 1 |
| Workbook.FindSheetByName | src/rpa.js:81 | finds the first sheet with exactly the given name, or none when no sheet has it |
| Workbook.FirstDateSheet | src/rpa.js:83 | finds the first sheet whose name carries a date, or none when no sheet does |
| Wrappers.FilterMapAppend | src/rpa.js:111-124 | a push-what-is-kept pass over consecutive runs gives their results in the same order |
| Wrappers.FilterMapMember | src/rpa.js:111-124 | a value is produced exactly when some element yields it |
| Extraction.HeaderMapOf | src/rpa.js:96-102 | the `headerMap` built from the header row's cells; stated by `Extraction.ColumnMapSpec` and `Extraction.HeaderMapOfSheet` |
| Extraction.ColumnMapSpec | src/rpa.js:96-102 | a key is in the header map exactly when it is not empty and some column reads as it, and it maps to the last such column |
| Extraction.ColumnMapStep | src/rpa.js:99-101 | each visited cell adds its key with its column number, overwriting, unless the key is empty |
| Extraction.BuildHeaderMap | src/rpa.js:96-102 | the `eachCell` loop builds exactly the header map of the header row |
| Extraction.MissingHeaders | src/rpa.js:104-105 | `requiredHeaders.filter(header => !headerMap[header])`; stated by `Extraction.MissingAmongSpec` and `Extraction.MissingHeadersUnfold` |
| Extraction.MissingAmongSpec | src/rpa.js:105 | a header is reported missing exactly when it is required and absent from the map |
| Extraction.MissingHeadersUnfold | src/rpa.js:104-105 | PLACA, MOTORISTA, TURNO and TIPO are checked in that order, and each absent one is reported in that order |
| Extraction.MissingHeadersEmpty | src/rpa.js:104-106 | nothing is reported missing exactly when all four headers are present |
| Extraction.MissingOnlyTipo | src/rpa.js:104-108 | with only TIPO absent, exactly TIPO is reported, with the message `Planilha de escala está sem as colunas obrigatórias: TIPO` |
| Extraction.MissingAll | src/rpa.js:104-108 | with no required header present, all four are reported in their fixed order, with the message `Planilha de escala está sem as colunas obrigatórias: PLACA, MOTORISTA, TURNO, TIPO` |
| Extraction.MissingAllMessage | src/rpa.js:107 | the error for all four missing headers lists them comma-separated after the fixed prefix |
| Extraction.RequiredJoined | src/rpa.js:104-107 | the required headers joined with `, ` read `PLACA, MOTORISTA, TURNO, TIPO` |
| Extraction.ErrorMessage | src/rpa.js:91-128 | the three error texts; the header error's text is stated by `Extraction.MissingOnlyTipo` and `Extraction.MissingAll` |
| Extraction.RowRecord | src/rpa.js:112-123 | one row's record, or none; when it gives one is stated by `Extraction.RowKept`, which column each field comes from by `Extraction.RowRecordFields`, and its form by `Extraction.RecordsOfWellFormed` |
| Extraction.RowRecordFields | src/rpa.js:112-123 | a row gives a record exactly when it is not row 1 and has a plate and a driver, and then the plate and driver are the PLACA and MOTORISTA cells as read, and the shift and type are `normalizeTurno`/`normalizeTipo` of the TURNO and TIPO cells |
| Extraction.CollectRecords | src/rpa.js:110-124 | the `eachRow` loop collects exactly the records the row rule gives, in row order |
| Extraction.RowKept | src/rpa.js:112-123 | a row gives a record exactly when it is not row 1 and both its plate cell and its driver cell have non-blank content |
| Extraction.RecordsOfAppend | src/rpa.js:111-124 | records keep row order: consecutive runs of rows give their records one after the other |
| Extraction.RecordsOf | src/rpa.js:110-124 | the `records` array after the `eachRow` pass; stated by `Extraction.RecordsOfMember` and `Extraction.RecordsOfAppend` |
| Extraction.RecordsOfMember | src/rpa.js:111-124 | a record is collected exactly when some row gives it |
| Extraction.RecordsOfEmpty | src/rpa.js:111-128 | no record is collected exactly when no row gives one |
| Extraction.RecordsOfWellFormed | src/rpa.js:114-123 | every collected record has a non-empty trimmed plate and driver, and a shift and type already in normal form |
| Extraction.ExtractSheet | src/rpa.js:95-130 | reading one chosen sheet; its outcomes are stated by `Extraction.ExtractSheetMissing`, `Extraction.ExtractSheetRecords`, `Extraction.ExtractSheetSucceeds` and `Extraction.ExtractSheetRecordSource` |
| Extraction.ReadWorksheet | src/rpa.js:95-130 | reading a chosen sheet gives exactly what the header check and the record pass define |
| Extraction.HeaderMapOfSheet | src/rpa.js:95-102 | a required header is in the map exactly when some column of row 1 reads as it |
| Extraction.MissingHeadersOfSheet | src/rpa.js:95-105 | a header is reported exactly when it is required and no column of row 1 reads as it |
| Extraction.ExtractSheetMissing | src/rpa.js:95-108 | the sheet fails on its headers exactly when a required header is absent from row 1, and then names exactly the absent ones |
| Extraction.RequiredPresent | src/rpa.js:95-106 | the header map has all four required headers exactly when each is read by some column of row 1 |
| Extraction.SheetColumnsSpec | src/rpa.js:97-101 | each required field is read from the last column of row 1 whose key is that header, as `headerMap[key] = colNumber` overwrites |
| Extraction.HeaderMatchIgnoresCase | src/rpa.js:98 | a header cell is the PLACA, MOTORISTA, TURNO or TIPO column exactly when its trimmed text is that header up to ASCII case |
| Extraction.HeaderMatchExample | src/rpa.js:98 | a header typed `Placa ` is the PLACA column |
| Extraction.ExtractSheetSucceeds | src/rpa.js:104-130 | a sheet is read successfully exactly when it has all four headers and some row after row 1 has content in its plate and driver cells |
| Extraction.ExtractSheetRecordSource | src/rpa.js:110-130 | a success returns the records of the row pass in row order, and a record is among them exactly when some row gives it, field by field from its columns |
| Extraction.ExtractSheetRecords | src/rpa.js:110-130 | any other failure is "no records" naming the sheet; a success returns a non-empty list of well-formed records |
| Extraction.ReadChosen | src/rpa.js:91-93 | with no worksheet the load fails with the "no valid sheets" error, otherwise the chosen sheet is read and its name is returned |
| Extraction.LoadChosen | src/rpa.js:91-130 | the load after the sheet choice; its outcomes are stated by `Extraction.LoadChosenOutcome` |
| Extraction.LoadChosenOutcome | src/rpa.js:91-130 | the "no valid sheets" error arises exactly when no sheet was chosen; with a sheet chosen, the load succeeds exactly when that sheet is read successfully, and then returns its records under its name; any other failure is a header failure or "no records" naming that sheet |
| Schedule.ScheduleDate | src/rpa.js:283-286 | the date in the worksheet's name if there is one, else the date in the configured name if there is one, else the reference date; the result is a real date when the reference is |
| Schedule.ScheduleDateOfNamedSheet | src/rpa.js:283-286 | a worksheet named by `formatDateToSheetName(d)` gives the schedule date `d`, whatever is configured |
| Rpa.ChooseWorksheet | src/rpa.js:80-93 | the first sheet with the configured name if any, else the first date-bearing sheet if any, else the first sheet; none exactly when the workbook is empty |
| Rpa.Load | src/rpa.js:71-131 | the whole `loadScheduleData` as a function; its outcomes are stated by `Rpa.LoadOutcome` |
| Rpa.LoadScheduleData | src/rpa.js:71-131 | the method, with its `worksheet` reassignments, returns exactly what the sheet choice followed by extraction defines |
| Rpa.LoadOutcome | src/rpa.js:80-130 | only an empty workbook fails for want of a worksheet; otherwise the load succeeds exactly when the chosen sheet is read successfully, and returns that sheet's non-empty, well-formed records under its name |
| Rpa.ConfiguredSheetIsRead | src/rpa.js:80-81 | when the configured sheet exists, it is the one read |
| Rpa.DateSheetGivesScheduleDate | src/rpa.js:82-85 | without the configured sheet but with a date-bearing one, the first date-bearing sheet is read, and the schedule date is its date |
| Rpa.FirstSheetNamedForDate | src/rpa.js:80-86 | with nothing configured, a first sheet named for a date is read whatever the later sheets are called, and the schedule date is that date |
| RpaSingle.PreferredSheetName | src/rpa_single.js:80 | the configured name, else the reference date formatted as a sheet name; stated by `RpaSingle.PreferredSheetNameSpec` |
| RpaSingle.PreferredSheetNameSpec | src/rpa_single.js:80 | a configured name wins; otherwise the default name has ten characters and parses back to the reference date |
| RpaSingle.ChooseWorksheet | src/rpa_single.js:80-88 | the first sheet with the preferred name if any, else the first sheet; none exactly when the workbook is empty |
| RpaSingle.Load | src/rpa_single.js:71-126 | the whole `loadScheduleData` as a function; its outcomes are stated by `RpaSingle.LoadOutcome` |
| RpaSingle.LoadScheduleData | src/rpa_single.js:71-126 | the method returns exactly what the preferred-name choice followed by extraction defines |
| RpaSingle.NoDateSearch | src/rpa_single.js:81-84 | when no sheet has the preferred name, the first sheet is read: no date-bearing search is made |
| RpaSingle.LoadOutcome | src/rpa_single.js:80-125 | only an empty workbook fails for want of a worksheet; otherwise the load succeeds exactly when the chosen sheet is read successfully, and returns that sheet's non-empty, well-formed records under its name |
| RpaSingle.TodaySheetGivesReferenceDate | src/rpa_single.js:163-166 | with nothing configured, when the sheet named for the reference date exists, it is read and the schedule date is the reference day |

## Left out

- Reading the workbook is not modelled: `resolveSchedulePath`, `fs.existsSync`, the "file not found" error and ExcelJS `readFile`. The model starts from the workbook as a value.
- `dotenv` and `process.env` are not modelled. The configured sheet name and the reference date (`new Date()`) are parameters.
- `ensureCredentials` is an environment check outside the extraction.
- All browser driving through Playwright is left out. That covers login, frames, combo boxes, the `clickNovoRegistro` cascade, dialogs, the entry date, and the loops over records in `run`, including the single script's use of only `records[0]`. These are effects on a remote UI with no result to state.
- `waitForEnabledButton` polling and the F7 fallback when saving are left out, because they depend on real time and page state.
- Console output is left out. That includes the warning printed when the preferred sheet is missing. The keep-browser-open wait is left out too.
- The time of day of a JavaScript `Date` is left out. A reference date keeps its time in the scripts, while the model keeps the calendar day.
- JavaScript engines other than V8 are not modelled. Some reject a day past the end of its month where V8 rolls it over.
- Workbook.HeaderKey: upper-casing covers ASCII letters only. A header typed with non-ASCII lower-case letters would be upper-cased by `toUpperCase` but is kept as it is here. This can change which required headers are found: `toUpperCase` maps `ı` (U+0131) to `I` and `ſ` (U+017F) to `S`, so the scripts read a header written `tıpo` as `TIPO`, while the model reports TIPO missing.
- Lower-casing in the normalisers is ASCII-only, but this is exact. Only the first lower-cased letter is compared, and no non-ASCII code point lower-cases to a string starting with `d`, `n` or `f`.
- Workbook.HeaderText: a header cell's value is taken as a string. A value of numeric `0` or `false` is falsy in `cell.text || cell.value`, so the scripts skip it, while the model reads it as the non-empty string `"0"` or `"false"`.
- ExcelJS rendering of cell values is not modelled. How numbers, dates and rich text become `text` and `value.toString()` is given as the cell's two strings.
- `getWorksheet` is modelled only by name, as the scripts call it. Lookup by number is not used.
- Dates.FormatDateToBR and Dates.FormatDateToSheetName: the shape and round-trip facts are stated for years from 1000 to 9999. Other years are formatted, but not to ten characters.

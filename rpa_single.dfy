/** `loadScheduleData` and the schedule date of the single-record script: the
    preferred sheet is the configured one or, when none is configured, the one
    named for the reference date; without it the first sheet is read. */
module RpaSingle {
  import opened Wrappers
  import opened Dates
  import opened Workbook
  import opened Extraction
  import opened Schedule

  /** `SCHEDULE_SHEET || formatDateToSheetName(referenceDate)`. */
  function PreferredSheetName(configured: string, reference: Date): string
    requires ValidDate(reference)
  {
    if configured != [] then configured else FormatDateToSheetName(reference)
  }

  /** The configured name wins when set; otherwise the default name is ten
      characters long and carries exactly the reference date. */
  lemma PreferredSheetNameSpec(configured: string, reference: Date)
    requires ValidDate(reference)
    ensures configured != [] ==> PreferredSheetName(configured, reference) == configured
    ensures configured == [] && 1000 <= reference.year <= 9999 ==>
              |PreferredSheetName(configured, reference)| == 10
              && ParseDateFromSheetName(PreferredSheetName(configured, reference)) == Some(reference)
  {
    if configured == [] && 1000 <= reference.year <= 9999 {
      ParseFormatSheetName(reference);
    }
  }

  /** The worksheet chosen: the first sheet with the preferred name, else the first sheet. */
  function ChooseWorksheet(sheets: seq<Sheet>, preferred: string): (r: Option<nat>)
    ensures r.None? <==> sheets == []
    ensures r.Some? ==> r.value < |sheets|
    ensures r.Some? && sheets[r.value].name != preferred ==> r.value == 0
    ensures (exists j :: 0 <= j < |sheets| && sheets[j].name == preferred) ==>
              r.Some? && sheets[r.value].name == preferred
              && forall j :: 0 <= j < r.value ==> sheets[j].name != preferred
  {
    match FindSheetByName(sheets, preferred)
    case Some(i) => Some(i)
    case None => if sheets != [] then Some(0) else None
  }

  /** What this script's `loadScheduleData` returns, leaving out the reading of the file. */
  function Load(sheets: seq<Sheet>, configured: string, reference: Date): Result<Loaded, LoadError>
    requires ValidDate(reference)
  {
    LoadChosen(sheets, ChooseWorksheet(sheets, PreferredSheetName(configured, reference)))
  }

  /** `loadScheduleData`: look the preferred sheet up, fall back to the first sheet, then read it. */
  method LoadScheduleData(sheets: seq<Sheet>, configured: string, reference: Date)
    returns (res: Result<Loaded, LoadError>)
    requires ValidDate(reference)
    ensures res == Load(sheets, configured, reference)
  {
    var preferredSheetName := if configured != [] then configured else FormatDateToSheetName(reference);
    var worksheet := FindSheetByName(sheets, preferredSheetName);
    if worksheet.None? && |sheets| > 0 {
      worksheet := Some(0);
    }
    res := ReadChosen(sheets, worksheet);
  }

  /** No date-bearing search is made: when the preferred sheet is absent the
      first sheet is read, even if a later sheet carries a date and the first does not. */
  lemma NoDateSearch(sheets: seq<Sheet>, configured: string, reference: Date)
    requires ValidDate(reference) && sheets != []
    requires forall j :: 0 <= j < |sheets| ==> sheets[j].name != PreferredSheetName(configured, reference)
    ensures ChooseWorksheet(sheets, PreferredSheetName(configured, reference)) == Some(0)
    ensures Load(sheets, configured, reference).Success? ==>
              Load(sheets, configured, reference).value.worksheetName == sheets[0].name
  {
    LoadChosenOutcome(sheets, ChooseWorksheet(sheets, PreferredSheetName(configured, reference)));
  }

  /** An empty workbook is the only one that fails for want of a worksheet; any
      other load succeeds exactly when the chosen sheet is read successfully,
      and then returns that sheet's records under its name. */
  lemma LoadOutcome(sheets: seq<Sheet>, configured: string, reference: Date)
    requires ValidDate(reference)
    ensures Load(sheets, configured, reference) == Failure(NoWorksheet) <==> sheets == []
    ensures Load(sheets, configured, reference).Success? ==>
              Load(sheets, configured, reference).value.records != []
              && forall r :: r in Load(sheets, configured, reference).value.records ==> WellFormedRecord(r)
    ensures sheets != [] ==>
              var sheet := sheets[ChooseWorksheet(sheets, PreferredSheetName(configured, reference)).value];
              (Load(sheets, configured, reference).Success? <==> ExtractSheet(sheet).Success?)
              && (ExtractSheet(sheet).Success? ==>
                    Load(sheets, configured, reference) == Success(Loaded(ExtractSheet(sheet).value, sheet.name)))
  {
    LoadChosenOutcome(sheets, ChooseWorksheet(sheets, PreferredSheetName(configured, reference)));
  }

  /** With no sheet configured, finding the sheet named for the reference date
      makes the schedule date the reference date's calendar day. */
  lemma TodaySheetGivesReferenceDate(sheets: seq<Sheet>, reference: Date)
    requires ValidDate(reference) && 1000 <= reference.year <= 9999
    requires exists j :: 0 <= j < |sheets| && sheets[j].name == FormatDateToSheetName(reference)
    ensures Load(sheets, "", reference).Success? ==>
              Load(sheets, "", reference).value.worksheetName == FormatDateToSheetName(reference)
              && ScheduleDate(Load(sheets, "", reference).value.worksheetName, "", reference) == reference
  {
    LoadChosenOutcome(sheets, ChooseWorksheet(sheets, PreferredSheetName("", reference)));
    ScheduleDateOfNamedSheet(reference, "", reference);
  }
}

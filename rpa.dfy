/** `loadScheduleData` and the schedule date of the multi-record script: the
    configured sheet if present, else the first sheet whose name carries a
    date, else the first sheet. */
module Rpa {
  import opened Wrappers
  import opened Dates
  import opened Workbook
  import opened Extraction
  import opened Schedule

  predicate HasSheetNamed(sheets: seq<Sheet>, name: string) {
    exists j :: 0 <= j < |sheets| && sheets[j].name == name
  }

  predicate HasDateSheet(sheets: seq<Sheet>) {
    exists j :: 0 <= j < |sheets| && IsDateBearing(sheets[j])
  }

  /** The worksheet chosen for the configured name (the empty string when unset). */
  function ChooseWorksheet(sheets: seq<Sheet>, configured: string): (r: Option<nat>)
    ensures r.None? <==> sheets == []
    ensures r.Some? ==> r.value < |sheets|
    ensures HasSheetNamed(sheets, configured) ==>
              r.Some? && sheets[r.value].name == configured
              && forall j :: 0 <= j < r.value ==> sheets[j].name != configured
    ensures !HasSheetNamed(sheets, configured) && HasDateSheet(sheets) ==>
              r.Some? && IsDateBearing(sheets[r.value])
              && forall j :: 0 <= j < r.value ==> !IsDateBearing(sheets[j])
    ensures !HasSheetNamed(sheets, configured) && !HasDateSheet(sheets) && sheets != [] ==> r == Some(0)
  {
    match FindSheetByName(sheets, configured)
    case Some(i) => Some(i)
    case None =>
      match FirstDateSheet(sheets)
      case Some(i) => Some(i)
      case None => if sheets != [] then Some(0) else None
  }

  /** What `loadScheduleData` returns for a workbook, leaving out the reading of the file. */
  function Load(sheets: seq<Sheet>, configured: string): Result<Loaded, LoadError> {
    LoadChosen(sheets, ChooseWorksheet(sheets, configured))
  }

  /** `loadScheduleData`: look the configured sheet up, fall back to the first
      date-bearing sheet and then to the first sheet, then read the chosen one. */
  method LoadScheduleData(sheets: seq<Sheet>, configured: string) returns (res: Result<Loaded, LoadError>)
    ensures res == Load(sheets, configured)
  {
    var preferredSheetName := configured;
    var worksheet := FindSheetByName(sheets, preferredSheetName);
    if worksheet.None? {
      var matchingSheet := FirstDateSheet(sheets);
      if matchingSheet.Some? {
        worksheet := matchingSheet;
      } else if |sheets| > 0 {
        worksheet := Some(0);
      }
    }
    res := ReadChosen(sheets, worksheet);
  }

  /** An empty workbook is the only one that fails for want of a worksheet; any
      other load succeeds exactly when the chosen sheet is read successfully,
      and then returns that sheet's well-formed records under its name. */
  lemma LoadOutcome(sheets: seq<Sheet>, configured: string)
    ensures Load(sheets, configured) == Failure(NoWorksheet) <==> sheets == []
    ensures Load(sheets, configured).Success? ==>
              HasSheetNamed(sheets, Load(sheets, configured).value.worksheetName)
              && Load(sheets, configured).value.records != []
              && forall r :: r in Load(sheets, configured).value.records ==> WellFormedRecord(r)
    ensures sheets != [] ==>
              var sheet := sheets[ChooseWorksheet(sheets, configured).value];
              (Load(sheets, configured).Success? <==> ExtractSheet(sheet).Success?)
              && (ExtractSheet(sheet).Success? ==>
                    Load(sheets, configured) == Success(Loaded(ExtractSheet(sheet).value, sheet.name)))
  {
    var choice := ChooseWorksheet(sheets, configured);
    LoadChosenOutcome(sheets, choice);
    if Load(sheets, configured).Success? {
      assert sheets[choice.value].name == Load(sheets, configured).value.worksheetName;
    }
  }

  /** When the configured sheet exists, it is the one read. */
  lemma ConfiguredSheetIsRead(sheets: seq<Sheet>, configured: string)
    requires HasSheetNamed(sheets, configured)
    ensures Load(sheets, configured).Success? ==> Load(sheets, configured).value.worksheetName == configured
    ensures Load(sheets, configured).Failure? ==> Load(sheets, configured).error != NoWorksheet
  {
    LoadChosenOutcome(sheets, ChooseWorksheet(sheets, configured));
  }

  /** Without the configured sheet, a workbook with a date-bearing sheet is read
      from the first one, so the schedule date is the date in that sheet's name. */
  lemma DateSheetGivesScheduleDate(sheets: seq<Sheet>, configured: string, reference: Date)
    requires !HasSheetNamed(sheets, configured) && HasDateSheet(sheets)
    ensures Load(sheets, configured).Success? ==>
              var name := Load(sheets, configured).value.worksheetName;
              ParseDateFromSheetName(name).Some?
              && Some(ScheduleDate(name, configured, reference)) == ParseDateFromSheetName(name)
              && name == sheets[FirstDateSheet(sheets).value].name
  {
    LoadChosenOutcome(sheets, ChooseWorksheet(sheets, configured));
  }

  /** With no sheet configured, a workbook whose first sheet is named for a
      date is read from that sheet, whatever the later sheets are called, and its
      schedule date is that date. */
  lemma FirstSheetNamedForDate(sheets: seq<Sheet>, d: Date, reference: Date)
    requires sheets != [] && ValidDate(d) && 1000 <= d.year <= 9999
    requires sheets[0].name == FormatDateToSheetName(d)
    requires forall j :: 0 <= j < |sheets| ==> sheets[j].name != ""
    ensures ChooseWorksheet(sheets, "") == Some(0)
    ensures Load(sheets, "").Success? ==>
              Load(sheets, "").value.worksheetName == sheets[0].name
              && ScheduleDate(Load(sheets, "").value.worksheetName, "", reference) == d
  {
    ParseFormatSheetName(d);
    assert IsDateBearing(sheets[0]);
    LoadChosenOutcome(sheets, ChooseWorksheet(sheets, ""));
    ScheduleDateOfNamedSheet(d, "", reference);
  }
}

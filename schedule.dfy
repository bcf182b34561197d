/** The schedule date `run` enters in the form: the date in the chosen
    worksheet's name, else the date in the configured sheet name, else the
    reference date. Only the calendar day is modelled; an unset configured
    name is the empty string, which carries no date. */
module Schedule {
  import opened Wrappers
  import opened Dates

  function ScheduleDate(worksheetName: string, configured: string, reference: Date): (d: Date)
    ensures ValidDate(reference) ==> ValidDate(d)
    ensures ParseDateFromSheetName(worksheetName).Some? ==> Some(d) == ParseDateFromSheetName(worksheetName)
    ensures ParseDateFromSheetName(worksheetName).None? && ParseDateFromSheetName(configured).Some?
            ==> Some(d) == ParseDateFromSheetName(configured)
    ensures ParseDateFromSheetName(worksheetName).None? && ParseDateFromSheetName(configured).None?
            ==> d == reference
  {
    match ParseDateFromSheetName(worksheetName)
    case Some(fromSheet) => fromSheet
    case None =>
      match ParseDateFromSheetName(configured)
      case Some(fromConfig) => fromConfig
      case None => reference
  }

  /** A worksheet named by `formatDateToSheetName` gives back exactly the date it was named for. */
  lemma ScheduleDateOfNamedSheet(d: Date, configured: string, reference: Date)
    requires ValidDate(d) && 1000 <= d.year <= 9999
    ensures ScheduleDate(FormatDateToSheetName(d), configured, reference) == d
  {
    ParseFormatSheetName(d);
  }
}

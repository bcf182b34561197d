/** Calendar dates as the scripts use them: the `DD/MM/YYYY` and `DD-MM-YYYY`
    renderings of a date (`formatDateToBR`, `formatDateToSheetName`) and the date
    a sheet name carries (`parseDateFromSheetName`).

    A JavaScript `Date` is modelled by its local calendar day. Building a date
    from an ISO string follows V8, the engine of Node.js: a month outside 01-12
    or a day outside 01-31 gives an invalid date, and a day past the end of its
    month rolls over into the next month (`2023-02-31` is the third of March). */
module Dates {
  import opened Wrappers
  import opened Text

  datatype Date = Date(year: int, month: int, day: int)

  predicate IsLeapYear(y: int) {
    y % 4 == 0 && (y % 100 != 0 || y % 400 == 0)
  }

  function DaysInMonth(y: int, m: int): (n: int)
    requires 1 <= m <= 12
    ensures 28 <= n <= 31
    ensures m == 12 ==> n == 31
  {
    if m == 2 then (if IsLeapYear(y) then 29 else 28)
    else if m == 4 || m == 6 || m == 9 || m == 11 then 30
    else 31
  }

  /** A day that exists in the proleptic Gregorian calendar. */
  predicate ValidDate(d: Date) {
    1 <= d.month <= 12 && 1 <= d.day <= DaysInMonth(d.year, d.month)
  }

  /** Day and month zero-padded to two digits, then the year, `sep` between them. */
  function FormatWith(d: Date, sep: char): string
    requires ValidDate(d)
  {
    PadStart2(NatToString(d.day)) + [sep] + PadStart2(NatToString(d.month)) + [sep] + IntToString(d.year)
  }

  /** `formatDateToBR`: `DD/MM/YYYY`, the form the date field of the entry screen takes. */
  function FormatDateToBR(d: Date): (r: string)
    requires ValidDate(d)
    ensures 1000 <= d.year <= 9999 ==> |r| == 10 && TokenAt(r, 0) && r[2] == r[5] == '/'
    ensures 1000 <= d.year <= 9999 ==> TokenFields(r, 0) == (d.year, d.month, d.day)
  {
    FormatShape(d, '/');
    FormatWith(d, '/')
  }

  /** `formatDateToSheetName`: `DD-MM-YYYY`, the name a sheet for that day is expected to have. */
  function FormatDateToSheetName(d: Date): (r: string)
    requires ValidDate(d)
    ensures 1000 <= d.year <= 9999 ==> |r| == 10 && TokenAt(r, 0) && r[2] == r[5] == '-'
    ensures 1000 <= d.year <= 9999 ==> TokenFields(r, 0) == (d.year, d.month, d.day)
  {
    FormatShape(d, '-');
    FormatWith(d, '-')
  }

  /** A separator of the sheet-name date pattern: `[-_/]`. */
  predicate IsSep(c: char) {
    c == '-' || c == '_' || c == '/'
  }

  /** `s` matches `(\d{2})[-_/](\d{2})[-_/](\d{4})` at position `i`. */
  predicate TokenAt(s: string, i: nat) {
    i + 10 <= |s|
    && IsDigit(s[i]) && IsDigit(s[i + 1]) && IsSep(s[i + 2])
    && IsDigit(s[i + 3]) && IsDigit(s[i + 4]) && IsSep(s[i + 5])
    && IsDigit(s[i + 6]) && IsDigit(s[i + 7]) && IsDigit(s[i + 8]) && IsDigit(s[i + 9])
  }

  /** The three captured groups of a match at `i`, as numbers: (year, month, day). */
  function TokenFields(s: string, i: nat): (int, int, int)
    requires TokenAt(s, i)
  {
    (DigitsValue(s[i + 6..i + 10]), DigitsValue(s[i + 3..i + 5]), DigitsValue(s[i..i + 2]))
  }

  /** Where the leftmost match at or after `from` starts, as `String.prototype.match` finds it. */
  function FindToken(s: string, from: nat): (r: Option<nat>)
    ensures r.Some? ==> from <= r.value && TokenAt(s, r.value)
    ensures r.Some? ==> forall j :: from <= j < r.value ==> !TokenAt(s, j)
    ensures r.None? ==> forall j :: from <= j ==> !TokenAt(s, j)
    decreases |s| - from
  {
    if from + 10 > |s| then None
    else if TokenAt(s, from) then Some(from)
    else FindToken(s, from + 1)
  }

  /** `new Date("YYYY-MM-DDT00:00:00")` on V8, as a calendar day, or None for an invalid date. */
  function MakeDate(year: int, month: int, day: int): (r: Option<Date>)
    ensures r.Some? ==> ValidDate(r.value) && r.value.year == year
    ensures r.None? <==> !(1 <= month <= 12 && 1 <= day <= 31)
    ensures ValidDate(Date(year, month, day)) ==> r == Some(Date(year, month, day))
  {
    if !(1 <= month <= 12 && 1 <= day <= 31) then None
    else if day <= DaysInMonth(year, month) then Some(Date(year, month, day))
    else Some(Date(year, month + 1, day - DaysInMonth(year, month)))
  }

  /** `parseDateFromSheetName`: the date of the leftmost `DD?MM?YYYY` token of the name. */
  function ParseDateFromSheetName(name: string): (r: Option<Date>)
    ensures r.Some? ==> ValidDate(r.value) && 0 <= r.value.year <= 9999
    ensures r.Some? ==> exists i :: TokenAt(name, i)
  {
    if name == [] then None
    else match FindToken(name, 0)
      case None => None
      case Some(i) =>
        var (year, month, day) := TokenFields(name, i);
        assert year <= 9999 by { FourDigitsBound(name[i + 6..i + 10]); }
        MakeDate(year, month, day)
  }

  /** Four decimal digits denote at most 9999. */
  lemma FourDigitsBound(s: string)
    requires |s| == 4 && AllDigits(s)
    ensures DigitsValue(s) <= 9999
  {
    var s1, s2, s3 := s[..1], s[..2], s[..3];
    assert s1[..0] == [] && s2[..1] == s1 && s3[..2] == s2 && s[..3] == s3;
    assert DigitsValue(s1) <= 9;
    assert DigitsValue(s2) <= 99;
    assert DigitsValue(s3) <= 999;
  }

  /** A name is read as a date exactly when its leftmost token has a month in 01-12 and
      a day in 01-31; the date is then that token's (rolled-over) day. */
  lemma ParseUsesLeftmostToken(name: string, i: nat)
    requires TokenAt(name, i) && forall j :: 0 <= j < i ==> !TokenAt(name, j)
    ensures ParseDateFromSheetName(name)
            == MakeDate(TokenFields(name, i).0, TokenFields(name, i).1, TokenFields(name, i).2)
    ensures ParseDateFromSheetName(name).None?
            <==> !(1 <= TokenFields(name, i).1 <= 12 && 1 <= TokenFields(name, i).2 <= 31)
  {
  }

  /** A name with no token (an empty name, `notes`, `4-11-2024`) carries no date. */
  lemma ParseWithoutToken(name: string)
    requires forall j :: 0 <= j < |name| ==> !TokenAt(name, j)
    ensures ParseDateFromSheetName(name) == None
  {
  }

  /** Zero-padding a number below 100 gives two digits that read back as the number. */
  lemma PaddedValue(n: nat)
    requires n < 100
    ensures |PadStart2(NatToString(n))| == 2 && AllDigits(PadStart2(NatToString(n)))
    ensures DigitsValue(PadStart2(NatToString(n))) == n
  {
    NatToStringLength(n);
    NatToStringValue(n);
    var s := NatToString(n);
    var p := PadStart2(s);
    if |s| == 1 {
      assert p == "0" + s;
      assert p[..1] == "0" && p[..1][..0] == [];
    }
  }

  /** Two digits, a separator, two digits, a separator and four digits form a token at 0. */
  lemma TokenOfParts(dd: string, mm: string, yyyy: string, sep: char)
    requires |dd| == 2 && |mm| == 2 && |yyyy| == 4 && IsSep(sep)
    requires AllDigits(dd) && AllDigits(mm) && AllDigits(yyyy)
    ensures |dd + [sep] + mm + [sep] + yyyy| == 10
    ensures TokenAt(dd + [sep] + mm + [sep] + yyyy, 0)
    ensures (dd + [sep] + mm + [sep] + yyyy)[2] == (dd + [sep] + mm + [sep] + yyyy)[5] == sep
    ensures TokenFields(dd + [sep] + mm + [sep] + yyyy, 0) == (DigitsValue(yyyy), DigitsValue(mm), DigitsValue(dd))
  {
    var s := dd + [sep] + mm + [sep] + yyyy;
    assert s[0..2] == dd && s[3..5] == mm && s[6..10] == yyyy;
    assert s[0] == dd[0] && s[1] == dd[1] && s[3] == mm[0] && s[4] == mm[1];
    assert s[6] == yyyy[0] && s[7] == yyyy[1] && s[8] == yyyy[2] && s[9] == yyyy[3];
  }

  /** A date whose year has four digits renders as ten characters that form a
      token whose fields are the date's year, month and day. */
  lemma FormatShape(d: Date, sep: char)
    requires ValidDate(d) && IsSep(sep)
    ensures 1000 <= d.year <= 9999 ==> |FormatWith(d, sep)| == 10 && TokenAt(FormatWith(d, sep), 0)
    ensures 1000 <= d.year <= 9999 ==> FormatWith(d, sep)[2] == FormatWith(d, sep)[5] == sep
    ensures 1000 <= d.year <= 9999 ==> TokenFields(FormatWith(d, sep), 0) == (d.year, d.month, d.day)
  {
    if 1000 <= d.year <= 9999 {
      PaddedValue(d.day);
      PaddedValue(d.month);
      NatToStringLength(d.year);
      NatToStringValue(d.year);
      TokenOfParts(PadStart2(NatToString(d.day)), PadStart2(NatToString(d.month)), NatToString(d.year), sep);
    }
  }

  /** Reading a date back from its sheet name gives the same calendar day. */
  lemma ParseFormatSheetName(d: Date)
    requires ValidDate(d) && 1000 <= d.year <= 9999
    ensures ParseDateFromSheetName(FormatDateToSheetName(d)) == Some(d)
  {
    ParseUsesLeftmostToken(FormatDateToSheetName(d), 0);
  }

  /** The `DD/MM/YYYY` rendering is also a date-bearing name for the same day. */
  lemma ParseFormatBR(d: Date)
    requires ValidDate(d) && 1000 <= d.year <= 9999
    ensures ParseDateFromSheetName(FormatDateToBR(d)) == Some(d)
  {
    ParseUsesLeftmostToken(FormatDateToBR(d), 0);
  }

  /** The value of two digits. */
  lemma TwoDigitsValue(s: string)
    requires |s| == 2 && AllDigits(s)
    ensures DigitsValue(s) == DigitValue(s[0]) * 10 + DigitValue(s[1])
  {
    var s1 := s[..1];
    assert s1[..0] == [] && s1[0] == s[0];
    assert DigitsValue(s1) == DigitValue(s[0]);
  }

  /** The value of four digits. */
  lemma FourDigitsValue(s: string)
    requires |s| == 4 && AllDigits(s)
    ensures DigitsValue(s)
            == DigitValue(s[0]) * 1000 + DigitValue(s[1]) * 100 + DigitValue(s[2]) * 10 + DigitValue(s[3])
  {
    assert s[..3][..2] == s[..2];
    TwoDigitsValue(s[..2]);
  }

  /** A name that starts with a token is read from that token. */
  lemma ParseLeadingToken(name: string, year: int, month: int, day: int)
    requires TokenAt(name, 0)
    requires DigitsValue(name[6..10]) == year && DigitsValue(name[3..5]) == month && DigitsValue(name[0..2]) == day
    ensures ParseDateFromSheetName(name) == MakeDate(year, month, day)
  {
    ParseUsesLeftmostToken(name, 0);
  }

  /** A sheet named for the fourth of November 2024. */
  lemma ParseFullDateExample()
    ensures ParseDateFromSheetName("04-11-2024") == Some(Date(2024, 11, 4))
  {
    var a := "04-11-2024";
    assert TokenAt(a, 0);
    assert a[0..2] == "04" && a[3..5] == "11" && a[6..10] == "2024";
    TwoDigitsValue("04");
    TwoDigitsValue("11");
    FourDigitsValue("2024");
    ParseLeadingToken(a, 2024, 11, 4);
    assert DaysInMonth(2024, 11) == 30;
  }

  /** A one-digit day is not a token, so the name carries no date. */
  lemma ParseShortDayExample()
    ensures ParseDateFromSheetName("4-11-2024") == None
  {
    ParseWithoutToken("4-11-2024");
  }

  /** Plain text carries no date. */
  lemma ParsePlainTextExample()
    ensures ParseDateFromSheetName("notes") == None
  {
    ParseWithoutToken("notes");
  }

  /** The thirty-first of February 2023 is read as the third of March. */
  lemma ParseRollOverExample()
    ensures ParseDateFromSheetName("31_02_2023") == Some(Date(2023, 3, 3))
  {
    var b := "31_02_2023";
    assert TokenAt(b, 0);
    assert b[0..2] == "31" && b[3..5] == "02" && b[6..10] == "2023";
    TwoDigitsValue("31");
    TwoDigitsValue("02");
    FourDigitsValue("2023");
    ParseLeadingToken(b, 2023, 2, 31);
    assert !IsLeapYear(2023) && DaysInMonth(2023, 2) == 28;
  }
}

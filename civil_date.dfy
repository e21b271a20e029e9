/** Calendar dates as the QC form handles them: the `YYYY-MM-DD` text a date
    picker produces, its normalisation through a date library, and the
    expiration date seven calendar days after the inspection. Dates are
    proleptic Gregorian civil dates; times of day and time zones play no part. */
module CivilDate {
  import opened JsValues
  import opened JsStrings

  datatype Date = Date(year: nat, month: nat, day: nat)

  predicate IsLeapYear(y: nat)
  {
    (y % 4 == 0 && y % 100 != 0) || y % 400 == 0
  }

  function DaysInMonth(y: nat, m: nat): nat
    requires 1 <= m <= 12
  {
    if m == 2 then (if IsLeapYear(y) then 29 else 28)
    else if m == 4 || m == 6 || m == 9 || m == 11 then 30
    else 31
  }

  predicate ValidDate(d: Date)
  {
    1 <= d.month <= 12 && 1 <= d.day <= DaysInMonth(d.year, d.month)
  }

  function DaysInYear(y: nat): nat
  {
    if IsLeapYear(y) then 366 else 365
  }

  /** Days in the years before `y`, counted from year 0. */
  function DaysBeforeYear(y: nat): nat
  {
    if y == 0 then 0 else DaysBeforeYear(y - 1) + DaysInYear(y - 1)
  }

  /** Days in the months of year `y` before month `m`; `m == 13` gives the whole year. */
  function DaysBeforeMonth(y: nat, m: nat): nat
    requires 1 <= m <= 13
  {
    var leapDay := if m > 2 && IsLeapYear(y) then 1 else 0;
    leapDay +
      (if m == 1 then 0 else if m == 2 then 31 else if m == 3 then 59
       else if m == 4 then 90 else if m == 5 then 120 else if m == 6 then 151
       else if m == 7 then 181 else if m == 8 then 212 else if m == 9 then 243
       else if m == 10 then 273 else if m == 11 then 304 else if m == 12 then 334
       else 365)
  }

  /** The position of a date on the calendar: the number of days since
      0000-01-01. Consecutive dates have consecutive numbers. */
  function DayNumber(d: Date): nat
    requires ValidDate(d)
  {
    DaysBeforeYear(d.year) + DaysBeforeMonth(d.year, d.month) + d.day - 1
  }

  /** The calendar date after `d`: the next day of the month, else the first
      of the next month, else New Year's Day of the next year. */
  function NextDay(d: Date): (r: Date)
    requires ValidDate(d)
    ensures ValidDate(r)
    ensures DayNumber(r) == DayNumber(d) + 1
  {
    if d.day < DaysInMonth(d.year, d.month) then Date(d.year, d.month, d.day + 1)
    else if d.month < 12 then Date(d.year, d.month + 1, 1)
    else Date(d.year + 1, 1, 1)
  }

  /** `dayjs(d).add(n, "day")`: the date `n` calendar days after `d`. */
  function AddDays(d: Date, n: nat): (r: Date)
    requires ValidDate(d)
    ensures ValidDate(r)
    ensures DayNumber(r) == DayNumber(d) + n
    decreases n
  {
    if n == 0 then d else AddDays(NextDay(d), n - 1)
  }

  lemma {:induction false} DaysBeforeYearMonotone(a: nat, b: nat)
    requires a <= b
    ensures DaysBeforeYear(a) + (if a < b then DaysInYear(a) else 0) <= DaysBeforeYear(b)
    decreases b - a
  {
    if a < b {
      DaysBeforeYearMonotone(a + 1, b);
    }
  }

  /** Distinct valid dates have distinct day numbers, so `AddDays(d, n)` is
      the one date that lies `n` days after `d`. */
  lemma DayNumberInjective(a: Date, b: Date)
    requires ValidDate(a) && ValidDate(b)
    requires DayNumber(a) == DayNumber(b)
    ensures a == b
  {
    if a.year < b.year {
      DaysBeforeYearMonotone(a.year, b.year);
      assert false;
    } else if b.year < a.year {
      DaysBeforeYearMonotone(b.year, a.year);
      assert false;
    }
  }

  /** `dayjs(d).format("YYYY-MM-DD")`: year padded to four digits, month and
      day to two, separated by hyphens. */
  function FormatIso(d: Date): (s: string)
    requires ValidDate(d)
    ensures |s| >= 10
  {
    PadNumber(d.year, 4) + "-" + PadNumber(d.month, 2) + "-" + PadNumber(d.day, 2)
  }

  /** The year JavaScript's `Date` constructor gives to the year number it
      is passed: 0 to 99 stand for 1900 to 1999. */
  function ConstructorYear(y: nat): nat
  {
    if y < 100 then y + 1900 else y
  }

  /** Reads canonical `YYYY-MM-DD` text the way the date library does: the
      three numbers go to JavaScript's `Date` constructor, so the years
      0000 to 0099 are read as 1900 to 1999. In this model, text of any
      other shape, or numbers that name no calendar date, are not a date. */
  function ParseIso(s: string): (r: Option<Date>)
    ensures r.Some? ==> |s| == 10 && AllDigits(s[..4])
    ensures r.Some? ==> ValidDate(r.value) && 100 <= r.value.year < 10000
    ensures r.Some? ==> r.value.year == ConstructorYear(DigitsValue(s[..4]))
  {
    if |s| == 10 && s[4] == '-' && s[7] == '-'
       && AllDigits(s[..4]) && AllDigits(s[5..7]) && AllDigits(s[8..])
    then
      var d := Date(ConstructorYear(DigitsValue(s[..4])), DigitsValue(s[5..7]), DigitsValue(s[8..]));
      if ValidDate(d) then Some(d) else None
    else None
  }

  lemma PadNumberLength(n: nat, width: nat)
    requires 1 <= width && n < Pow10(width)
    ensures |PadNumber(n, width)| == width
  {
    DecimalLength(n, width);
  }

  /** Formatting a date of the years 100 to 9999 and reading it back gives
      the date. */
  lemma ParseFormatted(d: Date)
    requires ValidDate(d) && 100 <= d.year < 10000
    ensures ParseIso(FormatIso(d)) == Some(d)
  {
    PadNumberLength(d.year, 4);
    PadNumberLength(d.month, 2);
    PadNumberLength(d.day, 2);
    var s := FormatIso(d);
    assert s[..4] == PadNumber(d.year, 4);
    assert s[5..7] == PadNumber(d.month, 2);
    assert s[8..] == PadNumber(d.day, 2);
  }

  /** Text that parses, with a year of 0100 or later, is exactly the
      formatting of the date it names. */
  lemma FormattedParse(s: string)
    requires ParseIso(s).Some? && DigitsValue(s[..4]) >= 100
    ensures FormatIso(ParseIso(s).value) == s
  {
    var d := ParseIso(s).value;
    PadNumberLength(d.year, 4);
    PadNumberLength(d.month, 2);
    PadNumberLength(d.day, 2);
    DigitsInjective(PadNumber(d.year, 4), s[..4]);
    DigitsInjective(PadNumber(d.month, 2), s[5..7]);
    DigitsInjective(PadNumber(d.day, 2), s[8..]);
    assert s == s[..4] + "-" + s[5..7] + "-" + s[8..];
  }

  /** `dayjs(s).format("YYYY-MM-DD")` on a form date. In this model, text
      that `ParseIso` does not read gives "Invalid Date". */
  function NormalizeDate(s: string): (r: string)
    ensures ParseIso(s).None? ==> r == "Invalid Date"
    ensures ParseIso(s).Some? ==> ParseIso(r) == ParseIso(s)
    ensures ParseIso(s).Some? && DigitsValue(s[..4]) >= 100 ==> r == s
  {
    match ParseIso(s)
    case Some(d) =>
      ParseFormatted(d);
      assert DigitsValue(s[..4]) >= 100 ==> FormatIso(d) == s by {
        if DigitsValue(s[..4]) >= 100 { FormattedParse(s); }
      }
      FormatIso(d)
    case None => "Invalid Date"
  }

  /** `dayjs(s).add(7, "day").format("YYYY-MM-DD")` */
  function ExpirationDate(s: string): (r: string)
    ensures ParseIso(s).None? ==> r == "Invalid Date"
    ensures ParseIso(s).Some? ==>
      exists e :: ValidDate(e) && DayNumber(e) == DayNumber(ParseIso(s).value) + 7 && r == FormatIso(e)
  {
    match ParseIso(s)
    case Some(d) => FormatIso(AddDays(d, 7))
    case None => "Invalid Date"
  }

  /** The expiration date of a formatted inspection date is the formatting of
      the date seven days later. */
  lemma ExpirationOfFormatted(d: Date)
    requires ValidDate(d) && 100 <= d.year < 10000
    ensures ExpirationDate(FormatIso(d)) == FormatIso(AddDays(d, 7))
  {
    ParseFormatted(d);
  }

  /** A one-digit day or month is written with a leading zero. */
  lemma PadOneDigit(n: nat)
    requires n < 10
    ensures PadNumber(n, 2) == ['0', DigitChar(n)]
  {
    assert DecimalString(n) == [DigitChar(n)];
  }

  lemma PadYear2024()
    ensures PadNumber(2024, 4) == "2024"
  {
    assert DecimalString(20) == "20";
    assert DecimalString(202) == "202";
    assert DecimalString(2024) == "2024";
  }

  lemma FormatExamples()
    ensures FormatIso(Date(2024, 5, 1)) == "2024-05-01"
    ensures FormatIso(Date(2024, 5, 8)) == "2024-05-08"
  {
    PadYear2024();
    PadOneDigit(5);
    PadOneDigit(1);
    PadOneDigit(8);
  }

  /** The expiration date of an inspection on 1 May 2024 is 8 May 2024;
      empty text gives "Invalid Date". */
  lemma ExpirationExample()
    ensures ExpirationDate("2024-05-01") == "2024-05-08"
    ensures ExpirationDate("") == "Invalid Date"
  {
    var d := Date(2024, 5, 1);
    FormatExamples();
    ExpirationOfFormatted(d);
    DayNumberInjective(AddDays(d, 7), Date(2024, 5, 8));
  }

  lemma PadYear1950()
    ensures PadNumber(1950, 4) == "1950"
  {
    assert DecimalString(19) == "19";
    assert DecimalString(195) == "195";
    assert DecimalString(1950) == "1950";
  }

  lemma ValueOf0050()
    ensures AllDigits("0050") && DigitsValue("0050") == 50
  {
    assert "0050"[..3] == "005" && "005"[..2] == "00" && "00"[..1] == "0" && "0"[..0] == "";
    assert DigitsValue("0") == 0;
    assert DigitsValue("00") == 0;
    assert DigitsValue("005") == 5;
  }

  lemma ParseTwoDigitYear()
    ensures ParseIso("0050-03-01") == Some(Date(1950, 3, 1))
  {
    var s := "0050-03-01";
    assert s[..4] == "0050" && s[5..7] == "03" && s[8..] == "01";
    ValueOf0050();
    assert "03"[..1] == "0" && "01"[..1] == "0";
    assert DigitsValue("03") == 3 && DigitsValue("01") == 1;
  }

  lemma FormatDates1950()
    ensures FormatIso(Date(1950, 3, 1)) == "1950-03-01"
    ensures FormatIso(Date(1950, 3, 8)) == "1950-03-08"
  {
    PadYear1950();
    PadOneDigit(3);
    PadOneDigit(1);
    PadOneDigit(8);
  }

  /** A year written 0050 is read as 1950: the text is stored as 1950 and
      expires a week later in 1950. */
  lemma TwoDigitYearExample()
    ensures NormalizeDate("0050-03-01") == "1950-03-01"
    ensures ExpirationDate("0050-03-01") == "1950-03-08"
  {
    var d := Date(1950, 3, 1);
    ParseTwoDigitYear();
    FormatDates1950();
    DayNumberInjective(AddDays(d, 7), Date(1950, 3, 8));
  }
}

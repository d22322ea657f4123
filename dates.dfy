/**
 Order dates. The shop writes each order's date as a digit string
 `YYYYMMDDHHMMSS`; the connector cuts it into six pieces by position and builds a
 JavaScript Date from them, counting months from 0. Dates are later printed at day
 granularity as `YYYY-MM-DD`.

 A date is kept here as the six calendar fields of the local (naive) time Date
 holds; no time zone is applied.
 */
module Dates {
  import opened Text

  /** Calendar fields of a Date; `month` counts from 0 as Date does. */
  datatype DateTime = DateTime(year: int, month: int, day: int, hour: int, minute: int, second: int)

  predicate IsLeapYear(y: int) {
    (y % 4 == 0 && y % 100 != 0) || y % 400 == 0
  }

  /** Number of days of the 0-based month `m` of year `y`. */
  function DaysInMonth(y: int, m: int): (n: int)
    ensures 28 <= n <= 31
  {
    if m == 1 then (if IsLeapYear(y) then 29 else 28)
    else if m == 3 || m == 5 || m == 8 || m == 10 then 30
    else 31
  }

  /** The fields name an actual instant that Date stores without rolling any field
      over into the next one, with a year from 100 to 9999. */
  predicate InRange(d: DateTime) {
    && 100 <= d.year <= 9999
    && 0 <= d.month < 12
    && 1 <= d.day <= DaysInMonth(d.year, d.month)
    && 0 <= d.hour < 24
    && 0 <= d.minute < 60
    && 0 <= d.second < 60
  }

  type CalendarDate = d: DateTime | InRange(d) witness DateTime(2000, 0, 1, 0, 0, 0)

  /** Date's rule for a year argument below 100: it denotes a year of the 1900s. */
  function FullYear(y: nat): int {
    if y <= 99 then 1900 + y else y
  }

  /** The calendar fields Date builds from the six positional pieces: the year
      after Date's 1900s rule, the month piece minus 1, then the day, hour, minute
      and second. A missing piece is the empty string and so the number 0. */
  function DateArguments(s: string): DateTime
    requires AllDigits(s)
  {
    DateTime(
      FullYear(ParseDigits(Substring(s, 0, 4))),
      ParseDigits(Substring(s, 4, 6)) - 1,
      ParseDigits(Substring(s, 6, 8)),
      ParseDigits(Substring(s, 8, 10)),
      ParseDigits(Substring(s, 10, 12)),
      ParseDigits(Substring(s, 12, 14)))
  }

  /** A date string the model accepts: at least the eight date digits, digits only,
      and pieces that need none of Date's overflow normalisation. */
  predicate IsStamp(s: string) {
    |s| >= 8 && AllDigits(s) && InRange(DateArguments(s))
  }

  /** normalizeDate: the calendar date of a `YYYYMMDD[HHMMSS]` string. */
  function NormalizeDate(s: string): (d: CalendarDate)
    requires IsStamp(s)
    ensures d.year == FullYear(ParseDigits(s[0..4]))
    ensures d.month == ParseDigits(s[4..6]) - 1
    ensures d.day == ParseDigits(s[6..8])
  {
    DateArguments(s)
  }

  /** With all fourteen digits present, the time of day is read positionally too. */
  lemma FullStampTime(s: string)
    requires IsStamp(s) && |s| >= 14
    ensures NormalizeDate(s).hour == ParseDigits(s[8..10])
    ensures NormalizeDate(s).minute == ParseDigits(s[10..12])
    ensures NormalizeDate(s).second == ParseDigits(s[12..14])
  {
  }

  /** A date-only string gives midnight. */
  lemma DateOnlyIsMidnight(s: string)
    requires IsStamp(s) && |s| == 8
    ensures NormalizeDate(s).hour == 0
    ensures NormalizeDate(s).minute == 0
    ensures NormalizeDate(s).second == 0
  {
  }

  /** utils.formatDate: the day of `d` as `YYYY-MM-DD`, zero-padded, month from 1. */
  function FormatDate(d: CalendarDate): (r: string)
    ensures |r| == 10 && r[4] == '-' && r[7] == '-'
    ensures AllDigits(r[0..4]) && AllDigits(r[5..7]) && AllDigits(r[8..10])
    ensures ParseDigits(r[0..4]) == d.year
    ensures ParseDigits(r[5..7]) == d.month + 1
    ensures ParseDigits(r[8..10]) == d.day
  {
    var y := PadNat(d.year, 4);
    var m := PadNat(d.month + 1, 2);
    var dd := PadNat(d.day, 2);
    var r := y + "-" + m + "-" + dd;
    assert r[0..4] == y && r[5..7] == m && r[8..10] == dd;
    r
  }

  /** Two dates print alike exactly when they fall on the same calendar day. */
  lemma {:induction false} FormatDateSameDay(d1: CalendarDate, d2: CalendarDate)
    ensures FormatDate(d1) == FormatDate(d2) <==>
      d1.year == d2.year && d1.month == d2.month && d1.day == d2.day
  {
    if d1.year == d2.year && d1.month == d2.month && d1.day == d2.day {
      assert DateTime(d1.year, d1.month, d1.day, 0, 0, 0) == DateTime(d2.year, d2.month, d2.day, 0, 0, 0);
      FormatDateIgnoresTime(d1);
      FormatDateIgnoresTime(d2);
    }
  }

  /** The printed day depends on the date fields only. */
  lemma FormatDateIgnoresTime(d: CalendarDate)
    ensures FormatDate(d) == FormatDate(DateTime(d.year, d.month, d.day, 0, 0, 0))
  {
  }

  /** For a year piece from 0100 on, the printed day of a date string is its
      first eight digits with dashes after the year and the month. */
  lemma {:induction false} FormatNormalizedDate(s: string)
    requires IsStamp(s) && ParseDigits(s[0..4]) >= 100
    ensures FormatDate(NormalizeDate(s)) == s[0..4] + "-" + s[4..6] + "-" + s[6..8]
  {
    var d := NormalizeDate(s);
    assert AllDigits(s[0..4]) && AllDigits(s[4..6]) && AllDigits(s[6..8]);
    PadParsed(s[0..4]);
    PadParsed(s[4..6]);
    PadParsed(s[6..8]);
  }

  /** A string whose year piece is "00yy" denotes a year of the 1900s, as Date reads
      a year argument below 100, so its day prints with the year 19yy. */
  lemma TwoDigitYear(s: string)
    requires IsStamp(s) && ParseDigits(s[0..4]) <= 99
    ensures s[0] == '0' && s[1] == '0'
    ensures NormalizeDate(s).year == 1900 + ParseDigits(s[2..4])
    ensures FormatDate(NormalizeDate(s))[..4] == "19" + s[2..4]
  {
    LeadingZeros(s[0..4]);
    assert s[0..4][2..4] == s[2..4];
    NineteenPrefix(s[2..4]);
    PrintedYear(NormalizeDate(s));
  }

  /** The first four characters of a printed day are the zero-padded year. */
  lemma PrintedYear(d: CalendarDate)
    ensures FormatDate(d)[..4] == PadNat(d.year, 4)
  {
    var r := FormatDate(d);
    assert r[..4] == r[0..4];
    PadParsed(r[0..4]);
  }

  /** A four-digit piece denoting at most 99 starts with two zeros. */
  lemma LeadingZeros(y: string)
    requires |y| == 4 && AllDigits(y) && ParseDigits(y) <= 99
    ensures y[0] == '0' && y[1] == '0'
    ensures ParseDigits(y) == ParseDigits(y[2..4])
  {
    ParseFour(y);
    ParseTwo(y[2..4]);
  }

  /** The year 19yy is padded to "19" followed by the digits yy. */
  lemma NineteenPrefix(yy: string)
    requires |yy| == 2 && AllDigits(yy)
    ensures PadNat(1900 + ParseDigits(yy), 4) == "19" + yy
  {
    NineteenValue(yy);
    PadParsed("19" + yy);
  }

  lemma NineteenValue(yy: string)
    requires |yy| == 2 && AllDigits(yy)
    ensures ParseDigits("19" + yy) == 1900 + ParseDigits(yy)
  {
    ParseAppend("19", yy);
    ParseTwo("19");
    assert Pow10(2) == 100;
  }

  /** The fourteen-digit string the shop writes for a date. */
  function Stamp(d: CalendarDate): (s: string)
    ensures |s| == 14 && AllDigits(s)
  {
    PadNat(d.year, 4) + PadNat(d.month + 1, 2) + PadNat(d.day, 2)
      + PadNat(d.hour, 2) + PadNat(d.minute, 2) + PadNat(d.second, 2)
  }

  /** Reading back the string of a date gives the date. */
  lemma {:induction false} NormalizeStamp(d: CalendarDate)
    ensures IsStamp(Stamp(d))
    ensures NormalizeDate(Stamp(d)) == d
  {
    var y, m, dd := PadNat(d.year, 4), PadNat(d.month + 1, 2), PadNat(d.day, 2);
    var h, mi, sec := PadNat(d.hour, 2), PadNat(d.minute, 2), PadNat(d.second, 2);
    var s := Stamp(d);
    assert s == y + m + dd + h + mi + sec;
    assert s[0..4] == y;
    assert s[4..6] == m;
    assert s[6..8] == dd;
    assert s[8..10] == h;
    assert s[10..12] == mi;
    assert s[12..14] == sec;
    assert DateArguments(s) == d;
  }

  /** A fourteen-digit date string with a year piece from 0100 on is the string of its date. */
  lemma {:induction false} StampNormalized(s: string)
    requires IsStamp(s) && |s| == 14 && ParseDigits(s[0..4]) >= 100
    ensures Stamp(NormalizeDate(s)) == s
  {
    PadParsed(s[0..4]);
    PadParsed(s[4..6]);
    PadParsed(s[6..8]);
    PadParsed(s[8..10]);
    PadParsed(s[10..12]);
    PadParsed(s[12..14]);
    FourteenPieces(s);
  }

  lemma FourteenPieces(s: string)
    requires |s| == 14
    ensures s == s[0..4] + s[4..6] + s[6..8] + s[8..10] + s[10..12] + s[12..14]
  {
  }

  lemma ParseTwo(s: string)
    requires |s| == 2 && AllDigits(s)
    ensures ParseDigits(s) == 10 * DigitValue(s[0]) + DigitValue(s[1])
  {
    assert s[..1][..0] == [];
  }

  lemma ParseFour(s: string)
    requires |s| == 4 && AllDigits(s)
    ensures ParseDigits(s) ==
      1000 * DigitValue(s[0]) + 100 * DigitValue(s[1]) + 10 * DigitValue(s[2]) + DigitValue(s[3])
  {
    ParseTwo(s[..2]);
    assert s[..3][..2] == s[..2];
  }

  /** The digits of the shop's order page sample read as the Date arguments. */
  lemma SampleArguments()
    ensures AllDigits("20211021231457")
    ensures DateArguments("20211021231457") == DateTime(2021, 9, 21, 23, 14, 57)
  {
    var s := "20211021231457";
    assert AllDigits(s);
    assert s[0..4] == "2021" && s[4..6] == "10" && s[6..8] == "21";
    assert s[8..10] == "23" && s[10..12] == "14" && s[12..14] == "57";
    assert ParseDigits("2021") == 2021 by { ParseFour("2021"); }
    assert ParseDigits("10") == 10 by { ParseTwo("10"); }
    assert ParseDigits("21") == 21 by { ParseTwo("21"); }
    assert ParseDigits("23") == 23 by { ParseTwo("23"); }
    assert ParseDigits("14") == 14 by { ParseTwo("14"); }
    assert ParseDigits("57") == 57 by { ParseTwo("57"); }
  }

  /** The day part of the shop's order page sample. */
  lemma SampleDay(s: string)
    requires s == "20211021231457"
    ensures ParseDigits(s[0..4]) == 2021
    ensures s[0..4] + "-" + s[4..6] + "-" + s[6..8] == "2021-10-21"
  {
    assert s[0..4] == "2021" && s[4..6] == "10" && s[6..8] == "21";
    ParseFour("2021");
  }

  /** The date string of the shop's order page sample: 21 October 2021, 23:14:57. */
  lemma SampleStamp()
    ensures IsStamp("20211021231457")
    ensures NormalizeDate("20211021231457") == DateTime(2021, 9, 21, 23, 14, 57)
  {
    SampleArguments();
    assert DaysInMonth(2021, 9) == 31;
  }

  /** The sample date prints as 2021-10-21. */
  lemma SampleDayPrinted(d: CalendarDate)
    requires d == DateTime(2021, 9, 21, 23, 14, 57)
    ensures FormatDate(d) == "2021-10-21"
  {
    SampleStamp();
    SampleDay("20211021231457");
    FormatNormalizedDate("20211021231457");
  }
}

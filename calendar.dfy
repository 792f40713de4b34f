/**
 * `new Date(schedule.date).getDay()` for the date-only ISO strings the
 * showtimes carry: parse YYYY, YYYY-MM or YYYY-MM-DD and count days in the
 * proleptic Gregorian calendar. The parsed instant is midnight UTC and getDay
 * reads the host's local calendar; this model takes the host to be at UTC or
 * east of it, where that local day is the same calendar day.
 */
module Calendar {
  import opened Text
  import opened Seqs
  import opened Types

  datatype Date = Date(year: int, month: int, day: int)

  predicate IsLeap(y: int) {
    y % 4 == 0 && (y % 100 != 0 || y % 400 == 0)
  }

  function DaysInMonth(y: int, m: int): int
    requires 1 <= m <= 12
  {
    if m == 2 then (if IsLeap(y) then 29 else 28)
    else if m == 4 || m == 6 || m == 9 || m == 11 then 30
    else 31
  }

  predicate ValidDate(d: Date) {
    0 <= d.year && 1 <= d.month <= 12 && 1 <= d.day <= DaysInMonth(d.year, d.month)
  }

  /** The days of year `y` before the first of month `m`. */
  function DaysBeforeMonth(y: int, m: int): int
    requires 1 <= m <= 13
  {
    if m == 1 then 0 else DaysBeforeMonth(y, m - 1) + DaysInMonth(y, m - 1)
  }

  /** Leap years in 0 .. y-1. */
  function LeapsBefore(y: nat): int {
    (y + 3) / 4 - (y + 99) / 100 + (y + 399) / 400
  }

  /** Days from 0000-01-01 to the first of January of year `y`. */
  function DaysBeforeYear(y: nat): int {
    365 * y + LeapsBefore(y)
  }

  /** Days from 0000-01-01 (a Saturday) to `d`. */
  function DayNumber(d: Date): int
    requires ValidDate(d)
  {
    DaysBeforeYear(d.year) + DaysBeforeMonth(d.year, d.month) + d.day - 1
  }

  /** Date.prototype.getDay: 0 for Sunday up to 6 for Saturday. */
  function DayOfWeek(d: Date): (w: int)
    requires ValidDate(d)
    ensures 0 <= w < 7
  {
    (DayNumber(d) + 6) % 7
  }

  /** The calendar day after `d`. */
  function NextDay(d: Date): (e: Date)
    requires ValidDate(d)
    ensures ValidDate(e)
  {
    if d.day < DaysInMonth(d.year, d.month) then d.(day := d.day + 1)
    else if d.month < 12 then Date(d.year, d.month + 1, 1)
    else Date(d.year + 1, 1, 1)
  }

  /** The number of multiples of 4 below y + 1 and below y differ exactly when y is one. */
  lemma MultiplesOf4Step(y: nat)
    ensures (y + 4) / 4 - (y + 3) / 4 == if y % 4 == 0 then 1 else 0
  {
    var q, r := y / 4, y % 4;
    assert y == 4 * q + r;
    assert (y + 4) / 4 == q + 1;
    assert (y + 3) / 4 == if r == 0 then q else q + 1;
  }

  /** The same for multiples of 100. */
  lemma MultiplesOf100Step(y: nat)
    ensures (y + 100) / 100 - (y + 99) / 100 == if y % 100 == 0 then 1 else 0
  {
    var q, r := y / 100, y % 100;
    assert y == 100 * q + r;
    assert (y + 100) / 100 == q + 1;
    assert (y + 99) / 100 == if r == 0 then q else q + 1;
  }

  /** The same for multiples of 400. */
  lemma MultiplesOf400Step(y: nat)
    ensures (y + 400) / 400 - (y + 399) / 400 == if y % 400 == 0 then 1 else 0
  {
    var q, r := y / 400, y % 400;
    assert y == 400 * q + r;
    assert (y + 400) / 400 == q + 1;
    assert (y + 399) / 400 == if r == 0 then q else q + 1;
  }

  /** A multiple of 400 is one of 100, and a multiple of 100 one of 4. */
  lemma Multiples(y: nat)
    ensures y % 400 == 0 ==> y % 100 == 0
    ensures y % 100 == 0 ==> y % 4 == 0
  {
    if y % 400 == 0 {
      var q := y / 400;
      assert y == 100 * (4 * q);
    }
    if y % 100 == 0 {
      var q := y / 100;
      assert y == 4 * (25 * q);
    }
  }

  /** LeapsBefore counts leap years: it grows by one across each leap year. */
  lemma LeapsStep(y: nat)
    ensures LeapsBefore(y + 1) == LeapsBefore(y) + (if IsLeap(y) then 1 else 0)
  {
    MultiplesOf4Step(y);
    MultiplesOf100Step(y);
    MultiplesOf400Step(y);
    Multiples(y);
  }

  lemma DaysInYear(y: int)
    ensures DaysBeforeMonth(y, 13) == if IsLeap(y) then 366 else 365
  {
    var feb := DaysInMonth(y, 2);
    assert DaysBeforeMonth(y, 2) == 31;
    assert DaysBeforeMonth(y, 3) == 31 + feb;
    assert DaysBeforeMonth(y, 4) == 62 + feb;
    assert DaysBeforeMonth(y, 5) == 92 + feb;
    assert DaysBeforeMonth(y, 6) == 123 + feb;
    assert DaysBeforeMonth(y, 7) == 153 + feb;
    assert DaysBeforeMonth(y, 8) == 184 + feb;
    assert DaysBeforeMonth(y, 9) == 215 + feb;
    assert DaysBeforeMonth(y, 10) == 245 + feb;
    assert DaysBeforeMonth(y, 11) == 276 + feb;
    assert DaysBeforeMonth(y, 12) == 306 + feb;
  }

  /** Within a month, the next day's number is one more. */
  lemma NextDayInMonth(d: Date)
    requires ValidDate(d) && d.day < DaysInMonth(d.year, d.month)
    ensures DayNumber(NextDay(d)) == DayNumber(d) + 1
  {
    assert NextDay(d) == d.(day := d.day + 1);
  }

  /** From the last day of a month other than December, the next day's number is one more. */
  lemma NextDayNextMonth(d: Date)
    requires ValidDate(d) && d.day == DaysInMonth(d.year, d.month) && d.month < 12
    ensures DayNumber(NextDay(d)) == DayNumber(d) + 1
  {
    assert NextDay(d) == Date(d.year, d.month + 1, 1);
    assert DaysBeforeMonth(d.year, d.month + 1) == DaysBeforeMonth(d.year, d.month) + DaysInMonth(d.year, d.month);
  }

  /** From 31 December, the next day's number is one more. */
  lemma NextDayNextYear(d: Date)
    requires ValidDate(d) && d.day == DaysInMonth(d.year, d.month) && d.month == 12
    ensures DayNumber(NextDay(d)) == DayNumber(d) + 1
  {
    var y := d.year;
    assert NextDay(d) == Date(y + 1, 1, 1);
    LeapsStep(y);
    DaysInYear(y);
    assert DaysBeforeMonth(y, 13) == DaysBeforeMonth(y, 12) + 31;
    assert DaysBeforeYear(y + 1) == DaysBeforeYear(y) + DaysBeforeMonth(y, 13);
  }

  lemma WeekdayStep(a: int, b: int)
    requires b == a + 1
    ensures (b + 6) % 7 == ((a + 6) % 7 + 1) % 7
  {
  }

  /** Day numbers count days: the next day is one more, so the weekday advances by one. */
  lemma NextDayWeekday(d: Date)
    requires ValidDate(d)
    ensures DayNumber(NextDay(d)) == DayNumber(d) + 1
    ensures DayOfWeek(NextDay(d)) == (DayOfWeek(d) + 1) % 7
  {
    if d.day < DaysInMonth(d.year, d.month) {
      NextDayInMonth(d);
    } else if d.month < 12 {
      NextDayNextMonth(d);
    } else {
      NextDayNextYear(d);
    }
    WeekdayStep(DayNumber(d), DayNumber(NextDay(d)));
  }

  /** The value of the decimal digits s[i..j]. */
  function Field(s: string, i: nat, j: nat): Option<nat>
    requires i <= j <= |s|
  {
    if forall k | i <= k < j :: IsDigit(s[k]) then Some(DigitsValue(s[i..j])) else None
  }

  /**
   * The date-only forms of the ISO format Date accepts: YYYY, YYYY-MM and
   * YYYY-MM-DD, with a missing month or day taken as 1. Anything else, and
   * any month or day out of range, is an invalid date.
   */
  function ParseIsoDate(s: string): (r: Option<Date>)
    ensures r.Some? ==> ValidDate(r.value)
  {
    if !(|s| == 4 || (|s| == 7 && s[4] == '-') || (|s| == 10 && s[4] == '-' && s[7] == '-')) then None
    else
      var y := Field(s, 0, 4);
      var m := if |s| >= 7 then Field(s, 5, 7) else Some(1);
      var d := if |s| == 10 then Field(s, 8, 10) else Some(1);
      if y.None? || m.None? || d.None? then None
      else if !(1 <= m.value <= 12) || !(1 <= d.value <= DaysInMonth(y.value, m.value)) then None
      else Some(Date(y.value, m.value, d.value))
  }

  /**
   * `getDay() === 0 || getDay() === 6`: a Sunday or a Saturday. An invalid
   * date gives NaN, which equals neither.
   */
  predicate IsWeekend(date: string) {
    match ParseIsoDate(date)
    case None => false
    case Some(d) => DayOfWeek(d) == 0 || DayOfWeek(d) == 6
  }

  /** The day type the rate table is consulted with. */
  function DayTypeOf(date: string): (t: DayType)
    ensures t == Weekend <==> IsWeekend(date)
  {
    if IsWeekend(date) then Weekend else Weekday
  }

  /** September 2023, the month of the catalogue's showtimes, starts on a Friday. */
  lemma September2023(d: int)
    requires 1 <= d <= 30
    ensures ValidDate(Date(2023, 9, d)) && DayOfWeek(Date(2023, 9, d)) == (d + 4) % 7
  {
    assert DaysBeforeMonth(2023, 9) == 243;
    assert DaysBeforeYear(2023) == 738886;
  }

  /** A YYYY-MM-DD string of September 2023 parses to that day. */
  lemma ParseSeptember2023(dd: string, d: int)
    requires |dd| == 2 && IsDigit(dd[0]) && IsDigit(dd[1]) && d == 10 * DigitValue(dd[0]) + DigitValue(dd[1])
    requires 1 <= d <= 30
    ensures ParseIsoDate("2023-09-" + dd) == Some(Date(2023, 9, d))
  {
    var s := "2023-09-" + dd;
    Digits4("2023");
    Digits2("09");
    Digits2(dd);
    assert s[0..4] == "2023" && s[5..7] == "09" && s[8..10] == dd;
  }

  /** The day type of a date of September 2023: a weekend exactly on Saturdays (d = 2, 9, ...) and Sundays. */
  lemma DayTypeSeptember2023(dd: string, d: int)
    requires |dd| == 2 && IsDigit(dd[0]) && IsDigit(dd[1]) && d == 10 * DigitValue(dd[0]) + DigitValue(dd[1])
    requires 1 <= d <= 30
    ensures DayTypeOf("2023-09-" + dd) == if (d + 4) % 7 == 0 || (d + 4) % 7 == 6 then Weekend else Weekday
  {
    ParseSeptember2023(dd, d);
    September2023(d);
  }

  /** The catalogue's showtime dates, 2023-09-20 (a Wednesday) and 2023-09-21, are weekdays. */
  lemma ShowtimeDatesAreWeekdays(date: string)
    requires date == "2023-09-20" || date == "2023-09-21"
    ensures DayTypeOf(date) == Weekday
  {
    if date == "2023-09-20" {
      DayTypeSeptember2023("20", 20);
      assert "2023-09-" + "20" == date;
    } else {
      DayTypeSeptember2023("21", 21);
      assert "2023-09-" + "21" == date;
    }
  }

  /** The weekend after them, 2023-09-23 and 2023-09-24, is priced as weekend. */
  lemma FollowingWeekend(date: string)
    requires date == "2023-09-23" || date == "2023-09-24"
    ensures DayTypeOf(date) == Weekend
  {
    if date == "2023-09-23" {
      DayTypeSeptember2023("23", 23);
      assert "2023-09-" + "23" == date;
    } else {
      DayTypeSeptember2023("24", 24);
      assert "2023-09-" + "24" == date;
    }
  }

  /** A string that is not an ISO date gives an invalid Date, whose getDay is NaN: a weekday price. */
  lemma InvalidDateIsWeekday(date: string)
    requires ParseIsoDate(date).None?
    ensures DayTypeOf(date) == Weekday
  {
  }

  lemma Digits2(s: string)
    requires |s| == 2 && IsDigit(s[0]) && IsDigit(s[1])
    ensures DigitsValue(s) == 10 * DigitValue(s[0]) + DigitValue(s[1])
  {
    var h := s[..1];
    assert h[..0] == [] && h[0] == s[0];
    assert DigitsValue(h) == DigitValue(s[0]);
  }

  lemma Digits4(s: string)
    requires |s| == 4 && forall i | 0 <= i < 4 :: IsDigit(s[i])
    ensures DigitsValue(s) == 1000 * DigitValue(s[0]) + 100 * DigitValue(s[1]) + 10 * DigitValue(s[2]) + DigitValue(s[3])
  {
    Digits2(s[..2]);
    assert s[..3][..2] == s[..2];
  }

  /** 10 to the power `w`. */
  function Pow10(w: nat): (p: nat)
    ensures p >= 1
  {
    if w == 0 then 1 else 10 * Pow10(w - 1)
  }

  /** The last `w` decimal digits of `n`, zero-padded on the left. */
  function Pad(n: nat, w: nat): (s: string)
    ensures |s| == w && forall i :: 0 <= i < w ==> IsDigit(s[i])
  {
    if w == 0 then [] else Pad(n / 10, w - 1) + [DigitChar(n % 10)]
  }

  /** A number below 10^w is read back from its `w`-digit padding. */
  lemma {:induction false} PadValue(n: nat, w: nat)
    requires n < Pow10(w)
    ensures DigitsValue(Pad(n, w)) == n
  {
    if w > 0 {
      var s := Pad(n, w);
      assert s[..w - 1] == Pad(n / 10, w - 1);
      PadValue(n / 10, w - 1);
    }
  }

  /** Padding the value of a digit string to its own length gives the string back. */
  lemma {:induction false} PadDigits(s: string)
    requires forall i :: 0 <= i < |s| ==> IsDigit(s[i])
    ensures Pad(DigitsValue(s), |s|) == s
  {
    if s != [] {
      var init, c := s[..|s| - 1], s[|s| - 1];
      var v := DigitsValue(init);
      assert DigitsValue(s) == v * 10 + DigitValue(c);
      assert (v * 10 + DigitValue(c)) / 10 == v && (v * 10 + DigitValue(c)) % 10 == DigitValue(c);
      PadDigits(init);
      assert DigitChar(DigitValue(c)) == c;
      assert s == init + [c];
    }
  }

  /** The `YYYY-MM-DD` text of a date, as the catalogue writes showtime dates. */
  function IsoText(d: Date): (s: string)
    requires 0 <= d.year && 0 <= d.month && 0 <= d.day
    ensures |s| == 10 && s[4] == '-' && s[7] == '-'
  {
    Pad(d.year, 4) + "-" + Pad(d.month, 2) + "-" + Pad(d.day, 2)
  }

  /** The `YYYY-MM-DD` text of every valid date of a four-digit year parses back to that date. */
  lemma ParseIsoText(d: Date)
    requires ValidDate(d) && d.year < 10000
    ensures ParseIsoDate(IsoText(d)) == Some(d)
  {
    var s := IsoText(d);
    assert s[0..4] == Pad(d.year, 4) && s[5..7] == Pad(d.month, 2) && s[8..10] == Pad(d.day, 2);
    PadValue(d.year, 4);
    PadValue(d.month, 2);
    PadValue(d.day, 2);
  }

  /** A ten-character text that parses to a date is that date's `YYYY-MM-DD` text. */
  lemma ParsedIsoText(s: string)
    requires |s| == 10 && ParseIsoDate(s).Some?
    ensures IsoText(ParseIsoDate(s).value) == s
  {
    var d := ParseIsoDate(s).value;
    PadDigits(s[0..4]);
    PadDigits(s[5..7]);
    PadDigits(s[8..10]);
    assert s == s[0..4] + "-" + s[5..7] + "-" + s[8..10];
  }
}

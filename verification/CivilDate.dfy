/**
 Civil dates as the shared date module stores them: a day number counted from 1970-01-01 in the
 proleptic Gregorian calendar (section 21.4.1 of ECMA-262), and the text key YYYY-MM-DD.
 */
module CivilDate {
  import opened Wrappers
  import opened DecimalText

  const MS_PER_DAY := 86_400_000

  /** The largest magnitude a Date can hold (section 21.4.1.31 of ECMA-262, TimeClip). */
  const MAX_TIME := 8_640_000_000_000_000

  /** A month is 1 to 12 here; the source's month arguments are 0 to 11. */
  datatype Civil = Civil(year: int, month: int, day: int)

  /** The time value of a Date object: None is an invalid Date. */
  type Time = Option<int>

  datatype DateError = InvalidDate

  // ---------------------------------------------------------------- years

  function DayFromYear(y: int): int {
    365 * (y - 1970) + (y - 1969) / 4 - (y - 1901) / 100 + (y - 1601) / 400
  }

  predicate IsLeapYear(y: int) {
    y % 4 == 0 && (y % 100 != 0 || y % 400 == 0)
  }

  function DaysInYear(y: int): int {
    if IsLeapYear(y) then 366 else 365
  }

  /** The closed formula for the first day of a year agrees with the leap-year rule. */
  lemma DayFromYearStep(y: int)
    ensures DayFromYear(y + 1) == DayFromYear(y) + DaysInYear(y)
  {
    QuartersStep(y);
    CenturiesStep(y);
    LeapCenturiesStep(y);
    LeapCenturiesAreCenturies(y);
    CenturiesAreQuarters(y);
  }

  lemma QuartersStep(y: int)
    ensures (y - 1968) / 4 == (y - 1969) / 4 + if y % 4 == 0 then 1 else 0
  {
    assert y == 4 * (y / 4) + y % 4;
  }

  lemma CenturiesStep(y: int)
    ensures (y - 1900) / 100 == (y - 1901) / 100 + if y % 100 == 0 then 1 else 0
  {
    assert y == 100 * (y / 100) + y % 100;
  }

  lemma LeapCenturiesStep(y: int)
    ensures (y - 1600) / 400 == (y - 1601) / 400 + if y % 400 == 0 then 1 else 0
  {
    var q, r := y / 400, y % 400;
    Quotient400(q - 4, r);
    if r == 0 {
      Quotient400(q - 5, 399);
    } else {
      Quotient400(q - 4, r - 1);
    }
  }

  lemma LeapCenturiesAreCenturies(y: int)
    ensures y % 400 == 0 ==> y % 100 == 0
  {
    if y % 400 == 0 {
      assert y == 100 * (4 * (y / 400));
    }
  }

  lemma CenturiesAreQuarters(y: int)
    ensures y % 100 == 0 ==> y % 4 == 0
  {
    if y % 100 == 0 {
      assert y == 4 * (25 * (y / 100));
    }
  }

  lemma Quotient400(q: int, r: int)
    requires 0 <= r < 400
    ensures (400 * q + r) / 400 == q
  {
  }

  lemma {:induction false} YearsIncrease(y: int, z: int)
    requires y <= z
    ensures DayFromYear(y) + 365 * (z - y) <= DayFromYear(z) <= DayFromYear(y) + 366 * (z - y)
    decreases z - y
  {
    if y < z {
      YearsIncrease(y, z - 1);
      DayFromYearStep(z - 1);
    }
  }

  /** The year a day belongs to, searched upwards from a year that starts no later. */
  function YearFrom(d: int, y: int): (r: int)
    requires DayFromYear(y) <= d
    ensures DayFromYear(r) <= d < DayFromYear(r + 1)
    decreases d - DayFromYear(y)
  {
    DayFromYearStep(y);
    if d < DayFromYear(y + 1) then y else YearFrom(d, y + 1)
  }

  /** YearFromTime of section 21.4.1: the year whose days include `d`. */
  function YearOfDay(d: int): (r: int)
    ensures DayFromYear(r) <= d < DayFromYear(r + 1)
  {
    var guess := 1970 + if d >= 0 then d / 366 else d / 365;
    assert DayFromYear(guess) <= d by {
      if d >= 0 { YearsIncrease(1970, guess); } else { YearsIncrease(guess, 1970); }
    }
    YearFrom(d, guess)
  }

  /** No other year includes that day. */
  lemma YearIsUnique(d: int, y: int)
    requires DayFromYear(y) <= d < DayFromYear(y + 1)
    ensures YearOfDay(d) == y
  {
    hide DayFromYear, YearFrom;
    var r := YearOfDay(d);
    if r < y { YearsIncrease(r + 1, y); }
    if y < r { YearsIncrease(y + 1, r); }
  }

  // ---------------------------------------------------------------- months

  /** Days of the year before the given month; month 13 stands for the whole year. */
  function DaysBeforeMonth(m: int, leap: bool): int {
    var extra := if leap then 1 else 0;
    if m <= 1 then 0
    else if m == 2 then 31
    else if m == 3 then 59 + extra
    else if m == 4 then 90 + extra
    else if m == 5 then 120 + extra
    else if m == 6 then 151 + extra
    else if m == 7 then 181 + extra
    else if m == 8 then 212 + extra
    else if m == 9 then 243 + extra
    else if m == 10 then 273 + extra
    else if m == 11 then 304 + extra
    else if m == 12 then 334 + extra
    else 365 + extra
  }

  function DaysInMonth(y: int, m: int): int {
    if m == 2 then (if IsLeapYear(y) then 29 else 28)
    else if m == 4 || m == 6 || m == 9 || m == 11 then 30
    else 31
  }

  /** A date of the Gregorian calendar. */
  predicate IsCivil(c: Civil) {
    1 <= c.month <= 12 && 1 <= c.day <= DaysInMonth(c.year, c.month)
  }

  function MonthOf(dayInYear: int, leap: bool): (m: int)
    ensures 1 <= m <= 12
  {
    if dayInYear < DaysBeforeMonth(2, leap) then 1
    else if dayInYear < DaysBeforeMonth(3, leap) then 2
    else if dayInYear < DaysBeforeMonth(4, leap) then 3
    else if dayInYear < DaysBeforeMonth(5, leap) then 4
    else if dayInYear < DaysBeforeMonth(6, leap) then 5
    else if dayInYear < DaysBeforeMonth(7, leap) then 6
    else if dayInYear < DaysBeforeMonth(8, leap) then 7
    else if dayInYear < DaysBeforeMonth(9, leap) then 8
    else if dayInYear < DaysBeforeMonth(10, leap) then 9
    else if dayInYear < DaysBeforeMonth(11, leap) then 10
    else if dayInYear < DaysBeforeMonth(12, leap) then 11
    else 12
  }

  /** MakeDay of section 21.4.1.28: month and date may lie outside their usual ranges and carry over. */
  function MakeDay(year: int, month0: int, date: int): int {
    var y, m := year + month0 / 12, month0 % 12;
    DayFromYear(y) + DaysBeforeMonth(m + 1, IsLeapYear(y)) + date - 1
  }

  function DayOf(c: Civil): int {
    MakeDay(c.year, c.month - 1, c.day)
  }

  /** The year, month and date that the getUTC methods of a Date report for a day. */
  function CivilOf(d: int): Civil {
    var y := YearOfDay(d);
    var within := d - DayFromYear(y);
    var m := MonthOf(within, IsLeapYear(y));
    Civil(y, m, within - DaysBeforeMonth(m, IsLeapYear(y)) + 1)
  }

  /** The month found for a day of the year is the one the day falls into. */
  lemma MonthHoldsDay(within: int, leap: bool)
    requires 0 <= within < if leap then 366 else 365
    ensures var m := MonthOf(within, leap);
            DaysBeforeMonth(m, leap) <= within < DaysBeforeMonth(m + 1, leap)
  {
  }

  /** The table of month starts agrees with the lengths of the months. */
  lemma MonthLength(y: int, m: int)
    requires 1 <= m <= 12
    ensures DaysBeforeMonth(m + 1, IsLeapYear(y)) == DaysBeforeMonth(m, IsLeapYear(y)) + DaysInMonth(y, m)
    ensures DaysBeforeMonth(m + 1, IsLeapYear(y)) <= DaysInYear(y)
    ensures 0 <= DaysBeforeMonth(m, IsLeapYear(y)) && DaysInMonth(y, m) <= 31
  {
    hide IsLeapYear;
  }

  /** A day between the starts of two consecutive months lies in the first of them. */
  lemma MonthFound(within: int, m: int, leap: bool)
    requires 1 <= m <= 12 && DaysBeforeMonth(m, leap) <= within < DaysBeforeMonth(m + 1, leap)
    ensures MonthOf(within, leap) == m
  {
  }

  /** Every day has a calendar date, and that date leads back to the day. */
  lemma CivilOfDay(d: int)
    ensures IsCivil(CivilOf(d)) && DayOf(CivilOf(d)) == d
  {
    hide DayFromYear, YearFrom, IsLeapYear, DaysBeforeMonth, MonthOf, DaysInMonth;
    var y := YearOfDay(d);
    DayFromYearStep(y);
    MonthHoldsDay(d - DayFromYear(y), IsLeapYear(y));
    MonthLength(y, CivilOf(d).month);
  }

  lemma DayWithinYear(c: Civil)
    requires IsCivil(c)
    ensures DayFromYear(c.year) <= DayOf(c) < DayFromYear(c.year + 1)
    ensures MonthOf(DayOf(c) - DayFromYear(c.year), IsLeapYear(c.year)) == c.month
    ensures DayOf(c) == DayFromYear(c.year) + DaysBeforeMonth(c.month, IsLeapYear(c.year)) + c.day - 1
  {
    hide DayFromYear, YearFrom, IsLeapYear, DaysBeforeMonth, MonthOf, DaysInMonth;
    DayFromYearStep(c.year);
    MonthLength(c.year, c.month);
    assert (c.month - 1) / 12 == 0 && (c.month - 1) % 12 == c.month - 1;
    MonthFound(DayOf(c) - DayFromYear(c.year), c.month, IsLeapYear(c.year));
  }

  /** Every calendar date has a day, and that day leads back to the date. */
  lemma DayOfCivil(c: Civil)
    requires IsCivil(c)
    ensures CivilOf(DayOf(c)) == c
  {
    hide DayFromYear, DaysBeforeMonth, MonthOf, IsLeapYear, YearOfDay, DayOf;
    DayWithinYear(c);
    YearIsUnique(DayOf(c), c.year);
  }

  predicate Before(a: Civil, b: Civil) {
    a.year < b.year || (a.year == b.year && (a.month < b.month || (a.month == b.month && a.day < b.day)))
  }

  /** Day numbers are ordered as the calendar dates they stand for. */
  lemma DayOrder(a: Civil, b: Civil)
    requires IsCivil(a) && IsCivil(b)
    ensures DayOf(a) < DayOf(b) <==> Before(a, b)
  {
    hide DayFromYear, IsLeapYear, DayOf, MonthOf;
    DayWithinYear(a);
    DayWithinYear(b);
    if a.year < b.year { YearsIncrease(a.year + 1, b.year); }
    if b.year < a.year { YearsIncrease(b.year + 1, a.year); }
  }

  // ---------------------------------------------------------------- times

  function TimeClip(t: int): Time {
    if -MAX_TIME <= t <= MAX_TIME then Some(t) else None
  }

  /** MakeFullYear of section 21.4.1.30: years 0 to 99 mean 1900 to 1999. */
  function FullYear(year: int): int {
    if 0 <= year <= 99 then 1900 + year else year
  }

  function DateUtc(year: int, month0: int, date: int): Time {
    TimeClip(MakeDay(FullYear(year), month0, date) * MS_PER_DAY)
  }

  function DayOfTime(t: int): int {
    t / MS_PER_DAY
  }

  /** The dates of the years 100 to 9999 are well inside what a Date can hold. */
  lemma YearsFit(c: Civil)
    requires IsCivil(c) && 100 <= c.year <= 9999
    ensures DayFromYear(100) <= DayOf(c) < DayFromYear(10000)
    ensures TimeClip(DayOf(c) * MS_PER_DAY) == Some(DayOf(c) * MS_PER_DAY)
    ensures TimeClip((DayOf(c) + 1) * MS_PER_DAY) == Some((DayOf(c) + 1) * MS_PER_DAY)
    ensures DayOfTime(DayOf(c) * MS_PER_DAY) == DayOf(c)
  {
    hide DayOf, IsLeapYear;
    DayWithinYear(c);
    YearsIncrease(100, c.year);
    YearsIncrease(c.year + 1, 10000);
  }

  /** A Date built from fields holds exactly the days up to a hundred million before and after the epoch. */
  lemma RangeOfDates(year: int, month0: int, date: int)
    ensures DateUtc(year, month0, date).Some? <==>
            -100_000_000 <= MakeDay(FullYear(year), month0, date) <= 100_000_000
  {
    hide MakeDay, FullYear;
  }

  /** Date.UTC takes the years 0 to 99 for 1900 to 1999, and every other year as it is. */
  lemma TwoDigitYears(c: Civil)
    requires 1 <= c.month <= 12
    ensures 0 <= c.year <= 99 ==> DateUtc(c.year, c.month - 1, c.day) == DateUtc(1900 + c.year, c.month - 1, c.day)
    ensures 0 <= c.year <= 99 && IsCivil(Civil(1900 + c.year, c.month, c.day)) ==>
              DateUtc(c.year, c.month - 1, c.day) == Some(DayOf(Civil(1900 + c.year, c.month, c.day)) * MS_PER_DAY)
    ensures 100 <= c.year <= 9999 && IsCivil(c) ==>
              DateUtc(c.year, c.month - 1, c.day) == Some(DayOf(c) * MS_PER_DAY)
  {
    hide MakeDay, IsCivil, DayFromYear;
    var meant := if 0 <= c.year <= 99 then c.(year := 1900 + c.year) else c;
    if 100 <= meant.year <= 9999 && IsCivil(meant) {
      YearsFit(meant);
    }
  }

  // ---------------------------------------------------------------- text keys

  predicate HasDateShape(s: string) {
    && |s| == 10
    && AllDigits(s[..4]) && s[4] == '-' && AllDigits(s[5..7]) && s[7] == '-' && AllDigits(s[8..])
  }

  /** The three numbers of a text of the right shape. */
  function Fields(s: string): Civil
    requires HasDateShape(s)
  {
    Civil(Value(s[..4]), Value(s[5..7]), Value(s[8..]))
  }

  /** `isValidDateOnly`: build the date and look whether its fields come back unchanged. */
  predicate IsValidDateOnly(s: string) {
    && HasDateShape(s)
    && var c := Fields(s);
       && 1 <= c.month <= 12 && 1 <= c.day <= 31
       && var time := DateUtc(c.year, c.month - 1, c.day);
          time.Some? && CivilOf(DayOfTime(time.value)) == c
  }

  /** `parseDateOnlyToUtcDate`. */
  function ParseDateOnly(s: string): Result<Time, DateError> {
    if !IsValidDateOnly(s) then Thrown(InvalidDate)
    else var c := Fields(s); Ok(DateUtc(c.year, c.month - 1, c.day))
  }

  function YearText(y: int): string {
    if y < 0 then "-" + Decimal(-y) else Decimal(y)
  }

  function KeyOf(c: Civil): string
    requires IsCivil(c)
  {
    YearText(c.year) + "-" + Pad2(c.month) + "-" + Pad2(c.day)
  }

  /** `getAcademicDateKey`: no key for an invalid Date. */
  function DateKey(value: Time): Option<string> {
    if value.None? then None
    else CivilOfDay(DayOfTime(value.value)); Some(KeyOf(CivilOf(DayOfTime(value.value))))
  }

  lemma FieldsBound(s: string)
    requires HasDateShape(s)
    ensures 0 <= Fields(s).year < 10000
    ensures 0 <= Fields(s).month < 100 && 0 <= Fields(s).day < 100
    ensures s == s[..4] + "-" + Pad2(Fields(s).month) + "-" + Pad2(Fields(s).day)
  {
    ValueOfFour(s[..4]);
    ValueOfTwo(s[5..7]);
    ValueOfTwo(s[8..]);
    assert s == s[..4] + [s[4]] + s[5..7] + [s[7]] + s[8..];
  }

  /** Building a date from a month in range and carrying over at most one month changes the fields. */
  lemma RebuiltDate(y: int, m: int, day: int)
    requires 1 <= m <= 12 && 1 <= day <= 31
    ensures DayFromYear(y) <= MakeDay(y, m - 1, day) <= DayFromYear(y + 1) + 2
    ensures CivilOf(MakeDay(y, m - 1, day)) == Civil(y, m, day) <==> IsCivil(Civil(y, m, day))
  {
    hide DayFromYear, YearOfDay, MonthOf, CivilOf;
    DayFromYearStep(y);
    CivilOfDay(MakeDay(y, m - 1, day));
    assert (m - 1) / 12 == 0 && (m - 1) % 12 == m - 1;
    if IsCivil(Civil(y, m, day)) {
      DayOfCivil(Civil(y, m, day));
    }
  }

  lemma NotBeforeYear(d: int, y: int)
    requires DayFromYear(y) <= d
    ensures YearOfDay(d) >= y
  {
    hide DayFromYear, YearFrom;
    var r := YearOfDay(d);
    if r < y { YearsIncrease(r + 1, y); }
  }

  /** What the check builds before it compares: a day inside the range of Date, never in the years 0 to 99. */
  lemma RebuiltInRange(c: Civil)
    requires 0 <= c.year <= 9999 && 1 <= c.month <= 12 && 1 <= c.day <= 31
    ensures var d := MakeDay(FullYear(c.year), c.month - 1, c.day);
            && DateUtc(c.year, c.month - 1, c.day) == Some(d * MS_PER_DAY)
            && DayOfTime(d * MS_PER_DAY) == d
            && CivilOf(d).year >= 100
  {
    hide YearOfDay, MonthOf, IsLeapYear, MakeDay, CivilOf;
    var y := FullYear(c.year);
    var d := MakeDay(y, c.month - 1, c.day);
    RebuiltDate(y, c.month, c.day);
    YearsIncrease(100, y);
    YearsIncrease(y + 1, 10000);
    NotBeforeYear(d, 100);
    YearOfCivil(d);
  }

  lemma YearOfCivil(d: int)
    ensures CivilOf(d).year == YearOfDay(d)
  {
  }

  /** The validity check accepts exactly the Gregorian dates of the years 100 to 9999. */
  lemma ValidExactly(s: string)
    ensures IsValidDateOnly(s) <==> HasDateShape(s) && Fields(s).year >= 100 && IsCivil(Fields(s))
  {
    hide CivilOf, MakeDay, DaysInMonth, DateUtc, Value;
    if HasDateShape(s) {
      FieldsBound(s);
      var c := Fields(s);
      if IsCivil(c) { DaysInMonthBound(c); }
      if 1 <= c.month <= 12 && 1 <= c.day <= 31 {
        RebuiltInRange(c);
        RebuiltDate(FullYear(c.year), c.month, c.day);
      }
    }
  }

  lemma DaysInMonthBound(c: Civil)
    requires IsCivil(c)
    ensures 1 <= c.day <= 31
  {
  }

  /** A valid text denotes the day of its fields, at midnight UTC. */
  lemma ParseIsDayOf(s: string)
    requires IsValidDateOnly(s)
    ensures HasDateShape(s) && IsCivil(Fields(s)) && 100 <= Fields(s).year < 10000
    ensures ParseDateOnly(s) == Ok(Some(DayOf(Fields(s)) * MS_PER_DAY))
    ensures DayOfTime(DayOf(Fields(s)) * MS_PER_DAY) == DayOf(Fields(s))
  {
    hide CivilOf, MakeDay, DaysInMonth, Value;
    ValidExactly(s);
    FieldsBound(s);
    YearsFit(Fields(s));
  }

  /** The shape of a key depends on the number of digits of the year. */
  lemma KeyShape(c: Civil)
    requires IsCivil(c)
    ensures HasDateShape(KeyOf(c)) <==> 1000 <= c.year <= 9999
    ensures 1000 <= c.year <= 9999 ==> Fields(KeyOf(c)) == c
  {
    var k, y := KeyOf(c), YearText(c.year);
    assert k == y + ("-" + Pad2(c.month) + "-" + Pad2(c.day));
    assert |k| == |y| + 6;
    if c.year >= 0 {
      FourDigits(c.year);
    } else {
      assert k[0] == '-';
      assert |k| == 10 ==> !IsDigit(k[..4][0]);
    }
    if 1000 <= c.year <= 9999 {
      assert k[..4] == y && k[5..7] == Pad2(c.month) && k[8..] == Pad2(c.day);
      DecimalValue(c.year);
      ValueOfPad2(c.month);
      ValueOfPad2(c.day);
    }
  }

  /** A key can be parsed exactly when its year has four digits, and then gives the day back. */
  lemma KeyParses(t: int)
    ensures var d := DayOfTime(t);
            var key := DateKey(Some(t)).value;
            if 1000 <= CivilOf(d).year <= 9999
            then ParseDateOnly(key) == Ok(Some(d * MS_PER_DAY))
            else ParseDateOnly(key) == Thrown(InvalidDate)
  {
    var d := DayOfTime(t);
    CivilOfDay(d);
    var c := CivilOf(d);
    KeyShape(c);
    ValidExactly(KeyOf(c));
    if 1000 <= c.year <= 9999 {
      ParseIsDayOf(KeyOf(c));
    }
  }

  /** A valid text is the key of the day it denotes, exactly when its year does not start with a zero. */
  lemma ParsedKey(s: string)
    requires IsValidDateOnly(s)
    ensures DateKey(ParseDateOnly(s).value) == Some(s) <==> Fields(s).year >= 1000
  {
    ParseIsDayOf(s);
    var c := Fields(s);
    DayOfCivil(c);
    FieldsBound(s);
    FourDigits(c.year);
    if c.year >= 1000 {
      ValueOfFour(s[..4]);
      assert s[..4][0] != '0';
      ValueDecimal(s[..4]);
    }
  }

  /** The order in which the source compares two keys: by the first character that differs. */
  predicate TextLess(a: string, b: string) {
    if b == [] then false
    else if a == [] then true
    else a[0] < b[0] || (a[0] == b[0] && TextLess(a[1..], b[1..]))
  }

  lemma {:induction false} TextLessPrefix(p: string, a: string, b: string)
    ensures TextLess(p + a, p + b) == TextLess(a, b)
  {
    if p == [] {
      assert p + a == a && p + b == b;
    } else {
      TextLessPrefix(p[1..], a, b);
      assert (p + a)[1..] == p[1..] + a && (p + b)[1..] == p[1..] + b;
    }
  }

  /** Digit runs of equal length sort by value, and what follows decides between equal ones. */
  lemma {:induction false} TextLessDigits(a: string, b: string, x: string, y: string)
    requires |a| == |b| && AllDigits(a) && AllDigits(b)
    ensures TextLess(a + x, b + y) <==> Value(a) < Value(b) || (Value(a) == Value(b) && TextLess(x, y))
    ensures Value(a) == Value(b) ==> a == b
    decreases |a|
  {
    if a == [] {
      assert a + x == x && b + y == y;
    } else {
      var n := |a| - 1;
      TextLessDigits(a[..n], b[..n], [a[n]] + x, [b[n]] + y);
      assert a + x == a[..n] + ([a[n]] + x) && b + y == b[..n] + ([b[n]] + y);
      assert ([a[n]] + x)[1..] == x && ([b[n]] + y)[1..] == y;
      assert a == a[..n] + [a[n]] && b == b[..n] + [b[n]];
    }
  }

  /** Keys with four-digit years sort as text in the order of the days they stand for. */
  lemma KeyOrder(a: int, b: int)
    requires 1000 <= CivilOf(a).year <= 9999 && 1000 <= CivilOf(b).year <= 9999
    ensures IsCivil(CivilOf(a)) && IsCivil(CivilOf(b))
    ensures TextLess(KeyOf(CivilOf(a)), KeyOf(CivilOf(b))) <==> a < b
  {
    hide CivilOf, DayOf, DaysInMonth;
    CivilOfDay(a);
    CivilOfDay(b);
    var c, e := CivilOf(a), CivilOf(b);
    DayOrder(c, e);
    CivilKeyOrder(c, e);
  }

  lemma CivilKeyOrder(c: Civil, e: Civil)
    requires IsCivil(c) && IsCivil(e) && 1000 <= c.year <= 9999 && 1000 <= e.year <= 9999
    ensures TextLess(KeyOf(c), KeyOf(e)) <==> Before(c, e)
  {
    hide DaysInMonth, Value, Decimal, Pad2, TextLess;
    DaysInMonthBound(c);
    DaysInMonthBound(e);
    FourDigits(c.year);
    FourDigits(e.year);
    DecimalValue(c.year);
    DecimalValue(e.year);
    ValueOfPad2(c.month);
    ValueOfPad2(e.month);
    ValueOfPad2(c.day);
    ValueOfPad2(e.day);
    var cd, ed := "-" + Pad2(c.day), "-" + Pad2(e.day);
    var cm, em := "-" + (Pad2(c.month) + cd), "-" + (Pad2(e.month) + ed);
    assert KeyOf(c) == Decimal(c.year) + cm && KeyOf(e) == Decimal(e.year) + em;
    TextLessDigits(Decimal(c.year), Decimal(e.year), cm, em);
    TextLessPrefix("-", Pad2(c.month) + cd, Pad2(e.month) + ed);
    TextLessDigits(Pad2(c.month), Pad2(e.month), cd, ed);
    TextLessPrefix("-", Pad2(c.day), Pad2(e.day));
    TextLessDigits(Pad2(c.day), Pad2(e.day), [], []);
    assert Pad2(c.day) + [] == Pad2(c.day) && Pad2(e.day) + [] == Pad2(e.day);
    EmptyNotLess();
  }

  lemma EmptyNotLess()
    ensures !TextLess([], [])
  {
  }

  // ---------------------------------------------------------------- adding days

  /** `setUTCDate`: replaces the date of the month, keeping the month, the year and the time of day. */
  function SetUtcDate(t: int, date: int): Time {
    var c := CivilOf(DayOfTime(t));
    TimeClip(MakeDay(c.year, c.month - 1, date) * MS_PER_DAY + t % MS_PER_DAY)
  }

  /** The text the source builds from the fields of a Date that has just been moved. */
  function KeyText(value: Time): string {
    match DateKey(value)
    case Some(key) => key
    case None => "NaN-NaN-NaN"
  }

  function AddedDays(value: Time, days: int): Result<string, DateError> {
    var key := DateKey(value);
    if key.None? then Thrown(InvalidDate)
    else match ParseDateOnly(key.value)
      case Thrown(e) => Thrown(e)
      case Ok(None) => Thrown(InvalidDate)
      case Ok(Some(t)) => Ok(KeyText(SetUtcDate(t, CivilOf(DayOfTime(t)).day + days)))
  }

  /** `addAcademicDays`, which moves a Date object in place. */
  method AddAcademicDays(value: Time, days: int) returns (r: Result<string, DateError>)
    ensures r == AddedDays(value, days)
  {
    hide CivilOf, MakeDay, DateKey, ParseDateOnly, KeyText;
    var key := DateKey(value);
    if key.None? {
      return Thrown(InvalidDate);
    }
    var parsed := ParseDateOnly(key.value);
    if parsed.Thrown? {
      return Thrown(parsed.error);
    }
    var date := parsed.value;
    if date.None? {
      return Thrown(InvalidDate);
    }
    date := SetUtcDate(date.value, CivilOf(DayOfTime(date.value)).day + days);
    r := Ok(KeyText(date));
  }

  predicate HasFourDigitYear(d: int) {
    1000 <= CivilOf(d).year <= 9999
  }

  /** A midnight whose date is given by fields, moved by setting the date field. */
  lemma MovedMidnight(d: int, days: int)
    requires HasFourDigitYear(d) && HasFourDigitYear(d + days)
    ensures SetUtcDate(d * MS_PER_DAY, CivilOf(d).day + days) == Some((d + days) * MS_PER_DAY)
    ensures DayOfTime((d + days) * MS_PER_DAY) == d + days
    ensures DayOfTime(d * MS_PER_DAY) == d
  {
    hide CivilOf, DayFromYear, IsLeapYear, DaysInMonth, DaysBeforeMonth;
    CivilOfDay(d);
    CivilOfDay(d + days);
    YearsFit(CivilOf(d));
    YearsFit(CivilOf(d + days));
    assert (d * MS_PER_DAY) % MS_PER_DAY == 0;
  }

  /** Adding days succeeds exactly for four-digit years, and moves the day number by exactly that many. */
  lemma AddedDaysMoves(t: int, days: int)
    requires HasFourDigitYear(DayOfTime(t) + days)
    ensures AddedDays(Some(t), days) ==
            if HasFourDigitYear(DayOfTime(t))
            then Ok(KeyText(Some((DayOfTime(t) + days) * MS_PER_DAY)))
            else Thrown(InvalidDate)
  {
    hide CivilOf, SetUtcDate, ParseDateOnly, KeyOf, KeyText, DayOfTime;
    var d := DayOfTime(t);
    KeyParses(t);
    if HasFourDigitYear(d) {
      MovedMidnight(d, days);
    }
  }

  /** Parsing the sum gives the start plus exactly that many days, over month ends, leap years and centuries. */
  lemma AddedDaysParses(t: int, days: int)
    requires HasFourDigitYear(DayOfTime(t)) && HasFourDigitYear(DayOfTime(t) + days)
    ensures AddedDays(Some(t), days).Ok?
    ensures ParseDateOnly(AddedDays(Some(t), days).value) == Ok(Some((DayOfTime(t) + days) * MS_PER_DAY))
  {
    hide CivilOf, ParseDateOnly, AddedDays, KeyOf, SetUtcDate, DayOfTime;
    AddedDaysMoves(t, days);
    MovedMidnight(DayOfTime(t), days);
    KeyParses((DayOfTime(t) + days) * MS_PER_DAY);
  }

  /** Adding days is an action of the integers: zero is neutral, and two additions are one. */
  lemma AddedDaysAction(t: int, a: int, b: int)
    requires HasFourDigitYear(DayOfTime(t)) && HasFourDigitYear(DayOfTime(t) + a)
    requires HasFourDigitYear(DayOfTime(t) + a + b)
    ensures AddedDays(Some(t), 0) == Ok(KeyText(Some(t)))
    ensures AddedDays(Some(t), a).Ok?
    ensures var first := ParseDateOnly(AddedDays(Some(t), a).value);
            first.Ok? && AddedDays(first.value, b) == AddedDays(Some(t), a + b)
  {
    hide CivilOf, ParseDateOnly, AddedDays, KeyOf, SetUtcDate, DayOfTime;
    var d := DayOfTime(t);
    AddedDaysMoves(t, 0);
    MovedMidnight(d, 0);
    AddedDaysParses(t, a);
    AddedDaysMoves(t, a + b);
    MovedMidnight(d, a);
    AddedDaysMoves((d + a) * MS_PER_DAY, b);
  }

  // ---------------------------------------------------------------- day bounds

  datatype Bounds = Bounds(dateKey: string, start: int, end: int)

  /** `getBoundsForKey`: the next day is built with the date field one higher. */
  function BoundsForKey(key: string): Result<Bounds, DateError> {
    match ParseDateOnly(key)
    case Thrown(e) => Thrown(e)
    case Ok(None) => Thrown(InvalidDate)
    case Ok(Some(start)) =>
      var c := Fields(key);
      var next := DateUtc(c.year, c.month - 1, c.day + 1);
      if next.None? then Thrown(InvalidDate) else Ok(Bounds(key, start, next.value - 1))
  }

  /** The bounds of a key are its midnight and the last millisecond before the next one. */
  lemma BoundsAre(key: string)
    requires IsValidDateOnly(key)
    ensures var d := DayOf(Fields(key));
            BoundsForKey(key) == Ok(Bounds(key, d * MS_PER_DAY, (d + 1) * MS_PER_DAY - 1))
  {
    hide CivilOf, DaysInMonth, DayFromYear, IsLeapYear, ParseDateOnly, IsValidDateOnly, Value, DaysBeforeMonth;
    ParseIsDayOf(key);
    var c := Fields(key);
    YearsFit(c);
    assert FullYear(c.year) == c.year;
    assert MakeDay(c.year, c.month - 1, c.day + 1) == DayOf(c) + 1;
  }

  lemma SameDay(d: int, t: int)
    ensures d * MS_PER_DAY <= t <= (d + 1) * MS_PER_DAY - 1 <==> DayOfTime(t) == d
  {
  }

  /** The bounds of a key hold exactly the instants whose own key it is. */
  lemma BoundsHoldTheirDay(key: string, t: int)
    requires IsValidDateOnly(key) && Fields(key).year >= 1000
    ensures BoundsForKey(key).Ok?
    ensures var b := BoundsForKey(key).value;
            b.dateKey == key && (b.start <= t <= b.end <==> DateKey(Some(t)) == Some(key))
  {
    hide CivilOf, DaysInMonth, DayOf, ParseDateOnly, IsValidDateOnly, Value, BoundsForKey, KeyOf, DayOfTime;
    BoundsAre(key);
    ParseIsDayOf(key);
    ParsedKey(key);
    SameDay(DayOf(Fields(key)), t);
    if DateKey(Some(t)) == Some(key) {
      KeyParses(t);
    }
  }

  lemma KeyFields(t: int)
    requires HasFourDigitYear(DayOfTime(t))
    ensures IsValidDateOnly(KeyText(Some(t)))
    ensures Fields(KeyText(Some(t))) == CivilOf(DayOfTime(t)) && DayOf(CivilOf(DayOfTime(t))) == DayOfTime(t)
  {
    hide CivilOf, DaysInMonth, DayOf, Value, KeyOf, IsValidDateOnly;
    KeyParses(t);
    CivilOfDay(DayOfTime(t));
    KeyShape(CivilOf(DayOfTime(t)));
  }

  /** Consecutive days meet without a gap and without an overlap. */
  lemma BoundsTile(t: int)
    requires HasFourDigitYear(DayOfTime(t)) && HasFourDigitYear(DayOfTime(t) + 1)
    ensures var today, tomorrow := BoundsForKey(KeyText(Some(t))), AddedDays(Some(t), 1);
            && today.Ok? && tomorrow.Ok?
            && BoundsForKey(tomorrow.value).Ok?
            && today.value.end + 1 == BoundsForKey(tomorrow.value).value.start
  {
    hide CivilOf, DayOf, IsValidDateOnly, BoundsForKey, KeyText, AddedDays, Fields;
    KeyFields(t);
    BoundsAre(KeyText(Some(t)));
    var e := (DayOfTime(t) + 1) * MS_PER_DAY;
    AddedDaysMoves(t, 1);
    KeyFields(e);
    BoundsAre(KeyText(Some(e)));
  }

  // ---------------------------------------------------------------- ages

  /** The day of an instant, built again from its fields: the years 0 to 99 become 1900 to 1999. */
  function Today(now: Time): Time {
    if now.None? then None
    else
      var c := CivilOf(DayOfTime(now.value));
      DateUtc(c.year, c.month - 1, c.day)
  }

  /** Outside the years 0 to 99 that is the midnight of the instant's own day. */
  lemma TodayIsTheDay(t: int)
    requires TimeClip(t).Some? && !(0 <= CivilOf(DayOfTime(t)).year <= 99)
    ensures Today(Some(t)) == Some(DayOfTime(t) * MS_PER_DAY)
  {
    hide CivilOf, IsCivil;
    CivilOfDay(DayOfTime(t));
  }

  /**
   `isAtLeastAgeYears`: a year difference, less one while this year's birthday is still to come. An invalid clock makes
   the comparison false.
   */
  method IsAtLeastAgeYears(value: string, minAge: int, now: Time) returns (r: bool)
    ensures r <==>
            && IsValidDateOnly(value) && Today(now).Some?
            && var birth := Fields(value);
               !Before(CivilOf(DayOfTime(Today(now).value)), Civil(birth.year + minAge, birth.month, birth.day))
  {
    hide CivilOf, MakeDay, DaysInMonth, Value, IsValidDateOnly;
    if !IsValidDateOnly(value) {
      return false;
    }
    ParseIsDayOf(value);
    DayOfCivil(Fields(value));
    var birth := CivilOf(DayOfTime(ParseDateOnly(value).value.value));
    var nowUtc := Today(now);
    if nowUtc.None? {
      return false;
    }
    var today := CivilOf(DayOfTime(nowUtc.value));
    var age := today.year - birth.year;
    if today.month < birth.month || (today.month == birth.month && today.day < birth.day) {
      age := age - 1;
    }
    r := age >= minAge;
  }
}

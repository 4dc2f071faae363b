/**
  Days since 1970-01-01 as calendar dates, and dates as eight digits.  The text is that of
  the first ten characters of an ISO 8601 timestamp without their hyphens, for years of
  four digits.
 */
module Calendar {
  import opened Digits
  import DM = DecimalMath

  const EPOCH: nat := 1970
  /** The first day of year 10000. */
  const DAYS: nat := 2932897

  datatype Date = Date(year: nat, month: nat, day: nat)

  predicate Leap(year: nat) { year % 4 == 0 && (year % 100 != 0 || year % 400 == 0) }

  function YearLength(year: nat): nat { if Leap(year) then 366 else 365 }

  /** Days before the first of January. */
  function YearStart(year: nat): nat {
    if year <= EPOCH then 0 else YearStart(year - 1) + YearLength(year - 1)
  }

  function LeapYears(year: nat): int { year / 4 - year / 100 + year / 400 }

  lemma OneMoreYear(year: nat)
    requires year > 0
    ensures LeapYears(year) == LeapYears(year - 1) + if Leap(year) then 1 else 0
  {
    assert year / 4 == (year - 1) / 4 + if year % 4 == 0 then 1 else 0;
    assert year / 100 == (year - 1) / 100 + if year % 100 == 0 then 1 else 0;
    assert year / 400 == (year - 1) / 400 + if year % 400 == 0 then 1 else 0;
  }

  lemma {:induction false} YearStartClosedForm(year: nat)
    requires year >= EPOCH
    ensures YearStart(year) == 365 * (year - EPOCH) + LeapYears(year - 1) - LeapYears(EPOCH - 1)
  {
    if year > EPOCH {
      YearStartClosedForm(year - 1);
      OneMoreYear(year - 1);
      hide LeapYears, Leap;
    }
  }

  lemma LastFourDigitYear()
    ensures YearStart(10000) == DAYS
  {
    YearStartClosedForm(10000);
    assert LeapYears(9999) == 2424 && LeapYears(1969) == 477;
  }

  lemma {:induction false} YearStartGrows(a: nat, b: nat)
    requires EPOCH <= a <= b
    ensures YearStart(a) <= YearStart(b)
    decreases b
  {
    if a < b { YearStartGrows(a, b - 1); }
  }

  /** The year a day falls in, searched from `year` on. */
  function YearOf(n: nat, year: nat): (y: nat)
    requires year >= EPOCH && YearStart(year) <= n
    ensures y >= year && YearStart(y) <= n < YearStart(y + 1)
    decreases n - YearStart(year)
  {
    if n < YearStart(year + 1) then year else YearOf(n, year + 1)
  }

  /** Days of the year before a month, counting months from zero. */
  function MonthStart(month: nat, leap: bool): nat
    requires month <= 12
  {
    [0, 31, 59, 90, 120, 151, 181, 212, 243, 273, 304, 334, 365][month] + if leap && month >= 2 then 1 else 0
  }

  /** The month a day of the year falls in, searched from `month` on. */
  function MonthOf(d: nat, leap: bool, month: nat): (m: nat)
    requires month < 12 && MonthStart(month, leap) <= d < MonthStart(12, leap)
    ensures month <= m < 12 && MonthStart(m, leap) <= d < MonthStart(m + 1, leap)
    decreases 12 - month
  {
    if d < MonthStart(month + 1, leap) then month else MonthOf(d, leap, month + 1)
  }

  function DateOf(n: nat): Date {
    var year := YearOf(n, EPOCH);
    var d := n - YearStart(year);
    assert YearStart(year + 1) == YearStart(year) + YearLength(year);
    var month := MonthOf(d, Leap(year), 0);
    Date(year, month + 1, d - MonthStart(month, Leap(year)) + 1)
  }

  predicate Valid(date: Date) {
    && 1 <= date.month <= 12
    && 1 <= date.day <= MonthStart(date.month, Leap(date.year)) - MonthStart(date.month - 1, Leap(date.year))
  }

  function DayNumber(date: Date): int
    requires Valid(date)
  {
    YearStart(date.year) + MonthStart(date.month - 1, Leap(date.year)) + date.day - 1
  }

  lemma DateIsValid(n: nat)
    ensures Valid(DateOf(n)) && DayNumber(DateOf(n)) == n && DateOf(n).year >= EPOCH
    ensures n < DAYS ==> DateOf(n).year < 10000
  {
    LastFourDigitYear();
    var year := YearOf(n, EPOCH);
    if n < DAYS && year >= 10000 { YearStartGrows(10000, year); }
    hide YearStart, MonthStart, Leap;
  }

  // -------------------------------------------------- the Gregorian calendar

  function DaysIn(month: nat, year: nat): nat {
    if month == 2 then
      if year % 400 == 0 || (year % 4 == 0 && year % 100 != 0) then 29 else 28
    else if month == 4 || month == 6 || month == 9 || month == 11 then 30
    else 31
  }

  /** The day after a date. */
  function Tomorrow(date: Date): Date {
    if date.day < DaysIn(date.month, date.year) then date.(day := date.day + 1)
    else if date.month < 12 then Date(date.year, date.month + 1, 1)
    else Date(date.year + 1, 1, 1)
  }

  lemma MonthLengths(month: nat, year: nat)
    requires 1 <= month <= 12
    ensures MonthStart(month, Leap(year)) == MonthStart(month - 1, Leap(year)) + DaysIn(month, year)
    ensures MonthStart(0, Leap(year)) == 0 && MonthStart(12, Leap(year)) == YearLength(year)
  {
  }

  lemma TomorrowIsNext(date: Date)
    requires Valid(date) && date.year >= EPOCH
    ensures Valid(Tomorrow(date)) && Tomorrow(date).year >= EPOCH
    ensures DayNumber(Tomorrow(date)) == DayNumber(date) + 1
  {
    var next := Tomorrow(date);
    MonthLengths(date.month, date.year);
    MonthLengths(next.month, next.year);
    assert YearStart(date.year + 1) == YearStart(date.year) + YearLength(date.year);
    hide YearStart, MonthStart, Leap, YearLength;
  }

  lemma MonthsGrow(a: nat, b: nat, leap: bool)
    requires a <= b <= 12
    ensures MonthStart(a, leap) <= MonthStart(b, leap)
  {
  }

  lemma WithinYear(date: Date)
    requires Valid(date) && date.year >= EPOCH
    ensures YearStart(date.year) <= DayNumber(date) < YearStart(date.year + 1)
  {
    MonthLengths(date.month, date.year);
    MonthsGrow(date.month, 12, Leap(date.year));
    assert YearStart(date.year + 1) == YearStart(date.year) + YearLength(date.year);
    hide YearStart, MonthStart, Leap, YearLength;
  }

  lemma NumberedInOrder(a: Date, b: Date)
    requires Valid(a) && Valid(b) && a.year >= EPOCH
    requires a.year < b.year || (a.year == b.year && a.month < b.month)
    ensures DayNumber(a) < DayNumber(b)
  {
    if a.year < b.year {
      WithinYear(a);
      WithinYear(b);
      YearStartGrows(a.year + 1, b.year);
    } else {
      MonthsGrow(a.month, b.month - 1, Leap(a.year));
    }
    hide YearStart, MonthStart, Leap;
  }

  /** No two dates have the same number. */
  lemma NumberedOnce(a: Date, b: Date)
    requires Valid(a) && Valid(b) && a.year >= EPOCH && b.year >= EPOCH && DayNumber(a) == DayNumber(b)
    ensures a == b
  {
    hide YearStart, MonthStart, Leap;
    if a.year < b.year || (a.year == b.year && a.month < b.month) { NumberedInOrder(a, b); }
    if b.year < a.year || (a.year == b.year && b.month < a.month) { NumberedInOrder(b, a); }
  }

  lemma FirstDay(date: Date)
    requires date == Date(1970, 1, 1)
    ensures Valid(date) && DayNumber(date) == 0
  {
    hide Leap;
  }

  /** Day 0 is the first of January 1970, and each day's date is followed by the next one's. */
  lemma DaysAreCalendarDays(n: nat)
    ensures DateOf(0) == Date(1970, 1, 1)
    ensures DateOf(n + 1) == Tomorrow(DateOf(n))
  {
    DateIsValid(0);
    DateIsValid(n);
    DateIsValid(n + 1);
    hide DateOf, DayNumber, Valid, Tomorrow;
    TomorrowIsNext(DateOf(n));
    NumberedOnce(DateOf(n + 1), Tomorrow(DateOf(n)));
    FirstDay(Date(1970, 1, 1));
    NumberedOnce(DateOf(0), Date(1970, 1, 1));
  }

  // ----------------------------------------------------------- as digits

  /** Exactly `width` digits, leading zeros included. */
  function Fixed(n: nat, width: nat): (s: string)
    ensures |s| == width
    decreases width
  {
    if width == 0 then "" else Fixed(n / 10, width - 1) + [DigitOf(n % 10)]
  }

  lemma {:induction false} FixedOnce(m: nat, n: nat, width: nat)
    requires m < DM.Pow10(width) && n < DM.Pow10(width) && Fixed(m, width) == Fixed(n, width)
    ensures m == n
    decreases width
  {
    if width > 0 {
      var s, t := Fixed(m / 10, width - 1), Fixed(n / 10, width - 1);
      assert (s + [DigitOf(m % 10)])[..width - 1] == s && (t + [DigitOf(n % 10)])[..width - 1] == t;
      assert Fixed(m, width)[width - 1] == DigitOf(m % 10) && Fixed(n, width)[width - 1] == DigitOf(n % 10);
      assert m % 10 == n % 10;
      FixedOnce(m / 10, n / 10, width - 1);
    }
  }

  function DateText(date: Date): (s: string)
    ensures |s| == 8
  {
    Fixed(date.year, 4) + Fixed(date.month, 2) + Fixed(date.day, 2)
  }

  lemma SmallPowers()
    ensures DM.Pow10(2) == 100 && DM.Pow10(4) == 10000
  {
    assert DM.Pow10(2) == 10 * DM.Pow10(1) == 100 * DM.Pow10(0);
    assert DM.Pow10(4) == 10 * DM.Pow10(3) == 100 * DM.Pow10(2);
  }

  lemma DateTextOnce(a: Date, b: Date)
    requires a.year < 10000 && b.year < 10000 && a.month < 100 && b.month < 100 && a.day < 100 && b.day < 100
    requires DateText(a) == DateText(b)
    ensures a == b
  {
    hide Fixed, DM.Pow10;
    SmallPowers();
    var s, t := DateText(a), DateText(b);
    assert s[..4] == Fixed(a.year, 4) && s[4..6] == Fixed(a.month, 2) && s[6..] == Fixed(a.day, 2);
    assert t[..4] == Fixed(b.year, 4) && t[4..6] == Fixed(b.month, 2) && t[6..] == Fixed(b.day, 2);
    FixedOnce(a.year, b.year, 4);
    FixedOnce(a.month, b.month, 2);
    FixedOnce(a.day, b.day, 2);
  }

  /** Up to the year 9999 different days are written differently. */
  lemma DaysWrittenOnce(m: nat, n: nat)
    requires m < DAYS && n < DAYS
    ensures DateText(DateOf(m)) == DateText(DateOf(n)) <==> m == n
  {
    DateIsValid(m);
    DateIsValid(n);
    DaysOfMonth(DateOf(m));
    DaysOfMonth(DateOf(n));
    hide DateOf, DateText, DayNumber, Valid;
    if DateText(DateOf(m)) == DateText(DateOf(n)) { DateTextOnce(DateOf(m), DateOf(n)); }
  }

  lemma {:induction false} FixedValue(n: nat, width: nat)
    requires n < DM.Pow10(width)
    ensures AllDigits(Fixed(n, width)) && NatValue(Fixed(n, width)) == n
    decreases width
  {
    if width > 0 {
      var s := Fixed(n / 10, width - 1);
      FixedValue(n / 10, width - 1);
      assert (s + [DigitOf(n % 10)])[..width - 1] == s;
    } else {
      assert DM.Pow10(0) == 1;
    }
  }

  /** The eight digits are year, month and day. */
  lemma DateTextReads(date: Date)
    requires date.year < 10000 && date.month < 100 && date.day < 100
    ensures var s := DateText(date);
            && AllDigits(s[..4]) && AllDigits(s[4..6]) && AllDigits(s[6..])
            && NatValue(s[..4]) == date.year && NatValue(s[4..6]) == date.month && NatValue(s[6..]) == date.day
  {
    SmallPowers();
    FixedValue(date.year, 4);
    FixedValue(date.month, 2);
    FixedValue(date.day, 2);
    hide Fixed, NatValue, DM.Pow10;
    var s := DateText(date);
    assert s[..4] == Fixed(date.year, 4) && s[4..6] == Fixed(date.month, 2) && s[6..] == Fixed(date.day, 2);
  }

  lemma DaysOfMonth(date: Date)
    requires Valid(date)
    ensures date.month <= 12 && date.day <= 31
  {
  }
}

/** Calendar dates written YYYY-MM-DD (the full-date of section 5.6 of RFC 3339), the arithmetic done
    on them by way of instants, and the dates that can be booked. The zone is a fixed +09:00. */
module CivilDates {
  import Text

  type Millis = int

  const DAY: Millis := 24 * 60 * 60_000
  const ZONE: Millis := 9 * 60 * 60_000

  datatype Date = Date(year: int, month: int, day: int)

  // ---------------------------------------------------------------- the calendar, one day after the other

  predicate Leap(year: int) { year % 4 == 0 && (year % 100 != 0 || year % 400 == 0) }

  function MonthLength(year: int, month: int): int {
    if month == 2 then (if Leap(year) then 29 else 28)
    else if month == 4 || month == 6 || month == 9 || month == 11 then 30 else 31
  }

  predicate Valid(d: Date) {
    d.year >= 1 && 1 <= d.month <= 12 && 1 <= d.day <= MonthLength(d.year, d.month)
  }

  function NextDay(d: Date): (r: Date)
    requires Valid(d)
    ensures Valid(r)
  {
    if d.day < MonthLength(d.year, d.month) then Date(d.year, d.month, d.day + 1)
    else if d.month < 12 then Date(d.year, d.month + 1, 1)
    else Date(d.year + 1, 1, 1)
  }

  /** The date n days after 0001-01-01. */
  function DateOf(n: nat): (d: Date)
    ensures Valid(d)
  {
    if n == 0 then Date(1, 1, 1) else NextDay(DateOf(n - 1))
  }

  predicate Before(a: Date, b: Date) {
    a.year < b.year || (a.year == b.year && (a.month < b.month || (a.month == b.month && a.day < b.day)))
  }

  // ---------------------------------------------------------------- day numbers in closed form

  function DaysBeforeYear(year: int): int {
    365 * (year - 1) + (year - 1) / 4 - (year - 1) / 100 + (year - 1) / 400
  }

  function DaysBeforeMonth(year: int, month: int): int {
    if month <= 1 then 0 else DaysBeforeMonth(year, month - 1) + MonthLength(year, month - 1)
  }

  function DayNumber(d: Date): int { DaysBeforeYear(d.year) + DaysBeforeMonth(d.year, d.month) + d.day - 1 }

  lemma YearLength(year: int)
    ensures DaysBeforeYear(year + 1) == DaysBeforeYear(year) + (if Leap(year) then 366 else 365)
  {
    FourYears(year);
    HundredYears(year);
    FourHundredYears(year);
    assert year % 400 == 0 ==> year % 100 == 0;
    assert year % 100 == 0 ==> year % 4 == 0;
  }

  lemma FourYears(year: int)
    ensures year / 4 - (year - 1) / 4 == if year % 4 == 0 then 1 else 0
  {
  }

  lemma HundredYears(year: int)
    ensures year / 100 - (year - 1) / 100 == if year % 100 == 0 then 1 else 0
  {
  }

  lemma FourHundredYears(year: int)
    ensures year / 400 - (year - 1) / 400 == if year % 400 == 0 then 1 else 0
  {
  }

  lemma MonthsOfAYear(year: int)
    ensures DaysBeforeMonth(year, 13) == if Leap(year) then 366 else 365
  {
    assert DaysBeforeMonth(year, 2) == 31;
    assert DaysBeforeMonth(year, 3) == 31 + MonthLength(year, 2);
    assert DaysBeforeMonth(year, 5) == DaysBeforeMonth(year, 3) + 61;
    assert DaysBeforeMonth(year, 7) == DaysBeforeMonth(year, 5) + 61;
    assert DaysBeforeMonth(year, 9) == DaysBeforeMonth(year, 7) + 62;
    assert DaysBeforeMonth(year, 11) == DaysBeforeMonth(year, 9) + 61;
    assert DaysBeforeMonth(year, 13) == DaysBeforeMonth(year, 11) + 61;
  }

  /** The days of a year before each of its months. */
  lemma {:induction false} MonthsBegin(year: int, month: int)
    requires 1 <= month <= 12
    ensures DaysBeforeMonth(year, month) ==
            [0, 31, 59, 90, 120, 151, 181, 212, 243, 273, 304, 334][month - 1]
            + if month > 2 && year % 4 == 0 && (year % 100 != 0 || year % 400 == 0) then 1 else 0
  {
    if month > 1 { MonthsBegin(year, month - 1); }
  }

  /** The next day has the next number. */
  lemma NextDayCounts(d: Date)
    requires Valid(d)
    ensures DayNumber(NextDay(d)) == DayNumber(d) + 1
  {
    if d.day == MonthLength(d.year, d.month) && d.month == 12 {
      MonthsOfAYear(d.year);
      assert DaysBeforeMonth(d.year, 13) == DaysBeforeMonth(d.year, 12) + 31;
      YearLength(d.year);
    }
  }

  /** Day numbers count the days one by one. */
  lemma {:induction false} DayNumberCounts(n: nat)
    ensures DayNumber(DateOf(n)) == n
  {
    if n > 0 {
      DayNumberCounts(n - 1);
      NextDayCounts(DateOf(n - 1));
    }
  }

  lemma {:induction false} LaterMonth(year: int, a: int, b: int)
    requires 1 <= a < b <= 13
    ensures DaysBeforeMonth(year, a) + MonthLength(year, a) <= DaysBeforeMonth(year, b)
  {
    if a < b - 1 { LaterMonth(year, a, b - 1); }
  }

  lemma {:induction false} LaterYear(a: int, b: int)
    requires 1 <= a < b
    ensures DaysBeforeYear(a) + (if Leap(a) then 366 else 365) <= DaysBeforeYear(b)
    decreases b
  {
    YearLength(b - 1);
    if a < b - 1 { LaterYear(a, b - 1); }
  }

  lemma BeforeCounts(a: Date, b: Date)
    requires Valid(a) && Valid(b) && Before(a, b)
    ensures DayNumber(a) < DayNumber(b)
  {
    if a.year < b.year {
      LaterMonth(a.year, a.month, 13);
      MonthsOfAYear(a.year);
      LaterYear(a.year, b.year);
      if b.month > 1 { LaterMonth(b.year, 1, b.month); }
    } else if a.month < b.month {
      LaterMonth(a.year, a.month, b.month);
    }
  }

  /** Calendar order is the order of the day numbers, and dates and numbers determine each other. */
  lemma DatesAreNumbers(a: Date, b: Date)
    requires Valid(a) && Valid(b)
    ensures Before(a, b) <==> DayNumber(a) < DayNumber(b)
    ensures a == b <==> DayNumber(a) == DayNumber(b)
    ensures DayNumber(a) >= 0 && DateOf(DayNumber(a)) == a
  {
    OneNumber(a, b);
    FirstDay(a);
    DayNumberCounts(DayNumber(a));
    OneNumber(a, DateOf(DayNumber(a)));
  }

  lemma OneNumber(a: Date, b: Date)
    requires Valid(a) && Valid(b)
    ensures Before(a, b) <==> DayNumber(a) < DayNumber(b)
    ensures a == b <==> DayNumber(a) == DayNumber(b)
  {
    if Before(a, b) {
      BeforeCounts(a, b);
    } else if a != b {
      BeforeCounts(b, a);
    }
  }

  lemma FirstDay(a: Date)
    requires Valid(a)
    ensures DayNumber(a) >= 0
  {
    if a != Date(1, 1, 1) { BeforeCounts(Date(1, 1, 1), a); }
  }

  // ---------------------------------------------------------------- written dates

  function Pow10(w: nat): nat { if w == 0 then 1 else 10 * Pow10(w - 1) }

  function Digits(n: nat, w: nat): (s: string)
    ensures |s| == w
  {
    if w == 0 then "" else Digits(n / 10, w - 1) + [('0' as int + n % 10) as char]
  }

  function Number(s: string): int {
    if s == "" then 0 else 10 * Number(s[..|s| - 1]) + s[|s| - 1] as int - '0' as int
  }

  /** Dates of four-digit years. */
  predicate Writable(d: Date) { Valid(d) && 1000 <= d.year <= 9999 }

  /** Whatever can be written with four, two and two digits, whether or not it is a date. */
  predicate Fits(d: Date) { 0 <= d.year <= 9999 && 0 <= d.month <= 99 && 0 <= d.day <= 99 }

  function Written(d: Date): (s: string)
    requires Fits(d)
    ensures |s| == 10
  {
    Digits(d.year, 4) + "-" + Digits(d.month, 2) + "-" + Digits(d.day, 2)
  }

  function ReadDate(s: string): Date
    requires |s| == 10
  {
    Date(Number(s[..4]), Number(s[5..7]), Number(s[8..]))
  }

  lemma {:induction false} NumberOfDigits(n: nat, w: nat)
    requires n < Pow10(w)
    ensures Number(Digits(n, w)) == n
  {
    if w > 0 {
      NumberOfDigits(n / 10, w - 1);
      assert Digits(n, w)[..w - 1] == Digits(n / 10, w - 1);
    }
  }

  predicate AllDigits(s: string) { forall i :: 0 <= i < |s| ==> '0' <= s[i] <= '9' }

  /** The pattern that the routes ask of a date. */
  predicate Shaped(s: string) {
    |s| == 10 && s[4] == '-' && s[7] == '-' && AllDigits(s[..4]) && AllDigits(s[5..7]) && AllDigits(s[8..])
  }

  lemma {:induction false} DigitsOfNumber(s: string, w: nat)
    requires AllDigits(s) && |s| == w
    ensures 0 <= Number(s) < Pow10(w) && Digits(Number(s), w) == s
    decreases w
  {
    if w > 0 {
      var front, last := s[..|s| - 1], s[|s| - 1] as int - '0' as int;
      DigitsOfNumber(front, w - 1);
      assert Number(s) / 10 == Number(front) && Number(s) % 10 == last;
      assert s == front + [s[|s| - 1]];
    }
  }

  /** Texts of that shape are just the written ones. */
  lemma ShapedIsWritten(s: string)
    requires Shaped(s)
    ensures Fits(ReadDate(s)) && s == Written(ReadDate(s))
  {
    assert Pow10(2) == 100 && Pow10(4) == 10000;
    DigitsOfNumber(s[..4], 4);
    DigitsOfNumber(s[5..7], 2);
    DigitsOfNumber(s[8..], 2);
    ThreeParts(s);
  }

  lemma ThreeParts(s: string)
    requires |s| == 10 && s[4] == '-' && s[7] == '-'
    ensures s == s[..4] + "-" + s[5..7] + "-" + s[8..]
  {
  }

  lemma {:induction false} DigitsAreDigits(n: nat, w: nat)
    ensures AllDigits(Digits(n, w))
  {
    if w > 0 { DigitsAreDigits(n / 10, w - 1); }
  }

  lemma WrittenIsShaped(d: Date)
    requires Fits(d)
    ensures Shaped(Written(d))
  {
    var s := Written(d);
    DigitsAreDigits(d.year, 4);
    DigitsAreDigits(d.month, 2);
    DigitsAreDigits(d.day, 2);
    assert s[..4] == Digits(d.year, 4) && s[5..7] == Digits(d.month, 2) && s[8..] == Digits(d.day, 2);
  }

  lemma ReadWritten(d: Date)
    requires Fits(d)
    ensures ReadDate(Written(d)) == d
  {
    var s := Written(d);
    assert Pow10(2) == 100 && Pow10(4) == 10000;
    NumberOfDigits(d.year, 4);
    NumberOfDigits(d.month, 2);
    NumberOfDigits(d.day, 2);
    assert s[..4] == Digits(d.year, 4) && s[5..7] == Digits(d.month, 2) && s[8..] == Digits(d.day, 2);
  }

  lemma {:induction false} LessOfConcat(a: string, x: string, b: string, y: string)
    requires |a| == |b|
    ensures Text.Less(a + x, b + y) <==> Text.Less(a, b) || (a == b && Text.Less(x, y))
  {
    if a == "" {
      assert a + x == x && b + y == y;
    } else {
      assert (a + x)[1..] == a[1..] + x && (b + y)[1..] == b[1..] + y;
      LessOfConcat(a[1..], x, b[1..], y);
      assert a == [a[0]] + a[1..] && b == [b[0]] + b[1..];
      if a == b { Text.LessIrreflexive(a); }
    }
  }

  lemma {:induction false} DigitsInOrder(m: nat, n: nat, w: nat)
    requires m < Pow10(w) && n < Pow10(w)
    ensures Text.Less(Digits(m, w), Digits(n, w)) <==> m < n
    ensures Digits(m, w) == Digits(n, w) <==> m == n
  {
    NumberOfDigits(m, w);
    NumberOfDigits(n, w);
    if w > 0 {
      DigitsInOrder(m / 10, n / 10, w - 1);
      LessOfConcat(Digits(m / 10, w - 1), [('0' as int + m % 10) as char], Digits(n / 10, w - 1), [('0' as int + n % 10) as char]);
    }
  }

  /** Written dates compare as strings the way the dates do in the calendar; so does what has only the
      shape of a date, first by its year, then by its month, then by its day. */
  lemma WrittenOrderIsCalendarOrder(a: Date, b: Date)
    requires Fits(a) && Fits(b)
    ensures Text.Less(Written(a), Written(b)) <==> Before(a, b)
    ensures Written(a) == Written(b) <==> a == b
  {
    assert Pow10(2) == 100 && Pow10(4) == 10000;
    DigitsInOrder(a.year, b.year, 4);
    DigitsInOrder(a.month, b.month, 2);
    DigitsInOrder(a.day, b.day, 2);
    ReadWritten(a);
    ReadWritten(b);
    DashFirst(Digits(a.year, 4), Digits(a.month, 2) + "-" + Digits(a.day, 2), Digits(b.year, 4), Digits(b.month, 2) + "-" + Digits(b.day, 2));
    DashFirst(Digits(a.month, 2), Digits(a.day, 2), Digits(b.month, 2), Digits(b.day, 2));
    assert Written(a) == Digits(a.year, 4) + "-" + (Digits(a.month, 2) + "-" + Digits(a.day, 2));
    assert Written(b) == Digits(b.year, 4) + "-" + (Digits(b.month, 2) + "-" + Digits(b.day, 2));
  }

  lemma DashFirst(a: string, x: string, b: string, y: string)
    requires |a| == |b|
    ensures Text.Less(a + "-" + x, b + "-" + y) <==> Text.Less(a, b) || (a == b && Text.Less(x, y))
  {
    assert a + "-" + x == a + ("-" + x) && b + "-" + y == b + ("-" + y);
    LessOfConcat(a, "-" + x, b, "-" + y);
    LessOfConcat("-", x, "-", y);
    Text.LessIrreflexive("-");
  }

  // ---------------------------------------------------------------- instants

  /** The day number of 1970-01-01, where instants are counted from. */
  const EPOCH: int := 719162

  /** The first and the last day of the four-digit years. */
  const FIRST_DAY: int := 364877
  const LAST_DAY: int := 3652058

  lemma Limits()
    ensures DayNumber(Date(1000, 1, 1)) == FIRST_DAY && DayNumber(Date(9999, 12, 31)) == LAST_DAY
    ensures DayNumber(Date(1970, 1, 1)) == EPOCH
  {
    assert DaysBeforeMonth(9999, 12) == 365 - 31 by {
      MonthsOfAYear(9999);
      assert DaysBeforeMonth(9999, 13) == DaysBeforeMonth(9999, 12) + 31;
    }
  }

  lemma WritableDays(n: nat)
    ensures Writable(DateOf(n)) <==> FIRST_DAY <= n <= LAST_DAY
  {
    Limits();
    DayNumberCounts(n);
    OneNumber(DateOf(n), Date(1000, 1, 1));
    OneNumber(DateOf(n), Date(9999, 12, 31));
  }

  predicate WellFormed(s: string) {
    |s| == 10 && Writable(ReadDate(s)) && s == Written(ReadDate(s))
  }

  /** The number of a written day. */
  function DayOf(s: string): int
    requires WellFormed(s)
  {
    DayNumber(ReadDate(s))
  }

  lemma WrittenIsWellFormed(d: Date)
    requires Writable(d)
    ensures WellFormed(Written(d)) && DayOf(Written(d)) == DayNumber(d)
    ensures FIRST_DAY <= DayNumber(d) <= LAST_DAY
  {
    ReadWritten(d);
    Limits();
    OneNumber(d, Date(1000, 1, 1));
    OneNumber(d, Date(9999, 12, 31));
  }

  lemma InRange(s: string)
    requires WellFormed(s)
    ensures FIRST_DAY <= DayOf(s) <= LAST_DAY
  {
    WrittenIsWellFormed(ReadDate(s));
  }

  predicate AtMost(a: string, b: string) { a == b || Text.Less(a, b) }

  /** Well-formed strings compare as the days they name, and name different days when they differ. */
  lemma StringsInOrder(a: string, b: string)
    requires WellFormed(a) && WellFormed(b)
    ensures AtMost(a, b) <==> DayOf(a) <= DayOf(b)
    ensures a == b <==> DayOf(a) == DayOf(b)
  {
    WrittenOrderIsCalendarOrder(ReadDate(a), ReadDate(b));
    OneNumber(ReadDate(a), ReadDate(b));
  }

  /** A day, written. */
  function WrittenDay(n: int): (s: string)
    requires FIRST_DAY <= n <= LAST_DAY
    ensures WellFormed(s) && DayOf(s) == n
  {
    WritableDays(n);
    DayNumberCounts(n);
    WrittenIsWellFormed(DateOf(n));
    Written(DateOf(n))
  }

  /** The number of the day that a clock in the zone shows. */
  function KstDay(t: Millis): int { (t + ZONE) / DAY + EPOCH }

  /** The instants of a day in the zone are those of its 24 hours, nine hours before the ones in UTC. */
  lemma KstDayIs(t: Millis, day: int)
    requires 0 <= t + 32_400_000 - (day - DayNumber(Date(1970, 1, 1))) * 86_400_000 < 86_400_000
    ensures KstDay(t) == day
  {
    Limits();
    var sinceMidnight := t + ZONE - (day - EPOCH) * DAY;
    assert t + ZONE == (day - EPOCH) * DAY + sinceMidnight;
  }

  function ToKstDate(t: Millis): (s: string)
    requires FIRST_DAY <= KstDay(t) <= LAST_DAY
    ensures WellFormed(s) && DayOf(s) == KstDay(t)
  {
    WrittenDay(KstDay(t))
  }

  /** The instant at which a clock in the zone shows the given hour of a day. */
  function InstantOf(n: int, hour: int): Millis { (n - EPOCH) * DAY + hour * 60 * 60_000 - ZONE }

  /** The day number of a year, a month and a day of the month that may lie outside the month. */
  function MakeDay(year: int, month: int, dayOfMonth: int): int {
    DaysBeforeYear(year) + DaysBeforeMonth(year, month) + dayOfMonth - 1
  }

  /** The same instant, with its day of the month in UTC moved. */
  function WithUtcDateMoved(t: Millis, days: int): Millis
    requires t / DAY + EPOCH >= 0
  {
    var utc := DateOf(t / DAY + EPOCH);
    (MakeDay(utc.year, utc.month, utc.day + days) - EPOCH) * DAY + t % DAY
  }

  lemma MoveUtcDate(t: Millis, days: int)
    requires t / DAY + EPOCH >= 0
    ensures WithUtcDateMoved(t, days) == (t / DAY + days) * DAY + t % DAY
  {
    DayNumberCounts(t / DAY + EPOCH);
  }

  /** Midnight in the zone is in the day before in UTC, and stays at that time of day. */
  lemma MidnightInUtc(n: int, days: int)
    ensures var t := InstantOf(n, 0);
            && t / DAY == n - 1 - EPOCH && t % DAY == DAY - ZONE
            && KstDay((t / DAY + days) * DAY + t % DAY) == n + days
  {
    assert InstantOf(n, 0) == (n - 1 - EPOCH) * DAY + (DAY - ZONE);
  }

  lemma MovedMidnight(n: int, days: int)
    requires n >= 1
    ensures InstantOf(n, 0) / DAY + EPOCH >= 0
    ensures KstDay(WithUtcDateMoved(InstantOf(n, 0), days)) == n + days
  {
    MidnightInUtc(n, days);
    MoveUtcDate(InstantOf(n, 0), days);
  }

  /** Adding days by way of an instant, whose date in UTC is the day before, moves the date by exactly
      that many calendar days. */
  method AddDays(s: string, days: int) returns (r: string)
    requires WellFormed(s) && FIRST_DAY <= DayOf(s) + days <= LAST_DAY
    ensures WellFormed(r) && DayOf(r) == DayOf(s) + days
  {
    InRange(s);
    MovedMidnight(DayOf(s), days);
    var instant := InstantOf(DayOf(s), 0);
    instant := WithUtcDateMoved(instant, days);
    r := ToKstDate(instant);
  }

  // ---------------------------------------------------------------- weekdays and bookable dates

  const FRIDAY := 5

  /** 0001-01-01 was a Monday, and Sunday is 0. */
  function Weekday(n: int): int { (n + 1) % 7 }

  /** The weekday as the program computes it, from the instant of noon; 1970-01-01 was a Thursday. */
  function KstDayOfWeek(n: int): int { (InstantOf(n, 12) / DAY + 4) % 7 }

  lemma WeekdayFromNoon(n: int)
    ensures KstDayOfWeek(n) == Weekday(n)
  {
    assert InstantOf(n, 12) == (n - EPOCH) * DAY + 3 * 60 * 60_000;
    assert InstantOf(n, 12) / DAY == n - EPOCH;
    assert n - EPOCH + 4 == n + 1 - 7 * 102737;
  }

  datatype Policy = Available(maxDate: string, minDate: string, today: string) | Unavailable(today: string)

  /** An instant far enough from the ends of the four-digit years. */
  predicate Ordinary(now: Millis) { FIRST_DAY <= KstDay(now) <= LAST_DAY - 7 }

  function AdvanceReservationPolicy(now: Millis): Policy
    requires Ordinary(now)
  {
    var today := ToKstDate(now);
    var dayOfWeek := KstDayOfWeek(DayOf(today));
    if dayOfWeek < 1 || dayOfWeek >= 5 then Unavailable(today)
    else Available(WrittenDay(DayOf(today) + (5 - dayOfWeek)), WrittenDay(DayOf(today) + 1), today)
  }

  predicate IsSelectableAdvanceDate(date: string, policy: Policy) {
    policy.Available? && AtMost(policy.minDate, date) && AtMost(date, policy.maxDate)
  }

  predicate IsReservableUnder(date: string, policy: Policy) {
    date == policy.today || IsSelectableAdvanceDate(date, policy)
  }

  predicate IsReservableDate(date: string, now: Millis)
    requires Ordinary(now)
  {
    IsReservableUnder(date, AdvanceReservationPolicy(now))
  }

  /** The last day that can be booked when days after today can be. */
  function LastDay(today: int): int { today + FRIDAY - Weekday(today) }

  predicate InAdvance(today: int) { 1 <= Weekday(today) < FRIDAY }

  /** The text is the date with that number, written. */
  predicate Names(s: string, n: nat) { Shaped(s) && ReadDate(s) == DateOf(n) }

  predicate Fixes(policy: Policy, today: nat) {
    && Names(policy.today, today)
    && (policy.Available? <==> InAdvance(today))
    && (policy.Available? ==> Names(policy.minDate, today + 1) && Names(policy.maxDate, LastDay(today)))
  }

  lemma DayOfNames(s: string, n: nat)
    requires WellFormed(s) && DayOf(s) == n
    ensures Names(s, n)
  {
    WrittenIsShaped(ReadDate(s));
    NumbersOf(ReadDate(s), n);
  }

  lemma NumbersOf(d: Date, n: nat)
    requires Valid(d)
    ensures d == DateOf(n) <==> DayNumber(d) == n
    ensures Before(d, DateOf(n)) <==> DayNumber(d) < n
    ensures Before(DateOf(n), d) <==> n < DayNumber(d)
  {
    DayNumberCounts(n);
    OneNumber(d, DateOf(n));
    OneNumber(DateOf(n), d);
  }

  lemma ShapedInOrder(a: string, b: string)
    requires Shaped(a) && Shaped(b)
    ensures AtMost(a, b) <==> !Before(ReadDate(b), ReadDate(a))
    ensures a == b <==> ReadDate(a) == ReadDate(b)
  {
    ShapedIsWritten(a);
    ShapedIsWritten(b);
    WrittenOrderIsCalendarOrder(ReadDate(a), ReadDate(b));
  }

  predicate NamesDay(s: string, n: nat) { WellFormed(s) && DayOf(s) == n }

  lemma FixedBy(policy: Policy, today: nat)
    requires NamesDay(policy.today, today) && (policy.Available? <==> InAdvance(today))
    requires policy.Available? ==> NamesDay(policy.minDate, today + 1) && NamesDay(policy.maxDate, LastDay(today))
    ensures Fixes(policy, today)
  {
    DayOfNames(policy.today, today);
    if policy.Available? {
      DayOfNames(policy.minDate, today + 1);
      DayOfNames(policy.maxDate, LastDay(today));
    }
  }

  lemma PolicyOf(now: Millis)
    requires Ordinary(now)
    ensures Fixes(AdvanceReservationPolicy(now), KstDay(now))
  {
    WeekdayFromNoon(KstDay(now));
    FixedBy(AdvanceReservationPolicy(now), KstDay(now));
  }

  lemma OnePolicy(p: Policy, q: Policy, today: nat)
    requires Fixes(p, today) && Fixes(q, today)
    ensures p == q
  {
    ShapedInOrder(p.today, q.today);
    if p.Available? {
      ShapedInOrder(p.minDate, q.minDate);
      ShapedInOrder(p.maxDate, q.maxDate);
    }
  }

  /** The policy as the program computes it, by adding days to today. */
  method GetAdvanceReservationPolicy(now: Millis) returns (policy: Policy)
    requires Ordinary(now)
    ensures policy == AdvanceReservationPolicy(now)
  {
    WeekdayFromNoon(KstDay(now));
    var today := ToKstDate(now);
    var dayOfWeek := KstDayOfWeek(DayOf(today));
    if dayOfWeek < 1 || dayOfWeek >= 5 {
      policy := Unavailable(today);
    } else {
      var maxDate := AddDays(today, 5 - dayOfWeek);
      var minDate := AddDays(today, 1);
      policy := Available(maxDate, minDate, today);
    }
    FixedBy(policy, KstDay(now));
    PolicyOf(now);
    OnePolicy(policy, AdvanceReservationPolicy(now), KstDay(now));
  }

  /** Today, or between tomorrow and the Friday of the same week, by year, month and day. */
  predicate InReach(d: Date, today: nat) {
    d == DateOf(today) || (InAdvance(today) && !Before(d, DateOf(today + 1)) && !Before(DateOf(LastDay(today)), d))
  }

  lemma ReservableUnder(date: string, policy: Policy, today: nat)
    requires Shaped(date) && Fixes(policy, today)
    ensures IsReservableUnder(date, policy) <==> InReach(ReadDate(date), today)
  {
    ShapedInOrder(date, policy.today);
    if policy.Available? {
      ShapedInOrder(policy.minDate, date);
      ShapedInOrder(date, policy.maxDate);
    }
  }

  /** Of the texts that the routes let through, exactly those can be booked that name today or, from
      Monday to Thursday, come between tomorrow and the Friday of the same week. */
  lemma BookableTexts(date: string, now: Millis)
    requires Shaped(date) && Ordinary(now)
    ensures IsReservableDate(date, now) <==> InReach(ReadDate(date), KstDay(now))
  {
    PolicyOf(now);
    ReservableUnder(date, AdvanceReservationPolicy(now), KstDay(now));
  }

  lemma LastDayIsFriday(today: int)
    requires InAdvance(today)
    ensures Weekday(LastDay(today)) == FRIDAY
  {
    assert LastDay(today) + 1 == 7 * ((today + 1) / 7) + FRIDAY;
  }

  lemma DatesInReach(d: Date, today: nat)
    requires Valid(d)
    ensures InReach(d, today) <==> DayNumber(d) == today || (InAdvance(today) && today < DayNumber(d) <= LastDay(today))
  {
    NumbersOf(d, today);
    if InAdvance(today) {
      NumbersOf(d, today + 1);
      NumbersOf(d, LastDay(today));
    }
  }

  lemma DatesAreShaped(s: string)
    requires WellFormed(s)
    ensures Shaped(s) && Writable(ReadDate(s))
  {
    WrittenIsShaped(ReadDate(s));
  }

  /** So a date can be booked exactly when it is today or, from Monday to Thursday, one of the later
      days up to the Friday of the same week. */
  lemma BookableDates(date: string, now: Millis)
    requires WellFormed(date) && Ordinary(now)
    ensures var today, day := KstDay(now), DayOf(date);
            IsReservableDate(date, now) <==> day == today || (InAdvance(today) && today < day <= LastDay(today))
    ensures InAdvance(KstDay(now)) ==> Weekday(LastDay(KstDay(now))) == FRIDAY
  {
    DatesAreShaped(date);
    BookableTexts(date, now);
    DatesInReach(ReadDate(date), KstDay(now));
    if InAdvance(KstDay(now)) { LastDayIsFriday(KstDay(now)); }
  }

  // ---------------------------------------------------------------- texts that name no day

  ghost predicate OnlyDatesAreBookable(now: Millis)
    requires Ordinary(now)
  {
    forall s: string :: Shaped(s) && IsReservableDate(s, now) ==> WellFormed(s)
  }

  predicate SameMonth(a: Date, b: Date) { a.year == b.year && a.month == b.month }

  lemma JuneAndJuly()
    ensures DayNumber(Date(2026, 6, 29)) == 739795 && DayNumber(Date(2026, 6, 30)) == 739796
    ensures DayNumber(Date(2026, 7, 3)) == 739799
  {
  }

  lemma TheThirtyFirstIsInReach(today: nat)
    requires today == DayNumber(Date(2026, 6, 29))
    ensures InReach(Date(2026, 6, 31), today)
  {
    JuneAndJuly();
    NumbersOf(Date(2026, 6, 30), today + 1);
    NumbersOf(Date(2026, 7, 3), LastDay(today));
  }

  lemma TheThirtyFirstIsRead()
    ensures Shaped("2026-06-31") && ReadDate("2026-06-31") == Date(2026, 6, 31)
  {
    var d := Date(2026, 6, 31);
    TheThirtyFirstIsWritten(d);
    WrittenIsShaped(d);
    ReadWritten(d);
  }

  lemma TheThirtyFirstIsWritten(d: Date)
    requires d == Date(2026, 6, 31)
    ensures Written(d) == "2026-06-31"
  {
    assert Digits(2026, 4) == "2026" && Digits(6, 2) == "06" && Digits(31, 2) == "31";
  }

  /** On Monday, 29 June 2026, the 31st of June can be booked. */
  lemma TheThirtyFirstOfJune(now: Millis)
    requires KstDay(now) == DayNumber(Date(2026, 6, 29))
    ensures Ordinary(now) && Shaped("2026-06-31") && !WellFormed("2026-06-31") && IsReservableDate("2026-06-31", now)
  {
    JuneAndJuly();
    TheThirtyFirstIsRead();
    TheThirtyFirstIsInReach(KstDay(now));
    BookableTexts("2026-06-31", now);
    if WellFormed("2026-06-31") { DatesAreShaped("2026-06-31"); }
  }

  lemma TextOf(d: Date) returns (s: string)
    requires Fits(d)
    ensures Shaped(s) && ReadDate(s) == d
  {
    s := Written(d);
    WrittenIsShaped(d);
    ReadWritten(d);
  }

  /** Day zero of the last day's month comes after every day of the month before. */
  lemma DayZeroIsInReach(today: nat) returns (zero: Date)
    requires InAdvance(today) && !SameMonth(DateOf(today + 1), DateOf(LastDay(today))) && LastDay(today) <= LAST_DAY
    ensures Fits(zero) && !Valid(zero) && InReach(zero, today)
  {
    var first, last := DateOf(today + 1), DateOf(LastDay(today));
    DayNumberCounts(LastDay(today));
    NumbersOf(last, today + 1);
    NumbersOf(last, LAST_DAY);
    Limits();
    NumbersOf(Date(9999, 12, 31), LAST_DAY);
    zero := Date(last.year, last.month, 0);
  }

  lemma OnlyDatesAreInReach(d: Date, today: nat)
    requires InReach(d, today) && FIRST_DAY <= today <= LAST_DAY - 7
    requires InAdvance(today) ==> SameMonth(DateOf(today + 1), DateOf(LastDay(today)))
    ensures Writable(d)
  {
    WritableDays(today);
    if InAdvance(today) {
      WritableDays(today + 1);
      WritableDays(LastDay(today));
    }
  }

  lemma WritableTextIsADate(s: string)
    requires Shaped(s) && Writable(ReadDate(s))
    ensures WellFormed(s)
  {
    ShapedIsWritten(s);
  }

  /** Everything that can be booked is a date exactly when no day after today can be booked, or tomorrow
      and the last day that can be are in the same month. */
  lemma OnlyDatesAreBookableIff(now: Millis)
    requires Ordinary(now)
    ensures var today := KstDay(now);
            OnlyDatesAreBookable(now) <==> (InAdvance(today) ==> SameMonth(DateOf(today + 1), DateOf(LastDay(today))))
  {
    var today := KstDay(now);
    if InAdvance(today) && !SameMonth(DateOf(today + 1), DateOf(LastDay(today))) {
      var zero := DayZeroIsInReach(today);
      var s := TextOf(zero);
      BookableTexts(s, now);
      if WellFormed(s) { DatesAreShaped(s); }
    } else {
      forall s: string | Shaped(s) && IsReservableDate(s, now) ensures WellFormed(s) {
        BookableTexts(s, now);
        OnlyDatesAreInReach(ReadDate(s), today);
        WritableTextIsADate(s);
      }
    }
  }

  // ---------------------------------------------------------------- ranges

  /** Lists every date from the first to the last once, in order, and stops. */
  method DateRange(first: string, last: string) returns (dates: seq<string>)
    requires WellFormed(first) && WellFormed(last) && DayOf(last) < LAST_DAY
    ensures |dates| == if DayOf(first) <= DayOf(last) then DayOf(last) - DayOf(first) + 1 else 0
    ensures forall i :: 0 <= i < |dates| ==> WellFormed(dates[i]) && DayOf(dates[i]) == DayOf(first) + i
  {
    dates := [];
    var date := first;
    InRange(first);
    StringsInOrder(date, last);
    while AtMost(date, last)
      invariant WellFormed(date) && DayOf(date) == DayOf(first) + |dates|
      invariant AtMost(date, last) <==> DayOf(date) <= DayOf(last)
      invariant dates != [] ==> DayOf(date) <= DayOf(last) + 1
      invariant forall i :: 0 <= i < |dates| ==> WellFormed(dates[i]) && DayOf(dates[i]) == DayOf(first) + i
      decreases DayOf(last) + 1 - DayOf(date)
    {
      dates := dates + [date];
      date := AddDays(date, 1);
      StringsInOrder(date, last);
    }
  }
}

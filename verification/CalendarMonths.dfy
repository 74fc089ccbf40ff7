/** New York wall-clock minutes and calendar-month arithmetic.

    A time is one integer: the month (counted from January of year 0), then 31 day slots per month, then
    1440 minutes per day. The order of these integers is the order of the wall clock, which is all the
    scheduling code uses; no length of time is ever computed from them.
 */
module CalendarMonths {

  const MINUTES_PER_DAY := 1440
  const SLOTS := 31 * MINUTES_PER_DAY

  predicate LeapYear(year: int) {
    year % 4 == 0 && (year % 100 != 0 || year % 400 == 0)
  }

  function MonthLength(month: int): (days: int)
    ensures 28 <= days <= 31
  {
    var m := month % 12;
    if m == 1 then (if LeapYear(month / 12) then 29 else 28)
    else if m == 3 || m == 5 || m == 8 || m == 10 then 30
    else 31
  }

  function Pack(month: int, day: int, minute: int): int {
    month * SLOTS + day * MINUTES_PER_DAY + minute
  }

  function Month(time: int): int { time / SLOTS }

  function Day(time: int): int { time % SLOTS / MINUTES_PER_DAY }

  function Minute(time: int): int { time % MINUTES_PER_DAY }

  /** The time names a day its month really has. */
  predicate RealTime(time: int) {
    Day(time) < MonthLength(Month(time))
  }

  /** Same day and minute `months` later (or earlier); a day the month lacks becomes its last day. */
  function AddCalendarMonths(time: int, months: int): int {
    var month := Month(time) + months;
    var last := MonthLength(month) - 1;
    Pack(month, if Day(time) <= last then Day(time) else last, Minute(time))
  }

  lemma PackUnpack(month: int, day: int, minute: int)
    requires 0 <= day < 31 && 0 <= minute < MINUTES_PER_DAY
    ensures Month(Pack(month, day, minute)) == month
    ensures Day(Pack(month, day, minute)) == day && Minute(Pack(month, day, minute)) == minute
  {
    var time, rest := Pack(month, day, minute), day * MINUTES_PER_DAY + minute;
    Quotient(time, SLOTS, month, rest);
    Quotient(rest, MINUTES_PER_DAY, day, minute);
    Quotient(time, MINUTES_PER_DAY, month * 31 + day, minute);
  }

  lemma Unpack(time: int)
    ensures time == Pack(Month(time), Day(time), Minute(time))
    ensures 0 <= Day(time) < 31 && 0 <= Minute(time) < MINUTES_PER_DAY
  {
  }

  /** Both times would land on the last day of the month they are moved to. */
  predicate BothClamped(a: int, b: int, months: int) {
    var last := MonthLength(Month(a) + months) - 1;
    Month(a) == Month(b) && Day(a) >= last && Day(b) >= last
  }

  /** Month arithmetic is not quite monotone: two times clamped onto the same last day keep only their
      minutes. This is the exact condition under which it keeps the order. */
  lemma AddKeepsOrder(a: int, b: int, months: int)
    requires a <= b
    ensures AddCalendarMonths(a, months) <= AddCalendarMonths(b, months)
        <==> (BothClamped(a, b, months) ==> Minute(a) <= Minute(b))
  {
    Unpack(a);
    Unpack(b);
    PackOrder(Month(a), Day(a), Minute(a), Month(b), Day(b), Minute(b));
    var x, y := MonthLength(Month(a) + months) - 1, MonthLength(Month(b) + months) - 1;
    hide Month, Day, Minute, Pack, MonthLength;
    PackOrder(Month(a) + months, if Day(a) <= x then Day(a) else x, Minute(a),
              Month(b) + months, if Day(b) <= y then Day(b) else y, Minute(b));
  }

  /** Packed times are ordered by month, then day, then minute. */
  lemma PackOrder(m: int, d: int, t: int, m': int, d': int, t': int)
    requires 0 <= d < 31 && 0 <= t < MINUTES_PER_DAY && 0 <= d' < 31 && 0 <= t' < MINUTES_PER_DAY
    ensures Pack(m, d, t) <= Pack(m', d', t') <==> m < m' || (m == m' && (d < d' || (d == d' && t <= t')))
  {
  }

  /** 30 January 23:00 and 31 January 01:00 change places when moved on by one month. */
  lemma AddCanReorder()
    ensures var a, b := Pack(0, 29, 23 * 60), Pack(0, 30, 60);
      RealTime(a) && RealTime(b) && a < b && AddCalendarMonths(a, 1) > AddCalendarMonths(b, 1)
  {
    PackUnpack(0, 29, 23 * 60);
    PackUnpack(0, 30, 60);
  }

  /** Times in different months keep their order. */
  lemma AddKeepsMonths(a: int, b: int, months: int)
    requires Month(a) < Month(b)
    ensures AddCalendarMonths(a, months) < AddCalendarMonths(b, months)
  {
    Unpack(a);
    Unpack(b);
  }

  lemma AddedMonth(time: int, months: int)
    ensures Month(AddCalendarMonths(time, months)) == Month(time) + months
  {
    Unpack(time);
    var last := MonthLength(Month(time) + months) - 1;
    PackUnpack(Month(time) + months, if Day(time) <= last then Day(time) else last, Minute(time));
  }

  lemma AddMoves(time: int, months: int)
    ensures months > 0 ==> AddCalendarMonths(time, months) > time
    ensures months < 0 ==> AddCalendarMonths(time, months) < time
  {
    Unpack(time);
  }

  /** A real time plus any number of months is a real time, in exactly that month, at the same minute,
      and going back the same number of months returns to it unless the day was clamped. */
  lemma AddThenBack(time: int, months: int)
    requires RealTime(time)
    ensures var later := AddCalendarMonths(time, months);
      && RealTime(later) && Month(later) == Month(time) + months && Minute(later) == Minute(time)
      && AddCalendarMonths(later, -months) <= time
      && (AddCalendarMonths(later, -months) == time <==> Day(time) < MonthLength(Month(time) + months))
  {
    Unpack(time);
    var month := Month(time) + months;
    var last := MonthLength(month) - 1;
    var day := if Day(time) <= last then Day(time) else last;
    var later := Pack(month, day, Minute(time));
    PackUnpack(month, day, Minute(time));
    PackUnpack(Month(time), day, Minute(time));
  }

  /** Where a real time lands: the same day and minute of the other month if that month has the day, and otherwise
      its last day. */
  lemma AddLands(time: int, months: int)
    requires RealTime(time)
    ensures var later := AddCalendarMonths(time, months);
            && Month(later) == Month(time) + months && Minute(later) == Minute(time)
            && (Day(time) < MonthLength(Month(later)) ==> Day(later) == Day(time))
            && (Day(time) >= MonthLength(Month(later)) ==> Day(later) == MonthLength(Month(later)) - 1)
  {
    Unpack(time);
    var month := Month(time) + months;
    var last := MonthLength(month) - 1;
    PackUnpack(month, if Day(time) <= last then Day(time) else last, Minute(time));
  }

  // ---------------------------------------------------------------------------------------------
  // The lengths of months are those of the Gregorian calendar
  // ---------------------------------------------------------------------------------------------

  /** January to December, February with a day more in a leap year. */
  lemma MonthsOfYear(year: int)
    ensures var leap := LeapYear(year);
            && MonthLength(12 * year) == 31 && MonthLength(12 * year + 1) == (if leap then 29 else 28)
            && MonthLength(12 * year + 2) == 31 && MonthLength(12 * year + 3) == 30
            && MonthLength(12 * year + 4) == 31 && MonthLength(12 * year + 5) == 30
            && MonthLength(12 * year + 6) == 31 && MonthLength(12 * year + 7) == 31
            && MonthLength(12 * year + 8) == 30 && MonthLength(12 * year + 9) == 31
            && MonthLength(12 * year + 10) == 30 && MonthLength(12 * year + 11) == 31
  {
    hide MonthLength, LeapYear;
    InYear(year, 0); InYear(year, 1); InYear(year, 2);
    InYear(year, 3); InYear(year, 4); InYear(year, 5);
    InYear(year, 6); InYear(year, 7); InYear(year, 8);
    InYear(year, 9); InYear(year, 10); InYear(year, 11);
  }

  function LengthIn(year: int, k: int): int {
    if k == 1 then (if LeapYear(year) then 29 else 28)
    else if k == 3 || k == 5 || k == 8 || k == 10 then 30
    else 31
  }

  lemma InYear(year: int, k: int)
    requires 0 <= k < 12
    ensures MonthLength(12 * year + k) == LengthIn(year, k)
  {
    hide LeapYear;
    assert (12 * year + k) / 12 == year && (12 * year + k) % 12 == k;
  }

  /** The days of `total` months from `month` on. */
  function DaysOf(month: int, total: nat): nat {
    if total == 0 then 0 else DaysOf(month, total - 1) + MonthLength(month + total - 1)
  }

  /** The multiples of `n` from year 0 on that lie before a year. */
  function Multiples(year: int, n: int): int
    requires n > 0
  {
    (year + n - 1) / n
  }

  /** The leap years from year 0 on that lie before a year. */
  function LeapYearsBefore(year: int): int {
    Multiples(year, 4) - Multiples(year, 100) + Multiples(year, 400)
  }

  lemma Grows(n: int, d: int)
    requires n > 0
    ensures d >= 1 ==> n * d >= n
    ensures d <= -1 ==> n * d <= -n
  {
    assert n * (d - 1) == n * d - n && n * (d + 1) == n * d + n;
    assert d >= 1 ==> n * (d - 1) >= 0;
    assert d <= -1 ==> n * (d + 1) <= 0;
  }

  lemma Quotient(x: int, n: int, q: int, r: int)
    requires x == n * q + r && 0 <= r < n
    ensures x / n == q && x % n == r
  {
    var a := x / n;
    assert n * (a - q) == n * a - n * q;
    Grows(n, a - q);
  }

  lemma OneMoreYear(year: int, n: int)
    requires n > 0
    ensures Multiples(year + 1, n) == Multiples(year, n) + if Divides(n, year) then 1 else 0
  {
    var q, r := year / n, year % n;
    if r == 0 {
      Quotient(year + n - 1, n, q, n - 1);
      Quotient(year + n, n, q + 1, 0);
    } else {
      Quotient(year + n - 1, n, q + 1, r - 1);
      Quotient(year + n, n, q + 1, r);
    }
  }

  predicate Divides(n: int, year: int)
    requires n > 0
  {
    year % n == 0
  }

  lemma LeapYearDivides(year: int)
    ensures Divides(400, year) ==> Divides(100, year)
    ensures Divides(100, year) ==> Divides(4, year)
    ensures LeapYear(year) <==> Divides(4, year) && (!Divides(100, year) || Divides(400, year))
  {
    if Divides(400, year) {
      Quotient(year, 100, 4 * (year / 400), 0);
    }
    if Divides(100, year) {
      Quotient(year, 4, 25 * (year / 100), 0);
    }
  }

  /** A year is a leap year if it is a multiple of 400, or of 4 but not of 100. */
  lemma LeapYearRule(year: int)
    ensures LeapYear(year) <==> year % 400 == 0 || (year % 4 == 0 && year % 100 != 0)
  {
    hide LeapYear;
    LeapYearDivides(year);
  }

  lemma LeapYearsCount(year: int)
    ensures LeapYearsBefore(year + 1) == LeapYearsBefore(year) + if LeapYear(year) then 1 else 0
  {
    hide Multiples, LeapYear, Divides;
    LeapYearDivides(year);
    OneMoreYear(year, 4);
    OneMoreYear(year, 100);
    OneMoreYear(year, 400);
  }

  lemma {:induction false} DaysOfYears(year: int, years: nat)
    ensures DaysOf(12 * year, 12 * years)
         == 365 * years + LeapYearsBefore(year + years) - LeapYearsBefore(year)
  {
    hide LeapYearsBefore, MonthLength, LeapYear, DaysOf;
    if years == 0 {
      NoMonths(12 * year);
    } else {
      var next := year + years - 1;
      DaysOfYears(year, years - 1);
      LeapYearsCount(next);
      TwelveMonths(12 * year, 12 * (years - 1));
      MonthsOfYear(next);
      assert 12 * year + 12 * (years - 1) == 12 * next;
    }
  }

  lemma NoMonths(month: int)
    ensures DaysOf(month, 0) == 0
  {
  }

  lemma TwelveMonths(month: int, total: nat)
    ensures DaysOf(month, total + 12) == DaysOf(month, total)
      + MonthLength(month + total) + MonthLength(month + total + 1) + MonthLength(month + total + 2)
      + MonthLength(month + total + 3) + MonthLength(month + total + 4) + MonthLength(month + total + 5)
      + MonthLength(month + total + 6) + MonthLength(month + total + 7) + MonthLength(month + total + 8)
      + MonthLength(month + total + 9) + MonthLength(month + total + 10) + MonthLength(month + total + 11)
  {
    hide MonthLength, DaysOf;
    SixMonths(month, total);
    SixMonths(month, total + 6);
  }

  lemma SixMonths(month: int, total: nat)
    ensures DaysOf(month, total + 6) == DaysOf(month, total)
      + MonthLength(month + total) + MonthLength(month + total + 1) + MonthLength(month + total + 2)
      + MonthLength(month + total + 3) + MonthLength(month + total + 4) + MonthLength(month + total + 5)
  {
    hide MonthLength;
    assert DaysOf(month, total + 2)
        == DaysOf(month, total) + MonthLength(month + total) + MonthLength(month + total + 1);
    assert DaysOf(month, total + 4)
        == DaysOf(month, total + 2) + MonthLength(month + total + 2) + MonthLength(month + total + 3);
    assert DaysOf(month, total + 6)
        == DaysOf(month, total + 4) + MonthLength(month + total + 4) + MonthLength(month + total + 5);
  }

  lemma ManyMoreYears(year: int, n: int, k: nat)
    requires n > 0
    ensures Multiples(year + n * k, n) == Multiples(year, n) + k
  {
    var x := year + n - 1;
    Quotient(x + n * k, n, x / n + k, x % n);
  }

  /** Any four hundred years have the same number of days, and with it the same weekdays. */
  lemma FourCenturies(year: int)
    ensures DaysOf(12 * year, 12 * 400) == 146097 && 146097 % 7 == 0
  {
    hide DaysOf, Multiples;
    DaysOfYears(year, 400);
    ManyMoreYears(year, 4, 100);
    ManyMoreYears(year, 100, 4);
    ManyMoreYears(year, 400, 1);
  }
}

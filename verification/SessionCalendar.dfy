/** The CME session calendar on a New York wall clock of whole minutes: which trade date a minute belongs
    to, and which minutes between two observations should have traded.
 */
module SessionCalendar {
  import opened Options

  const DAY := 1440
  const EVENING := 18 * 60
  const AFTERNOON := 17 * 60

  /** Day 0 is a Monday; weekdays run from 0 (Monday) to 6 (Sunday). */
  function DayOf(t: int): int { t / DAY }

  function MinuteOf(t: int): int { t % DAY }

  function Weekday(day: int): int { day % 7 }

  function At(day: int, minute: int): int { day * DAY + minute }

  /** A session boundary: a clock time on the session's own day, or a full date and time. */
  datatype Boundary = Clock(minute: int) | Exact(time: int)

  datatype Kind = ClosedDay | EarlyClose | Special

  datatype Exception = Exception(
    kind: Kind, rthStart: Option<Boundary>, rthEnd: Option<Boundary>,
    globexOpen: Option<Boundary>, globexClose: Option<Boundary>, closedIntervals: seq<(int, int)>)

  datatype Snapshot = Snapshot(
    coverageStart: int, coverageEnd: int, exceptions: map<int, Exception>,
    rthStart: int, rthEnd: int, globexOpen: int, globexClose: int)

  /** What the constructor of a snapshot checks. */
  predicate ValidSnapshot(s: Snapshot) {
    && s.coverageStart <= s.coverageEnd
    && forall d :: d in s.exceptions ==>
         var x := s.exceptions[d];
         && (x.kind.EarlyClose? ==> x.rthEnd.Some? && x.globexClose.Some?)
         && (x.kind.Special? ==> x.rthStart.Some? && x.rthEnd.Some? && x.globexOpen.Some? && x.globexClose.Some?)
  }

  datatype Hours = Hours(rthStart: int, rthEnd: int, globexOpen: int, globexClose: int)

  /** A session that trades, or one that is closed for the whole date. */
  datatype Session = Trading(hours: Hours) | Shut

  function Local(day: int, b: Boundary): int {
    match b
    case Clock(minute) => At(day, minute)
    case Exact(time) => time
  }

  function OrTemplate(given: Option<Boundary>, template: int): Boundary {
    if given.Some? then given.value else Clock(template)
  }

  predicate Covers(s: Snapshot, day: int) {
    s.coverageStart <= day <= s.coverageEnd
  }

  /** None is the error raised for a date outside the reviewed coverage. */
  function SessionFor(s: Snapshot, day: int): Option<Session> {
    if !Covers(s, day) then None
    else if Weekday(day) >= 5 then Some(Shut)
    else if day in s.exceptions then
      var x := s.exceptions[day];
      if x.kind.ClosedDay? then Some(Shut)
      else Some(Trading(Hours(
        Local(day, OrTemplate(x.rthStart, s.rthStart)), Local(day, OrTemplate(x.rthEnd, s.rthEnd)),
        Local(day - 1, OrTemplate(x.globexOpen, s.globexOpen)), Local(day, OrTemplate(x.globexClose, s.globexClose)))))
    else Some(Trading(Hours(At(day, s.rthStart), At(day, s.rthEnd),
                            At(day - 1, s.globexOpen), At(day, s.globexClose))))
  }

  /** The first day from `day` on that is not a weekend day. */
  function SkipWeekend(day: int): (d: int)
    ensures day <= d <= day + 2 && Weekday(d) < 5
    decreases 7 - Weekday(day)
  {
    if Weekday(day) >= 5 then (if Weekday(day) == 6 then day + 1 else SkipWeekend(day + 1)) else day
  }

  /** The closed intervals of a date, if it is an exception. */
  function ClosedIntervals(s: Snapshot, day: int): seq<(int, int)> {
    if day in s.exceptions then s.exceptions[day].closedIntervals else []
  }

  /** The wall-clock minute falls in one of the date's closed intervals. */
  predicate Interrupted(s: Snapshot, day: int, minute: int) {
    var intervals := ClosedIntervals(s, day);
    exists i :: 0 <= i < |intervals| && intervals[i].0 <= minute < intervals[i].1
  }

  datatype TradeDate = On(day: int) | Closure | Unavailable

  /** The trade date of a minute, a scheduled closure, or the error for a date without coverage. */
  function TradingDate(s: Snapshot, t: int): TradeDate {
    var day, minute := DayOf(t), MinuteOf(t);
    var weekday := Weekday(day);
    if weekday == 5 || (weekday == 6 && minute < EVENING) then Closure
    else if weekday == 4 && minute >= AFTERNOON then Closure
    else if AFTERNOON <= minute < EVENING then Closure
    else
      var date := if minute >= EVENING then SkipWeekend(day + 1) else day;
      var session := SessionFor(s, date);
      if session.None? then Unavailable
      else if session.value.Shut? then Closure
      else if !(session.value.hours.globexOpen <= t < session.value.hours.globexClose) then Closure
      else if Interrupted(s, date, minute) then Closure
      else On(date)
  }

  /** The standard template: the date opens at 18:00 the evening before and closes by 17:00. Regular,
      early-close and closed dates follow it. */
  predicate StandardDate(s: Snapshot, day: int) {
    && s.globexOpen == EVENING && 0 <= s.globexClose <= AFTERNOON
    && (day in s.exceptions ==>
          var x := s.exceptions[day];
          && x.globexOpen.None?
          && (x.globexClose.Some? ==> x.globexClose.value.Clock? && x.globexClose.value.minute <= AFTERNOON))
  }

  /** For every covered date and every minute: the minute has trade date D exactly when it lies in D's session,
      in none of its closed intervals, and between 18:00 the evening before and 17:00. */
  lemma TradeDateExactly(s: Snapshot, t: int, day: int)
    requires Covers(s, day)
    ensures TradingDate(s, t) == On(day) <==>
              var session := SessionFor(s, day).value;
              var closed := if day in s.exceptions then s.exceptions[day].closedIntervals else [];
              && session.Trading? && session.hours.globexOpen <= t < session.hours.globexClose
              && (forall i :: 0 <= i < |closed| ==> !(closed[i].0 <= MinuteOf(t) < closed[i].1))
              && At(day - 1, EVENING) <= t < At(day, AFTERNOON)
  {
    var closed := if day in s.exceptions then s.exceptions[day].closedIntervals else [];
    assert ClosedIntervals(s, day) == closed;
    hide ClosedIntervals;
    if At(day - 1, EVENING) <= t < At(day, AFTERNOON) {
      assert DayOf(t) == day || DayOf(t) == day - 1;
      if SessionFor(s, day).value.Trading? {
        assert Weekday(day) < 5;
        if DayOf(t) == day - 1 {
          assert MinuteOf(t) >= EVENING;
          assert SkipWeekend(day) == day;
          assert Weekday(day - 1) != 4 || Weekday(day) == 5;
        }
      }
    }
  }

  /** When a date on the standard template stops trading. */
  function CloseMinute(s: Snapshot, day: int): int {
    if day in s.exceptions && s.exceptions[day].globexClose.Some? && s.exceptions[day].globexClose.value.Clock?
    then s.exceptions[day].globexClose.value.minute
    else s.globexClose
  }

  /** The trade-date arithmetic inverts the session intervals of every date on the standard template: on a
      weekday that is not closed, these run from 18:00 the evening before to the (early) close. */
  lemma TradeDateInvertsSessions(s: Snapshot, t: int, day: int)
    requires Covers(s, day) && StandardDate(s, day)
    ensures TradingDate(s, t) == On(day) <==>
              var session := SessionFor(s, day).value;
              var closed := if day in s.exceptions then s.exceptions[day].closedIntervals else [];
              && session.Trading? && session.hours.globexOpen <= t < session.hours.globexClose
              && forall i :: 0 <= i < |closed| ==> !(closed[i].0 <= MinuteOf(t) < closed[i].1)
    ensures TradingDate(s, t) == On(day) <==>
              var closed := if day in s.exceptions then s.exceptions[day].closedIntervals else [];
              && Weekday(day) < 5 && !(day in s.exceptions && s.exceptions[day].kind.ClosedDay?)
              && At(day - 1, EVENING) <= t < At(day, CloseMinute(s, day))
              && forall i :: 0 <= i < |closed| ==> !(closed[i].0 <= MinuteOf(t) < closed[i].1)
  {
    hide Interrupted, TradingDate, ClosedIntervals;
    TradeDateExactly(s, t, day);
  }

  /** The weekday whose trading window, from 18:00 the evening before to 17:00, holds the minute. */
  function TradeDay(t: int): Option<int> {
    var day := DayOf(t) + if MinuteOf(t) >= EVENING then 1 else 0;
    if AFTERNOON <= MinuteOf(t) < EVENING || Weekday(day) >= 5 then None else Some(day)
  }

  lemma TradeDayExactly(t: int, day: int)
    ensures TradeDay(t) == Some(day) <==> Weekday(day) < 5 && At(day - 1, EVENING) <= t < At(day, AFTERNOON)
  {
    assert t == At(DayOf(t), MinuteOf(t)) && 0 <= MinuteOf(t) < DAY;
    hide Weekday;
  }

  lemma TradingDateByDay(s: Snapshot, t: int)
    ensures match TradeDay(t)
            case None => TradingDate(s, t) == Closure
            case Some(day) =>
              (TradingDate(s, t) == Unavailable <==> !Covers(s, day))
              && (TradingDate(s, t).On? ==> TradingDate(s, t) == On(day))
  {
    hide Interrupted;
  }

  /** A minute has an unavailable trade date exactly if it lies in the window of a weekday that is not covered;
      and it can only have the trade date in whose window it lies. */
  lemma TradeDateOtherwise(s: Snapshot, t: int, day: int)
    ensures Weekday(day) < 5 && At(day - 1, EVENING) <= t < At(day, AFTERNOON) ==>
              (TradingDate(s, t).Unavailable? <==> !Covers(s, day))
              && (TradingDate(s, t).On? ==> TradingDate(s, t) == On(day))
    ensures TradingDate(s, t).Unavailable? ==>
              exists d :: Weekday(d) < 5 && At(d - 1, EVENING) <= t < At(d, AFTERNOON)
  {
    TradeDayExactly(t, day);
    TradingDateByDay(s, t);
    if TradeDay(t).Some? {
      TradeDayExactly(t, TradeDay(t).value);
      assert Weekday(TradeDay(t).value) < 5;
    }
    hide TradeDay, TradingDate, Weekday;
  }

  /** The hours of a covered date: closed at weekends and on closed days, otherwise each boundary of the exception
      or else of the template, the opening one on the evening before. */
  lemma SessionHoursExactly(s: Snapshot, day: int)
    ensures SessionFor(s, day).None? <==> day < s.coverageStart || day > s.coverageEnd
    ensures Covers(s, day) ==>
              (SessionFor(s, day).value.Shut? <==>
                 day % 7 >= 5 || (day in s.exceptions && s.exceptions[day].kind == ClosedDay))
    ensures Covers(s, day) && day % 7 < 5 && day !in s.exceptions ==>
              SessionFor(s, day).value.hours
                == Hours(day * 1440 + s.rthStart, day * 1440 + s.rthEnd,
                         (day - 1) * 1440 + s.globexOpen, day * 1440 + s.globexClose)
    ensures Covers(s, day) && day % 7 < 5 && day in s.exceptions && s.exceptions[day].kind != ClosedDay ==>
              var x, h := s.exceptions[day], SessionFor(s, day).value.hours;
              && Lies(h.rthStart, x.rthStart, day, s.rthStart) && Lies(h.rthEnd, x.rthEnd, day, s.rthEnd)
              && Lies(h.globexOpen, x.globexOpen, day - 1, s.globexOpen)
              && Lies(h.globexClose, x.globexClose, day, s.globexClose)
  {
  }

  /** The time a boundary gives on this day: a clock time of that day, or its own full time. */
  predicate Lies(time: int, given: Option<Boundary>, day: int, template: int) {
    match given
    case None => time == day * 1440 + template
    case Some(Clock(minute)) => time == day * 1440 + minute
    case Some(Exact(exact)) => time == exact
  }

  /** A special session that opens before 18:00 and closes after 17:00 loses its first and its last minutes. */
  lemma SpecialSessionsAreCutOff()
    ensures var x := Exception(Special, Some(Clock(570)), Some(Clock(960)), Some(Clock(1050)), Some(Clock(1050)), []);
            var s := Snapshot(0, 4, map[1 := x], 570, 960, EVENING, AFTERNOON);
            var session := SessionFor(s, 1);
            && ValidSnapshot(s) && session.Some? && session.value.Trading?
            && session.value.hours.globexOpen <= At(0, 1065) < session.value.hours.globexClose
            && session.value.hours.globexOpen <= At(1, 1030) < session.value.hours.globexClose
            && TradingDate(s, At(0, 1065)) == TradingDate(s, At(1, 1030)) == Closure
  {
  }

  // ---------------------------------------------------------------------------------------------
  // Expected minutes
  // ---------------------------------------------------------------------------------------------

  /** The minutes from `lo` up to (not including) `hi` that should have traded; None if some minute's date
      is not covered. */
  function Expected(s: Snapshot, lo: int, hi: int): Option<seq<int>>
    decreases if lo < hi then hi - lo else 0
  {
    if lo >= hi then Some([])
    else
      var before, last := Expected(s, lo, hi - 1), TradingDate(s, hi - 1);
      if before.None? || last.Unavailable? then None
      else if last.On? then Some(before.value + [hi - 1]) else before
  }

  /** The list, or one of two errors: observations out of order, or a minute whose date is not covered. */
  datatype MissingMinutes = Minutes(list: seq<int>) | OutOfOrder | NotCovered

  method ExpectedMissingMinutes(s: Snapshot, after: int, before: int) returns (missing: MissingMinutes)
    ensures before <= after ==> missing == OutOfOrder
    ensures before > after ==>
              var expected := Expected(s, after + 1, before);
              missing == if expected.None? then NotCovered else Minutes(expected.value)
  {
    if before <= after {
      return OutOfOrder;
    }
    hide TradingDate;
    var minutes: seq<int> := [];
    var cursor := after + 1;
    while cursor < before
      invariant after + 1 <= cursor <= before
      invariant Expected(s, after + 1, cursor) == Some(minutes)
    {
      var date := TradingDate(s, cursor);
      if date.Unavailable? {
        ExpectedUnavailable(s, after + 1, cursor, before);
        return NotCovered;
      }
      if date.On? {
        minutes := minutes + [cursor];
      }
      cursor := cursor + 1;
    }
    missing := Minutes(minutes);
  }

  /** A minute inside a closed interval of a date never has that trade date; in the date's trading window it is
      never an expected minute. */
  lemma HaltedMinutes(s: Snapshot, t: int, day: int, i: nat, lo: int, hi: int)
    requires Covers(s, day) && day in s.exceptions && i < |s.exceptions[day].closedIntervals|
    requires var (a, b) := s.exceptions[day].closedIntervals[i]; a <= MinuteOf(t) < b
    ensures TradingDate(s, t) != On(day)
    ensures Weekday(day) < 5 && At(day - 1, EVENING) <= t < At(day, AFTERNOON) && Expected(s, lo, hi).Some? ==>
              t !in Expected(s, lo, hi).value
  {
    TradeDateExactly(s, t, day);
    TradeDateOtherwise(s, t, day);
    hide ClosedIntervals, SessionFor, TradingDate, Weekday, Expected;
    if Expected(s, lo, hi).Some? {
      ExpectedIsExact(s, lo, hi);
    }
  }

  /** A Tuesday's special session with 13:00 to `end` closed. */
  function Halted(end: int): Snapshot {
    Snapshot(0, 4, map[1 := Exception(Special, Some(Clock(570)), Some(Clock(780)), Some(Clock(EVENING)),
                                      Some(Clock(AFTERNOON)), [(780, end)])],
             570, 960, EVENING, AFTERNOON)
  }

  lemma HaltedMinute(end: int, minute: int)
    requires 0 <= minute < AFTERNOON
    ensures TradingDate(Halted(end), At(1, minute)) == if 780 <= minute < end then Closure else On(1)
  {
    var s, t := Halted(end), At(1, minute);
    assert MinuteOf(t) == minute && ClosedIntervals(s, 1) == [(780, end)] && ClosedIntervals(s, 1)[0] == (780, end);
    TradeDateExactly(s, t, 1);
    TradeDateOtherwise(s, t, 1);
    hide TradingDate, ClosedIntervals;
  }

  lemma {:induction false} NothingExpected(hi: int)
    requires At(1, 780) <= hi <= At(1, EVENING)
    ensures Expected(Halted(AFTERNOON), At(1, 780), hi) == Some([])
    decreases hi
  {
    if hi > At(1, 780) {
      NothingExpected(hi - 1);
      if hi - 1 < At(1, AFTERNOON) {
        HaltedMinute(AFTERNOON, hi - 1 - DAY);
        hide TradingDate;
      }
    }
  }

  /** Closed from 13:00 to 17:00: 12:59 trades, 13:00 and 16:59 do not, and nothing is missing from then to the
      evening. Closed to 16:00: that minute trades again. */
  lemma HaltedAfternoon()
    ensures var s := Halted(AFTERNOON);
            && ValidSnapshot(s) && TradingDate(s, At(1, 779)) == On(1)
            && TradingDate(s, At(1, 780)) == TradingDate(s, At(1, 1019)) == Closure
            && Expected(s, At(1, 780), At(1, EVENING)) == Some([])
    ensures var s := Halted(960);
            TradingDate(s, At(1, 959)) == Closure && TradingDate(s, At(1, 960)) == On(1)
  {
    HaltedMinute(AFTERNOON, 779);
    HaltedMinute(AFTERNOON, 780);
    HaltedMinute(AFTERNOON, 1019);
    HaltedMinute(960, 959);
    HaltedMinute(960, 960);
    NothingExpected(At(1, EVENING));
    hide TradingDate;
  }

  lemma {:induction false} ExpectedUnavailable(s: Snapshot, lo: int, at: int, hi: int)
    requires lo <= at < hi && TradingDate(s, at).Unavailable?
    ensures Expected(s, lo, hi).None?
    decreases hi - at
  {
    hide TradingDate;
    if at < hi - 1 {
      ExpectedUnavailable(s, lo, at, hi - 1);
    }
  }

  /** Exactly the minutes with a trade date, each once and in order. */
  lemma {:induction false} ExpectedIsExact(s: Snapshot, lo: int, hi: int)
    requires Expected(s, lo, hi).Some?
    ensures var m := Expected(s, lo, hi).value;
      && (forall t :: t in m <==> lo <= t < hi && TradingDate(s, t).On?)
      && (forall i, j :: 0 <= i < j < |m| ==> m[i] < m[j])
    decreases if lo < hi then hi - lo else 0
  {
    hide TradingDate;
    if lo < hi {
      ExpectedIsExact(s, lo, hi - 1);
      var front, m := Expected(s, lo, hi - 1).value, Expected(s, lo, hi).value;
      forall t ensures t in m <==> lo <= t < hi && TradingDate(s, t).On? {
        assert t in m <==> t in front || (t == hi - 1 && TradingDate(s, hi - 1).On?);
      }
      forall i, j | 0 <= i < j < |m| ensures m[i] < m[j] {
        if j < |front| {
          assert front[i] < front[j];
        } else {
          assert front[i] in front;
        }
      }
    }
  }

  /** The expected minutes split additively at any minute. */
  lemma {:induction false} ExpectedSplits(s: Snapshot, lo: int, mid: int, hi: int)
    requires lo <= mid <= hi
    ensures var a, b := Expected(s, lo, mid), Expected(s, mid, hi);
      Expected(s, lo, hi) == if a.None? || b.None? then None else Some(a.value + b.value)
    decreases hi - mid
  {
    hide TradingDate;
    if mid < hi {
      ExpectedSplits(s, lo, mid, hi - 1);
      var a, b := Expected(s, lo, mid), Expected(s, mid, hi - 1);
      assert a.Some? && b.Some? ==> a.value + (b.value + [hi - 1]) == (a.value + b.value) + [hi - 1];
    } else {
      assert Expected(s, mid, hi) == Some([]);
      var a := Expected(s, lo, mid);
      assert a.Some? ==> a.value + [] == a.value;
    }
  }
}

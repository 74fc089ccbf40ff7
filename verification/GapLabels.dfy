/** Why a minute of market data is absent: the per-minute classifier, and the vectorised classifier of a
    whole gap.
 */
module GapLabels {
  import opened Options
  import opened SessionCalendar

  datatype Label =
    | WeekendClosure | DailyMaintenance | EquityIndexPause
    | HolidayClosure | HolidayOrEarlyClose | ScheduledClosure
    | OpenRthAbsent | OpenGlobexAbsent | Unverified
    | SparseAbsence | DegradedAbsence | UnknownAbsence

  /** The vendor's condition of the source on the date of a minute. */
  datatype Condition = Available | Degraded | Unstated

  /** 27 June 2021, 17:00 Chicago: from then on there is no daily pause and maintenance starts at 16:00. */
  const CUTOVER := At(18801, EVENING)

  /** Chicago's clock is one hour behind New York's. */
  function Chicago(t: int): int { t - 60 }

  function SnapshotFor(day: int, snapshots: seq<Snapshot>): Option<Snapshot> {
    if snapshots == [] then None
    else if Covers(snapshots[0], day) then Some(snapshots[0])
    else SnapshotFor(day, snapshots[1..])
  }

  /** The trade date whose schedule decides about a minute; an evening belongs to the next weekday. */
  function ScheduleDate(t: int): int {
    var day := DayOf(t);
    if MinuteOf(t) >= EVENING then SkipWeekend(day + 1)
    else if Weekday(day) == 6 then day + 1
    else day
  }

  function ClassifyMinute(t: int, snapshots: seq<Snapshot>): Label {
    var date := ScheduleDate(t);
    var found := SnapshotFor(date, snapshots);
    if found.Some? then BySnapshot(t, date, found.value) else ByRecurringRules(t)
  }

  function BySnapshot(t: int, date: int, s: Snapshot): Label {
    var session := SessionFor(s, date);
    if session.None? || session.value.Shut? then HolidayClosure
    else
      var h := session.value.hours;
      if !(h.globexOpen <= t < h.globexClose) then HolidayOrEarlyClose
      else if h.rthStart <= t < h.rthEnd then OpenRthAbsent
      else if TradingDate(s, t).On? then OpenGlobexAbsent
      else ScheduledClosure
  }

  function ByRecurringRules(t: int): Label {
    var weekday, minute := Weekday(DayOf(Chicago(t))), MinuteOf(Chicago(t));
    var after := t >= CUTOVER;
    var maintenance := if after then 16 * 60 else 16 * 60 + 15;
    if weekday == 5 then WeekendClosure
    else if weekday == 6 && minute < 17 * 60 then WeekendClosure
    else if weekday == 4 && minute >= maintenance then WeekendClosure
    else if weekday < 4 && maintenance <= minute < 17 * 60 then DailyMaintenance
    else if !after && 15 * 60 + 15 <= minute < 15 * 60 + 30 then EquityIndexPause
    else Unverified
  }

  predicate OpenAbsence(l: Label) {
    l.Unverified? || l.OpenRthAbsent? || l.OpenGlobexAbsent?
  }

  /** How the condition of the source replaces a label that is not a scheduled closure. */
  function Resolve(l: Label, c: Condition): Label {
    if !OpenAbsence(l) then l
    else match c
      case Available => SparseAbsence
      case Degraded => DegradedAbsence
      case Unstated => UnknownAbsence
  }

  // ---------------------------------------------------------------------------------------------
  // The vectorised classifier
  // ---------------------------------------------------------------------------------------------

  /** The minutes a snapshot overrides: from the evening before its coverage to the end of its last day. */
  function SpanStart(s: Snapshot): int { At(s.coverageStart - 1, EVENING) }

  function SpanEnd(s: Snapshot): int { At(s.coverageEnd + 1, 0) }

  predicate Overridden(t: int, snapshots: seq<Snapshot>) {
    exists i :: 0 <= i < |snapshots| && SpanStart(snapshots[i]) <= t < SpanEnd(snapshots[i])
  }

  /** What the whole-array rules give a minute, before any snapshot. */
  function VectorLabel(t: int): Label {
    var weekday, minute := Weekday(DayOf(Chicago(t))), MinuteOf(Chicago(t));
    var before := t < CUTOVER;
    var maintenance := if before then 16 * 60 + 15 else 16 * 60;
    if weekday < 5 && 15 * 60 + 15 <= minute < 15 * 60 + 30 && before then EquityIndexPause
    else if weekday < 4 && minute >= maintenance && minute < 17 * 60 then DailyMaintenance
    else if weekday == 4 && minute >= maintenance then WeekendClosure
    else if weekday == 5 || (weekday == 6 && minute < 17 * 60) then WeekendClosure
    else Unverified
  }

  function GapLabel(t: int, snapshots: seq<Snapshot>): Label {
    if Overridden(t, snapshots) then ClassifyMinute(t, snapshots) else VectorLabel(t)
  }

  datatype Status = NoMissing | Unresolved | SparseOnly | SparseAndClosed | VerifiedClosure

  datatype Gap = Gap(previous: int, next: int, missing: nat, labels: seq<Label>, status: Status)

  /** The masked whole-array assignments, in the program's order. */
  method RecurringLabels(first: int, labels: array<Label>)
    modifies labels
    ensures forall i :: 0 <= i < labels.Length ==> labels[i] == VectorLabel(first + i)
  {
    forall i | 0 <= i < labels.Length {
      labels[i] := Unverified;
    }
    forall i | 0 <= i < labels.Length && Weekend(first + i) {
      labels[i] := WeekendClosure;
    }
    forall i | 0 <= i < labels.Length && FridayClose(first + i) {
      labels[i] := WeekendClosure;
    }
    forall i | 0 <= i < labels.Length && Maintenance(first + i) {
      labels[i] := DailyMaintenance;
    }
    forall i | 0 <= i < labels.Length && Pause(first + i) {
      labels[i] := EquityIndexPause;
    }
  }

  predicate Weekend(t: int) {
    var weekday, minute := Weekday(DayOf(Chicago(t))), MinuteOf(Chicago(t));
    weekday == 5 || (weekday == 6 && minute < 17 * 60)
  }

  function MaintenanceStart(t: int): int { if t < CUTOVER then 16 * 60 + 15 else 16 * 60 }

  predicate FridayClose(t: int) {
    Weekday(DayOf(Chicago(t))) == 4 && MinuteOf(Chicago(t)) >= MaintenanceStart(t)
  }

  predicate Maintenance(t: int) {
    var minute := MinuteOf(Chicago(t));
    Weekday(DayOf(Chicago(t))) < 4 && minute >= MaintenanceStart(t) && minute < 17 * 60
  }

  predicate Pause(t: int) {
    var minute := MinuteOf(Chicago(t));
    Weekday(DayOf(Chicago(t))) < 5 && minute >= 15 * 60 + 15 && minute < 15 * 60 + 30 && t < CUTOVER
  }

  /** The labels of the minutes from `first` on, before the condition of the source is looked at. */
  function PlainLabels(first: int, total: nat, snapshots: seq<Snapshot>): seq<Label> {
    seq(total, i requires 0 <= i < total => GapLabel(first + i, snapshots))
  }

  function Conditions(first: int, total: nat, condition: int -> Condition): seq<Condition> {
    seq(total, i requires 0 <= i < total => condition(first + i))
  }

  function ResolveAll(plain: seq<Label>, conditions: seq<Condition>): (labels: seq<Label>)
    requires |plain| == |conditions|
    ensures |labels| == |plain|
  {
    seq(|plain|, i requires 0 <= i < |plain| => Resolve(plain[i], conditions[i]))
  }

  /** Replaces the recurring labels inside every snapshot's span. */
  method OverrideLabels(first: int, labels: array<Label>, snapshots: seq<Snapshot>)
    requires forall i :: 0 <= i < labels.Length ==> labels[i] == VectorLabel(first + i)
    modifies labels
    ensures labels[..] == PlainLabels(first, labels.Length, snapshots)
  {
    hide ClassifyMinute, VectorLabel;
    var total := labels.Length;
    for k := 0 to |snapshots|
      invariant forall i :: 0 <= i < total ==>
        labels[i] == if Overridden(first + i, snapshots[..k]) then ClassifyMinute(first + i, snapshots)
                     else VectorLabel(first + i)
    {
      var s := snapshots[k];
      var left := if SpanStart(s) - first >= 0 then SpanStart(s) - first else 0;
      var right := if SpanEnd(s) - first <= total then SpanEnd(s) - first else total;
      var stop := if right >= left then right else left;
      label Before:
      for index := left to stop
        invariant forall i :: 0 <= i < total ==>
          labels[i] == if left <= i < index then ClassifyMinute(first + i, snapshots)
                       else old@Before(labels[i])
      {
        labels[index] := ClassifyMinute(first + index, snapshots);
      }
      forall t: int | first <= t < first + total
        ensures Overridden(t, snapshots[..k + 1])
            <==> Overridden(t, snapshots[..k]) || left <= t - first < stop
      {
        OverrideOneMore(t, snapshots, k);
      }
    }
    assert snapshots[..|snapshots|] == snapshots;
    forall i | 0 <= i < total ensures labels[i] == GapLabel(first + i, snapshots) {
      assert Overridden(first + i, snapshots[..|snapshots|]) == Overridden(first + i, snapshots);
    }
  }

  lemma OverrideOneMore(t: int, snapshots: seq<Snapshot>, k: nat)
    requires k < |snapshots|
    ensures Overridden(t, snapshots[..k + 1])
        <==> Overridden(t, snapshots[..k]) || SpanStart(snapshots[k]) <= t < SpanEnd(snapshots[k])
  {
    var front, more := snapshots[..k], snapshots[..k + 1];
    assert forall i :: 0 <= i < k ==> front[i] == more[i];
    assert more[k] == snapshots[k];
  }

  /** Replaces the labels of open minutes by the condition of the source. */
  method ResolveLabels(first: int, labels: array<Label>, condition: int -> Condition)
    modifies labels
    ensures labels[..] == ResolveAll(old(labels[..]), Conditions(first, labels.Length, condition))
  {
    for index := 0 to labels.Length
      invariant forall i :: 0 <= i < index ==> labels[i] == Resolve(old(labels[i]), condition(first + i))
      invariant forall i :: index <= i < labels.Length ==> labels[i] == old(labels[i])
    {
      if OpenAbsence(labels[index]) {
        match condition(first + index)
        case Available => labels[index] := SparseAbsence;
        case Degraded => labels[index] := DegradedAbsence;
        case Unstated => labels[index] := UnknownAbsence;
      }
    }
  }

  function GapBetween(previous: int, current: int, snapshots: seq<Snapshot>, condition: int -> Condition): (g: Gap)
    requires previous < current
    ensures |g.labels| == g.missing
  {
    var first, total := previous + 1, current - previous - 1;
    var labels := ResolveAll(PlainLabels(first, total, snapshots), Conditions(first, total, condition));
    Gap(previous, current, total, labels, StatusOf(labels))
  }

  /** Labels every missing minute between two observations; None if they are out of order. */
  method ClassifyGap(previous: int, current: int, snapshots: seq<Snapshot>, condition: int -> Condition)
    returns (gap: Option<Gap>)
    ensures gap == if current <= previous then None else Some(GapBetween(previous, current, snapshots, condition))
  {
    if current <= previous {
      return None;
    }
    hide GapLabel, VectorLabel, StatusOf, PlainLabels, ResolveAll, Conditions;
    var first, total := previous + 1, current - previous - 1;
    var labels := new Label[total](_ => Unverified);
    RecurringLabels(first, labels);
    OverrideLabels(first, labels, snapshots);
    ResolveLabels(first, labels, condition);
    gap := Some(Gap(previous, current, total, labels[..], StatusOf(labels[..])));
  }

  /** The status of a gap, from which labels occur in it. */
  function StatusOf(labels: seq<Label>): Status {
    if labels == [] then NoMissing
    else if OpenRthAbsent in labels || OpenGlobexAbsent in labels || DegradedAbsence in labels
            || UnknownAbsence in labels then Unresolved
    else if SparseAbsence in labels then
      if forall i :: 0 <= i < |labels| ==> labels[i] == labels[0] then SparseOnly else SparseAndClosed
    else VerifiedClosure
  }

  // ---------------------------------------------------------------------------------------------
  // The vectorised labels refine the per-minute classifier
  // ---------------------------------------------------------------------------------------------

  predicate IsClosed(l: Label) {
    l.WeekendClosure? || l.DailyMaintenance? || l.EquityIndexPause? || l.HolidayClosure?
    || l.HolidayOrEarlyClose? || l.ScheduledClosure?
  }

  lemma VectorFollowsRules(t: int)
    ensures VectorLabel(t) == ByRecurringRules(t)
  {
  }

  /** A label equals the per-minute classifier's whenever no snapshot covers the minute's trade date or the
      minute lies in an overridden span. */
  lemma GapLabelIsMinuteLabel(t: int, snapshots: seq<Snapshot>)
    requires Overridden(t, snapshots) || SnapshotFor(ScheduleDate(t), snapshots).None?
    ensures GapLabel(t, snapshots) == ClassifyMinute(t, snapshots)
  {
    VectorFollowsRules(t);
  }

  /** A minute takes the per-minute label exactly from 18:00 on the day before some snapshot's coverage to the end of
      the last day covered, and its recurring label otherwise. */
  lemma GapLabelExactly(t: int, snapshots: seq<Snapshot>)
    ensures GapLabel(t, snapshots)
         == if exists i :: 0 <= i < |snapshots|
                           && (snapshots[i].coverageStart - 1) * 1440 + 18 * 60 <= t
                           && t < (snapshots[i].coverageEnd + 1) * 1440
            then ClassifyMinute(t, snapshots) else ByRecurringRules(t)
  {
    hide ClassifyMinute, ByRecurringRules, VectorLabel;
    VectorFollowsRules(t);
    assert forall i :: 0 <= i < |snapshots| ==>
      SpanStart(snapshots[i]) == (snapshots[i].coverageStart - 1) * 1440 + 18 * 60
      && SpanEnd(snapshots[i]) == (snapshots[i].coverageEnd + 1) * 1440;
  }

  /** The recurring labels on the New York clock: the weekend from Friday's close to Sunday 18:00, the maintenance
      hour before 18:00 from Monday to Thursday, and until the cutover a quarter of an hour's pause at 16:15 and a
      close at 17:15 instead of 17:00. */
  lemma RecurringInNewYork(t: int)
    ensures var weekday, minute := DayOf(t) % 7, MinuteOf(t);
            var close := if t < CUTOVER then 17 * 60 + 15 else 17 * 60;
            VectorLabel(t)
              == if (weekday == 4 && minute >= close) || weekday == 5 || (weekday == 6 && minute < 18 * 60)
                 then WeekendClosure
                 else if weekday < 4 && close <= minute < 18 * 60 then DailyMaintenance
                 else if t < CUTOVER && weekday < 5 && 16 * 60 + 15 <= minute < 16 * 60 + 30 then EquityIndexPause
                 else Unverified
  {
    assert t == At(DayOf(t), MinuteOf(t)) && 0 <= MinuteOf(t) < DAY;
    if MinuteOf(t) >= 60 {
      assert DayOf(Chicago(t)) == DayOf(t) && MinuteOf(Chicago(t)) == MinuteOf(t) - 60;
    } else {
      assert DayOf(Chicago(t)) == DayOf(t) - 1 && MinuteOf(Chicago(t)) == MinuteOf(t) + DAY - 60;
    }
  }

  /** The date whose schedule decides: the trade date in whose window the minute lies; in the maintenance hour
      and on Saturdays before the evening the calendar date; and for the rest of the weekend the Monday. */
  lemma ScheduleDateExactly(t: int)
    ensures var day, weekday, minute := DayOf(t), DayOf(t) % 7, MinuteOf(t);
            && (TradeDay(t).Some? ==> ScheduleDate(t) == TradeDay(t).value)
            && (weekday < 6 && minute < 18 * 60 ==> ScheduleDate(t) == day)
            && ((weekday == 6 || (weekday == 5 && minute >= 18 * 60) || (weekday == 4 && minute >= 18 * 60)) ==>
                  ScheduleDate(t) % 7 == 0 && day < ScheduleDate(t) <= day + 3)
  {
  }

  /** The snapshot at position `i` covers the date, and none before it does. */
  ghost predicate FirstToCover(snapshots: seq<Snapshot>, day: int, i: int) {
    && 0 <= i < |snapshots| && Covers(snapshots[i], day)
    && forall j :: 0 <= j < i ==> !Covers(snapshots[j], day)
  }

  lemma {:induction false} SnapshotForIsFirst(day: int, snapshots: seq<Snapshot>)
    ensures SnapshotFor(day, snapshots).None? <==> forall i :: 0 <= i < |snapshots| ==> !Covers(snapshots[i], day)
    ensures SnapshotFor(day, snapshots).Some? ==>
              exists i :: FirstToCover(snapshots, day, i) && SnapshotFor(day, snapshots).value == snapshots[i]
  {
    if snapshots != [] {
      if Covers(snapshots[0], day) {
        assert FirstToCover(snapshots, day, 0);
      } else {
        var rest := snapshots[1..];
        SnapshotForIsFirst(day, rest);
        assert forall i :: 0 < i < |snapshots| ==> snapshots[i] == rest[i - 1];
        if SnapshotFor(day, rest).Some? {
          var i :| FirstToCover(rest, day, i) && SnapshotFor(day, rest).value == rest[i];
          assert FirstToCover(snapshots, day, i + 1);
        }
      }
    }
  }

  /** The five labels under a snapshot, each with its condition. */
  lemma SnapshotLabelsExactly(t: int, snapshots: seq<Snapshot>)
    requires SnapshotFor(ScheduleDate(t), snapshots).Some?
    ensures var s := SnapshotFor(ScheduleDate(t), snapshots).value;
            Covers(s, ScheduleDate(t))
    ensures var s := SnapshotFor(ScheduleDate(t), snapshots).value;
            var session, l := SessionFor(s, ScheduleDate(t)).value, ClassifyMinute(t, snapshots);
            var inside := session.Trading? && session.hours.globexOpen <= t < session.hours.globexClose;
            var regular := inside && session.hours.rthStart <= t < session.hours.rthEnd;
            && (l == HolidayClosure <==> session.Shut?)
            && (l == HolidayOrEarlyClose <==> session.Trading? && !inside)
            && (l == OpenRthAbsent <==> regular)
            && (l == OpenGlobexAbsent <==> inside && !regular && TradingDate(s, t).On?)
            && (l == ScheduledClosure <==> inside && !regular && !TradingDate(s, t).On?)
  {
    SnapshotForCovers(ScheduleDate(t), snapshots);
    hide TradingDate, ScheduleDate;
  }

  lemma {:induction false} SnapshotForCovers(day: int, snapshots: seq<Snapshot>)
    requires SnapshotFor(day, snapshots).Some?
    ensures Covers(SnapshotFor(day, snapshots).value, day)
    ensures SnapshotFor(day, snapshots).value in snapshots
  {
    if !Covers(snapshots[0], day) {
      SnapshotForCovers(day, snapshots[1..]);
    }
  }

  /** Otherwise the minute belongs to the weekend before a covered Monday: the whole-array label is the
      weekend closure, and the per-minute classifier also calls the minute closed unless the Monday's
      regular trading hours have been moved to include it. */
  lemma WeekendBeforeCoveredMonday(t: int, snapshots: seq<Snapshot>)
    requires !Overridden(t, snapshots) && SnapshotFor(ScheduleDate(t), snapshots).Some?
    ensures Weekday(ScheduleDate(t)) == 0 && GapLabel(t, snapshots) == WeekendClosure
    ensures var found := SessionFor(SnapshotFor(ScheduleDate(t), snapshots).value, ScheduleDate(t));
      var session := if found.Some? then found.value else Shut;
      IsClosed(ClassifyMinute(t, snapshots)) <==>
        !(&& session.Trading? && session.hours.globexOpen <= t < session.hours.globexClose
          && session.hours.rthStart <= t < session.hours.rthEnd)
  {
    var date := ScheduleDate(t);
    SnapshotForCovers(date, snapshots);
    OutsideSpan(t, SnapshotFor(date, snapshots).value);
  }

  /** Before the span of a snapshot that covers the minute's schedule date, it is the weekend. */
  lemma OutsideSpan(t: int, s: Snapshot)
    requires Covers(s, ScheduleDate(t)) && !(SpanStart(s) <= t < SpanEnd(s))
    ensures Weekday(ScheduleDate(t)) == 0 && ByRecurringRules(t) == VectorLabel(t) == WeekendClosure
    ensures TradingDate(s, t).Closure?
  {
    hide ByRecurringRules, VectorLabel, TradingDate, SessionFor, Interrupted, Weekday;
    var day, minute := DayOf(t), MinuteOf(t);
    assert t == At(day, minute) && 0 <= minute < DAY;
    assert day < s.coverageStart && (minute >= EVENING ==> day < s.coverageStart - 1);
    OpensLater(t);
    VectorFollowsRules(t);
    WeekendIsClosed(t, s);
  }

  /** Only at a weekend does the schedule date lie further ahead than the next evening. */
  lemma OpensLater(t: int)
    requires DayOf(t) < ScheduleDate(t) && (MinuteOf(t) >= EVENING ==> DayOf(t) + 1 < ScheduleDate(t))
    ensures Weekday(ScheduleDate(t)) == 0
    ensures if MinuteOf(t) >= EVENING then Weekday(DayOf(t)) == 4 || Weekday(DayOf(t)) == 5
            else Weekday(DayOf(t)) == 6
  {
    hide DayOf, MinuteOf;
  }

  lemma WeekendIsClosed(t: int, s: Snapshot)
    requires if MinuteOf(t) >= EVENING then Weekday(DayOf(t)) == 4 || Weekday(DayOf(t)) == 5
             else Weekday(DayOf(t)) == 6
    ensures VectorLabel(t) == WeekendClosure && TradingDate(s, t).Closure?
  {
    hide SessionFor, Interrupted;
    assert t == At(DayOf(t), MinuteOf(t)) && 0 <= MinuteOf(t) < DAY;
    if MinuteOf(t) >= 60 {
      assert DayOf(Chicago(t)) == DayOf(t) && MinuteOf(Chicago(t)) == MinuteOf(t) - 60;
    } else {
      assert DayOf(Chicago(t)) == DayOf(t) - 1 && MinuteOf(Chicago(t)) == MinuteOf(t) + DAY - 60;
    }
  }

  /** Such a minute: a Monday's special session whose regular trading hours begin on the Saturday before. */
  lemma ClassifiersCanDisagree()
    ensures var x := Exception(Special, Some(Exact(At(5, 0))), Some(Clock(960)), Some(Exact(At(5, 0))),
                               Some(Clock(1020)), []);
            var s := Snapshot(7, 11, map[7 := x], 570, 960, EVENING, AFTERNOON);
            var t := At(5, 1200);
            && ValidSnapshot(s) && !Overridden(t, [s])
            && GapLabel(t, [s]) == WeekendClosure && ClassifyMinute(t, [s]) == OpenRthAbsent
  {
    assert SkipWeekend(6) == 7;
  }

  /** Under a snapshot a minute is labelled open exactly when the session calendar expects it, or when the
      session's regular trading hours include it; and the calendar's trade date is the schedule date. */
  lemma OpenExactlyWhenExpected(t: int, snapshots: seq<Snapshot>)
    requires SnapshotFor(ScheduleDate(t), snapshots).Some?
    ensures var s := SnapshotFor(ScheduleDate(t), snapshots).value;
            var found := SessionFor(s, ScheduleDate(t));
            var session := if found.Some? then found.value else Shut;
            && (TradingDate(s, t).On? ==> TradingDate(s, t) == On(ScheduleDate(t)))
            && (OpenAbsence(ClassifyMinute(t, snapshots)) <==>
                  || TradingDate(s, t).On?
                  || (&& session.Trading? && session.hours.globexOpen <= t < session.hours.globexClose
                      && session.hours.rthStart <= t < session.hours.rthEnd))
            && (ClassifyMinute(t, snapshots).OpenGlobexAbsent? ==> TradingDate(s, t) == On(ScheduleDate(t)))
  {
    hide Interrupted;
    SnapshotForCovers(ScheduleDate(t), snapshots);
  }

  /** What becomes of a label: a closure stays, and an open minute takes the label of its source. */
  lemma ResolvedExactly(l: Label, c: Condition)
    requires IsClosed(l) || OpenAbsence(l)
    ensures IsClosed(l) ==> Resolve(l, c) == l
    ensures !IsClosed(l) ==>
              (Resolve(l, c) == SparseAbsence <==> c == Available)
              && (Resolve(l, c) == DegradedAbsence <==> c == Degraded)
              && (Resolve(l, c) == UnknownAbsence <==> c == Unstated)
  {
  }

  /** The five statuses of a gap, each exactly: nothing missing; some open minute on a day whose source is degraded
      or unstated; otherwise all missing minutes open, some open and some closed, or all closed. */
  lemma StatusMeaning(first: int, total: nat, snapshots: seq<Snapshot>, condition: int -> Condition)
    ensures var plain, conditions := PlainLabels(first, total, snapshots), Conditions(first, total, condition);
            var status := StatusOf(ResolveAll(plain, conditions));
            && (status == NoMissing <==> total == 0)
            && (status == Unresolved <==>
                  exists i :: 0 <= i < total && !IsClosed(plain[i]) && !conditions[i].Available?)
            && (status == SparseOnly <==>
                  total > 0 && forall i :: 0 <= i < total ==> !IsClosed(plain[i]) && conditions[i].Available?)
            && (status == SparseAndClosed <==>
                  && (forall i :: 0 <= i < total ==> IsClosed(plain[i]) || conditions[i].Available?)
                  && (exists i :: 0 <= i < total && !IsClosed(plain[i]))
                  && exists i :: 0 <= i < total && IsClosed(plain[i]))
            && (status == VerifiedClosure <==> total > 0 && forall i :: 0 <= i < total ==> IsClosed(plain[i]))
  {
    hide GapLabel;
    var plain, conditions := PlainLabels(first, total, snapshots), Conditions(first, total, condition);
    forall i | 0 <= i < total ensures IsClosed(plain[i]) || OpenAbsence(plain[i]) {
      NeverAbsent(first + i, snapshots);
    }
    ResolvedStatus(plain, conditions);
  }

  /** Which labels occur after resolving. */
  lemma ResolvedLabels(plain: seq<Label>, conditions: seq<Condition>)
    requires |plain| == |conditions|
    requires forall i :: 0 <= i < |plain| ==> IsClosed(plain[i]) || OpenAbsence(plain[i])
    ensures var labels := ResolveAll(plain, conditions);
            && OpenRthAbsent !in labels && OpenGlobexAbsent !in labels
            && (SparseAbsence in labels <==>
                  exists i :: 0 <= i < |plain| && !IsClosed(plain[i]) && conditions[i].Available?)
            && (DegradedAbsence in labels || UnknownAbsence in labels <==>
                  exists i :: 0 <= i < |plain| && !IsClosed(plain[i]) && !conditions[i].Available?)
  {
    var labels := ResolveAll(plain, conditions);
    forall i | 0 <= i < |plain|
      ensures labels[i] in labels && labels[i] == Resolve(plain[i], conditions[i])
    {
    }
  }

  lemma ResolvedStatus(plain: seq<Label>, conditions: seq<Condition>)
    requires |plain| == |conditions|
    requires forall i :: 0 <= i < |plain| ==> IsClosed(plain[i]) || OpenAbsence(plain[i])
    ensures var status := StatusOf(ResolveAll(plain, conditions));
            && (status == NoMissing <==> |plain| == 0)
    ensures var status := StatusOf(ResolveAll(plain, conditions));
            && (status == Unresolved <==>
                  exists i :: 0 <= i < |plain| && !IsClosed(plain[i]) && !conditions[i].Available?)
    ensures var status := StatusOf(ResolveAll(plain, conditions));
            && (status == SparseOnly <==>
                  |plain| > 0 && forall i :: 0 <= i < |plain| ==> !IsClosed(plain[i]) && conditions[i].Available?)
    ensures var status := StatusOf(ResolveAll(plain, conditions));
            && (status == SparseAndClosed <==>
                  && (forall i :: 0 <= i < |plain| ==> IsClosed(plain[i]) || conditions[i].Available?)
                  && (exists i :: 0 <= i < |plain| && !IsClosed(plain[i]))
                  && exists i :: 0 <= i < |plain| && IsClosed(plain[i]))
    ensures var status := StatusOf(ResolveAll(plain, conditions));
            && (status == VerifiedClosure <==> |plain| > 0 && forall i :: 0 <= i < |plain| ==> IsClosed(plain[i]))
  {
    var labels := ResolveAll(plain, conditions);
    ResolvedLabels(plain, conditions);
    forall i | 0 <= i < |plain|
      ensures labels[i] == SparseAbsence <==> !IsClosed(plain[i]) && conditions[i].Available?
    {
      ResolvedExactly(plain[i], conditions[i]);
    }
    hide ResolveAll, Resolve, IsClosed, OpenAbsence;
    var late := exists i :: 0 <= i < |plain| && !IsClosed(plain[i]) && !conditions[i].Available?;
    var sparse := exists i :: 0 <= i < |plain| && !IsClosed(plain[i]) && conditions[i].Available?;
    var only := |plain| > 0 && forall i :: 0 <= i < |plain| ==> !IsClosed(plain[i]) && conditions[i].Available?;
    if only {
      assert !IsClosed(plain[0]) && conditions[0].Available?;
    }
    if labels != [] && !late && sparse {
      AllAreSparse(labels);
      assert StatusOf(labels).SparseOnly? <==> forall i :: 0 <= i < |labels| ==> labels[i] == SparseAbsence;
      assert StatusOf(labels).SparseOnly? <==> only;
    }
  }

  /** Labels among which there is a sparse absence are all alike exactly when all are sparse absences. */
  lemma AllAreSparse(labels: seq<Label>)
    requires SparseAbsence in labels
    ensures (forall i :: 0 <= i < |labels| ==> labels[i] == labels[0])
       <==> forall i :: 0 <= i < |labels| ==> labels[i] == SparseAbsence
  {
    var k :| 0 <= k < |labels| && labels[k] == SparseAbsence;
  }

  lemma NeverAbsent(t: int, snapshots: seq<Snapshot>)
    ensures var l := GapLabel(t, snapshots); IsClosed(l) || OpenAbsence(l)
  {
  }
}

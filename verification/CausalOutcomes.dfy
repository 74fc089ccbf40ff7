/** What every update of the stream gives back, and when and from what every model is fitted, told from the
    observations alone.
 */
module CausalOutcomes {
  import opened Options
  import opened CalendarMonths
  import opened CompactHistory
  import opened CausalRules
  import opened CausalStream
  import opened CausalWindows
  import opened CausalTheorems

  // ---------------------------------------------------------------------------------------------
  // The observations that are taken
  // ---------------------------------------------------------------------------------------------

  /** Every earlier time is smaller. */
  ghost predicate InTime(inputs: seq<Input>, i: int)
    requires 0 <= i < |inputs|
  {
    forall j :: 0 <= j < i ==> inputs[j].time < inputs[i].time
  }

  /** In time, eligible, and with a value in each of the six feature columns. */
  ghost predicate Taken(inputs: seq<Input>, i: int)
    requires 0 <= i < |inputs|
  {
    && InTime(inputs, i) && inputs[i].eligible
    && |inputs[i].row| >= 6 && forall k :: 0 <= k < 6 ==> inputs[i].row[k].Some?
  }

  /** The last time is the largest of all times. */
  lemma {:induction false} LastIsLargest(inputs: seq<Input>)
    ensures LastTime(inputs).None? <==> inputs == []
    ensures inputs != [] ==> exists j :: 0 <= j < |inputs| && inputs[j].time == LastTime(inputs).value
    ensures forall j :: 0 <= j < |inputs| ==> inputs[j].time <= LastTime(inputs).value
  {
    if inputs != [] {
      var n := |inputs| - 1;
      var before := inputs[..n];
      LastIsLargest(before);
      assert forall j :: 0 <= j < n ==> inputs[j] == before[j];
      if n > 0 {
        var j :| 0 <= j < n && before[j].time == LastTime(before).value;
        assert inputs[j].time == LastTime(before).value;
      }
      assert inputs[n].time == inputs[n].time;
    }
  }

  lemma LateOrInTime(inputs: seq<Input>, i: nat)
    requires i < |inputs|
    ensures LastTime(inputs[..i]).Some? && inputs[i].time <= LastTime(inputs[..i]).value <==> !InTime(inputs, i)
  {
    var before := inputs[..i];
    LastIsLargest(before);
    hide LastTime;
    assert forall j :: 0 <= j < i ==> inputs[j] == before[j];
    if i > 0 {
      var j :| 0 <= j < i && before[j].time == LastTime(before).value;
      assert inputs[j].time == LastTime(before).value;
    }
  }

  /** The rows that are kept of a run are those of the observations taken, in order. */
  lemma AcceptedOneMore(inputs: seq<Input>, i: nat)
    requires i < |inputs|
    ensures Accepted(inputs[..0]) == []
    ensures Accepted(inputs[..i + 1])
         == Accepted(inputs[..i]) + if Taken(inputs, i) then [Obs(inputs[i].time, inputs[i].row)] else []
  {
    hide LastTime;
    var all := inputs[..i + 1];
    assert all[..i] == inputs[..i] && all[i] == inputs[i];
    LateOrInTime(inputs, i);
  }

  // ---------------------------------------------------------------------------------------------
  // One update of the reference stream
  // ---------------------------------------------------------------------------------------------

  /** Why the observation is followed by a fit. */
  predicate FitsNow(cfg: Config, r: Snapshot, x: Input) {
    && !TooEarly(r, x.time) && x.eligible && Finite(x.row)
    && FitDue(cfg, EnterTime(cfg, r, x), x.time) && |Window(cfg, r.rows, x.time)| >= cfg.minTrainValid
  }

  lemma RefStep(cfg: Config, o: Oracle, r: Snapshot, x: Input)
    requires forall i :: 0 <= i < |r.rows| ==> Finite(r.rows[i].row)
    ensures var (t, out) := RefUpdate(cfg, o, r, x);
            && (out.Rejected? <==> TooEarly(r, x.time))
            && (out.Emitted? <==> !TooEarly(r, x.time) && x.eligible && Finite(x.row) && t.fit.Some?)
    ensures var (t, out) := RefUpdate(cfg, o, r, x);
            && t.fitCount == r.fitCount + (if FitsNow(cfg, r, x) then 1 else 0)
            && t.fit == (if FitsNow(cfg, r, x) then Some(NewFit(cfg, o, x.time, Window(cfg, r.rows, x.time)))
                         else r.fit)
    ensures var (t, out) := RefUpdate(cfg, o, r, x);
            && (FitsNow(cfg, r, x) ==> out.Emitted?)
    ensures var (t, out) := RefUpdate(cfg, o, r, x);
            && t.events == r.events + (if FitsNow(cfg, r, x)
                                       then [Event(t, |Window(cfg, r.rows, x.time)|, r.lastEmitted, out)] else [])
    ensures var (t, out) := RefUpdate(cfg, o, r, x);
            && (out.Emitted? ==>
                  var carried := if FitsNow(cfg, r, x) then None else r.logPosterior;
                  (out.state, out.posterior) == o.filter(t.fit.value.model, x.row, carried))
  {
    hide AddCalendarMonths, FiniteRows, FeatureMatrix, AllColumns, CountEmission, Finite, Window;
    WindowFinite(cfg, r.rows, x.time);
  }

  function Event(t: Snapshot, rows: nat, previous: Option<State>, out: Outcome): RefitEvent
    requires t.fit.Some? && out.Emitted?
  {
    var f := t.fit.value;
    RefitEvent(t.fitCount, f.fitTime, rows, f.start, f.lastTraining, f.validRows, f.trainingDigest,
               previous, out.state, out.posterior)
  }

  lemma {:induction false} WindowFinite(cfg: Config, rows: seq<Obs>, time: int)
    requires forall i :: 0 <= i < |rows| ==> Finite(rows[i].row)
    ensures FiniteRows(Window(cfg, rows, time)) == Window(cfg, rows, time)
  {
    hide Finite, InWindow;
    if rows != [] {
      var n := |rows| - 1;
      WindowFinite(cfg, rows[..n], time);
      var front := Window(cfg, rows[..n], time);
      assert front + [] == front && (front + [rows[n]])[..|front|] == front;
      assert FiniteRows(front + [rows[n]]) == front + [rows[n]];
    }
  }

  /** The stream and the reference agree on everything but the rows stored; the reference stores all of them. */
  lemma RunIsReference(cfg: Config, o: Oracle, inputs: seq<Input>)
    requires ValidConfig(cfg)
    ensures var s, r := Run(cfg, o, inputs), RefRun(cfg, o, inputs);
            && s == r.(rows := s.rows) && r.rows == Accepted(inputs) && r.last == LastTime(inputs)
            && Stored(r.rows, r.last) && FitKnown(cfg, r)
    ensures forall i :: 0 <= i < |Accepted(inputs)| ==> Finite(Accepted(inputs)[i].row)
  {
    hide Run, RefRun, Accepted, LastTime, Stored, FitKnown, Finite;
    var k := PruningIsInvisible(cfg, o, inputs);
    RelatedParts(cfg, Run(cfg, o, inputs), RefRun(cfg, o, inputs), k);
    ReferenceKeepsEverything(cfg, o, inputs);
    AcceptedFinite(inputs);
  }

  lemma {:induction false} AcceptedFinite(inputs: seq<Input>)
    ensures forall i :: 0 <= i < |Accepted(inputs)| ==> Finite(Accepted(inputs)[i].row)
  {
    hide Finite, LastTime;
    if inputs != [] {
      AcceptedFinite(inputs[..|inputs| - 1]);
    }
  }

  /** Outcome `i` is that of one more update of the reference. */
  lemma OutcomeAt(cfg: Config, o: Oracle, inputs: seq<Input>, i: nat)
    requires ValidConfig(cfg) && i < |inputs|
    ensures RefRun(cfg, o, inputs[..i + 1]) == RefUpdate(cfg, o, RefRun(cfg, o, inputs[..i]), inputs[i]).0
    ensures Outcomes(cfg, o, inputs)[i] == RefUpdate(cfg, o, RefRun(cfg, o, inputs[..i]), inputs[i]).1
  {
    hide RefUpdate, Related;
    var k := PruningIsInvisible(cfg, o, inputs);
    assert inputs[..i + 1][..i] == inputs[..i];
    RefOutcomeAt(cfg, o, inputs, i);
  }

  lemma {:induction false} RefOutcomeAt(cfg: Config, o: Oracle, inputs: seq<Input>, i: nat)
    requires i < |inputs|
    ensures RefOutcomes(cfg, o, inputs)[i] == RefUpdate(cfg, o, RefRun(cfg, o, inputs[..i]), inputs[i]).1
  {
    hide RefUpdate;
    var n := |inputs| - 1;
    if i < n {
      RefOutcomeAt(cfg, o, inputs[..n], i);
      assert inputs[..n][..i] == inputs[..i];
    }
  }

  // ---------------------------------------------------------------------------------------------
  // What an update gives back
  // ---------------------------------------------------------------------------------------------

  /** Dropping rows before `time` changes nothing of those since. */
  lemma SinceSuffix(rows: seq<Obs>, k: nat, time: int)
    requires k <= |rows| && Chronological(rows) && forall j :: 0 <= j < k ==> rows[j].time < time
    ensures Since(rows[k..], time) == Since(rows, time)
  {
    hide LowerBound, Chronological;
    LowerBoundSplits(rows, time);
    var p := LowerBound(rows, time);
    assert k > 0 ==> rows[k - 1].time < time;
    forall j | 0 <= j < |rows| - k ensures rows[k..][j].time < time <==> j < p - k {
      assert rows[k..][j] == rows[k + j];
    }
    LowerBoundUnique(rows[k..], time, p - k);
    assert rows[k..][p - k..] == rows[p..];
  }

  /** The rows since a time are the last ones, all of them not before it, and the others are. */
  lemma SinceExactly(rows: seq<Obs>, time: int)
    requires Chronological(rows)
    ensures var n := |rows| - |Since(rows, time)|;
            && 0 <= n && Since(rows, time) == rows[n..]
            && (forall j :: 0 <= j < n ==> rows[j].time < time)
            && forall j :: n <= j < |rows| ==> rows[j].time >= time
  {
    hide LowerBound, Chronological;
    LowerBoundSplits(rows, time);
  }

  /** The posterior the stream carries, in terms of all rows taken. */
  lemma CarriedIsFiltered(cfg: Config, o: Oracle, inputs: seq<Input>)
    requires ValidConfig(cfg) && Run(cfg, o, inputs).fit.Some?
    ensures var s := Run(cfg, o, inputs);
            s.logPosterior == FilterLog(o, s.fit.value.model, Since(Accepted(inputs), s.fit.value.fitTime))
  {
    hide Run, RefRun, Accepted, Since, FilterLog, AddCalendarMonths, Chronological, LastTime;
    var s, r := Run(cfg, o, inputs), RefRun(cfg, o, inputs);
    PosteriorOverRuns(cfg, o, inputs);
    var k := PruningIsInvisible(cfg, o, inputs);
    RunIsReference(cfg, o, inputs);
    if k > 0 {
      WindowStartsBefore(cfg, s.fit.value.fitTime);
    }
    SinceSuffix(r.rows, k, s.fit.value.fitTime);
  }

  /** An observation is refused exactly when an earlier one has the same time or a later one. A state is given
      back exactly for the observations taken from the first fit on. With the posterior it is what one filter step
      of the active model gives on this row, after the filter has gone over all rows taken since the model was
      fitted; and this posterior ends the filtering of these rows together with this one. */
  lemma OutcomesAreFiltered(cfg: Config, o: Oracle, inputs: seq<Input>, i: nat)
    requires ValidConfig(cfg) && i < |inputs|
    ensures var out, fit := Outcomes(cfg, o, inputs)[i], Run(cfg, o, inputs[..i + 1]).fit;
            && (out.Rejected? <==> exists j :: 0 <= j < i && inputs[j].time >= inputs[i].time)
            && (out.Emitted? <==> Taken(inputs, i) && fit.Some?)
            && (out.Emitted? ==>
                  var rows := Since(Accepted(inputs[..i + 1]), fit.value.fitTime);
                  && rows != [] && rows[|rows| - 1] == Obs(inputs[i].time, inputs[i].row)
                  && (out.state, out.posterior)
                     == o.filter(fit.value.model, inputs[i].row, FilterLog(o, fit.value.model, rows[..|rows| - 1]))
                  && Some(out.posterior) == FilterLog(o, fit.value.model, rows))
  {
    hide Run, RefRun, Accepted, Since, FilterLog, AddCalendarMonths, Chronological, Stored, LastTime, Outcomes,
         RefUpdate, FitsNow;
    var before, after := inputs[..i], inputs[..i + 1];
    var r, x, out := RefRun(cfg, o, before), inputs[i], Outcomes(cfg, o, inputs)[i];
    RunIsReference(cfg, o, before);
    RunIsReference(cfg, o, after);
    OutcomeAt(cfg, o, inputs, i);
    RefStep(cfg, o, r, x);
    LateOrInTime(inputs, i);
    AcceptedOneMore(inputs, i);
    if out.Emitted? {
      var fit := Run(cfg, o, after).fit.value;
      var obs := Obs(x.time, x.row);
      StoredAppend(r.rows, r.last, obs);
      if FitsNow(cfg, r, x) {
        FittedNow(o, r.rows, obs, fit);
      } else {
        CarriedIsFiltered(cfg, o, before);
        FittedBefore(o, r.rows, obs, fit);
      }
    }
  }

  /** Right after a fit there is only this row to filter. */
  lemma FittedNow(o: Oracle, rows: seq<Obs>, obs: Obs, fit: Fit)
    requires Chronological(rows + [obs]) && fit.fitTime == obs.time
    ensures Since(rows + [obs], fit.fitTime) == [obs]
    ensures FilterLog(o, fit.model, []) == None
    ensures FilterLog(o, fit.model, [obs]) == Some(o.filter(fit.model, obs.row, None).1)
  {
    hide Since, FilterLog;
    SinceAppend(rows, obs, obs.time);
    NothingFiltered(o, fit.model);
    FilterOne(o, fit.model, [], obs);
    assert [] + [obs] == [obs];
  }

  /** Later rows are filtered from the posterior carried. */
  lemma FittedBefore(o: Oracle, rows: seq<Obs>, obs: Obs, fit: Fit)
    requires Chronological(rows + [obs]) && fit.fitTime <= obs.time
    ensures Since(rows + [obs], fit.fitTime) == Since(rows, fit.fitTime) + [obs]
    ensures var log := FilterLog(o, fit.model, Since(rows, fit.fitTime));
            FilterLog(o, fit.model, Since(rows, fit.fitTime) + [obs]) == Some(o.filter(fit.model, obs.row, log).1)
  {
    hide Since, FilterLog;
    SinceAppend(rows, obs, fit.fitTime);
    FilterOne(o, fit.model, Since(rows, fit.fitTime), obs);
  }

  /** State and posterior `k` come from row `k` and the posterior before it, the first from none. */
  ghost predicate Link(o: Oracle, model: Model, rows: seq<Obs>, states: seq<State>, logs: seq<LogPosterior>, k: nat)
    requires |states| == |logs| == |rows| && k < |rows|
  {
    (states[k], logs[k]) == o.filter(model, rows[k].row, if k == 0 then None else Some(logs[k - 1]))
  }

  /** States and posteriors of one model over rows, one after the other. */
  ghost predicate Chained(o: Oracle, model: Model, rows: seq<Obs>, states: seq<State>, logs: seq<LogPosterior>) {
    |states| == |logs| == |rows| && forall k: nat :: k < |rows| ==> Link(o, model, rows, states, logs, k)
  }

  lemma {:induction false} ChainsAgree(o: Oracle, model: Model, rows: seq<Obs>, states: seq<State>,
                                       logs: seq<LogPosterior>, k: nat)
    requires Chained(o, model, rows, states, logs) && k <= |rows|
    ensures FilterLog(o, model, rows[..k]) == if k == 0 then None else Some(logs[k - 1])
  {
    hide FilterLog;
    NothingFiltered(o, model);
    if k == 0 {
      assert rows[..0] == [];
    } else {
      ChainsAgree(o, model, rows, states, logs, k - 1);
      assert rows[..k] == rows[..k - 1] + [rows[k - 1]];
      FilterOne(o, model, rows[..k - 1], rows[k - 1]);
      assert Link(o, model, rows, states, logs, k - 1);
    }
  }

  /** Every list of rows has such a chain. */
  lemma {:induction false} ChainExists(o: Oracle, model: Model, rows: seq<Obs>)
    returns (states: seq<State>, logs: seq<LogPosterior>)
    ensures Chained(o, model, rows, states, logs)
  {
    states, logs := [], [];
    if rows != [] {
      var n := |rows| - 1;
      var early, before := ChainExists(o, model, rows[..n]);
      var (state, log) := o.filter(model, rows[n].row, if n == 0 then None else Some(before[n - 1]));
      states, logs := early + [state], before + [log];
      forall k: nat | k < |rows| ensures Link(o, model, rows, states, logs, k) {
        if k < n {
          assert Link(o, model, rows[..n], early, before, k);
        }
      }
    }
  }

  /** Whatever chain the active model makes of the rows taken since its fit, an emitted pair is its last one. */
  lemma EmittedEndsTheChain(cfg: Config, o: Oracle, inputs: seq<Input>, i: nat, states: seq<State>,
                            logs: seq<LogPosterior>)
    requires ValidConfig(cfg) && i < |inputs| && Outcomes(cfg, o, inputs)[i].Emitted?
    requires Run(cfg, o, inputs[..i + 1]).fit.Some? ==>
               var fit := Run(cfg, o, inputs[..i + 1]).fit.value;
               Chained(o, fit.model, Since(Accepted(inputs[..i + 1]), fit.fitTime), states, logs)
    ensures |states| == |logs| > 0
    ensures Outcomes(cfg, o, inputs)[i] == Emitted(states[|states| - 1], logs[|logs| - 1])
  {
    hide Run, Accepted, Since, FilterLog, Outcomes, Taken;
    OutcomesAreFiltered(cfg, o, inputs, i);
    var fit := Run(cfg, o, inputs[..i + 1]).fit.value;
    var rows := Since(Accepted(inputs[..i + 1]), fit.fitTime);
    var last := |rows| - 1;
    ChainsAgree(o, fit.model, rows, states, logs, last);
    assert Link(o, fit.model, rows, states, logs, last);
  }

  // ---------------------------------------------------------------------------------------------
  // When and from what a model is fitted
  // ---------------------------------------------------------------------------------------------

  /** The first observation that is eligible and in time. */
  ghost predicate Opens(inputs: seq<Input>, j: int)
    requires 0 <= j < |inputs|
  {
    && InTime(inputs, j) && inputs[j].eligible
    && forall k :: 0 <= k < j ==> !(InTime(inputs, k) && inputs[k].eligible)
  }

  lemma {:induction false} FirstEligibleOpens(inputs: seq<Input>, n: nat)
    requires n <= |inputs|
    ensures FirstEligible(inputs[..n]).None? <==> forall k :: 0 <= k < n ==> !(InTime(inputs, k) && inputs[k].eligible)
    ensures FirstEligible(inputs[..n]).Some? ==>
              exists j :: 0 <= j < n && Opens(inputs, j) && FirstEligible(inputs[..n]).value == inputs[j].time
  {
    if n > 0 {
      hide InTime, LastTime;
      FirstEligibleOpens(inputs, n - 1);
      LateOrInTime(inputs, n - 1);
      assert inputs[..n][..n - 1] == inputs[..n - 1];
      if FirstEligible(inputs[..n - 1]).None? && InTime(inputs, n - 1) && inputs[n - 1].eligible {
        assert Opens(inputs, n - 1);
      }
    }
  }

  /** The schedule asks for a fit at observation `i`. */
  ghost predicate Due(cfg: Config, inputs: seq<Input>, i: nat, fitTime: Option<int>)
    requires i < |inputs|
  {
    match fitTime
    case Some(fitted) => inputs[i].time >= AddCalendarMonths(fitted, cfg.refitMonths)
    case None =>
      cfg.schedule.Rolling? ==>
        exists j :: 0 <= j <= i && Opens(inputs, j)
                    && inputs[i].time >= AddCalendarMonths(inputs[j].time, 12 * cfg.schedule.years)
  }

  /** The rows a fit of `time` trains on: those before it and, for a rolling stream, not before its window. They keep
      their order. */
  lemma {:induction false} WindowExactly(cfg: Config, rows: seq<Obs>, time: int)
    requires Chronological(rows)
    ensures Chronological(Window(cfg, rows, time))
    ensures forall r :: r in Window(cfg, rows, time) <==>
              && r in rows && r.time < time
              && (cfg.schedule.Rolling? ==> r.time >= AddCalendarMonths(time, -12 * cfg.schedule.years))
  {
    hide AddCalendarMonths;
    if rows != [] {
      var n := |rows| - 1;
      WindowExactly(cfg, rows[..n], time);
      assert rows == rows[..n] + [rows[n]];
      assert forall r :: r in Window(cfg, rows[..n], time) ==> r.time < rows[n].time;
    }
  }

  lemma ScheduleKnows(cfg: Config, o: Oracle, inputs: seq<Input>)
    requires ValidConfig(cfg)
    ensures var s := Run(cfg, o, inputs);
            && s.anchor == FirstEligible(inputs)
            && (s.fit.Some? ==> s.fit.value.nextRefit == AddCalendarMonths(s.fit.value.fitTime, cfg.refitMonths))
            && (cfg.schedule.Rolling? ==>
                  s.initialFit == if s.anchor.None? then None
                                  else Some(AddCalendarMonths(s.anchor.value, 12 * cfg.schedule.years)))
  {
    hide Run, AddCalendarMonths, FirstEligible, Stored, CausalEvent, Spaced, Finite;
    ScheduleOverRuns(cfg, o, inputs);
    CountersOverRuns(cfg, o, inputs);
  }

  /** The time from which a rolling stream may be fitted first is counted from the observation that opens it. */
  lemma FirstFitDue(cfg: Config, inputs: seq<Input>, i: nat)
    requires i < |inputs| && cfg.schedule.Rolling? && Taken(inputs, i)
    ensures var first := FirstEligible(inputs[..i]);
            var opening := if first.Some? then first.value else inputs[i].time;
            inputs[i].time >= AddCalendarMonths(opening, 12 * cfg.schedule.years) <==> Due(cfg, inputs, i, None)
  {
    hide AddCalendarMonths, FirstEligible;
    FirstEligibleOpens(inputs, i);
    hide InTime;
    if FirstEligible(inputs[..i]).None? {
      assert Opens(inputs, i);
    }
  }

  /** What the schedule of the stream knows, told from the observations. */
  lemma DueExactly(cfg: Config, o: Oracle, inputs: seq<Input>, i: nat)
    requires ValidConfig(cfg) && i < |inputs| && Taken(inputs, i)
    ensures var s := Run(cfg, o, inputs[..i]);
            var fitted := if s.fit.Some? then Some(s.fit.value.fitTime) else None;
            FitDue(cfg, EnterTime(cfg, s, inputs[i]), inputs[i].time) <==> Due(cfg, inputs, i, fitted)
  {
    hide Run, AddCalendarMonths, FirstEligible, Opens, InTime;
    ScheduleKnows(cfg, o, inputs[..i]);
    if cfg.schedule.Rolling? {
      FirstFitDue(cfg, inputs, i);
      hide Due;
    }
  }

  /** A model is fitted exactly after an observation that is taken when the schedule asks for it and its window holds
      enough rows. It is fitted on the six feature columns of these rows in order, and everything recorded of it is
      what the window, the time and the model say. Otherwise the model stays. */
  lemma FitsExactly(cfg: Config, o: Oracle, inputs: seq<Input>, i: nat)
    returns (features: seq<Row>, whole: seq<Row>)
    requires ValidConfig(cfg) && i < |inputs|
    ensures var before, after, time := Run(cfg, o, inputs[..i]), Run(cfg, o, inputs[..i + 1]), inputs[i].time;
            var window := Window(cfg, Accepted(inputs[..i]), time);
            var first := if window == [] then None else Some(window[0].time);
            var last := if window == [] then None else Some(window[|window| - 1].time);
            && |features| == |whole| == |window|
            && (forall k :: 0 <= k < |window| ==>
                  |window[k].row| >= 6 && features[k] == window[k].row[..6] && whole[k] == window[k].row)
            && if Taken(inputs, i) && |window| >= cfg.minTrainValid
                  && Due(cfg, inputs, i, if before.fit.Some? then Some(before.fit.value.fitTime) else None) then
                 && after.fitCount == before.fitCount + 1
                 && after.fit == Some(Fit(o.fit(features), time, first, last, |window|,
                                          AddCalendarMonths(time, cfg.refitMonths), o.fingerprint(window),
                                          if cfg.rthOnly && window != [] then Some(o.s2(whole, o.fit(features)))
                                          else None))
                 && Outcomes(cfg, o, inputs)[i].Emitted?
                 && var out := Outcomes(cfg, o, inputs)[i];
                    after.events == before.events
                      + [RefitEvent(after.fitCount, time, |window|, first, last, |window|, o.fingerprint(window),
                                    before.lastEmitted, out.state, out.posterior)]
               else after.fitCount == before.fitCount && after.fit == before.fit && after.events == before.events
  {
    hide Run, RefRun, Accepted, AddCalendarMonths, Chronological, Stored, LastTime, Outcomes, RefUpdate, Due, FitDue,
         Window, EnterTime, FitsNow, FitKnown, Finite, FiniteRows, FeatureMatrix, AllColumns;
    var before, x := inputs[..i], inputs[i];
    var r, window := RefRun(cfg, o, before), Window(cfg, Accepted(before), x.time);
    RunIsReference(cfg, o, before);
    RunIsReference(cfg, o, inputs[..i + 1]);
    OutcomeAt(cfg, o, inputs, i);
    RefStep(cfg, o, r, x);
    WindowFinite(cfg, r.rows, x.time);
    WindowRows(cfg, r.rows, x.time);
    features, whole := FeatureMatrix(window), AllColumns(window);
    FitsNowExactly(cfg, o, inputs, i);
    hide Taken;
  }

  lemma FitsNowExactly(cfg: Config, o: Oracle, inputs: seq<Input>, i: nat)
    requires ValidConfig(cfg) && i < |inputs|
    ensures var s, r := Run(cfg, o, inputs[..i]), RefRun(cfg, o, inputs[..i]);
            var fitted := if s.fit.Some? then Some(s.fit.value.fitTime) else None;
            FitsNow(cfg, r, inputs[i]) == (&& Taken(inputs, i) && Due(cfg, inputs, i, fitted)
                                           && |Window(cfg, r.rows, inputs[i].time)| >= cfg.minTrainValid)
    ensures RefRun(cfg, o, inputs[..i]).rows == Accepted(inputs[..i])
  {
    hide Run, RefRun, Accepted, AddCalendarMonths, Chronological, Stored, LastTime, Due, Window, FitKnown, Finite;
    RunIsReference(cfg, o, inputs[..i]);
    LateOrInTime(inputs, i);
    FiniteTaken(inputs[i].row);
    if Taken(inputs, i) {
      DueExactly(cfg, o, inputs, i);
    }
  }

  lemma FiniteTaken(row: Row)
    ensures Finite(row) <==> |row| >= 6 && forall k :: 0 <= k < 6 ==> row[k].Some?
  {
  }

  lemma WindowRows(cfg: Config, rows: seq<Obs>, time: int)
    requires forall i :: 0 <= i < |rows| ==> Finite(rows[i].row)
    ensures var window := Window(cfg, rows, time);
            forall k :: 0 <= k < |window| ==>
              |window[k].row| >= 6 && FeatureMatrix(window)[k] == window[k].row[..6]
              && AllColumns(window)[k] == window[k].row
  {
  }

  /** Each version's diagnostic is stamped with the time of its fit. */
  ghost predicate Stamped(s: Snapshot) {
    |s.diagnostics| == |s.events| && forall v :: 0 <= v < |s.events| ==> s.diagnostics[v].fitTime == s.events[v].fitTime
  }

  lemma UpdateKeepsStamped(cfg: Config, o: Oracle, s: Snapshot, x: Input)
    requires Stamped(s)
    ensures Stamped(CausalRules.Update(cfg, o, s, x).0)
  {
    hide AddCalendarMonths, TrainingSlice, Pruned, Finite, FiniteRows, FeatureMatrix, AllColumns, Bump, BumpPair;
  }

  lemma {:induction false} DiagnosticsAreStamped(cfg: Config, o: Oracle, inputs: seq<Input>)
    ensures Stamped(Run(cfg, o, inputs))
  {
    hide CausalRules.Update, Stamped;
    if inputs == [] {
      NothingStamped(cfg, o);
    } else {
      var n := |inputs| - 1;
      DiagnosticsAreStamped(cfg, o, inputs[..n]);
      UpdateKeepsStamped(cfg, o, Run(cfg, o, inputs[..n]), inputs[n]);
    }
  }

  lemma NothingStamped(cfg: Config, o: Oracle)
    ensures Stamped(Run(cfg, o, []))
  {
  }

  // ---------------------------------------------------------------------------------------------
  // What is stored, and what can be restored
  // ---------------------------------------------------------------------------------------------

  /** No stored row lies before the training window of the active fit. */
  ghost predicate Recent(cfg: Config, s: Snapshot) {
    cfg.schedule.Rolling? && s.fit.Some? ==>
      forall k :: 0 <= k < |s.rows| ==> s.rows[k].time >= WindowStart(cfg, s.fit.value.fitTime)
  }

  lemma ObserveKeepsRecent(cfg: Config, o: Oracle, s: Snapshot, obs: Obs, training: seq<Obs>)
    requires ValidConfig(cfg) && Chronological(s.rows)
    requires (cfg.schedule.Rolling? && Refits(cfg, s, obs.time, training)) || Recent(cfg, s)
    ensures Recent(cfg, Observe(cfg, o, s, obs, training, Pruned(cfg, s.rows, obs.time)).0)
  {
    hide AddCalendarMonths, WindowStart, LowerBound, FiniteRows, FeatureMatrix, AllColumns, CountEmission;
    if cfg.schedule.Rolling? {
      LowerBoundSplits(s.rows, WindowStart(cfg, obs.time));
    }
  }

  lemma UpdateKeepsRecent(cfg: Config, o: Oracle, s: Snapshot, x: Input)
    requires ValidConfig(cfg) && Recent(cfg, s) && Stored(s.rows, s.last) && FitKnown(cfg, s)
    ensures Recent(cfg, CausalRules.Update(cfg, o, s, x).0)
  {
    hide AddCalendarMonths, WindowStart, TrainingSlice, Pruned, Finite, Observe;
    if !TooEarly(s, x.time) && x.eligible && Finite(x.row) {
      var obs := Obs(x.time, x.row);
      StoredAppend(s.rows, s.last, obs);
      var s' := EnterTime(cfg, s, x).(rows := s.rows + [obs]);
      if cfg.schedule.Rolling? && s.fit.Some? {
        WindowStartsBefore(cfg, s.fit.value.fitTime);
      }
      ObserveKeepsRecent(cfg, o, s', obs, TrainingSlice(cfg, s'.rows, obs.time));
    }
  }

  lemma {:induction false} RecentOverRuns(cfg: Config, o: Oracle, inputs: seq<Input>)
    requires ValidConfig(cfg)
    ensures Recent(cfg, Run(cfg, o, inputs))
  {
    hide CausalRules.Update, Recent, PosteriorIsFiltered;
    if inputs == [] {
      NothingStored(cfg, o);
    } else {
      var n := |inputs| - 1;
      RecentOverRuns(cfg, o, inputs[..n]);
      StoredAndKnown(cfg, o, inputs[..n]);
      UpdateKeepsRecent(cfg, o, Run(cfg, o, inputs[..n]), inputs[n]);
    }
  }

  lemma NothingStored(cfg: Config, o: Oracle)
    ensures Recent(cfg, Run(cfg, o, []))
  {
  }

  lemma StoredAndKnown(cfg: Config, o: Oracle, inputs: seq<Input>)
    requires ValidConfig(cfg)
    ensures var s := Run(cfg, o, inputs); Stored(s.rows, s.last) && FitKnown(cfg, s)
  {
    hide Run, Stored, FitKnown;
    PosteriorOverRuns(cfg, o, inputs);
  }

  /** The store of a rolling stream holds, from its first fit on, exactly the rows taken since the start of the
      active fit's window; until then, and in an expanding stream, all rows taken. */
  lemma StoreHoldsExactly(cfg: Config, o: Oracle, inputs: seq<Input>)
    requires ValidConfig(cfg)
    ensures var s := Run(cfg, o, inputs);
            s.rows == if cfg.schedule.Rolling? && s.fit.Some?
                      then Since(Accepted(inputs), AddCalendarMonths(s.fit.value.fitTime, -12 * cfg.schedule.years))
                      else Accepted(inputs)
  {
    hide Run, RefRun, Accepted, Since, AddCalendarMonths, Chronological, LastTime, LowerBound;
    var s, r := Run(cfg, o, inputs), RefRun(cfg, o, inputs);
    var k := PruningIsInvisible(cfg, o, inputs);
    RunIsReference(cfg, o, inputs);
    if cfg.schedule.Rolling? && s.fit.Some? {
      var start := WindowStart(cfg, s.fit.value.fitTime);
      RecentOverRuns(cfg, o, inputs);
      SinceSuffix(r.rows, k, start);
      StoredDrop(r.rows, r.last, k);
      AllSince(s.rows, start);
    }
  }

  lemma AllSince(rows: seq<Obs>, time: int)
    requires forall k :: 0 <= k < |rows| ==> rows[k].time >= time
    ensures Since(rows, time) == rows
  {
  }

  /** A checkpoint is restored exactly when its format is known, its schedule is one the constructor accepts, its
      columns fit, and the stamp and the identity of its model are those recomputed from the model itself. */
  lemma RestoresExactlyWhen(o: Oracle, c: Checkpoint)
    ensures RestoreFailure(o, c).None? <==>
              && (c.version == 2
                  || (c.version == 3 && c.columns == if c.cfg.rthOnly then HmmAndS2rColumns else HmmColumns))
              && c.cfg.refitMonths >= 1 && (c.cfg.schedule.Rolling? ==> c.cfg.schedule.years >= 1)
              && match c.state.fit
                 case None => c.identity == None
                 case Some(fit) =>
                   && c.identity == Some(o.identity(c.cfg, fit))
                   && c.stamp == Some(ModelStamp(2, HmmColumns, o.artifact(fit.model), o.scaler(fit.model)))
  {
  }
}

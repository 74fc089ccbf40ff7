/** What the stream keeps over every run: its posterior is the filtered posterior of the active model, its
    fits are spaced by the schedule and strictly causal, and its diagnostics count every emitted state.
 */
module CausalTheorems {
  import opened Options
  import opened CalendarMonths
  import opened CompactHistory
  import opened CausalRules
  import opened CausalStream
  import opened CausalWindows

  // ---------------------------------------------------------------------------------------------
  // Filtering a whole sequence with one model
  // ---------------------------------------------------------------------------------------------

  /** The log posterior after filtering these rows in order, starting afresh. */
  function FilterLog(o: Oracle, model: Model, rows: seq<Obs>): Option<LogPosterior> {
    if rows == [] then None
    else
      var n := |rows| - 1;
      Some(o.filter(model, rows[n].row, FilterLog(o, model, rows[..n])).1)
  }

  /** States and log posteriors of these rows, each filtered from the rows up to it. */
  ghost predicate FilteredInOrder(o: Oracle, model: Model, rows: seq<Obs>, states: seq<State>,
                                  logs: seq<LogPosterior>)
  {
    && |states| == |logs| <= |rows|
    && forall i :: 0 <= i < |states| ==>
         (states[i], logs[i]) == o.filter(model, rows[i].row, FilterLog(o, model, rows[..i]))
  }

  method FilterSequence(o: Oracle, model: Model, rows: seq<Obs>)
    returns (states: seq<State>, logs: seq<LogPosterior>)
    ensures |states| == |FiniteRows(rows)|
    ensures FilteredInOrder(o, model, FiniteRows(rows), states, logs)
    ensures FilterLog(o, model, FiniteRows(rows)) == if logs == [] then None else Some(logs[|logs| - 1])
  {
    hide FilterLog, FiniteRows;
    var valid := FiniteRows(rows);
    states, logs := [], [];
    var previous: Option<LogPosterior> := None;
    NothingFiltered(o, model);
    for i := 0 to |valid|
      invariant |states| == i && FilteredInOrder(o, model, valid, states, logs)
      invariant previous == FilterLog(o, model, valid[..i])
      invariant previous == if logs == [] then None else Some(logs[i - 1])
    {
      var (state, log) := o.filter(model, valid[i].row, previous);
      assert valid[..i + 1] == valid[..i] + [valid[i]];
      FilterOne(o, model, valid[..i], valid[i]);
      states := states + [state];
      logs := logs + [log];
      previous := Some(log);
    }
    assert valid[..|valid|] == valid;
  }

  lemma NothingFiltered(o: Oracle, model: Model)
    ensures FilterLog(o, model, []) == None
  {
  }

  /** The stored rows from `time` onward. */
  function Since(rows: seq<Obs>, time: int): seq<Obs> {
    rows[LowerBound(rows, time)..]
  }

  lemma SinceAppend(rows: seq<Obs>, obs: Obs, time: int)
    requires Chronological(rows + [obs]) && time <= obs.time
    ensures Since(rows + [obs], time) == Since(rows, time) + [obs]
    ensures time == obs.time ==> Since(rows, time) == []
  {
    hide LowerBound;
    var p := LowerBound(rows, time);
    assert forall i :: 0 <= i < |rows| ==> (rows + [obs])[i] == rows[i];
    assert (rows + [obs])[|rows|] == obs;
    assert Chronological(rows) && forall i :: 0 <= i < |rows| ==> rows[i].time < obs.time;
    LowerBoundSplits(rows, time);
    LowerBoundUnique(rows + [obs], time, p);
    if time == obs.time {
      LowerBoundUnique(rows, time, |rows|);
    }
  }

  lemma SinceDrop(rows: seq<Obs>, a: int, time: int)
    requires Chronological(rows) && a <= time
    ensures Since(rows[LowerBound(rows, a)..], time) == Since(rows, time)
  {
    hide LowerBound, Chronological;
    var cut, p := LowerBound(rows, a), LowerBound(rows, time);
    LowerBoundSplits(rows, a);
    LowerBoundSplits(rows, time);
    LowerBoundMonotone(rows, a, time);
    var kept := rows[cut..];
    forall k | 0 <= k < |kept| ensures kept[k].time >= time <==> k >= p - cut {
      assert kept[k] == rows[cut + k];
    }
    LowerBoundUnique(kept, time, p - cut);
    assert kept[p - cut..] == rows[p..];
  }

  /** The carried posterior is the batch-filtered posterior of the active model over the stored rows from
      its fit time onward. */
  ghost predicate PosteriorIsFiltered(cfg: Config, o: Oracle, s: Snapshot) {
    && Stored(s.rows, s.last) && FitKnown(cfg, s)
    && (s.fit.Some? ==>
          && Since(s.rows, s.fit.value.fitTime) != []
          && s.logPosterior == FilterLog(o, s.fit.value.model, Since(s.rows, s.fit.value.fitTime)))
  }

  lemma ObserveFilters(cfg: Config, o: Oracle, s: Snapshot, obs: Obs, training: seq<Obs>)
    requires ValidConfig(cfg) && |s.rows| > 0 && s.rows[|s.rows| - 1] == obs
    requires Stored(s.rows, s.last) && s.last == Some(obs.time) && FitKnown(cfg, s)
    requires s.fit.Some? ==>
      s.logPosterior == FilterLog(o, s.fit.value.model, Since(s.rows[..|s.rows| - 1], s.fit.value.fitTime))
    ensures PosteriorIsFiltered(cfg, o, Observe(cfg, o, s, obs, training, Pruned(cfg, s.rows, obs.time)).0)
  {
    hide LowerBound, AddCalendarMonths, WindowStart, FiniteRows, FeatureMatrix, AllColumns, CountEmission,
         Since, FilterLog;
    var before := s.rows[..|s.rows| - 1];
    assert s.rows == before + [obs];
    var refits := Refits(cfg, s, obs.time, training);
    if refits {
      SinceAppend(before, obs, obs.time);
      NothingFiltered(o, NewFit(cfg, o, obs.time, training).model);
      FilterOne(o, NewFit(cfg, o, obs.time, training).model, [], obs);
      if cfg.schedule.Rolling? {
        WindowStartsBefore(cfg, obs.time);
        SinceDrop(s.rows, WindowStart(cfg, obs.time), obs.time);
        StoredDrop(s.rows, s.last, LowerBound(s.rows, WindowStart(cfg, obs.time)));
      }
    } else if s.fit.Some? {
      SinceAppend(before, obs, s.fit.value.fitTime);
      FilterOne(o, s.fit.value.model, Since(before, s.fit.value.fitTime), obs);
    }
  }

  lemma FilterOne(o: Oracle, model: Model, rows: seq<Obs>, obs: Obs)
    ensures FilterLog(o, model, rows + [obs])
         == Some(o.filter(model, obs.row, FilterLog(o, model, rows)).1)
  {
    assert (rows + [obs])[..|rows|] == rows;
  }

  lemma {:induction false} PosteriorOverRuns(cfg: Config, o: Oracle, inputs: seq<Input>)
    requires ValidConfig(cfg)
    ensures PosteriorIsFiltered(cfg, o, Run(cfg, o, inputs))
  {
    if inputs != [] {
      hide PosteriorIsFiltered, CausalRules.Update;
      var n := |inputs| - 1;
      PosteriorOverRuns(cfg, o, inputs[..n]);
      UpdateFilters(cfg, o, Run(cfg, o, inputs[..n]), inputs[n]);
    }
  }

  lemma UpdateFilters(cfg: Config, o: Oracle, s: Snapshot, input: Input)
    requires ValidConfig(cfg) && PosteriorIsFiltered(cfg, o, s)
    ensures PosteriorIsFiltered(cfg, o, CausalRules.Update(cfg, o, s, input).0)
  {
    hide AddCalendarMonths, TrainingSlice, Pruned, Finite, Observe, Since, FilterLog;
    if !TooEarly(s, input.time) && input.eligible && Finite(input.row) {
      var obs := Obs(input.time, input.row);
      StoredAppend(s.rows, s.last, obs);
      var s' := EnterTime(cfg, s, input).(rows := s.rows + [obs]);
      assert s'.rows[..|s.rows|] == s.rows;
      ObserveFilters(cfg, o, s', obs, TrainingSlice(cfg, s'.rows, obs.time));
    }
  }

  // ---------------------------------------------------------------------------------------------
  // The schedule
  // ---------------------------------------------------------------------------------------------

  /** A refit saw only rows strictly before its time (and, for a rolling stream, not older than its
      window), all of them usable, and enough of them. */
  ghost predicate CausalEvent(cfg: Config, e: RefitEvent) {
    && e.validRows == e.trainingRows >= cfg.minTrainValid
    && (e.lastTraining.Some? <==> e.trainingRows > 0) && (e.start.Some? <==> e.trainingRows > 0)
    && (e.trainingRows > 0 ==>
          && e.start.value <= e.lastTraining.value < e.fitTime
          && (cfg.schedule.Rolling? ==> e.start.value >= WindowStart(cfg, e.fitTime)))
  }

  ghost predicate Spaced(cfg: Config, events: seq<RefitEvent>) {
    forall i :: 0 < i < |events| ==>
      events[i].fitTime >= AddCalendarMonths(events[i - 1].fitTime, cfg.refitMonths)
  }

  ghost predicate OnSchedule(cfg: Config, s: Snapshot) {
    && Stored(s.rows, s.last) && (forall i :: 0 <= i < |s.rows| ==> Finite(s.rows[i].row))
    && |s.events| == |s.diagnostics| == s.fitCount
    && (s.fit.Some? <==> s.fitCount > 0)
    && (s.fit.Some? ==>
          var f := s.fit.value;
          && s.events[s.fitCount - 1].fitTime == f.fitTime
          && f.nextRefit == AddCalendarMonths(f.fitTime, cfg.refitMonths))
    && (forall i :: 0 <= i < |s.events| ==> s.events[i].version == i + 1 && CausalEvent(cfg, s.events[i]))
    && Spaced(cfg, s.events)
    && (cfg.schedule.Rolling? ==>
          && (s.anchor.Some? ==>
                s.initialFit == Some(AddCalendarMonths(s.anchor.value, 12 * cfg.schedule.years)))
          && (s.anchor.None? ==> s.initialFit.None?)
          && (|s.events| > 0 ==> s.initialFit.Some? && s.events[0].fitTime >= s.initialFit.value))
  }

  lemma {:induction false} AllFinite(rows: seq<Obs>)
    requires forall i :: 0 <= i < |rows| ==> Finite(rows[i].row)
    ensures FiniteRows(rows) == rows
  {
    if rows != [] {
      AllFinite(rows[..|rows| - 1]);
    }
  }

  /** The event a refit writes is causal, because the training slice is a window of the store. */
  lemma TrainingIsCausal(cfg: Config, o: Oracle, rows: seq<Obs>, time: int)
    requires ValidConfig(cfg) && Chronological(rows) && forall i :: 0 <= i < |rows| ==> Finite(rows[i].row)
    ensures var t := TrainingSlice(cfg, rows, time);
      && FiniteRows(t) == t
      && (forall i :: 0 <= i < |t| ==> t[i].time < time)
      && (cfg.schedule.Rolling? ==> forall i :: 0 <= i < |t| ==> t[i].time >= WindowStart(cfg, time))
      && Chronological(t)
  {
    hide LowerBound, AddCalendarMonths, WindowStart, Finite, FiniteRows;
    var t := TrainingSlice(cfg, rows, time);
    LowerBoundSplits(rows, time);
    if cfg.schedule.Rolling? {
      LowerBoundSplits(rows, WindowStart(cfg, time));
    }
    AllFinite(t);
  }

  lemma ObserveKeepsSchedule(cfg: Config, o: Oracle, s: Snapshot, obs: Obs)
    requires ValidConfig(cfg) && OnSchedule(cfg, s)
    ensures OnSchedule(cfg, Observe(cfg, o, s, obs, TrainingSlice(cfg, s.rows, obs.time),
                                    Pruned(cfg, s.rows, obs.time)).0)
  {
    if Refits(cfg, s, obs.time, TrainingSlice(cfg, s.rows, obs.time)) {
      RefitKeepsSchedule(cfg, o, s, obs);
    } else {
      hide LowerBound, AddCalendarMonths, WindowStart, TrainingSlice, Finite, Refits, CountEmission;
    }
  }

  /** What a refit leaves of the fields the schedule speaks of. */
  lemma RefitEffect(cfg: Config, o: Oracle, s: Snapshot, obs: Obs) returns (e: RefitEvent)
    requires Refits(cfg, s, obs.time, TrainingSlice(cfg, s.rows, obs.time))
    requires ValidConfig(cfg) && Chronological(s.rows) && forall i :: 0 <= i < |s.rows| ==> Finite(s.rows[i].row)
    ensures var t := Observe(cfg, o, s, obs, TrainingSlice(cfg, s.rows, obs.time), Pruned(cfg, s.rows, obs.time)).0;
            && t.events == s.events + [e] && |t.diagnostics| == |s.diagnostics| + 1 && t.fitCount == s.fitCount + 1
            && t.fit.Some? && t.fit.value.fitTime == e.fitTime == obs.time && e.version == s.fitCount + 1
            && t.fit.value.nextRefit == AddCalendarMonths(obs.time, cfg.refitMonths)
            && t.last == s.last && t.anchor == s.anchor && t.initialFit == s.initialFit
            && t.rows == Pruned(cfg, s.rows, obs.time)
    ensures CausalEvent(cfg, e)
  {
    hide LowerBound, AddCalendarMonths, WindowStart, FiniteRows, FeatureMatrix, AllColumns, CountEmission,
         TrainingSlice, Finite;
    TrainingIsCausal(cfg, o, s.rows, obs.time);
    var t := Observe(cfg, o, s, obs, TrainingSlice(cfg, s.rows, obs.time), Pruned(cfg, s.rows, obs.time)).0;
    e := t.events[|t.events| - 1];
  }

  lemma RefitKeepsSchedule(cfg: Config, o: Oracle, s: Snapshot, obs: Obs)
    requires ValidConfig(cfg) && OnSchedule(cfg, s)
    requires Refits(cfg, s, obs.time, TrainingSlice(cfg, s.rows, obs.time))
    ensures OnSchedule(cfg, Observe(cfg, o, s, obs, TrainingSlice(cfg, s.rows, obs.time),
                                    Pruned(cfg, s.rows, obs.time)).0)
  {
    hide LowerBound, AddCalendarMonths, WindowStart, TrainingSlice, FiniteRows, Finite, Observe, CausalEvent;
    var e := RefitEffect(cfg, o, s, obs);
    if cfg.schedule.Rolling? {
      StoredDrop(s.rows, s.last, LowerBound(s.rows, WindowStart(cfg, obs.time)));
    }
  }

  lemma UpdateKeepsSchedule(cfg: Config, o: Oracle, s: Snapshot, input: Input)
    requires ValidConfig(cfg) && OnSchedule(cfg, s)
    ensures OnSchedule(cfg, CausalRules.Update(cfg, o, s, input).0)
  {
    hide AddCalendarMonths, WindowStart, TrainingSlice, Pruned, Finite, Observe;
    if !TooEarly(s, input.time) {
      StoredEarlier(s.rows, s.last, input.time);
      if input.eligible && Finite(input.row) {
        var obs := Obs(input.time, input.row);
        StoredAppend(s.rows, s.last, obs);
        ObserveKeepsSchedule(cfg, o, EnterTime(cfg, s, input).(rows := s.rows + [obs]), obs);
      }
    }
  }

  lemma {:induction false} ScheduleOverRuns(cfg: Config, o: Oracle, inputs: seq<Input>)
    requires ValidConfig(cfg)
    ensures OnSchedule(cfg, Run(cfg, o, inputs))
  {
    if inputs != [] {
      hide OnSchedule, CausalRules.Update;
      var n := |inputs| - 1;
      ScheduleOverRuns(cfg, o, inputs[..n]);
      UpdateKeepsSchedule(cfg, o, Run(cfg, o, inputs[..n]), inputs[n]);
    }
  }

  // ---------------------------------------------------------------------------------------------
  // The diagnostics
  // ---------------------------------------------------------------------------------------------

  /** How often `x` occurs. */
  function Count(e: seq<State>, x: State): nat {
    if e == [] then 0
    else Count(e[..|e| - 1], x) + if e[|e| - 1] == x then 1 else 0
  }

  /** How often `x` is directly followed by `y`. */
  function Steps(e: seq<State>, x: State, y: State): nat {
    if |e| < 2 then 0
    else Steps(e[..|e| - 1], x, y) + if e[|e| - 2] == x && e[|e| - 1] == y then 1 else 0
  }

  /** The states a run emitted, one list per model version, in order. */
  function EmissionLog(cfg: Config, o: Oracle, inputs: seq<Input>): seq<seq<State>> {
    if inputs == [] then []
    else
      var n := |inputs| - 1;
      var log := EmissionLog(cfg, o, inputs[..n]);
      var (s, out) := CausalRules.Update(cfg, o, Run(cfg, o, inputs[..n]), inputs[n]);
      NextLog(log, s, out)
  }

  function LogEmission(log: seq<seq<State>>, state: State): seq<seq<State>> {
    if log == [] then log else log[|log| - 1 := log[|log| - 1] + [state]]
  }

  predicate Table(d: Diagnostic) {
    |d.occupancy| == 3 && |d.transitions| == 3 && forall x :: 0 <= x < 3 ==> |d.transitions[x]| == 3
  }

  /** The diagnostic counts exactly the states of `e` and the steps between them. */
  ghost predicate Tells(d: Diagnostic, e: seq<State>) {
    && Table(d)
    && (forall x: State :: d.occupancy[x] == Count(e, x))
    && forall x: State, y: State :: d.transitions[x][y] == Steps(e, x, y)
  }

  function LastOf(e: seq<State>): Option<State> {
    if e == [] then None else Some(e[|e| - 1])
  }

  lemma CountOneMore(e: seq<State>, x: State)
    ensures forall y: State :: Count(e + [x], y) == Count(e, y) + if x == y then 1 else 0
    ensures forall y: State, z: State ::
      Steps(e + [x], y, z) == Steps(e, y, z) + if e != [] && e[|e| - 1] == y && x == z then 1 else 0
  {
    assert (e + [x])[..|e|] == e;
  }

  lemma TellsOneMore(d: Diagnostic, e: seq<State>, x: State)
    requires Tells(d, e)
    ensures Tells(CountEmission(d, LastOf(e), x), e + [x])
  {
    hide Count, Steps;
    CountOneMore(e, x);
  }

  /** The diagnostics of a stream, version by version, against a log of emitted states. */
  ghost predicate Told(s: Snapshot, log: seq<seq<State>>) {
    && |s.diagnostics| == |log| == s.fitCount && (s.fit.Some? <==> s.fitCount > 0)
    && (forall v :: 0 <= v < |log| ==>
          s.diagnostics[v].version == v + 1 && log[v] != [] && Tells(s.diagnostics[v], log[v]))
    && s.lastEmitted == (if log == [] then None else LastOf(log[|log| - 1]))
    && TotalOccupancy(s.diagnostics) == s.forwardUpdates
  }

  function Occupied(d: Diagnostic): nat {
    if |d.occupancy| == 3 then d.occupancy[0] + d.occupancy[1] + d.occupancy[2] else 0
  }

  /** All emissions counted over all models. */
  function TotalOccupancy(ds: seq<Diagnostic>): nat {
    if ds == [] then 0 else TotalOccupancy(ds[..|ds| - 1]) + Occupied(ds[|ds| - 1])
  }

  /** The stream after a possible refit and before the observation is filtered. */
  ghost predicate Readied(s: Snapshot, ready: Snapshot, time: int) {
    && ready.forwardUpdates == s.forwardUpdates
    && ((ready.fitCount == s.fitCount && ready.diagnostics == s.diagnostics && ready.lastEmitted == s.lastEmitted)
        || (ready.fitCount == s.fitCount + 1 && ready.lastEmitted == None
            && ready.diagnostics == s.diagnostics + [NewDiagnostic(s.fitCount + 1, time)]))
  }

  function NewDiagnostic(version: nat, time: int): Diagnostic {
    Diagnostic(version, time, NO_COUNTS, [NO_COUNTS, NO_COUNTS, NO_COUNTS])
  }

  ghost predicate EmittedFrom(ready: Snapshot, t: Snapshot, state: State, posterior: LogPosterior) {
    var e := Emit(ready, state, posterior);
    && t.fitCount == ready.fitCount && t.diagnostics == e.diagnostics && t.lastEmitted == e.lastEmitted
    && t.forwardUpdates == e.forwardUpdates
  }

  /** What one update does to the fields the diagnostics depend on. */
  lemma UpdateEffect(cfg: Config, o: Oracle, s: Snapshot, input: Input) returns (ready: Snapshot)
    requires s.fit.Some? <==> s.fitCount > 0
    ensures var (t, out) := CausalRules.Update(cfg, o, s, input);
      && (t.fit.Some? <==> t.fitCount > 0)
      && (!out.Emitted? ==>
            t.fitCount == s.fitCount && t.diagnostics == s.diagnostics && t.lastEmitted == s.lastEmitted
            && t.forwardUpdates == s.forwardUpdates)
      && (out.Emitted? ==>
            t.fitCount > 0 && Readied(s, ready, input.time) && EmittedFrom(ready, t, out.state, out.posterior))
  {
    hide AddCalendarMonths, WindowStart, TrainingSlice, Pruned, Finite, FiniteRows, NewFit, CountEmission;
    ready := s;
    if !TooEarly(s, input.time) && input.eligible && Finite(input.row) {
      var stored := s.rows + [Obs(input.time, input.row)];
      var entered := EnterTime(cfg, s, input).(rows := stored);
      var training := TrainingSlice(cfg, stored, input.time);
      ready := if Refits(cfg, entered, input.time, training)
               then Refit(cfg, o, entered, input.time, training) else entered;
    }
  }

  /** One emission under the active version. */
  lemma EmitTells(ds: seq<Diagnostic>, e: seq<State>, state: State)
    requires ds != [] && Tells(ds[|ds| - 1], e)
    ensures var n := |ds| - 1;
      var d := CountEmission(ds[n], LastOf(e), state);
      && Tells(d, e + [state]) && d.version == ds[n].version
      && TotalOccupancy(ds[n := d]) == TotalOccupancy(ds) + 1
  {
    var n := |ds| - 1;
    TellsOneMore(ds[n], e, state);
    assert ds[n := CountEmission(ds[n], LastOf(e), state)][..n] == ds[..n];
    hide Count, Steps;
  }

  lemma NothingTold(d: Diagnostic)
    requires d.occupancy == NO_COUNTS && d.transitions == [NO_COUNTS, NO_COUNTS, NO_COUNTS]
    ensures Tells(d, []) && Occupied(d) == 0
  {
  }

  lemma OpenVersion(ds: seq<Diagnostic>, d: Diagnostic)
    requires d.occupancy == NO_COUNTS && d.transitions == [NO_COUNTS, NO_COUNTS, NO_COUNTS]
    ensures TotalOccupancy(ds + [d]) == TotalOccupancy(ds) && Tells(d, [])
  {
    NothingTold(d);
    assert (ds + [d])[..|ds|] == ds;
  }

  lemma StepTells(s: Snapshot, ready: Snapshot, t: Snapshot, time: int, state: State, posterior: LogPosterior,
                  log: seq<seq<State>>)
    requires Told(s, log) && Readied(s, ready, time) && EmittedFrom(ready, t, state, posterior)
    requires t.fitCount > 0 && t.fit.Some?
    ensures Told(t, LogEmission(if t.fitCount > |log| then log + [[]] else log, state))
  {
    hide Tells, CountEmission, TotalOccupancy;
    OpenVersion(s.diagnostics, NewDiagnostic(s.fitCount + 1, time));
    var lists := if t.fitCount > |log| then log + [[]] else log;
    EmitTells(ready.diagnostics, lists[|lists| - 1], state);
  }

  function NextLog(log: seq<seq<State>>, s: Snapshot, out: Outcome): seq<seq<State>> {
    if out.Emitted? then LogEmission(if s.fitCount > |log| then log + [[]] else log, out.state) else log
  }

  lemma UpdateTells(cfg: Config, o: Oracle, s: Snapshot, input: Input, log: seq<seq<State>>)
    requires Told(s, log)
    ensures var (t, out) := CausalRules.Update(cfg, o, s, input); Told(t, NextLog(log, t, out))
  {
    hide CausalRules.Update, Tells, TotalOccupancy, Emit, Readied, EmittedFrom, LogEmission;
    var (t, out) := CausalRules.Update(cfg, o, s, input);
    var ready := UpdateEffect(cfg, o, s, input);
    if out.Emitted? {
      StepTells(s, ready, t, input.time, out.state, out.posterior, log);
    }
  }

  /** In every run, the diagnostics of each model version count exactly the states emitted under it, and
      all of them together count every forward-filter update. */
  lemma {:induction false} DiagnosticsOverRuns(cfg: Config, o: Oracle, inputs: seq<Input>)
    ensures Told(Run(cfg, o, inputs), EmissionLog(cfg, o, inputs))
  {
    if inputs != [] {
      hide CausalRules.Update, Told, NextLog;
      var n := |inputs| - 1;
      DiagnosticsOverRuns(cfg, o, inputs[..n]);
      UpdateTells(cfg, o, Run(cfg, o, inputs[..n]), inputs[n], EmissionLog(cfg, o, inputs[..n]));
    }
  }

  // ---------------------------------------------------------------------------------------------
  // Counts are flows
  // ---------------------------------------------------------------------------------------------

  /** Every occurrence of a state but the first is entered, and every one but the last is left. */
  lemma {:induction false} StepsAreFlows(e: seq<State>, x: State)
    requires e != []
    ensures Count(e, x) == Steps(e, 0, x) + Steps(e, 1, x) + Steps(e, 2, x) + if e[0] == x then 1 else 0
    ensures Count(e, x) == Steps(e, x, 0) + Steps(e, x, 1) + Steps(e, x, 2)
                           + if e[|e| - 1] == x then 1 else 0
    ensures Count(e, 0) + Count(e, 1) + Count(e, 2) == |e|
  {
    var n := |e| - 1;
    if n == 0 {
      assert e[..0] == [];
    } else {
      StepsAreFlows(e[..n], x);
    }
  }

  /** In every model version's table: a state's occupancy is its inflow plus one if it was emitted first,
      and its outflow plus one if it was emitted last; there is one transition less than emissions. */
  lemma DiagnosticsAreFlows(cfg: Config, o: Oracle, inputs: seq<Input>, v: nat, x: State)
    requires v < Run(cfg, o, inputs).fitCount
    ensures |Run(cfg, o, inputs).diagnostics| == |EmissionLog(cfg, o, inputs)| == Run(cfg, o, inputs).fitCount
    ensures var d, e := Run(cfg, o, inputs).diagnostics[v], EmissionLog(cfg, o, inputs)[v];
      && Table(d) && e != []
      && d.occupancy[x] == d.transitions[0][x] + d.transitions[1][x] + d.transitions[2][x]
                           + (if e[0] == x then 1 else 0)
      && d.occupancy[x] == d.transitions[x][0] + d.transitions[x][1] + d.transitions[x][2]
                           + (if e[|e| - 1] == x then 1 else 0)
      && Occupied(d) == |e|
      && Transitions(d) == |e| - 1
  {
    DiagnosticsOverRuns(cfg, o, inputs);
    hide Count, Steps, EmissionLog, Run, TotalOccupancy;
    var e := EmissionLog(cfg, o, inputs)[v];
    TableFlows(Run(cfg, o, inputs).diagnostics[v], e, x);
  }

  lemma TableFlows(d: Diagnostic, e: seq<State>, x: State)
    requires Tells(d, e) && e != []
    ensures d.occupancy[x] == d.transitions[0][x] + d.transitions[1][x] + d.transitions[2][x]
                              + if e[0] == x then 1 else 0
    ensures d.occupancy[x] == d.transitions[x][0] + d.transitions[x][1] + d.transitions[x][2]
                              + if e[|e| - 1] == x then 1 else 0
    ensures Occupied(d) == |e| && Transitions(d) == |e| - 1
  {
    hide Count, Steps;
    StepsAreFlows(e, x);
    StepsAreFlows(e, 0);
    StepsAreFlows(e, 1);
    StepsAreFlows(e, 2);
  }

  function Transitions(d: Diagnostic): nat
    requires Table(d)
  {
    d.transitions[0][0] + d.transitions[0][1] + d.transitions[0][2]
    + d.transitions[1][0] + d.transitions[1][1] + d.transitions[1][2]
    + d.transitions[2][0] + d.transitions[2][1] + d.transitions[2][2]
  }

  // ---------------------------------------------------------------------------------------------
  // The counters
  // ---------------------------------------------------------------------------------------------

  /** The observation comes no later than the last one taken. */
  predicate Late(before: seq<Input>, x: Input) {
    LastTime(before).Some? && x.time <= LastTime(before).value
  }

  function One(b: bool): nat { if b then 1 else 0 }

  function LateOnes(inputs: seq<Input>): nat {
    if inputs == [] then 0
    else
      var n := |inputs| - 1;
      LateOnes(inputs[..n]) + One(Late(inputs[..n], inputs[n]))
  }

  function UnusableOnes(inputs: seq<Input>): nat {
    if inputs == [] then 0
    else
      var n := |inputs| - 1;
      var x := inputs[n];
      UnusableOnes(inputs[..n]) + One(!Late(inputs[..n], x) && x.eligible && !Finite(x.row))
  }

  /** The first eligible observation that was not late. */
  function FirstEligible(inputs: seq<Input>): Option<int> {
    if inputs == [] then None
    else
      var n := |inputs| - 1;
      var before, x := FirstEligible(inputs[..n]), inputs[n];
      if before.None? && !Late(inputs[..n], x) && x.eligible then Some(x.time) else before
  }

  function EmittedOnes(out: seq<Outcome>): nat {
    if out == [] then 0 else EmittedOnes(out[..|out| - 1]) + One(out[|out| - 1].Emitted?)
  }

  lemma UpdateCounts(cfg: Config, o: Oracle, s: Snapshot, x: Input)
    ensures var (t, out) := CausalRules.Update(cfg, o, s, x);
            var late := TooEarly(s, x.time);
            && t.updateCalls == s.updateCalls + 1
            && t.rejections == s.rejections + One(late) && (out.Rejected? <==> late)
            && t.invalid == s.invalid + One(!late && x.eligible && !Finite(x.row))
            && t.last == (if late then s.last else Some(x.time))
            && t.anchor == (if s.anchor.None? && !late && x.eligible then Some(x.time) else s.anchor)
            && t.forwardUpdates == s.forwardUpdates + One(out.Emitted?)
            && t.fitCount >= s.fitCount
            && t.prunes - s.prunes == if cfg.schedule.Rolling? then t.fitCount - s.fitCount else 0
  {
    hide AddCalendarMonths, FiniteRows, NewFit, CountEmission, Finite, TrainingSlice, LowerBound;
  }

  /** Over every run the counters and the anchor are what the inputs and outcomes say: calls, late and
      unusable observations, the first eligible one, filter steps, and one prune per fit of a rolling stream. */
  lemma {:induction false} CountersOverRuns(cfg: Config, o: Oracle, inputs: seq<Input>)
    ensures var s := Run(cfg, o, inputs);
            && s.updateCalls == |inputs| && s.rejections == LateOnes(inputs) && s.invalid == UnusableOnes(inputs)
            && s.last == LastTime(inputs) && s.anchor == FirstEligible(inputs)
            && s.forwardUpdates == EmittedOnes(Outcomes(cfg, o, inputs))
            && s.prunes == if cfg.schedule.Rolling? then s.fitCount else 0
  {
    hide CausalRules.Update, Finite;
    if inputs != [] {
      var n := |inputs| - 1;
      CountersOverRuns(cfg, o, inputs[..n]);
      UpdateCounts(cfg, o, Run(cfg, o, inputs[..n]), inputs[n]);
      var before := Outcomes(cfg, o, inputs[..n]);
      assert Outcomes(cfg, o, inputs)[..n] == before;
    }
  }
}

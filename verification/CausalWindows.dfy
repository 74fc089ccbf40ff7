/** Pruning the store is invisible: a reference stream that never forgets a row, and trains on the rows it
    picks out by their times, behaves exactly like the stream that slices and prunes its store.
 */
module CausalWindows {
  import opened Options
  import opened CalendarMonths
  import opened CompactHistory
  import opened CausalRules
  import opened CausalStream

  // ---------------------------------------------------------------------------------------------
  // The reference stream
  // ---------------------------------------------------------------------------------------------

  predicate InWindow(cfg: Config, rowTime: int, time: int) {
    rowTime < time && (cfg.schedule.Rolling? ==> rowTime >= WindowStart(cfg, time))
  }

  /** The rows whose times lie in the training window that ends (exclusively) at `time`. */
  function Window(cfg: Config, rows: seq<Obs>, time: int): seq<Obs> {
    if rows == [] then []
    else
      var n := |rows| - 1;
      Window(cfg, rows[..n], time) + if InWindow(cfg, rows[n].time, time) then [rows[n]] else []
  }

  function RefUpdate(cfg: Config, o: Oracle, s: Snapshot, input: Input): (Snapshot, Outcome) {
    UpdateWith(cfg, o, s, input, Window(cfg, s.rows, input.time),
               s.rows + [Obs(input.time, input.row)])
  }

  function RefRun(cfg: Config, o: Oracle, inputs: seq<Input>): Snapshot {
    if inputs == [] then FRESH
    else
      var n := |inputs| - 1;
      RefUpdate(cfg, o, RefRun(cfg, o, inputs[..n]), inputs[n]).0
  }

  function RefOutcomes(cfg: Config, o: Oracle, inputs: seq<Input>): (out: seq<Outcome>)
    ensures |out| == |inputs|
  {
    if inputs == [] then []
    else
      var n := |inputs| - 1;
      RefOutcomes(cfg, o, inputs[..n]) + [RefUpdate(cfg, o, RefRun(cfg, o, inputs[..n]), inputs[n]).1]
  }

  /** The time of the last update that was not rejected. */
  function LastTime(inputs: seq<Input>): Option<int> {
    if inputs == [] then None
    else
      var n := |inputs| - 1;
      var before := LastTime(inputs[..n]);
      if before.Some? && inputs[n].time <= before.value then before else Some(inputs[n].time)
  }

  /** Every eligible, finite row ever seen in time order, told from the inputs alone. */
  function Accepted(inputs: seq<Input>): seq<Obs> {
    if inputs == [] then []
    else
      var n := |inputs| - 1;
      var before := LastTime(inputs[..n]);
      var x := inputs[n];
      if (before.Some? && x.time <= before.value) || !x.eligible || !Finite(x.row)
      then Accepted(inputs[..n])
      else Accepted(inputs[..n]) + [Obs(x.time, x.row)]
  }

  lemma {:induction false} ReferenceKeepsEverything(cfg: Config, o: Oracle, inputs: seq<Input>)
    ensures RefRun(cfg, o, inputs).rows == Accepted(inputs)
    ensures RefRun(cfg, o, inputs).last == LastTime(inputs)
    ensures Stored(RefRun(cfg, o, inputs).rows, RefRun(cfg, o, inputs).last)
  {
    hide AddCalendarMonths, FiniteRows, NewFit, CountEmission, Window, Finite;
    if inputs != [] {
      var n := |inputs| - 1;
      ReferenceKeepsEverything(cfg, o, inputs[..n]);
    }
  }

  // ---------------------------------------------------------------------------------------------
  // A slice between two searches is a window
  // ---------------------------------------------------------------------------------------------

  lemma {:induction false} WindowOfParts(cfg: Config, a: seq<Obs>, b: seq<Obs>, time: int)
    ensures Window(cfg, a + b, time) == Window(cfg, a, time) + Window(cfg, b, time)
    decreases |b|
  {
    hide InWindow;
    if b == [] {
      assert a + b == a;
    } else {
      var n := |b| - 1;
      assert (a + b)[..|a| + n] == a + b[..n];
      WindowOfParts(cfg, a, b[..n], time);
    }
  }

  lemma {:induction false} WindowNone(cfg: Config, rows: seq<Obs>, time: int)
    requires forall i :: 0 <= i < |rows| ==> !InWindow(cfg, rows[i].time, time)
    ensures Window(cfg, rows, time) == []
  {
    hide InWindow;
    if rows != [] {
      WindowNone(cfg, rows[..|rows| - 1], time);
    }
  }

  lemma {:induction false} WindowAll(cfg: Config, rows: seq<Obs>, time: int)
    requires forall i :: 0 <= i < |rows| ==> InWindow(cfg, rows[i].time, time)
    ensures Window(cfg, rows, time) == rows
  {
    hide InWindow;
    if rows != [] {
      WindowAll(cfg, rows[..|rows| - 1], time);
    }
  }

  lemma WindowStartsBefore(cfg: Config, time: int)
    requires ValidConfig(cfg) && cfg.schedule.Rolling?
    ensures WindowStart(cfg, time) < time
  {
    AddMoves(time, -12 * cfg.schedule.years);
  }

  lemma SliceIsWindow(cfg: Config, rows: seq<Obs>, time: int)
    requires ValidConfig(cfg) && Chronological(rows)
    ensures TrainingSlice(cfg, rows, time) == Window(cfg, rows, time)
  {
    hide LowerBound, WindowStart;
    var stop := LowerBound(rows, time);
    LowerBoundSplits(rows, time);
    var start := 0;
    if cfg.schedule.Rolling? {
      start := LowerBound(rows, WindowStart(cfg, time));
      LowerBoundSplits(rows, WindowStart(cfg, time));
      WindowStartsBefore(cfg, time);
      LowerBoundMonotone(rows, WindowStart(cfg, time), time);
    }
    WindowInParts(cfg, rows, time, start, stop);
  }

  lemma WindowInParts(cfg: Config, rows: seq<Obs>, time: int, start: nat, stop: nat)
    requires start <= stop <= |rows|
    requires forall i :: 0 <= i < start ==> !InWindow(cfg, rows[i].time, time)
    requires forall i :: start <= i < stop ==> InWindow(cfg, rows[i].time, time)
    requires forall i :: stop <= i < |rows| ==> !InWindow(cfg, rows[i].time, time)
    ensures Window(cfg, rows, time) == rows[start..stop]
  {
    hide InWindow, Window;
    var early, slice, late := rows[..start], rows[start..stop], rows[stop..];
    assert rows == early + slice + late;
    WindowOfParts(cfg, early + slice, late, time);
    WindowOfParts(cfg, early, slice, time);
    WindowNone(cfg, early, time);
    WindowAll(cfg, slice, time);
    WindowNone(cfg, late, time);
  }

  // ---------------------------------------------------------------------------------------------
  // The two streams side by side
  // ---------------------------------------------------------------------------------------------

  /** What the schedule knows of the active fit. */
  ghost predicate FitKnown(cfg: Config, s: Snapshot) {
    s.fit.Some? ==>
      && s.last.Some? && s.fit.value.fitTime <= s.last.value
      && s.fit.value.nextRefit == AddCalendarMonths(s.fit.value.fitTime, cfg.refitMonths)
  }

  /** The pruned stream `s` is the reference `r` without its first `k` rows, all of which lie before the
      training window of the active fit. */
  ghost predicate Related(cfg: Config, s: Snapshot, r: Snapshot, k: nat) {
    && k <= |r.rows| && s == r.(rows := r.rows[k..])
    && Stored(r.rows, r.last) && FitKnown(cfg, r)
    && (k > 0 ==> cfg.schedule.Rolling? && r.fit.Some?)
    && forall j :: 0 <= j < k ==> r.rows[j].time < WindowStart(cfg, r.fit.value.fitTime)
  }

  /** By the time a refit is due, the wall clock is in a later month than the last fit, so every row
      dropped then is out of the new window too. */
  lemma WindowMovesOn(cfg: Config, fitTime: int, time: int)
    requires ValidConfig(cfg) && cfg.schedule.Rolling?
    requires time >= AddCalendarMonths(fitTime, cfg.refitMonths)
    ensures WindowStart(cfg, fitTime) < WindowStart(cfg, time)
  {
    AddedMonth(fitTime, cfg.refitMonths);
    assert Month(fitTime) < Month(time);
    AddKeepsMonths(fitTime, time, -12 * cfg.schedule.years);
  }

  /** At a due fit, both streams train on the same rows. */
  lemma SameTraining(cfg: Config, rows: seq<Obs>, k: nat, fit: Option<Fit>, obs: Obs)
    requires ValidConfig(cfg) && k <= |rows| && Chronological(rows + [obs])
    requires k > 0 ==> cfg.schedule.Rolling? && fit.Some?
    requires fit.Some? ==> obs.time >= AddCalendarMonths(fit.value.fitTime, cfg.refitMonths)
    requires forall j :: 0 <= j < k ==> rows[j].time < WindowStart(cfg, fit.value.fitTime)
    ensures TrainingSlice(cfg, rows[k..] + [obs], obs.time) == Window(cfg, rows, obs.time)
  {
    hide LowerBound, AddCalendarMonths, WindowStart, TrainingSlice, Window;
    var dropped, kept := rows[..k], rows[k..];
    assert rows == dropped + kept;
    assert (rows + [obs])[k..] == kept + [obs];
    SliceIsWindow(cfg, kept + [obs], obs.time);
    WindowOfParts(cfg, kept, [obs], obs.time);
    WindowNone(cfg, [obs], obs.time);
    WindowOfParts(cfg, dropped, kept, obs.time);
    if k > 0 {
      WindowMovesOn(cfg, fit.value.fitTime, obs.time);
    }
    WindowNone(cfg, dropped, obs.time);
  }

  /** Two streams that differ only in their stores, given the same training rows, do the same. */
  lemma ObserveAlike(cfg: Config, o: Oracle, s: Snapshot, r: Snapshot, obs: Obs,
                     training: seq<Obs>, other: seq<Obs>, keep: seq<Obs>, keepAll: seq<Obs>)
    requires s == r.(rows := s.rows)
    requires FitDue(cfg, r, obs.time) ==> training == other
    ensures var prunes := Refits(cfg, r, obs.time, other) && cfg.schedule.Rolling?;
      var a, b := Observe(cfg, o, s, obs, training, keep), Observe(cfg, o, r, obs, other, keepAll);
      && a.1 == b.1
      && a.0 == b.0.(rows := if prunes then keep else s.rows)
      && b.0.rows == (if prunes then keepAll else r.rows)
      && b.0.last == r.last
      && (if Refits(cfg, r, obs.time, other) then
            b.0.fit.Some? && b.0.fit.value.fitTime == obs.time
            && b.0.fit.value.nextRefit == AddCalendarMonths(obs.time, cfg.refitMonths)
          else b.0.fit == r.fit)
  {
    hide AddCalendarMonths, FiniteRows, FeatureMatrix, AllColumns, CountEmission;
  }

  /** Without pruning, the relation is kept as long as the dropped rows stay out of the active fit's window. */
  lemma RelatedUnpruned(cfg: Config, r: Snapshot, k: nat, a: Snapshot, b: Snapshot)
    requires k <= |r.rows| && Related(cfg, r.(rows := r.rows[k..]), r, k)
    requires a == b.(rows := r.rows[k..]) && b.rows == r.rows && b.last == r.last && FitKnown(cfg, b)
    requires b.fit == r.fit || !cfg.schedule.Rolling?
    ensures Related(cfg, a, b, k)
  {
    hide AddCalendarMonths, WindowStart, Stored;
  }

  /** Pruning drops `cut` more rows, all before the window of the new fit. */
  lemma RelatedPruned(cfg: Config, r: Snapshot, k: nat, cut: nat, a: Snapshot, b: Snapshot)
    requires k + cut <= |r.rows| && Stored(r.rows, r.last) && cfg.schedule.Rolling?
    requires a == b.(rows := r.rows[k..][cut..]) && b.rows == r.rows && b.last == r.last
    requires FitKnown(cfg, b) && b.fit.Some?
    requires forall j :: 0 <= j < k + cut ==> r.rows[j].time < WindowStart(cfg, b.fit.value.fitTime)
    ensures Related(cfg, a, b, k + cut)
  {
    hide AddCalendarMonths, WindowStart, Stored;
    assert r.rows[k + cut..] == r.rows[k..][cut..];
  }

  lemma RelatedParts(cfg: Config, s: Snapshot, r: Snapshot, k: nat)
    requires Related(cfg, s, r, k)
    ensures k <= |r.rows| && s == r.(rows := r.rows[k..]) && Stored(r.rows, r.last) && FitKnown(cfg, r)
    ensures k > 0 ==> cfg.schedule.Rolling? && r.fit.Some?
    ensures forall j :: 0 <= j < k ==> r.rows[j].time < WindowStart(cfg, r.fit.value.fitTime)
  {
    hide AddCalendarMonths, WindowStart, Stored;
  }

  /** How many rows the pruned stream has dropped after storing one more observation. */
  lemma ObserveStaysRelated(cfg: Config, o: Oracle, s: Snapshot, r: Snapshot, k: nat, obs: Obs)
    returns (k': nat)
    requires ValidConfig(cfg) && |r.rows| > 0 && k < |r.rows|
    requires Related(cfg, s, r, k) && r.last == Some(obs.time) && r.rows[|r.rows| - 1] == obs
    ensures var before := r.rows[..|r.rows| - 1];
            var a := Observe(cfg, o, s, obs, TrainingSlice(cfg, s.rows, obs.time), Pruned(cfg, s.rows, obs.time));
            var b := Observe(cfg, o, r, obs, Window(cfg, before, obs.time), r.rows);
            a.1 == b.1 && Related(cfg, a.0, b.0, k')
  {
    hide LowerBound, AddCalendarMonths, WindowStart, TrainingSlice, Window, FiniteRows, Observe, NewFit,
         Chronological, Related;
    RelatedParts(cfg, s, r, k);
    var before := r.rows[..|r.rows| - 1];
    if FitDue(cfg, r, obs.time) {
      assert r.rows == before + [obs];
      assert s.rows == before[k..] + [obs];
      SameTraining(cfg, before, k, r.fit, obs);
    }
    ObserveAlike(cfg, o, s, r, obs, TrainingSlice(cfg, s.rows, obs.time), Window(cfg, before, obs.time),
                 Pruned(cfg, s.rows, obs.time), r.rows);
    var a := Observe(cfg, o, s, obs, TrainingSlice(cfg, s.rows, obs.time), Pruned(cfg, s.rows, obs.time)).0;
    var b := Observe(cfg, o, r, obs, Window(cfg, before, obs.time), r.rows).0;
    if Refits(cfg, r, obs.time, Window(cfg, before, obs.time)) && cfg.schedule.Rolling? {
      var cut := LowerBound(s.rows, WindowStart(cfg, obs.time));
      DroppedRows(cfg, r, k, obs, cut);
      RelatedPruned(cfg, r, k, cut, a, b);
      k' := k + cut;
    } else {
      RelatedUnpruned(cfg, r, k, a, b);
      k' := k;
    }
  }

  lemma StepStaysRelated(cfg: Config, o: Oracle, s: Snapshot, r: Snapshot, k: nat, input: Input)
    returns (k': nat)
    requires ValidConfig(cfg) && Related(cfg, s, r, k)
    ensures CausalRules.Update(cfg, o, s, input).1 == RefUpdate(cfg, o, r, input).1
    ensures Related(cfg, CausalRules.Update(cfg, o, s, input).0, RefUpdate(cfg, o, r, input).0, k')
  {
    hide LowerBound, AddCalendarMonths, WindowStart, TrainingSlice, Window, Finite, Observe, Pruned;
    k' := k;
    if !TooEarly(r, input.time) && input.eligible && Finite(input.row) {
      var obs := Obs(input.time, input.row);
      StoredAppend(r.rows, r.last, obs);
      var s' := EnterTime(cfg, s, input).(rows := s.rows + [obs]);
      var r' := EnterTime(cfg, r, input).(rows := r.rows + [obs]);
      assert r'.rows[k..] == s'.rows && r'.rows[..|r.rows|] == r.rows;
      k' := ObserveStaysRelated(cfg, o, s', r', k, obs);
    }
  }

  lemma DroppedRows(cfg: Config, r: Snapshot, k: nat, obs: Obs, cut: nat)
    requires ValidConfig(cfg) && cfg.schedule.Rolling? && k <= |r.rows|
    requires Related(cfg, r.(rows := r.rows[k..]), r, k)
    requires r.fit.Some? ==> obs.time >= r.fit.value.nextRefit
    requires cut == LowerBound(r.rows[k..], WindowStart(cfg, obs.time))
    ensures forall j :: 0 <= j < k + cut ==> r.rows[j].time < WindowStart(cfg, obs.time)
  {
    hide LowerBound, AddCalendarMonths, WindowStart;
    LowerBoundSplits(r.rows[k..], WindowStart(cfg, obs.time));
    if k > 0 {
      WindowMovesOn(cfg, r.fit.value.fitTime, obs.time);
    }
    forall j | 0 <= j < k + cut ensures r.rows[j].time < WindowStart(cfg, obs.time) {
      if j >= k {
        assert r.rows[j] == r.rows[k..][j - k];
      }
    }
  }

  /** Over every run: the same outcomes, and the same state but for the dropped rows. */
  lemma {:induction false} PruningIsInvisible(cfg: Config, o: Oracle, inputs: seq<Input>) returns (k: nat)
    requires ValidConfig(cfg)
    ensures Outcomes(cfg, o, inputs) == RefOutcomes(cfg, o, inputs)
    ensures Related(cfg, Run(cfg, o, inputs), RefRun(cfg, o, inputs), k)
  {
    if inputs == [] {
      k := 0;
    } else {
      hide CausalRules.Update, RefUpdate, Related;
      var n := |inputs| - 1;
      k := PruningIsInvisible(cfg, o, inputs[..n]);
      k := StepStaysRelated(cfg, o, Run(cfg, o, inputs[..n]), RefRun(cfg, o, inputs[..n]), k, inputs[n]);
    }
  }

  /** The fit one update of the reference stream leaves. */
  lemma RefUpdateFit(cfg: Config, o: Oracle, s: Snapshot, input: Input)
    ensures var t := RefUpdate(cfg, o, s, input).0;
            t.fit == if t.fitCount == s.fitCount then s.fit
                     else Some(NewFit(cfg, o, input.time, Window(cfg, s.rows, input.time)))
  {
    hide AddCalendarMonths, FiniteRows, NewFit, CountEmission, Window, Finite;
  }

  lemma RefRunNext(cfg: Config, o: Oracle, inputs: seq<Input>)
    requires inputs != []
    ensures var n := |inputs| - 1;
            RefRun(cfg, o, inputs) == RefUpdate(cfg, o, RefRun(cfg, o, inputs[..n]), inputs[n]).0
  {
    hide RefUpdate;
  }

  /** Every fit trains on exactly the eligible, finite rows ever seen whose times lie in its window, all of
      them strictly before the fit. */
  lemma EveryFitTrainsOnItsWindow(cfg: Config, o: Oracle, inputs: seq<Input>)
    requires ValidConfig(cfg) && inputs != []
    ensures var n := |inputs| - 1;
            var before, after := Run(cfg, o, inputs[..n]), Run(cfg, o, inputs);
            after.fit == if after.fitCount == before.fitCount then before.fit
                         else Some(NewFit(cfg, o, inputs[n].time, Window(cfg, Accepted(inputs[..n]), inputs[n].time)))
  {
    hide NewFit, Window, Related, Accepted, Run, RefRun, RefUpdate, Stored;
    var n := |inputs| - 1;
    var k := PruningIsInvisible(cfg, o, inputs);
    var k' := PruningIsInvisible(cfg, o, inputs[..n]);
    RelatedFields(cfg, Run(cfg, o, inputs), RefRun(cfg, o, inputs), k);
    RelatedFields(cfg, Run(cfg, o, inputs[..n]), RefRun(cfg, o, inputs[..n]), k');
    ReferenceKeepsEverything(cfg, o, inputs[..n]);
    RefRunNext(cfg, o, inputs);
    RefUpdateFit(cfg, o, RefRun(cfg, o, inputs[..n]), inputs[n]);
  }

  lemma RelatedFields(cfg: Config, s: Snapshot, r: Snapshot, k: nat)
    requires Related(cfg, s, r, k)
    ensures s.fit == r.fit && s.fitCount == r.fitCount
  {
  }
}

/** The long-lived causal HMM stream: a mutable object over a growable, prunable store, its update, and
    its checkpoint. Every method is proved against the value-level rules of CausalRules.
 */
module CausalStream {
  import opened Options
  import opened CalendarMonths
  import opened CompactHistory
  import opened CausalRules

  /** The columns of a store: those the HMM is fitted on, these and the S2R ones, or others. */
  datatype Columns = HmmColumns | HmmAndS2rColumns | OtherColumns

  function ColumnsOf(cfg: Config): Columns {
    if cfg.rthOnly then HmmAndS2rColumns else HmmColumns
  }

  /** What a checkpoint says of the fitted model besides its parameters. */
  datatype ModelStamp = ModelStamp(version: int, columns: Columns, artifact: Digest, scaler: Digest)

  /** A checkpoint. Version 2 lists the stored rows record by record, version 3 packs them with their columns. */
  datatype Checkpoint = Checkpoint(version: int, cfg: Config, columns: Columns, state: Snapshot,
                                   stamp: Option<ModelStamp>, identity: Option<Digest>)

  datatype RestoreError =
    | UnsupportedVersion | InvalidSchedule | ColumnsDiffer | UnsupportedModel | ModelColumnsDiffer
    | ArtifactDiffers | ScalerDiffers | IdentityDiffers

  const MODEL_VERSION := 2

  function StampOf(o: Oracle, fit: Option<Fit>): Option<ModelStamp> {
    if fit.None? then None
    else Some(ModelStamp(MODEL_VERSION, HmmColumns, o.artifact(fit.value.model), o.scaler(fit.value.model)))
  }

  function IdentityOf(cfg: Config, o: Oracle, fit: Option<Fit>): Option<Digest> {
    if fit.Some? then Some(o.identity(cfg, fit.value)) else None
  }

  /** Why a checkpoint cannot be restored, if it cannot. A fit is stored with its stamp. */
  function RestoreFailure(o: Oracle, c: Checkpoint): Option<RestoreError> {
    if c.version != 2 && c.version != 3 then Some(UnsupportedVersion)
    else if !ValidConfig(c.cfg) then Some(InvalidSchedule)
    else if c.version == 3 && c.columns != ColumnsOf(c.cfg) then Some(ColumnsDiffer)
    else
      var stamp := if c.state.fit.Some? then ModelFailure(o, c.state.fit.value.model, c.stamp) else None;
      if stamp.Some? then stamp
      else if c.identity != IdentityOf(c.cfg, o, c.state.fit) then Some(IdentityDiffers)
      else None
  }

  function ModelFailure(o: Oracle, model: Model, stamp: Option<ModelStamp>): Option<RestoreError> {
    if stamp.None? || stamp.value.version != MODEL_VERSION then Some(UnsupportedModel)
    else if stamp.value.columns != HmmColumns then Some(ModelColumnsDiffer)
    else if stamp.value.artifact != o.artifact(model) then Some(ArtifactDiffers)
    else if stamp.value.scaler != o.scaler(model) then Some(ScalerDiffers)
    else None
  }

  /** The stored rows are in strict time order and none is later than the last update. */
  ghost predicate Stored(rows: seq<Obs>, last: Option<int>) {
    && Chronological(rows)
    && forall i :: 0 <= i < |rows| ==> last.Some? && rows[i].time <= last.value
  }

  lemma StoredEarlier(rows: seq<Obs>, last: Option<int>, time: int)
    requires Stored(rows, last) && (last.Some? ==> last.value <= time)
    ensures Stored(rows, Some(time))
  {
  }

  lemma StoredAppend(rows: seq<Obs>, last: Option<int>, obs: Obs)
    requires Stored(rows, last) && (last.Some? ==> last.value < obs.time)
    ensures Stored(rows + [obs], Some(obs.time))
  {
    assert forall i :: 0 <= i < |rows| ==> (rows + [obs])[i] == rows[i];
  }

  lemma StoredDrop(rows: seq<Obs>, last: Option<int>, k: nat)
    requires Stored(rows, last) && k <= |rows|
    ensures Stored(rows[k..], last) && Chronological(rows)
  {
    assert forall i :: 0 <= i < |rows| - k ==> rows[k..][i] == rows[k + i];
  }

  class Stream {
    const cfg: Config
    const o: Oracle
    var history: History
    var anchor: Option<int>
    var initialFit: Option<int>
    var last: Option<int>
    var fit: Option<Fit>
    var logPosterior: Option<LogPosterior>
    var fitCount: nat
    var events: seq<RefitEvent>
    var updateCalls: nat
    var invalid: nat
    var forwardUpdates: nat
    var prunes: nat
    var rejections: nat
    var diagnostics: seq<Diagnostic>
    var lastEmitted: Option<State>

    ghost predicate Valid()
      reads this, history, history.timestamps, history.values
    {
      && history.Valid()
      && Stored(history.contents, last)
    }

    ghost function Snap(): Snapshot
      reads this, history
    {
      Snapshot(history.contents, anchor, initialFit, last, fit, logPosterior, fitCount, events,
               updateCalls, invalid, forwardUpdates, prunes, rejections, diagnostics, lastEmitted)
    }

    constructor (cfg: Config, o: Oracle)
      requires ValidConfig(cfg)
      ensures Valid() && this.cfg == cfg && this.o == o && Snap() == FRESH
      ensures fresh(history) && fresh(history.timestamps) && fresh(history.values)
    {
      this.cfg, this.o := cfg, o;
      history := new History(4096);
      anchor, initialFit, last, fit, logPosterior, lastEmitted := None, None, None, None, None, None;
      fitCount, updateCalls, invalid, forwardUpdates, prunes, rejections := 0, 0, 0, 0, 0, 0;
      events, diagnostics := [], [];
    }

    /** Positions of the training rows in the store. */
    method TrainingBounds(time: int) returns (start: nat, stop: nat)
      requires Valid()
      requires cfg.schedule.Rolling? ==> cfg.schedule.years >= 1
      ensures start <= stop <= history.size
      ensures history.contents[start..stop] == TrainingSlice(cfg, history.contents, time)
    {
      start, stop := 0, 0;
      if history.size == 0 {
        return;
      }
      stop := history.SearchLeft(time);
      if cfg.schedule.Rolling? {
        AddMoves(time, -12 * cfg.schedule.years);
        LowerBoundMonotone(history.contents, WindowStart(cfg, time), time);
        start := history.SearchLeft(AddCalendarMonths(time, -12 * cfg.schedule.years));
      }
    }

    method Update(time: int, row: Row, eligible: bool) returns (out: Outcome)
      requires Valid() && ValidConfig(cfg)
      modifies this, history, history.timestamps, history.values
      ensures Valid()
      ensures (Snap(), out) == CausalRules.Update(cfg, o, old(Snap()), Input(time, row, eligible))
      ensures history == old(history)
      ensures history.timestamps == old(history.timestamps) || fresh(history.timestamps)
      ensures history.values == old(history.values) || fresh(history.values)
    {
      hide History.Valid, Stored, Finite, AddCalendarMonths, Observe, TrainingSlice, Pruned, Chronological;
      ghost var rows, previous := history.contents, last;
      updateCalls := updateCalls + 1;
      if last.Some? && time <= last.value {
        rejections := rejections + 1;
        return Rejected;
      }
      last := Some(time);
      StoredEarlier(rows, previous, time);
      if anchor.None? && eligible {
        anchor := Some(time);
        if cfg.schedule.Rolling? {
          initialFit := Some(AddCalendarMonths(time, cfg.schedule.years * 12));
        }
      }
      if !eligible {
        return Silent;
      }
      if !Finite(row) {
        invalid := invalid + 1;
        return Silent;
      }
      StoredAppend(rows, previous, Obs(time, row));
      history.Append(time, row);
      out := Infer(time, row);
    }

    /** The part of an update after the observation has been stored. */
    method Infer(time: int, row: Row) returns (out: Outcome)
      requires Valid() && ValidConfig(cfg)
      modifies this, history, history.timestamps, history.values
      ensures Valid() && history == old(history)
      ensures history.timestamps == old(history.timestamps) && history.values == old(history.values)
      ensures (Snap(), out)
           == Observe(cfg, o, old(Snap()), Obs(time, row), TrainingSlice(cfg, old(history.contents), time),
                      Pruned(cfg, old(history.contents), time))
    {
      hide History.Valid, Stored, AddCalendarMonths, NewFit, TrainingSlice, LowerBound,
           FiniteRows, CountEmission, Chronological;
      ghost var before := Snap();
      var due := fit.Some? && time >= fit.value.nextRefit;
      var initialDue := fit.None? && InitialFitDue(time);
      var previousState := lastEmitted;
      var training: seq<Obs> := [];
      var refits := false;
      if due || initialDue {
        var start, stop := TrainingBounds(time);
        training := history.Slice(start, stop);
        var valid := FiniteRows(training);
        refits := |valid| >= cfg.minTrainValid;
        if refits {
          Refit(time, training, valid);
        }
      }
      assert refits <==> Refits(cfg, before, time, TrainingSlice(cfg, before.rows, time));
      if fit.None? {
        return Silent;
      }
      var state, posterior := Filter(row);
      if refits {
        events := events + [RefitEvent(
          fitCount, fit.value.fitTime, |training|, fit.value.start, fit.value.lastTraining,
          fit.value.validRows, fit.value.trainingDigest, previousState, state, posterior)];
      }
      if refits && cfg.schedule.Rolling? {
        StoredDrop(history.contents, last, LowerBound(history.contents, WindowStart(cfg, time)));
        history.RetainFrom(AddCalendarMonths(time, -12 * cfg.schedule.years));
        prunes := prunes + 1;
      }
      out := Emitted(state, posterior);
    }

    /** One forward-filter step of the active model, with its counters. */
    method Filter(row: Row) returns (state: State, posterior: LogPosterior)
      requires Valid() && fit.Some?
      modifies this`forwardUpdates, this`logPosterior, this`diagnostics, this`lastEmitted
      ensures Valid()
      ensures (state, posterior) == o.filter(fit.value.model, row, old(logPosterior))
      ensures Snap() == Emit(old(Snap()), state, posterior)
    {
      hide History.Valid, Stored, CountEmission;
      var (s, p) := o.filter(fit.value.model, row, logPosterior);
      state, posterior := s, p;
      forwardUpdates := forwardUpdates + 1;
      logPosterior := Some(posterior);
      if diagnostics != [] {
        var n := |diagnostics| - 1;
        diagnostics := diagnostics[n := CountEmission(diagnostics[n], lastEmitted, state)];
        lastEmitted := Some(state);
      }
    }

    predicate InitialFitDue(time: int)
      reads this
    {
      cfg.schedule.Expanding? || (initialFit.Some? && time >= initialFit.value)
    }

    /** Fits a new model on the training rows and starts its diagnostics. */
    method Refit(time: int, training: seq<Obs>, valid: seq<Obs>)
      requires Valid() && valid == FiniteRows(training)
      modifies this
      ensures Valid() && history == old(history)
      ensures Snap() == CausalRules.Refit(cfg, o, old(Snap()), time, training)
    {
      hide History.Valid, Stored, AddCalendarMonths, FiniteRows, FeatureMatrix, AllColumns, Chronological;
      var model := o.fit(FeatureMatrix(valid));
      logPosterior := None;
      fit := Some(Fit(
        model, time,
        if |training| > 0 then Some(training[0].time) else None,
        if |valid| > 0 then Some(valid[|valid| - 1].time) else None,
        |valid|, AddCalendarMonths(time, cfg.refitMonths), o.fingerprint(training),
        if cfg.rthOnly && |valid| > 0 then Some(o.s2(AllColumns(valid), model)) else None));
      fitCount := fitCount + 1;
      diagnostics := diagnostics
        + [Diagnostic(fitCount, time, [0, 0, 0], [[0, 0, 0], [0, 0, 0], [0, 0, 0]])];
      lastEmitted := None;
    }

    method StateDict() returns (c: Checkpoint)
      requires Valid()
      ensures c == Checkpoint(3, cfg, ColumnsOf(cfg), Snap(), StampOf(o, fit), IdentityOf(cfg, o, fit))
    {
      var rows := history.Payload();
      c := Checkpoint(
        3, cfg, ColumnsOf(cfg),
        Snapshot(rows, anchor, initialFit, last, fit, logPosterior, fitCount, events,
                 updateCalls, invalid, forwardUpdates, prunes, rejections, diagnostics, lastEmitted),
        StampOf(o, fit), IdentityOf(cfg, o, fit));
    }

    /** A stream whose store is rebuilt at exactly the length of the checkpoint's rows, from either format. */
    constructor FromStateDict(o: Oracle, c: Checkpoint)
      requires RestoreFailure(o, c).None?
      requires Stored(c.state.rows, c.state.last)
      ensures Valid() && this.cfg == c.cfg && this.o == o && Snap() == c.state
      ensures fresh(history) && fresh(history.timestamps) && fresh(history.values)
      ensures history.capacity == if |c.state.rows| >= 1 then |c.state.rows| else 1
    {
      this.cfg, this.o := c.cfg, o;
      if c.version == 2 {
        history := new History(4096);
      } else {
        history := new History.FromPayload(c.state.rows);
      }
      anchor, initialFit, last := c.state.anchor, c.state.initialFit, c.state.last;
      fit, logPosterior, lastEmitted := c.state.fit, c.state.logPosterior, c.state.lastEmitted;
      fitCount, updateCalls, invalid := c.state.fitCount, c.state.updateCalls, c.state.invalid;
      forwardUpdates, prunes := c.state.forwardUpdates, c.state.prunes;
      rejections := c.state.rejections;
      events, diagnostics := c.state.events, c.state.diagnostics;
      new;
      if c.version == 2 {
        history.ReplaceRecords(c.state.rows);
      }
    }
  }

  /** Restores a checkpoint, or says why not. */
  method Restore(o: Oracle, c: Checkpoint) returns (r: Option<Stream>, failure: Option<RestoreError>)
    requires Stored(c.state.rows, c.state.last)
    ensures failure == RestoreFailure(o, c) && (r.Some? <==> failure.None?)
    ensures r.Some? ==>
              var s := r.value;
              && s.Valid() && s.cfg == c.cfg && s.o == o && s.Snap() == c.state
              && fresh(s) && fresh(s.history) && fresh(s.history.timestamps) && fresh(s.history.values)
  {
    r, failure := None, None;
    if c.version != 2 && c.version != 3 {
      failure := Some(UnsupportedVersion);
    } else if !ValidConfig(c.cfg) {
      failure := Some(InvalidSchedule);
    } else if c.version == 3 && c.columns != ColumnsOf(c.cfg) {
      failure := Some(ColumnsDiffer);
    } else if c.state.fit.Some? && ModelFailure(o, c.state.fit.value.model, c.stamp).Some? {
      failure := ModelFailure(o, c.state.fit.value.model, c.stamp);
    } else if c.identity != IdentityOf(c.cfg, o, c.state.fit) {
      failure := Some(IdentityDiffers);
    } else {
      var s := new Stream.FromStateDict(o, c);
      r := Some(s);
    }
  }

  method Feed(s: Stream, inputs: seq<Input>) returns (out: seq<Outcome>)
    requires s.Valid() && ValidConfig(s.cfg)
    modifies s, s.history, s.history.timestamps, s.history.values
    ensures s.Valid()
    ensures s.Snap() == RunFrom(s.cfg, s.o, old(s.Snap()), inputs)
    ensures out == OutcomesFrom(s.cfg, s.o, old(s.Snap()), inputs)
  {
    hide CausalRules.Update, RunFrom, OutcomesFrom, Stored, History.Valid;
    ghost var start := s.Snap();
    out := [];
    RunStarts(s.cfg, s.o, start);
    for i := 0 to |inputs|
      invariant s.Valid() && s.history == old(s.history)
      invariant s.history.timestamps == old(s.history.timestamps) || fresh(s.history.timestamps)
      invariant s.history.values == old(s.history.values) || fresh(s.history.values)
      invariant s.Snap() == RunFrom(s.cfg, s.o, start, inputs[..i])
      invariant out == OutcomesFrom(s.cfg, s.o, start, inputs[..i])
    {
      var x := s.Update(inputs[i].time, inputs[i].row, inputs[i].eligible);
      RunNext(s.cfg, s.o, start, inputs, i);
      out := out + [x];
    }
    assert inputs[..|inputs|] == inputs;
  }

  lemma RunStarts(cfg: Config, o: Oracle, s: Snapshot)
    ensures RunFrom(cfg, o, s, []) == s && OutcomesFrom(cfg, o, s, []) == []
  {
  }

  lemma RunNext(cfg: Config, o: Oracle, s: Snapshot, inputs: seq<Input>, i: nat)
    requires i < |inputs|
    ensures var at, step := RunFrom(cfg, o, s, inputs[..i]),
                            CausalRules.Update(cfg, o, RunFrom(cfg, o, s, inputs[..i]), inputs[i]);
      && RunFrom(cfg, o, s, inputs[..i + 1]) == step.0
      && OutcomesFrom(cfg, o, s, inputs[..i + 1]) == OutcomesFrom(cfg, o, s, inputs[..i]) + [step.1]
  {
    hide CausalRules.Update;
    assert inputs[..i + 1][..i] == inputs[..i];
  }

  /** Stopping after any observations, saving in either format, restoring into a new object and carrying on gives
      the same outcomes and ends in the same checkpoint as never stopping, whatever capacity either store had. */
  method ResumeAudit(cfg: Config, o: Oracle, before: seq<Input>, after: seq<Input>, older: bool)
    returns (straight: seq<Outcome>, resumed: seq<Outcome>, end: Checkpoint, endResumed: Checkpoint)
    requires ValidConfig(cfg)
    ensures straight == resumed == Outcomes(cfg, o, before + after)
    ensures end == endResumed && end.state == Run(cfg, o, before + after)
  {
    hide CausalRules.Update, RunFrom, OutcomesFrom, Stored, History.Valid;
    var one := new Stream(cfg, o);
    straight := Feed(one, before + after);
    end := one.StateDict();

    var two := new Stream(cfg, o);
    resumed := Feed(two, before);
    var c := two.StateDict();
    var three, failure := Restore(o, if older then c.(version := 2) else c);
    var rest := Feed(three.value, after);
    resumed := resumed + rest;
    endResumed := three.value.StateDict();
    RunsCompose(cfg, o, FRESH, before, after);
  }

  lemma LowerBoundMonotone(rows: seq<Obs>, a: int, b: int)
    requires a <= b && Chronological(rows)
    ensures LowerBound(rows, a) <= LowerBound(rows, b)
  {
    LowerBoundSplits(rows, a);
    LowerBoundSplits(rows, b);
  }
}

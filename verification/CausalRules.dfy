/** The causal HMM stream as values: what one observation does to the stream.

    Fitting, filtering one observation, the fitted S2R quantities and the digests are parameters
    (`Oracle`): all that is known of them is that they are functions.
 */
module CausalRules {
  import opened Options
  import opened CalendarMonths
  import opened CompactHistory

  type Model(!new)
  type LogPosterior(!new)
  type S2Model(!new)
  type Digest(==, !new)

  /** A raw HMM component. */
  type State = x: nat | x < 3

  const FEATURES := 6

  datatype Schedule = Expanding | Rolling(years: nat)

  datatype Config = Config(schedule: Schedule, refitMonths: nat, rthOnly: bool, minTrainValid: int)

  /** The schedules the constructor accepts. */
  predicate ValidConfig(cfg: Config) {
    cfg.refitMonths >= 1 && (cfg.schedule.Rolling? ==> cfg.schedule.years >= 1)
  }

  datatype Oracle = Oracle(
    fit: seq<Row> -> Model,
    filter: (Model, Row, Option<LogPosterior>) -> (State, LogPosterior),
    s2: (seq<Row>, Model) -> S2Model,
    fingerprint: seq<Obs> -> Digest,
    identity: (Config, Fit) -> Digest,
    artifact: Model -> Digest,
    scaler: Model -> Digest)

  /** Everything that is written when a model is fitted. `fitTime` is also the exclusive end of its
      training interval. */
  datatype Fit = Fit(
    model: Model, fitTime: int, start: Option<int>, lastTraining: Option<int>, validRows: nat,
    nextRefit: int, trainingDigest: Digest, s2: Option<S2Model>)

  datatype RefitEvent = RefitEvent(
    version: nat, fitTime: int, trainingRows: nat, start: Option<int>, lastTraining: Option<int>,
    validRows: nat, trainingDigest: Digest, previousState: Option<State>,
    firstState: State, firstPosterior: LogPosterior)

  datatype Diagnostic = Diagnostic(
    version: nat, fitTime: int, occupancy: seq<nat>, transitions: seq<seq<nat>>)

  /** The observable state of a stream: also the content of a checkpoint. */
  datatype Snapshot = Snapshot(
    rows: seq<Obs>, anchor: Option<int>, initialFit: Option<int>, last: Option<int>,
    fit: Option<Fit>, logPosterior: Option<LogPosterior>, fitCount: nat,
    events: seq<RefitEvent>, updateCalls: nat, invalid: nat, forwardUpdates: nat, prunes: nat,
    rejections: nat, diagnostics: seq<Diagnostic>, lastEmitted: Option<State>)

  const FRESH := Snapshot([], None, None, None, None, None, 0, [], 0, 0, 0, 0, 0, [], None)

  datatype Input = Input(time: int, row: Row, eligible: bool)

  /** What `update` gives back: an error for a time that does not increase, nothing, or a state. */
  datatype Outcome = Rejected | Silent | Emitted(state: State, posterior: LogPosterior)

  // ---------------------------------------------------------------------------------------------
  // Parts of one update
  // ---------------------------------------------------------------------------------------------

  predicate Finite(row: Row) {
    |row| >= FEATURES && forall k :: 0 <= k < FEATURES ==> row[k].Some?
  }

  function FiniteRows(rows: seq<Obs>): seq<Obs> {
    if rows == [] then []
    else
      var n := |rows| - 1;
      if Finite(rows[n].row) then FiniteRows(rows[..n]) + [rows[n]] else FiniteRows(rows[..n])
  }

  /** The first columns of each row: the features the HMM is fitted on. */
  function FeatureMatrix(rows: seq<Obs>): (matrix: seq<Row>)
    ensures |matrix| == |rows|
  {
    seq(|rows|, i requires 0 <= i < |rows| =>
      if |rows[i].row| >= FEATURES then rows[i].row[..FEATURES] else rows[i].row)
  }

  function AllColumns(rows: seq<Obs>): (matrix: seq<Row>)
    ensures |matrix| == |rows|
  {
    seq(|rows|, i requires 0 <= i < |rows| => rows[i].row)
  }

  predicate TooEarly(s: Snapshot, time: int) {
    s.last.Some? && time <= s.last.value
  }

  /** The clock moves on; the first eligible time anchors a rolling schedule. */
  function EnterTime(cfg: Config, s: Snapshot, input: Input): Snapshot {
    var first := s.anchor.None? && input.eligible;
    s.(updateCalls := s.updateCalls + 1,
       last := Some(input.time),
       anchor := if first then Some(input.time) else s.anchor,
       initialFit := if first && cfg.schedule.Rolling?
                     then Some(AddCalendarMonths(input.time, 12 * cfg.schedule.years))
                     else s.initialFit)
  }

  predicate FitDue(cfg: Config, s: Snapshot, time: int) {
    if s.fit.Some? then time >= s.fit.value.nextRefit
    else cfg.schedule.Expanding? || (s.initialFit.Some? && time >= s.initialFit.value)
  }

  /** The start of the rolling training window that ends at `time`. */
  function WindowStart(cfg: Config, time: int): int
    requires cfg.schedule.Rolling?
  {
    AddCalendarMonths(time, -12 * cfg.schedule.years)
  }

  /** The training rows as the program takes them: a slice of the store between two searches. */
  function TrainingSlice(cfg: Config, rows: seq<Obs>, time: int): seq<Obs> {
    var stop := LowerBound(rows, time);
    var start := if cfg.schedule.Rolling? then LowerBound(rows, WindowStart(cfg, time)) else 0;
    if start <= stop then rows[start..stop] else []
  }

  /** The rows kept after a successful refit of a rolling stream. */
  function Pruned(cfg: Config, rows: seq<Obs>, time: int): seq<Obs> {
    if cfg.schedule.Rolling? then rows[LowerBound(rows, WindowStart(cfg, time))..] else rows
  }

  function NewFit(cfg: Config, o: Oracle, time: int, training: seq<Obs>): Fit {
    var valid := FiniteRows(training);
    var model := o.fit(FeatureMatrix(valid));
    Fit(model, time,
        if training == [] then None else Some(training[0].time),
        if valid == [] then None else Some(valid[|valid| - 1].time),
        |valid|, AddCalendarMonths(time, cfg.refitMonths), o.fingerprint(training),
        if cfg.rthOnly && valid != [] then Some(o.s2(AllColumns(valid), model)) else None)
  }

  const NO_COUNTS: seq<nat> := [0, 0, 0]

  function Refit(cfg: Config, o: Oracle, s: Snapshot, time: int, training: seq<Obs>): Snapshot {
    s.(fit := Some(NewFit(cfg, o, time, training)),
       logPosterior := None,
       fitCount := s.fitCount + 1,
       diagnostics := s.diagnostics
         + [Diagnostic(s.fitCount + 1, time, NO_COUNTS, [NO_COUNTS, NO_COUNTS, NO_COUNTS])],
       lastEmitted := None)
  }

  function Bump(counts: seq<nat>, x: nat): (r: seq<nat>)
    ensures |r| == |counts|
  {
    if x < |counts| then counts[x := counts[x] + 1] else counts
  }

  function BumpPair(table: seq<seq<nat>>, x: nat, y: nat): (r: seq<seq<nat>>)
    ensures |r| == |table|
  {
    if x < |table| then table[x := Bump(table[x], y)] else table
  }

  /** The active model's diagnostic counts the emitted state, and the step to it from the last one. */
  function CountEmission(d: Diagnostic, previous: Option<State>, state: State): Diagnostic {
    d.(occupancy := Bump(d.occupancy, state),
       transitions := if previous.Some? then BumpPair(d.transitions, previous.value, state)
                      else d.transitions)
  }

  function Emit(s: Snapshot, state: State, posterior: LogPosterior): Snapshot {
    var n := |s.diagnostics|;
    var counted := s.(forwardUpdates := s.forwardUpdates + 1, logPosterior := Some(posterior));
    if n == 0 then counted
    else counted.(
      diagnostics := s.diagnostics[n - 1 := CountEmission(s.diagnostics[n - 1], s.lastEmitted, state)],
      lastEmitted := Some(state))
  }

  function EventOf(s: Snapshot, training: seq<Obs>, previous: Option<State>, state: State,
                   posterior: LogPosterior): RefitEvent
    requires s.fit.Some?
  {
    var f := s.fit.value;
    RefitEvent(s.fitCount, f.fitTime, |training|, f.start, f.lastTraining, f.validRows,
               f.trainingDigest, previous, state, posterior)
  }

  // ---------------------------------------------------------------------------------------------
  // One update
  // ---------------------------------------------------------------------------------------------

  predicate Refits(cfg: Config, s: Snapshot, time: int, training: seq<Obs>) {
    FitDue(cfg, s, time) && |FiniteRows(training)| >= cfg.minTrainValid
  }

  /** An eligible, finite observation, once it has been stored. */
  function Observe(cfg: Config, o: Oracle, s: Snapshot, obs: Obs, training: seq<Obs>, keep: seq<Obs>)
    : (Snapshot, Outcome)
  {
    var refits := Refits(cfg, s, obs.time, training);
    var ready := if refits then Refit(cfg, o, s, obs.time, training) else s;
    if ready.fit.None? then (ready, Silent)
    else
      var (state, posterior) := o.filter(ready.fit.value.model, obs.row, ready.logPosterior);
      var emitted := Emit(ready, state, posterior);
      var logged := if refits
                    then emitted.(events := s.events
                           + [EventOf(ready, training, s.lastEmitted, state, posterior)])
                    else emitted;
      (if refits && cfg.schedule.Rolling? then logged.(rows := keep, prunes := s.prunes + 1) else logged,
       Emitted(state, posterior))
  }

  /** One update; `training` is what a refit would train on and `keep` what it would keep afterwards. */
  function UpdateWith(cfg: Config, o: Oracle, s: Snapshot, input: Input, training: seq<Obs>, keep: seq<Obs>)
    : (Snapshot, Outcome)
  {
    if TooEarly(s, input.time) then
      (s.(updateCalls := s.updateCalls + 1, rejections := s.rejections + 1), Rejected)
    else
      var entered := EnterTime(cfg, s, input);
      if !input.eligible then (entered, Silent)
      else if !Finite(input.row) then (entered.(invalid := s.invalid + 1), Silent)
      else
        var obs := Obs(input.time, input.row);
        Observe(cfg, o, entered.(rows := s.rows + [obs]), obs, training, keep)
  }

  /** The update the stream performs: it trains on a slice of its store and prunes the store. */
  function Update(cfg: Config, o: Oracle, s: Snapshot, input: Input): (Snapshot, Outcome) {
    var stored := s.rows + [Obs(input.time, input.row)];
    UpdateWith(cfg, o, s, input, TrainingSlice(cfg, stored, input.time), Pruned(cfg, stored, input.time))
  }

  function RunFrom(cfg: Config, o: Oracle, s: Snapshot, inputs: seq<Input>): Snapshot {
    if inputs == [] then s
    else
      var n := |inputs| - 1;
      Update(cfg, o, RunFrom(cfg, o, s, inputs[..n]), inputs[n]).0
  }

  function OutcomesFrom(cfg: Config, o: Oracle, s: Snapshot, inputs: seq<Input>): (out: seq<Outcome>)
    ensures |out| == |inputs|
  {
    if inputs == [] then []
    else
      var n := |inputs| - 1;
      OutcomesFrom(cfg, o, s, inputs[..n]) + [Update(cfg, o, RunFrom(cfg, o, s, inputs[..n]), inputs[n]).1]
  }

  function Run(cfg: Config, o: Oracle, inputs: seq<Input>): Snapshot {
    RunFrom(cfg, o, FRESH, inputs)
  }

  function Outcomes(cfg: Config, o: Oracle, inputs: seq<Input>): (out: seq<Outcome>)
    ensures |out| == |inputs|
  {
    OutcomesFrom(cfg, o, FRESH, inputs)
  }

  /** A run can be cut anywhere: the second part only needs the state the first part left. */
  lemma {:induction false} RunsCompose(cfg: Config, o: Oracle, s: Snapshot, a: seq<Input>, b: seq<Input>)
    ensures RunFrom(cfg, o, s, a + b) == RunFrom(cfg, o, RunFrom(cfg, o, s, a), b)
    ensures OutcomesFrom(cfg, o, s, a + b)
         == OutcomesFrom(cfg, o, s, a) + OutcomesFrom(cfg, o, RunFrom(cfg, o, s, a), b)
    decreases |b|
  {
    hide Update;
    if b == [] {
      assert a + b == a;
    } else {
      var n := |b| - 1;
      assert (a + b)[..|a| + n] == a + b[..n];
      RunsCompose(cfg, o, s, a, b[..n]);
    }
  }
}

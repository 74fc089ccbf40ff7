/** The resumable warm-up: history is consumed in chunks and a checkpoint is committed after every chunk.
    A process may be killed after any committed checkpoint, and a new one resumes.

    What a chunk boundary must not disturb is modelled in full: the bounded queues of recent bars and feature
    rows, the row count, and the thirty-return completeness flag, which looks back across the boundary. The
    streams and ranks that one row advances are the abstract `Core`.
 */
module BootstrapRunner {
  import opened Options

  type Core(!new)
  type Features(!new)
  type Identity(==, !new)
  type Digest(==, !new)

  /** One bar with its features; `hasReturn` says whether its log return is present. */
  datatype SourceRow = SourceRow(time: int, hasReturn: bool, features: Features)

  datatype Context = Context(core: Core, bars: seq<SourceRow>, featureRows: seq<SourceRow>, barsSeen: nat)

  /** `featuresMatch` says that the feature frame has the full schema and the stamps of the rows, `covered` that
      the coverage certificate is one the runner accepts. */
  datatype Job = Job(rows: seq<SourceRow>, featuresMatch: bool, covered: bool, origin: int, activation: int,
                     identity: Identity, initial: Core, advance: (Core, SourceRow, bool) -> Core)

  datatype Payload = Payload(identity: Identity, rowsProcessed: int, last: Option<int>, context: Context,
                             ready: bool)

  /** A checkpoint file: the payload with the schema version and the digest of both. */
  datatype Document = Document(schema: int, payload: Payload, digest: Digest)

  datatype Failure =
    | BadInput | NotCovered | ContextNotFresh | CheckpointExists | NoCheckpoint | ChecksumMismatch
    | UnsupportedSchema | IdentityDiffers | InvalidCursor | IncompleteCheckpoint | CursorMismatch
    | NotBeforeActivation

  datatype Outcome = Finished(payload: Payload) | Interrupted | Failed(failure: Failure)

  const KEPT_BARS: nat := 62
  const KEPT_FEATURE_ROWS: nat := 500
  const RETURNS_NEEDED: nat := 30

  /** Nonempty, strictly ordered, from the configured origin, ending before activation, and with features. */
  predicate WellFormed(job: Job) {
    && job.rows != []
    && (forall i, j :: 0 <= i < j < |job.rows| ==> job.rows[i].time < job.rows[j].time)
    && job.rows[0].time == job.origin
    && job.rows[|job.rows| - 1].time < job.activation
    && job.featuresMatch
  }

  predicate Accepted(job: Job) { WellFormed(job) && job.covered }

  function TakeLast<T>(s: seq<T>, n: nat): seq<T> {
    if |s| <= n then s else s[|s| - n..]
  }

  /** The thirty returns ending at row `i` are all present. */
  predicate CompleteAt(rows: seq<SourceRow>, i: nat)
    requires i < |rows|
  {
    i + 1 >= RETURNS_NEEDED && forall k :: i + 1 - RETURNS_NEEDED <= k <= i ==> rows[k].hasReturn
  }

  // ---------------------------------------------------------------------------------------------
  // The warm-up without chunks
  // ---------------------------------------------------------------------------------------------

  /** The core after the first `n` rows, each flagged by looking back over the whole history. */
  function CoreAfter(job: Job, n: nat): Core
    requires n <= |job.rows|
  {
    if n == 0 then job.initial
    else job.advance(CoreAfter(job, n - 1), job.rows[n - 1], CompleteAt(job.rows, n - 1))
  }

  function After(job: Job, n: nat): Context
    requires n <= |job.rows|
  {
    Context(CoreAfter(job, n), TakeLast(job.rows[..n], KEPT_BARS), TakeLast(job.rows[..n], KEPT_FEATURE_ROWS), n)
  }

  function LastTime(job: Job, n: nat): Option<int>
    requires n <= |job.rows|
  {
    if n == 0 then None else Some(job.rows[n - 1].time)
  }

  /** What the finished warm-up leaves on disk. */
  function Warm(job: Job): Payload {
    Payload(job.identity, |job.rows|, LastTime(job, |job.rows|), After(job, |job.rows|), true)
  }

  /** A checkpoint of this job: the cursor counts the rows folded, and only a complete fold is marked
      ready. */
  ghost predicate Faithful(job: Job, p: Payload) {
    && 0 < p.rowsProcessed <= |job.rows|
    && p.context == After(job, p.rowsProcessed)
    && p.last == LastTime(job, p.rowsProcessed)
    && (p.ready ==> p.rowsProcessed == |job.rows|)
  }

  /** There are thirty rows up to row `i`, and each of these has a return. */
  predicate ThirtyReturns(rows: seq<SourceRow>, i: int) {
    29 <= i < |rows| && forall k :: i - 29 <= k <= i ==> rows[k].hasReturn
  }

  /** The states one after the other when every row in turn is folded in. */
  ghost predicate Folds(job: Job, cores: seq<Core>) {
    && |cores| == |job.rows| + 1 && cores[0] == job.initial
    && forall i :: 0 <= i < |job.rows| ==>
         cores[i + 1] == job.advance(cores[i], job.rows[i], ThirtyReturns(job.rows, i))
  }

  lemma {:induction false} FoldIsCore(job: Job, cores: seq<Core>, n: nat)
    requires Folds(job, cores) && n <= |job.rows|
    ensures CoreAfter(job, n) == cores[n]
  {
    if n > 0 {
      FoldIsCore(job, cores, n - 1);
      assert cores[(n - 1) + 1] == cores[n] && CompleteAt(job.rows, n - 1) == ThirtyReturns(job.rows, n - 1);
    }
  }

  /** What the finished warm-up leaves: the state after every row in turn, the last 62 rows and the last 500 in
      order, the number of rows and the time of the last, under the job's identity and marked ready. */
  lemma WarmHolds(job: Job, cores: seq<Core>)
    requires job.rows != [] && Folds(job, cores)
    ensures var n, warm := |job.rows|, Warm(job);
            && warm.identity == job.identity && warm.ready && warm.rowsProcessed == n
            && warm.last == Some(job.rows[n - 1].time)
            && warm.context.core == cores[n] && warm.context.barsSeen == n
            && |warm.context.bars| == (if n <= 62 then n else 62)
            && (forall k :: 0 <= k < |warm.context.bars| ==>
                  warm.context.bars[k] == job.rows[n - |warm.context.bars| + k])
            && |warm.context.featureRows| == (if n <= 500 then n else 500)
            && (forall k :: 0 <= k < |warm.context.featureRows| ==>
                  warm.context.featureRows[k] == job.rows[n - |warm.context.featureRows| + k])
  {
    hide CoreAfter, Folds;
    FoldIsCore(job, cores, |job.rows|);
    assert job.rows[..|job.rows|] == job.rows;
  }

  // ---------------------------------------------------------------------------------------------
  // Chunk boundaries
  // ---------------------------------------------------------------------------------------------

  /** A queue that keeps its last `n` entries may be fed the last `n` of a batch instead of the batch. */
  lemma QueuesForgetTheSame<T>(a: seq<T>, b: seq<T>, n: nat)
    ensures TakeLast(TakeLast(a, n) + TakeLast(b, n), n) == TakeLast(a + b, n)
  {
    LastOfBoth(a, b, n);
    LastOfBoth(TakeLast(a, n), TakeLast(b, n), n);
    if |b| < n && |a| > n {
      assert a[|a| - n..][|b|..] == a[|a| - (n - |b|)..];
    }
  }

  /** The last entries of two lists are those of the second, filled up from the first. */
  lemma LastOfBoth<T>(a: seq<T>, b: seq<T>, n: nat)
    ensures TakeLast(a + b, n) == if |b| >= n then TakeLast(b, n) else TakeLast(a, n - |b|) + b
  {
    var cut := |a| + |b| - n;
    if |b| >= n {
      assert |a + b| > n ==> (a + b)[cut..] == b[|b| - n..];
    } else if cut > 0 {
      assert (a + b)[cut..] == a[cut..] + b;
    }
  }

  /** Twenty-nine rows carried over the boundary are enough to flag every row of the next chunk. */
  lemma FlagsAcrossTheBoundary(rows: seq<SourceRow>, start: nat, stop: nat, i: nat)
    requires start <= stop <= |rows| && i < stop - start
    ensures var prior := TakeLast(TakeLast(rows[..start], KEPT_FEATURE_ROWS), RETURNS_NEEDED - 1);
            CompleteAt(prior + rows[start..stop], |prior| + i) == CompleteAt(rows, start + i)
  {
    var prior := TakeLast(TakeLast(rows[..start], KEPT_FEATURE_ROWS), RETURNS_NEEDED - 1);
    var seen := prior + rows[start..stop];
    var shift := start - |prior|;
    assert forall k :: 0 <= k < |seen| ==> seen[k] == rows[k + shift];
    if CompleteAt(seen, |prior| + i) {
      forall k | start + i + 1 - RETURNS_NEEDED <= k <= start + i
        ensures rows[k].hasReturn
      {
        assert seen[k - shift] == rows[k];
      }
    }
  }

  lemma QueuesMoveOn(job: Job, start: nat, stop: nat)
    requires start <= stop <= |job.rows|
    ensures var c, chunk := After(job, start), job.rows[start..stop];
            && TakeLast(c.bars + TakeLast(chunk, KEPT_BARS), KEPT_BARS) == After(job, stop).bars
            && TakeLast(c.featureRows + TakeLast(chunk, KEPT_FEATURE_ROWS), KEPT_FEATURE_ROWS)
               == After(job, stop).featureRows
  {
    hide TakeLast;
    var chunk := job.rows[start..stop];
    QueuesForgetTheSame(job.rows[..start], chunk, KEPT_BARS);
    QueuesForgetTheSame(job.rows[..start], chunk, KEPT_FEATURE_ROWS);
    assert job.rows[..start] + chunk == job.rows[..stop];
  }

  /** Consumes the rows of one chunk. */
  method FoldChunk(job: Job, context: Context, start: nat, stop: nat) returns (next: Context)
    requires start < stop <= |job.rows| && context == After(job, start)
    ensures next == After(job, stop)
  {
    hide TakeLast, CompleteAt;
    var chunk := job.rows[start..stop];
    var prior := TakeLast(context.featureRows, RETURNS_NEEDED - 1);
    var core := context.core;
    for i := 0 to |chunk|
      invariant core == CoreAfter(job, start + i)
    {
      FlagsAcrossTheBoundary(job.rows, start, stop, i);
      core := job.advance(core, chunk[i], CompleteAt(prior + chunk, |prior| + i));
    }
    QueuesMoveOn(job, start, stop);
    next := Context(core,
                    TakeLast(context.bars + TakeLast(chunk, KEPT_BARS), KEPT_BARS),
                    TakeLast(context.featureRows + TakeLast(chunk, KEPT_FEATURE_ROWS), KEPT_FEATURE_ROWS),
                    context.barsSeen + |chunk|);
  }

  // ---------------------------------------------------------------------------------------------
  // Checkpoints
  // ---------------------------------------------------------------------------------------------

  const SCHEMA := 2

  datatype Loaded = Loaded(payload: Payload) | Unreadable(failure: Failure)

  /** What reading a checkpoint file under an expected identity gives. */
  function Read(file: Option<Document>, digest: (int, Payload) -> Digest, identity: Identity): Loaded {
    if file.None? then Unreadable(NoCheckpoint)
    else
      var d := file.value;
      if d.digest != digest(d.schema, d.payload) then Unreadable(ChecksumMismatch)
      else if d.schema != SCHEMA then Unreadable(UnsupportedSchema)
      else if d.payload.identity != identity then Unreadable(IdentityDiffers)
      else if d.payload.rowsProcessed < 0 then Unreadable(InvalidCursor)
      else if d.payload.rowsProcessed > 0 && d.payload.last.None? then Unreadable(IncompleteCheckpoint)
      else Loaded(d.payload)
  }

  /** A file is read exactly when its digest is that of its contents, its schema the current one, its identity the
      one expected, its cursor not negative, and a time recorded unless nothing has been folded. */
  lemma ReadsExactlyWhen(file: Option<Document>, digest: (int, Payload) -> Digest, identity: Identity, p: Payload)
    ensures Read(file, digest, identity) == Loaded(p) <==>
              && file == Some(Document(2, p, digest(2, p)))
              && p.identity == identity && p.rowsProcessed >= 0 && (p.rowsProcessed > 0 ==> p.last.Some?)
  {
  }

  class CheckpointStore {
    const digest: (int, Payload) -> Digest
    var file: Option<Document>

    constructor (digest: (int, Payload) -> Digest)
      ensures file.None? && this.digest == digest
    {
      this.digest, file := digest, None;
    }

    /** Replacing the file is one step. */
    method Save(p: Payload)
      modifies this`file
      ensures file == Some(Document(SCHEMA, p, digest(SCHEMA, p)))
    {
      file := Some(Document(SCHEMA, p, digest(SCHEMA, p)));
    }

    method Load(identity: Identity) returns (r: Loaded)
      ensures r == Read(file, digest, identity)
    {
      if file.None? {
        return Unreadable(NoCheckpoint);
      }
      var p := file.value.payload;
      if file.value.digest != digest(file.value.schema, p) {
        return Unreadable(ChecksumMismatch);
      }
      if file.value.schema != SCHEMA {
        return Unreadable(UnsupportedSchema);
      }
      if p.identity != identity {
        return Unreadable(IdentityDiffers);
      }
      if p.rowsProcessed < 0 {
        return Unreadable(InvalidCursor);
      }
      if p.rowsProcessed > 0 && p.last.None? {
        return Unreadable(IncompleteCheckpoint);
      }
      r := Loaded(p);
    }
  }

  /** Whatever can be read under this job's identity was written by this job. */
  ghost predicate Trusted(job: Job, file: Option<Document>, digest: (int, Payload) -> Digest) {
    var r := Read(file, digest, job.identity);
    r.Loaded? ==> Faithful(job, r.payload)
  }

  /** Every faithful checkpoint can be read back. */
  lemma SavedIsRead(job: Job, p: Payload, digest: (int, Payload) -> Digest)
    requires Faithful(job, p) && p.identity == job.identity
    ensures Read(Some(Document(SCHEMA, p, digest(SCHEMA, p))), digest, job.identity) == Loaded(p)
    ensures forall other: Identity :: other != job.identity ==>
              Read(Some(Document(SCHEMA, p, digest(SCHEMA, p))), digest, other) == Unreadable(IdentityDiffers)
  {
  }

  // ---------------------------------------------------------------------------------------------
  // One process
  // ---------------------------------------------------------------------------------------------

  /** Why a process that finds this file may not start, if it may not. */
  function StartFailure(job: Job, seen: nat, resume: bool, file: Option<Document>, digest: (int, Payload) -> Digest)
    : Option<Failure>
  {
    if !WellFormed(job) then Some(BadInput)
    else if !job.covered then Some(NotCovered)
    else if seen > 0 then Some(ContextNotFresh)
    else if !resume then if file.Some? then Some(CheckpointExists) else None
    else
      var r := Read(file, digest, job.identity);
      if r.Unreadable? then Some(r.failure) else None
  }

  /** A run may start exactly with at least one row, times that rise from the origin to before the activation, matching
      features, accepted coverage and a runner that has seen nothing; and either resumed from a file that can be read,
      or anew where there is none. */
  lemma StartsExactlyWhen(job: Job, seen: nat, resume: bool, file: Option<Document>,
                          digest: (int, Payload) -> Digest)
    ensures StartFailure(job, seen, resume, file, digest).None? <==>
              && |job.rows| > 0 && (forall i, j :: 0 <= i < j < |job.rows| ==> job.rows[i].time < job.rows[j].time)
              && job.rows[0].time == job.origin
              && (forall i :: 0 <= i < |job.rows| ==> job.rows[i].time < job.activation)
              && job.featuresMatch && job.covered && seen == 0
              && if resume then Read(file, digest, job.identity).Loaded? else file.None?
  {
  }

  /** The rows already folded and the context they gave, or why this run may not start; `seen` is how many bars
      the runner's context has already seen. */
  method Open(store: CheckpointStore, job: Job, seen: nat, resume: bool)
    returns (rowsDone: nat, context: Context, failure: Option<Failure>)
    requires Trusted(job, store.file, store.digest)
    ensures failure == StartFailure(job, seen, resume, store.file, store.digest)
    ensures failure.None? ==> rowsDone <= |job.rows| && context == After(job, rowsDone)
    ensures failure.None? ==> rowsDone == if resume then store.file.value.payload.rowsProcessed else 0
  {
    rowsDone, context, failure := 0, Context(job.initial, [], [], 0), None;
    if !WellFormed(job) {
      failure := Some(BadInput);
    } else if !job.covered {
      failure := Some(NotCovered);
    } else if seen > 0 {
      failure := Some(ContextNotFresh);
    } else if resume {
      var r := store.Load(job.identity);
      if r.Unreadable? {
        failure := Some(r.failure);
      } else if r.payload.rowsProcessed > |job.rows| || r.payload.last != LastTime(job, r.payload.rowsProcessed) {
        failure := Some(CursorMismatch);
      } else {
        rowsDone, context := r.payload.rowsProcessed, r.payload.context;
      }
    } else if store.file.Some? {
      failure := Some(CheckpointExists);
    }
  }

  /** This process left a checkpoint of `rows` rows on disk. */
  ghost predicate Committed(job: Job, store: CheckpointStore, rows: nat)
    reads store
  {
    && store.file.Some? && store.file.value.payload.identity == job.identity
    && Faithful(job, store.file.value.payload) && store.file.value.payload.rowsProcessed == rows
    && Read(store.file, store.digest, job.identity) == Loaded(store.file.value.payload)
  }

  /** One process. It is killed once it has committed `lifetime` checkpoints, if it gets that far. */
  method Run(store: CheckpointStore, job: Job, chunkRows: nat, seen: nat, resume: bool, lifetime: nat)
    returns (out: Outcome)
    requires chunkRows > 0 && Trusted(job, store.file, store.digest)
    modifies store`file
    ensures Trusted(job, store.file, store.digest)
    ensures var failure := StartFailure(job, seen, resume, old(store.file), store.digest);
            if failure.Some? then out == Failed(failure.value) && store.file == old(store.file) else !out.Failed?
    ensures out.Finished? ==> out.payload == Warm(job) && store.file.Some? && store.file.value.payload == Warm(job)
    ensures !out.Failed? && resume ==>
              store.file.Some? && store.file.value.payload.rowsProcessed >= old(store.file).value.payload.rowsProcessed
    ensures !out.Failed? && store.file.Some? ==>
              Read(store.file, store.digest, job.identity) == Loaded(store.file.value.payload)
    ensures lifetime > |job.rows| ==> !out.Interrupted?
  {
    var rowsDone, context, failure := Open(store, job, seen, resume);
    if failure.Some? {
      return Failed(failure.value);
    }
    ghost var begun := rowsDone;
    var committed := 0;
    while rowsDone < |job.rows|
      invariant begun <= rowsDone <= |job.rows| && context == After(job, rowsDone)
      invariant committed <= lifetime && committed <= rowsDone - begun
      invariant rowsDone > 0 ==> Committed(job, store, rowsDone)
      invariant rowsDone == 0 ==> store.file == old(store.file)
    {
      if committed == lifetime {
        return Interrupted;
      }
      var stop := if rowsDone + chunkRows <= |job.rows| then rowsDone + chunkRows else |job.rows|;
      context := FoldChunk(job, context, rowsDone, stop);
      rowsDone := stop;
      var p := Payload(job.identity, rowsDone, LastTime(job, rowsDone), context, false);
      SavedIsRead(job, p, store.digest);
      store.Save(p);
      committed := committed + 1;
    }
    if committed == lifetime {
      return Interrupted;
    }
    if context.bars == [] || context.bars[|context.bars| - 1].time >= job.activation {
      return Failed(NotBeforeActivation);
    }
    var final := store.Load(job.identity);
    SavedIsRead(job, final.payload.(ready := true), store.digest);
    store.Save(final.payload.(ready := true));
    out := Finished(final.payload.(ready := true));
  }

  // ---------------------------------------------------------------------------------------------
  // Any number of processes
  // ---------------------------------------------------------------------------------------------

  datatype Attempt = Attempt(chunkRows: nat, lifetime: nat)

  /** Any number of processes with any chunk sizes, killed after any number of commits, each resuming where a
      checkpoint exists, and at last one that is not killed. What is left on disk is a function of the job
      alone. */
  method Drive(job: Job, digest: (int, Payload) -> Digest, attempts: seq<Attempt>, last: Attempt)
    returns (out: Outcome, saved: Option<Document>)
    requires last.chunkRows > 0 && last.lifetime > |job.rows|
    requires forall i :: 0 <= i < |attempts| ==> attempts[i].chunkRows > 0
    ensures Accepted(job) ==> out == Finished(Warm(job)) && saved.Some? && saved.value.payload == Warm(job)
    ensures Accepted(job) ==> Read(saved, digest, job.identity) == Loaded(Warm(job))
    ensures !Accepted(job) ==> out == Failed(if WellFormed(job) then NotCovered else BadInput) && saved.None?
  {
    var store := new CheckpointStore(digest);
    for i := 0 to |attempts|
      invariant Trusted(job, store.file, digest)
      invariant store.file.Some? ==>
                  Accepted(job) && Read(store.file, digest, job.identity) == Loaded(store.file.value.payload)
    {
      var ignored := Run(store, job, attempts[i].chunkRows, 0, store.file.Some?, attempts[i].lifetime);
    }
    out := Run(store, job, last.chunkRows, 0, store.file.Some?, last.lifetime);
    saved := store.file;
  }
}

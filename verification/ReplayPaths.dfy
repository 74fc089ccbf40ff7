/** Replay paths: from a start day the merged trade stream is walked forward chronologically, wrapping
    after the last event, and every change of source day opens a new simulated day. */
module ReplayPaths {

  /** The position of the t-th replayed event. */
  function Position(start: int, t: nat, length: nat): (p: nat)
    requires length > 0
    ensures p < length
  {
    (start + t) % length
  }

  predicate DayChange(source: seq<int>, t: nat)
    requires t < |source|
  {
    t == 0 || source[t] != source[t - 1]
  }

  /** The cumulative sum of the day changes among the first `n` events. */
  function Changes(source: seq<int>, n: nat): (c: nat)
    requires n <= |source|
    ensures n > 0 ==> c > 0
  {
    if n == 0 then 0 else Changes(source, n - 1) + if DayChange(source, n - 1) then 1 else 0
  }

  function SimulatedDays(source: seq<int>): seq<int> {
    seq(|source|, t requires 0 <= t < |source| => Changes(source, t + 1) - 1)
  }

  datatype Batch = Batch(paths: seq<seq<real>>, days: seq<seq<int>>)

  function Replay<T>(events: seq<T>, start: int, maxTrades: nat): seq<T>
    requires |events| > 0
  {
    seq(maxTrades, t requires 0 <= t < maxTrades => events[Position(start, t, |events|)])
  }

  function BuildBatch(rs: seq<real>, sourceDays: seq<int>, dayStarts: seq<int>, startDays: seq<nat>,
                      maxTrades: nat): (batch: Batch)
    requires maxTrades >= 1 && |rs| > 0 && |sourceDays| == |rs|
    requires forall b :: 0 <= b < |startDays| ==> startDays[b] < |dayStarts|
    ensures |batch.paths| == |batch.days| == |startDays|
    ensures forall b :: 0 <= b < |startDays| ==> |batch.paths[b]| == |batch.days[b]| == maxTrades
  {
    Batch(
      seq(|startDays|, b requires 0 <= b < |startDays| =>
        Replay(rs, dayStarts[startDays[b]], maxTrades)),
      seq(|startDays|, b requires 0 <= b < |startDays| =>
        SimulatedDays(Replay(sourceDays, dayStarts[startDays[b]], maxTrades))))
  }

  /** Simulated day ids start at 0 and rise by at most one. */
  ghost predicate DayIds(days: seq<int>) {
    && (|days| > 0 ==> days[0] == 0)
    && forall t :: 0 < t < |days| ==> days[t - 1] <= days[t] <= days[t - 1] + 1
  }

  /** Every day occupies one unbroken stretch of the path, and no day uses the "no day yet" mark -1. */
  ghost predicate OneVisitPerDay(days: seq<int>) {
    && (forall t :: 0 <= t < |days| ==> days[t] != -1)
    && forall i, k, t :: 0 <= i < k < t < |days| && days[i] == days[t] ==> days[k] == days[i]
  }

  /** The path replays consecutive events, wrapping at the end of the stream, and its simulated day
      moves on exactly where the source day changes. */
  lemma BatchWalksForward(rs: seq<real>, sourceDays: seq<int>, dayStarts: seq<int>, startDays: seq<nat>,
                          maxTrades: nat, b: nat)
    requires maxTrades >= 1 && |rs| > 0 && |sourceDays| == |rs|
    requires forall k :: 0 <= k < |startDays| ==> startDays[k] < |dayStarts|
    requires b < |startDays|
    ensures var batch := BuildBatch(rs, sourceDays, dayStarts, startDays, maxTrades);
      && DayIds(batch.days[b])
      && exists at: seq<nat> ::
        && Wraps(at, dayStarts[startDays[b]] % |rs|, |rs|) && |at| == maxTrades
        && (forall t :: 0 <= t < maxTrades ==> batch.paths[b][t] == rs[at[t]])
        && (forall t :: 0 < t < maxTrades ==>
             (batch.days[b][t] == batch.days[b][t - 1] <==> sourceDays[at[t]] == sourceDays[at[t - 1]]))
  {
    hide Position;
    var start := dayStarts[startDays[b]];
    var at: seq<nat> := seq(maxTrades, t requires 0 <= t < maxTrades => Position(start, t, |rs|));
    var source := Replay(sourceDays, start, maxTrades);
    PositionsWrap(start, |rs|, maxTrades);
    SimulatedDaysRise(source);
    assert forall t :: 0 <= t < maxTrades ==> source[t] == sourceDays[at[t]];
  }

  /** Consecutive positions of a stream of `length` events, starting over at its end. */
  ghost predicate Wraps(at: seq<nat>, first: int, length: nat) {
    && (forall t :: 0 <= t < |at| ==> at[t] < length)
    && (|at| > 0 ==> at[0] == first)
    && forall t :: 0 < t < |at| ==> at[t] == if at[t - 1] + 1 == length then 0 else at[t - 1] + 1
  }

  lemma PositionsWrap(start: int, length: nat, maxTrades: nat)
    requires length > 0
    ensures Wraps(seq(maxTrades, t requires 0 <= t < maxTrades => Position(start, t, length)),
                  start % length, length)
  {
    var at: seq<nat> := seq(maxTrades, t requires 0 <= t < maxTrades => Position(start, t, length));
    forall t | 0 < t < maxTrades
      ensures at[t] == if at[t - 1] + 1 == length then 0 else at[t - 1] + 1
    {
      NextPosition(start + t - 1, length);
    }
  }

  lemma SimulatedDaysRise(source: seq<int>)
    ensures DayIds(SimulatedDays(source))
    ensures forall t :: 0 < t < |source| ==>
      (SimulatedDays(source)[t] == SimulatedDays(source)[t - 1] <==> source[t] == source[t - 1])
  {
    hide Changes;
    if |source| > 0 {
      ChangesNext(source, 0);
    }
    forall t | 0 < t < |source|
      ensures SimulatedDays(source)[t]
           == SimulatedDays(source)[t - 1] + if source[t] != source[t - 1] then 1 else 0
    {
      ChangesNext(source, t);
    }
  }

  lemma ChangesNext(source: seq<int>, t: nat)
    requires t < |source|
    ensures Changes(source, t + 1) == Changes(source, t) + if DayChange(source, t) then 1 else 0
    ensures t == 0 ==> Changes(source, t) == 0
  {
  }

  lemma NextPosition(x: int, length: nat)
    requires length > 0
    ensures (x + 1) % length == if x % length + 1 == length then 0 else x % length + 1
  {
    var q, r := x / length, x % length;
    assert x == q * length + r;
    if r + 1 == length {
      assert x + 1 == (q + 1) * length;
      Remainder(x + 1, q + 1, 0, length);
    } else {
      Remainder(x + 1, q, r + 1, length);
    }
  }

  lemma Remainder(x: int, q: int, r: nat, length: nat)
    requires r < length && x == q * length + r
    ensures x % length == r
  {
    var q', r' := x / length, x % length;
    Unique(q, r, q', r', length);
  }

  lemma Unique(q: int, r: nat, q': int, r': nat, length: nat)
    requires r < length && r' < length && q * length + r == q' * length + r'
    ensures r == r'
  {
    if q > q' {
      AtLeast(q - q', length);
    } else if q < q' {
      AtLeast(q' - q, length);
    }
  }

  lemma AtLeast(d: int, length: nat)
    requires d >= 1
    ensures d * length >= length
  {
  }

  /** Day ids never fall, so a day that has been left is never entered again. */
  lemma {:induction false} DayIdsNeverReturn(days: seq<int>)
    requires DayIds(days)
    ensures forall i, t :: 0 <= i <= t < |days| ==> 0 <= days[i] <= days[t]
    ensures OneVisitPerDay(days)
  {
    forall i, t | 0 <= i <= t < |days| ensures 0 <= days[i] <= days[t] {
      DayIdsMonotone(days, 0, i);
      DayIdsMonotone(days, i, t);
    }
  }

  lemma {:induction false} DayIdsMonotone(days: seq<int>, i: nat, t: nat)
    requires DayIds(days) && i <= t < |days|
    ensures days[i] <= days[t]
    decreases t
  {
    if i < t {
      DayIdsMonotone(days, i, t - 1);
    }
  }

  /** The number of separate days among the first `n` trades is the last day id plus one. */
  lemma {:induction false} DaysSoFar(days: seq<int>, n: nat)
    requires DayIds(days) && 0 < n <= |days|
    ensures Changes(days, n) == days[n - 1] + 1
  {
    if n > 1 {
      DaysSoFar(days, n - 1);
    } else {
      assert Changes(days, 1) == Changes(days, 0) + 1;
    }
  }
}

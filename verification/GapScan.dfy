/** The pass over all observations that finds the gaps and counts repeated and backward stamps. The data come
    in chunks; which of the results can tell how they were chunked, and what the counts say, is proved here.
 */
module GapScan {
  import opened Options
  import opened SessionCalendar
  import opened GapLabels

  datatype Scan = Scan(first: Option<int>, last: Option<int>, rows: nat, duplicates: nat, backward: nat,
                       gaps: seq<Gap>)

  // ---------------------------------------------------------------------------------------------
  // Stamp by stamp
  // ---------------------------------------------------------------------------------------------

  /** One more observation. */
  function ScanNext(scan: Scan, stamp: int, snapshots: seq<Snapshot>, condition: int -> Condition): Scan {
    var moved := scan.(first := if scan.first.None? then Some(stamp) else scan.first,
                       last := Some(stamp), rows := scan.rows + 1);
    if scan.last.None? then moved
    else
      var delta := stamp - scan.last.value;
      if delta == 0 then moved.(duplicates := scan.duplicates + 1)
      else if delta < 0 then moved.(backward := scan.backward + 1)
      else if delta > 1 then
        moved.(gaps := scan.gaps + [GapBetween(scan.last.value, stamp, snapshots, condition)])
      else moved
  }

  /** What comparing every stamp with the one before it finds. */
  function ScanAll(stamps: seq<int>, snapshots: seq<Snapshot>, condition: int -> Condition): Scan {
    if stamps == [] then Scan(None, None, 0, 0, 0, [])
    else
      var n := |stamps| - 1;
      ScanNext(ScanAll(stamps[..n], snapshots, condition), stamps[n], snapshots, condition)
  }

  lemma ScanOneMore(seen: seq<int>, stamp: int, snapshots: seq<Snapshot>, condition: int -> Condition)
    ensures ScanAll(seen + [stamp], snapshots, condition)
         == ScanNext(ScanAll(seen, snapshots, condition), stamp, snapshots, condition)
  {
    hide ScanNext;
    assert (seen + [stamp])[..|seen|] == seen;
  }

  // ---------------------------------------------------------------------------------------------
  // Chunk by chunk
  // ---------------------------------------------------------------------------------------------

  /** The stamps of a chunk that occur earlier in it. */
  function Repeated(chunk: seq<int>): (count: nat)
    ensures |chunk| <= 1 ==> count == 0
  {
    if chunk == [] then 0
    else
      var n := |chunk| - 1;
      Repeated(chunk[..n]) + if chunk[n] in chunk[..n] then 1 else 0
  }

  /** The stamps of a chunk that do not lie after the one before. */
  function NotRising(chunk: seq<int>): (count: nat)
    ensures |chunk| <= 1 ==> count == 0
  {
    if |chunk| <= 1 then 0
    else
      var n := |chunk| - 1;
      NotRising(chunk[..n]) + if chunk[n] <= chunk[n - 1] then 1 else 0
  }

  /** The chunks of all files, one after the other. */
  function Concat(chunks: seq<seq<int>>): seq<int> {
    if chunks == [] then [] else Concat(chunks[..|chunks| - 1]) + chunks[|chunks| - 1]
  }

  function RepeatedWithin(chunks: seq<seq<int>>): nat {
    if chunks == [] then 0 else RepeatedWithin(chunks[..|chunks| - 1]) + Repeated(chunks[|chunks| - 1])
  }

  function NotRisingWithin(chunks: seq<seq<int>>): nat {
    if chunks == [] then 0 else NotRisingWithin(chunks[..|chunks| - 1]) + NotRising(chunks[|chunks| - 1])
  }

  /** The counts of one pass, with what is found within each chunk added. */
  function WithChunks(pass: Scan, chunks: seq<seq<int>>): Scan {
    pass.(duplicates := pass.duplicates + RepeatedWithin(chunks),
          backward := pass.backward + NotRisingWithin(chunks))
  }

  lemma ConcatOneMore(chunks: seq<seq<int>>, i: nat)
    requires i < |chunks|
    ensures Concat(chunks[..i + 1]) == Concat(chunks[..i]) + chunks[i]
    ensures RepeatedWithin(chunks[..i + 1]) == RepeatedWithin(chunks[..i]) + Repeated(chunks[i])
    ensures NotRisingWithin(chunks[..i + 1]) == NotRisingWithin(chunks[..i]) + NotRising(chunks[i])
  {
    assert chunks[..i + 1][..i] == chunks[..i];
  }

  lemma NothingSeen(chunks: seq<seq<int>>, snapshots: seq<Snapshot>, condition: int -> Condition)
    ensures Concat(chunks[..0]) == [] && RepeatedWithin(chunks[..0]) == NotRisingWithin(chunks[..0]) == 0
    ensures ScanAll([], snapshots, condition) == Scan(None, None, 0, 0, 0, [])
  {
  }

  /** First and last stamp, the number of rows and the gaps are those of one pass over all stamps, however they
      are chunked. The two counts add what is found within each chunk to what the pass finds. */
  method FindGaps(chunks: seq<seq<int>>, snapshots: seq<Snapshot>, condition: int -> Condition) returns (scan: Scan)
    ensures scan == WithChunks(ScanAll(Concat(chunks), snapshots, condition), chunks)
  {
    hide GapBetween, Concat, ScanAll, Repeated, NotRising, RepeatedWithin, NotRisingWithin;
    var previous: Option<int> := None;
    var first: Option<int> := None;
    var rows: nat, duplicates: nat, backward: nat := 0, 0, 0;
    var gaps: seq<Gap> := [];
    ghost var seen: seq<int> := [];
    ghost var pass := Scan(None, None, 0, 0, 0, []);
    NothingSeen(chunks, snapshots, condition);
    for i := 0 to |chunks|
      invariant seen == Concat(chunks[..i]) && pass == ScanAll(seen, snapshots, condition)
      invariant Scan(first, previous, rows, duplicates, backward, gaps)
             == WithChunks(pass, chunks[..i])
    {
      var chunk := chunks[i];
      ConcatOneMore(chunks, i);
      if |chunk| > 1 {
        duplicates := duplicates + Repeated(chunk);
        backward := backward + NotRising(chunk);
      }
      ghost var before := seen;
      for k := 0 to |chunk|
        invariant seen == before + chunk[..k] && pass == ScanAll(seen, snapshots, condition)
        invariant Scan(first, previous, rows, duplicates, backward, gaps)
               == WithChunks(pass, chunks[..i + 1])
      {
        var stamp := chunk[k];
        ScanOneMore(seen, stamp, snapshots, condition);
        seen := seen + [stamp];
        pass := ScanNext(pass, stamp, snapshots, condition);
        if first.None? {
          first := Some(stamp);
        }
        if previous.Some? {
          var delta := stamp - previous.value;
          if delta <= 0 {
            if delta == 0 {
              duplicates := duplicates + 1;
            } else {
              backward := backward + 1;
            }
          } else if delta > 1 {
            var gap := ClassifyGap(previous.value, stamp, snapshots, condition);
            gaps := gaps + [gap.value];
          }
        }
        previous := Some(stamp);
        rows := rows + 1;
      }
      assert chunk[..|chunk|] == chunk;
    }
    assert chunks[..|chunks|] == chunks;
    scan := Scan(first, previous, rows, duplicates, backward, gaps);
  }

  // ---------------------------------------------------------------------------------------------
  // What the counts depend on
  // ---------------------------------------------------------------------------------------------

  ghost predicate Rising(stamps: seq<int>) {
    forall i :: 0 < i < |stamps| ==> stamps[i - 1] < stamps[i]
  }

  ghost predicate NeverBackward(stamps: seq<int>) {
    forall i :: 0 < i < |stamps| ==> stamps[i - 1] <= stamps[i]
  }

  ghost predicate AllDifferent(stamps: seq<int>) {
    forall i, j :: 0 <= i < j < |stamps| ==> stamps[i] != stamps[j]
  }

  /** The same two stamps, read as one chunk or as two: the counts are 2 and 1, or 1 and 0. */
  lemma ChunkingShows(snapshots: seq<Snapshot>, condition: int -> Condition)
    ensures Concat([[1, 1]]) == Concat([[1], [1]])
    ensures var one := WithChunks(ScanAll(Concat([[1, 1]]), snapshots, condition), [[1, 1]]);
            one.duplicates == 2 && one.backward == 1
    ensures var two := WithChunks(ScanAll(Concat([[1], [1]]), snapshots, condition), [[1], [1]]);
            two.duplicates == 1 && two.backward == 0
  {
    hide Concat, RepeatedWithin, NotRisingWithin, ScanAll, Repeated, NotRising, GapBetween;
    EqualPair();
    NothingSeen([[1, 1]], snapshots, condition);
    NothingSeen([[1], [1]], snapshots, condition);
    ConcatOneMore([[1, 1]], 0);
    ConcatOneMore([[1], [1]], 0);
    ConcatOneMore([[1], [1]], 1);
    assert [[1, 1]][..1] == [[1, 1]] && [[1], [1]][..2] == [[1], [1]];
    assert [] + [1] + [1] == [1] + [1] == [1, 1] && [] + [1, 1] == [1, 1] && [] + [1] == [1];
    ScanOneMore([], 1, snapshots, condition);
    ScanOneMore([1], 1, snapshots, condition);
  }

  lemma EqualPair()
    ensures Repeated([1, 1]) == 1 && NotRising([1, 1]) == 1
  {
    assert [1, 1][..1] == [1];
  }

  lemma {:induction false} RepeatedNever(chunk: seq<int>)
    ensures Repeated(chunk) == 0 <==> AllDifferent(chunk)
  {
    if chunk != [] {
      var n := |chunk| - 1;
      RepeatedNever(chunk[..n]);
      if Repeated(chunk) == 0 {
        assert forall i :: 0 <= i < n ==> chunk[..n][i] == chunk[i] && chunk[i] != chunk[n];
      }
    }
  }

  lemma {:induction false} NotRisingNever(chunk: seq<int>)
    ensures NotRising(chunk) == 0 <==> Rising(chunk)
  {
    if |chunk| > 1 {
      var n := |chunk| - 1;
      NotRisingNever(chunk[..n]);
      assert forall i :: 0 <= i < n ==> chunk[..n][i] == chunk[i];
      assert Rising(chunk) <==> Rising(chunk[..n]) && chunk[n - 1] < chunk[n];
    }
  }

  /** A count is that of one pass over all stamps exactly when no chunk repeats a stamp, or exactly when every
      chunk rises. */
  lemma {:induction false} CountsIgnoreChunksExactlyWhen(chunks: seq<seq<int>>)
    ensures RepeatedWithin(chunks) == 0 <==> forall c :: c in chunks ==> AllDifferent(c)
    ensures NotRisingWithin(chunks) == 0 <==> forall c :: c in chunks ==> Rising(c)
  {
    if chunks != [] {
      hide AllDifferent, Rising, Repeated, NotRising;
      var n := |chunks| - 1;
      CountsIgnoreChunksExactlyWhen(chunks[..n]);
      RepeatedNever(chunks[n]);
      NotRisingNever(chunks[n]);
      assert forall c :: c in chunks <==> c in chunks[..n] || c == chunks[n];
    }
  }

  /** What a stamp adds to the one before: nothing, less than nothing, or more than a minute. */
  function Rise(stamps: seq<int>, i: int): int
    requires 0 < i < |stamps|
  {
    stamps[i] - stamps[i - 1]
  }

  ghost function Repeats(stamps: seq<int>): set<int> {
    set i | 0 < i < |stamps| && Rise(stamps, i) == 0
  }

  ghost function Drops(stamps: seq<int>): set<int> {
    set i | 0 < i < |stamps| && Rise(stamps, i) < 0
  }

  ghost function Jumps(stamps: seq<int>): set<int> {
    set i | 0 < i < |stamps| && Rise(stamps, i) > 1
  }

  /** A set of positions that gains position `n` or stays as it is. */
  lemma OneMore(before: set<int>, after: set<int>, n: int, yes: bool)
    requires n !in before
    requires forall i :: i in after <==> i in before || (yes && i == n)
    ensures |after| == |before| + if yes then 1 else 0
  {
    var expected := if yes then before + {n} else before;
    assert forall i :: i in after ==> i in expected;
    assert forall i :: i in expected ==> i in after;
    assert after == expected;
  }

  /** One more stamp, at position `n`. */
  lemma OneMorePosition(stamps: seq<int>, stamp: int)
    ensures var n, all := |stamps|, stamps + [stamp];
            var delta := if n == 0 then 1 else stamp - stamps[n - 1];
            && |Repeats(all)| == |Repeats(stamps)| + (if delta == 0 then 1 else 0)
            && |Drops(all)| == |Drops(stamps)| + (if delta < 0 then 1 else 0)
            && |Jumps(all)| == |Jumps(stamps)| + (if delta > 1 then 1 else 0)
            && Jumps(stamps) <= Jumps(all) && (delta > 1 ==> n in Jumps(all))
  {
    var n, all := |stamps|, stamps + [stamp];
    var delta := if n == 0 then 1 else stamp - stamps[n - 1];
    assert forall i :: 0 < i < n ==> Rise(all, i) == Rise(stamps, i);
    assert n > 0 ==> Rise(all, n) == delta;
    OneMore(Repeats(stamps), Repeats(all), n, delta == 0);
    OneMore(Drops(stamps), Drops(all), n, delta < 0);
    OneMore(Jumps(stamps), Jumps(all), n, delta > 1);
    hide Rise;
  }

  /** The pass counts exactly the stamps equal to and those before the one they follow, and finds one gap for each
      that lies more than a minute after it, between these two. */
  lemma {:induction false} PassCountsExactly(stamps: seq<int>, snapshots: seq<Snapshot>, condition: int -> Condition)
    ensures var pass := ScanAll(stamps, snapshots, condition);
            && pass.duplicates == |Repeats(stamps)| && pass.backward == |Drops(stamps)|
            && |pass.gaps| == |Jumps(stamps)|
            && forall k :: 0 <= k < |pass.gaps| ==>
                 exists i :: i in Jumps(stamps) && Separates(pass.gaps[k], stamps, i)
  {
    if stamps != [] {
      var n := |stamps| - 1;
      var front, stamp := stamps[..n], stamps[n];
      assert stamps == front + [stamp];
      PassCountsExactly(front, snapshots, condition);
      PassCounts(front, snapshots, condition);
      ScanOneMore(front, stamp, snapshots, condition);
      OneMorePosition(front, stamp);
      hide ScanAll, Repeats, Drops;
      var before, pass := ScanAll(front, snapshots, condition), ScanAll(stamps, snapshots, condition);
      forall k | 0 <= k < |pass.gaps|
        ensures exists i :: i in Jumps(stamps) && Separates(pass.gaps[k], stamps, i)
      {
        if k < |before.gaps| {
          var i :| i in Jumps(front) && Separates(before.gaps[k], front, i);
          assert i in Jumps(stamps) && Separates(pass.gaps[k], stamps, i);
        } else {
          assert n in Jumps(stamps) && Separates(pass.gaps[k], stamps, n);
        }
      }
    } else {
      assert Repeats(stamps) == Drops(stamps) == Jumps(stamps) == {};
    }
  }

  /** The gap lies between stamp `i` and the one before. */
  ghost predicate Separates(g: Gap, stamps: seq<int>, i: int) {
    && 0 < i < |stamps| && g.previous == stamps[i - 1] && g.next == stamps[i]
    && g.missing == stamps[i] - stamps[i - 1] - 1
  }

  /** The stamp is one of those before it. */
  predicate Again(chunk: seq<int>, i: int) {
    0 <= i < |chunk| && chunk[i] in chunk[..i]
  }

  /** The repeated stamps counted within a chunk: those that occur earlier in it. */
  lemma {:induction false} RepeatedExactly(chunk: seq<int>)
    ensures Repeated(chunk) == |set i | 0 <= i < |chunk| && Again(chunk, i)|
  {
    var again := set i | 0 <= i < |chunk| && Again(chunk, i);
    if chunk == [] {
      assert again == {};
    } else {
      var n := |chunk| - 1;
      var front := chunk[..n];
      RepeatedExactly(front);
      forall i | 0 <= i < n ensures Again(chunk, i) == Again(front, i) {
        assert chunk[..i] == front[..i];
      }
      assert Again(chunk, n) == (chunk[n] in front);
      hide Again, Repeated;
      OneMore((set i | 0 <= i < n && Again(front, i)), again, n, chunk[n] in front);
    }
  }

  /** And those counted as not rising: equal to the one before, or less. */
  lemma {:induction false} NotRisingExactly(chunk: seq<int>)
    ensures NotRising(chunk) == |Repeats(chunk)| + |Drops(chunk)|
  {
    if chunk == [] {
      assert Repeats(chunk) == Drops(chunk) == {};
    } else {
      var n := |chunk| - 1;
      NotRisingExactly(chunk[..n]);
      assert chunk == chunk[..n] + [chunk[n]];
      OneMorePosition(chunk[..n], chunk[n]);
      hide Repeats, Drops, Jumps;
    }
  }

  /** What one pass counts as backward and as repeated. */
  lemma {:induction false} PassCounts(stamps: seq<int>, snapshots: seq<Snapshot>, condition: int -> Condition)
    ensures var pass := ScanAll(stamps, snapshots, condition);
            && pass.rows == |stamps|
            && (pass.last.Some? <==> stamps != [])
            && (stamps != [] ==> pass.first == Some(stamps[0]) && pass.last == Some(stamps[|stamps| - 1]))
            && (pass.backward == 0 <==> NeverBackward(stamps))
            && (pass.backward == 0 && pass.duplicates == 0 <==> Rising(stamps))
  {
    hide GapBetween;
    if stamps != [] {
      var n := |stamps| - 1;
      PassCounts(stamps[..n], snapshots, condition);
      assert forall i :: 0 <= i < n ==> stamps[..n][i] == stamps[i];
      if n > 0 {
        assert NeverBackward(stamps) <==> NeverBackward(stamps[..n]) && stamps[n - 1] <= stamps[n];
        assert Rising(stamps) <==> Rising(stamps[..n]) && stamps[n - 1] < stamps[n];
      } else {
        assert stamps[..0] == [];
      }
    }
  }

  lemma {:induction false} ChunksAreParts(chunks: seq<seq<int>>, c: seq<int>)
    requires c in chunks
    ensures NeverBackward(Concat(chunks)) ==> NeverBackward(c)
    ensures Rising(Concat(chunks)) ==> Rising(c)
  {
    var n := |chunks| - 1;
    var front, back := Concat(chunks[..n]), chunks[n];
    assert forall i :: 0 <= i < |front| ==> Concat(chunks)[i] == front[i];
    assert forall i :: 0 <= i < |back| ==> Concat(chunks)[|front| + i] == back[i];
    if c == chunks[n] {
      if NeverBackward(Concat(chunks)) {
        forall i | 0 < i < |c| ensures c[i - 1] <= c[i] {
          assert Concat(chunks)[|front| + (i - 1)] <= Concat(chunks)[|front| + i];
        }
      }
      if Rising(Concat(chunks)) {
        forall i | 0 < i < |c| ensures c[i - 1] < c[i] {
          assert Concat(chunks)[|front| + (i - 1)] < Concat(chunks)[|front| + i];
        }
      }
    } else {
      ChunksAreParts(chunks[..n], c);
    }
  }

  /** Both counts are zero exactly when all stamps together rise, however they are chunked. */
  lemma CountsVanishExactlyWhen(chunks: seq<seq<int>>, snapshots: seq<Snapshot>, condition: int -> Condition)
    ensures var scan := WithChunks(ScanAll(Concat(chunks), snapshots, condition), chunks);
            scan.duplicates == 0 && scan.backward == 0 <==> Rising(Concat(chunks))
  {
    hide Concat, RepeatedWithin, NotRisingWithin, ScanAll, NeverBackward;
    PassCounts(Concat(chunks), snapshots, condition);
    if Rising(Concat(chunks)) {
      forall c | c in chunks ensures AllDifferent(c) && Rising(c) {
        ChunksAreParts(chunks, c);
        RisingDiffers(c);
      }
      hide Rising, AllDifferent;
      CountsIgnoreChunksExactlyWhen(chunks);
    }
  }

  lemma RisingDiffers(stamps: seq<int>)
    requires Rising(stamps)
    ensures AllDifferent(stamps)
  {
    forall i, j | 0 <= i < j < |stamps| ensures stamps[i] < stamps[j] {
      RisesBetween(stamps, i, j);
    }
  }

  lemma {:induction false} RisesBetween(stamps: seq<int>, i: nat, j: nat)
    requires i < j < |stamps|
    ensures Rising(stamps) ==> stamps[i] < stamps[j]
    ensures NeverBackward(stamps) ==> stamps[i] <= stamps[j]
    decreases j
  {
    if i < j - 1 {
      RisesBetween(stamps, i, j - 1);
    }
  }

  // ---------------------------------------------------------------------------------------------
  // What the counts say of a stream that never steps back
  // ---------------------------------------------------------------------------------------------

  /** A stamp has been seen before exactly when it is the last one. */
  lemma SeenIsLast(stamps: seq<int>, stamp: int)
    requires stamps != [] && NeverBackward(stamps + [stamp])
    ensures stamp in stamps <==> stamp <= stamps[|stamps| - 1]
  {
    var n := |stamps|;
    var all := stamps + [stamp];
    assert all[n - 1] == stamps[n - 1] && all[n] == stamp;
    if stamp in stamps {
      var j :| 0 <= j < n && stamps[j] == stamp;
      if j < n - 1 {
        RisesBetween(all, j, n - 1);
      }
    }
  }

  lemma {:induction false} RepeatedIsNotRising(chunk: seq<int>)
    requires NeverBackward(chunk)
    ensures Repeated(chunk) == NotRising(chunk)
  {
    if |chunk| > 1 {
      var n := |chunk| - 1;
      assert forall i :: 0 <= i < n ==> chunk[..n][i] == chunk[i];
      RepeatedIsNotRising(chunk[..n]);
      assert chunk == chunk[..n] + [chunk[n]];
      SeenIsLast(chunk[..n], chunk[n]);
    }
  }

  lemma {:induction false} WithinAgree(chunks: seq<seq<int>>)
    requires forall c :: c in chunks ==> NeverBackward(c)
    ensures RepeatedWithin(chunks) == NotRisingWithin(chunks)
  {
    if chunks != [] {
      WithinAgree(chunks[..|chunks| - 1]);
      RepeatedIsNotRising(chunks[|chunks| - 1]);
    }
  }

  lemma FrontNeverBackward(stamps: seq<int>)
    requires stamps != [] && NeverBackward(stamps)
    ensures NeverBackward(stamps[..|stamps| - 1])
  {
    assert forall i :: 0 <= i < |stamps| - 1 ==> stamps[..|stamps| - 1][i] == stamps[i];
  }

  ghost function Distinct(stamps: seq<int>): set<int> {
    set x | x in stamps
  }

  lemma DistinctOneMore(stamps: seq<int>, stamp: int)
    ensures |Distinct(stamps + [stamp])| == |Distinct(stamps)| + if stamp in stamps then 0 else 1
  {
    assert Distinct(stamps + [stamp]) == Distinct(stamps) + {stamp};
  }

  /** One pass counts all repeats of a stream that never steps back. */
  lemma {:induction false} PassCountsRepeats(stamps: seq<int>, snapshots: seq<Snapshot>, condition: int -> Condition)
    requires NeverBackward(stamps)
    ensures var pass := ScanAll(stamps, snapshots, condition);
            pass.rows - pass.duplicates == |Distinct(stamps)|
  {
    hide ScanAll, GapBetween, Rising, Distinct;
    if stamps == [] {
      NothingSeen([], snapshots, condition);
      NothingDistinct();
    } else {
      var n := |stamps| - 1;
      var front, stamp := stamps[..n], stamps[n];
      FrontNeverBackward(stamps);
      PassCountsRepeats(front, snapshots, condition);
      PassCounts(front, snapshots, condition);
      assert stamps == front + [stamp];
      hide NeverBackward;
      ScanOneMore(front, stamp, snapshots, condition);
      DistinctOneMore(front, stamp);
      if n > 0 {
        SeenIsLast(front, stamp);
      }
    }
  }

  lemma NothingDistinct()
    ensures |Distinct([])| == 0
  {
    assert Distinct([]) == {};
  }

  /** However a stream that never steps back is chunked, its two counts differ by the number of repeated stamps,
      so that rows and counts tell the number of different stamps. */
  lemma CountsTellDistinct(chunks: seq<seq<int>>, snapshots: seq<Snapshot>, condition: int -> Condition)
    requires NeverBackward(Concat(chunks))
    ensures var scan := WithChunks(ScanAll(Concat(chunks), snapshots, condition), chunks);
            scan.rows - (scan.duplicates - scan.backward) == |Distinct(Concat(chunks))|
  {
    hide Concat, RepeatedWithin, NotRisingWithin, ScanAll, Distinct;
    PassCounts(Concat(chunks), snapshots, condition);
    PassCountsRepeats(Concat(chunks), snapshots, condition);
    forall c | c in chunks ensures NeverBackward(c) {
      ChunksAreParts(chunks, c);
    }
    hide NeverBackward;
    WithinAgree(chunks);
  }

  // ---------------------------------------------------------------------------------------------
  // Rows and missing minutes fill the span
  // ---------------------------------------------------------------------------------------------

  function Missing(gaps: seq<Gap>): nat {
    if gaps == [] then 0 else Missing(gaps[..|gaps| - 1]) + gaps[|gaps| - 1].missing
  }

  lemma MissingNext(gaps: seq<Gap>, previous: int, current: int, snapshots: seq<Snapshot>, condition: int -> Condition)
    requires previous < current
    ensures Missing(gaps + [GapBetween(previous, current, snapshots, condition)])
         == Missing(gaps) + current - previous - 1
  {
    var g := GapBetween(previous, current, snapshots, condition);
    assert (gaps + [g])[..|gaps|] == gaps;
  }

  function Span(stamps: seq<int>): int
    requires stamps != []
  {
    stamps[|stamps| - 1] - stamps[0] + 1
  }

  /** Rows without the pass's repeats, and missing minutes, exceed the span by what is gone over again. */
  lemma {:induction false} Excess(stamps: seq<int>, snapshots: seq<Snapshot>, condition: int -> Condition)
    requires stamps != []
    ensures var pass := ScanAll(stamps, snapshots, condition);
            && pass.rows - pass.duplicates + Missing(pass.gaps) >= Span(stamps)
            && (pass.rows - pass.duplicates + Missing(pass.gaps) == Span(stamps) <==> pass.backward == 0)
  {
    hide GapBetween, ScanAll, Missing, NeverBackward, Rising;
    var n := |stamps| - 1;
    var front, stamp := stamps[..n], stamps[n];
    assert stamps == front + [stamp];
    ScanOneMore(front, stamp, snapshots, condition);
    PassCounts(front, snapshots, condition);
    var before := ScanAll(front, snapshots, condition);
    if n == 0 {
      NothingYet(snapshots, condition);
    } else {
      Excess(front, snapshots, condition);
      if stamp > front[n - 1] + 1 {
        MissingNext(before.gaps, front[n - 1], stamp, snapshots, condition);
      }
    }
  }

  lemma NothingYet(snapshots: seq<Snapshot>, condition: int -> Condition)
    ensures ScanAll([], snapshots, condition) == Scan(None, None, 0, 0, 0, []) && Missing([]) == 0
  {
  }

  /** The rows and the missing minutes make up the span exactly when the stamps rise; the different stamps and
      the missing minutes do whenever they never step back. */
  lemma RowsAndGapsFillSpan(stamps: seq<int>, snapshots: seq<Snapshot>, condition: int -> Condition)
    requires stamps != []
    ensures var pass := ScanAll(stamps, snapshots, condition);
            && (pass.rows + Missing(pass.gaps) == Span(stamps) <==> Rising(stamps))
            && (pass.rows - pass.duplicates + Missing(pass.gaps) == Span(stamps) <==> NeverBackward(stamps))
            && (NeverBackward(stamps) ==> |Distinct(stamps)| + Missing(pass.gaps) == Span(stamps))
  {
    hide ScanAll, Missing, Rising, NeverBackward, Distinct;
    Excess(stamps, snapshots, condition);
    PassCounts(stamps, snapshots, condition);
    if NeverBackward(stamps) {
      PassCountsRepeats(stamps, snapshots, condition);
    }
  }
}

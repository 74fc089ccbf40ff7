/** The causal expanding volatility percentile: for each observed value, the share of the earlier
    observations that do not exceed it. The program keeps the counts of earlier observations in a Fenwick
    tree over the sorted distinct values; the definition simply looks back over the series.
 */
module FenwickPercentile {
  import opened Options

  // ---------------------------------------------------------------------------------------------
  // The definition
  // ---------------------------------------------------------------------------------------------

  /** The number of observations among the first `i` values. */
  function Observed(values: seq<Option<real>>, i: nat): (n: nat)
    requires i <= |values|
    ensures n <= i
  {
    if i == 0 then 0 else Observed(values, i - 1) + if values[i - 1].Some? then 1 else 0
  }

  /** The number of observations among the first `i` values that are at most `x`. */
  function AtMost(values: seq<Option<real>>, i: nat, x: real): (n: nat)
    requires i <= |values|
    ensures n <= Observed(values, i)
  {
    if i == 0 then 0
    else AtMost(values, i - 1, x) + if values[i - 1].Some? && values[i - 1].value <= x then 1 else 0
  }

  function ExpandingPercentile(values: seq<Option<real>>, i: nat): Option<real>
    requires i < |values|
  {
    if values[i].None? || Observed(values, i) == 0 then None
    else Some(AtMost(values, i, values[i].value) as real / Observed(values, i) as real)
  }

  /** The observed positions before `i`. */
  ghost function EarlierPositions(values: seq<Option<real>>, i: nat): set<nat>
    requires i <= |values|
  {
    set j: nat | j < i && values[j].Some?
  }

  /** Those of them whose value is at most `x`. */
  ghost function EarlierPositionsUpTo(values: seq<Option<real>>, i: nat, x: real): set<nat>
    requires i <= |values|
  {
    set j: nat | j < i && values[j].Some? && values[j].value <= x
  }

  lemma {:induction false} ObservedArePositions(values: seq<Option<real>>, i: nat)
    requires i <= |values|
    ensures Observed(values, i) == |EarlierPositions(values, i)|
  {
    if i == 0 {
      assert EarlierPositions(values, 0) == {};
    } else {
      ObservedArePositions(values, i - 1);
      assert EarlierPositions(values, i)
          == EarlierPositions(values, i - 1) + if values[i - 1].Some? then {i - 1} else {};
    }
  }

  lemma {:induction false} AtMostArePositions(values: seq<Option<real>>, i: nat, x: real)
    requires i <= |values|
    ensures AtMost(values, i, x) == |EarlierPositionsUpTo(values, i, x)|
  {
    if i == 0 {
      assert EarlierPositionsUpTo(values, 0, x) == {};
    } else {
      AtMostArePositions(values, i - 1, x);
      var v := values[i - 1];
      assert EarlierPositionsUpTo(values, i, x)
          == EarlierPositionsUpTo(values, i - 1, x) + if v.Some? && v.value <= x then {i - 1} else {};
    }
  }

  lemma NoPositions(values: seq<Option<real>>, i: nat)
    requires i <= |values|
    ensures EarlierPositions(values, i) == {} <==> forall j :: 0 <= j < i ==> values[j].None?
  {
    if j :| 0 <= j < i && values[j].Some? {
      assert j in EarlierPositions(values, i);
    }
  }

  /** The definition, told with the positions counted. */
  lemma PercentileIsShare(values: seq<Option<real>>, i: nat)
    requires i < |values|
    ensures ExpandingPercentile(values, i).None?
            <==> values[i].None? || forall j :: 0 <= j < i ==> values[j].None?
    ensures ExpandingPercentile(values, i).Some? ==>
              ExpandingPercentile(values, i).value * |EarlierPositions(values, i)| as real
                == |EarlierPositionsUpTo(values, i, values[i].value)| as real
  {
    hide Observed, AtMost, EarlierPositions, EarlierPositionsUpTo;
    ObservedArePositions(values, i);
    NoPositions(values, i);
    if values[i].Some? {
      AtMostArePositions(values, i, values[i].value);
    }
  }

  /** The entry is missing exactly where there is no value or nothing earlier; otherwise it is the share of the
      earlier observations that do not exceed the value. */
  ghost predicate ShareOfEarlier(entry: Option<real>, values: seq<Option<real>>, i: nat)
    requires i < |values|
  {
    && (entry.None? <==> values[i].None? || forall j :: 0 <= j < i ==> values[j].None?)
    && (entry.Some? ==>
          entry.value * |EarlierPositions(values, i)| as real
            == |EarlierPositionsUpTo(values, i, values[i].value)| as real)
  }

  lemma ColumnIsShares(column: seq<Option<real>>, values: seq<Option<real>>)
    requires |column| == |values|
    requires forall i :: 0 <= i < |values| ==> column[i] == ExpandingPercentile(values, i)
    ensures forall i: nat :: i < |values| ==> ShareOfEarlier(column[i], values, i)
  {
    forall i: nat | i < |values| ensures ShareOfEarlier(column[i], values, i) {
      PercentileIsShare(values, i);
      hide ExpandingPercentile, EarlierPositions, EarlierPositionsUpTo;
    }
  }

  /** Causality: an entry depends on nothing after its own row. */
  lemma {:induction false} CountsAreCausal(values: seq<Option<real>>, future: seq<Option<real>>, i: nat, x: real)
    requires i <= |values| && i <= |future| && values[..i] == future[..i]
    ensures Observed(values, i) == Observed(future, i) && AtMost(values, i, x) == AtMost(future, i, x)
  {
    if i > 0 {
      assert values[..i - 1] == values[..i][..i - 1] && future[..i - 1] == future[..i][..i - 1];
      assert values[i - 1] == values[..i][i - 1] && future[i - 1] == future[..i][i - 1];
      CountsAreCausal(values, future, i - 1, x);
    }
  }

  lemma PercentileIsCausal(values: seq<Option<real>>, future: seq<Option<real>>, i: nat)
    requires i < |values| && i < |future| && values[..i + 1] == future[..i + 1]
    ensures ExpandingPercentile(values, i) == ExpandingPercentile(future, i)
  {
    assert values[..i] == values[..i + 1][..i] && future[..i] == future[..i + 1][..i];
    assert values[i] == values[..i + 1][i] && future[i] == future[..i + 1][i];
    if values[i].Some? {
      CountsAreCausal(values, future, i, values[i].value);
    } else {
      CountsAreCausal(values, future, i, 0.0);
    }
  }

  // ---------------------------------------------------------------------------------------------
  // Coordinate compression: the sorted distinct observations
  // ---------------------------------------------------------------------------------------------

  ghost predicate Ascending(s: seq<real>) {
    forall i, j :: 0 <= i < j < |s| ==> s[i] < s[j]
  }

  /** The position of the first entry that is not below `x`. */
  function SearchLeft(s: seq<real>, x: real): (p: nat)
    requires Ascending(s)
    ensures p <= |s|
    ensures forall k :: 0 <= k < p ==> s[k] < x
    ensures forall k :: p <= k < |s| ==> s[k] >= x
  {
    if s == [] || s[0] >= x then 0 else 1 + SearchLeft(s[1..], x)
  }

  function Insert(s: seq<real>, x: real): (r: seq<real>)
    requires Ascending(s)
    ensures Ascending(r)
    ensures forall y :: y in r <==> y in s || y == x
  {
    var p := SearchLeft(s, x);
    if p < |s| && s[p] == x then s
    else
      var r := s[..p] + [x] + s[p..];
      assert forall y :: y in s <==> y in s[..p] || y in s[p..] by { assert s == s[..p] + s[p..]; }
      r
  }

  function SortedDistinct(values: seq<Option<real>>): (r: seq<real>)
    ensures Ascending(r)
    ensures forall i :: 0 <= i < |values| && values[i].Some? ==> values[i].value in r
    ensures forall y :: y in r ==> exists i :: 0 <= i < |values| && values[i] == Some(y)
  {
    if values == [] then []
    else
      var n := |values| - 1;
      var front := SortedDistinct(values[..n]);
      assert forall i :: 0 <= i < n ==> values[..n][i] == values[i];
      if values[n].Some? then Insert(front, values[n].value) else front
  }

  // ---------------------------------------------------------------------------------------------
  // `i & -i` is the largest power of two dividing i
  // ---------------------------------------------------------------------------------------------

  function LowBit(i: nat): (b: nat)
    requires i > 0
    ensures 0 < b <= i
  {
    if i % 2 == 1 then 1 else 2 * LowBit(i / 2)
  }

  /** Python's `n & m` for a non-negative `n`: bit by bit, negative numbers in two's complement. */
  function BitAnd(n: nat, m: int): nat {
    if n == 0 then 0 else (if n % 2 == 1 && m % 2 == 1 then 1 else 0) + 2 * BitAnd(n / 2, m / 2)
  }

  lemma {:induction false} BitAndComplement(n: int)
    requires n >= 0
    ensures BitAnd(n, -n - 1) == 0
  {
    if n > 0 {
      BitAndComplement(n / 2);
      assert (-n - 1) / 2 == -(n / 2) - 1;
    }
  }

  /** The bit trick of both tree loops computes the low bit. */
  lemma {:induction false} BitTrick(i: int)
    requires i > 0
    ensures BitAnd(i, -i) == LowBit(i)
  {
    if i % 2 == 1 {
      BitAndComplement(i / 2);
      assert -i / 2 == -(i / 2) - 1;
    } else {
      BitTrick(i / 2);
      assert -i / 2 == -(i / 2);
    }
  }

  function Pow2(k: nat): (p: nat)
    ensures p > 0
  {
    if k == 0 then 1 else 2 * Pow2(k - 1)
  }

  /** LowBit(i) is a power of two that divides i, and its double does not. */
  lemma {:induction false} LowBitDivides(i: nat) returns (k: nat, odd: nat)
    requires i > 0
    ensures LowBit(i) == Pow2(k) && i == LowBit(i) * (2 * odd + 1)
  {
    if i % 2 == 1 {
      k, odd := 0, i / 2;
    } else {
      k, odd := LowBitDivides(i / 2);
      k := k + 1;
      assert i == 2 * (LowBit(i / 2) * (2 * odd + 1));
    }
  }

  /** Between i and i + LowBit(i) every index has a smaller low bit than its distance from i allows. */
  lemma {:induction false} LowBitBetween(i: nat, d: nat)
    requires 0 < d && i > 0 && d < LowBit(i)
    ensures LowBit(i + d) <= d
  {
    if d % 2 == 0 {
      LowBitBetween(i / 2, d / 2);
      assert (i + d) / 2 == i / 2 + d / 2;
    }
  }

  lemma {:induction false} LowBitGrows(i: nat)
    requires i > 0
    ensures LowBit(i + LowBit(i)) >= 2 * LowBit(i)
  {
    if i % 2 == 0 {
      LowBitGrows(i / 2);
      assert (i + LowBit(i)) / 2 == i / 2 + LowBit(i / 2);
    }
  }

  // ---------------------------------------------------------------------------------------------
  // The Fenwick tree
  // ---------------------------------------------------------------------------------------------

  /** Node i of the tree covers the positions after i - LowBit(i), up to i. */
  predicate Covers(i: nat, p: int)
    requires i > 0
  {
    i - LowBit(i) < p <= i
  }

  /** freq[lo] + ... + freq[hi - 1]. */
  function Sum(freq: seq<nat>, lo: nat, hi: nat): (total: nat)
    requires lo <= hi <= |freq|
    decreases hi
  {
    if lo == hi then 0 else Sum(freq, lo, hi - 1) + freq[hi - 1]
  }

  lemma {:induction false} SumSplit(freq: seq<nat>, lo: nat, mid: nat, hi: nat)
    requires lo <= mid <= hi <= |freq|
    ensures Sum(freq, lo, hi) == Sum(freq, lo, mid) + Sum(freq, mid, hi)
    decreases hi
  {
    if mid < hi {
      SumSplit(freq, lo, mid, hi - 1);
    }
  }

  lemma {:induction false} SumUpdate(freq: seq<nat>, lo: nat, hi: nat, p: nat)
    requires lo <= hi <= |freq| && p < |freq|
    ensures Sum(freq[p := freq[p] + 1], lo, hi) == Sum(freq, lo, hi) + if lo <= p < hi then 1 else 0
    decreases hi
  {
    if lo < hi {
      SumUpdate(freq, lo, hi - 1, p);
    }
  }

  /** Every node holds the total frequency of the positions it covers. */
  ghost predicate Represents(tree: seq<nat>, freq: seq<nat>) {
    && |tree| == |freq| + 1
    && forall i :: 0 < i < |tree| ==> tree[i] == Sum(freq, i - LowBit(i), i)
  }

  method Add(tree: array<nat>, nUnique: nat, index: nat, ghost freq: seq<nat>)
    requires tree.Length == nUnique + 1 && index < nUnique == |freq|
    requires Represents(tree[..], freq)
    modifies tree
    ensures Represents(tree[..], freq[index := freq[index] + 1])
  {
    hide LowBit, Sum, BitAnd;
    var i: int := index + 1;
    ghost var p := index + 1;
    while i <= nUnique
      invariant i > 0 && Covers(i, p)
      invariant forall k :: 0 < k < tree.Length ==>
        tree[k] == old(tree[k]) + if Covers(k, p) && k < i then 1 else 0
      decreases nUnique + 1 - i
    {
      tree[i] := tree[i] + 1;
      NextCover(i, p);
      BitTrick(i);
      i := i + BitAnd(i, -i);
    }
    forall k | 0 < k < tree.Length
      ensures tree[k] == Sum(freq[index := freq[index] + 1], k - LowBit(k), k)
    {
      assert old(tree[..])[k] == old(tree[k]);
      SumUpdate(freq, k - LowBit(k), k, index);
    }
  }

  /** From a node covering p, the next node covering p is one low bit further on. */
  lemma NextCover(i: nat, p: nat)
    requires i > 0 && Covers(i, p)
    ensures Covers(i + LowBit(i), p)
    ensures forall k :: i < k < i + LowBit(i) ==> !Covers(k, p)
  {
    LowBitGrows(i);
    forall k | i < k < i + LowBit(i) ensures !Covers(k, p) {
      LowBitBetween(i, k - i);
    }
  }

  lemma NothingBelow(freq: seq<nat>)
    ensures Sum(freq, 0, 0) == 0
  {
  }

  method PrefixCount(tree: array<nat>, index: nat, ghost freq: seq<nat>) returns (total: nat)
    requires index + 1 < tree.Length && Represents(tree[..], freq)
    ensures total == Sum(freq, 0, index + 1)
  {
    hide LowBit, Sum, BitAnd;
    NothingBelow(freq);
    var i: int := index + 1;
    total := 0;
    while i > 0
      invariant 0 <= i <= index + 1
      invariant total + Sum(freq, 0, i) == Sum(freq, 0, index + 1)
      decreases i
    {
      assert tree[..][i] == Sum(freq, i - LowBit(i), i);
      SumSplit(freq, 0, i - LowBit(i), i);
      total := total + tree[i];
      BitTrick(i);
      i := i - BitAnd(i, -i);
    }
  }

  // ---------------------------------------------------------------------------------------------
  // The column
  // ---------------------------------------------------------------------------------------------

  /** freq[k] is the number of observations among the first `i` values equal to unique[k]. */
  ghost predicate Tallies(freq: seq<nat>, unique: seq<real>, values: seq<Option<real>>, i: nat)
    requires i <= |values|
  {
    && |freq| == |unique|
    && forall c :: 0 <= c <= |unique| ==> Sum(freq, 0, c) == Below(values, i, unique, c)
  }

  /** The number of observations among the first `i` values whose compressed index is below `c`. */
  ghost function Below(values: seq<Option<real>>, i: nat, unique: seq<real>, c: nat): nat
    requires i <= |values| && c <= |unique|
  {
    if i == 0 then 0
    else Below(values, i - 1, unique, c)
         + if values[i - 1].Some? && values[i - 1].value in unique[..c] then 1 else 0
  }

  lemma {:induction false} BelowIsAtMost(values: seq<Option<real>>, i: nat, unique: seq<real>, c: nat)
    requires i <= |values| && c < |unique| && Ascending(unique)
    requires forall k :: 0 <= k < i && values[k].Some? ==> values[k].value in unique
    ensures Below(values, i, unique, c + 1) == AtMost(values, i, unique[c])
  {
    if i > 0 {
      BelowIsAtMost(values, i - 1, unique, c);
      if values[i - 1].Some? {
        var k :| 0 <= k < |unique| && unique[k] == values[i - 1].value;
        if k <= c {
          assert unique[..c + 1][k] == values[i - 1].value;
        }
      }
    }
  }

  lemma TallyNext(freq: seq<nat>, unique: seq<real>, values: seq<Option<real>>, i: nat, p: nat)
    requires i < |values| && Ascending(unique) && Tallies(freq, unique, values, i)
    requires p < |unique| && values[i] == Some(unique[p])
    ensures Tallies(freq[p := freq[p] + 1], unique, values, i + 1)
  {
    var next := freq[p := freq[p] + 1];
    forall c: nat | c <= |unique| ensures Sum(next, 0, c) == Below(values, i + 1, unique, c) {
      SumUpdate(freq, 0, c, p);
      assert unique[p] in unique[..c] <==> p < c by {
        if p < c {
          assert unique[..c][p] == unique[p];
        }
      }
    }
  }

  ghost predicate Compresses(unique: seq<real>, values: seq<Option<real>>) {
    && Ascending(unique)
    && forall i :: 0 <= i < |values| && values[i].Some? ==> values[i].value in unique
  }

  /** One observed value: its percentile among the earlier ones, and its entry into the tree. */
  method Observe(tree: array<nat>, unique: seq<real>, values: seq<Option<real>>, i: nat, priorCount: nat,
                 ghost freq: seq<nat>)
    returns (entry: Option<real>, ghost after: seq<nat>)
    requires i < |values| && values[i].Some? && priorCount == Observed(values, i)
    requires Compresses(unique, values) && tree.Length == |unique| + 1
    requires Tallies(freq, unique, values, i) && Represents(tree[..], freq)
    modifies tree
    ensures Tallies(after, unique, values, i + 1) && Represents(tree[..], after)
    ensures entry == ExpandingPercentile(values, i) && Observed(values, i + 1) == priorCount + 1
  {
    hide Sum, AtMost, Below, LowBit, Represents;
    var compressed := SearchLeft(unique, values[i].value);
    var k :| 0 <= k < |unique| && unique[k] == values[i].value;
    assert unique[compressed] == values[i].value;
    entry := None;
    if priorCount != 0 {
      var count := PrefixCount(tree, compressed, freq);
      BelowIsAtMost(values, i, unique, compressed);
      entry := Some(count as real / priorCount as real);
    }
    Add(tree, |unique|, compressed, freq);
    TallyNext(freq, unique, values, i, compressed);
    after := freq[compressed := freq[compressed] + 1];
  }

  lemma TallySkip(freq: seq<nat>, unique: seq<real>, values: seq<Option<real>>, i: nat)
    requires i < |values| && values[i].None? && Tallies(freq, unique, values, i)
    ensures Tallies(freq, unique, values, i + 1)
    ensures ExpandingPercentile(values, i) == None && Observed(values, i + 1) == Observed(values, i)
  {
    hide Sum;
  }

  /** The first `i` entries are done, the others still missing. */
  ghost predicate Filled(column: seq<Option<real>>, values: seq<Option<real>>, i: nat) {
    && |column| == |values|
    && (forall k :: 0 <= k < i && k < |values| ==> column[k] == ExpandingPercentile(values, k))
    && forall k :: i <= k < |values| ==> column[k] == None
  }

  lemma FilledNone(column: seq<Option<real>>, values: seq<Option<real>>)
    requires |column| == |values| && forall k :: 0 <= k < |values| ==> column[k] == None
    ensures Filled(column, values, 0)
  {
  }

  lemma FillNext(column: seq<Option<real>>, values: seq<Option<real>>, i: nat, entry: Option<real>)
    requires Filled(column, values, i) && i < |values| && entry == ExpandingPercentile(values, i)
    ensures |column| == |values| && Filled(column[i := entry], values, i + 1)
  {
    hide ExpandingPercentile;
  }

  lemma FillSkip(column: seq<Option<real>>, values: seq<Option<real>>, i: nat)
    requires Filled(column, values, i) && i < |values| && ExpandingPercentile(values, i) == None
    ensures Filled(column, values, i + 1)
  {
    hide ExpandingPercentile;
  }

  lemma FilledUp(column: seq<Option<real>>, values: seq<Option<real>>)
    requires Filled(column, values, |values|)
    ensures |column| == |values| && forall k :: 0 <= k < |values| ==> column[k] == ExpandingPercentile(values, k)
  {
    hide ExpandingPercentile;
  }

  /** Every entry is the share of the earlier observations that do not exceed the value; it is missing exactly
      where there is no value or nothing earlier. */
  method AddMrVolatilityPercentile(values: seq<Option<real>>) returns (percentile: seq<Option<real>>)
    ensures |percentile| == |values|
    ensures forall i: nat :: i < |values| ==> ShareOfEarlier(percentile[i], values, i)
    ensures forall i :: 0 <= i < |values| ==> percentile[i] == ExpandingPercentile(values, i)
  {
    hide ShareOfEarlier;
    if forall i | 0 <= i < |values| :: values[i].None? {
      percentile := seq(|values|, _ => None);
      ColumnIsShares(percentile, values);
      return;
    }
    hide Filled, SortedDistinct, Tallies, Represents, ExpandingPercentile, Ascending, Observed, LowBit, Sum, Below;
    NothingObserved(values);
    var unique := SortedDistinct(values);
    var tree := new nat[|unique| + 1](_ => 0);
    var column := new Option<real>[|values|](_ => None);
    var priorCount := 0;
    ghost var freq: seq<nat> := seq(|unique|, _ => 0);
    EmptyTree(tree[..], freq, unique, values);
    FilledNone(column[..], values);
    for i := 0 to |values|
      invariant priorCount == Observed(values, i)
      invariant Tallies(freq, unique, values, i) && Represents(tree[..], freq)
      invariant Filled(column[..], values, i)
    {
      if values[i].Some? {
        var entry;
        entry, freq := Observe(tree, unique, values, i, priorCount, freq);
        FillNext(column[..], values, i, entry);
        column[i] := entry;
        priorCount := priorCount + 1;
      } else {
        TallySkip(freq, unique, values, i);
        FillSkip(column[..], values, i);
      }
    }
    percentile := column[..];
    FilledUp(percentile, values);
    ColumnIsShares(percentile, values);
  }

  lemma NothingObserved(values: seq<Option<real>>)
    ensures Observed(values, 0) == 0
  {
  }

  lemma EmptyTree(tree: seq<nat>, freq: seq<nat>, unique: seq<real>, values: seq<Option<real>>)
    requires |freq| == |unique| && |tree| == |freq| + 1
    requires forall k :: 0 <= k < |freq| ==> freq[k] == 0
    requires forall k :: 0 <= k < |tree| ==> tree[k] == 0
    ensures Represents(tree, freq) && Tallies(freq, unique, values, 0)
  {
    forall lo, hi | 0 <= lo <= hi <= |freq| ensures Sum(freq, lo, hi) == 0 {
      EmptySum(freq, lo, hi);
    }
  }

  lemma {:induction false} EmptySum(freq: seq<nat>, lo: nat, hi: nat)
    requires lo <= hi <= |freq| && forall k :: 0 <= k < |freq| ==> freq[k] == 0
    ensures Sum(freq, lo, hi) == 0
    decreases hi
  {
    if lo < hi {
      EmptySum(freq, lo, hi - 1);
    }
  }
}

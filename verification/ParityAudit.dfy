/** The parity audit the program runs before every study: build a batch of replay paths, simulate every
    cell both ways, compare every field. Here the audit is proved to pass on every input, for any number
    of paths and any number of trades, not only for the 25 paths of 250 trades it samples.
 */
module ParityAudit {
  import opened Options
  import opened FundedRules
  import opened ReplayPaths
  import FundedScalar
  import CombineBatch
  import XfaBatch
  import XfaParity

  method Audit(rs: seq<real>, sourceDays: seq<int>, starts: seq<nat>, dayStarts: seq<int>,
               scenarios: seq<Scenario>, policies: seq<Policy>, parityPaths: nat, maxTrades: nat)
    returns (combineOk: bool, xfaOk: bool)
    requires |rs| > 0 && |sourceDays| == |rs| && maxTrades >= 1
    requires forall b :: 0 <= b < |starts| ==> starts[b] < |dayStarts|
    requires forall j :: 0 <= j < |policies| ==> policies[j].interval != 0
    ensures combineOk && xfaOk
  {
    var n := if parityPaths <= |starts| then parityPaths else |starts|;
    var batch := BuildBatch(rs, sourceDays, dayStarts, starts[..n], maxTrades);
    forall b | 0 <= b < n ensures OneVisitPerDay(batch.days[b]) {
      BatchWalksForward(rs, sourceDays, dayStarts, starts[..n], maxTrades, b);
      DayIdsNeverReturn(batch.days[b]);
    }
    combineOk := CombineParity(batch.paths, batch.days, scenarios, maxTrades);
    xfaOk := XfaParityHolds(batch.paths, batch.days, policies, maxTrades);
  }

  /** Combine: batch and scalar agree on all seven fields of every cell, for any day ids whatever. */
  method CombineParity(paths: seq<seq<real>>, days: seq<seq<int>>, scenarios: seq<Scenario>, maxTrades: nat)
    returns (ok: bool)
    requires |days| == |paths| && Wide(paths, maxTrades) && Wide(days, maxTrades)
    ensures ok
  {
    var vector := CombineBatch.RunCombineBatch(paths, days, scenarios, maxTrades);
    ok := true;
    for i := 0 to |paths|
      invariant ok
    {
      for j := 0 to |scenarios|
        invariant ok
      {
        var scalar := FundedScalar.SimulateCombine(paths[i], days[i], scenarios[j], maxTrades);
        if scalar != Some(vector[j][i]) {
          ok := false;
        }
      }
    }
  }

  /** XFA: batch and scalar agree on all seven fields of every cell, as long as no path returns to a day
      it has left. */
  method XfaParityHolds(paths: seq<seq<real>>, days: seq<seq<int>>, policies: seq<Policy>, maxTrades: nat)
    returns (ok: bool)
    requires |days| == |paths| && Wide(paths, maxTrades) && Wide(days, maxTrades) && maxTrades >= 1
    requires forall j :: 0 <= j < |policies| ==> policies[j].interval != 0
    requires forall b :: 0 <= b < |paths| ==> OneVisitPerDay(days[b])
    ensures ok
  {
    var vector := XfaBatch.RunXfaBatch(paths, days, policies, maxTrades);
    ok := true;
    for i := 0 to |paths|
      invariant ok
    {
      for j := 0 to |policies|
        invariant ok
      {
        var scalar := FundedScalar.SimulateXfa(paths[i], days[i], policies[j], maxTrades);
        XfaParity.GuardNeverMatters(paths[i], days[i], policies[j], maxTrades);
        if scalar != Some(vector[j][i]) {
          ok := false;
        }
      }
    }
  }

  /** The vectorised simulator on any batch of replay paths, however many and however long: every cell is the
      account of the plain scalar rules, without the extra guard. */
  method XfaOnReplays(rs: seq<real>, sourceDays: seq<int>, dayStarts: seq<int>, startDays: seq<nat>,
                      policies: seq<Policy>, maxTrades: nat)
    returns (results: seq<seq<XfaResult>>)
    requires |rs| > 0 && |sourceDays| == |rs| && maxTrades >= 1
    requires forall b :: 0 <= b < |startDays| ==> startDays[b] < |dayStarts|
    ensures |results| == |policies| && forall j :: 0 <= j < |policies| ==> |results[j]| == |startDays|
    ensures var batch := BuildBatch(rs, sourceDays, dayStarts, startDays, maxTrades);
            forall b, j :: 0 <= b < |startDays| && 0 <= j < |policies| ==>
              results[j][b] == XfaReport(XfaRun(batch.paths[b], batch.days[b], policies[j], maxTrades))
  {
    hide XfaRun, XfaBatch.GuardedRun, XfaReport, OneVisitPerDay;
    var batch := BuildBatch(rs, sourceDays, dayStarts, startDays, maxTrades);
    results := XfaBatch.RunXfaBatch(batch.paths, batch.days, policies, maxTrades);
    forall b, j | 0 <= b < |startDays| && 0 <= j < |policies|
      ensures results[j][b] == XfaReport(XfaRun(batch.paths[b], batch.days[b], policies[j], maxTrades))
    {
      BatchWalksForward(rs, sourceDays, dayStarts, startDays, maxTrades, b);
      DayIdsNeverReturn(batch.days[b]);
      XfaParity.GuardNeverMatters(batch.paths[b], batch.days[b], policies[j], maxTrades);
    }
  }
}

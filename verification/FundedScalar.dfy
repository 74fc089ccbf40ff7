/** The two readable simulators: one account, one path, one trade per loop iteration. `None` is an exception:
    an index past the end of the path or its days, a remainder by zero, or a result before any trade.
 */
module FundedScalar {
  import opened Options
  import opened FundedRules

  function Smaller(a: int, b: nat): (n: nat)
    ensures n <= b
  {
    if a <= 0 then 0 else if a <= b then a else b
  }

  /** The account once every trade the loop asks for has been made, and none if a day is missing before the
      account is over. */
  method SimulateCombine(path: seq<real>, days: seq<int>, scenario: Scenario, maxTrades: int)
    returns (result: Option<CombineResult>)
    ensures var asked := Smaller(maxTrades, |path|);
            var known := Smaller(asked, |days|);
            var s := CombineRun(path, days, scenario, known);
            result == if known < asked && !CombineOver(s) then None else Some(CombineReport(s))
  {
    hide CombineRun, TradePnl, MaxDrawdown;
    CombineRunStarts(path, days, scenario);
    var balance := STARTING_BALANCE;
    var equity := [balance];
    var trades := 0;
    var failed, passed := false, false;
    var winningDays := 0;
    var currentDay := -1;
    var dayPnl := 0.0;
    var dayWon := false;
    var limit := Smaller(maxTrades, |path|);
    ghost var known := Smaller(limit, |days|);
    var i := 0;
    while i < limit
      invariant 0 <= i <= known
      invariant !failed && !passed
      invariant CombineRun(path, days, scenario, i)
             == CombineState(balance, equity, trades, false, false, winningDays,
                             DayBook(currentDay, dayPnl, dayWon))
    {
      if i >= |days| {
        return None;
      }
      var r, day := path[i], days[i];
      ghost var before := CombineRun(path, days, scenario, i);
      if day != currentDay {
        currentDay := day;
        dayPnl := 0.0;
        dayWon := false;
      }
      assert DayBook(currentDay, dayPnl, dayWon) == EnterDay(before.book, day);
      var pnl := TradePnl(r, balance, scenario);
      balance := balance + pnl;
      trades := trades + 1;
      equity := equity + [balance];
      dayPnl := dayPnl + pnl;
      if !dayWon && dayPnl >= MIN_WINNING_DAY_PROFIT {
        winningDays := winningDays + 1;
        dayWon := true;
      }
      i := i + 1;
      CombineRunNext(path, days, scenario, i - 1);
      if balance <= STARTING_BALANCE - MAX_LOSS_LIMIT {
        failed := true;
        break;
      }
      if balance >= STARTING_BALANCE + PROFIT_TARGET {
        passed := true;
        break;
      }
    }
    if failed || passed {
      CombineRunStays(path, days, scenario, i, known);
    }
    result := Some(CombineResult(passed, failed, trades, balance, balance - STARTING_BALANCE,
                                 MaxDrawdown(equity), winningDays));
  }

  /** What the XFA loop reports, and when it raises: without a trade, when the path or its days end before the
      account does, and with an interval of 0 as soon as a trade is survived. */
  function XfaScalar(path: seq<real>, days: seq<int>, policy: Policy, maxTrades: int): Option<XfaResult> {
    var known := Smaller(maxTrades, Smaller(|path|, |days|));
    if known == 0 then None
    else if known < maxTrades && !XfaRun(path, days, policy, known).failed then None
    else if policy.interval == 0 && !XfaRun(path, days, policy, 1).failed then None
    else Some(XfaReport(XfaRun(path, days, policy, known)))
  }

  method SimulateXfa(path: seq<real>, days: seq<int>, policy: Policy, maxTrades: int)
    returns (result: Option<XfaResult>)
    ensures result == XfaScalar(path, days, policy, maxTrades)
  {
    hide XfaRun, TradePnl, MaxDrawdown, PayoutDue;
    XfaRunStarts(path, days, policy);
    if maxTrades <= 0 {
      return None;
    }
    var balance := STARTING_BALANCE;
    var totalWithdrawn := 0.0;
    var payouts := 0;
    var failed := false;
    var winningDays := 0;
    var currentDay := -1;
    var dayPnl := 0.0;
    var dayWon := false;
    var equity := [balance];
    ghost var known := Smaller(maxTrades, Smaller(|path|, |days|));
    var i := 0;
    while i < maxTrades
      invariant 0 <= i <= known
      invariant !failed
      invariant i > 0 ==> policy.interval != 0
      invariant XfaRun(path, days, policy, i)
             == XfaState(balance, totalWithdrawn, payouts, winningDays, false, i,
                         DayBook(currentDay, dayPnl, dayWon), equity)
    {
      if i >= |path| || i >= |days| {
        return None;
      }
      var r, day := path[i], days[i];
      ghost var before := XfaRun(path, days, policy, i);
      if day != currentDay {
        currentDay := day;
        dayPnl := 0.0;
        dayWon := false;
      }
      assert DayBook(currentDay, dayPnl, dayWon) == EnterDay(before.book, day);
      var pnl := TradePnl(r, balance, policy.scenario);
      balance := balance + pnl;
      equity := equity + [balance];
      dayPnl := dayPnl + pnl;
      if !dayWon && dayPnl >= MIN_WINNING_DAY_PROFIT {
        winningDays := winningDays + 1;
        dayWon := true;
      }
      i := i + 1;
      ghost var traded := XfaTrade(before, r, day, policy.scenario);
      assert traded == XfaState(balance, totalWithdrawn, payouts, winningDays,
                                balance <= XFA_FIXED_LOSS_FLOOR, i,
                                DayBook(currentDay, dayPnl, dayWon), equity);
      XfaRunNext(path, days, policy, i - 1);
      if balance <= XFA_FIXED_LOSS_FLOOR {
        failed := true;
        break;
      }
      if policy.interval == 0 {
        PayoutsKeepAlive(traded, policy);
        assert i == 1;
        return None;
      }
      if PayoutDue(i, policy.interval) && winningDays >= MIN_WINNING_DAYS {
        var actual := Min(policy.amount, Max(0.0, balance - STARTING_BALANCE));
        if actual > 0.0 {
          balance := balance - actual;
          totalWithdrawn := totalWithdrawn + actual;
          payouts := payouts + 1;
          winningDays := 0;
        }
      }
    }
    if failed {
      XfaRunStays(path, days, policy, i, known);
    }
    result := Some(XfaResult(failed, i, balance, totalWithdrawn, payouts, balance + totalWithdrawn,
                             MaxDrawdown(equity)));
  }

  lemma PayoutsKeepAlive(s: XfaState, policy: Policy)
    ensures XfaPayout(s, policy).failed == s.failed
  {
  }
}

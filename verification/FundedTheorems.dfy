/** What the two games promise, over every path, every day sequence and every policy. */
module FundedTheorems {
  import opened Options
  import opened FundedRules
  import opened ReplayPaths

  // ---------------------------------------------------------------------------------------------
  // Combine
  // ---------------------------------------------------------------------------------------------

  /** The equity curve has one point per trade, every point before the last lies strictly between the
      loss floor and the profit target, and the run ends in exactly one of three ways: failed at or below
      the floor, passed at or above the target, or out of trades strictly in between. */
  lemma {:induction false} CombineEndsOneWay(path: seq<real>, days: seq<int>, scenario: Scenario, n: nat)
    requires n <= |path| && n <= |days|
    ensures var s := CombineRun(path, days, scenario, n);
      && |s.equity| == s.trades + 1 && s.equity[s.trades] == s.balance && s.trades <= n
      && (forall k :: 0 <= k < s.trades ==>
            STARTING_BALANCE - MAX_LOSS_LIMIT < s.equity[k] < STARTING_BALANCE + PROFIT_TARGET)
      && !(s.passed && s.failed)
      && (s.failed <==> s.balance <= STARTING_BALANCE - MAX_LOSS_LIMIT)
      && (s.passed <==> s.balance >= STARTING_BALANCE + PROFIT_TARGET)
      && (!s.passed && !s.failed ==> s.trades == n)
  {
    hide TradePnl;
    if n > 0 {
      CombineEndsOneWay(path, days, scenario, n - 1);
    }
  }

  /** A day counts as a winning day at most once. */
  lemma {:induction false} CombineWinningDays(path: seq<real>, days: seq<int>, scenario: Scenario, n: nat)
    requires n <= |path| && n <= |days|
    ensures var s := CombineRun(path, days, scenario, n);
      && s.trades <= n
      && s.winningDays + (if n > 0 && !s.book.won then 1 else 0) <= Changes(days, s.trades)
      && (!CombineOver(s) ==> s.trades == n && if n == 0 then s.book == NO_DAY else s.book.day == days[n - 1])
  {
    hide TradePnl;
    if n > 0 {
      CombineWinningDays(path, days, scenario, n - 1);
      ChangesNext(days, n - 1);
    }
  }

  // ---------------------------------------------------------------------------------------------
  // XFA: payouts are transfers
  // ---------------------------------------------------------------------------------------------

  /** The profit and loss of every trade the account actually made, at the risk it had at that time. */
  function TradedPnl(path: seq<real>, days: seq<int>, policy: Policy, n: nat): real
    requires n <= |path| && n <= |days|
  {
    if n == 0 then 0.0
    else
      var s := XfaRun(path, days, policy, n - 1);
      TradedPnl(path, days, policy, n - 1)
      + if s.failed then 0.0 else TradePnl(path[n - 1], s.balance, policy.scenario)
  }

  lemma {:induction false} NetValueIdentity(path: seq<real>, days: seq<int>, policy: Policy, n: nat)
    requires n <= |path| && n <= |days|
    ensures var s := XfaRun(path, days, policy, n);
      s.balance + s.withdrawn == STARTING_BALANCE + TradedPnl(path, days, policy, n)
  {
    hide TradePnl, PayoutDue;
    if n > 0 {
      NetValueIdentity(path, days, policy, n - 1);
    }
  }

  /** One risk governs every trade a living account can make: there is no threshold, it changes nothing, or
      it lies at or below the loss floor. */
  predicate SteadyRisk(scenario: Scenario) {
    || scenario.threshold.None?
    || scenario.initial == scenario.afterThreshold
    || scenario.threshold.value <= -MAX_LOSS_LIMIT
  }

  function OnlyRisk(scenario: Scenario): real {
    if scenario.threshold.None? then scenario.initial else scenario.afterThreshold
  }

  function FixedTrade(r: real, risk: real): real {
    r * STARTING_BALANCE * risk
  }

  /** The profit of the first `n` trades of a path at one fixed risk: no policy, no balance in it. */
  function FixedPnl(path: seq<real>, risk: real, n: nat): real
    requires n <= |path|
  {
    if n == 0 then 0.0 else FixedPnl(path, risk, n - 1) + FixedTrade(path[n - 1], risk)
  }

  lemma SteadyTradePnl(r: real, balance: real, scenario: Scenario)
    requires SteadyRisk(scenario) && balance > XFA_FIXED_LOSS_FLOOR
    ensures TradePnl(r, balance, scenario) == FixedTrade(r, OnlyRisk(scenario))
  {
  }

  lemma {:induction false} SteadyRiskNetValue(path: seq<real>, days: seq<int>, policy: Policy, n: nat)
    requires n <= |path| && n <= |days| && SteadyRisk(policy.scenario)
    ensures var s := XfaRun(path, days, policy, n);
            && s.trades <= n
            && s.balance + s.withdrawn == STARTING_BALANCE + FixedPnl(path, OnlyRisk(policy.scenario), s.trades)
  {
    hide TradePnl, FixedTrade, SteadyRisk, XfaTrade, XfaPayout;
    if n > 0 {
      SteadyRiskNetValue(path, days, policy, n - 1);
      XfaTradesCount(path, days, policy, n - 1);
      var s := XfaRun(path, days, policy, n - 1);
      if !s.failed {
        WithdrawnIsBounded(path, days, policy, n - 1);
        SteadyTradePnl(path[n - 1], s.balance, policy.scenario);
        StepMoves(s, path[n - 1], days[n - 1], policy);
      }
    }
  }

  /** Two payout policies that survive equally many trades of a path leave the same net value: payouts
      only move money from the balance to the withdrawn total. */
  lemma PayoutsAreTransfers(path: seq<real>, days: seq<int>, p: Policy, q: Policy, n: nat, m: nat)
    requires p.scenario == q.scenario && SteadyRisk(p.scenario)
    requires n <= |path| && n <= |days| && m <= |path| && m <= |days|
    requires XfaRun(path, days, p, n).trades == XfaRun(path, days, q, m).trades
    ensures XfaReport(XfaRun(path, days, p, n)).netValue == XfaReport(XfaRun(path, days, q, m)).netValue
  {
    SteadyRiskNetValue(path, days, p, n);
    SteadyRiskNetValue(path, days, q, m);
  }

  /** What one trade and the payout after it do to the money and the life of an account. */
  lemma StepMoves(s: XfaState, r: real, day: int, policy: Policy)
    ensures var gain := TradePnl(r, s.balance, policy.scenario);
            var t := XfaPayout(XfaTrade(s, r, day, policy.scenario), policy);
            && t.balance + t.withdrawn == s.balance + s.withdrawn + gain && t.withdrawn >= s.withdrawn
            && (policy.amount <= 0.0 ==> t.withdrawn == s.withdrawn)
            && t.trades == s.trades + 1 && (t.failed <==> s.balance + gain <= XFA_FIXED_LOSS_FLOOR)
  {
    hide TradePnl, PayoutDue;
  }

  /** At steady risk an account that pays out never outlasts the same account without payouts: while it
      lives, its balance is the other's balance less what was withdrawn. */
  lemma {:induction false} PayingNeverOutlasts(path: seq<real>, days: seq<int>, paying: Policy, hoarding: Policy,
                                               n: nat)
    requires paying.scenario == hoarding.scenario && SteadyRisk(paying.scenario) && hoarding.amount <= 0.0
    requires n <= |path| && n <= |days|
    ensures var p, h := XfaRun(path, days, paying, n), XfaRun(path, days, hoarding, n);
            && p.trades <= h.trades && (h.failed ==> p.failed)
            && h.withdrawn == 0.0 && p.withdrawn >= 0.0
            && (!p.failed ==> h.balance == p.balance + p.withdrawn && p.trades == h.trades)
  {
    hide TradePnl, FixedTrade, SteadyRisk, XfaTrade, XfaPayout;
    if n > 0 {
      PayingNeverOutlasts(path, days, paying, hoarding, n - 1);
      XfaTradesCount(path, days, paying, n - 1);
      XfaTradesCount(path, days, hoarding, n - 1);
      var p, h := XfaRun(path, days, paying, n - 1), XfaRun(path, days, hoarding, n - 1);
      if !p.failed {
        WithdrawnIsBounded(path, days, paying, n - 1);
        SteadyTradePnl(path[n - 1], p.balance, paying.scenario);
        SteadyTradePnl(path[n - 1], h.balance, hoarding.scenario);
      }
      StepMoves(p, path[n - 1], days[n - 1], paying);
      StepMoves(h, path[n - 1], days[n - 1], hoarding);
    }
  }

  /** At a balance-dependent risk payouts are not mere transfers: one payout of 1000 after five winning
      days drops the account back below the threshold, and the sixth trade earns less. */
  lemma AdaptiveRiskIsDifferent()
    ensures exists path: seq<real>, days: seq<int>, p: Policy, q: Policy, n: nat ::
      && p.scenario == q.scenario && n <= |path| && n <= |days|
      && XfaRun(path, days, p, n).trades == XfaRun(path, days, q, n).trades
      && XfaReport(XfaRun(path, days, p, n)).netValue != XfaReport(XfaRun(path, days, q, n)).netValue
  {
    var scenario := Scenario(0.005, 0.01, Some(1000.0));
    var path := [1.0, 1.0, 1.0, 1.0, 1.0, 1.0];
    var days := [0, 1, 2, 3, 4, 5];
    var p, q := Policy(scenario, 5, 1000.0), Policy(scenario, 5, 0.0);
    hide XfaRun, XfaStep, MaxDrawdown;
    SixthTrade(path, days, p);
    SixthTrade(path, days, q);
    assert XfaRun(path, days, p, 6).trades == XfaRun(path, days, q, 6).trades;
  }

  lemma SixthTrade(path: seq<real>, days: seq<int>, policy: Policy)
    requires path == [1.0, 1.0, 1.0, 1.0, 1.0, 1.0] && days == [0, 1, 2, 3, 4, 5]
    requires policy.interval == 5 && policy.scenario == Scenario(0.005, 0.01, Some(1000.0))
    requires policy.amount == 1000.0 || policy.amount == 0.0
    ensures var s := XfaRun(path, days, policy, 6);
      s.trades == 6 && s.balance + s.withdrawn == if policy.amount == 0.0 then 52000.0 else 51750.0
  {
    hide MaxDrawdown, XfaRun;
    FiveWinningDays(path, days, policy);
    XfaRunNext(path, days, policy, 5);
  }

  lemma FiveWinningDays(path: seq<real>, days: seq<int>, policy: Policy)
    requires path == [1.0, 1.0, 1.0, 1.0, 1.0, 1.0] && days == [0, 1, 2, 3, 4, 5]
    requires policy.interval == 5 && policy.scenario == Scenario(0.005, 0.01, Some(1000.0))
    requires policy.amount == 1000.0 || policy.amount == 0.0
    ensures var s := XfaRun(path, days, policy, 5);
      !s.failed && s.trades == 5 && s.balance == 51500.0 - policy.amount && s.withdrawn == policy.amount
  {
    var s0 := XFA_START;
    var s1 := XfaStep(s0, 1.0, 0, policy);
    assert s1.balance == 50250.0 && s1.winningDays == 1 && s1.trades == 1;
    var s2 := XfaStep(s1, 1.0, 1, policy);
    assert s2.balance == 50500.0 && s2.winningDays == 2 && s2.trades == 2;
    var s3 := XfaStep(s2, 1.0, 2, policy);
    assert s3.balance == 50750.0 && s3.winningDays == 3 && s3.trades == 3;
    var s4 := XfaStep(s3, 1.0, 3, policy);
    assert s4.balance == 51000.0 && s4.winningDays == 4 && s4.trades == 4;
    hide XfaStep;
    XfaRunStarts(path, days, policy);
    assert XfaRun(path, days, policy, 1) == s1;
    assert XfaRun(path, days, policy, 2) == s2;
    assert XfaRun(path, days, policy, 3) == s3;
    assert XfaRun(path, days, policy, 4) == s4;
    XfaRunNext(path, days, policy, 4);
  }

  // ---------------------------------------------------------------------------------------------
  // XFA: how much and how often
  // ---------------------------------------------------------------------------------------------

  /** One payout takes a positive amount of at most `amount` and never goes below the starting balance. */
  lemma PayoutIsBounded(s: XfaState, policy: Policy)
    ensures var paid := XfaPayout(s, policy);
      && paid.balance + paid.withdrawn == s.balance + s.withdrawn
      && paid == s.(balance := paid.balance, withdrawn := paid.withdrawn, payouts := paid.payouts,
                    winningDays := paid.winningDays)
      && (paid.payouts == s.payouts ==> paid == s)
      && (paid.payouts != s.payouts ==>
            && paid.payouts == s.payouts + 1 && paid.winningDays == 0
            && 0.0 < paid.withdrawn - s.withdrawn <= policy.amount
            && paid.balance >= STARTING_BALANCE
            && !s.failed && s.winningDays >= MIN_WINNING_DAYS && PayoutDue(s.trades, policy.interval))
  {
  }

  /** Over a whole run: the total withdrawn is at most `amount` per payout, and payouts never cause the
      failure of an account. */
  lemma {:induction false} WithdrawnIsBounded(path: seq<real>, days: seq<int>, policy: Policy, n: nat)
    requires n <= |path| && n <= |days|
    ensures var s := XfaRun(path, days, policy, n);
      && 0.0 <= s.withdrawn && (policy.amount > 0.0 ==> s.withdrawn <= Times(policy.amount, s.payouts))
      && (policy.amount <= 0.0 ==> s.payouts == 0)
      && (s.failed <==> s.balance <= XFA_FIXED_LOSS_FLOOR)
  {
    hide TradePnl, PayoutDue, XfaPayout, Times;
    TimesNext(policy.amount, 0);
    if n > 0 {
      WithdrawnIsBounded(path, days, policy, n - 1);
      var s := XfaRun(path, days, policy, n - 1);
      if !s.failed {
        var traded := XfaTrade(s, path[n - 1], days[n - 1], policy.scenario);
        PayoutIsBounded(traded, policy);
        TimesNext(policy.amount, s.payouts);
      }
    }
  }

  function Times(amount: real, k: nat): real { amount * k as real }

  lemma TimesNext(amount: real, k: nat)
    ensures Times(amount, k + 1) == Times(amount, k) + amount
    ensures Times(amount, 0) == 0.0
  {
  }

  /** The number of trades between two payout dates, whatever the sign of the interval. */
  function Period(interval: int): nat {
    if interval < 0 then -interval else interval
  }

  /** Payouts are rationed by trades: at least `interval` trades per payout. */
  lemma {:induction false} IntervalPerPayout(path: seq<real>, days: seq<int>, policy: Policy, n: nat)
    requires n <= |path| && n <= |days|
    ensures var s := XfaRun(path, days, policy, n);
            Period(policy.interval) * s.payouts <= s.trades <= n
  {
    hide XfaTrade, XfaPayout, XfaRun, PayoutDue, Period;
    if n == 0 {
      XfaRunStarts(path, days, policy);
    } else {
      IntervalPerPayout(path, days, policy, n - 1);
      XfaTradesCount(path, days, policy, n - 1);
      var s := XfaRun(path, days, policy, n - 1);
      if s.failed {
        XfaRunStays(path, days, policy, n - 1, n);
      } else {
        var traded := XfaTrade(s, path[n - 1], days[n - 1], policy.scenario);
        XfaRunNext(path, days, policy, n - 1);
        TradeKeepsPayouts(s, path[n - 1], days[n - 1], policy.scenario);
        PayoutIsBounded(traded, policy);
        if PayoutDue(traded.trades, policy.interval) {
          OneMoreInterval(policy.interval, s.payouts, n);
        }
      }
    }
  }

  lemma TradeKeepsPayouts(s: XfaState, r: real, day: int, scenario: Scenario)
    ensures var traded := XfaTrade(s, r, day, scenario);
      traded.payouts == s.payouts && traded.withdrawn == s.withdrawn && traded.trades == s.trades + 1
  {
    hide TradePnl;
  }

  /** Payouts are rationed by days: five separate winning days per payout, where a day counts once even
      when a payout falls in the middle of it. */
  lemma {:induction false} FiveDaysPerPayout(path: seq<real>, days: seq<int>, policy: Policy, n: nat)
    requires n <= |path| && n <= |days|
    ensures var s := XfaRun(path, days, policy, n);
      && s.trades <= n
      && MIN_WINNING_DAYS * s.payouts + s.winningDays + (if n > 0 && !s.book.won then 1 else 0)
           <= Changes(days, s.trades)
      && (!s.failed ==> s.trades == n && if n == 0 then s.book == NO_DAY else s.book.day == days[n - 1])
  {
    hide TradePnl, PayoutDue, XfaPayout;
    if n > 0 {
      FiveDaysPerPayout(path, days, policy, n - 1);
      var s := XfaRun(path, days, policy, n - 1);
      if !s.failed {
        PayoutIsBounded(XfaTrade(s, path[n - 1], days[n - 1], policy.scenario), policy);
        ChangesNext(days, n - 1);
      }
    }
  }

  lemma Monotone(k: nat, a: int, b: int)
    ensures a <= b ==> k * a <= k * b
  {
  }

  lemma WholePeriods(interval: int, trades: nat) returns (q: int)
    requires interval != 0 && PayoutDue(trades, interval)
    ensures trades == Period(interval) * q
  {
    q := trades / interval;
    assert trades == interval * q;
    if interval < 0 {
      q := -q;
      assert trades == (-interval) * q;
    }
  }

  lemma OneMoreInterval(interval: int, payouts: nat, trades: nat)
    requires trades > 0 && PayoutDue(trades, interval)
    requires Period(interval) * payouts <= trades - 1
    ensures Period(interval) * (payouts + 1) <= trades
  {
    if interval != 0 {
      var q := WholePeriods(interval, trades);
      hide Period, PayoutDue;
      Monotone(Period(interval), q, payouts);
      Monotone(Period(interval), payouts + 1, q);
    }
  }
}

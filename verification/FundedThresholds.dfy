/** Exactly for which scenarios payouts are mere transfers, and exactly for which an account that pays out
    never outlasts one that does not. Both turn on whether a threshold can separate the two accounts.
 */
module FundedThresholds {
  import opened FundedRules
  import opened FundedTheorems

  ghost predicate Comparable(scenario: Scenario, path: seq<real>, days: seq<int>, p: Policy, q: Policy,
                             n: nat, m: nat)
  {
    p.scenario == q.scenario == scenario && n <= |path| && n <= |days| && m <= |path| && m <= |days|
  }

  /** If the two policies make equally many trades, they leave the same net value. */
  ghost predicate SameNetValue(path: seq<real>, days: seq<int>, p: Policy, q: Policy, n: nat, m: nat)
    requires n <= |path| && n <= |days| && m <= |path| && m <= |days|
  {
    var a, b := XfaRun(path, days, p, n), XfaRun(path, days, q, m);
    a.trades == b.trades ==> XfaReport(a).netValue == XfaReport(b).netValue
  }

  ghost predicate PayoutsOnlyTransfer(scenario: Scenario) {
    forall path: seq<real>, days: seq<int>, p: Policy, q: Policy, n: nat, m: nat ::
      Comparable(scenario, path, days, p, q, n, m) ==> SameNetValue(path, days, p, q, n, m)
  }

  ghost predicate NotOutlasted(path: seq<real>, days: seq<int>, paying: Policy, hoarding: Policy, n: nat)
    requires n <= |path| && n <= |days|
  {
    var p, h := XfaRun(path, days, paying, n), XfaRun(path, days, hoarding, n);
    p.trades <= h.trades && (h.failed ==> p.failed)
  }

  ghost predicate PayingNeverHelps(scenario: Scenario) {
    forall path: seq<real>, days: seq<int>, paying: Policy, hoarding: Policy, n: nat ::
      Comparable(scenario, path, days, paying, hoarding, n, n) && hoarding.amount <= 0.0 ==>
        NotOutlasted(path, days, paying, hoarding, n)
  }

  predicate PositiveRisks(scenario: Scenario) {
    scenario.initial > 0.0 && scenario.afterThreshold > 0.0
  }

  lemma PayoutsAreTransfersExactlyWhen(scenario: Scenario)
    requires PositiveRisks(scenario)
    ensures PayoutsOnlyTransfer(scenario) <==>
              || scenario.threshold.None?
              || scenario.initial == scenario.afterThreshold
              || scenario.threshold.value <= -MAX_LOSS_LIMIT
  {
    if SteadyRisk(scenario) {
      forall path: seq<real>, days: seq<int>, p: Policy, q: Policy, n: nat, m: nat
        | Comparable(scenario, path, days, p, q, n, m)
        ensures SameNetValue(path, days, p, q, n, m)
      {
        if XfaRun(path, days, p, n).trades == XfaRun(path, days, q, m).trades {
          PayoutsAreTransfers(path, days, p, q, n, m);
        }
      }
    } else {
      var path, days, p, q := DifferentNetValues(scenario);
      assert !(Comparable(scenario, path, days, p, q, 7, 7) ==> SameNetValue(path, days, p, q, 7, 7));
    }
  }

  lemma PayingNeverOutlastsExactlyWhen(scenario: Scenario)
    requires PositiveRisks(scenario)
    ensures PayingNeverHelps(scenario) <==>
              || scenario.threshold.None?
              || scenario.initial == scenario.afterThreshold
              || scenario.threshold.value <= -MAX_LOSS_LIMIT
  {
    if SteadyRisk(scenario) {
      forall path: seq<real>, days: seq<int>, paying: Policy, hoarding: Policy, n: nat
        | Comparable(scenario, path, days, paying, hoarding, n, n) && hoarding.amount <= 0.0
        ensures NotOutlasted(path, days, paying, hoarding, n)
      {
        PayingNeverOutlasts(path, days, paying, hoarding, n);
      }
    } else {
      var path, days, p, h, n := OutlastingPath(scenario);
      assert !(Comparable(scenario, path, days, p, h, n, n) && h.amount <= 0.0 ==> NotOutlasted(path, days, p, h, n));
    }
  }

  // ---------------------------------------------------------------------------------------------
  // Two accounts on either side of the threshold
  // ---------------------------------------------------------------------------------------------

  /** The threshold can be reached by a living account, and changes the risk. */
  predicate Splits(scenario: Scenario) {
    PositiveRisks(scenario) && !SteadyRisk(scenario)
  }

  /** How far the threshold lies above the loss floor. */
  function Room(scenario: Scenario): (room: real)
    requires Splits(scenario)
    ensures room > 0.0
  {
    scenario.threshold.value + MAX_LOSS_LIMIT
  }

  /** A payout small enough for what follows. */
  function Small(scenario: Scenario): (w: real)
    requires Splits(scenario)
    ensures 0.0 < w <= Room(scenario) / 2.0
  {
    var (a, b) := (scenario.initial, scenario.afterThreshold);
    if a < b then
      RatioBelowOne(a, b);
      Scaled(Room(scenario), 1.0 - a / b);
      Room(scenario) * (1.0 - a / b) / 2.0
    else Room(scenario) / 2.0
  }

  lemma RatioBelowOne(a: real, b: real)
    requires 0.0 < a < b
    ensures 0.0 < a / b < 1.0
  {
    var q := a / b;
    assert q * b == a;
    PositiveFactor(b, q);
    assert b * (1.0 - q) == b - a;
    PositiveFactor(b, 1.0 - q);
  }

  lemma PositiveFactor(a: real, b: real)
    requires a > 0.0 && a * b > 0.0
    ensures b > 0.0
  {
  }

  lemma Scaled(x: real, y: real)
    requires x > 0.0 && 0.0 < y < 1.0
    ensures 0.0 < x * y < x
  {
    assert x * (1.0 - y) > 0.0;
    assert x * y == x - x * (1.0 - y);
  }

  /** Each of the first five trades wins this much. */
  function Win(scenario: Scenario): (x: real)
    requires Splits(scenario)
    ensures x > 400.0
  {
    400.0 + Room(scenario)
  }

  /** The return that earns `gain` at the risk of an account with this profit. */
  function Earning(gain: real, profit: real, scenario: Scenario): real
    requires PositiveRisks(scenario)
  {
    gain / (STARTING_BALANCE * GetRisk(STARTING_BALANCE + profit, scenario))
  }

  lemma Earns(gain: real, profit: real, scenario: Scenario)
    requires PositiveRisks(scenario)
    ensures TradePnl(Earning(gain, profit, scenario), STARTING_BALANCE + profit, scenario) == gain
  {
    var risk := GetRisk(STARTING_BALANCE + profit, scenario);
    var r := Earning(gain, profit, scenario);
    assert r * (STARTING_BALANCE * risk) == gain;
    assert r * STARTING_BALANCE * risk == r * (STARTING_BALANCE * risk);
  }

  /** A living account on a given day. */
  ghost predicate Stands(s: XfaState, profit: real, withdrawn: real, trades: nat) {
    && !s.failed && s.balance == STARTING_BALANCE + profit && s.withdrawn == withdrawn
    && s.trades == trades && s.book.day == trades - 1
  }

  predicate FiveTrades(policy: Policy) { policy.interval == 5 }

  /** A trade on a new day, with no payout due. */
  lemma Moves(s: XfaState, profit: real, withdrawn: real, trades: nat, r: real, policy: Policy)
    requires Stands(s, profit, withdrawn, trades) && FiveTrades(policy) && (trades + 1) % 5 != 0
    ensures var gain := TradePnl(r, STARTING_BALANCE + profit, policy.scenario);
            var t := XfaPayout(XfaTrade(s, r, trades, policy.scenario), policy);
            && t.balance == STARTING_BALANCE + profit + gain && t.withdrawn == withdrawn && t.trades == trades + 1
            && (t.failed <==> profit + gain <= -MAX_LOSS_LIMIT)
            && (!t.failed ==> Stands(t, profit + gain, withdrawn, trades + 1))
            && t.winningDays == s.winningDays + if gain >= MIN_WINNING_DAY_PROFIT then 1 else 0
  {
    hide TradePnl;
  }

  /** Eight trades on eight days. */
  const DAYS: seq<int> := [0, 1, 2, 3, 4, 5, 6, 7]

  ghost predicate FiveWins(path: seq<real>, scenario: Scenario)
    requires Splits(scenario)
  {
    |path| >= 5 && forall i: nat :: i < 5 ==> path[i] == Earning(Win(scenario), Times(Win(scenario), i), scenario)
  }

  lemma {:induction false} Winning(path: seq<real>, policy: Policy, k: nat)
    requires Splits(policy.scenario) && FiveTrades(policy) && FiveWins(path, policy.scenario) && k <= 4
    ensures var s := XfaRun(path, DAYS, policy, k);
            Stands(s, Times(Win(policy.scenario), k), 0.0, k) && s.winningDays == k
  {
    hide TradePnl, Times, Earning, Win, XfaTrade, XfaPayout;
    var x := Win(policy.scenario);
    TimesNext(x, k);
    TimesIsPositive(x, k);
    if k > 0 {
      Winning(path, policy, k - 1);
      TimesNext(x, k - 1);
      Earns(x, Times(x, k - 1), policy.scenario);
      XfaRunNext(path, DAYS, policy, k - 1);
      Moves(XfaRun(path, DAYS, policy, k - 1), Times(x, k - 1), 0.0, k - 1, path[k - 1], policy);
    }
  }

  lemma TimesIsPositive(x: real, k: nat)
    requires x > 0.0
    ensures Times(x, k) >= 0.0
  {
  }

  /** After the fifth win the payout is due. */
  lemma PaidOut(path: seq<real>, policy: Policy)
    requires Splits(policy.scenario) && FiveTrades(policy) && FiveWins(path, policy.scenario)
    requires 0.0 <= policy.amount <= Room(policy.scenario) / 2.0
    ensures Stands(XfaRun(path, DAYS, policy, 5), 5.0 * Win(policy.scenario) - policy.amount, policy.amount, 5)
  {
    hide TradePnl, Earning, Win;
    var x := Win(policy.scenario);
    Winning(path, policy, 4);
    Earns(x, Times(x, 4), policy.scenario);
    XfaRunNext(path, DAYS, policy, 4);
    assert Times(x, 4) == 4.0 * x;
    assert 5.0 * x >= policy.amount by { WinIsLarge(policy.scenario); }
    hide XfaRun;
  }

  lemma WinIsLarge(scenario: Scenario)
    requires Splits(scenario)
    ensures 5.0 * Win(scenario) >= scenario.threshold.value + Room(scenario)
    ensures 5.0 * Win(scenario) >= Room(scenario)
  {
  }

  /** The sixth trade: a common loss, at the same risk, to just above the threshold for the account that has
      kept everything and to just below it for the one that has paid. */
  function Fall(scenario: Scenario): real
    requires Splits(scenario)
  {
    scenario.threshold.value + Small(scenario) / 2.0 - 5.0 * Win(scenario)
  }

  function SixTrades(scenario: Scenario): (path: seq<real>)
    requires Splits(scenario)
    ensures |path| == 6 && FiveWins(path, scenario)
  {
    var x := Win(scenario);
    seq(5, i requires 0 <= i < 5 => Earning(x, Times(x, i), scenario)) + [Earning(Fall(scenario), 5.0 * x, scenario)]
  }

  lemma FallEarns(scenario: Scenario, amount: real)
    requires Splits(scenario) && 0.0 <= amount <= Room(scenario) / 2.0
    ensures TradePnl(Earning(Fall(scenario), 5.0 * Win(scenario), scenario),
                     STARTING_BALANCE + (5.0 * Win(scenario) - amount), scenario) == Fall(scenario)
  {
    WinIsLarge(scenario);
    Earns(Fall(scenario), 5.0 * Win(scenario), scenario);
    hide Fall, Win, Room;
  }

  /** Where an account stands after six trades. */
  lemma Apart(path: seq<real>, policy: Policy)
    requires Splits(policy.scenario) && FiveTrades(policy)
    requires policy.amount == Small(policy.scenario) || policy.amount == 0.0
    requires |path| >= 6 && path[..6] == SixTrades(policy.scenario)
    ensures Stands(XfaRun(path, DAYS, policy, 6),
                   policy.scenario.threshold.value + Small(policy.scenario) / 2.0 - policy.amount, policy.amount, 6)
  {
    hide TradePnl, Earning, Win, Small, XfaRun, XfaPayout, XfaTrade;
    var scenario := policy.scenario;
    assert forall i: nat :: i < 5 ==> path[i] == path[..6][i] == SixTrades(scenario)[i];
    assert path[5] == path[..6][5];
    PaidOut(path, policy);
    FallEarns(scenario, policy.amount);
    XfaRunNext(path, DAYS, policy, 5);
    Moves(XfaRun(path, DAYS, policy, 5), 5.0 * Win(scenario) - policy.amount, policy.amount, 5, path[5], policy);
  }

  /** The seventh trade. */
  lemma Seventh(path: seq<real>, policy: Policy) returns (t: XfaState)
    requires Splits(policy.scenario) && FiveTrades(policy)
    requires policy.amount == Small(policy.scenario) || policy.amount == 0.0
    requires |path| >= 7 && path[..6] == SixTrades(policy.scenario)
    ensures var profit := policy.scenario.threshold.value + Small(policy.scenario) / 2.0 - policy.amount;
            var risk := if policy.amount > 0.0 then policy.scenario.initial else policy.scenario.afterThreshold;
            var gain := FixedTrade(path[6], risk);
            && t == XfaRun(path, DAYS, policy, 7)
            && t.balance == STARTING_BALANCE + profit + gain && t.withdrawn == policy.amount && t.trades == 7
            && (t.failed <==> profit + gain <= -MAX_LOSS_LIMIT)
            && (!t.failed ==> Stands(t, profit + gain, policy.amount, 7))
  {
    hide XfaRun, XfaPayout, XfaTrade, Small, Win;
    Apart(path, policy);
    t := XfaRun(path, DAYS, policy, 7);
    XfaRunNext(path, DAYS, policy, 6);
    var profit := policy.scenario.threshold.value + Small(policy.scenario) / 2.0 - policy.amount;
    Moves(XfaRun(path, DAYS, policy, 6), profit, policy.amount, 6, path[6], policy);
  }

  // ---------------------------------------------------------------------------------------------
  // What comes of it
  // ---------------------------------------------------------------------------------------------

  /** One more trade earns differently. */
  lemma DifferentNetValues(scenario: Scenario) returns (path: seq<real>, days: seq<int>, p: Policy, q: Policy)
    requires Splits(scenario)
    ensures Comparable(scenario, path, days, p, q, 7, 7) && !SameNetValue(path, days, p, q, 7, 7)
  {
    hide XfaRun, Small, SixTrades, MaxDrawdown;
    path, days := SixTrades(scenario) + [1.0], DAYS;
    p, q := Policy(scenario, 5, Small(scenario)), Policy(scenario, 5, 0.0);
    assert path[..6] == SixTrades(scenario);
    var a := Seventh(path, p);
    var b := Seventh(path, q);
    assert a.balance + a.withdrawn - b.balance - b.withdrawn
        == STARTING_BALANCE * (scenario.initial - scenario.afterThreshold);
  }

  lemma OutlastingPath(scenario: Scenario)
    returns (path: seq<real>, days: seq<int>, paying: Policy, hoarding: Policy, n: nat)
    requires Splits(scenario)
    ensures Comparable(scenario, path, days, paying, hoarding, n, n) && hoarding.amount <= 0.0
    ensures !NotOutlasted(path, days, paying, hoarding, n)
  {
    days := DAYS;
    paying, hoarding := Policy(scenario, 5, Small(scenario)), Policy(scenario, 5, 0.0);
    if scenario.initial < scenario.afterThreshold {
      path := CommonLoss(scenario, paying, hoarding);
      n := 7;
    } else {
      path := WinThenLoss(scenario, paying, hoarding);
      n := 8;
    }
  }

  /** Above the threshold more is at risk: a loss that fails the account that kept everything is survived by
      the one that paid. */
  lemma CommonLoss(scenario: Scenario, paying: Policy, hoarding: Policy) returns (path: seq<real>)
    requires Splits(scenario) && scenario.initial < scenario.afterThreshold
    requires paying == Policy(scenario, 5, Small(scenario)) && hoarding == Policy(scenario, 5, 0.0)
    ensures |path| == 7 && !NotOutlasted(path, DAYS, paying, hoarding, 7)
  {
    var loss := Room(scenario) + Small(scenario) / 2.0;
    var r := -loss / (STARTING_BALANCE * scenario.afterThreshold);
    path := SixTrades(scenario) + [r];
    assert path[..6] == SixTrades(scenario);
    LossAtBothRisks(scenario, r, loss);
    hide XfaRun, SixTrades, FixedTrade, Small;
    var p := Seventh(path, paying);
    var h := Seventh(path, hoarding);
  }

  lemma LossAtBothRisks(scenario: Scenario, r: real, loss: real)
    requires Splits(scenario) && scenario.initial < scenario.afterThreshold
    requires loss == Room(scenario) + Small(scenario) / 2.0
    requires r == -loss / (STARTING_BALANCE * scenario.afterThreshold)
    ensures FixedTrade(r, scenario.afterThreshold) == -loss
    ensures FixedTrade(r, scenario.initial) > Small(scenario) / 2.0 - Room(scenario)
  {
    var (a, b) := (scenario.initial, scenario.afterThreshold);
    var q := a / b;
    RatioBelowOne(a, b);
    assert r * (STARTING_BALANCE * b) == -loss;
    assert FixedTrade(r, b) == r * (STARTING_BALANCE * b);
    assert a == q * b;
    assert FixedTrade(r, a) == q * (r * (STARTING_BALANCE * b)) == q * -loss;
    SmallEnough(Room(scenario), q, Small(scenario));
  }

  lemma SmallEnough(room: real, q: real, w: real)
    requires room > 0.0 && 0.0 < q < 1.0 && w == room * (1.0 - q) / 2.0
    ensures q * (room + w / 2.0) < room - w / 2.0
  {
    var e := room * (1.0 - q);
    assert w / 2.0 == e / 4.0 && e > 0.0;
    assert q * room == room - e;
    assert q * (e / 4.0) < e / 4.0 by { Scaled(e / 4.0, q); }
    assert q * (room + w / 2.0) == q * room + q * (e / 4.0);
  }

  /** Below the threshold more is at risk: a win takes the account that paid past the other one, and then a
      loss fails the other one alone. */
  lemma WinThenLoss(scenario: Scenario, paying: Policy, hoarding: Policy) returns (path: seq<real>)
    requires Splits(scenario) && scenario.initial > scenario.afterThreshold
    requires paying == Policy(scenario, 5, Small(scenario)) && hoarding == Policy(scenario, 5, 0.0)
    ensures |path| == 8 && !NotOutlasted(path, DAYS, paying, hoarding, 8)
  {
    var w := Small(scenario);
    var r := 2.0 * w / (STARTING_BALANCE * (scenario.initial - scenario.afterThreshold));
    WinAtBothRisks(scenario, r, w);
    var high := scenario.threshold.value + w / 2.0 + FixedTrade(r, scenario.afterThreshold);
    var last := Earning(-(high + MAX_LOSS_LIMIT), high, scenario);
    path := SixTrades(scenario) + [r, last];
    assert path[..6] == SixTrades(scenario);
    Earns(-(high + MAX_LOSS_LIMIT), high, scenario);
    SameRisk(last, high, high + w, scenario);
    hide XfaRun, SixTrades, FixedTrade, Small, TradePnl, XfaPayout, XfaTrade;
    var p := Seventh(path, paying);
    var h := Seventh(path, hoarding);
    XfaRunNext(path, DAYS, paying, 7);
    XfaRunNext(path, DAYS, hoarding, 7);
    Moves(p, high + w, w, 7, last, paying);
    Moves(h, high, 0.0, 7, last, hoarding);
  }

  lemma WinAtBothRisks(scenario: Scenario, r: real, w: real)
    requires Splits(scenario) && scenario.initial > scenario.afterThreshold && w > 0.0
    requires r == 2.0 * w / (STARTING_BALANCE * (scenario.initial - scenario.afterThreshold))
    ensures FixedTrade(r, scenario.initial) == FixedTrade(r, scenario.afterThreshold) + 2.0 * w
    ensures FixedTrade(r, scenario.afterThreshold) > 0.0
  {
    var (a, b) := (scenario.initial, scenario.afterThreshold);
    assert r * (STARTING_BALANCE * (a - b)) == 2.0 * w;
    assert r > 0.0;
    assert FixedTrade(r, a) - FixedTrade(r, b) == r * (STARTING_BALANCE * (a - b));
    Products(r, b);
  }

  lemma Products(r: real, b: real)
    requires r > 0.0 && b > 0.0
    ensures FixedTrade(r, b) > 0.0
  {
    assert r * STARTING_BALANCE > 0.0;
  }

  lemma SameRisk(r: real, profit: real, other: real, scenario: Scenario)
    requires scenario.threshold.Some? && scenario.threshold.value <= profit && scenario.threshold.value <= other
    ensures TradePnl(r, STARTING_BALANCE + profit, scenario) == TradePnl(r, STARTING_BALANCE + other, scenario)
  {
  }
}

/** When the batch simulator's extra guard on winning days makes no difference. */
module XfaParity {
  import opened FundedRules
  import opened ReplayPaths
  import opened XfaBatch

  /** While the account runs: the remembered day is one already traded on, and if it is today, today
      has been counted. */
  ghost predicate GuardIdle(g: Guarded, days: seq<int>, n: nat)
    requires n <= |days|
  {
    && (g.qualifiedDay == -1 || exists k :: 0 <= k < n && days[k] == g.qualifiedDay)
    && (n > 0 && g.qualifiedDay == days[n - 1] ==> g.account.book.won)
    && (n == 0 ==> g.account.book == NO_DAY && g.qualifiedDay == -1)
    && (n > 0 ==> g.account.book.day == days[n - 1])
  }

  /** If no day is ever returned to, the guarded run is the plain run. */
  lemma {:induction false} GuardNeverMatters(path: seq<real>, days: seq<int>, policy: Policy, n: nat)
    requires n <= |path| && n <= |days| && OneVisitPerDay(days)
    ensures GuardedRun(path, days, policy, n).account == XfaRun(path, days, policy, n)
    ensures !XfaRun(path, days, policy, n).failed ==> GuardIdle(GuardedRun(path, days, policy, n), days, n)
  {
    hide XfaStep, GuardedStep;
    if n > 0 {
      var g := GuardedRun(path, days, policy, n - 1);
      GuardNeverMatters(path, days, policy, n - 1);
      if !g.account.failed {
        GuardStaysIdle(g, days, n - 1, path[n - 1], policy);
      }
    }
  }

  lemma GuardStaysIdle(g: Guarded, days: seq<int>, n: nat, r: real, policy: Policy)
    requires n < |days| && OneVisitPerDay(days)
    requires GuardIdle(g, days, n)
    ensures GuardedStep(g, r, days[n], policy).account == XfaStep(g.account, r, days[n], policy)
    ensures GuardIdle(GuardedStep(g, r, days[n], policy), days, n + 1)
  {
    hide TradePnl, PayoutDue;
    var s := g.account;
    var entered := EnterDay(s.book, days[n]);
    if g.qualifiedDay == days[n] {
      var k :| 0 <= k < n && days[k] == days[n];
      assert days[n - 1] == days[n];
      assert s.book.won && entered.won;
    }
    assert days[n] == days[n];
  }

  ghost predicate SameAccounts(path: seq<real>, days: seq<int>, policy: Policy)
    requires |path| == |days|
  {
    forall n :: 0 <= n <= |days| ==>
      GuardedRun(path, days, policy, n).account == XfaRun(path, days, policy, n)
  }

  /** The condition is exact: for a scenario that risks anything at all, the guard is invisible on every
      path through these days if and only if no day is returned to. */
  lemma GuardInvisibleExactlyWhen(days: seq<int>, policy: Policy)
    requires policy.scenario.initial > 0.0 && policy.scenario.afterThreshold > 0.0
    ensures OneVisitPerDay(days) <==>
      forall path: seq<real> | |path| == |days| :: SameAccounts(path, days, policy)
  {
    if OneVisitPerDay(days) {
      forall path: seq<real> | |path| == |days| ensures SameAccounts(path, days, policy) {
        forall n | 0 <= n <= |days|
          ensures GuardedRun(path, days, policy, n).account == XfaRun(path, days, policy, n)
        {
          GuardNeverMatters(path, days, policy, n);
        }
      }
    } else {
      var path := RevealingPath(days, policy);
      assert !SameAccounts(path, days, policy);
    }
  }

  /** A flat path with one winning trade, or two on separate visits to the same day. */
  lemma RevealingPath(days: seq<int>, policy: Policy) returns (path: seq<real>)
    requires !OneVisitPerDay(days)
    requires policy.scenario.initial > 0.0 && policy.scenario.afterThreshold > 0.0
    ensures |path| == |days| && !SameAccounts(path, days, policy)
  {
    var r := WinningReturn(policy.scenario);
    var flat: seq<real> := seq(|days|, _ => 0.0);
    if exists t :: 0 <= t < |days| && days[t] == -1 {
      var t :| 0 <= t < |days| && days[t] == -1;
      path := flat[t := r];
      Quiet(path, days, policy, 0, t);
      Win(path, days, policy, t, r);
    } else {
      var i, k, t := FirstReturn(days);
      path := flat[i := r][t := r];
      Quiet(path, days, policy, 0, i);
      Win(path, days, policy, i, r);
      Quiet(path, days, policy, i + 1, t);
      Win(path, days, policy, t, r);
    }
  }

  lemma FirstReturn(days: seq<int>) returns (i: nat, k: nat, t: nat)
    requires exists i, k, t :: 0 <= i < k < t < |days| && days[i] == days[t] && days[k] != days[i]
    ensures i < k < t < |days| && days[i] == days[t] && days[k] != days[i] && days[t - 1] != days[t]
  {
    i, k, t :| 0 <= i < k < t < |days| && days[i] == days[t] && days[k] != days[i];
    while days[t - 1] == days[t]
      invariant i < k < t < |days| && days[i] == days[t] && days[k] != days[i]
      decreases t
    {
      t := t - 1;
    }
  }

  lemma WinningReturn(scenario: Scenario) returns (r: real)
    requires scenario.initial > 0.0 && scenario.afterThreshold > 0.0
    ensures forall balance :: TradePnl(r, balance, scenario) >= MIN_WINNING_DAY_PROFIT
  {
    var least := Min(scenario.initial, scenario.afterThreshold);
    r := 0.003 / least;
    assert r > 0.0 && r * least == 0.003;
    forall balance ensures TradePnl(r, balance, scenario) >= MIN_WINNING_DAY_PROFIT {
      var risk := GetRisk(balance, scenario);
      assert r * risk >= r * least;
      assert r * STARTING_BALANCE * risk == STARTING_BALANCE * (r * risk);
    }
  }

  /** Both runs agree, nothing has been lost or is about to count, and no payout can be due. */
  ghost predicate Calm(g: Guarded, s: XfaState) {
    && g.account == s && !s.failed && s.balance >= STARTING_BALANCE
    && s.winningDays <= 1 && !WinsNow(s.book)
  }

  ghost predicate CalmAt(path: seq<real>, days: seq<int>, policy: Policy, n: nat)
    requires n <= |path| && n <= |days|
  {
    Calm(GuardedRun(path, days, policy, n), XfaRun(path, days, policy, n))
  }

  /** Trades without profit or loss keep everything but the day. */
  lemma {:induction false} Quiet(path: seq<real>, days: seq<int>, policy: Policy, a: nat, n: nat)
    requires a <= n < |path| == |days|
    requires forall k :: a <= k < n ==> path[k] == 0.0
    requires a == 0 || CalmAt(path, days, policy, a)
    ensures CalmAt(path, days, policy, n)
    ensures n > a ==> XfaRun(path, days, policy, n).book.day == days[n - 1]
    ensures XfaRun(path, days, policy, n).winningDays == XfaRun(path, days, policy, a).winningDays
    ensures GuardedRun(path, days, policy, n).qualifiedDay == GuardedRun(path, days, policy, a).qualifiedDay
    ensures a == 0 ==> XfaRun(path, days, policy, n).book.pnl == 0.0 && !XfaRun(path, days, policy, n).book.won
    decreases n
  {
    if n > a {
      Quiet(path, days, policy, a, n - 1);
      hide XfaStep, GuardedStep, WinsNow;
      QuietStep(GuardedRun(path, days, policy, n - 1), days[n - 1], policy);
    }
  }

  lemma QuietStep(g: Guarded, day: int, policy: Policy)
    requires Calm(g, g.account)
    ensures var s, s' := g.account, XfaStep(g.account, 0.0, day, policy);
      && Calm(GuardedStep(g, 0.0, day, policy), s')
      && s'.book == EnterDay(s.book, day) && s'.winningDays == s.winningDays
      && GuardedStep(g, 0.0, day, policy).qualifiedDay == g.qualifiedDay
  {
    assert TradePnl(0.0, g.account.balance, policy.scenario) == 0.0;
    hide TradePnl, PayoutDue;
  }

  /** A winning trade on a fresh day counts, unless the guard remembers that day. */
  lemma Win(path: seq<real>, days: seq<int>, policy: Policy, n: nat, r: real)
    requires n < |path| == |days|
    requires CalmAt(path, days, policy, n) && XfaRun(path, days, policy, n).winningDays <= 1
    requires path[n] == r && forall balance :: TradePnl(r, balance, policy.scenario) >= MIN_WINNING_DAY_PROFIT
    requires var book := EnterDay(XfaRun(path, days, policy, n).book, days[n]); book.pnl == 0.0 && !book.won
    ensures XfaRun(path, days, policy, n + 1).winningDays == XfaRun(path, days, policy, n).winningDays + 1
    ensures var g := GuardedRun(path, days, policy, n);
      if g.qualifiedDay == days[n] then !SameAccounts(path, days, policy)
      else XfaRun(path, days, policy, n + 1).winningDays <= 1 ==>
        CalmAt(path, days, policy, n + 1) && GuardedRun(path, days, policy, n + 1).qualifiedDay == days[n]
  {
    hide TradePnl, PayoutDue;
    var s := XfaRun(path, days, policy, n);
    assert TradePnl(r, s.balance, policy.scenario) >= MIN_WINNING_DAY_PROFIT;
    assert XfaRun(path, days, policy, n + 1) == XfaStep(s, r, days[n], policy);
    assert GuardedRun(path, days, policy, n + 1)
        == GuardedStep(GuardedRun(path, days, policy, n), r, days[n], policy);
  }
}

/** The rules of the two funded-account games (the "Combine" and the "XFA" account), over exact
    arithmetic: risk sizing, running drawdown, and what one trade does to one account.

    The step and run functions here are the specification. The scalar simulators (FundedScalar) and
    the vectorised simulators (CombineBatch, XfaBatch) are separate imperative programs proved
    against them; what the games promise is proved about them in FundedTheorems.
 */
module FundedRules {
  import opened Options

  const STARTING_BALANCE: real := 50000.0
  const PROFIT_TARGET: real := 3000.0
  const MAX_LOSS_LIMIT: real := 2000.0
  const XFA_FIXED_LOSS_FLOOR: real := STARTING_BALANCE - MAX_LOSS_LIMIT
  const MIN_WINNING_DAYS: int := 5
  const MIN_WINNING_DAY_PROFIT: real := 150.0

  /** Risk fractions of the starting balance; `threshold` is the profit from which
      `afterThreshold` replaces `initial`. */
  datatype Scenario = Scenario(initial: real, afterThreshold: real, threshold: Option<real>)

  datatype Policy = Policy(scenario: Scenario, interval: int, amount: real)

  function GetRisk(balance: real, scenario: Scenario): real {
    if scenario.threshold.Some? && balance - STARTING_BALANCE >= scenario.threshold.value
    then scenario.afterThreshold
    else scenario.initial
  }

  function TradePnl(r: real, balance: real, scenario: Scenario): real {
    r * STARTING_BALANCE * GetRisk(balance, scenario)
  }

  function Max(a: real, b: real): real { if a >= b then a else b }

  function Min(a: real, b: real): real { if a <= b then a else b }

  // ---------------------------------------------------------------------------------------------
  // Drawdown
  // ---------------------------------------------------------------------------------------------

  /** The last entry of the running maximum of an equity curve. */
  function Peak(equity: seq<real>): real
    requires equity != []
  {
    var n := |equity| - 1;
    if n == 0 then equity[0] else Max(Peak(equity[..n]), equity[n])
  }

  /** The lowest distance of an equity curve below its running maximum (0 for an empty curve). */
  function MaxDrawdown(equity: seq<real>): real {
    if equity == [] then 0.0
    else
      var n := |equity| - 1;
      Min(MaxDrawdown(equity[..n]), equity[n] - Peak(equity))
  }

  lemma {:induction false} PeakIsLargest(equity: seq<real>)
    requires equity != []
    ensures forall i :: 0 <= i < |equity| ==> equity[i] <= Peak(equity)
    ensures exists i :: 0 <= i < |equity| && equity[i] == Peak(equity)
  {
    var n := |equity| - 1;
    if n == 0 {
      assert equity[0] == Peak(equity);
    } else {
      PeakIsLargest(equity[..n]);
      var i :| 0 <= i < n && equity[..n][i] == Peak(equity[..n]);
      assert equity[n] == Peak(equity) || equity[i] == Peak(equity);
    }
  }

  /** No fall from an earlier point to a later one is deeper than the reported drawdown, and some
      fall is exactly as deep: the drawdown is the worst peak-to-trough loss of the curve. */
  lemma {:induction false} MaxDrawdownIsWorstFall(equity: seq<real>)
    requires equity != []
    ensures forall i, j :: 0 <= i <= j < |equity| ==> MaxDrawdown(equity) <= equity[j] - equity[i]
    ensures exists i, j :: 0 <= i <= j < |equity| && MaxDrawdown(equity) == equity[j] - equity[i]
  {
    var n := |equity| - 1;
    var front := equity[..n];
    PeakIsLargest(equity);
    var p :| 0 <= p <= n && equity[p] == Peak(equity);
    assert MaxDrawdown(equity) == Min(MaxDrawdown(front), equity[n] - equity[p]);
    if n == 0 {
      assert front == [];
      assert MaxDrawdown(equity) == equity[0] - equity[0];
    } else {
      MaxDrawdownIsWorstFall(front);
      forall i, j | 0 <= i <= j < |equity| ensures MaxDrawdown(equity) <= equity[j] - equity[i] {
        if j < n {
          assert front[i] == equity[i] && front[j] == equity[j];
        }
      }
      if MaxDrawdown(equity) == equity[n] - equity[p] {
      } else {
        var i, j :| 0 <= i <= j < |front| && MaxDrawdown(front) == front[j] - front[i];
        assert MaxDrawdown(equity) == equity[j] - equity[i];
      }
    }
  }

  /** How the two values are carried forward when the curve grows by one point. */
  lemma DrawdownStep(equity: seq<real>, x: real)
    requires equity != []
    ensures Peak(equity + [x]) == Max(Peak(equity), x)
    ensures MaxDrawdown(equity + [x]) == Min(MaxDrawdown(equity), x - Peak(equity + [x]))
  {
    assert (equity + [x])[..|equity|] == equity;
  }

  lemma DrawdownAtEnd(equity: seq<real>)
    requires equity != []
    ensures MaxDrawdown(equity) <= equity[|equity| - 1] - Peak(equity)
  {
  }

  /** A matrix of at least `width` columns. */
  ghost predicate Wide<T>(rows: seq<seq<T>>, width: nat) {
    forall b :: 0 <= b < |rows| ==> |rows[b]| >= width
  }

  // ---------------------------------------------------------------------------------------------
  // The day counter shared by both games
  // ---------------------------------------------------------------------------------------------

  /** The profit of the current simulated day, and whether it has already counted as a winning day. */
  datatype DayBook = DayBook(day: int, pnl: real, won: bool)

  const NO_DAY := DayBook(-1, 0.0, false)

  function EnterDay(book: DayBook, day: int): DayBook {
    if day != book.day then DayBook(day, 0.0, false) else book
  }

  predicate WinsNow(book: DayBook) {
    !book.won && book.pnl >= MIN_WINNING_DAY_PROFIT
  }

  // ---------------------------------------------------------------------------------------------
  // Combine
  // ---------------------------------------------------------------------------------------------

  datatype CombineState = CombineState(
    balance: real, equity: seq<real>, trades: nat, failed: bool, passed: bool,
    winningDays: nat, book: DayBook)

  datatype CombineResult = CombineResult(
    passed: bool, failed: bool, trades: int, finalBalance: real, profit: real,
    maxDrawdown: real, winningDays: int)

  const COMBINE_START :=
    CombineState(STARTING_BALANCE, [STARTING_BALANCE], 0, false, false, 0, NO_DAY)

  predicate CombineOver(s: CombineState) { s.failed || s.passed }

  function CombineStep(s: CombineState, r: real, day: int, scenario: Scenario): CombineState {
    var entered := EnterDay(s.book, day);
    var pnl := TradePnl(r, s.balance, scenario);
    var balance := s.balance + pnl;
    var book := entered.(pnl := entered.pnl + pnl);
    var failed := balance <= STARTING_BALANCE - MAX_LOSS_LIMIT;
    CombineState(
      balance, s.equity + [balance], s.trades + 1, failed,
      !failed && balance >= STARTING_BALANCE + PROFIT_TARGET,
      if WinsNow(book) then s.winningDays + 1 else s.winningDays,
      if WinsNow(book) then book.(won := true) else book)
  }

  /** The account after the first `n` trades of the path, or after the trade that ended it. */
  function CombineRun(path: seq<real>, days: seq<int>, scenario: Scenario, n: nat): (s: CombineState)
    requires n <= |path| && n <= |days|
    ensures s.equity != []
  {
    if n == 0 then COMBINE_START
    else
      var s := CombineRun(path, days, scenario, n - 1);
      if CombineOver(s) then s else CombineStep(s, path[n - 1], days[n - 1], scenario)
  }

  function CombineReport(s: CombineState): CombineResult {
    CombineResult(s.passed, s.failed, s.trades, s.balance, s.balance - STARTING_BALANCE,
                  MaxDrawdown(s.equity), s.winningDays)
  }

  lemma CombineRunStarts(path: seq<real>, days: seq<int>, scenario: Scenario)
    ensures CombineRun(path, days, scenario, 0) == COMBINE_START
  {
  }

  lemma CombineRunNext(path: seq<real>, days: seq<int>, scenario: Scenario, n: nat)
    requires n < |path| && n < |days|
    requires !CombineOver(CombineRun(path, days, scenario, n))
    ensures CombineRun(path, days, scenario, n + 1)
         == CombineStep(CombineRun(path, days, scenario, n), path[n], days[n], scenario)
  {
    hide CombineStep;
  }

  lemma {:induction false} CombineRunStays(path: seq<real>, days: seq<int>, scenario: Scenario, n: nat, m: nat)
    requires n <= m <= |path| && m <= |days|
    requires CombineOver(CombineRun(path, days, scenario, n))
    ensures CombineRun(path, days, scenario, m) == CombineRun(path, days, scenario, n)
    decreases m
  {
    hide CombineStep;
    if n < m {
      CombineRunStays(path, days, scenario, n, m - 1);
    }
  }

  // ---------------------------------------------------------------------------------------------
  // XFA
  // ---------------------------------------------------------------------------------------------

  datatype XfaState = XfaState(
    balance: real, withdrawn: real, payouts: nat, winningDays: nat,
    failed: bool, trades: nat, book: DayBook, equity: seq<real>)

  datatype XfaResult = XfaResult(
    failed: bool, trades: int, finalBalance: real, totalWithdrawn: real, payouts: int,
    netValue: real, maxDrawdown: real)

  const XFA_START :=
    XfaState(STARTING_BALANCE, 0.0, 0, 0, false, 0, NO_DAY, [STARTING_BALANCE])

  /** The trade itself, before any payout: profit, equity point, winning day, loss floor. */
  function XfaTrade(s: XfaState, r: real, day: int, scenario: Scenario): XfaState {
    var entered := EnterDay(s.book, day);
    var pnl := TradePnl(r, s.balance, scenario);
    var balance := s.balance + pnl;
    var book := entered.(pnl := entered.pnl + pnl);
    s.(balance := balance,
       equity := s.equity + [balance],
       trades := s.trades + 1,
       winningDays := if WinsNow(book) then s.winningDays + 1 else s.winningDays,
       book := if WinsNow(book) then book.(won := true) else book,
       failed := balance <= XFA_FIXED_LOSS_FLOOR)
  }

  /** The amount a due payout would take out of this balance. */
  function PayoutAmount(balance: real, amount: real): real {
    Min(amount, Max(0.0, balance - STARTING_BALANCE))
  }

  /** Dividing by an interval of 0 leaves no remainder here, as it does (with a warning) in numpy. */
  predicate PayoutDue(trades: int, interval: int) {
    interval == 0 || trades % interval == 0
  }

  /** A payout is due every `interval` trades, once enough winning days have been collected. */
  function XfaPayout(s: XfaState, policy: Policy): XfaState {
    var actual := PayoutAmount(s.balance, policy.amount);
    if !s.failed && PayoutDue(s.trades, policy.interval) && s.winningDays >= MIN_WINNING_DAYS && actual > 0.0
    then s.(balance := s.balance - actual, withdrawn := s.withdrawn + actual,
            payouts := s.payouts + 1, winningDays := 0)
    else s
  }

  function XfaStep(s: XfaState, r: real, day: int, policy: Policy): XfaState {
    XfaPayout(XfaTrade(s, r, day, policy.scenario), policy)
  }

  /** The account after the first `n` trades of the path, or after the trade that failed it. */
  function XfaRun(path: seq<real>, days: seq<int>, policy: Policy, n: nat): (s: XfaState)
    requires n <= |path| && n <= |days|
    ensures s.equity != []
  {
    if n == 0 then XFA_START
    else
      var s := XfaRun(path, days, policy, n - 1);
      if s.failed then s else XfaStep(s, path[n - 1], days[n - 1], policy)
  }

  function XfaReport(s: XfaState): XfaResult {
    XfaResult(s.failed, s.trades, s.balance, s.withdrawn, s.payouts, s.balance + s.withdrawn,
              MaxDrawdown(s.equity))
  }

  lemma XfaRunStarts(path: seq<real>, days: seq<int>, policy: Policy)
    ensures XfaRun(path, days, policy, 0) == XFA_START
  {
  }

  lemma XfaRunNext(path: seq<real>, days: seq<int>, policy: Policy, n: nat)
    requires n < |path| && n < |days|
    requires !XfaRun(path, days, policy, n).failed
    ensures XfaRun(path, days, policy, n + 1)
         == XfaPayout(XfaTrade(XfaRun(path, days, policy, n), path[n], days[n], policy.scenario), policy)
  {
    hide XfaPayout, XfaTrade;
  }

  lemma {:induction false} XfaRunStays(path: seq<real>, days: seq<int>, policy: Policy, n: nat, m: nat)
    requires n <= m <= |path| && m <= |days|
    requires XfaRun(path, days, policy, n).failed
    ensures XfaRun(path, days, policy, m) == XfaRun(path, days, policy, n)
    decreases m
  {
    hide XfaStep;
    if n < m {
      XfaRunStays(path, days, policy, n, m - 1);
    }
  }

  /** While the account lives, it has made exactly one trade per step. */
  lemma {:induction false} XfaTradesCount(path: seq<real>, days: seq<int>, policy: Policy, n: nat)
    requires n <= |path| && n <= |days|
    ensures var s := XfaRun(path, days, policy, n);
      s.trades <= n && (!s.failed ==> s.trades == n) && (n > 0 ==> s.trades > 0)
  {
    if n > 0 {
      XfaTradesCount(path, days, policy, n - 1);
    }
  }
}

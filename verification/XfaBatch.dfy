/** The vectorised XFA simulator: one matrix per account quantity, a row per path and a column per
    payout policy, updated in place for all cells at once. Each `forall` statement is one whole-matrix
    statement of the program.

    Unlike the scalar simulator it also remembers the last day that counted as a winning day
    (`qualifiedDay`) and refuses to count that day again. The batch is proved equal to the scalar rules
    *with* that guard for every input (RunXfaBatch); when the guard can be dropped is proved in
    XfaParity.
 */
module XfaBatch {
  import opened FundedRules

  /** One cell of every matrix, read together. */
  datatype XCell = XCell(
    balance: real, withdrawn: real, payouts: int, winningDays: int, dayPnl: real, dayWon: bool,
    qualifiedDay: int, before: bool, active: bool, failed: bool, trades: int, peak: real, maxDd: real)

  const FRESH_XCELL := XCell(STARTING_BALANCE, 0.0, 0, 0, 0.0, false, -1, true, true, false, 0,
                             STARTING_BALANCE, 0.0)

  class XMatrices {
    const batch: nat
    const n: nat
    const balances: array2<real>
    const withdrawn: array2<real>
    const payouts: array2<int>
    const winningDays: array2<int>
    const dayPnl: array2<real>
    const dayWon: array2<bool>
    const qualifiedDay: array2<int>
    const before: array2<bool>
    const active: array2<bool>
    const failed: array2<bool>
    const trades: array2<int>
    const peak: array2<real>
    const maxDd: array2<real>
    const pnl: array2<real>
    const actual: array2<real>
    const pay: array2<bool>

    ghost const Repr: set<object> :=
      {balances as object, withdrawn as object, payouts as object, winningDays as object,
       dayPnl as object, dayWon as object, qualifiedDay as object, before as object, active as object,
       failed as object, trades as object, peak as object, maxDd as object, pnl as object,
       actual as object, pay as object}

    ghost predicate Shape<T>(a: array2<T>) {
      a.Length0 == batch && a.Length1 == n
    }

    ghost predicate Valid() {
      && Shape(balances) && Shape(withdrawn) && Shape(dayPnl) && Shape(peak) && Shape(maxDd)
      && Shape(pnl) && Shape(actual)
      && Shape(payouts) && Shape(winningDays) && Shape(qualifiedDay) && Shape(trades)
      && Shape(dayWon) && Shape(before) && Shape(active) && Shape(failed) && Shape(pay)
      && balances != withdrawn && balances != dayPnl && balances != peak && balances != maxDd
      && balances != pnl && balances != actual
      && withdrawn != dayPnl && withdrawn != peak && withdrawn != maxDd && withdrawn != pnl && withdrawn != actual
      && dayPnl != peak && dayPnl != maxDd && dayPnl != pnl && dayPnl != actual
      && peak != maxDd && peak != pnl && peak != actual
      && maxDd != pnl && maxDd != actual
      && pnl != actual
      && payouts != winningDays && payouts != qualifiedDay && payouts != trades
      && winningDays != qualifiedDay && winningDays != trades
      && qualifiedDay != trades
      && dayWon != before && dayWon != active && dayWon != failed && dayWon != pay
      && before != active && before != failed && before != pay
      && active != failed && active != pay
      && failed != pay
    }

    ghost predicate In(b: int, j: int) {
      0 <= b < batch && 0 <= j < n
    }

    ghost function At(b: int, j: int): XCell
      requires Valid() && In(b, j)
      reads Repr
    {
      XCell(balances[b, j], withdrawn[b, j], payouts[b, j], winningDays[b, j], dayPnl[b, j],
            dayWon[b, j], qualifiedDay[b, j], before[b, j], active[b, j], failed[b, j], trades[b, j],
            peak[b, j], maxDd[b, j])
    }

    constructor (batch: nat, n: nat)
      ensures Valid() && this.batch == batch && this.n == n
      ensures fresh(balances) && fresh(withdrawn) && fresh(payouts) && fresh(winningDays)
      ensures fresh(dayPnl) && fresh(dayWon)
      ensures fresh(qualifiedDay) && fresh(before) && fresh(active) && fresh(failed) && fresh(trades) && fresh(peak)
      ensures fresh(maxDd) && fresh(pnl) && fresh(actual) && fresh(pay)
    {
      this.batch, this.n := batch, n;
      balances := new real[batch, n];
      withdrawn := new real[batch, n];
      payouts := new int[batch, n];
      winningDays := new int[batch, n];
      dayPnl := new real[batch, n];
      dayWon := new bool[batch, n];
      qualifiedDay := new int[batch, n];
      before := new bool[batch, n];
      active := new bool[batch, n];
      failed := new bool[batch, n];
      trades := new int[batch, n];
      peak := new real[batch, n];
      maxDd := new real[batch, n];
      pnl := new real[batch, n];
      actual := new real[batch, n];
      pay := new bool[batch, n];
    }

    method FillMoney()
      requires Valid()
      modifies balances, withdrawn, dayPnl, peak, maxDd
      ensures forall b, j :: In(b, j) ==> balances[b, j] == STARTING_BALANCE
      ensures forall b, j :: In(b, j) ==> withdrawn[b, j] == 0.0
      ensures forall b, j :: In(b, j) ==> dayPnl[b, j] == 0.0
      ensures forall b, j :: In(b, j) ==> peak[b, j] == STARTING_BALANCE
      ensures forall b, j :: In(b, j) ==> maxDd[b, j] == 0.0
    {
      forall b, j | 0 <= b < batch && 0 <= j < n {
        balances[b, j] := STARTING_BALANCE;
      }
      forall b, j | 0 <= b < batch && 0 <= j < n {
        withdrawn[b, j] := 0.0;
      }
      forall b, j | 0 <= b < batch && 0 <= j < n {
        dayPnl[b, j] := 0.0;
      }
      forall b, j | 0 <= b < batch && 0 <= j < n {
        peak[b, j] := STARTING_BALANCE;
      }
      forall b, j | 0 <= b < batch && 0 <= j < n {
        maxDd[b, j] := 0.0;
      }
    }

    method FillCounts()
      requires Valid()
      modifies payouts, winningDays, qualifiedDay, trades
      ensures forall b, j :: In(b, j) ==> payouts[b, j] == 0
      ensures forall b, j :: In(b, j) ==> winningDays[b, j] == 0
      ensures forall b, j :: In(b, j) ==> qualifiedDay[b, j] == -1
      ensures forall b, j :: In(b, j) ==> trades[b, j] == 0
    {
      forall b, j | 0 <= b < batch && 0 <= j < n {
        payouts[b, j] := 0;
      }
      forall b, j | 0 <= b < batch && 0 <= j < n {
        winningDays[b, j] := 0;
      }
      forall b, j | 0 <= b < batch && 0 <= j < n {
        qualifiedDay[b, j] := -1;
      }
      forall b, j | 0 <= b < batch && 0 <= j < n {
        trades[b, j] := 0;
      }
    }

    method FillFlags()
      requires Valid()
      modifies dayWon, before, active, failed
      ensures forall b, j :: In(b, j) ==> !dayWon[b, j]
      ensures forall b, j :: In(b, j) ==> before[b, j]
      ensures forall b, j :: In(b, j) ==> active[b, j]
      ensures forall b, j :: In(b, j) ==> !failed[b, j]
    {
      forall b, j | 0 <= b < batch && 0 <= j < n {
        dayWon[b, j] := false;
      }
      forall b, j | 0 <= b < batch && 0 <= j < n {
        before[b, j] := true;
      }
      forall b, j | 0 <= b < batch && 0 <= j < n {
        active[b, j] := true;
      }
      forall b, j | 0 <= b < batch && 0 <= j < n {
        failed[b, j] := false;
      }
    }

    /** The state before the first trade. */
    method Fill()
      requires Valid()
      modifies Repr
      ensures forall b, j :: In(b, j) ==> At(b, j) == FRESH_XCELL
    {
      FillMoney();
      FillCounts();
      FillFlags();
    }

    method StartDay(newDay: seq<bool>)
      requires Valid() && |newDay| == batch
      modifies dayPnl, dayWon, before
      ensures forall b, j :: In(b, j) ==> At(b, j) == CellStartDay(old(At(b, j)), newDay[b])
    {
      forall b, j | 0 <= b < batch && 0 <= j < n && newDay[b] {
        dayPnl[b, j] := 0.0;
      }
      forall b, j | 0 <= b < batch && 0 <= j < n && newDay[b] {
        dayWon[b, j] := false;
      }
      forall b, j | 0 <= b < batch && 0 <= j < n {
        before[b, j] := active[b, j];
      }
    }

    method Trade(rs: seq<real>, policies: seq<Policy>)
      requires Valid() && |rs| == batch && |policies| == n
      modifies balances, trades, dayPnl, pnl
      ensures forall b, j :: In(b, j) ==>
        At(b, j) == CellTrade(old(At(b, j)), rs[b], policies[j].scenario)
    {
      hide TradePnl;
      forall b, j | 0 <= b < batch && 0 <= j < n {
        pnl[b, j] := if before[b, j] then TradePnl(rs[b], balances[b, j], policies[j].scenario) else 0.0;
      }
      forall b, j | 0 <= b < batch && 0 <= j < n {
        balances[b, j] := balances[b, j] + pnl[b, j];
      }
      forall b, j | 0 <= b < batch && 0 <= j < n && before[b, j] {
        trades[b, j] := trades[b, j] + 1;
      }
      forall b, j | 0 <= b < batch && 0 <= j < n {
        dayPnl[b, j] := dayPnl[b, j] + pnl[b, j];
      }
    }

    method CountDays(day: seq<int>)
      requires Valid() && |day| == batch
      modifies winningDays, qualifiedDay
      ensures forall b, j :: In(b, j) ==> At(b, j) == CellCountDay(old(At(b, j)), day[b])
    {
      forall b, j | 0 <= b < batch && 0 <= j < n
                    && before[b, j] && !dayWon[b, j] && dayPnl[b, j] >= MIN_WINNING_DAY_PROFIT
                    && qualifiedDay[b, j] != day[b] {
        winningDays[b, j] := winningDays[b, j] + 1;
      }
      forall b, j | 0 <= b < batch && 0 <= j < n
                    && before[b, j] && !dayWon[b, j] && dayPnl[b, j] >= MIN_WINNING_DAY_PROFIT
                    && qualifiedDay[b, j] != day[b] {
        qualifiedDay[b, j] := day[b];
      }
    }

    method CountWins(day: seq<int>)
      requires Valid() && |day| == batch
      modifies winningDays, qualifiedDay, dayWon
      ensures forall b, j :: In(b, j) ==> At(b, j) == CellCountWins(old(At(b, j)), day[b])
    {
      if exists b, j | 0 <= b < batch && 0 <= j < n ::
           before[b, j] && !dayWon[b, j] && dayPnl[b, j] >= MIN_WINNING_DAY_PROFIT {
        CountDays(day);
        forall b, j | 0 <= b < batch && 0 <= j < n
                      && before[b, j] && !dayWon[b, j] && dayPnl[b, j] >= MIN_WINNING_DAY_PROFIT {
          dayWon[b, j] := true;
        }
      }
    }

    method Fail()
      requires Valid()
      modifies failed, active
      ensures forall b, j :: In(b, j) ==> At(b, j) == CellFail(old(At(b, j)))
    {
      forall b, j | 0 <= b < batch && 0 <= j < n
                    && before[b, j] && balances[b, j] <= XFA_FIXED_LOSS_FLOOR {
        failed[b, j] := true;
      }
      forall b, j | 0 <= b < batch && 0 <= j < n
                    && before[b, j] && balances[b, j] <= XFA_FIXED_LOSS_FLOOR {
        active[b, j] := false;
      }
    }

    method Drawdown()
      requires Valid()
      modifies peak, maxDd
      ensures forall b, j :: In(b, j) ==> At(b, j) == CellDrawdown(old(At(b, j)))
    {
      forall b, j | 0 <= b < batch && 0 <= j < n {
        peak[b, j] := Max(peak[b, j], balances[b, j]);
      }
      forall b, j | 0 <= b < batch && 0 <= j < n {
        maxDd[b, j] := Min(maxDd[b, j], balances[b, j] - peak[b, j]);
      }
    }

    /** Which cells are due a payout now, and what it would take out. */
    method Assess(t: nat, policies: seq<Policy>)
      requires Valid() && |policies| == n
      modifies actual, pay
      ensures forall b, j :: In(b, j) ==> actual[b, j] == PayoutAmount(balances[b, j], policies[j].amount)
      ensures forall b, j :: In(b, j) ==>
        (pay[b, j] <==> CellDue(At(b, j), t + 1, policies[j]))
    {
      hide PayoutDue;
      forall b, j | 0 <= b < batch && 0 <= j < n {
        actual[b, j] := PayoutAmount(balances[b, j], policies[j].amount);
      }
      forall b, j | 0 <= b < batch && 0 <= j < n {
        pay[b, j] := active[b, j] && PayoutDue(t + 1, policies[j].interval)
                     && winningDays[b, j] >= MIN_WINNING_DAYS && actual[b, j] > 0.0;
      }
    }

    method Settle()
      requires Valid()
      modifies balances, withdrawn, payouts, winningDays
      ensures forall b, j :: In(b, j) ==>
        At(b, j) == if pay[b, j] then CellPaid(old(At(b, j)), actual[b, j]) else old(At(b, j))
    {
      forall b, j | 0 <= b < batch && 0 <= j < n && pay[b, j] {
        balances[b, j] := balances[b, j] - actual[b, j];
      }
      forall b, j | 0 <= b < batch && 0 <= j < n && pay[b, j] {
        withdrawn[b, j] := withdrawn[b, j] + actual[b, j];
      }
      forall b, j | 0 <= b < batch && 0 <= j < n && pay[b, j] {
        payouts[b, j] := payouts[b, j] + 1;
      }
      forall b, j | 0 <= b < batch && 0 <= j < n && pay[b, j] {
        winningDays[b, j] := 0;
      }
    }

    method PayOut(t: nat, policies: seq<Policy>)
      requires Valid() && |policies| == n
      modifies balances, withdrawn, payouts, winningDays, actual, pay
      ensures forall b, j :: In(b, j) ==> At(b, j) == CellPayOut(old(At(b, j)), t + 1, policies[j])
    {
      Assess(t, policies);
      Settle();
    }

    method Cap(maxTrades: int)
      requires Valid()
      modifies active
      ensures forall b, j :: In(b, j) ==> At(b, j) == CellCap(old(At(b, j)), maxTrades)
    {
      forall b, j | 0 <= b < batch && 0 <= j < n && trades[b, j] >= maxTrades {
        active[b, j] := false;
      }
    }

    /** The rest of one loop iteration, once the day has been entered. */
    method Advance(t: nat, day: seq<int>, rs: seq<real>, policies: seq<Policy>, maxTrades: int)
      requires Valid() && |rs| == batch && |day| == batch
      requires |policies| == n
      modifies Repr
      ensures forall b, j :: In(b, j) ==>
        At(b, j) == CellAdvance(old(At(b, j)), t, day[b], rs[b], policies[j], maxTrades)
    {
      hide CellTrade, CellCountWins, CellFail, CellDrawdown, CellPayOut, CellCap;
      Trade(rs, policies);
      CountWins(day);
      Fail();
      Drawdown();
      PayOut(t, policies);
      Cap(maxTrades);
    }

    /** The result dictionary: one entry per policy, holding that column of every matrix. */
    method Columns() returns (columns: seq<seq<XfaResult>>)
      requires Valid()
      ensures |columns| == n && forall j :: 0 <= j < n ==> |columns[j]| == batch
      ensures forall b, j :: In(b, j) ==> columns[j][b] == CellReport(At(b, j))
    {
      columns := seq(n, j requires 0 <= j < n
                        reads failed, trades, balances, withdrawn, payouts, maxDd =>
        seq(batch, b requires 0 <= b < batch
                   reads failed, trades, balances, withdrawn, payouts, maxDd =>
          XfaResult(failed[b, j], trades[b, j], balances[b, j], withdrawn[b, j], payouts[b, j],
                    balances[b, j] + withdrawn[b, j], maxDd[b, j])));
    }
  }

  // What each whole-matrix phase does to one cell.

  ghost function CellStartDay(c: XCell, newDay: bool): XCell {
    c.(dayPnl := if newDay then 0.0 else c.dayPnl, dayWon := !newDay && c.dayWon, before := c.active)
  }

  ghost function CellTrade(c: XCell, r: real, scenario: Scenario): XCell {
    if c.before then
      var pnl := TradePnl(r, c.balance, scenario);
      c.(balance := c.balance + pnl, trades := c.trades + 1, dayPnl := c.dayPnl + pnl)
    else c
  }

  ghost predicate CellWins(c: XCell) {
    c.before && !c.dayWon && c.dayPnl >= MIN_WINNING_DAY_PROFIT
  }

  ghost function CellCountDay(c: XCell, day: int): XCell {
    if CellWins(c) && c.qualifiedDay != day
    then c.(winningDays := c.winningDays + 1, qualifiedDay := day)
    else c
  }

  ghost function CellCountWins(c: XCell, day: int): XCell {
    if CellWins(c) then CellCountDay(c, day).(dayWon := true) else c
  }

  ghost function CellFail(c: XCell): XCell {
    if c.before && c.balance <= XFA_FIXED_LOSS_FLOOR then c.(failed := true, active := false) else c
  }

  ghost function CellDrawdown(c: XCell): XCell {
    var peak := Max(c.peak, c.balance);
    c.(peak := peak, maxDd := Min(c.maxDd, c.balance - peak))
  }

  ghost predicate CellDue(c: XCell, trade: int, policy: Policy) {
    && c.active && PayoutDue(trade, policy.interval) && c.winningDays >= MIN_WINNING_DAYS
    && PayoutAmount(c.balance, policy.amount) > 0.0
  }

  ghost function CellPaid(c: XCell, actual: real): XCell {
    c.(balance := c.balance - actual, withdrawn := c.withdrawn + actual,
       payouts := c.payouts + 1, winningDays := 0)
  }

  ghost function CellPayOut(c: XCell, trade: int, policy: Policy): XCell {
    if CellDue(c, trade, policy) then CellPaid(c, PayoutAmount(c.balance, policy.amount)) else c
  }

  ghost function CellCap(c: XCell, maxTrades: int): XCell {
    c.(active := c.active && c.trades < maxTrades)
  }

  ghost function CellAdvance(c: XCell, t: nat, day: int, r: real, policy: Policy, maxTrades: int): XCell {
    CellCap(CellPayOut(CellDrawdown(CellFail(CellCountWins(CellTrade(c, r, policy.scenario), day))),
                       t + 1, policy), maxTrades)
  }

  ghost function CellReport(c: XCell): XfaResult {
    XfaResult(c.failed, c.trades, c.balance, c.withdrawn, c.payouts, c.balance + c.withdrawn, c.maxDd)
  }

  // ---------------------------------------------------------------------------------------------
  // The scalar rules with the extra guard
  // ---------------------------------------------------------------------------------------------

  datatype Guarded = Guarded(account: XfaState, qualifiedDay: int)

  function GuardedTrade(g: Guarded, r: real, day: int, scenario: Scenario): Guarded {
    var traded := XfaTrade(g.account, r, day, scenario);
    if traded.winningDays == g.account.winningDays then Guarded(traded, g.qualifiedDay)
    else if g.qualifiedDay != day then Guarded(traded, day)
    else Guarded(traded.(winningDays := g.account.winningDays), day)
  }

  function GuardedStep(g: Guarded, r: real, day: int, policy: Policy): Guarded {
    var traded := GuardedTrade(g, r, day, policy.scenario);
    traded.(account := XfaPayout(traded.account, policy))
  }

  function GuardedRun(path: seq<real>, days: seq<int>, policy: Policy, n: nat): (g: Guarded)
    requires n <= |path| && n <= |days|
  {
    if n == 0 then Guarded(XFA_START, -1)
    else
      var g := GuardedRun(path, days, policy, n - 1);
      if g.account.failed then g else GuardedStep(g, path[n - 1], days[n - 1], policy)
  }

  lemma {:induction false} GuardedRunStays(path: seq<real>, days: seq<int>, policy: Policy, n: nat, m: nat)
    requires n <= m <= |path| && m <= |days|
    requires GuardedRun(path, days, policy, n).account.failed
    ensures GuardedRun(path, days, policy, m) == GuardedRun(path, days, policy, n)
    decreases m
  {
    hide GuardedStep;
    if n < m {
      GuardedRunStays(path, days, policy, n, m - 1);
    }
  }

  /** A running account has made one trade per step, and its day book is on the day of the last one. */
  lemma {:induction false} GuardedRunning(path: seq<real>, days: seq<int>, policy: Policy, t: nat)
    requires t <= |path| && t <= |days|
    ensures var s := GuardedRun(path, days, policy, t).account;
      !s.failed ==> s.trades == t && if t == 0 then s.book == NO_DAY else s.book.day == days[t - 1]
  {
    hide TradePnl, PayoutDue;
    if t > 0 {
      GuardedRunning(path, days, policy, t - 1);
    }
  }

  // ---------------------------------------------------------------------------------------------
  // One cell follows the guarded scalar rules
  // ---------------------------------------------------------------------------------------------

  /** The cell carries the account. Its day book only has to agree while the account is running, and
      its last equity point may have been paid out since. */
  ghost predicate Carries(c: XCell, g: Guarded, maxTrades: int) {
    var s := g.account;
    && s.equity != [] && s.balance <= s.equity[|s.equity| - 1]
    && (s.failed ==> s.balance == s.equity[|s.equity| - 1])
    && c.balance == s.balance && c.withdrawn == s.withdrawn && c.payouts == s.payouts
    && c.winningDays == s.winningDays && c.failed == s.failed && c.trades == s.trades
    && c.peak == Peak(s.equity) && c.maxDd == MaxDrawdown(s.equity)
    && c.active == (!s.failed && (s.trades == 0 || s.trades < maxTrades))
    && (c.active ==> c.dayPnl == s.book.pnl && c.dayWon == s.book.won && c.qualifiedDay == g.qualifiedDay)
  }

  lemma FreshCellCarries(maxTrades: nat)
    ensures Carries(FRESH_XCELL, Guarded(XFA_START, -1), maxTrades)
  {
    assert XFA_START.equity[..0] == [];
  }

  /** The cell carries an account between its trade and its payout. */
  ghost predicate CarriesTraded(c: XCell, g: Guarded) {
    var s := g.account;
    && s.equity != [] && s.balance == s.equity[|s.equity| - 1]
    && c.balance == s.balance && c.withdrawn == s.withdrawn && c.payouts == s.payouts
    && c.winningDays == s.winningDays && c.failed == s.failed && c.trades == s.trades
    && c.peak == Peak(s.equity) && c.maxDd == MaxDrawdown(s.equity)
    && c.active == !s.failed
    && c.dayPnl == s.book.pnl && c.dayWon == s.book.won && c.qualifiedDay == g.qualifiedDay
  }

  lemma CellTrades(c: XCell, g: Guarded, newDay: bool, r: real, day: int, scenario: Scenario, maxTrades: nat)
    requires Carries(c, g, maxTrades) && c.active
    requires (newDay <==> day != g.account.book.day) || (newDay && g.account.book == NO_DAY)
    ensures CarriesTraded(
      CellDrawdown(CellFail(CellCountWins(CellTrade(CellStartDay(c, newDay), r, scenario), day))),
      GuardedTrade(g, r, day, scenario))
  {
    hide TradePnl, MaxDrawdown, Peak;
    var s := g.account;
    DrawdownStep(s.equity, s.balance + TradePnl(r, s.balance, scenario));
  }

  lemma CellSettles(c: XCell, g: Guarded, policy: Policy, maxTrades: nat)
    requires CarriesTraded(c, g) && g.account.trades > 0
    ensures Carries(CellCap(CellPayOut(c, g.account.trades, policy), maxTrades),
                    g.(account := XfaPayout(g.account, policy)), maxTrades)
  {
    hide MaxDrawdown, Peak, PayoutDue;
  }

  lemma FailedCell(c: XCell, g: Guarded, newDay: bool, t: nat, r: real, day: int, policy: Policy, maxTrades: nat)
    requires Carries(c, g, maxTrades) && g.account.failed
    ensures Carries(CellAdvance(CellStartDay(c, newDay), t, day, r, policy, maxTrades), g, maxTrades)
  {
    hide TradePnl, MaxDrawdown, Peak, PayoutDue;
    PeakIsLargest(g.account.equity);
    DrawdownAtEnd(g.account.equity);
  }

  lemma CellFollowsRules(c: XCell, g: Guarded, newDay: bool, t: nat, r: real, day: int,
                         policy: Policy, maxTrades: nat)
    requires t < maxTrades
    requires Carries(c, g, maxTrades)
    requires !g.account.failed ==> g.account.trades == t
    requires c.active ==> (newDay <==> day != g.account.book.day) || (newDay && g.account.book == NO_DAY)
    ensures Carries(CellAdvance(CellStartDay(c, newDay), t, day, r, policy, maxTrades),
                    if g.account.failed then g else GuardedStep(g, r, day, policy), maxTrades)
  {
    if g.account.failed {
      FailedCell(c, g, newDay, t, r, day, policy, maxTrades);
    } else {
      hide CellTrade, CellCountWins, CellFail, CellDrawdown, CellPayOut, CellCap, CellStartDay, XfaPayout;
      CellTrades(c, g, newDay, r, day, policy.scenario, maxTrades);
      CellSettles(CellDrawdown(CellFail(CellCountWins(
                    CellTrade(CellStartDay(c, newDay), r, policy.scenario), day))),
                  GuardedTrade(g, r, day, policy.scenario), policy, maxTrades);
    }
  }

  lemma NextCell(c: XCell, newDay: bool, path: seq<real>, days: seq<int>, policy: Policy, t: nat, maxTrades: nat)
    requires t < maxTrades
    requires t < |path| && t < |days|
    requires Carries(c, GuardedRun(path, days, policy, t), maxTrades)
    requires newDay <==> t == 0 || days[t] != days[t - 1]
    ensures Carries(CellAdvance(CellStartDay(c, newDay), t, days[t], path[t], policy, maxTrades),
                    GuardedRun(path, days, policy, t + 1), maxTrades)
  {
    hide CellAdvance, CellStartDay, GuardedStep;
    GuardedRunning(path, days, policy, t);
    CellFollowsRules(c, GuardedRun(path, days, policy, t), newDay, t, path[t], days[t], policy, maxTrades);
  }

  /** Once every cell is masked, the rest of the path changes nothing. */
  lemma MaskedCell(c: XCell, newDay: bool, path: seq<real>, days: seq<int>, policy: Policy, t: nat, maxTrades: nat)
    requires t < maxTrades <= |path| && maxTrades <= |days|
    requires Carries(c, GuardedRun(path, days, policy, t), maxTrades)
    requires !CellStartDay(c, newDay).before
    ensures Carries(CellStartDay(c, newDay), GuardedRun(path, days, policy, maxTrades), maxTrades)
  {
    hide GuardedStep;
    GuardedRunning(path, days, policy, t);
    GuardedRunStays(path, days, policy, t, maxTrades);
  }

  lemma ReportedCell(c: XCell, g: Guarded, maxTrades: int)
    requires Carries(c, g, maxTrades)
    ensures CellReport(c) == XfaReport(g.account)
  {
  }

  // ---------------------------------------------------------------------------------------------
  // The batch simulator
  // ---------------------------------------------------------------------------------------------

  ghost predicate AllCarry(m: XMatrices, paths: seq<seq<real>>, days: seq<seq<int>>,
                           policies: seq<Policy>, t: nat, maxTrades: nat)
    requires m.Valid() && m.batch == |paths| == |days| && m.n == |policies|
    requires Wide(paths, t) && Wide(days, t)
    reads m.Repr
  {
    forall b, j :: m.In(b, j) ==>
      Carries(m.At(b, j), GuardedRun(paths[b], days[b], policies[j], t), maxTrades)
  }

  method Start(batch: nat, n: nat) returns (m: XMatrices)
    ensures m.Valid() && m.batch == batch && m.n == n
    ensures fresh(m) && fresh(m.Repr)
    ensures forall b, j :: m.In(b, j) ==> m.At(b, j) == FRESH_XCELL
  {
    m := new XMatrices(batch, n);
    m.Fill();
  }

  /** One iteration of the loop over trades; `stop` is the early exit when every cell is finished. */
  method Iterate(m: XMatrices, paths: seq<seq<real>>, days: seq<seq<int>>, policies: seq<Policy>,
                 t: nat, currentDay: seq<int>, maxTrades: nat)
    returns (stop: bool, day: seq<int>)
    requires m.Valid() && m.batch == |paths| == |days| == |currentDay| && m.n == |policies|
    requires t < maxTrades && Wide(paths, maxTrades) && Wide(days, maxTrades)
    requires t > 0 ==> forall b :: 0 <= b < |paths| ==> currentDay[b] == days[b][t - 1]
    requires AllCarry(m, paths, days, policies, t, maxTrades)
    modifies m.Repr
    ensures |day| == |paths| && forall b :: 0 <= b < |paths| ==> day[b] == days[b][t]
    ensures AllCarry(m, paths, days, policies, if stop then maxTrades else t + 1, maxTrades)
  {
    hide GuardedRun, CellAdvance, CellStartDay, Carries;
    day := seq(|paths|, b requires 0 <= b < |paths| => days[b][t]);
    var newDay := seq(|paths|, b requires 0 <= b < |paths| => t == 0 || day[b] != currentDay[b]);
    m.StartDay(newDay);
    stop := forall b, j | 0 <= b < m.batch && 0 <= j < m.n :: !m.before[b, j];
    if stop {
      forall b, j | m.In(b, j)
        ensures Carries(m.At(b, j), GuardedRun(paths[b], days[b], policies[j], maxTrades), maxTrades)
      {
        assert !m.At(b, j).before;
        MaskedCell(old(m.At(b, j)), newDay[b], paths[b], days[b], policies[j], t, maxTrades);
      }
      return;
    }
    var rs := seq(|paths|, b requires 0 <= b < |paths| => paths[b][t]);
    m.Advance(t, day, rs, policies, maxTrades);
    forall b, j | m.In(b, j)
      ensures Carries(m.At(b, j), GuardedRun(paths[b], days[b], policies[j], t + 1), maxTrades)
    {
      NextCell(old(m.At(b, j)), newDay[b], paths[b], days[b], policies[j], t, maxTrades);
    }
  }

  method RunXfaBatch(paths: seq<seq<real>>, days: seq<seq<int>>, policies: seq<Policy>, maxTrades: nat)
    returns (results: seq<seq<XfaResult>>)
    requires |days| == |paths| && Wide(paths, maxTrades) && Wide(days, maxTrades)
    ensures |results| == |policies|
    ensures forall j :: 0 <= j < |policies| ==> |results[j]| == |paths|
    ensures forall b, j :: 0 <= b < |paths| && 0 <= j < |policies| ==>
      results[j][b] == XfaReport(GuardedRun(paths[b], days[b], policies[j], maxTrades).account)
  {
    hide GuardedRun, CellReport, XfaReport, Carries;
    var m := Start(|paths|, |policies|);
    var currentDay := seq(|paths|, _ => -1);
    FreshCellCarries(maxTrades);
    forall b, j | m.In(b, j)
      ensures Carries(m.At(b, j), GuardedRun(paths[b], days[b], policies[j], 0), maxTrades)
    {
      GuardedRunStarts(paths[b], days[b], policies[j]);
    }
    var t := 0;
    var stop := false;
    while t < maxTrades && !stop
      invariant 0 <= t <= maxTrades
      invariant |currentDay| == |paths|
      invariant t > 0 && !stop ==> forall b :: 0 <= b < |paths| ==> currentDay[b] == days[b][t - 1]
      invariant AllCarry(m, paths, days, policies, if stop then maxTrades else t, maxTrades)
    {
      stop, currentDay := Iterate(m, paths, days, policies, t, currentDay, maxTrades);
      t := t + 1;
    }
    results := m.Columns();
    forall b, j | m.In(b, j)
      ensures results[j][b] == XfaReport(GuardedRun(paths[b], days[b], policies[j], maxTrades).account)
    {
      ReportedCell(m.At(b, j), GuardedRun(paths[b], days[b], policies[j], maxTrades), maxTrades);
    }
  }

  lemma GuardedRunStarts(path: seq<real>, days: seq<int>, policy: Policy)
    ensures GuardedRun(path, days, policy, 0) == Guarded(XFA_START, -1)
  {
  }
}

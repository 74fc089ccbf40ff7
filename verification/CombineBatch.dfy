/** The vectorised Combine simulator: one matrix per account quantity, a row per path and a column per
    scenario, updated in place for all cells at once. Each `forall` statement is one whole-matrix
    statement of the program; finished cells are masked by `before`/`active`, never removed.

    Cell (b, j) is proved to carry the account that the scalar rules give path b under scenario j.
 */
module CombineBatch {
  import opened FundedRules

  /** One cell of every matrix, read together. */
  datatype Cell = Cell(
    balance: real, peak: real, maxDd: real, winningDays: int, dayPnl: real, dayWon: bool,
    before: bool, active: bool, passed: bool, failed: bool, trades: int)

  const FRESH_CELL :=
    Cell(STARTING_BALANCE, STARTING_BALANCE, 0.0, 0, 0.0, false, true, true, false, false, 0)

  class Matrices {
    const batch: nat
    const n: nat
    const balances: array2<real>
    const peak: array2<real>
    const maxDd: array2<real>
    const winningDays: array2<int>
    const dayPnl: array2<real>
    const dayWon: array2<bool>
    const before: array2<bool>
    const active: array2<bool>
    const passed: array2<bool>
    const failed: array2<bool>
    const trades: array2<int>
    const pnl: array2<real>

    ghost const Repr: set<object> :=
      {balances as object, peak as object, maxDd as object, winningDays as object, dayPnl as object,
       dayWon as object, before as object, active as object, passed as object, failed as object,
       trades as object, pnl as object}

    ghost predicate Shape<T>(a: array2<T>) {
      a.Length0 == batch && a.Length1 == n
    }

    ghost predicate Valid() {
      && Shape(balances) && Shape(peak) && Shape(maxDd) && Shape(dayPnl) && Shape(pnl)
      && Shape(winningDays) && Shape(trades)
      && Shape(dayWon) && Shape(before) && Shape(active) && Shape(passed) && Shape(failed)
      && balances != peak && balances != maxDd && balances != dayPnl && balances != pnl
      && peak != maxDd && peak != dayPnl && peak != pnl
      && maxDd != dayPnl && maxDd != pnl && dayPnl != pnl
      && winningDays != trades
      && dayWon != before && dayWon != active && dayWon != passed && dayWon != failed
      && before != active && before != passed && before != failed
      && active != passed && active != failed && passed != failed
    }

    ghost predicate In(b: int, j: int) {
      0 <= b < batch && 0 <= j < n
    }

    ghost function At(b: int, j: int): Cell
      requires Valid() && In(b, j)
      reads Repr
    {
      Cell(balances[b, j], peak[b, j], maxDd[b, j], winningDays[b, j], dayPnl[b, j], dayWon[b, j],
           before[b, j], active[b, j], passed[b, j], failed[b, j], trades[b, j])
    }

    constructor (batch: nat, n: nat)
      ensures Valid() && this.batch == batch && this.n == n
      ensures fresh(balances) && fresh(peak) && fresh(maxDd) && fresh(winningDays) && fresh(dayPnl) && fresh(dayWon)
      ensures fresh(before) && fresh(active) && fresh(passed) && fresh(failed) && fresh(trades) && fresh(pnl)
    {
      this.batch, this.n := batch, n;
      balances := new real[batch, n];
      peak := new real[batch, n];
      maxDd := new real[batch, n];
      winningDays := new int[batch, n];
      dayPnl := new real[batch, n];
      dayWon := new bool[batch, n];
      before := new bool[batch, n];
      active := new bool[batch, n];
      passed := new bool[batch, n];
      failed := new bool[batch, n];
      trades := new int[batch, n];
      pnl := new real[batch, n];
    }

    method FillMoney()
      requires Valid()
      modifies balances, peak, maxDd, dayPnl
      ensures forall b, j :: In(b, j) ==> balances[b, j] == STARTING_BALANCE
      ensures forall b, j :: In(b, j) ==> peak[b, j] == STARTING_BALANCE
      ensures forall b, j :: In(b, j) ==> maxDd[b, j] == 0.0
      ensures forall b, j :: In(b, j) ==> dayPnl[b, j] == 0.0
    {
      forall b, j | 0 <= b < batch && 0 <= j < n {
        balances[b, j] := STARTING_BALANCE;
      }
      forall b, j | 0 <= b < batch && 0 <= j < n {
        peak[b, j] := STARTING_BALANCE;
      }
      forall b, j | 0 <= b < batch && 0 <= j < n {
        maxDd[b, j] := 0.0;
      }
      forall b, j | 0 <= b < batch && 0 <= j < n {
        dayPnl[b, j] := 0.0;
      }
    }

    method FillCounts()
      requires Valid()
      modifies winningDays, trades
      ensures forall b, j :: In(b, j) ==> winningDays[b, j] == 0
      ensures forall b, j :: In(b, j) ==> trades[b, j] == 0
    {
      forall b, j | 0 <= b < batch && 0 <= j < n {
        winningDays[b, j] := 0;
      }
      forall b, j | 0 <= b < batch && 0 <= j < n {
        trades[b, j] := 0;
      }
    }

    method FillFlags()
      requires Valid()
      modifies dayWon, before, active, passed, failed
      ensures forall b, j :: In(b, j) ==> !dayWon[b, j]
      ensures forall b, j :: In(b, j) ==> before[b, j]
      ensures forall b, j :: In(b, j) ==> active[b, j]
      ensures forall b, j :: In(b, j) ==> !passed[b, j]
      ensures forall b, j :: In(b, j) ==> !failed[b, j]
    {
      forall b, j | 0 <= b < batch && 0 <= j < n {
        dayWon[b, j] := false;
      }
      forall b, j | 0 <= b < batch && 0 <= j < n {
        before[b, j] := true;
      }
      forall b, j | 0 <= b < batch && 0 <= j < n {
        active[b, j] := true;
      }
      forall b, j | 0 <= b < batch && 0 <= j < n {
        passed[b, j] := false;
      }
      forall b, j | 0 <= b < batch && 0 <= j < n {
        failed[b, j] := false;
      }
    }

    /** The state before the first trade. */
    method Fill()
      requires Valid()
      modifies Repr
      ensures forall b, j :: In(b, j) ==> At(b, j) == FRESH_CELL
    {
      FillMoney();
      FillCounts();
      FillFlags();
    }

    method StartDay(newDay: seq<bool>)
      requires Valid() && |newDay| == batch
      modifies dayPnl, dayWon, before
      ensures forall b, j :: In(b, j) ==> At(b, j) == CellStartDay(old(At(b, j)), newDay[b])
    {
      forall b, j | 0 <= b < batch && 0 <= j < n && newDay[b] {
        dayPnl[b, j] := 0.0;
      }
      forall b, j | 0 <= b < batch && 0 <= j < n && newDay[b] {
        dayWon[b, j] := false;
      }
      forall b, j | 0 <= b < batch && 0 <= j < n {
        before[b, j] := active[b, j];
      }
    }

    method Trade(rs: seq<real>, scenarios: seq<Scenario>)
      requires Valid() && |rs| == batch && |scenarios| == n
      modifies balances, trades, dayPnl, pnl
      ensures forall b, j :: In(b, j) ==>
        At(b, j) == CellTrade(old(At(b, j)), rs[b], scenarios[j])
    {
      hide TradePnl;
      forall b, j | 0 <= b < batch && 0 <= j < n {
        pnl[b, j] := if before[b, j] then TradePnl(rs[b], balances[b, j], scenarios[j]) else 0.0;
      }
      forall b, j | 0 <= b < batch && 0 <= j < n {
        balances[b, j] := balances[b, j] + pnl[b, j];
      }
      forall b, j | 0 <= b < batch && 0 <= j < n && before[b, j] {
        trades[b, j] := trades[b, j] + 1;
      }
      forall b, j | 0 <= b < batch && 0 <= j < n {
        dayPnl[b, j] := dayPnl[b, j] + pnl[b, j];
      }
    }

    method CountWins()
      requires Valid()
      modifies winningDays, dayWon
      ensures forall b, j :: In(b, j) ==> At(b, j) == CellCountWins(old(At(b, j)))
    {
      forall b, j | 0 <= b < batch && 0 <= j < n
                    && before[b, j] && !dayWon[b, j] && dayPnl[b, j] >= MIN_WINNING_DAY_PROFIT {
        winningDays[b, j] := winningDays[b, j] + 1;
      }
      forall b, j | 0 <= b < batch && 0 <= j < n
                    && before[b, j] && !dayWon[b, j] && dayPnl[b, j] >= MIN_WINNING_DAY_PROFIT {
        dayWon[b, j] := true;
      }
    }

    method Finish()
      requires Valid()
      modifies failed, passed, active
      ensures forall b, j :: In(b, j) ==> At(b, j) == CellFinish(old(At(b, j)))
    {
      forall b, j | 0 <= b < batch && 0 <= j < n
                    && before[b, j] && balances[b, j] <= STARTING_BALANCE - MAX_LOSS_LIMIT {
        failed[b, j] := true;
      }
      forall b, j | 0 <= b < batch && 0 <= j < n
                    && before[b, j] && balances[b, j] <= STARTING_BALANCE - MAX_LOSS_LIMIT {
        active[b, j] := false;
      }
      forall b, j | 0 <= b < batch && 0 <= j < n
                    && active[b, j] && balances[b, j] >= STARTING_BALANCE + PROFIT_TARGET {
        passed[b, j] := true;
      }
      forall b, j | 0 <= b < batch && 0 <= j < n
                    && active[b, j] && balances[b, j] >= STARTING_BALANCE + PROFIT_TARGET {
        active[b, j] := false;
      }
    }

    method Drawdown()
      requires Valid()
      modifies peak, maxDd
      ensures forall b, j :: In(b, j) ==> At(b, j) == CellDrawdown(old(At(b, j)))
    {
      forall b, j | 0 <= b < batch && 0 <= j < n {
        peak[b, j] := Max(peak[b, j], balances[b, j]);
      }
      forall b, j | 0 <= b < batch && 0 <= j < n {
        maxDd[b, j] := Min(maxDd[b, j], balances[b, j] - peak[b, j]);
      }
    }

    /** The rest of one loop iteration, once the day has been entered. */
    method Advance(rs: seq<real>, scenarios: seq<Scenario>)
      requires Valid() && |rs| == batch && |scenarios| == n
      modifies Repr
      ensures forall b, j :: In(b, j) ==> At(b, j) == CellAdvance(old(At(b, j)), rs[b], scenarios[j])
    {
      hide CellTrade, CellCountWins, CellFinish, CellDrawdown;
      Trade(rs, scenarios);
      CountWins();
      Finish();
      Drawdown();
    }

    /** The result dictionary: one entry per scenario, holding that column of every matrix. */
    method Columns() returns (columns: seq<seq<CombineResult>>)
      requires Valid()
      ensures |columns| == n && forall j :: 0 <= j < n ==> |columns[j]| == batch
      ensures forall b, j :: In(b, j) ==> columns[j][b] == CellReport(At(b, j))
    {
      columns := seq(n, j requires 0 <= j < n
                        reads passed, failed, trades, balances, maxDd, winningDays =>
        seq(batch, b requires 0 <= b < batch
                   reads passed, failed, trades, balances, maxDd, winningDays =>
          CombineResult(passed[b, j], failed[b, j], trades[b, j], balances[b, j],
                        balances[b, j] - STARTING_BALANCE, maxDd[b, j], winningDays[b, j])));
    }
  }

  // What each whole-matrix phase does to one cell.

  ghost function CellStartDay(c: Cell, newDay: bool): Cell {
    c.(dayPnl := if newDay then 0.0 else c.dayPnl, dayWon := !newDay && c.dayWon, before := c.active)
  }

  ghost function CellTrade(c: Cell, r: real, scenario: Scenario): Cell {
    if c.before then
      var pnl := TradePnl(r, c.balance, scenario);
      c.(balance := c.balance + pnl, trades := c.trades + 1, dayPnl := c.dayPnl + pnl)
    else c
  }

  ghost function CellCountWins(c: Cell): Cell {
    if c.before && !c.dayWon && c.dayPnl >= MIN_WINNING_DAY_PROFIT
    then c.(winningDays := c.winningDays + 1, dayWon := true)
    else c
  }

  ghost function CellFinish(c: Cell): Cell {
    var lost := c.before && c.balance <= STARTING_BALANCE - MAX_LOSS_LIMIT;
    var hit := c.active && !lost && c.balance >= STARTING_BALANCE + PROFIT_TARGET;
    c.(failed := c.failed || lost, passed := c.passed || hit, active := c.active && !lost && !hit)
  }

  ghost function CellDrawdown(c: Cell): Cell {
    var peak := Max(c.peak, c.balance);
    c.(peak := peak, maxDd := Min(c.maxDd, c.balance - peak))
  }

  ghost function CellAdvance(c: Cell, r: real, scenario: Scenario): Cell {
    CellDrawdown(CellFinish(CellCountWins(CellTrade(c, r, scenario))))
  }

  ghost function CellReport(c: Cell): CombineResult {
    CombineResult(c.passed, c.failed, c.trades, c.balance, c.balance - STARTING_BALANCE, c.maxDd,
                  c.winningDays)
  }

  // ---------------------------------------------------------------------------------------------
  // One cell follows the scalar rules
  // ---------------------------------------------------------------------------------------------

  /** The cell carries the account. Its day book only has to agree while the account is running. */
  ghost predicate Carries(c: Cell, s: CombineState) {
    && s.equity != [] && s.equity[|s.equity| - 1] == s.balance
    && c.balance == s.balance && c.peak == Peak(s.equity) && c.maxDd == MaxDrawdown(s.equity)
    && c.winningDays == s.winningDays && c.trades == s.trades
    && c.passed == s.passed && c.failed == s.failed && c.active == !CombineOver(s)
    && (c.active ==> c.dayPnl == s.book.pnl && c.dayWon == s.book.won)
  }

  lemma FreshCellCarries()
    ensures Carries(FRESH_CELL, COMBINE_START)
  {
    assert COMBINE_START.equity[..0] == [];
  }

  lemma CellFollowsRules(c: Cell, s: CombineState, newDay: bool, r: real, day: int, scenario: Scenario)
    requires Carries(c, s)
    requires c.active ==> (newDay <==> day != s.book.day) || (newDay && s.book == NO_DAY)
    ensures Carries(CellAdvance(CellStartDay(c, newDay), r, scenario),
                    if CombineOver(s) then s else CombineStep(s, r, day, scenario))
  {
    hide TradePnl, MaxDrawdown, Peak;
    if CombineOver(s) {
      PeakIsLargest(s.equity);
      DrawdownAtEnd(s.equity);
    } else {
      DrawdownStep(s.equity, s.balance + TradePnl(r, s.balance, scenario));
    }
  }

  /** A running account's day book is on the day of its last trade. */
  lemma RunningDay(path: seq<real>, days: seq<int>, scenario: Scenario, t: nat)
    requires t <= |path| && t <= |days|
    ensures var s := CombineRun(path, days, scenario, t);
      !CombineOver(s) ==> if t == 0 then s.book == NO_DAY else s.book.day == days[t - 1]
  {
    hide TradePnl;
  }

  lemma NextCell(c: Cell, newDay: bool, path: seq<real>, days: seq<int>, scenario: Scenario, t: nat)
    requires t < |path| && t < |days|
    requires Carries(c, CombineRun(path, days, scenario, t))
    requires newDay <==> t == 0 || days[t] != days[t - 1]
    ensures Carries(CellAdvance(CellStartDay(c, newDay), path[t], scenario),
                    CombineRun(path, days, scenario, t + 1))
  {
    hide CellAdvance, CellStartDay, CombineStep;
    RunningDay(path, days, scenario, t);
    CellFollowsRules(c, CombineRun(path, days, scenario, t), newDay, path[t], days[t], scenario);
  }

  /** Once every cell is masked, the rest of the path changes nothing. */
  lemma MaskedCell(c: Cell, newDay: bool, path: seq<real>, days: seq<int>, scenario: Scenario, t: nat, m: nat)
    requires t <= m <= |path| && m <= |days|
    requires Carries(c, CombineRun(path, days, scenario, t))
    requires !CellStartDay(c, newDay).before
    ensures Carries(CellStartDay(c, newDay), CombineRun(path, days, scenario, m))
  {
    hide CombineStep;
    CombineRunStays(path, days, scenario, t, m);
  }

  // ---------------------------------------------------------------------------------------------
  // The batch simulator
  // ---------------------------------------------------------------------------------------------

  ghost predicate AllCarry(m: Matrices, paths: seq<seq<real>>, days: seq<seq<int>>,
                           scenarios: seq<Scenario>, t: nat)
    requires m.Valid() && m.batch == |paths| == |days| && m.n == |scenarios|
    requires Wide(paths, t) && Wide(days, t)
    reads m.Repr
  {
    forall b, j :: m.In(b, j) ==>
      Carries(m.At(b, j), CombineRun(paths[b], days[b], scenarios[j], t))
  }

  method Start(batch: nat, n: nat) returns (m: Matrices)
    ensures m.Valid() && m.batch == batch && m.n == n
    ensures fresh(m) && fresh(m.Repr)
    ensures forall b, j :: m.In(b, j) ==> m.At(b, j) == FRESH_CELL
  {
    m := new Matrices(batch, n);
    m.Fill();
  }

  /** One iteration of the loop over trades; `stop` is the early exit when every cell is finished. */
  method Iterate(m: Matrices, paths: seq<seq<real>>, days: seq<seq<int>>, scenarios: seq<Scenario>,
                 t: nat, currentDay: seq<int>, ghost maxTrades: nat)
    returns (stop: bool, day: seq<int>)
    requires m.Valid() && m.batch == |paths| == |days| == |currentDay| && m.n == |scenarios|
    requires t < maxTrades && Wide(paths, maxTrades) && Wide(days, maxTrades)
    requires t > 0 ==> forall b :: 0 <= b < |paths| ==> currentDay[b] == days[b][t - 1]
    requires AllCarry(m, paths, days, scenarios, t)
    modifies m.Repr
    ensures |day| == |paths| && forall b :: 0 <= b < |paths| ==> day[b] == days[b][t]
    ensures AllCarry(m, paths, days, scenarios, if stop then maxTrades else t + 1)
  {
    hide CombineRun, CellAdvance, CellStartDay, Carries;
    day := seq(|paths|, b requires 0 <= b < |paths| => days[b][t]);
    var newDay := seq(|paths|, b requires 0 <= b < |paths| => t == 0 || day[b] != currentDay[b]);
    m.StartDay(newDay);
    stop := forall b, j | 0 <= b < m.batch && 0 <= j < m.n :: !m.before[b, j];
    if stop {
      forall b, j | m.In(b, j)
        ensures Carries(m.At(b, j), CombineRun(paths[b], days[b], scenarios[j], maxTrades))
      {
        assert !m.At(b, j).before;
        MaskedCell(old(m.At(b, j)), newDay[b], paths[b], days[b], scenarios[j], t, maxTrades);
      }
      return;
    }
    var rs := seq(|paths|, b requires 0 <= b < |paths| => paths[b][t]);
    m.Advance(rs, scenarios);
    forall b, j | m.In(b, j)
      ensures Carries(m.At(b, j), CombineRun(paths[b], days[b], scenarios[j], t + 1))
    {
      NextCell(old(m.At(b, j)), newDay[b], paths[b], days[b], scenarios[j], t);
    }
  }

  method RunCombineBatch(paths: seq<seq<real>>, days: seq<seq<int>>, scenarios: seq<Scenario>, maxTrades: nat)
    returns (results: seq<seq<CombineResult>>)
    requires |days| == |paths| && Wide(paths, maxTrades) && Wide(days, maxTrades)
    ensures |results| == |scenarios|
    ensures forall j :: 0 <= j < |scenarios| ==> |results[j]| == |paths|
    ensures forall b, j :: 0 <= b < |paths| && 0 <= j < |scenarios| ==>
      results[j][b] == CombineReport(CombineRun(paths[b], days[b], scenarios[j], maxTrades))
  {
    hide CombineRun, CellReport, CombineReport, Carries;
    var m := Start(|paths|, |scenarios|);
    var currentDay := seq(|paths|, _ => -1);
    FreshCellCarries();
    forall b, j | m.In(b, j) ensures Carries(m.At(b, j), CombineRun(paths[b], days[b], scenarios[j], 0)) {
      CombineRunStarts(paths[b], days[b], scenarios[j]);
    }
    var t := 0;
    var stop := false;
    while t < maxTrades && !stop
      invariant 0 <= t <= maxTrades
      invariant |currentDay| == |paths|
      invariant t > 0 && !stop ==> forall b :: 0 <= b < |paths| ==> currentDay[b] == days[b][t - 1]
      invariant AllCarry(m, paths, days, scenarios, if stop then maxTrades else t)
    {
      stop, currentDay := Iterate(m, paths, days, scenarios, t, currentDay, maxTrades);
      t := t + 1;
    }
    results := m.Columns();
    forall b, j | m.In(b, j)
      ensures results[j][b] == CombineReport(CombineRun(paths[b], days[b], scenarios[j], maxTrades))
    {
      ReportedCell(m.At(b, j), CombineRun(paths[b], days[b], scenarios[j], maxTrades));
    }
  }

  lemma ReportedCell(c: Cell, s: CombineState)
    requires Carries(c, s)
    ensures CellReport(c) == CombineReport(s)
  {
  }
}

/** The two games told without their rules: what every trade of every run earns, which trades win their day,
    when a payout is made and how much it takes. Amounts and conditions are written out.
 */
module FundedWalks {
  import opened FundedRules

  /** What a trade with return `r` earns at this balance: a share of 50000, at the second risk from the
      threshold on and at the first one below it. */
  function Earned(r: real, balance: real, scenario: Scenario): real {
    r * 50000.0 * if scenario.threshold.Some? && balance - 50000.0 >= scenario.threshold.value
                  then scenario.afterThreshold else scenario.initial
  }

  lemma TradeEarns(r: real, balance: real, scenario: Scenario)
    ensures TradePnl(r, balance, scenario) == Earned(r, balance, scenario)
  {
  }

  // ---------------------------------------------------------------------------------------------
  // Winning days, told from the gains of the trades
  // ---------------------------------------------------------------------------------------------

  /** From trade `k` to trade `i` the day does not change. */
  ghost predicate SameStretch(days: seq<int>, k: nat, i: nat)
    requires k <= i < |days|
  {
    forall j :: k <= j <= i ==> days[j] == days[i]
  }

  /** The profit of the day up to trade `i`. */
  function DayProfit(gains: seq<real>, days: seq<int>, i: nat): real
    requires i < |gains| <= |days|
  {
    gains[i] + if i > 0 && days[i - 1] == days[i] then DayProfit(gains, days, i - 1) else 0.0
  }

  /** With trade `i` the profit of its day reaches 150 for the first time. */
  ghost predicate WinsDay(gains: seq<real>, days: seq<int>, i: nat)
    requires i < |gains| <= |days|
  {
    DayProfit(gains, days, i) >= 150.0
    && forall k: nat :: k < i && SameStretch(days, k, i) ==> DayProfit(gains, days, k) < 150.0
  }

  /** The trades from `first` on that win their day. */
  ghost function Wins(gains: seq<real>, days: seq<int>, first: nat): set<nat>
    requires |gains| <= |days|
  {
    set i: nat | first <= i < |gains| && WinsDay(gains, days, i)
  }

  lemma {:induction false} DayProfitOfFront(gains: seq<real>, days: seq<int>, gain: real, i: nat)
    requires i < |gains| < |days|
    ensures DayProfit(gains + [gain], days, i) == DayProfit(gains, days, i)
  {
    if i > 0 && days[i - 1] == days[i] {
      DayProfitOfFront(gains, days, gain, i - 1);
    }
  }

  lemma WinsDayOfFront(gains: seq<real>, days: seq<int>, gain: real, i: nat)
    requires i < |gains| < |days|
    ensures WinsDay(gains + [gain], days, i) <==> WinsDay(gains, days, i)
  {
    forall k: nat | k <= i ensures DayProfit(gains + [gain], days, k) == DayProfit(gains, days, k) {
      DayProfitOfFront(gains, days, gain, k);
    }
    hide DayProfit, SameStretch;
  }

  lemma OneMoreTrade(gains: seq<real>, days: seq<int>, gain: real, first: nat)
    requires first <= |gains| < |days|
    ensures |Wins(gains + [gain], days, first)|
         == |Wins(gains, days, first)| + if WinsDay(gains + [gain], days, |gains|) then 1 else 0
  {
    var n := |gains|;
    forall i: nat | i < n ensures WinsDay(gains + [gain], days, i) <==> WinsDay(gains, days, i) {
      WinsDayOfFront(gains, days, gain, i);
    }
    hide WinsDay;
    assert Wins(gains + [gain], days, first)
        == Wins(gains, days, first) + if WinsDay(gains + [gain], days, n) then {n} else {};
  }

  lemma NoTrades(gains: seq<real>, days: seq<int>)
    requires |gains| <= |days|
    ensures Wins(gains, days, |gains|) == {}
  {
  }

  /** The day book says what the gains say. */
  ghost predicate BookTells(book: DayBook, gains: seq<real>, days: seq<int>)
    requires |gains| <= |days|
  {
    var n := |gains|;
    if n == 0 then book == NO_DAY
    else
      && book.day == days[n - 1] && book.pnl == DayProfit(gains, days, n - 1)
      && (book.won <==> exists k: nat :: k < n && SameStretch(days, k, n - 1) && DayProfit(gains, days, k) >= 150.0)
  }

  /** The book a trade leaves. */
  function Booked(book: DayBook, day: int, gain: real): DayBook {
    var entered := EnterDay(book, day);
    entered.(pnl := entered.pnl + gain)
  }

  lemma BookedDay(book: DayBook, gains: seq<real>, days: seq<int>, gain: real)
    requires |gains| < |days| && BookTells(book, gains, days)
    ensures var n := |gains|;
            var b := Booked(book, days[n], gain);
            && b.day == days[n] && b.pnl == DayProfit(gains + [gain], days, n)
            && (b.won <==> n > 0 && days[n - 1] == days[n] && book.won)
  {
    var n := |gains|;
    if n > 0 {
      DayProfitOfFront(gains, days, gain, n - 1);
    }
  }

  /** Earlier trades of the stretch that reached 150. */
  lemma WonBefore(book: DayBook, gains: seq<real>, days: seq<int>, gain: real)
    requires |gains| < |days| && BookTells(book, gains, days)
    ensures var n := |gains|;
            (n > 0 && days[n - 1] == days[n] && book.won)
            <==> exists k: nat :: k < n && SameStretch(days, k, n) && DayProfit(gains + [gain], days, k) >= 150.0
  {
    var n := |gains|;
    forall k: nat | k < n ensures DayProfit(gains + [gain], days, k) == DayProfit(gains, days, k) {
      DayProfitOfFront(gains, days, gain, k);
    }
    forall k: nat | k < n
      ensures SameStretch(days, k, n) <==> days[n - 1] == days[n] && SameStretch(days, k, n - 1)
    {
      if SameStretch(days, k, n) {
        assert days[n - 1] == days[n];
      }
    }
    hide DayProfit, SameStretch;
    if n > 0 && days[n - 1] == days[n] && book.won {
      var k: nat :| k < n && SameStretch(days, k, n - 1) && DayProfit(gains, days, k) >= 150.0;
      assert SameStretch(days, k, n) && DayProfit(gains + [gain], days, k) >= 150.0;
    }
    if k: nat :| k < n && SameStretch(days, k, n) && DayProfit(gains + [gain], days, k) >= 150.0 {
      assert SameStretch(days, k, n - 1) && DayProfit(gains, days, k) >= 150.0;
    }
  }

  lemma BookOneMore(book: DayBook, gains: seq<real>, days: seq<int>, gain: real)
    requires |gains| < |days| && BookTells(book, gains, days)
    ensures var b := Booked(book, days[|gains|], gain);
            && (WinsNow(b) <==> WinsDay(gains + [gain], days, |gains|))
            && BookTells(if WinsNow(b) then b.(won := true) else b, gains + [gain], days)
  {
    var n := |gains|;
    BookedDay(book, gains, days, gain);
    WonBefore(book, gains, days, gain);
    hide DayProfit, Booked;
    assert SameStretch(days, n, n);
    var b, after := Booked(book, days[n], gain), gains + [gain];
    var last := if WinsNow(b) then b.(won := true) else b;
    if last.won {
      if DayProfit(after, days, n) >= 150.0 {
        assert n < |after| && SameStretch(days, n, n);
      }
    }
  }

  // ---------------------------------------------------------------------------------------------
  // Combine
  // ---------------------------------------------------------------------------------------------

  function Differences(equity: seq<real>): (gains: seq<real>)
    requires equity != []
  {
    seq(|equity| - 1, k requires 0 <= k < |equity| - 1 => equity[k + 1] - equity[k])
  }

  lemma OneMoreDifference(equity: seq<real>, x: real)
    requires equity != []
    ensures Differences(equity + [x]) == Differences(equity) + [x - equity[|equity| - 1]]
  {
  }

  /** Every point of the equity curve is the one before plus the trade's return at the risk that balance has;
      the curve ends at the balance; and the winning days are the days whose profit reached 150. */
  lemma {:induction false} CombineWalks(path: seq<real>, days: seq<int>, scenario: Scenario, n: nat)
    requires n <= |path| && n <= |days|
    ensures var s := CombineRun(path, days, scenario, n);
            && s.trades <= n && |s.equity| == s.trades + 1 && s.equity[0] == 50000.0 && s.balance == s.equity[s.trades]
            && (forall k :: 0 <= k < s.trades ==>
                  s.equity[k + 1] == s.equity[k] + Earned(path[k], s.equity[k], scenario))
            && s.winningDays == |Wins(Differences(s.equity), days, 0)|
            && (!CombineOver(s) ==> s.trades == n && BookTells(s.book, Differences(s.equity), days))
  {
    hide CombineStep, TradePnl, Earned, Wins, BookTells, Differences;
    if n == 0 {
      NothingCombined(days);
    } else {
      CombineWalks(path, days, scenario, n - 1);
      var s := CombineRun(path, days, scenario, n - 1);
      if !CombineOver(s) {
        CombineStepTells(s, path[n - 1], days, scenario);
        TradeEarns(path[n - 1], s.balance, scenario);
        CombineRunNext(path, days, scenario, n - 1);
      }
    }
  }

  lemma NothingCombined(days: seq<int>)
    ensures |Differences([STARTING_BALANCE])| == 0 && BookTells(NO_DAY, Differences([STARTING_BALANCE]), days)
    ensures Wins(Differences([STARTING_BALANCE]), days, 0) == {}
  {
  }

  lemma CombineStepTells(s: CombineState, r: real, days: seq<int>, scenario: Scenario)
    requires |s.equity| == s.trades + 1 && s.trades < |days| && s.balance == s.equity[s.trades]
    requires BookTells(s.book, Differences(s.equity), days)
    requires s.winningDays == |Wins(Differences(s.equity), days, 0)|
    ensures var gain := TradePnl(r, s.balance, scenario);
            var t := CombineStep(s, r, days[s.trades], scenario);
            && t.trades == s.trades + 1 && t.balance == s.balance + gain && t.equity == s.equity + [t.balance]
            && BookTells(t.book, Differences(t.equity), days)
            && t.winningDays == |Wins(Differences(t.equity), days, 0)|
  {
    var gain := TradePnl(r, s.balance, scenario);
    var gains := Differences(s.equity);
    OneMoreDifference(s.equity, s.balance + gain);
    BookOneMore(s.book, gains, days, gain);
    OneMoreTrade(gains, days, gain, 0);
    hide TradePnl, BookTells, Wins, WinsDay, Differences;
  }

  // ---------------------------------------------------------------------------------------------
  // XFA
  // ---------------------------------------------------------------------------------------------

  /** What the first `n` trades earned, each at the risk of the balance before it. */
  function XfaGains(path: seq<real>, days: seq<int>, policy: Policy, n: nat): (gains: seq<real>)
    requires n <= |path| && n <= |days|
    ensures |gains| == n
  {
    seq(n, k requires 0 <= k < n => TradePnl(path[k], XfaRun(path, days, policy, k).balance, policy.scenario))
  }

  lemma OneMoreGain(path: seq<real>, days: seq<int>, policy: Policy, n: nat)
    requires n < |path| && n < |days|
    ensures XfaGains(path, days, policy, n + 1)
         == XfaGains(path, days, policy, n)
            + [TradePnl(path[n], XfaRun(path, days, policy, n).balance, policy.scenario)]
  {
    hide TradePnl, XfaRun;
  }

  /** The number of trades before the current count of winning days began. */
  function LastPayout(path: seq<real>, days: seq<int>, policy: Policy, n: nat): (last: nat)
    requires n <= |path| && n <= |days|
    ensures last <= n
  {
    if n == 0 then 0
    else if XfaRun(path, days, policy, n).payouts != XfaRun(path, days, policy, n - 1).payouts then n
    else LastPayout(path, days, policy, n - 1)
  }

  /** The winning days collected since the last payout. */
  ghost function Collected(path: seq<real>, days: seq<int>, policy: Policy, n: nat, last: nat): nat
    requires n <= |path| && n <= |days|
  {
    |Wins(XfaGains(path, days, policy, n), days, last)|
  }

  /** Trade number `trade` ends an interval. */
  predicate OnSchedule(trade: int, interval: int) {
    interval == 0 || trade % interval == 0
  }

  lemma DueOnSchedule(trade: int, interval: int)
    ensures PayoutDue(trade, interval) <==> OnSchedule(trade, interval)
  {
  }

  /** A payout takes the whole amount, or else all that lies above the starting balance, whichever is less; it is
      made exactly on a date of the schedule, with five winning days, a positive amount, and a balance above
      the start. In every other case nothing is paid. */
  lemma PayoutExactly(s: XfaState, r: real, day: int, policy: Policy)
    ensures var profit := s.balance + Earned(r, s.balance, policy.scenario) - 50000.0;
            var traded, t := XfaTrade(s, r, day, policy.scenario), XfaStep(s, r, day, policy);
            var due := OnSchedule(s.trades + 1, policy.interval)
                       && traded.winningDays >= 5 && policy.amount > 0.0 && profit > 0.0;
            var taken := if !due then 0.0 else if policy.amount <= profit then policy.amount else profit;
            && t.trades == s.trades + 1 && t.equity == s.equity + [50000.0 + profit] && t.book == traded.book
            && (t.failed <==> profit <= -2000.0)
            && t.balance == 50000.0 + profit - taken && t.withdrawn == s.withdrawn + taken
            && t.payouts == s.payouts + (if due then 1 else 0)
            && t.winningDays == if due then 0 else traded.winningDays
  {
    TradeEarns(r, s.balance, policy.scenario);
    DueOnSchedule(s.trades + 1, policy.interval);
    hide TradePnl, Earned, OnSchedule, PayoutDue;
  }

  /** What a living account's winning days and day book are, over every run. */
  lemma {:induction false} XfaCollects(path: seq<real>, days: seq<int>, policy: Policy, n: nat)
    requires n <= |path| && n <= |days| && !XfaRun(path, days, policy, n).failed
    ensures var s := XfaRun(path, days, policy, n);
            && s.trades == n && BookTells(s.book, XfaGains(path, days, policy, n), days)
            && s.winningDays == Collected(path, days, policy, n, LastPayout(path, days, policy, n))
  {
    hide XfaStep, XfaTrade, XfaGains, BookTells, XfaRun, Collected, LastPayout, Earned, OnSchedule;
    if n == 0 {
      NothingTraded(path, days, policy);
    } else {
      LivedBefore(path, days, policy, n);
      XfaCollects(path, days, policy, n - 1);
      XfaTradeCollects(path, days, policy, n - 1);
      PayoutExactly(XfaRun(path, days, policy, n - 1), path[n - 1], days[n - 1], policy);
      XfaStepNext(path, days, policy, n - 1);
      CountFrom(path, days, policy, n);
    }
  }

  lemma NothingTraded(path: seq<real>, days: seq<int>, policy: Policy)
    ensures XfaRun(path, days, policy, 0) == XFA_START && LastPayout(path, days, policy, 0) == 0
    ensures BookTells(NO_DAY, XfaGains(path, days, policy, 0), days) && Collected(path, days, policy, 0, 0) == 0
  {
    assert Wins(XfaGains(path, days, policy, 0), days, 0) == {};
  }

  lemma LivedBefore(path: seq<real>, days: seq<int>, policy: Policy, n: nat)
    requires 0 < n <= |path| && n <= |days| && !XfaRun(path, days, policy, n).failed
    ensures !XfaRun(path, days, policy, n - 1).failed
  {
    hide XfaStep;
  }

  /** The count starts anew with a payout. */
  lemma CountFrom(path: seq<real>, days: seq<int>, policy: Policy, n: nat)
    requires 0 < n <= |path| && n <= |days|
    ensures Collected(path, days, policy, n, n) == 0
    ensures LastPayout(path, days, policy, n)
         == if XfaRun(path, days, policy, n).payouts != XfaRun(path, days, policy, n - 1).payouts then n
            else LastPayout(path, days, policy, n - 1)
  {
    hide XfaRun;
    NoTrades(XfaGains(path, days, policy, n), days);
  }

  lemma XfaStepNext(path: seq<real>, days: seq<int>, policy: Policy, n: nat)
    requires n < |path| && n < |days| && !XfaRun(path, days, policy, n).failed
    ensures XfaRun(path, days, policy, n + 1) == XfaStep(XfaRun(path, days, policy, n), path[n], days[n], policy)
  {
    hide XfaStep;
  }

  /** One more trade of a living account, before its payout. */
  lemma XfaTradeCollects(path: seq<real>, days: seq<int>, policy: Policy, n: nat)
    requires n < |path| && n < |days|
    requires var s := XfaRun(path, days, policy, n);
             && BookTells(s.book, XfaGains(path, days, policy, n), days)
             && s.winningDays == Collected(path, days, policy, n, LastPayout(path, days, policy, n))
    ensures var t := XfaTrade(XfaRun(path, days, policy, n), path[n], days[n], policy.scenario);
            && BookTells(t.book, XfaGains(path, days, policy, n + 1), days)
            && t.winningDays == Collected(path, days, policy, n + 1, LastPayout(path, days, policy, n))
  {
    hide TradePnl, BookTells, Wins, WinsDay, XfaGains, XfaRun;
    var s, gains := XfaRun(path, days, policy, n), XfaGains(path, days, policy, n);
    var gain := TradePnl(path[n], s.balance, policy.scenario);
    OneMoreGain(path, days, policy, n);
    BookOneMore(s.book, gains, days, gain);
    OneMoreTrade(gains, days, gain, LastPayout(path, days, policy, n));
  }

  /** Every trade of every run: what it does to the balance, and the payout that follows it or does not. */
  lemma XfaWalks(path: seq<real>, days: seq<int>, policy: Policy, k: nat)
    requires k < |path| && k < |days| && !XfaRun(path, days, policy, k).failed
    ensures var s, t := XfaRun(path, days, policy, k), XfaRun(path, days, policy, k + 1);
            var profit := s.balance + Earned(path[k], s.balance, policy.scenario) - 50000.0;
            var wins := Collected(path, days, policy, k + 1, LastPayout(path, days, policy, k));
            var due := OnSchedule(k + 1, policy.interval)
                       && wins >= 5 && policy.amount > 0.0 && profit > 0.0;
            var taken := if !due then 0.0 else if policy.amount <= profit then policy.amount else profit;
            && t.trades == k + 1 && t.equity == s.equity + [50000.0 + profit] && (t.failed <==> profit <= -2000.0)
            && t.balance == 50000.0 + profit - taken && t.withdrawn == s.withdrawn + taken
            && t.payouts == s.payouts + (if due then 1 else 0) && t.winningDays == if due then 0 else wins
  {
    hide XfaRun, XfaStep, XfaTrade, Collected, BookTells, Earned, OnSchedule, XfaGains, LastPayout;
    XfaCollects(path, days, policy, k);
    XfaTradeCollects(path, days, policy, k);
    PayoutExactly(XfaRun(path, days, policy, k), path[k], days[k], policy);
    XfaStepNext(path, days, policy, k);
  }

  // ---------------------------------------------------------------------------------------------
  // The reports
  // ---------------------------------------------------------------------------------------------

  /** What the two reports say of a run. */
  lemma ReportsTell(path: seq<real>, days: seq<int>, policy: Policy, n: nat)
    requires n <= |path| && n <= |days|
    ensures var s, r := XfaRun(path, days, policy, n), XfaReport(XfaRun(path, days, policy, n));
            && r.failed == s.failed && r.trades == s.trades && r.finalBalance == s.balance
            && r.totalWithdrawn == s.withdrawn && r.payouts == s.payouts && r.netValue == s.balance + s.withdrawn
            && (forall i, j :: 0 <= i <= j < |s.equity| ==> r.maxDrawdown <= s.equity[j] - s.equity[i])
            && exists i, j :: 0 <= i <= j < |s.equity| && r.maxDrawdown == s.equity[j] - s.equity[i]
    ensures var s := CombineRun(path, days, policy.scenario, n);
            var r := CombineReport(s);
            && r.passed == s.passed && r.failed == s.failed && r.trades == s.trades && r.finalBalance == s.balance
            && r.profit == s.balance - 50000.0 && r.winningDays == s.winningDays
            && (forall i, j :: 0 <= i <= j < |s.equity| ==> r.maxDrawdown <= s.equity[j] - s.equity[i])
            && exists i, j :: 0 <= i <= j < |s.equity| && r.maxDrawdown == s.equity[j] - s.equity[i]
  {
    MaxDrawdownIsWorstFall(XfaRun(path, days, policy, n).equity);
    MaxDrawdownIsWorstFall(CombineRun(path, days, policy.scenario, n).equity);
    hide MaxDrawdown, XfaRun, CombineRun;
  }
}

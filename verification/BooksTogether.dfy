/** The three position books driven side by side: the execution engine, the broker adapter and the backtest
    engine as objects, fed the same fills through their own methods.
 */
module BooksTogether {
  import opened Options
  import opened ExecutionTypes
  import opened ExecutionBook
  import opened ExecutionRuns
  import opened ExecutionEngine
  import opened PositionBooks
  import ExecutionLockstep

  /** An entry order, submitted while flat, and the one fill that will complete it. */
  datatype Trade = Trade(intent: Intent, fill: Fill)

  /** Orders for one strategy, each with its own intent and ids, and each fill on its order's side. */
  ghost predicate Playable(trades: seq<Trade>, strategy: string) {
    && (forall i :: 0 <= i < |trades| ==> FitsItsOrder(trades[i], strategy))
    && forall i, j :: 0 <= i < j < |trades| ==> Unrelated(trades[i], trades[j])
  }

  ghost predicate FitsItsOrder(t: Trade, strategy: string) {
    && t.intent.action.Enter? && t.intent.strategy == t.fill.strategy == strategy
    && SideOf(t.intent.signal) == Some(t.fill.side)
  }

  ghost predicate Unrelated(t: Trade, u: Trade) {
    t.intent != u.intent && t.fill.order != u.fill.order && t.fill.id != u.fill.id
  }

  function FillsOf(trades: seq<Trade>): seq<Fill> {
    seq(|trades|, i requires 0 <= i < |trades| => trades[i].fill)
  }

  /** The engine's order of a trade is submitted and unfilled. */
  ghost predicate EngineAwaits(orders: Orders, t: Trade) {
    t.fill.order in orders
    && orders[t.fill.order] == Order(t.fill.order, t.fill.strategy, t.fill.side, t.fill.quantity, Submitted, 0, None)
  }

  ghost predicate AdapterAwaits(orders: map<nat, BrokerOrder>, fills: seq<BrokerFill>, id: nat, t: Trade) {
    && id in orders && FilledOf(fills, id) == 0
    && orders[id] == BrokerOrder(id, BrokerRequest(t.fill.strategy, t.fill.side, t.fill.quantity), Submitted)
  }

  /** Every entry but this one is as before. */
  ghost predicate OthersKept<K(!new), V>(before: map<K, V>, after: map<K, V>, except: K) {
    forall k :: k in before && k != except ==> k in after && after[k] == before[k]
  }

  ghost predicate OthersFilled(before: seq<BrokerFill>, after: seq<BrokerFill>, except: nat) {
    forall k: nat :: k != except ==> FilledOf(after, k) == FilledOf(before, k)
  }

  /** The trades from `i` on still have both orders open and their fill ids unused. */
  ghost predicate Awaiting(orders: Orders, fillIds: set<string>, filed: map<nat, BrokerOrder>, fills: seq<BrokerFill>,
                           ids: seq<nat>, trades: seq<Trade>, i: nat)
    requires |ids| == |trades|
  {
    forall j :: i <= j < |trades| ==>
      && EngineAwaits(orders, trades[j]) && trades[j].fill.id !in fillIds
      && AdapterAwaits(filed, fills, ids[j], trades[j])
  }

  lemma StillAwaiting(orders: Orders, fillIds: set<string>, filed: map<nat, BrokerOrder>, fills: seq<BrokerFill>,
                      orders': Orders, fillIds': set<string>, filed': map<nat, BrokerOrder>, fills': seq<BrokerFill>,
                      ids: seq<nat>, trades: seq<Trade>, strategy: string, i: nat)
    requires |ids| == |trades| && i < |trades| && Playable(trades, strategy)
    requires forall j, k :: 0 <= j < k < |ids| ==> ids[j] != ids[k]
    requires Awaiting(orders, fillIds, filed, fills, ids, trades, i)
    requires OthersKept(orders, orders', trades[i].fill.order) && fillIds' <= fillIds + {trades[i].fill.id}
    requires OthersKept(filed, filed', ids[i]) && OthersFilled(fills, fills', ids[i])
    ensures Awaiting(orders', fillIds', filed', fills', ids, trades, i + 1)
  {
    hide FilledOf;
    forall j | i < j < |trades|
      ensures EngineAwaits(orders', trades[j]) && trades[j].fill.id !in fillIds'
              && AdapterAwaits(filed', fills', ids[j], trades[j])
    {
      assert Unrelated(trades[i], trades[j]) && ids[i] != ids[j];
    }
  }

  lemma NextAwaits(orders: Orders, fillIds: set<string>, filed: map<nat, BrokerOrder>, fills: seq<BrokerFill>,
                   ids: seq<nat>, trades: seq<Trade>, strategy: string, i: nat)
    requires |ids| == |trades| && i < |trades| && Playable(trades, strategy)
    requires Awaiting(orders, fillIds, filed, fills, ids, trades, i)
    ensures EngineAwaits(orders, trades[i]) && trades[i].fill.id !in fillIds
    ensures AdapterAwaits(filed, fills, ids[i], trades[i]) && trades[i].fill.strategy == strategy
  {
    hide FilledOf;
    assert FitsItsOrder(trades[i], strategy);
  }

  // ---------------------------------------------------------------------------------------------
  // One order, one fill
  // ---------------------------------------------------------------------------------------------

  method SubmitBoth(engine: Engine, adapter: BrokerAdapter, t: Trade) returns (id: nat)
    requires FitsItsOrder(t, t.fill.strategy)
    requires engine.broker == null && engine.positions == map[] && t.intent !in engine.intents
    requires adapter.Valid() && adapter.connected && adapter.fills == []
    modifies engine, adapter
    ensures engine.broker == null && engine.positions == map[] && engine.fillIds == old(engine.fillIds)
    ensures engine.intents == old(engine.intents) + {t.intent}
    ensures EngineAwaits(engine.orders, t)
    ensures engine.orders == old(engine.orders)[t.fill.order := engine.orders[t.fill.order]]
    ensures adapter.Valid() && adapter.connected && adapter.fills == [] && adapter.positions == old(adapter.positions)
    ensures AdapterAwaits(adapter.orders, adapter.fills, id, t)
    ensures id !in old(adapter.orders) && adapter.orders == old(adapter.orders)[id := adapter.orders[id]]
  {
    var placed := engine.SubmitEntry(t.intent, t.fill.quantity, t.fill.order);
    var filed := adapter.SubmitOrder(BrokerRequest(t.fill.strategy, t.fill.side, t.fill.quantity));
    id := filed.value.id;
  }

  lemma FillIdsOnly(b: Book, f: Fill)
    ensures ProcessBrokerFill(b, f).book.fillIds <= b.fillIds + {f.id}
  {
    hide CheckFill, AddPositionFill;
  }

  /** The engine takes or refuses the fill as its position moves, and touches no other order. */
  lemma EngineTakes(b: Book, t: Trade)
    requires EngineAwaits(b.orders, t) && t.fill.id !in b.fillIds && Keyed(b)
    ensures var step, moved := ProcessBrokerFill(b, t.fill), EngineMove(Get(b.positions, t.fill.strategy), t.fill);
            && (step.result.Ok? <==> moved.Ok?)
            && Get(step.book.positions, t.fill.strategy)
                 == (if moved.Ok? then moved.value else Get(b.positions, t.fill.strategy))
            && Keyed(step.book) && step.book.fillIds <= b.fillIds + {t.fill.id}
            && OthersKept(b.orders, step.book.orders, t.fill.order)
  {
    CheckFillExactly(b, t.fill);
    CheckedOrder(b, t.fill);
    FillIdsOnly(b, t.fill);
    EngineMovesPosition(b, t.fill);
    ExecutionLockstep.EngineWrites(b, t.fill);
    hide ProcessBrokerFill, CheckFill, EngineMove;
  }

  method FeedThree(engine: Engine, adapter: BrokerAdapter, backtest: BacktestEngine, t: Trade, id: nat)
    returns (taken: bool)
    requires EngineAwaits(engine.orders, t) && t.fill.id !in engine.fillIds && Keyed(engine.View())
    requires adapter.Valid() && adapter.connected && AdapterAwaits(adapter.orders, adapter.fills, id, t)
    requires backtest.Valid()
    requires Agree(Get(engine.positions, t.fill.strategy), Get(adapter.positions, t.fill.strategy),
                   Get(backtest.positions, t.fill.strategy))
    modifies engine, adapter, backtest
    ensures engine.broker == old(engine.broker) && Keyed(engine.View())
    ensures engine.fillIds <= old(engine.fillIds) + {t.fill.id}
    ensures OthersKept(old(engine.orders), engine.orders, t.fill.order)
    ensures adapter.Valid() && adapter.connected && backtest.Valid()
    ensures OthersKept(old(adapter.orders), adapter.orders, id)
    ensures OthersFilled(old(adapter.fills), adapter.fills, id)
    ensures var moved := EngineMove(old(Get(engine.positions, t.fill.strategy)), t.fill);
            && (taken <==> moved.Ok?)
            && Get(engine.positions, t.fill.strategy)
                 == if taken then moved.value else old(Get(engine.positions, t.fill.strategy))
    ensures Agree(Get(engine.positions, t.fill.strategy), Get(adapter.positions, t.fill.strategy),
                  Get(backtest.positions, t.fill.strategy))
  {
    ghost var strategy, before := t.fill.strategy, engine.View();
    EngineTakes(before, t);
    OneFillAgrees(Get(engine.positions, strategy), Get(adapter.positions, strategy), Get(backtest.positions, strategy),
                  t.fill, ToBacktest(t.fill));
    hide ProcessBrokerFill, EngineMove, AdapterPosition, BacktestMove, Agree, FilledOf, Booked, PositionsBooked,
         OrdersFilled, FillsBooked, PositionsNamed, OthersKept, Keyed;
    var byEngine := engine.ProcessBrokerFill(t.fill);
    AdapterFeeds(adapter, id, t);
    var byBacktest := backtest.ApplyFill(ToBacktest(t.fill));
    taken := byEngine.Ok?;
  }

  method AdapterFeeds(adapter: BrokerAdapter, id: nat, t: Trade)
    requires adapter.Valid() && adapter.connected && AdapterAwaits(adapter.orders, adapter.fills, id, t)
    modifies adapter
    ensures adapter.Valid() && adapter.connected
    ensures OthersKept(old(adapter.orders), adapter.orders, id)
    ensures OthersFilled(old(adapter.fills), adapter.fills, id)
    ensures var held := old(Get(adapter.positions, t.fill.strategy));
            && (held.Some? ==> held.value.quantity > 0)
            && var moved := AdapterPosition(held, t.fill.strategy, t.fill.side, t.fill.quantity, t.fill.price);
               Get(adapter.positions, t.fill.strategy) == if moved.Ok? then moved.value else held
  {
    hide AdapterPosition, FilledOf, Booked, PositionsBooked, OrdersFilled, FillsBooked;
    var r := adapter.ProcessFill(id, t.fill.quantity, t.fill.price);
    ghost var n := |adapter.fills| - 1;
    FilledOfNext(adapter.fills[..n], adapter.fills[n]);
    assert adapter.fills == adapter.fills[..n] + [adapter.fills[n]];
  }

  // ---------------------------------------------------------------------------------------------
  // All of them
  // ---------------------------------------------------------------------------------------------

  lemma FeedNext(fills: seq<Fill>, i: nat)
    requires i < |fills|
    ensures var e := EngineMove(Feed(fills[..i]).engine, fills[i]);
            Feed(fills[..i + 1]).engine == if e.Ok? then e.value else Feed(fills[..i]).engine
  {
    hide EngineMove, AdapterPosition, BacktestMove;
    assert fills[..i + 1][..i] == fills[..i];
  }

  /** Submits every order to the engine and the adapter while both are flat. */
  method SubmitAll(engine: Engine, adapter: BrokerAdapter, trades: seq<Trade>, strategy: string)
    returns (ids: seq<nat>)
    requires Playable(trades, strategy)
    requires engine.View() == EMPTY && engine.broker == null
    requires adapter.Valid() && adapter.connected && adapter.fills == [] && adapter.positions == map[]
    modifies engine, adapter
    ensures engine.broker == null && engine.positions == map[] && engine.fillIds == {} && Keyed(engine.View())
    ensures adapter.Valid() && adapter.connected && adapter.fills == [] && adapter.positions == map[]
    ensures |ids| == |trades| && (forall j, k :: 0 <= j < k < |ids| ==> ids[j] != ids[k])
    ensures Awaiting(engine.orders, {}, adapter.orders, adapter.fills, ids, trades, 0)
  {
    hide FilledOf, Booked, PositionsBooked, OrdersFilled, FillsBooked, PositionsNamed;
    ids := [];
    for i := 0 to |trades|
      invariant engine.broker == null && engine.positions == map[] && engine.fillIds == {} && Keyed(engine.View())
      invariant adapter.Valid() && adapter.connected && adapter.fills == [] && adapter.positions == map[]
      invariant forall j :: i <= j < |trades| ==> trades[j].intent !in engine.intents
      invariant |ids| == i && (forall j, k :: 0 <= j < k < i ==> ids[j] != ids[k])
      invariant forall j :: 0 <= j < i ==>
                  && EngineAwaits(engine.orders, trades[j])
                  && AdapterAwaits(adapter.orders, adapter.fills, ids[j], trades[j])
    {
      assert FitsItsOrder(trades[i], strategy);
      assert forall j :: 0 <= j < |trades| && j != i ==>
               Unrelated(trades[j], trades[i]) || Unrelated(trades[i], trades[j]);
      var id := SubmitBoth(engine, adapter, trades[i]);
      ids := ids + [id];
    }
  }

  /** Whatever fills are fed to the three objects, over-closing ones included, they hold the same side, quantity
      and average in the end, and it is what the fills determine. */
  method DriveThreeBooks(trades: seq<Trade>, strategy: string)
    returns (engine: Option<Position>, adapter: Option<BrokerPosition>, backtest: Option<BacktestPosition>)
    requires Playable(trades, strategy)
    ensures Agree(engine, adapter, backtest)
    ensures engine == Feed(FillsOf(trades)).engine
  {
    var e := new Engine(null);
    var a := new BrokerAdapter();
    var t := new BacktestEngine(map[], 0.0, 0.0);
    a.SetConnected(true);
    var ids := SubmitAll(e, a, trades, strategy);
    var fills := FillsOf(trades);
    hide Feed, FilledOf, Agree, EngineMove, Booked, PositionsBooked, OrdersFilled, FillsBooked, PositionsNamed,
         Awaiting, OthersKept, OthersFilled, Keyed, BacktestEngine.Valid, Playable;
    Flat();
    for i := 0 to |trades|
      invariant Keyed(e.View()) && a.Valid() && a.connected && t.Valid()
      invariant Awaiting(e.orders, e.fillIds, a.orders, a.fills, ids, trades, i)
      invariant Agree(Get(e.positions, strategy), Get(a.positions, strategy), Get(t.positions, strategy))
      invariant Get(e.positions, strategy) == Feed(fills[..i]).engine
    {
      ghost var orders, fillIds, filed, filled := e.orders, e.fillIds, a.orders, a.fills;
      NextAwaits(orders, fillIds, filed, filled, ids, trades, strategy, i);
      var taken := FeedThree(e, a, t, trades[i], ids[i]);
      StillAwaiting(orders, fillIds, filed, filled, e.orders, e.fillIds, a.orders, a.fills, ids, trades, strategy, i);
      FeedNext(fills, i);
    }
    assert fills[..|trades|] == fills;
    engine, adapter, backtest := Get(e.positions, strategy), Get(a.positions, strategy), Get(t.positions, strategy);
  }

  lemma Flat()
    ensures Agree(None, None, None) && Feed([]).engine == None
  {
  }
}

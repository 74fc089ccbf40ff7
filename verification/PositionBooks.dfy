/** Three independent position books: the execution engine's, the in-memory broker adapter's and the
    backtest engine's. Each is modelled from its own code; fed the same fills for one key they hold the
    same side, quantity and average price, and refuse the same fills.
 */
module PositionBooks {
  import opened Options
  import opened ExecutionTypes
  import opened ExecutionBook

  /** What a book holds for one key. */
  datatype Holding = Nothing | Held(side: Side, quantity: int, average: real)

  /** The average of a holding and an addition to it, total notional over total quantity. */
  function Weighted(average: real, quantity: real, price: real, more: real): real
    requires quantity + more > 0.0
  {
    (average * quantity + price * more) / (quantity + more)
  }

  // ---------------------------------------------------------------------------------------------
  // The broker adapter
  // ---------------------------------------------------------------------------------------------

  datatype BrokerPosition = BrokerPosition(strategy: string, symbol: string, side: Side, quantity: int,
                                           average: real)

  datatype BrokerRequest = BrokerRequest(strategy: string, side: Side, quantity: int)

  datatype BrokerOrder = BrokerOrder(id: nat, request: BrokerRequest, status: OrderStatus)

  datatype BrokerFill = BrokerFill(order: nat, id: nat, quantity: int, price: real, side: Side)

  const SYMBOL := "MNQ.v.0"

  function AdapterPosition(existing: Option<BrokerPosition>, strategy: string, side: Side, quantity: int,
                           price: real): Result<Option<BrokerPosition>>
    requires quantity > 0 && (existing.Some? ==> existing.value.quantity > 0)
  {
    if existing.None? then Ok(Some(BrokerPosition(strategy, SYMBOL, side, quantity, price)))
    else
      var e := existing.value;
      if e.side == side then
        var total := e.quantity + quantity;
        Ok(Some(BrokerPosition(strategy, e.symbol, e.side, total,
                               Weighted(e.average, e.quantity as real, price, quantity as real))))
      else if quantity > e.quantity then Err(ExceedsPosition)
      else if e.quantity - quantity == 0 then Ok(None)
      else Ok(Some(BrokerPosition(strategy, e.symbol, e.side, e.quantity - quantity, e.average)))
  }

  function FilledOf(fills: seq<BrokerFill>, order: nat): int {
    if fills == [] then 0
    else FilledOf(fills[..|fills| - 1], order)
         + if fills[|fills| - 1].order == order then fills[|fills| - 1].quantity else 0
  }

  lemma FilledOfNext(fills: seq<BrokerFill>, f: BrokerFill)
    ensures forall k: nat :: FilledOf(fills + [f], k) == FilledOf(fills, k) + if f.order == k then f.quantity else 0
  {
    assert (fills + [f])[..|fills|] == fills;
  }

  /** What a recorded fill means for a position: whose it is, and which way it goes. */
  datatype Booking = Booking(strategy: string, side: Side, quantity: int)

  /** The fill is on the other side of the net, and larger. */
  predicate OverCloses(net: int, side: Side, quantity: int) {
    if side.Long? then net < 0 && quantity > -net else net > 0 && quantity > net
  }

  /** The signed sum of a strategy's recorded fills, less those that would over-close it. */
  function Booked(bookings: seq<Booking>, strategy: string): int {
    if bookings == [] then 0
    else
      var n := |bookings| - 1;
      var net, last := Booked(bookings[..n], strategy), bookings[n];
      if last.strategy != strategy || OverCloses(net, last.side, last.quantity) then net
      else net + Signed(last.side, last.quantity)
  }

  function SignedPosition(p: Option<BrokerPosition>): int {
    if p.None? then 0 else Signed(p.value.side, p.value.quantity)
  }

  ghost predicate PositionsBooked(positions: map<string, BrokerPosition>, bookings: seq<Booking>) {
    forall s: string :: SignedPosition(Get(positions, s)) == Booked(bookings, s)
  }

  /** One more fill moves the position of its strategy as it moves the booked net. */
  lemma BookedNext(positions: map<string, BrokerPosition>, bookings: seq<Booking>, b: Booking, price: real)
    requires PositionsBooked(positions, bookings) && b.quantity > 0
    requires b.strategy in positions ==> positions[b.strategy].quantity > 0
    ensures var moved := AdapterPosition(Get(positions, b.strategy), b.strategy, b.side, b.quantity, price);
            PositionsBooked(if moved.Err? then positions
                            else if moved.value.Some? then positions[b.strategy := moved.value.value]
                            else positions - {b.strategy}, bookings + [b])
  {
    hide Weighted;
    var moved := AdapterPosition(Get(positions, b.strategy), b.strategy, b.side, b.quantity, price);
    var after := if moved.Err? then positions
                 else if moved.value.Some? then positions[b.strategy := moved.value.value]
                 else positions - {b.strategy};
    assert (bookings + [b])[..|bookings|] == bookings;
    forall s: string ensures SignedPosition(Get(after, s)) == Booked(bookings + [b], s) {
      assert SignedPosition(Get(positions, s)) == Booked(bookings, s);
      if s != b.strategy {
        assert Get(after, s) == Get(positions, s);
      } else {
        assert Get(after, s) == if moved.Err? then Get(positions, s) else moved.value;
      }
    }
  }

  /** Orders are numbered by the counter; each has been filled by its fills and no more, and is FILLED exactly
      when they complete it; every fill belongs to an order. */
  ghost predicate OrdersFilled(orders: map<nat, BrokerOrder>, fills: seq<BrokerFill>, counter: nat) {
    && (forall k :: k in orders ==>
          var o := orders[k];
          && o.id == k && k <= counter && o.request.quantity > 0
          && 0 <= FilledOf(fills, k) <= o.request.quantity
          && (o.status.Filled? <==> FilledOf(fills, k) == o.request.quantity)
          && (o.status.PartiallyFilled? ==> 0 < FilledOf(fills, k)))
    && forall k: nat :: k !in orders ==> FilledOf(fills, k) == 0
  }

  /** Every booking is that of a recorded fill. */
  ghost predicate FillsBooked(orders: map<nat, BrokerOrder>, fills: seq<BrokerFill>, bookings: seq<Booking>) {
    && |bookings| == |fills|
    && forall i :: 0 <= i < |fills| ==>
         && fills[i].order in orders
         && bookings[i] == Booking(orders[fills[i].order].request.strategy, fills[i].side, fills[i].quantity)
  }

  ghost predicate PositionsNamed(positions: map<string, BrokerPosition>) {
    forall s :: s in positions ==> positions[s].strategy == s && positions[s].quantity > 0
  }

  lemma OrderOf(orders: map<nat, BrokerOrder>, fills: seq<BrokerFill>, counter: nat, id: nat)
    requires OrdersFilled(orders, fills, counter)
    ensures id in orders ==> orders[id].id == id && orders[id].request.quantity > 0
  {
    hide FilledOf;
  }

  /** Recording a fill that its order has room for. */
  lemma OneMoreRecorded(orders: map<nat, BrokerOrder>, fills: seq<BrokerFill>, counter: nat, bookings: seq<Booking>,
                        fill: BrokerFill, status: OrderStatus)
    requires OrdersFilled(orders, fills, counter) && FillsBooked(orders, fills, bookings) && fill.order in orders
    requires var o := orders[fill.order];
             && 0 < fill.quantity <= o.request.quantity - FilledOf(fills, fill.order)
             && status == if FilledOf(fills, fill.order) + fill.quantity == o.request.quantity then Filled
                          else PartiallyFilled
    ensures var o := orders[fill.order];
            var after := orders[fill.order := o.(status := status)];
            && OrdersFilled(after, fills + [fill], counter)
            && FillsBooked(after, fills + [fill],
                           bookings + [Booking(o.request.strategy, fill.side, fill.quantity)])
  {
    hide FilledOf;
    FilledOfNext(fills, fill);
  }

  class BrokerAdapter {
    var connected: bool
    var orders: map<nat, BrokerOrder>
    var fills: seq<BrokerFill>
    var positions: map<string, BrokerPosition>
    var orderCounter: nat
    var fillCounter: nat
    ghost var bookings: seq<Booking>  // the recorded fills, each with its order's strategy

    /** Every position is the signed sum of its strategy's recorded fills, less the over-closing ones. */
    ghost predicate Valid()
      reads this
    {
      && OrdersFilled(orders, fills, orderCounter) && FillsBooked(orders, fills, bookings)
      && PositionsBooked(positions, bookings) && PositionsNamed(positions)
    }

    constructor ()
      ensures Valid() && !connected && orders == map[] && fills == [] && positions == map[]
    {
      connected, orders, fills, positions, orderCounter, fillCounter := false, map[], [], map[], 0, 0;
      bookings := [];
    }

    method SetConnected(value: bool)
      requires Valid()
      modifies this`connected
      ensures Valid() && connected == value
    {
      connected := value;
    }

    method SubmitOrder(request: BrokerRequest) returns (r: Result<BrokerOrder>)
      requires Valid() && request.quantity > 0
      modifies this
      ensures Valid() && connected == old(connected) && fills == old(fills) && positions == old(positions)
      ensures r.Err? <==> !connected
      ensures r.Err? ==> orders == old(orders)
      ensures r.Ok? ==> r.value.id !in old(orders) && r.value == BrokerOrder(r.value.id, request, Submitted)
                        && orders == old(orders)[r.value.id := r.value]
    {
      if !connected {
        return Err(NotConnected);
      }
      orderCounter := orderCounter + 1;
      var order := BrokerOrder(orderCounter, request, Submitted);
      orders := orders[orderCounter := order];
      r := Ok(order);
    }

    /** Cancelling an order that is already final returns it unchanged. */
    method CancelOrder(id: nat) returns (r: Result<BrokerOrder>)
      requires Valid()
      modifies this
      ensures Valid() && connected == old(connected) && fills == old(fills) && positions == old(positions)
      ensures r.Ok? <==> connected && id in old(orders)
      ensures r.Err? ==> orders == old(orders)
      ensures r.Ok? ==>
        var o := old(orders)[id];
        var final := o.status.Filled? || o.status.Cancelled? || o.status.RejectedOrder?;
        r.value == (if final then o else o.(status := Cancelled)) && orders == old(orders)[id := r.value]
    {
      if !connected {
        return Err(NotConnected);
      }
      if id !in orders {
        return Err(UnknownOrder);
      }
      var order := orders[id];
      if order.status.Filled? || order.status.Cancelled? || order.status.RejectedOrder? {
        return Ok(order);
      }
      var cancelled := BrokerOrder(order.id, order.request, Cancelled);
      orders := orders[id := cancelled];
      r := Ok(cancelled);
    }

    /** The fill is one the adapter records. */
    predicate Recordable(id: nat, quantity: int, price: real)
      reads this
    {
      && connected && id in orders && quantity > 0 && price > 0.0
      && !orders[id].status.Cancelled? && !orders[id].status.RejectedOrder?
      && quantity <= orders[id].request.quantity - FilledOf(fills, id)
    }

    /** The recorded fill is refused because it would over-close the position. */
    predicate Refused(id: nat, quantity: int)
      requires id in orders
      reads this
    {
      var request := orders[id].request;
      request.strategy in positions && positions[request.strategy].side != request.side
      && quantity > positions[request.strategy].quantity
    }

    /** A fill of an order. A fill that over-closes the position is recorded before it is refused: then the
        order and the list of fills have moved and the position has not. */
    method ProcessFill(id: nat, quantity: int, price: real) returns (r: Result<BrokerFill>)
      requires Valid()
      modifies this
      ensures Valid() && connected == old(connected)
      ensures !old(Recordable(id, quantity, price)) ==>
                r.Err? && orders == old(orders) && fills == old(fills) && positions == old(positions)
      ensures old(Recordable(id, quantity, price)) ==>
                var o := old(orders)[id];
                var s := o.request.strategy;
                var moved := AdapterPosition(Get(old(positions), s), s, o.request.side, quantity, price);
                && |fills| == |old(fills)| + 1 && fills[..|old(fills)|] == old(fills)
                && fills[|old(fills)|] == BrokerFill(id, fillCounter, quantity, price, o.request.side)
                && FilledOf(fills, id) == FilledOf(old(fills), id) + quantity
                && orders == old(orders)[id := o.(status :=
                     if FilledOf(fills, id) == o.request.quantity then Filled else PartiallyFilled)]
                && (r.Err? <==> old(Refused(id, quantity)))
                && (r.Ok? ==> r.value == fills[|old(fills)|])
                && (r.Ok? <==> moved.Ok?)
                && positions == (if moved.Err? then old(positions)
                                 else if moved.value.Some? then old(positions)[s := moved.value.value]
                                 else old(positions) - {s})
    {
      hide AdapterPosition, FilledOf, Booked, PositionsBooked, OrdersFilled, FillsBooked;
      OrderOf(orders, fills, orderCounter, id);
      if !connected {
        return Err(NotConnected);
      }
      if id !in orders {
        return Err(UnknownOrder);
      }
      var order := orders[id];
      if order.status.Cancelled? || order.status.RejectedOrder? {
        return Err(NotFillable);
      }
      var existing := FilledOf(fills, id);
      var remaining := order.request.quantity - existing;
      if quantity <= 0 {
        return Err(BadQuantity);
      }
      if quantity > remaining {
        return Err(ExceedsRemaining);
      }
      fillCounter := fillCounter + 1;
      if price <= 0.0 {
        return Err(BadPrice);
      }
      var fill := BrokerFill(id, fillCounter, quantity, price, order.request.side);
      FilledOfNext(fills, fill);
      var status := if existing + quantity == order.request.quantity then Filled else PartiallyFilled;
      OneMoreRecorded(orders, fills, orderCounter, bookings, fill, status);
      fills := fills + [fill];
      ghost var booking := Booking(order.request.strategy, fill.side, quantity);
      BookedNext(positions, bookings, booking, price);
      bookings := bookings + [booking];
      orders := orders[id := BrokerOrder(order.id, order.request, status)];
      RefusalExactly(Get(positions, order.request.strategy), order.request.strategy, fill.side, quantity, price);
      var ok := UpdatePosition(order, fill);
      r := if ok then Ok(fill) else Err(ExceedsPosition);
    }

    method UpdatePosition(order: BrokerOrder, fill: BrokerFill) returns (ok: bool)
      requires fill.quantity > 0 && PositionsNamed(positions)
      modifies this`positions
      ensures PositionsNamed(positions)
      ensures var s := order.request.strategy;
        var moved := AdapterPosition(Get(old(positions), s), s, fill.side, fill.quantity, fill.price);
        && (ok <==> moved.Ok?)
        && positions == (if moved.Err? then old(positions)
                         else if moved.value.Some? then old(positions)[s := moved.value.value]
                         else old(positions) - {s})
    {
      hide Weighted;
      var strategy := order.request.strategy;
      ok := true;
      if strategy !in positions {
        positions := positions[strategy :=
          BrokerPosition(strategy, SYMBOL, fill.side, fill.quantity, fill.price)];
        return;
      }
      var existing := positions[strategy];
      if existing.side == fill.side {
        var total := existing.quantity + fill.quantity;
        var average := Weighted(existing.average, existing.quantity as real, fill.price, fill.quantity as real);
        positions := positions[strategy :=
          BrokerPosition(strategy, existing.symbol, existing.side, total, average)];
        return;
      }
      if fill.quantity > existing.quantity {
        return false;
      }
      var remaining := existing.quantity - fill.quantity;
      if remaining == 0 {
        positions := positions - {strategy};
      } else {
        positions := positions[strategy :=
          BrokerPosition(strategy, existing.symbol, existing.side, remaining, existing.average)];
      }
    }
  }

  lemma RefusalExactly(existing: Option<BrokerPosition>, strategy: string, side: Side, quantity: int, price: real)
    requires quantity > 0 && (existing.Some? ==> existing.value.quantity > 0)
    ensures AdapterPosition(existing, strategy, side, quantity, price).Err?
            <==> existing.Some? && existing.value.side != side && quantity > existing.value.quantity
  {
  }

  /** It can happen: a position of one, and a filled order of two on the other side. */
  method OverCloseIsRecorded() returns (r: Result<BrokerFill>, recorded: seq<BrokerFill>, status: OrderStatus,
                                        position: Option<BrokerPosition>)
    ensures r.Err? && |recorded| == 2 && recorded[1].quantity == 2 && status == Filled
    ensures position == Some(BrokerPosition("s", SYMBOL, Long, 1, 100.0))
  {
    hide FilledOf, Booked, PositionsBooked;
    var adapter := new BrokerAdapter();
    adapter.SetConnected(true);
    var long := adapter.SubmitOrder(BrokerRequest("s", Long, 1));
    var short := adapter.SubmitOrder(BrokerRequest("s", Short, 2));
    NoFillsYet(long.value.id);
    NoFillsYet(short.value.id);
    var entered := adapter.ProcessFill(long.value.id, 1, 100.0);
    OneFillYet(adapter.fills, short.value.id);
    r := adapter.ProcessFill(short.value.id, 2, 101.0);
    recorded, status, position := adapter.fills, adapter.orders[short.value.id].status, Get(adapter.positions, "s");
  }

  lemma NoFillsYet(id: nat)
    ensures FilledOf([], id) == 0
  {
  }

  lemma OneFillYet(fills: seq<BrokerFill>, id: nat)
    requires |fills| == 1 && fills[0].order != id
    ensures FilledOf(fills, id) == 0
  {
    assert fills[..0] == [];
  }

  // ---------------------------------------------------------------------------------------------
  // The backtest engine
  // ---------------------------------------------------------------------------------------------

  datatype BacktestPosition = BacktestPosition(symbol: string, long: bool, quantity: real, entryPrice: real,
                                               entryTime: int)

  datatype BacktestFill = BacktestFill(symbol: string, buy: bool, quantity: real, price: real, time: int,
                                       commission: real, slippage: real)

  function BacktestMove(current: Option<BacktestPosition>, f: BacktestFill): Result<Option<BacktestPosition>>
    requires f.quantity > 0.0 && (current.Some? ==> current.value.quantity > 0.0)
  {
    if current.None? then Ok(Some(BacktestPosition(f.symbol, f.buy, f.quantity, f.price, f.time)))
    else
      var c := current.value;
      if c.long == f.buy then
        var quantity := c.quantity + f.quantity;
        Ok(Some(BacktestPosition(f.symbol, c.long, quantity,
                                 Weighted(c.entryPrice, c.quantity, f.price, f.quantity), c.entryTime)))
      else if f.quantity < c.quantity then Ok(Some(c.(quantity := c.quantity - f.quantity)))
      else if f.quantity == c.quantity then Ok(None)
      else Err(ExceedsPosition)
  }

  function Get<V>(m: map<string, V>, key: string): Option<V> {
    if key in m then Some(m[key]) else None
  }

  class BacktestEngine {
    var prices: map<string, real>
    var positions: map<string, BacktestPosition>
    const commissionPerUnit: real
    const slippagePerUnit: real

    ghost predicate Valid()
      reads this
    {
      forall s :: s in positions ==> positions[s].symbol == s && positions[s].quantity > 0.0
    }

    constructor (prices: map<string, real>, commissionPerUnit: real, slippagePerUnit: real)
      ensures Valid() && positions == map[] && this.prices == prices
      ensures this.commissionPerUnit == commissionPerUnit && this.slippagePerUnit == slippagePerUnit
    {
      this.prices, this.positions := prices, map[];
      this.commissionPerUnit, this.slippagePerUnit := commissionPerUnit, slippagePerUnit;
    }

    method SetMarketPrice(symbol: string, price: real) returns (r: Result<()>)
      modifies this`prices
      ensures r.Ok? <==> price > 0.0
      ensures prices == if r.Ok? then old(prices)[symbol := price] else old(prices)
    {
      if price <= 0.0 {
        return Err(BadPrice);
      }
      prices := prices[symbol := price];
      r := Ok(());
    }

    /** A market order fills at once, in full, at the market price moved against the trader. */
    method SubmitOrder(symbol: string, buy: bool, quantity: real, market: bool, now: int)
      returns (r: Result<BacktestFill>)
      requires Valid()
      modifies this`positions
      ensures Valid()
      ensures r.Err? ==> positions == old(positions)
      ensures symbol !in prices || quantity <= 0.0 || !market ==> r.Err?
      ensures symbol in prices && quantity > 0.0 && market ==>
        var p := prices[symbol];
        var paid := if buy then p + slippagePerUnit else p - slippagePerUnit;
        var f := BacktestFill(symbol, buy, quantity, paid, now, quantity * commissionPerUnit,
                              (if paid >= p then paid - p else p - paid) * quantity);
        var moved := BacktestMove(Get(old(positions), symbol), f);
        && (r.Ok? <==> moved.Ok?) && (r.Ok? ==> r.value == f && Get(positions, symbol) == moved.value)
        && (forall s :: s != symbol ==> Get(positions, s) == Get(old(positions), s))
    {
      if symbol !in prices {
        return Err(BadPrice);
      }
      if quantity <= 0.0 {
        return Err(BadQuantity);
      }
      if !market {
        return Err(NotSubmittable);
      }
      var price := prices[symbol];
      var paid := if buy then price + slippagePerUnit else price - slippagePerUnit;
      var gap := if paid >= price then paid - price else price - paid;
      var fill := BacktestFill(symbol, buy, quantity, paid, now, quantity * commissionPerUnit, gap * quantity);
      var ok := ApplyFill(fill);
      r := if ok then Ok(fill) else Err(ExceedsPosition);
    }

    /** Closing fills the whole position on the other side, and leaves the symbol flat. */
    method ClosePosition(symbol: string, now: int) returns (r: Result<seq<BacktestFill>>)
      requires Valid()
      modifies this`positions
      ensures Valid()
      ensures symbol !in old(positions) ==> r == Ok([]) && positions == old(positions)
      ensures symbol in old(positions) && symbol !in prices ==> r.Err? && positions == old(positions)
      ensures symbol in old(positions) && symbol in prices ==>
        r.Ok? && |r.value| == 1 && r.value[0].quantity == old(positions)[symbol].quantity
        && r.value[0].buy == !old(positions)[symbol].long
        && symbol !in positions && (forall s :: s != symbol ==> Get(positions, s) == Get(old(positions), s))
    {
      if symbol !in positions {
        return Ok([]);
      }
      var position := positions[symbol];
      var filled := SubmitOrder(symbol, !position.long, position.quantity, true, now);
      r := if filled.Ok? then Ok([filled.value]) else Err(filled.error);
    }

    method ApplyFill(f: BacktestFill) returns (ok: bool)
      requires Valid() && f.quantity > 0.0
      modifies this`positions
      ensures Valid()
      ensures var moved := BacktestMove(Get(old(positions), f.symbol), f);
        && (ok <==> moved.Ok?) && (!ok ==> positions == old(positions))
        && (ok ==> Get(positions, f.symbol) == moved.value)
        && (forall s :: s != f.symbol ==> Get(positions, s) == Get(old(positions), s))
    {
      hide Weighted;
      ok := true;
      if f.symbol !in positions {
        positions := positions[f.symbol := BacktestPosition(f.symbol, f.buy, f.quantity, f.price, f.time)];
        return;
      }
      var current := positions[f.symbol];
      if current.long && f.buy {
        var quantity := current.quantity + f.quantity;
        var entry := Weighted(current.entryPrice, current.quantity, f.price, f.quantity);
        positions := positions[f.symbol :=
          BacktestPosition(f.symbol, current.long, quantity, entry, current.entryTime)];
        return;
      }
      if !current.long && !f.buy {
        var quantity := current.quantity + f.quantity;
        var entry := Weighted(current.entryPrice, current.quantity, f.price, f.quantity);
        positions := positions[f.symbol :=
          BacktestPosition(f.symbol, current.long, quantity, entry, current.entryTime)];
        return;
      }
      if f.quantity < current.quantity {
        positions := positions[f.symbol := current.(quantity := current.quantity - f.quantity)];
        return;
      }
      if f.quantity == current.quantity {
        positions := positions - {f.symbol};
        return;
      }
      ok := false;
    }
  }

  // ---------------------------------------------------------------------------------------------
  // The three books side by side
  // ---------------------------------------------------------------------------------------------

  /** What the engine does to one strategy's position when the fill is on the side of its order. */
  function EngineMove(current: Option<Position>, f: Fill): Result<Option<Position>> {
    if current.None? then Ok(Some(OpenPosition(f)))
    else
      var p := current.value;
      if p.side == f.side then Ok(Some(AddPositionFill(p, f)))
      else if f.quantity > p.quantity then Err(ExceedsPosition)
      else if f.quantity < p.quantity then Ok(Some(p.(quantity := p.quantity - f.quantity)))
      else Ok(None)
  }

  /** The engine's own fill processing moves the position of the fill's strategy like that, and no other. */
  lemma EngineMovesPosition(b: Book, f: Fill)
    requires f.id !in b.fillIds && CheckFill(b, f).Ok? && b.orders[f.order].side == f.side
    ensures var step, moved := ProcessBrokerFill(b, f), EngineMove(Get(b.positions, f.strategy), f);
      && (step.result.Ok? <==> moved.Ok?)
      && (step.result.Ok? ==> Get(step.book.positions, f.strategy) == moved.value)
      && (step.result.Err? ==> step.book == b)
      && (forall s :: s != f.strategy ==> Get(step.book.positions, s) == Get(b.positions, s))
  {
    hide FillAverage, Blend, AddPositionFill;
  }

  function OfEngine(p: Option<Position>): Holding {
    if p.None? then Nothing else Held(p.value.side, p.value.quantity, p.value.entryPrice)
  }

  function OfAdapter(p: Option<BrokerPosition>): Holding {
    if p.None? then Nothing else Held(p.value.side, p.value.quantity, p.value.average)
  }

  /** The backtest engine's quantities are reals. */
  ghost predicate IsBacktest(p: Option<BacktestPosition>, h: Holding) {
    if p.None? then h == Nothing
    else h.Held? && p.value.long == h.side.Long? && p.value.quantity == h.quantity as real
         && p.value.entryPrice == h.average
  }

  lemma AveragesAgree(average: real, quantity: int, price: real, more: int)
    requires quantity > 0 && more > 0
    ensures Weighted(average, quantity as real, price, more as real) == Blend(quantity, average, more, price)
  {
    assert average * quantity as real == quantity as real * average;
    assert price * more as real == more as real * price;
  }

  ghost predicate Agree(e: Option<Position>, a: Option<BrokerPosition>, t: Option<BacktestPosition>) {
    OfEngine(e) == OfAdapter(a) && IsBacktest(t, OfEngine(e))
  }

  lemma OneFillAgrees(e: Option<Position>, a: Option<BrokerPosition>, t: Option<BacktestPosition>,
                      f: Fill, g: BacktestFill)
    requires Agree(e, a, t)
    requires g.buy == f.side.Long? && g.quantity == f.quantity as real && g.price == f.price
    ensures var e', a', t' := EngineMove(e, f), AdapterPosition(a, f.strategy, f.side, f.quantity, f.price),
                              BacktestMove(t, g);
      && (e'.Ok? <==> a'.Ok?) && (e'.Ok? <==> t'.Ok?)
      && (e'.Ok? ==> Agree(e'.value, a'.value, t'.value))
  {
    if e.Some? && e.value.side == f.side {
      AveragesAgree(e.value.entryPrice, e.value.quantity, f.price, f.quantity);
    }
    hide Weighted, Blend;
  }

  datatype Books = Books(engine: Option<Position>, adapter: Option<BrokerPosition>, backtest: Option<BacktestPosition>)

  function ToBacktest(f: Fill): BacktestFill {
    BacktestFill(f.strategy, f.side.Long?, f.quantity as real, f.price, f.time, 0.0, 0.0)
  }

  /** The three books after each has been fed these fills and skipped the ones it refused. */
  function Feed(fills: seq<Fill>): (b: Books)
    ensures b.adapter.Some? ==> b.adapter.value.quantity > 0
    ensures b.backtest.Some? ==> b.backtest.value.quantity > 0.0
  {
    if fills == [] then Books(None, None, None)
    else
      var n := |fills| - 1;
      var b, f := Feed(fills[..n]), fills[n];
      var e := EngineMove(b.engine, f);
      var a := AdapterPosition(b.adapter, f.strategy, f.side, f.quantity, f.price);
      var t := BacktestMove(b.backtest, ToBacktest(f));
      Books(if e.Ok? then e.value else b.engine, if a.Ok? then a.value else b.adapter,
            if t.Ok? then t.value else b.backtest)
  }

  /** After any fills whatever, over-closing ones included, the three books hold the same. */
  lemma {:induction false} ThreeBooksAgree(fills: seq<Fill>)
    ensures Agree(Feed(fills).engine, Feed(fills).adapter, Feed(fills).backtest)
  {
    hide Agree, EngineMove, AdapterPosition, BacktestMove;
    if fills != [] {
      var n := |fills| - 1;
      ThreeBooksAgree(fills[..n]);
      var b := Feed(fills[..n]);
      OneFillAgrees(b.engine, b.adapter, b.backtest, fills[n], ToBacktest(fills[n]));
    } else {
      NothingAgrees();
    }
  }

  lemma NothingAgrees()
    ensures Agree(None, None, None)
  {
  }

  /** The fills that opened or added to the holding since it was last flat. */
  function Entries(fills: seq<Fill>): seq<Fill> {
    if fills == [] then []
    else
      var n := |fills| - 1;
      var before, f := Feed(fills[..n]).engine, fills[n];
      if before.None? then [f]
      else if before.value.side == f.side then Entries(fills[..n]) + [f]
      else if f.quantity == before.value.quantity then []
      else Entries(fills[..n])
  }

  /** The average of a holding lies between any bounds on the prices of its entries; exits, partial or
      refused, do not move it. */
  lemma {:induction false} AverageIsBetweenEntries(fills: seq<Fill>, lo: real, hi: real)
    requires forall i :: 0 <= i < |Entries(fills)| ==> lo <= Entries(fills)[i].price <= hi
    ensures var p := Feed(fills).engine;
      && (p.None? <==> Entries(fills) == [])
      && (p.Some? ==> lo <= p.value.entryPrice <= hi
                      && forall i :: 0 <= i < |Entries(fills)| ==> Entries(fills)[i].side == p.value.side)
  {
    hide Blend, AdapterPosition, BacktestMove;
    if fills != [] {
      var n := |fills| - 1;
      var before, f := Feed(fills[..n]).engine, fills[n];
      if before.None? {
        assert Entries(fills) == [f];
        assert lo <= Entries(fills)[0].price <= hi;
      } else {
        var entries := Entries(fills[..n]);
        if before.value.side == f.side {
          assert Entries(fills) == entries + [f];
          assert forall i :: 0 <= i < |entries| ==> entries[i] == Entries(fills)[i];
          assert Entries(fills)[|entries|] == f;
          AverageIsBetweenEntries(fills[..n], lo, hi);
          BlendIsBetween(before.value.quantity, before.value.entryPrice, f.quantity, f.price, lo, hi);
        } else if f.quantity != before.value.quantity {
          AverageIsBetweenEntries(fills[..n], lo, hi);
        }
      }
    }
  }

  /** The engine holds a position after the first `j` fills. */
  ghost predicate Holds(fills: seq<Fill>, j: nat)
    requires j <= |fills|
  {
    Feed(fills[..j]).engine.Some?
  }

  /** Fill `k` found the engine flat, and it has held a position ever since. */
  ghost predicate Opened(fills: seq<Fill>, k: int) {
    && 0 <= k < |fills| && !Holds(fills, k)
    && forall j :: k < j <= |fills| ==> Holds(fills, j)
  }

  lemma HoldsInFront(fills: seq<Fill>, n: nat, j: nat)
    requires j <= n <= |fills|
    ensures Holds(fills[..n], j) == Holds(fills, j)
  {
    assert fills[..n][..j] == fills[..j];
  }

  lemma OpenedBefore(fills: seq<Fill>, k: int)
    requires fills != [] && Opened(fills[..|fills| - 1], k) && Holds(fills, |fills|)
    ensures Opened(fills, k)
  {
    hide Holds;
    var n := |fills| - 1;
    HoldsInFront(fills, n, k);
    forall j | k < j <= n ensures Holds(fills, j) {
      HoldsInFront(fills, n, j);
    }
  }

  /** The entry kept is that of this fill. */
  ghost predicate EntryOf(b: Books, f: Fill) {
    b.engine.Some? && b.backtest.Some? ==>
      && b.engine.value.entryTime == b.backtest.value.entryTime == f.time
      && b.engine.value.side == f.side && b.engine.value.strategy == f.strategy
  }

  lemma FeedKeepsEntry(fills: seq<Fill>, f: Fill)
    requires fills != [] && EntryOf(Feed(fills[..|fills| - 1]), f)
    requires Feed(fills[..|fills| - 1]).engine.Some? && Feed(fills[..|fills| - 1]).backtest.Some?
    ensures EntryOf(Feed(fills), f)
  {
    hide AdapterPosition, Blend, Weighted;
  }

  lemma FeedOpens(fills: seq<Fill>)
    requires fills != []
    requires Feed(fills[..|fills| - 1]).engine.None? && Feed(fills[..|fills| - 1]).backtest.None?
    ensures EntryOf(Feed(fills), fills[|fills| - 1])
  {
    hide AdapterPosition;
  }

  /** The engine and the backtest keep the time of the fill that opened the holding, and the engine its side and
      strategy, whatever was added and taken since. */
  lemma {:induction false} EntryIsRemembered(fills: seq<Fill>)
    ensures Feed(fills).engine.Some? <==> Feed(fills).backtest.Some?
    ensures Feed(fills).engine.Some? ==> exists k :: Opened(fills, k) && EntryOf(Feed(fills), fills[k])
  {
    hide Feed, EntryOf;
    ThreeBooksAgree(fills);
    assert fills[..|fills|] == fills;
    if fills != [] && Feed(fills).engine.Some? {
      var n := |fills| - 1;
      EntryIsRemembered(fills[..n]);
      if Feed(fills[..n]).engine.None? {
        FeedOpens(fills);
        assert Opened(fills, n);
      } else {
        var k :| Opened(fills[..n], k) && EntryOf(Feed(fills[..n]), fills[..n][k]);
        FeedKeepsEntry(fills, fills[k]);
        OpenedBefore(fills, k);
      }
    } else {
      NothingFed();
    }
  }

  lemma NothingFed()
    ensures Feed([]) == Books(None, None, None)
  {
  }

  function ValueOf(p: Option<Position>): real {
    if p.None? then 0.0 else p.value.quantity as real * p.value.entryPrice
  }

  /** What a fill puts in at its own price when it opens or adds, and takes out at the price kept when it closes;
      nothing if it would close more than there is. */
  function ValueMoved(before: Option<Position>, f: Fill): real {
    if before.None? || before.value.side == f.side then f.quantity as real * f.price
    else if f.quantity <= before.value.quantity then -(f.quantity as real * before.value.entryPrice)
    else 0.0
  }

  function ValuesMoved(fills: seq<Fill>): real {
    if fills == [] then 0.0
    else
      var n := |fills| - 1;
      ValuesMoved(fills[..n]) + ValueMoved(Feed(fills[..n]).engine, fills[n])
  }

  lemma OneMoveKeepsValue(before: Option<Position>, f: Fill)
    ensures var moved := EngineMove(before, f);
            ValueOf(if moved.Ok? then moved.value else before) == ValueOf(before) + ValueMoved(before, f)
  {
    if before.Some? {
      var p := before.value;
      BlendKeepsValue(p.quantity, p.entryPrice, f.quantity, f.price);
      if p.side != f.side && f.quantity < p.quantity {
        assert (p.quantity - f.quantity) as real == p.quantity as real - f.quantity as real;
      }
    }
    hide Blend;
  }

  /** The cost of a holding is conserved: quantity times average is what all its entries put in, less what the exits
      took out. */
  lemma {:induction false} ValueIsConserved(fills: seq<Fill>)
    ensures ValueOf(Feed(fills).engine) == ValuesMoved(fills)
  {
    hide ValueOf, ValueMoved, EngineMove, AdapterPosition, BacktestMove;
    if fills == [] {
      NothingFed();
      NothingHeld();
    } else {
      var n := |fills| - 1;
      ValueIsConserved(fills[..n]);
      OneMoveKeepsValue(Feed(fills[..n]).engine, fills[n]);
    }
  }

  lemma NothingHeld()
    ensures ValueOf(None) == 0.0
  {
  }

  /** A fill of the whole position on the other side ends it, and reports both prices and both times. */
  lemma CloseReports(b: Book, f: Fill)
    requires f.id !in b.fillIds && CheckFill(b, f).Ok? && b.orders[f.order].side == f.side
    requires f.strategy in b.positions && b.positions[f.strategy].side != f.side
    requires b.positions[f.strategy].quantity == f.quantity
    ensures var step, p := ProcessBrokerFill(b, f), b.positions[f.strategy];
            var close := PositionClose(p.strategy, p.side, p.quantity, p.entryPrice, f.price, p.entryTime, f.time);
            && step.result == Ok(ClosedOut(f, close)) && f.strategy !in step.book.positions
            && step.book.closed == b.closed[f.strategy := close]
  {
    hide FillAverage, Blend, AddPositionFill;
  }

  /** The fills the books took, without the refused ones. */
  function Taken(fills: seq<Fill>): seq<Fill> {
    if fills == [] then []
    else
      var n := |fills| - 1;
      Taken(fills[..n]) + if EngineMove(Feed(fills[..n]).engine, fills[n]).Ok? then [fills[n]] else []
  }

  function SignedSum(fills: seq<Fill>): int {
    if fills == [] then 0
    else SignedSum(fills[..|fills| - 1]) + Signed(fills[|fills| - 1].side, fills[|fills| - 1].quantity)
  }

  function SignedHolding(h: Holding): int {
    if h.Nothing? then 0 else Signed(h.side, h.quantity)
  }

  /** The signed quantity all three books hold is the sum of the signed fills they took. */
  lemma {:induction false} HoldingIsNet(fills: seq<Fill>)
    ensures SignedHolding(OfEngine(Feed(fills).engine)) == SignedSum(Taken(fills))
    ensures SignedHolding(OfAdapter(Feed(fills).adapter)) == SignedSum(Taken(fills))
    ensures IsBacktest(Feed(fills).backtest, OfEngine(Feed(fills).engine))
  {
    hide AdapterPosition, BacktestMove, Blend, AddPositionFill;
    ThreeBooksAgree(fills);
    if fills != [] {
      var n := |fills| - 1;
      HoldingIsNet(fills[..n]);
      var taken := Taken(fills[..n]);
      assert (taken + [fills[n]])[..|taken|] == taken;
      assert taken + [] == taken;
      AddedQuantity(Feed(fills[..n]).engine, fills[n]);
    }
  }

  lemma AddedQuantity(p: Option<Position>, f: Fill)
    ensures p.Some? ==> AddPositionFill(p.value, f).side == p.value.side
                        && AddPositionFill(p.value, f).quantity == p.value.quantity + f.quantity
  {
    hide Blend;
  }
}

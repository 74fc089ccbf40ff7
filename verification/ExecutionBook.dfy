/** The execution engine's books as a value, and what each call does to them, including the calls that
    raise. `Step` pairs the books a call leaves behind with what it returned or raised.
 */
module ExecutionBook {
  import opened Options
  import opened ExecutionTypes

  datatype Book = Book(
    orders: map<string, Order>, positions: map<string, Position>, closed: map<string, PositionClose>,
    intents: set<Intent>, orderIntents: map<string, Intent>, fillIds: set<string>)

  const EMPTY := Book(map[], map[], map[], {}, map[], {})

  datatype Done = Ordered(order: Order) | Executed(fill: Fill) | ClosedOut(fill: Fill, close: PositionClose)

  datatype Step = Step(book: Book, result: Result<Done>)

  function Place(b: Book, intent: Intent, order: Order): Step {
    Step(b.(orders := b.orders[order.id := order], intents := b.intents + {intent},
            orderIntents := b.orderIntents[order.id := intent]),
         Ok(Ordered(order)))
  }

  function SubmitEntry(b: Book, intent: Intent, quantity: int, freshId: string): Step {
    if !intent.action.Enter? then Step(b, Err(WrongAction))
    else if intent.signal.Flat? then Step(b, Err(WrongSignal))
    else if quantity <= 0 then Step(b, Err(BadQuantity))
    else if intent.strategy in b.positions then Step(b, Err(AlreadyOpen))
    else if intent in b.intents then Step(b, Err(DuplicateIntent))
    else Place(b, intent, Order(freshId, intent.strategy, SideOf(intent.signal).value, quantity,
                                Submitted, 0, None))
  }

  function SubmitExit(b: Book, intent: Intent, freshId: string): Step {
    if !intent.action.Exit? then Step(b, Err(WrongAction))
    else if !intent.signal.Flat? then Step(b, Err(WrongSignal))
    else if intent.strategy !in b.positions then Step(b, Err(NoOpenPosition))
    else if intent in b.intents then Step(b, Err(DuplicateIntent))
    else
      var p := b.positions[intent.strategy];
      Place(b, intent, Order(freshId, intent.strategy, Opposite(p.side), p.quantity, Submitted, 0, None))
  }

  /** The checks both kinds of fill make of the order; the order's books are written when they pass. */
  function CheckFill(b: Book, f: Fill): Result<Order> {
    if f.order !in b.orders then Err(UnknownOrder)
    else
      var o := b.orders[f.order];
      if !Fillable(o) then Err(NotFillable)
      else if f.quantity > Remaining(o) then Err(ExceedsRemaining)
      else ApplyFill(o, f.quantity, FillAverage(o, f))
  }

  /** Note that the order is written before the position's side is checked. */
  function EntryFill(b: Book, f: Fill): Step {
    var checked := CheckFill(b, f);
    if checked.Err? then Step(b, Err(checked.error))
    else
      var written := b.(orders := b.orders[checked.value.id := checked.value]);
      if f.strategy !in b.positions then
        Step(written.(positions := b.positions[f.strategy := OpenPosition(f)]), Ok(Executed(f)))
      else
        var p := b.positions[f.strategy];
        if p.side != f.side then Step(written, Err(OppositeSide))
        else Step(written.(positions := b.positions[f.strategy := AddPositionFill(p, f)]), Ok(Executed(f)))
  }

  function ExitFill(b: Book, f: Fill): Step {
    if f.order !in b.orders then Step(b, Err(UnknownOrder))
    else if !Fillable(b.orders[f.order]) then Step(b, Err(NotFillable))
    else if f.quantity > Remaining(b.orders[f.order]) then Step(b, Err(ExceedsRemaining))
    else if f.strategy !in b.positions then Step(b, Err(NoOpenPosition))
    else
      var p := b.positions[f.strategy];
      if f.quantity > p.quantity then Step(b, Err(ExceedsPosition))
      else if f.side == p.side then Step(b, Err(SameSide))
      else
        var checked := CheckFill(b, f);
        if checked.Err? then Step(b, Err(checked.error))
        else
          var written := b.(orders := b.orders[checked.value.id := checked.value]);
          if f.quantity < p.quantity then
            Step(written.(positions := b.positions[f.strategy := p.(quantity := p.quantity - f.quantity)]),
                 Ok(Executed(f)))
          else
            var close := ClosePosition(p, f);
            Step(written.(closed := b.closed[f.strategy := close], positions := b.positions - {f.strategy}),
                 Ok(ClosedOut(f, close)))
  }

  /** A fill reported for an order by its id: for the quantity given, or else all that remains. */
  function ProcessEntryFill(b: Book, order: string, price: real, time: int, quantity: Option<int>,
                            fillId: string): Step {
    if order !in b.orders then Step(b, Err(UnknownOrder))
    else
      var o := b.orders[order];
      var q := if quantity.None? then Remaining(o) else quantity.value;
      if !Fillable(o) then Step(b, Err(NotFillable))
      else if q <= 0 then Step(b, Err(BadQuantity))
      else if q > Remaining(o) then Step(b, Err(ExceedsRemaining))
      else if price <= 0.0 then Step(b, Err(BadPrice))
      else EntryFill(b, Fill(fillId, o.id, o.strategy, o.side, q, price, time))
  }

  function ProcessExitFill(b: Book, order: string, price: real, time: int, quantity: Option<int>,
                           fillId: string): Step {
    if order !in b.orders then Step(b, Err(UnknownOrder))
    else
      var o := b.orders[order];
      if !Fillable(o) then Step(b, Err(NotFillable))
      else if o.strategy !in b.positions then Step(b, Err(NoOpenPosition))
      else
        var p := b.positions[o.strategy];
        var q := if quantity.None? then p.quantity else quantity.value;
        if q <= 0 then Step(b, Err(BadQuantity))
        else if q > p.quantity then Step(b, Err(ExceedsPosition))
        else if q > Remaining(o) then Step(b, Err(ExceedsRemaining))
        else if price <= 0.0 then Step(b, Err(BadPrice))
        else ExitFill(b, Fill(fillId, o.id, o.strategy, o.side, q, price, time))
  }

  /** A fill object from the broker: an entry if it extends the order's side, an exit otherwise. */
  function ProcessBrokerFill(b: Book, f: Fill): Step {
    if f.id in b.fillIds then Step(b, Err(DuplicateFill))
    else if f.order !in b.orders then Step(b, Err(UnknownOrder))
    else if !Fillable(b.orders[f.order]) then Step(b, Err(NotFillable))
    else
      var entry := f.strategy !in b.positions || b.positions[f.strategy].side == b.orders[f.order].side;
      var step := if entry then EntryFill(b, f) else ExitFill(b, f);
      if step.result.Ok? then step.(book := step.book.(fillIds := b.fillIds + {f.id})) else step
  }

  function Cancel(b: Book, order: string): Step {
    if order !in b.orders then Step(b, Err(UnknownOrder))
    else
      var updated := CancelOrder(b.orders[order]);
      if updated.Err? then Step(b, Err(updated.error))
      else Step(b.(orders := b.orders[order := updated.value]), Ok(Ordered(updated.value)))
  }

  /** A rejected order releases its intent, so the intent may be submitted again. */
  function Reject(b: Book, order: string): Step {
    if order !in b.orders then Step(b, Err(UnknownOrder))
    else
      var updated := RejectOrder(b.orders[order]);
      if updated.Err? then Step(b, Err(updated.error))
      else
        var released := if order in b.orderIntents then b.intents - {b.orderIntents[order]} else b.intents;
        Step(b.(orders := b.orders[order := updated.value], intents := released), Ok(Ordered(updated.value)))
  }

  // ---------------------------------------------------------------------------------------------
  // What the fills of a run add up to
  // ---------------------------------------------------------------------------------------------

  function Quantity(log: seq<Fill>, order: string): int {
    if log == [] then 0
    else Quantity(log[..|log| - 1], order)
         + if log[|log| - 1].order == order then log[|log| - 1].quantity else 0
  }

  function Value(log: seq<Fill>, order: string): real {
    if log == [] then 0.0
    else Value(log[..|log| - 1], order)
         + if log[|log| - 1].order == order then log[|log| - 1].quantity as real * log[|log| - 1].price else 0.0
  }

  function Signed(side: Side, quantity: int): int {
    if side.Long? then quantity else -quantity
  }

  /** The signed quantity of a strategy's fills. */
  function Net(log: seq<Fill>, strategy: string): int {
    if log == [] then 0
    else Net(log[..|log| - 1], strategy)
         + if log[|log| - 1].strategy == strategy then Signed(log[|log| - 1].side, log[|log| - 1].quantity) else 0
  }

  lemma LogNext(log: seq<Fill>, f: Fill)
    ensures forall k: string :: Quantity(log + [f], k) == Quantity(log, k) + if f.order == k then f.quantity else 0
    ensures forall k: string ::
              Value(log + [f], k) == Value(log, k) + if f.order == k then f.quantity as real * f.price else 0.0
    ensures forall s: string ::
              Net(log + [f], s) == Net(log, s) + if f.strategy == s then Signed(f.side, f.quantity) else 0
  {
    assert (log + [f])[..|log|] == log;
  }

  /** The order's filled quantity is the sum of its fills, its average is their average price, and its
      status says how full it is. */
  ghost predicate OrderTells(o: Order, quantity: int, value: real) {
    && o.filled == quantity
    && (o.filled == 0 ==> o.average.None? && value == 0.0)
    && (o.filled > 0 ==> o.average.Some? && o.filled as real * o.average.value == value)
    && (o.status.Filled? <==> o.filled == o.quantity)
    && (o.status.Created? || o.status.Submitted? || o.status.RejectedOrder? ==> o.filled == 0)
  }

  ghost predicate OrdersTell(orders: map<string, Order>, log: seq<Fill>) {
    && (forall k :: k in orders ==>
          orders[k].id == k && OrderTells(orders[k], Quantity(log, k), Value(log, k)))
    && forall k :: k !in orders ==> Quantity(log, k) == 0 && Value(log, k) == 0.0
  }

  ghost predicate PositionsTell(positions: map<string, Position>, log: seq<Fill>) {
    && (forall s :: s in positions ==>
          && positions[s].strategy == s
          && Signed(positions[s].side, positions[s].quantity) == Net(log, s))
    && forall s :: s !in positions ==> Net(log, s) == 0
  }

  ghost predicate Consistent(b: Book, log: seq<Fill>) {
    OrdersTell(b.orders, log) && PositionsTell(b.positions, log)
  }

  function Fills(r: Result<Done>): seq<Fill> {
    if r.Ok? && !r.value.Ordered? then [r.value.fill] else []
  }
}

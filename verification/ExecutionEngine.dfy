/** The execution engine and the paper broker as the mutable objects they are: dictionaries reassigned by
    every operation. Each method is proved against the book-level rules, and the two order books are
    proved to stay equal.
 */
module ExecutionEngine {
  import opened Options
  import opened ExecutionTypes
  import opened ExecutionBook

  // ---------------------------------------------------------------------------------------------
  // The broker's order book
  // ---------------------------------------------------------------------------------------------

  type Orders = map<string, Order>

  datatype Reply = Reply(orders: Orders, result: Result<Order>)

  function Keep(orders: Orders, e: Error): Reply { Reply(orders, Err(e)) }

  function Put(orders: Orders, key: string, updated: Result<Order>): Reply {
    if updated.Err? then Reply(orders, updated) else Reply(orders[key := updated.value], updated)
  }

  function BrokerSubmit(orders: Orders, o: Order): Reply {
    if o.id in orders then Keep(orders, OrderExists)
    else if o.status.Created? then Put(orders, o.id, Ok(o.(status := Submitted)))
    else if !o.status.Submitted? then Keep(orders, NotSubmittable)
    else Put(orders, o.id, Ok(o))
  }

  function BrokerCancel(orders: Orders, key: string): Reply {
    if key !in orders then Keep(orders, UnknownOrder) else Put(orders, key, CancelOrder(orders[key]))
  }

  function BrokerReject(orders: Orders, key: string): Reply {
    if key !in orders then Keep(orders, UnknownOrder) else Put(orders, key, RejectOrder(orders[key]))
  }

  /** The broker's own running average, with the products in its own order. */
  function BrokerAverage(o: Order, f: Fill): real {
    var previous := if o.average.Some? then o.average.value else 0.0;
    if o.filled == 0 then f.price
    else (previous * o.filled as real + f.price * f.quantity as real) / (o.filled + f.quantity) as real
  }

  function BrokerInject(orders: Orders, f: Fill): Reply {
    if f.order !in orders then Keep(orders, UnknownOrder)
    else
      var o := orders[f.order];
      if !Fillable(o) then Keep(orders, NotFillable)
      else if f.quantity > Remaining(o) then Keep(orders, ExceedsRemaining)
      else
        var updated := ApplyFill(o, f.quantity, BrokerAverage(o, f));
        if updated.Err? then Reply(orders, updated)
        else Reply(orders[updated.value.id := updated.value], updated)
  }

  class PaperBroker {
    var orders: Orders
    var fills: seq<Fill>

    constructor ()
      ensures orders == map[] && fills == []
    {
      orders, fills := map[], [];
    }

    method SubmitOrder(o: Order) returns (r: Result<Order>)
      modifies this
      ensures Reply(orders, r) == BrokerSubmit(old(orders), o) && fills == old(fills)
    {
      if o.id in orders {
        return Err(OrderExists);
      }
      var order := o;
      if order.status.Created? {
        order := order.(status := Submitted);
      } else if !order.status.Submitted? {
        return Err(NotSubmittable);
      }
      orders := orders[order.id := order];
      r := Ok(order);
    }

    method CancelById(key: string) returns (r: Result<Order>)
      modifies this
      ensures Reply(orders, r) == BrokerCancel(old(orders), key) && fills == old(fills)
    {
      if key !in orders {
        return Err(UnknownOrder);
      }
      r := CancelOrder(orders[key]);
      if r.Ok? {
        orders := orders[key := r.value];
      }
    }

    method RejectById(key: string) returns (r: Result<Order>)
      modifies this
      ensures Reply(orders, r) == BrokerReject(old(orders), key) && fills == old(fills)
    {
      if key !in orders {
        return Err(UnknownOrder);
      }
      r := RejectOrder(orders[key]);
      if r.Ok? {
        orders := orders[key := r.value];
      }
    }

    method InjectFill(f: Fill) returns (r: Result<Order>)
      modifies this
      ensures Reply(orders, r) == BrokerInject(old(orders), f)
      ensures fills == if r.Ok? then old(fills) + [f] else old(fills)
    {
      if f.order !in orders {
        return Err(UnknownOrder);
      }
      var order := orders[f.order];
      if !Fillable(order) {
        return Err(NotFillable);
      }
      if f.quantity > Remaining(order) {
        return Err(ExceedsRemaining);
      }
      var previousQuantity := order.filled;
      var previousAverage := if order.average.Some? then order.average.value else 0.0;
      var newQuantity := previousQuantity + f.quantity;
      var newAverage := f.price;
      if previousQuantity != 0 {
        newAverage := (previousAverage * previousQuantity as real + f.price * f.quantity as real)
                      / newQuantity as real;
      }
      assert newAverage == BrokerAverage(order, f);
      hide BrokerAverage;
      r := ApplyFill(order, f.quantity, newAverage);
      if r.Ok? {
        orders := orders[order.id := r.value];
        fills := fills + [f];
      }
    }
  }

  // ---------------------------------------------------------------------------------------------
  // The engine with a broker attached
  // ---------------------------------------------------------------------------------------------

  /** Both parties' books. */
  datatype Desk = Desk(book: Book, broker: Orders)

  datatype DeskStep = DeskStep(desk: Desk, result: Result<Done>)

  /** A submission the engine accepts is passed on; if the broker refuses it, the intent is released but
      the engine keeps the order it has written. */
  function PassOn(d: Desk, intent: Intent, s: Step): DeskStep {
    if s.result.Err? || !s.result.value.Ordered? then DeskStep(Desk(s.book, d.broker), s.result)
    else
      var reply := BrokerSubmit(d.broker, s.result.value.order);
      if reply.result.Err? then
        DeskStep(Desk(s.book.(intents := s.book.intents - {intent}), reply.orders), Err(reply.result.error))
      else
        var o := reply.result.value;
        DeskStep(Desk(s.book.(orders := s.book.orders[o.id := o]), reply.orders), Ok(Ordered(o)))
  }

  /** A cancellation or rejection the engine has made is repeated by the broker, whose order wins. */
  function Repeat(d: Desk, key: string, s: Step, reply: Reply): DeskStep {
    if s.result.Err? then DeskStep(Desk(s.book, d.broker), s.result)
    else if reply.result.Err? then DeskStep(Desk(s.book, reply.orders), Err(reply.result.error))
    else DeskStep(Desk(s.book.(orders := s.book.orders[key := reply.result.value]), reply.orders),
                  Ok(Ordered(reply.result.value)))
  }

  class Engine {
    var orders: Orders
    var positions: map<string, Position>
    var closed: map<string, PositionClose>
    var intents: set<Intent>
    var orderIntents: map<string, Intent>
    var fillIds: set<string>
    var broker: PaperBroker?

    ghost function View(): Book
      reads this
    {
      Book(orders, positions, closed, intents, orderIntents, fillIds)
    }

    constructor (broker: PaperBroker?)
      ensures View() == EMPTY && this.broker == broker
    {
      this.broker := broker;
      orders, positions, closed, intents, orderIntents, fillIds := map[], map[], map[], {}, map[], {};
    }

    method SubmitEntry(intent: Intent, quantity: int, freshId: string) returns (r: Result<Done>)
      modifies this, broker
      ensures broker == old(broker)
      ensures broker == null ==> Step(View(), r) == ExecutionBook.SubmitEntry(old(View()), intent, quantity, freshId)
      ensures broker != null ==>
        DeskStep(Desk(View(), broker.orders), r)
          == PassOn(old(Desk(View(), broker.orders)), intent,
                    ExecutionBook.SubmitEntry(old(View()), intent, quantity, freshId))
    {
      if !intent.action.Enter? {
        return Err(WrongAction);
      }
      if intent.signal.Flat? {
        return Err(WrongSignal);
      }
      if quantity <= 0 {
        return Err(BadQuantity);
      }
      if intent.strategy in positions {
        return Err(AlreadyOpen);
      }
      if intent in intents {
        return Err(DuplicateIntent);
      }
      intents := intents + {intent};
      var order := Order(freshId, intent.strategy, SideOf(intent.signal).value, quantity, Submitted, 0, None);
      r := Submit(intent, order);
    }

    method SubmitExit(intent: Intent, freshId: string) returns (r: Result<Done>)
      modifies this, broker
      ensures broker == old(broker)
      ensures broker == null ==> Step(View(), r) == ExecutionBook.SubmitExit(old(View()), intent, freshId)
      ensures broker != null ==>
        DeskStep(Desk(View(), broker.orders), r)
          == PassOn(old(Desk(View(), broker.orders)), intent,
                    ExecutionBook.SubmitExit(old(View()), intent, freshId))
    {
      if !intent.action.Exit? {
        return Err(WrongAction);
      }
      if !intent.signal.Flat? {
        return Err(WrongSignal);
      }
      if intent.strategy !in positions {
        return Err(NoOpenPosition);
      }
      if intent in intents {
        return Err(DuplicateIntent);
      }
      intents := intents + {intent};
      var position := positions[intent.strategy];
      var exitSide := if position.side.Long? then Short else Long;
      r := Submit(intent, Order(freshId, intent.strategy, exitSide, position.quantity, Submitted, 0, None));
    }

    /** Writes a new order, offers it to the broker, and writes what the broker made of it. */
    method Submit(intent: Intent, order: Order) returns (r: Result<Done>)
      requires intent in intents
      modifies this, broker
      ensures broker == old(broker)
      ensures broker == null ==> Step(View(), r) == Place(old(View()), intent, order)
      ensures broker != null ==>
        DeskStep(Desk(View(), broker.orders), r)
          == PassOn(old(Desk(View(), broker.orders)), intent, Place(old(View()), intent, order))
    {
      assert intents + {intent} == intents;
      orders := orders[order.id := order];
      orderIntents := orderIntents[order.id := intent];
      r := Ok(Ordered(order));
      if broker != null {
        var reply := broker.SubmitOrder(order);
        if reply.Err? {
          intents := intents - {intent};
          return Err(reply.error);
        }
        orders := orders[reply.value.id := reply.value];
        r := Ok(Ordered(reply.value));
      }
    }

    method EntryFillObject(f: Fill) returns (r: Result<Done>)
      modifies this
      ensures broker == old(broker) && Step(View(), r) == EntryFill(old(View()), f)
    {
      if f.order !in orders {
        return Err(UnknownOrder);
      }
      var order := orders[f.order];
      if !Fillable(order) {
        return Err(NotFillable);
      }
      if f.quantity > Remaining(order) {
        return Err(ExceedsRemaining);
      }
      var filled := ApplyFill(order, f.quantity, FillAverage(order, f));
      if filled.Err? {
        return Err(filled.error);
      }
      orders := orders[filled.value.id := filled.value];
      if f.strategy !in positions {
        positions := positions[f.strategy := OpenPosition(f)];
      } else {
        if positions[f.strategy].side != f.side {
          return Err(OppositeSide);
        }
        positions := positions[f.strategy := AddPositionFill(positions[f.strategy], f)];
      }
      r := Ok(Executed(f));
    }

    method ExitFillObject(f: Fill) returns (r: Result<Done>)
      modifies this
      ensures broker == old(broker) && Step(View(), r) == ExitFill(old(View()), f)
    {
      if f.order !in orders {
        return Err(UnknownOrder);
      }
      var order := orders[f.order];
      if !Fillable(order) {
        return Err(NotFillable);
      }
      if f.quantity > Remaining(order) {
        return Err(ExceedsRemaining);
      }
      if f.strategy !in positions {
        return Err(NoOpenPosition);
      }
      var position := positions[f.strategy];
      if f.quantity > position.quantity {
        return Err(ExceedsPosition);
      }
      if f.side == position.side {
        return Err(SameSide);
      }
      var filled := ApplyFill(order, f.quantity, FillAverage(order, f));
      if filled.Err? {
        return Err(filled.error);
      }
      orders := orders[filled.value.id := filled.value];
      if f.quantity < position.quantity {
        positions := positions[f.strategy := position.(quantity := position.quantity - f.quantity)];
        return Ok(Executed(f));
      }
      var close := ClosePosition(position, f);
      closed := closed[f.strategy := close];
      positions := positions - {f.strategy};
      r := Ok(ClosedOut(f, close));
    }

    method ProcessEntryFill(order: string, price: real, time: int, amount: Option<int>, fillId: string)
      returns (r: Result<Done>)
      modifies this
      ensures broker == old(broker)
      ensures Step(View(), r) == ExecutionBook.ProcessEntryFill(old(View()), order, price, time, amount, fillId)
    {
      if order !in orders {
        return Err(UnknownOrder);
      }
      var o := orders[order];
      if !Fillable(o) {
        return Err(NotFillable);
      }
      var quantity := if amount.None? then Remaining(o) else amount.value;
      if quantity <= 0 {
        return Err(BadQuantity);
      }
      if quantity > Remaining(o) {
        return Err(ExceedsRemaining);
      }
      if price <= 0.0 {
        return Err(BadPrice);
      }
      r := EntryFillObject(Fill(fillId, o.id, o.strategy, o.side, quantity, price, time));
    }

    method ProcessExitFill(order: string, price: real, time: int, amount: Option<int>, fillId: string)
      returns (r: Result<Done>)
      modifies this
      ensures broker == old(broker)
      ensures Step(View(), r) == ExecutionBook.ProcessExitFill(old(View()), order, price, time, amount, fillId)
    {
      if order !in orders {
        return Err(UnknownOrder);
      }
      var o := orders[order];
      if !Fillable(o) {
        return Err(NotFillable);
      }
      if o.strategy !in positions {
        return Err(NoOpenPosition);
      }
      var position := positions[o.strategy];
      var quantity := if amount.None? then position.quantity else amount.value;
      if quantity <= 0 {
        return Err(BadQuantity);
      }
      if quantity > position.quantity {
        return Err(ExceedsPosition);
      }
      if quantity > Remaining(o) {
        return Err(ExceedsRemaining);
      }
      if price <= 0.0 {
        return Err(BadPrice);
      }
      r := ExitFillObject(Fill(fillId, o.id, o.strategy, o.side, quantity, price, time));
    }

    method ProcessBrokerFill(f: Fill) returns (r: Result<Done>)
      modifies this
      ensures broker == old(broker)
      ensures Step(View(), r) == ExecutionBook.ProcessBrokerFill(old(View()), f)
    {
      hide EntryFill, ExitFill;
      if f.id in fillIds {
        return Err(DuplicateFill);
      }
      if f.order !in orders {
        return Err(UnknownOrder);
      }
      var order := orders[f.order];
      if !Fillable(order) {
        return Err(NotFillable);
      }
      if f.strategy !in positions || positions[f.strategy].side == order.side {
        r := EntryFillObject(f);
      } else {
        r := ExitFillObject(f);
      }
      KeepsFillIds(old(View()), f);
      if r.Ok? {
        fillIds := fillIds + {f.id};
      }
    }

    method CancelById(key: string) returns (r: Result<Done>)
      modifies this, broker
      ensures broker == old(broker)
      ensures broker == null ==> Step(View(), r) == Cancel(old(View()), key)
      ensures broker != null ==>
        DeskStep(Desk(View(), broker.orders), r)
          == Repeat(old(Desk(View(), broker.orders)), key, Cancel(old(View()), key),
                    BrokerCancel(old(broker.orders), key))
    {
      if key !in orders {
        return Err(UnknownOrder);
      }
      var updated := CancelOrder(orders[key]);
      if updated.Err? {
        return Err(updated.error);
      }
      orders := orders[key := updated.value];
      r := Ok(Ordered(updated.value));
      if broker != null {
        var reply := broker.CancelById(key);
        if reply.Err? {
          return Err(reply.error);
        }
        orders := orders[key := reply.value];
        r := Ok(Ordered(reply.value));
      }
    }

    method RejectById(key: string) returns (r: Result<Done>)
      modifies this, broker
      ensures broker == old(broker)
      ensures broker == null ==> Step(View(), r) == Reject(old(View()), key)
      ensures broker != null ==>
        DeskStep(Desk(View(), broker.orders), r)
          == Repeat(old(Desk(View(), broker.orders)), key, Reject(old(View()), key),
                    BrokerReject(old(broker.orders), key))
    {
      if key !in orders {
        return Err(UnknownOrder);
      }
      var updated := RejectOrder(orders[key]);
      if updated.Err? {
        return Err(updated.error);
      }
      orders := orders[key := updated.value];
      if key in orderIntents {
        intents := intents - {orderIntents[key]};
      }
      r := Ok(Ordered(updated.value));
      if broker != null {
        var reply := broker.RejectById(key);
        if reply.Err? {
          return Err(reply.error);
        }
        orders := orders[key := reply.value];
        r := Ok(Ordered(reply.value));
      }
    }
  }

  lemma KeepsFillIds(b: Book, f: Fill)
    ensures EntryFill(b, f).book.fillIds == b.fillIds && ExitFill(b, f).book.fillIds == b.fillIds
  {
  }
}

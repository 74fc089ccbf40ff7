/** Orders, fills and positions as immutable values, and the transitions that build new ones. A raised
    exception is an `Err`.
 */
module ExecutionTypes {
  import opened Options

  datatype Side = Long | Short

  datatype Signal = GoLong | GoShort | Flat

  datatype Action = Enter | Exit | Hold

  datatype OrderStatus = Created | Submitted | PartiallyFilled | Filled | Cancelled | RejectedOrder

  datatype Error =
    | WrongAction | WrongSignal | BadQuantity | BadPrice | AlreadyOpen | NoOpenPosition
    | DuplicateIntent | DuplicateFill | UnknownOrder | OrderExists | NotSubmittable | NotFillable
    | ExceedsRemaining | ExceedsPosition | OppositeSide | SameSide | NotCancellable | NotRejectable
    | NotConnected

  datatype Result<+T> = Ok(value: T) | Err(error: Error)

  datatype IntentRecord = Intent(strategy: string, version: string, signal: Signal, action: Action,
                                 reason: Option<string>, time: int)

  datatype OrderRecord = Order(id: string, strategy: string, side: Side, quantity: int,
                               status: OrderStatus, filled: int, average: Option<real>)

  datatype FillRecord = Fill(id: string, order: string, strategy: string, side: Side, quantity: int,
                             price: real, time: int)

  datatype PositionRecord = Position(strategy: string, side: Side, quantity: int, entryPrice: real,
                                     entryTime: int)

  datatype PositionClose = PositionClose(strategy: string, side: Side, quantity: int, entryPrice: real,
                                         exitPrice: real, entryTime: int, exitTime: int)

  // The constructors check every new value, so the types only hold values that pass.

  type Intent = i: IntentRecord |
    (i.action.Enter? ==> !i.signal.Flat?) && (i.action.Exit? ==> i.signal.Flat?)
    witness Intent("", "", Flat, Exit, None, 0)

  type Order = o: OrderRecord |
    && o.quantity > 0 && 0 <= o.filled <= o.quantity
    && (o.average.Some? ==> o.average.value > 0.0)
    && (o.status.Filled? ==> o.filled == o.quantity && o.average.Some?)
    && (o.status.PartiallyFilled? ==> 0 < o.filled < o.quantity && o.average.Some?)
    witness Order("", "", Long, 1, Created, 0, None)

  type Fill = f: FillRecord | f.quantity > 0 && f.price > 0.0
    witness Fill("", "", "", Long, 1, 1.0, 0)

  type Position = p: PositionRecord | p.quantity > 0 && p.entryPrice > 0.0
    witness Position("", Long, 1, 1.0, 0)

  function Remaining(o: Order): (n: int)
    ensures 0 <= n <= o.quantity
  {
    o.quantity - o.filled
  }

  predicate Fillable(o: Order) { o.status.Submitted? || o.status.PartiallyFilled? }

  function Opposite(s: Side): Side { if s.Long? then Short else Long }

  function SideOf(s: Signal): Option<Side> {
    match s
    case GoLong => Some(Long)
    case GoShort => Some(Short)
    case Flat => None
  }

  // ---------------------------------------------------------------------------------------------
  // Order transitions
  // ---------------------------------------------------------------------------------------------

  function SubmitOrder(o: Order): Result<Order> {
    if !o.status.Created? then Err(NotSubmittable) else Ok(o.(status := Submitted))
  }

  function ApplyFill(o: Order, quantity: int, average: real): Result<Order> {
    if !Fillable(o) then Err(NotFillable)
    else if quantity <= 0 then Err(BadQuantity)
    else if quantity > Remaining(o) then Err(ExceedsRemaining)
    else if average <= 0.0 then Err(BadPrice)
    else
      var filled := o.filled + quantity;
      Ok(o.(status := if filled == o.quantity then Filled else PartiallyFilled,
            filled := filled, average := Some(average)))
  }

  function CancelOrder(o: Order): Result<Order> {
    if !Fillable(o) then Err(NotCancellable) else Ok(o.(status := Cancelled))
  }

  function RejectOrder(o: Order): Result<Order> {
    if !o.status.Created? && !o.status.Submitted? then Err(NotRejectable)
    else Ok(o.(status := RejectedOrder))
  }

  predicate Terminal(o: Order) {
    o.status.Filled? || o.status.Cancelled? || o.status.RejectedOrder?
  }

  /** FILLED, CANCELLED and REJECTED orders take part in no further transition; no transition changes the
      quantity ordered or loses what was filled, and only the fill of all that remains completes it. */
  lemma TransitionsAreFinal(o: Order, quantity: int, average: real)
    ensures Terminal(o) ==> SubmitOrder(o).Err? && ApplyFill(o, quantity, average).Err?
                            && CancelOrder(o).Err? && RejectOrder(o).Err?
    ensures forall t :: t in [SubmitOrder(o), ApplyFill(o, quantity, average), CancelOrder(o), RejectOrder(o)]
                        && t.Ok? ==>
      && t.value.quantity == o.quantity && t.value.id == o.id && o.filled <= t.value.filled
      && (t.value.status.Filled? <==> ApplyFill(o, quantity, average) == t && quantity == Remaining(o))
  {
  }

  // ---------------------------------------------------------------------------------------------
  // Averages and positions
  // ---------------------------------------------------------------------------------------------

  /** The average price of `q` units at `average` and `k` more at `price`. */
  function Blend(q: int, average: real, k: int, price: real): real
    requires q >= 0 && k > 0
  {
    (q as real * average + k as real * price) / (q + k) as real
  }

  function FillAverage(o: Order, f: Fill): real {
    if o.filled == 0 || o.average.None? then f.price
    else Blend(o.filled, o.average.value, f.quantity, f.price)
  }

  function OpenPosition(f: Fill): Position {
    Position(f.strategy, f.side, f.quantity, f.price, f.time)
  }

  function AddPositionFill(p: Position, f: Fill): Position {
    BlendIsPositive(p.quantity, p.entryPrice, f.quantity, f.price);
    p.(quantity := p.quantity + f.quantity,
       entryPrice := Blend(p.quantity, p.entryPrice, f.quantity, f.price))
  }

  function ClosePosition(p: Position, f: Fill): PositionClose {
    PositionClose(p.strategy, p.side, p.quantity, p.entryPrice, f.price, p.entryTime, f.time)
  }

  lemma BlendIsPositive(q: int, average: real, k: int, price: real)
    requires q >= 0 && k > 0 && average > 0.0 && price > 0.0
    ensures Blend(q, average, k, price) > 0.0
  {
    var least := if average <= price then average else price;
    BlendIsBetween(q, average, k, price, least, if average <= price then price else average);
  }

  /** A blended average keeps the total value. */
  lemma BlendKeepsValue(q: int, average: real, k: int, price: real)
    requires q >= 0 && k > 0
    ensures (q + k) as real * Blend(q, average, k, price) == q as real * average + k as real * price
  {
  }

  /** A blended average lies between whatever bounds both its prices. */
  lemma BlendIsBetween(q: int, average: real, k: int, price: real, lo: real, hi: real)
    requires q >= 0 && k > 0
    requires lo <= average <= hi && lo <= price <= hi
    ensures lo <= Blend(q, average, k, price) <= hi
  {
    BlendKeepsValue(q, average, k, price);
    Between(q as real, k as real, average, price, lo, hi, Blend(q, average, k, price));
  }

  lemma Between(q: real, k: real, average: real, price: real, lo: real, hi: real, b: real)
    requires q >= 0.0 && k >= 0.0 && q + k > 0.0
    requires lo <= average <= hi && lo <= price <= hi
    requires (q + k) * b == q * average + k * price
    ensures lo <= b <= hi
  {
    Product(q, average - lo);
    Product(k, price - lo);
    assert (q + k) * (b - lo) == q * (average - lo) + k * (price - lo);
    Factor(q + k, b - lo);
    Product(q, hi - average);
    Product(k, hi - price);
    assert (q + k) * (hi - b) == q * (hi - average) + k * (hi - price);
    Factor(q + k, hi - b);
  }

  lemma Product(a: real, b: real)
    requires a >= 0.0 && b >= 0.0
    ensures a * b >= 0.0
  {
  }

  lemma Factor(a: real, b: real)
    requires a > 0.0 && a * b >= 0.0
    ensures b >= 0.0
  {
  }
}

/** Which calls return, what they leave, and that an order that is over stays over. Conditions and results are
    written out.
 */
module ExecutionLifecycle {
  import opened Options
  import opened ExecutionTypes
  import opened ExecutionBook
  import opened ExecutionRuns
  import opened ExecutionEngine

  // ---------------------------------------------------------------------------------------------
  // One transition
  // ---------------------------------------------------------------------------------------------

  predicate Working(o: Order) { o.status == Submitted || o.status == PartiallyFilled }

  /** Which transitions an order admits, and every field of what they make of it. */
  lemma TransitionsExactly(o: Order, quantity: int, average: real)
    ensures SubmitOrder(o).Ok? <==> o.status == Created
    ensures SubmitOrder(o).Ok? ==>
              SubmitOrder(o).value == Order(o.id, o.strategy, o.side, o.quantity, Submitted, o.filled, o.average)
    ensures CancelOrder(o).Ok? <==> Working(o)
    ensures CancelOrder(o).Ok? ==>
              CancelOrder(o).value == Order(o.id, o.strategy, o.side, o.quantity, Cancelled, o.filled, o.average)
    ensures RejectOrder(o).Ok? <==> o.status == Created || o.status == Submitted
    ensures RejectOrder(o).Ok? ==>
              RejectOrder(o).value == Order(o.id, o.strategy, o.side, o.quantity, RejectedOrder, o.filled, o.average)
    ensures ApplyFill(o, quantity, average).Ok? <==>
              Working(o) && 0 < quantity <= o.quantity - o.filled && average > 0.0
    ensures ApplyFill(o, quantity, average).Ok? ==>
              ApplyFill(o, quantity, average).value
                == Order(o.id, o.strategy, o.side, o.quantity,
                         if o.filled + quantity == o.quantity then Filled else PartiallyFilled,
                         o.filled + quantity, Some(average))
  {
  }

  // ---------------------------------------------------------------------------------------------
  // Which calls return
  // ---------------------------------------------------------------------------------------------

  predicate Known(b: Book, order: string) { order in b.orders && Working(b.orders[order]) }

  /** A fill of a working order by `q` units, which leaves nothing over. */
  predicate Room(b: Book, order: string, q: int) {
    Known(b, order) && 0 < q <= b.orders[order].quantity - b.orders[order].filled
  }

  /** The guard of every call. */
  predicate Returns(b: Book, c: Command) {
    match c
    case CmdEntry(intent, quantity, freshId) =>
      && intent.action == Enter && intent.signal != Flat && quantity > 0
      && intent.strategy !in b.positions && intent !in b.intents
    case CmdExit(intent, freshId) =>
      intent.action == Exit && intent.signal == Flat && intent.strategy in b.positions && intent !in b.intents
    case CmdEntryFill(order, price, time, amount, fillId) =>
      && Known(b, order) && price > 0.0
      && (var o := b.orders[order];
          && Room(b, order, if amount.None? then o.quantity - o.filled else amount.value)
          && (o.strategy in b.positions ==> b.positions[o.strategy].side == o.side))
    case CmdExitFill(order, price, time, amount, fillId) =>
      && Known(b, order) && price > 0.0 && b.orders[order].strategy in b.positions
      && (var o := b.orders[order];
          var p := b.positions[o.strategy];
          var q := if amount.None? then p.quantity else amount.value;
          Room(b, order, q) && q <= p.quantity && o.side != p.side)
    case CmdBrokerFill(f) =>
      && f.id !in b.fillIds && Room(b, f.order, f.quantity)
      && (f.strategy in b.positions ==>
            var p := b.positions[f.strategy];
            if p.side == b.orders[f.order].side then f.side == p.side
            else f.side != p.side && f.quantity <= p.quantity)
    case CmdCancel(order) => Known(b, order)
    case CmdReject(order) =>
      order in b.orders && (b.orders[order].status == Created || b.orders[order].status == Submitted)
  }

  lemma EntryReturns(b: Book, f: Fill)
    requires Keyed(b)
    ensures EntryFill(b, f).result.Ok? <==>
              Room(b, f.order, f.quantity) && (f.strategy in b.positions ==> b.positions[f.strategy].side == f.side)
  {
    hide FillAverage, AddPositionFill, CheckFill;
    CheckFillExactly(b, f);
  }

  lemma ExitReturns(b: Book, f: Fill)
    requires Keyed(b)
    ensures ExitFill(b, f).result.Ok? <==>
              && Room(b, f.order, f.quantity) && f.strategy in b.positions
              && b.positions[f.strategy].side != f.side && f.quantity <= b.positions[f.strategy].quantity
  {
    hide FillAverage, CheckFill;
    CheckFillExactly(b, f);
  }

  /** A call returns if and only if its guard holds; all others raise. */
  lemma CallsReturnExactlyWhen(b: Book, c: Command)
    requires Keyed(b)
    ensures Apply(b, c).result.Ok? <==> Returns(b, c)
  {
    hide EntryFill, ExitFill, Keyed;
    match c
    case CmdEntryFill(order, price, time, amount, fillId) =>
      if order in b.orders {
        FiledUnder(b, order);
        var o := b.orders[order];
        var q := if amount.None? then Remaining(o) else amount.value;
        if q > 0 && price > 0.0 {
          EntryReturns(b, Fill(fillId, o.id, o.strategy, o.side, q, price, time));
        }
      }
    case CmdExitFill(order, price, time, amount, fillId) =>
      if order in b.orders && b.orders[order].strategy in b.positions {
        FiledUnder(b, order);
        var o := b.orders[order];
        var q := if amount.None? then b.positions[o.strategy].quantity else amount.value;
        if q > 0 && price > 0.0 {
          ExitReturns(b, Fill(fillId, o.id, o.strategy, o.side, q, price, time));
        }
      }
    case CmdBrokerFill(f) =>
      EntryReturns(b, f);
      ExitReturns(b, f);
    case _ =>
  }

  /** What a call that reports a fill by its order executes: the order's strategy and side, the quantity given or else
      all that remains of the order, or all of the position. */
  lemma ReportedFills(b: Book, order: string, price: real, time: int, amount: Option<int>, fillId: string)
    requires Keyed(b)
    ensures Returns(b, CmdEntryFill(order, price, time, amount, fillId)) ==>
              var o := b.orders[order];
              var q := if amount == None then o.quantity - o.filled else amount.value;
              ProcessEntryFill(b, order, price, time, amount, fillId).result
                == Ok(Executed(Fill(fillId, order, o.strategy, o.side, q, price, time)))
    ensures Returns(b, CmdExitFill(order, price, time, amount, fillId)) ==>
              var o := b.orders[order];
              var p := b.positions[o.strategy];
              var q := if amount == None then p.quantity else amount.value;
              var f := Fill(fillId, order, o.strategy, o.side, q, price, time);
              var close := PositionClose(p.strategy, p.side, p.quantity, p.entryPrice, price, p.entryTime, time);
              ProcessExitFill(b, order, price, time, amount, fillId).result
                == Ok(if q == p.quantity then ClosedOut(f, close) else Executed(f))
  {
    hide Keyed, CheckFill, AddPositionFill, Room, Returns;
    CallsReturnExactlyWhen(b, CmdEntryFill(order, price, time, amount, fillId));
    CallsReturnExactlyWhen(b, CmdExitFill(order, price, time, amount, fillId));
    ReturnsKnown(b, order, price, time, amount, fillId);
    if order in b.orders {
      FiledUnder(b, order);
    }
  }

  lemma ReturnsKnown(b: Book, order: string, price: real, time: int, amount: Option<int>, fillId: string)
    ensures Returns(b, CmdEntryFill(order, price, time, amount, fillId)) ==>
              && Known(b, order) && price > 0.0
              && (amount == None || amount.value > 0)
    ensures Returns(b, CmdExitFill(order, price, time, amount, fillId)) ==>
              && Known(b, order) && price > 0.0 && b.orders[order].strategy in b.positions
              && (amount == None || amount.value > 0)
  {
  }

  /** The order a submission files: the intent's side and the quantity asked for, or the other side of the
      position and all of it. */
  lemma SubmissionsFile(b: Book, intent: Intent, quantity: int, id: string)
    ensures Returns(b, CmdEntry(intent, quantity, id)) ==>
              var side := if intent.signal == GoLong then Long else Short;
              var after := SubmitEntry(b, intent, quantity, id).book;
              && after.orders == b.orders[id := Order(id, intent.strategy, side, quantity, Submitted, 0, None)]
              && after.positions == b.positions && after.intents == b.intents + {intent}
    ensures Returns(b, CmdExit(intent, id)) ==>
              var p := b.positions[intent.strategy];
              var side := if p.side == Long then Short else Long;
              var after := SubmitExit(b, intent, id).book;
              && after.orders == b.orders[id := Order(id, intent.strategy, side, p.quantity, Submitted, 0, None)]
              && after.positions == b.positions && after.intents == b.intents + {intent}
  {
  }

  /** A cancellation that returns leaves the order cancelled, as large and as full as it was, and everything else
      as it was; a rejection leaves it rejected and lets its intent go. */
  lemma ClosingLeaves(b: Book, k: string)
    ensures Cancel(b, k).result.Ok? ==>
              && k in b.orders
              && var o := b.orders[k];
                 Cancel(b, k).book == b.(orders := b.orders[k :=
                   Order(o.id, o.strategy, o.side, o.quantity, Cancelled, o.filled, o.average)])
    ensures Reject(b, k).result.Ok? ==>
              && k in b.orders
              && var o := b.orders[k];
                 Reject(b, k).book == b.(
                   orders := b.orders[k :=
                     Order(o.id, o.strategy, o.side, o.quantity, RejectedOrder, o.filled, o.average)],
                   intents := b.intents - if k in b.orderIntents then {b.orderIntents[k]} else {})
  {
    assert b.intents - {} == b.intents;
  }

  // ---------------------------------------------------------------------------------------------
  // Orders that are over
  // ---------------------------------------------------------------------------------------------

  predicate Over(o: Order) {
    o.status == Cancelled || o.status == RejectedOrder || o.status == Filled
  }

  /** The call fills, cancels or rejects this order. */
  predicate Names(c: Command, k: string) {
    match c
    case CmdEntryFill(order, _, _, _, _) => order == k
    case CmdExitFill(order, _, _, _, _) => order == k
    case CmdBrokerFill(f) => f.order == k
    case CmdCancel(order) => order == k
    case CmdReject(order) => order == k
    case _ => false
  }

  lemma OverRefuses(b: Book, c: Command, k: string)
    requires Keyed(b) && k in b.orders && Over(b.orders[k]) && Names(c, k)
    ensures Apply(b, c).result.Err?
  {
    hide Keyed, Apply;
    CallsReturnExactlyWhen(b, c);
  }

  lemma FillPassesBy(b: Book, f: Fill, entry: bool, k: string)
    requires Keyed(b) && k in b.orders && Over(b.orders[k])
    ensures var after := FillStep(b, f, entry).book.orders; k in after && after[k] == b.orders[k]
  {
    hide CheckFill, AddPositionFill;
    CheckFillExactly(b, f);
    if CheckFill(b, f).Ok? {
      CheckedOrder(b, f);
      FiledUnder(b, f.order);
    }
  }

  lemma OverStaysOneCall(b: Book, c: Command, k: string)
    requires Keyed(b) && FreshId(b, c) && k in b.orders && Over(b.orders[k])
    ensures var after := Apply(b, c).book.orders; k in after && after[k] == b.orders[k]
  {
    hide EntryFill, ExitFill, Keyed;
    match c
    case CmdEntryFill(order, price, time, amount, fillId) =>
      if order in b.orders {
        var o := b.orders[order];
        var q := if amount.None? then Remaining(o) else amount.value;
        if q > 0 && price > 0.0 {
          FillPassesBy(b, Fill(fillId, o.id, o.strategy, o.side, q, price, time), true, k);
        }
      }
    case CmdExitFill(order, price, time, amount, fillId) =>
      if order in b.orders && b.orders[order].strategy in b.positions {
        var o := b.orders[order];
        var q := if amount.None? then b.positions[o.strategy].quantity else amount.value;
        if q > 0 && price > 0.0 {
          FillPassesBy(b, Fill(fillId, o.id, o.strategy, o.side, q, price, time), false, k);
        }
      }
    case CmdBrokerFill(f) =>
      FillPassesBy(b, f, true, k);
      FillPassesBy(b, f, false, k);
    case _ =>
  }

  lemma RunKeyed(cs: seq<Command>)
    requires RunAll(cs).Some?
    ensures Keyed(RunAll(cs).value.book)
  {
    hide RunAll, Keyed;
    IntentsOverRuns(cs);
    ServedKeyed(RunAll(cs).value.book);
  }

  /** An order that is over at some point of a run is the same in every later book. */
  lemma {:induction false} OverStays(cs: seq<Command>, n: nat, k: string)
    requires RunAll(cs).Some? && n <= |cs| && RunAll(cs[..n]).Some?
    requires var orders := RunAll(cs[..n]).value.book.orders; k in orders && Over(orders[k])
    ensures var before, after := RunAll(cs[..n]).value.book.orders, RunAll(cs).value.book.orders;
            k in after && after[k] == before[k]
  {
    if n == |cs| {
      assert cs[..n] == cs;
    } else {
      hide RunAll, Apply, LateCall, Keyed;
      OneCall(cs);
      var front := cs[..|cs| - 1];
      assert front[..n] == cs[..n];
      OverStays(front, n, k);
      RunKeyed(front);
      OverStaysOneCall(RunAll(front).value.book, cs[|cs| - 1], k);
    }
  }

  /** And every later fill, cancellation or rejection of it raises. */
  lemma OverRefusesEverAfter(cs: seq<Command>, n: nat, j: nat, k: string)
    requires RunAll(cs).Some? && n <= j < |cs| && RunAll(cs[..n]).Some? && Names(cs[j], k)
    requires var orders := RunAll(cs[..n]).value.book.orders; k in orders && Over(orders[k])
    ensures RunAll(cs[..j]).Some? && Apply(RunAll(cs[..j]).value.book, cs[j]).result.Err?
  {
    hide RunAll, Apply, Keyed;
    RunPrefix(cs, j);
    assert cs[..j][..n] == cs[..n];
    OverStays(cs[..j], n, k);
    RunKeyed(cs[..j]);
    OverRefuses(RunAll(cs[..j]).value.book, cs[j], k);
  }

  // ---------------------------------------------------------------------------------------------
  // The broker's side
  // ---------------------------------------------------------------------------------------------

  /** The broker files a new order as submitted; a known id, or an order that is further on, is refused. */
  lemma BrokerFilesExactly(orders: Orders, o: Order)
    ensures var reply := BrokerSubmit(orders, o);
            if o.id !in orders && (o.status == Created || o.status == Submitted) then
              var filed: Order := Order(o.id, o.strategy, o.side, o.quantity, Submitted, o.filled, o.average);
              reply.result == Ok(filed) && reply.orders == orders[o.id := filed]
            else reply.result.Err? && reply.orders == orders
  {
  }

  /** Cancelling, rejecting and filling at the broker. */
  lemma BrokerClosesExactly(orders: Orders, k: string, f: Fill)
    requires forall j :: j in orders ==> orders[j].id == j
    ensures BrokerCancel(orders, k).result.Ok? <==> k in orders && Working(orders[k])
    ensures BrokerCancel(orders, k).result.Ok? ==>
              BrokerCancel(orders, k).orders[k].status == Cancelled
    ensures BrokerReject(orders, k).result.Ok? <==>
              k in orders && (orders[k].status == Created || orders[k].status == Submitted)
    ensures BrokerReject(orders, k).result.Ok? ==> BrokerReject(orders, k).orders[k].status == RejectedOrder
    ensures BrokerInject(orders, f).result.Ok? ==>
              && f.order in orders && Working(orders[f.order])
              && BrokerInject(orders, f).orders[f.order].filled == orders[f.order].filled + f.quantity
    ensures forall r, j :: r in [BrokerCancel(orders, k), BrokerReject(orders, k)] && j in orders && j != k ==>
              j in r.orders && r.orders[j] == orders[j]
  {
    hide BrokerAverage;
  }

  /** If the broker refuses what the engine has submitted, the intent is free again, the engine keeps its order and
      the broker's book is as it was. */
  lemma RefusedSubmission(d: Desk, intent: Intent, s: Step)
    requires s.result.Ok? && s.result.value.Ordered? && BrokerSubmit(d.broker, s.result.value.order).result.Err?
    ensures var after := PassOn(d, intent, s);
            && after.result.Err? && after.desk.broker == d.broker
            && after.desk.book == s.book.(intents := s.book.intents - {intent})
  {
    BrokerFilesExactly(d.broker, s.result.value.order);
  }
}

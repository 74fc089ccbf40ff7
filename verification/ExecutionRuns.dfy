/** What the execution engine's books say after any sequence of calls, refused ones included. The one kind of
    call that raises after writing is kept out by its guard; what it does is in ExecutionRaises.
 */
module ExecutionRuns {
  import opened Options
  import opened ExecutionTypes
  import opened ExecutionBook

  datatype Command =
    | CmdEntry(intent: Intent, quantity: int, freshId: string)
    | CmdExit(intent: Intent, freshId: string)
    | CmdEntryFill(order: string, price: real, time: int, amount: Option<int>, fillId: string)
    | CmdExitFill(order: string, price: real, time: int, amount: Option<int>, fillId: string)
    | CmdBrokerFill(fill: Fill)
    | CmdCancel(order: string)
    | CmdReject(order: string)

  function Apply(b: Book, c: Command): Step {
    match c
    case CmdEntry(intent, quantity, freshId) => SubmitEntry(b, intent, quantity, freshId)
    case CmdExit(intent, freshId) => SubmitExit(b, intent, freshId)
    case CmdEntryFill(order, price, time, amount, fillId) => ProcessEntryFill(b, order, price, time, amount, fillId)
    case CmdExitFill(order, price, time, amount, fillId) => ProcessExitFill(b, order, price, time, amount, fillId)
    case CmdBrokerFill(fill) => ProcessBrokerFill(b, fill)
    case CmdCancel(order) => Cancel(b, order)
    case CmdReject(order) => Reject(b, order)
  }

  /** A generated order id has not been used before. */
  predicate FreshId(b: Book, c: Command) {
    (c.CmdEntry? || c.CmdExit?) ==> c.freshId !in b.orders
  }

  /** The order is known, open for fills, and has room for this one. */
  predicate Accepts(orders: map<string, Order>, f: Fill) {
    f.order in orders && Fillable(orders[f.order]) && f.quantity <= Remaining(orders[f.order])
  }

  lemma CheckFillExactly(b: Book, f: Fill)
    ensures CheckFill(b, f).Ok? <==> Accepts(b.orders, f)
  {
    hide Blend;
    if Accepts(b.orders, f) {
      var o := b.orders[f.order];
      if o.filled > 0 && o.average.Some? {
        BlendIsPositive(o.filled, o.average.value, f.quantity, f.price);
      }
    }
  }

  /** An entry fill that its order accepts meets a position on the other side. */
  predicate RaisesLate(b: Book, f: Fill) {
    Accepts(b.orders, f) && f.strategy in b.positions && b.positions[f.strategy].side != f.side
  }

  /** The calls that raise after writing, told before they are made. */
  predicate LateCall(b: Book, c: Command) {
    match c
    case CmdEntryFill(order, price, time, amount, fillId) =>
      && order in b.orders && Fillable(b.orders[order]) && price > 0.0
      && (var o := b.orders[order];
          var q := if amount.None? then Remaining(o) else amount.value;
          0 < q <= Remaining(o) && o.strategy in b.positions && b.positions[o.strategy].side != o.side)
    case CmdBrokerFill(f) =>
      && f.id !in b.fillIds && RaisesLate(b, f)
      && b.positions[f.strategy].side == b.orders[f.order].side
    case _ => false
  }

  /** Every order is filed under its own id. */
  ghost predicate Keyed(b: Book) {
    forall k :: k in b.orders ==> b.orders[k].id == k
  }

  /** Exactly these calls change the books although they raise. */
  lemma RefusalsChangeNothingExactlyWhen(b: Book, c: Command)
    requires Keyed(b)
    ensures LateCall(b, c) ==> Apply(b, c).result.Err?
    ensures Apply(b, c).result.Err? ==> (Apply(b, c).book == b <==> !LateCall(b, c))
  {
    hide Keyed, EntryFill;
    match c
    case CmdEntryFill(order, price, time, amount, fillId) =>
      if order in b.orders {
        FiledUnder(b, order);
        var o := b.orders[order];
        var q := if amount.None? then Remaining(o) else amount.value;
        if Fillable(o) && 0 < q <= Remaining(o) && price > 0.0 {
          EntryRaises(b, Fill(fillId, o.id, o.strategy, o.side, q, price, time));
        }
      }
    case CmdBrokerFill(f) => BrokerRaises(b, f);
    case _ =>
  }

  lemma BrokerRaises(b: Book, f: Fill)
    requires Keyed(b)
    ensures var late := LateCall(b, CmdBrokerFill(f));
            && (late ==> ProcessBrokerFill(b, f).result.Err?)
            && (ProcessBrokerFill(b, f).result.Err? ==> (ProcessBrokerFill(b, f).book == b <==> !late))
  {
    hide Keyed, EntryFill, CheckFill;
    EntryRaises(b, f);
  }

  lemma FiledUnder(b: Book, k: string)
    requires Keyed(b) && k in b.orders
    ensures b.orders[k].id == k
  {
  }

  /** An order that takes a fill is rewritten in place with that much more filled. */
  lemma CheckedOrder(b: Book, f: Fill)
    requires CheckFill(b, f).Ok?
    ensures f.order in b.orders && !b.orders[f.order].status.RejectedOrder?
    ensures var o, w := b.orders[f.order], CheckFill(b, f).value;
            && w.id == o.id && w.strategy == o.strategy && w.side == o.side && w.quantity == o.quantity
            && w.filled == o.filled + f.quantity && !w.status.RejectedOrder?
  {
    hide FillAverage;
  }

  lemma EntryRaises(b: Book, f: Fill)
    requires Keyed(b)
    ensures EntryFill(b, f).result.Err? ==> (EntryFill(b, f).book != b <==> RaisesLate(b, f))
    ensures RaisesLate(b, f) ==>
              && EntryFill(b, f).result == Err(OppositeSide) && EntryFill(b, f).book.positions == b.positions
              && CheckFill(b, f).Ok?
              && EntryFill(b, f).book.orders == b.orders[f.order := CheckFill(b, f).value]
    ensures EntryFill(b, f).result.Ok? ==> Accepts(b.orders, f)
  {
    hide CheckFill, Accepts;
    CheckFillExactly(b, f);
    if CheckFill(b, f).Ok? {
      CheckedOrder(b, f);
      FiledUnder(b, f.order);
    }
  }

  datatype Trail = Trail(book: Book, log: seq<Fill>)

  /** The books and the fills after these calls, whether they returned or raised, if none raised late. */
  function RunAll(cs: seq<Command>): Option<Trail> {
    if cs == [] then Some(Trail(EMPTY, []))
    else
      var n := |cs| - 1;
      var before := RunAll(cs[..n]);
      if before.None? || !FreshId(before.value.book, cs[n]) || LateCall(before.value.book, cs[n]) then None
      else
        var step := Apply(before.value.book, cs[n]);
        Some(Trail(step.book, before.value.log + Fills(step.result)))
  }

  // ---------------------------------------------------------------------------------------------
  // Every returning call keeps the books consistent
  // ---------------------------------------------------------------------------------------------

  lemma FillTells(o: Order, f: Fill, quantity: int, value: real)
    requires OrderTells(o, quantity, value) && Fillable(o) && f.quantity <= Remaining(o)
    ensures var r := ApplyFill(o, f.quantity, FillAverage(o, f));
      && r.Ok? && r.value.id == o.id
      && OrderTells(r.value, quantity + f.quantity, value + f.quantity as real * f.price)
  {
    hide Blend;
    if o.filled > 0 {
      BlendKeepsValue(o.filled, o.average.value, f.quantity, f.price);
      BlendIsPositive(o.filled, o.average.value, f.quantity, f.price);
    }
  }

  /** The order map after a fill has been written. */
  lemma WrittenOrders(b: Book, f: Fill, log: seq<Fill>)
    requires OrdersTell(b.orders, log) && CheckFill(b, f).Ok?
    ensures var o := CheckFill(b, f).value;
      OrdersTell(b.orders[o.id := o], log + [f])
  {
    hide OrderTells, ApplyFill, FillAverage, Quantity, Value;
    LogNext(log, f);
    FillTells(b.orders[f.order], f, Quantity(log, f.order), Value(log, f.order));
  }

  /** An order map in which one order has changed without a fill. */
  lemma PutOrder(orders: map<string, Order>, o: Order, log: seq<Fill>)
    requires OrdersTell(orders, log)
    requires o.id in orders ==> OrderTells(o, orders[o.id].filled, Value(log, o.id))
    requires o.id !in orders ==> OrderTells(o, 0, 0.0)
    ensures OrdersTell(orders[o.id := o], log)
  {
    hide Quantity, Value;
  }

  lemma EntryKeepsConsistent(b: Book, f: Fill, log: seq<Fill>)
    requires Consistent(b, log) && EntryFill(b, f).result.Ok?
    ensures Fills(EntryFill(b, f).result) == [f] && Consistent(EntryFill(b, f).book, log + [f])
  {
    hide OrdersTell, Quantity, Value, Net, CheckFill, Blend;
    WrittenOrders(b, f, log);
    LogNext(log, f);
  }

  lemma ExitKeepsConsistent(b: Book, f: Fill, log: seq<Fill>)
    requires Consistent(b, log) && ExitFill(b, f).result.Ok?
    ensures Fills(ExitFill(b, f).result) == [f] && Consistent(ExitFill(b, f).book, log + [f])
  {
    hide OrdersTell, Quantity, Value, Net, CheckFill, Blend;
    WrittenOrders(b, f, log);
    LogNext(log, f);
  }

  lemma BrokerFillKeepsConsistent(b: Book, f: Fill, log: seq<Fill>)
    requires Consistent(b, log) && ProcessBrokerFill(b, f).result.Ok?
    ensures Fills(ProcessBrokerFill(b, f).result) == [f]
    ensures Consistent(ProcessBrokerFill(b, f).book, log + [f])
  {
    hide OrdersTell, PositionsTell, EntryFill, ExitFill;
    if f.strategy !in b.positions || b.positions[f.strategy].side == b.orders[f.order].side {
      EntryKeepsConsistent(b, f, log);
    } else {
      ExitKeepsConsistent(b, f, log);
    }
  }

  lemma SubmitKeepsConsistent(b: Book, intent: Intent, quantity: int, freshId: string, log: seq<Fill>)
    requires Consistent(b, log) && freshId !in b.orders
    ensures SubmitEntry(b, intent, quantity, freshId).result.Ok? ==>
      && Fills(SubmitEntry(b, intent, quantity, freshId).result) == []
      && Consistent(SubmitEntry(b, intent, quantity, freshId).book, log)
    ensures SubmitExit(b, intent, freshId).result.Ok? ==>
      && Fills(SubmitExit(b, intent, freshId).result) == []
      && Consistent(SubmitExit(b, intent, freshId).book, log)
  {
    hide OrdersTell, PositionsTell;
    var entry := SubmitEntry(b, intent, quantity, freshId).result;
    if entry.Ok? {
      PutOrder(b.orders, entry.value.order, log);
    }
    var exit := SubmitExit(b, intent, freshId).result;
    if exit.Ok? {
      PutOrder(b.orders, exit.value.order, log);
    }
  }

  lemma CloseKeepsConsistent(b: Book, order: string, log: seq<Fill>)
    requires Consistent(b, log)
    ensures Cancel(b, order).result.Ok? ==>
      Fills(Cancel(b, order).result) == [] && Consistent(Cancel(b, order).book, log)
    ensures Reject(b, order).result.Ok? ==>
      Fills(Reject(b, order).result) == [] && Consistent(Reject(b, order).book, log)
  {
    if order in b.orders {
      assert b.orders[order].id == order;
      assert OrderTells(b.orders[order], b.orders[order].filled, Value(log, order));
      hide OrdersTell, PositionsTell;
      if CancelOrder(b.orders[order]).Ok? {
        PutOrder(b.orders, CancelOrder(b.orders[order]).value, log);
      }
      if RejectOrder(b.orders[order]).Ok? {
        PutOrder(b.orders, RejectOrder(b.orders[order]).value, log);
      }
    }
  }

  lemma ApplyKeepsConsistent(b: Book, c: Command, log: seq<Fill>)
    requires Consistent(b, log) && FreshId(b, c) && Apply(b, c).result.Ok?
    ensures Consistent(Apply(b, c).book, log + Fills(Apply(b, c).result))
  {
    hide Consistent, EntryFill, ExitFill, SubmitEntry, SubmitExit, Cancel, Reject, ProcessBrokerFill;
    assert log + [] == log;
    match c
    case CmdEntry(intent, quantity, freshId) => SubmitKeepsConsistent(b, intent, quantity, freshId, log);
    case CmdExit(intent, freshId) => SubmitKeepsConsistent(b, intent, 0, freshId, log);
    case CmdEntryFill(order, price, time, amount, fillId) =>
      var o := b.orders[order];
      var q := if amount.None? then Remaining(o) else amount.value;
      EntryKeepsConsistent(b, Fill(fillId, o.id, o.strategy, o.side, q, price, time), log);
    case CmdExitFill(order, price, time, amount, fillId) =>
      var o := b.orders[order];
      var q := if amount.None? then b.positions[o.strategy].quantity else amount.value;
      ExitKeepsConsistent(b, Fill(fillId, o.id, o.strategy, o.side, q, price, time), log);
    case CmdBrokerFill(f) => BrokerFillKeepsConsistent(b, f, log);
    case CmdCancel(order) => CloseKeepsConsistent(b, order, log);
    case CmdReject(order) => CloseKeepsConsistent(b, order, log);
  }

  /** After any sequence of calls: every order's filled quantity, average and status are those of its fills,
      and every strategy's signed open quantity is the sum of its signed fills. */
  lemma {:induction false} RunsAreConsistent(cs: seq<Command>)
    requires RunAll(cs).Some?
    ensures Consistent(RunAll(cs).value.book, RunAll(cs).value.log)
  {
    if cs != [] {
      hide Apply, Consistent, LateCall;
      var n := |cs| - 1;
      RunsAreConsistent(cs[..n]);
      var before := RunAll(cs[..n]).value;
      if Apply(before.book, cs[n]).result.Ok? {
        ApplyKeepsConsistent(before.book, cs[n], before.log);
      } else {
        RefusalsChangeNothingExactlyWhen(before.book, cs[n]);
        assert before.log + [] == before.log;
      }
    } else {
      EmptyIsConsistent();
    }
  }

  lemma EmptyIsConsistent()
    ensures Consistent(EMPTY, [])
  {
  }

  // ---------------------------------------------------------------------------------------------
  // No intent and no broker fill is acted on twice
  // ---------------------------------------------------------------------------------------------

  /** The order came from this intent and has not been rejected. */
  ghost predicate Serves(b: Book, k: string, intent: Intent) {
    k in b.orders && k in b.orderIntents && b.orderIntents[k] == intent && !b.orders[k].status.RejectedOrder?
  }

  /** An intent is registered exactly while an order serves it, and no two orders serve the same intent. */
  ghost predicate OneOrderPerIntent(b: Book) {
    && b.orderIntents.Keys == b.orders.Keys
    && Keyed(b)
    && (forall i: Intent :: i in b.intents <==> exists k: string :: Serves(b, k, i))
    && forall i: Intent, j: string, k: string :: Serves(b, j, i) && Serves(b, k, i) ==> j == k
  }

  lemma PlacedServes(b: Book, intent: Intent, order: Order)
    requires OneOrderPerIntent(b) && intent !in b.intents && order.id !in b.orders && order.status.Submitted?
    ensures OneOrderPerIntent(Place(b, intent, order).book)
  {
    var after := Place(b, intent, order).book;
    assert forall k: string, i: Intent :: Serves(after, k, i) <==> Serves(b, k, i) || (k == order.id && i == intent);
    assert Serves(after, order.id, intent);
    hide Serves;
    forall i: Intent ensures i in after.intents <==> exists k: string :: Serves(after, k, i) {
      if k: string :| Serves(b, k, i) {
        assert Serves(after, k, i);
      }
    }
  }

  /** Rewriting an order without rejecting it leaves every intent served as it was. */
  lemma RewrittenServes(b: Book, after: Book, k: string)
    requires OneOrderPerIntent(b) && k in b.orders && !b.orders[k].status.RejectedOrder?
    requires after.orders.Keys == b.orders.Keys && after.orderIntents == b.orderIntents && after.intents == b.intents
    requires forall j :: j in b.orders && j != k ==> after.orders[j] == b.orders[j]
    requires after.orders[k].id == k && !after.orders[k].status.RejectedOrder?
    ensures OneOrderPerIntent(after)
  {
    assert forall j: string, i: Intent :: Serves(after, j, i) <==> Serves(b, j, i);
  }

  lemma RejectedReleases(b: Book, k: string)
    requires OneOrderPerIntent(b) && Reject(b, k).result.Ok?
    ensures OneOrderPerIntent(Reject(b, k).book)
  {
    var after := Reject(b, k).book;
    var intent := b.orderIntents[k];
    assert Serves(b, k, intent);
    assert forall j: string, i: Intent :: Serves(after, j, i) <==> Serves(b, j, i) && j != k;
  }

  /** A fill that returned, as an entry or as an exit. */
  function FillStep(b: Book, f: Fill, entry: bool): Step {
    if entry then EntryFill(b, f) else ExitFill(b, f)
  }

  lemma FillRewrites(b: Book, f: Fill, entry: bool)
    requires FillStep(b, f, entry).result.Ok?
    ensures CheckFill(b, f).Ok?
    ensures var after, o := FillStep(b, f, entry).book, CheckFill(b, f).value;
            && after.orders == b.orders[o.id := o]
            && after.orderIntents == b.orderIntents && after.intents == b.intents && after.fillIds == b.fillIds
  {
    hide CheckFill, AddPositionFill;
  }

  lemma FillServes(b: Book, f: Fill, entry: bool, fillIds: set<string>)
    requires OneOrderPerIntent(b) && FillStep(b, f, entry).result.Ok?
    ensures OneOrderPerIntent(FillStep(b, f, entry).book.(fillIds := fillIds))
  {
    hide FillStep, CheckFill, OneOrderPerIntent;
    FillRewrites(b, f, entry);
    CheckedOrder(b, f);
    assert Keyed(b) by { ServedKeyed(b); }
    RewrittenServes(b, FillStep(b, f, entry).book.(fillIds := fillIds), f.order);
  }

  lemma ServedKeyed(b: Book)
    requires OneOrderPerIntent(b)
    ensures Keyed(b)
  {
  }

  lemma ApplyServes(b: Book, c: Command)
    requires OneOrderPerIntent(b) && FreshId(b, c) && Apply(b, c).result.Ok?
    ensures OneOrderPerIntent(Apply(b, c).book)
  {
    hide OneOrderPerIntent, EntryFill, ExitFill, Place;
    var after := Apply(b, c).book;
    match c
    case CmdEntry(intent, quantity, freshId) =>
      var side := SideOf(intent.signal).value;
      PlacedServes(b, intent, Order(freshId, intent.strategy, side, quantity, Submitted, 0, None));
    case CmdExit(intent, freshId) =>
      var p := b.positions[intent.strategy];
      PlacedServes(b, intent, Order(freshId, intent.strategy, Opposite(p.side), p.quantity, Submitted, 0, None));
    case CmdEntryFill(order, price, time, amount, fillId) =>
      var o := b.orders[order];
      var q := if amount.None? then Remaining(o) else amount.value;
      var f: Fill := Fill(fillId, o.id, o.strategy, o.side, q, price, time);
      FillServes(b, f, true, EntryFill(b, f).book.fillIds);
    case CmdExitFill(order, price, time, amount, fillId) =>
      var o := b.orders[order];
      var q := if amount.None? then b.positions[o.strategy].quantity else amount.value;
      var f: Fill := Fill(fillId, o.id, o.strategy, o.side, q, price, time);
      FillServes(b, f, false, ExitFill(b, f).book.fillIds);
    case CmdBrokerFill(f) =>
      var entry := f.strategy !in b.positions || b.positions[f.strategy].side == b.orders[f.order].side;
      FillServes(b, f, entry, b.fillIds + {f.id});
    case CmdCancel(order) =>
      ServedKeyed(b);
      RewrittenServes(b, after, order);
    case CmdReject(order) => RejectedReleases(b, order);
  }

  /** Over every run, no two orders that are not rejected come from the same intent, and the intents still
      registered are exactly those of such orders. */
  lemma {:induction false} IntentsOverRuns(cs: seq<Command>)
    requires RunAll(cs).Some?
    ensures OneOrderPerIntent(RunAll(cs).value.book)
  {
    if cs != [] {
      hide Apply, OneOrderPerIntent, LateCall;
      var n := |cs| - 1;
      IntentsOverRuns(cs[..n]);
      var before := RunAll(cs[..n]).value.book;
      if Apply(before, cs[n]).result.Ok? {
        ApplyServes(before, cs[n]);
      } else {
        ServedKeyed(before);
        RefusalsChangeNothingExactlyWhen(before, cs[n]);
      }
    }
  }

  /** The i-th call of a run reports a broker fill, and returns. */
  ghost predicate Took(cs: seq<Command>, i: nat) {
    && i < |cs| && cs[i].CmdBrokerFill? && RunAll(cs[..i]).Some?
    && Apply(RunAll(cs[..i]).value.book, cs[i]).result.Ok?
  }

  /** A fill id that a run has taken is refused as a duplicate ever after. */
  lemma BrokerFillsAreTakenOnce(cs: seq<Command>, i: nat, j: nat)
    requires RunAll(cs).Some? && Took(cs, i) && i < j < |cs|
    requires cs[j].CmdBrokerFill? && cs[j].fill.id == cs[i].fill.id
    ensures RunAll(cs[..j]).Some? && Apply(RunAll(cs[..j]).value.book, cs[j]).result == Err(DuplicateFill)
  {
    hide RunAll, Apply, LateCall;
    RunPrefix(cs, i + 1);
    OneCall(cs[..i + 1]);
    assert cs[..i + 1][..i] == cs[..i];
    FillIdsGrow(RunAll(cs[..i]).value.book, cs[i]);
    RunPrefix(cs, j);
    assert cs[..j][..i + 1] == cs[..i + 1];
    FillIdsStay(cs[..j], i + 1);
    KnownFill(RunAll(cs[..j]).value.book, cs[j]);
  }

  lemma KnownFill(b: Book, c: Command)
    requires c.CmdBrokerFill? && c.fill.id in b.fillIds
    ensures Apply(b, c).result == Err(DuplicateFill)
  {
  }

  lemma OneCall(cs: seq<Command>)
    requires cs != [] && RunAll(cs).Some?
    ensures var n := |cs| - 1;
            && RunAll(cs[..n]).Some? && !LateCall(RunAll(cs[..n]).value.book, cs[n])
            && RunAll(cs).value.book == Apply(RunAll(cs[..n]).value.book, cs[n]).book
  {
    hide Apply, LateCall;
  }

  lemma {:induction false} RunPrefix(cs: seq<Command>, n: nat)
    requires RunAll(cs).Some? && n <= |cs|
    ensures RunAll(cs[..n]).Some?
  {
    if n == |cs| {
      assert cs[..n] == cs;
    } else {
      hide RunAll, Apply, LateCall;
      OneCall(cs);
      var front := cs[..|cs| - 1];
      RunPrefix(front, n);
      assert front[..n] == cs[..n];
    }
  }

  lemma {:induction false} FillIdsStay(cs: seq<Command>, n: nat)
    requires RunAll(cs).Some? && n <= |cs| && RunAll(cs[..n]).Some?
    ensures RunAll(cs[..n]).value.book.fillIds <= RunAll(cs).value.book.fillIds
  {
    if n == |cs| {
      assert cs[..n] == cs;
    } else {
      hide RunAll, Apply, LateCall;
      OneCall(cs);
      var front := cs[..|cs| - 1];
      assert front[..n] == cs[..n];
      FillIdsStay(front, n);
      FillIdsGrow(RunAll(front).value.book, cs[|cs| - 1]);
    }
  }

  lemma FillIdsGrow(b: Book, c: Command)
    ensures b.fillIds <= Apply(b, c).book.fillIds
    ensures c.CmdBrokerFill? && Apply(b, c).result.Ok? ==> c.fill.id in Apply(b, c).book.fillIds
  {
    hide CheckFill, AddPositionFill;
  }

  // ---------------------------------------------------------------------------------------------
  // A round trip
  // ---------------------------------------------------------------------------------------------

  /** From flat: an entry that is filled as a whole and an exit that is filled as a whole end flat, with both
      orders filled and the trade on the books at the two prices. */
  lemma RoundTripEndsFlat(b: Book, entry: Intent, quantity: int, exit: Intent, entryId: string, exitId: string,
                          price: real, exitPrice: real, time: int, exitTime: int)
    requires SubmitEntry(b, entry, quantity, entryId).result.Ok? && price > 0.0 && exitPrice > 0.0
    requires exit.action.Exit? && exit.signal.Flat? && exit.strategy == entry.strategy && exit !in b.intents
    requires entryId != exitId
    ensures var placed := SubmitEntry(b, entry, quantity, entryId).book;
            var entered := ProcessEntryFill(placed, entryId, price, time, None, "in");
            var leaving := SubmitExit(entered.book, exit, exitId);
            var closed := ProcessExitFill(leaving.book, exitId, exitPrice, exitTime, None, "out");
            var side := SideOf(entry.signal).value;
            && entered.result.Ok? && leaving.result.Ok? && closed.result.Ok?
            && entered.book.positions[entry.strategy] == Position(entry.strategy, side, quantity, price, time)
            && closed.book.positions == b.positions
            && closed.book.closed
                 == b.closed[entry.strategy :=
                      PositionClose(entry.strategy, side, quantity, price, exitPrice, time, exitTime)]
            && closed.book.orders[entryId]
                 == Order(entryId, entry.strategy, side, quantity, Filled, quantity, Some(price))
            && closed.book.orders[exitId]
                 == Order(exitId, entry.strategy, Opposite(side), quantity, Filled, quantity, Some(exitPrice))
  {
    assert b.positions[entry.strategy := Position(entry.strategy, SideOf(entry.signal).value, quantity, price, time)]
           - {entry.strategy} == b.positions;
  }
}

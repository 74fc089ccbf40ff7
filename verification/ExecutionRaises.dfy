/** What the one kind of call that raises after writing does to the execution engine's books: the order has
    been filled and no position has moved.
 */
module ExecutionRaises {
  import opened Options
  import opened ExecutionTypes
  import opened ExecutionBook
  import opened ExecutionRuns

  /** The fill carries its order's strategy and side. */
  predicate OfItsOrder(orders: map<string, Order>, f: Fill) {
    f.order in orders && f.strategy == orders[f.order].strategy && f.side == orders[f.order].side
  }

  ghost predicate OwnFills(orders: map<string, Order>, log: seq<Fill>) {
    forall i :: 0 <= i < |log| ==> OfItsOrder(orders, log[i])
  }

  /** Orders are never removed and never change strategy or side. */
  ghost predicate StillThere(orders: map<string, Order>, later: map<string, Order>) {
    forall k :: k in orders ==> k in later && later[k].strategy == orders[k].strategy && later[k].side == orders[k].side
  }

  lemma PutStays(orders: map<string, Order>, o: Order)
    requires o.id in orders ==> orders[o.id].strategy == o.strategy && orders[o.id].side == o.side
    ensures StillThere(orders, orders[o.id := o])
  {
  }

  lemma FillStays(b: Book, f: Fill, entry: bool)
    requires Keyed(b)
    ensures StillThere(b.orders, FillStep(b, f, entry).book.orders)
  {
    hide CheckFill, AddPositionFill;
    if CheckFill(b, f).Ok? {
      CheckedOrder(b, f);
      FiledUnder(b, f.order);
      hide StillThere, Keyed;
      PutStays(b.orders, CheckFill(b, f).value);
    }
  }

  lemma ClosingStays(b: Book, k: string)
    requires Keyed(b)
    ensures StillThere(b.orders, Cancel(b, k).book.orders) && StillThere(b.orders, Reject(b, k).book.orders)
  {
    if k in b.orders {
      FiledUnder(b, k);
      hide StillThere, Keyed;
      PutStays(b.orders, b.orders[k]);
      if CancelOrder(b.orders[k]).Ok? {
        PutStays(b.orders, CancelOrder(b.orders[k]).value);
      }
      if RejectOrder(b.orders[k]).Ok? {
        PutStays(b.orders, RejectOrder(b.orders[k]).value);
      }
    }
  }

  lemma OrdersStay(b: Book, c: Command)
    requires Keyed(b) && FreshId(b, c)
    ensures StillThere(b.orders, Apply(b, c).book.orders)
  {
    assert StillThere(b.orders, b.orders);
    hide Keyed, StillThere, EntryFill, ExitFill, Cancel, Reject;
    match c
    case CmdEntry(intent, quantity, freshId) =>
      if Apply(b, c).result.Ok? {
        PutStays(b.orders, Apply(b, c).result.value.order);
      }
    case CmdExit(intent, freshId) =>
      if Apply(b, c).result.Ok? {
        PutStays(b.orders, Apply(b, c).result.value.order);
      }
    case CmdEntryFill(order, price, time, amount, fillId) =>
      if order in b.orders {
        var o := b.orders[order];
        var q := if amount.None? then Remaining(o) else amount.value;
        if q > 0 && price > 0.0 {
          FillStays(b, Fill(fillId, o.id, o.strategy, o.side, q, price, time), true);
        }
      }
    case CmdExitFill(order, price, time, amount, fillId) =>
      if order in b.orders && b.orders[order].strategy in b.positions {
        var o := b.orders[order];
        var q := if amount.None? then b.positions[o.strategy].quantity else amount.value;
        if q > 0 && price > 0.0 {
          FillStays(b, Fill(fillId, o.id, o.strategy, o.side, q, price, time), false);
        }
      }
    case CmdBrokerFill(f) =>
      FillStays(b, f, true);
      FillStays(b, f, false);
    case CmdCancel(order) => ClosingStays(b, order);
    case CmdReject(order) => ClosingStays(b, order);
  }

  /** The fill a call reports, if it returns with one. */
  lemma FillOfItsOrder(b: Book, c: Command)
    requires Keyed(b) && (c.CmdBrokerFill? ==> OfItsOrder(b.orders, c.fill))
    ensures forall i :: 0 <= i < |Fills(Apply(b, c).result)| ==> OfItsOrder(b.orders, Fills(Apply(b, c).result)[i])
  {
    hide CheckFill, AddPositionFill;
  }

  /** The broker's fills among these calls carry their orders' strategies and sides. */
  ghost predicate HonestBroker(cs: seq<Command>) {
    forall i :: 0 <= i < |cs| && cs[i].CmdBrokerFill? && RunAll(cs[..i]).Some? ==>
      OfItsOrder(RunAll(cs[..i]).value.book.orders, cs[i].fill)
  }

  lemma {:induction false} OwnFillsOverRuns(cs: seq<Command>)
    requires RunAll(cs).Some? && HonestBroker(cs)
    ensures OwnFills(RunAll(cs).value.book.orders, RunAll(cs).value.log)
  {
    if cs != [] {
      hide Apply, LateCall, Consistent, FreshId;
      var n := |cs| - 1;
      assert HonestBroker(cs[..n]) by {
        assert forall i :: 0 <= i < n ==> cs[..n][i] == cs[i] && cs[..n][..i] == cs[..i];
      }
      OwnFillsOverRuns(cs[..n]);
      RunsAreConsistent(cs[..n]);
      var before := RunAll(cs[..n]).value.book;
      ConsistentKeyed(before, RunAll(cs[..n]).value.log);
      OrdersStay(before, cs[n]);
      FillOfItsOrder(before, cs[n]);
    }
  }

  lemma ConsistentKeyed(b: Book, log: seq<Fill>)
    requires Consistent(b, log)
    ensures Keyed(b)
  {
    hide OrderTells;
  }

  // ---------------------------------------------------------------------------------------------
  // A strategy's net, order by order
  // ---------------------------------------------------------------------------------------------

  ghost predicate Different(ks: seq<string>) {
    forall i, j :: 0 <= i < j < |ks| ==> ks[i] != ks[j]
  }

  lemma Enumerate(s: set<string>) returns (ks: seq<string>)
    ensures Different(ks) && forall k :: k in ks <==> k in s
    decreases |s|
  {
    if s == {} {
      ks := [];
    } else {
      var k :| k in s;
      var rest := Enumerate(s - {k});
      ks := rest + [k];
    }
  }

  /** The part of the net that one order's fills make up. */
  function Share(orders: map<string, Order>, k: string, quantity: int, strategy: string): int {
    if k in orders && orders[k].strategy == strategy then Signed(orders[k].side, quantity) else 0
  }

  function NetByOrders(orders: map<string, Order>, ks: seq<string>, log: seq<Fill>, strategy: string): int {
    if ks == [] then 0
    else
      var n := |ks| - 1;
      NetByOrders(orders, ks[..n], log, strategy) + Share(orders, ks[n], Quantity(log, ks[n]), strategy)
  }

  /** `other` fills order `k` by `q` more than `log` does, and every other order alike. */
  ghost predicate MoreOf(log: seq<Fill>, other: seq<Fill>, k: string, q: int) {
    forall j: string :: Quantity(other, j) == Quantity(log, j) + if j == k then q else 0
  }

  lemma ShareAdds(orders: map<string, Order>, k: string, a: int, b: int, strategy: string)
    ensures Share(orders, k, a + b, strategy) == Share(orders, k, a, strategy) + Share(orders, k, b, strategy)
    ensures Share(orders, k, 0, strategy) == 0
  {
  }

  lemma {:induction false} NetByOrdersChanges(orders: map<string, Order>, ks: seq<string>, log: seq<Fill>,
                                              other: seq<Fill>, k: string, q: int, strategy: string)
    requires Different(ks) && MoreOf(log, other, k, q)
    ensures NetByOrders(orders, ks, other, strategy)
         == NetByOrders(orders, ks, log, strategy) + if k in ks then Share(orders, k, q, strategy) else 0
  {
    hide Quantity, Share;
    if ks != [] {
      var n := |ks| - 1;
      NetByOrdersChanges(orders, ks[..n], log, other, k, q, strategy);
      ShareAdds(orders, ks[n], Quantity(log, ks[n]), if ks[n] == k then q else 0, strategy);
      assert k in ks <==> k in ks[..n] || k == ks[n];
      assert k == ks[n] ==> k !in ks[..n];
    }
  }

  lemma OneMoreFill(log: seq<Fill>, f: Fill)
    ensures MoreOf(log, log + [f], f.order, f.quantity)
  {
    hide Quantity, Value, Net;
    LogNext(log, f);
  }

  lemma {:induction false} NetOrderByOrder(orders: map<string, Order>, ks: seq<string>, log: seq<Fill>,
                                           strategy: string)
    requires Different(ks) && OwnFills(orders, log) && forall k :: k in orders ==> k in ks
    ensures Net(log, strategy) == NetByOrders(orders, ks, log, strategy)
  {
    if log == [] {
      NoFills(orders, ks, strategy);
    } else {
      hide Quantity, NetByOrders;
      var n := |log| - 1;
      var front, f := log[..n], log[n];
      assert OwnFills(orders, front);
      NetOrderByOrder(orders, ks, front, strategy);
      assert log == front + [f];
      OneMoreFill(front, f);
      NetByOrdersChanges(orders, ks, front, log, f.order, f.quantity, strategy);
    }
  }

  lemma {:induction false} NoFills(orders: map<string, Order>, ks: seq<string>, strategy: string)
    ensures NetByOrders(orders, ks, [], strategy) == 0
  {
    if ks != [] {
      NoFills(orders, ks[..|ks| - 1], strategy);
    }
  }

  // ---------------------------------------------------------------------------------------------
  // The books after a late raise
  // ---------------------------------------------------------------------------------------------

  /** Logs that differ by one order's fills differ in its strategy's net. */
  lemma NetsDiffer(orders: map<string, Order>, log: seq<Fill>, other: seq<Fill>, k: string, q: int)
    requires OwnFills(orders, log) && OwnFills(orders, other) && k in orders && MoreOf(log, other, k, q)
    ensures Net(other, orders[k].strategy) == Net(log, orders[k].strategy) + Signed(orders[k].side, q)
  {
    hide Quantity, Net;
    var strategy := orders[k].strategy;
    var ks := Enumerate(orders.Keys);
    NetOrderByOrder(orders, ks, log, strategy);
    NetOrderByOrder(orders, ks, other, strategy);
    NetByOrdersChanges(orders, ks, log, other, k, q, strategy);
  }

  /** No list of fills that carry their orders' strategies and sides explains the books any more, if one
      did. */
  lemma LateRaiseBreaksBooks(b: Book, f: Fill, log: seq<Fill>, other: seq<Fill>)
    requires Consistent(b, log) && OwnFills(b.orders, log) && RaisesLate(b, f)
    requires OwnFills(EntryFill(b, f).book.orders, other)
    ensures !Consistent(EntryFill(b, f).book, other)
  {
    var after := EntryFill(b, f).book;
    EntryRaises(b, f);
    CheckedOrder(b, f);
    hide Quantity, Value, Net, EntryFill, CheckFill, RaisesLate;
    if Consistent(after, other) {
      forall j: string ensures Quantity(other, j) == Quantity(log, j) + if j == f.order then f.quantity else 0 {
        assert j in after.orders <==> j in b.orders;
      }
      assert MoreOf(log, other, f.order, f.quantity);
      assert OwnFills(b.orders, other);
      NetsDiffer(b.orders, log, other, f.order, f.quantity);
    }
  }

  /** So after any run whose broker reports fills of its orders: a call that raises late leaves books that no
      such list of fills explains. */
  lemma LateRaiseBreaksRuns(cs: seq<Command>, c: Command, other: seq<Fill>)
    requires RunAll(cs).Some? && HonestBroker(cs) && LateCall(RunAll(cs).value.book, c)
    requires OwnFills(Apply(RunAll(cs).value.book, c).book.orders, other)
    ensures !Consistent(Apply(RunAll(cs).value.book, c).book, other)
  {
    var b, log := RunAll(cs).value.book, RunAll(cs).value.log;
    RunsAreConsistent(cs);
    OwnFillsOverRuns(cs);
    ConsistentKeyed(b, log);
    var f := LateFill(b, c);
    hide RunAll, Apply, LateCall, OwnFills, Consistent, HonestBroker;
    LateRaiseBreaksBooks(b, f, log, other);
  }

  lemma LateFill(b: Book, c: Command) returns (f: Fill)
    requires Keyed(b) && LateCall(b, c)
    ensures RaisesLate(b, f) && Apply(b, c).book == EntryFill(b, f).book
  {
    if c.CmdEntryFill? {
      var o := b.orders[c.order];
      FiledUnder(b, c.order);
      f := Fill(c.fillId, o.id, o.strategy, o.side, if c.amount.None? then Remaining(o) else c.amount.value,
                c.price, c.time);
    } else {
      f := c.fill;
    }
    hide Keyed, EntryFill;
    EntryRaises(b, f);
  }

  lemma NextRun(cs: seq<Command>, c: Command)
    requires RunAll(cs).Some? && FreshId(RunAll(cs).value.book, c) && !LateCall(RunAll(cs).value.book, c)
    ensures var step := Apply(RunAll(cs).value.book, c);
            RunAll(cs + [c]) == Some(Trail(step.book, RunAll(cs).value.log + Fills(step.result)))
  {
    hide Apply, LateCall;
    assert (cs + [c])[..|cs|] == cs;
  }

  /** It can happen: two entries submitted while flat, one on each side, and the first of them filled. A fill
      of the second raises late. */
  lemma LateRaiseIsReachable(short: Intent, long: Intent, quantity: int, price: real, a: string, b: string,
                             fillId: string, lateId: string)
    requires short.action.Enter? && short.signal.GoShort? && long.action.Enter? && long.signal.GoLong?
    requires short.strategy == long.strategy && quantity > 0 && price > 0.0 && a != b
    ensures var cs := [CmdEntry(short, quantity, a), CmdEntry(long, quantity, b),
                       CmdEntryFill(a, price, 1, None, fillId)];
            var late := CmdEntryFill(b, price, 2, None, lateId);
            && RunAll(cs).Some? && |RunAll(cs).value.log| == 1 && LateCall(RunAll(cs).value.book, late)
            && Apply(RunAll(cs).value.book, late).result.Err?
            && Apply(RunAll(cs).value.book, late).book != RunAll(cs).value.book
  {
    var c0, c1 := CmdEntry(short, quantity, a), CmdEntry(long, quantity, b);
    var c2, late := CmdEntryFill(a, price, 1, None, fillId), CmdEntryFill(b, price, 2, None, lateId);
    var b2 := BothSubmitted(short, long, quantity, a, b);
    FirstFilled(b2, c2, late);
    hide RunAll, Apply, LateCall;
    EmptyRun();
    NextRun([], c0);
    assert [] + [c0] == [c0] && [c0] + [c1] == [c0, c1] && [c0, c1] + [c2] == [c0, c1, c2];
    NextRun([c0], c1);
    NextRun([c0, c1], c2);
    RefusalsChangeNothingExactlyWhen(RunAll([c0, c1, c2]).value.book, late);
  }

  lemma BothSubmitted(short: Intent, long: Intent, quantity: int, a: string, b: string) returns (book: Book)
    requires short.action.Enter? && short.signal.GoShort? && long.action.Enter? && long.signal.GoLong?
    requires short.strategy == long.strategy && quantity > 0 && a != b
    ensures var c0, c1 := CmdEntry(short, quantity, a), CmdEntry(long, quantity, b);
            && FreshId(EMPTY, c0) && !LateCall(EMPTY, c0) && Fills(Apply(EMPTY, c0).result) == []
            && FreshId(Apply(EMPTY, c0).book, c1) && !LateCall(Apply(EMPTY, c0).book, c1)
            && Fills(Apply(Apply(EMPTY, c0).book, c1).result) == []
            && book == Apply(Apply(EMPTY, c0).book, c1).book
    ensures book.orders == map[a := Order(a, short.strategy, Short, quantity, Submitted, 0, None),
                               b := Order(b, short.strategy, Long, quantity, Submitted, 0, None)]
    ensures book.positions == map[]
  {
    var c0, c1 := CmdEntry(short, quantity, a), CmdEntry(long, quantity, b);
    assert short != long;
    book := Apply(Apply(EMPTY, c0).book, c1).book;
  }

  lemma FirstFilled(b: Book, c: Command, late: Command)
    requires c.CmdEntryFill? && c.amount.None? && c.price > 0.0
    requires late.CmdEntryFill? && late.amount.None? && late.price > 0.0
    requires Keyed(b) && b.positions == map[] && c.order in b.orders && late.order in b.orders && c.order != late.order
    requires b.orders[c.order].status.Submitted? && b.orders[late.order].status.Submitted?
    requires b.orders[c.order].filled == b.orders[late.order].filled == 0
    requires b.orders[c.order].strategy == b.orders[late.order].strategy
    requires b.orders[c.order].side != b.orders[late.order].side
    ensures !LateCall(b, c) && |Fills(Apply(b, c).result)| == 1
    ensures LateCall(Apply(b, c).book, late) && Keyed(Apply(b, c).book)
  {
    hide Blend;
  }

  lemma EmptyRun()
    ensures RunAll([]) == Some(Trail(EMPTY, []))
  {
  }
}

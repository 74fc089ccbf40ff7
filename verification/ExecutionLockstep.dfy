/** The engine's order book and the paper broker's order book, kept separately, never part. */
module ExecutionLockstep {
  import opened Options
  import opened ExecutionTypes
  import opened ExecutionBook
  import opened ExecutionEngine
  import opened ExecutionRuns

  /** A fill reaches the broker first and is then reported to the engine. */
  function DeskFill(d: Desk, f: Fill): DeskStep {
    var reply := BrokerInject(d.broker, f);
    if reply.result.Err? then DeskStep(d, Err(reply.result.error))
    else
      var step := ProcessBrokerFill(d.book, f);
      DeskStep(Desk(step.book, reply.orders), step.result)
  }

  datatype DeskCommand =
    | Open(intent: Intent, quantity: int, freshId: string)
    | Close(intent: Intent, freshId: string)
    | Report(fill: Fill)
    | Withdraw(order: string)
    | Refuse(order: string)

  function DeskApply(d: Desk, c: DeskCommand): DeskStep {
    match c
    case Open(intent, quantity, freshId) => PassOn(d, intent, SubmitEntry(d.book, intent, quantity, freshId))
    case Close(intent, freshId) => PassOn(d, intent, SubmitExit(d.book, intent, freshId))
    case Report(fill) => DeskFill(d, fill)
    case Withdraw(order) => Repeat(d, order, Cancel(d.book, order), BrokerCancel(d.broker, order))
    case Refuse(order) => Repeat(d, order, Reject(d.book, order), BrokerReject(d.broker, order))
  }

  predicate FreshDeskId(d: Desk, c: DeskCommand) {
    (c.Open? || c.Close?) ==> c.freshId !in d.book.orders
  }

  /** The same call made of an engine without a broker. */
  function Alone(c: DeskCommand): Command {
    match c
    case Open(intent, quantity, freshId) => CmdEntry(intent, quantity, freshId)
    case Close(intent, freshId) => CmdExit(intent, freshId)
    case Report(fill) => CmdBrokerFill(fill)
    case Withdraw(order) => CmdCancel(order)
    case Refuse(order) => CmdReject(order)
  }

  ghost predicate InLockstep(d: Desk) {
    && d.book.orders == d.broker
    && forall k :: k in d.broker ==>
         d.broker[k].id == k && (d.broker[k].filled > 0 ==> d.broker[k].average.Some?)
  }

  /** Both parties average a fill into an order to the same price. */
  lemma AveragesAgree(o: Order, f: Fill)
    requires o.filled > 0 ==> o.average.Some?
    ensures BrokerAverage(o, f) == FillAverage(o, f)
  {
    if o.filled > 0 {
      assert o.average.value * o.filled as real == o.filled as real * o.average.value;
      assert f.price * f.quantity as real == f.quantity as real * f.price;
    }
  }

  lemma InjectWritesWhatTheEngineWrites(d: Desk, f: Fill)
    requires InLockstep(d)
    ensures BrokerInject(d.broker, f).result == CheckFill(d.book, f)
    ensures CheckFill(d.book, f).Ok? <==> Accepts(d.broker, f)
    ensures CheckFill(d.book, f).Ok? ==>
              var o := CheckFill(d.book, f).value;
              && o.id == f.order && o.average.Some?
              && BrokerInject(d.broker, f).orders == d.book.orders[o.id := o]
    ensures CheckFill(d.book, f).Err? ==> BrokerInject(d.broker, f).orders == d.broker
  {
    CheckFillExactly(d.book, f);
    hide BrokerAverage, FillAverage;
    if f.order in d.broker {
      AveragesAgree(d.broker[f.order], f);
    }
  }

  /** The engine refuses a fill that its order accepts, without writing: it has taken this fill id, or the fill
      would close more than the position holds, or carries the position's side though its order does not. */
  predicate EngineRefuses(b: Book, f: Fill)
    requires f.order in b.orders
  {
    || f.id in b.fillIds
    || (&& f.strategy in b.positions && b.positions[f.strategy].side != b.orders[f.order].side
        && (f.quantity > b.positions[f.strategy].quantity || f.side == b.positions[f.strategy].side))
  }

  lemma EngineWrites(b: Book, f: Fill)
    requires CheckFill(b, f).Ok? && Keyed(b)
    ensures var step := ProcessBrokerFill(b, f);
            && f.order in b.orders
            && (EngineRefuses(b, f) ==> step.result.Err? && step.book == b)
            && (!EngineRefuses(b, f) ==> step.book.orders == b.orders[f.order := CheckFill(b, f).value])
            && (step.result.Ok? <==> !EngineRefuses(b, f) && !LateCall(b, CmdBrokerFill(f)))
            && CheckFill(b, f).value.filled > b.orders[f.order].filled
  {
    CheckFillExactly(b, f);
    CheckedOrder(b, f);
    FiledUnder(b, f.order);
    hide CheckFill, AddPositionFill, Keyed;
  }

  /** The fill that makes the two order books part: the broker takes it and the engine does not. */
  predicate PartsBooks(d: Desk, f: Fill) {
    Accepts(d.broker, f) && f.order in d.book.orders && EngineRefuses(d.book, f)
  }

  lemma LockstepKeyed(d: Desk)
    requires InLockstep(d)
    ensures Keyed(d.book) && d.book.orders == d.broker
  {
  }

  /** Taking one fill keeps the order books equal unless the broker takes it and the engine refuses it; it
      returns exactly if the broker takes it and the engine neither refuses it nor raises late. */
  lemma FillKeepsLockstep(d: Desk, f: Fill)
    requires InLockstep(d)
    ensures var step := DeskFill(d, f);
            && (InLockstep(step.desk) <==> !PartsBooks(d, f))
            && (step.result.Ok? <==>
                  Accepts(d.broker, f) && !PartsBooks(d, f) && !LateCall(d.book, CmdBrokerFill(f)))
            && step.desk.book == ProcessBrokerFill(d.book, f).book
            && (step.result.Ok? ==> step.result == ProcessBrokerFill(d.book, f).result)
  {
    LockstepKeyed(d);
    CheckFillExactly(d.book, f);
    InjectWritesWhatTheEngineWrites(d, f);
    if CheckFill(d.book, f).Ok? {
      hide CheckFill, BrokerInject, Accepts, EngineRefuses, ProcessBrokerFill, LateCall;
      EngineWrites(d.book, f);
    } else {
      RefusedAlike(d.book, f);
      hide CheckFill, BrokerInject, Accepts, EngineRefuses, ProcessBrokerFill, LateCall;
    }
  }

  /** A fill its order does not accept changes nothing at the engine either. */
  lemma RefusedAlike(b: Book, f: Fill)
    requires !Accepts(b.orders, f)
    ensures ProcessBrokerFill(b, f).result.Err? && ProcessBrokerFill(b, f).book == b
  {
    CheckFillExactly(b, f);
    hide CheckFill;
  }

  /** The books part: the broker reports a fill id a second time. */
  lemma BooksCanPart(d: Desk, f: Fill)
    requires InLockstep(d) && DeskFill(d, f).result.Ok?
    requires f.quantity * 2 <= Remaining(d.broker[f.order])
    ensures var once := DeskFill(d, f).desk;
            InLockstep(once) && PartsBooks(once, f) && !InLockstep(DeskFill(once, f).desk)
  {
    var once := DeskFill(d, f).desk;
    FillKeepsLockstep(d, f);
    InjectWritesWhatTheEngineWrites(d, f);
    CheckedOrder(d.book, f);
    RoomForMore(d.broker[f.order], f);
    FillIdsGrow(d.book, CmdBrokerFill(f));
    FillKeepsLockstep(once, f);
  }

  lemma RoomForMore(o: Order, f: Fill)
    requires ApplyFill(o, f.quantity, FillAverage(o, f)).Ok? && f.quantity * 2 <= Remaining(o)
    ensures var w := ApplyFill(o, f.quantity, FillAverage(o, f)).value;
            Fillable(w) && f.quantity <= Remaining(w)
  {
    hide FillAverage;
  }

  /** Every call leaves the two order books equal, but for a fill that parts them; and otherwise the engine's
      books are those of an engine without a broker. */
  lemma DeskStaysInLockstep(d: Desk, c: DeskCommand)
    requires InLockstep(d) && FreshDeskId(d, c)
    ensures var step := DeskApply(d, c);
            && (InLockstep(step.desk) <==> !(c.Report? && PartsBooks(d, c.fill)))
            && step.desk.book == Apply(d.book, Alone(c)).book
            && (step.result.Ok? ==> step.result == Apply(d.book, Alone(c)).result)
  {
    hide InLockstep, PassOn, Repeat, SubmitEntry, SubmitExit, Cancel, Reject, BrokerCancel, BrokerReject, DeskFill,
         PartsBooks, ProcessBrokerFill;
    LockstepKeyed(d);
    match c
    case Report(fill) => FillKeepsLockstep(d, fill);
    case Open(intent, quantity, freshId) =>
      SubmissionShape(d.book, intent, quantity, freshId);
      SubmissionKeepsLockstep(d, intent, SubmitEntry(d.book, intent, quantity, freshId), freshId);
    case Close(intent, freshId) =>
      SubmissionShape(d.book, intent, 0, freshId);
      SubmissionKeepsLockstep(d, intent, SubmitExit(d.book, intent, freshId), freshId);
    case Withdraw(order) => ClosingKeepsLockstep(d, order);
    case Refuse(order) => ClosingKeepsLockstep(d, order);
  }

  lemma ClosingKeepsLockstep(d: Desk, order: string)
    requires InLockstep(d)
    ensures var alone := Cancel(d.book, order);
            var step := Repeat(d, order, alone, BrokerCancel(d.broker, order));
            InLockstep(step.desk) && step.desk.book == alone.book && step.result == alone.result
    ensures var alone := Reject(d.book, order);
            var step := Repeat(d, order, alone, BrokerReject(d.broker, order));
            InLockstep(step.desk) && step.desk.book == alone.book && step.result == alone.result
  {
  }

  /** A submission is refused without a change, or places a new order. */
  ghost predicate Submission(b: Book, intent: Intent, freshId: string, s: Step) {
    && (s.result.Err? ==> s.book == b)
    && (s.result.Ok? ==>
          && s.result.value.Ordered? && s == Place(b, intent, s.result.value.order)
          && s.result.value.order.id == freshId && s.result.value.order.status == Submitted
          && s.result.value.order.filled == 0)
  }

  lemma SubmissionShape(b: Book, intent: Intent, quantity: int, freshId: string)
    ensures Submission(b, intent, freshId, SubmitEntry(b, intent, quantity, freshId))
    ensures Submission(b, intent, freshId, SubmitExit(b, intent, freshId))
  {
  }

  lemma SubmissionKeepsLockstep(d: Desk, intent: Intent, s: Step, freshId: string)
    requires InLockstep(d) && freshId !in d.broker && Submission(d.book, intent, freshId, s)
    ensures InLockstep(PassOn(d, intent, s).desk)
    ensures PassOn(d, intent, s).result == s.result && PassOn(d, intent, s).desk.book == s.book
  {
  }

  /** A call that makes the books part, or raises late. */
  predicate Breaks(d: Desk, c: DeskCommand) {
    (c.Report? && PartsBooks(d, c.fill)) || LateCall(d.book, Alone(c))
  }

  /** The desk after these calls, whether they returned or raised, if none of them broke the books. */
  function DeskRun(cs: seq<DeskCommand>): Option<Desk> {
    if cs == [] then Some(Desk(EMPTY, map[]))
    else
      var n := |cs| - 1;
      var before := DeskRun(cs[..n]);
      if before.None? || !FreshDeskId(before.value, cs[n]) || Breaks(before.value, cs[n]) then None
      else Some(DeskApply(before.value, cs[n]).desk)
  }

  function AllAlone(cs: seq<DeskCommand>): seq<Command> {
    seq(|cs|, i requires 0 <= i < |cs| => Alone(cs[i]))
  }

  /** Over every run the order books are equal, averages included, and the engine's books are those of an
      engine that ran alone. */
  lemma {:induction false} DeskRunsStayInLockstep(cs: seq<DeskCommand>)
    requires DeskRun(cs).Some?
    ensures InLockstep(DeskRun(cs).value)
    ensures RunAll(AllAlone(cs)).Some? && RunAll(AllAlone(cs)).value.book == DeskRun(cs).value.book
  {
    if cs != [] {
      hide DeskApply, Apply, InLockstep, PartsBooks, LateCall;
      var n := |cs| - 1;
      DeskRunsStayInLockstep(cs[..n]);
      assert AllAlone(cs)[..n] == AllAlone(cs[..n]);
      DeskStaysInLockstep(DeskRun(cs[..n]).value, cs[n]);
    } else {
      assert InLockstep(Desk(EMPTY, map[]));
    }
  }

  lemma NextDesk(cs: seq<DeskCommand>, c: DeskCommand)
    requires DeskRun(cs).Some? && FreshDeskId(DeskRun(cs).value, c) && !Breaks(DeskRun(cs).value, c)
    ensures DeskRun(cs + [c]) == Some(DeskApply(DeskRun(cs).value, c).desk)
  {
    hide DeskApply, Breaks;
    assert (cs + [c])[..|cs|] == cs;
  }

  /** It can happen: an entry half filled, and the same fill reported again. */
  lemma PartedBooksAreReachable(entry: Intent, f: Fill)
    requires entry.action.Enter? && SideOf(entry.signal) == Some(f.side) && f.strategy == entry.strategy
    ensures var cs := [Open(entry, 2 * f.quantity, f.order), Report(f)];
            && DeskRun(cs).Some? && InLockstep(DeskRun(cs).value) && PartsBooks(DeskRun(cs).value, f)
            && !InLockstep(DeskApply(DeskRun(cs).value, Report(f)).desk)
  {
    var open := Open(entry, 2 * f.quantity, f.order);
    var empty := Desk(EMPTY, map[]);
    var d := DeskApply(empty, open).desk;
    var o: Order := Order(f.order, entry.strategy, f.side, 2 * f.quantity, Submitted, 0, None);
    assert d.broker == map[f.order := o] && d.book.orders == map[f.order := o] && d.book.positions == map[];
    assert !Breaks(empty, open);
    FillKeepsLockstep(d, f);
    BooksCanPart(d, f);
    assert !Breaks(d, Report(f));
    hide DeskRun, Breaks, PartsBooks, InLockstep, PassOn, SubmitEntry, DeskFill;
    EmptyDesk();
    NextDesk([], open);
    NextDesk([open], Report(f));
    assert [] + [open] == [open] && [open] + [Report(f)] == [open, Report(f)];
  }

  lemma EmptyDesk()
    ensures DeskRun([]) == Some(Desk(EMPTY, map[]))
  {
  }
}

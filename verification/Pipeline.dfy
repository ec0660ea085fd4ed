/** From order to stock: the procurement system, the events it emits and the ledger their handler posts to. */
module Pipeline {
  import opened Results
  import opened Sums
  import opened ProcurementStates
  import Procurement
  import ProcurementRuns
  import ProcurementLaws
  import Stock
  import StockRuns

  /** Handled tells how many of the event's lines the handler got through before it failed, or all of them. */
  datatype Delivery = Pending | Handled(lines: nat)

  /** `deliveries` says of each emitted event what its handler did. */
  datatype State = State(orders: Procurement.State, stock: Stock.State, deliveries: seq<Delivery>)

  const INITIAL := State(Procurement.INITIAL, Stock.INITIAL, [])

  datatype Op =
    | OnOrders(order: Procurement.Op)
    | OnStock(move: Stock.Op)
    | Handle(event: nat)

  /** Anything but the handler's own postings. */
  predicate Enabled(s: State, op: Op) {
    match op
    case OnOrders(_) => true
    case OnStock(move) => !move.OpReceive?
    case Handle(event) => event < |s.deliveries| && event < |s.orders.events| && s.deliveries[event] == Pending
  }

  predicate CanReceive(l: Stock.Ledger, line: Procurement.EventLine) {
    line.accepted <= 0 || (Stock.Active(l.items, line.item) && Stock.Active(l.warehouses, line.warehouse))
  }

  /** The first line the ledger does not take, or the number of lines. */
  function FirstRefused(l: Stock.Ledger, lines: seq<Procurement.EventLine>): (f: nat)
    ensures f <= |lines|
    ensures forall k :: 0 <= k < f ==> CanReceive(l, lines[k])
    ensures f < |lines| ==> !CanReceive(l, lines[f])
  {
    if |lines| == 0 then 0 else
      var n := |lines| - 1;
      var f := FirstRefused(l, lines[..n]);
      if f < n then f else if CanReceive(l, lines[n]) then n + 1 else n
  }

  function Pad(deliveries: seq<Delivery>, n: nat): (r: seq<Delivery>)
    ensures |deliveries| <= n ==> |r| == n
  {
    if |deliveries| >= n then deliveries else Pad(deliveries, n - 1) + [Pending]
  }

  function Step(s: State, op: Op): State
    requires Enabled(s, op)
  {
    match op
    case OnOrders(order) =>
      var orders := Procurement.Step(s.orders, order).state;
      s.(orders := orders, deliveries := Pad(s.deliveries, |orders.events|))
    case OnStock(move) => s.(stock := Stock.Step(s.stock, move).state)
    case Handle(event) =>
      var lines := s.orders.events[event].lines;
      s.(stock := Stock.Step(s.stock, Stock.OpReceive(event, lines)).state,
         deliveries := s.deliveries[event := Handled(FirstRefused(s.stock.ledger, lines))])
  }

  predicate AllEnabled(s: State, ops: seq<Op>)
    decreases |ops|
  {
    |ops| == 0 || (Enabled(s, ops[0]) && AllEnabled(Step(s, ops[0]), ops[1..]))
  }

  function Run(s: State, ops: seq<Op>): State
    requires AllEnabled(s, ops)
    decreases |ops|
  {
    if |ops| == 0 then s else Run(Step(s, ops[0]), ops[1..])
  }

  // ---------------------------------------------------------------------------
  // Inflow
  // ---------------------------------------------------------------------------

  /** An item, in one warehouse or over all. */
  datatype Key = Key(item: nat, warehouse: Option<nat>)

  predicate Wants(key: Key, item: nat, warehouse: nat) {
    item == key.item && (key.warehouse.None? || key.warehouse.value == warehouse)
  }

  function InflowOf(key: Key): Stock.Row -> int {
    (r: Stock.Row) => if r.source.FromReceipt? && Wants(key, r.item, r.warehouse) then r.quantity * r.direction else 0
  }

  function EmittedAt(key: Key): Procurement.EventLine -> int {
    (l: Procurement.EventLine) => if Wants(key, l.item, l.warehouse) then l.accepted else 0
  }

  /** What the handler posted for the item. */
  function Inflow(l: Stock.Ledger, key: Key): int {
    Sum(l.rows, InflowOf(key))
  }

  function Pairs(events: seq<Procurement.Event>, deliveries: seq<Delivery>): (pairs: seq<(Procurement.Event, Delivery)>)
    requires |events| == |deliveries|
    ensures |pairs| == |events|
  {
    seq(|events|, i requires 0 <= i < |events| => (events[i], deliveries[i]))
  }

  /** How far the handler got through the event's lines. */
  function Reach(lines: seq<Procurement.EventLine>, d: Delivery): (n: nat)
    ensures n <= |lines|
  {
    if d.Handled? && d.lines <= |lines| then d.lines else 0
  }

  /** What the handled lines of an event announce for an item. */
  function DeliveredOf(key: Key): ((Procurement.Event, Delivery)) -> int {
    (p: (Procurement.Event, Delivery)) => Sum(p.0.lines[..Reach(p.0.lines, p.1)], EmittedAt(key))
  }

  function AnnouncedOf(key: Key): ((Procurement.Event, Delivery)) -> int {
    (p: (Procurement.Event, Delivery)) => Sum(p.0.lines, EmittedAt(key))
  }

  ghost predicate LinesOk(lines: seq<Procurement.EventLine>) {
    forall k :: 0 <= k < |lines| ==> lines[k].accepted >= 0
  }

  ghost predicate EventsOk(events: seq<Procurement.Event>) {
    forall e :: 0 <= e < |events| ==> LinesOk(events[e].lines)
  }

  /** Inflow is what was handled: completed events and the lines before the failing one of the others. */
  ghost predicate InflowIsDelivered(s: State) {
    && |s.deliveries| == |s.orders.events|
    && forall key: Key :: Inflow(s.stock.ledger, key) == Sum(Pairs(s.orders.events, s.deliveries), DeliveredOf(key))
  }

  ghost predicate Inv(s: State) {
    Procurement.Inv(s.orders) && Stock.Inv(s.stock) && EventsOk(s.orders.events) && InflowIsDelivered(s)
  }

  // ---------------------------------------------------------------------------
  // Stock side
  // ---------------------------------------------------------------------------

  lemma {:induction false} CountsBringNoInflow(l: Stock.Ledger, count: nat, warehouse: nat, lines: seq<Stock.CountLine>, key: Key)
    ensures Inflow(Stock.PostLines(l, count, warehouse, lines).ledger, key) == Inflow(l, key)
  {
    if |lines| > 0 {
      var n := |lines| - 1;
      CountsBringNoInflow(l, count, warehouse, lines[..n], key);
      var before := Stock.PostLines(l, count, warehouse, lines[..n]).ledger;
      SumAppend(before.rows, Stock.Adjustment(count, warehouse, lines[n]), InflowOf(key));
    }
  }

  lemma {:induction false} OtherMovesBringNoInflow(s: Stock.State, move: Stock.Op, key: Key)
    requires !move.OpReceive?
    ensures Inflow(Stock.Step(s, move).state.ledger, key) == Inflow(s.ledger, key)
  {
    hide Stock.PostLines;
    match move
    case OpMove(i, warehouse, quantity, direction) =>
      SumAppend(s.ledger.rows, Stock.Row(i, warehouse, quantity, direction, Stock.Manual), InflowOf(key));
    case OpApproveCount(count) =>
      if count < |s.counts| {
        CountsBringNoInflow(s.ledger, count, s.counts[count].warehouse, s.counts[count].lines, key);
      }
    case _ =>
  }

  /** The handler completes exactly when every accepted line names an active item and an active warehouse. */
  lemma {:induction false} HandlerCompletesIff(l: Stock.Ledger, event: nat, lines: seq<Procurement.EventLine>)
    ensures var after := Stock.PostReceipt(l, event, lines);
            && after.ledger.items == l.items && after.ledger.warehouses == l.warehouses
            && (after.reply == Done <==> FirstRefused(l, lines) == |lines|)
  {
    if |lines| > 0 {
      HandlerCompletesIff(l, event, lines[..|lines| - 1]);
    }
  }

  /** Written out: an accepted quantity needs an active item and an active warehouse. */
  lemma {:induction false} HandlerLaw(l: Stock.Ledger, event: nat, lines: seq<Procurement.EventLine>)
    ensures Stock.PostReceipt(l, event, lines).reply == Done <==>
              forall k :: 0 <= k < |lines| && lines[k].accepted > 0 ==>
                && lines[k].item < |l.items| && l.items[lines[k].item]
                && lines[k].warehouse < |l.warehouses| && l.warehouses[lines[k].warehouse]
  {
    HandlerCompletesIff(l, event, lines);
    var f := FirstRefused(l, lines);
    if f < |lines| {
      assert !CanReceive(l, lines[f]);
    } else {
      assert forall k :: 0 <= k < |lines| ==> CanReceive(l, lines[k]);
    }
  }

  lemma {:induction false} OneLineBringsItself(l: Stock.Ledger, event: nat, line: Procurement.EventLine, key: Key)
    requires line.accepted >= 0
    ensures var after := Stock.PostReceiptLine(l, event, line);
            && (after.reply == Done <==> CanReceive(l, line))
            && Inflow(after.ledger, key)
               == Inflow(l, key) + if after.reply == Done then EmittedAt(key)(line) else 0
  {
    SumAppend(l.rows, Stock.ReceiptRow(event, line), InflowOf(key));
  }

  /** Whether or not it completes, the handler brings in exactly the lines before the first refused one. */
  lemma {:induction false} HandlerBringsItsPrefix(l: Stock.Ledger, event: nat, lines: seq<Procurement.EventLine>, key: Key)
    requires LinesOk(lines)
    ensures Inflow(Stock.PostReceipt(l, event, lines).ledger, key)
         == Inflow(l, key) + Sum(lines[..FirstRefused(l, lines)], EmittedAt(key))
  {
    if |lines| > 0 {
      hide Inflow, Stock.PostReceiptLine, CanReceive;
      var n := |lines| - 1;
      var front := lines[..n];
      HandlerBringsItsPrefix(l, event, front, key);
      HandlerCompletesIff(l, event, front);
      var before := Stock.PostReceipt(l, event, front);
      var f := FirstRefused(l, front);
      assert front[..f] == lines[..f];
      if before.reply == Done {
        OneLineBringsItself(before.ledger, event, lines[n], key);
        assert lines[..n + 1] == lines;
      }
    }
  }

  // ---------------------------------------------------------------------------
  // Procurement side
  // ---------------------------------------------------------------------------

  lemma {:induction false} EventsOnlyGrow(s: Procurement.State, op: Procurement.Op)
    requires Procurement.Inv(s) && EventsOk(s.events)
    ensures var events := Procurement.Step(s, op).state.events;
            && |s.events| <= |events| && events[..|s.events|] == s.events && EventsOk(events)
  {
  }

  lemma {:induction false} PadKeeps(deliveries: seq<Delivery>, n: nat)
    requires |deliveries| <= n
    ensures var padded := Pad(deliveries, n);
            |padded| == n && padded[..|deliveries|] == deliveries
            && forall e :: |deliveries| <= e < n ==> padded[e] == Pending
  {
    if |deliveries| < n {
      PadKeeps(deliveries, n - 1);
    }
  }

  // ---------------------------------------------------------------------------
  // Runs
  // ---------------------------------------------------------------------------

  lemma {:induction false} OrdersKeepInv(s: State, order: Procurement.Op)
    requires Inv(s) && Enabled(s, OnOrders(order))
    ensures Inv(Step(s, OnOrders(order)))
  {
    hide Procurement.Inv, Stock.Inv, Procurement.Step, EventsOk, Sum;
    ProcurementRuns.StepKeepsInv(s.orders, order);
    EventsOnlyGrow(s.orders, order);
    var t := Step(s, OnOrders(order));
    var n := |s.deliveries|;
    PadKeeps(s.deliveries, |t.orders.events|);
    var before := Pairs(s.orders.events, s.deliveries);
    var added := Pairs(t.orders.events[n..], t.deliveries[n..]);
    assert Pairs(t.orders.events, t.deliveries) == before + added by {
      assert t.orders.events == t.orders.events[..n] + t.orders.events[n..];
      assert t.deliveries == t.deliveries[..n] + t.deliveries[n..];
    }
    forall key: Key
      ensures Inflow(t.stock.ledger, key) == Sum(Pairs(t.orders.events, t.deliveries), DeliveredOf(key))
    {
      SumConcat(before, added, DeliveredOf(key));
      forall i | 0 <= i < |added|
        ensures DeliveredOf(key)(added[i]) == 0
      {
        PendingBringsNothing(added[i], key);
      }
      SumZero(added, DeliveredOf(key));
    }
  }

  lemma {:induction false} PendingBringsNothing(p: (Procurement.Event, Delivery), key: Key)
    requires p.1 == Pending
    ensures DeliveredOf(key)(p) == 0
  {
  }

  lemma {:induction false} StockKeepsInv(s: State, move: Stock.Op)
    requires Inv(s) && Enabled(s, OnStock(move))
    ensures Inv(Step(s, OnStock(move)))
  {
    hide Procurement.Inv, Stock.Inv, EventsOk, Stock.Step, Inflow;
    StockRuns.StepKeepsInv(s.stock, move);
    forall key: Key
      ensures Inflow(Stock.Step(s.stock, move).state.ledger, key) == Inflow(s.stock.ledger, key)
    {
      OtherMovesBringNoInflow(s.stock, move, key);
    }
  }

  lemma {:induction false} HandleKeepsInv(s: State, event: nat)
    requires Inv(s) && Enabled(s, Handle(event))
    ensures Inv(Step(s, Handle(event)))
  {
    hide Procurement.Inv, Stock.Inv, Inflow, Sum, FirstRefused;
    var lines := s.orders.events[event].lines;
    StockRuns.StepKeepsInv(s.stock, Stock.OpReceive(event, lines));
    var t := Step(s, Handle(event));
    var before := Pairs(s.orders.events, s.deliveries);
    var pair := (s.orders.events[event], t.deliveries[event]);
    assert Pairs(t.orders.events, t.deliveries) == before[event := pair];
    assert LinesOk(lines);
    forall key: Key
      ensures Inflow(t.stock.ledger, key) == Sum(Pairs(t.orders.events, t.deliveries), DeliveredOf(key))
    {
      HandlerBringsItsPrefix(s.stock.ledger, event, lines, key);
      SumUpdate(before, event, pair, DeliveredOf(key));
      PendingBringsNothing(before[event], key);
    }
  }

  lemma {:induction false} StepKeepsInv(s: State, op: Op)
    requires Inv(s) && Enabled(s, op)
    ensures Inv(Step(s, op))
  {
    hide Inv, Enabled, Step;
    match op
    case OnOrders(order) => OrdersKeepInv(s, order);
    case OnStock(move) => StockKeepsInv(s, move);
    case Handle(event) => HandleKeepsInv(s, event);
  }

  lemma {:induction false} RunKeepsInv(s: State, ops: seq<Op>)
    requires Inv(s) && AllEnabled(s, ops)
    ensures Inv(Run(s, ops))
    decreases |ops|
  {
    hide Inv, Enabled, Step;
    if |ops| > 0 {
      StepKeepsInv(s, ops[0]);
      RunKeepsInv(Step(s, ops[0]), ops[1..]);
    }
  }

  // ---------------------------------------------------------------------------
  // End to end
  // ---------------------------------------------------------------------------

  /** Nothing of the item is left in the lines the handler did not get through. */
  ghost predicate NothingLeft(p: (Procurement.Event, Delivery), key: Key) {
    forall k :: Reach(p.0.lines, p.1) <= k < |p.0.lines| && Wants(key, p.0.lines[k].item, p.0.lines[k].warehouse) ==> p.0.lines[k].accepted == 0
  }

  /** What lines announce for an item is nothing exactly when none of them accepts any of it. */
  lemma {:induction false} NothingAnnouncedIff(lines: seq<Procurement.EventLine>, key: Key)
    requires LinesOk(lines)
    ensures Sum(lines, EmittedAt(key)) >= 0
    ensures Sum(lines, EmittedAt(key)) == 0 <==>
              forall k :: 0 <= k < |lines| && Wants(key, lines[k].item, lines[k].warehouse) ==> lines[k].accepted == 0
  {
    if |lines| > 0 {
      var n := |lines| - 1;
      NothingAnnouncedIff(lines[..n], key);
      assert forall k :: 0 <= k < n ==> lines[..n][k] == lines[k];
    }
  }

  lemma {:induction false} DeliveredAtMostAnnounced(p: (Procurement.Event, Delivery), key: Key)
    requires LinesOk(p.0.lines)
    ensures DeliveredOf(key)(p) <= AnnouncedOf(key)(p)
    ensures DeliveredOf(key)(p) == AnnouncedOf(key)(p) <==> NothingLeft(p, key)
  {
    hide Sum, Reach, NothingLeft;
    var lines, n := p.0.lines, Reach(p.0.lines, p.1);
    assert lines == lines[..n] + lines[n..];
    SumConcat(lines[..n], lines[n..], EmittedAt(key));
    NothingAnnouncedIff(lines[n..], key);
    NothingLeftIsRest(p, key);
  }

  lemma {:induction false} NothingLeftIsRest(p: (Procurement.Event, Delivery), key: Key)
    ensures var rest := p.0.lines[Reach(p.0.lines, p.1)..];
            NothingLeft(p, key) <==> forall k :: 0 <= k < |rest| && Wants(key, rest[k].item, rest[k].warehouse) ==> rest[k].accepted == 0
  {
    var lines, n := p.0.lines, Reach(p.0.lines, p.1);
    var rest := lines[n..];
    if forall k :: 0 <= k < |rest| && Wants(key, rest[k].item, rest[k].warehouse) ==> rest[k].accepted == 0 {
      forall k | n <= k < |lines| && Wants(key, lines[k].item, lines[k].warehouse)
        ensures lines[k].accepted == 0
      {
        assert rest[k - n] == lines[k];
      }
    }
  }

  /**
   * In every reachable state the handler has brought in no more than the events announce, and just as much exactly
   * when no pending event and no line behind a refused one has any of it left.
   */
  lemma {:induction false} InflowIsAnnouncedIff(t: State, key: Key)
    requires Inv(t)
    ensures Inflow(t.stock.ledger, key) <= Sum(t.orders.events, AmountAt(key))
    ensures Inflow(t.stock.ledger, key) == Sum(t.orders.events, AmountAt(key)) <==> AllDelivered(t, key)
  {
    hide Sum, NothingLeft, LinesOk, DeliveredOf, AnnouncedOf, AmountAt, Procurement.Inv, Stock.Inv;
    var pairs := Pairs(t.orders.events, t.deliveries);
    forall e | 0 <= e < |pairs|
      ensures DeliveredOf(key)(pairs[e]) <= AnnouncedOf(key)(pairs[e])
      ensures DeliveredOf(key)(pairs[e]) == AnnouncedOf(key)(pairs[e]) <==> NothingLeft(pairs[e], key)
      ensures AnnouncedOf(key)(pairs[e]) == AmountAt(key)(t.orders.events[e])
    {
      DeliveredAtMostAnnounced(pairs[e], key);
      AnnouncedIsAmount(pairs[e], key);
    }
    SumMonotone(pairs, DeliveredOf(key), AnnouncedOf(key));
    SumEqualIff(pairs, DeliveredOf(key), AnnouncedOf(key));
    SumSame(pairs, AnnouncedOf(key), t.orders.events, AmountAt(key));
  }

  function AmountAt(key: Key): Procurement.Event -> int {
    (e: Procurement.Event) => Sum(e.lines, EmittedAt(key))
  }

  ghost predicate AllDelivered(t: State, key: Key) {
    && |t.deliveries| == |t.orders.events|
    && forall e :: 0 <= e < |t.deliveries| ==> NothingLeft((t.orders.events[e], t.deliveries[e]), key)
  }

  lemma {:induction false} AnnouncedIsAmount(p: (Procurement.Event, Delivery), key: Key)
    ensures AnnouncedOf(key)(p) == AmountAt(key)(p.0)
  {
  }

  lemma {:induction false} InitialInv()
    ensures Inv(INITIAL)
  {
    assert Procurement.Inv(INITIAL.orders);
    assert Stock.Inv(INITIAL.stock);
  }

  // ---------------------------------------------------------------------------
  // Per item: what the order lines received
  // ---------------------------------------------------------------------------

  lemma {:induction false} AmountOverAll(events: seq<Procurement.Event>, item: nat)
    ensures Sum(events, AmountAt(Key(item, None))) == Sum(events, Procurement.EventAmount(item))
  {
    forall e | 0 <= e < |events|
      ensures AmountAt(Key(item, None))(events[e]) == Procurement.EventAmount(item)(events[e])
    {
      SumSame(events[e].lines, EmittedAt(Key(item, None)), events[e].lines, Procurement.EmittedOf(item));
    }
    SumSame(events, AmountAt(Key(item, None)), events, Procurement.EventAmount(item));
  }

  /**
   * In every reachable state the handler has brought in, per item, no more than the item's order lines received,
   * and just as much exactly when everything announced of it was delivered.
   */
  lemma {:induction false} InflowIsReceivedIff(ops: seq<Op>, item: nat)
    requires AllEnabled(INITIAL, ops)
    ensures var t := Run(INITIAL, ops);
            && Inflow(t.stock.ledger, Key(item, None)) <= Sum(t.orders.lines, Procurement.ReceivedOf(item))
            && (Inflow(t.stock.ledger, Key(item, None)) == Sum(t.orders.lines, Procurement.ReceivedOf(item)) <==>
                  AllDelivered(t, Key(item, None)))
  {
    InitialInv();
    RunKeepsInv(INITIAL, ops);
    var t := Run(INITIAL, ops);
    hide Run, AllEnabled, Sum, AllDelivered;
    InflowIsAnnouncedIff(t, Key(item, None));
    AmountOverAll(t.orders.events, item);
    assert Procurement.Announced(t.orders.lines, t.orders.events);
  }

  /** Once every event was handled completely, the two are equal. */
  lemma {:induction false} InflowIsReceived(ops: seq<Op>, item: nat)
    requires AllEnabled(INITIAL, ops) && AllComplete(Run(INITIAL, ops))
    ensures var t := Run(INITIAL, ops);
            Inflow(t.stock.ledger, Key(item, None)) == Sum(t.orders.lines, Procurement.ReceivedOf(item))
  {
    InflowIsReceivedIff(ops, item);
  }

  ghost predicate AllComplete(t: State) {
    && |t.deliveries| == |t.orders.events|
    && forall e :: 0 <= e < |t.deliveries| ==> t.deliveries[e] == Handled(|t.orders.events[e].lines|)
  }

  // ---------------------------------------------------------------------------
  // Per item and warehouse: what was approved for it
  // ---------------------------------------------------------------------------

  /** The receipt line counts for the key when its goods go to the given warehouse. */
  function ApprovedLine(lines: seq<Option<Procurement.PoLine>>, warehouse: nat, key: Key): Procurement.GrnLine -> int {
    (l: Procurement.GrnLine) =>
      if l.poLine < |lines| && lines[l.poLine].Some? && Wants(key, lines[l.poLine].value.item, warehouse)
      then l.accepted else 0
  }

  /** What a call approves: the accepted quantities of a receipt in quality control, for the warehouse of the call. */
  function ApprovedBy(s: Procurement.State, op: Procurement.Op, key: Key): int {
    if op.OpApproveGrn? && op.grn < |s.grns| && s.grns[op.grn].status == QcPending
    then Sum(s.grns[op.grn].lines, ApprovedLine(s.lines, op.warehouse, key))
    else 0
  }

  /** What the calls of a run approve, one after the other. */
  function Approved(s: State, ops: seq<Op>, key: Key): int
    requires AllEnabled(s, ops)
    decreases |ops|
  {
    if |ops| == 0 then 0 else
      (if ops[0].OnOrders? then ApprovedBy(s.orders, ops[0].order, key) else 0) + Approved(Step(s, ops[0]), ops[1..], key)
  }

  lemma {:induction false} OthersAnnounceNothing(s: Procurement.State, op: Procurement.Op)
    requires op.OpApproveGrn? ==> Procurement.Step(s, op).reply != Done
    ensures Procurement.Step(s, op).state.events == s.events
  {
    hide Procurement.HasLines, Procurement.Rows, Procurement.AnyReferenced, Procurement.Referenced;
    hide Procurement.WithoutLinesOf, Procurement.AddAccepted, Procurement.DerivedStatus, Procurement.EventLines, Procurement.CanReceive;
  }

  lemma {:induction false} StepAnnouncesApproved(s: Procurement.State, op: Procurement.Op, key: Key)
    requires Procurement.Inv(s)
    ensures Sum(Procurement.Step(s, op).state.events, AmountAt(key)) == Sum(s.events, AmountAt(key)) + ApprovedBy(s, op, key)
  {
    hide Procurement.Inv;
    if op.OpApproveGrn? && op.grn < |s.grns| {
      ProcurementLaws.ApprovalLaw(s, op.grn, op.warehouse);
    }
    if op.OpApproveGrn? && Procurement.Step(s, op).reply == Done {
      ProcurementLaws.ApprovalAnnounces(s, op.grn, op.warehouse);
      var events := Procurement.Step(s, op).state.events;
      hide Procurement.Step, Procurement.ApproveGrn;
      var e := events[|s.events|];
      assert events == s.events + [e];
      SumAppend(s.events, e, AmountAt(key));
      SumSame(e.lines, EmittedAt(key), s.grns[op.grn].lines, ApprovedLine(s.lines, op.warehouse, key));
    } else {
      OthersAnnounceNothing(s, op);
    }
  }

  /** Along a run the events announce exactly what its calls approved. */
  lemma {:induction false} EventsAreApprovals(s: State, ops: seq<Op>, key: Key)
    requires Inv(s) && AllEnabled(s, ops)
    ensures Sum(Run(s, ops).orders.events, AmountAt(key)) == Sum(s.orders.events, AmountAt(key)) + Approved(s, ops, key)
    decreases |ops|
  {
    if |ops| > 0 {
      var next := Step(s, ops[0]);
      StepKeepsInv(s, ops[0]);
      if ops[0].OnOrders? {
        StepAnnouncesApproved(s.orders, ops[0].order, key);
      }
      assert next.orders == if ops[0].OnOrders? then Procurement.Step(s.orders, ops[0].order).state else s.orders;
      hide Inv, Step, Enabled, Sum, ApprovedBy;
      EventsAreApprovals(next, ops[1..], key);
    }
  }

  /**
   * End to end, per item and warehouse: the goods the handler put into a warehouse never exceed what was approved for
   * that warehouse, and equal it exactly when everything announced for it was delivered.
   */
  lemma {:induction false} InflowIsApprovedIff(ops: seq<Op>, item: nat, warehouse: nat)
    requires AllEnabled(INITIAL, ops)
    ensures var t := Run(INITIAL, ops);
            var put := Sum(t.stock.ledger.rows, (r: Stock.Row) =>
              if r.source.FromReceipt? && r.item == item && r.warehouse == warehouse then r.quantity * r.direction else 0);
            && put <= Approved(INITIAL, ops, Key(item, Some(warehouse)))
            && (put == Approved(INITIAL, ops, Key(item, Some(warehouse))) <==> AllDelivered(t, Key(item, Some(warehouse))))
  {
    var key := Key(item, Some(warehouse));
    InitialInv();
    RunKeepsInv(INITIAL, ops);
    EventsAreApprovals(INITIAL, ops, key);
    var t := Run(INITIAL, ops);
    InflowIsAnnouncedIff(t, key);
    SumSame(t.stock.ledger.rows, InflowOf(key), t.stock.ledger.rows, (r: Stock.Row) =>
      if r.source.FromReceipt? && r.item == item && r.warehouse == warehouse then r.quantity * r.direction else 0);
    hide Run, AllEnabled, Approved, AllDelivered, Inv;
  }
}

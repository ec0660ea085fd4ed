/**
 * Purchase orders, goods receipts and the stock events they emit, as one transition system.
 * Orders, order lines, receipts and events are tables: a row's position is its key. Order lines can be
 * deleted, leaving None. Quantities count thousandths of a unit, the scale of the database columns.
 */
module Procurement {
  import opened Results
  import opened Sums
  import opened ProcurementStates

  datatype PoLine = PoLine(po: nat, item: nat, ordered: int, received: int)

  datatype NewLine = NewLine(item: nat, ordered: int)

  datatype GrnLine = GrnLine(poLine: nat, received: int, accepted: int, rejected: int)

  datatype Grn = Grn(po: nat, status: GrnStatus, lines: seq<GrnLine>)

  datatype EventLine = EventLine(item: nat, warehouse: nat, accepted: int)

  datatype Event = Event(grn: nat, lines: seq<EventLine>)

  datatype State = State(
    pos: seq<PoStatus>, lines: seq<Option<PoLine>>, grns: seq<Grn>, events: seq<Event>)

  datatype Outcome = Outcome(state: State, reply: Reply)

  const INITIAL := State([], [], [], [])

  // ---------------------------------------------------------------------------
  // Order lines
  // ---------------------------------------------------------------------------

  predicate IsLineOf(slot: Option<PoLine>, po: nat) {
    slot.Some? && slot.value.po == po
  }

  predicate HasLine(lines: seq<Option<PoLine>>, line: nat, po: nat) {
    line < |lines| && IsLineOf(lines[line], po)
  }

  predicate HasLines(lines: seq<Option<PoLine>>, po: nat) {
    exists i :: 0 <= i < |lines| && IsLineOf(lines[i], po)
  }

  predicate ValidItems(items: seq<NewLine>) {
    |items| >= 1 && forall i :: 0 <= i < |items| ==> items[i].ordered >= 1
  }

  function Rows(po: nat, items: seq<NewLine>): (rows: seq<Option<PoLine>>)
    ensures |rows| == |items|
  {
    seq(|items|, i requires 0 <= i < |items| => Some(PoLine(po, items[i].item, items[i].ordered, 0)))
  }

  function WithoutLinesOf(lines: seq<Option<PoLine>>, po: nat): (r: seq<Option<PoLine>>)
    ensures |r| == |lines|
  {
    seq(|lines|, i requires 0 <= i < |lines| => if IsLineOf(lines[i], po) then None else lines[i])
  }

  /** Some goods receipt line points at the order line: the foreign key forbids deleting it. */
  predicate Referenced(grns: seq<Grn>, line: nat) {
    exists g :: 0 <= g < |grns| && RefersTo(grns[g], line)
  }

  predicate RefersTo(grn: Grn, line: nat) {
    exists k :: 0 <= k < |grn.lines| && grn.lines[k].poLine == line
  }

  predicate AnyReferenced(grns: seq<Grn>, lines: seq<Option<PoLine>>, po: nat) {
    exists i :: 0 <= i < |lines| && IsLineOf(lines[i], po) && Referenced(grns, i)
  }

  predicate AllReceived(lines: seq<Option<PoLine>>, po: nat) {
    forall i :: 0 <= i < |lines| && IsLineOf(lines[i], po) ==> lines[i].value.received >= lines[i].value.ordered
  }

  predicate AnyReceived(lines: seq<Option<PoLine>>, po: nat) {
    exists i :: 0 <= i < |lines| && IsLineOf(lines[i], po) && lines[i].value.received > 0
  }

  /** The status that goods receipt approval derives from the order's lines. */
  function DerivedStatus(lines: seq<Option<PoLine>>, po: nat): PoStatus {
    if AllReceived(lines, po) then Received
    else if AnyReceived(lines, po) then PartiallyReceived
    else Approved
  }

  // ---------------------------------------------------------------------------
  // Purchase order calls
  // ---------------------------------------------------------------------------

  function CreateOrder(s: State, vendorKnown: bool, vendorApproved: bool, items: seq<NewLine>): Outcome {
    if !ValidItems(items) then Outcome(s, Refused)
    else if !vendorKnown then Outcome(s, NotFound)
    else if !vendorApproved then Outcome(s, Refused)
    else Outcome(s.(pos := s.pos + [Draft], lines := s.lines + Rows(|s.pos|, items)), Done)
  }

  function UpdateOrder(s: State, po: nat, items: Option<seq<NewLine>>): Outcome {
    if items.Some? && !ValidItems(items.value) then Outcome(s, Refused)
    else if po >= |s.pos| then Outcome(s, NotFound)
    else if s.pos[po] != Draft then Outcome(s, Refused)
    else if items.None? then Outcome(s, Done)
    else if AnyReferenced(s.grns, s.lines, po) then Outcome(s, Refused)
    else Outcome(s.(lines := WithoutLinesOf(s.lines, po) + Rows(po, items.value)), Done)
  }

  function Move(s: State, po: nat, allowed: bool, to: PoStatus): Outcome {
    if po >= |s.pos| then Outcome(s, NotFound)
    else if !allowed then Outcome(s, Refused)
    else Outcome(s.(pos := s.pos[po := to]), Done)
  }

  function SubmitOrder(s: State, po: nat): Outcome {
    Move(s, po, po < |s.pos| && CanTransitionPo(s.pos[po], PendingApproval) && HasLines(s.lines, po), PendingApproval)
  }

  function ApproveOrder(s: State, po: nat): Outcome {
    Move(s, po, po < |s.pos| && CanTransitionPo(s.pos[po], Approved), Approved)
  }

  /** Back to draft; the status table does not know this step. */
  function RejectOrder(s: State, po: nat): Outcome {
    Move(s, po, po < |s.pos| && s.pos[po] == PendingApproval, Draft)
  }

  function CancelOrder(s: State, po: nat): Outcome {
    Move(s, po, po < |s.pos| && CanTransitionPo(s.pos[po], Cancelled), Cancelled)
  }

  function AddLine(s: State, po: nat, item: NewLine): Outcome {
    if item.ordered < 1 then Outcome(s, Refused)
    else if po >= |s.pos| then Outcome(s, NotFound)
    else if s.pos[po] != Draft then Outcome(s, Refused)
    else Outcome(s.(lines := s.lines + Rows(po, [item])), Done)
  }

  /** Only the order is checked to be a draft; the line is deleted by its own key, whichever order owns it. */
  function RemoveLine(s: State, po: nat, line: nat): Outcome {
    if po >= |s.pos| then Outcome(s, NotFound)
    else if s.pos[po] != Draft then Outcome(s, Refused)
    else if line >= |s.lines| || s.lines[line].None? then Outcome(s, NotFound)
    else if Referenced(s.grns, line) then Outcome(s, Refused)
    else Outcome(s.(lines := s.lines[line := None]), Done)
  }

  // ---------------------------------------------------------------------------
  // Goods receipt calls
  // ---------------------------------------------------------------------------

  predicate QtyRules(received: int, accepted: int, rejected: int) {
    accepted + rejected <= received
  }

  predicate ValidGrnLine(l: GrnLine) {
    l.received >= 1 && l.accepted >= 0 && l.rejected >= 0
  }

  function CreateGrn(s: State, po: nat, lines: seq<GrnLine>): Outcome {
    if |lines| == 0 || !(forall k :: 0 <= k < |lines| ==> ValidGrnLine(lines[k])) then Outcome(s, Refused)
    else if po >= |s.pos| then Outcome(s, NotFound)
    else if s.pos[po] != Approved && s.pos[po] != PartiallyReceived then Outcome(s, Refused)
    else if !(forall k :: 0 <= k < |lines| ==> CanReceive(s, po, lines[k])) then Outcome(s, Refused)
    else Outcome(s.(grns := s.grns + [Grn(po, GrnDraft, lines)]), Done)
  }

  predicate CanReceive(s: State, po: nat, l: GrnLine) {
    HasLine(s.lines, l.poLine, po) && QtyRules(l.received, l.accepted, l.rejected)
  }

  /** Absent fields keep their value. */
  function Patch(l: GrnLine, received: Option<int>, accepted: Option<int>, rejected: Option<int>): GrnLine {
    GrnLine(
      l.poLine,
      if received.Some? then received.value else l.received,
      if accepted.Some? then accepted.value else l.accepted,
      if rejected.Some? then rejected.value else l.rejected)
  }

  predicate ValidPatch(received: Option<int>, accepted: Option<int>, rejected: Option<int>) {
    && (received.Some? ==> received.value >= 1)
    && (accepted.Some? ==> accepted.value >= 0)
    && (rejected.Some? ==> rejected.value >= 0)
  }

  function UpdateGrnLine(s: State, grn: nat, k: nat,
                         received: Option<int>, accepted: Option<int>, rejected: Option<int>): Outcome {
    if !ValidPatch(received, accepted, rejected) then Outcome(s, Refused)
    else if grn >= |s.grns| then Outcome(s, NotFound)
    else
      var g := s.grns[grn];
      if g.status != GrnDraft && g.status != QcPending then Outcome(s, Refused)
      else if k >= |g.lines| then Outcome(s, NotFound)
      else
        var l := Patch(g.lines[k], received, accepted, rejected);
        if !QtyRules(l.received, l.accepted, l.rejected) then Outcome(s, Refused)
        else Outcome(s.(grns := s.grns[grn := g.(lines := g.lines[k := l])]), Done)
  }

  function MoveGrn(s: State, grn: nat, to: GrnStatus): Outcome {
    if grn >= |s.grns| then Outcome(s, NotFound)
    else if !CanTransitionGrn(s.grns[grn].status, to) then Outcome(s, Refused)
    else Outcome(s.(grns := s.grns[grn := s.grns[grn].(status := to)]), Done)
  }

  /** The increments of all receipt lines, one after the other. */
  function AddAccepted(lines: seq<Option<PoLine>>, receipt: seq<GrnLine>): (r: seq<Option<PoLine>>)
    ensures |r| == |lines|
  {
    if |receipt| == 0 then lines else
      var before := AddAccepted(lines, receipt[..|receipt| - 1]);
      var l := receipt[|receipt| - 1];
      if l.poLine < |before| && before[l.poLine].Some? then
        var row := before[l.poLine].value;
        before[l.poLine := Some(row.(received := row.received + l.accepted))]
      else before
  }

  function EventLines(lines: seq<Option<PoLine>>, receipt: seq<GrnLine>, warehouse: nat): (r: seq<EventLine>)
    ensures |r| == |receipt|
  {
    seq(|receipt|, k requires 0 <= k < |receipt| =>
      EventLine(ItemOf(lines, receipt[k].poLine), warehouse, receipt[k].accepted))
  }

  function ItemOf(lines: seq<Option<PoLine>>, line: nat): nat {
    if line < |lines| && lines[line].Some? then lines[line].value.item else 0
  }

  /** Approval of a goods receipt: status, increments, derived order status, event. */
  function ApproveGrn(s: State, grn: nat, warehouse: nat): Outcome {
    if grn >= |s.grns| then Outcome(s, NotFound)
    else
      var g := s.grns[grn];
      if !CanTransitionGrn(g.status, GrnApproved) then Outcome(s, Refused)
      else if exists k :: 0 <= k < |g.lines| && !QtyRules(g.lines[k].received, g.lines[k].accepted, g.lines[k].rejected)
      then Outcome(s, Refused)
      else if g.po >= |s.pos| then Outcome(s, Refused)
      else
        var lines := AddAccepted(s.lines, g.lines);
        Outcome(
          State(s.pos[g.po := DerivedStatus(lines, g.po)], lines,
                s.grns[grn := g.(status := GrnApproved)],
                s.events + [Event(grn, EventLines(s.lines, g.lines, warehouse))]),
          Done)
  }

  // ---------------------------------------------------------------------------
  // Runs
  // ---------------------------------------------------------------------------

  datatype Op =
    | OpCreateOrder(vendorKnown: bool, vendorApproved: bool, items: seq<NewLine>)
    | OpUpdateOrder(po: nat, newItems: Option<seq<NewLine>>)
    | OpSubmitOrder(po: nat)
    | OpApproveOrder(po: nat)
    | OpRejectOrder(po: nat)
    | OpCancelOrder(po: nat)
    | OpAddLine(po: nat, item: NewLine)
    | OpRemoveLine(po: nat, line: nat)
    | OpCreateGrn(po: nat, grnLines: seq<GrnLine>)
    | OpUpdateGrnLine(grn: nat, k: nat, received: Option<int>, accepted: Option<int>, rejected: Option<int>)
    | OpSubmitForQc(grn: nat)
    | OpApproveGrn(grn: nat, warehouse: nat)
    | OpRejectGrn(grn: nat)

  function Step(s: State, op: Op): Outcome {
    match op
    case OpCreateOrder(known, approved, items) => CreateOrder(s, known, approved, items)
    case OpUpdateOrder(po, items) => UpdateOrder(s, po, items)
    case OpSubmitOrder(po) => SubmitOrder(s, po)
    case OpApproveOrder(po) => ApproveOrder(s, po)
    case OpRejectOrder(po) => RejectOrder(s, po)
    case OpCancelOrder(po) => CancelOrder(s, po)
    case OpAddLine(po, item) => AddLine(s, po, item)
    case OpRemoveLine(po, line) => RemoveLine(s, po, line)
    case OpCreateGrn(po, lines) => CreateGrn(s, po, lines)
    case OpUpdateGrnLine(grn, k, received, accepted, rejected) => UpdateGrnLine(s, grn, k, received, accepted, rejected)
    case OpSubmitForQc(grn) => MoveGrn(s, grn, QcPending)
    case OpApproveGrn(grn, warehouse) => ApproveGrn(s, grn, warehouse)
    case OpRejectGrn(grn) => MoveGrn(s, grn, GrnRejected)
  }

  function Run(s: State, ops: seq<Op>): State
    decreases |ops|
  {
    if |ops| == 0 then s else Run(Step(s, ops[0]).state, ops[1..])
  }

  // ---------------------------------------------------------------------------
  // The invariant
  // ---------------------------------------------------------------------------

  ghost predicate LinesOk(pos: seq<PoStatus>, lines: seq<Option<PoLine>>) {
    forall i :: 0 <= i < |lines| && lines[i].Some? ==>
      lines[i].value.po < |pos| && lines[i].value.ordered >= 1 && lines[i].value.received >= 0
  }

  ghost predicate GrnLineOk(lines: seq<Option<PoLine>>, po: nat, l: GrnLine) {
    HasLine(lines, l.poLine, po) && ValidGrnLine(l) && QtyRules(l.received, l.accepted, l.rejected)
  }

  ghost predicate GrnOk(pos: seq<PoStatus>, lines: seq<Option<PoLine>>, g: Grn) {
    g.po < |pos| && InReceipt(pos[g.po]) && forall k :: 0 <= k < |g.lines| ==> GrnLineOk(lines, g.po, g.lines[k])
  }

  ghost predicate GrnsOk(pos: seq<PoStatus>, lines: seq<Option<PoLine>>, grns: seq<Grn>) {
    forall g :: 0 <= g < |grns| ==> GrnOk(pos, lines, grns[g])
  }

  /**
   * An order in receipt has the derived status or can move to it; before, nothing has been received. Every call keeps
   * this, whatever lines it removes.
   */
  ghost predicate StatusReaches(status: PoStatus, lines: seq<Option<PoLine>>, po: nat) {
    && (InReceipt(status) ==>
          status == DerivedStatus(lines, po) || CanTransitionPo(status, DerivedStatus(lines, po)))
    && (!InReceipt(status) ==> !AnyReceived(lines, po))
  }

  ghost predicate StatusesReach(pos: seq<PoStatus>, lines: seq<Option<PoLine>>) {
    forall po :: 0 <= po < |pos| ==> StatusReaches(pos[po], lines, po)
  }

  /** An order in receipt has exactly the derived status, and one that waits for approval has lines. */
  ghost predicate StatusFits(status: PoStatus, lines: seq<Option<PoLine>>, po: nat) {
    && (InReceipt(status) ==> status == DerivedStatus(lines, po))
    && (status == PendingApproval ==> HasLines(lines, po))
  }

  ghost predicate StatusesFit(s: State) {
    forall po :: 0 <= po < |s.pos| ==> StatusFits(s.pos[po], s.lines, po)
  }

  function AcceptedFor(line: nat): GrnLine -> int {
    (l: GrnLine) => if l.poLine == line then l.accepted else 0
  }

  function ApprovedFor(line: nat): Grn -> int {
    (g: Grn) => if g.status == GrnApproved then Sum(g.lines, AcceptedFor(line)) else 0
  }

  /** What an order line received is what approved receipts accepted for it. */
  ghost predicate Conserved(lines: seq<Option<PoLine>>, grns: seq<Grn>) {
    forall i :: 0 <= i < |lines| && lines[i].Some? ==> lines[i].value.received == Sum(grns, ApprovedFor(i))
  }

  function ReceivedOf(item: nat): Option<PoLine> -> int {
    (slot: Option<PoLine>) => if slot.Some? && slot.value.item == item then slot.value.received else 0
  }

  function EmittedOf(item: nat): EventLine -> int {
    (l: EventLine) => if l.item == item then l.accepted else 0
  }

  function EventAmount(item: nat): Event -> int {
    (e: Event) => Sum(e.lines, EmittedOf(item))
  }

  /** What an item's order lines received is what the emitted events announce for it. */
  ghost predicate Announced(lines: seq<Option<PoLine>>, events: seq<Event>) {
    forall item: nat :: Sum(lines, ReceivedOf(item)) == Sum(events, EventAmount(item))
  }

  ghost predicate Inv(s: State) {
    && LinesOk(s.pos, s.lines)
    && GrnsOk(s.pos, s.lines, s.grns)
    && StatusesReach(s.pos, s.lines)
    && Conserved(s.lines, s.grns)
    && Announced(s.lines, s.events)
  }
}

/**
 * The stock ledger, the balances a trigger keeps beside it, and stock counts.
 * Items, warehouses and counts are tables keyed by position; quantities count thousandths of a unit.
 */
module Stock {
  import opened Results
  import opened Sums
  import Procurement

  type EventLine = Procurement.EventLine

  datatype Source = Manual | FromCount(count: nat) | FromReceipt(event: nat)

  datatype Row = Row(item: nat, warehouse: nat, quantity: int, direction: int, source: Source)

  /** `items` and `warehouses` hold the active flags. */
  datatype Ledger = Ledger(
    items: seq<bool>, warehouses: seq<bool>, rows: seq<Row>, balances: map<(nat, nat), int>)

  datatype Posting = Posting(ledger: Ledger, reply: Reply)

  // ---------------------------------------------------------------------------
  // Movements
  // ---------------------------------------------------------------------------

  predicate Active(flags: seq<bool>, key: nat) {
    key < |flags| && flags[key]
  }

  function Balance(l: Ledger, item: nat, warehouse: nat): int {
    if (item, warehouse) in l.balances then l.balances[(item, warehouse)] else 0
  }

  /** Appends to the ledger; the trigger adds the signed quantity to the balance. */
  function RecordMovement(l: Ledger, row: Row): Posting {
    if !Active(l.items, row.item) then Posting(l, NotFound)
    else if !Active(l.warehouses, row.warehouse) then Posting(l, NotFound)
    else if row.direction == -1 && Balance(l, row.item, row.warehouse) < row.quantity then Posting(l, Refused)
    else if row.quantity <= 0 || (row.direction != 1 && row.direction != -1) then Posting(l, Refused)
    else
      var balance := Balance(l, row.item, row.warehouse) + row.quantity * row.direction;
      Posting(
        l.(rows := l.rows + [row], balances := l.balances[(row.item, row.warehouse) := balance]),
        Done)
  }

  function Signed(item: nat, warehouse: nat): Row -> int {
    (r: Row) => if r.item == item && r.warehouse == warehouse then r.quantity * r.direction else 0
  }

  ghost predicate RowsOk(l: Ledger) {
    forall i :: 0 <= i < |l.rows| ==> l.rows[i].quantity > 0 && (l.rows[i].direction == 1 || l.rows[i].direction == -1)
  }

  /** Each balance is the signed sum of its rows. */
  ghost predicate Balanced(l: Ledger) {
    forall item: nat, warehouse: nat :: Balance(l, item, warehouse) == Sum(l.rows, Signed(item, warehouse))
  }

  /** At no point of its history was any balance negative. */
  ghost predicate NeverNegative(l: Ledger) {
    forall n: nat, item: nat, warehouse: nat :: n <= |l.rows| ==> Sum(l.rows[..n], Signed(item, warehouse)) >= 0
  }

  ghost predicate LedgerOk(l: Ledger) {
    RowsOk(l) && Balanced(l) && NeverNegative(l)
  }

  // ---------------------------------------------------------------------------
  // Counts
  // ---------------------------------------------------------------------------

  datatype CountStatus = Open | Counting | VarianceReview | CountApproved | CountCancelled

  function CountTransitions(from: CountStatus): seq<CountStatus> {
    match from
    case Open => [Counting, CountCancelled]
    case Counting => [VarianceReview, CountCancelled]
    case VarianceReview => [CountApproved, CountCancelled]
    case CountApproved => []
    case CountCancelled => []
  }

  predicate CanTransitionCount(from: CountStatus, to: CountStatus) {
    to in CountTransitions(from)
  }

  datatype CountLine = CountLine(item: nat, system: int, physical: Option<int>)

  datatype Count = Count(warehouse: nat, status: CountStatus, lines: seq<CountLine>)

  datatype State = State(ledger: Ledger, counts: seq<Count>)

  datatype Outcome = Outcome(state: State, reply: Reply)

  const INITIAL := State(Ledger([], [], [], map[]), [])

  /** One line per balance row of an active item, among the first n items. */
  function Snapshot(l: Ledger, warehouse: nat, n: nat): seq<CountLine>
    requires n <= |l.items|
  {
    if n == 0 then [] else
      var before := Snapshot(l, warehouse, n - 1);
      if l.items[n - 1] && (n - 1, warehouse) in l.balances
      then before + [CountLine(n - 1, l.balances[(n - 1, warehouse)], None)]
      else before
  }

  function CreateCount(s: State, warehouse: nat): Outcome {
    if !Active(s.ledger.warehouses, warehouse) then Outcome(s, NotFound)
    else Outcome(s.(counts := s.counts + [Count(warehouse, Open, Snapshot(s.ledger, warehouse, |s.ledger.items|))]), Done)
  }

  function UpdateCountLine(s: State, count: nat, k: nat, physical: int): Outcome {
    if physical < 0 then Outcome(s, Refused)
    else if count >= |s.counts| then Outcome(s, NotFound)
    else
      var c := s.counts[count];
      if c.status != Open && c.status != Counting then Outcome(s, Refused)
      else if k >= |c.lines| then Outcome(s, NotFound)
      else
        var lines := c.lines[k := c.lines[k].(physical := Some(physical))];
        Outcome(s.(counts := s.counts[count := c.(status := Counting, lines := lines)]), Done)
  }

  predicate AllCounted(lines: seq<CountLine>) {
    forall k :: 0 <= k < |lines| ==> lines[k].physical.Some?
  }

  function MoveCount(s: State, count: nat, to: CountStatus): Outcome {
    if count >= |s.counts| then Outcome(s, NotFound)
    else if !CanTransitionCount(s.counts[count].status, to) then Outcome(s, Refused)
    else Outcome(s.(counts := s.counts[count := s.counts[count].(status := to)]), Done)
  }

  function SubmitCount(s: State, count: nat): Outcome {
    if count < |s.counts| && !AllCounted(s.counts[count].lines) then Outcome(s, Refused)
    else MoveCount(s, count, VarianceReview)
  }

  function Variance(line: CountLine): int {
    if line.physical.Some? then line.physical.value - line.system else 0
  }

  function Adjustment(count: nat, warehouse: nat, line: CountLine): Row {
    var v := Variance(line);
    Row(line.item, warehouse, if v < 0 then -v else v, if v > 0 then 1 else -1, FromCount(count))
  }

  function PostLine(l: Ledger, count: nat, warehouse: nat, line: CountLine): Posting {
    if Variance(line) == 0 then Posting(l, Done) else RecordMovement(l, Adjustment(count, warehouse, line))
  }

  /** Line after line until one fails; what was posted before stays posted. */
  function PostLines(l: Ledger, count: nat, warehouse: nat, lines: seq<CountLine>): Posting {
    if |lines| == 0 then Posting(l, Done) else
      var n := |lines| - 1;
      var before := PostLines(l, count, warehouse, lines[..n]);
      if before.reply != Done then before else PostLine(before.ledger, count, warehouse, lines[n])
  }

  function ApproveCount(s: State, count: nat): Outcome {
    if count >= |s.counts| then Outcome(s, NotFound)
    else
      var c := s.counts[count];
      if !CanTransitionCount(c.status, CountApproved) then Outcome(s, Refused)
      else
        var posting := PostLines(s.ledger, count, c.warehouse, c.lines);
        if posting.reply != Done then Outcome(s.(ledger := posting.ledger), posting.reply)
        else Outcome(State(posting.ledger, s.counts[count := c.(status := CountApproved)]), Done)
  }

  // ---------------------------------------------------------------------------
  // Goods receipt events
  // ---------------------------------------------------------------------------

  function ReceiptRow(event: nat, line: EventLine): Row {
    Row(line.item, line.warehouse, line.accepted, 1, FromReceipt(event))
  }

  function PostReceiptLine(l: Ledger, event: nat, line: EventLine): Posting {
    if line.accepted <= 0 then Posting(l, Done) else RecordMovement(l, ReceiptRow(event, line))
  }

  function PostReceipt(l: Ledger, event: nat, lines: seq<EventLine>): Posting {
    if |lines| == 0 then Posting(l, Done) else
      var n := |lines| - 1;
      var before := PostReceipt(l, event, lines[..n]);
      if before.reply != Done then before else PostReceiptLine(before.ledger, event, lines[n])
  }

  // ---------------------------------------------------------------------------
  // Runs
  // ---------------------------------------------------------------------------

  datatype Op =
    | OpSetItem(item: nat, active: bool)
    | OpSetWarehouse(warehouse: nat, active: bool)
    | OpMove(item: nat, warehouse: nat, quantity: int, direction: int)
    | OpReceive(event: nat, received: seq<EventLine>)
    | OpCreateCount(warehouse: nat)
    | OpUpdateCountLine(count: nat, k: nat, physical: int)
    | OpSubmitCount(count: nat)
    | OpApproveCount(count: nat)
    | OpCancelCount(count: nat)

  /** Adds the key after the last one, or sets the flag of an existing one. */
  function SetFlag(flags: seq<bool>, key: nat, active: bool): (r: seq<bool>)
    ensures |r| >= |flags|
  {
    if key < |flags| then flags[key := active] else flags + [active]
  }

  function OnLedger(s: State, p: Posting): Outcome {
    Outcome(s.(ledger := p.ledger), p.reply)
  }

  function Step(s: State, op: Op): Outcome {
    match op
    case OpSetItem(item, active) => Outcome(s.(ledger := s.ledger.(items := SetFlag(s.ledger.items, item, active))), Done)
    case OpSetWarehouse(w, active) =>
      Outcome(s.(ledger := s.ledger.(warehouses := SetFlag(s.ledger.warehouses, w, active))), Done)
    case OpMove(item, warehouse, quantity, direction) =>
      OnLedger(s, RecordMovement(s.ledger, Row(item, warehouse, quantity, direction, Manual)))
    case OpReceive(event, received) => OnLedger(s, PostReceipt(s.ledger, event, received))
    case OpCreateCount(warehouse) => CreateCount(s, warehouse)
    case OpUpdateCountLine(count, k, physical) => UpdateCountLine(s, count, k, physical)
    case OpSubmitCount(count) => SubmitCount(s, count)
    case OpApproveCount(count) => ApproveCount(s, count)
    case OpCancelCount(count) => MoveCount(s, count, CountCancelled)
  }

  function Run(s: State, ops: seq<Op>): State
    decreases |ops|
  {
    if |ops| == 0 then s else Run(Step(s, ops[0]).state, ops[1..])
  }

  // ---------------------------------------------------------------------------
  // The invariant
  // ---------------------------------------------------------------------------

  /** A snapshot names each item once. */
  ghost predicate Distinct(lines: seq<CountLine>) {
    forall i, j :: 0 <= i < j < |lines| ==> lines[i].item != lines[j].item
  }

  /** A count that reached review is completely counted, and it could only get there with a line to count. */
  ghost predicate CountOk(c: Count) {
    && Distinct(c.lines)
    && (c.status == VarianceReview || c.status == CountApproved ==> AllCounted(c.lines))
    && (c.status != Open && c.status != CountCancelled ==> |c.lines| > 0)
    && (forall k :: 0 <= k < |c.lines| ==> c.lines[k].system >= 0 && (c.lines[k].physical.Some? ==> c.lines[k].physical.value >= 0))
  }

  ghost predicate Inv(s: State) {
    LedgerOk(s.ledger) && forall c :: 0 <= c < |s.counts| ==> CountOk(s.counts[c])
  }
}

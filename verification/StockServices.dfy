/** The stock services over one database, each call against its transition. */
module StockServices {
  import opened Results
  import opened Stock
  import StockRuns

  class Warehouse {
    var items: seq<bool>
    var warehouses: seq<bool>
    var rows: seq<Row>
    var balances: map<(nat, nat), int>
    var counts: seq<Count>

    function LedgerView(): Ledger
      reads this
    {
      Ledger(items, warehouses, rows, balances)
    }

    function View(): State
      reads this
    {
      State(LedgerView(), counts)
    }

    constructor ()
      ensures View() == INITIAL
    {
      items, warehouses, rows, balances, counts := [], [], [], map[], [];
    }

    /** The insert and its trigger. */
    method Record(row: Row) returns (reply: Reply)
      modifies this`rows, this`balances
      ensures Posting(LedgerView(), reply) == RecordMovement(old(LedgerView()), row)
      ensures LedgerOk(old(LedgerView())) ==> LedgerOk(LedgerView())
    {
      hide LedgerOk;
      if LedgerOk(LedgerView()) { StockRuns.MovementKeepsLedger(LedgerView(), row); }
      if !Active(items, row.item) { return NotFound; }
      if !Active(warehouses, row.warehouse) { return NotFound; }
      var key := (row.item, row.warehouse);
      var available := if key in balances then balances[key] else 0;
      if row.direction == -1 && available < row.quantity { return Refused; }
      if row.quantity <= 0 || (row.direction != 1 && row.direction != -1) { return Refused; }
      rows := rows + [row];
      balances := balances[key := available + row.quantity * row.direction];
      reply := Done;
    }

    method HandleGrnApproved(event: nat, lines: seq<EventLine>) returns (reply: Reply)
      modifies this`rows, this`balances
      ensures Posting(LedgerView(), reply) == PostReceipt(old(LedgerView()), event, lines)
      ensures StockRuns.Upholds(old(View()), View())
    {
      hide StockRuns.Upholds;
      StockRuns.StepUpholds(View(), OpReceive(event, lines));
      reply := Done;
      for k := 0 to |lines|
        invariant reply == Done
        invariant Posting(LedgerView(), Done) == PostReceipt(old(LedgerView()), event, lines[..k])
      {
        assert lines[..k + 1][..k] == lines[..k];
        if lines[k].accepted > 0 {
          reply := Record(ReceiptRow(event, lines[k]));
          if reply != Done {
            StockRuns.ReceiptFailureStays(old(LedgerView()), event, lines, k + 1);
            return;
          }
        }
      }
      assert lines[..|lines|] == lines;
    }

    /** Creates the count with a line for every balance row of an active item. */
    method CreateSheet(warehouse: nat) returns (reply: Reply)
      modifies this`counts
      ensures Outcome(View(), reply) == CreateCount(old(View()), warehouse)
      ensures StockRuns.Upholds(old(View()), View())
    {
      hide StockRuns.Upholds;
      StockRuns.StepUpholds(View(), OpCreateCount(warehouse));
      if !Active(warehouses, warehouse) { return NotFound; }
      var lines: seq<CountLine> := [];
      for item := 0 to |items|
        invariant lines == Snapshot(LedgerView(), warehouse, item)
      {
        if items[item] && (item, warehouse) in balances {
          lines := lines + [CountLine(item, balances[(item, warehouse)], None)];
        }
      }
      counts := counts + [Count(warehouse, Open, lines)];
      reply := Done;
    }

    method UpdateSheetLine(count: nat, k: nat, physical: int) returns (reply: Reply)
      modifies this`counts
      ensures Outcome(View(), reply) == UpdateCountLine(old(View()), count, k, physical)
      ensures StockRuns.Upholds(old(View()), View())
    {
      hide StockRuns.Upholds;
      StockRuns.StepUpholds(View(), OpUpdateCountLine(count, k, physical));
      if physical < 0 { return Refused; }
      if count >= |counts| { return NotFound; }
      var c := counts[count];
      if c.status != Open && c.status != Counting { return Refused; }
      if k >= |c.lines| { return NotFound; }
      var status := if c.status == Open then Counting else c.status;
      counts := counts[count := c.(status := status, lines := c.lines[k := c.lines[k].(physical := Some(physical))])];
      reply := Done;
    }

    method Submit(count: nat) returns (reply: Reply)
      modifies this`counts
      ensures Outcome(View(), reply) == SubmitCount(old(View()), count)
      ensures StockRuns.Upholds(old(View()), View())
    {
      hide StockRuns.Upholds;
      StockRuns.StepUpholds(View(), OpSubmitCount(count));
      if count >= |counts| { return NotFound; }
      var c := counts[count];
      if !CanTransitionCount(c.status, VarianceReview) { return Refused; }
      if !AllCounted(c.lines) { return Refused; }
      counts := counts[count := c.(status := VarianceReview)];
      reply := Done;
    }

    /** Posts line by line, each in its own transaction, and sets the status last. */
    method Approve(count: nat) returns (reply: Reply)
      modifies this`rows, this`balances, this`counts
      ensures Outcome(View(), reply) == ApproveCount(old(View()), count)
      ensures StockRuns.Upholds(old(View()), View())
    {
      hide StockRuns.Upholds;
      StockRuns.StepUpholds(View(), OpApproveCount(count));
      if count >= |counts| { return NotFound; }
      var c := counts[count];
      if !CanTransitionCount(c.status, CountApproved) { return Refused; }
      reply := Done;
      for k := 0 to |c.lines|
        invariant reply == Done && counts == old(counts)
        invariant Posting(LedgerView(), Done) == PostLines(old(LedgerView()), count, c.warehouse, c.lines[..k])
      {
        assert c.lines[..k + 1][..k] == c.lines[..k];
        if Variance(c.lines[k]) != 0 {
          reply := Record(Adjustment(count, c.warehouse, c.lines[k]));
          if reply != Done {
            StockRuns.FailureStays(old(LedgerView()), count, c.warehouse, c.lines, k + 1);
            return;
          }
        }
      }
      assert c.lines[..|c.lines|] == c.lines;
      counts := counts[count := c.(status := CountApproved)];
    }

    method Cancel(count: nat) returns (reply: Reply)
      modifies this`counts
      ensures Outcome(View(), reply) == MoveCount(old(View()), count, CountCancelled)
      ensures StockRuns.Upholds(old(View()), View())
    {
      hide StockRuns.Upholds;
      StockRuns.StepUpholds(View(), OpCancelCount(count));
      if count >= |counts| { return NotFound; }
      if !CanTransitionCount(counts[count].status, CountCancelled) { return Refused; }
      counts := counts[count := counts[count].(status := CountCancelled)];
      reply := Done;
    }
  }
}

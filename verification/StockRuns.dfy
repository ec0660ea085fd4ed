/** What every run of the stock ledger and its counts keeps, and what approving a count does. */
module StockRuns {
  import opened Results
  import opened Sums
  import opened Stock

  // ---------------------------------------------------------------------------
  // The ledger
  // ---------------------------------------------------------------------------

  lemma {:induction false} AppendKeepsHistory(l: Ledger, l': Ledger, row: Row)
    requires NeverNegative(l) && l'.rows == l.rows + [row]
    requires forall item: nat, warehouse: nat :: Sum(l'.rows, Signed(item, warehouse)) >= 0
    ensures NeverNegative(l')
  {
    forall n: nat, item: nat, warehouse: nat | n <= |l'.rows|
      ensures Sum(l'.rows[..n], Signed(item, warehouse)) >= 0
    {
      if n <= |l.rows| {
        assert l'.rows[..n] == l.rows[..n];
      } else {
        assert l'.rows[..n] == l'.rows;
      }
    }
  }

  lemma {:induction false} BalanceNonNegative(l: Ledger, item: nat, warehouse: nat)
    requires LedgerOk(l)
    ensures Balance(l, item, warehouse) >= 0
  {
    assert l.rows[..|l.rows|] == l.rows;
  }

  /** A movement adds its signed quantity to one balance and leaves every other alone. */
  lemma {:induction false} MovementMovesOneBalance(l: Ledger, row: Row, item: nat, warehouse: nat)
    requires RecordMovement(l, row).reply == Done
    ensures Balance(RecordMovement(l, row).ledger, item, warehouse)
         == Balance(l, item, warehouse) + Signed(item, warehouse)(row)
  {
  }

  lemma {:induction false} MovementKeepsLedger(l: Ledger, row: Row)
    requires LedgerOk(l)
    ensures LedgerOk(RecordMovement(l, row).ledger)
  {
    var after := RecordMovement(l, row);
    if after.reply == Done {
      forall item: nat, warehouse: nat
        ensures Balance(after.ledger, item, warehouse) == Sum(after.ledger.rows, Signed(item, warehouse)) >= 0
      {
        SumAppend(l.rows, row, Signed(item, warehouse));
        BalanceNonNegative(l, item, warehouse);
      }
      AppendKeepsHistory(l, after.ledger, row);
    }
  }

  /** A movement is posted exactly when its keys are active and it leaves no negative balance. */
  lemma {:induction false} MovementSucceedsIff(l: Ledger, row: Row)
    requires row.quantity > 0 && (row.direction == 1 || row.direction == -1) && LedgerOk(l)
    ensures RecordMovement(l, row).reply == Done <==>
              Active(l.items, row.item) && Active(l.warehouses, row.warehouse)
              && Balance(l, row.item, row.warehouse) + row.quantity * row.direction >= 0
  {
    BalanceNonNegative(l, row.item, row.warehouse);
  }

  // ---------------------------------------------------------------------------
  // Posting the variances of a count
  // ---------------------------------------------------------------------------

  /** The line can be posted on its own. */
  predicate CanPost(l: Ledger, warehouse: nat, line: CountLine) {
    Variance(line) == 0 ||
    (Active(l.items, line.item) && Active(l.warehouses, warehouse)
     && Balance(l, line.item, warehouse) + Variance(line) >= 0)
  }

  function VarianceOf(item: nat): CountLine -> int {
    (line: CountLine) => if line.item == item then Variance(line) else 0
  }

  lemma {:induction false} PostLineOutcome(l: Ledger, count: nat, warehouse: nat, line: CountLine)
    requires LedgerOk(l)
    ensures var p := PostLine(l, count, warehouse, line);
            && LedgerOk(p.ledger)
            && (p.reply == Done <==> CanPost(l, warehouse, line))
            && (p.reply != Done ==> p.ledger == l)
            && p.ledger.items == l.items && p.ledger.warehouses == l.warehouses
            && (p.reply == Done ==> forall item: nat, w: nat ::
                  Balance(p.ledger, item, w) == Balance(l, item, w) + if w == warehouse then VarianceOf(item)(line) else 0)
            && (p.reply == Done ==> |p.ledger.rows| == |l.rows| + if Variance(line) == 0 then 0 else 1)
            && (Variance(line) == 0 ==> p.ledger == l)
  {
    if Variance(line) != 0 {
      var row := Adjustment(count, warehouse, line);
      MovementKeepsLedger(l, row);
      MovementSucceedsIff(l, row);
      if RecordMovement(l, row).reply == Done {
        forall item: nat, w: nat
          ensures Balance(RecordMovement(l, row).ledger, item, w)
               == Balance(l, item, w) + if w == warehouse then VarianceOf(item)(line) else 0
        {
          MovementMovesOneBalance(l, row, item, w);
        }
      }
    }
  }

  lemma {:induction false} NotAmong(lines: seq<CountLine>, item: nat)
    requires forall k :: 0 <= k < |lines| ==> lines[k].item != item
    ensures Sum(lines, VarianceOf(item)) == 0
  {
    SumZero(lines, VarianceOf(item));
  }

  /**
   * Posting succeeds exactly when every line can be posted on its own. It then moves each balance of the
   * warehouse by the item's variance and no other balance.
   */
  lemma {:induction false} PostLinesOutcome(l: Ledger, count: nat, warehouse: nat, lines: seq<CountLine>)
    requires LedgerOk(l) && Distinct(lines)
    ensures var p := PostLines(l, count, warehouse, lines);
            && LedgerOk(p.ledger)
            && (p.reply == Done <==> forall k :: 0 <= k < |lines| ==> CanPost(l, warehouse, lines[k]))
            && p.ledger.items == l.items && p.ledger.warehouses == l.warehouses
            && (p.reply == Done ==> forall item: nat, w: nat ::
                  Balance(p.ledger, item, w)
                  == Balance(l, item, w) + if w == warehouse then Sum(lines, VarianceOf(item)) else 0)
  {
    hide LedgerOk, PostLine, Variance, Balance;
    if |lines| > 0 {
      var n := |lines| - 1;
      PostLinesOutcome(l, count, warehouse, lines[..n]);
      var before := PostLines(l, count, warehouse, lines[..n]);
      PostLineOutcome(before.ledger, count, warehouse, lines[n]);
      if before.reply == Done {
        assert forall k :: 0 <= k < n ==> lines[..n][k] == lines[k];
        NotAmong(lines[..n], lines[n].item);
        assert CanPost(before.ledger, warehouse, lines[n]) <==> CanPost(l, warehouse, lines[n]);
      } else {
        var k :| 0 <= k < n && !CanPost(l, warehouse, lines[..n][k]);
        assert !CanPost(l, warehouse, lines[k]);
      }
    }
  }

  /** Among distinct items the sum of variances is the variance of the item's only line. */
  lemma {:induction false} VarianceOfLine(lines: seq<CountLine>, k: nat)
    requires Distinct(lines) && k < |lines|
    ensures Sum(lines, VarianceOf(lines[k].item)) == Variance(lines[k])
  {
    var n := |lines| - 1;
    if k == n {
      NotAmong(lines[..n], lines[n].item);
    } else {
      VarianceOfLine(lines[..n], k);
    }
  }

  /**
   * Approving a reviewed count succeeds exactly when each line with a variance names an active item of an
   * active warehouse and takes its balance nowhere below zero. It then moves the balance of each counted item
   * by physical - system and every other balance by nothing.
   */
  lemma {:induction false} ApproveSucceedsIff(s: State, count: nat)
    requires Inv(s) && count < |s.counts| && s.counts[count].status == VarianceReview
    ensures var c, after := s.counts[count], ApproveCount(s, count);
            && (after.reply == Done <==> forall k :: 0 <= k < |c.lines| ==> CanPost(s.ledger, c.warehouse, c.lines[k]))
            && (after.reply == Done ==>
                 && after.state.counts == s.counts[count := c.(status := CountApproved)]
                 && (forall k :: 0 <= k < |c.lines| ==>
                      Balance(after.state.ledger, c.lines[k].item, c.warehouse)
                      == Balance(s.ledger, c.lines[k].item, c.warehouse) + c.lines[k].physical.value - c.lines[k].system)
                 && (forall item: nat, w: nat ::
                      w != c.warehouse || (forall k :: 0 <= k < |c.lines| ==> c.lines[k].item != item) ==>
                      Balance(after.state.ledger, item, w) == Balance(s.ledger, item, w)))
  {
    hide LedgerOk, Balance, CanPost, PostLines;
    var c, after := s.counts[count], ApproveCount(s, count);
    assert CountOk(c);
    PostLinesOutcome(s.ledger, count, c.warehouse, c.lines);
    if after.reply == Done {
      forall k | 0 <= k < |c.lines|
        ensures Balance(after.state.ledger, c.lines[k].item, c.warehouse)
             == Balance(s.ledger, c.lines[k].item, c.warehouse) + c.lines[k].physical.value - c.lines[k].system
      {
        VarianceOfLine(c.lines, k);
      }
      forall item: nat, w: nat | w != c.warehouse || forall k :: 0 <= k < |c.lines| ==> c.lines[k].item != item
        ensures Balance(after.state.ledger, item, w) == Balance(s.ledger, item, w)
      {
        if w == c.warehouse {
          NotAmong(c.lines, item);
        }
      }
    }
  }

  // ---------------------------------------------------------------------------
  // Approval that fails midway
  // ---------------------------------------------------------------------------

  /** The first line that cannot be posted. */
  function FirstFailing(l: Ledger, warehouse: nat, lines: seq<CountLine>): (f: nat)
    ensures f <= |lines|
    ensures forall k :: 0 <= k < f ==> CanPost(l, warehouse, lines[k])
    ensures f < |lines| ==> !CanPost(l, warehouse, lines[f])
  {
    if |lines| == 0 then 0 else
      var n := |lines| - 1;
      var f := FirstFailing(l, warehouse, lines[..n]);
      if f < n then f else if CanPost(l, warehouse, lines[n]) then n + 1 else n
  }

  lemma {:induction false} FailureStays(l: Ledger, count: nat, warehouse: nat, lines: seq<CountLine>, n: nat)
    requires n <= |lines| && PostLines(l, count, warehouse, lines[..n]).reply != Done
    ensures PostLines(l, count, warehouse, lines) == PostLines(l, count, warehouse, lines[..n])
  {
    if n < |lines| {
      var m := |lines| - 1;
      assert lines[..m][..n] == lines[..n];
      FailureStays(l, count, warehouse, lines[..m], n);
    } else {
      assert lines[..n] == lines;
    }
  }

  lemma {:induction false} ReceiptFailureStays(l: Ledger, event: nat, lines: seq<EventLine>, n: nat)
    requires n <= |lines| && PostReceipt(l, event, lines[..n]).reply != Done
    ensures PostReceipt(l, event, lines) == PostReceipt(l, event, lines[..n])
  {
    if n < |lines| {
      var m := |lines| - 1;
      assert lines[..m][..n] == lines[..n];
      ReceiptFailureStays(l, event, lines[..m], n);
    } else {
      assert lines[..n] == lines;
    }
  }

  predicate NoVariance(lines: seq<CountLine>) {
    forall k :: 0 <= k < |lines| ==> Variance(lines[k]) == 0
  }

  lemma {:induction false} PostedRows(l: Ledger, count: nat, warehouse: nat, lines: seq<CountLine>)
    requires LedgerOk(l) && PostLines(l, count, warehouse, lines).reply == Done
    ensures var p := PostLines(l, count, warehouse, lines).ledger;
            LedgerOk(p) && |p.rows| >= |l.rows| && (if NoVariance(lines) then p == l else |p.rows| > |l.rows|)
  {
    hide LedgerOk, PostLine, Variance;
    if |lines| > 0 {
      var n := |lines| - 1;
      var before := PostLines(l, count, warehouse, lines[..n]);
      PostedRows(l, count, warehouse, lines[..n]);
      PostLineOutcome(before.ledger, count, warehouse, lines[n]);
      assert forall k :: 0 <= k < n ==> lines[..n][k] == lines[k];
    }
  }

  /** A failed approval leaves the ledger alone exactly when no line before the failing one has a variance. */
  lemma {:induction false} FailedApprovalIsCleanIff(s: State, count: nat)
    requires Inv(s) && count < |s.counts| && s.counts[count].status == VarianceReview
    requires ApproveCount(s, count).reply != Done
    ensures var c := s.counts[count];
            var f := FirstFailing(s.ledger, c.warehouse, c.lines);
            && f < |c.lines|
            && ApproveCount(s, count).state.counts == s.counts
            && (ApproveCount(s, count).state == s <==> NoVariance(c.lines[..f]))
  {
    hide LedgerOk, PostLine, PostLines, Variance, CanPost, NoVariance;
    var c := s.counts[count];
    ApprovalPosts(s, count);
    PostedRows(s.ledger, count, c.warehouse, c.lines[..FirstFailing(s.ledger, c.warehouse, c.lines)]);
  }

  // ---------------------------------------------------------------------------
  // Runs
  // ---------------------------------------------------------------------------

  lemma {:induction false} PostReceiptKeepsLedger(l: Ledger, event: nat, lines: seq<EventLine>)
    requires LedgerOk(l)
    ensures LedgerOk(PostReceipt(l, event, lines).ledger)
  {
    hide LedgerOk, RecordMovement;
    if |lines| > 0 {
      var n := |lines| - 1;
      PostReceiptKeepsLedger(l, event, lines[..n]);
      MovementKeepsLedger(PostReceipt(l, event, lines[..n]).ledger, ReceiptRow(event, lines[n]));
    }
  }

  lemma {:induction false} SnapshotOk(l: Ledger, warehouse: nat, n: nat)
    requires LedgerOk(l) && n <= |l.items|
    ensures var lines := Snapshot(l, warehouse, n);
            Distinct(lines) && forall k :: 0 <= k < |lines| ==>
              lines[k].item < n && l.items[lines[k].item] && lines[k].physical.None?
              && lines[k].system == Balance(l, lines[k].item, warehouse) && lines[k].system >= 0
  {
    hide LedgerOk;
    if n > 0 {
      SnapshotOk(l, warehouse, n - 1);
      BalanceNonNegative(l, n - 1, warehouse);
    }
  }

  lemma {:induction false} StepKeepsInv(s: State, op: Op)
    requires Inv(s)
    ensures Inv(Step(s, op).state)
  {
    hide RecordMovement, PostLines, PostReceipt, Snapshot;
    match op
    case OpSetItem(_, _) => FlagsKeepLedger(s.ledger, Step(s, op).state.ledger);
    case OpSetWarehouse(_, _) => FlagsKeepLedger(s.ledger, Step(s, op).state.ledger);
    case OpMove(item, warehouse, quantity, direction) =>
      MovementKeepsLedger(s.ledger, Row(item, warehouse, quantity, direction, Manual));
    case OpReceive(event, received) => PostReceiptKeepsLedger(s.ledger, event, received);
    case OpCreateCount(warehouse) => SnapshotOk(s.ledger, warehouse, |s.ledger.items|);
    case OpUpdateCountLine(_, _, _) =>
    case OpSubmitCount(_) =>
    case OpApproveCount(count) =>
      if count < |s.counts| {
        assert CountOk(s.counts[count]);
        PostLinesOutcome(s.ledger, count, s.counts[count].warehouse, s.counts[count].lines);
      }
    case OpCancelCount(_) =>
  }

  lemma {:induction false} FlagsKeepLedger(l: Ledger, l': Ledger)
    requires LedgerOk(l) && l'.rows == l.rows && l'.balances == l.balances
    ensures LedgerOk(l')
  {
  }

  lemma {:induction false} RunKeepsInv(s: State, ops: seq<Op>)
    requires Inv(s)
    ensures Inv(Run(s, ops))
    decreases |ops|
  {
    hide Inv, Step;
    if |ops| > 0 {
      StepKeepsInv(s, ops[0]);
      RunKeepsInv(Step(s, ops[0]).state, ops[1..]);
    }
  }

  /** In every reachable state balances are ledger sums and were never negative. */
  lemma {:induction false} ReachableInv(ops: seq<Op>)
    ensures Inv(Run(INITIAL, ops))
    ensures var l := Run(INITIAL, ops).ledger;
            forall item: nat, warehouse: nat :: Balance(l, item, warehouse) == Sum(l.rows, Signed(item, warehouse)) >= 0
  {
    assert Inv(INITIAL);
    RunKeepsInv(INITIAL, ops);
    var l := Run(INITIAL, ops).ledger;
    forall item: nat, warehouse: nat
      ensures Balance(l, item, warehouse) >= 0
    {
      BalanceNonNegative(l, item, warehouse);
    }
  }

  // ---------------------------------------------------------------------------
  // History is append-only and snapshots are frozen
  // ---------------------------------------------------------------------------

  ghost predicate Extends(l: Ledger, l': Ledger) {
    |l.rows| <= |l'.rows| && l'.rows[..|l.rows|] == l.rows
  }

  lemma {:induction false} ExtendsTransitively(a: Ledger, b: Ledger, c: Ledger)
    requires Extends(a, b) && Extends(b, c)
    ensures Extends(a, c)
  {
  }

  lemma {:induction false} PostLinesExtends(l: Ledger, count: nat, warehouse: nat, lines: seq<CountLine>)
    ensures Extends(l, PostLines(l, count, warehouse, lines).ledger)
  {
    if |lines| > 0 {
      var n := |lines| - 1;
      PostLinesExtends(l, count, warehouse, lines[..n]);
      var before := PostLines(l, count, warehouse, lines[..n]).ledger;
      ExtendsTransitively(l, before, PostLine(before, count, warehouse, lines[n]).ledger);
    }
  }

  lemma {:induction false} PostReceiptExtends(l: Ledger, event: nat, lines: seq<EventLine>)
    ensures Extends(l, PostReceipt(l, event, lines).ledger)
  {
    if |lines| > 0 {
      var n := |lines| - 1;
      PostReceiptExtends(l, event, lines[..n]);
      var before := PostReceipt(l, event, lines[..n]).ledger;
      ExtendsTransitively(l, before, PostReceiptLine(before, event, lines[n]).ledger);
    }
  }

  /** The snapshot part of a count never changes, and a decided count not at all. */
  ghost predicate SameSnapshot(c: Count, c': Count) {
    && c'.warehouse == c.warehouse && |c'.lines| == |c.lines|
    && (forall k :: 0 <= k < |c.lines| ==> c'.lines[k].item == c.lines[k].item && c'.lines[k].system == c.lines[k].system)
    && (c.status == CountApproved || c.status == CountCancelled ==> c' == c)
  }

  lemma {:induction false} StepExtends(s: State, op: Op)
    ensures var t := Step(s, op).state;
            && Extends(s.ledger, t.ledger) && |s.counts| <= |t.counts|
            && forall c :: 0 <= c < |s.counts| ==> SameSnapshot(s.counts[c], t.counts[c])
  {
    hide PostLines, PostReceipt, Snapshot;
    match op
    case OpReceive(event, received) => PostReceiptExtends(s.ledger, event, received);
    case OpApproveCount(count) =>
      if count < |s.counts| {
        PostLinesExtends(s.ledger, count, s.counts[count].warehouse, s.counts[count].lines);
      }
    case _ =>
  }

  /** What a call does to a state that satisfies the invariant. */
  ghost predicate Upholds(s: State, t: State) {
    && (Inv(s) ==> Inv(t))
    && Extends(s.ledger, t.ledger) && |s.counts| <= |t.counts|
    && (forall c :: 0 <= c < |s.counts| ==> SameSnapshot(s.counts[c], t.counts[c]))
  }

  lemma {:induction false} StepUpholds(s: State, op: Op)
    ensures Upholds(s, Step(s, op).state)
  {
    hide Inv, Step;
    if Inv(s) {
      StepKeepsInv(s, op);
    }
    StepExtends(s, op);
  }

  /** Over every run the ledger only grows at its end and counts keep what they recorded. */
  lemma {:induction false} RunExtends(s: State, ops: seq<Op>)
    ensures var t := Run(s, ops);
            && Extends(s.ledger, t.ledger) && |s.counts| <= |t.counts|
            && forall c :: 0 <= c < |s.counts| ==> SameSnapshot(s.counts[c], t.counts[c])
    decreases |ops|
  {
    hide Step;
    if |ops| > 0 {
      var next := Step(s, ops[0]).state;
      StepExtends(s, ops[0]);
      RunExtends(next, ops[1..]);
      ExtendsTransitively(s.ledger, next.ledger, Run(s, ops).ledger);
      forall c | 0 <= c < |s.counts|
        ensures SameSnapshot(s.counts[c], Run(s, ops).counts[c])
      {
        assert SameSnapshot(s.counts[c], next.counts[c]);
        assert SameSnapshot(next.counts[c], Run(s, ops).counts[c]);
      }
    }
  }

  /** Since then no row was posted for the item in the warehouse. */
  ghost predicate Untouched(before: Ledger, after: Ledger, item: nat, warehouse: nat) {
    forall i :: |before.rows| <= i < |after.rows| ==> after.rows[i].item != item || after.rows[i].warehouse != warehouse
  }

  lemma {:induction false} UntouchedBalance(before: Ledger, after: Ledger, item: nat, warehouse: nat)
    requires LedgerOk(before) && LedgerOk(after) && Extends(before, after) && Untouched(before, after, item, warehouse)
    ensures Balance(after, item, warehouse) == Balance(before, item, warehouse)
  {
    var n := |before.rows|;
    assert after.rows == before.rows + after.rows[n..];
    SumConcat(before.rows, after.rows[n..], Signed(item, warehouse));
    SumZero(after.rows[n..], Signed(item, warehouse));
  }

  /**
   * A count whose items did not move in the warehouse since the snapshot and whose keys are still active can be
   * approved, and approval leaves each counted balance at the physical quantity.
   */
  lemma {:induction false} UndisturbedCountLeavesPhysical(s: State, warehouse: nat, ops: seq<Op>)
    requires Inv(s) && CreateCount(s, warehouse).reply == Done
    requires var t := Run(CreateCount(s, warehouse).state, ops);
             |s.counts| < |t.counts| && t.counts[|s.counts|].status == VarianceReview
    requires var t := Run(CreateCount(s, warehouse).state, ops);
             var lines := t.counts[|s.counts|].lines;
             Active(t.ledger.warehouses, warehouse) && forall k :: 0 <= k < |lines| ==>
               Active(t.ledger.items, lines[k].item) && Untouched(s.ledger, t.ledger, lines[k].item, warehouse)
    ensures var t := Run(CreateCount(s, warehouse).state, ops);
            var c := t.counts[|s.counts|];
            var after := ApproveCount(t, |s.counts|);
            && after.reply == Done
            && forall k :: 0 <= k < |c.lines| ==>
                 c.lines[k].physical.Some?
                 && Balance(after.state.ledger, c.lines[k].item, warehouse) == c.lines[k].physical.value
  {
    hide LedgerOk, Balance, Snapshot, PostLines, RecordMovement, Run;
    var created := CreateCount(s, warehouse).state;
    var t := Run(created, ops);
    var c := t.counts[|s.counts|];
    StepKeepsInv(s, OpCreateCount(warehouse));
    RunKeepsInv(created, ops);
    RunExtends(created, ops);
    SnapshotOk(s.ledger, warehouse, |s.ledger.items|);
    assert SameSnapshot(created.counts[|s.counts|], c);
    assert CountOk(c);
    forall k | 0 <= k < |c.lines|
      ensures Balance(t.ledger, c.lines[k].item, warehouse) == c.lines[k].system && CanPost(t.ledger, warehouse, c.lines[k])
    {
      UntouchedBalance(s.ledger, t.ledger, c.lines[k].item, warehouse);
    }
    ApproveSucceedsIff(t, |s.counts|);
  }

  // ---------------------------------------------------------------------------
  // Each variance is posted once
  // ---------------------------------------------------------------------------

  function PostedFrom(count: nat, item: nat): Row -> int {
    (r: Row) => if r.source == FromCount(count) && r.item == item then r.quantity * r.direction else 0
  }

  /** What a count owes to an item's balance. */
  function Owed(s: State, count: nat, item: nat): int {
    if count < |s.counts| && s.counts[count].status == CountApproved then Sum(s.counts[count].lines, VarianceOf(item)) else 0
  }

  /** The rows posted from a count make up its variances once it is approved, and nothing otherwise. */
  ghost predicate PostedOnce(s: State) {
    forall count: nat, item: nat :: Sum(s.ledger.rows, PostedFrom(count, item)) == Owed(s, count, item)
  }

  /** An approval that fails behind a line with a variance. */
  ghost predicate Leaks(s: State, op: Op) {
    && op.OpApproveCount? && op.count < |s.counts| && s.counts[op.count].status == VarianceReview
    && ApproveCount(s, op.count).reply != Done
    && var c := s.counts[op.count];
       !NoVariance(c.lines[..FirstFailing(s.ledger, c.warehouse, c.lines)])
  }

  /** Lines posted to the end add their variances to what is posted from their count, and nothing from another. */
  lemma {:induction false} PostedLinesAdd(l: Ledger, count: nat, warehouse: nat, lines: seq<CountLine>, c: nat, item: nat)
    requires PostLines(l, count, warehouse, lines).reply == Done
    ensures Sum(PostLines(l, count, warehouse, lines).ledger.rows, PostedFrom(c, item))
         == Sum(l.rows, PostedFrom(c, item)) + if c == count then Sum(lines, VarianceOf(item)) else 0
  {
    if |lines| > 0 {
      hide PostLine;
      var n := |lines| - 1;
      PostedLinesAdd(l, count, warehouse, lines[..n], c, item);
      PostedLineAdds(PostLines(l, count, warehouse, lines[..n]).ledger, count, warehouse, lines[n], c, item);
    }
  }

  lemma {:induction false} PostedLineAdds(l: Ledger, count: nat, warehouse: nat, line: CountLine, c: nat, item: nat)
    requires PostLine(l, count, warehouse, line).reply == Done
    ensures Sum(PostLine(l, count, warehouse, line).ledger.rows, PostedFrom(c, item))
         == Sum(l.rows, PostedFrom(c, item)) + if c == count then VarianceOf(item)(line) else 0
  {
    SumAppend(l.rows, Adjustment(count, warehouse, line), PostedFrom(c, item));
  }

  /** An approval posts exactly the lines before the first failing one. */
  lemma {:induction false} ApprovalPosts(s: State, count: nat)
    requires Inv(s) && count < |s.counts| && s.counts[count].status == VarianceReview
    ensures var c := s.counts[count];
            var f := FirstFailing(s.ledger, c.warehouse, c.lines);
            && (ApproveCount(s, count).reply == Done <==> f == |c.lines|)
            && ApproveCount(s, count).state.ledger == PostLines(s.ledger, count, c.warehouse, c.lines[..f]).ledger
            && PostLines(s.ledger, count, c.warehouse, c.lines[..f]).reply == Done
  {
    hide LedgerOk, PostLine, Variance, CanPost;
    var c := s.counts[count];
    assert CountOk(c);
    var f := FirstFailing(s.ledger, c.warehouse, c.lines);
    PostLinesOutcome(s.ledger, count, c.warehouse, c.lines);
    PostLinesOutcome(s.ledger, count, c.warehouse, c.lines[..f]);
    if f == |c.lines| {
      assert c.lines[..f] == c.lines;
    } else {
      PostLinesOutcome(s.ledger, count, c.warehouse, c.lines[..f + 1]);
      assert !CanPost(s.ledger, c.warehouse, c.lines[..f + 1][f]);
      assert c.lines[..f + 1][..f] == c.lines[..f];
      FailureStays(s.ledger, count, c.warehouse, c.lines, f + 1);
      PostLineOutcome(PostLines(s.ledger, count, c.warehouse, c.lines[..f]).ledger, count, c.warehouse, c.lines[f]);
    }
  }

  /** Distinct lines add up to nothing for every item exactly when none of them has a variance. */
  lemma {:induction false} NoVarianceIff(lines: seq<CountLine>)
    requires Distinct(lines)
    ensures NoVariance(lines) <==> forall item: nat :: Sum(lines, VarianceOf(item)) == 0
  {
    if NoVariance(lines) {
      forall item: nat
        ensures Sum(lines, VarianceOf(item)) == 0
      {
        SumZero(lines, VarianceOf(item));
      }
    }
    if forall item: nat :: Sum(lines, VarianceOf(item)) == 0 {
      forall k | 0 <= k < |lines|
        ensures Variance(lines[k]) == 0
      {
        VarianceOfLine(lines, k);
      }
    }
  }

  lemma {:induction false} ApprovalPostsOnceIff(s: State, count: nat)
    requires Inv(s) && PostedOnce(s) && count < |s.counts| && s.counts[count].status == VarianceReview
    ensures PostedOnce(ApproveCount(s, count).state) <==> !Leaks(s, OpApproveCount(count))
  {
    hide LedgerOk, PostLines, Sum, NoVariance, Variance;
    var c, t := s.counts[count], ApproveCount(s, count).state;
    assert CountOk(c);
    var f := FirstFailing(s.ledger, c.warehouse, c.lines);
    ApprovalPosts(s, count);
    NoVarianceIff(c.lines[..f]);
    assert c.lines[..|c.lines|] == c.lines;
    forall other: nat, item: nat
      ensures Sum(t.ledger.rows, PostedFrom(other, item))
           == Owed(s, other, item) + if other == count then Sum(c.lines[..f], VarianceOf(item)) else 0
    {
      PostedLinesAdd(s.ledger, count, c.warehouse, c.lines[..f], other, item);
    }
    if f < |c.lines| && !NoVariance(c.lines[..f]) {
      var item: nat :| Sum(c.lines[..f], VarianceOf(item)) != 0;
      assert Sum(t.ledger.rows, PostedFrom(count, item)) != Owed(t, count, item);
    }
  }

  lemma {:induction false} OthersPostNothing(s: State, op: Op, count: nat, item: nat)
    requires !op.OpApproveCount?
    ensures Sum(Step(s, op).state.ledger.rows, PostedFrom(count, item)) == Sum(s.ledger.rows, PostedFrom(count, item))
  {
    match op
    case OpMove(i, warehouse, quantity, direction) =>
      SumAppend(s.ledger.rows, Row(i, warehouse, quantity, direction, Manual), PostedFrom(count, item));
    case OpReceive(event, received) => ReceiptPostsNothing(s.ledger, event, received, count, item);
    case _ =>
  }

  lemma {:induction false} ReceiptPostsNothing(l: Ledger, event: nat, lines: seq<EventLine>, count: nat, item: nat)
    ensures Sum(PostReceipt(l, event, lines).ledger.rows, PostedFrom(count, item)) == Sum(l.rows, PostedFrom(count, item))
  {
    if |lines| > 0 {
      var n := |lines| - 1;
      ReceiptPostsNothing(l, event, lines[..n], count, item);
      var before := PostReceipt(l, event, lines[..n]).ledger;
      SumAppend(before.rows, ReceiptRow(event, lines[n]), PostedFrom(count, item));
    }
  }

  lemma {:induction false} OthersOweTheSame(s: State, op: Op, count: nat, item: nat)
    requires !op.OpApproveCount?
    ensures Owed(Step(s, op).state, count, item) == Owed(s, count, item)
  {
    hide Sum, Snapshot, RecordMovement, PostReceipt;
  }

  /** A call keeps every variance posted once exactly when it is not an approval that fails behind a variance. */
  lemma {:induction false} StepPostsOnceIff(s: State, op: Op)
    requires Inv(s) && PostedOnce(s)
    ensures PostedOnce(Step(s, op).state) <==> !Leaks(s, op)
  {
    if op.OpApproveCount? {
      if op.count < |s.counts| && s.counts[op.count].status == VarianceReview {
        ApprovalPostsOnceIff(s, op.count);
      }
    } else {
      hide Inv, Step, Owed, Sum;
      forall count: nat, item: nat
        ensures Sum(Step(s, op).state.ledger.rows, PostedFrom(count, item)) == Owed(Step(s, op).state, count, item)
      {
        OthersPostNothing(s, op, count, item);
        OthersOweTheSame(s, op, count, item);
      }
    }
  }

  ghost predicate AlwaysPostedOnce(s: State, ops: seq<Op>)
    decreases |ops|
  {
    PostedOnce(s) && (|ops| == 0 || AlwaysPostedOnce(Step(s, ops[0]).state, ops[1..]))
  }

  ghost predicate NeverLeaks(s: State, ops: seq<Op>)
    decreases |ops|
  {
    |ops| == 0 || (!Leaks(s, ops[0]) && NeverLeaks(Step(s, ops[0]).state, ops[1..]))
  }

  /** Throughout a run each variance is posted once, exactly when no approval of it fails behind a variance. */
  lemma {:induction false} PostedOnceThroughoutIff(s: State, ops: seq<Op>)
    requires Inv(s) && PostedOnce(s)
    ensures AlwaysPostedOnce(s, ops) <==> NeverLeaks(s, ops)
    ensures NeverLeaks(s, ops) ==> PostedOnce(Run(s, ops))
    decreases |ops|
  {
    hide Inv, PostedOnce, Leaks, Step;
    if |ops| > 0 {
      StepKeepsInv(s, ops[0]);
      StepPostsOnceIff(s, ops[0]);
      if !Leaks(s, ops[0]) {
        PostedOnceThroughoutIff(Step(s, ops[0]).state, ops[1..]);
      }
    }
  }

  /** From the empty database. */
  lemma {:induction false} ReachablePostedOnceIff(ops: seq<Op>)
    ensures AlwaysPostedOnce(INITIAL, ops) <==> NeverLeaks(INITIAL, ops)
  {
    assert Inv(INITIAL) && PostedOnce(INITIAL);
    PostedOnceThroughoutIff(INITIAL, ops);
  }

  // ---------------------------------------------------------------------------
  // A variance posted twice
  // ---------------------------------------------------------------------------

  lemma {:induction false} RetryFrom(l: Ledger, lines: seq<CountLine>)
    requires l.items == [true, true] && l.warehouses == [true]
    requires l.balances == map[(0, 0) := 5, (1, 0) := 0]
    requires lines == [CountLine(0, 5, Some(7)), CountLine(1, 5, Some(3))]
    ensures var s := State(l, [Count(0, VarianceReview, lines)]);
            var failed := ApproveCount(s, 0);
            var refilled := Step(failed.state, OpMove(1, 0, 5, 1));
            var again := ApproveCount(refilled.state, 0);
            && failed.reply == Refused && failed.state.counts == s.counts
            && Balance(failed.state.ledger, 0, 0) == 7
            && refilled.reply == Done && again.reply == Done
            && Balance(again.state.ledger, 0, 0) == 9
            && again.state.counts == [Count(0, CountApproved, lines)]
  {
    TwoLines(l, lines);
    var s := State(l, [Count(0, VarianceReview, lines)]);
    var failed := ApproveCount(s, 0);
    var refilled := Step(failed.state, OpMove(1, 0, 5, 1));
    assert failed.state.ledger == PostLine(l, 0, 0, lines[0]).ledger;
    TwoLines(refilled.state.ledger, lines);
  }

  function RetryRun(): seq<Op> {
    [OpSetItem(0, true), OpSetItem(1, true), OpSetWarehouse(0, true), OpMove(0, 0, 5, 1), OpMove(1, 0, 5, 1),
     OpCreateCount(0), OpUpdateCountLine(0, 0, 7), OpUpdateCountLine(0, 1, 3), OpSubmitCount(0), OpMove(1, 0, 5, -1),
     OpApproveCount(0), OpMove(1, 0, 5, 1), OpApproveCount(0)]
  }

  /** The state after one call more. */
  lemma {:induction false} RunStep(s: State, ops: seq<Op>, n: nat)
    requires 0 < n <= |ops|
    ensures Run(s, ops[..n]) == Step(Run(s, ops[..n - 1]), ops[n - 1]).state
    decreases n
  {
    hide Step;
    var first := ops[..n];
    if n > 1 {
      RunStep(Step(s, ops[0]).state, ops[1..], n - 1);
      assert first[1..] == ops[1..][..n - 1];
      assert ops[..n - 1][1..] == ops[1..][..n - 2];
    }
  }

  /** Two items, a warehouse, and five of each. */
  lemma {:induction false} StockingSteps()
    ensures var s1 := Step(INITIAL, OpSetItem(0, true)).state;
            var s2 := Step(s1, OpSetItem(1, true)).state;
            var s3 := Step(s2, OpSetWarehouse(0, true)).state;
            var s4 := Step(s3, OpMove(0, 0, 5, 1)).state;
            var s5 := Step(s4, OpMove(1, 0, 5, 1)).state;
            Stocked(s5)
  {
    var s3 := State(Ledger([true, true], [true], [], map[]), []);
    assert Step(State(Ledger([true, true], [], [], map[]), []), OpSetWarehouse(0, true)).state == s3;
    var s4 := Step(s3, OpMove(0, 0, 5, 1)).state;
    assert s4.ledger.balances == map[(0, 0) := 5];
  }

  predicate Stocked(s: State) {
    && s.ledger.items == [true, true] && s.ledger.warehouses == [true] && s.counts == []
    && s.ledger.balances == map[(0, 0) := 5, (1, 0) := 5]
  }

  lemma {:induction false} AfterStocking(ops: seq<Op>)
    requires ops == RetryRun()
    ensures Stocked(Run(INITIAL, ops[..5]))
  {
    assert Run(INITIAL, ops[..0]) == INITIAL;
    hide Run, Step, Stocked;
    StockingSteps();
    RunStep(INITIAL, ops, 1);
    RunStep(INITIAL, ops, 2);
    RunStep(INITIAL, ops, 3);
    RunStep(INITIAL, ops, 4);
    RunStep(INITIAL, ops, 5);
  }

  /** A snapshot of both items, both counted, submitted, and item 1 moved out. */
  lemma {:induction false} CountingSteps(s: State)
    requires Stocked(s)
    ensures var s1 := Step(s, OpCreateCount(0)).state;
            var s2 := Step(s1, OpUpdateCountLine(0, 0, 7)).state;
            var s3 := Step(s2, OpUpdateCountLine(0, 1, 3)).state;
            var s4 := Step(s3, OpSubmitCount(0)).state;
            var s5 := Step(s4, OpMove(1, 0, 5, -1)).state;
            Recounted(s5)
  {
    var a, b := CountLine(0, 5, None), CountLine(1, 5, None);
    var a', b' := CountLine(0, 5, Some(7)), CountLine(1, 5, Some(3));
    assert [a, b][0 := a'] == [a', b] && [a', b][1 := b'] == [a', b'];
    assert Snapshot(s.ledger, 0, 0) == [];
    assert Snapshot(s.ledger, 0, 1) == [a];
    assert Snapshot(s.ledger, 0, 2) == [a, b];
    var s1 := State(s.ledger, [Count(0, Open, [a, b])]);
    var s2 := State(s.ledger, [Count(0, Counting, [a', b])]);
    var s3 := State(s.ledger, [Count(0, Counting, [a', b'])]);
    var s4 := State(s.ledger, [Count(0, VarianceReview, [a', b'])]);
    assert Step(s, OpCreateCount(0)).state == s1;
    assert Step(s1, OpUpdateCountLine(0, 0, 7)).state == s2;
    assert Step(s2, OpUpdateCountLine(0, 1, 3)).state == s3;
    assert Step(s3, OpSubmitCount(0)).state == s4;
  }

  predicate Recounted(s: State) {
    && s.ledger.items == [true, true] && s.ledger.warehouses == [true]
    && s.ledger.balances == map[(0, 0) := 5, (1, 0) := 0]
    && s.counts == [Count(0, VarianceReview, [CountLine(0, 5, Some(7)), CountLine(1, 5, Some(3))])]
  }

  lemma {:induction false} AfterCounting(ops: seq<Op>)
    requires ops == RetryRun()
    ensures Recounted(Run(INITIAL, ops[..10]))
  {
    AfterStocking(ops);
    hide Run, Step, Recounted;
    CountingSteps(Run(INITIAL, ops[..5]));
    RunStep(INITIAL, ops, 6);
    RunStep(INITIAL, ops, 7);
    RunStep(INITIAL, ops, 8);
    RunStep(INITIAL, ops, 9);
    RunStep(INITIAL, ops, 10);
  }

  /**
   * A run from the empty database that posts one variance twice. Item 0 is counted 7 against 5 and item 1 is counted
   * 3 against 5, but item 1 left the warehouse meanwhile: the approval fails after posting item 0. Once item 1 is
   * back the approval is repeated and item 0 stands at 9.
   */
  lemma {:induction false} RetriedApprovalPostsTwice(ops: seq<Op>)
    requires ops == RetryRun()
    ensures var counted := Run(INITIAL, ops[..10]);
            Recounted(counted) && Step(counted, OpApproveCount(0)).reply == Refused
    ensures Balance(Run(INITIAL, ops).ledger, 0, 0) == 9
  {
    AfterRetry(ops);
    assert ops[..13] == ops;
    hide Run, Step, Recounted, Balance;
  }

  lemma {:induction false} AfterRetry(ops: seq<Op>)
    requires ops == RetryRun()
    ensures var counted := Run(INITIAL, ops[..10]);
            Recounted(counted) && Step(counted, OpApproveCount(0)).reply == Refused
    ensures Balance(Run(INITIAL, ops[..13]).ledger, 0, 0) == 9
  {
    hide Run, RecordMovement, PostLines, ApproveCount, Balance;
    AfterCounting(ops);
    var s := Run(INITIAL, ops[..10]);
    var lines := s.counts[0].lines;
    assert s == State(s.ledger, [Count(0, VarianceReview, lines)]);
    RetryFrom(s.ledger, lines);
    RunStep(INITIAL, ops, 11);
    RunStep(INITIAL, ops, 12);
    RunStep(INITIAL, ops, 13);
  }

  lemma {:induction false} TwoLines(l: Ledger, lines: seq<CountLine>)
    requires |lines| == 2
    ensures PostLines(l, 0, 0, lines) ==
              var first := PostLine(l, 0, 0, lines[0]);
              if first.reply != Done then first else PostLine(first.ledger, 0, 0, lines[1])
  {
    hide PostLine;
    assert |lines[..1]| == 1 && lines[..1][0] == lines[0] && lines[..1][..0] == [];
    assert PostLines(l, 0, 0, lines[..1]) == PostLine(l, 0, 0, lines[0]);
  }
}

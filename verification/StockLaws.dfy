/** What each movement and count call is answered and what it leaves in the tables, field by field. */
module StockLaws {
  import opened Results
  import opened Sums
  import opened Stock
  import StockRuns

  /** The balance row of the key, or zero. */
  function Kept(balances: map<(nat, nat), int>, item: nat, warehouse: nat): int {
    if (item, warehouse) in balances then balances[(item, warehouse)] else 0
  }

  predicate On(flags: seq<bool>, key: nat) {
    key < |flags| && flags[key]
  }

  /**
   * A movement is recorded exactly for an active item in an active warehouse, a positive quantity in or out, and out
   * only as far as the balance goes; it adds one row and its signed quantity to one balance.
   */
  lemma {:induction false} RecordLaw(l: Ledger, row: Row)
    ensures var after := RecordMovement(l, row);
            && (after.reply == Done <==>
                  && On(l.items, row.item) && On(l.warehouses, row.warehouse) && row.quantity > 0
                  && (row.direction == 1
                      || (row.direction == -1 && row.quantity <= Kept(l.balances, row.item, row.warehouse))))
            && (after.reply != Done ==> after.ledger == l)
            && (after.reply == Done ==>
                  && after.ledger.items == l.items && after.ledger.warehouses == l.warehouses
                  && after.ledger.rows == l.rows + [row]
                  && forall item: nat, warehouse: nat ::
                       Kept(after.ledger.balances, item, warehouse)
                       == Kept(l.balances, item, warehouse)
                        + if item == row.item && warehouse == row.warehouse then row.quantity * row.direction else 0)
  {
  }

  /** A handled event, to its end or not, adds incoming rows that name it and leaves every row before them. */
  lemma {:induction false} ReceiptRowsLaw(l: Ledger, event: nat, lines: seq<EventLine>)
    ensures var after := PostReceipt(l, event, lines).ledger;
            && |l.rows| <= |after.rows| <= |l.rows| + |lines| && after.rows[..|l.rows|] == l.rows
            && (forall i :: |l.rows| <= i < |after.rows| ==>
                  after.rows[i].source == FromReceipt(event) && after.rows[i].direction == 1 && after.rows[i].quantity > 0)
  {
    if |lines| > 0 {
      ReceiptRowsLaw(l, event, lines[..|lines| - 1]);
    }
  }

  /** Setting the flag of an item or a warehouse sets that flag, or adds the next key with it, and nothing else. */
  lemma {:induction false} SettingsLaw(s: State, key: nat, active: bool)
    ensures var after := Step(s, OpSetItem(key, active)).state;
            var n := |s.ledger.items|;
            && after == s.(ledger := s.ledger.(items := after.ledger.items))
            && |after.ledger.items| == (if key < n then n else n + 1)
            && forall i :: 0 <= i < |after.ledger.items| ==>
                 after.ledger.items[i] == if i == key || i == n then active else s.ledger.items[i]
    ensures var after := Step(s, OpSetWarehouse(key, active)).state;
            var n := |s.ledger.warehouses|;
            && after == s.(ledger := s.ledger.(warehouses := after.ledger.warehouses))
            && |after.ledger.warehouses| == (if key < n then n else n + 1)
            && forall i :: 0 <= i < |after.ledger.warehouses| ==>
                 after.ledger.warehouses[i] == if i == key || i == n then active else s.ledger.warehouses[i]
  {
  }

  /** Every active item among the first n that has a balance row in the warehouse has a line. */
  ghost predicate Covers(lines: seq<CountLine>, l: Ledger, warehouse: nat, n: nat)
    requires n <= |l.items|
  {
    forall item: nat :: item < n && l.items[item] && (item, warehouse) in l.balances ==> HasItem(lines, item)
  }

  predicate HasItem(lines: seq<CountLine>, item: nat) {
    exists k :: 0 <= k < |lines| && lines[k].item == item
  }

  lemma {:induction false} SnapshotCovers(l: Ledger, warehouse: nat, n: nat)
    requires n <= |l.items|
    ensures Covers(Snapshot(l, warehouse, n), l, warehouse, n)
    ensures forall k :: 0 <= k < |Snapshot(l, warehouse, n)| ==>
              var line := Snapshot(l, warehouse, n)[k];
              && line.item < n && l.items[line.item] && (line.item, warehouse) in l.balances
              && line.system == l.balances[(line.item, warehouse)] && line.physical == None
  {
    if n > 0 {
      SnapshotCovers(l, warehouse, n - 1);
      var before, lines := Snapshot(l, warehouse, n - 1), Snapshot(l, warehouse, n);
      forall item: nat | item < n && l.items[item] && (item, warehouse) in l.balances
        ensures HasItem(lines, item)
      {
        if item < n - 1 {
          var k :| 0 <= k < |before| && before[k].item == item;
          assert lines[k] == before[k];
        } else {
          assert lines[|lines| - 1].item == item;
        }
      }
    }
  }

  /**
   * A count is made exactly for an active warehouse; it is open and has one line for each active item with a balance
   * row there, at that balance and not counted yet.
   */
  lemma {:induction false} CreateCountLaw(s: State, warehouse: nat)
    requires Inv(s)
    ensures var after := CreateCount(s, warehouse);
            && (after.reply == Done <==> On(s.ledger.warehouses, warehouse))
            && (after.reply != Done ==> after.state == s)
            && (after.reply == Done ==>
                  && after.state.ledger == s.ledger && |after.state.counts| == |s.counts| + 1
                  && after.state.counts[..|s.counts|] == s.counts
                  && var c := after.state.counts[|s.counts|];
                     && c.warehouse == warehouse && c.status == Open
                     && (forall i, j :: 0 <= i < j < |c.lines| ==> c.lines[i].item != c.lines[j].item)
                     && (forall k :: 0 <= k < |c.lines| ==>
                           && c.lines[k].item < |s.ledger.items| && s.ledger.items[c.lines[k].item]
                           && (c.lines[k].item, warehouse) in s.ledger.balances
                           && c.lines[k].system == s.ledger.balances[(c.lines[k].item, warehouse)]
                           && c.lines[k].physical == None)
                     && Covers(c.lines, s.ledger, warehouse, |s.ledger.items|))
  {
    SnapshotCovers(s.ledger, warehouse, |s.ledger.items|);
    StockRuns.SnapshotOk(s.ledger, warehouse, |s.ledger.items|);
    hide Inv, Snapshot;
  }

  /** One line of an open or counting sheet gets the physical quantity, and the sheet is then counting. */
  lemma {:induction false} UpdateCountLineLaw(s: State, count: nat, k: nat, physical: int)
    requires count < |s.counts| && k < |s.counts[count].lines|
    ensures var after, c := UpdateCountLine(s, count, k, physical), s.counts[count];
            && (after.reply == Done <==> physical >= 0 && (c.status == Open || c.status == Counting))
            && (after.reply != Done ==> after.state == s)
            && (after.reply == Done ==>
                  && after.state == s.(counts := s.counts[count := after.state.counts[count]])
                  && var c' := after.state.counts[count];
                     && c'.warehouse == c.warehouse && c'.status == Counting && |c'.lines| == |c.lines|
                     && (forall j :: 0 <= j < |c.lines| && j != k ==> c'.lines[j] == c.lines[j])
                     && c'.lines[k].item == c.lines[k].item && c'.lines[k].system == c.lines[k].system
                     && c'.lines[k].physical == Some(physical))
  {
  }

  /** The sheet's status becomes `to` and nothing else changes, or nothing changes. */
  ghost predicate Moves(s: State, after: Outcome, count: nat, allowed: bool, to: CountStatus) {
    && (after.reply == Done <==> count < |s.counts| && allowed)
    && (after.reply != Done ==> after.state == s)
    && (after.reply == Done ==> after.state == s.(counts := s.counts[count := s.counts[count].(status := to)]))
  }

  lemma {:induction false} CountStatusLaws(s: State, count: nat)
    requires count < |s.counts|
    ensures Moves(s, SubmitCount(s, count), count,
                  && s.counts[count].status == Counting
                  && forall k :: 0 <= k < |s.counts[count].lines| ==> s.counts[count].lines[k].physical.Some?,
                  VarianceReview)
    ensures Moves(s, Step(s, OpCancelCount(count)), count,
                  s.counts[count].status != CountApproved && s.counts[count].status != CountCancelled, CountCancelled)
  {
  }

  /**
   * A reviewed count is approved exactly when every line that differs names an active item, its warehouse is active
   * and the balance can take the difference. Every counted balance then changes by physical less system.
   */
  lemma {:induction false} ApproveCountLaw(s: State, count: nat)
    requires Inv(s) && count < |s.counts|
    ensures var after, c := ApproveCount(s, count), s.counts[count];
            && (after.reply == Done <==>
                  && c.status == VarianceReview
                  && forall k :: 0 <= k < |c.lines| && c.lines[k].physical != Some(c.lines[k].system) ==>
                       && On(s.ledger.items, c.lines[k].item) && On(s.ledger.warehouses, c.warehouse)
                       && c.lines[k].physical.Some?
                       && Kept(s.ledger.balances, c.lines[k].item, c.warehouse)
                          + c.lines[k].physical.value - c.lines[k].system >= 0)
            && (after.reply == Done ==>
                  && after.state.counts == s.counts[count := Count(c.warehouse, CountApproved, c.lines)]
                  && forall k :: 0 <= k < |c.lines| ==>
                       && c.lines[k].physical.Some?
                       && Kept(after.state.ledger.balances, c.lines[k].item, c.warehouse)
                          == Kept(s.ledger.balances, c.lines[k].item, c.warehouse)
                           + c.lines[k].physical.value - c.lines[k].system)
  {
    var c := s.counts[count];
    assert CountOk(c);
    if c.status == VarianceReview {
      StockRuns.ApproveSucceedsIff(s, count);
      forall k | 0 <= k < |c.lines|
        ensures StockRuns.CanPost(s.ledger, c.warehouse, c.lines[k]) <==>
                  (c.lines[k].physical != Some(c.lines[k].system) ==>
                     && On(s.ledger.items, c.lines[k].item) && On(s.ledger.warehouses, c.warehouse)
                     && c.lines[k].physical.Some?
                     && Kept(s.ledger.balances, c.lines[k].item, c.warehouse)
                        + c.lines[k].physical.value - c.lines[k].system >= 0)
      {
        CanPostIff(s.ledger, c.warehouse, c.lines[k]);
      }
      forall item: nat
        ensures Balance(s.ledger, item, c.warehouse) == Kept(s.ledger.balances, item, c.warehouse)
      {
      }
    }
    hide StockRuns.CanPost, PostLines, LedgerOk;
  }

  lemma {:induction false} CanPostIff(l: Ledger, warehouse: nat, line: CountLine)
    requires line.physical.Some?
    ensures StockRuns.CanPost(l, warehouse, line) <==>
              (line.physical.value != line.system ==>
                 On(l.items, line.item) && On(l.warehouses, warehouse)
                 && Kept(l.balances, line.item, warehouse) + line.physical.value - line.system >= 0)
  {
  }

  /** Which refusals are a missing or inactive row; every other is an error of the request or of a status. */
  lemma {:induction false} NotFoundIff(s: State, row: Row, warehouse: nat, count: nat, k: nat, physical: int)
    ensures RecordMovement(s.ledger, row).reply == NotFound <==>
              !On(s.ledger.items, row.item) || !On(s.ledger.warehouses, row.warehouse)
    ensures CreateCount(s, warehouse).reply == if On(s.ledger.warehouses, warehouse) then Done else NotFound
    ensures UpdateCountLine(s, count, k, physical).reply == NotFound <==>
              && physical >= 0
              && (count < |s.counts| ==>
                    (s.counts[count].status == Open || s.counts[count].status == Counting) && k >= |s.counts[count].lines|)
    ensures SubmitCount(s, count).reply == NotFound <==> count >= |s.counts|
    ensures Step(s, OpCancelCount(count)).reply == NotFound <==> count >= |s.counts|
    ensures count >= |s.counts| ==> ApproveCount(s, count).reply == NotFound
  {
  }
}

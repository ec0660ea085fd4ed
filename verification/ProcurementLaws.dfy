/**
 * What each order and receipt call is answered and what it leaves in the tables, field by field, in terms of the
 * tables alone.
 */
module ProcurementLaws {
  import opened Results
  import opened Sums
  import opened ProcurementStates
  import opened Procurement
  import ProcurementRuns

  /** The slot holds a row of the order that nothing was received on. */
  predicate IsNewRow(slot: Option<PoLine>, po: nat, item: NewLine) {
    && slot.Some? && slot.value.po == po && slot.value.item == item.item
    && slot.value.ordered == item.ordered && slot.value.received == 0
  }

  ghost predicate AppendsRows(lines: seq<Option<PoLine>>, lines': seq<Option<PoLine>>, po: nat, items: seq<NewLine>) {
    && |lines'| == |lines| + |items|
    && (forall i :: 0 <= i < |lines| ==> lines'[i] == lines[i])
    && (forall k :: 0 <= k < |items| ==> IsNewRow(lines'[|lines| + k], po, items[k]))
  }

  /** An order is made exactly for an approved vendor and positive quantities; it is a draft with one row per item. */
  lemma {:induction false} CreateOrderLaw(s: State, known: bool, approved: bool, items: seq<NewLine>)
    ensures var after := CreateOrder(s, known, approved, items);
            && (after.reply == Done <==>
                  known && approved && |items| >= 1 && forall i :: 0 <= i < |items| ==> items[i].ordered >= 1)
            && (after.reply == Done ==>
                  && after.state == s.(pos := s.pos + [Draft], lines := after.state.lines)
                  && AppendsRows(s.lines, after.state.lines, |s.pos|, items))
            && (after.reply != Done ==> after.state == s)
  {
  }

  /** Replacing a draft's lines empties their slots, leaves every other slot and appends the new rows. */
  lemma {:induction false} UpdateOrderLaw(s: State, po: nat, items: seq<NewLine>)
    ensures var after := UpdateOrder(s, po, Some(items));
            && (after.reply == Done <==>
                  && po < |s.pos| && s.pos[po] == Draft
                  && |items| >= 1 && (forall i :: 0 <= i < |items| ==> items[i].ordered >= 1)
                  && !exists i :: 0 <= i < |s.lines| && s.lines[i].Some? && s.lines[i].value.po == po && Referenced(s.grns, i))
            && (after.reply == Done ==>
                  && after.state == s.(lines := after.state.lines)
                  && |after.state.lines| == |s.lines| + |items|
                  && (forall i :: 0 <= i < |s.lines| ==>
                        after.state.lines[i] == if s.lines[i].Some? && s.lines[i].value.po == po then None else s.lines[i])
                  && (forall k :: 0 <= k < |items| ==> IsNewRow(after.state.lines[|s.lines| + k], po, items[k])))
            && (after.reply != Done ==> after.state == s)
  {
    hide Referenced;
    if AnyReferenced(s.grns, s.lines, po) {
      var i :| 0 <= i < |s.lines| && IsLineOf(s.lines[i], po) && Referenced(s.grns, i);
    }
  }

  lemma {:induction false} AddLineLaw(s: State, po: nat, item: NewLine)
    ensures var after := AddLine(s, po, item);
            && (after.reply == Done <==> po < |s.pos| && s.pos[po] == Draft && item.ordered >= 1)
            && (after.reply == Done ==>
                  after.state == s.(lines := after.state.lines) && AppendsRows(s.lines, after.state.lines, po, [item]))
            && (after.reply != Done ==> after.state == s)
  {
  }

  lemma {:induction false} RemoveLineLaw(s: State, po: nat, line: nat)
    ensures var after := RemoveLine(s, po, line);
            && (after.reply == Done <==>
                  && po < |s.pos| && s.pos[po] == Draft && line < |s.lines| && s.lines[line].Some?
                  && forall g, k :: 0 <= g < |s.grns| && 0 <= k < |s.grns[g].lines| ==> s.grns[g].lines[k].poLine != line)
            && (after.reply == Done ==> after.state == s.(lines := s.lines[line := None]))
            && (after.reply != Done ==> after.state == s)
  {
    if Referenced(s.grns, line) {
      var g :| 0 <= g < |s.grns| && RefersTo(s.grns[g], line);
      var k :| 0 <= k < |s.grns[g].lines| && s.grns[g].lines[k].poLine == line;
    } else {
      assert forall g :: 0 <= g < |s.grns| ==> !RefersTo(s.grns[g], line);
    }
  }

  /** The order's status becomes `to` and nothing else changes, or nothing changes. */
  ghost predicate Moves(s: State, after: Outcome, po: nat, allowed: bool, to: PoStatus) {
    && (after.reply == Done <==> po < |s.pos| && allowed)
    && (after.reply == Done ==> after.state == s.(pos := s.pos[po := to]))
    && (after.reply != Done ==> after.state == s)
  }

  lemma {:induction false} StatusLaws(s: State, po: nat)
    requires po < |s.pos|
    ensures Moves(s, SubmitOrder(s, po), po,
                  s.pos[po] == Draft && exists i :: 0 <= i < |s.lines| && IsLineOf(s.lines[i], po), PendingApproval)
    ensures Moves(s, ApproveOrder(s, po), po, s.pos[po] == PendingApproval, Approved)
    ensures Moves(s, RejectOrder(s, po), po, s.pos[po] == PendingApproval, Draft)
    ensures Moves(s, CancelOrder(s, po), po, s.pos[po] == Draft || s.pos[po] == PendingApproval, Cancelled)
  {
  }

  // ---------------------------------------------------------------------------
  // Receipts
  // ---------------------------------------------------------------------------

  /** A receipt is made exactly for an order in receipt, not fully received, from lines of that order. */
  lemma {:induction false} CreateGrnLaw(s: State, po: nat, lines: seq<GrnLine>)
    ensures var after := CreateGrn(s, po, lines);
            && (after.reply == Done <==>
                  && po < |s.pos| && (s.pos[po] == Approved || s.pos[po] == PartiallyReceived) && |lines| >= 1
                  && forall k :: 0 <= k < |lines| ==>
                       && lines[k].received >= 1 && lines[k].accepted >= 0 && lines[k].rejected >= 0
                       && lines[k].accepted + lines[k].rejected <= lines[k].received
                       && lines[k].poLine < |s.lines|
                       && s.lines[lines[k].poLine].Some? && s.lines[lines[k].poLine].value.po == po)
            && (after.reply == Done ==> after.state == s.(grns := s.grns + [Grn(po, GrnDraft, lines)]))
            && (after.reply != Done ==> after.state == s)
  {
    if forall k :: 0 <= k < |lines| ==> CanReceive(s, po, lines[k]) {
      assert forall k :: 0 <= k < |lines| ==>
               lines[k].accepted + lines[k].rejected <= lines[k].received && HasLine(s.lines, lines[k].poLine, po);
    }
  }

  function Chosen(given: Option<int>, stored: int): int {
    match given
    case None => stored
    case Some(x) => x
  }

  /** One line of an undecided receipt takes the given quantities and keeps the others, within the quantity rule. */
  lemma {:induction false} UpdateGrnLineLaw(s: State, grn: nat, k: nat,
                                            received: Option<int>, accepted: Option<int>, rejected: Option<int>)
    requires grn < |s.grns| && k < |s.grns[grn].lines|
    ensures var after := UpdateGrnLine(s, grn, k, received, accepted, rejected);
            var g, l := s.grns[grn], s.grns[grn].lines[k];
            && (after.reply == Done <==>
                  && (g.status == GrnDraft || g.status == QcPending)
                  && (received.Some? ==> received.value >= 1)
                  && (accepted.Some? ==> accepted.value >= 0) && (rejected.Some? ==> rejected.value >= 0)
                  && Chosen(accepted, l.accepted) + Chosen(rejected, l.rejected) <= Chosen(received, l.received))
            && (after.reply == Done ==>
                  && after.state == s.(grns := s.grns[grn := g.(lines := after.state.grns[grn].lines)])
                  && |after.state.grns[grn].lines| == |g.lines|
                  && (forall j :: 0 <= j < |g.lines| && j != k ==> after.state.grns[grn].lines[j] == g.lines[j])
                  && var l' := after.state.grns[grn].lines[k];
                     && l'.poLine == l.poLine && l'.received == Chosen(received, l.received)
                     && l'.accepted == Chosen(accepted, l.accepted) && l'.rejected == Chosen(rejected, l.rejected))
            && (after.reply != Done ==> after.state == s)
  {
  }

  lemma {:induction false} ReceiptStatusLaws(s: State, grn: nat)
    requires grn < |s.grns|
    ensures var after := Step(s, OpSubmitForQc(grn));
            && (after.reply == Done <==> s.grns[grn].status == GrnDraft)
            && (after.reply == Done ==> after.state == s.(grns := s.grns[grn := s.grns[grn].(status := QcPending)]))
    ensures var after := Step(s, OpRejectGrn(grn));
            && (after.reply == Done <==> s.grns[grn].status == GrnDraft || s.grns[grn].status == QcPending)
            && (after.reply == Done ==> after.state == s.(grns := s.grns[grn := s.grns[grn].(status := GrnRejected)]))
  {
  }

  // ---------------------------------------------------------------------------
  // Approval of a receipt
  // ---------------------------------------------------------------------------

  /** One announced line per receipt line: the order line's item, the given warehouse, the accepted quantity. */
  ghost predicate Announces(e: Event, lines: seq<Option<PoLine>>, receipt: seq<GrnLine>, warehouse: nat) {
    && |e.lines| == |receipt|
    && forall k :: 0 <= k < |receipt| ==>
         && receipt[k].poLine < |lines| && lines[receipt[k].poLine].Some?
         && e.lines[k].item == lines[receipt[k].poLine].value.item
         && e.lines[k].warehouse == warehouse
         && e.lines[k].accepted == receipt[k].accepted
  }

  /** An approval appends one event that announces the receipt for the warehouse of the call. */
  lemma {:induction false} ApprovalAnnounces(s: State, grn: nat, warehouse: nat)
    requires Inv(s) && ApproveGrn(s, grn, warehouse).reply == Done
    ensures var events := ApproveGrn(s, grn, warehouse).state.events;
            && |events| == |s.events| + 1 && events[..|s.events|] == s.events
            && events[|s.events|].grn == grn
            && Announces(events[|s.events|], s.lines, s.grns[grn].lines, warehouse)
  {
    ProcurementRuns.ReceiptLinesExist(s, grn);
  }

  /** An approval is done exactly on a receipt in quality control; no other receipt, order or order line moves. */
  lemma {:induction false} ApprovalLaw(s: State, grn: nat, warehouse: nat)
    requires Inv(s) && grn < |s.grns|
    ensures var g, after := s.grns[grn], ApproveGrn(s, grn, warehouse);
            && (after.reply == Done <==> g.status == QcPending)
            && (after.reply != Done ==> after.state == s)
            && (after.reply == Done ==>
                  && after.state.grns == s.grns[grn := g.(status := GrnApproved)]
                  && after.state.pos == s.pos[g.po := after.state.pos[g.po]]
                  && |after.state.lines| == |s.lines|
                  && forall i :: 0 <= i < |s.lines| && s.lines[i].Some? ==>
                       && after.state.lines[i].Some?
                       && after.state.lines[i].value.po == s.lines[i].value.po
                       && after.state.lines[i].value.item == s.lines[i].value.item
                       && after.state.lines[i].value.ordered == s.lines[i].value.ordered
                       && after.state.lines[i].value.received
                          == s.lines[i].value.received + Sum(g.lines, (l: GrnLine) => if l.poLine == i then l.accepted else 0))
  {
    var g := s.grns[grn];
    assert GrnOk(s.pos, s.lines, g);
    assert forall k :: 0 <= k < |g.lines| ==> GrnLineOk(s.lines, g.po, g.lines[k]);
    ProcurementRuns.AddAcceptedRows(s.lines, g.lines);
    forall i | 0 <= i < |s.lines|
      ensures Sum(g.lines, (l: GrnLine) => if l.poLine == i then l.accepted else 0) == Sum(g.lines, AcceptedFor(i))
    {
      SumSame(g.lines, (l: GrnLine) => if l.poLine == i then l.accepted else 0, g.lines, AcceptedFor(i));
    }
  }

  /** The status an approval writes: received when every line has all it ordered, partly received when any has some. */
  lemma {:induction false} ApprovalStatusLaw(s: State, grn: nat, warehouse: nat)
    requires Inv(s) && ApproveGrn(s, grn, warehouse).reply == Done
    ensures var t, po := ApproveGrn(s, grn, warehouse).state, s.grns[grn].po;
            var full := forall i :: 0 <= i < |t.lines| && t.lines[i].Some? && t.lines[i].value.po == po ==>
                          t.lines[i].value.received >= t.lines[i].value.ordered;
            var some := exists i :: 0 <= i < |t.lines| && t.lines[i].Some? && t.lines[i].value.po == po
                                 && t.lines[i].value.received > 0;
            t.pos[po] == if full then Received else if some then PartiallyReceived else Approved
  {
    hide Inv, AddAccepted, EventLines;
  }

  /** Conservation and the quantity rule in every reachable state, written out. */
  lemma {:induction false} ReachableQuantities(ops: seq<Op>)
    ensures var s := Run(INITIAL, ops);
            && (forall i :: 0 <= i < |s.lines| && s.lines[i].Some? ==>
                  s.lines[i].value.received
                  == Sum(s.grns, (g: Grn) => if g.status == GrnApproved then Sum(g.lines, AcceptedFor(i)) else 0))
            && (forall g, k :: 0 <= g < |s.grns| && 0 <= k < |s.grns[g].lines| ==>
                  var l := s.grns[g].lines[k];
                  l.received >= 1 && l.accepted >= 0 && l.rejected >= 0 && l.accepted + l.rejected <= l.received)
  {
    ProcurementRuns.ReachableInv(ops);
    var s := Run(INITIAL, ops);
    forall i | 0 <= i < |s.lines| && s.lines[i].Some?
      ensures s.lines[i].value.received
           == Sum(s.grns, (g: Grn) => if g.status == GrnApproved then Sum(g.lines, AcceptedFor(i)) else 0)
    {
      SumSame(s.grns, ApprovedFor(i), s.grns,
              (g: Grn) => if g.status == GrnApproved then Sum(g.lines, AcceptedFor(i)) else 0);
    }
    forall g, k | 0 <= g < |s.grns| && 0 <= k < |s.grns[g].lines|
      ensures GrnLineOk(s.lines, s.grns[g].po, s.grns[g].lines[k])
    {
      assert GrnOk(s.pos, s.lines, s.grns[g]);
    }
  }

  /** What counts for an order line is what its receipt lines accepted. */
  lemma {:induction false} AcceptedForIsAccepted(lines: seq<GrnLine>, line: nat)
    ensures Sum(lines, AcceptedFor(line)) == Sum(lines, (l: GrnLine) => if l.poLine == line then l.accepted else 0)
  {
    SumSame(lines, AcceptedFor(line), lines, (l: GrnLine) => if l.poLine == line then l.accepted else 0);
  }

  /** Which refusals are a missing row; every other is an error of the request or of a status. */
  lemma {:induction false} OrderNotFoundIff(s: State, po: nat, line: nat, known: bool, approved: bool, items: seq<NewLine>)
    ensures var valid := |items| >= 1 && forall i :: 0 <= i < |items| ==> items[i].ordered >= 1;
            && (CreateOrder(s, known, approved, items).reply == NotFound <==> valid && !known)
            && (UpdateOrder(s, po, Some(items)).reply == NotFound <==> valid && po >= |s.pos|)
            && (SubmitOrder(s, po).reply == NotFound <==> po >= |s.pos|)
            && (ApproveOrder(s, po).reply == NotFound <==> po >= |s.pos|)
            && (RejectOrder(s, po).reply == NotFound <==> po >= |s.pos|)
            && (CancelOrder(s, po).reply == NotFound <==> po >= |s.pos|)
            && (|items| == 1 ==> (AddLine(s, po, items[0]).reply == NotFound <==> valid && po >= |s.pos|))
            && (RemoveLine(s, po, line).reply == NotFound <==>
                  po >= |s.pos| || (s.pos[po] == Draft && !(line < |s.lines| && s.lines[line].Some?)))
  {
    assert ValidItems(items) <==> |items| >= 1 && forall i :: 0 <= i < |items| ==> items[i].ordered >= 1;
  }

  lemma {:induction false} ReceiptNotFoundIff(s: State, po: nat, lines: seq<GrnLine>, grn: nat, k: nat, accepted: int, warehouse: nat)
    ensures CreateGrn(s, po, lines).reply == NotFound <==>
              && po >= |s.pos| && |lines| > 0
              && forall i :: 0 <= i < |lines| ==> lines[i].received >= 1 && lines[i].accepted >= 0 && lines[i].rejected >= 0
    ensures UpdateGrnLine(s, grn, k, None, Some(accepted), None).reply == NotFound <==>
              && accepted >= 0
              && (grn < |s.grns| ==>
                    (s.grns[grn].status == GrnDraft || s.grns[grn].status == QcPending) && k >= |s.grns[grn].lines|)
    ensures Step(s, OpSubmitForQc(grn)).reply == NotFound <==> grn >= |s.grns|
    ensures ApproveGrn(s, grn, warehouse).reply == NotFound <==> grn >= |s.grns|
    ensures Step(s, OpRejectGrn(grn)).reply == NotFound <==> grn >= |s.grns|
  {
    assert (forall i :: 0 <= i < |lines| ==> ValidGrnLine(lines[i])) <==>
      forall i :: 0 <= i < |lines| ==> lines[i].received >= 1 && lines[i].accepted >= 0 && lines[i].rejected >= 0;
  }
}

/** The order and receipt services over one database, each call against its transition. */
module ProcurementServices {
  import opened Results
  import opened ProcurementStates
  import opened Procurement
  import ProcurementRuns
  import ProcurementLaws

  class Database {
    var pos: seq<PoStatus>
    var lines: seq<Option<PoLine>>
    var grns: seq<Grn>
    var events: seq<Event>

    function View(): State
      reads this
    {
      State(pos, lines, grns, events)
    }

    constructor ()
      ensures View() == INITIAL
    {
      pos, lines, grns, events := [], [], [], [];
    }

    // -------------------------------------------------------------------------
    // Purchase orders
    // -------------------------------------------------------------------------

    method Create(vendorKnown: bool, vendorApproved: bool, items: seq<NewLine>) returns (reply: Reply)
      modifies this
      ensures Outcome(View(), reply) == CreateOrder(old(View()), vendorKnown, vendorApproved, items)
      ensures ProcurementRuns.Upholds(old(View()), View())
    {
      hide ProcurementRuns.Upholds;
      ProcurementRuns.StepUpholds(View(), OpCreateOrder(vendorKnown, vendorApproved, items));
      if !ValidItems(items) { return Refused; }
      if !vendorKnown { return NotFound; }
      if !vendorApproved { return Refused; }
      lines := lines + Rows(|pos|, items);
      pos := pos + [Draft];
      reply := Done;
    }

    /** Old lines are deleted and new ones created in one transaction; a foreign key undoes both. */
    method Update(po: nat, items: Option<seq<NewLine>>) returns (reply: Reply)
      modifies this
      ensures Outcome(View(), reply) == UpdateOrder(old(View()), po, items)
      ensures ProcurementRuns.Upholds(old(View()), View())
    {
      hide ProcurementRuns.Upholds;
      ProcurementRuns.StepUpholds(View(), OpUpdateOrder(po, items));
      if items.Some? && !ValidItems(items.value) { return Refused; }
      if po >= |pos| { return NotFound; }
      if pos[po] != Draft { return Refused; }
      if items.Some? {
        if AnyReferenced(grns, lines, po) { return Refused; }
        lines := WithoutLinesOf(lines, po);
        lines := lines + Rows(po, items.value);
      }
      reply := Done;
    }

    method Submit(po: nat) returns (reply: Reply)
      modifies this
      ensures Outcome(View(), reply) == SubmitOrder(old(View()), po)
      ensures ProcurementRuns.Upholds(old(View()), View())
    {
      hide ProcurementRuns.Upholds;
      ProcurementRuns.StepUpholds(View(), OpSubmitOrder(po));
      if po >= |pos| { return NotFound; }
      if !CanTransitionPo(pos[po], PendingApproval) { return Refused; }
      if !HasLines(lines, po) { return Refused; }
      pos := pos[po := PendingApproval];
      reply := Done;
    }

    method Approve(po: nat) returns (reply: Reply)
      modifies this
      ensures Outcome(View(), reply) == ApproveOrder(old(View()), po)
      ensures ProcurementRuns.Upholds(old(View()), View())
    {
      hide ProcurementRuns.Upholds;
      ProcurementRuns.StepUpholds(View(), OpApproveOrder(po));
      if po >= |pos| { return NotFound; }
      if !CanTransitionPo(pos[po], Approved) { return Refused; }
      pos := pos[po := Approved];
      reply := Done;
    }

    method Reject(po: nat) returns (reply: Reply)
      modifies this
      ensures Outcome(View(), reply) == RejectOrder(old(View()), po)
      ensures Inv(old(View())) ==> Inv(View())
      ensures Inv(old(View())) && reply == Done ==> old(pos[po]) == PendingApproval && !exists g :: 0 <= g < |grns| && grns[g].po == po
    {
      hide Inv;
      ghost var s := View();
      if Inv(s) {
        ProcurementRuns.StepKeepsInv(s, OpRejectOrder(po));
        if po < |pos| && pos[po] == PendingApproval { ProcurementRuns.NotReceivable(s, po); }
      }
      if po >= |pos| { return NotFound; }
      if pos[po] != PendingApproval { return Refused; }
      pos := pos[po := Draft];
      reply := Done;
    }

    method Cancel(po: nat) returns (reply: Reply)
      modifies this
      ensures Outcome(View(), reply) == CancelOrder(old(View()), po)
      ensures ProcurementRuns.Upholds(old(View()), View())
    {
      hide ProcurementRuns.Upholds;
      ProcurementRuns.StepUpholds(View(), OpCancelOrder(po));
      if po >= |pos| { return NotFound; }
      if !CanTransitionPo(pos[po], Cancelled) { return Refused; }
      pos := pos[po := Cancelled];
      reply := Done;
    }

    method AppendLine(po: nat, item: NewLine) returns (reply: Reply)
      modifies this
      ensures Outcome(View(), reply) == AddLine(old(View()), po, item)
      ensures ProcurementRuns.Upholds(old(View()), View())
    {
      hide ProcurementRuns.Upholds;
      ProcurementRuns.StepUpholds(View(), OpAddLine(po, item));
      if item.ordered < 1 { return Refused; }
      if po >= |pos| { return NotFound; }
      if pos[po] != Draft { return Refused; }
      lines := lines + Rows(po, [item]);
      reply := Done;
    }

    method DropLine(po: nat, line: nat) returns (reply: Reply)
      modifies this
      ensures Outcome(View(), reply) == RemoveLine(old(View()), po, line)
      ensures ProcurementRuns.Upholds(old(View()), View())
      ensures Inv(old(View())) && StatusesFit(old(View())) && reply == Done ==>
                (StatusesFit(View()) <==> ProcurementRuns.Tolerates(old(View()), line))
    {
      hide Inv, StatusesFit, ProcurementRuns.Upholds, ProcurementRuns.Tolerates;
      ghost var s := View();
      ProcurementRuns.StepUpholds(s, OpRemoveLine(po, line));
      if Inv(s) && StatusesFit(s) && RemoveLine(s, po, line).reply == Done {
        ProcurementRuns.RemoveLineKeepsFitIff(s, po, line);
      }
      if po >= |pos| { return NotFound; }
      if pos[po] != Draft { return Refused; }
      if line >= |lines| || lines[line].None? { return NotFound; }
      if Referenced(grns, line) { return Refused; }
      lines := lines[line := None];
      reply := Done;
    }

    // -------------------------------------------------------------------------
    // Goods receipts
    // -------------------------------------------------------------------------

    method CreateReceipt(po: nat, receipt: seq<GrnLine>) returns (reply: Reply)
      modifies this
      ensures Outcome(View(), reply) == CreateGrn(old(View()), po, receipt)
      ensures ProcurementRuns.Upholds(old(View()), View())
    {
      hide ProcurementRuns.Upholds;
      ProcurementRuns.StepUpholds(View(), OpCreateGrn(po, receipt));
      if |receipt| == 0 || !(forall k :: 0 <= k < |receipt| ==> ValidGrnLine(receipt[k])) { return Refused; }
      if po >= |pos| { return NotFound; }
      if pos[po] != Approved && pos[po] != PartiallyReceived { return Refused; }
      for k := 0 to |receipt|
        invariant View() == old(View())
        invariant forall j :: 0 <= j < k ==> CanReceive(View(), po, receipt[j])
      {
        if !HasLine(lines, receipt[k].poLine, po) { return Refused; }
        if !QtyRules(receipt[k].received, receipt[k].accepted, receipt[k].rejected) { return Refused; }
      }
      grns := grns + [Grn(po, GrnDraft, receipt)];
      reply := Done;
    }

    method UpdateReceiptLine(grn: nat, k: nat, received: Option<int>, accepted: Option<int>, rejected: Option<int>)
      returns (reply: Reply)
      modifies this
      ensures Outcome(View(), reply) == UpdateGrnLine(old(View()), grn, k, received, accepted, rejected)
      ensures ProcurementRuns.Upholds(old(View()), View())
    {
      hide ProcurementRuns.Upholds;
      ProcurementRuns.StepUpholds(View(), OpUpdateGrnLine(grn, k, received, accepted, rejected));
      if !ValidPatch(received, accepted, rejected) { return Refused; }
      if grn >= |grns| { return NotFound; }
      var g := grns[grn];
      if g.status != GrnDraft && g.status != QcPending { return Refused; }
      if k >= |g.lines| { return NotFound; }
      var l := Patch(g.lines[k], received, accepted, rejected);
      if !QtyRules(l.received, l.accepted, l.rejected) { return Refused; }
      grns := grns[grn := g.(lines := g.lines[k := l])];
      reply := Done;
    }

    method SubmitReceipt(grn: nat) returns (reply: Reply)
      modifies this
      ensures Outcome(View(), reply) == MoveGrn(old(View()), grn, QcPending)
      ensures ProcurementRuns.Upholds(old(View()), View())
    {
      hide ProcurementRuns.Upholds;
      ProcurementRuns.StepUpholds(View(), OpSubmitForQc(grn));
      if grn >= |grns| { return NotFound; }
      if !CanTransitionGrn(grns[grn].status, QcPending) { return Refused; }
      grns := grns[grn := grns[grn].(status := QcPending)];
      reply := Done;
    }

    method RejectReceipt(grn: nat) returns (reply: Reply)
      modifies this
      ensures Outcome(View(), reply) == MoveGrn(old(View()), grn, GrnRejected)
      ensures ProcurementRuns.Upholds(old(View()), View())
    {
      hide ProcurementRuns.Upholds;
      ProcurementRuns.StepUpholds(View(), OpRejectGrn(grn));
      if grn >= |grns| { return NotFound; }
      if !CanTransitionGrn(grns[grn].status, GrnRejected) { return Refused; }
      grns := grns[grn := grns[grn].(status := GrnRejected)];
      reply := Done;
    }

    /** One increment per receipt line, then the order's status from its lines, then the event. */
    method ApproveReceipt(grn: nat, warehouse: nat) returns (reply: Reply)
      modifies this
      ensures Outcome(View(), reply) == ApproveGrn(old(View()), grn, warehouse)
      ensures ProcurementRuns.Upholds(old(View()), View())
      ensures Inv(old(View())) && reply == Done ==>
                && |events| == |old(events)| + 1 && events[..|old(events)|] == old(events)
                && ProcurementLaws.Announces(events[|old(events)|], old(lines), old(grns)[grn].lines, warehouse)
    {
      hide ProcurementRuns.Upholds, ProcurementLaws.Announces, Inv;
      if Inv(View()) && ApproveGrn(View(), grn, warehouse).reply == Done {
        ProcurementLaws.ApprovalAnnounces(View(), grn, warehouse);
      }
      ProcurementRuns.StepUpholds(View(), OpApproveGrn(grn, warehouse));
      if grn >= |grns| { return NotFound; }
      var g := grns[grn];
      if !CanTransitionGrn(g.status, GrnApproved) { return Refused; }
      for k := 0 to |g.lines|
        invariant View() == old(View())
        invariant forall j :: 0 <= j < k ==> QtyRules(g.lines[j].received, g.lines[j].accepted, g.lines[j].rejected)
      {
        if !QtyRules(g.lines[k].received, g.lines[k].accepted, g.lines[k].rejected) { return Refused; }
      }
      if g.po >= |pos| { return Refused; }
      var event := Event(grn, EventLines(lines, g.lines, warehouse));
      grns := grns[grn := g.(status := GrnApproved)];
      for k := 0 to |g.lines|
        invariant pos == old(pos) && events == old(events) && grns == old(grns)[grn := g.(status := GrnApproved)]
        invariant lines == AddAccepted(old(lines), g.lines[..k])
      {
        assert g.lines[..k + 1][..k] == g.lines[..k];
        var l := g.lines[k];
        if l.poLine < |lines| && lines[l.poLine].Some? {
          var row := lines[l.poLine].value;
          lines := lines[l.poLine := Some(row.(received := row.received + l.accepted))];
        }
      }
      assert g.lines[..|g.lines|] == g.lines;
      pos := pos[g.po :=
        if AllReceived(lines, g.po) then Received
        else if AnyReceived(lines, g.po) then PartiallyReceived
        else Approved];
      events := events + [event];
      reply := Done;
    }
  }
}

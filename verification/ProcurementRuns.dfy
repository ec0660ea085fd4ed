/** What every run of the procurement system keeps. */
module ProcurementRuns {
  import opened Results
  import opened Sums
  import opened ProcurementStates
  import opened Procurement

  // ---------------------------------------------------------------------------
  // Order lines come and go only while nothing can have been received
  // ---------------------------------------------------------------------------

  lemma {:induction false} NotReceivable(s: State, po: nat)
    requires Inv(s) && po < |s.pos| && !InReceipt(s.pos[po])
    ensures forall g :: 0 <= g < |s.grns| ==> s.grns[g].po != po
    ensures forall i :: 0 <= i < |s.lines| && IsLineOf(s.lines[i], po) ==> s.lines[i].value.received == 0
  {
  }

  lemma {:induction false} UnreferencedSum(grns: seq<Grn>, line: nat)
    requires !Referenced(grns, line)
    ensures Sum(grns, ApprovedFor(line)) == 0
  {
    forall g | 0 <= g < |grns|
      ensures ApprovedFor(line)(grns[g]) == 0
    {
      assert !RefersTo(grns[g], line);
      SumZero(grns[g].lines, AcceptedFor(line));
    }
    SumZero(grns, ApprovedFor(line));
  }

  lemma {:induction false} GrnsStay(pos: seq<PoStatus>, pos': seq<PoStatus>, lines: seq<Option<PoLine>>, lines': seq<Option<PoLine>>, grns: seq<Grn>)
    requires GrnsOk(pos, lines, grns) && |pos| <= |pos'| && |lines| <= |lines'|
    requires forall po :: 0 <= po < |pos| && InReceipt(pos[po]) ==> InReceipt(pos'[po])
    requires forall i :: 0 <= i < |lines| && lines[i].Some? && InReceiptOf(pos, lines[i].value.po) ==>
               IsLineOf(lines'[i], lines[i].value.po)
    ensures GrnsOk(pos', lines', grns)
  {
  }

  ghost predicate InReceiptOf(pos: seq<PoStatus>, po: nat) {
    po < |pos| && InReceipt(pos[po])
  }

  /** An order whose lines are untouched keeps its derived status and its fit. */
  lemma {:induction false} UntouchedStays(status: PoStatus, lines: seq<Option<PoLine>>, lines': seq<Option<PoLine>>, po: nat)
    requires |lines| <= |lines'|
    requires forall i :: 0 <= i < |lines| && (IsLineOf(lines[i], po) || IsLineOf(lines'[i], po)) ==> lines'[i] == lines[i]
    requires forall i :: |lines| <= i < |lines'| ==> !IsLineOf(lines'[i], po)
    ensures StatusReaches(status, lines, po) ==> StatusReaches(status, lines', po)
    ensures StatusFits(status, lines, po) ==> StatusFits(status, lines', po)
  {
    assert AllReceived(lines, po) <==> AllReceived(lines', po);
    assert AnyReceived(lines, po) <==> AnyReceived(lines', po);
    assert HasLines(lines, po) ==> HasLines(lines', po);
  }

  /** Fresh rows under a draft order. */
  lemma {:induction false} AppendKeepsInv(s: State, po: nat, items: seq<NewLine>)
    requires Inv(s) && po < |s.pos| && s.pos[po] == Draft
    requires forall i :: 0 <= i < |items| ==> items[i].ordered >= 1
    ensures var t := s.(lines := s.lines + Rows(po, items));
            Inv(t) && (StatusesFit(s) ==> StatusesFit(t))
  {
    var rows := Rows(po, items);
    var lines := s.lines + rows;
    GrnsStay(s.pos, s.pos, s.lines, lines, s.grns);
    NotReceivable(s, po);
    forall p | 0 <= p < |s.pos|
      ensures StatusReaches(s.pos[p], lines, p)
      ensures StatusFits(s.pos[p], s.lines, p) ==> StatusFits(s.pos[p], lines, p)
    {
      assert StatusReaches(s.pos[p], s.lines, p);
      if p != po {
        UntouchedStays(s.pos[p], s.lines, lines, p);
      }
    }
    forall i | |s.lines| <= i < |lines|
      ensures lines[i].value.received == Sum(s.grns, ApprovedFor(i))
    {
      FreshIsUnreferenced(s, i);
      UnreferencedSum(s.grns, i);
    }
    forall item: nat
      ensures Sum(lines, ReceivedOf(item)) == Sum(s.events, EventAmount(item))
    {
      SumConcat(s.lines, rows, ReceivedOf(item));
      SumZero(rows, ReceivedOf(item));
    }
  }

  lemma {:induction false} FreshIsUnreferenced(s: State, line: nat)
    requires Inv(s) && line >= |s.lines|
    ensures !Referenced(s.grns, line)
  {
  }

  lemma {:induction false} NewOrderKeepsInv(s: State)
    requires Inv(s)
    ensures var t := s.(pos := s.pos + [Draft]);
            Inv(t) && (StatusesFit(s) ==> StatusesFit(t))
  {
  }

  lemma {:induction false} ClearKeepsInv(s: State, po: nat)
    requires Inv(s) && po < |s.pos| && s.pos[po] == Draft
    ensures var t := s.(lines := WithoutLinesOf(s.lines, po));
            Inv(t) && (StatusesFit(s) ==> StatusesFit(t))
  {
    var lines := WithoutLinesOf(s.lines, po);
    NotReceivable(s, po);
    GrnsStay(s.pos, s.pos, s.lines, lines, s.grns);
    forall p | 0 <= p < |s.pos|
      ensures StatusReaches(s.pos[p], lines, p)
      ensures StatusFits(s.pos[p], s.lines, p) ==> StatusFits(s.pos[p], lines, p)
    {
      assert StatusReaches(s.pos[p], s.lines, p);
      if p != po {
        UntouchedStays(s.pos[p], s.lines, lines, p);
      }
    }
    forall item: nat
      ensures Sum(lines, ReceivedOf(item)) == Sum(s.events, EventAmount(item))
    {
      SumSame(lines, ReceivedOf(item), s.lines, ReceivedOf(item));
    }
  }

  // ---------------------------------------------------------------------------
  // Status changes of an order outside receipt
  // ---------------------------------------------------------------------------

  lemma {:induction false} MoveKeepsInv(s: State, po: nat, to: PoStatus)
    requires Inv(s) && po < |s.pos| && !InReceipt(s.pos[po])
    requires to == PendingApproval ==> HasLines(s.lines, po)
    requires InReceipt(to) ==> to == Approved && s.pos[po] == PendingApproval
    ensures var t := s.(pos := s.pos[po := to]);
            Inv(t) && (StatusesFit(s) ==> StatusesFit(t))
  {
    assert StatusReaches(s.pos[po], s.lines, po);
    if StatusesFit(s) {
      assert StatusFits(s.pos[po], s.lines, po);
    }
  }

  // ---------------------------------------------------------------------------
  // Deleting a line through another order
  // ---------------------------------------------------------------------------

  /** The line's order is outside approval and receipt, or keeps another line that is not yet fully received. */
  predicate Tolerates(s: State, line: nat) {
    line < |s.lines| && s.lines[line].Some? && s.lines[line].value.po < |s.pos| &&
    var owner := s.lines[line].value.po;
    s.pos[owner] == Draft || s.pos[owner] == Cancelled ||
    exists i :: 0 <= i < |s.lines| && i != line && IsLineOf(s.lines[i], owner)
             && s.lines[i].value.received < s.lines[i].value.ordered
  }

  /** Removing any line keeps the invariant: nothing had been received on it. */
  lemma {:induction false} RemoveLineKeepsInv(s: State, po: nat, line: nat)
    requires Inv(s) && RemoveLine(s, po, line).reply == Done
    ensures Inv(RemoveLine(s, po, line).state)
    ensures s.lines[line].value.received == 0
  {
    var lines := s.lines[line := None];
    var owner := s.lines[line].value.po;
    UnreferencedSum(s.grns, line);
    RemovedGrnsStay(s, line);
    forall p | 0 <= p < |s.pos|
      ensures StatusReaches(s.pos[p], lines, p)
    {
      assert StatusReaches(s.pos[p], s.lines, p);
      if p != owner {
        UntouchedStays(s.pos[p], s.lines, lines, p);
      } else {
        LosingALineAdvances(s.lines, line);
      }
    }
    RemovedSums(s, line);
  }

  /** Losing a line on which nothing was received moves the derived status forward, or leaves it. */
  lemma {:induction false} LosingALineAdvances(lines: seq<Option<PoLine>>, line: nat)
    requires line < |lines| && lines[line].Some? && lines[line].value.received == 0
    ensures var lines', owner := lines[line := None], lines[line].value.po;
            && (AnyReceived(lines', owner) <==> AnyReceived(lines, owner))
            && (AllReceived(lines, owner) ==> AllReceived(lines', owner))
            && (DerivedStatus(lines', owner) == DerivedStatus(lines, owner)
                || CanTransitionPo(DerivedStatus(lines, owner), DerivedStatus(lines', owner)))
  {
    var lines', owner := lines[line := None], lines[line].value.po;
    if AnyReceived(lines, owner) {
      var j :| 0 <= j < |lines| && IsLineOf(lines[j], owner) && lines[j].value.received > 0;
      assert IsLineOf(lines'[j], owner) && lines'[j].value.received > 0;
    }
    assert AnyReceived(lines', owner) ==> AnyReceived(lines, owner);
  }

  /** Removing a line keeps the exact statuses exactly when its order tolerates it. */
  lemma {:induction false} RemoveLineKeepsFitIff(s: State, po: nat, line: nat)
    requires Inv(s) && StatusesFit(s) && RemoveLine(s, po, line).reply == Done
    ensures StatusesFit(RemoveLine(s, po, line).state) <==> Tolerates(s, line)
  {
    var t := RemoveLine(s, po, line).state;
    var owner := s.lines[line].value.po;
    RemoveLineKeepsInv(s, po, line);
    OwnerFitsIff(s, line);
    forall p | 0 <= p < |s.pos| && p != owner
      ensures StatusFits(t.pos[p], t.lines, p)
    {
      assert StatusFits(s.pos[p], s.lines, p);
      UntouchedStays(s.pos[p], s.lines, t.lines, p);
    }
  }

  lemma {:induction false} OwnerFitsIff(s: State, line: nat)
    requires Inv(s) && StatusesFit(s)
    requires line < |s.lines| && s.lines[line].Some? && s.lines[line].value.received == 0
    ensures var owner := s.lines[line].value.po;
            StatusFits(s.pos[owner], s.lines[line := None], owner) <==> Tolerates(s, line)
  {
    var lines, owner := s.lines[line := None], s.lines[line].value.po;
    assert StatusFits(s.pos[owner], s.lines, owner) && StatusReaches(s.pos[owner], s.lines, owner);
    LosingALineAdvances(s.lines, line);
    assert !AllReceived(s.lines, owner);
    if i :| 0 <= i < |s.lines| && i != line && IsLineOf(s.lines[i], owner)
            && s.lines[i].value.received < s.lines[i].value.ordered {
      assert IsLineOf(lines[i], owner);
      assert !AllReceived(lines, owner) && HasLines(lines, owner);
    } else {
      assert AllReceived(lines, owner);
    }
  }

  lemma {:induction false} RemovedGrnsStay(s: State, line: nat)
    requires Inv(s) && line < |s.lines| && !Referenced(s.grns, line)
    ensures GrnsOk(s.pos, s.lines[line := None], s.grns)
  {
  }

  lemma {:induction false} RemovedSums(s: State, line: nat)
    requires Inv(s) && line < |s.lines| && s.lines[line].Some? && s.lines[line].value.received == 0
    ensures Conserved(s.lines[line := None], s.grns) && Announced(s.lines[line := None], s.events)
  {
    forall item: nat
      ensures Sum(s.lines[line := None], ReceivedOf(item)) == Sum(s.events, EventAmount(item))
    {
      SumUpdate(s.lines, line, None, ReceivedOf(item));
    }
  }

  // ---------------------------------------------------------------------------
  // Goods receipts before approval
  // ---------------------------------------------------------------------------

  lemma {:induction false} CreateGrnKeepsInv(s: State, po: nat, lines: seq<GrnLine>)
    requires Inv(s) && CreateGrn(s, po, lines).reply == Done
    ensures Inv(CreateGrn(s, po, lines).state)
  {
  }

  /** Replacing a receipt that is not approved by another that is not approved. */
  lemma {:induction false} EditGrnKeepsInv(s: State, grn: nat, g: Grn)
    requires Inv(s) && grn < |s.grns| && s.grns[grn].status != GrnApproved && g.status != GrnApproved
    requires GrnOk(s.pos, s.lines, g)
    ensures Inv(s.(grns := s.grns[grn := g]))
  {
    forall i | 0 <= i < |s.lines| && s.lines[i].Some?
      ensures s.lines[i].value.received == Sum(s.grns[grn := g], ApprovedFor(i))
    {
      SumUpdate(s.grns, grn, g, ApprovedFor(i));
    }
  }

  lemma {:induction false} UpdateGrnLineKeepsInv(s: State, grn: nat, k: nat,
                              received: Option<int>, accepted: Option<int>, rejected: Option<int>)
    requires Inv(s) && UpdateGrnLine(s, grn, k, received, accepted, rejected).reply == Done
    ensures Inv(UpdateGrnLine(s, grn, k, received, accepted, rejected).state)
  {
    var g := s.grns[grn];
    var l := Patch(g.lines[k], received, accepted, rejected);
    assert GrnOk(s.pos, s.lines, g);
    assert GrnLineOk(s.lines, g.po, g.lines[k]);
    EditGrnKeepsInv(s, grn, g.(lines := g.lines[k := l]));
  }

  lemma {:induction false} MoveGrnKeepsInv(s: State, grn: nat, to: GrnStatus)
    requires Inv(s) && MoveGrn(s, grn, to).reply == Done && to != GrnApproved
    ensures Inv(MoveGrn(s, grn, to).state)
  {
    assert GrnOk(s.pos, s.lines, s.grns[grn]);
    EditGrnKeepsInv(s, grn, s.grns[grn].(status := to));
  }

  // ---------------------------------------------------------------------------
  // Goods receipt approval
  // ---------------------------------------------------------------------------

  ghost predicate Grown(before: Option<PoLine>, after: Option<PoLine>, more: int) {
    && (before.None? ==> after.None?)
    && (before.Some? ==> after.Some? && after.value == before.value.(received := before.value.received + more))
  }

  /** Each order line grows by what the receipt accepted for it, over all receipt lines that point at it. */
  lemma {:induction false} AddAcceptedRows(lines: seq<Option<PoLine>>, receipt: seq<GrnLine>)
    ensures forall i :: 0 <= i < |lines| ==>
              Grown(lines[i], AddAccepted(lines, receipt)[i], Sum(receipt, AcceptedFor(i)))
  {
    if |receipt| > 0 {
      AddAcceptedRows(lines, receipt[..|receipt| - 1]);
    }
  }

  /** One more receipt line. */
  lemma {:induction false} AddAcceptedOne(lines: seq<Option<PoLine>>, receipt: seq<GrnLine>, item: nat)
    requires |receipt| > 0 && receipt[|receipt| - 1].poLine < |lines| && lines[receipt[|receipt| - 1].poLine].Some?
    ensures var l := receipt[|receipt| - 1];
            Sum(AddAccepted(lines, receipt), ReceivedOf(item))
            == Sum(AddAccepted(lines, receipt[..|receipt| - 1]), ReceivedOf(item))
             + if ItemOf(lines, l.poLine) == item then l.accepted else 0
  {
    var front, l := receipt[..|receipt| - 1], receipt[|receipt| - 1];
    AddAcceptedRows(lines, front);
    var before := AddAccepted(lines, front);
    assert Grown(lines[l.poLine], before[l.poLine], Sum(front, AcceptedFor(l.poLine)));
    var row := before[l.poLine].value;
    SumUpdate(before, l.poLine, Some(row.(received := row.received + l.accepted)), ReceivedOf(item));
  }

  /** Per item, the order lines grow by what the event announces. */
  lemma {:induction false} AddAcceptedTotal(lines: seq<Option<PoLine>>, receipt: seq<GrnLine>, warehouse: nat, item: nat)
    requires forall k :: 0 <= k < |receipt| ==> receipt[k].poLine < |lines| && lines[receipt[k].poLine].Some?
    ensures Sum(AddAccepted(lines, receipt), ReceivedOf(item))
         == Sum(lines, ReceivedOf(item)) + Sum(EventLines(lines, receipt, warehouse), EmittedOf(item))
  {
    if |receipt| > 0 {
      var n := |receipt| - 1;
      AddAcceptedTotal(lines, receipt[..n], warehouse, item);
      AddAcceptedOne(lines, receipt, item);
      assert EventLines(lines, receipt, warehouse)[..n] == EventLines(lines, receipt[..n], warehouse);
    }
  }

  lemma {:induction false} ReceiptLinesExist(s: State, grn: nat)
    requires Inv(s) && grn < |s.grns|
    ensures forall k :: 0 <= k < |s.grns[grn].lines| ==>
              HasLine(s.lines, s.grns[grn].lines[k].poLine, s.grns[grn].po) && s.grns[grn].lines[k].accepted >= 0
  {
  }

  /** Approval only adds to the lines of its own order. */
  lemma {:induction false} ApprovalRows(s: State, grn: nat)
    requires Inv(s) && grn < |s.grns|
    ensures var g := s.grns[grn];
            forall i :: 0 <= i < |s.lines| ==>
              var more := Sum(g.lines, AcceptedFor(i));
              Grown(s.lines[i], AddAccepted(s.lines, g.lines)[i], more) && more >= 0 &&
              (!IsLineOf(s.lines[i], g.po) ==> more == 0)
  {
    var g := s.grns[grn];
    AddAcceptedRows(s.lines, g.lines);
    ReceiptLinesExist(s, grn);
    forall i | 0 <= i < |s.lines|
      ensures Sum(g.lines, AcceptedFor(i)) >= 0
      ensures !IsLineOf(s.lines[i], g.po) ==> Sum(g.lines, AcceptedFor(i)) == 0
    {
      SumZero(g.lines, (l: GrnLine) => 0);
      SumMonotone(g.lines, (l: GrnLine) => 0, AcceptedFor(i));
      if !IsLineOf(s.lines[i], g.po) {
        SumZero(g.lines, AcceptedFor(i));
      }
    }
  }

  ghost predicate Rises(before: Option<PoLine>, after: Option<PoLine>) {
    && (before.None? <==> after.None?)
    && (before.Some? ==>
          && after.value.po == before.value.po && after.value.ordered == before.value.ordered
          && after.value.received >= before.value.received)
  }

  /** Receiving more moves the derived status forward along the status table, or leaves it. */
  lemma {:induction false} DerivedStatusAdvances(lines: seq<Option<PoLine>>, lines': seq<Option<PoLine>>, po: nat)
    requires |lines| == |lines'|
    requires forall i :: 0 <= i < |lines| ==> Rises(lines[i], lines'[i])
    ensures var before, after := DerivedStatus(lines, po), DerivedStatus(lines', po);
            after == before || CanTransitionPo(before, after)
  {
  }

  /**
   * The status that approval writes, without consulting the status table, is a legal transition of the order
   * or the status it already has.
   */
  lemma {:induction false} ApprovalWritesLegalStatus(s: State, grn: nat, warehouse: nat)
    requires Inv(s) && ApproveGrn(s, grn, warehouse).reply == Done
    ensures var po := s.grns[grn].po;
            var after := ApproveGrn(s, grn, warehouse).state.pos[po];
            InReceipt(s.pos[po]) && InReceipt(after) && (after == s.pos[po] || CanTransitionPo(s.pos[po], after))
  {
    var g := s.grns[grn];
    ApprovalRows(s, grn);
    assert GrnOk(s.pos, s.lines, g) && StatusReaches(s.pos[g.po], s.lines, g.po);
    DerivedStatusAdvances(s.lines, AddAccepted(s.lines, g.lines), g.po);
  }

  lemma {:induction false} ApprovalKeepsStatuses(s: State, grn: nat, warehouse: nat)
    requires Inv(s) && ApproveGrn(s, grn, warehouse).reply == Done
    ensures var t := ApproveGrn(s, grn, warehouse).state;
            LinesOk(t.pos, t.lines) && StatusesReach(t.pos, t.lines) && (StatusesFit(s) ==> StatusesFit(t))
  {
    hide GrnsOk, Conserved, Announced, Sum, EventLines, AddAccepted;
    var g := s.grns[grn];
    var t := ApproveGrn(s, grn, warehouse).state;
    ApprovalRows(s, grn);
    ApprovalWritesLegalStatus(s, grn, warehouse);
    hide DerivedStatus, HasLines, StatusesFit;
    assert t.pos[g.po] == DerivedStatus(t.lines, g.po);
    assert StatusReaches(t.pos[g.po], t.lines, g.po) && StatusFits(t.pos[g.po], t.lines, g.po);
    forall p | 0 <= p < |t.pos|
      ensures StatusReaches(t.pos[p], t.lines, p)
      ensures StatusFits(s.pos[p], s.lines, p) ==> StatusFits(t.pos[p], t.lines, p)
    {
      assert StatusReaches(s.pos[p], s.lines, p);
      if p != g.po {
        UntouchedStays(s.pos[p], s.lines, t.lines, p);
      }
    }
  }

  lemma {:induction false} ApprovalKeepsReceipts(s: State, grn: nat, warehouse: nat)
    requires Inv(s) && ApproveGrn(s, grn, warehouse).reply == Done
    ensures var t := ApproveGrn(s, grn, warehouse).state;
            GrnsOk(t.pos, t.lines, t.grns)
  {
    hide StatusesReach, Conserved, Announced;
    var t := ApproveGrn(s, grn, warehouse).state;
    ApprovalRows(s, grn);
    ApprovalWritesLegalStatus(s, grn, warehouse);
    GrnsStay(s.pos, t.pos, s.lines, t.lines, s.grns);
    hide AddAccepted, DerivedStatus, EventLines, InReceipt;
    assert GrnOk(t.pos, t.lines, s.grns[grn]);
    forall h | 0 <= h < |t.grns|
      ensures GrnOk(t.pos, t.lines, t.grns[h])
    {
      assert GrnOk(t.pos, t.lines, s.grns[h]);
    }
  }

  lemma {:induction false} ApprovalConserves(s: State, grn: nat, warehouse: nat)
    requires Inv(s) && ApproveGrn(s, grn, warehouse).reply == Done
    ensures var t := ApproveGrn(s, grn, warehouse).state;
            Conserved(t.lines, t.grns) && Announced(t.lines, t.events)
  {
    var g := s.grns[grn];
    var t := ApproveGrn(s, grn, warehouse).state;
    AddAcceptedRows(s.lines, g.lines);
    forall i | 0 <= i < |t.lines| && t.lines[i].Some?
      ensures t.lines[i].value.received == Sum(t.grns, ApprovedFor(i))
    {
      SumUpdate(s.grns, grn, g.(status := GrnApproved), ApprovedFor(i));
      assert Grown(s.lines[i], t.lines[i], Sum(g.lines, AcceptedFor(i)));
    }
    ReceiptLinesExist(s, grn);
    forall item: nat
      ensures Sum(t.lines, ReceivedOf(item)) == Sum(t.events, EventAmount(item))
    {
      AddAcceptedTotal(s.lines, g.lines, warehouse, item);
      SumAppend(s.events, Event(grn, EventLines(s.lines, g.lines, warehouse)), EventAmount(item));
    }
  }

  // ---------------------------------------------------------------------------
  // Runs
  // ---------------------------------------------------------------------------

  /** A line removed through a draft order is one that its own order tolerates losing. */
  predicate Guarded(s: State, op: Op) {
    op.OpRemoveLine? && RemoveLine(s, op.po, op.line).reply == Done ==> Tolerates(s, op.line)
  }

  predicate AllGuarded(s: State, ops: seq<Op>)
    decreases |ops|
  {
    |ops| == 0 || (Guarded(s, ops[0]) && AllGuarded(Step(s, ops[0]).state, ops[1..]))
  }

  /** Removing an order's own line is always tolerated. */
  lemma {:induction false} OwnLineIsTolerated(s: State, po: nat, line: nat)
    requires RemoveLine(s, po, line).reply == Done && s.lines[line].value.po == po
    ensures Tolerates(s, line)
  {
  }

  lemma {:induction false} UpdateOrderKeepsInv(s: State, po: nat, items: Option<seq<NewLine>>)
    requires Inv(s)
    ensures var t := UpdateOrder(s, po, items).state;
            Inv(t) && (StatusesFit(s) ==> StatusesFit(t))
  {
    hide Inv, StatusesFit, AnyReferenced, Rows, WithoutLinesOf;
    if UpdateOrder(s, po, items).reply == Done && items.Some? {
      ClearKeepsInv(s, po);
      AppendKeepsInv(s.(lines := WithoutLinesOf(s.lines, po)), po, items.value);
    }
  }

  lemma {:induction false} CreateOrderKeepsInv(s: State, known: bool, approved: bool, items: seq<NewLine>)
    requires Inv(s)
    ensures var t := CreateOrder(s, known, approved, items).state;
            Inv(t) && (StatusesFit(s) ==> StatusesFit(t))
  {
    hide Inv, StatusesFit, Rows;
    if CreateOrder(s, known, approved, items).reply == Done {
      NewOrderKeepsInv(s);
      AppendKeepsInv(s.(pos := s.pos + [Draft]), |s.pos|, items);
    }
  }

  lemma {:induction false} ApproveGrnKeepsInv(s: State, grn: nat, warehouse: nat)
    requires Inv(s)
    ensures var t := ApproveGrn(s, grn, warehouse).state;
            Inv(t) && (StatusesFit(s) ==> StatusesFit(t))
  {
    hide LinesOk, GrnsOk, StatusesReach, StatusesFit, Conserved, Announced;
    if ApproveGrn(s, grn, warehouse).reply == Done {
      ApprovalKeepsStatuses(s, grn, warehouse);
      ApprovalKeepsReceipts(s, grn, warehouse);
      ApprovalConserves(s, grn, warehouse);
    }
  }

  /** Every call keeps the invariant; the exact statuses are lost exactly by a removal that is not tolerated. */
  lemma {:induction false} StepKeepsInv(s: State, op: Op)
    requires Inv(s)
    ensures Inv(Step(s, op).state)
    ensures StatusesFit(s) ==> (StatusesFit(Step(s, op).state) <==> Guarded(s, op))
  {
    hide Inv, StatusesFit, HasLines, Tolerates, UpdateOrder, CreateOrder, ApproveGrn, Rows;
    match op
    case OpCreateOrder(known, approved, items) => CreateOrderKeepsInv(s, known, approved, items);
    case OpUpdateOrder(po, items) => UpdateOrderKeepsInv(s, po, items);
    case OpSubmitOrder(po) =>
      if Step(s, op).reply == Done { MoveKeepsInv(s, po, PendingApproval); }
    case OpApproveOrder(po) =>
      if Step(s, op).reply == Done { MoveKeepsInv(s, po, Approved); }
    case OpRejectOrder(po) =>
      if Step(s, op).reply == Done { MoveKeepsInv(s, po, Draft); }
    case OpCancelOrder(po) =>
      if Step(s, op).reply == Done { MoveKeepsInv(s, po, Cancelled); }
    case OpAddLine(po, item) =>
      if Step(s, op).reply == Done { AppendKeepsInv(s, po, [item]); }
    case OpRemoveLine(po, line) =>
      if Step(s, op).reply == Done {
        RemoveLineKeepsInv(s, po, line);
        if StatusesFit(s) { RemoveLineKeepsFitIff(s, po, line); }
      }
    case OpCreateGrn(po, lines) =>
      if Step(s, op).reply == Done { CreateGrnKeepsInv(s, po, lines); }
      SameOrdersFit(s, Step(s, op).state);
    case OpUpdateGrnLine(grn, k, received, accepted, rejected) =>
      if Step(s, op).reply == Done { UpdateGrnLineKeepsInv(s, grn, k, received, accepted, rejected); }
      SameOrdersFit(s, Step(s, op).state);
    case OpSubmitForQc(grn) =>
      if Step(s, op).reply == Done { MoveGrnKeepsInv(s, grn, QcPending); }
      SameOrdersFit(s, Step(s, op).state);
    case OpApproveGrn(grn, warehouse) => ApproveGrnKeepsInv(s, grn, warehouse);
    case OpRejectGrn(grn) =>
      if Step(s, op).reply == Done { MoveGrnKeepsInv(s, grn, GrnRejected); }
      SameOrdersFit(s, Step(s, op).state);
  }

  lemma {:induction false} SameOrdersFit(s: State, t: State)
    requires t.pos == s.pos && t.lines == s.lines
    ensures StatusesFit(t) <==> StatusesFit(s)
  {
  }

  lemma {:induction false} RunKeepsInv(s: State, ops: seq<Op>)
    requires Inv(s)
    ensures Inv(Run(s, ops))
    decreases |ops|
  {
    hide Inv, Step, Guarded;
    if |ops| > 0 {
      StepKeepsInv(s, ops[0]);
      RunKeepsInv(Step(s, ops[0]).state, ops[1..]);
    }
  }

  /** In every state reached from an empty database: conservation, announced quantities, receipts and their orders. */
  lemma {:induction false} ReachableInv(ops: seq<Op>)
    ensures Inv(Run(INITIAL, ops))
    ensures var s := Run(INITIAL, ops);
            && (forall i :: 0 <= i < |s.lines| && s.lines[i].Some? ==>
                  s.lines[i].value.received == Sum(s.grns, ApprovedFor(i)))
            && (forall item: nat :: Sum(s.lines, ReceivedOf(item)) == Sum(s.events, EventAmount(item)))
  {
    assert Inv(INITIAL);
    RunKeepsInv(INITIAL, ops);
  }

  ghost predicate AlwaysFits(s: State, ops: seq<Op>)
    decreases |ops|
  {
    StatusesFit(s) && (|ops| == 0 || AlwaysFits(Step(s, ops[0]).state, ops[1..]))
  }

  /** The statuses are exact throughout a run exactly when every removal of the run is one the line's order tolerates. */
  lemma {:induction false} StatusesFitThroughoutIff(s: State, ops: seq<Op>)
    requires Inv(s) && StatusesFit(s)
    ensures AlwaysFits(s, ops) <==> AllGuarded(s, ops)
    decreases |ops|
  {
    hide Inv, StatusesFit, Step, Guarded;
    if |ops| > 0 {
      var next := Step(s, ops[0]).state;
      StepKeepsInv(s, ops[0]);
      if Guarded(s, ops[0]) {
        StatusesFitThroughoutIff(next, ops[1..]);
      }
    }
  }

  /** Every status change of an order is one the table lists, except that a refused order goes back to draft. */
  lemma {:induction false} StatusChangesAreLegal(s: State, op: Op, po: nat)
    requires Inv(s) && po < |s.pos|
    ensures var t := Step(s, op).state;
            && po < |t.pos|
            && (t.pos[po] == s.pos[po] || CanTransitionPo(s.pos[po], t.pos[po])
                || (op == OpRejectOrder(po) && s.pos[po] == PendingApproval && t.pos[po] == Draft))
  {
    hide Inv, HasLines, Rows, AnyReferenced, Referenced, WithoutLinesOf, AddAccepted, DerivedStatus, EventLines, CanReceive;
    if op.OpApproveGrn? && Step(s, op).reply == Done {
      ApprovalWritesLegalStatus(s, op.grn, op.warehouse);
    }
  }

  /** The state after one call more. */
  lemma {:induction false} RunStep(s: State, ops: seq<Op>, n: nat)
    requires 0 < n <= |ops|
    ensures Run(s, ops[..n]) == Step(Run(s, ops[..n - 1]), ops[n - 1]).state
    decreases n
  {
    hide Step;
    var first := ops[..n];
    if n > 1 {
      RunStep(Step(s, ops[0]).state, ops[1..], n - 1);
      assert first[1..] == ops[1..][..n - 1];
      assert ops[..n - 1][1..] == ops[1..][..n - 2];
    }
  }

  /** So along every run from the empty database, receipt approvals included and whatever lines are removed. */
  lemma {:induction false} EveryStatusChangeIsLegal(ops: seq<Op>, n: nat, po: nat)
    requires n < |ops| && po < |Run(INITIAL, ops[..n]).pos|
    ensures var before, after := Run(INITIAL, ops[..n]).pos[po], Run(INITIAL, ops[..n + 1]).pos;
            && po < |after|
            && (after[po] == before || CanTransitionPo(before, after[po])
                || (ops[n] == OpRejectOrder(po) && before == PendingApproval && after[po] == Draft))
  {
    hide Inv, Step;
    ReachableInv(ops[..n]);
    RunStep(INITIAL, ops, n + 1);
    StatusChangesAreLegal(Run(INITIAL, ops[..n]), ops[n], po);
  }

  /** A decided receipt never changes again, and no receipt changes its order. */
  lemma {:induction false} ReceiptStep(s: State, op: Op, g: nat)
    requires g < |s.grns|
    ensures var t := Step(s, op).state;
            && g < |t.grns| && t.grns[g].po == s.grns[g].po
            && (s.grns[g].status == GrnApproved || s.grns[g].status == GrnRejected ==> t.grns[g] == s.grns[g])
            && (t.grns[g].status == s.grns[g].status || CanTransitionGrn(s.grns[g].status, t.grns[g].status))
  {
  }

  /** Orders move by their table, receipts by theirs, and decided receipts and receipts' orders do not change. */
  ghost predicate Lawful(s: State, t: State) {
    && |s.pos| <= |t.pos| && |s.grns| <= |t.grns|
    && (forall po :: 0 <= po < |s.pos| ==> t.pos[po] == s.pos[po] || CanTransitionPo(s.pos[po], t.pos[po]))
    && (forall g :: 0 <= g < |s.grns| ==>
          && t.grns[g].po == s.grns[g].po
          && (s.grns[g].status == GrnApproved || s.grns[g].status == GrnRejected ==> t.grns[g] == s.grns[g])
          && (t.grns[g].status == s.grns[g].status || CanTransitionGrn(s.grns[g].status, t.grns[g].status)))
  }

  lemma {:induction false} StepIsLawful(s: State, op: Op)
    requires Inv(s) && !op.OpRejectOrder?
    ensures Lawful(s, Step(s, op).state)
  {
    hide Inv, Step;
    var t := Step(s, op).state;
    OnlyGrows(s, op);
    forall po | 0 <= po < |s.pos|
      ensures t.pos[po] == s.pos[po] || CanTransitionPo(s.pos[po], t.pos[po])
    {
      StatusChangesAreLegal(s, op, po);
    }
    forall g | 0 <= g < |s.grns|
      ensures t.grns[g].po == s.grns[g].po
      ensures s.grns[g].status == GrnApproved || s.grns[g].status == GrnRejected ==> t.grns[g] == s.grns[g]
      ensures t.grns[g].status == s.grns[g].status || CanTransitionGrn(s.grns[g].status, t.grns[g].status)
    {
      ReceiptStep(s, op, g);
    }
  }

  lemma {:induction false} OnlyGrows(s: State, op: Op)
    ensures |s.pos| <= |Step(s, op).state.pos| && |s.grns| <= |Step(s, op).state.grns|
  {
    hide HasLines, Rows, AnyReferenced, Referenced, WithoutLinesOf, AddAccepted, DerivedStatus, EventLines, CanReceive;
  }

  /** What a call does to a state that satisfies the invariant. */
  ghost predicate Upholds(s: State, t: State) {
    Inv(s) ==> Inv(t) && Lawful(s, t)
  }

  lemma {:induction false} StepUpholds(s: State, op: Op)
    requires !op.OpRejectOrder?
    ensures Upholds(s, Step(s, op).state)
  {
    hide Inv, Step, Lawful;
    if Inv(s) {
      StepKeepsInv(s, op);
      StepIsLawful(s, op);
    }
  }

  lemma {:induction false} DecidedReceiptIsFrozen(s: State, ops: seq<Op>, g: nat)
    requires g < |s.grns|
    ensures var t := Run(s, ops);
            && g < |t.grns| && t.grns[g].po == s.grns[g].po
            && (s.grns[g].status == GrnApproved || s.grns[g].status == GrnRejected ==> t.grns[g] == s.grns[g])
    decreases |ops|
  {
    hide Step;
    if |ops| > 0 {
      ReceiptStep(s, ops[0], g);
      DecidedReceiptIsFrozen(Step(s, ops[0]).state, ops[1..], g);
    }
  }

  /** An order that has a receipt is never a draft, pending or cancelled again. */
  lemma {:induction false} OrderWithReceiptStaysInReceipt(s: State, ops: seq<Op>, g: nat)
    requires Inv(s) && g < |s.grns|
    ensures var t := Run(s, ops);
            s.grns[g].po < |t.pos| && InReceipt(t.pos[s.grns[g].po])
  {
    DecidedReceiptIsFrozen(s, ops, g);
    RunKeepsInv(s, ops);
    assert GrnOk(Run(s, ops).pos, Run(s, ops).lines, Run(s, ops).grns[g]);
  }

  // ---------------------------------------------------------------------------
  // An untolerated removal
  // ---------------------------------------------------------------------------

  /** The run: an approved order loses its only line through a second, empty-handed draft order. */
  function LosingRun(item: NewLine): seq<Op> {
    [OpCreateOrder(true, true, [item]), OpSubmitOrder(0), OpApproveOrder(0),
     OpCreateOrder(true, true, [item]), OpRemoveLine(1, 0)]
  }

  /** Order 0 is approved without a line, where its lines would make it received. */
  ghost predicate LostItsLines(t: State) {
    && t.pos == [Approved, Draft] && !HasLines(t.lines, 0) && DerivedStatus(t.lines, 0) == Received
    && !StatusesFit(t)
  }

  lemma {:induction false} LosingSteps(item: NewLine)
    requires item.ordered >= 1
    ensures var s1 := Step(INITIAL, OpCreateOrder(true, true, [item])).state;
            var s2 := Step(s1, OpSubmitOrder(0)).state;
            var s3 := Step(s2, OpApproveOrder(0)).state;
            var s4 := Step(s3, OpCreateOrder(true, true, [item])).state;
            LostItsLines(Step(s4, OpRemoveLine(1, 0)).state)
  {
    var row0, row1 := Some(PoLine(0, item.item, item.ordered, 0)), Some(PoLine(1, item.item, item.ordered, 0));
    assert CreateOrder(INITIAL, true, true, [item]).state == State([Draft], [row0], [], []);
    assert IsLineOf([row0][0], 0);
    assert HasLines([row0], 0);
    assert SubmitOrder(State([Draft], [row0], [], []), 0).state == State([PendingApproval], [row0], [], []);
    assert ApproveOrder(State([PendingApproval], [row0], [], []), 0).state == State([Approved], [row0], [], []);
    var s4 := State([Approved, Draft], [row0, row1], [], []);
    assert CreateOrder(State([Approved], [row0], [], []), true, true, [item]).state == s4;
    var t := State([Approved, Draft], [None, row1], [], []);
    assert RemoveLine(s4, 1, 0).state == t;
    assert !StatusFits(t.pos[0], t.lines, 0);
  }

  /** From the empty database five calls lead to such a state. */
  lemma {:induction false} RemovalThroughAnotherOrder(item: NewLine, ops: seq<Op>)
    requires item.ordered >= 1 && ops == LosingRun(item)
    ensures LostItsLines(Run(INITIAL, ops))
  {
    assert Run(INITIAL, ops[..0]) == INITIAL;
    hide Run, Step, LostItsLines;
    LosingSteps(item);
    RunStep(INITIAL, ops, 1);
    RunStep(INITIAL, ops, 2);
    RunStep(INITIAL, ops, 3);
    RunStep(INITIAL, ops, 4);
    RunStep(INITIAL, ops, 5);
    assert ops[..5] == ops;
  }
}

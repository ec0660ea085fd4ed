/**
 * Bills of materials with versions, and the production orders made from them. Both are tables keyed by position;
 * a deleted BOM leaves None. Quantities are scaled integers.
 */
module Bom {
  import opened Results
  import opened Sums

  datatype BomStatus = Draft | Approved | Superseded

  datatype BomLine = BomLine(item: nat, quantity: int, wastage: int)

  datatype SizeOverride = SizeOverride(item: nat, size: nat, quantity: int)

  datatype Sheet = Sheet(
    article: nat, version: nat, status: BomStatus, lines: seq<BomLine>, overrides: seq<SizeOverride>)

  datatype ProductionStatus = Planned | InProgress | Completed | OnHold

  datatype PlanEntry = PlanEntry(size: nat, quantity: int)

  datatype ProductionOrder = ProductionOrder(
    article: nat, bom: nat, plan: seq<PlanEntry>, planned: int, status: ProductionStatus)

  /** `articles` and `items` are the numbers of known articles and stock items. */
  datatype State = State(articles: nat, items: nat, boms: seq<Option<Sheet>>, orders: seq<ProductionOrder>)

  datatype Outcome = Outcome(state: State, reply: Reply)

  const INITIAL := State(0, 0, [], [])

  // ---------------------------------------------------------------------------
  // BOM calls
  // ---------------------------------------------------------------------------

  predicate Exists(boms: seq<Option<Sheet>>, id: nat) {
    id < |boms| && boms[id].Some?
  }

  predicate ValidLines(lines: seq<BomLine>) {
    forall i :: 0 <= i < |lines| ==> lines[i].quantity >= 1 && lines[i].wastage >= 0
  }

  predicate ValidOverrides(overrides: seq<SizeOverride>) {
    forall i :: 0 <= i < |overrides| ==> overrides[i].quantity >= 1
  }

  predicate ItemsExist(items: nat, lines: seq<BomLine>, overrides: seq<SizeOverride>) {
    && (forall i :: 0 <= i < |lines| ==> lines[i].item < items)
    && (forall i :: 0 <= i < |overrides| ==> overrides[i].item < items)
  }

  /** The override table has one row per BOM, item and size. */
  predicate OverridesDiffer(overrides: seq<SizeOverride>) {
    forall i, j :: 0 <= i < j < |overrides| ==> overrides[i].item != overrides[j].item || overrides[i].size != overrides[j].size
  }

  predicate VersionTaken(boms: seq<Option<Sheet>>, article: nat, version: nat) {
    exists i :: 0 <= i < |boms| && boms[i].Some? && boms[i].value.article == article && boms[i].value.version == version
  }

  function CreateBom(s: State, article: nat, version: nat, source: Option<nat>,
                     lines: seq<BomLine>, overrides: seq<SizeOverride>): Outcome {
    if !ValidLines(lines) || !ValidOverrides(overrides) then Outcome(s, Refused)
    else if article >= s.articles then Outcome(s, NotFound)
    else if source.Some? && !Exists(s.boms, source.value) then Outcome(s, NotFound)
    else if source.Some? && s.boms[source.value].value.article != article then Outcome(s, Refused)
    else
      var chosen := if source.Some? && |lines| == 0 then s.boms[source.value].value.lines else lines;
      var chosenOverrides := if source.Some? && |overrides| == 0 then s.boms[source.value].value.overrides else overrides;
      if VersionTaken(s.boms, article, version) then Outcome(s, Refused)
      else if !ItemsExist(s.items, chosen, chosenOverrides) then Outcome(s, NotFound)
      else if !OverridesDiffer(chosenOverrides) then Outcome(s, Refused)
      else Outcome(s.(boms := s.boms + [Some(Sheet(article, version, Draft, chosen, chosenOverrides))]), Done)
  }

  function UpdateBom(s: State, id: nat, lines: Option<seq<BomLine>>, overrides: Option<seq<SizeOverride>>): Outcome {
    if lines.Some? && (|lines.value| == 0 || !ValidLines(lines.value)) then Outcome(s, Refused)
    else if overrides.Some? && !ValidOverrides(overrides.value) then Outcome(s, Refused)
    else if !Exists(s.boms, id) then Outcome(s, NotFound)
    else
      var b := s.boms[id].value;
      var newLines := if lines.Some? then lines.value else b.lines;
      var newOverrides := if overrides.Some? then overrides.value else b.overrides;
      if b.status != Draft then Outcome(s, Refused)
      else if lines.Some? && !ItemsExist(s.items, lines.value, []) then Outcome(s, NotFound)
      else if overrides.Some? && !ItemsExist(s.items, [], overrides.value) then Outcome(s, NotFound)
      else if overrides.Some? && !OverridesDiffer(overrides.value) then Outcome(s, Refused)
      else Outcome(s.(boms := s.boms[id := Some(b.(lines := newLines, overrides := newOverrides))]), Done)
  }

  function SupersedeOthers(boms: seq<Option<Sheet>>, article: nat, id: nat): (r: seq<Option<Sheet>>)
    ensures |r| == |boms|
  {
    seq(|boms|, i requires 0 <= i < |boms| =>
      if i != id && IsApproved(boms[i], article) then Some(boms[i].value.(status := Superseded)) else boms[i])
  }

  function ApproveBom(s: State, id: nat): Outcome {
    if !Exists(s.boms, id) then Outcome(s, NotFound)
    else
      var b := s.boms[id].value;
      if b.status == Approved then Outcome(s, Done)
      else if b.status != Draft then Outcome(s, Refused)
      else Outcome(s.(boms := SupersedeOthers(s.boms, b.article, id)[id := Some(b.(status := Approved))]), Done)
  }

  /** A foreign key of a cost sheet can forbid the deletion; production orders never point at a draft. */
  function DeleteDraft(s: State, id: nat, costed: bool): Outcome {
    if !Exists(s.boms, id) then Outcome(s, NotFound)
    else if s.boms[id].value.status != Draft then Outcome(s, Refused)
    else if costed || (exists o :: 0 <= o < |s.orders| && s.orders[o].bom == id) then Outcome(s, Refused)
    else Outcome(s.(boms := s.boms[id := None]), Done)
  }

  // ---------------------------------------------------------------------------
  // Production order calls
  // ---------------------------------------------------------------------------

  predicate IsApproved(slot: Option<Sheet>, article: nat) {
    slot.Some? && slot.value.article == article && slot.value.status == Approved
  }

  /** The first approved BOM of the article. */
  function ActiveBom(boms: seq<Option<Sheet>>, article: nat): (r: Option<nat>)
    ensures r.Some? ==> r.value < |boms| && IsApproved(boms[r.value], article)
    ensures r.None? ==> forall i :: 0 <= i < |boms| ==> !IsApproved(boms[i], article)
  {
    if |boms| == 0 then None else
      var n := |boms| - 1;
      var before := ActiveBom(boms[..n], article);
      if before.Some? then before else if IsApproved(boms[n], article) then Some(n) else None
  }

  function Quantity(e: PlanEntry): int { e.quantity }

  /** The customer order as production sees it. */
  datatype CustomerOrder = CustomerOrder(article: nat, ready: bool, lines: seq<PlanEntry>)

  function CreateOrder(s: State, order: Option<CustomerOrder>, bom: Option<nat>, lineKnown: bool, plan: seq<PlanEntry>): Outcome {
    if order.None? then Outcome(s, NotFound)
    else if !order.value.ready then Outcome(s, Refused)
    else
      var article := order.value.article;
      var active := ActiveBom(s.boms, article);
      var chosen := if bom.Some? then bom else active;
      var sizePlan := if |plan| > 0 then plan else order.value.lines;
      if active.None? then Outcome(s, Refused)
      else if !Exists(s.boms, chosen.value) || !IsApproved(s.boms[chosen.value], article) then Outcome(s, Refused)
      else if !lineKnown then Outcome(s, NotFound)
      else if Sum(sizePlan, Quantity) <= 0 then Outcome(s, Refused)
      else Outcome(
             s.(orders := s.orders + [ProductionOrder(article, chosen.value, sizePlan, Sum(sizePlan, Quantity), Planned)]),
             Done)
  }

  function UpdateOrder(s: State, id: nat, plan: Option<seq<PlanEntry>>): Outcome {
    if id >= |s.orders| then Outcome(s, NotFound)
    else if s.orders[id].status != Planned then Outcome(s, Refused)
    else if plan.None? then Outcome(s, Done)
    else
      var planned := Sum(plan.value, Quantity);
      if planned <= 0 then Outcome(s, Refused)
      else Outcome(s.(orders := s.orders[id := s.orders[id].(plan := plan.value, planned := planned)]), Done)
  }

  function ProductionTransitions(from: ProductionStatus): seq<ProductionStatus> {
    match from
    case Planned => [InProgress, OnHold]
    case InProgress => [Completed, OnHold]
    case OnHold => [InProgress]
    case Completed => []
  }

  function MoveOrder(s: State, id: nat, to: ProductionStatus): Outcome {
    if id >= |s.orders| then Outcome(s, NotFound)
    else if to !in ProductionTransitions(s.orders[id].status) then Outcome(s, Refused)
    else Outcome(s.(orders := s.orders[id := s.orders[id].(status := to)]), Done)
  }

  // ---------------------------------------------------------------------------
  // Runs
  // ---------------------------------------------------------------------------

  datatype Op =
    | OpAddArticle
    | OpAddItem
    | OpCreateBom(article: nat, version: nat, source: Option<nat>, newLines: seq<BomLine>, newOverrides: seq<SizeOverride>)
    | OpUpdateBom(id: nat, lines: Option<seq<BomLine>>, overrides: Option<seq<SizeOverride>>)
    | OpApproveBom(id: nat)
    | OpDeleteDraft(id: nat, costed: bool)
    | OpCreateOrder(order: Option<CustomerOrder>, bom: Option<nat>, lineKnown: bool, plan: seq<PlanEntry>)
    | OpUpdateOrder(id: nat, newPlan: Option<seq<PlanEntry>>)
    | OpMoveOrder(id: nat, to: ProductionStatus)

  function Step(s: State, op: Op): Outcome {
    match op
    case OpAddArticle => Outcome(s.(articles := s.articles + 1), Done)
    case OpAddItem => Outcome(s.(items := s.items + 1), Done)
    case OpCreateBom(article, version, source, lines, overrides) => CreateBom(s, article, version, source, lines, overrides)
    case OpUpdateBom(id, lines, overrides) => UpdateBom(s, id, lines, overrides)
    case OpApproveBom(id) => ApproveBom(s, id)
    case OpDeleteDraft(id, costed) => DeleteDraft(s, id, costed)
    case OpCreateOrder(order, bom, lineKnown, plan) => CreateOrder(s, order, bom, lineKnown, plan)
    case OpUpdateOrder(id, plan) => UpdateOrder(s, id, plan)
    case OpMoveOrder(id, to) => MoveOrder(s, id, to)
  }

  function Run(s: State, ops: seq<Op>): State
    decreases |ops|
  {
    if |ops| == 0 then s else Run(Step(s, ops[0]).state, ops[1..])
  }

  // ---------------------------------------------------------------------------
  // The invariant
  // ---------------------------------------------------------------------------

  ghost predicate OneApproved(boms: seq<Option<Sheet>>) {
    forall i, j, article: nat :: 0 <= i < j < |boms| && IsApproved(boms[i], article) ==> !IsApproved(boms[j], article)
  }

  /** An order's BOM exists, is of its article and was approved once; its quantity is its plan's. */
  ghost predicate OrderOk(boms: seq<Option<Sheet>>, o: ProductionOrder) {
    && Exists(boms, o.bom)
    && boms[o.bom].value.article == o.article && boms[o.bom].value.status != Draft
    && o.planned == Sum(o.plan, Quantity) > 0
  }

  ghost predicate OrdersOk(boms: seq<Option<Sheet>>, orders: seq<ProductionOrder>) {
    forall o :: 0 <= o < |orders| ==> OrderOk(boms, orders[o])
  }

  ghost predicate VersionsDiffer(boms: seq<Option<Sheet>>) {
    forall i, j :: 0 <= i < j < |boms| && boms[i].Some? && boms[j].Some? && boms[i].value.article == boms[j].value.article ==>
      boms[i].value.version != boms[j].value.version
  }

  ghost predicate Inv(s: State) {
    OneApproved(s.boms) && VersionsDiffer(s.boms) && OrdersOk(s.boms, s.orders)
  }

  /** Once approved, a BOM changes nothing but its status, and that only to superseded. */
  ghost predicate Kept(slot: Option<Sheet>, slot': Option<Sheet>) {
    slot.Some? && slot.value.status != Draft ==>
      && slot'.Some? && slot'.value == slot.value.(status := slot'.value.status)
      && (slot'.value.status == slot.value.status || slot'.value.status == Superseded)
  }

  ghost predicate AllKept(boms: seq<Option<Sheet>>, boms': seq<Option<Sheet>>) {
    |boms| <= |boms'| && forall i :: 0 <= i < |boms| ==> Kept(boms[i], boms'[i])
  }

  lemma {:induction false} StepKeepsBoms(s: State, op: Op)
    requires OneApproved(s.boms)
    ensures OneApproved(Step(s, op).state.boms)
    ensures AllKept(s.boms, Step(s, op).state.boms)
  {
  }

  lemma {:induction false} StepKeepsVersions(s: State, op: Op)
    requires VersionsDiffer(s.boms)
    ensures VersionsDiffer(Step(s, op).state.boms)
  {
  }

  lemma {:induction false} OrdersStayOk(boms: seq<Option<Sheet>>, boms': seq<Option<Sheet>>, orders: seq<ProductionOrder>)
    requires OrdersOk(boms, orders) && AllKept(boms, boms')
    ensures OrdersOk(boms', orders)
  {
  }

  /** Orders keep their article and BOM. */
  ghost predicate SameBoms(orders: seq<ProductionOrder>, orders': seq<ProductionOrder>) {
    && |orders| <= |orders'|
    && forall o :: 0 <= o < |orders| ==> orders'[o].bom == orders[o].bom && orders'[o].article == orders[o].article
  }

  lemma {:induction false} StepKeepsOrders(s: State, op: Op)
    requires Inv(s)
    ensures OrdersOk(s.boms, Step(s, op).state.orders)
    ensures SameBoms(s.orders, Step(s, op).state.orders)
  {
  }

  lemma {:induction false} StepKeepsInv(s: State, op: Op)
    requires Inv(s)
    ensures Inv(Step(s, op).state)
    ensures AllKept(s.boms, Step(s, op).state.boms) && SameBoms(s.orders, Step(s, op).state.orders)
  {
    hide Step, OneApproved, VersionsDiffer, OrdersOk, AllKept, SameBoms;
    StepKeepsBoms(s, op);
    StepKeepsVersions(s, op);
    StepKeepsOrders(s, op);
    OrdersStayOk(s.boms, Step(s, op).state.boms, Step(s, op).state.orders);
  }

  /** What a call does to a state that satisfies the invariant. */
  ghost predicate Upholds(s: State, t: State) {
    Inv(s) ==> Inv(t) && AllKept(s.boms, t.boms) && SameBoms(s.orders, t.orders)
  }

  // ---------------------------------------------------------------------------
  // Over runs
  // ---------------------------------------------------------------------------

  lemma {:induction false} RunKeepsInv(s: State, ops: seq<Op>)
    requires Inv(s)
    ensures Inv(Run(s, ops))
    ensures AllKept(s.boms, Run(s, ops).boms) && SameBoms(s.orders, Run(s, ops).orders)
    decreases |ops|
  {
    hide Inv, Step;
    if |ops| > 0 {
      var next := Step(s, ops[0]).state;
      StepKeepsInv(s, ops[0]);
      RunKeepsInv(next, ops[1..]);
      forall i | 0 <= i < |s.boms|
        ensures Kept(s.boms[i], Run(s, ops).boms[i])
      {
        assert Kept(s.boms[i], next.boms[i]) && Kept(next.boms[i], Run(s, ops).boms[i]);
      }
    }
  }

  ghost predicate HasApproved(s: State, article: nat) {
    exists i :: 0 <= i < |s.boms| && IsApproved(s.boms[i], article)
  }

  lemma {:induction false} StepKeepsApproved(s: State, op: Op, article: nat)
    requires HasApproved(s, article)
    ensures HasApproved(Step(s, op).state, article)
  {
    hide ValidLines, ValidOverrides, ItemsExist, OverridesDiffer, VersionTaken, Sum;
    var t := Step(s, op).state;
    var i :| 0 <= i < |s.boms| && IsApproved(s.boms[i], article);
    if op.OpApproveBom? && Exists(s.boms, op.id) && s.boms[op.id].value.article == article {
      if s.boms[op.id].value.status == Draft {
        assert IsApproved(t.boms[op.id], article);
      } else {
        assert IsApproved(t.boms[i], article);
      }
    } else {
      assert IsApproved(t.boms[i], article);
    }
  }

  /** The article's one and only approved BOM. */
  ghost predicate IsTheApproved(boms: seq<Option<Sheet>>, article: nat, i: int) {
    && 0 <= i < |boms| && IsApproved(boms[i], article)
    && forall j :: 0 <= j < |boms| && IsApproved(boms[j], article) ==> j == i
  }

  ghost predicate ExactlyOneApproved(boms: seq<Option<Sheet>>, article: nat) {
    exists i :: IsTheApproved(boms, article, i)
  }

  /** Over every run: once an article has an approved BOM it has one, and only one, for ever. */
  lemma {:induction false} AlwaysExactlyOneApproved(s: State, ops: seq<Op>, article: nat)
    requires Inv(s) && HasApproved(s, article)
    ensures ExactlyOneApproved(Run(s, ops).boms, article)
    decreases |ops|
  {
    hide Step;
    if |ops| > 0 {
      StepKeepsInv(s, ops[0]);
      StepKeepsApproved(s, ops[0], article);
      AlwaysExactlyOneApproved(Step(s, ops[0]).state, ops[1..], article);
    } else {
      var i :| 0 <= i < |s.boms| && IsApproved(s.boms[i], article);
      assert IsTheApproved(s.boms, article, i);
    }
  }

  /** In every reachable state no article has two approved BOMs, and every production order's BOM is in order. */
  lemma {:induction false} ReachableInv(ops: seq<Op>)
    ensures Inv(Run(INITIAL, ops))
  {
    assert Inv(INITIAL);
    RunKeepsInv(INITIAL, ops);
  }

  /**
   * Over every run a production order keeps the BOM it was created with, and that BOM keeps its lines and its
   * size overrides, superseded or not.
   */
  lemma {:induction false} OrderedBomIsFrozen(s: State, ops: seq<Op>, order: nat)
    requires Inv(s) && order < |s.orders|
    ensures var t, bom := Run(s, ops), s.orders[order].bom;
            && order < |t.orders| && t.orders[order].bom == bom
            && Exists(s.boms, bom) && Exists(t.boms, bom)
            && t.boms[bom].value.lines == s.boms[bom].value.lines
            && t.boms[bom].value.overrides == s.boms[bom].value.overrides
            && t.boms[bom].value.article == s.orders[order].article
  {
    RunKeepsInv(s, ops);
    assert OrderOk(s.boms, s.orders[order]);
    assert Kept(s.boms[s.orders[order].bom], Run(s, ops).boms[s.orders[order].bom]);
  }

  // ---------------------------------------------------------------------------
  // Calls, field by field
  // ---------------------------------------------------------------------------

  predicate Known(items: nat, lines: seq<BomLine>, overrides: seq<SizeOverride>) {
    && (forall i :: 0 <= i < |lines| ==> lines[i].item < items)
    && (forall i :: 0 <= i < |overrides| ==> overrides[i].item < items)
  }

  /** Positive quantities, no negative wastage. */
  predicate Positive(lines: seq<BomLine>, overrides: seq<SizeOverride>) {
    && (forall i :: 0 <= i < |lines| ==> lines[i].quantity >= 1 && lines[i].wastage >= 0)
    && (forall i :: 0 <= i < |overrides| ==> overrides[i].quantity >= 1)
  }

  predicate OneRowEach(overrides: seq<SizeOverride>) {
    forall i, j :: 0 <= i < j < |overrides| ==> !(overrides[i].item == overrides[j].item && overrides[i].size == overrides[j].size)
  }

  /** A new BOM is a draft under a free version with the given lines and overrides, or its source's where none are given. */
  lemma {:induction false} CreateBomLaw(s: State, article: nat, version: nat, source: Option<nat>,
                                        lines: seq<BomLine>, overrides: seq<SizeOverride>)
    requires source.Some? ==> source.value < |s.boms| && s.boms[source.value].Some?
    ensures var after := CreateBom(s, article, version, source, lines, overrides);
            var lines' := if source.Some? && |lines| == 0 then s.boms[source.value].value.lines else lines;
            var overrides' := if source.Some? && |overrides| == 0 then s.boms[source.value].value.overrides else overrides;
            && (after.reply == Done <==>
                  && article < s.articles && Positive(lines, overrides) && Known(s.items, lines', overrides')
                  && OneRowEach(overrides')
                  && (source.Some? ==> s.boms[source.value].value.article == article)
                  && forall i :: 0 <= i < |s.boms| && s.boms[i].Some? && s.boms[i].value.article == article ==>
                       s.boms[i].value.version != version)
            && after.state == if after.reply == Done
                 then s.(boms := s.boms + [Some(Sheet(article, version, Draft, lines', overrides'))]) else s
  {
  }

  /** A draft's given lines and overrides are replaced, the others kept. */
  lemma {:induction false} UpdateBomLaw(s: State, id: nat, lines: Option<seq<BomLine>>, overrides: Option<seq<SizeOverride>>)
    requires id < |s.boms| && s.boms[id].Some?
    ensures var after, b := UpdateBom(s, id, lines, overrides), s.boms[id].value;
            && (after.reply == Done <==>
                  && b.status == Draft
                  && (lines.Some? ==> |lines.value| > 0 && Positive(lines.value, []) && Known(s.items, lines.value, []))
                  && (overrides.Some? ==>
                        Positive([], overrides.value) && Known(s.items, [], overrides.value) && OneRowEach(overrides.value)))
            && after.state == if after.reply == Done
                 then s.(boms := s.boms[id := Some(Sheet(
                   b.article, b.version, Draft,
                   if lines.Some? then lines.value else b.lines,
                   if overrides.Some? then overrides.value else b.overrides))])
                 else s
  {
  }

  /** Approving a draft makes it approved and the article's former one superseded, and changes no other BOM. */
  lemma {:induction false} ApproveBomLaw(s: State, id: nat)
    requires id < |s.boms| && s.boms[id].Some?
    ensures var after, b := ApproveBom(s, id), s.boms[id].value;
            && (after.reply == Done <==> b.status == Draft || b.status == Approved)
            && (b.status != Draft ==> after.state == s)
            && (b.status == Draft ==>
                  && after.state == s.(boms := after.state.boms) && |after.state.boms| == |s.boms|
                  && after.state.boms[id] == Some(Sheet(b.article, b.version, Approved, b.lines, b.overrides))
                  && forall i :: 0 <= i < |s.boms| && i != id ==>
                       after.state.boms[i] ==
                         if s.boms[i].Some? && s.boms[i].value.article == b.article && s.boms[i].value.status == Approved
                         then Some(s.boms[i].value.(status := Superseded)) else s.boms[i])
  {
  }

  lemma {:induction false} DeleteDraftLaw(s: State, id: nat, costed: bool)
    requires Inv(s) && id < |s.boms| && s.boms[id].Some?
    ensures var after := DeleteDraft(s, id, costed);
            && (after.reply == Done <==> s.boms[id].value.status == Draft && !costed)
            && after.state == if after.reply == Done then s.(boms := s.boms[id := None]) else s
  {
    assert forall o :: 0 <= o < |s.orders| ==> OrderOk(s.boms, s.orders[o]);
  }

  /**
   * A production order is made exactly for a ready customer order whose article has an approved BOM, on a known line
   * and for a positive quantity; it takes the approved BOM, which a given one must be, and the given plan or the
   * customer's sizes.
   */
  lemma {:induction false} CreateOrderLaw(s: State, order: CustomerOrder, bom: Option<nat>, lineKnown: bool, plan: seq<PlanEntry>)
    requires Inv(s)
    ensures var after := CreateOrder(s, Some(order), bom, lineKnown, plan);
            var plan' := if |plan| > 0 then plan else order.lines;
            var planned := Sum(plan', (e: PlanEntry) => e.quantity);
            && (after.reply == Done <==>
                  && order.ready && lineKnown && planned > 0
                  && exists i :: IsTheApproved(s.boms, order.article, i) && (bom.Some? ==> bom.value == i))
            && (after.reply != Done ==> after.state == s)
            && (after.reply == Done ==>
                  && |after.state.orders| == |s.orders| + 1
                  && after.state == s.(orders := s.orders + [after.state.orders[|s.orders|]])
                  && var o := after.state.orders[|s.orders|];
                     && o.article == order.article && o.plan == plan' && o.planned == planned && o.status == Planned
                     && IsTheApproved(s.boms, order.article, o.bom))
  {
    var plan' := if |plan| > 0 then plan else order.lines;
    SumSame(plan', Quantity, plan', (e: PlanEntry) => e.quantity);
    hide Sum;
    var active := ActiveBom(s.boms, order.article);
    if active.Some? {
      TheApproved(s, order.article, active.value);
    }
    forall i | 0 <= i < |s.boms| && IsApproved(s.boms[i], order.article)
      ensures IsTheApproved(s.boms, order.article, i)
    {
      TheApproved(s, order.article, i);
    }
  }

  lemma {:induction false} TheApproved(s: State, article: nat, i: nat)
    requires Inv(s) && i < |s.boms| && IsApproved(s.boms[i], article)
    ensures IsTheApproved(s.boms, article, i)
  {
  }

  /** A planned order takes a new plan and its quantity; statuses move by their table; nothing else changes. */
  lemma {:induction false} OrderLaws(s: State, id: nat, plan: seq<PlanEntry>, to: ProductionStatus)
    requires id < |s.orders|
    ensures var after, o := UpdateOrder(s, id, Some(plan)), s.orders[id];
            var planned := Sum(plan, (e: PlanEntry) => e.quantity);
            && (after.reply == Done <==> o.status == Planned && planned > 0)
            && after.state == if after.reply == Done
                 then s.(orders := s.orders[id := ProductionOrder(o.article, o.bom, plan, planned, Planned)]) else s
    ensures var after, from := MoveOrder(s, id, to), s.orders[id].status;
            && (after.reply == Done <==>
                  || (from == Planned && (to == InProgress || to == OnHold))
                  || (from == InProgress && (to == Completed || to == OnHold))
                  || (from == OnHold && to == InProgress))
            && after.state == if after.reply == Done then s.(orders := s.orders[id := s.orders[id].(status := to)]) else s
  {
    SumSame(plan, Quantity, plan, (e: PlanEntry) => e.quantity);
    hide Sum;
  }

  /** Which refusals are a missing row; every other is an error of the request or of a status. */
  lemma {:induction false} NotFoundIff(s: State, id: nat, lines: seq<BomLine>, costed: bool, order: CustomerOrder,
                                       lineKnown: bool, plan: seq<PlanEntry>, to: ProductionStatus)
    ensures var present := id < |s.boms| && s.boms[id].Some?;
            && (UpdateBom(s, id, Some(lines), None).reply == NotFound <==>
                  && |lines| > 0 && Positive(lines, [])
                  && (present ==> s.boms[id].value.status == Draft && !Known(s.items, lines, [])))
            && (ApproveBom(s, id).reply == NotFound <==> !present)
            && (DeleteDraft(s, id, costed).reply == NotFound <==> !present)
    ensures CreateOrder(s, None, Some(id), lineKnown, plan).reply == NotFound
    ensures CreateOrder(s, Some(order), None, lineKnown, plan).reply == NotFound <==>
              && order.ready && !lineKnown
              && exists i :: 0 <= i < |s.boms| && IsApproved(s.boms[i], order.article)
    ensures UpdateOrder(s, id, Some(plan)).reply == NotFound <==> id >= |s.orders|
    ensures MoveOrder(s, id, to).reply == NotFound <==> id >= |s.orders|
  {
    assert ActiveBom(s.boms, order.article).Some? ==>
      IsApproved(s.boms[ActiveBom(s.boms, order.article).value], order.article);
  }

  // ---------------------------------------------------------------------------
  // The services
  // ---------------------------------------------------------------------------

  class Factory {
    var articles: nat
    var items: nat
    var boms: seq<Option<Sheet>>
    var orders: seq<ProductionOrder>

    function View(): State
      reads this
    {
      State(articles, items, boms, orders)
    }

    constructor ()
      ensures View() == INITIAL
    {
      articles, items, boms, orders := 0, 0, [], [];
    }

    method Create(article: nat, version: nat, source: Option<nat>, lines: seq<BomLine>, overrides: seq<SizeOverride>)
      returns (reply: Reply)
      modifies this`boms
      ensures Outcome(View(), reply) == CreateBom(old(View()), article, version, source, lines, overrides)
      ensures Upholds(old(View()), View())
    {
      hide Inv, AllKept, SameBoms;
      if Inv(View()) { StepKeepsInv(View(), OpCreateBom(article, version, source, lines, overrides)); }
      if !ValidLines(lines) || !ValidOverrides(overrides) { return Refused; }
      if article >= articles { return NotFound; }
      var chosen, chosenOverrides := lines, overrides;
      if source.Some? {
        if !Exists(boms, source.value) { return NotFound; }
        var copied := boms[source.value].value;
        if copied.article != article { return Refused; }
        if |chosen| == 0 { chosen := copied.lines; }
        if |chosenOverrides| == 0 { chosenOverrides := copied.overrides; }
      }
      if VersionTaken(boms, article, version) { return Refused; }
      if !ItemsExist(items, chosen, chosenOverrides) { return NotFound; }
      if !OverridesDiffer(chosenOverrides) { return Refused; }
      boms := boms + [Some(Sheet(article, version, Draft, chosen, chosenOverrides))];
      reply := Done;
    }

    method Update(id: nat, lines: Option<seq<BomLine>>, overrides: Option<seq<SizeOverride>>) returns (reply: Reply)
      modifies this`boms
      ensures Outcome(View(), reply) == UpdateBom(old(View()), id, lines, overrides)
      ensures Upholds(old(View()), View())
    {
      hide Inv, AllKept, SameBoms;
      if Inv(View()) { StepKeepsInv(View(), OpUpdateBom(id, lines, overrides)); }
      if lines.Some? && (|lines.value| == 0 || !ValidLines(lines.value)) { return Refused; }
      if overrides.Some? && !ValidOverrides(overrides.value) { return Refused; }
      if !Exists(boms, id) { return NotFound; }
      var b := boms[id].value;
      if b.status != Draft { return Refused; }
      if lines.Some? {
        if !ItemsExist(items, lines.value, []) { return NotFound; }
        b := b.(lines := lines.value);
      }
      if overrides.Some? {
        if !ItemsExist(items, [], overrides.value) { return NotFound; }
        if !OverridesDiffer(overrides.value) { return Refused; }
        b := b.(overrides := overrides.value);
      }
      boms := boms[id := Some(b)];
      reply := Done;
    }

    /** The approved BOM is superseded before the draft is approved. */
    method Approve(id: nat) returns (reply: Reply)
      modifies this`boms
      ensures Outcome(View(), reply) == ApproveBom(old(View()), id)
      ensures Upholds(old(View()), View())
    {
      hide Inv, AllKept, SameBoms;
      if Inv(View()) { StepKeepsInv(View(), OpApproveBom(id)); }
      if !Exists(boms, id) { return NotFound; }
      var b := boms[id].value;
      if b.status == Approved { return Done; }
      if b.status != Draft { return Refused; }
      boms := SupersedeOthers(boms, b.article, id);
      boms := boms[id := Some(b.(status := Approved))];
      reply := Done;
    }

    method Delete(id: nat, costed: bool) returns (reply: Reply)
      modifies this`boms
      ensures Outcome(View(), reply) == DeleteDraft(old(View()), id, costed)
      ensures Upholds(old(View()), View())
    {
      hide Inv, AllKept, SameBoms;
      if Inv(View()) { StepKeepsInv(View(), OpDeleteDraft(id, costed)); }
      if !Exists(boms, id) { return NotFound; }
      if boms[id].value.status != Draft { return Refused; }
      if costed || exists o :: 0 <= o < |orders| && orders[o].bom == id { return Refused; }
      boms := boms[id := None];
      reply := Done;
    }

    method Order(order: Option<CustomerOrder>, bom: Option<nat>, lineKnown: bool, plan: seq<PlanEntry>) returns (reply: Reply)
      modifies this`orders
      ensures Outcome(View(), reply) == CreateOrder(old(View()), order, bom, lineKnown, plan)
      ensures Upholds(old(View()), View())
    {
      hide Inv, AllKept, SameBoms;
      if Inv(View()) { StepKeepsInv(View(), OpCreateOrder(order, bom, lineKnown, plan)); }
      if order.None? { return NotFound; }
      if !order.value.ready { return Refused; }
      var article := order.value.article;
      var active := ActiveBom(boms, article);
      if active.None? { return Refused; }
      var chosen := active.value;
      if bom.Some? {
        chosen := bom.value;
        if !Exists(boms, chosen) || !IsApproved(boms[chosen], article) { return Refused; }
      }
      if !lineKnown { return NotFound; }
      var sizePlan := if |plan| > 0 then plan else order.value.lines;
      var planned := Sum(sizePlan, Quantity);
      if planned <= 0 { return Refused; }
      orders := orders + [ProductionOrder(article, chosen, sizePlan, planned, Planned)];
      reply := Done;
    }

    method Replan(id: nat, plan: Option<seq<PlanEntry>>) returns (reply: Reply)
      modifies this`orders
      ensures Outcome(View(), reply) == UpdateOrder(old(View()), id, plan)
      ensures Upholds(old(View()), View())
    {
      hide Inv, AllKept, SameBoms;
      if Inv(View()) { StepKeepsInv(View(), OpUpdateOrder(id, plan)); }
      if id >= |orders| { return NotFound; }
      if orders[id].status != Planned { return Refused; }
      if plan.Some? {
        var planned := Sum(plan.value, Quantity);
        if planned <= 0 { return Refused; }
        orders := orders[id := orders[id].(plan := plan.value, planned := planned)];
      }
      reply := Done;
    }

    method Transition(id: nat, to: ProductionStatus) returns (reply: Reply)
      modifies this`orders
      ensures Outcome(View(), reply) == MoveOrder(old(View()), id, to)
      ensures Upholds(old(View()), View())
    {
      hide Inv, AllKept, SameBoms;
      if Inv(View()) { StepKeepsInv(View(), OpMoveOrder(id, to)); }
      if id >= |orders| { return NotFound; }
      if to !in ProductionTransitions(orders[id].status) { return Refused; }
      orders := orders[id := orders[id].(status := to)];
      reply := Done;
    }
  }
}

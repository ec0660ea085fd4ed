/**
 * The leave calendar. Requests are a table keyed by position; dates are day numbers; days of leave count
 * hundredths, the scale of the database columns. A request carries the calendar year of its first day, which
 * names the balance it draws on.
 */
module Leave {
  import opened Results
  import opened Sums

  datatype Status = Pending | ManagerApproved | HrApproved | Rejected | Cancelled

  datatype Request = Request(
    employee: nat, kind: nat, year: int, start: int, end: int, totalDays: int, status: Status)

  datatype Application = Application(employee: nat, kind: nat, year: int, start: int, end: int, halfDay: bool)

  /** A balance: employee, leave type, year. */
  type Key = (nat, nat, int)

  /** `kinds` says of each leave type whether it allows half days. */
  datatype State = State(
    employees: nat, kinds: seq<bool>, requests: seq<Request>, granted: map<Key, int>, used: map<Key, int>)

  datatype Outcome = Outcome(state: State, reply: Reply)

  const INITIAL := State(0, [], [], map[], map[])

  const DAY := 100
  const HALF_DAY := 50

  // ---------------------------------------------------------------------------
  // Calls
  // ---------------------------------------------------------------------------

  function At(m: map<Key, int>, key: Key): int {
    if key in m then m[key] else 0
  }

  function KeyOf(r: Request): Key { (r.employee, r.kind, r.year) }

  predicate Live(r: Request) {
    r.status != Rejected && r.status != Cancelled
  }

  /** Both ranges include their ends. */
  predicate Overlap(start: int, end: int, r: Request) {
    start <= r.end && r.start <= end
  }

  predicate Taken(requests: seq<Request>, employee: nat, start: int, end: int) {
    exists i :: 0 <= i < |requests| && requests[i].employee == employee && Live(requests[i]) && Overlap(start, end, requests[i])
  }

  /** Half a day, whatever the range, or the days of the range. */
  function TotalDays(a: Application, halfDayAllowed: bool): Result<int> {
    if a.halfDay then
      if halfDayAllowed then Ok(HALF_DAY) else Throws
    else if a.end < a.start then Throws
    else Ok(DAY * (a.end - a.start + 1))
  }

  function Available(s: State, key: Key): int {
    At(s.granted, key) - At(s.used, key)
  }

  /** A half day with reversed dates passes the day count and fails in the overlap query. */
  function Apply(s: State, a: Application): Outcome {
    if a.kind >= |s.kinds| then Outcome(s, NotFound)
    else
      match TotalDays(a, s.kinds[a.kind])
      case Throws => Outcome(s, Refused)
      case Ok(totalDays) =>
        if a.end < a.start then Outcome(s, Refused)
        else if Taken(s.requests, a.employee, a.start, a.end) then Outcome(s, Refused)
        else if a.employee >= s.employees then Outcome(s, Refused)
        else if Available(s, (a.employee, a.kind, a.year)) < totalDays then Outcome(s, Refused)
        else Outcome(
               s.(requests := s.requests
                  + [Request(a.employee, a.kind, a.year, a.start, a.end, totalDays, Pending)]),
               Done)
  }

  function WithStatus(s: State, id: nat, status: Status): State
    requires id < |s.requests|
  {
    s.(requests := s.requests[id := s.requests[id].(status := status)])
  }

  function Use(s: State, key: Key, days: int): State {
    s.(used := s.used[key := At(s.used, key) + days])
  }

  function Approve(s: State, id: nat, asManager: bool): Outcome {
    if id >= |s.requests| then Outcome(s, NotFound)
    else
      var r := s.requests[id];
      if !Live(r) then Outcome(s, Refused)
      else if asManager then Outcome(WithStatus(s, id, ManagerApproved), Done)
      else if r.status != ManagerApproved && r.status != Pending then Outcome(s, Refused)
      else Outcome(WithStatus(Use(s, KeyOf(r), r.totalDays), id, HrApproved), Done)
  }

  function Reject(s: State, id: nat): Outcome {
    if id >= |s.requests| then Outcome(s, NotFound) else Outcome(WithStatus(s, id, Rejected), Done)
  }

  function Cancel(s: State, id: nat): Outcome {
    if id >= |s.requests| then Outcome(s, NotFound)
    else
      var r := s.requests[id];
      var returned := if r.status == HrApproved then Use(s, KeyOf(r), -r.totalDays) else s;
      Outcome(WithStatus(returned, id, Cancelled), Done)
  }

  datatype Op =
    | OpHire
    | OpAddKind(halfDayAllowed: bool)
    | OpGrant(key: Key, days: int)
    | OpApply(application: Application)
    | OpApprove(id: nat, asManager: bool)
    | OpReject(id: nat)
    | OpCancel(id: nat)

  /** A grant stands for accrual and carry-forward. */
  function Step(s: State, op: Op): Outcome {
    match op
    case OpHire => Outcome(s.(employees := s.employees + 1), Done)
    case OpAddKind(halfDayAllowed) => Outcome(s.(kinds := s.kinds + [halfDayAllowed]), Done)
    case OpGrant(key, days) => Outcome(s.(granted := s.granted[key := At(s.granted, key) + days]), Done)
    case OpApply(application) => Apply(s, application)
    case OpApprove(id, asManager) => Approve(s, id, asManager)
    case OpReject(id) => Reject(s, id)
    case OpCancel(id) => Cancel(s, id)
  }

  function Run(s: State, ops: seq<Op>): State
    decreases |ops|
  {
    if |ops| == 0 then s else Run(Step(s, ops[0]).state, ops[1..])
  }

  // ---------------------------------------------------------------------------
  // Disjoint ranges
  // ---------------------------------------------------------------------------

  ghost predicate RequestOk(r: Request) {
    r.start <= r.end && 0 < r.totalDays <= DAY * (r.end - r.start + 1)
  }

  predicate SamePerson(a: Request, b: Request) {
    a.employee == b.employee && Live(a) && Live(b)
  }

  ghost predicate Disjoint(requests: seq<Request>) {
    forall i, j :: 0 <= i < j < |requests| && SamePerson(requests[i], requests[j]) ==>
      !Overlap(requests[i].start, requests[i].end, requests[j])
  }

  ghost predicate Inv(s: State) {
    Disjoint(s.requests) && forall i :: 0 <= i < |s.requests| ==> RequestOk(s.requests[i])
  }

  /** A request's range never changes, and a rejected or cancelled request stays rejected or cancelled. */
  ghost predicate Kept(r: Request, r': Request) {
    r' == r.(status := r'.status) && (!Live(r) ==> !Live(r'))
  }

  lemma {:induction false} StepKeepsRequests(s: State, op: Op)
    ensures var t := Step(s, op).state;
            |s.requests| <= |t.requests| && forall i :: 0 <= i < |s.requests| ==> Kept(s.requests[i], t.requests[i])
  {
  }

  lemma {:induction false} DeadStaysDead(s: State, ops: seq<Op>)
    ensures var t := Run(s, ops);
            |s.requests| <= |t.requests| && forall i :: 0 <= i < |s.requests| ==> Kept(s.requests[i], t.requests[i])
    decreases |ops|
  {
    hide Step;
    if |ops| > 0 {
      var next := Step(s, ops[0]).state;
      StepKeepsRequests(s, ops[0]);
      DeadStaysDead(next, ops[1..]);
      forall i | 0 <= i < |s.requests|
        ensures Kept(s.requests[i], Run(s, ops).requests[i])
      {
        assert Kept(s.requests[i], next.requests[i]) && Kept(next.requests[i], Run(s, ops).requests[i]);
      }
    }
  }

  lemma {:induction false} KeptStaysDisjoint(requests: seq<Request>, requests': seq<Request>)
    requires Disjoint(requests) && |requests'| == |requests|
    requires forall i :: 0 <= i < |requests| ==> Kept(requests[i], requests'[i])
    ensures Disjoint(requests')
  {
  }

  lemma {:induction false} StepKeepsInv(s: State, op: Op)
    requires Inv(s)
    ensures Inv(Step(s, op).state)
  {
    var t := Step(s, op).state;
    if op.OpApply? && Step(s, op).reply == Done {
      var a, n := op.application, |s.requests|;
      forall i | 0 <= i < n && s.requests[i].employee == a.employee && Live(s.requests[i])
        ensures !Overlap(s.requests[i].start, s.requests[i].end, t.requests[n])
      {
        assert !Overlap(a.start, a.end, s.requests[i]);
      }
      assert forall i :: 0 <= i < n ==> t.requests[i] == s.requests[i];
    } else {
      hide Disjoint;
      StepKeepsRequests(s, op);
      KeptStaysDisjoint(s.requests, t.requests);
      forall i | 0 <= i < |t.requests|
        ensures RequestOk(t.requests[i])
      {
        assert Kept(s.requests[i], t.requests[i]) && RequestOk(s.requests[i]);
      }
    }
  }

  /** What a call does: live ranges stay disjoint, no range changes, no dead request comes back. */
  ghost predicate Upholds(s: State, t: State) {
    && (Inv(s) ==> Inv(t))
    && |s.requests| <= |t.requests| && forall i :: 0 <= i < |s.requests| ==> Kept(s.requests[i], t.requests[i])
  }

  lemma {:induction false} StepUpholds(s: State, op: Op)
    ensures Upholds(s, Step(s, op).state)
  {
    hide Inv, Step;
    if Inv(s) {
      StepKeepsInv(s, op);
    }
    StepKeepsRequests(s, op);
  }

  lemma {:induction false} RunKeepsInv(s: State, ops: seq<Op>)
    requires Inv(s)
    ensures Inv(Run(s, ops))
    decreases |ops|
  {
    hide Inv, Step;
    if |ops| > 0 {
      StepKeepsInv(s, ops[0]);
      RunKeepsInv(Step(s, ops[0]).state, ops[1..]);
    }
  }

  // ---------------------------------------------------------------------------
  // Packing
  // ---------------------------------------------------------------------------

  function Days(start: int, n: nat): (days: set<int>)
    ensures |days| == n
    ensures forall d :: d in days <==> start <= d < start + n
  {
    if n == 0 then {} else
      var before := Days(start, n - 1);
      assert start + n - 1 !in before;
      before + {start + n - 1}
  }

  /** A live request of the employee inside the span of n days. */
  predicate Inside(r: Request, employee: nat, from: int, n: nat) {
    r.employee == employee && Live(r) && from <= r.start && r.end < from + n
  }

  function DaysInside(employee: nat, from: int, n: nat): Request -> int {
    (r: Request) => if Inside(r, employee, from, n) then r.totalDays else 0
  }

  /** The days that the employee's live requests inside the span occupy. */
  ghost function Occupied(requests: seq<Request>, employee: nat, from: int, n: nat): set<int> {
    if |requests| == 0 then {} else
      var k := |requests| - 1;
      var r := requests[k];
      Occupied(requests[..k], employee, from, n)
      + if Inside(r, employee, from, n) && r.start <= r.end then Days(r.start, r.end - r.start + 1) else {}
  }

  lemma {:induction false} OccupiedBy(requests: seq<Request>, employee: nat, from: int, n: nat)
    ensures Occupied(requests, employee, from, n) <= Days(from, n)
    ensures forall d :: d in Occupied(requests, employee, from, n) ==>
              exists i :: 0 <= i < |requests| && Inside(requests[i], employee, from, n) && Overlap(d, d, requests[i])
  {
    if |requests| > 0 {
      var k := |requests| - 1;
      OccupiedBy(requests[..k], employee, from, n);
      forall d | d in Occupied(requests, employee, from, n)
        ensures exists i :: 0 <= i < |requests| && Inside(requests[i], employee, from, n) && Overlap(d, d, requests[i])
      {
        if d in Occupied(requests[..k], employee, from, n) {
          var i :| 0 <= i < k && Inside(requests[..k][i], employee, from, n) && Overlap(d, d, requests[..k][i]);
          assert Inside(requests[i], employee, from, n) && Overlap(d, d, requests[i]);
        } else {
          assert Inside(requests[k], employee, from, n) && Overlap(d, d, requests[k]);
        }
      }
    }
  }

  lemma {:induction false} BookedFitsOccupied(requests: seq<Request>, employee: nat, from: int, n: nat)
    requires Disjoint(requests) && forall i :: 0 <= i < |requests| ==> RequestOk(requests[i])
    ensures Sum(requests, DaysInside(employee, from, n)) <= DAY * |Occupied(requests, employee, from, n)|
  {
    if |requests| > 0 {
      var k := |requests| - 1;
      var r := requests[k];
      BookedFitsOccupied(requests[..k], employee, from, n);
      if Inside(r, employee, from, n) {
        var before, days := Occupied(requests[..k], employee, from, n), Days(r.start, r.end - r.start + 1);
        OccupiedBy(requests[..k], employee, from, n);
        forall d | d in before
          ensures d !in days
        {
          var i :| 0 <= i < k && Inside(requests[..k][i], employee, from, n) && Overlap(d, d, requests[..k][i]);
          assert !Overlap(requests[i].start, requests[i].end, r);
        }
        assert before !! days;
        assert |before + days| == |before| + |days|;
      }
    }
  }

  /**
   * In every reachable state an employee's live requests have pairwise disjoint ranges, so those inside any span
   * of n days add up to at most n days.
   */
  lemma {:induction false} LivePacking(ops: seq<Op>, employee: nat, from: int, n: nat)
    ensures Inv(Run(INITIAL, ops))
    ensures Sum(Run(INITIAL, ops).requests, DaysInside(employee, from, n)) <= DAY * n
  {
    assert Inv(INITIAL);
    hide Disjoint, Run;
    RunKeepsInv(INITIAL, ops);
    var requests := Run(INITIAL, ops).requests;
    BookedFitsOccupied(requests, employee, from, n);
    OccupiedBy(requests, employee, from, n);
    var occupied, span := Occupied(requests, employee, from, n), Days(from, n);
    assert span == occupied + (span - occupied) && occupied !! span - occupied;
  }

  // ---------------------------------------------------------------------------
  // Used days
  // ---------------------------------------------------------------------------

  function ApprovedDays(key: Key): Request -> int {
    (r: Request) => if r.status == HrApproved && KeyOf(r) == key then r.totalDays else 0
  }

  /** The used days of each balance are those of its approved requests. */
  ghost predicate UsedIsApproved(s: State) {
    forall key: Key :: At(s.used, key) == Sum(s.requests, ApprovedDays(key))
  }

  /** A manager approves, or anyone rejects, what HR has already approved. */
  predicate LosesApproval(s: State, op: Op) {
    match op
    case OpApprove(id, asManager) => asManager && id < |s.requests| && s.requests[id].status == HrApproved
    case OpReject(id) => id < |s.requests| && s.requests[id].status == HrApproved
    case _ => false
  }

  lemma {:induction false} StatusChangeMovesApproved(requests: seq<Request>, id: nat, status: Status, key: Key)
    requires id < |requests|
    ensures Sum(requests[id := requests[id].(status := status)], ApprovedDays(key))
         == Sum(requests, ApprovedDays(key)) - ApprovedDays(key)(requests[id])
          + ApprovedDays(key)(requests[id].(status := status))
  {
    SumUpdate(requests, id, requests[id].(status := status), ApprovedDays(key));
  }

  /** Every call keeps the used days equal to the approved days, except exactly those two. */
  lemma {:induction false} UsedStaysApprovedIff(s: State, op: Op)
    requires Inv(s) && UsedIsApproved(s)
    ensures UsedIsApproved(Step(s, op).state) <==> !LosesApproval(s, op)
  {
    hide Sum, Disjoint;
    var t := Step(s, op).state;
    if LosesApproval(s, op) {
      var id := op.id;
      var key := KeyOf(s.requests[id]);
      StatusChangeMovesApproved(s.requests, id, t.requests[id].status, key);
      assert RequestOk(s.requests[id]);
      assert At(t.used, key) != Sum(t.requests, ApprovedDays(key));
    } else {
      forall key: Key
        ensures At(t.used, key) == Sum(t.requests, ApprovedDays(key))
      {
        match op
        case OpApply(a) =>
          if Step(s, op).reply == Done {
            SumAppend(s.requests, t.requests[|s.requests|], ApprovedDays(key));
          }
        case OpApprove(id, asManager) =>
          if id < |s.requests| { StatusChangeMovesApproved(s.requests, id, t.requests[id].status, key); }
        case OpReject(id) =>
          if id < |s.requests| { StatusChangeMovesApproved(s.requests, id, Rejected, key); }
        case OpCancel(id) =>
          if id < |s.requests| { StatusChangeMovesApproved(s.requests, id, Cancelled, key); }
        case _ =>
      }
    }
  }

  ghost predicate AlwaysUsedIsApproved(s: State, ops: seq<Op>)
    decreases |ops|
  {
    UsedIsApproved(s) && (|ops| == 0 || AlwaysUsedIsApproved(Step(s, ops[0]).state, ops[1..]))
  }

  predicate NeverLosesApproval(s: State, ops: seq<Op>)
    decreases |ops|
  {
    |ops| == 0 || (!LosesApproval(s, ops[0]) && NeverLosesApproval(Step(s, ops[0]).state, ops[1..]))
  }

  /** Used and approved days agree throughout a run exactly when it has neither of the two calls. */
  lemma {:induction false} UsedIsApprovedThroughoutIff(s: State, ops: seq<Op>)
    requires Inv(s) && UsedIsApproved(s)
    ensures AlwaysUsedIsApproved(s, ops) <==> NeverLosesApproval(s, ops)
    decreases |ops|
  {
    hide Inv, Step, UsedIsApproved, LosesApproval;
    if |ops| > 0 {
      StepKeepsInv(s, ops[0]);
      UsedStaysApprovedIff(s, ops[0]);
      if !LosesApproval(s, ops[0]) {
        UsedIsApprovedThroughoutIff(Step(s, ops[0]).state, ops[1..]);
      }
    }
  }

  // ---------------------------------------------------------------------------
  // Calls, field by field
  // ---------------------------------------------------------------------------

  /** What the balance of a key still grants. */
  function Left(s: State, key: Key): int {
    (if key in s.granted then s.granted[key] else 0) - (if key in s.used then s.used[key] else 0)
  }

  /** Some day lies in both ranges. */
  ghost predicate ShareADay(start: int, end: int, r: Request) {
    exists d: int :: InRange(d, start, end) && InRange(d, r.start, r.end)
  }

  predicate InRange(d: int, start: int, end: int) {
    start <= d <= end
  }

  lemma {:induction false} OverlapIsSharedDay(start: int, end: int, r: Request)
    requires start <= end && r.start <= r.end
    ensures Overlap(start, end, r) <==> ShareADay(start, end, r)
  {
    if Overlap(start, end, r) {
      var d := if start <= r.start then r.start else start;
      assert InRange(d, start, end) && InRange(d, r.start, r.end);
    }
  }

  /**
   * A request is made exactly for a known employee and leave type, a range that shares no day with a live request of
   * the employee, a half day only where it is allowed, and enough balance; it costs half a day, or every day of its
   * range, and waits for a decision.
   */
  lemma {:induction false} ApplyLaw(s: State, a: Application)
    requires Inv(s)
    ensures var days := if a.halfDay then 50 else 100 * (a.end - a.start + 1);
            var after := Apply(s, a);
            && (after.reply == Done <==>
                  && a.kind < |s.kinds| && a.employee < s.employees && a.start <= a.end
                  && (a.halfDay ==> s.kinds[a.kind])
                  && (forall i :: 0 <= i < |s.requests| && s.requests[i].employee == a.employee
                                  && s.requests[i].status != Rejected && s.requests[i].status != Cancelled ==>
                        !ShareADay(a.start, a.end, s.requests[i]))
                  && Left(s, (a.employee, a.kind, a.year)) >= days)
            && (after.reply != Done ==> after.state == s)
            && (after.reply == Done ==>
                  after.state == s.(requests :=
                    s.requests + [Request(a.employee, a.kind, a.year, a.start, a.end, days, Pending)]))
  {
    if a.start <= a.end {
      forall i | 0 <= i < |s.requests|
        ensures Overlap(a.start, a.end, s.requests[i]) <==> ShareADay(a.start, a.end, s.requests[i])
      {
        assert RequestOk(s.requests[i]);
        OverlapIsSharedDay(a.start, a.end, s.requests[i]);
      }
    }
    hide Disjoint, ShareADay;
  }

  /** The request's status becomes `status`, its balance's used days change by `days`, and nothing else changes. */
  ghost predicate Decides(s: State, after: Outcome, id: nat, allowed: bool, status: Status, days: int) {
    && (after.reply == Done <==> id < |s.requests| && allowed)
    && (after.reply != Done ==> after.state == s)
    && (after.reply == Done ==>
          && after.state == s.(requests := s.requests[id := s.requests[id].(status := status)], used := after.state.used)
          && forall key: Key ::
               (if key in after.state.used then after.state.used[key] else 0)
               == (if key in s.used then s.used[key] else 0)
                + if key == (s.requests[id].employee, s.requests[id].kind, s.requests[id].year) then days else 0)
  }

  /**
   * A manager approves any live request, HR one that is pending or manager-approved, and only HR's approval uses days;
   * anything can be rejected or cancelled, and only cancelling what HR approved gives days back.
   */
  lemma {:induction false} DecisionLaws(s: State, id: nat)
    requires id < |s.requests|
    ensures var r := s.requests[id];
            && Decides(s, Approve(s, id, true), id, r.status != Rejected && r.status != Cancelled, ManagerApproved, 0)
            && Decides(s, Approve(s, id, false), id, r.status == Pending || r.status == ManagerApproved, HrApproved, r.totalDays)
            && Decides(s, Reject(s, id), id, true, Rejected, 0)
            && Decides(s, Cancel(s, id), id, true, Cancelled, if r.status == HrApproved then -r.totalDays else 0)
  {
  }

  /** A missing leave type or request; a missing employee is an error of the request. */
  lemma {:induction false} NotFoundIff(s: State, a: Application, id: nat, asManager: bool)
    ensures Apply(s, a).reply == NotFound <==> a.kind >= |s.kinds|
    ensures Approve(s, id, asManager).reply == NotFound <==> id >= |s.requests|
    ensures Reject(s, id).reply == (if id < |s.requests| then Done else NotFound)
    ensures Cancel(s, id).reply == (if id < |s.requests| then Done else NotFound)
  {
  }

  /** A grant adds to one balance and to no other. */
  lemma {:induction false} GrantLaw(s: State, key: Key, days: int)
    ensures var after := Step(s, OpGrant(key, days));
            && after.reply == Done && after.state == s.(granted := after.state.granted)
            && Left(after.state, key) == Left(s, key) + days
            && forall other: Key :: other != key ==> Left(after.state, other) == Left(s, other)
  {
  }

  // ---------------------------------------------------------------------------
  // The service
  // ---------------------------------------------------------------------------

  class Calendar {
    var employees: nat
    var kinds: seq<bool>
    var requests: seq<Request>
    var granted: map<Key, int>
    var used: map<Key, int>

    function View(): State
      reads this
    {
      State(employees, kinds, requests, granted, used)
    }

    constructor ()
      ensures View() == INITIAL
    {
      employees, kinds, requests, granted, used := 0, [], [], map[], map[];
    }

    method ApplyFor(a: Application) returns (reply: Reply)
      modifies this`requests
      ensures Outcome(View(), reply) == Apply(old(View()), a)
      ensures Upholds(old(View()), View())
      ensures Inv(old(View())) && UsedIsApproved(old(View())) ==> (UsedIsApproved(View()) <==> !LosesApproval(old(View()), OpApply(a)))
    {
      hide Upholds, Inv, UsedIsApproved, LosesApproval;
      StepUpholds(View(), OpApply(a));
      if Inv(View()) && UsedIsApproved(View()) { UsedStaysApprovedIff(View(), OpApply(a)); }
      if a.kind >= |kinds| { return NotFound; }
      var totalDays := TotalDays(a, kinds[a.kind]);
      if totalDays.Throws? { return Refused; }
      if a.end < a.start { return Refused; }
      if Taken(requests, a.employee, a.start, a.end) { return Refused; }
      if a.employee >= employees { return Refused; }
      var key := (a.employee, a.kind, a.year);
      if At(granted, key) - At(used, key) < totalDays.value { return Refused; }
      requests := requests + [Request(a.employee, a.kind, a.year, a.start, a.end, totalDays.value, Pending)];
      reply := Done;
    }

    method Decide(id: nat, asManager: bool) returns (reply: Reply)
      modifies this`requests, this`used
      ensures Outcome(View(), reply) == Approve(old(View()), id, asManager)
      ensures Upholds(old(View()), View())
      ensures Inv(old(View())) && UsedIsApproved(old(View())) ==> (UsedIsApproved(View()) <==> !LosesApproval(old(View()), OpApprove(id, asManager)))
    {
      hide Upholds, Inv, UsedIsApproved, LosesApproval;
      StepUpholds(View(), OpApprove(id, asManager));
      if Inv(View()) && UsedIsApproved(View()) { UsedStaysApprovedIff(View(), OpApprove(id, asManager)); }
      if id >= |requests| { return NotFound; }
      var r := requests[id];
      if r.status == Rejected || r.status == Cancelled { return Refused; }
      if asManager {
        requests := requests[id := r.(status := ManagerApproved)];
        return Done;
      }
      if r.status != ManagerApproved && r.status != Pending { return Refused; }
      used := used[KeyOf(r) := At(used, KeyOf(r)) + r.totalDays];
      requests := requests[id := r.(status := HrApproved)];
      reply := Done;
    }

    method Refuse(id: nat) returns (reply: Reply)
      modifies this`requests
      ensures Outcome(View(), reply) == Reject(old(View()), id)
      ensures Upholds(old(View()), View())
      ensures Inv(old(View())) && UsedIsApproved(old(View())) ==> (UsedIsApproved(View()) <==> !LosesApproval(old(View()), OpReject(id)))
    {
      hide Upholds, Inv, UsedIsApproved, LosesApproval;
      StepUpholds(View(), OpReject(id));
      if Inv(View()) && UsedIsApproved(View()) { UsedStaysApprovedIff(View(), OpReject(id)); }
      if id >= |requests| { return NotFound; }
      requests := requests[id := requests[id].(status := Rejected)];
      reply := Done;
    }

    method Withdraw(id: nat) returns (reply: Reply)
      modifies this`requests, this`used
      ensures Outcome(View(), reply) == Cancel(old(View()), id)
      ensures Upholds(old(View()), View())
      ensures Inv(old(View())) && UsedIsApproved(old(View())) ==> (UsedIsApproved(View()) <==> !LosesApproval(old(View()), OpCancel(id)))
    {
      hide Upholds, Inv, UsedIsApproved, LosesApproval;
      StepUpholds(View(), OpCancel(id));
      if Inv(View()) && UsedIsApproved(View()) { UsedStaysApprovedIff(View(), OpCancel(id)); }
      if id >= |requests| { return NotFound; }
      var r := requests[id];
      if r.status == HrApproved {
        used := used[KeyOf(r) := At(used, KeyOf(r)) - r.totalDays];
      }
      requests := requests[id := r.(status := Cancelled)];
      reply := Done;
    }
  }
}

/** The tree of accounts: parent pointers in a table keyed by position, and the walk that looks for cycles. */
module ChartOfAccounts {
  import opened Results

  datatype Account = Account(code: int, parent: Option<nat>, active: bool)

  type Table = seq<Account>

  datatype Outcome = Outcome(table: Table, reply: Reply)

  /** A field of an update: absent, null or a value. */
  datatype Change = Keep | Clear | Set(parent: nat)

  const INITIAL: Table := []

  function Next(table: Table, account: nat): Option<nat> {
    if account < |table| then table[account].parent else None
  }

  /** Where n steps towards the root lead. */
  function Walk(table: Table, start: Option<nat>, n: nat): Option<nat> {
    if n == 0 then start else
      match Walk(table, start, n - 1)
      case None => None
      case Some(account) => Next(table, account)
  }

  ghost predicate Ends(table: Table, start: Option<nat>) {
    exists n: nat :: Walk(table, start, n) == None
  }

  ghost predicate Reaches(table: Table, start: Option<nat>, account: nat) {
    exists n: nat :: Walk(table, start, n) == Some(account)
  }

  /** Every account's walk ends at a root. */
  ghost predicate Forest(table: Table) {
    forall i: nat :: i < |table| ==> Ends(table, Some(i))
  }

  ghost predicate ParentsExist(table: Table) {
    forall i :: 0 <= i < |table| && table[i].parent.Some? ==> table[i].parent.value < |table|
  }

  ghost predicate CodesDiffer(table: Table) {
    forall i, j :: 0 <= i < j < |table| ==> table[i].code != table[j].code
  }

  ghost predicate Inv(table: Table) {
    Forest(table) && ParentsExist(table) && CodesDiffer(table)
  }

  // ---------------------------------------------------------------------------
  // Calls
  // ---------------------------------------------------------------------------

  predicate CodeTaken(table: Table, code: int, exempt: int) {
    exists i :: 0 <= i < |table| && i != exempt && table[i].code == code
  }

  function CreateAccount(table: Table, code: int, parent: Option<nat>): Outcome {
    if parent.Some? && parent.value >= |table| then Outcome(table, NotFound)
    else if CodeTaken(table, code, -1) then Outcome(table, Refused)
    else Outcome(table + [Account(code, parent, true)], Done)
  }

  /** The walk from the new parent must end and must not meet the account. */
  ghost predicate Acceptable(table: Table, id: nat, parent: nat) {
    Ends(table, Some(parent)) && !Reaches(table, Some(parent), id)
  }

  ghost function UpdateAccount(table: Table, id: nat, code: Option<int>, parent: Change, active: Option<bool>): Outcome {
    if id >= |table| then Outcome(table, NotFound)
    else if parent.Set? && !Acceptable(table, id, parent.parent) then Outcome(table, Refused)
    else if parent.Set? && parent.parent >= |table| then Outcome(table, Refused)
    else if code.Some? && CodeTaken(table, code.value, id) then Outcome(table, Refused)
    else
      var row := table[id];
      var updated := Account(
        if code.Some? then code.value else row.code,
        match parent { case Keep => row.parent case Clear => None case Set(p) => Some(p) },
        if active.Some? then active.value else row.active);
      Outcome(table[id := updated], Done)
  }

  /** Removal only deactivates; lines and children forbid it. */
  function RemoveAccount(table: Table, id: nat, hasLines: bool): Outcome {
    if id >= |table| then Outcome(table, NotFound)
    else if hasLines || (exists i :: 0 <= i < |table| && table[i].parent == Some(id)) then Outcome(table, Refused)
    else Outcome(table[id := table[id].(active := false)], Done)
  }

  datatype Op =
    | OpCreate(code: int, under: Option<nat>)
    | OpUpdate(id: nat, newCode: Option<int>, parent: Change, active: Option<bool>)
    | OpRemove(id: nat, hasLines: bool)

  ghost function Step(table: Table, op: Op): Outcome {
    match op
    case OpCreate(code, parent) => CreateAccount(table, code, parent)
    case OpUpdate(id, code, parent, active) => UpdateAccount(table, id, code, parent, active)
    case OpRemove(id, hasLines) => RemoveAccount(table, id, hasLines)
  }

  ghost function Run(table: Table, ops: seq<Op>): Table
    decreases |ops|
  {
    if |ops| == 0 then table else Run(Step(table, ops[0]).table, ops[1..])
  }

  // ---------------------------------------------------------------------------
  // Walks
  // ---------------------------------------------------------------------------

  lemma {:induction false} WalkOn(table: Table, start: Option<nat>, m: nat, n: nat)
    ensures Walk(table, start, m + n) == Walk(table, Walk(table, start, m), n)
  {
    if n > 0 {
      WalkOn(table, start, m, n - 1);
    }
  }

  lemma {:induction false} EndedStaysEnded(table: Table, n: nat)
    ensures Walk(table, None, n) == None
  {
    if n > 0 {
      EndedStaysEnded(table, n - 1);
    }
  }

  /** A walk that comes back to an account goes round for ever. */
  lemma {:induction false} CycleNeverEnds(table: Table, start: Option<nat>, d: nat, n: nat)
    requires start.Some? && d > 0 && Walk(table, start, d) == start
    ensures Walk(table, start, n) != None
  {
    if n < d {
      WalkOn(table, start, n, d - n);
      EndedStaysEnded(table, d - n);
    } else {
      CycleNeverEnds(table, start, d, n - d);
      WalkOn(table, start, d, n - d);
    }
  }

  /** A walk that meets an account twice never ends. */
  lemma {:induction false} RepeatNeverEnds(table: Table, start: Option<nat>, i: nat, j: nat)
    requires i < j && Walk(table, start, i).Some? && Walk(table, start, i) == Walk(table, start, j)
    ensures !Ends(table, start)
  {
    var again := Walk(table, start, i);
    WalkOn(table, start, i, j - i);
    forall n: nat
      ensures Walk(table, start, n) != None
    {
      if n <= i {
        WalkOn(table, start, n, i - n);
        EndedStaysEnded(table, i - n);
      } else {
        WalkOn(table, start, i, n - i);
        CycleNeverEnds(table, again, j - i, n - i);
      }
    }
  }

  lemma {:induction false} WalkStaysInside(table: Table, start: Option<nat>, n: nat)
    requires ParentsExist(table) && (start.Some? ==> start.value < |table|)
    ensures Walk(table, start, n).Some? ==> Walk(table, start, n).value < |table|
  {
  }

  /** Tables that differ in one account agree on walks that do not pass through it. */
  lemma {:induction false} WalkAvoids(table: Table, table': Table, id: nat, start: Option<nat>, n: nat)
    requires |table| <= |table'| && forall i :: 0 <= i < |table| && i != id ==> table'[i].parent == table[i].parent
    requires ParentsExist(table) && (start.Some? ==> start.value < |table|)
    requires forall k :: 0 <= k < n ==> Walk(table, start, k) != Some(id)
    ensures Walk(table', start, n) == Walk(table, start, n)
  {
    if n > 0 {
      WalkAvoids(table, table', id, start, n - 1);
      WalkStaysInside(table, start, n - 1);
    }
  }

  lemma {:induction false} FirstMeeting(table: Table, start: Option<nat>, id: nat, n: nat) returns (k: nat)
    requires Walk(table, start, n) == Some(id)
    ensures k <= n && Walk(table, start, k) == Some(id)
    ensures forall i :: 0 <= i < k ==> Walk(table, start, i) != Some(id)
  {
    if i: nat :| i < n && Walk(table, start, i) == Some(id) {
      k := FirstMeeting(table, start, id, i);
    } else {
      k := n;
    }
  }

  // ---------------------------------------------------------------------------
  // A new parent
  // ---------------------------------------------------------------------------

  ghost predicate Reparented(table: Table, table': Table, id: nat, parent: Option<nat>) {
    && |table'| == |table| && id < |table| && table'[id].parent == parent
    && forall i :: 0 <= i < |table| && i != id ==> table'[i].parent == table[i].parent
  }

  lemma {:induction false} AvoidingWalkEnds(table: Table, table': Table, id: nat, parent: Option<nat>, start: Option<nat>)
    requires Reparented(table, table', id, parent) && ParentsExist(table)
    requires start.Some? ==> start.value < |table|
    requires Ends(table, start) && !Reaches(table, start, id)
    ensures Ends(table', start)
  {
    var n: nat :| Walk(table, start, n) == None;
    WalkAvoids(table, table', id, start, n);
  }

  lemma {:induction false} MeetingWalkEnds(table: Table, table': Table, id: nat, parent: Option<nat>, i: nat, m: nat)
    requires Reparented(table, table', id, parent) && ParentsExist(table) && i < |table|
    requires Reaches(table, Some(i), id) && Walk(table', parent, m) == None
    ensures Ends(table', Some(i))
  {
    var n: nat :| Walk(table, Some(i), n) == Some(id);
    var k := FirstMeeting(table, Some(i), id, n);
    WalkAvoids(table, table', id, Some(i), k);
    assert Walk(table', Some(i), k + 1) == parent;
    WalkOn(table', Some(i), k + 1, m);
  }

  lemma {:induction false} NewParentKeepsForest(table: Table, table': Table, id: nat, parent: Option<nat>)
    requires Forest(table) && ParentsExist(table) && Reparented(table, table', id, parent)
    requires parent.Some? ==> parent.value < |table| && !Reaches(table, parent, id)
    ensures Forest(table')
  {
    if parent.None? {
      assert Walk(table', parent, 0) == None;
    } else {
      AvoidingWalkEnds(table, table', id, parent, parent);
    }
    var m: nat :| Walk(table', parent, m) == None;
    forall i: nat | i < |table'|
      ensures Ends(table', Some(i))
    {
      if Reaches(table, Some(i), id) {
        MeetingWalkEnds(table, table', id, parent, i, m);
      } else {
        AvoidingWalkEnds(table, table', id, parent, Some(i));
      }
    }
  }

  /** A parent that is the account or lies below it closes a cycle. */
  lemma {:induction false} DescendantParentBreaksForest(table: Table, table': Table, id: nat, parent: nat)
    requires ParentsExist(table) && parent < |table| && Reparented(table, table', id, Some(parent))
    requires Reaches(table, Some(parent), id)
    ensures !Forest(table')
  {
    var n: nat :| Walk(table, Some(parent), n) == Some(id);
    var k := FirstMeeting(table, Some(parent), id, n);
    WalkAvoids(table, table', id, Some(parent), k);
    assert Walk(table', Some(id), 1) == Some(parent) by {
      assert Walk(table', Some(id), 0) == Some(id);
    }
    WalkOn(table', Some(id), 1, k);
    assert Walk(table', Some(id), 0) == Walk(table', Some(id), 1 + k);
    RepeatNeverEnds(table', Some(id), 0, 1 + k);
  }

  /**
   * On a forest an update with a new parent is refused exactly when the parent does not exist, is the account
   * itself or one of its descendants, or the code is taken. Otherwise, and only otherwise, the result would be
   * a forest again.
   */
  lemma {:induction false} ReparentingIffForest(table: Table, id: nat, parent: nat)
    requires Inv(table) && id < |table| && parent < |table|
    ensures UpdateAccount(table, id, None, Set(parent), None).reply == Done <==> !Reaches(table, Some(parent), id)
    ensures !Reaches(table, Some(parent), id) <==> Forest(table[id := table[id].(parent := Some(parent))])
  {
    var table' := table[id := table[id].(parent := Some(parent))];
    if Reaches(table, Some(parent), id) {
      DescendantParentBreaksForest(table, table', id, parent);
    } else {
      NewParentKeepsForest(table, table', id, Some(parent));
    }
  }

  // ---------------------------------------------------------------------------
  // Runs
  // ---------------------------------------------------------------------------

  lemma {:induction false} CreateKeepsInv(table: Table, code: int, parent: Option<nat>)
    requires Inv(table)
    ensures Inv(CreateAccount(table, code, parent).table)
  {
    var table' := CreateAccount(table, code, parent).table;
    if CreateAccount(table, code, parent).reply == Done {
      forall i: nat | i < |table'|
        ensures Ends(table', Some(i))
      {
        if i < |table| {
          OldWalkEnds(table, table', i);
        } else if parent.None? {
          assert Walk(table', Some(i), 0) == Some(i);
          assert Walk(table', Some(i), 1) == None;
        } else {
          OldWalkEnds(table, table', parent.value);
          var n: nat :| Walk(table', parent, n) == None;
          assert Walk(table', Some(i), 0) == Some(i);
          assert Walk(table', Some(i), 1) == parent;
          WalkOn(table', Some(i), 1, n);
        }
      }
    }
  }

  lemma {:induction false} OldWalkEnds(table: Table, table': Table, i: nat)
    requires Forest(table) && ParentsExist(table) && i < |table| <= |table'|
    requires forall j :: 0 <= j < |table| ==> table'[j].parent == table[j].parent
    ensures Ends(table', Some(i))
  {
    assert Ends(table, Some(i));
    var n: nat :| Walk(table, Some(i), n) == None;
    WalkAvoids(table, table', |table|, Some(i), n);
  }

  lemma {:induction false} StepKeepsInv(table: Table, op: Op)
    requires Inv(table)
    ensures Inv(Step(table, op).table)
  {
    var table' := Step(table, op).table;
    match op
    case OpCreate(code, parent) => CreateKeepsInv(table, code, parent);
    case OpUpdate(id, code, parent, active) =>
      if Step(table, op).reply == Done {
        if parent.Keep? {
          forall i: nat | i < |table|
            ensures Ends(table', Some(i))
          {
            OldWalkEnds(table, table', i);
          }
        } else {
          NewParentKeepsForest(table, table', id, table'[id].parent);
        }
      }
    case OpRemove(id, hasLines) =>
      forall i: nat | i < |table|
        ensures Ends(table', Some(i))
      {
        OldWalkEnds(table, table', i);
      }
  }

  /** In every reachable state the parent pointers form a forest, within the table. */
  lemma {:induction false} RunKeepsInv(table: Table, ops: seq<Op>)
    requires Inv(table)
    ensures Inv(Run(table, ops))
    decreases |ops|
  {
    hide Inv, Step;
    if |ops| > 0 {
      StepKeepsInv(table, ops[0]);
      RunKeepsInv(Step(table, ops[0]).table, ops[1..]);
    }
  }

  // ---------------------------------------------------------------------------
  // Calls, field by field
  // ---------------------------------------------------------------------------

  /** A way up from one account to another, along the parents in the table. */
  ghost predicate IsPath(table: Table, path: seq<nat>, from: nat, to: nat) {
    && |path| > 0 && path[0] == from && path[|path| - 1] == to
    && forall i :: 0 <= i < |path| - 1 ==> path[i] < |table| && table[path[i]].parent == Some(path[i + 1])
  }

  /** The account is `to` or one of its descendants. */
  ghost predicate LiesBelow(table: Table, from: nat, to: nat) {
    exists path: seq<nat> :: IsPath(table, path, from, to)
  }

  lemma {:induction false} PathIsWalk(table: Table, path: seq<nat>, from: nat, to: nat, k: nat)
    requires IsPath(table, path, from, to) && k < |path|
    ensures Walk(table, Some(from), k) == Some(path[k])
  {
    if k > 0 {
      PathIsWalk(table, path, from, to, k - 1);
    }
  }

  lemma {:induction false} WalkIsPath(table: Table, from: nat, n: nat) returns (path: seq<nat>)
    requires Walk(table, Some(from), n).Some?
    ensures |path| == n + 1 && IsPath(table, path, from, Walk(table, Some(from), n).value)
  {
    if n == 0 {
      path := [from];
    } else {
      var before := WalkIsPath(table, from, n - 1);
      path := before + [Walk(table, Some(from), n).value];
    }
  }

  lemma {:induction false} ReachesIffBelow(table: Table, from: nat, to: nat)
    ensures Reaches(table, Some(from), to) <==> LiesBelow(table, from, to)
  {
    if Reaches(table, Some(from), to) {
      var n: nat :| Walk(table, Some(from), n) == Some(to);
      var path := WalkIsPath(table, from, n);
    }
    if LiesBelow(table, from, to) {
      var path: seq<nat> :| IsPath(table, path, from, to);
      PathIsWalk(table, path, from, to, |path| - 1);
    }
  }

  /** In every reachable table no way up leads from an account back to it. */
  lemma {:induction false} NoParentCycle(ops: seq<Op>, path: seq<nat>, account: nat)
    requires |path| > 1
    ensures !IsPath(Run(INITIAL, ops), path, account, account)
  {
    var table := Run(INITIAL, ops);
    assert Inv(INITIAL);
    RunKeepsInv(INITIAL, ops);
    if IsPath(table, path, account, account) {
      assert path[0] < |table|;
      assert Ends(table, Some(account));
      PathIsWalk(table, path, account, account, |path| - 1);
      RepeatNeverEnds(table, Some(account), 0, |path| - 1);
      assert false;
    }
  }

  /**
   * On a forest an update is done exactly when the account exists, a given parent exists and does not lie below the
   * account, and a given code is free; it changes the given fields of that account alone.
   */
  lemma {:induction false} UpdateLaw(table: Table, id: nat, code: Option<int>, parent: Change, active: Option<bool>)
    requires Inv(table)
    ensures var after := UpdateAccount(table, id, code, parent, active);
            && (after.reply == Done <==>
                  && id < |table|
                  && (parent.Set? ==> parent.parent < |table| && !LiesBelow(table, parent.parent, id))
                  && (code.Some? ==> forall i :: 0 <= i < |table| && i != id ==> table[i].code != code.value))
            && (after.reply != Done ==> after.table == table)
            && (after.reply == Done ==>
                  && |after.table| == |table|
                  && (forall i :: 0 <= i < |table| && i != id ==> after.table[i] == table[i])
                  && after.table[id].code == (if code.Some? then code.value else table[id].code)
                  && after.table[id].active == (if active.Some? then active.value else table[id].active)
                  && (parent == Keep ==> after.table[id].parent == table[id].parent)
                  && (parent == Clear ==> after.table[id].parent == None)
                  && (parent.Set? ==> after.table[id].parent == Some(parent.parent)))
  {
    if parent.Set? {
      ReachesIffBelow(table, parent.parent, id);
      if parent.parent < |table| {
        assert Ends(table, Some(parent.parent));
      }
    }
    hide Reaches, LiesBelow;
  }

  lemma {:induction false} CreateAndRemoveLaws(table: Table, code: int, parent: Option<nat>, id: nat, hasLines: bool)
    ensures var after := CreateAccount(table, code, parent);
            && (after.reply == Done <==>
                  (parent.Some? ==> parent.value < |table|) && forall i :: 0 <= i < |table| ==> table[i].code != code)
            && after.table == if after.reply == Done then table + [Account(code, parent, true)] else table
    ensures var after := RemoveAccount(table, id, hasLines);
            && (after.reply == Done <==>
                  id < |table| && !hasLines && forall i :: 0 <= i < |table| ==> table[i].parent != Some(id))
            && (after.reply == Done ==>
                  after.table == table[id := Account(table[id].code, table[id].parent, false)])
            && (after.reply != Done ==> after.table == table)
  {
  }

  /** A missing account, or a missing parent of a new one; an update's missing parent is an error of the request. */
  lemma {:induction false} NotFoundIff(table: Table, id: nat, code: int, parent: Option<nat>, change: Change, hasLines: bool)
    ensures CreateAccount(table, code, parent).reply == NotFound <==> parent.Some? && parent.value >= |table|
    ensures UpdateAccount(table, id, Some(code), change, None).reply == NotFound <==> id >= |table|
    ensures RemoveAccount(table, id, hasLines).reply == NotFound <==> id >= |table|
  {
  }

  // ---------------------------------------------------------------------------
  // The service
  // ---------------------------------------------------------------------------

  function Keys(n: nat): (keys: set<nat>)
    ensures forall i: nat :: i in keys <==> i < n
  {
    if n == 0 then {} else Keys(n - 1) + {n - 1}
  }

  /** The seen accounts: the account and the first n of the walk, which have not met it. */
  ghost predicate Trail(table: Table, start: Option<nat>, id: nat, seen: set<nat>, n: nat) {
    && id in seen
    && (forall k: nat :: k < n ==>
          Walk(table, start, k).Some? && Walk(table, start, k).value in seen && Walk(table, start, k) != Some(id))
    && (forall a :: a in seen && a != id ==> exists k: nat :: k < n && Walk(table, start, k) == Some(a))
  }

  lemma {:induction false} TrailGrows(table: Table, start: Option<nat>, id: nat, seen: set<nat>, n: nat)
    requires Trail(table, start, id, seen, n) && Walk(table, start, n).Some? && Walk(table, start, n).value !in seen
    ensures Trail(table, start, id, seen + {Walk(table, start, n).value}, n + 1)
  {
    var more := seen + {Walk(table, start, n).value};
    forall a | a in more && a != id
      ensures exists k: nat :: k < n + 1 && Walk(table, start, k) == Some(a)
    {
      if a in seen {
        var k: nat :| k < n && Walk(table, start, k) == Some(a);
      } else {
        assert Walk(table, start, n) == Some(a);
      }
    }
  }

  lemma {:induction false} SeenAgain(table: Table, start: Option<nat>, id: nat, seen: set<nat>, n: nat)
    requires Trail(table, start, id, seen, n) && Walk(table, start, n).Some? && Walk(table, start, n).value in seen
    ensures Walk(table, start, n) == Some(id) || !Ends(table, start)
  {
    var account := Walk(table, start, n).value;
    if account != id {
      var k: nat :| k < n && Walk(table, start, k) == Some(account);
      RepeatNeverEnds(table, start, k, n);
    }
  }

  lemma {:induction false} TrailEnded(table: Table, start: Option<nat>, id: nat, seen: set<nat>, n: nat)
    requires Trail(table, start, id, seen, n) && Walk(table, start, n) == None
    ensures Ends(table, start) && !Reaches(table, start, id)
  {
    forall k: nat
      ensures Walk(table, start, k) != Some(id)
    {
      if k >= n {
        WalkOn(table, start, n, k - n);
        EndedStaysEnded(table, k - n);
      }
    }
  }

  /**
   * The walk over any table, cyclic or not. It ends because every step marks an unseen account, or leaves the
   * table.
   */
  method AssertNoCycle(table: Table, id: nat, parent: nat) returns (reply: Reply)
    ensures reply == if Acceptable(table, id, parent) then Done else Refused
  {
    var cursor := Some(parent);
    var seen := {id};
    ghost var n: nat := 0;
    while cursor.Some?
      invariant cursor == Walk(table, Some(parent), n)
      invariant Trail(table, Some(parent), id, seen, n)
      decreases Keys(|table|) - seen, cursor.Some?
    {
      var account := cursor.value;
      if account in seen {
        SeenAgain(table, Some(parent), id, seen, n);
        return Refused;
      }
      TrailGrows(table, Some(parent), id, seen, n);
      seen := seen + {account};
      cursor := Next(table, account);
      n := n + 1;
    }
    TrailEnded(table, Some(parent), id, seen, n);
    reply := Done;
  }

  class Chart {
    var table: Table

    constructor ()
      ensures table == INITIAL
    {
      table := INITIAL;
    }

    method Create(code: int, parent: Option<nat>) returns (reply: Reply)
      modifies this
      ensures Outcome(table, reply) == CreateAccount(old(table), code, parent)
      ensures Inv(old(table)) ==> Inv(table)
    {
      hide Inv;
      if Inv(table) { StepKeepsInv(table, OpCreate(code, parent)); }
      if parent.Some? && parent.value >= |table| { return NotFound; }
      if CodeTaken(table, code, -1) { return Refused; }
      table := table + [Account(code, parent, true)];
      reply := Done;
    }

    method Update(id: nat, code: Option<int>, parent: Change, active: Option<bool>) returns (reply: Reply)
      modifies this
      ensures Outcome(table, reply) == UpdateAccount(old(table), id, code, parent, active)
      ensures Inv(old(table)) ==> Inv(table)
    {
      hide Inv;
      if Inv(table) { StepKeepsInv(table, OpUpdate(id, code, parent, active)); }
      if id >= |table| { return NotFound; }
      if parent.Set? {
        if parent.parent == id {
          assert Walk(table, Some(id), 0) == Some(id);
          return Refused;
        }
        reply := AssertNoCycle(table, id, parent.parent);
        if reply != Done { return; }
        if parent.parent >= |table| { return Refused; }
      }
      if code.Some? && CodeTaken(table, code.value, id) { return Refused; }
      var row := table[id];
      if code.Some? { row := row.(code := code.value); }
      match parent {
        case Keep =>
        case Clear => row := row.(parent := None);
        case Set(p) => row := row.(parent := Some(p));
      }
      if active.Some? { row := row.(active := active.value); }
      table := table[id := row];
      reply := Done;
    }

    method Remove(id: nat, hasLines: bool) returns (reply: Reply)
      modifies this
      ensures Outcome(table, reply) == RemoveAccount(old(table), id, hasLines)
      ensures Inv(old(table)) ==> Inv(table)
    {
      hide Inv;
      if Inv(table) { StepKeepsInv(table, OpRemove(id, hasLines)); }
      if id >= |table| { return NotFound; }
      if hasLines || exists i :: 0 <= i < |table| && table[i].parent == Some(id) { return Refused; }
      table := table[id := table[id].(active := false)];
      reply := Done;
    }
  }
}

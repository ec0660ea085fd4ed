/**
 * Role tables and the permission cache in front of them. Users, roles and permissions are numbered; times are
 * milliseconds. Any Redis command may fail without the caller noticing: a read that fails falls through to the
 * database, a write that fails stores nothing, and `missed` are the users whose key a deletion leaves in place.
 */
module PermissionCache {
  import opened Results

  const TTL := 300_000

  datatype Cached = Cached(permissions: set<nat>, expiresAt: int)

  datatype Tables = Tables(
    users: nat, permissions: nat, roles: seq<bool>,
    userRoles: set<(nat, nat)>, rolePermissions: set<(nat, nat)>)

  datatype State = State(tables: Tables, cache: map<nat, Cached>)

  datatype Call =
    | Get(user: nat, readable: bool, storable: bool)
    | CreateUser(grants: seq<nat>, missed: set<nat>)
    | SetRoles(user: nat, grants: seq<nat>, missed: set<nat>)
    | AssignRole(user: nat, role: nat, missed: set<nat>)
    | RemoveRole(user: nat, role: nat, missed: set<nat>)
    | Invalidate(user: nat, missed: set<nat>)
    | CreateRole
    | DeleteRole(role: nat)
    | AddPermission(role: nat, permission: nat, missed: set<nat>)
    | RemovePermission(role: nat, permission: nat, missed: set<nat>)

  datatype Op = Op(at: int, call: Call)

  datatype Answer = Changed(reply: Reply) | Permissions(value: set<nat>)

  datatype Outcome = Outcome(state: State, answer: Answer)

  // ---------------------------------------------------------------------------
  // Tables
  // ---------------------------------------------------------------------------

  /** The permissions of a user's roles. */
  function PermissionsOf(t: Tables, user: nat): set<nat> {
    set ur, rp | ur in t.userRoles && rp in t.rolePermissions && ur.0 == user && rp.0 == ur.1 :: rp.1
  }

  function UsersWith(t: Tables, role: nat): set<nat> {
    set ur | ur in t.userRoles && ur.1 == role :: ur.0
  }

  predicate RoleExists(t: Tables, role: nat) {
    role < |t.roles| && t.roles[role]
  }

  predicate RolesExist(t: Tables, roles: seq<nat>) {
    forall i :: 0 <= i < |roles| ==> RoleExists(t, roles[i])
  }

  predicate NoDuplicates(roles: seq<nat>) {
    forall i, j :: 0 <= i < j < |roles| ==> roles[i] != roles[j]
  }

  function Grants(user: nat, roles: seq<nat>): set<(nat, nat)> {
    set i | 0 <= i < |roles| :: (user, roles[i])
  }

  function WithoutUser(userRoles: set<(nat, nat)>, user: nat): set<(nat, nat)> {
    set ur | ur in userRoles && ur.0 != user
  }

  function WithoutRole(rolePermissions: set<(nat, nat)>, role: nat): set<(nat, nat)> {
    set rp | rp in rolePermissions && rp.0 != role
  }

  // ---------------------------------------------------------------------------
  // Cache
  // ---------------------------------------------------------------------------

  predicate Alive(c: Cached, now: int) {
    now <= c.expiresAt
  }

  predicate Hit(cache: map<nat, Cached>, user: nat, now: int) {
    user in cache && Alive(cache[user], now)
  }

  /** Deletes the keys of the users, except those missed. */
  function Forget(cache: map<nat, Cached>, users: set<nat>, missed: set<nat>): map<nat, Cached> {
    map u | u in cache && (u !in users || u in missed) :: cache[u]
  }

  // ---------------------------------------------------------------------------
  // Calls
  // ---------------------------------------------------------------------------

  function Refuse(s: State, reply: Reply): Outcome {
    Outcome(s, Changed(reply))
  }

  function Change(s: State, tables: Tables, users: set<nat>, missed: set<nat>): Outcome {
    Outcome(State(tables, Forget(s.cache, users, missed)), Changed(Done))
  }

  function GetPermissions(s: State, now: int, user: nat, readable: bool, storable: bool): Outcome {
    if readable && Hit(s.cache, user, now) then Outcome(s, Permissions(s.cache[user].permissions))
    else
      var permissions := PermissionsOf(s.tables, user);
      if storable then Outcome(s.(cache := s.cache[user := Cached(permissions, now + TTL)]), Permissions(permissions))
      else Outcome(s, Permissions(permissions))
  }

  /** An unknown role fails the second statement: the user stays, without roles. */
  function CreateUserWith(s: State, roles: seq<nat>, missed: set<nat>): Outcome {
    var t := s.tables;
    var user := t.users;
    var created := t.(users := user + 1);
    if |roles| == 0 then Outcome(s.(tables := created), Changed(Done))
    else if !RolesExist(t, roles) then Outcome(s.(tables := created), Changed(Refused))
    else Change(s, created.(userRoles := t.userRoles + Grants(user, roles)), {user}, missed)
  }

  function ReplaceRoles(s: State, user: nat, roles: seq<nat>, missed: set<nat>): Outcome {
    var t := s.tables;
    if user >= t.users then Refuse(s, NotFound)
    else if !RolesExist(t, roles) || !NoDuplicates(roles) then Refuse(s, Refused)
    else Change(s, t.(userRoles := WithoutUser(t.userRoles, user) + Grants(user, roles)), {user}, missed)
  }

  function Assign(s: State, user: nat, role: nat, missed: set<nat>): Outcome {
    var t := s.tables;
    if user >= t.users || !RoleExists(t, role) then Refuse(s, NotFound)
    else if (user, role) in t.userRoles then Refuse(s, Refused)
    else Change(s, t.(userRoles := t.userRoles + {(user, role)}), {user}, missed)
  }

  function Unassign(s: State, user: nat, role: nat, missed: set<nat>): Outcome {
    var t := s.tables;
    if (user, role) !in t.userRoles then Refuse(s, NotFound)
    else Change(s, t.(userRoles := t.userRoles - {(user, role)}), {user}, missed)
  }

  /** Deletion cascades to the role's permissions but touches no cache entry. */
  function DropRole(s: State, role: nat): Outcome {
    var t := s.tables;
    if !RoleExists(t, role) then Refuse(s, NotFound)
    else if UsersWith(t, role) != {} then Refuse(s, Refused)
    else Change(s, t.(roles := t.roles[role := false], rolePermissions := WithoutRole(t.rolePermissions, role)), {}, {})
  }

  function Grant(s: State, role: nat, permission: nat, missed: set<nat>): Outcome {
    var t := s.tables;
    if !RoleExists(t, role) || permission >= t.permissions then Refuse(s, NotFound)
    else if (role, permission) in t.rolePermissions then Refuse(s, Refused)
    else Change(s, t.(rolePermissions := t.rolePermissions + {(role, permission)}), UsersWith(t, role), missed)
  }

  function Revoke(s: State, role: nat, permission: nat, missed: set<nat>): Outcome {
    var t := s.tables;
    if (role, permission) !in t.rolePermissions then Refuse(s, NotFound)
    else Change(s, t.(rolePermissions := t.rolePermissions - {(role, permission)}), UsersWith(t, role), missed)
  }

  function Step(s: State, op: Op): Outcome {
    match op.call
    case Get(user, readable, storable) => GetPermissions(s, op.at, user, readable, storable)
    case CreateUser(roles, missed) => CreateUserWith(s, roles, missed)
    case SetRoles(user, roles, missed) => ReplaceRoles(s, user, roles, missed)
    case AssignRole(user, role, missed) => Assign(s, user, role, missed)
    case RemoveRole(user, role, missed) => Unassign(s, user, role, missed)
    case Invalidate(user, missed) => Change(s, s.tables, {user}, missed)
    case CreateRole => Change(s, s.tables.(roles := s.tables.roles + [true]), {}, {})
    case DeleteRole(role) => DropRole(s, role)
    case AddPermission(role, permission, missed) => Grant(s, role, permission, missed)
    case RemovePermission(role, permission, missed) => Revoke(s, role, permission, missed)
  }

  /** The state after the first n calls, over the given number of permissions. */
  function StateAfter(permissions: nat, ops: seq<Op>, n: nat): State
    requires n <= |ops|
  {
    if n == 0 then State(Tables(0, permissions, [], {}, {}), map[])
    else Step(StateAfter(permissions, ops, n - 1), ops[n - 1]).state
  }

  predicate Clocked(ops: seq<Op>) {
    forall i, j :: 0 <= i < j < |ops| ==> ops[i].at <= ops[j].at
  }

  // ---------------------------------------------------------------------------
  // Coherence
  // ---------------------------------------------------------------------------

  function Missed(call: Call): set<nat> {
    match call
    case CreateUser(_, missed) => missed
    case SetRoles(_, _, missed) => missed
    case AssignRole(_, _, missed) => missed
    case RemoveRole(_, _, missed) => missed
    case Invalidate(_, missed) => missed
    case AddPermission(_, _, missed) => missed
    case RemovePermission(_, _, missed) => missed
    case _ => {}
  }

  ghost predicate Coherent(s: State) {
    forall u :: u in s.cache ==> s.cache[u].permissions == PermissionsOf(s.tables, u)
  }

  /** The cached among the users keep their permissions. */
  ghost predicate Unaffected(s: State, t: State, users: set<nat>) {
    forall u :: u in users && u in s.cache ==> PermissionsOf(t.tables, u) == PermissionsOf(s.tables, u)
  }

  /** So do those whose key the call's deletion left in place. */
  ghost predicate MissedUnaffected(s: State, op: Op) {
    Unaffected(s, Step(s, op).state, Missed(op.call))
  }

  /** A call keeps the cache coherent exactly when no user whose key it missed changes permissions. */
  lemma {:induction false} StepIsCoherentIff(s: State, op: Op)
    requires Coherent(s)
    ensures Coherent(Step(s, op).state) <==> MissedUnaffected(s, op)
  {
  }

  predicate NoneMissed(ops: seq<Op>) {
    forall i :: 0 <= i < |ops| ==> Missed(ops[i].call) == {}
  }

  ghost predicate AlwaysCoherent(permissions: nat, ops: seq<Op>, n: nat)
    requires n <= |ops|
  {
    Coherent(StateAfter(permissions, ops, n)) && (n == 0 || AlwaysCoherent(permissions, ops, n - 1))
  }

  ghost predicate AlwaysUnaffected(permissions: nat, ops: seq<Op>, n: nat)
    requires n <= |ops|
  {
    n == 0 || (MissedUnaffected(StateAfter(permissions, ops, n - 1), ops[n - 1]) && AlwaysUnaffected(permissions, ops, n - 1))
  }

  /** The cache is coherent throughout a run exactly when no call of it misses a user whose permissions it changes. */
  lemma {:induction false} CoherentThroughoutIff(permissions: nat, ops: seq<Op>, n: nat)
    requires n <= |ops|
    ensures AlwaysCoherent(permissions, ops, n) <==> AlwaysUnaffected(permissions, ops, n)
  {
    if n > 0 {
      hide Step, Coherent, MissedUnaffected;
      CoherentThroughoutIff(permissions, ops, n - 1);
      if Coherent(StateAfter(permissions, ops, n - 1)) {
        StepIsCoherentIff(StateAfter(permissions, ops, n - 1), ops[n - 1]);
      }
    }
  }

  lemma {:induction false} NoneMissedAffectsNone(permissions: nat, ops: seq<Op>, n: nat)
    requires n <= |ops| && NoneMissed(ops)
    ensures AlwaysUnaffected(permissions, ops, n)
  {
    if n > 0 {
      NoneMissedAffectsNone(permissions, ops, n - 1);
    }
  }

  /** While no deletion is lost, every cached entry is exactly what the tables give. */
  lemma {:induction false} CacheIsCoherent(permissions: nat, ops: seq<Op>, n: nat)
    requires n <= |ops| && NoneMissed(ops)
    ensures Coherent(StateAfter(permissions, ops, n))
  {
    hide StateAfter, Coherent, AlwaysUnaffected;
    NoneMissedAffectsNone(permissions, ops, n);
    CoherentThroughoutIff(permissions, ops, n);
  }

  // ---------------------------------------------------------------------------
  // Bounded staleness
  // ---------------------------------------------------------------------------

  /** Among the first n calls there is one at which the tables gave this user these permissions. */
  ghost predicate TrueAt(permissions: nat, ops: seq<Op>, n: nat, user: nat, value: set<nat>, at: int) {
    exists i: nat :: i < n && n <= |ops| && ops[i].at == at && value == PermissionsOf(StateAfter(permissions, ops, i + 1).tables, user)
  }

  lemma {:induction false} TrueStays(permissions: nat, ops: seq<Op>, n: nat, user: nat, value: set<nat>, at: int)
    requires n < |ops| && TrueAt(permissions, ops, n, user, value, at)
    ensures TrueAt(permissions, ops, n + 1, user, value, at)
  {
  }

  /** Each entry was true when it was written. */
  ghost predicate EntriesWereTrue(permissions: nat, ops: seq<Op>, n: nat)
    requires n <= |ops|
  {
    var cache := StateAfter(permissions, ops, n).cache;
    forall u :: u in cache ==> TrueAt(permissions, ops, n, u, cache[u].permissions, cache[u].expiresAt - TTL)
  }

  lemma {:induction false} EntriesStayOrAreRead(s: State, op: Op, u: nat)
    requires u in Step(s, op).state.cache
    ensures var e := Step(s, op).state.cache[u];
            (u in s.cache && e == s.cache[u])
            || (e.expiresAt == op.at + TTL && e.permissions == PermissionsOf(Step(s, op).state.tables, u))
  {
  }

  lemma {:induction false} EntriesWereTrueAlways(permissions: nat, ops: seq<Op>, n: nat)
    requires n <= |ops|
    ensures EntriesWereTrue(permissions, ops, n)
  {
    hide Step, PermissionsOf;
    if n > 0 {
      EntriesWereTrueAlways(permissions, ops, n - 1);
      var s, t := StateAfter(permissions, ops, n - 1), StateAfter(permissions, ops, n);
      forall u | u in t.cache
        ensures TrueAt(permissions, ops, n, u, t.cache[u].permissions, t.cache[u].expiresAt - TTL)
      {
        EntriesStayOrAreRead(s, ops[n - 1], u);
        if u in s.cache && t.cache[u] == s.cache[u] {
          TrueStays(permissions, ops, n - 1, u, t.cache[u].permissions, t.cache[u].expiresAt - TTL);
        } else {
          assert ops[n - 1].at == t.cache[u].expiresAt - TTL;
        }
      }
    }
  }

  /**
   * Whatever Redis commands fail: the permissions a call returns are the true ones as they stood at some call
   * within the last 300 seconds.
   */
  lemma {:induction false} StaleForAtMostTtl(permissions: nat, ops: seq<Op>, n: nat)
    requires n < |ops| && Clocked(ops) && ops[n].call.Get?
    ensures var answer := Step(StateAfter(permissions, ops, n), ops[n]).answer;
            answer.Permissions? && exists i: nat ::
              i <= n && ops[n].at - TTL <= ops[i].at <= ops[n].at
              && answer.value == PermissionsOf(StateAfter(permissions, ops, i + 1).tables, ops[n].call.user)
  {
    hide PermissionsOf;
    var s, op := StateAfter(permissions, ops, n), ops[n];
    var user := op.call.user;
    if op.call.readable && Hit(s.cache, user, op.at) {
      var e := s.cache[user];
      EntriesWereTrueAlways(permissions, ops, n);
      var i: nat :| i < n && ops[i].at == e.expiresAt - TTL
                 && e.permissions == PermissionsOf(StateAfter(permissions, ops, i + 1).tables, user);
      assert ops[i].at <= op.at;
    } else {
      assert StateAfter(permissions, ops, n + 1).tables == s.tables;
      assert n <= n && ops[n].at == op.at;
    }
  }

  /** With no deletion lost a call returns exactly the current permissions. */
  lemma {:induction false} AnswersAreCurrent(permissions: nat, ops: seq<Op>, n: nat)
    requires n < |ops| && NoneMissed(ops) && ops[n].call.Get?
    ensures var s := StateAfter(permissions, ops, n);
            Step(s, ops[n]).answer == Permissions(PermissionsOf(s.tables, ops[n].call.user))
  {
    CacheIsCoherent(permissions, ops, n);
  }

  /** One lost deletion is enough: until the entry expires, calls return permissions the user no longer has. */
  lemma {:induction false} LostDeletionServesStale(s: State, user: nat, role: nat, at: int, later: int)
    requires Coherent(s) && Hit(s.cache, user, later) && (user, role) in s.tables.userRoles
    ensures var removed := Step(s, Op(at, RemoveRole(user, role, {user}))).state;
            var answer := Step(removed, Op(later, Get(user, true, true))).answer;
            && answer == Permissions(PermissionsOf(s.tables, user))
            && (PermissionsOf(removed.tables, user) != PermissionsOf(s.tables, user) ==>
                  answer != Permissions(PermissionsOf(removed.tables, user)))
  {
  }
}

/** What an answer contains, and what each role or permission change does to whose answers. */
module PermissionLaws {
  import opened Results
  import opened PermissionCache

  /** Some role of the user grants the permission. */
  ghost predicate Granted(t: Tables, user: nat, permission: nat) {
    exists role: nat :: (user, role) in t.userRoles && (role, permission) in t.rolePermissions
  }

  lemma {:induction false} PermissionsAreGranted(t: Tables, user: nat, permission: nat)
    ensures permission in PermissionsOf(t, user) <==> Granted(t, user, permission)
  {
    if Granted(t, user, permission) {
      var role: nat :| (user, role) in t.userRoles && (role, permission) in t.rolePermissions;
      var ur, rp := (user, role), (role, permission);
      assert ur in t.userRoles && rp in t.rolePermissions && ur.0 == user && rp.0 == ur.1;
    }
    if permission in PermissionsOf(t, user) {
      var ur, rp :| ur in t.userRoles && rp in t.rolePermissions && ur.0 == user && rp.0 == ur.1 && rp.1 == permission;
      assert (user, ur.1) in t.userRoles && (ur.1, permission) in t.rolePermissions;
    }
  }

  /** While no deletion is lost, the n-th call answers exactly what some role of the user grants at that time. */
  lemma {:induction false} AnswersAreGranted(permissions: nat, ops: seq<Op>, n: nat, permission: nat)
    requires n < |ops| && NoneMissed(ops) && ops[n].call.Get?
    ensures var s := StateAfter(permissions, ops, n);
            var answer := Step(s, ops[n]).answer;
            answer.Permissions? && (permission in answer.value <==> Granted(s.tables, ops[n].call.user, permission))
  {
    AnswersAreCurrent(permissions, ops, n);
    PermissionsAreGranted(StateAfter(permissions, ops, n).tables, ops[n].call.user, permission);
  }

  /** Whatever Redis commands fail, an answer is what was granted at some call of the last 300 seconds. */
  lemma {:induction false} AnswersWereGranted(permissions: nat, ops: seq<Op>, n: nat) returns (i: nat)
    requires n < |ops| && Clocked(ops) && ops[n].call.Get?
    ensures i <= n && ops[n].at - 300_000 <= ops[i].at <= ops[n].at
    ensures var answer := Step(StateAfter(permissions, ops, n), ops[n]).answer;
            answer.Permissions? && forall permission: nat ::
              permission in answer.value <==>
                Granted(StateAfter(permissions, ops, i + 1).tables, ops[n].call.user, permission)
  {
    StaleForAtMostTtl(permissions, ops, n);
    var answer := Step(StateAfter(permissions, ops, n), ops[n]).answer;
    i :| i <= n && ops[n].at - TTL <= ops[i].at <= ops[n].at
         && answer.value == PermissionsOf(StateAfter(permissions, ops, i + 1).tables, ops[n].call.user);
    var t := StateAfter(permissions, ops, i + 1).tables;
    forall permission: nat
      ensures permission in answer.value <==> Granted(t, ops[n].call.user, permission)
    {
      PermissionsAreGranted(t, ops[n].call.user, permission);
    }
  }

  /** A live entry is served as it is; otherwise the answer is read and, if Redis lets it, kept for 300 seconds. */
  lemma {:induction false} GetLaw(s: State, now: int, user: nat, readable: bool, storable: bool)
    ensures var after := GetPermissions(s, now, user, readable, storable);
            var hit := readable && user in s.cache && now <= s.cache[user].expiresAt;
            && after.state.tables == s.tables && after.answer.Permissions?
            && (hit ==> after.state == s && after.answer.value == s.cache[user].permissions)
            && (!hit ==>
                  && (forall p: nat :: p in after.answer.value <==> Granted(s.tables, user, p))
                  && after.state.cache == if storable
                     then s.cache[user := Cached(after.answer.value, now + 300_000)] else s.cache)
  {
    forall p: nat
      ensures p in PermissionsOf(s.tables, user) <==> Granted(s.tables, user, p)
    {
      PermissionsAreGranted(s.tables, user, p);
    }
  }

  /** The entries of the affected users are gone unless missed; every other entry is as it was. */
  ghost predicate Forgets(before: map<nat, Cached>, after: map<nat, Cached>, affected: nat -> bool, missed: set<nat>) {
    forall u: nat ::
      && (u in after <==> u in before && (!affected(u) || u in missed))
      && (u in after && u in before ==> after[u] == before[u])
  }

  /** One permission more for every holder of the role, and nothing else for anyone. */
  lemma {:induction false} AddPermissionLaw(s: State, role: nat, permission: nat, missed: set<nat>)
    ensures var after := Grant(s, role, permission, missed);
            var t, t' := s.tables, after.state.tables;
            && (after.answer == Changed(Done) <==>
                  role < |t.roles| && t.roles[role] && permission < t.permissions && (role, permission) !in t.rolePermissions)
            && (after.answer != Changed(Done) ==> after.state == s)
            && (after.answer == Changed(Done) ==>
                  && (forall u: nat, p: nat ::
                        Granted(t', u, p) <==> Granted(t, u, p) || (p == permission && (u, role) in t.userRoles))
                  && Forgets(s.cache, after.state.cache, (u: nat) => (u, role) in t.userRoles, missed))
  {
    var after := Grant(s, role, permission, missed);
    if after.answer == Changed(Done) {
      var t, t' := s.tables, after.state.tables;
      forall u: nat, p: nat
        ensures Granted(t', u, p) <==> Granted(t, u, p) || (p == permission && (u, role) in t.userRoles)
      {
        if Granted(t, u, p) {
          var r: nat :| (u, r) in t.userRoles && (r, p) in t.rolePermissions;
          assert (u, r) in t'.userRoles && (r, p) in t'.rolePermissions;
        }
        if p == permission && (u, role) in t.userRoles {
          assert (u, role) in t'.userRoles && (role, p) in t'.rolePermissions;
        }
        if Granted(t', u, p) {
          var r: nat :| (u, r) in t'.userRoles && (r, p) in t'.rolePermissions;
          assert (u, r) in t.userRoles;
          assert (r, p) in t.rolePermissions || (r == role && p == permission);
        }
      }
      HoldersAre(t, role);
    }
  }

  lemma {:induction false} HoldersAre(t: Tables, role: nat)
    ensures forall u: nat :: u in UsersWith(t, role) <==> (u, role) in t.userRoles
  {
    forall u: nat | (u, role) in t.userRoles
      ensures u in UsersWith(t, role)
    {
      var ur := (u, role);
      assert ur in t.userRoles && ur.1 == role;
    }
  }

  /** The permission is lost exactly by those to whom no other role grants it. */
  lemma {:induction false} RemovePermissionLaw(s: State, role: nat, permission: nat, missed: set<nat>)
    ensures var after := Revoke(s, role, permission, missed);
            var t, t' := s.tables, after.state.tables;
            && (after.answer == Changed(Done) <==> (role, permission) in t.rolePermissions)
            && (after.answer != Changed(Done) ==> after.state == s)
            && (after.answer == Changed(Done) ==>
                  && (forall u: nat, p: nat ::
                        Granted(t', u, p) <==>
                          exists r: nat :: (u, r) in t.userRoles && (r, p) in t.rolePermissions && (r != role || p != permission))
                  && Forgets(s.cache, after.state.cache, (u: nat) => (u, role) in t.userRoles, missed))
  {
    var after := Revoke(s, role, permission, missed);
    if after.answer == Changed(Done) {
      var t, t' := s.tables, after.state.tables;
      forall u: nat, p: nat
        ensures Granted(t', u, p) <==>
                  exists r: nat :: (u, r) in t.userRoles && (r, p) in t.rolePermissions && (r != role || p != permission)
      {
        if Granted(t', u, p) {
          var r: nat :| (u, r) in t'.userRoles && (r, p) in t'.rolePermissions;
          assert (u, r) in t.userRoles && (r, p) in t.rolePermissions && (r != role || p != permission);
        }
        if r: nat :| (u, r) in t.userRoles && (r, p) in t.rolePermissions && (r != role || p != permission) {
          assert (u, r) in t'.userRoles && (r, p) in t'.rolePermissions;
        }
      }
      HoldersAre(t, role);
    }
  }

  /** A user gains what the role grants; nobody else gains or loses. */
  lemma {:induction false} AssignRoleLaw(s: State, user: nat, role: nat, missed: set<nat>)
    ensures var after := Assign(s, user, role, missed);
            var t, t' := s.tables, after.state.tables;
            && (after.answer == Changed(Done) <==>
                  user < t.users && role < |t.roles| && t.roles[role] && (user, role) !in t.userRoles)
            && (after.answer != Changed(Done) ==> after.state == s)
            && (after.answer == Changed(Done) ==>
                  && (forall u: nat, p: nat ::
                        Granted(t', u, p) <==> Granted(t, u, p) || (u == user && (role, p) in t.rolePermissions))
                  && Forgets(s.cache, after.state.cache, (u: nat) => u == user, missed))
  {
    var after := Assign(s, user, role, missed);
    if after.answer == Changed(Done) {
      var t, t' := s.tables, after.state.tables;
      forall u: nat, p: nat
        ensures Granted(t', u, p) <==> Granted(t, u, p) || (u == user && (role, p) in t.rolePermissions)
      {
        if Granted(t, u, p) {
          var r: nat :| (u, r) in t.userRoles && (r, p) in t.rolePermissions;
          assert (u, r) in t'.userRoles && (r, p) in t'.rolePermissions;
        }
        if u == user && (role, p) in t.rolePermissions {
          assert (u, role) in t'.userRoles && (role, p) in t'.rolePermissions;
        }
        if Granted(t', u, p) {
          var r: nat :| (u, r) in t'.userRoles && (r, p) in t'.rolePermissions;
          assert (r, p) in t.rolePermissions;
          assert (u, r) in t.userRoles || (u == user && r == role);
        }
      }
    }
  }

  /** A user keeps exactly what the other roles grant; nobody else gains or loses. */
  lemma {:induction false} RemoveRoleLaw(s: State, user: nat, role: nat, missed: set<nat>)
    ensures var after := Unassign(s, user, role, missed);
            var t, t' := s.tables, after.state.tables;
            && (after.answer == Changed(Done) <==> (user, role) in t.userRoles)
            && (after.answer != Changed(Done) ==> after.state == s)
            && (after.answer == Changed(Done) ==>
                  && (forall u: nat, p: nat ::
                        Granted(t', u, p) <==>
                          exists r: nat :: (u, r) in t.userRoles && (r, p) in t.rolePermissions && (u != user || r != role))
                  && Forgets(s.cache, after.state.cache, (u: nat) => u == user, missed))
  {
    var after := Unassign(s, user, role, missed);
    if after.answer == Changed(Done) {
      var t, t' := s.tables, after.state.tables;
      forall u: nat, p: nat
        ensures Granted(t', u, p) <==>
                  exists r: nat :: (u, r) in t.userRoles && (r, p) in t.rolePermissions && (u != user || r != role)
      {
        if Granted(t', u, p) {
          var r: nat :| (u, r) in t'.userRoles && (r, p) in t'.rolePermissions;
          assert (u, r) in t.userRoles && (r, p) in t.rolePermissions && (u != user || r != role);
        }
        if r: nat :| (u, r) in t.userRoles && (r, p) in t.rolePermissions && (u != user || r != role) {
          assert (u, r) in t'.userRoles && (r, p) in t'.rolePermissions;
        }
      }
    }
  }

  /** A user is created whatever happens to the roles: with exactly the given roles, or with none if one is unknown. */
  lemma {:induction false} CreateUserLaw(s: State, roles: seq<nat>, missed: set<nat>)
    ensures var after := CreateUserWith(s, roles, missed);
            var t, t' := s.tables, after.state.tables;
            var known := forall i :: 0 <= i < |roles| ==> roles[i] < |t.roles| && t.roles[roles[i]];
            && after.answer == Changed(if known then Done else Refused)
            && t'.users == t.users + 1 && t'.rolePermissions == t.rolePermissions
            && (forall u: nat, r: nat :: (u, r) in t'.userRoles <==>
                  (u, r) in t.userRoles || (known && u == t.users && r in roles))
            && (known && |roles| > 0 ==> Forgets(s.cache, after.state.cache, (u: nat) => u == t.users, missed))
            && (!known || |roles| == 0 ==> after.state.cache == s.cache)
  {
    var after := CreateUserWith(s, roles, missed);
    var t, t' := s.tables, after.state.tables;
    forall u: nat, r: nat
      ensures RolesExist(t, roles) ==>
                ((u, r) in t'.userRoles <==> (u, r) in t.userRoles || (u == t.users && r in roles))
    {
      var ur := (u, r);
      if u == t.users && r in roles {
        var i :| 0 <= i < |roles| && roles[i] == r;
        assert (t.users, roles[i]) == ur;
      }
    }
  }

  /** Replacing a user's roles gives the user exactly what the new roles grant; nobody else gains or loses. */
  lemma {:induction false} SetRolesLaw(s: State, user: nat, roles: seq<nat>, missed: set<nat>)
    ensures var after := ReplaceRoles(s, user, roles, missed);
            var t, t' := s.tables, after.state.tables;
            && (after.answer == Changed(Done) <==>
                  && user < t.users && (forall i, j :: 0 <= i < j < |roles| ==> roles[i] != roles[j])
                  && forall i :: 0 <= i < |roles| ==> roles[i] < |t.roles| && t.roles[roles[i]])
            && (after.answer != Changed(Done) ==> after.state == s)
            && (after.answer == Changed(Done) ==>
                  && (forall u: nat, r: nat :: (u, r) in t'.userRoles <==> if u == user then r in roles else (u, r) in t.userRoles)
                  && t'.rolePermissions == t.rolePermissions
                  && Forgets(s.cache, after.state.cache, (u: nat) => u == user, missed))
  {
    var after := ReplaceRoles(s, user, roles, missed);
    if after.answer == Changed(Done) {
      var t, t' := s.tables, after.state.tables;
      forall u: nat, r: nat
        ensures (u, r) in t'.userRoles <==> if u == user then r in roles else (u, r) in t.userRoles
      {
        var ur := (u, r);
        assert ur in WithoutUser(t.userRoles, user) <==> ur in t.userRoles && u != user;
        if u == user && r in roles {
          var i :| 0 <= i < |roles| && roles[i] == r;
          assert (user, roles[i]) == ur;
        }
      }
    }
  }

  /** An explicit invalidation drops one entry unless its deletion is lost; a new role drops none. */
  lemma {:induction false} InvalidateAndCreateRoleLaws(s: State, at: int, user: nat, missed: set<nat>)
    ensures var after := Step(s, Op(at, Invalidate(user, missed)));
            && after.answer == Changed(Done) && after.state.tables == s.tables
            && Forgets(s.cache, after.state.cache, (u: nat) => u == user, missed)
    ensures var after := Step(s, Op(at, CreateRole));
            && after.answer == Changed(Done) && after.state.cache == s.cache
            && after.state.tables == s.tables.(roles := s.tables.roles + [true])
  {
  }

  /** A role goes only when nobody holds it, so nobody gains or loses, and no entry is touched. */
  lemma {:induction false} DeleteRoleLaw(s: State, role: nat)
    ensures var after := DropRole(s, role);
            var t, t' := s.tables, after.state.tables;
            && (after.answer == Changed(Done) <==>
                  role < |t.roles| && t.roles[role] && forall u: nat :: (u, role) !in t.userRoles)
            && (after.answer != Changed(Done) ==> after.state == s)
            && (after.answer == Changed(Done) ==>
                  && after.state.cache == s.cache && t'.userRoles == t.userRoles && t'.roles == t.roles[role := false]
                  && forall r: nat, p: nat :: (r, p) in t'.rolePermissions <==> r != role && (r, p) in t.rolePermissions)
  {
    HoldersAre(s.tables, role);
    var after := DropRole(s, role);
    if UsersWith(s.tables, role) == {} {
      assert forall u: nat :: u !in UsersWith(s.tables, role);
    }
    if after.answer == Changed(Done) {
      forall r: nat, p: nat
        ensures (r, p) in after.state.tables.rolePermissions <==> r != role && (r, p) in s.tables.rolePermissions
      {
        var rp := (r, p);
        assert rp in WithoutRole(s.tables.rolePermissions, role) <==> rp in s.tables.rolePermissions && rp.0 != role;
      }
    }
  }

  /** Which refusals are a missing row; every other is a duplicate or a role in use. */
  lemma {:induction false} NotFoundIff(s: State, user: nat, role: nat, permission: nat, roles: seq<nat>, missed: set<nat>)
    ensures var t := s.tables;
            var roleThere := role < |t.roles| && t.roles[role];
            && (ReplaceRoles(s, user, roles, missed).answer == Changed(NotFound) <==> user >= t.users)
            && (Assign(s, user, role, missed).answer == Changed(NotFound) <==> user >= t.users || !roleThere)
            && (Unassign(s, user, role, missed).answer == Changed(NotFound) <==> (user, role) !in t.userRoles)
            && (DropRole(s, role).answer == Changed(NotFound) <==> !roleThere)
            && (Grant(s, role, permission, missed).answer == Changed(NotFound) <==> !roleThere || permission >= t.permissions)
            && (Revoke(s, role, permission, missed).answer == Changed(NotFound) <==> (role, permission) !in t.rolePermissions)
  {
  }
}

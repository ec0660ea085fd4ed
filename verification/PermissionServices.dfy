/** The permission cache and the services that change roles, each call against its transition. */
module PermissionServices {
  import opened Results
  import opened PermissionCache
  import PermissionLaws

  class Authorization {
    var users: nat
    const permissions: nat
    var roles: seq<bool>
    var userRoles: set<(nat, nat)>
    var rolePermissions: set<(nat, nat)>
    var cache: map<nat, Cached>

    function TablesView(): Tables
      reads this
    {
      Tables(users, permissions, roles, userRoles, rolePermissions)
    }

    function View(): State
      reads this
    {
      State(TablesView(), cache)
    }

    constructor (permissions: nat)
      ensures View() == StateAfter(permissions, [], 0)
    {
      this.permissions := permissions;
      users, roles, userRoles, rolePermissions, cache := 0, [], {}, {}, map[];
    }

    method GetUserPermissions(now: int, user: nat, readable: bool, storable: bool) returns (value: set<nat>)
      modifies this`cache
      ensures Outcome(View(), Permissions(value)) == GetPermissions(old(View()), now, user, readable, storable)
      ensures Coherent(old(View())) ==> Coherent(View())
      ensures Coherent(old(View())) ==>
                forall p: nat :: p in value <==>
                  exists role: nat :: (user, role) in userRoles && (role, p) in rolePermissions
    {
      forall p: nat
        ensures p in PermissionsOf(TablesView(), user) <==>
                  exists role: nat :: (user, role) in userRoles && (role, p) in rolePermissions
      {
        PermissionLaws.PermissionsAreGranted(TablesView(), user, p);
      }
      if readable && user in cache && Alive(cache[user], now) { return cache[user].permissions; }
      value := PermissionsOf(TablesView(), user);
      if storable { cache := cache[user := Cached(value, now + TTL)]; }
    }

    method InvalidatePermissions(user: nat, missed: set<nat>)
      modifies this`cache
      ensures cache == Forget(old(cache), {user}, missed)
    {
      if user !in missed { cache := cache - {user}; }
    }

    /** One deletion per user that holds the role. */
    method InvalidateUsersWithRole(role: nat, missed: set<nat>)
      modifies this`cache
      ensures cache == Forget(old(cache), UsersWith(TablesView(), role), missed)
    {
      var holders := UsersWith(TablesView(), role);
      var left := holders;
      while left != {}
        invariant left <= holders
        invariant cache == Forget(old(cache), holders - left, missed)
        decreases left
      {
        var user :| user in left;
        if user !in missed { cache := cache - {user}; }
        left := left - {user};
      }
    }

    method Create(grants: seq<nat>, missed: set<nat>) returns (reply: Reply)
      modifies this
      ensures Outcome(View(), Changed(reply)) == CreateUserWith(old(View()), grants, missed)
      ensures Coherent(old(View())) ==> (Coherent(View()) <==> Unaffected(old(View()), View(), missed))
    {
      hide Coherent, Unaffected;
      if Coherent(View()) { StepIsCoherentIff(View(), Op(0, PermissionCache.CreateUser(grants, missed))); }
      var user := users;
      users := users + 1;
      if |grants| > 0 {
        if !RolesExist(TablesView(), grants) { return Refused; }
        userRoles := userRoles + Grants(user, grants);
        InvalidatePermissions(user, missed);
      }
      reply := Done;
    }

    /** Roles are deleted and recreated in one transaction. */
    method Update(user: nat, grants: seq<nat>, missed: set<nat>) returns (reply: Reply)
      modifies this
      ensures Outcome(View(), Changed(reply)) == ReplaceRoles(old(View()), user, grants, missed)
      ensures Coherent(old(View())) ==> (Coherent(View()) <==> Unaffected(old(View()), View(), missed))
    {
      hide Coherent, Unaffected;
      if Coherent(View()) { StepIsCoherentIff(View(), Op(0, PermissionCache.SetRoles(user, grants, missed))); }
      if user >= users { return NotFound; }
      if !RolesExist(TablesView(), grants) || !NoDuplicates(grants) { return Refused; }
      userRoles := WithoutUser(userRoles, user);
      userRoles := userRoles + Grants(user, grants);
      InvalidatePermissions(user, missed);
      reply := Done;
    }

    method AddRole(user: nat, role: nat, missed: set<nat>) returns (reply: Reply)
      modifies this
      ensures Outcome(View(), Changed(reply)) == Assign(old(View()), user, role, missed)
      ensures Coherent(old(View())) ==> (Coherent(View()) <==> Unaffected(old(View()), View(), missed))
    {
      hide Coherent, Unaffected;
      if Coherent(View()) { StepIsCoherentIff(View(), Op(0, PermissionCache.AssignRole(user, role, missed))); }
      if user >= users { return NotFound; }
      if !RoleExists(TablesView(), role) { return NotFound; }
      if (user, role) in userRoles { return Refused; }
      userRoles := userRoles + {(user, role)};
      InvalidatePermissions(user, missed);
      reply := Done;
    }

    method TakeRole(user: nat, role: nat, missed: set<nat>) returns (reply: Reply)
      modifies this
      ensures Outcome(View(), Changed(reply)) == Unassign(old(View()), user, role, missed)
      ensures Coherent(old(View())) ==> (Coherent(View()) <==> Unaffected(old(View()), View(), missed))
    {
      hide Coherent, Unaffected;
      if Coherent(View()) { StepIsCoherentIff(View(), Op(0, PermissionCache.RemoveRole(user, role, missed))); }
      if (user, role) !in userRoles { return NotFound; }
      userRoles := userRoles - {(user, role)};
      InvalidatePermissions(user, missed);
      reply := Done;
    }

    method Delete(role: nat) returns (reply: Reply)
      modifies this
      ensures Outcome(View(), Changed(reply)) == DropRole(old(View()), role)
      ensures Coherent(old(View())) ==> (Coherent(View()) <==> Unaffected(old(View()), View(), {}))
    {
      hide Coherent, Unaffected;
      if Coherent(View()) { StepIsCoherentIff(View(), Op(0, PermissionCache.DeleteRole(role))); }
      if !RoleExists(TablesView(), role) { return NotFound; }
      if UsersWith(TablesView(), role) != {} { return Refused; }
      roles := roles[role := false];
      rolePermissions := WithoutRole(rolePermissions, role);
      reply := Done;
    }

    method AddToRole(role: nat, permission: nat, missed: set<nat>) returns (reply: Reply)
      modifies this
      ensures Outcome(View(), Changed(reply)) == Grant(old(View()), role, permission, missed)
      ensures Coherent(old(View())) ==> (Coherent(View()) <==> Unaffected(old(View()), View(), missed))
    {
      hide Coherent, Unaffected;
      if Coherent(View()) { StepIsCoherentIff(View(), Op(0, PermissionCache.AddPermission(role, permission, missed))); }
      if !RoleExists(TablesView(), role) { return NotFound; }
      if permission >= permissions { return NotFound; }
      if (role, permission) in rolePermissions { return Refused; }
      rolePermissions := rolePermissions + {(role, permission)};
      InvalidateUsersWithRole(role, missed);
      reply := Done;
    }

    method TakeFromRole(role: nat, permission: nat, missed: set<nat>) returns (reply: Reply)
      modifies this
      ensures Outcome(View(), Changed(reply)) == Revoke(old(View()), role, permission, missed)
      ensures Coherent(old(View())) ==> (Coherent(View()) <==> Unaffected(old(View()), View(), missed))
    {
      hide Coherent, Unaffected;
      if Coherent(View()) { StepIsCoherentIff(View(), Op(0, PermissionCache.RemovePermission(role, permission, missed))); }
      if (role, permission) !in rolePermissions { return NotFound; }
      rolePermissions := rolePermissions - {(role, permission)};
      InvalidateUsersWithRole(role, missed);
      reply := Done;
    }
  }
}

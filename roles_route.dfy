/**
 * Role administration (patchpilot_server/src/routes/roles.rs). Admins only.
 * Unlike the user and group handlers, a failing statement is logged and the
 * handler carries on, so the audit row is attempted whatever happened
 * before it.
 */
module RolesRoute {
  import opened Wrappers
  import opened Models
  import opened Http
  import opened Db
  import Auth

  datatype RolesView = RolesUnauthorized | RolesError | RolesPage(roles: seq<Role>)

  /** `list_roles`: every role for an admin; an empty list when the load fails. */
  function ListRoles(db: Database, user: Auth.AuthUser, connOk: bool, loadOk: bool): (r: RolesView)
    reads db
    ensures !Auth.HasRole(user, Auth.Admin) <==> r == RolesUnauthorized
    ensures Auth.HasRole(user, Auth.Admin) && !connOk ==> r == RolesError
    ensures Auth.HasRole(user, Auth.Admin) && connOk ==> r == RolesPage(if loadOk then db.roles else [])
  {
    if !Auth.HasRole(user, Auth.Admin) then RolesUnauthorized
    else if !connOk then RolesError
    else RolesPage(if loadOk then db.roles else [])
  }

  function RoleIds(roles: seq<Role>): (ids: seq<int>)
    ensures forall x :: x in roles ==> x.id in ids
  {
    if roles == [] then [] else [roles[0].id] + RoleIds(roles[1..])
  }

  /** `add_role`: insert the role, then attempt one "add_role" audit row even if the insert failed. */
  method AddRole(db: Database, user: Auth.AuthUser, name: string, now: Timestamp, connOk: bool, insertOk: bool, auditOk: bool)
    returns (r: Reply)
    modifies db`roles, db`audit
    ensures !Auth.HasRole(user, Auth.Admin) ==> r == Redirect("/unauthorized")
    ensures Auth.HasRole(user, Auth.Admin) ==> r == Redirect("/roles")
    ensures var go := Auth.HasRole(user, Auth.Admin) && connOk;
      && db.roles == (if go && insertOk then old(db.roles) + [Role(NextRowId(RoleIds(old(db.roles))), name)] else old(db.roles))
      && db.audit == (if go && auditOk then old(db.audit) + [AuditRow(user.username, "add_role", Some(name), None, now)] else old(db.audit))
  {
    if !Auth.HasRole(user, Auth.Admin) {
      return Redirect("/unauthorized");
    }
    if !connOk {
      return Redirect("/roles");
    }
    if insertOk {
      db.roles := db.roles + [Role(NextRowId(RoleIds(db.roles)), name)];
    }
    var _ := db.LogAudit(user.username, "add_role", Some(name), None, now, auditOk);
    r := Redirect("/roles");
  }

  /** `DELETE FROM user_roles WHERE role_id = id`: every other assignment stays, in order. */
  function DropRoleAssignments(userRoles: seq<UserRole>, roleId: int): (r: seq<UserRole>)
    ensures forall x :: x in r <==> x in userRoles && x.roleId != roleId
    ensures forall x :: multiset(r)[x] == if x.roleId == roleId then 0 else multiset(userRoles)[x]
    ensures |r| <= |userRoles|
  {
    if userRoles == [] then []
    else
      assert userRoles == [userRoles[0]] + userRoles[1..];
      if userRoles[0].roleId == roleId then DropRoleAssignments(userRoles[1..], roleId) else [userRoles[0]] + DropRoleAssignments(userRoles[1..], roleId)
  }

  /** Row by row: the survivors of two stretches of the table are those of the first, then those of the second. */
  lemma {:induction false} DropRoleAssignmentsAppend(a: seq<UserRole>, b: seq<UserRole>, roleId: int)
    ensures DropRoleAssignments(a + b, roleId) == DropRoleAssignments(a, roleId) + DropRoleAssignments(b, roleId)
  {
    if a == [] {
      assert a + b == b;
    } else {
      assert (a + b)[1..] == a[1..] + b;
      DropRoleAssignmentsAppend(a[1..], b, roleId);
    }
  }

  /** `DELETE FROM roles WHERE id = id`. */
  function DropRole(roles: seq<Role>, roleId: int): (r: seq<Role>)
    ensures forall x :: x in r <==> x in roles && x.id != roleId
    ensures forall x :: multiset(r)[x] == if x.id == roleId then 0 else multiset(roles)[x]
    ensures |r| <= |roles|
  {
    if roles == [] then []
    else
      assert roles == [roles[0]] + roles[1..];
      if roles[0].id == roleId then DropRole(roles[1..], roleId) else [roles[0]] + DropRole(roles[1..], roleId)
  }

  /** Row by row: the survivors of two stretches of the table are those of the first, then those of the second. */
  lemma {:induction false} DropRoleAppend(a: seq<Role>, b: seq<Role>, roleId: int)
    ensures DropRole(a + b, roleId) == DropRole(a, roleId) + DropRole(b, roleId)
  {
    if a == [] {
      assert a + b == b;
    } else {
      assert (a + b)[1..] == a[1..] + b;
      DropRoleAppend(a[1..], b, roleId);
    }
  }

  /** The delete audit's target: the role's name, "" when it is missing or the lookup fails. */
  function RoleNameOr(roles: seq<Role>, roleId: int, lookupOk: bool): (n: string)
    ensures !lookupOk || (forall x :: x in roles ==> x.id != roleId) ==> n == ""
    ensures lookupOk ==> forall i :: (0 <= i < |roles| && roles[i].id == roleId &&
               (forall j :: 0 <= j < i ==> roles[j].id != roleId)) ==>
                n == roles[i].name
    ensures n == "" || exists x :: x in roles && x.id == roleId && x.name == n
  {
    if !lookupOk || roles == [] then ""
    else if roles[0].id == roleId then roles[0].name
    else RoleNameOr(roles[1..], roleId, lookupOk)
  }

  /**
   * `delete_role`: look the name up, delete the role's assignments, delete
   * the role, attempt one "delete_role" audit row; each step runs whatever
   * the previous one did.
   */
  method DeleteRole(db: Database, user: Auth.AuthUser, roleId: int, now: Timestamp,
                    connOk: bool, lookupOk: bool, assignmentsOk: bool, roleOk: bool, auditOk: bool)
    returns (r: Reply)
    modifies db`userRoles, db`roles, db`audit
    ensures !Auth.HasRole(user, Auth.Admin) ==> r == Redirect("/unauthorized")
    ensures Auth.HasRole(user, Auth.Admin) ==> r == Redirect("/roles")
    ensures var go := Auth.HasRole(user, Auth.Admin) && connOk;
      && db.userRoles == (if go && assignmentsOk then DropRoleAssignments(old(db.userRoles), roleId) else old(db.userRoles))
      && db.roles == (if go && roleOk then DropRole(old(db.roles), roleId) else old(db.roles))
      && db.audit == (if go && auditOk
                      then old(db.audit) + [AuditRow(user.username, "delete_role", Some(RoleNameOr(old(db.roles), roleId, lookupOk)), None, now)]
                      else old(db.audit))
  {
    if !Auth.HasRole(user, Auth.Admin) {
      return Redirect("/unauthorized");
    }
    if !connOk {
      return Redirect("/roles");
    }
    var name := RoleNameOr(db.roles, roleId, lookupOk);
    if assignmentsOk {
      db.userRoles := DropRoleAssignments(db.userRoles, roleId);
    }
    if roleOk {
      db.roles := DropRole(db.roles, roleId);
    }
    var _ := db.LogAudit(user.username, "delete_role", Some(name), None, now, auditOk);
    r := Redirect("/roles");
  }

  /**
   * After a successful delete no assignment names the role, and the role
   * the session guard finds for any user is the name of some other role.
   */
  lemma DeletedRoleIsUnassigned(userRoles: seq<UserRole>, roles: seq<Role>, roleId: int, userId: int)
    ensures forall x :: x in DropRoleAssignments(userRoles, roleId) ==> x.roleId != roleId
    ensures var r := Auth.JoinedRole(DropRoleAssignments(userRoles, roleId), DropRole(roles, roleId), userId);
      r.Some? ==> exists x :: x in roles && x.id != roleId && x.name == r.value
  {
    var r := Auth.JoinedRole(DropRoleAssignments(userRoles, roleId), DropRole(roles, roleId), userId);
    if r.Some? {
      var ur, x :| ur in DropRoleAssignments(userRoles, roleId) && ur.userId == userId && x in DropRole(roles, roleId)
                   && x.id == ur.roleId && x.name == r.value;
    }
  }
}

/**
 * User and group administration (patchpilot_server/src/routes/users_groups.rs).
 * Every handler is for admins only. The handlers `unwrap` their statements,
 * so a failing statement panics (a 500) after the statements before it have
 * taken effect; the flags say which statements succeed.
 */
module UsersGroupsRoute {
  import opened Wrappers
  import opened Models
  import opened Http
  import opened Db
  import opened Text
  import Auth

  /** The memberships of one user, as (group id, user id, username) rows, in table order. */
  function MembershipRows(u: User, userGroups: seq<UserGroup>): (r: seq<(int, int, string)>)
    ensures forall x :: x in r <==> exists ug :: ug in userGroups && ug.userId == u.id && x == (ug.groupId, u.id, u.username)
  {
    if userGroups == [] then []
    else
      assert forall ug :: ug in userGroups <==> ug == userGroups[0] || ug in userGroups[1..];
      (if userGroups[0].userId == u.id then [(userGroups[0].groupId, u.id, u.username)] else [])
      + MembershipRows(u, userGroups[1..])
  }

  /** The rows of a stretch of user_groups follow those of the stretch before it. */
  lemma {:induction false} MembershipRowsAppend(u: User, a: seq<UserGroup>, b: seq<UserGroup>)
    ensures MembershipRows(u, a + b) == MembershipRows(u, a) + MembershipRows(u, b)
  {
    if a == [] {
      assert a + b == b;
    } else {
      assert (a + b)[1..] == a[1..] + b;
      MembershipRowsAppend(u, a[1..], b);
    }
  }

  /** One membership row gives one join row when it belongs to the user, and none otherwise. */
  lemma MembershipRowsOne(u: User, ug: UserGroup)
    ensures MembershipRows(u, [ug]) == if ug.userId == u.id then [(ug.groupId, u.id, u.username)] else []
  {
    assert [ug][1..] == [];
  }

  /** `users INNER JOIN user_groups ON users.id = user_groups.user_id`, selecting (group id, user id, username). */
  function Joined(users: seq<User>, userGroups: seq<UserGroup>): (r: seq<(int, int, string)>)
    ensures forall x :: x in r <==>
      exists u, ug :: u in users && ug in userGroups && ug.userId == u.id && x == (ug.groupId, u.id, u.username)
  {
    if users == [] then []
    else
      assert forall u :: u in users <==> u == users[0] || u in users[1..];
      MembershipRows(users[0], userGroups) + Joined(users[1..], userGroups)
  }

  /** The join goes user by user: the rows of a stretch of users follow those of the stretch before it. */
  lemma {:induction false} JoinedAppend(a: seq<User>, b: seq<User>, userGroups: seq<UserGroup>)
    ensures Joined(a + b, userGroups) == Joined(a, userGroups) + Joined(b, userGroups)
  {
    if a == [] {
      assert a + b == b;
    } else {
      assert (a + b)[1..] == a[1..] + b;
      JoinedAppend(a[1..], b, userGroups);
    }
  }

  /** One user contributes exactly its membership rows, in user_groups order. */
  lemma JoinedOne(u: User, userGroups: seq<UserGroup>)
    ensures Joined([u], userGroups) == MembershipRows(u, userGroups)
  {
    assert [u][1..] == [];
  }

  /** The (user id, username) pairs of one group, in join order. */
  function MembersOf(joined: seq<(int, int, string)>, groupId: int): (r: seq<(int, string)>)
    ensures |r| <= |joined|
    ensures forall x :: x in r <==> exists row :: row in joined && row.0 == groupId && x == (row.1, row.2)
    decreases |joined|
  {
    if joined == [] then []
    else
      var last := joined[|joined| - 1];
      assert forall row :: row in joined <==> row in joined[..|joined| - 1] || row == last by {
        assert joined == joined[..|joined| - 1] + [last];
      }
      MembersOf(joined[..|joined| - 1], groupId) + (if last.0 == groupId then [(last.1, last.2)] else [])
  }

  /** Adding one joined row extends only that row's group. */
  lemma MembersOfSnoc(joined: seq<(int, int, string)>, i: nat, groupId: int)
    requires i < |joined|
    ensures MembersOf(joined[..i + 1], groupId) ==
      MembersOf(joined[..i], groupId) + (if joined[i].0 == groupId then [(joined[i].1, joined[i].2)] else [])
  {
    assert joined[..i + 1][..i] == joined[..i];
  }

  /** Whether some joined row belongs to the group. */
  predicate HasMemberRow(joined: seq<(int, int, string)>, groupId: int) {
    exists row :: row in joined && row.0 == groupId
  }

  /** `m` holds, for each group with a joined row, that group's members in join order, and nothing else. */
  ghost predicate Grouped(m: map<int, seq<(int, string)>>, joined: seq<(int, int, string)>) {
    forall g :: MembersOf(joined, g) == (if g in m then m[g] else []) && (g in m ==> m[g] != [])
  }

  /** `group_users.entry(group_id).or_default().push((user_id, username))`. */
  function PushMember(m: map<int, seq<(int, string)>>, row: (int, int, string)): map<int, seq<(int, string)>> {
    m[row.0 := (if row.0 in m then m[row.0] else []) + [(row.1, row.2)]]
  }

  lemma GroupedStep(m: map<int, seq<(int, string)>>, joined: seq<(int, int, string)>, i: nat)
    requires i < |joined| && Grouped(m, joined[..i])
    ensures Grouped(PushMember(m, joined[i]), joined[..i + 1])
  {
    var m' := PushMember(m, joined[i]);
    var row := joined[i];
    forall g ensures MembersOf(joined[..i + 1], g) == (if g in m' then m'[g] else []) && (g in m' ==> m'[g] != [])
    {
      MembersOfSnoc(joined, i, g);
      var before := MembersOf(joined[..i], g);
      assert before == (if g in m then m[g] else []);
      if g == row.0 {
        assert m'[g] == before + [(row.1, row.2)];
      } else {
        assert (g in m' <==> g in m) && (g in m ==> m'[g] == m[g]);
      }
    }
  }

  lemma NonEmptyIffMemberRow(joined: seq<(int, int, string)>, groupId: int)
    ensures MembersOf(joined, groupId) != [] <==> HasMemberRow(joined, groupId)
  {
    var r := MembersOf(joined, groupId);
    if HasMemberRow(joined, groupId) {
      var row :| row in joined && row.0 == groupId;
      assert (row.1, row.2) in r;
    }
  }

  /**
   * The `group_users` map the listing builds: one entry per group that has
   * a member, holding that group's members in join order.
   */
  method GroupUsers(joined: seq<(int, int, string)>) returns (m: map<int, seq<(int, string)>>)
    ensures forall g :: g in m <==> HasMemberRow(joined, g)
    ensures forall g :: g in m ==> m[g] == MembersOf(joined, g)
  {
    m := map[];
    var i := 0;
    while i < |joined|
      invariant 0 <= i <= |joined|
      invariant Grouped(m, joined[..i])
    {
      GroupedStep(m, joined, i);
      var (groupId, userId, username) := joined[i];
      var members := if groupId in m then m[groupId] else [];
      m := m[groupId := members + [(userId, username)]];
      i := i + 1;
    }
    assert joined[..i] == joined;
    forall g ensures g in m <==> HasMemberRow(joined, g) {
      NonEmptyIffMemberRow(joined, g);
    }
  }

  datatype UsersGroupsView = UsersGroupsUnauthorized | UsersGroupsPanicked
    | UsersGroupsPage(groups: seq<Group>, groupUsers: map<int, seq<(int, string)>>)

  /**
   * `list_users_groups`: admins see every group and the members of each;
   * a failed load shows nothing for that part; a missing connection panics.
   */
  method ListUsersGroups(db: Database, user: Auth.AuthUser, connOk: bool, groupsOk: bool, joinOk: bool)
    returns (r: UsersGroupsView)
    ensures !Auth.HasRole(user, Auth.Admin) ==> r == UsersGroupsUnauthorized
    ensures Auth.HasRole(user, Auth.Admin) && !connOk ==> r == UsersGroupsPanicked
    ensures Auth.HasRole(user, Auth.Admin) && connOk ==> r.UsersGroupsPage?
    ensures r.UsersGroupsPage? ==> r.groups == (if groupsOk then db.groups else [])
    ensures r.UsersGroupsPage? ==> var joined := if joinOk then Joined(db.users, db.userGroups) else [];
      (forall g :: g in r.groupUsers <==> HasMemberRow(joined, g))
      && forall g :: g in r.groupUsers ==> r.groupUsers[g] == MembersOf(joined, g)
  {
    if !Auth.HasRole(user, Auth.Admin) {
      return UsersGroupsUnauthorized;
    }
    if !connOk {
      return UsersGroupsPanicked;
    }
    var allGroups := if groupsOk then db.groups else [];
    var joined := if joinOk then Joined(db.users, db.userGroups) else [];
    var groupUsers := GroupUsers(joined);
    r := UsersGroupsPage(allGroups, groupUsers);
  }

  function GroupIds(groups: seq<Group>): (ids: seq<int>)
    ensures forall g :: g in groups ==> g.id in ids
  {
    if groups == [] then [] else [groups[0].id] + GroupIds(groups[1..])
  }

  function UserIds(users: seq<User>): (ids: seq<int>)
    ensures forall u :: u in users ==> u.id in ids
  {
    if users == [] then [] else [users[0].id] + UserIds(users[1..])
  }

  /**
   * `add_group`: insert the group, then write one "add_group" audit row
   * naming the group, with its description as details.
   */
  method AddGroup(db: Database, user: Auth.AuthUser, name: string, description: Option<string>, now: Timestamp,
                  connOk: bool, insertOk: bool, auditOk: bool)
    returns (r: Reply)
    modifies db`groups, db`audit
    ensures !Auth.HasRole(user, Auth.Admin) ==> r == Redirect("/unauthorized") && db.groups == old(db.groups) && db.audit == old(db.audit)
    ensures Auth.HasRole(user, Auth.Admin) ==>
      && (r == Redirect("/users-groups") <==> connOk && insertOk && auditOk)
      && (r != Redirect("/users-groups") ==> r == Panicked)
      && db.groups == (if connOk && insertOk then old(db.groups) + [Group(NextRowId(GroupIds(old(db.groups))), name, description)] else old(db.groups))
      && db.audit == (if connOk && insertOk && auditOk then old(db.audit) + [AuditRow(user.username, "add_group", Some(name), description, now)] else old(db.audit))
  {
    if !Auth.HasRole(user, Auth.Admin) {
      return Redirect("/unauthorized");
    }
    if !connOk || !insertOk {
      return Panicked;
    }
    db.groups := db.groups + [Group(NextRowId(GroupIds(db.groups)), name, description)];
    var logged := db.LogAudit(user.username, "add_group", Some(name), description, now, auditOk);
    if logged.Err? {
      return Panicked;
    }
    r := Redirect("/users-groups");
  }

  /** The audit details of `add_user`: "group_id: N" exactly when a group was given. */
  function AddUserDetails(groupId: Option<int>): (d: Option<string>)
    ensures d.Some? <==> groupId.Some?
    ensures groupId.Some? ==> d.value == "group_id: " + IntToString(groupId.value)
  {
    match groupId
    case None => None
    case Some(g) => Some("group_id: " + IntToString(g))
  }

  /**
   * `add_user`: hash the password (`hash` is None when bcrypt fails), insert
   * the user and read its id back, add a membership only when a group is
   * given, then write one "add_user" audit row naming the user.
   */
  method AddUser(db: Database, user: Auth.AuthUser, username: string, groupId: Option<int>, hash: Option<string>,
                 now: Timestamp, connOk: bool, insertOk: bool, memberOk: bool, auditOk: bool)
    returns (r: Reply)
    modifies db`users, db`userGroups, db`audit
    ensures !Auth.HasRole(user, Auth.Admin) ==> r == Redirect("/unauthorized")
    ensures !Auth.HasRole(user, Auth.Admin) ==> db.users == old(db.users) && db.userGroups == old(db.userGroups) && db.audit == old(db.audit)
    ensures Auth.HasRole(user, Auth.Admin) ==>
      var inserted := connOk && hash.Some? && insertOk;
      var member := inserted && (groupId.None? || memberOk);
      var newId := NextRowId(UserIds(old(db.users)));
      && (r == Redirect("/users-groups") <==> member && auditOk)
      && (r != Redirect("/users-groups") ==> r == Panicked)
      && db.users == (if inserted then old(db.users) + [User(newId, username, hash.value)] else old(db.users))
      && db.userGroups == (if inserted && groupId.Some? && memberOk then old(db.userGroups) + [UserGroup(newId, groupId.value)] else old(db.userGroups))
      && db.audit == (if member && auditOk then old(db.audit) + [AuditRow(user.username, "add_user", Some(username), AddUserDetails(groupId), now)] else old(db.audit))
  {
    if !Auth.HasRole(user, Auth.Admin) {
      return Redirect("/unauthorized");
    }
    if !connOk || hash.None? || !insertOk {
      return Panicked;
    }
    var newId := NextRowId(UserIds(db.users));
    db.users := db.users + [User(newId, username, hash.value)];
    if groupId.Some? {
      if !memberOk {
        return Panicked;
      }
      db.userGroups := db.userGroups + [UserGroup(newId, groupId.value)];
    }
    var logged := db.LogAudit(user.username, "add_user", Some(username), AddUserDetails(groupId), now, auditOk);
    if logged.Err? {
      return Panicked;
    }
    r := Redirect("/users-groups");
  }

  /** `DELETE FROM user_groups WHERE group_id = id`: every other membership stays, in order. */
  function DropGroupMembers(userGroups: seq<UserGroup>, groupId: int): (r: seq<UserGroup>)
    ensures forall m :: m in r <==> m in userGroups && m.groupId != groupId
    ensures forall m :: multiset(r)[m] == if m.groupId == groupId then 0 else multiset(userGroups)[m]
    ensures |r| <= |userGroups|
  {
    if userGroups == [] then []
    else
      assert userGroups == [userGroups[0]] + userGroups[1..];
      if userGroups[0].groupId == groupId then DropGroupMembers(userGroups[1..], groupId) else [userGroups[0]] + DropGroupMembers(userGroups[1..], groupId)
  }

  /** Row by row: the survivors of two stretches of the table are those of the first, then those of the second. */
  lemma {:induction false} DropGroupMembersAppend(a: seq<UserGroup>, b: seq<UserGroup>, groupId: int)
    ensures DropGroupMembers(a + b, groupId) == DropGroupMembers(a, groupId) + DropGroupMembers(b, groupId)
  {
    if a == [] {
      assert a + b == b;
    } else {
      assert (a + b)[1..] == a[1..] + b;
      DropGroupMembersAppend(a[1..], b, groupId);
    }
  }

  /** `DELETE FROM user_groups WHERE user_id = id`. */
  function DropUserMembers(userGroups: seq<UserGroup>, userId: int): (r: seq<UserGroup>)
    ensures forall m :: m in r <==> m in userGroups && m.userId != userId
    ensures forall m :: multiset(r)[m] == if m.userId == userId then 0 else multiset(userGroups)[m]
    ensures |r| <= |userGroups|
  {
    if userGroups == [] then []
    else
      assert userGroups == [userGroups[0]] + userGroups[1..];
      if userGroups[0].userId == userId then DropUserMembers(userGroups[1..], userId) else [userGroups[0]] + DropUserMembers(userGroups[1..], userId)
  }

  /** Row by row: the survivors of two stretches of the table are those of the first, then those of the second. */
  lemma {:induction false} DropUserMembersAppend(a: seq<UserGroup>, b: seq<UserGroup>, userId: int)
    ensures DropUserMembers(a + b, userId) == DropUserMembers(a, userId) + DropUserMembers(b, userId)
  {
    if a == [] {
      assert a + b == b;
    } else {
      assert (a + b)[1..] == a[1..] + b;
      DropUserMembersAppend(a[1..], b, userId);
    }
  }

  /** `DELETE FROM groups WHERE id = id`. */
  function DropGroup(groups: seq<Group>, groupId: int): (r: seq<Group>)
    ensures forall g :: g in r <==> g in groups && g.id != groupId
    ensures forall g :: multiset(r)[g] == if g.id == groupId then 0 else multiset(groups)[g]
    ensures |r| <= |groups|
  {
    if groups == [] then []
    else
      assert groups == [groups[0]] + groups[1..];
      if groups[0].id == groupId then DropGroup(groups[1..], groupId) else [groups[0]] + DropGroup(groups[1..], groupId)
  }

  /** Row by row: the survivors of two stretches of the table are those of the first, then those of the second. */
  lemma {:induction false} DropGroupAppend(a: seq<Group>, b: seq<Group>, groupId: int)
    ensures DropGroup(a + b, groupId) == DropGroup(a, groupId) + DropGroup(b, groupId)
  {
    if a == [] {
      assert a + b == b;
    } else {
      assert (a + b)[1..] == a[1..] + b;
      DropGroupAppend(a[1..], b, groupId);
    }
  }

  /** `DELETE FROM users WHERE id = id`. */
  function DropUser(users: seq<User>, userId: int): (r: seq<User>)
    ensures forall u :: u in r <==> u in users && u.id != userId
    ensures forall u :: multiset(r)[u] == if u.id == userId then 0 else multiset(users)[u]
    ensures |r| <= |users|
  {
    if users == [] then []
    else
      assert users == [users[0]] + users[1..];
      if users[0].id == userId then DropUser(users[1..], userId) else [users[0]] + DropUser(users[1..], userId)
  }

  /** Row by row: the survivors of two stretches of the table are those of the first, then those of the second. */
  lemma {:induction false} DropUserAppend(a: seq<User>, b: seq<User>, userId: int)
    ensures DropUser(a + b, userId) == DropUser(a, userId) + DropUser(b, userId)
  {
    if a == [] {
      assert a + b == b;
    } else {
      assert (a + b)[1..] == a[1..] + b;
      DropUserAppend(a[1..], b, userId);
    }
  }

  /** The name the delete audit names: the group's name, "unknown" when it is absent or the lookup fails. */
  function GroupNameOr(groups: seq<Group>, groupId: int, lookupOk: bool): (n: string)
    ensures !lookupOk || (forall g :: g in groups ==> g.id != groupId) ==> n == "unknown"
    ensures lookupOk ==> forall i :: (0 <= i < |groups| && groups[i].id == groupId &&
               (forall j :: 0 <= j < i ==> groups[j].id != groupId)) ==>
                n == groups[i].name
    ensures n == "unknown" || exists g :: g in groups && g.id == groupId && g.name == n
  {
    if !lookupOk || groups == [] then "unknown"
    else if groups[0].id == groupId then groups[0].name
    else GroupNameOr(groups[1..], groupId, lookupOk)
  }

  function UserNameOr(users: seq<User>, userId: int, lookupOk: bool): (n: string)
    ensures !lookupOk || (forall u :: u in users ==> u.id != userId) ==> n == "unknown"
    ensures lookupOk ==> forall i :: (0 <= i < |users| && users[i].id == userId &&
               (forall j :: 0 <= j < i ==> users[j].id != userId)) ==>
                n == users[i].username
    ensures n == "unknown" || exists u :: u in users && u.id == userId && u.username == n
  {
    if !lookupOk || users == [] then "unknown"
    else if users[0].id == userId then users[0].username
    else UserNameOr(users[1..], userId, lookupOk)
  }

  /**
   * `delete_group`: look the name up, delete the group's memberships, then
   * the group, then write one "delete_group" audit row naming it.
   */
  method DeleteGroup(db: Database, user: Auth.AuthUser, groupId: int, now: Timestamp,
                     connOk: bool, lookupOk: bool, membersOk: bool, groupOk: bool, auditOk: bool)
    returns (r: Reply)
    modifies db`userGroups, db`groups, db`audit
    ensures !Auth.HasRole(user, Auth.Admin) ==> r == Redirect("/unauthorized")
    ensures !(Auth.HasRole(user, Auth.Admin) && connOk) ==>
      db.userGroups == old(db.userGroups) && db.groups == old(db.groups) && db.audit == old(db.audit)
    ensures Auth.HasRole(user, Auth.Admin) ==>
      && (r == Redirect("/users-groups") <==> connOk && membersOk && groupOk && auditOk)
      && (r != Redirect("/users-groups") ==> r == Panicked)
      && db.userGroups == (if connOk && membersOk then DropGroupMembers(old(db.userGroups), groupId) else old(db.userGroups))
      && db.groups == (if connOk && membersOk && groupOk then DropGroup(old(db.groups), groupId) else old(db.groups))
      && db.audit == (if connOk && membersOk && groupOk && auditOk
                      then old(db.audit) + [AuditRow(user.username, "delete_group", Some(GroupNameOr(old(db.groups), groupId, lookupOk)), None, now)]
                      else old(db.audit))
  {
    if !Auth.HasRole(user, Auth.Admin) {
      return Redirect("/unauthorized");
    }
    if !connOk {
      return Panicked;
    }
    var name := GroupNameOr(db.groups, groupId, lookupOk);
    if !membersOk {
      return Panicked;
    }
    db.userGroups := DropGroupMembers(db.userGroups, groupId);
    if !groupOk {
      return Panicked;
    }
    db.groups := DropGroup(db.groups, groupId);
    var logged := db.LogAudit(user.username, "delete_group", Some(name), None, now, auditOk);
    if logged.Err? {
      return Panicked;
    }
    r := Redirect("/users-groups");
  }

  /**
   * `delete_user`: look the name up, delete the user's memberships, then
   * the user, then write one "delete_user" audit row naming them.
   */
  method DeleteUser(db: Database, user: Auth.AuthUser, userId: int, now: Timestamp,
                    connOk: bool, lookupOk: bool, membersOk: bool, userOk: bool, auditOk: bool)
    returns (r: Reply)
    modifies db`userGroups, db`users, db`audit
    ensures !Auth.HasRole(user, Auth.Admin) ==> r == Redirect("/unauthorized")
    ensures !(Auth.HasRole(user, Auth.Admin) && connOk) ==>
      db.userGroups == old(db.userGroups) && db.users == old(db.users) && db.audit == old(db.audit)
    ensures Auth.HasRole(user, Auth.Admin) ==>
      && (r == Redirect("/users-groups") <==> connOk && membersOk && userOk && auditOk)
      && (r != Redirect("/users-groups") ==> r == Panicked)
      && db.userGroups == (if connOk && membersOk then DropUserMembers(old(db.userGroups), userId) else old(db.userGroups))
      && db.users == (if connOk && membersOk && userOk then DropUser(old(db.users), userId) else old(db.users))
      && db.audit == (if connOk && membersOk && userOk && auditOk
                      then old(db.audit) + [AuditRow(user.username, "delete_user", Some(UserNameOr(old(db.users), userId, lookupOk)), None, now)]
                      else old(db.audit))
  {
    if !Auth.HasRole(user, Auth.Admin) {
      return Redirect("/unauthorized");
    }
    if !connOk {
      return Panicked;
    }
    var name := UserNameOr(db.users, userId, lookupOk);
    if !membersOk {
      return Panicked;
    }
    db.userGroups := DropUserMembers(db.userGroups, userId);
    if !userOk {
      return Panicked;
    }
    db.users := DropUser(db.users, userId);
    var logged := db.LogAudit(user.username, "delete_user", Some(name), None, now, auditOk);
    if logged.Err? {
      return Panicked;
    }
    r := Redirect("/users-groups");
  }

  /** After deleting a group's memberships, the listing has no entry for it. */
  lemma DeletedGroupHasNoMembers(users: seq<User>, userGroups: seq<UserGroup>, groupId: int)
    ensures !HasMemberRow(Joined(users, DropGroupMembers(userGroups, groupId)), groupId)
  {
  }
}

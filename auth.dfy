/**
 * Session authentication (patchpilot_server/src/auth.rs): the two roles,
 * the role check, the request guard that turns the `user_id` cookie into an
 * `AuthUser`, and login/logout. bcrypt verification is a parameter; the
 * cookie jar is reduced to the value of the `user_id` cookie.
 */
module Auth {
  import opened Wrappers
  import opened Text
  import opened Http
  import M = Models
  import opened Db

  datatype UserRole = Admin | User

  /** The string each role is stored and compared as. */
  function AsStr(role: UserRole): (s: string)
    ensures role == Admin <==> s == "Admin"
    ensures role == User <==> s == "User"
  {
    match role
    case Admin => "Admin"
    case User => "User"
  }

  datatype AuthUser = AuthUser(id: int, username: string, role: string)

  /** Everyone has the User role; only a user whose role string is "Admin" has the Admin role. */
  function HasRole(user: AuthUser, role: UserRole): (b: bool)
    ensures role == User ==> b
    ensures role == Admin ==> (b <==> user.role == "Admin")
  {
    match role
    case Admin => user.role == AsStr(Admin)
    case User => true
  }

  /** The first user row matching a predicate on the user, in table order. */
  function FirstUserWithId(users: seq<M.User>, id: int): (r: Option<M.User>)
    ensures r.Some? ==> r.value in users && r.value.id == id
    ensures r.None? <==> forall u :: u in users ==> u.id != id
  {
    if users == [] then None
    else if users[0].id == id then Some(users[0])
    else FirstUserWithId(users[1..], id)
  }

  function FirstUserNamed(users: seq<M.User>, name: string): (r: Option<M.User>)
    ensures r.Some? ==> r.value in users && r.value.username == name
    ensures r.None? <==> forall u :: u in users ==> u.username != name
  {
    if users == [] then None
    else if users[0].username == name then Some(users[0])
    else FirstUserNamed(users[1..], name)
  }

  function RoleName(roles: seq<M.Role>, roleId: int): (r: Option<string>)
    ensures r.Some? ==> exists x :: x in roles && x.id == roleId && x.name == r.value
    ensures r.None? <==> forall x :: x in roles ==> x.id != roleId
    ensures forall i :: (0 <= i < |roles| && roles[i].id == roleId &&
               (forall j :: 0 <= j < i ==> roles[j].id != roleId)) ==>
                r == Some(roles[i].name)
  {
    if roles == [] then None
    else if roles[0].id == roleId then Some(roles[0].name)
    else
      assert roles == [roles[0]] + roles[1..];
      RoleName(roles[1..], roleId)
  }

  /**
   * `roles.name` on the first row of `users LEFT JOIN user_roles LEFT JOIN
   * roles` for one user: None when the user has no role row, or when that
   * row names a missing role.
   */
  function JoinedRole(userRoles: seq<M.UserRole>, roles: seq<M.Role>, userId: int): (r: Option<string>)
    ensures (forall ur :: ur in userRoles ==> ur.userId != userId) ==> r == None
    ensures r.Some? ==> exists ur, x :: ur in userRoles && ur.userId == userId && x in roles && x.id == ur.roleId && x.name == r.value
    ensures forall i :: (0 <= i < |userRoles| && userRoles[i].userId == userId &&
               (forall j :: 0 <= j < i ==> userRoles[j].userId != userId)) ==>
                r == RoleName(roles, userRoles[i].roleId)
  {
    if userRoles == [] then None
    else if userRoles[0].userId == userId then RoleName(roles, userRoles[0].roleId)
    else JoinedRole(userRoles[1..], roles, userId)
  }

  /**
   * The `AuthUser` request guard. The cookie must parse as an i32; the pool
   * and a connection must be available; the user must exist. The role is
   * the joined role name, "User" when there is none.
   */
  function FromRequest(db: Database, cookie: Option<string>, poolOk: bool, connOk: bool, queryOk: bool)
    : (r: Result<AuthUser, Status>)
    reads db
    ensures (cookie.None? || ParseI32(cookie.value).None?) ==> r == Err(Unauthorized)
    ensures r.Ok? <==> cookie.Some? && ParseI32(cookie.value).Some? && poolOk && connOk && queryOk
                       && exists u :: u in db.users && u.id == ParseI32(cookie.value).value
    ensures r.Ok? ==> (
      && r.value.id == ParseI32(cookie.value).value
      && r.value.username == FirstUserWithId(db.users, r.value.id).value.username
      && r.value.role == JoinedRole(db.userRoles, db.roles, r.value.id).GetOr("User"))
    ensures cookie.Some? && ParseI32(cookie.value).Some? && !(poolOk && connOk) ==> r == Err(InternalServerError)
    ensures (cookie.Some? && ParseI32(cookie.value).Some? && poolOk && connOk
             && !(queryOk && exists u :: u in db.users && u.id == ParseI32(cookie.value).value))
            ==> r == Err(Unauthorized)
    ensures r.Err? ==> r.error == Unauthorized || r.error == InternalServerError
  {
    if cookie.None? then Err(Unauthorized)
    else match ParseI32(cookie.value)
      case None => Err(Unauthorized)
      case Some(userId) =>
        if !poolOk || !connOk then Err(InternalServerError)
        else if !queryOk then Err(Unauthorized)
        else match FirstUserWithId(db.users, userId)
          case None => Err(Unauthorized)
          case Some(u) => Ok(AuthUser(u.id, u.username, JoinedRole(db.userRoles, db.roles, u.id).GetOr(AsStr(User))))
  }

  datatype LoginOutcome = LoginOutcome(redirect: string, cookie: Option<string>)

  /**
   * `login`: look the user up by name, check the password with `verify`
   * (an error counts as a mismatch), set the `user_id` cookie to the id,
   * and write one "login" audit row, whose failure is ignored. Any failure
   * before the cookie sends the browser back to /login with no cookie and
   * no audit.
   */
  method Login(db: Database, username: string, password: string, verify: (string, string) -> Option<bool>,
               connOk: bool, queryOk: bool, auditOk: bool, now: M.Timestamp)
    returns (r: LoginOutcome)
    modifies db`audit
    ensures var found := FirstUserNamed(old(db.users), username);
      var accepted := connOk && queryOk && found.Some? && verify(password, found.value.passwordHash) == Some(true);
      && (accepted ==> r == LoginOutcome("/dashboard", Some(IntToString(found.value.id)))
                       && db.audit == old(db.audit) + (if auditOk then [M.AuditRow(found.value.username, "login", None, None, now)] else []))
      && (!accepted ==> r == LoginOutcome("/login", None) && db.audit == old(db.audit))
  {
    if !connOk || !queryOk {
      return LoginOutcome("/login", None);
    }
    var found := FirstUserNamed(db.users, username);
    if found.None? {
      return LoginOutcome("/login", None);
    }
    var u := found.value;
    if verify(password, u.passwordHash) != Some(true) {
      return LoginOutcome("/login", None);
    }
    var user := AuthUser(u.id, u.username, JoinedRole(db.userRoles, db.roles, u.id).GetOr(AsStr(User)));
    var _ := db.LogAudit(user.username, "login", None, None, now, auditOk);
    r := LoginOutcome("/dashboard", Some(IntToString(u.id)));
  }

  /** The role `login` gives the session: the joined role, "User" when none is assigned. */
  lemma LoginRoleDefaultsToUser(userRoles: seq<M.UserRole>, roles: seq<M.Role>, userId: int)
    requires forall ur :: ur in userRoles ==> ur.userId != userId
    ensures !HasRole(AuthUser(userId, "", JoinedRole(userRoles, roles, userId).GetOr(AsStr(User))), Admin)
  {
  }

  /**
   * `logout`: the cookie is always removed and the browser sent to /login;
   * a "logout" audit row is attempted only when the cookie names an
   * existing user and the lookup succeeds.
   */
  method Logout(db: Database, cookie: Option<string>, connOk: bool, queryOk: bool, auditOk: bool, now: M.Timestamp)
    returns (r: LoginOutcome)
    modifies db`audit
    ensures r == LoginOutcome("/login", None)
    ensures var uid := if cookie.Some? then ParseI32(cookie.value) else None;
      var found := if uid.Some? then FirstUserWithId(old(db.users), uid.value) else None;
      db.audit == old(db.audit) + (if connOk && queryOk && found.Some? && auditOk
                                   then [M.AuditRow(found.value.username, "logout", None, None, now)] else [])
  {
    var uid := if cookie.Some? then ParseI32(cookie.value) else None;
    if uid.Some? && connOk && queryOk {
      var found := FirstUserWithId(db.users, uid.value);
      if found.Some? {
        var _ := db.LogAudit(found.value.username, "logout", None, None, now, auditOk);
      }
    }
    r := LoginOutcome("/login", None);
  }

  /**
   * The cookie `login` sets authenticates the same user on the next request:
   * the guard parses it back to the id and finds that user.
   */
  lemma LoginCookieRoundTrip(db: Database, username: string)
    requires FirstUserNamed(db.users, username).Some?
    requires var u := FirstUserNamed(db.users, username).value; I32Min <= u.id <= I32Max
    requires forall a, b :: a in db.users && b in db.users && a.id == b.id ==> a == b
    ensures var u := FirstUserNamed(db.users, username).value;
      var g := FromRequest(db, Some(IntToString(u.id)), true, true, true);
      g.Ok? && g.value.id == u.id && g.value.username == username
  {
    var u := FirstUserNamed(db.users, username).value;
    ParseI32OfIntToString(u.id);
  }
}

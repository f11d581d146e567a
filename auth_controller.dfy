/**
 * The authentication handlers: `login`, the first-admin bootstrap `signup`
 * and the admin-only `registerUser`.
 *
 * Password checking is the `compare` oracle standing for `bcrypt.compare`;
 * `hash` is what `bcrypt.hash(password, 12)` returned. Token signing is not
 * modelled beyond its payload and lifetime, which `TokenIssued` carries.
 */
module AuthController {
  import opened Schema
  import opened AuditLogController

  /** The shared reply of both failed-login branches. */
  const INVALID_CREDENTIALS := Message(401, "Invalid email or password")

  // ---------------------------------------------------------------------
  // login

  predicate EmailKnown(db: Db, email: string) {
    exists id :: id in db.users && db.users[id].email == email
  }

  function LoginSpec(db: Db, email: string, password: string, compare: (string, Hash) -> bool): (r: Outcome)
    requires Valid(db)
    ensures Valid(r.db) && Evolves(db, r.db)
    ensures r.db.users == db.users && r.db.roles == db.roles && r.db.projects == db.projects
    ensures r.reply.TokenIssued? <==>
      exists id :: id in db.users && db.users[id].email == email && compare(password, db.users[id].password)
    ensures !r.reply.TokenIssued? ==> r.reply == INVALID_CREDENTIALS
    ensures !EmailKnown(db, email) ==>
      r.db.auditLog == db.auditLog + Recorded(db, "Failed login attempt", Some("N/A"), "Email: " + email)
    ensures EmailKnown(db, email) ==>
      exists id :: id in db.users && db.users[id].email == email &&
        r.db.auditLog == db.auditLog +
          [Entry(if r.reply.TokenIssued? then "User logged in" else "Failed login attempt",
                 Some(id), "Email: " + email)]
    ensures r.reply.TokenIssued? ==>
      && r.reply.expiresIn == TOKEN_LIFETIME
      && r.reply.claims.userId in db.users
      && db.users[r.reply.claims.userId].email == email
      && r.reply.claims.roleId == db.users[r.reply.claims.userId].roleId
  {
    match UserWithEmail(db.users, email)
    case None =>
      Outcome(INVALID_CREDENTIALS, AppendAudit(db, "Failed login attempt", Some("N/A"), "Email: " + email))
    case Some(id) =>
      var user := db.users[id];
      if !compare(password, user.password) then
        Outcome(INVALID_CREDENTIALS, AppendAudit(db, "Failed login attempt", Some(id), "Email: " + email))
      else
        Outcome(TokenIssued(Claims(id, user.roleId), TOKEN_LIFETIME),
                AppendAudit(db, "User logged in", Some(id), "Email: " + email))
  }

  method Login(st: Store, email: string, password: string, compare: (string, Hash) -> bool) returns (reply: Reply)
    requires Valid(st.State())
    modifies st
    ensures Outcome(reply, st.State()) == LoginSpec(old(st.State()), email, password, compare)
  {
    var id := UserWithEmail(st.users, email);
    if id.None? {
      CreateAuditLog(st, "Failed login attempt", Some("N/A"), "Email: " + email);
      return INVALID_CREDENTIALS;
    }
    var user := st.users[id.value];
    var isMatch := compare(password, user.password);
    if !isMatch {
      CreateAuditLog(st, "Failed login attempt", Some(id.value), "Email: " + email);
      return INVALID_CREDENTIALS;
    }
    CreateAuditLog(st, "User logged in", Some(id.value), "Email: " + email);
    reply := TokenIssued(Claims(id.value, user.roleId), TOKEN_LIFETIME);
  }

  /**
   * The sentinel actor `'N/A'` is not null, so it is checked against the
   * users table like any id: unless some user row has the id "N/A", a
   * failed login for an unknown email leaves no trace in the log.
   */
  lemma UnknownEmailIsNotAudited(db: Db, email: string, password: string, compare: (string, Hash) -> bool)
    requires Valid(db) && !EmailKnown(db, email) && "N/A" !in db.users
    ensures LoginSpec(db, email, password, compare) == Outcome(INVALID_CREDENTIALS, db)
  {
    var r := LoginSpec(db, email, password, compare);
    assert Recorded(db, "Failed login attempt", Some("N/A"), "Email: " + email) == [];
    assert r.db.auditLog == db.auditLog;
  }

  /** Login never looks at `deletedAt`: a soft-deleted user with the right password gets a token. */
  lemma SoftDeletedUserCanLogIn(db: Db, id: Id, password: string, compare: (string, Hash) -> bool)
    requires Valid(db) && id in db.users && db.users[id].deletedAt.Some?
    requires compare(password, db.users[id].password)
    ensures LoginSpec(db, db.users[id].email, password, compare).reply ==
      TokenIssued(Claims(id, db.users[id].roleId), TOKEN_LIFETIME)
  {
    var r := LoginSpec(db, db.users[id].email, password, compare);
    assert r.reply.TokenIssued?;
    assert r.reply.claims.userId == id;
  }

  // ---------------------------------------------------------------------
  // signup

  predicate HasRole(roles: map<Id, Role>, name: string) {
    exists id :: id in roles && roles[id].name == name
  }

  /**
   * `role.upsert({ where: { name }, update: {}, create: { name, permissions } })`:
   * creates the role under `freshId` when no role has that name, and otherwise
   * leaves the table exactly as it was (the update is empty).
   */
  function UpsertRole(roles: map<Id, Role>, name: string, permissions: seq<string>, freshId: Id): (r: map<Id, Role>)
    requires RoleNamesUnique(roles) && freshId !in roles
    ensures RoleNamesUnique(r) && HasRole(r, name)
    ensures forall id :: id in roles ==> id in r && r[id] == roles[id]
    ensures HasRole(roles, name) ==> r == roles
    ensures !HasRole(roles, name) ==>
      r.Keys == roles.Keys + {freshId} && r[freshId] == Role(name, permissions)
  {
    if RoleNamed(roles, name).Some? then roles
    else
      var r := roles[freshId := Role(name, permissions)];
      assert r[freshId].name == name;
      r
  }

  /** The three ids the database would generate for the roles signup may create. */
  predicate FreshRoleIds(db: Db, adminId: Id, employeeId: Id, managerId: Id) {
    && adminId !in db.roles && employeeId !in db.roles && managerId !in db.roles
    && adminId != employeeId && adminId != managerId && employeeId != managerId
  }

  /** The user rows whose role is named ADMIN (`user.count({ where: { role: { name: 'ADMIN' } } })`). */
  function Admins(db: Db): (ids: set<Id>)
    ensures forall id :: id in ids <==> id in db.users && RoleNameOf(db, db.users[id]) == ADMIN
  {
    set id | id in db.users && RoleNameOf(db, db.users[id]) == ADMIN
  }

  predicate AdminExists(db: Db) {
    exists id :: id in db.users && RoleNameOf(db, db.users[id]) == ADMIN
  }

  lemma {:induction false} AdminCountPositive(db: Db)
    ensures |Admins(db)| > 0 <==> AdminExists(db)
  {
    if AdminExists(db) {
      var id :| id in db.users && RoleNameOf(db, db.users[id]) == ADMIN;
      assert id in Admins(db);
    } else {
      assert Admins(db) == {};
    }
  }

  /** Adding roles leaves the role name every existing user row points at unchanged. */
  lemma SeedingKeepsRoleNames(db: Db, roles: map<Id, Role>)
    requires Valid(db)
    requires forall id :: id in db.roles ==> id in roles && roles[id] == db.roles[id]
    ensures AdminExists(db.(roles := roles)) <==> AdminExists(db)
  {
    var d := db.(roles := roles);
    assert forall id :: id in db.users ==> RoleNameOf(d, db.users[id]) == RoleNameOf(db, db.users[id]);
  }

  /** The roles table after the three upserts, in the order ADMIN, EMPLOYEE, MANAGER. */
  function SeededRoles(roles: map<Id, Role>, adminId: Id, employeeId: Id, managerId: Id): (r: map<Id, Role>)
    requires RoleNamesUnique(roles)
    requires adminId !in roles && employeeId !in roles && managerId !in roles
    requires adminId != employeeId && adminId != managerId && employeeId != managerId
    ensures RoleNamesUnique(r)
    ensures HasRole(r, ADMIN) && HasRole(r, EMPLOYEE) && HasRole(r, MANAGER)
    ensures forall id :: id in roles ==> id in r && r[id] == roles[id]
    ensures r.Keys <= roles.Keys + {adminId, employeeId, managerId}
    ensures HasRole(roles, ADMIN) && HasRole(roles, EMPLOYEE) && HasRole(roles, MANAGER) ==> r == roles
  {
    var r1 := UpsertRole(roles, ADMIN, ["*"], adminId);
    var r2 := UpsertRole(r1, EMPLOYEE, ["VIEW_OWN_DATA"], employeeId);
    var r3 := UpsertRole(r2, MANAGER, ["MANAGE_PROJECTS"], managerId);
    assert HasRole(r1, ADMIN) ==> HasRole(r2, ADMIN);
    assert HasRole(r2, ADMIN) ==> HasRole(r3, ADMIN);
    assert HasRole(r2, EMPLOYEE) ==> HasRole(r3, EMPLOYEE);
    r3
  }

  /** The tables after the upserts: only the roles table changes, and only by new rows. */
  function Seeded(db: Db, adminId: Id, employeeId: Id, managerId: Id): (d: Db)
    requires Valid(db) && FreshRoleIds(db, adminId, employeeId, managerId)
    ensures Valid(d) && Evolves(db, d)
    ensures d.users == db.users && d.projects == db.projects && d.auditLog == db.auditLog
    ensures d.roles == SeededRoles(db.roles, adminId, employeeId, managerId)
    ensures AdminExists(d) <==> AdminExists(db)
  {
    var roles := SeededRoles(db.roles, adminId, employeeId, managerId);
    SeedingKeepsRoleNames(db, roles);
    AddRolesKeepsValid(db, roles);
    db.(roles := roles)
  }

  /** What signup does once the roles exist: the admin count, then the user row. */
  function Bootstrap(d: Db, username: string, email: string, hash: Hash, newId: Id): (r: Outcome)
    requires Valid(d) && HasRole(d.roles, ADMIN) && newId !in d.users
    ensures Valid(r.db) && Evolves(d, r.db)
    ensures r.db.roles == d.roles && r.db.projects == d.projects
    ensures r.reply == Message(403, "An admin already exists") <==> AdminExists(d)
    ensures r.reply == Crash <==> !AdminExists(d) && EmailKnown(d, email)
    ensures r.reply.StatusIs(201) <==> !AdminExists(d) && !EmailKnown(d, email)
    ensures !r.reply.StatusIs(201) ==> r.db == d
    ensures r.reply.StatusIs(201) ==>
      && r.reply.UserRow? && r.reply.id == newId
      && r.db.users == d.users[newId := r.reply.user]
      && (var u := r.reply.user;
          u.username == username && u.email == email && u.password == hash && u.deletedAt.None?
          && RoleNameOf(d, u) == ADMIN)
      && r.db.auditLog == d.auditLog + [Entry("Admin signed up", Some(newId), "Username: " + username)]
  {
    AdminCountPositive(d);
    if |Admins(d)| > 0 then Outcome(Message(403, "An admin already exists"), d)
    else if UserWithEmail(d.users, email).Some? then Outcome(Crash, d)
    else
      var user := User(username, email, hash, RoleNamed(d.roles, ADMIN).value, None);
      var d' := InsertUser(d, newId, user);
      Outcome(UserRow(201, newId, user), AppendAudit(d', "Admin signed up", Some(newId), "Username: " + username))
  }

  function SignupSpec(db: Db, username: string, email: string, password: string, hash: Hash,
                      adminId: Id, employeeId: Id, managerId: Id, newId: Id): (r: Outcome)
    requires Valid(db) && FreshRoleIds(db, adminId, employeeId, managerId) && newId !in db.users
    ensures Valid(r.db) && Evolves(db, r.db)
    ensures HasRole(r.db.roles, ADMIN) && HasRole(r.db.roles, EMPLOYEE) && HasRole(r.db.roles, MANAGER)
    ensures r.db.roles.Keys <= db.roles.Keys + {adminId, employeeId, managerId}
    ensures r.db.projects == db.projects
    ensures r.reply == Message(403, "An admin already exists") <==> AdminExists(db)
    ensures r.reply == Crash <==> !AdminExists(db) && EmailKnown(db, email)
    ensures r.reply.StatusIs(201) <==> !AdminExists(db) && !EmailKnown(db, email)
    ensures !r.reply.StatusIs(201) ==> r.db.users == db.users && r.db.auditLog == db.auditLog
  {
    var d := Seeded(db, adminId, employeeId, managerId);
    assert HasRole(d.roles, ADMIN);
    assert EmailKnown(d, email) <==> EmailKnown(db, email);
    EvolvesTransitive(db, d, Bootstrap(d, username, email, hash, newId).db);
    Bootstrap(d, username, email, hash, newId)
  }

  /**
   * A successful signup adds exactly one user row, under the new id, whose
   * role is the one named ADMIN, and audits it with the new user as actor.
   */
  lemma SignupEffect(db: Db, username: string, email: string, password: string, hash: Hash,
                     adminId: Id, employeeId: Id, managerId: Id, newId: Id)
    requires Valid(db) && FreshRoleIds(db, adminId, employeeId, managerId) && newId !in db.users
    requires SignupSpec(db, username, email, password, hash, adminId, employeeId, managerId, newId).reply.StatusIs(201)
    ensures var r := SignupSpec(db, username, email, password, hash, adminId, employeeId, managerId, newId);
            && r.reply.UserRow? && r.reply.id == newId
            && r.db.users == db.users[newId := r.reply.user]
            && (var u := r.reply.user;
                u.username == username && u.email == email && u.password == hash && u.deletedAt.None?
                && RoleNameOf(r.db, u) == ADMIN)
            && r.db.auditLog == db.auditLog + [Entry("Admin signed up", Some(newId), "Username: " + username)]
  {
  }

  /** One upsert, applied to the store's roles table in place. */
  method UpsertRoleIn(st: Store, name: string, permissions: seq<string>, freshId: Id)
    requires RoleNamesUnique(st.roles) && freshId !in st.roles
    modifies st`roles
    ensures st.State() == old(st.State()).(roles := UpsertRole(old(st.roles), name, permissions, freshId))
  {
    if RoleNamed(st.roles, name).None? {
      st.roles := st.roles[freshId := Role(name, permissions)];
    }
  }

  /** Three upserts in a row, in signup's order, give the seeded roles table. */
  lemma SeedingSteps(roles: map<Id, Role>, r1: map<Id, Role>, r2: map<Id, Role>, r3: map<Id, Role>,
                     adminId: Id, employeeId: Id, managerId: Id)
    requires RoleNamesUnique(roles)
    requires adminId !in roles && employeeId !in roles && managerId !in roles
    requires adminId != employeeId && adminId != managerId && employeeId != managerId
    requires r1 == UpsertRole(roles, ADMIN, ["*"], adminId)
    requires employeeId !in r1 && r2 == UpsertRole(r1, EMPLOYEE, ["VIEW_OWN_DATA"], employeeId)
    requires managerId !in r2 && r3 == UpsertRole(r2, MANAGER, ["MANAGE_PROJECTS"], managerId)
    ensures r3 == SeededRoles(roles, adminId, employeeId, managerId)
  {
  }

  /** The three upserts of signup, on the store's roles table. */
  method SeedRoles(st: Store, adminId: Id, employeeId: Id, managerId: Id)
    requires Valid(st.State()) && FreshRoleIds(st.State(), adminId, employeeId, managerId)
    modifies st`roles
    ensures st.State() == Seeded(old(st.State()), adminId, employeeId, managerId)
  {
    ghost var roles := st.roles;
    UpsertRoleIn(st, ADMIN, ["*"], adminId);
    ghost var r1 := st.roles;
    UpsertRoleIn(st, EMPLOYEE, ["VIEW_OWN_DATA"], employeeId);
    ghost var r2 := st.roles;
    UpsertRoleIn(st, MANAGER, ["MANAGE_PROJECTS"], managerId);
    SeedingSteps(roles, r1, r2, st.roles, adminId, employeeId, managerId);
  }

  /** The rest of signup: the admin count, then the new user row and its audit entry. */
  method BootstrapAdmin(st: Store, username: string, email: string, hash: Hash, newId: Id) returns (reply: Reply)
    requires Valid(st.State()) && HasRole(st.roles, ADMIN) && newId !in st.users
    modifies st
    ensures Outcome(reply, st.State()) == Bootstrap(old(st.State()), username, email, hash, newId)
  {
    var adminCount := |Admins(st.State())|;
    if adminCount > 0 {
      return Message(403, "An admin already exists");
    }
    if UserWithEmail(st.users, email).Some? {
      return Crash;
    }
    var user := User(username, email, hash, RoleNamed(st.roles, ADMIN).value, None);
    st.users := st.users[newId := user];
    CreateAuditLog(st, "Admin signed up", Some(newId), "Username: " + username);
    reply := UserRow(201, newId, user);
  }

  method Signup(st: Store, username: string, email: string, password: string, hash: Hash,
                adminId: Id, employeeId: Id, managerId: Id, newId: Id) returns (reply: Reply)
    requires Valid(st.State()) && FreshRoleIds(st.State(), adminId, employeeId, managerId) && newId !in st.users
    modifies st
    ensures Outcome(reply, st.State()) ==
      SignupSpec(old(st.State()), username, email, password, hash, adminId, employeeId, managerId, newId)
  {
    SeedRoles(st, adminId, employeeId, managerId);
    reply := BootstrapAdmin(st, username, email, hash, newId);
  }

  /**
   * Signup is one-shot: once it has created an admin, every later signup is
   * refused with 403, adds no user, and finds the three roles already there.
   */
  lemma SecondSignupIsRefused(db: Db, username: string, email: string, password: string, hash: Hash,
                              adminId: Id, employeeId: Id, managerId: Id, newId: Id,
                              username2: string, email2: string, password2: string, hash2: Hash,
                              adminId2: Id, employeeId2: Id, managerId2: Id, newId2: Id)
    requires Valid(db) && FreshRoleIds(db, adminId, employeeId, managerId) && newId !in db.users
    requires SignupSpec(db, username, email, password, hash, adminId, employeeId, managerId, newId).reply.StatusIs(201)
    requires var d := SignupSpec(db, username, email, password, hash, adminId, employeeId, managerId, newId).db;
      FreshRoleIds(d, adminId2, employeeId2, managerId2) && newId2 !in d.users
    ensures var d := SignupSpec(db, username, email, password, hash, adminId, employeeId, managerId, newId).db;
            SignupSpec(d, username2, email2, password2, hash2, adminId2, employeeId2, managerId2, newId2)
              == Outcome(Message(403, "An admin already exists"), d)
  {
    var d := SignupSpec(db, username, email, password, hash, adminId, employeeId, managerId, newId).db;
    SignupEffect(db, username, email, password, hash, adminId, employeeId, managerId, newId);
    assert RoleNameOf(d, d.users[newId]) == ADMIN;
    assert AdminExists(d);
    assert Seeded(d, adminId2, employeeId2, managerId2) == d;
  }

  // ---------------------------------------------------------------------
  // registerUser

  function RegisterUserSpec(db: Db, caller: Claims, username: string, email: string, password: string,
                            role: string, hash: Hash, newId: Id): (r: Outcome)
    requires Valid(db) && newId !in db.users
    ensures Valid(r.db) && Evolves(db, r.db)
    ensures r.reply == Message(409, "User with this email already exists") <==> EmailKnown(db, email)
    ensures r.reply == Message(500, "Error registering user") <==> !EmailKnown(db, email) && !HasRole(db.roles, role)
    ensures r.reply.StatusIs(201) <==> !EmailKnown(db, email) && HasRole(db.roles, role)
    ensures !r.reply.StatusIs(201) ==> r.db == db
    ensures r.reply.StatusIs(201) ==>
      && r.reply.UserRow? && r.reply.id == newId
      && r.db.users == db.users[newId := r.reply.user]
      && (var u := r.reply.user;
          u.username == username && u.email == email && u.password == hash && u.deletedAt.None?
          && RoleNameOf(db, u) == role)
      && r.db.roles == db.roles && r.db.projects == db.projects
      && r.db.auditLog == db.auditLog + Recorded(r.db, "User registered", Some(caller.userId), "Username: " + username)
  {
    if UserWithEmail(db.users, email).Some? then
      Outcome(Message(409, "User with this email already exists"), db)
    else
      match RoleNamed(db.roles, role)
      case None => Outcome(Message(500, "Error registering user"), db)
      case Some(roleId) =>
        var user := User(username, email, hash, roleId, None);
        var d := InsertUser(db, newId, user);
        Outcome(UserRow(201, newId, user),
                AppendAudit(d, "User registered", Some(caller.userId), "Username: " + username))
  }

  method RegisterUser(st: Store, caller: Claims, username: string, email: string, password: string,
                      role: string, hash: Hash, newId: Id) returns (reply: Reply)
    requires Valid(st.State()) && newId !in st.users
    modifies st
    ensures Outcome(reply, st.State()) ==
      RegisterUserSpec(old(st.State()), caller, username, email, password, role, hash, newId)
  {
    if UserWithEmail(st.users, email).Some? {
      return Message(409, "User with this email already exists");
    }
    var roleId := RoleNamed(st.roles, role);
    if roleId.None? {
      return Message(500, "Error registering user");
    }
    var user := User(username, email, hash, roleId.value, None);
    st.users := st.users[newId := user];
    CreateAuditLog(st, "User registered", Some(caller.userId), "Username: " + username);
    reply := UserRow(201, newId, user);
  }
}

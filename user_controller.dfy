/**
 * The user handlers: create, list, read one, update, soft-delete and
 * restore. Each is a transition function on the tables (`...Spec`) and a
 * method that performs the same steps on the store in place.
 *
 * `caller` is `req.user`, the payload the gate admitted; `hash` is what
 * `bcrypt.hash(password, 12)` returned; `newId` and `now` are the id and
 * timestamp the database generates for the new row or the deletion.
 */
module UserController {
  import opened Schema
  import opened AuditLogController

  // ---------------------------------------------------------------------
  // createUser

  function CreateUserSpec(db: Db, caller: Claims, username: string, email: string, password: string,
                          role: string, hash: Hash, newId: Id): (r: Outcome)
    requires Valid(db) && newId !in db.users
    ensures Valid(r.db) && Evolves(db, r.db)
    ensures r.reply.StatusIs(409) <==> exists id :: id in db.users && db.users[id].email == email
    ensures r.reply.StatusIs(201) <==>
      (forall id :: id in db.users ==> db.users[id].email != email) &&
      (exists id :: id in db.roles && db.roles[id].name == role)
    ensures r.reply.StatusIs(500) <==> !r.reply.StatusIs(409) && !r.reply.StatusIs(201)
    ensures !r.reply.StatusIs(201) ==> r.db == db
    ensures r.reply.StatusIs(201) ==>
      && r.reply.UserRow? && r.reply.id == newId
      && r.db.users == db.users[newId := r.reply.user]
      && (var u := r.reply.user;
          u.username == username && u.email == email && u.password == hash && u.deletedAt.None?
          && RoleNameOf(db, u) == role)
      && r.db.roles == db.roles && r.db.projects == db.projects
      && r.db.auditLog == db.auditLog + Recorded(r.db, "User created", Some(caller.userId),
                                                  "User ID: " + newId + ", Username: " + username)
  {
    if UserWithEmail(db.users, email).Some? then
      Outcome(Message(409, "User with this email already exists"), db)
    else
      match RoleNamed(db.roles, role)
      case None => Outcome(Message(500, "Error creating user"), db)
      case Some(roleId) =>
        var user := User(username, email, hash, roleId, None);
        var d := InsertUser(db, newId, user);
        var target := "User ID: " + newId + ", Username: " + username;
        AuditAfter(db, d, "User created", Some(caller.userId), target);
        Outcome(UserRow(201, newId, user), AppendAudit(d, "User created", Some(caller.userId), target))
  }

  method CreateUser(st: Store, caller: Claims, username: string, email: string, password: string,
                    role: string, hash: Hash, newId: Id) returns (reply: Reply)
    requires Valid(st.State()) && newId !in st.users
    modifies st
    ensures Outcome(reply, st.State()) ==
      CreateUserSpec(old(st.State()), caller, username, email, password, role, hash, newId)
  {
    if UserWithEmail(st.users, email).Some? {
      return Message(409, "User with this email already exists");
    }
    var roleId := RoleNamed(st.roles, role);
    if roleId.None? {
      return Message(500, "Error creating user");
    }
    var user := User(username, email, hash, roleId.value, None);
    st.users := st.users[newId := user];
    CreateAuditLog(st, "User created", Some(caller.userId), "User ID: " + newId + ", Username: " + username);
    reply := UserRow(201, newId, user);
  }

  // ---------------------------------------------------------------------
  // getUsers

  /** The users whose role is not named ADMIN (`where: { role: { name: { not: 'ADMIN' } } }`). */
  function NonAdmins(db: Db): (rows: map<Id, User>)
    ensures forall id :: id in rows <==> id in db.users && RoleNameOf(db, db.users[id]) != ADMIN
    ensures forall id :: id in rows ==> rows[id] == db.users[id]
  {
    map id | id in db.users && RoleNameOf(db, db.users[id]) != ADMIN :: db.users[id]
  }

  function GetUsersSpec(db: Db, caller: Claims): (r: Outcome)
    requires Valid(db)
    ensures Valid(r.db) && Evolves(db, r.db)
    ensures r.reply.UserRows?
    ensures forall id :: id in r.reply.users <==>
      id in db.users && db.roles[db.users[id].roleId].name != ADMIN
    ensures forall id :: id in r.reply.users ==> r.reply.users[id] == db.users[id]
    ensures r.db == db.(auditLog := db.auditLog +
      Recorded(db, "Users retrieved", Some(caller.userId), "Users count: " + NatToString(|r.reply.users|)))
  {
    var rows := NonAdmins(db);
    Outcome(UserRows(rows),
            AppendAudit(db, "Users retrieved", Some(caller.userId), "Users count: " + NatToString(|rows|)))
  }

  method GetUsers(st: Store, caller: Claims) returns (reply: Reply)
    requires Valid(st.State())
    modifies st
    ensures Outcome(reply, st.State()) == GetUsersSpec(old(st.State()), caller)
  {
    var rows := NonAdmins(st.State());
    CreateAuditLog(st, "Users retrieved", Some(caller.userId), "Users count: " + NatToString(|rows|));
    reply := UserRows(rows);
  }

  // ---------------------------------------------------------------------
  // getUserById

  function GetUserByIdSpec(db: Db, caller: Claims, id: Id): (r: Outcome)
    requires Valid(db)
    ensures Valid(r.db) && Evolves(db, r.db)
    ensures id !in db.users <==> r.reply == Message(404, "User not found")
    ensures id !in db.users ==> r.db == db
    ensures id in db.users ==>
      && r.reply == UserRow(200, id, db.users[id])
      && r.db == db.(auditLog := db.auditLog +
           Recorded(db, "User retrieved by ID", Some(caller.userId), "User ID: " + id))
  {
    if id !in db.users then Outcome(Message(404, "User not found"), db)
    else Outcome(UserRow(200, id, db.users[id]),
                 AppendAudit(db, "User retrieved by ID", Some(caller.userId), "User ID: " + id))
  }

  method GetUserById(st: Store, caller: Claims, id: Id) returns (reply: Reply)
    requires Valid(st.State())
    modifies st
    ensures Outcome(reply, st.State()) == GetUserByIdSpec(old(st.State()), caller, id)
  {
    if id !in st.users {
      return Message(404, "User not found");
    }
    var user := st.users[id];
    CreateAuditLog(st, "User retrieved by ID", Some(caller.userId), "User ID: " + id);
    reply := UserRow(200, id, user);
  }

  // ---------------------------------------------------------------------
  // updateUser

  /**
   * The row after `update({ data: { username, email, password? } })`; an
   * undefined field is left as it is, and the password is replaced only
   * when a truthy one was supplied.
   */
  function Updated(u: User, username: Option<string>, email: Option<string>,
                   password: Option<string>, hash: Hash): (v: User)
    ensures v.roleId == u.roleId && v.deletedAt == u.deletedAt
    ensures v.username == username.GetOr(u.username) && v.email == email.GetOr(u.email)
    ensures v.password == (if password.Some? && password.value != "" then hash else u.password)
  {
    u.(username := username.GetOr(u.username),
       email := email.GetOr(u.email),
       password := if password.Some? && password.value != "" then hash else u.password)
  }

  /** The new email belongs to a different user row: the unique constraint rejects the update. */
  predicate EmailTakenByOther(db: Db, id: Id, email: Option<string>)
    requires Valid(db)
  {
    email.Some? && UserWithEmail(db.users, email.value).Some? && UserWithEmail(db.users, email.value).value != id
  }

  function UpdateUserSpec(db: Db, caller: Claims, id: Id, username: Option<string>, email: Option<string>,
                          password: Option<string>, hash: Hash): (r: Outcome)
    requires Valid(db)
    ensures Valid(r.db) && Evolves(db, r.db)
    ensures r.reply.StatusIs(404) <==> id !in db.users
    ensures r.reply.StatusIs(500) <==>
      id in db.users && email.Some? && exists o :: o in db.users && o != id && db.users[o].email == email.value
    ensures r.reply.StatusIs(200) <==>
      id in db.users && (email.Some? ==> forall o :: o in db.users && o != id ==> db.users[o].email != email.value)
    ensures !r.reply.StatusIs(200) ==> r.db == db
    ensures r.reply.StatusIs(200) ==>
      && r.db.users == db.users[id := Updated(db.users[id], username, email, password, hash)]
      && r.reply == UserRow(200, id, r.db.users[id])
      && r.db.auditLog == db.auditLog + Recorded(db, "User updated", Some(caller.userId), "User ID: " + id)
  {
    if id !in db.users then Outcome(Message(404, "User not found"), db)
    else if EmailTakenByOther(db, id, email) then Outcome(Message(500, "Error updating user"), db)
    else
      var user := Updated(db.users[id], username, email, password, hash);
      var d := UpdateUserRow(db, id, user);
      AuditAfter(db, d, "User updated", Some(caller.userId), "User ID: " + id);
      Outcome(UserRow(200, id, user), AppendAudit(d, "User updated", Some(caller.userId), "User ID: " + id))
  }

  method UpdateUser(st: Store, caller: Claims, id: Id, username: Option<string>, email: Option<string>,
                    password: Option<string>, hash: Hash) returns (reply: Reply)
    requires Valid(st.State())
    modifies st
    ensures Outcome(reply, st.State()) == UpdateUserSpec(old(st.State()), caller, id, username, email, password, hash)
  {
    if id !in st.users {
      return Message(404, "User not found");
    }
    if EmailTakenByOther(st.State(), id, email) {
      return Message(500, "Error updating user");
    }
    var user := st.users[id];
    if username.Some? {
      user := user.(username := username.value);
    }
    if email.Some? {
      user := user.(email := email.value);
    }
    if password.Some? && password.value != "" {
      user := user.(password := hash);
    }
    assert user == Updated(st.users[id], username, email, password, hash);
    st.users := st.users[id := user];
    CreateAuditLog(st, "User updated", Some(caller.userId), "User ID: " + id);
    reply := UserRow(200, id, user);
  }

  // ---------------------------------------------------------------------
  // deleteUser / restoreUser

  function DeleteUserSpec(db: Db, caller: Claims, id: Id, now: Stamp): (r: Outcome)
    requires Valid(db)
    ensures Valid(r.db) && Evolves(db, r.db)
    ensures r.reply.StatusIs(404) <==> id !in db.users
    ensures r.reply.StatusIs(400) <==> id in db.users && db.users[id].deletedAt.Some?
    ensures r.reply.StatusIs(200) <==> id in db.users && db.users[id].deletedAt.None?
    ensures !r.reply.StatusIs(200) ==> r.db == db
    ensures r.reply.StatusIs(200) ==>
      && r.db.users == db.users[id := db.users[id].(deletedAt := Some(now))]
      && r.db.roles == db.roles && r.db.projects == db.projects
      && r.reply == UserRow(200, id, r.db.users[id])
      && r.db.auditLog == db.auditLog + Recorded(db, "User deleted", Some(caller.userId), "User ID: " + id)
  {
    if id !in db.users then Outcome(Message(404, "User not found"), db)
    else if db.users[id].deletedAt.Some? then Outcome(Message(400, "User is already deleted"), db)
    else
      var user := db.users[id].(deletedAt := Some(now));
      var d := UpdateUserRow(db, id, user);
      AuditAfter(db, d, "User deleted", Some(caller.userId), "User ID: " + id);
      Outcome(UserRow(200, id, user), AppendAudit(d, "User deleted", Some(caller.userId), "User ID: " + id))
  }

  method DeleteUser(st: Store, caller: Claims, id: Id, now: Stamp) returns (reply: Reply)
    requires Valid(st.State())
    modifies st
    ensures Outcome(reply, st.State()) == DeleteUserSpec(old(st.State()), caller, id, now)
  {
    if id !in st.users {
      return Message(404, "User not found");
    }
    if st.users[id].deletedAt.Some? {
      return Message(400, "User is already deleted");
    }
    var user := st.users[id].(deletedAt := Some(now));
    st.users := st.users[id := user];
    CreateAuditLog(st, "User deleted", Some(caller.userId), "User ID: " + id);
    reply := UserRow(200, id, user);
  }

  function RestoreUserSpec(db: Db, caller: Claims, id: Id): (r: Outcome)
    requires Valid(db)
    ensures Valid(r.db) && Evolves(db, r.db)
    ensures r.reply.StatusIs(404) <==> id !in db.users
    ensures r.reply.StatusIs(400) <==> id in db.users && db.users[id].deletedAt.None?
    ensures r.reply.StatusIs(200) <==> id in db.users && db.users[id].deletedAt.Some?
    ensures !r.reply.StatusIs(200) ==> r.db == db
    ensures r.reply.StatusIs(200) ==>
      && r.db.users == db.users[id := db.users[id].(deletedAt := None)]
      && r.db.roles == db.roles && r.db.projects == db.projects
      && r.reply == UserRow(200, id, r.db.users[id])
      && r.db.auditLog == db.auditLog + Recorded(db, "User restored", Some(caller.userId), "User ID: " + id)
  {
    if id !in db.users then Outcome(Message(404, "User not found"), db)
    else if db.users[id].deletedAt.None? then Outcome(Message(400, "User is not deleted or already restored"), db)
    else
      var user := db.users[id].(deletedAt := None);
      var d := UpdateUserRow(db, id, user);
      AuditAfter(db, d, "User restored", Some(caller.userId), "User ID: " + id);
      Outcome(UserRow(200, id, user), AppendAudit(d, "User restored", Some(caller.userId), "User ID: " + id))
  }

  method RestoreUser(st: Store, caller: Claims, id: Id) returns (reply: Reply)
    requires Valid(st.State())
    modifies st
    ensures Outcome(reply, st.State()) == RestoreUserSpec(old(st.State()), caller, id)
  {
    if id !in st.users {
      return Message(404, "User not found");
    }
    if st.users[id].deletedAt.None? {
      return Message(400, "User is not deleted or already restored");
    }
    var user := st.users[id].(deletedAt := None);
    st.users := st.users[id := user];
    CreateAuditLog(st, "User restored", Some(caller.userId), "User ID: " + id);
    reply := UserRow(200, id, user);
  }

  /**
   * Deleting an active user and then restoring it gives back every table
   * except the audit log, which has only grown.
   */
  lemma DeleteThenRestore(db: Db, caller: Claims, id: Id, now: Stamp)
    requires Valid(db) && id in db.users && db.users[id].deletedAt.None?
    ensures var d1 := DeleteUserSpec(db, caller, id, now);
            var d2 := RestoreUserSpec(d1.db, caller, id);
            && d1.reply.StatusIs(200) && d2.reply.StatusIs(200)
            && d2.db.users == db.users && d2.db.roles == db.roles && d2.db.projects == db.projects
            && db.auditLog <= d2.db.auditLog
  {
    var u := db.users[id];
    var d1 := DeleteUserSpec(db, caller, id, now);
    var d2 := RestoreUserSpec(d1.db, caller, id);
    assert d2.db.users == db.users[id := u.(deletedAt := Some(now))][id := u];
    PutBack(db.users, id, u.(deletedAt := Some(now)));
  }

  /** A second delete of the same user is refused and changes nothing. */
  lemma DeleteIsNotRepeatable(db: Db, caller: Claims, id: Id, now: Stamp, later: Stamp)
    requires Valid(db) && id in db.users && db.users[id].deletedAt.None?
    ensures var d1 := DeleteUserSpec(db, caller, id, now).db;
            DeleteUserSpec(d1, caller, id, later) == Outcome(Message(400, "User is already deleted"), d1)
  {
  }
}

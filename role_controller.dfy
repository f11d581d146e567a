/**
 * Role assignment (`assignRoleToUser`) and revocation (`revokeRoleFromUser`),
 * both of which rewrite one user's `roleId` in place and then audit.
 *
 * `roleName` is `req.body.roleName`, which no validator checks: `None`
 * stands for a body without a string there, which makes the role lookup
 * `findUnique({ where: { name: undefined } })` throw inside the try.
 */
module RoleController {
  import opened Schema
  import opened AuditLogController
  import AuthMiddleware

  function AssignRoleSpec(db: Db, caller: Claims, userId: Id, roleName: Option<string>): (r: Outcome)
    requires Valid(db)
    ensures Valid(r.db) && Evolves(db, r.db)
    ensures r.reply == Message(404, "User not found") <==> userId !in db.users
    ensures r.reply == Message(404, "Role not found") <==>
      userId in db.users && roleName.Some? && forall id :: id in db.roles ==> db.roles[id].name != roleName.value
    ensures r.reply.StatusIs(400) <==>
      userId in db.users && roleName.Some? && RoleNameOf(db, db.users[userId]) == roleName.value
    ensures r.reply.StatusIs(500) <==> userId in db.users && roleName.None?
    ensures r.reply.StatusIs(200) <==>
      && userId in db.users && roleName.Some?
      && (exists id :: id in db.roles && db.roles[id].name == roleName.value)
      && RoleNameOf(db, db.users[userId]) != roleName.value
    ensures !r.reply.StatusIs(200) ==> r.db == db
  {
    if userId !in db.users then Outcome(Message(404, "User not found"), db)
    else if roleName.None? then Outcome(Message(500, "Internal server error"), db)
    else
      match RoleNamed(db.roles, roleName.value)
      case None => Outcome(Message(404, "Role not found"), db)
      case Some(roleId) =>
        if RoleNameOf(db, db.users[userId]) == roleName.value then
          Outcome(Message(400, "User already has this role assigned"), db)
        else
          var user := db.users[userId].(roleId := roleId);
          var d := UpdateUserRow(db, userId, user);
          var target := "User ID: " + userId + ", Role: " + roleName.value;
          AuditAfter(db, d, "Role assigned to user", Some(caller.userId), target);
          Outcome(UserRow(200, userId, user), AppendAudit(d, "Role assigned to user", Some(caller.userId), target))
  }

  /**
   * A successful assignment rewrites only that user's `roleId`, to the id of
   * the role with the requested name, and audits it once.
   */
  lemma AssignRoleEffect(db: Db, caller: Claims, userId: Id, roleName: Option<string>)
    requires Valid(db) && AssignRoleSpec(db, caller, userId, roleName).reply.StatusIs(200)
    ensures var r := AssignRoleSpec(db, caller, userId, roleName);
            && roleName.Some? && r.reply.UserRow? && r.reply.id == userId
            && r.db.users == db.users[userId := r.reply.user]
            && r.reply.user == db.users[userId].(roleId := r.reply.user.roleId)
            && r.reply.user.roleId in db.roles && db.roles[r.reply.user.roleId].name == roleName.value
            && r.db.roles == db.roles && r.db.projects == db.projects
            && r.db.auditLog == db.auditLog + Recorded(db, "Role assigned to user", Some(caller.userId),
                                                        "User ID: " + userId + ", Role: " + roleName.value)
  {
    var rid := RoleNamed(db.roles, roleName.value).value;
    var d := UpdateUserRow(db, userId, db.users[userId].(roleId := rid));
    assert ActorKnown(d, Some(caller.userId)) == ActorKnown(db, Some(caller.userId));
  }

  method AssignRoleToUser(st: Store, caller: Claims, userId: Id, roleName: Option<string>) returns (reply: Reply)
    requires Valid(st.State())
    modifies st
    ensures Outcome(reply, st.State()) == AssignRoleSpec(old(st.State()), caller, userId, roleName)
  {
    if userId !in st.users {
      return Message(404, "User not found");
    }
    if roleName.None? {
      return Message(500, "Internal server error");
    }
    var roleId := RoleNamed(st.roles, roleName.value);
    if roleId.None? {
      return Message(404, "Role not found");
    }
    if RoleNameOf(st.State(), st.users[userId]) == roleName.value {
      return Message(400, "User already has this role assigned");
    }
    var user := st.users[userId].(roleId := roleId.value);
    st.users := st.users[userId := user];
    CreateAuditLog(st, "Role assigned to user", Some(caller.userId),
                   "User ID: " + userId + ", Role: " + roleName.value);
    reply := UserRow(200, userId, user);
  }

  function RevokeRoleSpec(db: Db, caller: Claims, userId: Id): (r: Outcome)
    requires Valid(db)
    ensures Valid(r.db) && Evolves(db, r.db)
    ensures r.reply.StatusIs(404) <==> forall id :: id in db.roles ==> db.roles[id].name != EMPLOYEE
    ensures r.reply.StatusIs(500) <==>
      (exists id :: id in db.roles && db.roles[id].name == EMPLOYEE) && userId !in db.users
    ensures r.reply.StatusIs(200) <==>
      (exists id :: id in db.roles && db.roles[id].name == EMPLOYEE) && userId in db.users
    ensures !r.reply.StatusIs(200) ==> r.db == db
  {
    match RoleNamed(db.roles, EMPLOYEE)
    case None => Outcome(Message(404, "Default role not found"), db)
    case Some(defaultRole) =>
      if userId !in db.users then Outcome(Message(500, "Internal server error"), db)
      else
        var user := db.users[userId].(roleId := defaultRole);
        var d := UpdateUserRow(db, userId, user);
        var target := "User ID: " + userId + ", New Role: " + db.roles[defaultRole].name;
        AuditAfter(db, d, "Role revoked from user and default role assigned", Some(caller.userId), target);
        Outcome(UserRow(200, userId, user),
                AppendAudit(d, "Role revoked from user and default role assigned", Some(caller.userId), target))
  }

  /**
   * A successful revocation rewrites only that user's `roleId`, to the id of
   * the role named EMPLOYEE, and audits it once.
   */
  lemma RevokeRoleEffect(db: Db, caller: Claims, userId: Id)
    requires Valid(db) && RevokeRoleSpec(db, caller, userId).reply.StatusIs(200)
    ensures var r := RevokeRoleSpec(db, caller, userId);
            && r.reply.UserRow? && r.reply.id == userId
            && r.db.users == db.users[userId := r.reply.user]
            && r.reply.user == db.users[userId].(roleId := r.reply.user.roleId)
            && r.reply.user.roleId in db.roles && db.roles[r.reply.user.roleId].name == EMPLOYEE
            && r.db.roles == db.roles && r.db.projects == db.projects
            && r.db.auditLog == db.auditLog +
                 Recorded(db, "Role revoked from user and default role assigned", Some(caller.userId),
                          "User ID: " + userId + ", New Role: " + EMPLOYEE)
  {
    var rid := RoleNamed(db.roles, EMPLOYEE).value;
    var d := UpdateUserRow(db, userId, db.users[userId].(roleId := rid));
    assert ActorKnown(d, Some(caller.userId)) == ActorKnown(db, Some(caller.userId));
  }

  method RevokeRoleFromUser(st: Store, caller: Claims, userId: Id) returns (reply: Reply)
    requires Valid(st.State())
    modifies st
    ensures Outcome(reply, st.State()) == RevokeRoleSpec(old(st.State()), caller, userId)
  {
    var defaultRole := RoleNamed(st.roles, EMPLOYEE);
    if defaultRole.None? {
      return Message(404, "Default role not found");
    }
    if userId !in st.users {
      return Message(500, "Internal server error");
    }
    var user := st.users[userId].(roleId := defaultRole.value);
    var roleName := st.roles[defaultRole.value].name;
    st.users := st.users[userId := user];
    CreateAuditLog(st, "Role revoked from user and default role assigned", Some(caller.userId),
                   "User ID: " + userId + ", New Role: " + roleName);
    reply := UserRow(200, userId, user);
  }

  /** Assigning the role a user was just given is refused with 400. */
  lemma AssignTwiceIsRefused(db: Db, caller: Claims, userId: Id, roleName: string)
    requires Valid(db)
    requires AssignRoleSpec(db, caller, userId, Some(roleName)).reply.StatusIs(200)
    ensures var d := AssignRoleSpec(db, caller, userId, Some(roleName)).db;
            AssignRoleSpec(d, caller, userId, Some(roleName)) ==
              Outcome(Message(400, "User already has this role assigned"), d)
  {
    AssignRoleEffect(db, caller, userId, Some(roleName));
    var d := AssignRoleSpec(db, caller, userId, Some(roleName)).db;
    assert RoleNameOf(d, d.users[userId]) == roleName;
  }

  /**
   * Revocation has no "already EMPLOYEE" check: revoking twice succeeds twice,
   * leaves the same users table, and audits each time.
   */
  lemma RevokeTwiceSucceedsTwice(db: Db, caller: Claims, userId: Id)
    requires Valid(db)
    requires RevokeRoleSpec(db, caller, userId).reply.StatusIs(200)
    ensures var d1 := RevokeRoleSpec(db, caller, userId).db;
            var d2 := RevokeRoleSpec(d1, caller, userId);
            d2.reply.StatusIs(200) && d2.db.users == d1.users
  {
    var r1 := RevokeRoleSpec(db, caller, userId);
    RevokeRoleEffect(db, caller, userId);
    var d1 := r1.db;
    var r2 := RevokeRoleSpec(d1, caller, userId);
    RevokeRoleEffect(d1, caller, userId);
    var u := d1.users[userId];
    assert r2.reply.user == u by {
      assert r2.reply.user.roleId == u.roleId;
    }
    PutSame(d1.users, userId);
  }

  /**
   * The gate reads the role by the roleId inside the token, so a token issued
   * before a reassignment is admitted or refused exactly as before it.
   */
  lemma IssuedTokensSurviveReassignment(db: Db, caller: Claims, userId: Id, roleName: Option<string>,
                                        required: seq<string>, header: Option<string>,
                                        verify: string -> Option<Claims>)
    requires Valid(db)
    ensures var d := AssignRoleSpec(db, caller, userId, roleName).db;
            AuthMiddleware.Authorize(d.roles, required, header, verify)
              == AuthMiddleware.Authorize(db.roles, required, header, verify)
    ensures var d := RevokeRoleSpec(db, caller, userId).db;
            AuthMiddleware.Authorize(d.roles, required, header, verify)
              == AuthMiddleware.Authorize(db.roles, required, header, verify)
  {
    if AssignRoleSpec(db, caller, userId, roleName).reply.StatusIs(200) {
      AssignRoleEffect(db, caller, userId, roleName);
    }
    assert AssignRoleSpec(db, caller, userId, roleName).db.roles == db.roles;
    if RevokeRoleSpec(db, caller, userId).reply.StatusIs(200) {
      RevokeRoleEffect(db, caller, userId);
    }
    assert RevokeRoleSpec(db, caller, userId).db.roles == db.roles;
  }
}

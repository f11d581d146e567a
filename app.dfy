/**
 * The application assembled: every route of the four routers with its
 * chain of middlewares, one request run through gate, validator and
 * handler, and a sequence of requests run one after another against the
 * same tables.
 *
 * What the program takes from outside comes in as `Services`: the JWT
 * verifier (with its secret and clock), bcrypt's compare and hash, and
 * Joi's email and UUID checks. The ids the database generates are modelled
 * by `FreshId`, an id no table uses yet.
 */
module App {
  import opened Schema
  import opened Joi
  import opened Router
  import AuthMiddleware
  import UserRoutes
  import ProjectRoutes
  import AuthRoutes
  import AuditLogRoutes
  import AuthValidation
  import ProjectValidation
  import AuditLogController
  import AuthController
  import UserController
  import RoleController
  import ProjectController

  /** The mounted routers: `/users`, `/projects`, `/auth` and `/audit-logs`. */
  datatype Route =
    | Users(u: UserRoutes.Endpoint)
    | Projects(p: ProjectRoutes.Endpoint)
    | Auth(a: AuthRoutes.Endpoint)
    | AuditLogs

  datatype Request = Request(route: Route, header: Option<string>, params: Body, body: Body, now: Stamp)

  datatype Services = Services(
    verify: string -> Option<Claims>,
    compare: (string, Hash) -> bool,
    hash: string -> Hash,
    formats: Formats)

  /** The replies to a run of requests, and the tables after it. */
  datatype Trace = Trace(replies: seq<Reply>, db: Db)

  function Chain(route: Route): (c: seq<Stage>)
    ensures Ordered(c)
    ensures FirstGate(c).None? <==> route == Auth(AuthRoutes.Login) || route == Auth(AuthRoutes.Signup)
  {
    match route
    case Users(e) => UserRoutes.Chain(e)
    case Projects(e) => ProjectRoutes.Chain(e)
    case Auth(e) => AuthRoutes.Chain(e)
    case AuditLogs => AuditLogRoutes.Chain(AuditLogRoutes.List)
  }

  // ---------------------------------------------------------------------
  // Generated ids

  /** A length no id in the set exceeds. */
  ghost function Longest(ids: set<Id>): (n: nat)
    ensures forall id :: id in ids ==> |id| <= n
    decreases ids
  {
    if ids == {} then 0
    else
      var id :| id in ids;
      var rest := Longest(ids - {id});
      if |id| > rest then |id| else rest
  }

  /** An id not in `used`, beginning with `tag`. */
  ghost function FreshId(used: set<Id>, tag: char): (id: Id)
    ensures id !in used && |id| > 0 && id[0] == tag
  {
    [tag] + seq(Longest(used), _ => '0')
  }

  ghost function Used(db: Db): set<Id> {
    db.users.Keys + db.roles.Keys + db.projects.Keys
  }

  /** `req.body[k]` as the handler reads it, once a validator has made sure it is a string. */
  function Str(obj: Body, k: string): string {
    TextOf(obj, k).GetOr("")
  }

  // ---------------------------------------------------------------------
  // One request

  /**
   * The handler of a route. `caller` is `req.user`; a handler that reads
   * `req.user.userId` without one throws.
   */
  ghost function Dispatch(db: Db, svc: Services, req: Request, caller: Option<Claims>): (r: Outcome)
    requires Valid(db)
    ensures Valid(r.db) && Evolves(db, r.db)
    ensures req.route == AuditLogs ==> r == Outcome(LogRows(AuditLogController.GetAuditLogs(db)), db)
  {
    match req.route
    case Users(e) => DispatchUsers(db, svc, req, e, caller)
    case Projects(e) => DispatchProjects(db, svc, req, e, caller)
    case Auth(e) => DispatchAuth(db, svc, req, e, caller)
    case AuditLogs => Outcome(LogRows(AuditLogController.GetAuditLogs(db)), db)
  }

  ghost function DispatchUsers(db: Db, svc: Services, req: Request, e: UserRoutes.Endpoint, caller: Option<Claims>): (r: Outcome)
    requires Valid(db)
    ensures Valid(r.db) && Evolves(db, r.db)
  {
    if caller.None? then Outcome(Crash, db)
    else
      var c, b, id := caller.value, req.body, Str(req.params, "id");
      match e
      case Create =>
        UserController.CreateUserSpec(db, c, Str(b, "username"), Str(b, "email"), Str(b, "password"),
                                      Str(b, "role"), svc.hash(Str(b, "password")), FreshId(Used(db), 'u'))
      case List => UserController.GetUsersSpec(db, c)
      case GetById => UserController.GetUserByIdSpec(db, c, id)
      case Update =>
        UserController.UpdateUserSpec(db, c, id, TextOf(b, "username"), TextOf(b, "email"), TextOf(b, "password"),
                                      svc.hash(Str(b, "password")))
      case Delete => UserController.DeleteUserSpec(db, c, id, req.now)
      case Restore => UserController.RestoreUserSpec(db, c, id)
      case AssignRole => RoleController.AssignRoleSpec(db, c, id, TextOf(b, "roleName"))
      case RevokeRole => RoleController.RevokeRoleSpec(db, c, id)
  }

  ghost function DispatchProjects(db: Db, svc: Services, req: Request, e: ProjectRoutes.Endpoint,
                            caller: Option<Claims>): (r: Outcome)
    requires Valid(db)
    ensures Valid(r.db) && Evolves(db, r.db)
  {
    if caller.None? then Outcome(Crash, db)
    else
      var c, b, id := caller.value, req.body, Str(req.params, "id");
      match e
      case Create =>
        ProjectController.CreateProjectSpec(db, c, Str(b, "name"), Str(b, "description"), IdsOf(b, "assignedTo"),
                                            FreshId(Used(db), 'p'))
      case List => ProjectController.GetProjectsSpec(db, c)
      case GetById => ProjectController.GetProjectByIdSpec(db, c, id)
      case Update =>
        ProjectController.UpdateProjectSpec(db, c, id, TextOf(b, "name"), TextOf(b, "description"),
                                            IdsOf(b, "assignedTo"), IdsOf(b, "unassignedTo"))
      case Delete => ProjectController.DeleteProjectSpec(db, c, id, req.now)
      case Restore => ProjectController.RestoreProjectSpec(db, c, id)
  }

  ghost function DispatchAuth(db: Db, svc: Services, req: Request, e: AuthRoutes.Endpoint, caller: Option<Claims>): (r: Outcome)
    requires Valid(db)
    ensures Valid(r.db) && Evolves(db, r.db)
  {
    var b := req.body;
    var used := Used(db);
    match e
    case Login => AuthController.LoginSpec(db, Str(b, "email"), Str(b, "password"), svc.compare)
    case Signup =>
      AuthController.SignupSpec(db, Str(b, "username"), Str(b, "email"), Str(b, "password"),
                                svc.hash(Str(b, "password")),
                                FreshId(used, 'a'), FreshId(used, 'e'), FreshId(used, 'm'), FreshId(used, 'u'))
    case Register =>
      if caller.None? then Outcome(Crash, db)
      else
        AuthController.RegisterUserSpec(db, caller.value, Str(b, "username"), Str(b, "email"), Str(b, "password"),
                                        Str(b, "role"), svc.hash(Str(b, "password")), FreshId(used, 'u'))
  }

  /**
   * Express running a chain: a gate either answers or calls `next()` with
   * `req.user` set, a validator either calls `next(err)` or `next()`, and
   * the handler answers.
   */
  ghost function RunChain(db: Db, svc: Services, req: Request, chain: seq<Stage>, caller: Option<Claims>): (r: Outcome)
    requires Valid(db) && |chain| > 0 && chain[|chain| - 1] == Handler
    ensures Valid(r.db) && Evolves(db, r.db)
    decreases |chain|
  {
    match chain[0]
    case Gate(roles) =>
      var g := AuthMiddleware.Authorize(db.roles, roles, req.header, svc.verify);
      if g.Admitted? then RunChain(db, svc, req, chain[1..], Some(g.user))
      else Outcome(g.Reply(), db)
    case Check(v) =>
      if Accepts(svc.formats, v, req.params, req.body) then RunChain(db, svc, req, chain[1..], caller)
      else Outcome(Rejected, db)
    case Handler => Dispatch(db, svc, req, caller)
  }

  ghost function Handle(db: Db, svc: Services, req: Request): (r: Outcome)
    requires Valid(db)
    ensures Valid(r.db) && Evolves(db, r.db)
  {
    RunChain(db, svc, req, Chain(req.route), None)
  }

  /** Requests handled one at a time, each on the tables the previous one left. */
  ghost function Run(db: Db, svc: Services, reqs: seq<Request>): (t: Trace)
    requires Valid(db)
    ensures |t.replies| == |reqs|
    ensures reqs == [] ==> t.db == db
    ensures reqs != [] ==> t.replies[0] == Handle(db, svc, reqs[0]).reply
    decreases |reqs|
  {
    if reqs == [] then Trace([], db)
    else
      var r := Handle(db, svc, reqs[0]);
      var rest := Run(r.db, svc, reqs[1..]);
      Trace([r.reply] + rest.replies, rest.db)
  }

  // ---------------------------------------------------------------------
  // Properties of the assembled program

  /**
   * Over any run the constraints hold, no user, project or role row
   * disappears, no role row changes, and the audit log only grows.
   */
  lemma {:induction false} RunKeepsConstraints(db: Db, svc: Services, reqs: seq<Request>)
    requires Valid(db)
    ensures Valid(Run(db, svc, reqs).db) && Evolves(db, Run(db, svc, reqs).db)
    decreases |reqs|
  {
    if reqs != [] {
      var r := Handle(db, svc, reqs[0]);
      RunKeepsConstraints(r.db, svc, reqs[1..]);
      EvolvesTransitive(db, r.db, Run(r.db, svc, reqs[1..]).db);
    }
  }

  /**
   * On a gated route a request the gate refuses gets the gate's reply and
   * changes nothing, whatever its body: no validator and no handler runs.
   */
  lemma GateRefusalIsFinal(db: Db, svc: Services, req: Request)
    requires Valid(db) && FirstGate(Chain(req.route)).Some?
    requires !AuthMiddleware.Authorize(db.roles, FirstGate(Chain(req.route)).value, req.header, svc.verify).Admitted?
    ensures Handle(db, svc, req) ==
      Outcome(AuthMiddleware.Authorize(db.roles, FirstGate(Chain(req.route)).value, req.header, svc.verify).Reply(), db)
  {
  }

  /** Without a token every route but login and signup answers 401, before any validation. */
  lemma NoTokenIsUnauthorized(db: Db, svc: Services, req: Request)
    requires Valid(db) && AuthMiddleware.TokenOf(req.header) == ""
    requires req.route != Auth(AuthRoutes.Login) && req.route != Auth(AuthRoutes.Signup)
    ensures Handle(db, svc, req) == Outcome(Message(401, "Unauthorized"), db)
  {
    var roles := FirstGate(Chain(req.route)).value;
    assert AuthMiddleware.Authorize(db.roles, roles, req.header, svc.verify) == AuthMiddleware.Unauthorized;
  }

  /** Login and signup answer the same with or without an Authorization header. */
  lemma OpenRoutesIgnoreTheHeader(db: Db, svc: Services, req: Request, header: Option<string>)
    requires Valid(db) && (req.route == Auth(AuthRoutes.Login) || req.route == Auth(AuthRoutes.Signup))
    ensures Handle(db, svc, req.(header := header)) == Handle(db, svc, req)
  {
  }

  /**
   * The audit log is read only by a token whose role is named ADMIN, and
   * reading it changes nothing.
   */
  lemma AuditLogIsAdminOnly(db: Db, svc: Services, req: Request)
    requires Valid(db) && req.route == AuditLogs
    ensures var r := Handle(db, svc, req);
            && r.db == db
            && (r.reply.LogRows? <==>
                  AuthMiddleware.Authorize(db.roles, [ADMIN], req.header, svc.verify).Admitted?)
            && (r.reply.LogRows? ==> r.reply.logs == AuditLogController.GetAuditLogs(db))
  {
    var chain := Chain(AuditLogs);
    assert chain == [Gate([ADMIN]), Handler];
    var g := AuthMiddleware.Authorize(db.roles, [ADMIN], req.header, svc.verify);
    if g.Admitted? {
      assert chain[1..] == [Handler];
    } else {
      assert !g.Reply().LogRows?;
    }
  }

  /**
   * A create-project body that leaves out `assignedTo` passes validation,
   * and then the handler answers 500 without creating anything.
   */
  lemma CreateProjectWithoutAssignedTo(db: Db, svc: Services, req: Request)
    requires Valid(db) && req.route == Projects(ProjectRoutes.Create)
    requires AuthMiddleware.Authorize(db.roles, [ADMIN], req.header, svc.verify).Admitted?
    requires Filled(req.body, "name") && Filled(req.body, "description")
    requires req.body.Keys == {"name", "description"}
    requires ProjectNamed(db.projects, req.body["name"].s).None?
    ensures Handle(db, svc, req) == Outcome(Message(500, "Error creating project"), db)
  {
    ProjectValidation.CreateAcceptsExactly(svc.formats, req.params, req.body);
    assert IdsOf(req.body, "assignedTo").None?;
  }

  /** A login body the validator refuses never reaches the handler: the tables stay as they were. */
  lemma RefusedLoginIsNotAudited(db: Db, svc: Services, req: Request)
    requires Valid(db) && req.route == Auth(AuthRoutes.Login)
    requires !Accepts(svc.formats, AuthValidation.LOGIN, req.params, req.body)
    ensures Handle(db, svc, req) == Outcome(Rejected, db)
  {
  }

  /**
   * A valid token whose role is not named ADMIN (a MANAGER or EMPLOYEE
   * token) is refused with 403 on every route gated to ADMIN alone, the
   * audit-log read among them, before any validator or handler runs.
   */
  lemma NonAdminIsForbiddenAdminRoutes(db: Db, svc: Services, req: Request)
    requires Valid(db) && FirstGate(Chain(req.route)) == Some([ADMIN])
    requires AuthMiddleware.TokenOf(req.header) != "" && svc.verify(AuthMiddleware.TokenOf(req.header)).Some?
    requires var rid := svc.verify(AuthMiddleware.TokenOf(req.header)).value.roleId;
      rid in db.roles && db.roles[rid].name != ADMIN
    ensures Handle(db, svc, req) == Outcome(Message(403, "Forbidden"), db)
  {
    GateRefusalIsFinal(db, svc, req);
  }

  /** Listing users admits ADMIN and MANAGER only: an EMPLOYEE token gets 403 and the tables stay as they were. */
  lemma EmployeeCannotListUsers(db: Db, svc: Services, req: Request)
    requires Valid(db) && req.route == Users(UserRoutes.List)
    requires AuthMiddleware.TokenOf(req.header) != "" && svc.verify(AuthMiddleware.TokenOf(req.header)).Some?
    requires var rid := svc.verify(AuthMiddleware.TokenOf(req.header)).value.roleId;
      rid in db.roles && db.roles[rid].name == EMPLOYEE
    ensures Handle(db, svc, req) == Outcome(Message(403, "Forbidden"), db)
  {
    GateRefusalIsFinal(db, svc, req);
  }
}

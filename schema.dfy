/**
 * The database of the admin panel: the four tables (users, roles, projects,
 * audit log), the constraints the database enforces on them, the token
 * payload, the replies a handler can produce, and `Store`, the one object
 * through which every controller reads and writes the tables.
 */
module Schema {

  datatype Option<+T> = None | Some(value: T) {
    function GetOr(default: T): T {
      if Some? then value else default
    }
  }

  /** Row identifiers (UUID strings generated by the database). */
  type Id = string
  /** A `new Date()` value; only its presence matters. */
  type Stamp = nat
  /** A bcrypt hash string. */
  type Hash = string

  const ADMIN := "ADMIN"
  const MANAGER := "MANAGER"
  const EMPLOYEE := "EMPLOYEE"

  datatype Role = Role(name: string, permissions: seq<string>)

  datatype User = User(
    username: string,
    email: string,
    password: Hash,
    roleId: Id,
    deletedAt: Option<Stamp>)

  datatype Project = Project(
    name: string,
    description: string,
    createdById: Id,
    assignedTo: set<Id>,
    deletedAt: Option<Stamp>)

  /** `performedById` is a nullable foreign key to the users table. */
  datatype Entry = Entry(action: string, performedById: Option<Id>, targetResource: string)

  datatype Db = Db(
    users: map<Id, User>,
    roles: map<Id, Role>,
    projects: map<Id, Project>,
    auditLog: seq<Entry>)

  /** The payload of a signed token: `{ userId, roleId }`. */
  datatype Claims = Claims(userId: Id, roleId: Id)

  /** `expiresIn: '1d'`, in seconds. */
  const TOKEN_LIFETIME: nat := 86400

  /** An audit-log row as `getAuditLogs` returns it, joined with its actor. */
  datatype LogRow = LogRow(entry: Entry, performedBy: Option<User>)

  /** What a request handler sends back. */
  datatype Reply =
    | Message(status: nat, message: string)          // res.status(s).json({ message })
    | TokenIssued(claims: Claims, expiresIn: nat)     // res.json({ token }), 200
    | UserRow(status: nat, id: Id, user: User)        // one user row
    | UserRows(users: map<Id, User>)                 // res.json(users), 200
    | ProjectRow(status: nat, id: Id, project: Project)
    | ProjectRows(projects: map<Id, Project>)           // res.json(projects), 200
    | LogRows(logs: seq<LogRow>)                    // res.json(logs), 200
    | Rejected                                        // a validator passed an error to next(err)
    | Crash                                           // an exception escaped: no response is written
  {
    /** The HTTP status this reply is sent with, when the handler chose one. */
    predicate StatusIs(code: nat) {
      match this
      case Message(s, _) => s == code
      case TokenIssued(_, _) => code == 200
      case UserRow(s, _, _) => s == code
      case UserRows(_) => code == 200
      case ProjectRow(s, _, _) => s == code
      case ProjectRows(_) => code == 200
      case LogRows(_) => code == 200
      case Rejected => false
      case Crash => false
    }
  }

  /** One request's effect: the reply and the database afterwards. */
  datatype Outcome = Outcome(reply: Reply, db: Db)

  // ---------------------------------------------------------------------
  // Database constraints

  ghost predicate EmailsUnique(users: map<Id, User>) {
    forall a, b :: a in users && b in users && users[a].email == users[b].email ==> a == b
  }

  ghost predicate RoleNamesUnique(roles: map<Id, Role>) {
    forall a, b :: a in roles && b in roles && roles[a].name == roles[b].name ==> a == b
  }

  ghost predicate ProjectNamesUnique(projects: map<Id, Project>) {
    forall a, b :: a in projects && b in projects && projects[a].name == projects[b].name ==> a == b
  }

  /** Every foreign key resolves and every unique column is unique. */
  ghost predicate Valid(db: Db) {
    && EmailsUnique(db.users)
    && RoleNamesUnique(db.roles)
    && ProjectNamesUnique(db.projects)
    && (forall id :: id in db.users ==> db.users[id].roleId in db.roles)
    && (forall id :: id in db.projects ==>
          db.projects[id].createdById in db.users && db.projects[id].assignedTo <= db.users.Keys)
    && (forall i :: 0 <= i < |db.auditLog| && db.auditLog[i].performedById.Some? ==>
          db.auditLog[i].performedById.value in db.users)
  }

  const EMPTY := Db(map[], map[], map[], [])

  lemma EmptyIsValid()
    ensures Valid(EMPTY)
  {
  }

  /**
   * How the tables may evolve from one request to the next: no user or
   * project row disappears, an existing role record is never altered, and
   * the audit log is only ever extended.
   */
  ghost predicate Evolves(db: Db, d: Db) {
    && db.users.Keys <= d.users.Keys
    && db.projects.Keys <= d.projects.Keys
    && (forall id :: id in db.roles ==> id in d.roles && d.roles[id] == db.roles[id])
    && db.auditLog <= d.auditLog
  }

  lemma {:induction false} EvolvesTransitive(a: Db, b: Db, c: Db)
    requires Evolves(a, b) && Evolves(b, c)
    ensures Evolves(a, c)
  {
    assert a.auditLog <= c.auditLog by {
      assert |a.auditLog| <= |b.auditLog| <= |c.auditLog|;
      forall i | 0 <= i < |a.auditLog|
        ensures a.auditLog[i] == c.auditLog[i]
      {
        assert a.auditLog[i] == b.auditLog[i];
      }
    }
  }

  /** Writing one user row keeps the constraints when its role exists and its email is its own. */
  lemma PutUserKeepsValid(db: Db, id: Id, u: User)
    requires Valid(db)
    requires u.roleId in db.roles
    requires forall o :: o in db.users && o != id ==> db.users[o].email != u.email
    ensures Valid(db.(users := db.users[id := u])) && Evolves(db, db.(users := db.users[id := u]))
  {
    var d := db.(users := db.users[id := u]);
    assert EmailsUnique(d.users);
    assert db.users.Keys <= d.users.Keys;
  }

  /** Adding role rows, with names still unique, keeps the constraints and changes no existing role. */
  lemma AddRolesKeepsValid(db: Db, roles: map<Id, Role>)
    requires Valid(db) && RoleNamesUnique(roles)
    requires forall id :: id in db.roles ==> id in roles && roles[id] == db.roles[id]
    ensures Valid(db.(roles := roles)) && Evolves(db, db.(roles := roles))
  {
  }

  /** `user.create`: a row under a fresh id, pointing at an existing role, with an unused email. */
  function InsertUser(db: Db, id: Id, u: User): (d: Db)
    requires Valid(db) && id !in db.users && u.roleId in db.roles
    requires forall o :: o in db.users ==> db.users[o].email != u.email
    ensures Valid(d) && Evolves(db, d)
    ensures d.users == db.users[id := u] && d.roles == db.roles && d.projects == db.projects
    ensures d.auditLog == db.auditLog
  {
    PutUserKeepsValid(db, id, u);
    db.(users := db.users[id := u])
  }

  /** `user.update`: an existing row rewritten, still pointing at a role, with an email of its own. */
  function UpdateUserRow(db: Db, id: Id, u: User): (d: Db)
    requires Valid(db) && id in db.users && u.roleId in db.roles
    requires forall o :: o in db.users && o != id ==> db.users[o].email != u.email
    ensures Valid(d) && Evolves(db, d)
    ensures d.users.Keys == db.users.Keys && d.users[id] == u
    ensures forall o :: o in db.users && o != id ==> d.users[o] == db.users[o]
    ensures d.roles == db.roles && d.projects == db.projects && d.auditLog == db.auditLog
  {
    PutUserKeepsValid(db, id, u);
    db.(users := db.users[id := u])
  }

  /** Writing one project row keeps the constraints when its users exist and its name is its own. */
  lemma PutProjectKeepsValid(db: Db, id: Id, p: Project)
    requires Valid(db)
    requires p.createdById in db.users && p.assignedTo <= db.users.Keys
    requires forall o :: o in db.projects && o != id ==> db.projects[o].name != p.name
    ensures Valid(db.(projects := db.projects[id := p])) && Evolves(db, db.(projects := db.projects[id := p]))
  {
    var d := db.(projects := db.projects[id := p]);
    assert ProjectNamesUnique(d.projects);
  }

  /** `project.create` / `project.update` of one row whose users exist and whose name is its own. */
  function PutProject(db: Db, id: Id, p: Project): (d: Db)
    requires Valid(db)
    requires p.createdById in db.users && p.assignedTo <= db.users.Keys
    requires forall o :: o in db.projects && o != id ==> db.projects[o].name != p.name
    ensures Valid(d) && Evolves(db, d)
    ensures d.projects == db.projects[id := p]
    ensures d.users == db.users && d.roles == db.roles && d.auditLog == db.auditLog
  {
    PutProjectKeepsValid(db, id, p);
    db.(projects := db.projects[id := p])
  }

  /** Writing a key twice, the second time with its original value, restores the map. */
  lemma PutBack<V>(m: map<Id, V>, k: Id, v: V)
    requires k in m
    ensures m[k := v][k := m[k]] == m
  {
  }

  /** Writing a key with the value it already has leaves the map as it was. */
  lemma PutSame<V>(m: map<Id, V>, k: Id)
    requires k in m
    ensures m[k := m[k]] == m
  {
  }

  // ---------------------------------------------------------------------
  // Lookups by unique column (`findUnique`)

  function UserWithEmail(users: map<Id, User>, email: string): (r: Option<Id>)
    requires EmailsUnique(users)
    ensures r.Some? ==> r.value in users && users[r.value].email == email
    ensures r.None? ==> forall id :: id in users ==> users[id].email != email
  {
    if exists id :: id in users && users[id].email == email then
      var id :| id in users && users[id].email == email; Some(id)
    else None
  }

  function RoleNamed(roles: map<Id, Role>, name: string): (r: Option<Id>)
    requires RoleNamesUnique(roles)
    ensures r.Some? ==> r.value in roles && roles[r.value].name == name
    ensures r.None? ==> forall id :: id in roles ==> roles[id].name != name
  {
    if exists id :: id in roles && roles[id].name == name then
      var id :| id in roles && roles[id].name == name; Some(id)
    else None
  }

  function ProjectNamed(projects: map<Id, Project>, name: string): (r: Option<Id>)
    requires ProjectNamesUnique(projects)
    ensures r.Some? ==> r.value in projects && projects[r.value].name == name
    ensures r.None? ==> forall id :: id in projects ==> projects[id].name != name
  {
    if exists id :: id in projects && projects[id].name == name then
      var id :| id in projects && projects[id].name == name; Some(id)
    else None
  }

  /** The name of the role a user row points at (`include: { role: true }`). */
  function RoleNameOf(db: Db, u: User): string {
    if u.roleId in db.roles then db.roles[u.roleId].name else ""
  }

  predicate IsDigit(c: char) {
    '0' <= c <= '9'
  }

  /** The number a string of decimal digits denotes. */
  function DecimalValue(s: string): nat
    requires forall i :: 0 <= i < |s| ==> IsDigit(s[i])
  {
    if s == [] then 0
    else
      assert IsDigit(s[|s| - 1]);
      DecimalValue(s[..|s| - 1]) * 10 + (s[|s| - 1] as int - '0' as int)
  }

  /** Decimal rendering of a count, as a template literal prints it: digits only, no leading zero, denoting the count. */
  function NatToString(n: nat): (r: string)
    ensures |r| >= 1 && forall i :: 0 <= i < |r| ==> IsDigit(r[i])
    ensures |r| > 1 ==> r[0] != '0'
    ensures DecimalValue(r) == n
    decreases n
  {
    var digit := "0123456789"[n % 10];
    if n < 10 then [digit] else NatToString(n / 10) + [digit]
  }

  // ---------------------------------------------------------------------
  // The database client

  /** The Prisma client: the four tables, updated in place by the controllers. */
  class Store {
    var users: map<Id, User>
    var roles: map<Id, Role>
    var projects: map<Id, Project>
    var auditLog: seq<Entry>

    constructor ()
      ensures State() == EMPTY
    {
      users, roles, projects, auditLog := map[], map[], map[], [];
    }

    function State(): Db
      reads this
    {
      Db(users, roles, projects, auditLog)
    }
  }
}

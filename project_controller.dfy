/**
 * The project handlers: create, list, read one, update, soft-delete and
 * restore, each a transition function on the tables (`...Spec`) and a
 * method performing the same steps on the store in place.
 *
 * Prisma's `connect` to a user row that does not exist, a duplicate
 * project name, and an update of a missing row all make the call throw;
 * where that happens inside the handler's try, the reply is its 500.
 */
module ProjectController {
  import opened Schema
  import opened AuditLogController

  /** The ids a `connect` or `disconnect` list names. */
  function Elems(ids: seq<Id>): (s: set<Id>)
    ensures forall x :: x in s <==> x in ids
  {
    set x | x in ids
  }

  // ---------------------------------------------------------------------
  // createProject

  /** Whether `project.create` succeeds: every foreign key it connects names a user row. */
  predicate CanCreate(db: Db, caller: Claims, assignedTo: Option<seq<Id>>): (ok: bool)
    ensures ok <==>
      && assignedTo.Some? && caller.userId in db.users
      && forall i :: 0 <= i < |assignedTo.value| ==> assignedTo.value[i] in db.users
  {
    assignedTo.Some? && caller.userId in db.users && Elems(assignedTo.value) <= db.users.Keys
  }

  function CreateProjectSpec(db: Db, caller: Claims, name: string, description: string,
                             assignedTo: Option<seq<Id>>, newId: Id): (r: Outcome)
    requires Valid(db) && newId !in db.projects
    ensures Valid(r.db) && Evolves(db, r.db)
    ensures r.reply.StatusIs(409) <==> exists id :: id in db.projects && db.projects[id].name == name
    ensures r.reply.StatusIs(500) <==>
      (forall id :: id in db.projects ==> db.projects[id].name != name) && !CanCreate(db, caller, assignedTo)
    ensures r.reply.StatusIs(201) <==>
      (forall id :: id in db.projects ==> db.projects[id].name != name) && CanCreate(db, caller, assignedTo)
    ensures assignedTo.None? ==> !r.reply.StatusIs(201)
    ensures !r.reply.StatusIs(201) ==> r.db == db
    ensures r.reply.StatusIs(201) ==>
      && assignedTo.Some? && r.reply.ProjectRow? && r.reply.id == newId
      && r.db.projects == db.projects[newId := r.reply.project]
      && r.reply.project == Project(name, description, caller.userId, Elems(assignedTo.value), None)
      && r.db.users == db.users && r.db.roles == db.roles
      && r.db.auditLog == db.auditLog + Recorded(db, "Project created", Some(caller.userId),
                                                  "Project ID: " + newId + ", Name: " + name)
  {
    if ProjectNamed(db.projects, name).Some? then
      Outcome(Message(409, "Project with this name already exists"), db)
    else if !CanCreate(db, caller, assignedTo) then
      Outcome(Message(500, "Error creating project"), db)
    else
      var project := Project(name, description, caller.userId, Elems(assignedTo.value), None);
      var d := PutProject(db, newId, project);
      var target := "Project ID: " + newId + ", Name: " + name;
      AuditAfter(db, d, "Project created", Some(caller.userId), target);
      Outcome(ProjectRow(201, newId, project), AppendAudit(d, "Project created", Some(caller.userId), target))
  }

  method CreateProject(st: Store, caller: Claims, name: string, description: string,
                       assignedTo: Option<seq<Id>>, newId: Id) returns (reply: Reply)
    requires Valid(st.State()) && newId !in st.projects
    modifies st
    ensures Outcome(reply, st.State()) ==
      CreateProjectSpec(old(st.State()), caller, name, description, assignedTo, newId)
  {
    if ProjectNamed(st.projects, name).Some? {
      return Message(409, "Project with this name already exists");
    }
    if !CanCreate(st.State(), caller, assignedTo) {
      return Message(500, "Error creating project");
    }
    var project := Project(name, description, caller.userId, Elems(assignedTo.value), None);
    st.projects := st.projects[newId := project];
    CreateAuditLog(st, "Project created", Some(caller.userId), "Project ID: " + newId + ", Name: " + name);
    reply := ProjectRow(201, newId, project);
  }

  // ---------------------------------------------------------------------
  // getProjects

  /** The projects whose `assignedTo` contains the user (`assignedTo: { some: { id } }`). */
  function AssignedTo(db: Db, userId: Id): (rows: map<Id, Project>)
    ensures forall id :: id in rows <==> id in db.projects && userId in db.projects[id].assignedTo
    ensures forall id :: id in rows ==> rows[id] == db.projects[id]
  {
    map id | id in db.projects && userId in db.projects[id].assignedTo :: db.projects[id]
  }

  /**
   * `getProjects` compares the token's `roleId` (a row id) with the literal
   * string 'ADMIN'; neither branch filters soft-deleted projects.
   */
  function GetProjectsSpec(db: Db, caller: Claims): (r: Outcome)
    requires Valid(db)
    ensures Valid(r.db) && Evolves(db, r.db)
    ensures r.reply.ProjectRows?
    ensures caller.roleId == ADMIN ==>
      && r.reply.projects == db.projects
      && r.db == db.(auditLog := db.auditLog + Recorded(db, "Fetched all projects", Some(caller.userId), "N/A"))
    ensures caller.roleId != ADMIN ==>
      && (forall id :: id in r.reply.projects <==> id in db.projects && caller.userId in db.projects[id].assignedTo)
      && (forall id :: id in r.reply.projects ==> r.reply.projects[id] == db.projects[id])
      && r.db == db.(auditLog := db.auditLog + Recorded(db, "Fetched assigned projects", Some(caller.userId), "N/A"))
  {
    if caller.roleId == ADMIN then
      Outcome(ProjectRows(db.projects), AppendAudit(db, "Fetched all projects", Some(caller.userId), "N/A"))
    else
      Outcome(ProjectRows(AssignedTo(db, caller.userId)),
              AppendAudit(db, "Fetched assigned projects", Some(caller.userId), "N/A"))
  }

  method GetProjects(st: Store, caller: Claims) returns (reply: Reply)
    requires Valid(st.State())
    modifies st
    ensures Outcome(reply, st.State()) == GetProjectsSpec(old(st.State()), caller)
  {
    if caller.roleId == ADMIN {
      reply := ProjectRows(st.projects);
      CreateAuditLog(st, "Fetched all projects", Some(caller.userId), "N/A");
    } else {
      reply := ProjectRows(AssignedTo(st.State(), caller.userId));
      CreateAuditLog(st, "Fetched assigned projects", Some(caller.userId), "N/A");
    }
  }

  /**
   * An administrator whose token carries the id of the ADMIN role (and not
   * the string 'ADMIN' itself) is shown only the projects assigned to them.
   */
  lemma AdminTokenSeesOnlyAssigned(db: Db, caller: Claims, pid: Id)
    requires Valid(db)
    requires caller.roleId in db.roles && db.roles[caller.roleId].name == ADMIN && caller.roleId != ADMIN
    requires pid in db.projects && caller.userId !in db.projects[pid].assignedTo
    ensures pid !in GetProjectsSpec(db, caller).reply.projects
  {
  }

  // ---------------------------------------------------------------------
  // getProjectById

  function GetProjectByIdSpec(db: Db, caller: Claims, id: Id): (r: Outcome)
    requires Valid(db)
    ensures Valid(r.db) && Evolves(db, r.db)
    ensures id !in db.projects <==> r.reply == Message(404, "Project not found")
    ensures id !in db.projects ==>
      r.db == db.(auditLog := db.auditLog +
                   Recorded(db, "Failed to fetch project by ID", Some(caller.userId), "Project ID: " + id))
    ensures id in db.projects ==>
      && r.reply == ProjectRow(200, id, db.projects[id])
      && r.db == db.(auditLog := db.auditLog +
                      Recorded(db, "Fetched project by ID", Some(caller.userId), "Project ID: " + id))
  {
    if id !in db.projects then
      Outcome(Message(404, "Project not found"),
              AppendAudit(db, "Failed to fetch project by ID", Some(caller.userId), "Project ID: " + id))
    else
      Outcome(ProjectRow(200, id, db.projects[id]),
              AppendAudit(db, "Fetched project by ID", Some(caller.userId), "Project ID: " + id))
  }

  method GetProjectById(st: Store, caller: Claims, id: Id) returns (reply: Reply)
    requires Valid(st.State())
    modifies st
    ensures Outcome(reply, st.State()) == GetProjectByIdSpec(old(st.State()), caller, id)
  {
    if id !in st.projects {
      CreateAuditLog(st, "Failed to fetch project by ID", Some(caller.userId), "Project ID: " + id);
      return Message(404, "Project not found");
    }
    var project := st.projects[id];
    CreateAuditLog(st, "Fetched project by ID", Some(caller.userId), "Project ID: " + id);
    reply := ProjectRow(200, id, project);
  }

  // ---------------------------------------------------------------------
  // updateProject

  /**
   * The row after `update`: undefined fields stay, the `assignedTo` ids are
   * connected and the `unassignedTo` ids disconnected; an absent list is `[]`.
   */
  function Reassigned(p: Project, name: Option<string>, description: Option<string>,
                      assignedTo: Option<seq<Id>>, unassignedTo: Option<seq<Id>>): (q: Project)
    ensures q.createdById == p.createdById && q.deletedAt == p.deletedAt
    ensures q.name == name.GetOr(p.name) && q.description == description.GetOr(p.description)
    ensures forall u :: u in q.assignedTo <==>
      (u in p.assignedTo || u in assignedTo.GetOr([])) && u !in unassignedTo.GetOr([])
  {
    p.(name := name.GetOr(p.name),
       description := description.GetOr(p.description),
       assignedTo := (p.assignedTo + Elems(assignedTo.GetOr([]))) - Elems(unassignedTo.GetOr([])))
  }

  /** Whether `project.update` succeeds: the row exists, connected users exist, the new name is free. */
  predicate CanUpdate(db: Db, id: Id, name: Option<string>, assignedTo: Option<seq<Id>>): (ok: bool)
    requires Valid(db)
    ensures ok <==>
      && id in db.projects
      && (assignedTo.Some? ==> forall i :: 0 <= i < |assignedTo.value| ==> assignedTo.value[i] in db.users)
      && (name.Some? ==> forall o :: o in db.projects && o != id ==> db.projects[o].name != name.value)
  {
    && id in db.projects
    && Elems(assignedTo.GetOr([])) <= db.users.Keys
    && (name.Some? && ProjectNamed(db.projects, name.value).Some? ==> ProjectNamed(db.projects, name.value).value == id)
  }

  function UpdateProjectSpec(db: Db, caller: Claims, id: Id, name: Option<string>, description: Option<string>,
                             assignedTo: Option<seq<Id>>, unassignedTo: Option<seq<Id>>): (r: Outcome)
    requires Valid(db)
    ensures Valid(r.db) && Evolves(db, r.db)
    ensures id !in db.projects ==> r.reply == Message(500, "Error updating project")
    ensures r.reply.StatusIs(500) <==> !CanUpdate(db, id, name, assignedTo)
    ensures r.reply.StatusIs(500) ==> r.db == db
    ensures !r.reply.StatusIs(500) ==>
      && r.reply.StatusIs(200)
      && r.reply.ProjectRow? && r.reply.id == id
      && r.db.projects == db.projects[id := r.reply.project]
      && r.reply.project == Reassigned(db.projects[id], name, description, assignedTo, unassignedTo)
      && r.db.users == db.users && r.db.roles == db.roles
      && r.db.auditLog == db.auditLog + Recorded(db, "Project updated", Some(caller.userId),
                                                  "Project ID: " + id + ", Name: " + name.GetOr("undefined"))
  {
    if !CanUpdate(db, id, name, assignedTo) then
      Outcome(Message(500, "Error updating project"), db)
    else
      var project := Reassigned(db.projects[id], name, description, assignedTo, unassignedTo);
      var d := PutProject(db, id, project);
      var target := "Project ID: " + id + ", Name: " + name.GetOr("undefined");
      AuditAfter(db, d, "Project updated", Some(caller.userId), target);
      Outcome(ProjectRow(200, id, project), AppendAudit(d, "Project updated", Some(caller.userId), target))
  }

  method UpdateProject(st: Store, caller: Claims, id: Id, name: Option<string>, description: Option<string>,
                       assignedTo: Option<seq<Id>>, unassignedTo: Option<seq<Id>>) returns (reply: Reply)
    requires Valid(st.State())
    modifies st
    ensures Outcome(reply, st.State()) ==
      UpdateProjectSpec(old(st.State()), caller, id, name, description, assignedTo, unassignedTo)
  {
    if !CanUpdate(st.State(), id, name, assignedTo) {
      return Message(500, "Error updating project");
    }
    var project := Reassigned(st.projects[id], name, description, assignedTo, unassignedTo);
    st.projects := st.projects[id := project];
    CreateAuditLog(st, "Project updated", Some(caller.userId), "Project ID: " + id + ", Name: " + name.GetOr("undefined"));
    reply := ProjectRow(200, id, project);
  }

  // ---------------------------------------------------------------------
  // deleteProject / restoreProject

  function DeleteProjectSpec(db: Db, caller: Claims, id: Id, now: Stamp): (r: Outcome)
    requires Valid(db)
    ensures Valid(r.db) && Evolves(db, r.db)
    ensures r.reply.StatusIs(404) <==> id !in db.projects
    ensures r.reply.StatusIs(400) <==> id in db.projects && db.projects[id].deletedAt.Some?
    ensures r.reply.StatusIs(200) <==> id in db.projects && db.projects[id].deletedAt.None?
    ensures !r.reply.StatusIs(200) ==> r.db == db
    ensures r.reply.StatusIs(200) ==>
      && r.reply.ProjectRow? && r.reply.id == id
      && r.db.projects == db.projects[id := r.reply.project]
      && r.reply.project == db.projects[id].(deletedAt := Some(now))
      && r.db.users == db.users && r.db.roles == db.roles
      && r.db.auditLog == db.auditLog + Recorded(db, "Project deleted", Some(caller.userId), "Project ID: " + id)
  {
    if id !in db.projects then Outcome(Message(404, "Project not found"), db)
    else if db.projects[id].deletedAt.Some? then Outcome(Message(400, "Project already deleted"), db)
    else
      var project := db.projects[id].(deletedAt := Some(now));
      var d := PutProject(db, id, project);
      var target := "Project ID: " + id;
      AuditAfter(db, d, "Project deleted", Some(caller.userId), target);
      Outcome(ProjectRow(200, id, project), AppendAudit(d, "Project deleted", Some(caller.userId), target))
  }

  method DeleteProject(st: Store, caller: Claims, id: Id, now: Stamp) returns (reply: Reply)
    requires Valid(st.State())
    modifies st
    ensures Outcome(reply, st.State()) == DeleteProjectSpec(old(st.State()), caller, id, now)
  {
    if id !in st.projects {
      return Message(404, "Project not found");
    }
    if st.projects[id].deletedAt.Some? {
      return Message(400, "Project already deleted");
    }
    var project := st.projects[id].(deletedAt := Some(now));
    st.projects := st.projects[id := project];
    CreateAuditLog(st, "Project deleted", Some(caller.userId), "Project ID: " + id);
    reply := ProjectRow(200, id, project);
  }

  function RestoreProjectSpec(db: Db, caller: Claims, id: Id): (r: Outcome)
    requires Valid(db)
    ensures Valid(r.db) && Evolves(db, r.db)
    ensures r.reply.StatusIs(404) <==> id !in db.projects
    ensures r.reply.StatusIs(400) <==> id in db.projects && db.projects[id].deletedAt.None?
    ensures r.reply.StatusIs(200) <==> id in db.projects && db.projects[id].deletedAt.Some?
    ensures !r.reply.StatusIs(200) ==> r.db == db
    ensures r.reply.StatusIs(200) ==>
      && r.reply.ProjectRow? && r.reply.id == id
      && r.db.projects == db.projects[id := r.reply.project]
      && r.reply.project == db.projects[id].(deletedAt := None)
      && r.db.users == db.users && r.db.roles == db.roles
      && r.db.auditLog == db.auditLog + Recorded(db, "Project restored", Some(caller.userId), "Project ID: " + id)
  {
    if id !in db.projects then Outcome(Message(404, "Project not found"), db)
    else if db.projects[id].deletedAt.None? then
      Outcome(Message(400, "Project is not deleted or already restored"), db)
    else
      var project := db.projects[id].(deletedAt := None);
      var d := PutProject(db, id, project);
      var target := "Project ID: " + id;
      AuditAfter(db, d, "Project restored", Some(caller.userId), target);
      Outcome(ProjectRow(200, id, project), AppendAudit(d, "Project restored", Some(caller.userId), target))
  }

  method RestoreProject(st: Store, caller: Claims, id: Id) returns (reply: Reply)
    requires Valid(st.State())
    modifies st
    ensures Outcome(reply, st.State()) == RestoreProjectSpec(old(st.State()), caller, id)
  {
    if id !in st.projects {
      return Message(404, "Project not found");
    }
    if st.projects[id].deletedAt.None? {
      return Message(400, "Project is not deleted or already restored");
    }
    var project := st.projects[id].(deletedAt := None);
    st.projects := st.projects[id := project];
    CreateAuditLog(st, "Project restored", Some(caller.userId), "Project ID: " + id);
    reply := ProjectRow(200, id, project);
  }

  /** Deleting an active project and restoring it gives back every table but the audit log. */
  lemma DeleteThenRestoreProject(db: Db, caller: Claims, id: Id, now: Stamp)
    requires Valid(db) && id in db.projects && db.projects[id].deletedAt.None?
    ensures var d1 := DeleteProjectSpec(db, caller, id, now);
            var d2 := RestoreProjectSpec(d1.db, caller, id);
            && d1.reply.StatusIs(200) && d2.reply.StatusIs(200)
            && d2.db.projects == db.projects
  {
    var p := db.projects[id];
    var d1 := DeleteProjectSpec(db, caller, id, now);
    var d2 := RestoreProjectSpec(d1.db, caller, id);
    assert d2.db.projects == db.projects[id := p.(deletedAt := Some(now))][id := p];
    PutBack(db.projects, id, p.(deletedAt := Some(now)));
  }
}

# Admin-Panel-API: role-based access control, modelled in Dafny

Admin-Panel-API is an Express and Prisma service for an admin panel. It has users, roles (ADMIN, MANAGER, EMPLOYEE), projects and an audit log. Every request works like this:

- The router runs the route's middlewares in a fixed order: an authorization gate, then a Joi validator (through celebrate), then a controller.
- The gate, `authMiddleware(roles)`, takes a JWT from the `Authorization` header and verifies it. It looks up the role whose id the token carries and admits the request only if that role's name is on the route's list.
- The controller reads and writes the four tables and records what it did with `createAuditLog`.

This project models that decision logic and the state changes it gates:

- **`schema.dfy` (module `Schema`):**
  - the four tables and the database constraints on them (unique emails, role names and project names; every foreign key resolves);
  - the token payload, the replies a handler can send, and the lookups by unique column;
  - `Store`, the Prisma client as one object whose four fields the controllers update in place.
- **`audit_log_controller.dfy`:** the guarded append `createAuditLog` and the full read `getAuditLogs`.
- **`auth_middleware.dfy`:** the gate. It covers `String.prototype.replace` with a string pattern (only the first occurrence is replaced) and the role re-fetch by the token's `roleId`.
- **The four controller files** (`auth_controller.dfy`, `user_controller.dfy`, `role_controller.dfy`, `project_controller.dfy`):
  - each handler is a transition function `XSpec(db, …)` that returns the reply and the tables afterwards;
  - each handler is also a method `X(st, …)` that performs the same steps on the `Store` in place and is proved equal to its `XSpec`;
  - every `XSpec` states its status codes as if-and-only-if conditions, the rows and audit entries a success writes, and that a refusal changes nothing, with three exceptions that follow the source: `AuthController.LoginSpec` audits a 401 for a known email ("Failed login attempt"), `ProjectController.GetProjectByIdSpec` audits its 404 ("Failed to fetch project by ID"), and `AuthController.SignupSpec` seeds the roles table even when it answers 403.
- **`joi.dfy`:** the part of Joi the validators use. Unknown keys are refused; `Joi.string()` refuses the empty string and non-strings; `.min(n)`, `.valid(...)`, `.required()`, `Joi.array().items(...)` and `.min(1)` on an object are modelled. Email and UUID formats are two uninterpreted predicates.
- **The three validation files:** each celebrate validator as a value of that model, with a lemma stating exactly which requests it lets through.
- **`router.dfy` and the four route files:** stages (gate, check, handler) and the chain of each endpoint, with its required roles and its validator.
- **`app.dfy`:** the mounted routers and one request run through its chain. `Run` folds a sequence of requests over the tables. Lemmas state what holds across the whole program.

Only JavaScript behaviour the handlers actually exercise is modelled:

- `undefined` fields;
- a `findUnique` with an undefined key, which throws inside a `try` and becomes the handler's 500;
- an exception that escapes a handler, which becomes the reply `Crash` because no response is written.

A validator that refuses a request produces `Rejected`: the server mounts no celebrate `errors()` handler, so the status comes from Express's default error handler.

Where the code does something its messages or structure would not lead a reader to expect, the model follows the code:

- **Role changes and issued tokens.** The gate re-fetches the role by the `roleId` inside the token, not by the user's current role. A role change does not affect tokens already issued (`RoleController.IssuedTokensSurviveReassignment`).
- **Listing projects.** `getProjects` compares the token's `roleId`, which is a role id, with the string `'ADMIN'`. An ADMIN token therefore sees only its assigned projects (`ProjectController.AdminTokenSeesOnlyAssigned`).
- **Failed logins for unknown emails.** Such a login audits with the actor `'N/A'`. That actor is not null but names no user, so nothing is written (`AuthController.UnknownEmailIsNotAudited`).
- **Second signup.** A second signup is refused with 403 (`AuthController.SecondSignupIsRefused`).
- **Duplicate role assignment.** Assigning the role a user already holds is refused with 400 (`RoleController.AssignTwiceIsRefused`).
- **Create a project without `assignedTo`.** The create validator lets a body without `assignedTo` through. The handler then fails on `assignedTo.map` and answers 500 (`App.CreateProjectWithoutAssignedTo`).

## Model

| member | source | states |
|---|---|---|
| Schema.InsertUser | src/controllers/userController.ts:25-34 | creating a user row under a fresh id, with an existing role and an unused email, keeps every database constraint and adds exactly that row |
| Schema.UpdateUserRow | src/controllers/userController.ts:121-124 | rewriting an existing user row (role still existing, email its own) keeps the constraints and changes only that row |
| Schema.PutProject | src/controllers/projectController.ts:20-29 | writing one project row whose creator and assignees exist and whose name is its own keeps the constraints and changes only the projects table at that id |
| Schema.PutUserKeepsValid | src/controllers/userController.ts:25-34 | a user row with an existing role and an email no other row has can be written without breaking unique emails or foreign keys |
| Schema.PutProjectKeepsValid | src/controllers/projectController.ts:20-29 | a project row with existing users and a name no other project has can be written without breaking the constraints |
| Schema.AddRolesKeepsValid | src/controllers/authController.ts:45-61 | adding role rows with unique names and leaving the existing ones untouched keeps the constraints |
| Schema.UserWithEmail | src/controllers/authController.ts:13-15 | `findUnique({ where: { email } })`: the row whose email it is, or none exactly when no row has that email |
| Schema.RoleNamed | src/controllers/roleController.ts:24-26 | `role.findUnique({ where: { name } })`: the role with that name, or none exactly when no role has it |
| Schema.NatToString | src/controllers/userController.ts:62 | `${users.length}`: a non-empty string of decimal digits, without a leading zero, whose value is the count |
| Schema.Store.constructor | src/controllers/userController.ts:6 | a client over four empty tables, which meet every constraint (`Schema.EmptyIsValid`) |
| Schema.ProjectNamed | src/controllers/projectController.ts:11-13 | `project.findFirst({ where: { name } })`: a project with that name, soft-deleted ones included, or none exactly when no project has it |
| AuditLogController.Recorded | src/controllers/auditLogController.ts:20-37 | the writer records exactly one entry `{action, performedById, targetResource}` when the actor is null or an existing user, and none otherwise |
| AuditLogController.AppendAudit | src/controllers/auditLogController.ts:17-42 | only the audit table changes; it is extended by one entry exactly when the actor is known; the constraints are kept |
| AuditLogController.WriterOnlyAppends | src/controllers/auditLogController.ts:31-37 | every entry already in the log is unchanged after a write |
| AuditLogController.CreateAuditLog | src/controllers/auditLogController.ts:17-42 | the in-place writer leaves the tables as `AppendAudit` says: a non-null unknown actor makes it return without writing and without an error |
| AuditLogController.GetAuditLogs | src/controllers/auditLogController.ts:6-14 | every entry, unfiltered, in the order written, each joined with its actor row when that row exists |
| AuthMiddleware.IndexOf | src/middleware/authMiddleware.ts:8 | the first index at which the pattern occurs, or none when it occurs nowhere |
| AuthMiddleware.TokenOf | src/middleware/authMiddleware.ts:8 | a missing header gives the empty token; otherwise the header with its first `Bearer ` removed, or the header itself when it holds none |
| AuthMiddleware.ReplaceFirst | src/middleware/authMiddleware.ts:8 | `replace` with a string pattern removes only the first occurrence and leaves a string without one as it is |
| AuthMiddleware.BearerPrefixIsStripped | src/middleware/authMiddleware.ts:8 | the header `Bearer <t>` yields the token `<t>` |
| AuthMiddleware.HeaderWithoutBearerPassesThrough | src/middleware/authMiddleware.ts:8 | a header that does not contain `Bearer ` is used as the token unchanged |
| AuthMiddleware.Authorize | src/middleware/authMiddleware.ts:7-22 | 401 exactly when the token is empty or missing; 403 on a verification error; admission exactly when the role named by the token's roleId exists and its name is required, with `req.user` the decoded payload; a crash exactly when that role id names no role |
| AuthMiddleware.NoTokenNeverVerified | src/middleware/authMiddleware.ts:8-9 | without a token the outcome is 401 whatever the verifier would say |
| AuthMiddleware.OnlyTokenRoleIsRead | src/middleware/authMiddleware.ts:13-21 | the decision depends only on the role record with the token's roleId, never on the user's current row |
| AuthController.LoginSpec | src/controllers/authController.ts:10-39 | a token exactly when some user has that email and the password matches, with payload `{userId, roleId}` at issuance and a one-day lifetime; otherwise the one reply "Invalid email or password"; the three audit outcomes; no table but the log changes |
| AuthController.Login | src/controllers/authController.ts:10-39 | the in-place login equals `LoginSpec` |
| AuthController.UnknownEmailIsNotAudited | src/controllers/authController.ts:17-19 | with actor `'N/A'` and no user of that id, a failed login for an unknown email leaves every table, the log included, unchanged |
| AuthController.SoftDeletedUserCanLogIn | src/controllers/authController.ts:13-38 | a soft-deleted user with the right password still gets a token |
| AuthController.UpsertRole | src/controllers/authController.ts:45-61 | an upsert with an empty update creates the role when its name is missing and otherwise leaves the table exactly as it was; no existing role is altered |
| AuthController.Admins | src/controllers/authController.ts:66-70 | exactly the users whose role is named ADMIN |
| AuthController.AdminCountPositive | src/controllers/authController.ts:66-74 | the admin count is positive exactly when some user's role is named ADMIN |
| AuthController.SeedingKeepsRoleNames | src/controllers/authController.ts:45-70 | adding roles does not change whether an admin exists |
| AuthController.SeededRoles | src/controllers/authController.ts:45-61 | after the three upserts ADMIN, EMPLOYEE and MANAGER exist, names stay unique, existing roles are untouched, and a table that had all three is unchanged |
| AuthController.Seeded | src/controllers/authController.ts:45-61 | the upserts change only the roles table, keep the constraints, and do not change whether an admin exists |
| AuthController.Bootstrap | src/controllers/authController.ts:66-94 | 403 exactly when an admin exists; a crash (no try) exactly when none exists and the email is taken; otherwise 201 with one new ADMIN user row and one "Admin signed up" entry |
| AuthController.SignupSpec | src/controllers/authController.ts:41-95 | the three roles exist afterwards even when signup is refused; 403 exactly when an admin already exists; 201 exactly when none exists and the email is free; a refusal adds no user and no audit entry |
| AuthController.SignupEffect | src/controllers/authController.ts:76-94 | a successful signup adds exactly one user under the new id with the given fields and the ADMIN role, and audits it with the new user as actor |
| AuthController.UpsertRoleIn | src/controllers/authController.ts:45-49 | one upsert on the store changes only the roles table, as `UpsertRole` says |
| AuthController.SeedingSteps | src/controllers/authController.ts:45-61 | the three upserts in signup's order give the seeded roles table |
| AuthController.SeedRoles | src/controllers/authController.ts:45-61 | the in-place upserts leave the store as `Seeded` says |
| AuthController.BootstrapAdmin | src/controllers/authController.ts:66-94 | the in-place admin count and user creation equal `Bootstrap` |
| AuthController.Signup | src/controllers/authController.ts:41-95 | the in-place signup equals `SignupSpec` |
| AuthController.SecondSignupIsRefused | src/controllers/authController.ts:72-73 | once a signup has succeeded, every later signup answers 403 "An admin already exists" and changes nothing |
| AuthController.RegisterUserSpec | src/controllers/authController.ts:98-133 | 409 exactly when the email exists; 500 exactly when it is free and no role has the given name; otherwise 201 with one new user of that role, audited with the creator's id; a refusal changes nothing |
| AuthController.RegisterUser | src/controllers/authController.ts:98-133 | the in-place registration equals `RegisterUserSpec` |
| UserController.CreateUserSpec | src/controllers/userController.ts:8-43 | 409 exactly when the email exists, 201 exactly when it is free and the role exists, 500 otherwise; a refusal changes nothing; a success adds one user with the named role and one "User created" entry |
| UserController.CreateUser | src/controllers/userController.ts:8-43 | the in-place creation equals `CreateUserSpec` |
| UserController.NonAdmins | src/controllers/userController.ts:50-61 | exactly the user rows whose role is not named ADMIN |
| UserController.GetUsersSpec | src/controllers/userController.ts:46-69 | returns exactly the users whose role name is not ADMIN, and only appends "Users retrieved" with their count |
| UserController.GetUsers | src/controllers/userController.ts:46-69 | the in-place listing equals `GetUsersSpec` |
| UserController.GetUserByIdSpec | src/controllers/userController.ts:71-94 | 404 exactly when the id is missing, with no audit entry; otherwise the row, and one "User retrieved by ID" entry |
| UserController.GetUserById | src/controllers/userController.ts:71-94 | the in-place read equals `GetUserByIdSpec` |
| UserController.Updated | src/controllers/userController.ts:101-108 | an undefined username or email leaves that field; the password changes, to the new hash, only when a non-empty one is supplied; role and deletion stamp stay |
| UserController.UpdateUserSpec | src/controllers/userController.ts:96-133 | 404 exactly when the id is missing; 500 exactly when the new email belongs to another user (no pre-check, the unique constraint fails); 200 exactly when the id exists and the new email, if any, is no other user's, and then only that row changes, as `Updated` says, and is audited once |
| UserController.UpdateUser | src/controllers/userController.ts:96-133 | the in-place update equals `UpdateUserSpec` |
| UserController.DeleteUserSpec | src/controllers/userController.ts:136-170 | 404 when absent, 400 when already deleted, otherwise `deletedAt` is set on that row only and one "User deleted" entry is appended; refusals change nothing |
| UserController.DeleteUser | src/controllers/userController.ts:136-170 | the in-place deletion equals `DeleteUserSpec` |
| UserController.RestoreUserSpec | src/controllers/userController.ts:171-205 | 404 when absent, 400 when not deleted, otherwise `deletedAt` is cleared on that row only and one "User restored" entry is appended; refusals change nothing |
| UserController.RestoreUser | src/controllers/userController.ts:171-205 | the in-place restoration equals `RestoreUserSpec` |
| UserController.DeleteThenRestore | src/controllers/userController.ts:156-196 | deleting an active user and restoring it both succeed and give back the users, roles and projects tables exactly; the log has only grown |
| UserController.DeleteIsNotRepeatable | src/controllers/userController.ts:150-153 | a second delete of the same user answers 400 and changes nothing |
| RoleController.AssignRoleSpec | src/controllers/roleController.ts:8-61 | 404 "User not found" exactly when the user is missing; 404 "Role not found" exactly when no role has the name; 400 exactly when the user already holds it; 500 exactly when the user exists and the body has no role name; 200 exactly when the user exists, a role has the name and the user does not already hold it; every refusal changes nothing |
| RoleController.AssignRoleEffect | src/controllers/roleController.ts:43-57 | a successful assignment sets only that user's roleId, to the id of the role with that name, and appends one "Role assigned to user" entry |
| RoleController.AssignRoleToUser | src/controllers/roleController.ts:8-61 | the in-place assignment equals `AssignRoleSpec` |
| RoleController.RevokeRoleSpec | src/controllers/roleController.ts:65-96 | 404 exactly when no EMPLOYEE role exists; 500 exactly when it exists and the user does not (the update fails inside the try); 200 exactly when both exist; refusals change nothing |
| RoleController.RevokeRoleEffect | src/controllers/roleController.ts:80-92 | a successful revocation sets only that user's roleId to EMPLOYEE's id and appends one entry naming the new role |
| RoleController.RevokeRoleFromUser | src/controllers/roleController.ts:65-96 | the in-place revocation equals `RevokeRoleSpec` |
| RoleController.AssignTwiceIsRefused | src/controllers/roleController.ts:38-40 | assigning the role just assigned answers 400, not 409, and changes nothing |
| RoleController.RevokeTwiceSucceedsTwice | src/controllers/roleController.ts:80-92 | there is no "already EMPLOYEE" check: a second revocation succeeds again and leaves the users table as the first left it |
| RoleController.IssuedTokensSurviveReassignment | src/controllers/roleController.ts:43-52 | assigning or revoking a role never changes the gate's decision on any token already issued |
| ProjectController.CanCreate | src/controllers/projectController.ts:20-29 | every key the create connects resolves exactly when `assignedTo` is present, the creator is a user row and every listed id names a user row; with the name free, this is exactly when the create answers 201 (`ProjectController.CreateProjectSpec`) |
| ProjectController.CreateProjectSpec | src/controllers/projectController.ts:7-38 | 409 exactly when any project, soft-deleted ones included, has the name; 500 exactly when the name is free but a key the create connects does not resolve (`assignedTo` missing, an assignee or the creator not a user row); 201 exactly when the name is free and every such key resolves, with one new project created by the caller, assigned to exactly the given ids, and one "Project created" entry |
| ProjectController.CreateProject | src/controllers/projectController.ts:7-38 | the in-place creation equals `CreateProjectSpec` |
| ProjectController.AssignedTo | src/controllers/projectController.ts:51-59 | exactly the projects whose `assignedTo` contains the user |
| ProjectController.GetProjectsSpec | src/controllers/projectController.ts:40-69 | all projects when the token's roleId equals the literal `'ADMIN'`, else exactly those assigned to the caller, soft-deleted ones included; only the matching audit entry is appended |
| ProjectController.GetProjects | src/controllers/projectController.ts:40-69 | the in-place listing equals `GetProjectsSpec` |
| ProjectController.AdminTokenSeesOnlyAssigned | src/controllers/projectController.ts:46 | an ADMIN token whose roleId is a role id, not the string `'ADMIN'`, does not see projects it is not assigned to |
| ProjectController.GetProjectByIdSpec | src/controllers/projectController.ts:72-95 | 404 exactly when the project is missing, and even then "Failed to fetch project by ID" is audited; otherwise the row and "Fetched project by ID" |
| ProjectController.GetProjectById | src/controllers/projectController.ts:72-95 | the in-place read equals `GetProjectByIdSpec` |
| ProjectController.Reassigned | src/controllers/projectController.ts:104-114 | a user is assigned afterwards exactly when it was assigned or connected and is not disconnected; undefined name or description leave the field |
| ProjectController.CanUpdate | src/controllers/projectController.ts:104-114 | the update succeeds exactly when the project exists, every id to connect names a user row and a new name belongs to no other project |
| ProjectController.UpdateProjectSpec | src/controllers/projectController.ts:98-123 | a missing project gives 500 (no existence check); a failed connect or a name taken by another project gives 500 and no change; otherwise 200, only that row changes as `Reassigned` says, and one "Project updated" entry |
| ProjectController.UpdateProject | src/controllers/projectController.ts:98-123 | the in-place update equals `UpdateProjectSpec` |
| ProjectController.DeleteProjectSpec | src/controllers/projectController.ts:125-157 | 404 when absent, 400 when already deleted, otherwise `deletedAt` is set on that row only and audited; refusals change nothing |
| ProjectController.DeleteProject | src/controllers/projectController.ts:125-157 | the in-place deletion equals `DeleteProjectSpec` |
| ProjectController.RestoreProjectSpec | src/controllers/projectController.ts:159-191 | 404 when absent, 400 when not deleted, otherwise `deletedAt` is cleared on that row only and audited; refusals change nothing |
| ProjectController.RestoreProject | src/controllers/projectController.ts:159-191 | the in-place restoration equals `RestoreProjectSpec` |
| ProjectController.DeleteThenRestoreProject | src/controllers/projectController.ts:143-182 | deleting an active project and restoring it both succeed and give back the projects table exactly |
| Joi.TextOf | src/controllers/userController.ts:98 | `req.body.k` is a string exactly when the key holds one, and then it is that string |
| Joi.IdsOf | src/controllers/projectController.ts:100 | `req.body.k` read as a list of ids: present exactly when the key holds an array of strings, and then element by element those strings |
| Joi.JsLength | src/validation/authValidation.ts:10 | the JavaScript `length` that `.min(n)` compares: at least the number of characters, at most twice it, and equal to it when no character lies outside the Basic Multilingual Plane |
| Joi.ByIdAcceptsExactly | src/validation/projectValidation.ts:48-56 | `getProjectByIdValidation`, and the identical `getUserByIdValidation` (src/validation/userValidation.ts:50-58), pass exactly when the path holds only a UUID id |
| Joi.UuidArrayReadsBack | src/validation/projectValidation.ts:13 | an array that passed `Joi.array().items(Joi.string().uuid())` reads back as a list of UUIDs |
| AuthValidation.KeysDemand | src/validation/authValidation.ts:39-57 | what each field rule demands: a non-empty string, an email, a JavaScript length of at least 6, one of the three role names |
| AuthValidation.LoginAcceptsExactly | src/validation/authValidation.ts:3-16 | login passes exactly when the body has only email and password, the email is an email and the password has a JavaScript length of at least 6 |
| AuthValidation.SignupAcceptsExactly | src/validation/authValidation.ts:18-35 | signup passes exactly when the body has only username, email and password, all present, with the same email and password rules |
| AuthValidation.RegisterAcceptsExactly | src/validation/authValidation.ts:37-59 | register passes exactly when signup's rules hold and the role is ADMIN, MANAGER or EMPLOYEE, with no other key |
| AuthValidation.ShortPasswordIsRefused | src/validation/authValidation.ts:10-14 | a password of JavaScript length below 6 is refused by login, signup and register |
| AuthValidation.AstralPasswordIsLongEnough | src/validation/authValidation.ts:10 | a password of three emoji, JavaScript length 6, passes login although it holds three characters |
| AuthValidation.UsernameIsRequired | src/validation/authValidation.ts:20-23 | an empty or missing username is refused by signup and register |
| ProjectValidation.KeysDemand | src/validation/projectValidation.ts:5-42 | what each field rule demands, required or optional |
| ProjectValidation.CreateAcceptsExactly | src/validation/projectValidation.ts:3-18 | create passes exactly when name and description are non-empty strings, `assignedTo` if present is an array of UUIDs, and there is no other key |
| ProjectValidation.UpdateAcceptsExactly | src/validation/projectValidation.ts:20-46 | update passes exactly when the path id is a UUID, the body has at least one of the four keys and no other, and each present key follows its rule |
| ProjectValidation.UpdateNamesAField | src/validation/projectValidation.ts:28-45 | an accepted update body contains at least one of name, description, assignedTo, unassignedTo |
| ProjectValidation.AssignedToIsOptional | src/validation/projectValidation.ts:13-16 | a create body with only a name and a description passes |
| UserValidation.KeysDemand | src/validation/userValidation.ts:29-44 | what each optional field rule and the id rule demand |
| UserValidation.CreateIsRegister | src/validation/userValidation.ts:3-25 | the create-user schema is the register schema |
| UserValidation.CreateAcceptsExactly | src/validation/userValidation.ts:3-25 | create passes exactly when username, email, password (JavaScript length 6 or more) and a valid role are present and nothing else |
| UserValidation.UpdateAcceptsExactly | src/validation/userValidation.ts:27-48 | update passes exactly when the id is a UUID, the body has at least one of username, email, password and no other key, and each present key follows its rule |
| UserValidation.UpdateShape | src/validation/userValidation.ts:35-47 | an accepted update body has no role and at least one of username, email, password |
| Router.CheckOf | src/routes/users.ts:17-24 | the validator a chain runs just before its handler, if any |
| Router.RouteShapes | src/routes/users.ts:17-24 | the three chain shapes the routers use (gate, validator, handler; gate, handler; validator, handler) end in their one handler with no validator before a gate, and validate exactly when they hold a validator stage |
| UserRoutes.Chain | src/routes/users.ts:17-24 | every /users endpoint starts with a gate; listing admits ADMIN and MANAGER, get-by-id all three roles, every other endpoint ADMIN alone; create, get-by-id and update validate, with their own schema, after the gate; the rest do not validate |
| ProjectRoutes.Chain | src/routes/projects.ts:19-24 | listing and get-by-id admit all three roles, the rest ADMIN alone; create, get-by-id and update validate after the gate; delete and restore do not validate |
| AuthRoutes.Chain | src/routes/auth.ts:16-18 | login and signup are open, register is gated to ADMIN; all three validate, register after its gate |
| AuditLogRoutes.Chain | src/routes/auditLogs.ts:7 | the one audit-log route is gated to ADMIN alone and has no validator |
| App.Chain | src/server.ts:16-19 | every mounted route ends in its handler with no validator before a gate, and its first stage is a gate exactly unless it is login or signup |
| App.Dispatch | src/server.ts:16-19 | the handler a mounted route reaches keeps the constraints and lets the tables only evolve forward; the audit-log read returns the whole log and changes nothing |
| App.DispatchUsers | src/routes/users.ts:17-24 | whatever /users endpoint is reached, with or without a caller, its handler leaves the tables within the database constraints, removes no user or project row, alters no role and only extends the audit log |
| App.DispatchProjects | src/routes/projects.ts:19-24 | whatever /projects endpoint is reached, its handler leaves the tables within the constraints and only lets them evolve forward |
| App.DispatchAuth | src/routes/auth.ts:16-18 | whatever /auth endpoint is reached, its handler leaves the tables within the constraints and only lets them evolve forward |
| App.RunChain | src/middleware/authMiddleware.ts:9-21 | running a route's gate, validator and handler in turn leaves the tables within the constraints and only lets them evolve forward |
| App.Handle | src/server.ts:16-19 | one request, run through its route's chain with no `req.user` yet, keeps the constraints and lets the tables only evolve forward |
| App.Run | src/server.ts:12-19 | one reply per request; an empty run leaves the tables as they were; the first reply is the one the first request gets on the initial tables (what holds over the whole run is `App.RunKeepsConstraints`) |
| App.RunKeepsConstraints | src/server.ts:16-19 | over any sequence of requests the database constraints hold, no user or project row disappears, no role row changes, and the audit log only grows |
| App.GateRefusalIsFinal | src/routes/users.ts:17-20 | a request the gate refuses gets the gate's reply whatever its body: no validation error and no change |
| App.NoTokenIsUnauthorized | src/middleware/authMiddleware.ts:8-9 | without a token every route but login and signup answers 401 and changes nothing |
| App.OpenRoutesIgnoreTheHeader | src/routes/auth.ts:16-17 | login and signup answer the same with or without an Authorization header |
| App.AuditLogIsAdminOnly | src/routes/auditLogs.ts:7 | the audit log is returned, unchanged and complete, exactly when the ADMIN gate admits the token |
| App.CreateProjectWithoutAssignedTo | src/controllers/projectController.ts:19-37 | for an admitted ADMIN token and a name no project has, a create-project body without `assignedTo` passes validation and then answers 500, creating nothing |
| App.RefusedLoginIsNotAudited | src/routes/auth.ts:16 | every login request the LOGIN validator refuses (missing or malformed credentials, or any extra key) never reaches the handler: no audit entry, no change |
| App.NonAdminIsForbiddenAdminRoutes | src/middleware/authMiddleware.ts:20 | a verified token whose role exists and is not named ADMIN gets 403 on every ADMIN-only route, the audit log included, and nothing changes |
| App.EmployeeCannotListUsers | src/routes/users.ts:18 | an EMPLOYEE token gets 403 on the user listing |

## Left out

- JWT signing, the secret, signature checking and expiry are left out. The gate receives a `verify` oracle from token to payload. A login success is the reply `TokenIssued` with the payload and the one-day lifetime.
- Strings are sequences of Unicode characters. A JavaScript string holding a lone surrogate has no counterpart, so the validators' lemmas (`AuthValidation.KeysDemand`, the `...AcceptsExactly` lemmas, `UserValidation.KeysDemand`) say nothing about such input.
- AuditLogController.GetAuditLogs: `findMany` without `orderBy` promises no order. The model returns the entries in the order they were written.
- Schema.Store.constructor: the client starts over empty tables. A database that already holds rows is covered by the transition functions, which take any `Db` that meets the constraints.
- bcrypt is left out. `compare` is an uninterpreted predicate and the stored hash is a parameter, or the `hash` service in `App`.
- The email and UUID formats are uninterpreted predicates. Joi's error messages, and the exact status celebrate's error reaches, are folded into the one reply `Rejected`.
- Ids and timestamps are left out in two ways:
  - Generated ids are not modelled as UUIDs. In `App`, `FreshId` gives an id no table uses yet, and the controller functions take the new id as a parameter.
  - `new Date()` is a `Stamp` parameter. Audit entries carry no id and no creation time.
- Storage faults are left out: a failing database, and `createAuditLog` rethrowing them as a generic error (src/controllers/auditLogController.ts:38-41). The 500 branches that the modelled data does cause are modelled: an unknown role, a missing row, a taken unique value, a missing `assignedTo`.
- `login` and `signup` have no `try`. In the model:
  - a unique-email violation in signup is the reply `Crash`;
  - other rejections in these two handlers are not modelled.
- `AuditLogController.CreateAuditLog`: the source's `performedById` parameter is typed as a string. The null case exists only as `None`, since no caller passes null.
- `ProjectController.CreateProjectSpec` and `ProjectController.UpdateProjectSpec` are weaker than the source in two ways:
  - They assume the database's unique constraint on project names, through the model's constraints. A rename onto a taken name is a 500.
  - A `disconnect` of an id that is not connected is treated as a no-op.
- UserController.GetUsersSpec: returns the user rows without the role record that `include: { role: true }` attaches (src/controllers/userController.ts:58-60). The role is read through the join only to filter out ADMIN users.
- UserController.GetUserByIdSpec: returns the user row without the role record that `include: { role: true }` attaches (src/controllers/userController.ts:78-80).
- Concurrency is left out: check-then-act races between requests, and the scheduling of the asynchronous verify callback. Each request is one sequential step.
- Path matching, the HTTP methods, CORS, logging and `listen` in src/server.ts are not part of this model. An endpoint is a constructor of `Route`.
- The `permissions` stored on each role are modelled as data. The source never consults them.

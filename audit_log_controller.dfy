/**
 * The audit-log writer `createAuditLog` and the audit-log read `getAuditLogs`.
 *
 * The writer checks the actor only when it is not null: a non-null actor
 * that names no user row makes it return without writing and without an
 * error. Every caller in the controllers passes a string, so the null case
 * is reachable only through `None` here.
 */
module AuditLogController {
  import opened Schema

  /** The actor is null, or names an existing user row. */
  predicate ActorKnown(db: Db, actor: Option<Id>) {
    actor.None? || actor.value in db.users
  }

  /** The entries one call of the writer appends: one, or none. */
  function Recorded(db: Db, action: string, actor: Option<Id>, target: string): (es: seq<Entry>)
    ensures |es| <= 1
    ensures |es| == 1 <==> ActorKnown(db, actor)
    ensures |es| == 1 ==> es[0] == Entry(action, actor, target)
  {
    if ActorKnown(db, actor) then [Entry(action, actor, target)] else []
  }

  /** The effect of `createAuditLog(action, performedById, targetResource)` on the tables. */
  function AppendAudit(db: Db, action: string, actor: Option<Id>, target: string): (d: Db)
    ensures d.users == db.users && d.roles == db.roles && d.projects == db.projects
    ensures db.auditLog <= d.auditLog
    ensures |d.auditLog| == |db.auditLog| + (if ActorKnown(db, actor) then 1 else 0)
    ensures ActorKnown(db, actor) ==> d.auditLog[|db.auditLog|] == Entry(action, actor, target)
    ensures Valid(db) ==> Valid(d)
  {
    db.(auditLog := db.auditLog + Recorded(db, action, actor, target))
  }

  /** Auditing after a change that kept the constraints keeps them, and only extends the log. */
  lemma AuditAfter(db: Db, d: Db, action: string, actor: Option<Id>, target: string)
    requires Valid(d) && Evolves(db, d)
    ensures Valid(AppendAudit(d, action, actor, target)) && Evolves(db, AppendAudit(d, action, actor, target))
    ensures d.users.Keys == db.users.Keys ==> Recorded(d, action, actor, target) == Recorded(db, action, actor, target)
  {
    EvolvesTransitive(db, d, AppendAudit(d, action, actor, target));
    if d.users.Keys == db.users.Keys {
      assert ActorKnown(d, actor) == ActorKnown(db, actor);
    }
  }

  /** The writer never rewrites or drops an entry already in the log. */
  lemma WriterOnlyAppends(db: Db, action: string, actor: Option<Id>, target: string, i: nat)
    requires i < |db.auditLog|
    ensures AppendAudit(db, action, actor, target).auditLog[i] == db.auditLog[i]
  {
  }

  /** `createAuditLog`, updating the audit table of the store in place. */
  method CreateAuditLog(st: Store, action: string, performedById: Option<Id>, targetResource: string)
    modifies st`auditLog
    ensures st.State() == AppendAudit(old(st.State()), action, performedById, targetResource)
  {
    if performedById.Some? {
      if performedById.value !in st.users {
        return;
      }
    }
    st.auditLog := st.auditLog + [Entry(action, performedById, targetResource)];
  }

  /** `getAuditLogs`: every entry, in order, joined with its actor (`include: { performedBy: true }`). */
  function GetAuditLogs(db: Db): (rows: seq<LogRow>)
    ensures |rows| == |db.auditLog|
    ensures forall i :: 0 <= i < |rows| ==> rows[i].entry == db.auditLog[i]
    ensures forall i :: 0 <= i < |rows| ==>
      rows[i].performedBy ==
        (match db.auditLog[i].performedById
         case Some(u) => if u in db.users then Some(db.users[u]) else None
         case None => None)
  {
    seq(|db.auditLog|, i requires 0 <= i < |db.auditLog| =>
      var e := db.auditLog[i];
      LogRow(e, if e.performedById.Some? && e.performedById.value in db.users
                then Some(db.users[e.performedById.value]) else None))
  }
}

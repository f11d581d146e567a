/** `routes/projects.ts`: the /projects endpoints, each with its gate and validator. */
module ProjectRoutes {
  import opened Schema
  import opened Router
  import ProjectValidation

  datatype Endpoint = Create | List | GetById | Update | Delete | Restore

  function Chain(e: Endpoint): (c: seq<Stage>)
    ensures Ordered(c)
    ensures FirstGate(c).Some?
    ensures FirstGate(c).value == (if e in {List, GetById} then [ADMIN, MANAGER, EMPLOYEE] else [ADMIN])
    ensures Validates(c) <==> e in {Create, GetById, Update}
    ensures CheckOf(c) == (match e
                           case Create => Some(ProjectValidation.CREATE)
                           case GetById => Some(ProjectValidation.GET_BY_ID)
                           case Update => Some(ProjectValidation.UPDATE)
                           case _ => None)
  {
    RouteShapes([ADMIN], ProjectValidation.CREATE);
    RouteShapes([ADMIN, MANAGER, EMPLOYEE], ProjectValidation.GET_BY_ID);
    RouteShapes([ADMIN], ProjectValidation.UPDATE);
    match e
    case Create => [Gate([ADMIN]), Check(ProjectValidation.CREATE), Handler]
    case List => [Gate([ADMIN, MANAGER, EMPLOYEE]), Handler]
    case GetById => [Gate([ADMIN, MANAGER, EMPLOYEE]), Check(ProjectValidation.GET_BY_ID), Handler]
    case Update => [Gate([ADMIN]), Check(ProjectValidation.UPDATE), Handler]
    case Delete => [Gate([ADMIN]), Handler]
    case Restore => [Gate([ADMIN]), Handler]
  }
}

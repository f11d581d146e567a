/** `routes/users.ts`: the /users endpoints, each with its gate and validator. */
module UserRoutes {
  import opened Schema
  import opened Router
  import UserValidation

  datatype Endpoint = Create | List | GetById | Update | Delete | Restore | AssignRole | RevokeRole

  function Chain(e: Endpoint): (c: seq<Stage>)
    ensures Ordered(c)
    ensures FirstGate(c).Some?
    ensures FirstGate(c).value == (match e
                                   case List => [ADMIN, MANAGER]
                                   case GetById => [ADMIN, MANAGER, EMPLOYEE]
                                   case _ => [ADMIN])
    ensures Validates(c) <==> e in {Create, GetById, Update}
    ensures CheckOf(c) == (match e
                           case Create => Some(UserValidation.CREATE)
                           case GetById => Some(UserValidation.GET_BY_ID)
                           case Update => Some(UserValidation.UPDATE)
                           case _ => None)
  {
    RouteShapes([ADMIN], UserValidation.CREATE);
    RouteShapes([ADMIN, MANAGER], UserValidation.CREATE);
    RouteShapes([ADMIN, MANAGER, EMPLOYEE], UserValidation.GET_BY_ID);
    RouteShapes([ADMIN], UserValidation.UPDATE);
    match e
    case Create => [Gate([ADMIN]), Check(UserValidation.CREATE), Handler]
    case List => [Gate([ADMIN, MANAGER]), Handler]
    case GetById => [Gate([ADMIN, MANAGER, EMPLOYEE]), Check(UserValidation.GET_BY_ID), Handler]
    case Update => [Gate([ADMIN]), Check(UserValidation.UPDATE), Handler]
    case Delete => [Gate([ADMIN]), Handler]
    case Restore => [Gate([ADMIN]), Handler]
    case AssignRole => [Gate([ADMIN]), Handler]
    case RevokeRole => [Gate([ADMIN]), Handler]
  }
}

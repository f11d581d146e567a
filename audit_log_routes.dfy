/** `routes/auditLogs.ts`: the one audit-log endpoint, `GET /`, gated to ADMIN, without a validator. */
module AuditLogRoutes {
  import opened Schema
  import opened Router
  import Joi

  datatype Endpoint = List

  function Chain(e: Endpoint): (c: seq<Stage>)
    ensures Ordered(c) && !Validates(c)
    ensures FirstGate(c) == Some([ADMIN]) && CheckOf(c).None?
  {
    RouteShapes([ADMIN], Joi.Validator(None, None));
    [Gate([ADMIN]), Handler]
  }
}

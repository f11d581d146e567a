/** `routes/auth.ts`: login and signup are open, register is for ADMIN; all three validate. */
module AuthRoutes {
  import opened Schema
  import opened Router
  import AuthValidation

  datatype Endpoint = Login | Signup | Register

  function Chain(e: Endpoint): (c: seq<Stage>)
    ensures Ordered(c) && Validates(c)
    ensures FirstGate(c).Some? <==> e == Register
    ensures e == Register ==> FirstGate(c).value == [ADMIN]
    ensures CheckOf(c) == Some(match e
                               case Login => AuthValidation.LOGIN
                               case Signup => AuthValidation.SIGNUP
                               case Register => AuthValidation.REGISTER)
  {
    RouteShapes([ADMIN], AuthValidation.REGISTER);
    RouteShapes([], AuthValidation.LOGIN);
    RouteShapes([], AuthValidation.SIGNUP);
    match e
    case Login => [Check(AuthValidation.LOGIN), Handler]
    case Signup => [Check(AuthValidation.SIGNUP), Handler]
    case Register => [Gate([ADMIN]), Check(AuthValidation.REGISTER), Handler]
  }
}

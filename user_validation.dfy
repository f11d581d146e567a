/**
 * The schemas of `POST /users`, `PUT /users/:id` and `GET /users/:id`,
 * and what each of them lets through.
 */
module UserValidation {
  import opened Schema
  import opened Joi
  import AuthValidation

  const USERNAME := AuthValidation.USERNAME
  const EMAIL := AuthValidation.EMAIL
  const PASSWORD := AuthValidation.PASSWORD
  const ROLE := AuthValidation.ROLE
  const ID := UUID_ID

  /** `createUserValidation`. */
  const CREATE := Validator(None, Some(ObjectSchema([USERNAME, EMAIL, PASSWORD, ROLE], 0)))

  /** `updateUserValidation`: username, email and password, all optional, at least one; no role. */
  const UPDATE := Validator(Some(ObjectSchema([ID], 0)),
                            Some(ObjectSchema([USERNAME.(required := false), EMAIL.(required := false),
                                               PASSWORD.(required := false)], 1)))

  /** `getUserByIdValidation`. */
  const GET_BY_ID := BY_ID

  lemma KeysDemand(f: Formats, obj: Body)
    ensures KeyOk(f, USERNAME.(required := false), obj) <==> ("username" in obj ==> Filled(obj, "username"))
    ensures KeyOk(f, EMAIL.(required := false), obj) <==>
      ("email" in obj ==> Filled(obj, "email") && f.isEmail(obj["email"].s))
    ensures KeyOk(f, PASSWORD.(required := false), obj) <==>
      ("password" in obj ==> Filled(obj, "password") && JsLength(obj["password"].s) >= 6)
    ensures KeyOk(f, ID, obj) <==> Filled(obj, "id") && f.isUuid(obj["id"].s)
  {
  }

  /** `createUserValidation` and `registerUserValidation` let through the same bodies. */
  lemma CreateIsRegister()
    ensures CREATE == AuthValidation.REGISTER
  {
  }

  lemma CreateAcceptsExactly(f: Formats, params: Body, body: Body)
    ensures Accepts(f, CREATE, params, body) <==>
      && body.Keys <= {"username", "email", "password", "role"}
      && Filled(body, "username") && AuthValidation.Credentials(f, body)
      && "role" in body && body["role"].JString? && body["role"].s in {ADMIN, MANAGER, EMPLOYEE}
  {
    AuthValidation.RegisterAcceptsExactly(f, params, body);
  }

  lemma UpdateAcceptsExactly(f: Formats, params: Body, body: Body)
    ensures Accepts(f, UPDATE, params, body) <==>
      && UuidParam(f, params)
      && body.Keys <= {"username", "email", "password"} && |body.Keys| >= 1
      && ("username" in body ==> Filled(body, "username"))
      && ("email" in body ==> Filled(body, "email") && f.isEmail(body["email"].s))
      && ("password" in body ==> Filled(body, "password") && JsLength(body["password"].s) >= 6)
  {
    KeysDemand(f, params);
    KeysDemand(f, body);
    OneKey(f, ID, params);
    ThreeKeys(f, USERNAME.(required := false), EMAIL.(required := false), PASSWORD.(required := false), body);
  }

  /** An update body carries no role and at least one of username, email, password. */
  lemma UpdateShape(f: Formats, params: Body, body: Body)
    requires Accepts(f, UPDATE, params, body)
    ensures "role" !in body
    ensures exists k :: k in {"username", "email", "password"} && k in body
  {
    UpdateAcceptsExactly(f, params, body);
    assert body.Keys != {};
    var k :| k in body.Keys;
    assert k in {"username", "email", "password"};
  }
}

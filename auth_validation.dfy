/**
 * The body schemas of `POST /auth/login`, `/auth/signup` and
 * `/auth/register`, and what each of them lets through.
 */
module AuthValidation {
  import opened Schema
  import opened Joi

  const USERNAME := Key("username", Text(AnyText, 0, None), true)
  const EMAIL := Key("email", Text(Email, 0, None), true)
  const PASSWORD := Key("password", Text(AnyText, 6, None), true)
  const ROLE := Key("role", Text(AnyText, 0, Some({ADMIN, MANAGER, EMPLOYEE})), true)

  /** `loginValidation`. */
  const LOGIN := Validator(None, Some(ObjectSchema([EMAIL, PASSWORD], 0)))

  /** `signupValidation`. */
  const SIGNUP := Validator(None, Some(ObjectSchema([USERNAME, EMAIL, PASSWORD], 0)))

  /** `registerUserValidation`. */
  const REGISTER := Validator(None, Some(ObjectSchema([USERNAME, EMAIL, PASSWORD, ROLE], 0)))

  /** The credentials both login and signup demand: an email address and a password of JavaScript length 6 or more. */
  predicate Credentials(f: Formats, body: Body) {
    && Filled(body, "email") && f.isEmail(body["email"].s)
    && Filled(body, "password") && JsLength(body["password"].s) >= 6
  }

  /** What each listed key demands. */
  lemma KeysDemand(f: Formats, body: Body)
    ensures KeyOk(f, USERNAME, body) <==> Filled(body, "username")
    ensures KeyOk(f, EMAIL, body) <==> Filled(body, "email") && f.isEmail(body["email"].s)
    ensures KeyOk(f, PASSWORD, body) <==> Filled(body, "password") && JsLength(body["password"].s) >= 6
    ensures KeyOk(f, ROLE, body) <==>
      "role" in body && body["role"].JString? && body["role"].s in {ADMIN, MANAGER, EMPLOYEE}
  {
  }

  lemma LoginAcceptsExactly(f: Formats, params: Body, body: Body)
    ensures Accepts(f, LOGIN, params, body) <==> body.Keys <= {"email", "password"} && Credentials(f, body)
  {
    KeysDemand(f, body);
    TwoKeys(f, EMAIL, PASSWORD, body);
  }

  lemma SignupAcceptsExactly(f: Formats, params: Body, body: Body)
    ensures Accepts(f, SIGNUP, params, body) <==>
      body.Keys <= {"username", "email", "password"} && Filled(body, "username") && Credentials(f, body)
  {
    KeysDemand(f, body);
    ThreeKeys(f, USERNAME, EMAIL, PASSWORD, body);
  }

  lemma RegisterAcceptsExactly(f: Formats, params: Body, body: Body)
    ensures Accepts(f, REGISTER, params, body) <==>
      && body.Keys <= {"username", "email", "password", "role"}
      && Filled(body, "username") && Credentials(f, body)
      && "role" in body && body["role"].JString? && body["role"].s in {ADMIN, MANAGER, EMPLOYEE}
  {
    KeysDemand(f, body);
    FourKeys(f, USERNAME, EMAIL, PASSWORD, ROLE, body);
  }

  /** A password of JavaScript length below 6 is refused by all three validators. */
  lemma ShortPasswordIsRefused(f: Formats, params: Body, body: Body)
    requires "password" in body && body["password"].JString? && JsLength(body["password"].s) < 6
    ensures !Accepts(f, LOGIN, params, body)
    ensures !Accepts(f, SIGNUP, params, body)
    ensures !Accepts(f, REGISTER, params, body)
  {
    LoginAcceptsExactly(f, params, body);
    SignupAcceptsExactly(f, params, body);
    RegisterAcceptsExactly(f, params, body);
  }

  /**
   * Three emoji make a password of JavaScript length 6, so login lets it
   * through although it holds only three characters.
   */
  lemma AstralPasswordIsLongEnough(f: Formats, email: string)
    requires email != "" && f.isEmail(email)
    ensures var body := map["email" := JString(email), "password" := JString("\U{1F600}\U{1F600}\U{1F600}")];
      |body["password"].s| == 3 && Accepts(f, LOGIN, map[], body)
  {
    var body := map["email" := JString(email), "password" := JString("\U{1F600}\U{1F600}\U{1F600}")];
    var pw := "\U{1F600}\U{1F600}\U{1F600}";
    assert JsLength(pw) == 6 by {
      assert pw[1..][1..][1..] == [];
    }
    LoginAcceptsExactly(f, map[], body);
  }

  /** An empty or missing username is refused by signup and register. */
  lemma UsernameIsRequired(f: Formats, params: Body, body: Body)
    requires !Filled(body, "username")
    ensures !Accepts(f, SIGNUP, params, body) && !Accepts(f, REGISTER, params, body)
  {
    SignupAcceptsExactly(f, params, body);
    RegisterAcceptsExactly(f, params, body);
  }
}

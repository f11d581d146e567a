/**
 * The schemas of `POST /projects`, `PUT /projects/:id` and
 * `GET /projects/:id`, and what each of them lets through.
 */
module ProjectValidation {
  import opened Schema
  import opened Joi

  const NAME := Key("name", Text(AnyText, 0, None), true)
  const DESCRIPTION := Key("description", Text(AnyText, 0, None), true)
  const ASSIGNED_TO := Key("assignedTo", ArrayOf(Text(Uuid, 0, None)), false)
  const UNASSIGNED_TO := Key("unassignedTo", ArrayOf(Text(Uuid, 0, None)), false)
  const ID := UUID_ID

  /** `createProjectValidation`. */
  const CREATE := Validator(None, Some(ObjectSchema([NAME, DESCRIPTION, ASSIGNED_TO], 0)))

  /** `updateProjectValidation`: the same fields, all optional, and at least one of them. */
  const UPDATE := Validator(Some(ObjectSchema([ID], 0)),
                            Some(ObjectSchema([NAME.(required := false), DESCRIPTION.(required := false),
                                               ASSIGNED_TO, UNASSIGNED_TO], 1)))

  /** `getProjectByIdValidation`. */
  const GET_BY_ID := BY_ID

  /** The update body's four keys. */
  const FIELDS := {"name", "description", "assignedTo", "unassignedTo"}

  /** Each optional list, when present, is an array of UUIDs. */
  predicate ListsOk(f: Formats, body: Body) {
    && ("assignedTo" in body ==> UuidList(f, body["assignedTo"]))
    && ("unassignedTo" in body ==> UuidList(f, body["unassignedTo"]))
  }

  lemma KeysDemand(f: Formats, obj: Body)
    ensures KeyOk(f, NAME, obj) <==> Filled(obj, "name")
    ensures KeyOk(f, DESCRIPTION, obj) <==> Filled(obj, "description")
    ensures KeyOk(f, NAME.(required := false), obj) <==> ("name" in obj ==> Filled(obj, "name"))
    ensures KeyOk(f, DESCRIPTION.(required := false), obj) <==> ("description" in obj ==> Filled(obj, "description"))
    ensures KeyOk(f, ASSIGNED_TO, obj) <==> ("assignedTo" in obj ==> UuidList(f, obj["assignedTo"]))
    ensures KeyOk(f, UNASSIGNED_TO, obj) <==> ("unassignedTo" in obj ==> UuidList(f, obj["unassignedTo"]))
    ensures KeyOk(f, ID, obj) <==> Filled(obj, "id") && f.isUuid(obj["id"].s)
  {
  }

  lemma CreateAcceptsExactly(f: Formats, params: Body, body: Body)
    ensures Accepts(f, CREATE, params, body) <==>
      && body.Keys <= {"name", "description", "assignedTo"}
      && Filled(body, "name") && Filled(body, "description")
      && ("assignedTo" in body ==> UuidList(f, body["assignedTo"]))
  {
    KeysDemand(f, body);
    ThreeKeys(f, NAME, DESCRIPTION, ASSIGNED_TO, body);
  }

  lemma UpdateAcceptsExactly(f: Formats, params: Body, body: Body)
    ensures Accepts(f, UPDATE, params, body) <==>
      && UuidParam(f, params)
      && body.Keys <= FIELDS && |body.Keys| >= 1
      && ("name" in body ==> Filled(body, "name"))
      && ("description" in body ==> Filled(body, "description"))
      && ListsOk(f, body)
  {
    KeysDemand(f, params);
    KeysDemand(f, body);
    OneKey(f, ID, params);
    FourKeys(f, NAME.(required := false), DESCRIPTION.(required := false), ASSIGNED_TO, UNASSIGNED_TO, body);
  }

  /** An update names at least one of the four fields (`.min(1)` over a closed key set). */
  lemma UpdateNamesAField(f: Formats, params: Body, body: Body)
    requires Accepts(f, UPDATE, params, body)
    ensures exists k :: k in FIELDS && k in body
  {
    UpdateAcceptsExactly(f, params, body);
    assert body.Keys != {};
    var k :| k in body.Keys;
    assert k in FIELDS;
  }

  /** A create body may leave `assignedTo` out. */
  lemma AssignedToIsOptional(f: Formats, params: Body, name: string, description: string)
    requires name != "" && description != ""
    ensures Accepts(f, CREATE, params, map["name" := JString(name), "description" := JString(description)])
  {
    CreateAcceptsExactly(f, params, map["name" := JString(name), "description" := JString(description)]);
  }
}

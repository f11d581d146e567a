/**
 * The part of Joi (through celebrate) that the request validators use: an
 * object schema lists its keys, each a `Joi.string()` rule (optionally
 * `.email()`, `.uuid()`, `.min(n)`, `.valid(...)`) or a
 * `Joi.array().items(rule)` rule, marked `.required()` or not, and the
 * object may carry `.min(n)` on its number of keys.
 *
 * The request body is parsed JSON, so a value is a string, an array or
 * something else (number, boolean, null, object). Joi's defaults apply:
 * keys a schema does not list are refused, `Joi.string()` refuses the
 * empty string and every non-string, and a string is never trimmed.
 * Whether a string is an email address or a UUID is left to two
 * uninterpreted predicates.
 */
module Joi {
  import opened Schema

  datatype Json = JString(s: string) | JArray(items: seq<Json>) | JOther

  /** `req.body` or `req.params`: a JSON object. */
  type Body = map<string, Json>

  /** The format checks of `.email()` and `.uuid()`, not modelled further. */
  datatype Formats = Formats(isEmail: string -> bool, isUuid: string -> bool)

  datatype Format = AnyText | Email | Uuid

  datatype Rule =
    | Text(format: Format, min: nat, only: Option<set<string>>)  // Joi.string()[.email()|.uuid()][.min(n)][.valid(...)]
    | ArrayOf(item: Rule)                                       // Joi.array().items(item)

  datatype Key = Key(name: string, rule: Rule, required: bool)

  /** `Joi.object().keys({ ... })`, with `.min(minKeys)` when the source has one. */
  datatype ObjectSchema = ObjectSchema(keys: seq<Key>, minKeys: nat)

  /** `celebrate({ [Segments.PARAMS]: ..., [Segments.BODY]: ... })`. */
  datatype Validator = Validator(params: Option<ObjectSchema>, body: Option<ObjectSchema>)

  /**
   * `s.length` in JavaScript, which `.min(n)` compares: UTF-16 code units,
   * so a character outside the Basic Multilingual Plane counts twice.
   */
  function JsLength(s: string): (n: nat)
    ensures |s| <= n <= 2 * |s|
    ensures (forall i :: 0 <= i < |s| ==> s[i] < '\U{10000}') ==> n == |s|
  {
    if s == [] then 0 else (if s[0] < '\U{10000}' then 1 else 2) + JsLength(s[1..])
  }

  predicate FormatOk(f: Formats, format: Format, s: string) {
    match format
    case AnyText => true
    case Email => f.isEmail(s)
    case Uuid => f.isUuid(s)
  }

  /** Whether a value passes a rule. */
  predicate Matches(f: Formats, rule: Rule, v: Json)
    decreases rule
  {
    match rule
    case Text(format, min, only) =>
      && v.JString? && v.s != "" && JsLength(v.s) >= min && FormatOk(f, format, v.s)
      && (only.Some? ==> v.s in only.value)
    case ArrayOf(item) =>
      v.JArray? && forall i :: 0 <= i < |v.items| ==> Matches(f, item, v.items[i])
  }

  /** The key names a schema lists. */
  function Names(keys: seq<Key>): set<string> {
    if keys == [] then {} else {keys[0].name} + Names(keys[1..])
  }

  /** One listed key: present and passing its rule, or absent and not required. */
  predicate KeyOk(f: Formats, k: Key, obj: Body) {
    if k.name in obj then Matches(f, k.rule, obj[k.name]) else !k.required
  }

  predicate AllKeysOk(f: Formats, keys: seq<Key>, obj: Body) {
    keys == [] || (KeyOk(f, keys[0], obj) && AllKeysOk(f, keys[1..], obj))
  }

  /** A schema of one key. */
  lemma OneKey(f: Formats, a: Key, obj: Body)
    ensures Names([a]) == {a.name}
    ensures AllKeysOk(f, [a], obj) <==> KeyOk(f, a, obj)
  {
    assert [a][1..] == [];
  }

  /** A schema of two keys. */
  lemma TwoKeys(f: Formats, a: Key, b: Key, obj: Body)
    ensures Names([a, b]) == {a.name, b.name}
    ensures AllKeysOk(f, [a, b], obj) <==> KeyOk(f, a, obj) && KeyOk(f, b, obj)
  {
    assert [a, b][1..] == [b];
    OneKey(f, b, obj);
  }

  /** A schema of three keys. */
  lemma ThreeKeys(f: Formats, a: Key, b: Key, c: Key, obj: Body)
    ensures Names([a, b, c]) == {a.name, b.name, c.name}
    ensures AllKeysOk(f, [a, b, c], obj) <==> KeyOk(f, a, obj) && KeyOk(f, b, obj) && KeyOk(f, c, obj)
  {
    assert [a, b, c][1..] == [b, c];
    TwoKeys(f, b, c, obj);
  }

  /** A schema of four keys. */
  lemma FourKeys(f: Formats, a: Key, b: Key, c: Key, d: Key, obj: Body)
    ensures Names([a, b, c, d]) == {a.name, b.name, c.name, d.name}
    ensures AllKeysOk(f, [a, b, c, d], obj) <==>
      KeyOk(f, a, obj) && KeyOk(f, b, obj) && KeyOk(f, c, obj) && KeyOk(f, d, obj)
  {
    assert [a, b, c, d][1..] == [b, c, d];
    ThreeKeys(f, b, c, d, obj);
  }

  /** Whether an object passes an object schema. */
  predicate Conforms(f: Formats, schema: ObjectSchema, obj: Body) {
    && obj.Keys <= Names(schema.keys)
    && |obj.Keys| >= schema.minKeys
    && AllKeysOk(f, schema.keys, obj)
  }

  /** Whether celebrate calls `next()` (and not `next(err)`) for a request. */
  predicate Accepts(f: Formats, v: Validator, params: Body, body: Body) {
    && (v.params.Some? ==> Conforms(f, v.params.value, params))
    && (v.body.Some? ==> Conforms(f, v.body.value, body))
  }

  /** A non-empty string under `k`: what a bare `Joi.string()` lets through. */
  predicate Filled(obj: Body, k: string) {
    k in obj && obj[k].JString? && obj[k].s != ""
  }

  /** An array of UUID strings: what `Joi.array().items(Joi.string().uuid())` lets through. */
  predicate UuidList(f: Formats, v: Json) {
    v.JArray? && forall i :: 0 <= i < |v.items| ==>
      v.items[i].JString? && v.items[i].s != "" && f.isUuid(v.items[i].s)
  }

  /** `req.params` of a `/:id` route whose id must be a UUID. */
  predicate UuidParam(f: Formats, params: Body) {
    params.Keys <= {"id"} && Filled(params, "id") && f.isUuid(params["id"].s)
  }

  /** The path key `id`, a required UUID. */
  const UUID_ID := Key("id", Text(Uuid, 0, None), true)

  /** A validator of `req.params` alone whose one key is a UUID `id`. */
  const BY_ID := Validator(Some(ObjectSchema([UUID_ID], 0)), None)

  lemma ByIdAcceptsExactly(f: Formats, params: Body, body: Body)
    ensures Accepts(f, BY_ID, params, body) <==> UuidParam(f, params)
  {
    OneKey(f, UUID_ID, params);
  }

  // ---------------------------------------------------------------------
  // Reading a validated body, as the handlers do with `req.body.x`

  /** `req.body[k]` when it is a string. */
  function TextOf(obj: Body, k: string): (r: Option<string>)
    ensures r.Some? <==> k in obj && obj[k].JString?
    ensures r.Some? ==> r.value == obj[k].s
  {
    if k in obj && obj[k].JString? then Some(obj[k].s) else None
  }

  /** The strings of an array of strings. */
  function Strings(items: seq<Json>): (r: Option<seq<string>>)
    ensures r.Some? <==> forall i :: 0 <= i < |items| ==> items[i].JString?
    ensures r.Some? ==> |r.value| == |items| && forall i :: 0 <= i < |items| ==> r.value[i] == items[i].s
  {
    if items == [] then Some([])
    else
      match Strings(items[1..])
      case None =>
        var i :| 0 <= i < |items[1..]| && !items[1..][i].JString?;
        assert !items[i + 1].JString?;
        None
      case Some(rest) => if items[0].JString? then Some([items[0].s] + rest) else None
  }

  /** `req.body[k]` when it is an array of strings (the ids of `assignedTo`). */
  function IdsOf(obj: Body, k: string): (r: Option<seq<Id>>)
    ensures r.Some? ==> k in obj && obj[k].JArray? && |r.value| == |obj[k].items|
    ensures r.Some? ==> forall i :: 0 <= i < |r.value| ==> obj[k].items[i] == JString(r.value[i])
    ensures k in obj && obj[k].JArray? && (forall i :: 0 <= i < |obj[k].items| ==> obj[k].items[i].JString?) ==> r.Some?
  {
    if k in obj && obj[k].JArray? then Strings(obj[k].items) else None
  }

  /** An array that passed `Joi.array().items(Joi.string().uuid())` reads back as its ids, all UUIDs. */
  lemma UuidArrayReadsBack(f: Formats, obj: Body, k: string)
    requires k in obj && Matches(f, ArrayOf(Text(Uuid, 0, None)), obj[k])
    ensures IdsOf(obj, k).Some?
    ensures forall i :: 0 <= i < |IdsOf(obj, k).value| ==> f.isUuid(IdsOf(obj, k).value[i])
  {
    assert forall i :: 0 <= i < |obj[k].items| ==> Matches(f, Text(Uuid, 0, None), obj[k].items[i]);
  }
}

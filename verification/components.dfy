/** The components service clients of lib/components/index.js: one client
    class per config type, each building the request bodies of the
    Create/List/Get/Update/Delete calls, gating `create` on schema
    validation, and resolving a key to the single matching config.

    The transport (`_request`) is modelled apart: a call is the `Request`
    value handed to it, and a reply is a parameter. The schema table and the
    validator are parameters too. */
module Components {
  import opened Wrappers
  import opened Js
  import ConfigUtils
  import CaseConv

  /** `TYPES`: one exported client class per type. */
  const ServiceTypes: seq<string> := ["users", "apps", "app_actions", "operations", "workflows", "translations"]

  /** `CONF_KEYS_MAP[type]`: the field a config's key is stored in; the
      "users" type has none and reads undefined. */
  function ConfKey(serviceType: string): Json {
    if serviceType == "apps" then Str("system_key")
    else if serviceType == "app_actions" then Str("operation_key")
    else if serviceType in ["operations", "workflows", "translations"] then Str("key")
    else Undefined
  }

  /** One client instance: its type, the signed-in user's organisations and
      the token the calls carry. */
  datatype Client = Client(serviceType: string, orgs: seq<Json>, idToken: string)

  datatype Rpc = Create | List | GetOne | Update | Delete

  /** A call of the service: the proto service named after the type, the
      method, the request body and the authorization header. */
  datatype Request = Request(service: string, rpc: Rpc, body: Json, authorization: string)

  function Call(c: Client, rpc: Rpc, body: Json): Request {
    Request(CaseConv.ToPascalCase(c.serviceType), rpc, body, "Bearer " + c.idToken)
  }

  // ---------------------------------------------------------------------
  // validate / create

  /** `type.slice(0, -1)`: the schema name of a plural type. */
  function Singular(serviceType: string): (r: string)
    ensures |serviceType| > 0 ==> r + [serviceType[|serviceType| - 1]] == serviceType
  {
    if |serviceType| == 0 then "" else serviceType[..|serviceType| - 1]
  }

  function MissingSchema(serviceType: string): string {
    "unable to find matching schema for type: " + serviceType + "."
  }

  /** `validate(config)`: `schemas` holds the types with a schema, and
      `validator(name, config)` is the schema library's verdict (null when
      the config is valid). */
  function Validate(c: Client, schemas: set<string>, validator: (string, Json) -> Json, config: Json): Json {
    if c.serviceType in schemas then validator(Singular(c.serviceType), config)
    else Obj([Member("error", Str(MissingSchema(c.serviceType)))])
  }

  /** `{org: "", ...config}` */
  function CreateBody(config: Json): Json {
    Obj(AssignAll([Member("org", Str(""))], OwnEntries(config)))
  }

  /** `create(config)`: a Create call only when validation returns null;
      otherwise no call and an undefined result (`None`). */
  function CreateCall(c: Client, schemas: set<string>, validator: (string, Json) -> Json, config: Json): (r: Option<Request>)
    ensures r.Some? ==> r.value.rpc == Create && r.value.body.Obj?
  {
    if StrictEquals(Validate(c, schemas, validator, config), Null) then Some(Call(c, Create, CreateBody(config)))
    else None
  }

  /** `{id, ...config}` */
  function UpdateBody(id: Json, config: Json): Json {
    Obj(AssignAll([Member("id", id)], OwnEntries(config)))
  }

  function UpdateCall(c: Client, id: Json, config: Json): Request {
    Call(c, Update, UpdateBody(id, config))
  }

  function DeleteCall(c: Client, id: Json): Request {
    Call(c, Delete, Obj([Member("id", id)]))
  }

  function GetByIdCall(c: Client, id: Json): Request {
    Call(c, GetOne, Obj([Member("id", id)]))
  }

  // ---------------------------------------------------------------------
  // list / getByKey

  /** `["org", "in", ["global", ...user.orgs]]`, before `toBytes` encodes it. */
  function OrgCondition(c: Client): Json {
    Arr([Str("org"), Str("in"), Arr([Str("global")] + c.orgs)])
  }

  /** `[CONF_KEYS_MAP[type], "==", key]`, before `toBytes` encodes it. */
  function KeyCondition(c: Client, key: string): Json {
    Arr([ConfKey(c.serviceType), Str("=="), Str(key)])
  }

  function ListCall(c: Client): Request {
    Call(c, List, Obj([Member("conditions", Arr([OrgCondition(c)]))]))
  }

  function GetByKeyCall(c: Client, key: string): Request {
    Call(c, List, Obj([Member("conditions", Arr([OrgCondition(c), KeyCondition(c, key)]))]))
  }

  /** `response[type]` of a List reply. */
  function ListItems(c: Client, response: Json): Result<Json> {
    Prop(response, c.serviceType)
  }

  /** `j.length`: an array's or a string's length, an object's own
      "length" member, and undefined for the other values; reading it of
      null or undefined throws. */
  function LengthOf(j: Json): (r: Result<Json>)
    ensures r.Err? <==> Nullish(j)
    ensures j.Arr? ==> r == Ok(Num(|j.items|))
    ensures j.Obj? ==> r == Ok(Get(j, "length"))
  {
    match j
    case Arr(items) => Ok(Num(|items|))
    case Str(s) => Ok(Num(|s|))
    case Obj(_) => Ok(Get(j, "length"))
    case Null => Err(TypeError)
    case Undefined => Err(TypeError)
    case _ => Ok(Undefined)
  }

  function TooMany(serviceType: string): string {
    "Found too many " + serviceType + ". Please contact support@rele.ai"
  }

  /** `getByKey(key)` given the reply to its List call: null for no match,
      the match itself for one, an error for more. */
  function GetByKey(c: Client, response: Json): (r: Result<Json>)
    ensures r.Err? && r.error != TypeError ==> r.error == TooMany(c.serviceType)
    ensures r.Err? && r.error == TypeError ==> Nullish(response) || Nullish(Lookup(response, c.serviceType))
    ensures !Nullish(response) && Lookup(response, c.serviceType).Arr? ==>
              (r.Ok? <==> |Lookup(response, c.serviceType).items| < 2)
  {
    var items :- ListItems(c, response);
    var n :- LengthOf(items);
    if LessThan(n, 2) then (if StrictEquals(n, Num(1)) then Ok(Lookup(items, "0")) else Ok(Null))
    else Err(TooMany(c.serviceType))
  }

  function NotFound(verb: string, serviceType: string, key: string): string {
    "unable to " + verb + " " + serviceType + ". No matching " + serviceType + " found with key equals to " + key + "."
  }

  /** `updateByKey(key, config)`: the Update call on the found config's id. */
  function UpdateByKey(c: Client, key: string, config: Json, response: Json): Result<Request> {
    var found :- GetByKey(c, response);
    if Truthy(found) then Ok(UpdateCall(c, Lookup(found, "id"), config))
    else Err(NotFound("update", c.serviceType, key))
  }

  /** `deleteByKey(key)`: the Delete call on the found config's id. */
  function DeleteByKey(c: Client, key: string, response: Json): Result<Request> {
    var found :- GetByKey(c, response);
    if Truthy(found) then Ok(DeleteCall(c, Lookup(found, "id")))
    else Err(NotFound("delete", c.serviceType, key))
  }

  // ---------------------------------------------------------------------
  // Properties.

  /** A type without a schema is reported as such; a type with one is
      checked against the schema named by the type without its last letter. */
  lemma ValidateSchema(c: Client, schemas: set<string>, validator: (string, Json) -> Json, config: Json)
    ensures c.serviceType !in schemas ==>
              Get(Validate(c, schemas, validator, config), "error") == Str(MissingSchema(c.serviceType))
    ensures c.serviceType in schemas ==>
              exists name :: Validate(c, schemas, validator, config) == validator(name, config) &&
                             (|c.serviceType| > 0 ==> name + [c.serviceType[|c.serviceType| - 1]] == c.serviceType)
  {
    if c.serviceType in schemas {
      var name := Singular(c.serviceType);
      assert Validate(c, schemas, validator, config) == validator(name, config);
    }
  }

  /** `create` calls the service exactly when validation yields null, and
      never for a type without a schema. */
  lemma CreateGated(c: Client, schemas: set<string>, validator: (string, Json) -> Json, config: Json)
    ensures CreateCall(c, schemas, validator, config).Some? <==> Validate(c, schemas, validator, config) == Null
    ensures c.serviceType !in schemas ==> CreateCall(c, schemas, validator, config).None?
  {
  }

  /** Spreading an object with distinct keys over a base: its own keys win,
      the base's other keys stay. */
  lemma SpreadRead(base: seq<Member>, config: Json, k: string)
    requires config.Obj? && DistinctKeys(config.members)
    ensures Get(Obj(AssignAll(base, OwnEntries(config))), k)
         == if FindMember(config.members, k).Some? then Get(config, k) else Get(Obj(base), k)
  {
    var es := config.members;
    ConfigUtils.GetAssignAll(base, es, k);
    match FindMember(es, k)
    case Some(i) => ConfigUtils.LastValueIsLast(es, k, Get(Obj(base), k), i);
    case None => ConfigUtils.LastValueNone(es, k, Get(Obj(base), k));
  }

  /** The create body carries `config.org` when the config has one and ""
      otherwise; every other key is the config's. */
  lemma CreateBodyFields(config: Json, k: string)
    requires config.Obj? && DistinctKeys(config.members)
    ensures Get(CreateBody(config), "org") == if FindMember(config.members, "org").Some? then Get(config, "org") else Str("")
    ensures k != "org" ==> Get(CreateBody(config), k) == Get(config, k)
  {
    SpreadRead([Member("org", Str(""))], config, "org");
    SpreadRead([Member("org", Str(""))], config, k);
    if k != "org" && FindMember(config.members, k).None? {
      assert Get(config, k) == Undefined;
    }
  }

  /** The update body's id is the argument unless the config carries an
      `id` of its own, which overrides it; other keys are the config's. */
  lemma UpdateBodyFields(id: Json, config: Json, k: string)
    requires config.Obj? && DistinctKeys(config.members)
    ensures Get(UpdateBody(id, config), "id") == if FindMember(config.members, "id").Some? then Get(config, "id") else id
    ensures k != "id" ==> Get(UpdateBody(id, config), k) == Get(config, k)
  {
    SpreadRead([Member("id", id)], config, "id");
    SpreadRead([Member("id", id)], config, k);
    if k != "id" && FindMember(config.members, k).None? {
      assert Get(config, k) == Undefined;
    }
  }

  /** The organisations a list asks for are "global" and the user's own,
      and no other. */
  lemma OrgConditionScope(c: Client, org: Json)
    ensures OrgCondition(c).items[2].Arr?
    ensures org in OrgCondition(c).items[2].items <==> org == Str("global") || org in c.orgs
  {
  }

  /** `getByKey` asks for the organisation scope of `list` and, after it,
      the type's key field equal to the key. */
  lemma GetByKeyNarrowsList(c: Client, key: string)
    ensures var conds := Get(GetByKeyCall(c, key).body, "conditions");
            var listed := Get(ListCall(c).body, "conditions");
            conds.Arr? && listed.Arr? && conds.items == listed.items + [KeyCondition(c, key)]
    ensures GetByKeyCall(c, key).rpc == ListCall(c).rpc == List
  {
    var m := Member("conditions", Arr([OrgCondition(c), KeyCondition(c, key)]));
    GetSingle(m, "conditions");
    GetSingle(Member("conditions", Arr([OrgCondition(c)])), "conditions");
  }

  /** For an array reply: no match is null, one match is that config, and
      two or more throw. */
  lemma GetByKeyCardinality(c: Client, response: Json, items: seq<Json>)
    requires response.Obj? && Get(response, c.serviceType) == Arr(items)
    ensures |items| == 0 ==> GetByKey(c, response) == Ok(Null)
    ensures |items| == 1 ==> GetByKey(c, response) == Ok(items[0])
    ensures |items| >= 2 ==> GetByKey(c, response) == Err(TooMany(c.serviceType))
  {
    if |items| == 1 {
      assert ParseIndex("0") == Some(0) by {
        IndexRoundTrip(0);
      }
    }
  }

  /** A list that is an object is read through its own "length" member:
      `{length: 1, "0": c}` gives c, a length below two other than one
      gives null, and a length of two or more throws. */
  lemma GetByKeyObjectReply(c: Client, response: Json, ms: seq<Member>, k: int)
    requires response.Obj? && Get(response, c.serviceType) == Obj(ms) && Get(Obj(ms), "length") == Num(k)
    ensures k == 1 ==> GetByKey(c, response) == Ok(Get(Obj(ms), "0"))
    ensures k < 2 && k != 1 ==> GetByKey(c, response) == Ok(Null)
    ensures k >= 2 ==> GetByKey(c, response) == Err(TooMany(c.serviceType))
  {
  }

  /** A found config is updated by its id, with the config's own `id`
      overriding it; nothing found throws. */
  lemma UpdateByKeyTarget(c: Client, key: string, config: Json, response: Json)
    requires GetByKey(c, response).Ok?
    ensures var found := GetByKey(c, response).value;
            (UpdateByKey(c, key, config, response)
             == if Truthy(found) then Ok(Call(c, Update, UpdateBody(Lookup(found, "id"), config)))
                else Err(NotFound("update", c.serviceType, key)))
  {
  }

  /** A found config is deleted by its id and nothing else; nothing found throws. */
  lemma DeleteByKeyTarget(c: Client, key: string, response: Json)
    requires GetByKey(c, response).Ok?
    ensures var found := GetByKey(c, response).value;
            (DeleteByKey(c, key, response).Ok? <==> Truthy(found)) &&
            (Truthy(found) ==> Get(DeleteByKey(c, key, response).value.body, "id") == Lookup(found, "id")) &&
            (!Truthy(found) ==> DeleteByKey(c, key, response) == Err(NotFound("delete", c.serviceType, key)))
  {
    var found := GetByKey(c, response).value;
    if Truthy(found) {
      GetSingle(Member("id", Lookup(found, "id")), "id");
    }
  }

  /** Errors of the list step reach `updateByKey` and `deleteByKey`
      unchanged: too many matches are never updated or deleted. */
  lemma ByKeyPropagates(c: Client, key: string, config: Json, response: Json)
    requires GetByKey(c, response).Err?
    ensures UpdateByKey(c, key, config, response) == Err(GetByKey(c, response).error)
    ensures DeleteByKey(c, key, response) == Err(GetByKey(c, response).error)
  {
  }

  /** The key field each type's `getByKey` matches on. */
  lemma ConfKeys()
    ensures ConfKey("apps") == Str("system_key") && ConfKey("app_actions") == Str("operation_key")
    ensures ConfKey("operations") == Str("key") && ConfKey("workflows") == Str("key")
    ensures ConfKey("translations") == Str("key") && ConfKey("users") == Undefined
  {
  }
}

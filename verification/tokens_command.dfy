/** The `app:tokens` command: the version id is settled as the apply command
    settles it, and every App config gets its hash from the stored app of
    that exact version, or from the app created when there is none. The
    client's replies are parameters. */
module TokensCommand {
  import opened Wrappers
  import opened Js
  import opened CommandCommon
  import opened VersionSelect
  import Components

  const NoVersions := "couldn't find matching versions"

  /** `_getVersions()` */
  function GetVersions(versions: Json): Result<seq<Json>> {
    WrapVersions(versions, NoVersions)
  }

  /** `_collectVersionId()`: `getVersionId` answers the lookup of a version
      number, `create` the creation of `{key: versionNumber}`. */
  function CollectVersionId(flag: Json, packageVersion: Json, getVersionId: Json -> Json, create: Json -> Json): Result<Json> {
    var v :- SettleVersion(flag, packageVersion, getVersionId, create);
    Ok(v.id)
  }

  /** The client calls `generateAppHash` makes, each of which may throw. */
  datatype AppsClient = AppsClient(
    list: seq<Json> -> Result<Json>,
    getAppHash: Json -> Result<Json>,
    create: (Json, Json) -> Result<Json>)

  /** One entry of the result: `{id, appHash, appKey}`. */
  datatype AppHash = AppHash(id: Json, appHash: Json, appKey: Json)

  /** `(conf) => conf.version === versionId` */
  function OfVersion(versionId: Json): Json -> Result<bool> {
    (c: Json) => (var v :- Field(c, "version"); Ok(StrictEquals(v, versionId)))
  }

  /** The stored apps of the config's system key at exactly `versionId`. */
  function StoredApps(conf: Json, versionId: Json, client: AppsClient): Result<seq<Json>> {
    var key :- Field(conf, "key");
    var listed :- client.list([Arr([Components.ConfKey("apps"), Str("=="), key])]);
    match Or(listed, Arr([]))
    case Arr(items) => FilterResult(items, OfVersion(versionId))
    case _ => Err(TypeError)
  }

  /** `app_hash` of the hash reply for `request`. */
  function HashOf(client: AppsClient, request: Json): Result<Json> {
    var reply :- client.getAppHash(request);
    Field(reply, "app_hash")
  }

  /** The body of one `appsConfigs.map` callback; `toDoc` is
      `confToDoc("App", conf, {client})`. */
  function AppHashOf(conf: Json, versionId: Json, client: AppsClient, toDoc: Json -> Result<Json>): Result<AppHash> {
    var configs :- StoredApps(conf, versionId, client);
    if |configs| > 1 then Err(Duplicated(Get(conf, "type")))
    else if |configs| == 1 && Truthy(configs[0]) then
      var id := Lookup(configs[0], "id");
      var hash :- HashOf(client, Obj([Member("id", id)]));
      Ok(AppHash(id, hash, Lookup(configs[0], "system_key")))
    else
      var doc :- toDoc(conf);
      var created :- client.create(doc, versionId);
      var id :- Field(created, "id");
      var hash :- HashOf(client, created);
      Ok(AppHash(id, hash, Get(conf, "key")))
  }

  /** `generateAppHash(appsConfigs, versionId)`: the callbacks run together;
      the model reports the first error in config order. */
  function GenerateAppHash(confs: seq<Json>, versionId: Json, client: AppsClient, toDoc: Json -> Result<Json>): Result<seq<AppHash>> {
    MapResult(confs, (conf: Json) => AppHashOf(conf, versionId, client, toDoc))
  }

  // ---------------------------------------------------------------------
  // Properties.

  /** Falsy versions throw; one id becomes a one-item list. */
  lemma GetVersionsWraps(versions: Json)
    ensures !Truthy(versions) <==> GetVersions(versions) == Err(NoVersions)
    ensures Truthy(versions) && !versions.Arr? ==> GetVersions(versions) == Ok([versions])
    ensures Truthy(versions) && versions.Arr? ==> GetVersions(versions) == Ok(versions.items)
  {
  }

  /** The token command's version id is the apply command's: the first
      non-global id found, or else the id of the version it creates. */
  lemma CollectVersionIdAsApply(flag: Json, packageVersion: Json, getVersionId: Json -> Json, create: Json -> Json)
    requires SettleVersion(flag, packageVersion, getVersionId, create).Ok?
    ensures CollectVersionId(flag, packageVersion, getVersionId, create) == Ok(SettleVersion(flag, packageVersion, getVersionId, create).value.id)
    ensures !Truthy(getVersionId(Or(flag, packageVersion))) ==>
              CollectVersionId(flag, packageVersion, getVersionId, create) == Ok(Get(create(Obj([Member("key", Or(flag, packageVersion))])), "id"))
  {
  }

  /** A stored app is kept exactly when its version equals the one id;
      this command does not read the `versions` list at all. */
  lemma StoredAppsExactVersion(conf: Json, versionId: Json, client: AppsClient, x: Json)
    requires StoredApps(conf, versionId, client).Ok?
    ensures var listed := client.list([Arr([Str("system_key"), Str("=="), Get(conf, "key")])]);
            listed.Ok? && Or(listed.value, Arr([])).Arr? &&
            (x in StoredApps(conf, versionId, client).value <==>
               x in Or(listed.value, Arr([])).items && !Nullish(x) && StrictEquals(Get(x, "version"), versionId))
  {
    var listed := client.list([Arr([Str("system_key"), Str("=="), Get(conf, "key")])]);
    FilterResultMembers(Or(listed.value, Arr([])).items, OfVersion(versionId), x);
  }

  /** More than one stored app of the version throws. */
  lemma AppHashDuplicated(conf: Json, versionId: Json, client: AppsClient, toDoc: Json -> Result<Json>)
    requires StoredApps(conf, versionId, client).Ok? && |StoredApps(conf, versionId, client).value| > 1
    ensures AppHashOf(conf, versionId, client, toDoc) == Err(Duplicated(Get(conf, "type")))
  {
  }

  /** One stored app is reused: its id, and its system key as the app key. */
  lemma AppHashReused(conf: Json, versionId: Json, client: AppsClient, toDoc: Json -> Result<Json>, config: Json)
    requires StoredApps(conf, versionId, client) == Ok([config]) && Truthy(config)
    requires AppHashOf(conf, versionId, client, toDoc).Ok?
    ensures AppHashOf(conf, versionId, client, toDoc).value.id == Lookup(config, "id")
    ensures AppHashOf(conf, versionId, client, toDoc).value.appKey == Lookup(config, "system_key")
  {
  }

  /** No stored app creates one under the version, keyed by the config's
      own key, and reports the created id. */
  lemma AppHashCreated(conf: Json, versionId: Json, client: AppsClient, toDoc: Json -> Result<Json>)
    requires StoredApps(conf, versionId, client) == Ok([])
    requires AppHashOf(conf, versionId, client, toDoc).Ok?
    ensures toDoc(conf).Ok? && client.create(toDoc(conf).value, versionId).Ok?
    ensures AppHashOf(conf, versionId, client, toDoc).value.id == Get(client.create(toDoc(conf).value, versionId).value, "id")
    ensures AppHashOf(conf, versionId, client, toDoc).value.appKey == Get(conf, "key")
  {
  }

  /** One entry per App config, in the configs' order. */
  lemma GenerateAppHashInOrder(confs: seq<Json>, versionId: Json, client: AppsClient, toDoc: Json -> Result<Json>, i: nat)
    requires GenerateAppHash(confs, versionId, client, toDoc).Ok?
    ensures |GenerateAppHash(confs, versionId, client, toDoc).value| == |confs|
    ensures i < |confs| ==> AppHashOf(confs[i], versionId, client, toDoc) == Ok(GenerateAppHash(confs, versionId, client, toDoc).value[i])
  {
  }
}

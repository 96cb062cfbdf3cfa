/** The `delete` command: every config document of the file is looked up by
    its key, and a stored config that is found is deleted by its id. The
    client's `getByKey` reply is a parameter. */
module DeleteCommand {
  import opened Wrappers
  import opened Js
  import opened CommandCommon
  import PluginApi

  /** `plugin.delete`, whose `_execute` the run calls first. */
  const DeleteHookPath: seq<string> := ["delete"]

  /** The keys of the command's client table: it has no Version client. */
  const ClientTypes: seq<string> := ["Workflow", "App", "Translation", "AppAction", "Operation"]

  /** Keys with this prefix belong to the platform and are skipped silently. */
  const InternalPrefix := "__rb_internal"

  /** `getByKey(key, conditions, metadata)`, which may throw. */
  type GetByKey = (Json, seq<Json>, Json) -> Result<Json>

  /** What `_deleteRecord` did: one `deleteById` call, or nothing, with the
      line it logged. */
  datatype Deletion = Deleted(id: Json) | Skipped(log: Option<string>)

  function NotDeleted(key: string, configType: Json): string {
    "Deletion not completed for " + key + ", no " + ToDisplayString(configType) + " found with key = " + key
  }

  /** `_deleteRecord(object, metadata)`. The client is `clients[object.type]`,
      read with the key `String(object.type)`; without one, the call of its
      `getByKey` throws. */
  function DeleteRecord(doc: Json, metadata: Json, getByKey: GetByKey): Result<Deletion> {
    var t := Get(doc, "type");
    if ToDisplayString(t) !in ClientTypes then Err(TypeError)
    else
      var config :- getByKey(Get(doc, "key"), ExtraConditions(doc), Extend(metadata, "object", doc));
      if Truthy(config) then Ok(Deleted(Lookup(config, "id")))
      else
        var key := Get(doc, "key");
        if !key.Str? then Err(TypeError)
        else if StartsWith(key.s, InternalPrefix) then Ok(Skipped(None))
        else Ok(Skipped(Some(NotDeleted(key.s, t))))
  }

  /** The metadata of a run: `{version, removeGlobal: true, workflows}`. */
  function RunMetadata(version: Json, workflows: Json): Json {
    Obj([Member("version", version), Member("removeGlobal", Bool(true)), Member("workflows", workflows)])
  }

  /** `run()`: `plugin` is what the plugin module exports, and its
      `delete._execute` runs first on `{yamlData}`; every document of the
      result is deleted. The deletions run together; the model reports the
      first error in document order. */
  function DeleteRun(docs: Json, plugin: PluginApi.Exported, version: Json, workflows: Json, getByKey: GetByKey): (r: Result<seq<Deletion>>)
    ensures r.Ok? ==> PluginApi.RunHook(plugin, DeleteHookPath, Obj([Member("yamlData", docs)])).Ok?
  {
    var data :- PluginApi.RunHook(plugin, DeleteHookPath, Obj([Member("yamlData", docs)]));
    var yamlData := Get(data, "yamlData");
    if !yamlData.Arr? then Err(TypeError)
    else MapResult(yamlData.items, (d: Json) => DeleteRecord(d, RunMetadata(version, workflows), getByKey))
  }

  // ---------------------------------------------------------------------
  // Properties.

  /** The lookup is asked with the document's key, its extra conditions and
      the run's metadata extended with the document itself: two lookups that
      agree on that question give the same deletion. */
  lemma AsksWithObject(doc: Json, metadata: Json, g1: GetByKey, g2: GetByKey)
    requires g1(Get(doc, "key"), ExtraConditions(doc), Extend(metadata, "object", doc)) ==
             g2(Get(doc, "key"), ExtraConditions(doc), Extend(metadata, "object", doc))
    ensures DeleteRecord(doc, metadata, g1) == DeleteRecord(doc, metadata, g2)
  {
  }

  /** The metadata handed over carries the document under `object` and
      every field of the run's metadata. */
  lemma MetadataCarriesObject(doc: Json, version: Json, workflows: Json)
    ensures Get(Extend(RunMetadata(version, workflows), "object", doc), "object") == doc
    ensures Get(Extend(RunMetadata(version, workflows), "object", doc), "version") == version
    ensures Get(Extend(RunMetadata(version, workflows), "object", doc), "removeGlobal") == Bool(true)
    ensures Get(Extend(RunMetadata(version, workflows), "object", doc), "workflows") == workflows
  {
    var m := RunMetadata(version, workflows);
    assert DistinctKeys(m.members);
    ExtendFields(m, "object", doc, "version");
    ExtendFields(m, "object", doc, "removeGlobal");
    ExtendFields(m, "object", doc, "workflows");
    assert FindMember(m.members, "version") == Some(0);
    assert m.members[1..][0].key == "removeGlobal";
    assert FindMember(m.members, "removeGlobal") == Some(1);
    assert m.members[1..][1..][0].key == "workflows";
    assert FindMember(m.members, "workflows") == Some(2);
  }

  /** A found config is deleted by its id, once; nothing found deletes
      nothing and logs unless the key is internal. */
  lemma DeleteDecision(doc: Json, metadata: Json, getByKey: GetByKey, config: Json)
    requires ToDisplayString(Get(doc, "type")) in ClientTypes
    requires getByKey(Get(doc, "key"), ExtraConditions(doc), Extend(metadata, "object", doc)) == Ok(config)
    ensures Truthy(config) ==> DeleteRecord(doc, metadata, getByKey) == Ok(Deleted(Lookup(config, "id")))
    ensures !Truthy(config) && Get(doc, "key").Str? ==>
              DeleteRecord(doc, metadata, getByKey).Ok? && DeleteRecord(doc, metadata, getByKey).value.Skipped? &&
              (DeleteRecord(doc, metadata, getByKey).value.log.None? <==> StartsWith(Get(doc, "key").s, InternalPrefix))
    ensures !Truthy(config) && !Get(doc, "key").Str? ==> DeleteRecord(doc, metadata, getByKey) == Err(TypeError)
  {
  }

  /** A type whose text names no client throws before anything is looked
      up; one whose text does, such as the array `["App"]`, is looked up. */
  lemma UnknownTypeThrows(doc: Json, metadata: Json, getByKey: GetByKey)
    ensures ToDisplayString(Get(doc, "type")) !in ClientTypes ==> DeleteRecord(doc, metadata, getByKey) == Err(TypeError)
    ensures ToDisplayString(Get(doc, "type")) in ClientTypes ==>
              var asked := getByKey(Get(doc, "key"), ExtraConditions(doc), Extend(metadata, "object", doc));
              asked.Err? ==> DeleteRecord(doc, metadata, getByKey) == Err(asked.error)
    ensures Get(doc, "type") == Arr([Str("App")]) ==> ToDisplayString(Get(doc, "type")) in ClientTypes
  {
    if Get(doc, "type") == Arr([Str("App")]) {
      assert JoinItems([Str("App")]) == "App";
    }
  }

  /** A completed run made one decision per document of the plugins'
      result, in order, each under the run's metadata. */
  lemma DeleteRunPerDocument(docs: Json, plugin: PluginApi.Exported, version: Json, workflows: Json, getByKey: GetByKey, i: nat)
    requires DeleteRun(docs, plugin, version, workflows, getByKey).Ok?
    ensures var yamlData := Get(PluginApi.RunHook(plugin, DeleteHookPath, Obj([Member("yamlData", docs)])).value, "yamlData");
            var ds := DeleteRun(docs, plugin, version, workflows, getByKey).value;
            yamlData.Arr? && |ds| == |yamlData.items| &&
            (i < |ds| ==> DeleteRecord(yamlData.items[i], RunMetadata(version, workflows), getByKey) == Ok(ds[i]))
  {
  }

  /** One document whose record cannot be decided fails the whole run. */
  lemma DeleteRunFails(docs: Json, plugin: PluginApi.Exported, version: Json, workflows: Json, getByKey: GetByKey, i: nat)
    requires PluginApi.RunHook(plugin, DeleteHookPath, Obj([Member("yamlData", docs)])).Ok?
    requires var yamlData := Get(PluginApi.RunHook(plugin, DeleteHookPath, Obj([Member("yamlData", docs)])).value, "yamlData");
             yamlData.Arr? && i < |yamlData.items| && DeleteRecord(yamlData.items[i], RunMetadata(version, workflows), getByKey).Err?
    ensures DeleteRun(docs, plugin, version, workflows, getByKey).Err?
  {
  }

  /** Without a plugin, or with plugins built by `declare`, there is no
      `delete` namespace: the run throws before any lookup. */
  lemma DeleteNeedsDeletePlugin(docs: Json, api: PluginApi.Api, version: Json, workflows: Json, getByKey: GetByKey)
    ensures DeleteRun(docs, PluginApi.NoPlugins, version, workflows, getByKey) == Err(TypeError)
    ensures DeleteRun(docs, PluginApi.Declared(api), version, workflows, getByKey) == Err(TypeError)
  {
    PluginApi.DeclaredHook(api, DeleteHookPath, Obj([Member("yamlData", docs)]));
  }
}

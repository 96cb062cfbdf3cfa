/** The `apply` command: after the plugins had their turn on the documents,
    the documents are split into three stages; each config of the first two
    stages is updated in place when exactly one stored config of a selected
    version matches it, created otherwise, and the operations of the third
    stage are created together at the end.

    The replies of the clients the command calls are parameters. */
module ApplyCommand {
  import opened Wrappers
  import opened Js
  import opened CommandCommon
  import opened VersionSelect
  import ConfigUtils
  import CaseConv
  import Components
  import PluginApi

  /** `plugin.apply`, whose `_execute` the run calls first. */
  const ApplyHookPath: seq<string> := ["apply"]

  /** The keys of the command's client table. */
  const ClientTypes: seq<string> := ["Workflow", "App", "Translation", "AppAction", "Operation", "Version"]

  /** `[...extra, [CONF_KEYS_MAP[`${toSnakeCase(type)}s`], "==", key]]`. */
  function ListConditions(doc: Json): seq<Json>
    requires Get(doc, "type").Str?
  {
    ExtraConditions(doc) + [Arr([Components.ConfKey(CaseConv.ToSnakeCase(Get(doc, "type").s) + "s"), Str("=="), Get(doc, "key")])]
  }

  /** The apply command reads `vids.includes(conf.version)` with
      `vids = versions || []`, without wrapping a single id into a list as the
      other commands do. `AsWritten` is that reading; `Corrected` wraps. */
  datatype Reading = AsWritten | Corrected

  /** `vids.includes(v)` as written: membership for a list, a substring test
      for a string, a throw for anything else. */
  function VidsIncludesAsWritten(versions: Json, v: Json): Result<bool> {
    match Or(versions, Arr([]))
    case Arr(items) => Ok(Includes(items, v))
    case Str(s) => Ok(Contains(s, ToDisplayString(v)))
    case _ => Err(TypeError)
  }

  /** Membership in the selected ids, a single id read as a one-item list. */
  function VidsIncludes(versions: Json, v: Json): bool {
    Includes(if Truthy(versions) then WrapInList(versions) else [], v)
  }

  function SelectedVersion(reading: Reading, versions: Json): Json -> Result<bool> {
    (conf: Json) => (var v :- Field(conf, "version");
                     if reading == AsWritten then VidsIncludesAsWritten(versions, v) else Ok(VidsIncludes(versions, v)))
  }

  /** What `_generateRecord` asks the client for. */
  datatype Action = UpdateById(id: Json, body: Json) | CreateRecord(data: Json, versionId: Json)

  /** The stored configs of the document's key, of a selected version.
      `listed` is the list call's reply for the conditions. */
  function Survivors(reading: Reading, versions: Json, listed: Json): Result<seq<Json>> {
    match Or(listed, Arr([]))
    case Arr(items) => FilterResult(items, SelectedVersion(reading, versions))
    case _ => Err(TypeError)
  }

  /** `_generateRecord(object, versionId)`. `format` is `_formatConfToDoc`
      and `list` answers the list call for the given conditions. */
  function GenerateRecord(reading: Reading, doc: Json, versionId: Json, versions: Json,
                          format: Json -> Result<Json>, list: seq<Json> -> Json): Result<Action>
  {
    var data :- format(doc);
    var t := Get(doc, "type");
    if !(t.Str? && t.s in ClientTypes) then Err(TypeError)
    else
      var configs :- Survivors(reading, versions, list(ListConditions(doc)));
      if |configs| > 1 then Err(Duplicated(t))
      else if |configs| == 1 && Truthy(configs[0]) then
        Ok(UpdateById(Get(configs[0], "id"), Extend(data, "version", Get(configs[0], "version"))))
      else Ok(CreateRecord(data, versionId))
  }

  const NoVersions := "couldn't find matching versions"

  /** `_generateOperations(confs)`: the versions are checked first; the
      records are created together, and only for a non-empty list. */
  function GenerateOperations(confs: seq<Json>, versions: Json, format: Json -> Result<Json>): (r: Result<Option<(seq<Json>, seq<Json>)>>)
    ensures !Truthy(versions) ==> r == Err(NoVersions)
  {
    var vids :- WrapVersions(versions, NoVersions);
    var docs :- MapResult(confs, format);
    if |docs| > 0 then Ok(Some((docs, vids))) else Ok(None)
  }

  // ---------------------------------------------------------------------
  // run

  /** One client call of a run, tagged with its stage (0, 1 or 2). */
  datatype Step = Record(stage: nat, action: Action) | Operations(docs: seq<Json>, versions: seq<Json>)

  function StageOfStep(s: Step): nat {
    match s
    case Record(stage, _) => stage
    case Operations(_, _) => 2
  }

  /** The calls a run made and, when it failed, the error. */
  datatype Run = Run(steps: seq<Step>, error: Option<string>)

  /** One stage: every document's record is generated (together, so one
      failure does not stop the others); the stage fails with the first
      error in document order. */
  function RunStage(reading: Reading, stage: nat, docs: seq<Json>, versionId: Json, versions: Json,
                    format: Json -> Result<Json>, list: seq<Json> -> Json): (r: (seq<Step>, Option<string>))
    ensures forall i :: 0 <= i < |r.0| ==> r.0[i].Record? && r.0[i].stage == stage
    ensures |r.0| <= |docs|
    ensures r.1.None? ==> |r.0| == |docs|
    decreases |docs|
  {
    if docs == [] then ([], None)
    else
      var rest := RunStage(reading, stage, docs[1..], versionId, versions, format, list);
      match GenerateRecord(reading, docs[0], versionId, versions, format, list)
      case Ok(a) => ([Record(stage, a)] + rest.0, rest.1)
      case Err(e) => (rest.0, Some(e))
  }

  /** `run()`: `plugin` is what the plugin module exports, and its
      `apply._execute` runs first on `{yamlData}`; `docs` are the configs
      read from the file. The version is settled before stage one, and each
      stage starts only after the previous one completed. */
  function ApplyRun(reading: Reading, docs: Json, plugin: PluginApi.Exported, versionId: Result<VersionId>, versions: Json,
                    format: Json -> Result<Json>, list: seq<Json> -> Json): Run
  {
    match PluginApi.RunHook(plugin, ApplyHookPath, Obj([Member("yamlData", docs)]))
    case Err(e) => Run([], Some(e))
    case Ok(data) =>
      var yamlData := Get(data, "yamlData");
      if !yamlData.Arr? then Run([], Some(TypeError))
      else
        match ConfigUtils.StagesByTypes(yamlData.items)
        case Err(e) => Run([], Some(e))
        case Ok(stages) =>
          match versionId
          case Err(e) => Run([], Some(e))
          case Ok(vid) =>
            var first := RunStage(reading, 0, stages.first, vid.id, versions, format, list);
            if first.1.Some? then Run(first.0, first.1)
            else
              var second := RunStage(reading, 1, stages.second, vid.id, versions, format, list);
              if second.1.Some? then Run(first.0 + second.0, second.1)
              else
                match GenerateOperations(stages.third, versions, format)
                case Err(e) => Run(first.0 + second.0, Some(e))
                case Ok(None) => Run(first.0 + second.0, None)
                case Ok(Some((ds, vs))) => Run(first.0 + second.0 + [Operations(ds, vs)], None)
  }

  // ---------------------------------------------------------------------
  // Properties.

  /** The lookup is narrowed by the language for a Translation and always
      ends with the key field of the type's table entry. */
  lemma ConditionsShape(doc: Json)
    requires Get(doc, "type").Str?
    ensures var cs := ListConditions(doc);
            |cs| == |ExtraConditions(doc)| + 1 && cs[|cs| - 1].items[2] == Get(doc, "key")
    ensures Get(doc, "type") == Str("Translation") ==> |ListConditions(doc)| == 2
    ensures Get(doc, "type") != Str("Translation") ==> |ListConditions(doc)| == 1
  {
    ExtraConditionsTranslation(doc);
  }

  /** An App is listed by its system key and an AppAction by its operation
      key. */
  lemma KeyFieldOfApps(t: string)
    requires t in ["App", "AppAction"]
    ensures t == "App" ==> Components.ConfKey(CaseConv.ToSnakeCase(t) + "s") == Str("system_key")
    ensures t == "AppAction" ==> Components.ConfKey(CaseConv.ToSnakeCase(t) + "s") == Str("operation_key")
  {
    if t == "App" {
      assert "app" + "s" == "apps";
      KeyFieldOfWord(t, "app", Str("system_key"));
    } else {
      SnakeOfAppAction();
      assert "app_action" + "s" == "app_actions";
    }
  }

  /** Workflows, operations and translations are listed by their key. */
  lemma KeyFieldOfKeyed(t: string)
    requires t in ["Workflow", "Operation", "Translation"]
    ensures Components.ConfKey(CaseConv.ToSnakeCase(t) + "s") == Str("key")
  {
    if t == "Workflow" {
      assert "workflow" + "s" == "workflows";
      KeyFieldOfWord(t, "workflow", Str("key"));
    } else if t == "Operation" {
      assert "operation" + "s" == "operations";
      KeyFieldOfWord(t, "operation", Str("key"));
    } else {
      assert "translation" + "s" == "translations";
      KeyFieldOfWord(t, "translation", Str("key"));
    }
  }

  lemma KeyFieldOfWord(t: string, w: string, field: Json)
    requires CaseConv.IsNameWord(w) && CaseConv.Capital(w) == t && Components.ConfKey(w + "s") == field
    ensures Components.ConfKey(CaseConv.ToSnakeCase(t) + "s") == field
  {
    SnakeOfWord(w, t);
  }

  lemma SnakeOfWord(w: string, t: string)
    requires CaseConv.IsNameWord(w) && CaseConv.Capital(w) == t
    ensures CaseConv.ToSnakeCase(t) == w
  {
    var ws := [w];
    assert ws[1..] == [];
    assert CaseConv.PascalJoin(ws) == CaseConv.Capital(w) + [];
    assert CaseConv.Capital(w) + [] == t;
    CaseConv.SnakeOfPascal(ws);
  }

  lemma SnakeOfAppAction()
    ensures CaseConv.ToSnakeCase("AppAction") == "app_action"
  {
    var ws := ["app", "action"];
    assert CaseConv.IsNameWord(ws[0]) && CaseConv.IsNameWord(ws[1]);
    var tail := ws[1..];
    assert tail == ["action"] && tail[1..] == [];
    assert CaseConv.PascalJoin(tail) == CaseConv.Capital("action") + [];
    assert CaseConv.Capital("action") == "Action";
    assert CaseConv.PascalJoin(ws) == CaseConv.Capital("app") + CaseConv.PascalJoin(tail);
    assert CaseConv.Capital("app") == "App";
    assert "App" + ("Action" + []) == "AppAction";
    CaseConv.SnakeOfPascal(ws);
    assert CaseConv.SnakeJoin(ws) == "app" + "_" + CaseConv.SnakeJoin(tail);
    assert "app" + "_" + "action" == "app_action";
  }

  /** Exactly one surviving config is updated by its id, carrying that
      config's version; none is a create under the run's version; more
      throw. The two calls never both happen. */
  lemma GenerateRecordDecision(reading: Reading, doc: Json, versionId: Json, versions: Json,
                               format: Json -> Result<Json>, list: seq<Json> -> Json)
    requires format(doc).Ok? && Get(doc, "type").Str? && Get(doc, "type").s in ClientTypes
    requires Survivors(reading, versions, list(ListConditions(doc))).Ok?
    ensures var configs := Survivors(reading, versions, list(ListConditions(doc))).value;
            var r := GenerateRecord(reading, doc, versionId, versions, format, list);
            (|configs| > 1 <==> r == Err(Duplicated(Get(doc, "type")))) &&
            (|configs| == 1 && Truthy(configs[0]) <==> r.Ok? && r.value.UpdateById?) &&
            (r.Ok? && r.value.UpdateById? ==>
               r.value.id == Get(configs[0], "id") && r.value.body == Extend(format(doc).value, "version", Get(configs[0], "version"))) &&
            (r.Ok? && r.value.CreateRecord? <==> |configs| == 0 || (|configs| == 1 && !Truthy(configs[0]))) &&
            (r.Ok? && r.value.CreateRecord? ==> r.value == CreateRecord(format(doc).value, versionId))
  {
  }

  /** Read correctly, a config survives exactly when its version is one of
      the selected ids. */
  lemma SurvivorsCorrected(versions: Json, items: seq<Json>, x: Json)
    requires Survivors(Corrected, versions, Arr(items)).Ok?
    ensures x in Survivors(Corrected, versions, Arr(items)).value <==>
              x in items && !Nullish(x) && VidsIncludes(versions, Get(x, "version"))
  {
    FilterResultMembers(items, SelectedVersion(Corrected, versions), x);
  }

  /** With a single version id given as a string, the as-written reading
      keeps a stored config of another version whose id is a part of it:
      "v1" is found in "v12". */
  lemma SubstringVersionKept(vid: Json, other: Json, config: Json)
    requires vid == Str("v12") && other == Str("v1") && config == Obj([Member("id", Str("a")), Member("version", other)])
    ensures Survivors(AsWritten, vid, Arr([config])) == Ok([config])
    ensures Survivors(Corrected, vid, Arr([config])) == Ok([])
  {
    GetPair(Member("id", Str("a")), Member("version", other), "version");
    assert MatchAt("v12", "v1", 0) by {
      assert "v12"[0..2] == "v1";
    }
    assert VidsIncludesAsWritten(vid, other) == Ok(true);
    assert !StrictEquals(vid, other);
    assert !VidsIncludes(vid, other) by {
      assert WrapInList(vid) == [vid];
    }
    FilterResultSingle(config, SelectedVersion(AsWritten, vid));
    FilterResultSingle(config, SelectedVersion(Corrected, vid));
  }

  /** Operations are created only for a non-empty list, and a missing
      version throws before any document is formatted. */
  lemma OperationsOnlyWhenAny(confs: seq<Json>, versions: Json, format: Json -> Result<Json>)
    requires GenerateOperations(confs, versions, format).Ok?
    ensures GenerateOperations(confs, versions, format).value.Some? <==> |confs| > 0
    ensures GenerateOperations(confs, versions, format).value.Some? ==>
              |GenerateOperations(confs, versions, format).value.value.0| == |confs| && Truthy(versions)
  {
  }

  /** The calls of a run go stage by stage: no call of a later stage comes
      before one of an earlier stage. */
  lemma StepsInStageOrder(reading: Reading, docs: Json, plugin: PluginApi.Exported, versionId: Result<VersionId>, versions: Json,
                          format: Json -> Result<Json>, list: seq<Json> -> Json)
    ensures var steps := ApplyRun(reading, docs, plugin, versionId, versions, format, list).steps;
            StageOrdered(steps)
  {
    match PluginApi.RunHook(plugin, ApplyHookPath, Obj([Member("yamlData", docs)]))
    case Err(_) =>
    case Ok(data) =>
      var yamlData := Get(data, "yamlData");
      if yamlData.Arr? {
        match ConfigUtils.StagesByTypes(yamlData.items)
        case Err(_) =>
        case Ok(stages) =>
          match versionId
          case Err(_) =>
          case Ok(vid) =>
            var first := RunStage(reading, 0, stages.first, vid.id, versions, format, list).0;
            var second := RunStage(reading, 1, stages.second, vid.id, versions, format, list).0;
            StageOrderedAppend(first, second);
            match GenerateOperations(stages.third, versions, format)
            case Err(_) =>
            case Ok(None) =>
            case Ok(Some((ds, vs))) =>
              StageOrderedAppend(first + second, [Operations(ds, vs)]);
      }
  }

  /** No call of a later stage comes before one of an earlier stage. */
  predicate StageOrdered(steps: seq<Step>) {
    forall i, j :: 0 <= i < j < |steps| ==> StageOfStep(steps[i]) <= StageOfStep(steps[j])
  }

  lemma StageOrderedAppend(a: seq<Step>, b: seq<Step>)
    requires StageOrdered(a) && StageOrdered(b)
    requires forall i, j :: 0 <= i < |a| && 0 <= j < |b| ==> StageOfStep(a[i]) <= StageOfStep(b[j])
    ensures StageOrdered(a + b)
  {
  }

  /** A failed first stage leaves the later stages untouched, and a run
      without error made one call per first- and second-stage document. */
  lemma FailedStageStops(reading: Reading, docs: Json, plugin: PluginApi.Exported, versionId: Result<VersionId>, versions: Json,
                         format: Json -> Result<Json>, list: seq<Json> -> Json, stages: ConfigUtils.Stages)
    requires PluginApi.RunHook(plugin, ApplyHookPath, Obj([Member("yamlData", docs)])).Ok?
    requires var data := PluginApi.RunHook(plugin, ApplyHookPath, Obj([Member("yamlData", docs)])).value;
             Get(data, "yamlData").Arr? && ConfigUtils.StagesByTypes(Get(data, "yamlData").items) == Ok(stages)
    requires versionId.Ok?
    ensures RunStage(reading, 0, stages.first, versionId.value.id, versions, format, list).1.Some? ==>
              (forall s :: s in ApplyRun(reading, docs, plugin, versionId, versions, format, list).steps ==> StageOfStep(s) == 0)
    ensures ApplyRun(reading, docs, plugin, versionId, versions, format, list).error.None? ==>
              |ApplyRun(reading, docs, plugin, versionId, versions, format, list).steps| >= |stages.first| + |stages.second|
  {
  }

  /** Without a plugin, or with plugins built by `declare`, there is no
      `apply` namespace: the run throws before any call. */
  lemma ApplyNeedsApplyPlugin(reading: Reading, docs: Json, api: PluginApi.Api, versionId: Result<VersionId>, versions: Json,
                              format: Json -> Result<Json>, list: seq<Json> -> Json)
    ensures ApplyRun(reading, docs, PluginApi.NoPlugins, versionId, versions, format, list) == Run([], Some(TypeError))
    ensures ApplyRun(reading, docs, PluginApi.Declared(api), versionId, versions, format, list) == Run([], Some(TypeError))
  {
    PluginApi.DeclaredHook(api, ApplyHookPath, Obj([Member("yamlData", docs)]));
  }
}

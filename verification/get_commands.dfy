/** The read commands `app:get`, `workflow:get`, `operation:get` and
    `operation:list`: the listed configs are narrowed to the selected
    versions (and, for operations, to the workflows of a key) and either
    printed or answered with a stop message. Before printing, every list
    reply is indexed by id into the `metadata` object. The list replies are
    parameters; the conversion of a config to YAML text is a parameter of
    `operation:list` and not modelled for the other commands. */
module GetCommands {
  import opened Wrappers
  import opened Js
  import opened CommandCommon
  import opened VersionSelect
  import Components
  import ConfigUtils
  import PluginApi

  const NoVersions := "couldn't find matching versions"

  // ---------------------------------------------------------------------
  // The metadata of the printed configs.

  /** A list reply `docListToObj` can index: an array without null or
      undefined elements. */
  predicate Indexable(list: Json) {
    list.Arr? && forall i :: 0 <= i < |list.items| ==> !Nullish(list.items[i])
  }

  /** `docListToObj(list)` of a list reply: `list.forEach` throws on
      anything but an array. */
  function DocList(list: Json): (r: Result<Json>)
    ensures r.Ok? <==> Indexable(list)
    ensures r.Err? ==> r.error == TypeError
  {
    if list.Arr? then ConfigUtils.DocListToObj(list.items) else Err(TypeError)
  }

  /** The members of `metadata`: each named list indexed, in order; the
      first list that cannot be indexed throws. */
  function Metadata(fields: seq<Member>): (r: Result<seq<Member>>)
    ensures r.Ok? <==> forall i :: 0 <= i < |fields| ==> Indexable(fields[i].value)
    ensures r.Err? ==> r.error == TypeError
    ensures r.Ok? ==> (|r.value| == |fields| &&
                       forall i :: 0 <= i < |fields| ==> r.value[i] == Member(fields[i].key, DocList(fields[i].value).value))
    decreases |fields|
  {
    if fields == [] then Ok([])
    else
      var head :- DocList(fields[0].value);
      var rest :- Metadata(fields[1..]);
      Ok([Member(fields[0].key, head)] + rest)
  }

  // ---------------------------------------------------------------------
  // app:get and workflow:get

  function NoApp(key: string): string {
    "can't find and app with key equals to " + key
  }

  /** `run()` of `app:get` after the list calls: `versionList` and `apps`
      are the replies, `versions` the selected versions. A reply without a
      truthy `length` throws before the versions are looked at. */
  function AppGet(key: string, versionList: Json, apps: Json, versions: Json): Result<Outcome> {
    var len :- Components.LengthOf(Or(apps, Arr([])));
    if !Truthy(len) then Err(NoApp(key))
    else
      var filtered :- FilterByVersions(apps, versions, NoVersions);
      if |filtered| > 0 then
        var _ :- Metadata([Member("versions", versionList)]);
        Ok(Printed(filtered))
      else Ok(Stopped("couldn't find app for key: " + key))
  }

  /** `run()` of `workflow:get` after the list calls. */
  function WorkflowGet(key: string, versionList: Json, workflows: Json, versions: Json): Result<Outcome> {
    var filtered :- FilterByVersions(workflows, versions, NoVersions);
    if |filtered| > 0 then
      var _ :- Metadata([Member("versions", versionList)]);
      Ok(Printed(filtered))
    else Ok(Stopped("couldn't find workflow for key: " + key))
  }

  // ---------------------------------------------------------------------
  // getWorkflowKey, filterOperations

  /** `workflow.key === key && vids.includes(workflow.version)` */
  function KeyAndVersion(key: Json, vids: seq<Json>): Json -> Result<bool> {
    (w: Json) => (var k :- Field(w, "key"); Ok(StrictEquals(k, key) && Includes(vids, Get(w, "version"))))
  }

  /** The workflows of the key at a selected version. */
  function KeptWorkflows(workflows: Json, key: Json, versions: Json, message: string): Result<seq<Json>> {
    var vids :- WrapVersions(versions, message);
    if !workflows.Arr? then Err(TypeError)
    else FilterResult(workflows.items, KeyAndVersion(key, vids))
  }

  /** `.map((w) => w.id)` */
  function Ids(ws: seq<Json>): (r: seq<Json>)
    ensures |r| == |ws|
  {
    seq(|ws|, i requires 0 <= i < |ws| => Get(ws[i], "id"))
  }

  /** `getWorkflowKey(workflows, key)`; the two commands differ only in
      the message thrown when no version is selected. */
  function WorkflowIds(workflows: Json, key: Json, versions: Json, message: string): Result<seq<Json>> {
    var kept :- KeptWorkflows(workflows, key, versions, message);
    Ok(Ids(kept))
  }

  /** `xs.filter((value) => ids.includes(value)).length` is non-zero. */
  predicate AnyIncluded(xs: seq<Json>, ids: seq<Json>)
    decreases |xs|
  {
    xs != [] && (Includes(ids, xs[0]) || AnyIncluded(xs[1..], ids))
  }

  /** `op.workflows.filter((value) => workflowIds.includes(value)).length` */
  function SharesWorkflow(op: Json, workflowIds: seq<Json>): Result<bool> {
    var ws :- Field(op, "workflows");
    if ws.Arr? then Ok(AnyIncluded(ws.items, workflowIds)) else Err(TypeError)
  }

  /** The callback of `filterOperations`. */
  function KeyAndWorkflow(key: Json, workflowIds: seq<Json>): Json -> Result<bool> {
    (op: Json) => (var k :- Field(op, "key"); if StrictEquals(k, key) then SharesWorkflow(op, workflowIds) else Ok(false))
  }

  /** `filterOperations(operations, workflowIds, key)` */
  function FilterOperations(operations: Json, workflowIds: seq<Json>, key: Json): Result<seq<Json>> {
    if operations.Arr? then FilterResult(operations.items, KeyAndWorkflow(key, workflowIds)) else Err(TypeError)
  }

  /** The five list replies of `operation:get` and `operation:list`. */
  datatype Lists = Lists(operations: Json, workflows: Json, apps: Json, appActions: Json, versions: Json)

  /** `run()` of `operation:get` after the lists are loaded; `versions` are
      the selected versions. */
  function OperationGet(key: string, workflowKey: Json, lists: Lists, versions: Json): Result<Outcome> {
    var ids :- WorkflowIds(lists.workflows, workflowKey, versions, "couldn't find matching verions");
    var filtered :- FilterOperations(lists.operations, ids, Str(key));
    if |filtered| > 0 then
      var _ :- Metadata([Member("workflows", lists.workflows), Member("apps", lists.apps), Member("appActions", lists.appActions),
                         Member("versions", lists.versions), Member("operations", lists.operations)]);
      Ok(Printed(filtered))
    else Ok(Stopped("couldn't find operation for key: " + key))
  }

  // ---------------------------------------------------------------------
  // operation:list

  function Shares(workflowIds: seq<Json>): Json -> Result<bool> {
    (op: Json) => SharesWorkflow(op, workflowIds)
  }

  /** The metadata fields of `operation:list`, in the source's order. */
  function ListFields(lists: Lists): seq<Member> {
    [Member("workflows", lists.workflows), Member("apps", lists.apps), Member("appActions", lists.appActions),
     Member("operations", lists.operations), Member("versions", lists.versions)]
  }

  /** `run()` of `operation:list` up to the conversion: the operations to
      convert, or the stop message. The metadata is built before the flag
      is looked at. */
  function OperationSelection(lists: Lists, workflowKey: Json, versions: Json): Result<Outcome> {
    var operations := lists.operations;
    var len :- if Truthy(operations) then Components.LengthOf(operations) else Ok(Num(0));
    if !Truthy(len) then Ok(Stopped("no operations found"))
    else
      var _ :- Metadata(ListFields(lists));
      if !operations.Arr? then Err(TypeError)
      else if Truthy(workflowKey) then
        var ids :- WorkflowIds(lists.workflows, workflowKey, versions, "couldn't find matching version.");
        if |ids| == 0 then Ok(Stopped("coludn't find matching operations"))
        else
          var shared :- FilterResult(operations.items, Shares(ids));
          Ok(Printed(shared))
      else Ok(Printed(operations.items))
  }

  /** `plugin.operation.list`, whose `_execute` the command calls on the
      converted operations. */
  const ListHookPath: seq<string> := ["operation", "list"]

  /** `run()` of `operation:list`: the selected operations are converted
      with `toConf` (`docToConf("operation", op, metadata)`), the plugin's
      `operation.list._execute` runs on `{operations}`, and what it leaves
      under `operations` is printed. */
  function OperationList(lists: Lists, workflowKey: Json, versions: Json, toConf: Json -> Result<Json>,
                         plugin: PluginApi.Exported): (r: Result<Outcome>)
    ensures OperationSelection(lists, workflowKey, versions).Err? ==> r == OperationSelection(lists, workflowKey, versions)
    ensures OperationSelection(lists, workflowKey, versions).Ok? && OperationSelection(lists, workflowKey, versions).value.Stopped? ==>
              r == OperationSelection(lists, workflowKey, versions)
  {
    var selection :- OperationSelection(lists, workflowKey, versions);
    match selection
    case Stopped(_) => Ok(selection)
    case Printed(selected) =>
      var confs :- MapResult(selected, toConf);
      var data :- PluginApi.RunHook(plugin, ListHookPath, Obj([Member("operations", Arr(confs))]));
      var out := Get(data, "operations");
      if out.Arr? then Ok(Printed(out.items)) else Err(TypeError)
  }

  // ---------------------------------------------------------------------
  // Properties.

  /** The recursive test is the existential one: some workflow of the
      operation is one of the ids. */
  lemma {:induction false} AnyIncludedIff(xs: seq<Json>, ids: seq<Json>)
    ensures AnyIncluded(xs, ids) <==> exists i :: 0 <= i < |xs| && Includes(ids, xs[i])
    decreases |xs|
  {
    if xs != [] {
      AnyIncludedIff(xs[1..], ids);
      if AnyIncluded(xs[1..], ids) {
        var i :| 0 <= i < |xs[1..]| && Includes(ids, xs[1..][i]);
        assert Includes(ids, xs[i + 1]);
      }
      if exists i :: 0 <= i < |xs| && Includes(ids, xs[i]) {
        var i :| 0 <= i < |xs| && Includes(ids, xs[i]);
        if i > 0 {
          assert xs[1..][i - 1] == xs[i];
        }
      }
    }
  }

  /** No ids, no shared workflow. */
  lemma NothingShared(xs: seq<Json>)
    ensures !AnyIncluded(xs, [])
  {
    AnyIncludedIff(xs, []);
  }

  /** An empty or missing app list, or an object whose `length` is falsy,
      throws before the versions are read. */
  lemma AppGetEmptyThrows(key: string, versionList: Json, apps: Json, versions: Json)
    requires !Truthy(apps) || apps == Arr([]) || apps == Str("") || (apps.Obj? && !Truthy(Get(apps, "length")))
    ensures AppGet(key, versionList, apps, versions) == Err(NoApp(key))
  {
  }

  /** An object reply with a truthy `length` gets past the emptiness check
      and then throws in the filter, which needs an array. */
  lemma AppGetObjectReply(key: string, versionList: Json, apps: Json, versions: Json)
    requires apps.Obj? && Truthy(Get(apps, "length")) && Truthy(versions)
    ensures AppGet(key, versionList, apps, versions) == Err(TypeError)
  {
  }

  /** `app:get` prints exactly the listed apps of a selected version, and
      stops without printing when there are none; it prints only when the
      versions reply can be indexed. */
  lemma AppGetSelects(key: string, versionList: Json, apps: Json, versions: Json, x: Json)
    requires AppGet(key, versionList, apps, versions).Ok?
    ensures var out := AppGet(key, versionList, apps, versions).value;
            FilterByVersions(apps, versions, NoVersions).Ok? &&
            (out.Printed? ==> out.items == FilterByVersions(apps, versions, NoVersions).value && |out.items| > 0 && Indexable(versionList)) &&
            (out.Stopped? <==> FilterByVersions(apps, versions, NoVersions).value == [])
    ensures AppGet(key, versionList, apps, versions).value.Printed? ==>
              (x in AppGet(key, versionList, apps, versions).value.items <==>
                 x in apps.items && !Nullish(x) && Includes(WrapVersions(versions, NoVersions).value, Get(x, "version")))
  {
    FilterByVersionsMembers(apps, versions, NoVersions, x);
    assert Metadata([Member("versions", versionList)]).Ok? ==> Indexable([Member("versions", versionList)][0].value);
  }

  /** A non-empty selection is printed exactly when the versions reply can
      be indexed; otherwise building the metadata throws. */
  lemma AppGetMetadata(key: string, versionList: Json, apps: Json, versions: Json)
    requires apps.Arr? && |apps.items| > 0
    requires FilterByVersions(apps, versions, NoVersions).Ok? && FilterByVersions(apps, versions, NoVersions).value != []
    ensures AppGet(key, versionList, apps, versions) ==
              if Indexable(versionList) then Ok(Printed(FilterByVersions(apps, versions, NoVersions).value)) else Err(TypeError)
  {
    OneField("versions", versionList);
  }

  /** Falsy versions throw, for a non-empty app list. */
  lemma AppGetNoVersions(key: string, versionList: Json, apps: Json, versions: Json)
    requires apps.Arr? && |apps.items| > 0 && !Truthy(versions)
    ensures AppGet(key, versionList, apps, versions) == Err(NoVersions)
  {
  }

  /** `workflow:get` prints only a non-empty selection, and only when the
      versions reply can be indexed; an empty one is only the stop message. */
  lemma WorkflowGetOutput(key: string, versionList: Json, workflows: Json, versions: Json)
    requires FilterByVersions(workflows, versions, NoVersions).Ok?
    ensures FilterByVersions(workflows, versions, NoVersions).value == [] ==>
              WorkflowGet(key, versionList, workflows, versions) == Ok(Stopped("couldn't find workflow for key: " + key))
    ensures FilterByVersions(workflows, versions, NoVersions).value != [] ==>
              WorkflowGet(key, versionList, workflows, versions) ==
                if Indexable(versionList) then Ok(Printed(FilterByVersions(workflows, versions, NoVersions).value)) else Err(TypeError)
  {
    OneField("versions", versionList);
  }

  /** The metadata of one list succeeds exactly when the list can be indexed. */
  lemma OneField(name: string, list: Json)
    ensures Metadata([Member(name, list)]).Ok? <==> Indexable(list)
  {
    assert [Member(name, list)][0].value == list;
  }

  /** A workflow is kept exactly when it has the key and a selected
      version; the ids come out in the workflows' order. */
  lemma WorkflowIdsSelect(workflows: Json, key: Json, versions: Json, message: string, w: Json)
    requires KeptWorkflows(workflows, key, versions, message).Ok?
    ensures WorkflowIds(workflows, key, versions, message) == Ok(Ids(KeptWorkflows(workflows, key, versions, message).value))
    ensures w in KeptWorkflows(workflows, key, versions, message).value <==>
              w in workflows.items && !Nullish(w) && StrictEquals(Get(w, "key"), key) &&
              Includes(WrapVersions(versions, message).value, Get(w, "version"))
  {
    var vids := WrapVersions(versions, message).value;
    FilterResultMembers(workflows.items, KeyAndVersion(key, vids), w);
  }

  /** A single id is wrapped into a list; falsy versions throw the
      command's message. */
  lemma WorkflowIdsVersions(workflows: Json, key: Json, versions: Json, message: string)
    ensures !Truthy(versions) ==> WorkflowIds(workflows, key, versions, message) == Err(message)
    ensures Truthy(versions) && !versions.Arr? ==> WrapVersions(versions, message) == Ok([versions])
  {
  }

  /** An operation is kept exactly when it has the key and shares a
      workflow with the ids, in the list's order. */
  lemma FilterOperationsSelect(operations: Json, workflowIds: seq<Json>, key: Json, op: Json)
    requires FilterOperations(operations, workflowIds, key).Ok?
    ensures op in FilterOperations(operations, workflowIds, key).value <==>
              op in operations.items && !Nullish(op) && StrictEquals(Get(op, "key"), key) &&
              Get(op, "workflows").Arr? && exists i :: 0 <= i < |Get(op, "workflows").items| && Includes(workflowIds, Get(op, "workflows").items[i])
  {
    FilterResultMembers(operations.items, KeyAndWorkflow(key, workflowIds), op);
    if op in operations.items && !Nullish(op) && StrictEquals(Get(op, "key"), key) && Get(op, "workflows").Arr? {
      AnyIncludedIff(Get(op, "workflows").items, workflowIds);
    }
  }

  /** With no workflow ids nothing is kept. */
  lemma EmptyIdsNothingKept(operations: Json, key: Json)
    requires FilterOperations(operations, [], key).Ok?
    ensures FilterOperations(operations, [], key).value == []
  {
    if FilterOperations(operations, [], key).value != [] {
      var x := FilterOperations(operations, [], key).value[0];
      FilterResultMembers(operations.items, KeyAndWorkflow(key, []), x);
      NothingShared(Get(x, "workflows").items);
      assert false;
    }
  }

  /** `operation:get` with no workflow of the flag's key finds nothing and
      only stops. */
  lemma OperationGetNoIds(key: string, workflowKey: Json, lists: Lists, versions: Json)
    requires WorkflowIds(lists.workflows, workflowKey, versions, "couldn't find matching verions") == Ok([])
    requires FilterOperations(lists.operations, [], Str(key)).Ok?
    ensures OperationGet(key, workflowKey, lists, versions) == Ok(Stopped("couldn't find operation for key: " + key))
  {
    EmptyIdsNothingKept(lists.operations, Str(key));
  }

  /** Every one of the five replies can be indexed by `docListToObj`. */
  predicate ListsIndexable(lists: Lists) {
    Indexable(lists.operations) && Indexable(lists.workflows) && Indexable(lists.apps) &&
    Indexable(lists.appActions) && Indexable(lists.versions)
  }

  /** The metadata of `operation:list` is built exactly when every reply
      can be indexed. */
  lemma ListMetadata(lists: Lists)
    ensures Metadata(ListFields(lists)).Ok? <==> ListsIndexable(lists)
  {
    var fs := ListFields(lists);
    assert fs[0].value == lists.workflows && fs[1].value == lists.apps && fs[2].value == lists.appActions;
    assert fs[3].value == lists.operations && fs[4].value == lists.versions;
  }

  /** Without the flag every listed operation is handed on, once the
      metadata is built; a reply that cannot be indexed throws. */
  lemma OperationListNoFlag(lists: Lists, workflowKey: Json, versions: Json)
    requires lists.operations.Arr? && |lists.operations.items| > 0 && !Truthy(workflowKey)
    ensures OperationSelection(lists, workflowKey, versions) ==
              if ListsIndexable(lists) then Ok(Printed(lists.operations.items)) else Err(TypeError)
  {
    ListMetadata(lists);
  }

  /** With the flag set and no matching workflow, the command stops and
      hands nothing on, once the metadata is built. */
  lemma OperationListNoIds(lists: Lists, workflowKey: Json, versions: Json)
    requires lists.operations.Arr? && |lists.operations.items| > 0 && Truthy(workflowKey)
    requires WorkflowIds(lists.workflows, workflowKey, versions, "couldn't find matching version.") == Ok([])
    ensures OperationSelection(lists, workflowKey, versions) ==
              if ListsIndexable(lists) then Ok(Stopped("coludn't find matching operations")) else Err(TypeError)
  {
    ListMetadata(lists);
  }

  /** With the flag set, an operation is handed on exactly when it shares a
      workflow with the key's workflows; only indexable replies get there. */
  lemma OperationListShared(lists: Lists, workflowKey: Json, versions: Json, op: Json)
    requires OperationSelection(lists, workflowKey, versions).Ok?
    requires OperationSelection(lists, workflowKey, versions).value.Printed? && Truthy(workflowKey)
    ensures var ids := WorkflowIds(lists.workflows, workflowKey, versions, "couldn't find matching version.").value;
            ListsIndexable(lists) && |ids| > 0 &&
            (op in OperationSelection(lists, workflowKey, versions).value.items <==>
               op in lists.operations.items && !Nullish(op) && Get(op, "workflows").Arr? &&
               exists i :: 0 <= i < |Get(op, "workflows").items| && Includes(ids, Get(op, "workflows").items[i]))
  {
    ListMetadata(lists);
    var ids := WorkflowIds(lists.workflows, workflowKey, versions, "couldn't find matching version.").value;
    FilterResultMembers(lists.operations.items, Shares(ids), op);
    if op in lists.operations.items && !Nullish(op) && Get(op, "workflows").Arr? {
      AnyIncludedIff(Get(op, "workflows").items, ids);
    }
  }

  /** Without a plugin, or with plugins built by `declare`, there is no
      `operation` namespace: once operations are converted, the command
      throws. */
  lemma OperationListNeedsPlugin(lists: Lists, workflowKey: Json, versions: Json, toConf: Json -> Result<Json>, api: PluginApi.Api)
    requires OperationSelection(lists, workflowKey, versions).Ok?
    requires OperationSelection(lists, workflowKey, versions).value.Printed?
    requires MapResult(OperationSelection(lists, workflowKey, versions).value.items, toConf).Ok?
    ensures OperationList(lists, workflowKey, versions, toConf, PluginApi.NoPlugins) == Err(TypeError)
    ensures OperationList(lists, workflowKey, versions, toConf, PluginApi.Declared(api)) == Err(TypeError)
  {
    var confs := MapResult(OperationSelection(lists, workflowKey, versions).value.items, toConf).value;
    PluginApi.DeclaredHook(api, ListHookPath, Obj([Member("operations", Arr(confs))]));
  }

  /** After a printed selection, `operation:list` converts every operation,
      runs the hook on the converted list and prints what it hands back. */
  lemma OperationListAfterSelection(lists: Lists, workflowKey: Json, versions: Json, toConf: Json -> Result<Json>,
                                    plugin: PluginApi.Exported, selected: seq<Json>, confs: seq<Json>)
    requires OperationSelection(lists, workflowKey, versions) == Ok(Printed(selected))
    requires MapResult(selected, toConf) == Ok(confs)
    ensures OperationList(lists, workflowKey, versions, toConf, plugin) ==
              match PluginApi.RunHook(plugin, ListHookPath, Obj([Member("operations", Arr(confs))]))
              case Err(e) => Err(e)
              case Ok(data) => if Get(data, "operations").Arr? then Ok(Printed(Get(data, "operations").items)) else Err(TypeError)
  {
  }

  /** A conversion that throws is the command's error, before the hook. */
  lemma OperationListConvertFails(lists: Lists, workflowKey: Json, versions: Json, toConf: Json -> Result<Json>,
                                  plugin: PluginApi.Exported, selected: seq<Json>, e: string)
    requires OperationSelection(lists, workflowKey, versions) == Ok(Printed(selected))
    requires MapResult(selected, toConf) == Err(e)
    ensures OperationList(lists, workflowKey, versions, toConf, plugin) == Err(e)
  {
  }

  /** With a plugin whose `operation.list._execute` leaves its payload as it
      was, the command prints one converted config per selected operation,
      in order. */
  lemma OperationListPrintsConverted(lists: Lists, workflowKey: Json, versions: Json, toConf: Json -> Result<Json>,
                                     execute: seq<string> -> Option<PluginApi.Callback>, selected: seq<Json>)
    requires OperationSelection(lists, workflowKey, versions) == Ok(Printed(selected))
    requires execute(ListHookPath).Some? && forall p :: execute(ListHookPath).value(p) == Ok(p)
    ensures var r := OperationList(lists, workflowKey, versions, toConf, PluginApi.Foreign(execute));
            (r.Ok? <==> forall i :: 0 <= i < |selected| ==> toConf(selected[i]).Ok?) &&
            (r.Ok? ==> r.value.Printed? && |r.value.items| == |selected| &&
                       forall i :: 0 <= i < |selected| ==> toConf(selected[i]) == Ok(r.value.items[i]))
  {
    match MapResult(selected, toConf)
    case Err(e) =>
      OperationListConvertFails(lists, workflowKey, versions, toConf, PluginApi.Foreign(execute), selected, e);
    case Ok(confs) =>
      OperationListQuietHook(lists, workflowKey, versions, toConf, execute, selected, confs);
  }

  lemma OperationListQuietHook(lists: Lists, workflowKey: Json, versions: Json, toConf: Json -> Result<Json>,
                               execute: seq<string> -> Option<PluginApi.Callback>, selected: seq<Json>, confs: seq<Json>)
    requires OperationSelection(lists, workflowKey, versions) == Ok(Printed(selected))
    requires MapResult(selected, toConf) == Ok(confs)
    requires execute(ListHookPath).Some? && forall p :: execute(ListHookPath).value(p) == Ok(p)
    ensures OperationList(lists, workflowKey, versions, toConf, PluginApi.Foreign(execute)) == Ok(Printed(confs))
  {
    QuietHookKeeps(execute, confs);
    OperationListAfterSelection(lists, workflowKey, versions, toConf, PluginApi.Foreign(execute), selected, confs);
  }

  lemma QuietHookKeeps(execute: seq<string> -> Option<PluginApi.Callback>, confs: seq<Json>)
    requires execute(ListHookPath).Some? && forall p :: execute(ListHookPath).value(p) == Ok(p)
    ensures var payload := Obj([Member("operations", Arr(confs))]);
            PluginApi.RunHook(PluginApi.Foreign(execute), ListHookPath, payload) == Ok(payload) &&
            Get(payload, "operations") == Arr(confs)
  {
    GetSingle(Member("operations", Arr(confs)), "operations");
  }
}

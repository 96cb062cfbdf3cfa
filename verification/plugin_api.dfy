/** The plugin helper's `declare` and the command line's plugin loader.

    `declare(plugin)` returns a thunk; each call of the thunk builds a fresh
    api whose only namespace is `translation` (a callback list with `onList`
    and `_execute`), hands it to the plugin's script, and returns it.

    The loader collects the plugin entries of the local and the global
    `.rbc.js` and invokes every entry in order, keeping the api produced by
    the last one. Requiring a module and calling a function entry are
    foreign calls: the model takes them as parameters. */
module PluginApi {
  import opened Wrappers
  import opened Js

  /** A callback's effect on the payload object it is handed: callbacks may
      change the object in place, or throw. */
  type Callback = Json -> Result<Json>

  datatype Translation = Translation(callbacks: seq<Callback>)

  datatype Api = Api(translation: Translation)

  /** The api one call of a declared thunk starts from. */
  function NewApi(): (api: Api)
    ensures api.translation.callbacks == []
  {
    Api(Translation([]))
  }

  /** `translation.onList(cb)`. */
  function OnList(api: Api, cb: Callback): Api {
    Api(Translation(api.translation.callbacks + [cb]))
  }

  /** `callbacks.forEach((fn) => fn(payload))`: every callback is handed the
      one payload object, so each sees what the earlier ones did to it; the
      first throw ends the loop. The result is the payload object afterwards. */
  function RunCallbacks(cbs: seq<Callback>, payload: Json): Result<Json>
    decreases |cbs|
  {
    if cbs == [] then Ok(payload)
    else
      var next :- cbs[0](payload);
      RunCallbacks(cbs[1..], next)
  }

  /** `translation._execute(payload)`. */
  function Execute(api: Api, payload: Json): Result<Json> {
    RunCallbacks(api.translation.callbacks, payload)
  }

  /** The payloads the callbacks are handed, in call order, up to and
      including the one that throws. */
  function Calls(cbs: seq<Callback>, payload: Json): (r: seq<Json>)
    ensures |r| <= |cbs|
    ensures cbs != [] ==> |r| > 0 && r[0] == payload
    decreases |cbs|
  {
    if cbs == [] then []
    else
      match cbs[0](payload)
      case Err(_) => [payload]
      case Ok(next) => [payload] + Calls(cbs[1..], next)
  }

  // ---------------------------------------------------------------------
  // The plugin's script.

  /** What the api object holds: the api itself, its `translation`
      namespace, the callback array, or one of the two methods. */
  datatype Node = ApiNode | TranslationNode | CallbackArray | Method

  /** `api.<path>`: `None` once a step reads a property that is not there. */
  function Resolve(path: seq<string>): Option<Node>
    decreases |path|
  {
    if path == [] then Some(ApiNode)
    else
      match Resolve(path[..|path| - 1])
      case None => None
      case Some(node) => Child(node, path[|path| - 1])
  }

  function Child(node: Node, name: string): Option<Node> {
    match node
    case ApiNode => if name == "translation" then Some(TranslationNode) else None
    case TranslationNode =>
      if name == "callbacks" then Some(CallbackArray)
      else if name == "onList" || name == "_execute" then Some(Method)
      else None
    case CallbackArray => None
    case Method => None
  }

  /** One statement of a plugin's script: `api.translation.onList(cb)`, or
      `api.<path>.on(event, cb)`. */
  datatype Step = Register(cb: Callback) | On(path: seq<string>, event: string, handler: Callback)

  /** The declared thunk: a fresh api, the script run against it, the api
      returned. Reading `on` of a missing namespace throws, and so does
      calling it where it is present but not a function. */
  function RunPlugin(script: seq<Step>): Result<Api> {
    RunSteps(NewApi(), script)
  }

  function RunSteps(api: Api, script: seq<Step>): Result<Api>
    decreases |script|
  {
    if script == [] then Ok(api)
    else
      match script[0]
      case Register(cb) => RunSteps(OnList(api, cb), script[1..])
      case On(_, _, _) =>
        // Either the namespace is missing, or it is a node without `on` (OnThrows).
        Err(TypeError)
  }

  /** The registrations of the default-groups plugin: `apply.on("load", …)`,
      `app_action.list.on("load", …)` and `operation.list.on("load", …)`. */
  function DefaultGroupsScript(destruct: Callback, groupAppActions: Callback, groupOperations: Callback): seq<Step> {
    [On(["apply"], "load", destruct),
     On(["app_action", "list"], "load", groupAppActions),
     On(["operation", "list"], "load", groupOperations)]
  }

  // ---------------------------------------------------------------------
  // Properties of the registry.

  /** `onList` appends the callback after those already registered. */
  lemma OnListAppends(api: Api, cb: Callback)
    ensures |OnList(api, cb).translation.callbacks| == |api.translation.callbacks| + 1
    ensures OnList(api, cb).translation.callbacks[..|api.translation.callbacks|] == api.translation.callbacks
    ensures OnList(api, cb).translation.callbacks[|api.translation.callbacks|] == cb
  {
  }

  /** Running the callbacks of two lists one after the other is running
      their concatenation. */
  lemma {:induction false} RunCallbacksAppend(a: seq<Callback>, b: seq<Callback>, payload: Json)
    ensures RunCallbacks(a + b, payload) == (var p :- RunCallbacks(a, payload); RunCallbacks(b, p))
    decreases |a|
  {
    if a == [] {
      assert a + b == b;
    } else {
      assert (a + b)[0] == a[0] && (a + b)[1..] == a[1..] + b;
      match a[0](payload)
      case Err(_) =>
      case Ok(next) => RunCallbacksAppend(a[1..], b, next);
    }
  }

  /** A callback registered with `onList` runs after every earlier one, on
      the payload they leave behind. */
  lemma ExecuteOnList(api: Api, cb: Callback, payload: Json)
    ensures Execute(OnList(api, cb), payload) == (var p :- Execute(api, payload); cb(p))
  {
    RunCallbacksAppend(api.translation.callbacks, [cb], payload);
    assert [cb][1..] == [];
  }

  /** A completed execution called every callback once; a failed one
      stopped at the callback that threw. */
  lemma {:induction false} CallsComplete(cbs: seq<Callback>, payload: Json)
    ensures RunCallbacks(cbs, payload).Ok? ==> |Calls(cbs, payload)| == |cbs|
    ensures RunCallbacks(cbs, payload).Err? ==>
              var n := |Calls(cbs, payload)|;
              n > 0 && cbs[n - 1](Calls(cbs, payload)[n - 1]).Err?
    decreases |cbs|
  {
    if cbs != [] {
      match cbs[0](payload)
      case Err(_) =>
      case Ok(next) =>
        CallsComplete(cbs[1..], next);
        var n := |Calls(cbs[1..], next)|;
        if RunCallbacks(cbs, payload).Err? {
          assert cbs[1..][n - 1] == cbs[n];
          assert Calls(cbs, payload)[n] == Calls(cbs[1..], next)[n - 1];
        }
    }
  }

  /** Callbacks that leave the payload as it is all see the same payload. */
  lemma {:induction false} QuietCallsSeeSamePayload(cbs: seq<Callback>, payload: Json)
    requires forall i :: 0 <= i < |cbs| ==> cbs[i](payload) == Ok(payload)
    ensures RunCallbacks(cbs, payload) == Ok(payload)
    ensures Calls(cbs, payload) == seq(|cbs|, _ => payload)
    decreases |cbs|
  {
    if cbs != [] {
      assert cbs[0](payload) == Ok(payload);
      forall i | 0 <= i < |cbs[1..]| ensures cbs[1..][i](payload) == Ok(payload) {
        assert cbs[1..][i] == cbs[i + 1];
      }
      QuietCallsSeeSamePayload(cbs[1..], payload);
    }
  }

  /** Every registration of the script is kept, in order, on a fresh api. */
  function Registered(script: seq<Step>): seq<Callback>
    decreases |script|
  {
    if script == [] then []
    else match script[0]
      case Register(cb) => [cb] + Registered(script[1..])
      case On(_, _, _) => Registered(script[1..])
  }

  /** A script of `onList` calls yields an api holding exactly its
      callbacks, after those already there. */
  lemma {:induction false} RunStepsRegisters(api: Api, script: seq<Step>)
    requires forall i :: 0 <= i < |script| ==> script[i].Register?
    ensures RunSteps(api, script) == Ok(Api(Translation(api.translation.callbacks + Registered(script))))
    decreases |script|
  {
    if script == [] {
      assert api.translation.callbacks + [] == api.translation.callbacks;
    } else {
      var cb := script[0].cb;
      assert forall i :: 0 <= i < |script[1..]| ==> script[1..][i] == script[i + 1];
      RunStepsRegisters(OnList(api, cb), script[1..]);
      assert api.translation.callbacks + [cb] + Registered(script[1..])
          == api.translation.callbacks + ([cb] + Registered(script[1..]));
    }
  }

  /** A script with an `on` call anywhere throws a TypeError. */
  lemma {:induction false} RunStepsOnThrows(api: Api, script: seq<Step>, k: nat)
    requires k < |script| && script[k].On?
    ensures RunSteps(api, script) == Err(TypeError)
    decreases k
  {
    match script[0]
    case Register(cb) =>
      assert script[1..][k - 1] == script[k];
      RunStepsOnThrows(OnList(api, cb), script[1..], k - 1);
    case On(_, _, _) =>
  }

  /** No node of the api has an `on` member. */
  lemma OnThrows(path: seq<string>)
    ensures Resolve(path).Some? ==> Child(Resolve(path).value, "on").None?
  {
  }

  /** Each call of a declared thunk starts from no callbacks, whatever earlier
      calls registered. */
  lemma RunPluginFresh(script: seq<Step>)
    requires forall i :: 0 <= i < |script| ==> script[i].Register?
    ensures RunPlugin(script) == Ok(Api(Translation(Registered(script))))
  {
    RunStepsRegisters(NewApi(), script);
    assert NewApi().translation.callbacks + Registered(script) == Registered(script);
  }

  /** The default-groups plugin registers through namespaces the declared
      api does not have, so running its script throws a TypeError. */
  lemma DefaultGroupsScriptThrows(destruct: Callback, groupAppActions: Callback, groupOperations: Callback)
    ensures RunPlugin(DefaultGroupsScript(destruct, groupAppActions, groupOperations)) == Err(TypeError)
  {
    var script := DefaultGroupsScript(destruct, groupAppActions, groupOperations);
    assert Resolve(["apply"]) == None by {
      assert ["apply"][..0] == [];
    }
  }

  // ---------------------------------------------------------------------
  // The loader.

  /** A plugin entry: a module name, a function, or anything else. */
  datatype Entry = Named(name: string) | Thunk(id: nat) | Other(value: Json)

  /** What the loader reads from one `.rbc.js`: its `plugins` list (`None`
      when absent) and its `useGlobalConfigs` value. */
  datatype Rbc = Rbc(plugins: Option<seq<Entry>>, useGlobalConfigs: Json)

  /** The entries one config contributes: its plugin list when present and
      non-empty. */
  function Contributed(rbc: Option<Rbc>): (r: seq<Entry>)
    ensures rbc.None? ==> r == []
  {
    if rbc.Some? && rbc.value.plugins.Some? && |rbc.value.plugins.value| > 0 then rbc.value.plugins.value else []
  }

  /** The global config is read unless the local one exists and says
      `useGlobalConfigs === false`. */
  predicate LoadsGlobal(local: Option<Rbc>) {
    !(local.Some? && local.value.useGlobalConfigs == Bool(false))
  }

  /** `_loadPluginsList()`, with a missing file as `None`. */
  function LoadPluginsList(local: Option<Rbc>, global: Option<Rbc>): seq<Entry> {
    var plugins := Contributed(local);
    if LoadsGlobal(local) then plugins + Contributed(global) else plugins
  }

  /** `loadPlugins()`: every entry is invoked in order and the api the last
      one produced is kept; `None` stands for the initial `{}`. */
  function LoadPlugins<A>(entries: seq<Entry>, require: string -> Result<A>, call: nat -> Result<A>): Result<Option<A>>
    decreases |entries|
  {
    LoadFrom(None, entries, require, call)
  }

  function LoadFrom<A>(api: Option<A>, entries: seq<Entry>, require: string -> Result<A>, call: nat -> Result<A>): Result<Option<A>>
    decreases |entries|
  {
    if entries == [] then Ok(api)
    else
      var next :- Invoke(entries[0], require, call);
      LoadFrom(Some(next), entries[1..], require, call)
  }

  const UnsupportedPlugin := "unsupported plugin type"

  /** One entry: a string is required and the export called, a function is
      called, anything else throws. */
  function Invoke<A>(e: Entry, require: string -> Result<A>, call: nat -> Result<A>): (r: Result<A>)
    ensures e.Other? <==> r == Err(UnsupportedPlugin) && !e.Named? && !e.Thunk?
  {
    match e
    case Named(name) => require(name)
    case Thunk(id) => call(id)
    case Other(_) => Err(UnsupportedPlugin)
  }

  // ---------------------------------------------------------------------
  // Properties of the loader.

  /** Local entries come first, in order, and the global ones, when loaded,
      follow; nothing else is in the list. */
  lemma PluginsListOrder(local: Option<Rbc>, global: Option<Rbc>)
    ensures LoadPluginsList(local, global)[..|Contributed(local)|] == Contributed(local)
    ensures LoadsGlobal(local) ==> LoadPluginsList(local, global)[|Contributed(local)|..] == Contributed(global)
    ensures !LoadsGlobal(local) ==> LoadPluginsList(local, global) == Contributed(local)
  {
  }

  /** The global config is skipped exactly when the local one sets
      `useGlobalConfigs` to `false`: otherwise every global entry is in the list. */
  lemma GlobalSkippedIff(local: Option<Rbc>, global: Option<Rbc>)
    ensures (forall e :: e in Contributed(global) ==> e in LoadPluginsList(local, global))
        <==> LoadsGlobal(local) || (forall e :: e in Contributed(global) ==> e in Contributed(local))
    ensures local.Some? && local.value.useGlobalConfigs == Bool(false) ==> !LoadsGlobal(local)
  {
  }

  /** A missing file, a missing list and an empty list contribute nothing. */
  lemma NothingContributed(local: Option<Rbc>, global: Option<Rbc>)
    requires global.None? || global.value.plugins.None? || global.value.plugins == Some([])
    ensures LoadPluginsList(local, global) == Contributed(local)
    ensures LoadPluginsList(None, global) == []
  {
  }

  /** Loading one more entry invokes it after all the earlier ones and keeps
      what it produced. */
  lemma {:induction false} LoadFromAppend<A>(api: Option<A>, entries: seq<Entry>, e: Entry, require: string -> Result<A>, call: nat -> Result<A>)
    ensures LoadFrom(api, entries + [e], require, call)
         == (var _ :- LoadFrom(api, entries, require, call); var a :- Invoke(e, require, call); Ok(Some(a)))
    decreases |entries|
  {
    if entries == [] {
      assert entries + [e] == [e];
      assert [e][1..] == [];
    } else {
      assert (entries + [e])[0] == entries[0] && (entries + [e])[1..] == entries[1..] + [e];
      match Invoke(entries[0], require, call)
      case Err(_) =>
      case Ok(next) => LoadFromAppend(Some(next), entries[1..], e, require, call);
    }
  }

  /** The loader's result is `{}` for no entries and otherwise what the last
      entry produced, provided no entry threw. */
  lemma LastPluginWins<A>(entries: seq<Entry>, require: string -> Result<A>, call: nat -> Result<A>)
    ensures entries == [] ==> LoadPlugins(entries, require, call) == Ok(None)
    ensures entries != [] && LoadPlugins(entries, require, call).Ok? ==>
              Invoke(entries[|entries| - 1], require, call).Ok? &&
              LoadPlugins(entries, require, call) == Ok(Some(Invoke(entries[|entries| - 1], require, call).value))
  {
    if entries != [] {
      var n := |entries| - 1;
      assert entries == entries[..n] + [entries[n]];
      LoadFromAppend(None, entries[..n], entries[n], require, call);
    }
  }

  /** The loader throws "unsupported plugin type" at the first entry that is
      neither a string nor a function, when no earlier entry threw. */
  lemma {:induction false} UnsupportedThrows<A>(api: Option<A>, entries: seq<Entry>, require: string -> Result<A>, call: nat -> Result<A>, k: nat)
    requires k < |entries| && entries[k].Other?
    requires forall i :: 0 <= i < k ==> Invoke(entries[i], require, call).Ok?
    ensures LoadFrom(api, entries, require, call) == Err(UnsupportedPlugin)
    decreases k
  {
    if k > 0 {
      var next := Invoke(entries[0], require, call).value;
      forall i | 0 <= i < k - 1 ensures Invoke(entries[1..][i], require, call).Ok? {
        assert entries[1..][i] == entries[i + 1];
      }
      UnsupportedThrows(Some(next), entries[1..], require, call, k - 1);
    }
  }

  // ---------------------------------------------------------------------
  // The commands' plugin call.

  /** What the plugin module exports: `{}` when no entry was loaded, an api
      built by `declare`, or the result of a plugin written without it. For
      the last, `execute(path)` is the effect of `<path>._execute("load",
      data, options)` on `data`, and `None` when that method is not there. */
  datatype Exported = NoPlugins | Declared(api: Api) | Foreign(execute: seq<string> -> Option<Callback>)

  /** The export, from the loader's result: `None` is the initial `{}`. */
  function ExportOf(loaded: Option<Exported>): (e: Exported)
    ensures loaded.None? ==> e.NoPlugins?
    ensures loaded.Some? ==> e == loaded.value
  {
    if loaded.None? then NoPlugins else loaded.value
  }

  /** `plugin.<path>._execute("load", data, options)` as a command makes it.
      A missing namespace or a missing `_execute` throws a TypeError. A
      declared api's `_execute(payload)` takes one argument, so its
      callbacks are handed the string "load", which they cannot change:
      `data` comes back as it was unless a callback throws. */
  function RunHook(plugin: Exported, path: seq<string>, data: Json): (r: Result<Json>)
    ensures plugin.NoPlugins? ==> r == Err(TypeError)
  {
    match plugin
    case NoPlugins => Err(TypeError)
    case Declared(api) =>
      if Resolve(path + ["_execute"]) == Some(Method) then
        var _ :- Execute(api, Str("load"));
        Ok(data)
      else Err(TypeError)
    case Foreign(execute) =>
      match execute(path)
      case None => Err(TypeError)
      case Some(run) => run(data)
  }

  /** Only the api itself resolves to the api. */
  lemma {:induction false} ResolveApi(path: seq<string>)
    ensures Resolve(path) == Some(ApiNode) <==> path == []
  {
    if path != [] {
      match Resolve(path[..|path| - 1])
      case None =>
      case Some(node) =>
    }
  }

  /** Only `translation` resolves to the translation namespace. */
  lemma {:induction false} ResolveTranslation(path: seq<string>)
    ensures Resolve(path) == Some(TranslationNode) <==> path == ["translation"]
  {
    if path != [] {
      var init := path[..|path| - 1];
      ResolveApi(init);
      if path == ["translation"] {
        assert init == [];
      }
    }
  }

  /** A declared api has `_execute` only under `translation`. */
  lemma ExecutePath(path: seq<string>)
    ensures Resolve(path + ["_execute"]) == Some(Method) <==> path == ["translation"]
  {
    var full := path + ["_execute"];
    assert full[..|full| - 1] == path;
    ResolveTranslation(path);
  }

  /** With no plugin, or with a declared api, every namespace but
      `translation` is missing and the call throws; `translation._execute`
      hands the data back unchanged unless a callback throws. */
  lemma DeclaredHook(api: Api, path: seq<string>, data: Json)
    ensures RunHook(NoPlugins, path, data) == Err(TypeError)
    ensures path != ["translation"] ==> RunHook(Declared(api), path, data) == Err(TypeError)
    ensures path == ["translation"] ==>
              RunHook(Declared(api), path, data) ==
                (match Execute(api, Str("load")) case Ok(_) => Ok(data) case Err(e) => Err(e))
  {
    ExecutePath(path);
  }

  /** A plugin loader that keeps only declared apis leaves the commands
      without their namespaces: every call outside `translation` throws. */
  lemma DeclaredLoaderHook(entries: seq<Entry>, require: string -> Result<Exported>, call: nat -> Result<Exported>,
                           path: seq<string>, data: Json)
    requires forall e :: e in entries ==> Invoke(e, require, call).Ok? ==> Invoke(e, require, call).value.Declared?
    requires LoadPlugins(entries, require, call).Ok? && path != ["translation"]
    ensures RunHook(ExportOf(LoadPlugins(entries, require, call).value), path, data) == Err(TypeError)
  {
    LastPluginWins(entries, require, call);
    if entries != [] {
      var last := entries[|entries| - 1];
      assert last in entries;
      DeclaredHook(Invoke(last, require, call).value.api, path, data);
    }
  }
}

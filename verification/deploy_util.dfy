/** The deployment helpers of the CI workflow (a Python script): the
    environment-name table, the cluster coordinates of an environment, and
    the create-or-patch decisions for the ConfigMap and a service's
    Deployment. The Kubernetes and Google Cloud calls are parameters that
    answer with the listed names and the reply fields the script reads.

    Python values are JSON values here, with `None` as `Null`. */
module DeployUtil {
  import opened Wrappers
  import opened Js

  const AttributeError := "AttributeError"
  const KeyError := "KeyError"
  const IndexError := "IndexError"
  const PyTypeError := "TypeError"

  // ---------------------------------------------------------------------
  // return_local_env

  /** `env_obj`: the short environment names and their full names. */
  const EnvNames: seq<(string, string)> := [("dev", "development"), ("prod", "production"), ("prod-eu", "production-eu")]

  /** `table.get(k)` on a table of three rows. */
  lemma TableGetThree<V>(table: seq<(string, V)>, k: string)
    requires |table| == 3
    ensures TableGet(table, k) ==
              if table[0].0 == k then Some(table[0].1)
              else if table[1].0 == k then Some(table[1].1)
              else if table[2].0 == k then Some(table[2].1)
              else None
  {
    assert table[1..][0] == table[1];
    assert table[1..][1..][0] == table[2];
    assert table[1..][1..][1..] == [];
  }

  /** `table.get(k)` on a table of string pairs. */
  function TableGet<V>(table: seq<(string, V)>, k: string): (r: Option<V>)
    ensures r.Some? <==> exists i :: 0 <= i < |table| && table[i].0 == k
    ensures r.Some? ==> exists i :: 0 <= i < |table| && table[i] == (k, r.value)
    decreases |table|
  {
    if table == [] then None
    else if table[0].0 == k then Some(table[0].1)
    else
      var r := TableGet(table[1..], k);
      assert forall i :: 1 <= i < |table| ==> table[i] == table[1..][i - 1];
      if r.Some? then
        assert exists i :: 0 <= i < |table[1..]| && table[1..][i] == (k, r.value);
        r
      else r
  }

  /** `return_local_env(env)`: the full name of a short name, an empty
      full name counting as none. */
  function ReturnLocalEnv(env: string): string {
    match TableGet(EnvNames, env)
    case Some(full) => if full != "" then full else env
    case None => env
  }

  /** The three short names map to their full names; anything else is
      returned as it is. */
  lemma ReturnLocalEnvTable(env: string)
    ensures env == "dev" ==> ReturnLocalEnv(env) == "development"
    ensures env == "prod" ==> ReturnLocalEnv(env) == "production"
    ensures env == "prod-eu" ==> ReturnLocalEnv(env) == "production-eu"
    ensures env !in ["dev", "prod", "prod-eu"] ==> ReturnLocalEnv(env) == env
  {
    if env !in ["dev", "prod", "prod-eu"] {
      assert forall i :: 0 <= i < |EnvNames| ==> EnvNames[i].0 != env;
    }
  }

  /** A full name is not a short name, so applying the table twice changes
      nothing more. */
  lemma ReturnLocalEnvIdempotent(env: string)
    ensures ReturnLocalEnv(ReturnLocalEnv(env)) == ReturnLocalEnv(env)
  {
    ReturnLocalEnvTable(env);
    ReturnLocalEnvTable(ReturnLocalEnv(env));
  }

  // ---------------------------------------------------------------------
  // get_cluster_metadata

  /** One row of the `values` table; only development names its creds. */
  datatype ClusterRow = ClusterRow(name: string, region: string, project: string, creds: Option<string>)

  /** The cluster coordinates `kube_command_obj` connects with. */
  datatype Cluster = Cluster(name: string, region: string, project: string, creds: string)

  /** `values`, where `path` is the checkout directory. */
  function ClusterTable(path: string): seq<(string, ClusterRow)> {
    [("production-eu", ClusterRow("bot-ms-eu-juan", "europe-west2", "releai-bot-prod", None)),
     ("production", ClusterRow("bot-ms-1", "us-west4", "releai-bot-prod", None)),
     ("development", ClusterRow("bot-ms-1", "europe-west3", "releai-bot-dev", Some(path + "/ops/keys/releai-bot-dev.json")))]
  }

  function ProdCreds(path: string): string {
    path + "/ops/keys/releai-bot-prod.json"
  }

  /** `get_cluster_metadata(env_on_yaml)`: an unknown environment reads
      `.get` on `None` and raises. */
  function GetClusterMetadata(env: string, path: string): Result<Cluster> {
    match TableGet(ClusterTable(path), env)
    case None => Err(AttributeError)
    case Some(row) => Ok(Cluster(row.name, row.region, row.project, row.creds.GetOr(ProdCreds(path))))
  }

  /** Exactly the three full names have coordinates. */
  lemma ClusterKnownEnvs(env: string, path: string)
    ensures GetClusterMetadata(env, path).Ok? <==> env in ["production-eu", "production", "development"]
  {
    TableGetThree(ClusterTable(path), env);
  }

  /** The production clusters share the production key file, which is the
      default; only development names its own. */
  lemma ClusterCreds(env: string, path: string)
    ensures env in ["production-eu", "production"] ==>
              GetClusterMetadata(env, path).Ok? && GetClusterMetadata(env, path).value.creds == ProdCreds(path)
    ensures env == "development" ==>
              GetClusterMetadata(env, path) == Ok(Cluster("bot-ms-1", "europe-west3", "releai-bot-dev", path + "/ops/keys/releai-bot-dev.json"))
  {
    TableGetThree(ClusterTable(path), env);
  }

  lemma ClusterProduction(path: string)
    ensures GetClusterMetadata("production", path) == Ok(Cluster("bot-ms-1", "us-west4", "releai-bot-prod", ProdCreds(path)))
    ensures GetClusterMetadata("production-eu", path) == Ok(Cluster("bot-ms-eu-juan", "europe-west2", "releai-bot-prod", ProdCreds(path)))
  {
    TableGetThree(ClusterTable(path), "production");
    TableGetThree(ClusterTable(path), "production-eu");
  }

  /** A short name from the workflow reaches a cluster through the table,
      and only the six names of the two tables do. */
  lemma ShortNamesReachClusters(env: string, path: string)
    ensures GetClusterMetadata(ReturnLocalEnv(env), path).Ok? <==>
              env in ["dev", "prod", "prod-eu", "development", "production", "production-eu"]
  {
    ReturnLocalEnvTable(env);
    ClusterKnownEnvs(ReturnLocalEnv(env), path);
  }

  // ---------------------------------------------------------------------
  // create_configmap

  /** The manifest `create_configmap` writes for the merged variables. */
  function ConfigMapManifest(envs: Json): Json {
    Obj([Member("apiVersion", Str("v1")), Member("kind", Str("ConfigMap")),
         Member("metadata", Obj([Member("name", Str("releai")), Member("namespace", Str("releai"))])),
         Member("data", envs)])
  }

  // ---------------------------------------------------------------------
  // kube_config_map

  /** `d.get(k)`: `None` for a missing key, and no `.get` on anything but
      a dictionary. */
  function PyGet(d: Json, k: string): Result<Json> {
    if !d.Obj? then Err(AttributeError)
    else if FindMember(d.members, k).None? then Ok(Null)
    else Ok(Get(d, k))
  }

  /** `metadata.name` and `metadata.namespace` of a manifest. */
  function NameAndNamespace(manifest: Json): Result<(Json, Json)> {
    var meta :- PyGet(manifest, "metadata");
    var name :- PyGet(meta, "name");
    var ns :- PyGet(meta, "namespace");
    Ok((name, ns))
  }

  /** The ConfigMap calls. `list` answers the names in a namespace; `patch`
      and `create` answer `res.metadata.managed_fields[0].operation`. */
  datatype ConfigMapApi = ConfigMapApi(
    list: Json -> Result<seq<Json>>,
    patch: (Json, Json, Json) -> Result<Json>,
    create: (Json, Json) -> Result<Json>)

  /** The calls made, with the name and namespace they were given. */
  datatype KubeCall = ListIn(namespace: Json) | PatchAt(name: Json, namespace: Json) | CreateIn(namespace: Json)

  datatype Applied = Applied(calls: seq<KubeCall>, result: Result<string>)

  /** The script passes the manifest's name where the namespace belongs
      and back again. `AsWritten` is that reading; `Corrected` passes each
      where it belongs. */
  datatype Reading = AsWritten | Corrected

  /** A failed patch or create is raised again inside a new exception. */
  function Wrapped(e: string): string {
    "configMap Faild to create \\ update: " + e
  }

  /** The message for the operation marker of the reply. */
  function Status(op: Json, status: string): string {
    if op == Str("Update") then "ConfigMap " + status else "configMap Failed"
  }

  /** `kube_config_map(filename, kube_command)` on the parsed manifest. */
  function KubeConfigMap(reading: Reading, manifest: Json, api: ConfigMapApi): Applied {
    match NameAndNamespace(manifest)
    case Err(e) => Applied([], Err(e))
    case Ok((name, ns)) =>
      var listNs := if reading == AsWritten then name else ns;
      match api.list(listNs)
      case Err(e) => Applied([ListIn(listNs)], Err(e))
      case Ok(names) =>
        if name in names then
          var (pName, pNs) := if reading == AsWritten then (ns, name) else (name, ns);
          var calls := [ListIn(listNs), PatchAt(pName, pNs)];
          match api.patch(pName, pNs, manifest)
          case Err(e) => Applied(calls, Err(Wrapped(e)))
          case Ok(op) => Applied(calls, Ok(Status(op, "Update")))
        else
          var calls := [ListIn(listNs), CreateIn(ns)];
          match api.create(ns, manifest)
          case Err(e) => Applied(calls, Err(Wrapped(e)))
          case Ok(op) => Applied(calls, Ok(Status(op, "Created")))
  }

  /** The manifest is patched exactly when its name is listed and created
      otherwise, never both; the create always goes to the manifest's
      namespace. */
  lemma PatchOrCreate(reading: Reading, manifest: Json, api: ConfigMapApi)
    requires NameAndNamespace(manifest).Ok?
    ensures var (name, ns) := NameAndNamespace(manifest).value;
            var listNs := if reading == AsWritten then name else ns;
            var a := KubeConfigMap(reading, manifest, api);
            |a.calls| >= 1 && a.calls[0] == ListIn(listNs) &&
            (api.list(listNs).Ok? && name in api.list(listNs).value ==> |a.calls| == 2 && a.calls[1].PatchAt?) &&
            (api.list(listNs).Ok? && name !in api.list(listNs).value ==> a.calls == [ListIn(listNs), CreateIn(ns)])
  {
  }

  /** A success message needs the reply's first managed field to be an
      "Update"; any other reply is "configMap Failed". */
  lemma ConfigMapMessages(reading: Reading, manifest: Json, api: ConfigMapApi)
    requires KubeConfigMap(reading, manifest, api).result.Ok?
    ensures var a := KubeConfigMap(reading, manifest, api);
            (a.result.value == "ConfigMap Update" <==> a.calls[1].PatchAt? && a.result.value != "configMap Failed") &&
            (a.result.value == "ConfigMap Created" <==> a.calls[1].CreateIn? && a.result.value != "configMap Failed") &&
            a.result.value in ["ConfigMap Update", "ConfigMap Created", "configMap Failed"]
  {
  }

  /** When name and namespace are equal the swap is invisible. */
  lemma SwapHarmlessWhenEqual(manifest: Json, api: ConfigMapApi)
    requires NameAndNamespace(manifest).Ok? && NameAndNamespace(manifest).value.0 == NameAndNamespace(manifest).value.1
    ensures KubeConfigMap(AsWritten, manifest, api) == KubeConfigMap(Corrected, manifest, api)
  {
  }

  /** The manifest `create_configmap` writes is such a case. */
  lemma GeneratedConfigMapUnaffected(envs: Json, api: ConfigMapApi)
    ensures NameAndNamespace(ConfigMapManifest(envs)) == Ok((Str("releai"), Str("releai")))
    ensures KubeConfigMap(AsWritten, ConfigMapManifest(envs), api) == KubeConfigMap(Corrected, ConfigMapManifest(envs), api)
  {
    var m := ConfigMapManifest(envs);
    var meta := Obj([Member("name", Str("releai")), Member("namespace", Str("releai"))]);
    assert FindMember(m.members, "metadata") == Some(2) by {
      assert m.members[1..][1..][0].key == "metadata";
    }
    assert PyGet(m, "metadata") == Ok(meta);
    GetPair(Member("name", Str("releai")), Member("namespace", Str("releai")), "name");
    GetPair(Member("name", Str("releai")), Member("namespace", Str("releai")), "namespace");
    assert FindMember(meta.members, "namespace") == Some(1) by {
      assert meta.members[1..][0].key == "namespace";
    }
    SwapHarmlessWhenEqual(m, api);
  }

  /** A cluster holding ConfigMaps as (namespace, name) pairs: listing a
      namespace gives its names, patching needs the pair to exist and
      creating needs it not to. */
  function NamesIn(store: seq<(Json, Json)>, ns: Json): seq<Json>
    decreases |store|
  {
    if store == [] then []
    else (if store[0].0 == ns then [store[0].1] else []) + NamesIn(store[1..], ns)
  }

  function ClusterApi(store: seq<(Json, Json)>, manifestName: Json): ConfigMapApi {
    ConfigMapApi(
      (ns: Json) => Ok(NamesIn(store, ns)),
      (name: Json, ns: Json, body: Json) => if (ns, name) in store then Ok(Str("Update")) else Err("NotFound"),
      (ns: Json, body: Json) => if (ns, manifestName) in store then Err("AlreadyExists") else Ok(Str("Update")))
  }

  /** Listing a namespace gives exactly the names stored in it. */
  lemma {:induction false} NamesInStore(store: seq<(Json, Json)>, ns: Json, name: Json)
    ensures name in NamesIn(store, ns) <==> (ns, name) in store
    decreases |store|
  {
    if store != [] {
      NamesInStore(store[1..], ns, name);
      assert store == [store[0]] + store[1..];
    }
  }

  /** Read as intended, a ConfigMap that exists in its namespace is
      patched and one that does not is created, and both succeed against
      the cluster. */
  lemma CorrectedPatchesExisting(store: seq<(Json, Json)>, manifest: Json)
    requires NameAndNamespace(manifest).Ok?
    ensures var (name, ns) := NameAndNamespace(manifest).value;
            KubeConfigMap(Corrected, manifest, ClusterApi(store, name)).result ==
              Ok(if (ns, name) in store then "ConfigMap Update" else "ConfigMap Created")
  {
    var (name, ns) := NameAndNamespace(manifest).value;
    NamesInStore(store, ns, name);
    assert "ConfigMap " + "Update" == "ConfigMap Update";
    assert "ConfigMap " + "Created" == "ConfigMap Created";
  }

  /** A ConfigMap "app-config" in namespace "releai" that already exists:
      as written the script lists the namespace "app-config", finds
      nothing, tries to create it again and fails; corrected, it is
      patched. */
  lemma SwappedNamesRecreate(manifest: Json)
    requires manifest == Obj([Member("metadata", Obj([Member("name", Str("app-config")), Member("namespace", Str("releai"))]))])
    ensures KubeConfigMap(AsWritten, manifest, ClusterApi([(Str("releai"), Str("app-config"))], Str("app-config"))).result
              == Err(Wrapped("AlreadyExists"))
    ensures KubeConfigMap(Corrected, manifest, ClusterApi([(Str("releai"), Str("app-config"))], Str("app-config"))).result
              == Ok("ConfigMap Update")
  {
    var store := [(Str("releai"), Str("app-config"))];
    var meta := Obj([Member("name", Str("app-config")), Member("namespace", Str("releai"))]);
    GetSingle(Member("metadata", meta), "metadata");
    GetPair(Member("name", Str("app-config")), Member("namespace", Str("releai")), "name");
    GetPair(Member("name", Str("app-config")), Member("namespace", Str("releai")), "namespace");
    assert FindMember(meta.members, "namespace") == Some(1) by {
      assert meta.members[1..][0].key == "namespace";
    }
    assert NameAndNamespace(manifest) == Ok((Str("app-config"), Str("releai")));
    var api := ClusterApi(store, Str("app-config"));
    assert NamesIn(store, Str("app-config")) == [] by {
      assert store[1..] == [];
    }
    assert NamesIn(store, Str("releai")) == [Str("app-config")] by {
      assert store[1..] == [];
    }
    assert api.list(Str("app-config")) == Ok([]);
    assert api.create(Str("releai"), manifest) == Err("AlreadyExists");
    assert api.list(Str("releai")) == Ok([Str("app-config")]);
    assert api.patch(Str("app-config"), Str("releai"), manifest) == Ok(Str("Update"));
    assert KubeConfigMap(AsWritten, manifest, api) ==
           Applied([ListIn(Str("app-config")), CreateIn(Str("releai"))], Err(Wrapped("AlreadyExists")));
    assert KubeConfigMap(Corrected, manifest, api) ==
           Applied([ListIn(Str("releai")), PatchAt(Str("app-config"), Str("releai"))], Ok(Status(Str("Update"), "Update")));
    assert "ConfigMap " + "Update" == "ConfigMap Update";
  }

  // ---------------------------------------------------------------------
  // update_deployment

  /** The image a service is deployed with. */
  function ImageOf(src: string, tag: string): string {
    "eu.gcr.io/releai-bot-dev/" + src + ":" + tag
  }

  /** `containers[0]['image'] = image` on a list of containers. */
  function SetFirstImage(containers: Json, image: Json): Result<Json> {
    match containers
    case Arr(items) =>
      if items == [] then Err(IndexError)
      else if !items[0].Obj? then Err(PyTypeError)
      else Ok(Arr(items[0 := Obj(SetMember(items[0].members, "image", image))]))
    case Obj(_) => Err(KeyError)
    case _ => Err(PyTypeError)
  }

  /** `d[k] = v` on a dictionary found at `k` of the parent. */
  function SetIn(parent: Json, k: string, v: Json): Json
    requires parent.Obj?
  {
    Obj(SetMember(parent.members, k, v))
  }

  /** `manifest.get("spec").get("template").get("spec").get("containers")[0]['image'] = image` */
  function SetImage(manifest: Json, image: Json): Result<Json> {
    var spec :- PyGet(manifest, "spec");
    var template :- PyGet(spec, "template");
    var podSpec :- PyGet(template, "spec");
    var containers :- PyGet(podSpec, "containers");
    var containers' :- SetFirstImage(containers, image);
    Ok(SetIn(manifest, "spec", SetIn(spec, "template", SetIn(template, "spec", SetIn(podSpec, "containers", containers')))))
  }

  /** The Deployment calls. `list` answers the names in a namespace and
      `patch` answers `message.status.conditions[1].message`. */
  datatype DeploymentApi = DeploymentApi(
    list: Json -> Result<seq<Json>>,
    patch: (Json, Json, Json) -> Result<string>)

  /** `str()` of a namespace read from the manifest. */
  function PyStr(j: Json): string {
    match j
    case Str(s) => s
    case Null => "None"
    case Bool(b) => if b then "True" else "False"
    case Num(n) => IntToString(n)
    case _ => ToDisplayString(j)
  }

  function NotFound(src: string, ns: Json): string {
    "The deployment of the " + src + " not found, " + PyStr(ns) + " namespace"
  }

  const Progressed := "has successfully progressed"

  /** `update_deployment(src, kube_command, git_tag_name)` on the parsed
      manifest. */
  function UpdateDeployment(src: string, tag: string, manifest: Json, api: DeploymentApi): Result<string> {
    var deployment :- SetImage(manifest, Str(ImageOf(src, tag)));
    var (name, ns) :- NameAndNamespace(deployment);
    var names :- api.list(ns);
    if Str(src) !in names then Err(NotFound(src, ns))
    else
      var message :- api.patch(name, ns, deployment);
      Ok(if Contains(message, Progressed) then src + " deployment patched" else src + " deployment failed")
  }

  /** The first container carries the new image. */
  lemma SetFirstImageReads(containers: Json, image: Json)
    requires SetFirstImage(containers, image).Ok?
    ensures var c := SetFirstImage(containers, image).value;
            c.Arr? && |c.items| == |containers.items| > 0 && Get(c.items[0], "image") == image &&
            forall i :: 0 < i < |c.items| ==> c.items[i] == containers.items[i]
  {
    LookupAfterSetMember(containers.items[0].members, "image", image, "image");
  }

  /** Writing `k` of a dictionary is read back at `k`, and only `k` changes. */
  lemma SetInReads(parent: Json, k: string, v: Json, k': string)
    requires parent.Obj?
    ensures Get(SetIn(parent, k, v), k) == v
    ensures k' != k ==> Get(SetIn(parent, k, v), k') == Get(parent, k')
  {
    LookupAfterSetMember(parent.members, k, v, k);
    LookupAfterSetMember(parent.members, k, v, k');
  }

  /** The image is set and read back; every other top-level field stays. */
  lemma SetImageReadsBack(manifest: Json, image: Json, k: string)
    requires SetImage(manifest, image).Ok?
    ensures var m := SetImage(manifest, image).value;
            var c := Get(Get(Get(Get(m, "spec"), "template"), "spec"), "containers");
            c.Arr? && |c.items| > 0 && Get(c.items[0], "image") == image &&
            (k != "spec" ==> Get(m, k) == Get(manifest, k))
  {
    var spec := PyGet(manifest, "spec").value;
    var template := PyGet(spec, "template").value;
    var podSpec := PyGet(template, "spec").value;
    var containers := PyGet(podSpec, "containers").value;
    var containers' := SetFirstImage(containers, image).value;
    SetFirstImageReads(containers, image);
    var podSpec' := SetIn(podSpec, "containers", containers');
    var template' := SetIn(template, "spec", podSpec');
    var spec' := SetIn(spec, "template", template');
    assert SetImage(manifest, image).value == SetIn(manifest, "spec", spec');
    SetInReads(manifest, "spec", spec', k);
    SetInReads(spec, "template", template', "template");
    SetInReads(template, "spec", podSpec', "spec");
    SetInReads(podSpec, "containers", containers', "containers");
  }

  /** The Deployment is looked for by the service's name, not by the name
      in its manifest: a listed service is patched under the manifest's
      name and namespace, and the message tells whether the rollout
      progressed; an unlisted one raises. */
  lemma DeploymentBySrc(src: string, tag: string, manifest: Json, api: DeploymentApi)
    requires SetImage(manifest, Str(ImageOf(src, tag))).Ok?
    requires NameAndNamespace(SetImage(manifest, Str(ImageOf(src, tag))).value).Ok?
    requires api.list(NameAndNamespace(SetImage(manifest, Str(ImageOf(src, tag))).value).value.1).Ok?
    ensures var d := SetImage(manifest, Str(ImageOf(src, tag))).value;
            var (name, ns) := NameAndNamespace(d).value;
            var r := UpdateDeployment(src, tag, manifest, api);
            (Str(src) !in api.list(ns).value ==> r == Err(NotFound(src, ns))) &&
            (Str(src) in api.list(ns).value ==>
               (api.patch(name, ns, d).Err? ==> r == Err(api.patch(name, ns, d).error)) &&
               (api.patch(name, ns, d).Ok? && Contains(api.patch(name, ns, d).value, Progressed) ==> r == Ok(src + " deployment patched")) &&
               (api.patch(name, ns, d).Ok? && !Contains(api.patch(name, ns, d).value, Progressed) ==> r == Ok(src + " deployment failed")))
  {
  }
}

/** How the commands narrow listed configs to the selected versions, and how
    they settle on the version id an apply or a token run writes under.

    `this.versions` may be one version id or a list of them: each command
    wraps a single id into a list and throws when there is none. Listed
    configs are then kept, in order, when their `version` is one of the ids. */
module VersionSelect {
  import opened Wrappers
  import opened Js

  /** `xs.filter(p)` with a callback that may throw: the first throw, in
      index order, is the result. */
  function FilterResult(xs: seq<Json>, p: Json -> Result<bool>): (r: Result<seq<Json>>)
    ensures r.Ok? ==> |r.value| <= |xs|
    decreases |xs|
  {
    if xs == [] then Ok([])
    else
      var keep :- p(xs[0]);
      var rest :- FilterResult(xs[1..], p);
      Ok(if keep then [xs[0]] + rest else rest)
  }

  /** The callback's verdict, with a throw read as "not kept". */
  predicate Keeps(p: Json -> Result<bool>, x: Json) {
    p(x) == Ok(true)
  }

  /** `versions` of a command: falsy throws `message`; one id becomes a list. */
  function WrapVersions(versions: Json, message: string): (r: Result<seq<Json>>)
    ensures r.Err? <==> !Truthy(versions)
    ensures r.Err? ==> r.error == message
    ensures r.Ok? && versions.Arr? ==> r.value == versions.items
    ensures r.Ok? && !versions.Arr? ==> r.value == [versions]
  {
    if !Truthy(versions) then Err(message)
    else if versions.Arr? then Ok(versions.items)
    else Ok([versions])
  }

  /** `(item) => vids.includes(item.version)` */
  function InVersions(vids: seq<Json>): Json -> Result<bool> {
    (item: Json) => (var v :- Field(item, "version"); Ok(Includes(vids, v)))
  }

  /** `filterApps` / `filterWorkflows`: the versions are checked before the
      list is touched, and the list must be an array. */
  function FilterByVersions(items: Json, versions: Json, message: string): (r: Result<seq<Json>>)
    ensures !Truthy(versions) ==> r == Err(message)
  {
    var vids :- WrapVersions(versions, message);
    if !items.Arr? then Err(TypeError)
    else FilterResult(items.items, InVersions(vids))
  }

  // ---------------------------------------------------------------------
  // The version id an apply or a token run writes under.

  /** `(list.find((v) => v.org !== "global") || {}).id`: the first entry
      whose org is not "global". */
  function FirstNonGlobal(entries: seq<Json>): (r: Result<Option<nat>>)
    ensures r.Ok? && r.value.Some? ==> r.value.value < |entries| && !StrictEquals(Get(entries[r.value.value], "org"), Str("global"))
    ensures r.Ok? && r.value.Some? ==> forall i :: 0 <= i < r.value.value ==> StrictEquals(Get(entries[i], "org"), Str("global"))
    ensures r.Ok? && r.value.None? ==> forall i :: 0 <= i < |entries| ==> StrictEquals(Get(entries[i], "org"), Str("global"))
    decreases |entries|
  {
    if entries == [] then Ok(None)
    else
      var org :- Field(entries[0], "org");
      if !StrictEquals(org, Str("global")) then Ok(Some(0))
      else
        var rest :- FirstNonGlobal(entries[1..]);
        match rest
        case None => Ok(None)
        case Some(i) => Ok(Some(i + 1))
  }

  /** The outcome of `_validateVersion` / `_collectVersionId`: an id that
      was found, or the id of the version the command had to create. */
  datatype VersionId = Found(id: Json) | Created(id: Json)

  /** `lookup` is `getVersionId`'s answer; `created` is the reply of the
      create call made only when no truthy id was found. */
  function ResolveVersionId(lookup: Json, created: Json): Result<VersionId> {
    var found :- if Truthy(lookup) && lookup.Arr? then
                   (var k :- FirstNonGlobal(lookup.items);
                    Ok(match k case Some(i) => Lookup(Or(lookup.items[i], Obj([])), "id") case None => Undefined))
                 else Ok(lookup);
    if Truthy(found) then Ok(Found(found))
    else
      var id :- Field(created, "id");
      Ok(Created(id))
  }

  /** `_validateVersion` / `_collectVersionId`: the `--version` flag or else
      the package version is looked up with `getVersionId`, and `create`
      answers the create call `{key: versionNumber}`. */
  function SettleVersion(flag: Json, packageVersion: Json, getVersionId: Json -> Json, create: Json -> Json): Result<VersionId> {
    var versionNumber := Or(flag, packageVersion);
    ResolveVersionId(getVersionId(versionNumber), create(Obj([Member("key", versionNumber)])))
  }

  // ---------------------------------------------------------------------
  // Properties of the filter.

  /** Filtering completes exactly when the callback returns on every item. */
  lemma {:induction false} FilterResultOk(xs: seq<Json>, p: Json -> Result<bool>)
    ensures FilterResult(xs, p).Ok? <==> forall i :: 0 <= i < |xs| ==> p(xs[i]).Ok?
    decreases |xs|
  {
    if xs != [] {
      FilterResultOk(xs[1..], p);
      assert forall i :: 1 <= i < |xs| ==> xs[i] == xs[1..][i - 1];
    }
  }

  /** The first item on which the callback throws decides the error. */
  lemma {:induction false} FilterResultFirstError(xs: seq<Json>, p: Json -> Result<bool>, k: nat)
    requires k < |xs| && p(xs[k]).Err?
    requires forall i :: 0 <= i < k ==> p(xs[i]).Ok?
    ensures FilterResult(xs, p) == Err(p(xs[k]).error)
    decreases k
  {
    if k > 0 {
      assert xs[1..][k - 1] == xs[k];
      forall i | 0 <= i < k - 1 ensures p(xs[1..][i]).Ok? {
        assert xs[1..][i] == xs[i + 1];
      }
      FilterResultFirstError(xs[1..], p, k - 1);
    }
  }

  /** An item is kept exactly when it is in the list and the callback
      accepts it. */
  lemma {:induction false} FilterResultMembers(xs: seq<Json>, p: Json -> Result<bool>, x: Json)
    requires FilterResult(xs, p).Ok?
    ensures x in FilterResult(xs, p).value <==> x in xs && Keeps(p, x)
    decreases |xs|
  {
    if xs != [] {
      FilterResultMembers(xs[1..], p, x);
      assert xs == [xs[0]] + xs[1..];
    }
  }

  /** Filtering a concatenation filters each part and keeps them in order. */
  lemma {:induction false} FilterResultAppend(a: seq<Json>, b: seq<Json>, p: Json -> Result<bool>)
    requires FilterResult(a + b, p).Ok?
    ensures FilterResult(a, p).Ok? && FilterResult(b, p).Ok?
    ensures FilterResult(a + b, p).value == FilterResult(a, p).value + FilterResult(b, p).value
    decreases |a|
  {
    if a == [] {
      assert a + b == b;
    } else {
      assert (a + b)[0] == a[0] && (a + b)[1..] == a[1..] + b;
      FilterResultAppend(a[1..], b, p);
    }
  }

  /** A one-item list is kept or dropped as a whole. */
  lemma FilterResultSingle(x: Json, p: Json -> Result<bool>)
    requires p(x).Ok?
    ensures FilterResult([x], p) == Ok(if Keeps(p, x) then [x] else [])
  {
    var xs := [x];
    assert xs[0] == x && xs[1..] == [];
    assert FilterResult(xs[1..], p) == Ok([]);
    var keep := p(x).value;
    assert FilterResult(xs, p) == Ok(if keep then [x] + [] else []);
    assert [x] + [] == [x];
  }

  /** A config survives the version filter exactly when it is an item of
      the list whose version is one of the selected ids. */
  lemma FilterByVersionsMembers(items: Json, versions: Json, message: string, x: Json)
    requires FilterByVersions(items, versions, message).Ok?
    ensures Truthy(versions) && items.Arr?
    ensures x in FilterByVersions(items, versions, message).value <==>
              x in items.items && !Nullish(x) && Includes(WrapVersions(versions, message).value, Get(x, "version"))
  {
    var vids := WrapVersions(versions, message).value;
    FilterResultMembers(items.items, InVersions(vids), x);
  }

  /** A single id selects the configs of exactly that version. */
  lemma SingleVersion(vid: Json, x: Json)
    requires Truthy(vid) && !vid.Arr? && !Nullish(x)
    ensures Keeps(InVersions(WrapVersions(vid, "").value), x) <==> StrictEquals(vid, Get(x, "version"))
  {
    var vids := WrapVersions(vid, "").value;
    assert vids == [vid];
    assert InVersions(vids)(x) == Ok(Includes(vids, Get(x, "version")));
    assert Includes(vids, Get(x, "version")) <==> StrictEquals(vids[0], Get(x, "version"));
  }

  // ---------------------------------------------------------------------
  // Properties of the version id.

  /** A truthy id that is not a list is used as it is, and nothing is created. */
  lemma ExistingIdKept(lookup: Json, created: Json)
    requires Truthy(lookup) && !lookup.Arr?
    ensures ResolveVersionId(lookup, created) == Ok(Found(lookup))
  {
  }

  /** A list resolves to the id of its first entry outside the global org,
      when that id is truthy. */
  lemma ListResolvesToNonGlobal(lookup: Json, created: Json, i: nat)
    requires lookup.Arr? && |lookup.items| > 0
    requires FirstNonGlobal(lookup.items) == Ok(Some(i))
    requires Truthy(lookup.items[i]) && Truthy(Lookup(lookup.items[i], "id"))
    ensures ResolveVersionId(lookup, created) == Ok(Found(Lookup(lookup.items[i], "id")))
  {
  }

  /** The create call's id is used exactly when no truthy id was found. */
  lemma CreatedOnlyWhenMissing(lookup: Json, created: Json)
    requires ResolveVersionId(lookup, created).Ok?
    ensures ResolveVersionId(lookup, created).value.Created? ==> Truthy(created) || !Nullish(created)
    ensures !Truthy(lookup) ==> ResolveVersionId(lookup, created) == Ok(Created(Get(created, "id")))
    ensures ResolveVersionId(lookup, created).value.Found? ==> Truthy(ResolveVersionId(lookup, created).value.id)
  {
  }

  /** The `--version` flag wins over the package version; when the lookup
      finds nothing, the version created is keyed by that same number. */
  lemma SettleVersionCreates(flag: Json, packageVersion: Json, getVersionId: Json -> Json, create: Json -> Json)
    requires !Truthy(getVersionId(Or(flag, packageVersion)))
    requires !Nullish(create(Obj([Member("key", Or(flag, packageVersion))])))
    ensures Truthy(flag) ==>
              SettleVersion(flag, packageVersion, getVersionId, create) == Ok(Created(Get(create(Obj([Member("key", flag)])), "id")))
    ensures !Truthy(flag) ==>
              SettleVersion(flag, packageVersion, getVersionId, create) == Ok(Created(Get(create(Obj([Member("key", packageVersion)])), "id")))
  {
  }
}

/** Configuration-pipeline helpers of packages/cli/src/utils/index.js that
    index, stage and group the YAML documents of an application before they
    are uploaded: `docListToObj`, `stagesByTypes`, `groupByVersion` and
    `generateRbTag`. Documents are JavaScript values; reading a field of null
    or undefined throws. */
module ConfigUtils {
  import opened Wrappers
  import opened Js

  // ---------------------------------------------------------------------
  // docListToObj

  /** The entry `data[doc.id] = doc` writes: the key is `String(doc.id)`. */
  function DocEntry(doc: Json): (r: Result<Member>)
    ensures r.Ok? <==> !Nullish(doc)
    ensures r.Ok? ==> r.value.value == doc
  {
    if Nullish(doc) then Err(TypeError) else Ok(Member(ToDisplayString(Get(doc, "id")), doc))
  }

  /** `docListToObj(docs)`: every document stored under its id, in one object. */
  function DocListToObj(docs: seq<Json>): (r: Result<Json>)
    ensures r.Ok? <==> forall i :: 0 <= i < |docs| ==> !Nullish(docs[i])
    ensures r.Ok? ==> r.value.Obj?
    ensures r.Err? ==> r.error == TypeError
  {
    var entries :- MapResult(docs, DocEntry);
    Ok(Obj(AssignAll([], entries)))
  }

  /** The value the last entry with key `k` carries, or `d` when none has it. */
  function LastValue(es: seq<Member>, k: string, d: Json): Json
    decreases |es|
  {
    if es == [] then d
    else if es[|es| - 1].key == k then es[|es| - 1].value
    else LastValue(es[..|es| - 1], k, d)
  }

  /** Object spread and `Object.assign` keep, for every key, the last value written. */
  lemma {:induction false} GetAssignAll(ms: seq<Member>, es: seq<Member>, k: string)
    ensures Get(Obj(AssignAll(ms, es)), k) == LastValue(es, k, Get(Obj(ms), k))
    decreases |es|
  {
    if es != [] {
      var ms' := SetMember(ms, es[0].key, es[0].value);
      GetAssignAll(ms', es[1..], k);
      LookupAfterSetMember(ms, es[0].key, es[0].value, k);
      LastValueFront(es, k, Get(Obj(ms), k));
    }
  }

  /** Reading the entries from the front: the first entry becomes the new default. */
  lemma {:induction false} LastValueFront(es: seq<Member>, k: string, d: Json)
    requires es != []
    ensures LastValue(es, k, d) == LastValue(es[1..], k, if es[0].key == k then es[0].value else d)
    decreases |es|
  {
    if |es| > 1 && es[|es| - 1].key != k {
      LastValueFront(es[..|es| - 1], k, d);
      assert es[..|es| - 1][1..] == es[1..][..|es[1..]| - 1];
    }
  }

  /** `LastValue` is the value of the last entry with the key. */
  lemma {:induction false} LastValueIsLast(es: seq<Member>, k: string, d: Json, j: nat)
    requires j < |es| && es[j].key == k
    requires forall i :: j < i < |es| ==> es[i].key != k
    ensures LastValue(es, k, d) == es[j].value
    decreases |es|
  {
    if j < |es| - 1 {
      LastValueIsLast(es[..|es| - 1], k, d, j);
    }
  }

  lemma {:induction false} LastValueNone(es: seq<Member>, k: string, d: Json)
    requires forall i :: 0 <= i < |es| ==> es[i].key != k
    ensures LastValue(es, k, d) == d
    decreases |es|
  {
    if es != [] {
      LastValueNone(es[..|es| - 1], k, d);
    }
  }

  /** The entries of a document list: each document under its id. */
  lemma DocEntries(docs: seq<Json>)
    requires DocListToObj(docs).Ok?
    ensures var es := MapResult(docs, DocEntry).value;
            DocListToObj(docs).value == Obj(AssignAll([], es)) && |es| == |docs| &&
            forall i :: 0 <= i < |docs| ==> es[i] == Member(ToDisplayString(Get(docs[i], "id")), docs[i])
  {
  }

  /** For repeated ids the later document wins. */
  lemma DocListLastWins(docs: seq<Json>, k: string, j: nat)
    requires DocListToObj(docs).Ok?
    requires j < |docs| && ToDisplayString(Get(docs[j], "id")) == k
    requires forall i :: j < i < |docs| ==> ToDisplayString(Get(docs[i], "id")) != k
    ensures Get(DocListToObj(docs).value, k) == docs[j]
  {
    var es := MapResult(docs, DocEntry).value;
    DocEntries(docs);
    GetAssignAll([], es, k);
    LastValueIsLast(es, k, Get(Obj([]), k), j);
  }

  /** An id no document has reads as undefined. */
  lemma DocListMissing(docs: seq<Json>, k: string)
    requires DocListToObj(docs).Ok?
    requires forall i :: 0 <= i < |docs| ==> ToDisplayString(Get(docs[i], "id")) != k
    ensures Get(DocListToObj(docs).value, k) == Undefined
  {
    var es := MapResult(docs, DocEntry).value;
    DocEntries(docs);
    GetAssignAll([], es, k);
    LastValueNone(es, k, Get(Obj([]), k));
  }

  // ---------------------------------------------------------------------
  // generateRbTag

  /** `generateRbTag(version)`: the release tag "rb-<version>". */
  function RbTag(version: Json): (r: string)
    ensures |r| >= 3 && r[..3] == "rb-"
  {
    "rb-" + ToDisplayString(version)
  }

  /** The version text is recovered by dropping the "rb-" prefix, so distinct
      version texts give distinct tags. */
  lemma RbTagInverse(a: Json, b: Json)
    ensures RbTag(a)[3..] == ToDisplayString(a)
    ensures RbTag(a) == RbTag(b) <==> ToDisplayString(a) == ToDisplayString(b)
  {
    assert RbTag(a)[3..] == ToDisplayString(a);
    assert RbTag(b)[3..] == ToDisplayString(b);
  }

  // ---------------------------------------------------------------------
  // stagesByTypes

  const FirstStageTypes: seq<string> := ["App", "Workflow", "Translation"]
  const SecondStageTypes: seq<string> := ["AppAction"]

  /** Which stage `object.type` selects: `includes` compares with SameValueZero,
      so only the string values themselves match. */
  function StageOf(doc: Json): (s: nat)
    ensures s < 3
  {
    var t := Get(doc, "type");
    if t.Str? && t.s in FirstStageTypes then 0
    else if t.Str? && t.s in SecondStageTypes then 1
    else 2
  }

  /** The documents of one stage, in input order. */
  function OfStage(data: seq<Json>, s: nat): (r: seq<Json>)
    ensures |r| <= |data|
    ensures forall i :: 0 <= i < |r| ==> StageOf(r[i]) == s
  {
    if data == [] then []
    else OfStage(data[..|data| - 1], s) + (if StageOf(data[|data| - 1]) == s then [data[|data| - 1]] else [])
  }

  datatype Stages = Stages(first: seq<Json>, second: seq<Json>, third: seq<Json>)

  /** `stagesByTypes(data)`: the `forEach` pushing every document to its stage. */
  function StagesByTypes(data: seq<Json>): (r: Result<Stages>)
    ensures r.Ok? <==> forall i :: 0 <= i < |data| ==> !Nullish(data[i])
    decreases |data|
  {
    if data == [] then Ok(Stages([], [], []))
    else
      var st :- StagesByTypes(data[..|data| - 1]);
      var doc := data[|data| - 1];
      if Nullish(doc) then Err(TypeError)
      else if StageOf(doc) == 0 then Ok(Stages(st.first + [doc], st.second, st.third))
      else if StageOf(doc) == 1 then Ok(Stages(st.first, st.second + [doc], st.third))
      else Ok(Stages(st.first, st.second, st.third + [doc]))
  }

  /** Each stage is the order-preserving selection of the documents of its types. */
  lemma {:induction false} StagesAreSelections(data: seq<Json>)
    requires StagesByTypes(data).Ok?
    ensures StagesByTypes(data).value == Stages(OfStage(data, 0), OfStage(data, 1), OfStage(data, 2))
    decreases |data|
  {
    if data != [] {
      StagesAreSelections(data[..|data| - 1]);
    }
  }

  /** Together the stages hold every document exactly once. */
  lemma {:induction false} StagesPartition(data: seq<Json>)
    ensures multiset(OfStage(data, 0) + OfStage(data, 1) + OfStage(data, 2)) == multiset(data)
    decreases |data|
  {
    if data != [] {
      var init, doc := data[..|data| - 1], data[|data| - 1];
      assert data == init + [doc];
      StagesPartition(init);
      StagesStep(init, doc);
      assert multiset(data) == multiset(init) + multiset{doc};
    }
  }

  lemma StagesStep(init: seq<Json>, doc: Json)
    ensures multiset(OfStage(init + [doc], 0) + OfStage(init + [doc], 1) + OfStage(init + [doc], 2))
         == multiset(OfStage(init, 0) + OfStage(init, 1) + OfStage(init, 2)) + multiset{doc}
  {
    OfStageSnoc(init, doc, 0);
    OfStageSnoc(init, doc, 1);
    OfStageSnoc(init, doc, 2);
    ThreeWaySnoc(OfStage(init, 0), OfStage(init, 1), OfStage(init, 2), doc, StageOf(doc));
  }

  /** Appending one item to one of three sequences adds it to their union once. */
  lemma ThreeWaySnoc<T>(a0: seq<T>, a1: seq<T>, a2: seq<T>, d: T, st: nat)
    requires st < 3
    ensures multiset((a0 + if st == 0 then [d] else []) + (a1 + if st == 1 then [d] else []) + (a2 + if st == 2 then [d] else []))
         == multiset(a0 + a1 + a2) + multiset{d}
  {
    var b0, b1, b2 := a0 + (if st == 0 then [d] else []), a1 + (if st == 1 then [d] else []), a2 + (if st == 2 then [d] else []);
    assert multiset(b0) == multiset(a0) + (if st == 0 then multiset{d} else multiset{});
    assert multiset(b1) == multiset(a1) + (if st == 1 then multiset{d} else multiset{});
    assert multiset(b2) == multiset(a2) + (if st == 2 then multiset{d} else multiset{});
    assert multiset(b0 + b1 + b2) == multiset(b0) + multiset(b1) + multiset(b2);
    assert multiset(a0 + a1 + a2) == multiset(a0) + multiset(a1) + multiset(a2);
  }

  lemma OfStageSnoc(init: seq<Json>, doc: Json, s: nat)
    ensures OfStage(init + [doc], s) == OfStage(init, s) + (if StageOf(doc) == s then [doc] else [])
  {
    assert (init + [doc])[..|init|] == init;
  }

  /** The stage lengths add up to the number of documents. */
  lemma StageLengths(data: seq<Json>)
    ensures |OfStage(data, 0)| + |OfStage(data, 1)| + |OfStage(data, 2)| == |data|
  {
    StagesPartition(data);
    assert |multiset(OfStage(data, 0) + OfStage(data, 1) + OfStage(data, 2))| == |multiset(data)|;
  }

  // ---------------------------------------------------------------------
  // groupByVersion

  /** `KEYS_MAP` of packages/cli/src/utils/index.js: the field that names a
      config of each type. An unknown type reads the property "undefined". */
  function KeyField(configType: string): string {
    if configType == "app_actions" then "operation_key"
    else if configType == "apps" then "system_key"
    else if configType in ["operations", "translations", "versions", "workflows"] then "key"
    else "undefined"
  }

  /** `${item[KEYS_MAP[type]]}__${item.version}` */
  function GroupKey(configType: string, item: Json): string {
    ToDisplayString(Get(item, KeyField(configType))) + "__" + ToDisplayString(Get(item, "version"))
  }

  /** The keys in order of first occurrence. */
  function Distinct<K(==,!new)>(keys: seq<K>): (r: seq<K>)
    ensures forall i, j :: 0 <= i < j < |r| ==> r[i] != r[j]
    ensures forall k :: k in r <==> k in keys
    decreases |keys|
  {
    if keys == [] then []
    else
      var d := Distinct(keys[..|keys| - 1]);
      assert forall k :: k in keys <==> k in keys[..|keys| - 1] || k == keys[|keys| - 1];
      if keys[|keys| - 1] in d then d else d + [keys[|keys| - 1]]
  }

  /** The items whose key is `k`, in input order. */
  function WithKey<K(==)>(items: seq<Json>, keys: seq<K>, k: K): (r: seq<Json>)
    requires |keys| == |items|
    decreases |items|
  {
    if items == [] then []
    else WithKey(items[..|items| - 1], keys[..|keys| - 1], k) + (if keys[|keys| - 1] == k then [items[|items| - 1]] else [])
  }

  datatype Group<K> = Group(key: K, items: seq<Json>)

  /** `if (!groups[key]) groups[key] = []; groups[key].push(item)` */
  function AddToGroups<K(==)>(groups: seq<Group<K>>, k: K, x: Json): (r: seq<Group<K>>)
    ensures |r| == |groups| || r == groups + [Group(k, [x])]
    decreases |groups|
  {
    if groups == [] then [Group(k, [x])]
    else if groups[0].key == k then [Group(k, groups[0].items + [x])] + groups[1..]
    else [groups[0]] + AddToGroups(groups[1..], k, x)
  }

  /** The loop over the items, building the groups object. */
  function GroupItems<K(==,!new)>(items: seq<Json>, keys: seq<K>): seq<Group<K>>
    requires |keys| == |items|
    decreases |items|
  {
    if items == [] then []
    else AddToGroups(GroupItems(items[..|items| - 1], keys[..|keys| - 1]), keys[|keys| - 1], items[|items| - 1])
  }

  function GroupValues<K>(groups: seq<Group<K>>): (r: seq<seq<Json>>)
    ensures |r| == |groups|
    ensures forall i :: 0 <= i < |groups| ==> r[i] == groups[i].items
  {
    seq(|groups|, i requires 0 <= i < |groups| => groups[i].items)
  }

  /** The reference grouping: one group per distinct key, in order of first
      occurrence, holding that key's items in input order. */
  function ReferenceGroups<K(==,!new)>(items: seq<Json>, keys: seq<K>): (r: seq<Group<K>>)
    requires |keys| == |items|
  {
    var d := Distinct(keys);
    seq(|d|, i requires 0 <= i < |d| => Group(d[i], WithKey(items, keys, d[i])))
  }

  /** What a grouping compares: the joined text key of the source, or the
      pair of key field and version. */
  datatype KeyScheme = Joined | Pair

  function ItemKey(scheme: KeyScheme, configType: string, item: Json): seq<string> {
    match scheme
    case Joined => [GroupKey(configType, item)]
    case Pair => [ToDisplayString(Get(item, KeyField(configType))), ToDisplayString(Get(item, "version"))]
  }

  function ItemKeys(scheme: KeyScheme, configType: string, items: seq<Json>): (r: seq<seq<string>>)
    ensures |r| == |items|
    ensures forall i :: 0 <= i < |items| ==> r[i] == ItemKey(scheme, configType, items[i])
  {
    seq(|items|, i requires 0 <= i < |items| => ItemKey(scheme, configType, items[i]))
  }

  /** The loop of `groupByVersion`, reading the key fields of each item
      (which throws on null or undefined) and returning `Object.values`. */
  function GroupBy(scheme: KeyScheme, configType: string, items: seq<Json>): (r: Result<seq<seq<Json>>>)
    ensures r.Ok? <==> forall i :: 0 <= i < |items| ==> !Nullish(items[i])
  {
    if exists i :: 0 <= i < |items| && Nullish(items[i]) then Err(TypeError)
    else Ok(GroupValues(GroupItems(items, ItemKeys(scheme, configType, items))))
  }

  /** `groupByVersion(type, items)` as written: grouped by the joined text key. */
  function GroupByVersion(configType: string, items: seq<Json>): Result<seq<seq<Json>>> {
    GroupBy(Joined, configType, items)
  }

  /** The grouping evidently intended: by the pair of key field and version,
      which a "__" inside either of them cannot confuse. */
  function GroupByKeyAndVersion(configType: string, items: seq<Json>): Result<seq<seq<Json>>> {
    GroupBy(Pair, configType, items)
  }

  /** Adding one item to the reference grouping of a prefix gives the
      reference grouping of the longer list. */
  lemma AddToReference<K(!new)>(items: seq<Json>, keys: seq<K>)
    requires |keys| == |items| && items != []
    ensures AddToGroups(ReferenceGroups(items[..|items| - 1], keys[..|keys| - 1]), keys[|keys| - 1], items[|items| - 1])
         == ReferenceGroups(items, keys)
  {
    var n := |items|;
    var items0, keys0 := items[..n - 1], keys[..n - 1];
    var k, x := keys[n - 1], items[n - 1];
    var g0 := ReferenceGroups(items0, keys0);
    var g := ReferenceGroups(items, keys);
    var d0 := Distinct(keys0);
    ReferenceSnoc(items, keys);
    if k in d0 {
      var j :| 0 <= j < |d0| && d0[j] == k;
      AddToExisting(g0, k, x, j);
      var h := g0[j := Group(k, g0[j].items + [x])];
      assert |g| == |h|;
      forall i | 0 <= i < |g|
        ensures g[i] == h[i]
      {
        if i != j {
          assert d0[i] != k;
        }
      }
    } else {
      AddToFresh(g0, k, x);
      WithKeyAbsent(items0, keys0, k);
      var h := g0 + [Group(k, [x])];
      assert |g| == |h|;
      forall i | 0 <= i < |g|
        ensures g[i] == h[i]
      {
        if i < |g0| {
          assert d0[i] != k;
        }
      }
    }
  }

  /** How the reference grouping of a list relates to that of its prefix. */
  lemma ReferenceSnoc<K(!new)>(items: seq<Json>, keys: seq<K>)
    requires |keys| == |items| && items != []
    ensures var n := |items|;
            var d0 := Distinct(keys[..n - 1]);
            && Distinct(keys) == (if keys[n - 1] in d0 then d0 else d0 + [keys[n - 1]])
            && (forall i :: 0 <= i < |d0| ==> ReferenceGroups(items[..n - 1], keys[..n - 1])[i].key == d0[i])
            && (forall i :: 0 <= i < |Distinct(keys)| ==>
                  ReferenceGroups(items, keys)[i].items
                  == WithKey(items[..n - 1], keys[..n - 1], Distinct(keys)[i])
                     + (if keys[n - 1] == Distinct(keys)[i] then [items[n - 1]] else []))
  {
  }

  lemma {:induction false} WithKeyAbsent<K>(items: seq<Json>, keys: seq<K>, k: K)
    requires |keys| == |items| && k !in keys
    ensures WithKey(items, keys, k) == []
    decreases |items|
  {
    if items != [] {
      WithKeyAbsent(items[..|items| - 1], keys[..|keys| - 1], k);
    }
  }

  lemma {:induction false} AddToExisting<K>(groups: seq<Group<K>>, k: K, x: Json, j: nat)
    requires j < |groups| && groups[j].key == k
    requires forall i :: 0 <= i < |groups| && i != j ==> groups[i].key != k
    ensures AddToGroups(groups, k, x) == groups[j := Group(k, groups[j].items + [x])]
    decreases |groups|
  {
    if j > 0 {
      AddToExisting(groups[1..], k, x, j - 1);
    }
  }

  lemma {:induction false} AddToFresh<K>(groups: seq<Group<K>>, k: K, x: Json)
    requires forall i :: 0 <= i < |groups| ==> groups[i].key != k
    ensures AddToGroups(groups, k, x) == groups + [Group(k, [x])]
    decreases |groups|
  {
    if groups != [] {
      AddToFresh(groups[1..], k, x);
    }
  }

  /** The loop builds exactly the reference grouping. */
  lemma {:induction false} GroupItemsIsReference<K(!new)>(items: seq<Json>, keys: seq<K>)
    requires |keys| == |items|
    ensures GroupItems(items, keys) == ReferenceGroups(items, keys)
    decreases |items|
  {
    if items != [] {
      GroupItemsIsReference(items[..|items| - 1], keys[..|keys| - 1]);
      AddToReference(items, keys);
    }
  }

  // Where the items go.

  lemma {:induction false} WithKeySound<K>(items: seq<Json>, keys: seq<K>, k: K, y: Json)
    requires |keys| == |items| && y in WithKey(items, keys, k)
    ensures exists m :: 0 <= m < |items| && items[m] == y && keys[m] == k
    decreases |items|
  {
    var n := |items|;
    if y in WithKey(items[..n - 1], keys[..n - 1], k) {
      WithKeySound(items[..n - 1], keys[..n - 1], k, y);
      var m :| 0 <= m < n - 1 && items[..n - 1][m] == y && keys[..n - 1][m] == k;
      assert items[m] == y && keys[m] == k;
    }
  }

  lemma {:induction false} WithKeyComplete<K>(items: seq<Json>, keys: seq<K>, m: nat)
    requires |keys| == |items| && m < |items|
    ensures items[m] in WithKey(items, keys, keys[m])
    decreases |items|
  {
    var n := |items|;
    if m < n - 1 {
      WithKeyComplete(items[..n - 1], keys[..n - 1], m);
    }
  }

  /** A group holds only items of its key, and at least one. */
  lemma GroupSound<K(!new)>(items: seq<Json>, keys: seq<K>, i: nat)
    requires |keys| == |items| && i < |GroupItems(items, keys)|
    ensures GroupItems(items, keys)[i].items != []
    ensures forall y :: y in GroupItems(items, keys)[i].items ==>
              exists m :: 0 <= m < |items| && items[m] == y && keys[m] == GroupItems(items, keys)[i].key
  {
    GroupItemsIsReference(items, keys);
    var d := Distinct(keys);
    assert d[i] in keys;
    var m :| 0 <= m < |keys| && keys[m] == d[i];
    WithKeyComplete(items, keys, m);
    forall y | y in GroupItems(items, keys)[i].items
      ensures exists m :: 0 <= m < |items| && items[m] == y && keys[m] == GroupItems(items, keys)[i].key
    {
      WithKeySound(items, keys, d[i], y);
    }
  }

  /** No two groups share a key. */
  lemma GroupKeysDistinct<K(!new)>(items: seq<Json>, keys: seq<K>, i: nat, j: nat)
    requires |keys| == |items| && i < j < |GroupItems(items, keys)|
    ensures GroupItems(items, keys)[i].key != GroupItems(items, keys)[j].key
  {
    GroupItemsIsReference(items, keys);
  }

  /** Every item is in the group of its key. */
  lemma GroupComplete<K(!new)>(items: seq<Json>, keys: seq<K>, m: nat)
    requires |keys| == |items| && m < |items|
    ensures exists i :: 0 <= i < |GroupItems(items, keys)|
              && GroupItems(items, keys)[i].key == keys[m] && items[m] in GroupItems(items, keys)[i].items
  {
    GroupItemsIsReference(items, keys);
    var d := Distinct(keys);
    assert keys[m] in d;
    var i :| 0 <= i < |d| && d[i] == keys[m];
    WithKeyComplete(items, keys, m);
    assert GroupItems(items, keys)[i].key == keys[m];
  }

  lemma GroupByValue(scheme: KeyScheme, configType: string, items: seq<Json>)
    requires GroupBy(scheme, configType, items).Ok?
    ensures GroupBy(scheme, configType, items).value == GroupValues(GroupItems(items, ItemKeys(scheme, configType, items)))
  {
  }

  /** Two members of one group come from items with equal keys. */
  lemma GroupMembers<K(!new)>(items: seq<Json>, keys: seq<K>, i: nat, y: Json)
    requires |keys| == |items| && i < |GroupItems(items, keys)|
    requires y in GroupItems(items, keys)[i].items
    ensures GroupItems(items, keys)[i].items != []
    ensures exists m, m0 :: 0 <= m < |items| && 0 <= m0 < |items| && items[m] == y
              && items[m0] == GroupItems(items, keys)[i].items[0] && keys[m] == keys[m0]
  {
    var g := GroupItems(items, keys);
    GroupSound(items, keys, i);
    var m :| 0 <= m < |items| && items[m] == y && keys[m] == g[i].key;
    assert g[i].items[0] in g[i].items;
    var m0 :| 0 <= m0 < |items| && items[m0] == g[i].items[0] && keys[m0] == g[i].key;
  }

  /** Heads of two different groups come from items with different keys. */
  lemma GroupHeads<K(!new)>(items: seq<Json>, keys: seq<K>, i: nat, j: nat)
    requires |keys| == |items| && i < j < |GroupItems(items, keys)|
    ensures GroupItems(items, keys)[i].items != [] && GroupItems(items, keys)[j].items != []
    ensures exists mi, mj :: 0 <= mi < |items| && 0 <= mj < |items|
              && items[mi] == GroupItems(items, keys)[i].items[0]
              && items[mj] == GroupItems(items, keys)[j].items[0] && keys[mi] != keys[mj]
  {
    var g := GroupItems(items, keys);
    GroupSound(items, keys, i);
    GroupSound(items, keys, j);
    GroupKeysDistinct(items, keys, i, j);
    assert g[i].items[0] in g[i].items && g[j].items[0] in g[j].items;
    var mi :| 0 <= mi < |items| && items[mi] == g[i].items[0] && keys[mi] == g[i].key;
    var mj :| 0 <= mj < |items| && items[mj] == g[j].items[0] && keys[mj] == g[j].key;
  }

  /** Every group of the result is non-empty and all its items have the
      same key under the scheme. */
  lemma GroupSharesKey(scheme: KeyScheme, configType: string, items: seq<Json>, i: nat, y: Json)
    requires GroupBy(scheme, configType, items).Ok?
    requires i < |GroupBy(scheme, configType, items).value|
    requires y in GroupBy(scheme, configType, items).value[i]
    ensures GroupBy(scheme, configType, items).value[i] != []
    ensures ItemKey(scheme, configType, y) == ItemKey(scheme, configType, GroupBy(scheme, configType, items).value[i][0])
  {
    var keys := ItemKeys(scheme, configType, items);
    GroupByValue(scheme, configType, items);
    GroupMembers(items, keys, i, y);
    var m, m0 :| 0 <= m < |items| && 0 <= m0 < |items| && items[m] == y
              && items[m0] == GroupItems(items, keys)[i].items[0] && keys[m] == keys[m0];
  }

  /** Two different groups of the result have different keys under the scheme. */
  lemma GroupsApart(scheme: KeyScheme, configType: string, items: seq<Json>, i: nat, j: nat)
    requires GroupBy(scheme, configType, items).Ok?
    requires i < j < |GroupBy(scheme, configType, items).value|
    ensures GroupBy(scheme, configType, items).value[i] != []
    ensures GroupBy(scheme, configType, items).value[j] != []
    ensures ItemKey(scheme, configType, GroupBy(scheme, configType, items).value[i][0])
         != ItemKey(scheme, configType, GroupBy(scheme, configType, items).value[j][0])
  {
    var keys := ItemKeys(scheme, configType, items);
    GroupByValue(scheme, configType, items);
    GroupHeads(items, keys, i, j);
    var mi, mj :| 0 <= mi < |items| && 0 <= mj < |items|
              && items[mi] == GroupItems(items, keys)[i].items[0]
              && items[mj] == GroupItems(items, keys)[j].items[0] && keys[mi] != keys[mj];
  }

  /** No item is lost: each lands in some group of the result. */
  lemma ItemGrouped(scheme: KeyScheme, configType: string, items: seq<Json>, m: nat)
    requires GroupBy(scheme, configType, items).Ok? && m < |items|
    ensures exists i :: 0 <= i < |GroupBy(scheme, configType, items).value|
              && items[m] in GroupBy(scheme, configType, items).value[i]
  {
    var keys := ItemKeys(scheme, configType, items);
    GroupComplete(items, keys, m);
    var i :| 0 <= i < |GroupItems(items, keys)| && items[m] in GroupItems(items, keys)[i].items;
    assert items[m] in GroupBy(scheme, configType, items).value[i];
  }

  // The text-key collision.

  lemma KeyFieldNotVersion(configType: string)
    ensures KeyField(configType) != "version"
  {
  }

  lemma GroupItemsTwo<K(!new)>(x: Json, y: Json, kx: K, ky: K)
    ensures GroupItems([x, y], [kx, ky])
         == if kx == ky then [Group(kx, [x, y])] else [Group(kx, [x]), Group(ky, [y])]
  {
    assert [x, y][..1] == [x] && [kx, ky][..1] == [kx];
    assert [x][..0] == [] && [kx][..0] == [];
    var g1 := [Group(kx, [x])];
    assert GroupItems([x], [kx]) == g1;
    assert GroupItems([x, y], [kx, ky]) == AddToGroups(g1, ky, y);
    if kx == ky {
      assert g1[1..] == [];
      assert [x] + [y] == [x, y];
    } else {
      assert g1[1..] == [];
      assert AddToGroups(g1[1..], ky, y) == [Group(ky, [y])];
    }
  }

  /** Grouping two items: one group when their keys agree, two otherwise. */
  lemma GroupTwo(scheme: KeyScheme, configType: string, x: Json, y: Json)
    requires !Nullish(x) && !Nullish(y)
    ensures GroupBy(scheme, configType, [x, y])
         == if ItemKey(scheme, configType, x) == ItemKey(scheme, configType, y) then Ok([[x, y]]) else Ok([[x], [y]])
  {
    var kx, ky := ItemKey(scheme, configType, x), ItemKey(scheme, configType, y);
    assert ItemKeys(scheme, configType, [x, y]) == [kx, ky];
    GroupItemsTwo(x, y, kx, ky);
    assert GroupValues([Group(kx, [x, y])]) == [[x, y]];
    assert GroupValues([Group(kx, [x]), Group(ky, [y])]) == [[x], [y]];
  }

  /** For any strings a, b, c, the item with key "a__b" and version "c" and
      the item with key "a" and version "b__c" share the joined key
      "a__b__c", so the grouping as written merges two different configs,
      while the corrected one keeps them apart. */
  lemma Collision(configType: string, a: string, b: string, c: string, sep: string, x: Json, y: Json)
    requires sep == "__"
    requires x == Obj([Member(KeyField(configType), Str(a + sep + b)), Member("version", Str(c))])
    requires y == Obj([Member(KeyField(configType), Str(a)), Member("version", Str(b + sep + c))])
    ensures GroupByVersion(configType, [x, y]) == Ok([[x, y]])
    ensures GroupByKeyAndVersion(configType, [x, y]) == Ok([[x], [y]])
  {
    var kf := KeyField(configType);
    KeyFieldNotVersion(configType);
    GetPair(Member(kf, Str(a + sep + b)), Member("version", Str(c)), kf);
    GetPair(Member(kf, Str(a + sep + b)), Member("version", Str(c)), "version");
    GetPair(Member(kf, Str(a)), Member("version", Str(b + sep + c)), kf);
    GetPair(Member(kf, Str(a)), Member("version", Str(b + sep + c)), "version");
    assert GroupKey(configType, x) == (a + sep + b) + sep + c;
    assert GroupKey(configType, y) == a + sep + (b + sep + c);
    assert (a + sep + b) + sep + c == a + sep + (b + sep + c);
    GroupTwo(Joined, configType, x, y);
    assert |a + sep + b| != |a|;
    assert ItemKey(Pair, configType, x)[0] != ItemKey(Pair, configType, y)[0];
    GroupTwo(Pair, configType, x, y);
  }
}

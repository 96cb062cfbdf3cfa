/** The two rewritings of next-operation pointers in
    packages/cli/src/utils/index.js. A document written by the user keeps,
    under every `next` and `on_error` key, a map from workflow id to
    `{type, id, rematch, version}`; the configuration the server stores keeps
    instead a `selector` list whose entries name the workflow and the target
    by their keys. `loadConfNextOperations` goes from the first form to the
    second, `loadDocNextOperations` back. Both rewrite their argument in
    place; the model returns the rewritten value, and a `throw` is an `Err`. */
module NextOps {
  import opened Wrappers
  import opened Js

  /** The keys whose values are rewritten. */
  predicate IsNextKey(k: string) {
    k == "next" || k == "on_error"
  }

  // ---------------------------------------------------------------------
  // Document to configuration.

  /** `table[id].key`: throws when the table or its entry is null or undefined. */
  function KeyOf(table: Json, id: string): Result<Json> {
    var e :- Prop(table, id);
    Prop(e, "key")
  }

  /** The selector built for the entry `workflowId: {type, id, rematch}`:
      the workflow is named by its key, `rematch` defaults to false, and the
      target is an operation key, a workflow key (only without rematch), or
      absent. */
  function ConfSelector(e: Member, workflows: Json, operations: Json): Result<Json> {
    var t :- Prop(e.value, "type");
    var id :- Prop(e.value, "id");
    var rm :- Prop(e.value, "rematch");
    var rematch := Or(rm, Bool(false));
    var wfKey :- KeyOf(workflows, e.key);
    var next :- ConfTarget(t, id, rematch, workflows, operations);
    Ok(Selector(t, wfKey, rematch, next))
  }

  /** The optional `next` member: the key of the operation, or of the
      workflow when there is no rematch. */
  function ConfTarget(t: Json, id: Json, rematch: Json, workflows: Json, operations: Json): Result<seq<Member>> {
    if StrictEquals(t, Str("operation")) then
      var k :- KeyOf(operations, ToDisplayString(id)); Ok([Member("next", k)])
    else if StrictEquals(t, Str("workflow")) && !Truthy(rematch) then
      var k :- KeyOf(workflows, ToDisplayString(id)); Ok([Member("next", k)])
    else Ok([])
  }

  /** `{type, data: {workflow, rematch[, next]}}`. */
  function Selector(t: Json, wfKey: Json, rematch: Json, next: seq<Member>): Json {
    Obj([Member("type", t), Member("data", Obj([Member("workflow", wfKey), Member("rematch", rematch)] + next))])
  }

  /** The value that replaces a `next` or `on_error` value: `{}` when the
      spread copy `{...(v || {})}` has no own keys, otherwise an object whose
      only member is the selector list, one selector per entry in order. */
  function ConfNext(v: Json, workflows: Json, operations: Json): (r: Result<Json>)
    ensures OwnEntries(Or(v, Obj([]))) == [] ==> r == Ok(Obj([]))
    ensures r.Ok? && OwnEntries(Or(v, Obj([]))) != [] ==>
      r.value.Obj? && |r.value.members| == 1 && r.value.members[0].key == "selector"
      && r.value.members[0].value.Arr?
      && |r.value.members[0].value.items| == |OwnKeys(Or(v, Obj([])))|
    ensures r.Ok? <==>
      forall i :: 0 <= i < |OwnEntries(Or(v, Obj([])))| ==>
        ConfSelector(OwnEntries(Or(v, Obj([])))[i], workflows, operations).Ok?
  {
    var entries := OwnEntries(Or(v, Obj([])));
    if entries == [] then Ok(Obj([]))
    else
      var sels :- MapResult(entries, (e: Member) => ConfSelector(e, workflows, operations));
      Ok(Obj([Member("selector", Arr(sels))]))
  }

  /** `loadConfNextOperations(data, workflows, operations)`: `Object.keys`
      of null or undefined throws; the keys of an object are visited in
      order; an array's elements are visited but never rewritten; other
      values have nothing to visit. */
  function LoadConf(data: Json, workflows: Json, operations: Json): Result<Json>
    decreases data, 0
  {
    match data
    case Null => Err(TypeError)
    case Undefined => Err(TypeError)
    case Obj(ms) =>
      var rs :- ConfMembers(ms, workflows, operations);
      Ok(Obj(rs))
    case Arr(items) =>
      var rs :- ConfItems(items, workflows, operations);
      Ok(Arr(rs))
    case _ => Ok(data)
  }

  /** The new value under key `k`: next pointers are rewritten; a value whose
      `typeof` is "object" and that is not an array is then descended into
      (for a rewritten value that descent changes nothing, see `ConfSettled`). */
  function ConfValue(k: string, v: Json, workflows: Json, operations: Json): Result<Json>
    decreases v, 1
  {
    if IsNextKey(k) then ConfNext(v, workflows, operations)
    else if v.Obj? || v.Null? then LoadConf(v, workflows, operations)
    else Ok(v)
  }

  function ConfMembers(ms: seq<Member>, workflows: Json, operations: Json): (r: Result<seq<Member>>)
    ensures r.Ok? ==> MemberKeys(r.value) == MemberKeys(ms)
    ensures r.Ok? <==> forall i :: 0 <= i < |ms| ==> ConfValue(ms[i].key, ms[i].value, workflows, operations).Ok?
    ensures r.Ok? ==> forall i :: 0 <= i < |ms| ==>
      ConfValue(ms[i].key, ms[i].value, workflows, operations) == Ok(r.value[i].value)
    decreases ms, 0
  {
    if ms == [] then Ok([])
    else
      var v :- ConfValue(ms[0].key, ms[0].value, workflows, operations);
      var rest :- ConfMembers(ms[1..], workflows, operations);
      var r := [Member(ms[0].key, v)] + rest;
      assert forall i :: 1 <= i < |ms| ==> ms[i] == ms[1..][i - 1] && r[i] == rest[i - 1];
      Ok(r)
  }

  /** An element of an array: an object or null is descended into. */
  function ConfItem(item: Json, workflows: Json, operations: Json): Result<Json>
    decreases item, 1
  {
    if item.Obj? || item.Null? then LoadConf(item, workflows, operations) else Ok(item)
  }

  function ConfItems(items: seq<Json>, workflows: Json, operations: Json): (r: Result<seq<Json>>)
    ensures r.Ok? ==> |r.value| == |items|
    ensures r.Ok? <==> forall i :: 0 <= i < |items| ==> ConfItem(items[i], workflows, operations).Ok?
    ensures r.Ok? ==> forall i :: 0 <= i < |items| ==> ConfItem(items[i], workflows, operations) == Ok(r.value[i])
    decreases items, 0
  {
    if items == [] then Ok([])
    else
      var v :- ConfItem(items[0], workflows, operations);
      var rest :- ConfItems(items[1..], workflows, operations);
      assert forall i :: 1 <= i < |items| ==> items[i] == items[1..][i - 1];
      Ok([v] + rest)
  }

  // ---------------------------------------------------------------------
  // Configuration to document.

  const UnknownWorkflowPrefix := "You try to upload a operation with unknown workflow with key = "
  const UnknownWorkflowSuffix := ". please make sure you upload also the workflow that belongs to this operation."

  /** The error thrown for a selector whose workflow key matches no workflow. */
  function UnknownWorkflow(key: Json): string {
    UnknownWorkflowPrefix + ToDisplayString(key) + UnknownWorkflowSuffix
  }

  /** `workflows[id]` can be read from: reading `.key` of it does not throw. */
  predicate Readable(workflows: Json, id: string) {
    !Nullish(Lookup(workflows, id))
  }

  /** `workflows[id].key === key`. */
  predicate KeyMatches(workflows: Json, id: string, key: Json) {
    Readable(workflows, id) && StrictEquals(Lookup(Lookup(workflows, id), "key"), key)
  }

  /** `keys.find(id => workflows[id].key === key)`, as the index of the
      first match; the callback throws on an entry that is null or undefined. */
  function FindWorkflow(keys: seq<string>, workflows: Json, key: Json): (r: Result<Option<nat>>)
    ensures r.Ok? && r.value.Some? ==>
      r.value.value < |keys| && KeyMatches(workflows, keys[r.value.value], key)
      && forall j :: 0 <= j < r.value.value ==> Readable(workflows, keys[j]) && !KeyMatches(workflows, keys[j], key)
    ensures r == Ok(None) <==>
      forall j :: 0 <= j < |keys| ==> Readable(workflows, keys[j]) && !KeyMatches(workflows, keys[j], key)
    ensures r.Err? ==> r.error == TypeError && exists j :: 0 <= j < |keys| && !Readable(workflows, keys[j])
    decreases |keys|
  {
    if keys == [] then Ok(None)
    else
      var k :- Prop(Lookup(workflows, keys[0]), "key");
      if StrictEquals(k, key) then Ok(Some(0))
      else
        var found :- FindWorkflow(keys[1..], workflows, key);
        assert forall j :: 1 <= j < |keys| ==> keys[j] == keys[1..][j - 1];
        match found
        case None => Ok(None)
        case Some(i) => Ok(Some(i + 1))
  }

  /** The map entry `workflowId: {id, type, rematch[, version]}` built from
      one selector. The workflow id must be a truthy string. */
  function DocEntry(select: Json, workflows: Json): (r: Result<(string, Json)>)
    ensures r.Ok? ==> Depth(r.value.1) <= Depth(select)
  {
    if Nullish(select) then Err(TypeError)
    else
      var d := Get(select, "data");
      if Nullish(d) then Err(TypeError)
      else
        var key := Get(d, "workflow");
        var keys := OwnKeys(Or(workflows, Obj([])));
        var found :- FindWorkflow(keys, workflows, key);
        if found.Some? && keys[found.value] != "" then Ok((keys[found.value], EntryOf(select, d)))
        else Err(UnknownWorkflow(key))
  }

  /** `{id: data.next, type: select.type, rematch: data.rematch || false}`,
      with `version` added only when `data.version` is truthy. */
  function EntryOf(select: Json, d: Json): (e: Json)
    requires d == Get(select, "data") && !Nullish(d)
    ensures Depth(e) <= Depth(select)
  {
    var version := Get(d, "version");
    var fields := [Member("id", Get(d, "next")), Member("type", Get(select, "type")),
                   Member("rematch", Or(Get(d, "rematch"), Bool(false)))]
                  + (if Truthy(version) then [Member("version", version)] else []);
    EntryDepth(select, d, fields);
    Obj(fields)
  }

  /** The entry built from a selector is no deeper than the selector. */
  lemma EntryDepth(select: Json, d: Json, fields: seq<Member>)
    requires d == Get(select, "data") && !Nullish(d)
    requires forall i :: 0 <= i < |fields| ==>
      fields[i].value == Get(d, "next") || fields[i].value == Get(select, "type")
      || fields[i].value == Or(Get(d, "rematch"), Bool(false)) || fields[i].value == Get(d, "version")
    ensures Depth(Obj(fields)) <= Depth(select)
  {
    assert select.Obj? && Depth(d) < Depth(select);
    forall i | 0 <= i < |fields| ensures Depth(fields[i].value) < Depth(select) {
    }
    DepthMembersBound(fields, Depth(select) - 1);
  }

  /** `selects.forEach(...)` writing into one object: a later selector with
      the same workflow id overwrites the earlier entry in place, and the
      first selector that cannot be read throws. */
  function DocSelects(selects: seq<Json>, acc: seq<Member>, workflows: Json): (r: Result<seq<Member>>)
    ensures r.Ok? <==> forall i :: 0 <= i < |selects| ==> DocEntry(selects[i], workflows).Ok?
  {
    var es :- MapResult(selects, (s: Json) => DocEntry(s, workflows));
    Ok(SetEntries(acc, es))
  }

  /** Writing the entries into the object one after the other. */
  function SetEntries(acc: seq<Member>, es: seq<(string, Json)>): seq<Member>
    decreases |es|
  {
    if es == [] then acc else SetEntries(SetMember(acc, es[0].0, es[0].1), es[1..])
  }

  /** The entries of the selectors, each read from its own selector. */
  lemma DocSelectsEntries(selects: seq<Json>, acc: seq<Member>, workflows: Json)
    requires DocSelects(selects, acc, workflows).Ok?
    ensures var es := MapResult(selects, (s: Json) => DocEntry(s, workflows)).value;
            DocSelects(selects, acc, workflows).value == SetEntries(acc, es) && |es| == |selects| &&
            forall i :: 0 <= i < |selects| ==> DocEntry(selects[i], workflows) == Ok(es[i])
  {
  }

  lemma {:induction false} SetEntriesBelow(acc: seq<Member>, es: seq<(string, Json)>, b: int)
    requires MembersBelow(acc, b) && forall i :: 0 <= i < |es| ==> Depth(es[i].1) < b
    ensures MembersBelow(SetEntries(acc, es), b)
    decreases |es|
  {
    if es != [] {
      SetMemberBelow(acc, es[0].0, es[0].1, b);
      SetEntriesBelow(SetMember(acc, es[0].0, es[0].1), es[1..], b);
    }
  }

  /** A key that no entry writes keeps its value. */
  lemma {:induction false} SetEntriesKeeps(acc: seq<Member>, es: seq<(string, Json)>, k: string)
    requires forall j :: 0 <= j < |es| ==> es[j].0 != k
    ensures Lookup(Obj(SetEntries(acc, es)), k) == Lookup(Obj(acc), k)
    decreases |es|
  {
    if es != [] {
      SetEntriesKeeps(SetMember(acc, es[0].0, es[0].1), es[1..], k);
      LookupAfterSetMember(acc, es[0].0, es[0].1, k);
    }
  }

  /** A key holds the value of the last entry that writes it. */
  lemma {:induction false} SetEntriesLastWins(acc: seq<Member>, es: seq<(string, Json)>, i: nat)
    requires i < |es| && forall j :: i < j < |es| ==> es[j].0 != es[i].0
    ensures Lookup(Obj(SetEntries(acc, es)), es[i].0) == es[i].1
    decreases |es|
  {
    var acc' := SetMember(acc, es[0].0, es[0].1);
    if i == 0 {
      SetEntriesKeeps(acc', es[1..], es[0].0);
      LookupAfterSetMember(acc, es[0].0, es[0].1, es[0].0);
    } else {
      SetEntriesLastWins(acc', es[1..], i - 1);
    }
  }

  /** The keys written are the earlier keys and the entries' keys. */
  lemma {:induction false} SetEntriesKeys(acc: seq<Member>, es: seq<(string, Json)>, k: string)
    ensures k in MemberKeys(SetEntries(acc, es)) <==> k in MemberKeys(acc) || exists j :: 0 <= j < |es| && es[j].0 == k
    decreases |es|
  {
    if es != [] {
      var acc' := SetMember(acc, es[0].0, es[0].1);
      SetEntriesKeys(acc', es[1..], k);
      assert k in MemberKeys(acc') <==> k in MemberKeys(acc) || k == es[0].0;
      if exists j :: 0 <= j < |es| && es[j].0 == k {
        var j :| 0 <= j < |es| && es[j].0 == k;
        if j > 0 {
          assert es[1..][j - 1].0 == k;
        }
      }
    }
  }

  lemma DocSelectsBelow(selects: seq<Json>, acc: seq<Member>, workflows: Json, b: int)
    requires ItemsBelow(selects, b) && MembersBelow(acc, b)
    requires DocSelects(selects, acc, workflows).Ok?
    ensures MembersBelow(DocSelects(selects, acc, workflows).value, b)
  {
    DocSelectsEntries(selects, acc, workflows);
    var es := MapResult(selects, (s: Json) => DocEntry(s, workflows)).value;
    SetEntriesBelow(acc, es, b);
  }

  /** The value that replaces a `next` or `on_error` value: the entries built
      from `(v || {}).selector || []`; a selector value that is truthy but not
      an array has no `forEach` and throws. */
  function DocNext(v: Json, workflows: Json): (r: Result<Json>)
    ensures r.Ok? ==> r.value.Obj?
    ensures r.Ok? && r.value.members != [] ==> Depth(r.value) < Depth(v)
    ensures !Truthy(Get(Or(v, Obj([])), "selector")) ==> r == Ok(Obj([]))
    ensures Truthy(Get(Or(v, Obj([])), "selector")) && !Get(Or(v, Obj([])), "selector").Arr? ==> r == Err(TypeError)
  {
    var sel := Or(Get(Or(v, Obj([])), "selector"), Arr([]));
    match sel
    case Arr(selects) =>
      var ms :- DocSelects(selects, [], workflows);
      if ms != [] then
        assert Depth(sel) < Depth(v);
        ItemsBelowArr(selects);
        DocSelectsBelow(selects, [], workflows, Depth(sel));
        DepthMembersBound(ms, Depth(sel) - 1);
        Ok(Obj(ms))
      else Ok(Obj(ms))
    case _ => Err(TypeError)
  }

  /** `loadDocNextOperations(data, workflows)`: like the forward direction,
      except that every value whose `typeof` is "object" is descended into,
      arrays and null included. */
  function LoadDoc(data: Json, workflows: Json): Result<Json>
    decreases Depth(data), 1
  {
    match data
    case Null => Err(TypeError)
    case Undefined => Err(TypeError)
    case Obj(ms) =>
      MembersBelowObj(ms);
      var rs :- DocMembers(ms, workflows, Depth(data));
      Ok(Obj(rs))
    case Arr(items) =>
      ItemsBelowArr(items);
      var rs :- DocItems(items, workflows, Depth(data));
      Ok(Arr(rs))
    case _ => Ok(data)
  }

  /** The new value under key `k`. A rewritten next value is descended into
      as well; when it is `{}` that descent has nothing to visit. */
  function DocValue(k: string, v: Json, workflows: Json): Result<Json>
    decreases Depth(v), 2
  {
    if IsNextKey(k) then
      var nv :- DocNext(v, workflows);
      if nv.members == [] then Ok(nv) else LoadDoc(nv, workflows)
    else if IsObjectType(v) then LoadDoc(v, workflows)
    else Ok(v)
  }

  function DocMembers(ms: seq<Member>, workflows: Json, bound: nat): (r: Result<seq<Member>>)
    requires MembersBelow(ms, bound)
    ensures r.Ok? ==> MemberKeys(r.value) == MemberKeys(ms)
    ensures r.Ok? <==> forall i :: 0 <= i < |ms| ==> DocValue(ms[i].key, ms[i].value, workflows).Ok?
    ensures r.Ok? ==> forall i :: 0 <= i < |ms| ==> DocValue(ms[i].key, ms[i].value, workflows) == Ok(r.value[i].value)
    decreases bound, 0, |ms|
  {
    if ms == [] then Ok([])
    else
      var v :- DocValue(ms[0].key, ms[0].value, workflows);
      assert forall i :: 1 <= i < |ms| ==> ms[i] == ms[1..][i - 1];
      var rest :- DocMembers(ms[1..], workflows, bound);
      Ok([Member(ms[0].key, v)] + rest)
  }

  /** An element of an array: an object, an array or null is descended into. */
  function DocItem(item: Json, workflows: Json): Result<Json>
    decreases Depth(item), 2
  {
    if IsObjectType(item) then LoadDoc(item, workflows) else Ok(item)
  }

  function DocItems(items: seq<Json>, workflows: Json, bound: nat): (r: Result<seq<Json>>)
    requires ItemsBelow(items, bound)
    ensures r.Ok? ==> |r.value| == |items|
    ensures r.Ok? <==> forall i :: 0 <= i < |items| ==> DocItem(items[i], workflows).Ok?
    ensures r.Ok? ==> forall i :: 0 <= i < |items| ==> DocItem(items[i], workflows) == Ok(r.value[i])
    decreases bound, 0, |items|
  {
    if items == [] then Ok([])
    else
      var v :- DocItem(items[0], workflows);
      assert forall i :: 1 <= i < |items| ==> items[i] == items[1..][i - 1];
      var rest :- DocItems(items[1..], workflows, bound);
      Ok([v] + rest)
  }

  // ---------------------------------------------------------------------
  // Properties of the forward direction.

  /** What one selector says: the entry's type, the workflow's key, `rematch`
      made a value that is never null or undefined and has the truthiness of
      the entry's, and a `next` member exactly for an operation or for a
      workflow without rematch, holding the target's key. */
  lemma ConfSelectorShape(e: Member, workflows: Json, operations: Json)
    requires ConfSelector(e, workflows, operations).Ok?
    ensures var s := ConfSelector(e, workflows, operations).value;
      var t := Lookup(e.value, "type");
      var d := Get(s, "data");
      Get(s, "type") == t && d.Obj?
      && Get(d, "workflow") == KeyOf(workflows, e.key).value
      && !Nullish(Get(d, "rematch"))
      && (Truthy(Get(d, "rematch")) <==> Truthy(Lookup(e.value, "rematch")))
      && (("next" in MemberKeys(d.members)) <==>
            StrictEquals(t, Str("operation"))
            || (StrictEquals(t, Str("workflow")) && !Truthy(Lookup(e.value, "rematch"))))
      && (StrictEquals(t, Str("operation")) ==>
            Get(d, "next") == KeyOf(operations, ToDisplayString(Lookup(e.value, "id"))).value)
      && (StrictEquals(t, Str("workflow")) && !Truthy(Lookup(e.value, "rematch")) ==>
            Get(d, "next") == KeyOf(workflows, ToDisplayString(Lookup(e.value, "id"))).value)
  {
    var t, id := Lookup(e.value, "type"), Lookup(e.value, "id");
    var rematch := Or(Lookup(e.value, "rematch"), Bool(false));
    var wfKey := KeyOf(workflows, e.key).value;
    var next := ConfTarget(t, id, rematch, workflows, operations).value;
    assert ConfSelector(e, workflows, operations).value == Selector(t, wfKey, rematch, next);
    SelectorFields(t, wfKey, rematch, next);
  }

  /** Reading the members of a selector. */
  lemma SelectorFields(t: Json, wfKey: Json, rematch: Json, next: seq<Member>)
    requires next == [] || (|next| == 1 && next[0].key == "next")
    ensures var s := Selector(t, wfKey, rematch, next);
      var d := Get(s, "data");
      Get(s, "type") == t && d.Obj?
      && Get(d, "workflow") == wfKey && Get(d, "rematch") == rematch
      && ("next" in MemberKeys(d.members) <==> next != [])
      && (next != [] ==> Get(d, "next") == next[0].value)
      && Get(d, "version").Undefined?
  {
    var base := [Member("workflow", wfKey), Member("rematch", rematch)];
    var ms := base + next;
    GetPair(Member("type", t), Member("data", Obj(ms)), "type");
    GetPair(Member("type", t), Member("data", Obj(ms)), "data");
    FindMemberFirst(ms, "workflow", 0);
    FindMemberFirst(ms, "rematch", 1);
    if next != [] {
      FindMemberFirst(ms, "next", 2);
    } else {
      assert ms == base;
    }
  }

  /** The source descends into the value it has just written; that visit
      changes nothing, which is why `ConfValue` stops after the rewrite. */
  lemma ConfSettled(v: Json, workflows: Json, operations: Json)
    requires ConfNext(v, workflows, operations).Ok?
    ensures LoadConf(ConfNext(v, workflows, operations).value, workflows, operations)
         == ConfNext(v, workflows, operations)
  {
    var r := ConfNext(v, workflows, operations).value;
    if r.members != [] {
      SelectorListSettled(r.members[0].value.items, workflows, operations);
      assert r == Obj([Member("selector", Arr(r.members[0].value.items))]);
    }
  }

  lemma SelectorListSettled(sels: seq<Json>, workflows: Json, operations: Json)
    ensures LoadConf(Obj([Member("selector", Arr(sels))]), workflows, operations)
         == Ok(Obj([Member("selector", Arr(sels))]))
  {
    var m := Member("selector", Arr(sels));
    assert ConfValue(m.key, m.value, workflows, operations) == Ok(m.value);
    var r := ConfMembers([m], workflows, operations);
    assert r.Ok? && |r.value| == 1;
    assert r.value[0].key == m.key && r.value[0].value == m.value;
    assert r.value == [m];
  }

  /** A value with no `next` or `on_error` key and no null anywhere inside:
      the rewritings have nothing to rewrite and nothing to throw on. */
  predicate Plain(v: Json)
    decreases v
  {
    match v
    case Null => false
    case Arr(items) => forall i :: 0 <= i < |items| ==> Plain(items[i])
    case Obj(ms) => forall i :: 0 <= i < |ms| ==> !IsNextKey(ms[i].key) && Plain(ms[i].value)
    case _ => true
  }

  /** The forward rewriting leaves a plain document as it is. */
  lemma {:induction false} ConfPlainUnchanged(v: Json, workflows: Json, operations: Json)
    requires Plain(v) && !v.Undefined?
    ensures LoadConf(v, workflows, operations) == Ok(v)
    decreases v, 1
  {
    match v
    case Obj(ms) => ConfPlainMembers(ms, workflows, operations);
    case Arr(items) => ConfPlainItems(items, workflows, operations);
    case _ =>
  }

  lemma {:induction false} ConfPlainMembers(ms: seq<Member>, workflows: Json, operations: Json)
    requires forall i :: 0 <= i < |ms| ==> !IsNextKey(ms[i].key) && Plain(ms[i].value)
    ensures ConfMembers(ms, workflows, operations) == Ok(ms)
    decreases ms, 0
  {
    if ms != [] {
      if ms[0].value.Obj? {
        ConfPlainUnchanged(ms[0].value, workflows, operations);
      }
      assert forall i :: 0 <= i < |ms| - 1 ==> ms[1..][i] == ms[i + 1];
      ConfPlainMembers(ms[1..], workflows, operations);
      assert [Member(ms[0].key, ms[0].value)] + ms[1..] == ms;
    }
  }

  lemma {:induction false} ConfPlainItems(items: seq<Json>, workflows: Json, operations: Json)
    requires forall i :: 0 <= i < |items| ==> Plain(items[i])
    ensures ConfItems(items, workflows, operations) == Ok(items)
    decreases items, 0
  {
    if items != [] {
      if items[0].Obj? {
        ConfPlainUnchanged(items[0], workflows, operations);
      }
      assert ConfItem(items[0], workflows, operations) == Ok(items[0]);
      assert forall i :: 0 <= i < |items| - 1 ==> items[1..][i] == items[i + 1];
      ConfPlainItems(items[1..], workflows, operations);
      assert [items[0]] + items[1..] == items;
    }
  }

  /** A null under an ordinary key makes the forward rewriting throw
      (`Object.keys(null)`), wherever it sits among the keys. */
  lemma ConfNullThrows(ms: seq<Member>, i: nat, workflows: Json, operations: Json)
    requires i < |ms| && !IsNextKey(ms[i].key) && ms[i].value == Null
    ensures LoadConf(Obj(ms), workflows, operations).Err?
  {
    assert ConfValue(ms[i].key, ms[i].value, workflows, operations).Err?;
  }

  // ---------------------------------------------------------------------
  // Properties of the backward direction.

  /** An entry of the rewritten map: keyed by a non-empty workflow id whose
      key is the selector's workflow key; `id` and `type` are copied,
      `rematch` is never null or undefined and keeps its truthiness, and
      `version` is present exactly when the selector's is truthy. */
  lemma DocEntryFields(select: Json, workflows: Json)
    requires DocEntry(select, workflows).Ok?
    ensures var (id, e) := DocEntry(select, workflows).value;
      var d := Get(select, "data");
      id != "" && id in OwnKeys(Or(workflows, Obj([])))
      && KeyMatches(workflows, id, Get(d, "workflow"))
      && Get(e, "id") == Get(d, "next") && Get(e, "type") == Get(select, "type")
      && Get(e, "rematch") == Or(Get(d, "rematch"), Bool(false))
      && !Nullish(Get(e, "rematch")) && (Truthy(Get(e, "rematch")) <==> Truthy(Get(d, "rematch")))
      && e.Obj? && ("version" in MemberKeys(e.members) <==> Truthy(Get(d, "version")))
      && (Truthy(Get(d, "version")) ==> Get(e, "version") == Get(d, "version"))
  {
    var d := Get(select, "data");
    var keys := OwnKeys(Or(workflows, Obj([])));
    var found := FindWorkflow(keys, workflows, Get(d, "workflow")).value;
    assert found.Some? && keys[found.value] == DocEntry(select, workflows).value.0;
    EntryFields(select, d);
  }

  lemma EntryFields(select: Json, d: Json)
    requires d == Get(select, "data") && !Nullish(d)
    ensures var e := EntryOf(select, d);
      Get(e, "id") == Get(d, "next") && Get(e, "type") == Get(select, "type")
      && Get(e, "rematch") == Or(Get(d, "rematch"), Bool(false))
      && e.Obj? && ("version" in MemberKeys(e.members) <==> Truthy(Get(d, "version")))
      && (Truthy(Get(d, "version")) ==> Get(e, "version") == Get(d, "version"))
  {
    var version := Get(d, "version");
    var base := [Member("id", Get(d, "next")), Member("type", Get(select, "type")),
                 Member("rematch", Or(Get(d, "rematch"), Bool(false)))];
    var ms := base + (if Truthy(version) then [Member("version", version)] else []);
    assert EntryOf(select, d) == Obj(ms);
    FindMemberFirst(ms, "id", 0);
    FindMemberFirst(ms, "type", 1);
    FindMemberFirst(ms, "rematch", 2);
    if Truthy(version) {
      FindMemberFirst(ms, "version", 3);
    } else {
      assert ms == base;
    }
  }

  /** A selector whose workflow key no workflow carries makes the backward
      rewriting throw the unknown-workflow error naming that key. */
  lemma DocEntryUnknown(select: Json, workflows: Json)
    requires !Nullish(select) && !Nullish(Get(select, "data"))
    requires var keys := OwnKeys(Or(workflows, Obj([])));
      forall j :: 0 <= j < |keys| ==>
        Readable(workflows, keys[j]) && !KeyMatches(workflows, keys[j], Get(Get(select, "data"), "workflow"))
    ensures DocEntry(select, workflows) == Err(UnknownWorkflow(Get(Get(select, "data"), "workflow")))
  {
  }

  /** Each workflow id ends up holding the entry of the last selector that
      names it. */
  lemma DocSelectsLastWins(selects: seq<Json>, acc: seq<Member>, workflows: Json, i: nat)
    requires DocSelects(selects, acc, workflows).Ok? && i < |selects|
    requires forall j :: i < j < |selects| ==>
      DocEntry(selects[j], workflows).value.0 != DocEntry(selects[i], workflows).value.0
    ensures Lookup(Obj(DocSelects(selects, acc, workflows).value), DocEntry(selects[i], workflows).value.0)
         == DocEntry(selects[i], workflows).value.1
  {
    DocSelectsEntries(selects, acc, workflows);
    var es := MapResult(selects, (s: Json) => DocEntry(s, workflows)).value;
    SetEntriesLastWins(acc, es, i);
  }

  /** A key that no selector names keeps its value. */
  lemma DocSelectsKeeps(selects: seq<Json>, acc: seq<Member>, workflows: Json, k: string)
    requires DocSelects(selects, acc, workflows).Ok?
    requires forall j :: 0 <= j < |selects| ==> DocEntry(selects[j], workflows).value.0 != k
    ensures Lookup(Obj(DocSelects(selects, acc, workflows).value), k) == Lookup(Obj(acc), k)
  {
    DocSelectsEntries(selects, acc, workflows);
    var es := MapResult(selects, (s: Json) => DocEntry(s, workflows)).value;
    SetEntriesKeeps(acc, es, k);
  }

  /** The rewritten map's keys are the accumulated keys and the workflow ids
      of the selectors, and nothing else. */
  lemma DocSelectsKeys(selects: seq<Json>, acc: seq<Member>, workflows: Json, k: string)
    requires DocSelects(selects, acc, workflows).Ok?
    ensures k in MemberKeys(DocSelects(selects, acc, workflows).value) <==>
      k in MemberKeys(acc) || exists j :: 0 <= j < |selects| && DocEntry(selects[j], workflows).value.0 == k
  {
    DocSelectsEntries(selects, acc, workflows);
    var es := MapResult(selects, (s: Json) => DocEntry(s, workflows)).value;
    SetEntriesKeys(acc, es, k);
  }

  /** The backward rewriting leaves a plain document as it is. */
  lemma {:induction false} DocPlainUnchanged(v: Json, workflows: Json)
    requires Plain(v) && !v.Undefined?
    ensures LoadDoc(v, workflows) == Ok(v)
    decreases v, 1
  {
    match v
    case Obj(ms) =>
      MembersBelowObj(ms);
      DocPlainMembers(ms, workflows, Depth(v));
    case Arr(items) =>
      ItemsBelowArr(items);
      DocPlainItems(items, workflows, Depth(v));
    case _ =>
  }

  lemma {:induction false} DocPlainMembers(ms: seq<Member>, workflows: Json, bound: nat)
    requires MembersBelow(ms, bound)
    requires forall i :: 0 <= i < |ms| ==> !IsNextKey(ms[i].key) && Plain(ms[i].value)
    ensures DocMembers(ms, workflows, bound) == Ok(ms)
    decreases ms, 0
  {
    if ms != [] {
      if IsObjectType(ms[0].value) {
        DocPlainUnchanged(ms[0].value, workflows);
      }
      assert DocValue(ms[0].key, ms[0].value, workflows) == Ok(ms[0].value);
      assert forall i :: 0 <= i < |ms| - 1 ==> ms[1..][i] == ms[i + 1];
      DocPlainMembers(ms[1..], workflows, bound);
      assert [Member(ms[0].key, ms[0].value)] + ms[1..] == ms;
    }
  }

  lemma {:induction false} DocPlainItems(items: seq<Json>, workflows: Json, bound: nat)
    requires ItemsBelow(items, bound)
    requires forall i :: 0 <= i < |items| ==> Plain(items[i])
    ensures DocItems(items, workflows, bound) == Ok(items)
    decreases items, 0
  {
    if items != [] {
      if IsObjectType(items[0]) {
        DocPlainUnchanged(items[0], workflows);
      }
      assert DocItem(items[0], workflows) == Ok(items[0]);
      assert forall i :: 0 <= i < |items| - 1 ==> items[1..][i] == items[i + 1];
      DocPlainItems(items[1..], workflows, bound);
      assert [items[0]] + items[1..] == items;
    }
  }

  // ---------------------------------------------------------------------
  // The two directions together.

  /** A workflow table in which every entry is readable and carries a string
      key that no other entry carries. */
  predicate KeyedUniquely(wms: seq<Member>) {
    DistinctKeys(wms)
    && (forall i :: 0 <= i < |wms| ==> !Nullish(wms[i].value) && Lookup(wms[i].value, "key").Str?)
    && (forall i, j :: 0 <= i < j < |wms| ==> Lookup(wms[i].value, "key") != Lookup(wms[j].value, "key"))
  }

  /** Reading back a selector the forward direction built recovers the
      workflow id it replaced by the workflow's key, the type, the
      defaulted rematch flag and the target key, and adds no version. */
  lemma ConfThenDoc(e: Member, wms: seq<Member>, operations: Json, s: Json)
    requires KeyedUniquely(wms) && e.key != ""
    requires ConfSelector(e, Obj(wms), operations) == Ok(s)
    ensures var r := DocEntry(s, Obj(wms));
      r.Ok? && r.value.0 == e.key
      && Get(r.value.1, "type") == Lookup(e.value, "type")
      && Get(r.value.1, "rematch") == Or(Lookup(e.value, "rematch"), Bool(false))
      && Get(r.value.1, "id") == Get(Get(s, "data"), "next")
      && r.value.1.Obj? && "version" !in MemberKeys(r.value.1.members)
  {
    var wf := Obj(wms);
    var t, id := Lookup(e.value, "type"), Lookup(e.value, "id");
    var rematch := Or(Lookup(e.value, "rematch"), Bool(false));
    var wfKey := KeyOf(wf, e.key).value;
    var next := ConfTarget(t, id, rematch, wf, operations).value;
    assert s == Selector(t, wfKey, rematch, next);
    SelectorFields(t, wfKey, rematch, next);
    var d := Get(s, "data");
    var idx := FindMember(wms, e.key);
    assert idx.Some? by {
      assert KeyOf(wf, e.key).Ok?;
    }
    SelectorFound(t, wfKey, rematch, next, wms, idx.value);
    DocEntryFields(s, wf);
    assert Or(rematch, Bool(false)) == rematch;
  }

  /** The selector naming the key of the table's `k`-th workflow is read
      back as an entry for that workflow's id. */
  lemma SelectorFound(t: Json, wfKey: Json, rematch: Json, next: seq<Member>, wms: seq<Member>, k: nat)
    requires next == [] || (|next| == 1 && next[0].key == "next")
    requires KeyedUniquely(wms) && k < |wms| && wms[k].key != ""
    requires wfKey == Lookup(wms[k].value, "key")
    ensures var r := DocEntry(Selector(t, wfKey, rematch, next), Obj(wms));
      r.Ok? && r.value.0 == wms[k].key
  {
    var s := Selector(t, wfKey, rematch, next);
    SelectorFields(t, wfKey, rematch, next);
    var wf := Obj(wms);
    var keys := OwnKeys(Or(wf, Obj([])));
    assert keys == MemberKeys(wms);
    FindsOwnId(wms, k);
    assert FindWorkflow(keys, wf, Get(Get(s, "data"), "workflow")) == Ok(Some(k));
    assert keys[k] == wms[k].key;
  }

  /** In a uniquely keyed table, the search by key finds the entry's own id. */
  lemma FindsOwnId(wms: seq<Member>, k: nat)
    requires KeyedUniquely(wms) && k < |wms|
    ensures FindWorkflow(OwnKeys(Obj(wms)), Obj(wms), Lookup(wms[k].value, "key")) == Ok(Some(k))
  {
    var wf := Obj(wms);
    var key := Lookup(wms[k].value, "key");
    forall j | 0 <= j < |wms|
      ensures Lookup(wf, wms[j].key) == wms[j].value
    {
      FindMemberFirst(wms, wms[j].key, j);
    }
    assert KeyMatches(wf, wms[k].key, key);
    forall j | 0 <= j < |wms| && j != k
      ensures Readable(wf, wms[j].key) && !KeyMatches(wf, wms[j].key, key)
    {
    }
  }
}

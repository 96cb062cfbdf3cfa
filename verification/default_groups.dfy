/** The default-groups plugin (packages/rb-plugin-default-groups): the filter
    check of src/utils.js, the "send_message" group that src/converters.js
    builds for an Operation document, and the document expansion of
    src/index.js that replaces a selected Operation by the group's
    `convert_with` list.

    `uuidv4()` is a parameter `uuid`; the plugin's registration with the
    plugin api is in PluginApi. */
module DefaultGroups {
  import opened Wrappers
  import opened Js
  import ConfigUtils

  const UnexpectedCondition := "unexpected condition"
  const MissingPayload := "unable to destruct groups. missing payload config"

  const SendMessage := "send_message"
  const DropSession := "drop_session"
  const NotificationSuffix := "_get_notification"

  // ---------------------------------------------------------------------
  // checkFilter

  /** One `[a, condition, b]` entry of a group's `filters`. */
  datatype Filter = Filter(left: Json, condition: string, right: Json)

  /** `checkFilter([a, condition, b])`: strict equality or inequality; any
      other condition throws. */
  function CheckFilter(f: Filter): (r: Result<bool>)
    ensures r.Ok? <==> f.condition == "==" || f.condition == "!="
    ensures r.Err? ==> r.error == UnexpectedCondition
    ensures f.condition == "==" ==> r == Ok(StrictEquals(f.left, f.right))
  {
    if f.condition == "==" then Ok(StrictEquals(f.left, f.right))
    else if f.condition == "!=" then Ok(!StrictEquals(f.left, f.right))
    else Err(UnexpectedCondition)
  }

  /** "!=" is the negation of "==" on the same operands. */
  lemma NotEqualNegates(a: Json, b: Json)
    ensures CheckFilter(Filter(a, "!=", b)) == Ok(!CheckFilter(Filter(a, "==", b)).value)
  {
  }

  /** Strict equality is symmetric, so "==" does not depend on operand order. */
  lemma CheckFilterSymmetric(a: Json, b: Json)
    ensures CheckFilter(Filter(a, "==", b)) == CheckFilter(Filter(b, "==", a))
  {
  }

  // ---------------------------------------------------------------------
  // filters.reduce(cb) without an initial value

  /** The accumulator of `filters.reduce((filter) => checkFilter(filter))`:
      the first filter itself before the first call, afterwards the boolean
      the previous call returned. */
  datatype Acc = Pending(first: Filter) | Checked(b: bool)

  /** One call of the callback. It receives the accumulator and ignores the
      current element; destructuring a boolean as `[a, condition, b]` throws. */
  function ReduceStep(acc: Acc): (r: Result<Acc>)
    ensures acc.Checked? ==> r == Err(TypeError)
  {
    match acc
    case Pending(f) =>
      var b :- CheckFilter(f);
      Ok(Checked(b))
    case Checked(_) => Err(TypeError)
  }

  /** The accumulator after `n` more calls. */
  function ReduceFrom(acc: Acc, n: nat): Result<Acc>
    decreases n
  {
    if n == 0 then Ok(acc)
    else
      var next :- ReduceStep(acc);
      ReduceFrom(next, n - 1)
  }

  /** `filters.reduce(cb)` as `find` reads it: the truthiness of the final
      accumulator. An empty list throws; a single filter is returned
      uncalled, and an array is truthy. */
  function ReduceFilters(fs: seq<Filter>): Result<bool> {
    if fs == [] then Err(TypeError)
    else
      var acc :- ReduceFrom(Pending(fs[0]), |fs| - 1);
      Ok(match acc case Pending(_) => true case Checked(b) => b)
  }

  /** With exactly two filters only the first is checked; the second never
      influences the outcome. */
  lemma ReduceTwo(f: Filter, g: Filter)
    ensures ReduceFilters([f, g]) == CheckFilter(f)
  {
    assert ReduceFrom(Pending(f), 1) == (match CheckFilter(f) case Ok(b) => Ok(Checked(b)) case Err(e) => Err(e));
  }

  /** A single filter selects without being checked, whatever its condition. */
  lemma ReduceOne(f: Filter)
    ensures ReduceFilters([f]) == Ok(true)
  {
  }

  /** Three or more filters always throw: the second call destructures a boolean. */
  lemma ReduceMany(fs: seq<Filter>)
    requires |fs| >= 3
    ensures ReduceFilters(fs).Err?
  {
    match CheckFilter(fs[0])
    case Err(_) =>
    case Ok(b) =>
      assert ReduceFrom(Pending(fs[0]), |fs| - 1) == ReduceFrom(Checked(b), |fs| - 2);
      assert ReduceFrom(Checked(b), |fs| - 2) == Err(TypeError);
  }

  /** The evidently intended selection, `filters.every(checkFilter)`: it stops
      at the first filter that does not hold. */
  function EveryFilter(fs: seq<Filter>): Result<bool>
    decreases |fs|
  {
    if fs == [] then Ok(true)
    else
      var b :- CheckFilter(fs[0]);
      if b then EveryFilter(fs[1..]) else Ok(false)
  }

  /** `every` selects exactly when each filter is well formed and holds. */
  lemma {:induction false} EveryFilterHolds(fs: seq<Filter>)
    ensures EveryFilter(fs) == Ok(true) <==> forall i :: 0 <= i < |fs| ==> CheckFilter(fs[i]) == Ok(true)
    decreases |fs|
  {
    if fs != [] {
      EveryFilterHolds(fs[1..]);
      assert forall i :: 1 <= i < |fs| ==> fs[i] == fs[1..][i - 1];
    }
  }

  /** How a group's filters are read: as the plugin writes them, or as intended. */
  datatype Reading = AsWritten | Corrected

  function Selects(reading: Reading, fs: seq<Filter>): Result<bool> {
    match reading
    case AsWritten => ReduceFilters(fs)
    case Corrected => EveryFilter(fs)
  }

  // ---------------------------------------------------------------------
  // converters: the operations map

  /** `(v.k1 || {}).k2` */
  function Nested(v: Json, k1: string, k2: string): Json {
    Get(Or(Get(v, k1), Obj([])), k2)
  }

  /** One assignment `operationsMap[opKey][workflowKey] = nextKey` of the
      metadata loop, with the two property keys already converted to strings. */
  datatype Link = Link(operation: string, workflow: string, next: Json)

  /** The assignment for one `[workflowId, operationId]` entry of an
      operation's `next_operation`: both ids are looked up in the metadata
      and their `key` read, which throws when either is missing. */
  function EntryLink(metadata: Json, opKey: string, e: Member): Result<Link> {
    var workflows := Get(metadata, "workflows");
    var workflow :- Prop(workflows, e.key);
    var workflowKey :- Field(workflow, "key");
    var target :- Prop(Get(metadata, "operations"), ToDisplayString(e.value));
    var targetKey :- Field(target, "key");
    Ok(Link(opKey, ToDisplayString(workflowKey), targetKey))
  }

  function EntryLinks(metadata: Json, opKey: string, es: seq<Member>): Result<seq<Link>>
    decreases |es|
  {
    if es == [] then Ok([])
    else
      var l :- EntryLink(metadata, opKey, es[0]);
      var rest :- EntryLinks(metadata, opKey, es[1..]);
      Ok([l] + rest)
  }

  /** The assignments one value of `metadata.operations` makes. Creating the
      empty inner object first is not observable through a lookup and is
      not represented. */
  function OperationLinks(metadata: Json, op: Json): Result<seq<Link>> {
    var key :- Field(op, "key");
    EntryLinks(metadata, ToDisplayString(key), OwnEntries(Or(Get(op, "next_operation"), Obj([]))))
  }

  function OperationsLinks(metadata: Json, ops: seq<Member>): Result<seq<Link>>
    decreases |ops|
  {
    if ops == [] then Ok([])
    else
      var ls :- OperationLinks(metadata, ops[0].value);
      var rest :- OperationsLinks(metadata, ops[1..]);
      Ok(ls + rest)
  }

  /** Every assignment of the `Object.values(metadata.operations)` loop, in
      order; `Object.values` of null or undefined throws. */
  function MetadataLinks(metadata: Json): Result<seq<Link>> {
    var ops :- Field(metadata, "operations");
    if Nullish(ops) then Err(TypeError) else OperationsLinks(metadata, OwnEntries(ops))
  }

  /** `operationsMap`, an object of objects, as nested maps. */
  type OperationsMap = map<string, map<string, Json>>

  function Put(m: OperationsMap, l: Link): OperationsMap {
    m[l.operation := (if l.operation in m then m[l.operation] else map[])[l.workflow := l.next]]
  }

  /** The assignments performed in order. */
  function Assign(m: OperationsMap, links: seq<Link>): OperationsMap
    decreases |links|
  {
    if links == [] then m else Assign(Put(m, links[0]), links[1..])
  }

  /** `(operationsMap[op] || {})[workflow]` */
  function Linked(m: OperationsMap, op: string, workflow: string): Json {
    if op in m && workflow in m[op] then m[op][workflow] else Undefined
  }

  /** Reference: the value of the last assignment to (`op`, `workflow`), or `d`. */
  function LastLink(links: seq<Link>, op: string, workflow: string, d: Json): Json
    decreases |links|
  {
    if links == [] then d
    else
      var l := links[|links| - 1];
      if l.operation == op && l.workflow == workflow then l.next
      else LastLink(links[..|links| - 1], op, workflow, d)
  }

  lemma {:induction false} LastLinkFront(links: seq<Link>, op: string, workflow: string, d: Json)
    requires links != []
    ensures LastLink(links, op, workflow, d)
         == LastLink(links[1..], op, workflow,
                     if links[0].operation == op && links[0].workflow == workflow then links[0].next else d)
    decreases |links|
  {
    var l := links[|links| - 1];
    if |links| > 1 && !(l.operation == op && l.workflow == workflow) {
      LastLinkFront(links[..|links| - 1], op, workflow, d);
      assert links[..|links| - 1][1..] == links[1..][..|links[1..]| - 1];
    }
  }

  /** The map keeps, for every pair of keys, the last value assigned. */
  lemma {:induction false} AssignLastWins(m: OperationsMap, links: seq<Link>, op: string, workflow: string)
    ensures Linked(Assign(m, links), op, workflow) == LastLink(links, op, workflow, Linked(m, op, workflow))
    decreases |links|
  {
    if links != [] {
      var m' := Put(m, links[0]);
      AssignLastWins(m', links[1..], op, workflow);
      LastLinkFront(links, op, workflow, Linked(m, op, workflow));
    }
  }

  // ---------------------------------------------------------------------
  // converters: the group

  /** One group of the plugin: its filters, defaults and replacement documents. */
  datatype Group = Group(filters: seq<Filter>, defaults: Json, convertWith: seq<Json>)

  const DefaultTimeout := Obj([Member("data", Num(60)), Member("type", Str("raw"))])

  /** The operation a rewritten selector names: the key the metadata links
      to (`config.key`, `workflow`) when truthy, else a new name. */
  function TargetOf(m: OperationsMap, configKey: string, workflow: Json, uuid: string): Json {
    var linked := Linked(m, configKey, ToDisplayString(workflow));
    if Truthy(linked) then linked else Str(uuid + NotificationSuffix)
  }

  /** `{workflow: selector.workflow, operation: …}` for every selector, in order. */
  function RewriteSelectors(m: OperationsMap, configKey: string, sels: seq<Json>, uuid: nat -> string, from: nat)
    : (r: Result<seq<Json>>)
    ensures r.Ok? ==> |r.value| == |sels|
    ensures r.Ok? <==> forall i :: 0 <= i < |sels| ==> !Nullish(sels[i])
    decreases |sels|
  {
    if sels == [] then Ok([])
    else
      var workflow :- Field(sels[0], "workflow");
      var sel := Obj([Member("workflow", workflow), Member("operation", TargetOf(m, configKey, workflow, uuid(from)))]);
      var rest :- RewriteSelectors(m, configKey, sels[1..], uuid, from + 1);
      assert forall i :: 1 <= i < |sels| ==> sels[i] == sels[1..][i - 1];
      Ok([sel] + rest)
  }

  /** `baseOperation`: the configuration with its payload reduced to the
      content, the rewritten selectors, and empty output and redis. */
  function BaseOperation(config: Json, selectors: seq<Json>): Json {
    Obj(AssignAll([], OwnEntries(config) + BaseOverrides(config, selectors)))
  }

  function BaseOverrides(config: Json, selectors: seq<Json>): seq<Member> {
    [Member("payload", Obj([Member("content", Or(Nested(config, "payload", "content"), Str("")))])),
     Member("next_operation", Obj([Member("selector", Arr(selectors))])),
     Member("output", Obj([])),
     Member("redis", Obj([]))]
  }

  /** An object literal with the given keys and values, in order. */
  function Literal(keys: seq<string>, values: seq<Json>): Json
    requires |keys| == |values|
  {
    Obj(seq(|keys|, i requires 0 <= i < |keys| => Member(keys[i], values[i])))
  }

  const NotificationKeys: seq<string> :=
    ["type", "selector", "is_root", "next_operation", "on_error", "output", "input", "redis", "payload", "key"]

  /** The notification document pushed for one rewritten selector. */
  function NotificationOperation(config: Json, selector: Json): Json {
    Literal(NotificationKeys, NotificationValues(config, selector))
  }

  function NotificationValues(config: Json, selector: Json): (r: seq<Json>)
    ensures |r| == |NotificationKeys|
  {
    [Str("Operation"),
     Literal(SelectorKeys, SelectorValues(config)),
     Bool(false),
     Or(Get(config, "next_operation"), Obj([])),
     Or(Get(config, "on_error"), Obj([])),
     Or(Get(config, "output"), Obj([])),
     Obj([]),
     Or(Get(config, "redis"), Obj([])),
     Obj([Member("timeout", Or(Get(config, "timeout"), DefaultTimeout))]),
     Get(selector, "operation")]
  }

  const SelectorKeys: seq<string> := ["app", "app_action", "workflow"]

  function SelectorValues(config: Json): (r: seq<Json>)
    ensures |r| == |SelectorKeys|
  {
    [Str("clara"), Str("get_notification"), Or(Nested(config, "selector", "workflow"), Arr([]))]
  }

  /** One notification document per rewritten selector, in order. */
  function Notifications(config: Json, selectors: seq<Json>): (r: seq<Json>)
    ensures |r| == |selectors|
  {
    seq(|selectors|, i requires 0 <= i < |selectors| => NotificationOperation(config, selectors[i]))
  }

  /** The group built around the rewritten selectors. */
  function GroupOf(config: Json, selectors: seq<Json>): Group {
    Group(GroupFilters(config), Obj([Member("timeout", DefaultTimeout)]),
          [BaseOperation(config, selectors)] + Notifications(config, selectors))
  }

  function GroupFilters(config: Json): seq<Filter> {
    [Filter(Or(Nested(config, "selector", "app_action"), Str("")), "==", Str(SendMessage)),
     Filter(Or(Nested(config, "output", "operation_type"), Str("")), "!=", Str(DropSession))]
  }

  /** The selectors of `config` rewritten against the metadata's operations map. */
  function Rewritten(config: Json, metadata: Json, uuid: nat -> string): (r: Result<seq<Json>>)
    ensures r.Ok? ==> SelectorList(config).Arr? && |r.value| == |SelectorList(config).items|
  {
    var links :- MetadataLinks(metadata);
    var list := SelectorList(config);
    if !list.Arr? then Err(TypeError)
    else RewriteSelectors(Assign(map[], links), ToDisplayString(Get(config, "key")), list.items, uuid, 0)
  }

  /** The converters list applied to a configuration: exactly one group, with
      one document more than the configuration has selectors. */
  function Converters(config: Json, metadata: Json, uuid: nat -> string): (r: Result<seq<Group>>)
    ensures r.Ok? ==> |r.value| == 1
    ensures r.Ok? ==> SelectorList(config).Arr? && |r.value[0].convertWith| == 1 + |SelectorList(config).items|
  {
    var selectors :- Rewritten(config, metadata, uuid);
    Ok([GroupOf(config, selectors)])
  }

  /** `(config.next_operation || {}).selector || []`; anything but an array
      has no `map` and throws. */
  function SelectorList(config: Json): Json {
    Or(Nested(config, "next_operation", "selector"), Arr([]))
  }

  // ---------------------------------------------------------------------
  // destructGroups

  /** `groups.find((g) => …)`: the first selected group; a throwing
      selection ends the search. */
  function FindGroup(reading: Reading, groups: seq<Group>): Result<Option<Group>>
    decreases |groups|
  {
    if groups == [] then Ok(None)
    else
      var hit :- Selects(reading, groups[0].filters);
      if hit then Ok(Some(groups[0])) else FindGroup(reading, groups[1..])
  }

  /** `destructOperations(doc, metadata)`: the selected group's documents,
      else the document itself. */
  function DestructOperations(reading: Reading, doc: Json, metadata: Json, uuid: nat -> string): Result<seq<Json>> {
    var groups :- Converters(doc, metadata, uuid);
    var g :- FindGroup(reading, groups);
    if g.Some? then Ok(g.value.convertWith) else Ok([doc])
  }

  predicate IsOperation(doc: Json) {
    StrictEquals(Get(doc, "type"), Str("Operation"))
  }

  /** What `flatMap` takes from one document: an Operation is destructed,
      any other document is returned, and an array result is spliced. */
  function ExpandDoc(reading: Reading, doc: Json, metadata: Json, uuid: nat -> string): Result<seq<Json>> {
    if Nullish(doc) then Err(TypeError)
    else if IsOperation(doc) then DestructOperations(reading, doc, metadata, uuid)
    else if doc.Arr? then Ok(doc.items)
    else Ok([doc])
  }

  /** `yamlData.flatMap(…)` from position `from` on; document `i` draws its
      uuid names from `uuid(i, _)`. */
  function ExpandDocs(reading: Reading, docs: seq<Json>, metadata: Json, uuid: (nat, nat) -> string, from: nat)
    : Result<seq<Json>>
    decreases |docs|
  {
    if docs == [] then Ok([])
    else
      var first :- ExpandDoc(reading, docs[0], metadata, (j: nat) => uuid(from, j));
      var rest :- ExpandDocs(reading, docs[1..], metadata, uuid, from + 1);
      Ok(first + rest)
  }

  /** `destructGroups(payload, metadata)`: the payload with `yamlData`
      replaced by the expanded documents. */
  function DestructGroups(reading: Reading, payload: Json, metadata: Json, uuid: (nat, nat) -> string): (r: Result<Json>)
    ensures !Nullish(payload) && !Truthy(Get(payload, "yamlData")) ==> r == Err(MissingPayload)
    ensures r.Ok? ==> Get(payload, "yamlData").Arr? && r.value.Obj? == payload.Obj?
  {
    var data :- Field(payload, "yamlData");
    if !Truthy(data) then Err(MissingPayload)
    else if !data.Arr? then Err(TypeError)
    else
      var docs :- ExpandDocs(reading, data.items, metadata, uuid, 0);
      SetProp(payload, "yamlData", Arr(docs))
  }

  // ---------------------------------------------------------------------
  // Properties of the group.

  /** A member is read from a literal object when no earlier member has its key. */
  lemma GetAt(ms: seq<Member>, i: nat)
    requires i < |ms| && forall j :: 0 <= j < i ==> ms[j].key != ms[i].key
    ensures Get(Obj(ms), ms[i].key) == ms[i].value
  {
    FindMemberFirst(ms, ms[i].key, i);
  }

  /** Entries after the last one with the key do not change its value. */
  lemma {:induction false} LastValueSkip(a: seq<Member>, b: seq<Member>, k: string, d: Json)
    requires forall j :: 0 <= j < |b| ==> b[j].key != k
    ensures ConfigUtils.LastValue(a + b, k, d) == ConfigUtils.LastValue(a, k, d)
    decreases |b|
  {
    if b == [] {
      assert a + b == a;
    } else {
      var b' := b[..|b| - 1];
      assert (a + b)[..|a + b| - 1] == a + b';
      LastValueSkip(a, b', k, d);
    }
  }

  /** Over distinct keys, the last value with a key is the one `Get` reads. */
  lemma LastValueIsGet(ms: seq<Member>, k: string)
    requires DistinctKeys(ms)
    ensures ConfigUtils.LastValue(ms, k, Undefined) == Get(Obj(ms), k)
  {
    match FindMember(ms, k)
    case Some(i) => ConfigUtils.LastValueIsLast(ms, k, Undefined, i);
    case None => ConfigUtils.LastValueNone(ms, k, Undefined);
  }

  predicate Overridden(k: string) {
    k == "payload" || k == "next_operation" || k == "output" || k == "redis"
  }

  /** `baseOperation` replaces four fields of the configuration: the payload
      keeps only its content (default ""), the selectors are the rewritten
      ones, and output and redis are emptied. */
  lemma BaseOperationOverrides(config: Json, selectors: seq<Json>)
    ensures Get(BaseOperation(config, selectors), "payload")
         == Obj([Member("content", Or(Nested(config, "payload", "content"), Str("")))])
    ensures Get(BaseOperation(config, selectors), "next_operation") == Obj([Member("selector", Arr(selectors))])
    ensures Get(BaseOperation(config, selectors), "output") == Obj([])
    ensures Get(BaseOperation(config, selectors), "redis") == Obj([])
  {
    var es := OwnEntries(config);
    var os := BaseOverrides(config, selectors);
    OverrideRead(es, os, 0);
    OverrideRead(es, os, 1);
    OverrideRead(es, os, 2);
    OverrideRead(es, os, 3);
  }

  /** The last of the appended members wins a read. */
  lemma OverrideRead(es: seq<Member>, os: seq<Member>, j: nat)
    requires j < |os| && forall i :: j < i < |os| ==> os[i].key != os[j].key
    ensures Get(Obj(AssignAll([], es + os)), os[j].key) == os[j].value
  {
    var all := es + os;
    ConfigUtils.GetAssignAll([], all, os[j].key);
    assert all[|es| + j] == os[j];
    ConfigUtils.LastValueIsLast(all, os[j].key, Get(Obj([]), os[j].key), |es| + j);
  }

  /** Every other field of the configuration is copied: the last value the
      configuration gives the key, which for an object with distinct keys is
      the value it holds. */
  lemma BaseOperationCopies(config: Json, selectors: seq<Json>, k: string)
    requires !Overridden(k)
    ensures Get(BaseOperation(config, selectors), k) == ConfigUtils.LastValue(OwnEntries(config), k, Undefined)
    ensures config.Obj? && DistinctKeys(config.members) ==> Get(BaseOperation(config, selectors), k) == Get(config, k)
  {
    var es := OwnEntries(config);
    var os := BaseOverrides(config, selectors);
    ConfigUtils.GetAssignAll([], es + os, k);
    LastValueSkip(es, os, k, Undefined);
    if config.Obj? && DistinctKeys(config.members) {
      LastValueIsGet(config.members, k);
    }
  }

  /** A member of a literal is read back when no earlier key equals its key. */
  lemma GetLiteral(keys: seq<string>, values: seq<Json>, i: nat)
    requires |keys| == |values| && i < |keys|
    requires forall j :: 0 <= j < i ==> keys[j] != keys[i]
    ensures Get(Literal(keys, values), keys[i]) == values[i]
  {
    var ms := Literal(keys, values).members;
    assert ms[i] == Member(keys[i], values[i]);
    assert forall j :: 0 <= j < i ==> ms[j].key == keys[j];
    GetAt(ms, i);
  }

  /** Reading the fields of a notification document with any values. */
  lemma NotificationRead(values: seq<Json>)
    requires |values| == |NotificationKeys|
    ensures Get(Literal(NotificationKeys, values), "type") == values[0]
    ensures Get(Literal(NotificationKeys, values), "selector") == values[1]
    ensures Get(Literal(NotificationKeys, values), "is_root") == values[2]
    ensures Get(Literal(NotificationKeys, values), "payload") == values[8]
    ensures Get(Literal(NotificationKeys, values), "key") == values[9]
  {
    GetLiteral(NotificationKeys, values, 0);
    GetLiteral(NotificationKeys, values, 1);
    GetLiteral(NotificationKeys, values, 2);
    GetLiteral(NotificationKeys, values, 8);
    GetLiteral(NotificationKeys, values, 9);
  }

  lemma SelectorRead(values: seq<Json>)
    requires |values| == |SelectorKeys|
    ensures Get(Literal(SelectorKeys, values), "app") == values[0]
    ensures Get(Literal(SelectorKeys, values), "app_action") == values[1]
  {
    GetLiteral(SelectorKeys, values, 0);
    GetLiteral(SelectorKeys, values, 1);
  }

  /** The notification document carries the selector's operation as its key
      and is not a root. */
  lemma NotificationFields(config: Json, selector: Json)
    ensures Get(NotificationOperation(config, selector), "key") == Get(selector, "operation")
    ensures Get(NotificationOperation(config, selector), "type") == Str("Operation")
    ensures Get(NotificationOperation(config, selector), "is_root") == Bool(false)
  {
    NotificationRead(NotificationValues(config, selector));
  }

  /** The notification document calls clara's get_notification and waits for
      the configured timeout, or 60 by default. */
  lemma NotificationCall(config: Json, selector: Json)
    ensures Get(Get(NotificationOperation(config, selector), "selector"), "app") == Str("clara")
    ensures Get(Get(NotificationOperation(config, selector), "selector"), "app_action") == Str("get_notification")
    ensures Get(Get(NotificationOperation(config, selector), "payload"), "timeout") == Or(Get(config, "timeout"), DefaultTimeout)
  {
    NotificationRead(NotificationValues(config, selector));
    NotificationParts(config, selector);
    SelectorRead(SelectorValues(config));
    GetSingle(Member("timeout", Or(Get(config, "timeout"), DefaultTimeout)), "timeout");
  }

  lemma NotificationParts(config: Json, selector: Json)
    ensures NotificationValues(config, selector)[1] == Literal(SelectorKeys, SelectorValues(config))
    ensures NotificationValues(config, selector)[8] == Obj([Member("timeout", Or(Get(config, "timeout"), DefaultTimeout))])
  {
  }

  /** The `i`-th rewritten selector keeps the workflow and names the target operation. */
  lemma {:induction false} RewrittenSelector(m: OperationsMap, configKey: string, sels: seq<Json>, uuid: nat -> string, from: nat, i: nat)
    requires RewriteSelectors(m, configKey, sels, uuid, from).Ok? && i < |sels|
    ensures Get(RewriteSelectors(m, configKey, sels, uuid, from).value[i], "workflow") == Get(sels[i], "workflow")
    ensures Get(RewriteSelectors(m, configKey, sels, uuid, from).value[i], "operation")
         == TargetOf(m, configKey, Get(sels[i], "workflow"), uuid(from + i))
    decreases i
  {
    var r := RewriteSelectors(m, configKey, sels, uuid, from).value;
    var rest := RewriteSelectors(m, configKey, sels[1..], uuid, from + 1);
    assert rest.Ok? && r == [r[0]] + rest.value;
    if i == 0 {
      var workflow := Get(sels[0], "workflow");
      var sel := Obj([Member("workflow", workflow), Member("operation", TargetOf(m, configKey, workflow, uuid(from)))]);
      assert r[0] == sel;
      GetPair(sel.members[0], sel.members[1], "workflow");
      GetPair(sel.members[0], sel.members[1], "operation");
    } else {
      RewrittenSelector(m, configKey, sels[1..], uuid, from + 1, i - 1);
      assert r[i] == rest.value[i - 1];
    }
  }

  /** The operation the `i`-th notification document is keyed by, from the
      metadata's assignments: the last key linked to (`config.key`, workflow)
      when truthy, else `<uuid>_get_notification`. */
  function SelectorTarget(links: seq<Link>, configKey: string, workflow: Json, name: string): Json {
    var linked := LastLink(links, configKey, ToDisplayString(workflow), Undefined);
    if Truthy(linked) then linked else Str(name + NotificationSuffix)
  }

  /** The group's extra documents, one per selector in order, are keyed by the
      operation the metadata already links to the selector's workflow, or by a
      new notification name. */
  lemma ConvertersExtras(config: Json, metadata: Json, uuid: nat -> string, i: nat)
    requires Converters(config, metadata, uuid).Ok? && i < |SelectorList(config).items|
    ensures Get(Converters(config, metadata, uuid).value[0].convertWith[1 + i], "key")
         == SelectorTarget(MetadataLinks(metadata).value, ToDisplayString(Get(config, "key")),
                           Get(SelectorList(config).items[i], "workflow"), uuid(i))
    ensures Get(Converters(config, metadata, uuid).value[0].convertWith[1 + i], "is_root") == Bool(false)
  {
    ConvertersGroupOf(config, metadata, uuid);
    var sels := Rewritten(config, metadata, uuid).value;
    GroupOfNotification(config, sels, i);
    NotificationFields(config, sels[i]);
    RewrittenIs(config, metadata, uuid);
    LinkedTarget(MetadataLinks(metadata).value, ToDisplayString(Get(config, "key")), SelectorList(config).items, uuid, i);
  }

  lemma ConvertersGroupOf(config: Json, metadata: Json, uuid: nat -> string)
    requires Converters(config, metadata, uuid).Ok?
    ensures Rewritten(config, metadata, uuid).Ok?
    ensures Converters(config, metadata, uuid).value[0] == GroupOf(config, Rewritten(config, metadata, uuid).value)
  {
  }

  lemma RewrittenIs(config: Json, metadata: Json, uuid: nat -> string)
    requires Rewritten(config, metadata, uuid).Ok?
    ensures MetadataLinks(metadata).Ok? && SelectorList(config).Arr?
    ensures Rewritten(config, metadata, uuid)
         == RewriteSelectors(Assign(map[], MetadataLinks(metadata).value), ToDisplayString(Get(config, "key")),
                             SelectorList(config).items, uuid, 0)
  {
  }

  lemma GroupOfNotification(config: Json, sels: seq<Json>, i: nat)
    requires i < |sels|
    ensures GroupOf(config, sels).convertWith[1 + i] == NotificationOperation(config, sels[i])
  {
    var ns := Notifications(config, sels);
    assert ([BaseOperation(config, sels)] + ns)[1 + i] == ns[i];
  }

  /** The operation the `i`-th rewritten selector names, read from the
      assignments the operations map was built from. */
  lemma LinkedTarget(links: seq<Link>, key: string, sels: seq<Json>, uuid: nat -> string, i: nat)
    requires RewriteSelectors(Assign(map[], links), key, sels, uuid, 0).Ok? && i < |sels|
    ensures Get(RewriteSelectors(Assign(map[], links), key, sels, uuid, 0).value[i], "operation")
         == SelectorTarget(links, key, Get(sels[i], "workflow"), uuid(i))
  {
    var m := Assign(map[], links);
    var workflow := Get(sels[i], "workflow");
    RewrittenSelector(m, key, sels, uuid, 0, i);
    AssignLastWins(map[], links, key, ToDisplayString(workflow));
  }

  /** The group's first document is `baseOperation` over the rewritten selectors. */
  lemma ConvertersBase(config: Json, metadata: Json, uuid: nat -> string)
    requires Converters(config, metadata, uuid).Ok?
    ensures Converters(config, metadata, uuid).value[0].convertWith[0]
         == BaseOperation(config, Rewritten(config, metadata, uuid).value)
  {
    ConvertersGroupOf(config, metadata, uuid);
  }

  // ---------------------------------------------------------------------
  // Which Operation documents are replaced.

  /** `(doc.selector || {}).app_action || ""` is "send_message". */
  predicate SendsMessage(doc: Json) {
    StrictEquals(Or(Nested(doc, "selector", "app_action"), Str("")), Str(SendMessage))
  }

  /** `(doc.output || {}).operation_type || ""` is "drop_session". */
  predicate DropsSession(doc: Json) {
    StrictEquals(Or(Nested(doc, "output", "operation_type"), Str("")), Str(DropSession))
  }

  /** Whether the group replaces `doc` under each reading of its filters. */
  predicate Replaced(reading: Reading, doc: Json) {
    match reading
    case AsWritten => SendsMessage(doc)
    case Corrected => SendsMessage(doc) && !DropsSession(doc)
  }

  lemma GroupSelects(reading: Reading, doc: Json)
    ensures Selects(reading, GroupFilters(doc)) == Ok(Replaced(reading, doc))
  {
    var fs := GroupFilters(doc);
    assert fs == [fs[0], fs[1]];
    match reading
    case AsWritten =>
      ReduceTwo(fs[0], fs[1]);
    case Corrected =>
      EveryTwo(fs[0], fs[1]);
  }

  lemma EveryTwo(f: Filter, g: Filter)
    requires f.condition == "==" && g.condition == "!="
    ensures EveryFilter([f, g]) == Ok(StrictEquals(f.left, f.right) && !StrictEquals(g.left, g.right))
  {
    assert [f, g][1..] == [g];
    assert [g][1..] == [];
    assert CheckFilter(g) == Ok(!StrictEquals(g.left, g.right));
    assert EveryFilter([g]) == Ok(!StrictEquals(g.left, g.right));
  }

  /** An Operation document is replaced by the group's documents exactly when
      the reading of its filters selects it, and kept otherwise. */
  lemma DestructOperationsChoice(reading: Reading, doc: Json, metadata: Json, uuid: nat -> string)
    requires Converters(doc, metadata, uuid).Ok?
    ensures DestructOperations(reading, doc, metadata, uuid)
         == Ok(if Replaced(reading, doc) then Converters(doc, metadata, uuid).value[0].convertWith else [doc])
  {
    var g := Converters(doc, metadata, uuid).value[0];
    assert Converters(doc, metadata, uuid).value == [g];
    assert g.filters == GroupFilters(doc);
    GroupSelects(reading, doc);
    FindSingle(reading, g, Replaced(reading, doc));
  }

  /** Searching a single group finds it exactly when it is selected. */
  lemma FindSingle(reading: Reading, g: Group, hit: bool)
    requires Selects(reading, g.filters) == Ok(hit)
    ensures FindGroup(reading, [g]) == Ok(if hit then Some(g) else None)
  {
    assert [g][1..] == [];
  }

  /** As written, a "send_message" operation whose output type is
      "drop_session" is still replaced; the intended reading keeps it. */
  lemma DropSessionReplaced(doc: Json, metadata: Json, uuid: nat -> string)
    requires Converters(doc, metadata, uuid).Ok? && SendsMessage(doc) && DropsSession(doc)
    ensures DestructOperations(AsWritten, doc, metadata, uuid) == Ok(Converters(doc, metadata, uuid).value[0].convertWith)
    ensures DestructOperations(Corrected, doc, metadata, uuid) == Ok([doc])
    ensures DestructOperations(AsWritten, doc, metadata, uuid) != DestructOperations(Corrected, doc, metadata, uuid)
  {
    DestructOperationsChoice(AsWritten, doc, metadata, uuid);
    DestructOperationsChoice(Corrected, doc, metadata, uuid);
    var cw := Converters(doc, metadata, uuid).value[0].convertWith;
    assert Get(cw[0], "output") == Obj([]) by {
      ConvertersBase(doc, metadata, uuid);
      BaseOperationOverrides(doc, Rewritten(doc, metadata, uuid).value);
    }
    EmptyOutputKept(doc);
  }

  /** A document whose output is `{}` has no "drop_session" operation type. */
  lemma EmptyOutputKept(doc: Json)
    ensures Get(doc, "output") == Obj([]) ==> !DropsSession(doc)
  {
    if Get(doc, "output") == Obj([]) {
      assert Nested(doc, "output", "operation_type") == Undefined;
      assert |DropSession| != 0;
    }
  }

  // ---------------------------------------------------------------------
  // Properties of the document expansion.

  /** The expansion of a concatenation is the concatenation of the expansions. */
  lemma {:induction false} ExpandDocsAppend(reading: Reading, a: seq<Json>, b: seq<Json>, metadata: Json, uuid: (nat, nat) -> string, from: nat)
    ensures ExpandDocs(reading, a + b, metadata, uuid, from)
         == (match ExpandDocs(reading, a, metadata, uuid, from)
             case Err(e) => Err(e)
             case Ok(x) =>
               match ExpandDocs(reading, b, metadata, uuid, from + |a|)
               case Err(e) => Err(e)
               case Ok(y) => Ok(x + y))
    decreases |a|
  {
    if a == [] {
      assert a + b == b;
      match ExpandDocs(reading, b, metadata, uuid, from)
      case Err(_) =>
      case Ok(y) => assert [] + y == y;
    } else {
      assert (a + b)[0] == a[0] && (a + b)[1..] == a[1..] + b;
      ExpandDocsAppend(reading, a[1..], b, metadata, uuid, from + 1);
      match ExpandDoc(reading, a[0], metadata, (j: nat) => uuid(from, j))
      case Err(_) =>
      case Ok(x0) =>
        match ExpandDocs(reading, a[1..], metadata, uuid, from + 1)
        case Err(_) =>
        case Ok(x1) =>
          match ExpandDocs(reading, b, metadata, uuid, from + |a|)
          case Err(_) =>
          case Ok(y) => assert x0 + (x1 + y) == (x0 + x1) + y;
    }
  }

  /** Documents that are neither Operations nor arrays pass through unchanged and in order. */
  lemma {:induction false} PlainDocsKept(reading: Reading, docs: seq<Json>, metadata: Json, uuid: (nat, nat) -> string, from: nat)
    requires forall i :: 0 <= i < |docs| ==> !Nullish(docs[i]) && !IsOperation(docs[i]) && !docs[i].Arr?
    ensures ExpandDocs(reading, docs, metadata, uuid, from) == Ok(docs)
    decreases |docs|
  {
    if docs != [] {
      PlainDocsKept(reading, docs[1..], metadata, uuid, from + 1);
      assert [docs[0]] + docs[1..] == docs;
    }
  }

  /** A successful destructuring rewrites `yamlData` to the expanded documents
      and leaves every other field of the payload as it was. */
  lemma DestructGroupsFields(reading: Reading, payload: Json, metadata: Json, uuid: (nat, nat) -> string, k: string)
    requires payload.Obj? && DestructGroups(reading, payload, metadata, uuid).Ok?
    ensures Get(DestructGroups(reading, payload, metadata, uuid).value, "yamlData")
         == Arr(ExpandDocs(reading, Get(payload, "yamlData").items, metadata, uuid, 0).value)
    ensures k != "yamlData" ==> Get(DestructGroups(reading, payload, metadata, uuid).value, k) == Get(payload, k)
  {
    var docs := ExpandDocs(reading, Get(payload, "yamlData").items, metadata, uuid, 0).value;
    LookupAfterSetMember(payload.members, "yamlData", Arr(docs), "yamlData");
    LookupAfterSetMember(payload.members, "yamlData", Arr(docs), k);
  }
}

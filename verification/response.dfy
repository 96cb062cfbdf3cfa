/** The response formatters: lib/formatters/response.js, which replaces every
    nested `google.protobuf.Value` in a response by the JSON it encodes, and
    the older lib/utils/response.js, which decodes only a top-level struct.
    Both decode with `valueProtoToJson` (`ProtoValue.Decode`) and share the
    list and endpoint dispatch, parameterised here by the value formatter. */
module Response {
  import opened Wrappers
  import opened Js
  import opened ProtoValue

  /** `kind && TYPES.includes(kind)`: one of the six kind names. */
  predicate IsProtoKind(kind: Json) {
    kind.Str? && kind.s in Kinds
  }

  // ---------------------------------------------------------------------
  // Deep formatting (lib/formatters/response.js).

  /** One turn of `formatValue`'s key loop on the value `child` of a key:
      reading `child.kind` throws on null and undefined; a recognised kind
      is decoded; an object-typed result is formatted in turn. */
  function FormatEntry(child: Json): (r: Result<Json>)
    ensures Nullish(child) ==> r.Err?
    ensures r.Ok? ==> Depth(r.value) <= Depth(child)
    decreases Depth(child), 2
  {
    if Nullish(child) then Err(TypeError)
    else
      var decoded :- if IsProtoKind(Get(child, "kind")) then Decode(child) else Ok(child);
      if IsObjectType(decoded) then FormatValue(decoded) else Ok(decoded)
  }

  /** `formatValue(payload)`: `Object.keys(payload || {})`, each key's value
      formatted in turn, the same value returned. Falsy values, numbers and
      booleans have no keys, and the characters of a string have no `kind`,
      so those come back unchanged. */
  function FormatValue(payload: Json): (r: Result<Json>)
    ensures r.Ok? ==> Depth(r.value) <= Depth(payload)
    ensures !payload.Obj? && !payload.Arr? ==> r == Ok(payload)
    ensures r.Ok? ==> (r.value.Obj? <==> payload.Obj?) && (r.value.Arr? <==> payload.Arr?)
    ensures r.Ok? && payload.Obj? ==> MemberKeys(r.value.members) == MemberKeys(payload.members)
    ensures r.Ok? && payload.Arr? ==> |r.value.items| == |payload.items|
    decreases Depth(payload), 1
  {
    match payload
    case Obj(ms) =>
      MembersBelowObj(ms);
      var ms' :- FormatMembers(ms, Depth(payload));
      DepthMembersBound(ms', Depth(payload) - 1);
      Ok(Obj(ms'))
    case Arr(items) =>
      ItemsBelowArr(items);
      var items' :- FormatItems(items, Depth(payload));
      DepthItemsBound(items', Depth(payload) - 1);
      Ok(Arr(items'))
    case _ => Ok(payload)
  }

  function FormatMembers(ms: seq<Member>, bound: nat): (r: Result<seq<Member>>)
    requires MembersBelow(ms, bound)
    ensures r.Ok? ==> MembersBelow(r.value, bound) && MemberKeys(r.value) == MemberKeys(ms)
    decreases bound, 0, |ms|
  {
    if ms == [] then Ok([])
    else
      var v :- FormatEntry(ms[0].value);
      var rest :- FormatMembers(ms[1..], bound);
      var r := [Member(ms[0].key, v)] + rest;
      assert forall i :: 1 <= i < |r| ==> r[i] == rest[i - 1];
      Ok(r)
  }

  function FormatItems(items: seq<Json>, bound: nat): (r: Result<seq<Json>>)
    requires ItemsBelow(items, bound)
    ensures r.Ok? ==> ItemsBelow(r.value, bound) && |r.value| == |items|
    decreases bound, 0, |items|
  {
    if items == [] then Ok([])
    else
      var v :- FormatEntry(items[0]);
      var rest :- FormatItems(items[1..], bound);
      Ok([v] + rest)
  }

  // ---------------------------------------------------------------------
  // Top-level formatting (lib/utils/response.js).

  /** `formatValue(payload)` of the older client: `payload.kind` throws on
      null and undefined; a struct-kinded payload is `structProtoToJson` of its
      `structValue`, which is what decoding it as a value does; anything else
      is returned as it is. */
  function TopFormatValue(payload: Json): (r: Result<Json>)
    ensures Nullish(payload) ==> r.Err?
    ensures !Nullish(payload) && Get(payload, "kind") != Str(StructKind) ==> r == Ok(payload)
    ensures Get(payload, "kind") == Str(StructKind) && r.Ok? ==> r.value.Obj?
  {
    if Nullish(payload) then Err(TypeError)
    else if Get(payload, "kind") == Str(StructKind) then Decode(payload)
    else Ok(payload)
  }

  // ---------------------------------------------------------------------
  // Lists and endpoint dispatch (both files).

  /** `formatList(payload)`: `Object.values` throws on null and undefined;
      when the first value is an array, the result has only the first key,
      holding that array with every element formatted; otherwise the payload
      is returned as it is. */
  function FormatList(payload: Json, format: Json -> Result<Json>): (r: Result<Json>)
    ensures Nullish(payload) ==> r.Err?
    ensures !Nullish(payload) && (OwnEntries(payload) == [] || !OwnEntries(payload)[0].value.Arr?) ==> r == Ok(payload)
    ensures !Nullish(payload) && OwnEntries(payload) != [] && OwnEntries(payload)[0].value.Arr? ==>
      var first := OwnEntries(payload)[0];
      (r.Ok? <==> forall i :: 0 <= i < |first.value.items| ==> format(first.value.items[i]).Ok?) &&
      (r.Ok? ==> r.value.Obj? && MemberKeys(r.value.members) == [first.key] &&
                 r.value.members[0].value.Arr? && |r.value.members[0].value.items| == |first.value.items|)
  {
    if Nullish(payload) then Err(TypeError)
    else
      var entries := OwnEntries(payload);
      if entries == [] || !entries[0].value.Arr? then Ok(payload)
      else
        var items :- MapResult(entries[0].value.items, format);
        Ok(Obj([Member(entries[0].key, Arr(items))]))
  }

  /** The endpoints whose responses carry one value. */
  const ValueEndpoints: seq<string> := ["get", "create", "delete", "update"]

  /** `protoRequestToJson(payload, endpointOriginalName)` and the older
      `formatResponse(payload, endpointName)`: "list" goes to `formatList`,
      get/create/delete/update to `formatValue`, anything else is returned as is. */
  function Dispatch(payload: Json, endpoint: string, format: Json -> Result<Json>): (r: Result<Json>)
    ensures endpoint == "list" ==> r == FormatList(payload, format)
    ensures endpoint != "list" && endpoint !in ValueEndpoints ==> r == Ok(payload)
    ensures endpoint in ValueEndpoints ==> r == format(payload)
  {
    if endpoint == "list" then FormatList(payload, format)
    else if endpoint in ValueEndpoints then format(payload)
    else Ok(payload)
  }

  function ProtoRequestToJson(payload: Json, endpoint: string): Result<Json> {
    Dispatch(payload, endpoint, FormatValue)
  }

  function LegacyFormatResponse(payload: Json, endpoint: string): Result<Json> {
    Dispatch(payload, endpoint, TopFormatValue)
  }

  // ---------------------------------------------------------------------
  // Properties.

  /** Data that `formatValue` leaves alone: below the top, no value is null or
      undefined and no object carries a recognised `kind`. */
  predicate Plain(v: Json)
    decreases v, 0
  {
    match v
    case Obj(ms) => forall i :: 0 <= i < |ms| ==> PlainChild(ms[i].value)
    case Arr(items) => forall i :: 0 <= i < |items| ==> PlainChild(items[i])
    case _ => true
  }

  predicate PlainChild(c: Json)
    decreases c, 1
  {
    !Nullish(c) && !IsProtoKind(Get(c, "kind")) && Plain(c)
  }

  lemma {:induction false} PlainUnchanged(v: Json)
    requires Plain(v)
    ensures FormatValue(v) == Ok(v)
    decreases v, 2
  {
    match v
    case Obj(ms) =>
      MembersBelowObj(ms);
      PlainMembersUnchanged(ms, Depth(v));
    case Arr(items) =>
      ItemsBelowArr(items);
      PlainItemsUnchanged(items, Depth(v));
    case _ =>
  }

  lemma {:induction false} PlainEntryUnchanged(c: Json)
    requires PlainChild(c)
    ensures FormatEntry(c) == Ok(c)
    decreases c, 3
  {
    if IsObjectType(c) {
      PlainUnchanged(c);
    }
  }

  lemma {:induction false} PlainMembersUnchanged(ms: seq<Member>, bound: nat)
    requires MembersBelow(ms, bound)
    requires forall i :: 0 <= i < |ms| ==> PlainChild(ms[i].value)
    ensures FormatMembers(ms, bound) == Ok(ms)
    decreases ms
  {
    if ms != [] {
      assert ms[0] in ms;
      PlainEntryUnchanged(ms[0].value);
      assert forall i :: 0 <= i < |ms| - 1 ==> ms[1..][i] == ms[i + 1];
      PlainMembersUnchanged(ms[1..], bound);
      assert [Member(ms[0].key, ms[0].value)] + ms[1..] == ms;
    }
  }

  lemma {:induction false} PlainItemsUnchanged(items: seq<Json>, bound: nat)
    requires ItemsBelow(items, bound)
    requires forall i :: 0 <= i < |items| ==> PlainChild(items[i])
    ensures FormatItems(items, bound) == Ok(items)
    decreases items
  {
    if items != [] {
      assert items[0] in items;
      PlainEntryUnchanged(items[0]);
      assert forall i :: 0 <= i < |items| - 1 ==> items[1..][i] == items[i + 1];
      PlainItemsUnchanged(items[1..], bound);
      assert [items[0]] + items[1..] == items;
    }
  }

  /** Every defined value's encoding names a recognised kind. */
  lemma EncodedKind(v: Json)
    requires !v.Undefined?
    ensures IsProtoKind(Get(Encode(v), "kind"))
  {
    var p := Encode(v);
    GetPair(p.members[0], p.members[1], "kind");
  }

  /** A field holding an encoded plain JSON value is formatted back to that value. */
  lemma EncodedEntryDecoded(v: Json)
    requires IsJsonValue(v) && Plain(v)
    ensures FormatEntry(Encode(v)) == Ok(v)
  {
    EncodedKind(v);
    RoundTrip(v);
    if IsObjectType(v) {
      PlainUnchanged(v);
    }
  }

  lemma {:induction false} EncodedMembersDecoded(ms: seq<Member>, bound: nat)
    requires forall i :: 0 <= i < |ms| ==> IsJsonValue(ms[i].value) && Plain(ms[i].value)
    requires MembersBelow(EncodeMembers(ms), bound)
    ensures FormatMembers(EncodeMembers(ms), bound) == Ok(ms)
    decreases |ms|
  {
    if ms != [] {
      var enc := EncodeMembers(ms);
      assert enc[0] == Member(ms[0].key, Encode(ms[0].value));
      assert enc[1..] == EncodeMembers(ms[1..]);
      EncodedEntryDecoded(ms[0].value);
      assert forall i :: 0 <= i < |ms| - 1 ==> ms[1..][i] == ms[i + 1];
      EncodedMembersDecoded(ms[1..], bound);
      assert [ms[0]] + ms[1..] == ms;
    }
  }

  /** A response whose fields are all `google.protobuf.Value` encodings of
      plain JSON values is formatted to the object of those values. */
  lemma ResponseRoundTrip(ms: seq<Member>)
    requires forall i :: 0 <= i < |ms| ==> IsJsonValue(ms[i].value) && Plain(ms[i].value)
    ensures FormatValue(Obj(EncodeMembers(ms))) == Ok(Obj(ms))
  {
    MembersBelowObj(EncodeMembers(ms));
    EncodedMembersDecoded(ms, Depth(Obj(EncodeMembers(ms))));
  }

  /** `formatValue`'s key loop, as written, over an object: the snapshot
      formulation above is the loop `payload[key] = ...` for every own key. */
  lemma {:induction false} FormatMembersMaps(ms: seq<Member>, bound: nat)
    requires MembersBelow(ms, bound)
    ensures FormatMembers(ms, bound) == MapValues(ms, FormatEntry)
    decreases |ms|
  {
    if ms != [] {
      assert forall i :: 0 <= i < |ms| - 1 ==> ms[1..][i] == ms[i + 1];
      FormatMembersMaps(ms[1..], bound);
    }
  }

  lemma FormatValueIsKeyLoop(ms: seq<Member>)
    requires DistinctKeys(ms)
    ensures FormatValue(Obj(ms)) == ForEachKey(Obj(ms), OwnKeys(Obj(ms)), FormatEntry)
  {
    MembersBelowObj(ms);
    FormatMembersMaps(ms, Depth(Obj(ms)));
    ForEachKeyMaps(ms, FormatEntry);
  }

  /** A null field nested inside a decoded struct makes the deep formatter throw. */
  lemma NestedNullThrows()
    ensures FormatValue(Obj([Member("user", Encode(Obj([Member("name", Null)])))])).Err?
  {
    var inner := Obj([Member("name", Null)]);
    RoundTrip(inner);
    EncodedKind(inner);
    var top := [Member("user", Encode(inner))];
    MembersBelowObj(top);
    FormatMembersMaps(top, Depth(Obj(top)));
    MembersBelowObj([Member("name", Null)]);
    FormatMembersMaps([Member("name", Null)], Depth(inner));
    assert FormatEntry(Encode(inner)).Err?;
  }

  /** A list response of encoded records keeps only its first key and formats
      every record back to plain JSON. */
  lemma ListRoundTrip(k: string, items: seq<Json>, out: seq<Json>, rest: seq<Member>, format: Json -> Result<Json>)
    requires |items| == |out|
    requires forall i :: 0 <= i < |items| ==> format(items[i]) == Ok(out[i])
    ensures FormatList(Obj([Member(k, Arr(items))] + rest), format) == Ok(Obj([Member(k, Arr(out))]))
  {
    var ms := [Member(k, Arr(items))] + rest;
    assert ms[0] == Member(k, Arr(items));
    var r := MapResult(items, format);
    assert r.Ok?;
    assert r.value == out;
  }

  /** The deep formatter decodes a value nested in a response; the older one
      only looks at the top level, so the same response comes back untouched. */
  lemma NestedValueOnlyInNewer(v: Json)
    requires IsJsonValue(v) && Plain(v)
    ensures ProtoRequestToJson(Obj([Member("user", Encode(v))]), "get") == Ok(Obj([Member("user", v)]))
    ensures LegacyFormatResponse(Obj([Member("user", Encode(v))]), "get") == Ok(Obj([Member("user", Encode(v))]))
  {
    ResponseRoundTrip([Member("user", v)]);
    assert EncodeMembers([Member("user", v)]) == [Member("user", Encode(v))];
    GetSingle(Member("user", Encode(v)), "kind");
  }

  /** The older top-level formatter inverts the encoding of an object. */
  lemma TopLevelRoundTrip(ms: seq<Member>)
    requires IsJsonValue(Obj(ms))
    ensures LegacyFormatResponse(Encode(Obj(ms)), "get") == Ok(Obj(ms))
  {
    RoundTrip(Obj(ms));
    EncodeObjShape(ms);
    GetPair(Member("kind", Str(StructKind)), Member(StructKind, Obj([Member("fields", Obj(EncodeMembers(ms)))])), "kind");
  }

  /** A null get response: the deep formatter returns it, the older one throws. */
  lemma NullResponse()
    ensures ProtoRequestToJson(Null, "get") == Ok(Null)
    ensures LegacyFormatResponse(Null, "get").Err?
  {
  }
}

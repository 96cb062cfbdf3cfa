/** The `google.protobuf.Value` / `Struct` encoding of JSON values as the
    client builds and reads it: a value becomes an object carrying a `kind`
    member naming the oneof case and a member of that name holding the payload.

    The same encoder is defined in lib/formatters/request.js,
    packages/cli/lib/formatters/request.js and lib/utils/request.js, and the
    same decoder in lib/formatters/response.js and lib/utils/response.js. */
module ProtoValue {
  import opened Wrappers
  import opened Js

  const NullKind := "nullValue"
  const ListKind := "listValue"
  const StructKind := "structValue"
  const NumberKind := "numberValue"
  const StringKind := "stringValue"
  const BoolKind := "boolValue"
  const NullEnum := "NULL_VALUE"

  /** The kinds whose payload is the primitive itself. */
  predicate IsSimpleKind(k: string) {
    k == NumberKind || k == StringKind || k == BoolKind
  }

  /** The six kind names a response formatter recognises. */
  const Kinds: seq<string> := [StructKind, ListKind, NullKind, NumberKind, BoolKind, StringKind]

  // ---------------------------------------------------------------------
  // Encoding.

  /** `jsonValueToProto`. Anything that is not null, an array, an object, a
      number, a string or a boolean (here: undefined) becomes `{}` without a kind. */
  function Encode(v: Json): (r: Json)
    ensures r.Obj?
    ensures v.Undefined? <==> r == Obj([])
    decreases v, 1
  {
    match v
    case Null => Obj([Member("kind", Str(NullKind)), Member(NullKind, Str(NullEnum))])
    case Arr(items) =>
      Obj([Member("kind", Str(ListKind)), Member(ListKind, Obj([Member("values", Arr(EncodeItems(items)))]))])
    case Obj(ms) => Obj([Member("kind", Str(StructKind)), Member(StructKind, EncodeStruct(ms))])
    case Num(_) => Obj([Member("kind", Str(NumberKind)), Member(NumberKind, v)])
    case Str(_) => Obj([Member("kind", Str(StringKind)), Member(StringKind, v)])
    case Bool(_) => Obj([Member("kind", Str(BoolKind)), Member(BoolKind, v)])
    case Undefined => Obj([])
  }

  /** `value.map(jsonValueToProto)` */
  function EncodeItems(items: seq<Json>): (r: seq<Json>)
    ensures |r| == |items|
    decreases items, 0
  {
    if items == [] then [] else [Encode(items[0])] + EncodeItems(items[1..])
  }

  /** `jsonToStructProto`: `{fields}` where `fields[k]` is assigned for every key in for-in order. */
  function EncodeStruct(ms: seq<Member>): Json
    decreases ms, 1
  {
    Obj([Member("fields", Obj(EncodeFields(ms, [])))])
  }

  function EncodeFields(ms: seq<Member>, acc: seq<Member>): seq<Member>
    decreases ms, 0
  {
    if ms == [] then acc
    else EncodeFields(ms[1..], SetMember(acc, ms[0].key, Encode(ms[0].value)))
  }

  // ---------------------------------------------------------------------
  // Decoding.

  /** `valueProtoToJson`. Missing or kindless input and an unknown kind give null. */
  function Decode(p: Json): (r: Result<Json>)
    ensures r.Ok? ==> Depth(r.value) <= Depth(p)
    decreases Depth(p), 1
  {
    if !Truthy(p) then Ok(Null)
    else
      var kind := Get(p, "kind");
      if !Truthy(kind) then Ok(Null)
      else if kind.Str? && IsSimpleKind(kind.s) then Ok(Get(p, kind.s))
      else if kind == Str(NullKind) then Ok(Null)
      else if kind == Str(ListKind) then DecodeList(Get(p, ListKind), Depth(p))
      else if kind == Str(StructKind) then DecodeStruct(Get(p, StructKind), Depth(p))
      else Ok(Null)
  }

  /** `proto.listValue.values.map(valueProtoToJson)`: throws when `listValue`
      is missing or its `values` is not an array. */
  function DecodeList(lv: Json, bound: nat): (r: Result<Json>)
    requires bound >= 1
    requires lv.Undefined? || Depth(lv) < bound
    ensures r.Ok? ==> r.value.Arr? && Depth(r.value) <= bound
    decreases bound, 0
  {
    if Nullish(lv) then Err(TypeError)
    else
      var vals := Get(lv, "values");
      if !vals.Arr? then Err(TypeError)
      else
        ItemsBelowArr(vals.items);
        var items :- DecodeItems(vals.items, bound);
        DepthItemsBound(items, bound - 1);
        Ok(Arr(items))
  }

  /** `values.map(valueProtoToJson)`; the first element that throws ends the map. */
  function DecodeItems(items: seq<Json>, bound: nat): (r: Result<seq<Json>>)
    requires ItemsBelow(items, bound)
    ensures r.Ok? ==> |r.value| == |items| && ItemsBelow(r.value, bound)
    decreases bound, 0, |items|
  {
    if items == [] then Ok([])
    else
      var head :- Decode(items[0]);
      var tail :- DecodeItems(items[1..], bound);
      Ok([head] + tail)
  }

  /** `structProtoToJson`: `{}` unless the input has truthy `fields`; otherwise
      every for-in entry of `fields` is decoded and assigned in order. */
  function DecodeStruct(sv: Json, bound: nat): (r: Result<Json>)
    requires bound >= 1
    requires sv.Undefined? || Depth(sv) < bound
    ensures r.Ok? ==> r.value.Obj? && Depth(r.value) <= bound
    decreases bound, 0
  {
    var fields := Get(sv, "fields");
    if !Truthy(sv) || !Truthy(fields) then Ok(Obj([]))
    else
      EntriesDepth(fields);
      var ms :- DecodeFields(OwnEntries(fields), [], bound);
      DepthMembersBound(ms, bound - 1);
      Ok(Obj(ms))
  }

  function DecodeFields(entries: seq<Member>, acc: seq<Member>, bound: nat): (r: Result<seq<Member>>)
    requires MembersBelow(entries, bound) && MembersBelow(acc, bound)
    ensures r.Ok? ==> MembersBelow(r.value, bound)
    decreases bound, 0, |entries|
  {
    if entries == [] then Ok(acc)
    else
      var v :- Decode(entries[0].value);
      SetMemberBelow(acc, entries[0].key, v, bound);
      DecodeFields(entries[1..], SetMember(acc, entries[0].key, v), bound)
  }

  // ---------------------------------------------------------------------
  // Round trip.

  /** Member-wise encoding, which `EncodeFields` computes when no key repeats. */
  function EncodeMembers(ms: seq<Member>): (r: seq<Member>)
    ensures |r| == |ms|
  {
    if ms == [] then [] else [Member(ms[0].key, Encode(ms[0].value))] + EncodeMembers(ms[1..])
  }

  lemma ShiftHead<T>(acc: seq<T>, ms: seq<T>)
    requires ms != []
    ensures acc + [ms[0]] + ms[1..] == acc + ms
  {
    assert [ms[0]] + ms[1..] == ms;
  }

  lemma EncodeFieldsStep(ms: seq<Member>, acc: seq<Member>)
    requires DistinctKeys(ms) && KeysDisjoint(acc, ms) && ms != []
    ensures EncodeFields(ms, acc) == EncodeFields(ms[1..], acc + [Member(ms[0].key, Encode(ms[0].value))])
    ensures DistinctKeys(ms[1..]) && KeysDisjoint(acc + [Member(ms[0].key, Encode(ms[0].value))], ms[1..])
  {
    var e := Encode(ms[0].value);
    KeysDisjointStep(acc, ms, Member(ms[0].key, e));
    SetMemberFresh(acc, ms[0].key, e);
  }

  lemma {:induction false} EncodeFieldsDistinct(ms: seq<Member>, acc: seq<Member>)
    requires DistinctKeys(ms) && KeysDisjoint(acc, ms)
    ensures EncodeFields(ms, acc) == acc + EncodeMembers(ms)
    decreases |ms|
  {
    if ms != [] {
      var m := Member(ms[0].key, Encode(ms[0].value));
      EncodeFieldsStep(ms, acc);
      EncodeFieldsDistinct(ms[1..], acc + [m]);
      ShiftHead(acc, EncodeMembers(ms));
    }
  }

  /** What is not a recognisable `Value` decodes to null: a missing proto,
      one without a kind, and one whose kind is none of the six names. A
      struct without truthy `fields` decodes to the empty object. */
  lemma DecodeFallbacks(p: Json, sv: Json, bound: nat)
    requires bound >= 1 && (sv.Undefined? || Depth(sv) < bound)
    ensures !Truthy(p) ==> Decode(p) == Ok(Null)
    ensures !Truthy(Get(p, "kind")) ==> Decode(p) == Ok(Null)
    ensures Truthy(Get(p, "kind")) && !(Get(p, "kind").Str? && Get(p, "kind").s in Kinds) ==> Decode(p) == Ok(Null)
    ensures !Truthy(Get(sv, "fields")) ==> DecodeStruct(sv, bound) == Ok(Obj([]))
  {
  }

  /** A primitive's encoding names its kind and carries the primitive itself. */
  lemma PrimitiveRoundTrip(v: Json)
    requires v.Null? || v.Num? || v.Str? || v.Bool?
    ensures Decode(Encode(v)) == Ok(v)
  {
    var p := Encode(v);
    var kind := p.members[0];
    var payload := p.members[1];
    assert p == Obj([kind, payload]);
    GetPair(kind, payload, "kind");
    GetPair(kind, payload, payload.key);
  }

  /** Decoding an encoded array reduces to decoding its encoded items. */
  lemma ListShape(items: seq<Json>)
    ensures ItemsBelow(EncodeItems(items), Depth(Encode(Arr(items))))
    ensures Decode(Encode(Arr(items))) ==
      var d := DecodeItems(EncodeItems(items), Depth(Encode(Arr(items))));
      if d.Ok? then Ok(Arr(d.value)) else Err(d.error)
  {
    var p := Encode(Arr(items));
    var vals := Arr(EncodeItems(items));
    var lv := Obj([Member("values", vals)]);
    var kind := Member("kind", Str(ListKind));
    assert p == Obj([kind, Member(ListKind, lv)]);
    GetPair(kind, Member(ListKind, lv), "kind");
    GetPair(kind, Member(ListKind, lv), ListKind);
    assert Decode(p) == DecodeList(lv, Depth(p));
    GetSingle(Member("values", vals), "values");
    ItemsBelowArr(vals.items);
  }

  /** A two-member object whose kind is "structValue" decodes its struct member. */
  lemma DecodeStructKind(sv: Json)
    requires sv.Obj?
    ensures Depth(sv) < Depth(Obj([Member("kind", Str(StructKind)), Member(StructKind, sv)]))
    ensures Decode(Obj([Member("kind", Str(StructKind)), Member(StructKind, sv)])) ==
            DecodeStruct(sv, Depth(Obj([Member("kind", Str(StructKind)), Member(StructKind, sv)])))
  {
    var kind := Member("kind", Str(StructKind));
    GetPair(kind, Member(StructKind, sv), "kind");
    GetPair(kind, Member(StructKind, sv), StructKind);
    MemberDepthBelow([kind, Member(StructKind, sv)], 1);
  }

  lemma EncodeObjShape(ms: seq<Member>)
    requires DistinctKeys(ms)
    ensures Encode(Obj(ms)) ==
            Obj([Member("kind", Str(StructKind)), Member(StructKind, Obj([Member("fields", Obj(EncodeMembers(ms)))]))])
  {
    EncodeFieldsDistinct(ms, []);
    assert [] + EncodeMembers(ms) == EncodeMembers(ms);
  }

  /** Decoding an encoded object reduces to decoding its encoded members. */
  lemma StructShape(ms: seq<Member>)
    requires DistinctKeys(ms)
    ensures MembersBelow(EncodeMembers(ms), Depth(Encode(Obj(ms))))
    ensures Decode(Encode(Obj(ms))) ==
      var d := DecodeFields(EncodeMembers(ms), [], Depth(Encode(Obj(ms))));
      if d.Ok? then Ok(Obj(d.value)) else Err(d.error)
  {
    var fields := Obj(EncodeMembers(ms));
    var sv := Obj([Member("fields", fields)]);
    var p := Encode(Obj(ms));
    EncodeObjShape(ms);
    DecodeStructKind(sv);
    GetSingle(Member("fields", fields), "fields");
    MembersBelowObj(EncodeMembers(ms));
  }

  /** `valueProtoToJson(jsonValueToProto(v))` gives back `v` for every JSON value. */
  lemma {:induction false} RoundTrip(v: Json)
    requires IsJsonValue(v)
    ensures Decode(Encode(v)) == Ok(v)
    decreases v, 1
  {
    match v
    case Arr(items) =>
      ListShape(items);
      ItemsRoundTrip(items, Depth(Encode(v)));
    case Obj(ms) =>
      StructShape(ms);
      FieldsRoundTrip(ms, [], Depth(Encode(v)));
      assert [] + ms == ms;
    case _ =>
      PrimitiveRoundTrip(v);
  }

  lemma {:induction false} ItemsRoundTrip(items: seq<Json>, bound: nat)
    requires forall i :: 0 <= i < |items| ==> IsJsonValue(items[i])
    requires ItemsBelow(EncodeItems(items), bound)
    ensures DecodeItems(EncodeItems(items), bound) == Ok(items)
    decreases items, 0
  {
    if items != [] {
      var enc := EncodeItems(items);
      assert enc[0] == Encode(items[0]);
      assert enc[1..] == EncodeItems(items[1..]);
      RoundTrip(items[0]);
      ItemsRoundTrip(items[1..], bound);
      DecodeItemsCons(enc, bound, items[0], items[1..]);
      assert [items[0]] + items[1..] == items;
    }
  }

  /** Decoding a list head first. */
  lemma DecodeItemsCons(enc: seq<Json>, bound: nat, head: Json, tail: seq<Json>)
    requires enc != [] && ItemsBelow(enc, bound)
    requires Decode(enc[0]) == Ok(head) && DecodeItems(enc[1..], bound) == Ok(tail)
    ensures DecodeItems(enc, bound) == Ok([head] + tail)
  {
  }

  /** One step of the for-in over decoded fields. */
  lemma DecodeFieldsStep(entries: seq<Member>, acc: seq<Member>, bound: nat, v: Json)
    requires entries != []
    requires MembersBelow(entries, bound) && MembersBelow(acc, bound)
    requires Decode(entries[0].value) == Ok(v)
    ensures Depth(v) < bound
    ensures MembersBelow(SetMember(acc, entries[0].key, v), bound)
    ensures DecodeFields(entries, acc, bound) == DecodeFields(entries[1..], SetMember(acc, entries[0].key, v), bound)
  {
    SetMemberBelow(acc, entries[0].key, v, bound);
  }

  /** Decoding the first encoded member appends the original member. */
  lemma FieldsRoundTripStep(ms: seq<Member>, acc: seq<Member>, bound: nat)
    requires ms != [] && IsJsonValue(ms[0].value)
    requires DistinctKeys(ms) && KeysDisjoint(acc, ms)
    requires MembersBelow(EncodeMembers(ms), bound) && MembersBelow(acc, bound)
    ensures DistinctKeys(ms[1..]) && KeysDisjoint(acc + [ms[0]], ms[1..])
    ensures MembersBelow(EncodeMembers(ms[1..]), bound) && MembersBelow(acc + [ms[0]], bound)
    ensures DecodeFields(EncodeMembers(ms), acc, bound) == DecodeFields(EncodeMembers(ms[1..]), acc + [ms[0]], bound)
    decreases ms, 0
  {
    var enc := EncodeMembers(ms);
    RoundTrip(ms[0].value);
    DecodeFieldsStep(enc, acc, bound, ms[0].value);
    KeysDisjointStep(acc, ms, ms[0]);
    SetMemberFresh(acc, ms[0].key, ms[0].value);
    assert enc[1..] == EncodeMembers(ms[1..]);
  }

  lemma {:induction false} FieldsRoundTrip(ms: seq<Member>, acc: seq<Member>, bound: nat)
    requires forall i :: 0 <= i < |ms| ==> IsJsonValue(ms[i].value)
    requires DistinctKeys(ms) && KeysDisjoint(acc, ms)
    requires MembersBelow(EncodeMembers(ms), bound) && MembersBelow(acc, bound)
    ensures DecodeFields(EncodeMembers(ms), acc, bound) == Ok(acc + ms)
    decreases ms, 1
  {
    if ms != [] {
      FieldsRoundTripStep(ms, acc, bound);
      FieldsRoundTrip(ms[1..], acc + [ms[0]], bound);
      ShiftHead(acc, ms);
    } else {
      assert EncodeMembers(ms) == [];
      assert acc + ms == acc;
    }
  }
}

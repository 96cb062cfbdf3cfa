/** The endpoint-gated request formatter of the root client
    (lib/formatters/request.js): before an Operations Create or Update call,
    the JSON under `operation.payload[k].data` and under the `value.data` of
    every input/output format or redis function is replaced by its
    `google.protobuf.Value` encoding. In-place mutation is modelled as
    returning the rewritten payload. */
module LibRequest {
  import opened Wrappers
  import opened Js
  import opened ProtoValue

  const CreatePath := "/components.Operations/Create"
  const UpdatePath := "/components.Operations/Update"

  /** The endpoints whose requests carry protobuf values. */
  const ValueEndpoints: seq<string> := [CreatePath, UpdatePath]

  /** `x[field] = jsonValueToProto(x[field])`, as both request formatters
      apply it; reading the field of null or undefined throws. */
  function ConvertField(x: Json, field: string): (r: Result<Json>)
    ensures Nullish(x) <==> r.Err?
    ensures x.Obj? ==> r.Ok? && r.value.Obj? && Get(r.value, field) == Encode(Get(x, field))
  {
    if Nullish(x) then Err(TypeError)
    else
      var r := SetProp(x, field, Encode(Lookup(x, field)));
      if x.Obj? then
        LookupAfterSetMember(x.members, field, Encode(Get(x, field)), field);
        r
      else r
  }

  /** `item.data = jsonValueToProto(item.data)` */
  function ConvertData(item: Json): Result<Json> {
    ConvertField(item, "data")
  }

  /** `if (((func || {}).value || {}).data) func.value.data = jsonValueToProto(func.value.data)`:
      only a truthy `data` is converted, so 0, "", false and null stay as they are. */
  function ConvertFunctionData(func: Json): (r: Result<Json>)
    ensures r.Ok?
    ensures !Truthy(Lookup(Lookup(func, "value"), "data")) ==> r.value == func
  {
    if !Truthy(func) then Ok(func)
    else
      var value := Lookup(func, "value");
      if !Truthy(value) then Ok(func)
      else
        var data := Lookup(value, "data");
        if !Truthy(data) then Ok(func)
        else
          var value' := SetProp(value, "data", Encode(data)).value;
          SetProp(func, "value", value')
  }

  /** One function list of an input/output block: a missing list is the
      default `[]`; anything else that is not an array has no `forEach` and throws. */
  function ConvertFunctionList(io: Json, key: string, convert: Json -> Result<Json>): (r: Result<Json>)
    requires !Nullish(io)
    ensures Lookup(io, key).Undefined? ==> r == Ok(io)
    ensures !Lookup(io, key).Undefined? && !Lookup(io, key).Arr? ==> r.Err?
    ensures io.Obj? && Lookup(io, key).Arr? ==>
              (r.Ok? <==> MapResult(Lookup(io, key).items, convert).Ok?) &&
              (r.Ok? ==> r.value.Obj? && Lookup(r.value, key) == Arr(MapResult(Lookup(io, key).items, convert).value) &&
                         forall k :: k != key ==> Lookup(r.value, k) == Lookup(io, k))
  {
    var list := Lookup(io, key);
    if list.Undefined? then Ok(io)
    else if !list.Arr? then Err(TypeError)
    else
      var items :- MapResult(list.items, convert);
      if io.Obj? then
        assert forall k :: Lookup(SetProp(io, key, Arr(items)).value, k) == if k == key then Arr(items) else Lookup(io, k) by {
          forall k ensures Lookup(SetProp(io, key, Arr(items)).value, k) == if k == key then Arr(items) else Lookup(io, k) {
            LookupAfterSetMember(io.members, key, Arr(items), k);
          }
        }
        SetProp(io, key, Arr(items))
      else SetProp(io, key, Arr(items))
  }

  /** An input/output block that lists both kinds of function. */
  predicate FunctionLists(io: Json) {
    io.Obj? && Lookup(io, "format_function").Arr? && Lookup(io, "redis_functions").Arr?
  }

  /** `formatInputOuput(inputOutput = {})`: undefined means nothing to do,
      destructuring null throws. */
  function FormatInputOutput(io: Json, convert: Json -> Result<Json>): (r: Result<Json>)
    ensures io.Undefined? ==> r == Ok(io)
    ensures io.Null? ==> r.Err?
    ensures FunctionLists(io) ==>
              (r.Ok? <==> MapResult(Lookup(io, "format_function").items, convert).Ok? &&
                          MapResult(Lookup(io, "redis_functions").items, convert).Ok?) &&
              (r.Ok? ==> r.value.Obj? &&
                         Lookup(r.value, "format_function") == Arr(MapResult(Lookup(io, "format_function").items, convert).value) &&
                         Lookup(r.value, "redis_functions") == Arr(MapResult(Lookup(io, "redis_functions").items, convert).value))
  {
    if io.Undefined? then Ok(io)
    else if io.Null? then Err(TypeError)
    else
      var io1 :- ConvertFunctionList(io, "format_function", convert);
      if Nullish(io1) then Err(TypeError)
      else ConvertFunctionList(io1, "redis_functions", convert)
  }

  /** Write a rewritten child back unless the child was the `{}` default of a
      missing property, which is not attached to the parent. */
  function WriteBack(parent: Json, key: string, before: Json, after: Json): (r: Result<Json>)
    requires !Nullish(parent)
    ensures r.Ok? && !Nullish(r.value)
  {
    if before.Undefined? then Ok(parent) else SetProp(parent, key, after)
  }

  /** `Object.keys(operation.payload || {}).forEach(...)`: converts every entry's `data`. */
  function ConvertOperationPayload(operation: Json): (r: Result<Json>)
    requires !Nullish(operation)
    ensures r.Ok? ==> !Nullish(r.value)
    ensures !Truthy(Lookup(operation, "payload")) ==> r == Ok(operation)
  {
    var pl := Lookup(operation, "payload");
    var source := Or(pl, Obj([]));
    var pl' :- ForEachKey(source, OwnKeys(source), ConvertData);
    if Truthy(pl) then SetProp(operation, "payload", pl') else Ok(operation)
  }

  /** `formatInputOuput(operation[key])` with the rewritten block attached again. */
  function FormatBlock(operation: Json, key: string, convert: Json -> Result<Json>): (r: Result<Json>)
    requires !Nullish(operation)
    ensures r.Ok? ==> !Nullish(r.value)
    ensures Lookup(operation, key).Undefined? ==> r == Ok(operation)
  {
    var io := Lookup(operation, key);
    var io' :- FormatInputOutput(io, convert);
    WriteBack(operation, key, io, io')
  }

  /** The body of `jsonRequestToProto` for a value endpoint, parameterised by
      how one format/redis function is converted. Destructuring a null or
      undefined payload, or reading `.payload` of a null operation, throws. */
  function FormatOperation(payload: Json, convert: Json -> Result<Json>): Result<Json> {
    if Nullish(payload) then Err(TypeError)
    else
      var original := Lookup(payload, "operation");
      var operation := if original.Undefined? then Obj([]) else original;
      if Nullish(operation) then Err(TypeError)
      else
        var op1 :- ConvertOperationPayload(operation);
        var op2 :- FormatBlock(op1, "input", convert);
        var op3 :- FormatBlock(op2, "output", convert);
        WriteBack(payload, "operation", original, op3)
  }

  /** `jsonRequestToProto(payload, endpointPath)` of lib/formatters/request.js. */
  function JsonRequestToProto(payload: Json, endpoint: string): (r: Result<Json>)
    ensures endpoint !in ValueEndpoints ==> r == Ok(payload)
  {
    if endpoint in ValueEndpoints then FormatOperation(payload, ConvertFunctionData)
    else Ok(payload)
  }

  // ---------------------------------------------------------------------
  // Properties.

  /** Every entry of an `operation.payload` object has its `data` encoded,
      keys and order unchanged, and decoding gives the original `data` back. */
  lemma {:induction false} PayloadEntriesConverted(ms: seq<Member>)
    requires DistinctKeys(ms)
    requires forall i :: 0 <= i < |ms| ==> ms[i].value.Obj?
    ensures MapValues(ms, ConvertData).Ok?
    ensures ForEachKey(Obj(ms), OwnKeys(Obj(ms)), ConvertData) == Ok(Obj(MapValues(ms, ConvertData).value))
    ensures var ms' := MapValues(ms, ConvertData).value;
      MemberKeys(ms') == MemberKeys(ms) &&
      forall i :: 0 <= i < |ms| ==>
        Get(ms'[i].value, "data") == Encode(Get(ms[i].value, "data")) &&
        (IsJsonValue(Get(ms[i].value, "data")) ==> Decode(Get(ms'[i].value, "data")) == Ok(Get(ms[i].value, "data")))
  {
    PayloadLoopMaps(ms);
    var ms' := MapValues(ms, ConvertData).value;
    forall i | 0 <= i < |ms| && IsJsonValue(Get(ms[i].value, "data"))
      ensures Decode(Get(ms'[i].value, "data")) == Ok(Get(ms[i].value, "data"))
    {
      RoundTrip(Get(ms[i].value, "data"));
    }
  }

  lemma {:induction false} PayloadLoopMaps(ms: seq<Member>)
    requires DistinctKeys(ms)
    requires forall i :: 0 <= i < |ms| ==> ms[i].value.Obj?
    ensures MapValues(ms, ConvertData).Ok?
    ensures ForEachKey(Obj(ms), OwnKeys(Obj(ms)), ConvertData) == Ok(Obj(MapValues(ms, ConvertData).value))
  {
    ForEachKeyObj([], ms, ConvertData);
    assert [] + ms == ms;
    assert [] + MapValues(ms, ConvertData).value == MapValues(ms, ConvertData).value;
  }

  /** A truthy `value.data` of a format or redis function is replaced by its
      encoding, which decodes back to it. */
  lemma FunctionDataConverted(fm: seq<Member>, vm: seq<Member>)
    requires Get(Obj(fm), "value") == Obj(vm)
    requires Truthy(Get(Obj(vm), "data"))
    ensures ConvertFunctionData(Obj(fm)).Ok?
    ensures var f' := ConvertFunctionData(Obj(fm)).value;
      Get(Get(f', "value"), "data") == Encode(Get(Obj(vm), "data")) &&
      (IsJsonValue(Get(Obj(vm), "data")) ==> Decode(Get(Get(f', "value"), "data")) == Ok(Get(Obj(vm), "data")))
  {
    var data := Get(Obj(vm), "data");
    var value' := Obj(SetMember(vm, "data", Encode(data)));
    LookupAfterSetMember(vm, "data", Encode(data), "data");
    LookupAfterSetMember(fm, "value", value', "value");
    if IsJsonValue(data) {
      RoundTrip(data);
    }
  }

  /** End to end: a Create request whose operation carries only a payload
      object has exactly that object's entries converted. */
  lemma CreateConvertsPayload(ms: seq<Member>)
    requires DistinctKeys(ms)
    requires forall i :: 0 <= i < |ms| ==> ms[i].value.Obj?
    ensures JsonRequestToProto(Obj([Member("operation", Obj([Member("payload", Obj(ms))]))]), CreatePath)
         == Ok(Obj([Member("operation", Obj([Member("payload", Obj(MapValues(ms, ConvertData).value))]))]))
  {
    PayloadLoopMaps(ms);
    CreateRequestConverted(ms, MapValues(ms, ConvertData).value, CreatePath);
  }

  lemma CreateRequestConverted(ms: seq<Member>, ms': seq<Member>, endpoint: string)
    requires endpoint == CreatePath
    requires ForEachKey(Obj(ms), OwnKeys(Obj(ms)), ConvertData) == Ok(Obj(ms'))
    ensures JsonRequestToProto(Obj([Member("operation", Obj([Member("payload", Obj(ms))]))]), endpoint)
         == Ok(Obj([Member("operation", Obj([Member("payload", Obj(ms'))]))]))
  {
    assert endpoint == ValueEndpoints[0];
    PayloadOnlyRequest(ms, ms', ConvertFunctionData);
  }

  /** With no input or output block, how functions are converted does not matter. */
  lemma PayloadOnlyRequest(ms: seq<Member>, ms': seq<Member>, convert: Json -> Result<Json>)
    requires ForEachKey(Obj(ms), OwnKeys(Obj(ms)), ConvertData) == Ok(Obj(ms'))
    ensures FormatOperation(Obj([Member("operation", Obj([Member("payload", Obj(ms))]))]), convert)
         == Ok(Obj([Member("operation", Obj([Member("payload", Obj(ms'))]))]))
  {
    var op := Obj([Member("payload", Obj(ms))]);
    var op1 := Obj([Member("payload", Obj(ms'))]);
    OperationLookups(op, ms, ms');
    assert ConvertOperationPayload(op) == Ok(op1);
    assert FormatBlock(op1, "input", convert) == Ok(op1);
    assert FormatBlock(op1, "output", convert) == Ok(op1);
  }

  lemma OperationLookups(op: Json, ms: seq<Member>, ms': seq<Member>)
    requires op == Obj([Member("payload", Obj(ms))])
    ensures Lookup(Obj([Member("operation", op)]), "operation") == op
    ensures Lookup(op, "payload") == Obj(ms)
    ensures SetProp(op, "payload", Obj(ms')) == Ok(Obj([Member("payload", Obj(ms'))]))
    ensures Lookup(Obj([Member("payload", Obj(ms'))]), "input") == Undefined
    ensures Lookup(Obj([Member("payload", Obj(ms'))]), "output") == Undefined
    ensures SetProp(Obj([Member("operation", op)]), "operation", Obj([Member("payload", Obj(ms'))]))
         == Ok(Obj([Member("operation", Obj([Member("payload", Obj(ms'))]))]))
  {
    GetSingle(Member("operation", op), "operation");
    GetSingle(Member("payload", Obj(ms)), "payload");
    GetSingle(Member("payload", Obj(ms')), "input");
    GetSingle(Member("payload", Obj(ms')), "output");
    SetSingle(Member("payload", Obj(ms)), Obj(ms'));
    SetSingle(Member("operation", op), Obj([Member("payload", Obj(ms'))]));
  }

  /** The function list `key` of a block after the request formatter: each
      function with its truthy `value.data` encoded, in order. */
  function ConvertedList(io: Json, key: string): (r: Json)
    requires Lookup(io, key).Arr?
    ensures r.Arr? && |r.items| == |Lookup(io, key).items|
    ensures forall i :: 0 <= i < |r.items| ==> ConvertFunctionData(Lookup(io, key).items[i]) == Ok(r.items[i])
  {
    Arr(MapResult(Lookup(io, key).items, ConvertFunctionData).value)
  }

  /** The rewritten block the request formatter attaches for `blk`. */
  lemma BlockConverted(op: Json, blk: string)
    requires op.Obj? && FunctionLists(Lookup(op, blk))
    ensures var io' := FormatInputOutput(Lookup(op, blk), ConvertFunctionData);
            io'.Ok? &&
            FormatBlock(op, blk, ConvertFunctionData) == Ok(Obj(SetMember(op.members, blk, io'.value))) &&
            Lookup(io'.value, "format_function") == ConvertedList(Lookup(op, blk), "format_function") &&
            Lookup(io'.value, "redis_functions") == ConvertedList(Lookup(op, blk), "redis_functions")
  {
  }

  /** End to end: a Create or Update request whose operation has no payload
      and input and output blocks that list both kinds of function gets
      every one of those functions converted, in place and in order. */
  lemma RequestConvertsFunctions(payload: Json, endpoint: string)
    requires endpoint in ValueEndpoints && payload.Obj?
    requires Lookup(payload, "operation").Obj?
    requires !Truthy(Lookup(Lookup(payload, "operation"), "payload"))
    requires FunctionLists(Lookup(Lookup(payload, "operation"), "input"))
    requires FunctionLists(Lookup(Lookup(payload, "operation"), "output"))
    ensures var r := JsonRequestToProto(payload, endpoint);
            var op := Lookup(payload, "operation");
            r.Ok? &&
            Lookup(Lookup(Lookup(r.value, "operation"), "input"), "format_function") == ConvertedList(Lookup(op, "input"), "format_function") &&
            Lookup(Lookup(Lookup(r.value, "operation"), "input"), "redis_functions") == ConvertedList(Lookup(op, "input"), "redis_functions") &&
            Lookup(Lookup(Lookup(r.value, "operation"), "output"), "format_function") == ConvertedList(Lookup(op, "output"), "format_function") &&
            Lookup(Lookup(Lookup(r.value, "operation"), "output"), "redis_functions") == ConvertedList(Lookup(op, "output"), "redis_functions")
  {
    var op := Lookup(payload, "operation");
    assert ConvertOperationPayload(op) == Ok(op);
    BlockConverted(op, "input");
    var inp' := FormatInputOutput(Lookup(op, "input"), ConvertFunctionData).value;
    var op2 := Obj(SetMember(op.members, "input", inp'));
    LookupAfterSetMember(op.members, "input", inp', "output");
    LookupAfterSetMember(op.members, "input", inp', "input");
    BlockConverted(op2, "output");
    var out' := FormatInputOutput(Lookup(op, "output"), ConvertFunctionData).value;
    var op3 := Obj(SetMember(op2.members, "output", out'));
    OperationWrittenBack(payload, op, op2, op3);
    LookupAfterSetMember(payload.members, "operation", op3, "operation");
    LookupAfterSetMember(op2.members, "output", out', "input");
    LookupAfterSetMember(op2.members, "output", out', "output");
  }

  lemma OperationWrittenBack(payload: Json, op: Json, op2: Json, op3: Json)
    requires payload.Obj? && Lookup(payload, "operation") == op && op.Obj?
    requires ConvertOperationPayload(op) == Ok(op)
    requires FormatBlock(op, "input", ConvertFunctionData) == Ok(op2)
    requires FormatBlock(op2, "output", ConvertFunctionData) == Ok(op3)
    ensures FormatOperation(payload, ConvertFunctionData) == Ok(Obj(SetMember(payload.members, "operation", op3)))
  {
  }
}

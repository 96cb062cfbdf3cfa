/** The older request formatter of the root client (lib/utils/request.js):
    only an Operations Create call is rewritten; every
    `operation.payload[k].data` is encoded as in the newer formatter, but of
    each input/output format or redis function the whole `value` is encoded,
    unconditionally. */
module LegacyRequest {
  import opened Wrappers
  import opened Js
  import opened ProtoValue
  import LibRequest

  /** `ENDPOINTS_INCLUDES_VALUES` */
  const Endpoints: seq<string> := [LibRequest.CreatePath]

  /** `func.value = jsonValueToProto(func.value)`: the whole value, not its
      `data`. */
  function ConvertFunctionValue(func: Json): Result<Json> {
    LibRequest.ConvertField(func, "value")
  }

  /** `formatRequest(payload, endpointPath)`: the payload itself, rewritten in place on a Create call. */
  function FormatRequest(payload: Json, endpoint: string): (r: Result<Json>)
    ensures endpoint !in Endpoints ==> r == Ok(payload)
  {
    if endpoint in Endpoints then LibRequest.FormatOperation(payload, ConvertFunctionValue)
    else Ok(payload)
  }

  // ---------------------------------------------------------------------
  // Properties.

  /** An Update call is left alone here, while the newer formatter rewrites it
      exactly as it rewrites a Create call. */
  lemma UpdateOnlyInNewer(payload: Json)
    ensures FormatRequest(payload, LibRequest.UpdatePath) == Ok(payload)
    ensures LibRequest.JsonRequestToProto(payload, LibRequest.UpdatePath)
         == LibRequest.JsonRequestToProto(payload, LibRequest.CreatePath)
  {
    assert LibRequest.UpdatePath !in Endpoints;
  }

  /** On a Create request whose operation carries only a payload object, the
      older and the newer formatter agree: every entry's `data` is encoded. */
  lemma AgreesOnPayload(ms: seq<Member>)
    requires DistinctKeys(ms)
    requires forall i :: 0 <= i < |ms| ==> ms[i].value.Obj?
    ensures FormatRequest(Obj([Member("operation", Obj([Member("payload", Obj(ms))]))]), LibRequest.CreatePath)
         == LibRequest.JsonRequestToProto(Obj([Member("operation", Obj([Member("payload", Obj(ms))]))]), LibRequest.CreatePath)
  {
    LibRequest.PayloadLoopMaps(ms);
    LibRequest.CreateConvertsPayload(ms);
    LibRequest.PayloadOnlyRequest(ms, MapValues(ms, LibRequest.ConvertData).value, ConvertFunctionValue);
  }

  /** A format function whose `value` is `{data: 0}`: the older formatter
      encodes the whole value, the newer one leaves the falsy `data` raw. */
  lemma FunctionValueDiffers()
    ensures var func := Obj([Member("value", Obj([Member("data", Num(0))]))]);
      ConvertFunctionValue(func) == Ok(Obj([Member("value", Encode(Obj([Member("data", Num(0))])))])) &&
      LibRequest.ConvertFunctionData(func) == Ok(func)
  {
    var value := Obj([Member("data", Num(0))]);
    GetSingle(Member("value", value), "value");
    GetSingle(Member("data", Num(0)), "data");
    SetSingle(Member("value", value), Encode(value));
  }

  /** The encoded function value decodes back to the original value. */
  lemma FunctionValueRoundTrip(fm: seq<Member>)
    requires IsJsonValue(Get(Obj(fm), "value"))
    ensures ConvertFunctionValue(Obj(fm)).Ok?
    ensures Decode(Get(ConvertFunctionValue(Obj(fm)).value, "value")) == Ok(Get(Obj(fm), "value"))
  {
    RoundTrip(Get(Obj(fm), "value"));
  }
}

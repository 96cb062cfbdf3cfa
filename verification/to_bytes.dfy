/** `toBytes(data)` of packages/cli/lib/utils/index.js and its copy
    `_toBytes` in src/utils/base-command.js: the UTF-8 bytes of
    `JSON.stringify(data)` for arrays, numbers, strings and plain objects,
    nothing for a falsy value, and an error for any other constructor. */
module ToBytes {
  import opened Wrappers
  import opened Js
  import opened Frame
  import opened Utf8
  import opened JsonText

  const UnsupportedType := "unsupporeted type"

  /** `data.constructor` is one of Array, Number, String and Object. Of the
      model's truthy values only `true` has another constructor (Boolean). */
  predicate SupportedConstructor(data: Json) {
    data.Arr? || data.Num? || data.Str? || data.Obj?
  }

  /** `None` is the function falling off its end (undefined). */
  function ToBytes(data: Json): (r: Result<Option<seq<byte>>>)
    ensures r == Ok(None) <==> !Truthy(data)
    ensures r.Err? <==> data == Bool(true)
    ensures r.Err? ==> r.error == UnsupportedType
    ensures r.Ok? && r.value.Some? ==> Decode(r.value.value) == Some(Stringify(data))
  {
    if !Truthy(data) then Ok(None)
    else if SupportedConstructor(data) then
      var bytes := Encode(Stringify(data));
      DecodeEncode(Stringify(data));
      Ok(Some(bytes))
    else Err(UnsupportedType)
  }

  /** Decoding the bytes and parsing the text gives the value back. */
  lemma ToBytesRoundTrip(data: Json)
    requires IsJsonValue(data) && ToBytes(data).Ok? && ToBytes(data).value.Some?
    ensures Decode(ToBytes(data).value.value).Some?
    ensures Parse(Decode(ToBytes(data).value.value).value) == Ok(data)
  {
    ParseStringify(data);
  }

  /** Falsy values of every supported constructor give nothing. */
  lemma FalsyGivesNothing()
    ensures ToBytes(Num(0)) == Ok(None) && ToBytes(Str("")) == Ok(None)
    ensures ToBytes(Null) == Ok(None) && ToBytes(Bool(false)) == Ok(None)
  {
  }

  /** Different JSON values never give the same bytes. */
  lemma ToBytesInjective(a: Json, b: Json)
    requires IsJsonValue(a) && IsJsonValue(b)
    requires ToBytes(a).Ok? && ToBytes(a).value.Some?
    requires ToBytes(a) == ToBytes(b)
    ensures a == b
  {
    ToBytesRoundTrip(a);
    ToBytesRoundTrip(b);
  }
}

/** The path-driven request formatter of the CLI package
    (packages/cli/lib/formatters/request.js): every request is walked along a
    fixed list of dotted paths, and the value at the end of each path is
    replaced by its `google.protobuf.Value` encoding. A `$ANY` segment visits
    every own key of the value reached so far. In-place mutation is modelled
    as returning the rewritten payload. */
module PathRequest {
  import opened Wrappers
  import opened Js
  import opened ProtoValue
  import LibRequest

  /** The wildcard segment. */
  const Any := "$ANY"

  /** A path the walk can follow to the end: it is not empty and does not end
      in the wildcard (every listed path ends in `data`). */
  predicate ValidPath(path: seq<string>) {
    |path| > 0 && path[|path| - 1] != Any
  }

  /** Which reading of `formatPayloadObject` to follow: the code as written,
      which walks the child with the rest of the path after the `$ANY` loop
      too, or the `else` its comment describes, which does not. */
  datatype Walk = AsWritten | Corrected

  /** `jsonRequestFormatByType(payload, path)`.
      - one segment left: `payload[k] = jsonValueToProto(payload[k])`;
      - otherwise, when `typeof payload[k] === "object"` (an object, an array
        or null), `formatPayloadObject`: with a `$ANY` next, every own key of
        the child is walked with the rest after the wildcard; then, as
        written, the child itself is walked with the rest after `k` as well;
      - any other child (missing, or a primitive) ends the walk unchanged.
      Reading a property of null or undefined throws. The `instanceof Array`
      branch is never taken, because arrays already have type "object". */
  function FormatByType(payload: Json, path: seq<string>, walk: Walk): (r: Result<Json>)
    requires ValidPath(path)
    ensures Nullish(payload) ==> r.Err?
    ensures r.Ok? ==> !Nullish(r.value) && (r.value.Obj? <==> payload.Obj?)
    ensures |path| > 1 && !Nullish(payload) && !IsObjectType(Lookup(payload, path[0])) ==> r == Ok(payload)
    ensures |path| > 1 && !Nullish(payload) && Lookup(payload, path[0]).Null? ==> r.Err?
    decreases |path|, 1
  {
    if Nullish(payload) then Err(TypeError)
    else
      var key := path[0];
      var child := Lookup(payload, key);
      if |path| == 1 then SetProp(payload, key, Encode(child))
      else if !IsObjectType(child) then Ok(payload)
      else
        var visited :- FormatAnyKeys(child, path, walk);
        var child' :- if walk.Corrected? && path[1] == Any then Ok(visited)
                      else FormatByType(visited, path[1..], walk);
        SetProp(payload, key, child')
  }

  /** The `$ANY` loop of `formatPayloadObject`: `Object.keys(child)` throws on
      null; each key's value is walked with the segments after the wildcard.
      Without a wildcard next, the child is left as it is. */
  function FormatAnyKeys(child: Json, path: seq<string>, walk: Walk): (r: Result<Json>)
    requires ValidPath(path) && |path| > 1
    ensures path[1] != Any ==> r == Ok(child)
    ensures path[1] == Any && child.Null? ==> r.Err?
    decreases |path|, 0
  {
    if path[1] != Any then Ok(child)
    else if Nullish(child) then Err(TypeError)
    else ForEachKey(child, OwnKeys(child), Walker(path[2..], walk))
  }

  /** The loop body `key => jsonRequestFormatByType(child[key], rest)`. */
  function Walker(rest: seq<string>, walk: Walk): Json -> Result<Json>
    requires ValidPath(rest)
    decreases |rest|, 2
  {
    x => FormatByType(x, rest, walk)
  }

  /** `PATHS_TO_PROTO_VALUES`, each already split at its dots. */
  const OperationPaths: seq<seq<string>> := [
    ["operation", "payload", Any, "data"],
    ["operation", "input", "format_function", Any, "value", "data"],
    ["operation", "input", "redis_functions", Any, "value", "data"],
    ["operation", "output", "format_function", Any, "value", "data"],
    ["operation", "output", "redis_functions", Any, "value", "data"]
  ]

  const RecordPaths: seq<seq<string>> := [
    ["records", Any, "payload", Any, "data"],
    ["records", Any, "payload", Any, "default", "data"],
    ["records", Any, "payload", Any, "default", "vars", Any, "data"],
    ["records", Any, "payload", Any, "vars", Any, "data"],
    ["records", Any, "payload", Any, "vars", Any, "default", "data"],
    ["records", Any, "input", "format_function", Any, "value", "data"],
    ["records", Any, "input", "format_function", Any, "value", "vars", Any, "data"],
    ["records", Any, "input", "format_function", Any, "value", "default", "data"],
    ["records", Any, "input", "redis_functions", Any, "value", "data"],
    ["records", Any, "input", "redis_functions", Any, "value", "vars", Any, "data"],
    ["records", Any, "input", "redis_functions", Any, "value", "default", "data"],
    ["records", Any, "output", "format_function", Any, "value", "data"],
    ["records", Any, "output", "format_function", Any, "value", "vars", Any, "data"],
    ["records", Any, "output", "format_function", Any, "value", "default", "data"],
    ["records", Any, "output", "redis_functions", Any, "value", "data"],
    ["records", Any, "output", "redis_functions", Any, "value", "vars", Any, "data"],
    ["records", Any, "output", "redis_functions", Any, "value", "default", "data"]
  ]

  const AppPaths: seq<seq<string>> := [
    ["app", "request", "headers", Any, "data"],
    ["app", "request", "query", Any, "data"],
    ["app", "request", "body", Any, "data"],
    ["app_action", "request", "headers", Any, "data"],
    ["app_action", "request", "query", Any, "data"],
    ["app_action", "request", "body", Any, "data"]
  ]

  const Paths: seq<seq<string>> := OperationPaths + RecordPaths + AppPaths

  predicate AllValid(paths: seq<seq<string>>) {
    forall i :: 0 <= i < |paths| ==> ValidPath(paths[i])
  }

  /** `paths.forEach(path => jsonRequestFormatByType(payload, path))`. */
  function FormatAll(payload: Json, paths: seq<seq<string>>, walk: Walk): (r: Result<Json>)
    requires AllValid(paths)
    ensures Nullish(payload) && paths != [] ==> r.Err?
    ensures r.Ok? && paths != [] ==> !Nullish(r.value) && (r.value.Obj? <==> payload.Obj?)
    decreases |paths|
  {
    if paths == [] then Ok(payload)
    else
      var p :- FormatByType(payload, paths[0], walk);
      FormatAll(p, paths[1..], walk)
  }

  /** `jsonRequestToProto(payload)`: all listed paths, in list order, on the same object. */
  function JsonRequestToProto(payload: Json): (r: Result<Json>)
    ensures Nullish(payload) ==> r.Err?
    ensures r.Ok? ==> !Nullish(r.value) && (r.value.Obj? <==> payload.Obj?)
  {
    PathsValid();
    FormatAll(payload, Paths, AsWritten)
  }

  /** The same with the `else` of `formatPayloadObject` restored. */
  function CorrectedRequestToProto(payload: Json): (r: Result<Json>)
    ensures Nullish(payload) ==> r.Err?
    ensures r.Ok? ==> !Nullish(r.value) && (r.value.Obj? <==> payload.Obj?)
  {
    PathsValid();
    FormatAll(payload, Paths, Corrected)
  }

  // ---------------------------------------------------------------------
  // Properties of the path list.

  predicate IsPrefix(p: seq<string>, q: seq<string>) {
    |p| <= |q| && q[..|p|] == p
  }

  /** `data` closes every listed path and occurs nowhere else in it. */
  predicate EndsAtData(p: seq<string>) {
    |p| > 0 && p[|p| - 1] == "data" && forall i :: 0 <= i < |p| - 1 ==> p[i] != "data"
  }

  lemma PathsValid()
    ensures |Paths| == 28
    ensures AllValid(Paths)
    ensures forall i :: 0 <= i < |Paths| ==> EndsAtData(Paths[i])
  {
    assert forall i :: 0 <= i < |OperationPaths| ==> EndsAtData(OperationPaths[i]);
    assert forall i :: 0 <= i < |RecordPaths| ==> EndsAtData(RecordPaths[i]);
    assert forall i :: 0 <= i < |AppPaths| ==> EndsAtData(AppPaths[i]);
    forall i | 0 <= i < |Paths| ensures EndsAtData(Paths[i]) {
      if i < |OperationPaths| {
        assert Paths[i] == OperationPaths[i];
      } else if i < |OperationPaths| + |RecordPaths| {
        assert Paths[i] == RecordPaths[i - |OperationPaths|];
      } else {
        assert Paths[i] == AppPaths[i - |OperationPaths| - |RecordPaths|];
      }
    }
  }

  /** A path that has `data` only at its end is never a proper prefix of
      another such path, so no converted leaf is walked into again. */
  lemma {:induction false} NoProperPrefix(p: seq<string>, q: seq<string>)
    requires EndsAtData(p) && EndsAtData(q)
    requires IsPrefix(p, q)
    ensures p == q
  {
  }

  lemma PathsDistinct()
    ensures forall i, j :: 0 <= i < j < |Paths| ==> Paths[i] != Paths[j]
  {
  }

  lemma ListedPathsPrefixFree(i: nat, j: nat)
    requires i < |Paths| && j < |Paths|
    requires IsPrefix(Paths[i], Paths[j])
    ensures i == j
  {
    PathsValid();
    PathsDistinct();
    NoProperPrefix(Paths[i], Paths[j]);
  }

  // ---------------------------------------------------------------------
  // Properties of the walk.

  /** At the last segment the leaf is replaced by its encoding (a missing leaf
      by `{}`), and no other member changes. */
  lemma LeafConverted(ms: seq<Member>, k: string, walk: Walk)
    requires k != Any
    ensures FormatByType(Obj(ms), [k], walk).Ok?
    ensures var r := FormatByType(Obj(ms), [k], walk).value;
      Lookup(r, k) == Encode(Lookup(Obj(ms), k)) &&
      (Lookup(Obj(ms), k).Undefined? ==> Lookup(r, k) == Obj([])) &&
      forall k' :: k' != k ==> Lookup(r, k') == Lookup(Obj(ms), k')
  {
    var v := Encode(Lookup(Obj(ms), k));
    forall k' ensures Lookup(Obj(SetMember(ms, k, v)), k') == if k' == k then v else Lookup(Obj(ms), k') {
      LookupAfterSetMember(ms, k, v, k');
    }
  }

  /** The request shape `{operation: {payload: {...}}}`. */
  function PayloadRequest(ms: seq<Member>): Json {
    Obj([Member("operation", Obj([Member("payload", Obj(ms))]))])
  }

  /** The leaf step `data` is exactly the older formatter's entry conversion. */
  lemma DataLeafIsConvertData(x: Json, walk: Walk)
    ensures Walker(["data"], walk)(x) == LibRequest.ConvertData(x)
  {
  }

  lemma {:induction false} MapValuesAgree(ms: seq<Member>, f: Json -> Result<Json>, g: Json -> Result<Json>)
    requires forall i :: 0 <= i < |ms| ==> f(ms[i].value) == g(ms[i].value)
    ensures MapValues(ms, f) == MapValues(ms, g)
    decreases |ms|
  {
    if ms != [] {
      assert forall i :: 0 <= i < |ms| - 1 ==> ms[1..][i] == ms[i + 1];
      MapValuesAgree(ms[1..], f, g);
    }
  }

  /** The loop of `operation.payload.$ANY.data` over the payload object. */
  lemma PayloadLoop(ms: seq<Member>, walk: Walk)
    requires DistinctKeys(ms)
    requires forall i :: 0 <= i < |ms| ==> ms[i].value.Obj?
    ensures MapValues(ms, LibRequest.ConvertData).Ok?
    ensures FormatAnyKeys(Obj(ms), ["payload", Any, "data"], walk) == Ok(Obj(MapValues(ms, LibRequest.ConvertData).value))
  {
    forall i | 0 <= i < |ms| ensures Walker(["data"], walk)(ms[i].value) == LibRequest.ConvertData(ms[i].value) {
      DataLeafIsConvertData(ms[i].value, walk);
    }
    MapValuesAgree(ms, Walker(["data"], walk), LibRequest.ConvertData);
    LibRequest.PayloadLoopMaps(ms);
    ForEachKeyObj([], ms, Walker(["data"], walk));
    assert [] + ms == ms;
    assert [] + MapValues(ms, LibRequest.ConvertData).value == MapValues(ms, LibRequest.ConvertData).value;
  }

  /** No member is named `$ANY`. */
  predicate NoWildcardKey(ms: seq<Member>) {
    forall i :: 0 <= i < |ms| ==> ms[i].key != Any
  }

  /** After the loop, the walk of the payload object with `$ANY.data` finds no
      member named `$ANY` and stops. */
  lemma PayloadAfterLoop(ms': seq<Member>, walk: Walk)
    requires NoWildcardKey(ms')
    ensures FormatByType(Obj(ms'), [Any, "data"], walk) == Ok(Obj(ms'))
  {
    assert FindMember(ms', Any).None?;
  }

  /** The first listed path on a payload-only request converts every entry's `data`. */
  lemma FirstPathOnPayload(ms: seq<Member>, walk: Walk)
    requires DistinctKeys(ms)
    requires forall i :: 0 <= i < |ms| ==> ms[i].value.Obj?
    requires walk.Corrected? || NoWildcardKey(ms)
    ensures MapValues(ms, LibRequest.ConvertData).Ok?
    ensures FormatByType(PayloadRequest(ms), Paths[0], walk)
         == Ok(PayloadRequest(MapValues(ms, LibRequest.ConvertData).value))
  {
    var ms' := MapValues(ms, LibRequest.ConvertData).value;
    var op := Obj([Member("payload", Obj(ms))]);
    var op' := Obj([Member("payload", Obj(ms'))]);
    PayloadLoop(ms, walk);
    if walk.AsWritten? {
      assert MemberKeys(ms') == MemberKeys(ms);
      assert forall i :: 0 <= i < |ms'| ==> ms'[i].key == MemberKeys(ms)[i];
      PayloadAfterLoop(ms', walk);
    }
    LibRequest.OperationLookups(op, ms, ms');
    assert FormatByType(op, ["payload", Any, "data"], walk) == Ok(op');
    assert Paths[0] == ["operation", "payload", Any, "data"];
    assert Paths[0][1..] == ["payload", Any, "data"];
  }

  /** Every walk is a no-op on `j`, so walking them all is too. */
  lemma {:induction false} FormatAllNoOp(j: Json, paths: seq<seq<string>>, walk: Walk)
    requires AllValid(paths)
    requires forall i :: 0 <= i < |paths| ==> FormatByType(j, paths[i], walk) == Ok(j)
    ensures FormatAll(j, paths, walk) == Ok(j)
    decreases |paths|
  {
    if paths != [] {
      assert forall i :: 0 <= i < |paths| - 1 ==> paths[1..][i] == paths[i + 1];
      FormatAllNoOp(j, paths[1..], walk);
    }
  }

  /** An `operation.input.*` or `operation.output.*` path on a request whose
      operation holds only a payload. */
  lemma BlockPathNoOp(ms': seq<Member>, p: seq<string>, walk: Walk)
    requires ValidPath(p) && |p| > 2 && p[0] == "operation" && (p[1] == "input" || p[1] == "output")
    ensures FormatByType(PayloadRequest(ms'), p, walk) == Ok(PayloadRequest(ms'))
  {
    var op' := Obj([Member("payload", Obj(ms'))]);
    GetSingle(Member("payload", Obj(ms')), p[1]);
    assert FormatByType(op', p[1..], walk) == Ok(op');
    SetSingle(Member("operation", op'), op');
  }

  lemma OtherPathsNoOp(ms': seq<Member>, walk: Walk)
    ensures AllValid(Paths[1..])
    ensures FormatAll(PayloadRequest(ms'), Paths[1..], walk) == Ok(PayloadRequest(ms'))
  {
    var req := PayloadRequest(ms');
    PathsValid();
    var rest := Paths[1..];
    assert AllValid(rest) by {
      forall i | 0 <= i < |rest| ensures ValidPath(rest[i]) {
        assert rest[i] == Paths[i + 1];
      }
    }
    forall i | 0 <= i < |rest| ensures FormatByType(req, rest[i], walk) == Ok(req) {
      if i < 4 {
        assert rest[i] == OperationPaths[i + 1];
        BlockPathNoOp(ms', rest[i], walk);
      } else {
        var p := rest[i];
        assert |p| > 1 && (p[0] == "records" || p[0] == "app" || p[0] == "app_action") by {
          if i < 4 + |RecordPaths| {
            assert p == RecordPaths[i - 4];
          } else {
            assert p == AppPaths[i - 4 - |RecordPaths|];
          }
        }
        GetSingle(Member("operation", Obj([Member("payload", Obj(ms'))])), p[0]);
      }
    }
    FormatAllNoOp(req, rest, walk);
  }

  /** On a request whose operation carries only a payload object of
      object-valued entries, the path-driven formatter and the endpoint-gated
      one of lib/formatters/request.js (on a Create call) give the same
      result: every entry's `data` encoded, nothing else touched. As written
      this needs the payload to have no entry named `$ANY`; the corrected walk
      agrees without that condition. */
  lemma AgreesWithEndpointFormatter(ms: seq<Member>, walk: Walk)
    requires DistinctKeys(ms)
    requires forall i :: 0 <= i < |ms| ==> ms[i].value.Obj?
    requires walk.Corrected? || NoWildcardKey(ms)
    ensures FormatAll(PayloadRequest(ms), Paths, walk) == LibRequest.JsonRequestToProto(PayloadRequest(ms), LibRequest.CreatePath)
    ensures MapValues(ms, LibRequest.ConvertData).Ok?
    ensures FormatAll(PayloadRequest(ms), Paths, walk) == Ok(PayloadRequest(MapValues(ms, LibRequest.ConvertData).value))
  {
    PathsValid();
    FirstPathOnPayload(ms, walk);
    OtherPathsNoOp(MapValues(ms, LibRequest.ConvertData).value, walk);
    LibRequest.CreateConvertsPayload(ms);
  }

  /** As written, a payload entry named `$ANY` is converted by the loop and
      then again by the walk of the payload object with `$ANY.data`, so its
      `data` is encoded twice; the corrected walk encodes it once, as the
      endpoint-gated formatter does. */
  lemma WildcardEntryEncodedTwice()
    ensures var ms := [Member(Any, Obj([Member("data", Num(1))]))];
      FormatAll(PayloadRequest(ms), Paths, AsWritten)
        == Ok(PayloadRequest([Member(Any, Obj([Member("data", Encode(Encode(Num(1))))]))])) &&
      FormatAll(PayloadRequest(ms), Paths, Corrected)
        == Ok(PayloadRequest([Member(Any, Obj([Member("data", Encode(Num(1)))]))])) &&
      LibRequest.JsonRequestToProto(PayloadRequest(ms), LibRequest.CreatePath)
        == Ok(PayloadRequest([Member(Any, Obj([Member("data", Encode(Num(1)))]))]))
  {
    var ms := [Member(Any, Obj([Member("data", Num(1))]))];
    WildcardEntryOnce();
    AgreesWithEndpointFormatter(ms, Corrected);
    WildcardFirstPath();
    OtherPathsNoOp([Member(Any, Obj([Member("data", Encode(Encode(Num(1))))]))], AsWritten);
  }

  lemma WildcardEntryOnce()
    ensures MapValues([Member(Any, Obj([Member("data", Num(1))]))], LibRequest.ConvertData)
         == Ok([Member(Any, Obj([Member("data", Encode(Num(1)))]))])
  {
    var entry := Obj([Member("data", Num(1))]);
    GetSingle(Member("data", Num(1)), "data");
    SetSingle(Member("data", Num(1)), Encode(Num(1)));
    assert LibRequest.ConvertData(entry) == Ok(Obj([Member("data", Encode(Num(1)))]));
    MapValuesSingle(Member(Any, entry), LibRequest.ConvertData);
  }

  lemma MapValuesSingle(m: Member, f: Json -> Result<Json>)
    requires f(m.value).Ok?
    ensures MapValues([m], f) == Ok([Member(m.key, f(m.value).value)])
  {
    assert [m][1..] == [];
    assert MapValues([m][1..], f) == Ok([]);
    assert [Member(m.key, f(m.value).value)] + [] == [Member(m.key, f(m.value).value)];
  }

  /** The second visit: the converted entry named `$ANY` is found by name and
      its `data` encoded once more. */
  lemma WildcardSecondVisit()
    ensures var v1 := Obj([Member("data", Encode(Num(1)))]);
      FormatByType(Obj([Member(Any, v1)]), [Any, "data"], AsWritten)
        == Ok(Obj([Member(Any, Obj([Member("data", Encode(Encode(Num(1))))]))]))
  {
    var v1 := Obj([Member("data", Encode(Num(1)))]);
    var v2 := Obj([Member("data", Encode(Encode(Num(1))))]);
    GetSingle(Member(Any, v1), Any);
    GetSingle(Member("data", Encode(Num(1))), "data");
    SetSingle(Member("data", Encode(Num(1))), Encode(Encode(Num(1))));
    assert FormatByType(v1, ["data"], AsWritten) == Ok(v2);
    SetSingle(Member(Any, v1), v2);
  }

  lemma WildcardPayloadLevel()
    ensures var ms := [Member(Any, Obj([Member("data", Num(1))]))];
      var ms2 := [Member(Any, Obj([Member("data", Encode(Encode(Num(1))))]))];
      FormatByType(Obj([Member("payload", Obj(ms))]), ["payload", Any, "data"], AsWritten)
        == Ok(Obj([Member("payload", Obj(ms2))]))
  {
    var ms := [Member(Any, Obj([Member("data", Num(1))]))];
    var ms2 := [Member(Any, Obj([Member("data", Encode(Encode(Num(1))))]))];
    WildcardEntryOnce();
    PayloadLoop(ms, AsWritten);
    WildcardSecondVisit();
    GetSingle(Member("payload", Obj(ms)), "payload");
    SetSingle(Member("payload", Obj(ms)), Obj(ms2));
  }

  lemma WildcardFirstPath()
    ensures var ms := [Member(Any, Obj([Member("data", Num(1))]))];
      FormatByType(PayloadRequest(ms), Paths[0], AsWritten)
        == Ok(PayloadRequest([Member(Any, Obj([Member("data", Encode(Encode(Num(1))))]))]))
  {
    var ms := [Member(Any, Obj([Member("data", Num(1))]))];
    var ms2 := [Member(Any, Obj([Member("data", Encode(Encode(Num(1))))]))];
    WildcardPayloadLevel();
    var op := Obj([Member("payload", Obj(ms))]);
    GetSingle(Member("operation", op), "operation");
    SetSingle(Member("operation", op), Obj([Member("payload", Obj(ms2))]));
    assert Paths[0] == ["operation", "payload", Any, "data"];
    assert Paths[0][1..] == ["payload", Any, "data"];
  }

  /** `{operation: {payload: null}}`: the endpoint-gated formatter falls back
      to `{}` and leaves the request alone, while the path-driven one reaches
      `Object.keys(null)` and throws. */
  lemma NullPayloadRejected(walk: Walk)
    ensures var req := Obj([Member("operation", Obj([Member("payload", Null)]))]);
      FormatAll(req, Paths, walk).Err? &&
      LibRequest.JsonRequestToProto(req, LibRequest.CreatePath) == Ok(req)
  {
    var op := Obj([Member("payload", Null)]);
    var req := Obj([Member("operation", op)]);
    GetSingle(Member("operation", op), "operation");
    GetSingle(Member("payload", Null), "payload");
    GetSingle(Member("payload", Null), "input");
    GetSingle(Member("payload", Null), "output");
    SetSingle(Member("operation", op), op);
    PathsValid();
    assert Paths[0] == ["operation", "payload", Any, "data"];
    assert Paths[0][1..] == ["payload", Any, "data"];
    assert FormatByType(op, Paths[0][1..], walk).Err?;
    assert FormatByType(req, Paths[0], walk).Err?;
    assert LibRequest.ConvertOperationPayload(op) == Ok(op);
  }
}

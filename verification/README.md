# rele.ai command-line client core in Dafny

This project models the logic of the rele.ai command-line client and of its deployment helper script. The client turns the YAML configs of an application into requests to the rele.ai components service. The helper script, run by the CI workflow, deploys the platform's own services to Kubernetes. Every network, file, process and cloud call is either a parameter of the model or left out.

The model is organised by the program's own structure:

- **Values and encodings.**
  - `Js`: the JavaScript values the client handles, with truthiness, property read and write, `typeof` and strict equality.
  - `JsonText`: `JSON.stringify` and a parser for its output.
  - `Utf8`: the encoding `Buffer.from` applies.
  - `Strings`: `split`, `join` and `replace`.
  - `ProtoValue`: the `google.protobuf.Value` / `Struct` encoding of JSON values.
  - `Frame`: the gRPC-Web Length-Prefixed-Message frame.
- **Request and response formatters.**
  - `LibRequest` (lib/formatters/request.js) and `LegacyRequest` (lib/utils/request.js) are the endpoint-gated formatters.
  - `PathRequest` (packages/cli/lib/formatters/request.js) is the path-driven formatter.
  - `Response` covers both response formatters.
  - `ProxyClient` is the proxy client's response hook and its trailer status parser.
- **Config-pipeline utilities.**
  - `CaseConv`: `toSnakeCase` and `toPascalCase`.
  - `ConfigUtils`: `docListToObj`, `stagesByTypes`, `groupByVersion` and `generateRbTag`.
  - `SortTypes` over a generic `StableSort`: `sortByTypes`.
  - `NextOps`: the `next` / `on_error` selector rewriting.
  - `Flatten`: both `flatten` helpers.
  - `ToBytes`, `LocalPath`, `DeployUser` and `DevPorts`: the small helpers.
- **Plugins.**
  - `DefaultGroups`: the default-groups plugin.
  - `PluginApi`: `declare` and the plugin loader.
- **Components service and commands.** The remote store is a `list` / `getByKey` oracle.
  - `Components`: the components clients of lib/components/index.js.
  - `VersionSelect` and `CommandCommon`: the pieces the commands share.
  - `ApplyCommand`, `TokensCommand`, `DeleteCommand` and `GetCommands`: the reconciliation decisions of `apply`, `app:tokens`, `delete` and the read commands.
- **CI deployment helpers** (packages/ops/github-actions/utils/util.py).
  - `DeployUtil`: the environment table, the cluster table and the ConfigMap and Deployment create-or-patch decisions. The Kubernetes calls are oracles.
  - `EnvMerge`: `collect_envs`, including its module-level accumulator.

Errors are values. A JavaScript `throw` or a Python `raise` is `Wrappers.Err` carrying the error text.

The model follows util.py as written:

- `update_deployment` tests existence by the service name `src`, not by the manifest's `metadata.name` (util.py:138).
- Its not-found error names `src` and the namespace.
- The ConfigMap reconciler lists and patches with name and namespace swapped. The model keeps this as written and records it as a finding below.
- A response without the success marker is not an error. It is the message "configMap Failed" or "<src> deployment failed" (util.py:121, 144).
- The accumulator of `collect_envs` is module-global. Keys from an earlier call therefore survive into later results (util.py:10, 210).

## Model

| member | source | states |
|---|---|---|
| ProtoValue.Encode | lib/formatters/request.js:39-84 | every encoding is an object, and it is the empty object (no `kind`) exactly when the value is undefined, the one unsupported type |
| ProtoValue.EncodeItems | lib/formatters/request.js:52-59 | an array's `listValue.values` has one encoded element per element |
| ProtoValue.EncodeFieldsDistinct | lib/formatters/request.js:20-31 | when no key repeats, the for-in assignment of `fields` gives one encoded field per member, keys and order kept |
| ProtoValue.Decode | lib/formatters/response.js:54-87 | a decoded value is never nested deeper than the proto it came from |
| ProtoValue.DecodeList | lib/formatters/response.js:74-77 | a decoded `listValue` is always an array |
| ProtoValue.DecodeItems | lib/formatters/response.js:77 | a successful element-wise decode keeps the number of elements |
| ProtoValue.DecodeStruct | lib/formatters/response.js:25-45 | a decoded struct is always an object |
| ProtoValue.DecodeFallbacks | lib/formatters/response.js:28-30 | a missing proto, a kindless proto and an unknown kind decode to null; a struct without truthy `fields` decodes to `{}` |
| ProtoValue.PrimitiveRoundTrip | lib/formatters/request.js:68-76 | null, numbers, strings and booleans decode back to themselves after encoding |
| ProtoValue.ListShape | lib/formatters/response.js:74-77 | decoding an encoded array is decoding its encoded elements |
| ProtoValue.StructShape | lib/formatters/response.js:80-83 | decoding an encoded object is decoding its encoded members |
| ProtoValue.ItemsRoundTrip | lib/formatters/response.js:77 | decoding the encoded elements of an array gives the elements back |
| ProtoValue.FieldsRoundTrip | lib/formatters/response.js:38-40 | decoding the encoded members of an object appends exactly the original members |
| ProtoValue.RoundTrip | lib/formatters/response.js:54-87 | `valueProtoToJson(jsonValueToProto(v))` is `v` for every JSON value: null, booleans, numbers, strings, arrays and objects |
| LibRequest.ConvertField | lib/formatters/request.js:124-126 | reading a field of a null or undefined payload entry throws, and only then; an object gets that field replaced by its encoding, as `data` here and the whole `value` in lib/utils/request.js:65-72 |
| LibRequest.ConvertFunctionData | lib/formatters/request.js:96-100 | converting one format or redis function never throws, and a function whose `value.data` is falsy (0, "", false, null, missing) is left as it is |
| LibRequest.ConvertFunctionList | lib/formatters/request.js:93-107 | a missing function list defaults to `[]` and changes nothing; a list that is present but not an array throws; an array has every function converted, in order, it fails exactly when one conversion fails, and the block's other keys are untouched |
| LibRequest.FormatInputOutput | lib/formatters/request.js:91-108 | a missing input or output block defaults to `{}` and changes nothing; a null one throws on destructuring; a block listing both kinds of function gets both lists converted function by function, in order, and fails exactly when a conversion fails |
| LibRequest.WriteBack | lib/formatters/request.js:121 | writing the converted operation back never fails on an object payload and leaves a defined value |
| LibRequest.ConvertOperationPayload | lib/formatters/request.js:124-126 | a falsy `operation.payload` makes the payload loop a no-op |
| LibRequest.FormatBlock | lib/formatters/request.js:128-132 | an absent input or output block leaves the operation as it is |
| LibRequest.JsonRequestToProto | lib/formatters/request.js:118-138 | the request comes back untouched unless the path is Operations Create or Update |
| LibRequest.PayloadEntriesConverted | lib/formatters/request.js:124-126 | every `operation.payload` entry has its `data` encoded, keys and order unchanged, and decoding gives the original `data` back |
| LibRequest.FunctionDataConverted | lib/formatters/request.js:97-98 | a truthy `value.data` of a function is replaced by its encoding, which decodes back to it |
| LibRequest.CreateConvertsPayload | lib/formatters/request.js:118-132 | end to end, a Create request whose operation carries only a payload object has exactly that object's entries converted |
| LibRequest.PayloadOnlyRequest | lib/formatters/request.js:128-132 | without input and output blocks, how functions are converted does not matter |
| LibRequest.BlockConverted | lib/formatters/request.js:128-132 | the input or output block is written back with both of its function lists converted |
| LibRequest.RequestConvertsFunctions | lib/formatters/request.js:91-138 | end to end, a Create or Update request whose operation has no payload and whose input and output blocks list both kinds of function succeeds, and each of the four lists in the result is the original list with every function converted, in order |
| LegacyRequest.FormatRequest | lib/utils/request.js:83-101 | the older formatter leaves every request but Operations Create untouched |
| LegacyRequest.UpdateOnlyInNewer | lib/utils/request.js:2-4 | an Update request is untouched by the older formatter, while the newer one rewrites it exactly as a Create request |
| LegacyRequest.AgreesOnPayload | lib/utils/request.js:84-91 | on a Create request that carries only a payload object, the older and the newer formatter give the same result |
| LegacyRequest.FunctionValueDiffers | lib/utils/request.js:65-67 | for a function whose value is `{data: 0}` the older formatter encodes the whole value and the newer one leaves it raw |
| LegacyRequest.FunctionValueRoundTrip | lib/utils/request.js:66 | the encoded function value decodes back to the original value |
| Response.FormatEntry | lib/formatters/response.js:121-132 | reading `kind` of a null or undefined property throws; a formatted property is never nested deeper than before |
| Response.FormatValue | lib/formatters/response.js:118-137 | the deep formatter returns every non-object unchanged and keeps an object's keys and an array's length |
| Response.FormatMembers | lib/formatters/response.js:119-133 | formatting an object's properties keeps its keys |
| Response.FormatItems | lib/formatters/response.js:119-133 | formatting an array's elements keeps its length |
| Response.TopFormatValue | lib/utils/response.js:76-82 | the older formatter throws on null and undefined, returns anything whose `kind` is not "structValue" unchanged, and decodes a struct to an object |
| Response.FormatList | lib/formatters/response.js:95-109 | a list whose first value is an array keeps only its first key, with every element formatted and the length kept; any other payload comes back unchanged; null throws |
| Response.Dispatch | lib/formatters/response.js:146-167 | get, create, delete and update go to the value formatter, "list" goes to the list formatter, and any other endpoint is returned unchanged |
| Response.PlainUnchanged | lib/formatters/response.js:118-137 | a response with no null and no recognised `kind` below its top is returned equal to itself |
| Response.EncodedKind | lib/formatters/response.js:9-16 | the encoding of every defined value names one of the six recognised kinds |
| Response.EncodedEntryDecoded | lib/formatters/response.js:125-127 | a property holding the encoding of a plain JSON value is formatted back to that value |
| Response.EncodedMembersDecoded | lib/formatters/response.js:119-133 | an object of encoded plain values is formatted back member by member |
| Response.ResponseRoundTrip | lib/formatters/response.js:118-137 | a response whose properties are all encodings of plain JSON values is formatted to the object of those values |
| Response.FormatMembersMaps | lib/formatters/response.js:119 | the key loop formats each property on its own and keeps the others |
| Response.FormatValueIsKeyLoop | lib/formatters/response.js:119-133 | formatting an object is the in-place loop `payload[key] = …` over its own keys |
| Response.NestedNullThrows | lib/formatters/response.js:121 | a null field nested inside a decoded struct makes the deep formatter throw |
| Response.ListRoundTrip | lib/formatters/response.js:102-105 | a list response keeps only its first key and formats every record |
| Response.NestedValueOnlyInNewer | lib/utils/response.js:76-82 | the deep formatter decodes a value nested in a get response; the older one returns the same response unchanged |
| Response.TopLevelRoundTrip | lib/utils/response.js:77-78 | the older formatter inverts the encoding of an object |
| Response.NullResponse | lib/utils/response.js:77 | a null get response is returned by the deep formatter and makes the older one throw |
| PathRequest.FormatByType | packages/cli/lib/formatters/request.js:186-214 | a null or undefined payload throws; a missing or non-object intermediate value makes the path a no-op, while a null one throws because `typeof null` is "object"; an object stays an object |
| PathRequest.FormatAnyKeys | packages/cli/lib/formatters/request.js:123-133 | only a `$ANY` second segment starts the key loop, and `Object.keys` of a null child throws |
| PathRequest.FormatAll | packages/cli/lib/formatters/request.js:227-229 | applying a non-empty list of paths throws on a null or undefined payload and keeps an object an object |
| PathRequest.JsonRequestToProto | packages/cli/lib/formatters/request.js:224-233 | the formatter throws on a null or undefined request and otherwise returns an object exactly when it was given one |
| PathRequest.CorrectedRequestToProto | packages/cli/lib/formatters/request.js:120-138 | with the missing `else` restored, the formatter keeps the same guarantees |
| PathRequest.PathsValid | packages/cli/lib/formatters/request.js:2-31 | there are 28 listed paths, each ends at a `data` segment and has no other `data` segment |
| PathRequest.NoProperPrefix | packages/cli/lib/formatters/request.js:2-31 | a path with `data` only at its end is never a proper prefix of another such path |
| PathRequest.PathsDistinct | packages/cli/lib/formatters/request.js:2-31 | no path is listed twice |
| PathRequest.ListedPathsPrefixFree | packages/cli/lib/formatters/request.js:2-31 | no listed path is a prefix of another when paths are compared segment by segment literally, with `$ANY` as an ordinary segment |
| PathRequest.LeafConverted | packages/cli/lib/formatters/request.js:191-198 | at the last segment the leaf is replaced by its encoding, a missing leaf by `{}`, and no other member changes |
| PathRequest.DataLeafIsConvertData | packages/cli/lib/formatters/request.js:195 | the `data` leaf step is exactly the endpoint-gated formatter's entry conversion |
| PathRequest.PayloadLoop | packages/cli/lib/formatters/request.js:126-132 | the `$ANY` loop over a payload object converts every entry's `data` |
| PathRequest.PayloadAfterLoop | packages/cli/lib/formatters/request.js:137 | after the loop, the walk by name finds no member called `$ANY` and changes nothing |
| PathRequest.FirstPathOnPayload | packages/cli/lib/formatters/request.js:3 | the first listed path converts the `data` of every payload entry |
| PathRequest.FormatAllNoOp | packages/cli/lib/formatters/request.js:227-229 | when every path is a no-op on a request, applying them all is too |
| PathRequest.BlockPathNoOp | packages/cli/lib/formatters/request.js:4-7 | an input or output path is a no-op on a request whose operation holds only a payload |
| PathRequest.OtherPathsNoOp | packages/cli/lib/formatters/request.js:4-30 | every path after the first is a no-op on a payload-only request |
| PathRequest.AgreesWithEndpointFormatter | packages/cli/lib/formatters/request.js:224-233 | on a payload-only request of object entries, the path-driven and the endpoint-gated formatter give the same result: every entry's `data` encoded |
| PathRequest.WildcardEntryEncodedTwice | packages/cli/lib/formatters/request.js:126-137 | as written, a payload entry named `$ANY` has its `data` encoded twice; the corrected walk encodes it once, as the endpoint-gated formatter does |
| PathRequest.WildcardSecondVisit | packages/cli/lib/formatters/request.js:137 | the second visit finds the converted `$ANY` entry by name and encodes its `data` again |
| PathRequest.NullPayloadRejected | packages/cli/lib/formatters/request.js:129 | for `{operation: {payload: null}}` the path-driven formatter throws while the endpoint-gated one returns the request unchanged |
| Frame.ToHex | lib/formatters/request.js:153 | `n.toString(16)` is a non-empty string of lowercase hex digits |
| Frame.HexFixed | lib/formatters/request.js:154 | the zero-padded fixed-width hex has exactly the requested width and only hex digits |
| Frame.PadSlice8 | lib/formatters/request.js:152-154 | `(pad + n).slice(-8)` always has eight characters |
| Frame.HexOfBytes | lib/formatters/request.js:149 | the hex of a byte string has two lowercase digits per byte |
| Frame.RequestFrame | lib/formatters/request.js:147-158 | the proxy frame is "00", then eight hex digits, then the message hex: 10 + 2·(bytes) characters, all hex |
| Frame.PadSliceIsFixed | packages/cli/lib/formatters/request.js:247-249 | the last eight characters of eight zeros followed by `toString(16)` are the length modulo 16^8 in eight digits |
| Frame.HexOfBigEndian | packages/cli/lib/formatters/request.js:248-249 | the hex of a value's big-endian bytes is its fixed-width hex |
| Frame.HexOfBytesAppend | packages/cli/lib/formatters/request.js:244 | the hex of concatenated bytes is the concatenation of their hex |
| Frame.RequestFrameIsHexOfFrame | packages/cli/lib/formatters/request.js:242-253 | the hex request frame is the hex of the binary frame: flag byte 0, four big-endian length bytes, the message |
| Frame.BytesValueBigEndian | packages/cli/lib/utils/proxy-client.js:15 | reading k big-endian bytes back gives the value modulo 256^k |
| Frame.UnframeRoundTrip | packages/cli/lib/utils/proxy-client.js:12-15 | cutting the message out of a frame gives the message back whenever it is shorter than 2^32 bytes |
| Frame.UnframeTruncates | packages/cli/lib/utils/proxy-client.js:15 | a message of 2^32 bytes or more is cut to its length modulo 2^32 |
| ProxyClient.GetResponseStatusCode | packages/cli/lib/utils/proxy-client.js:41-68 | the status parser always returns an object, whatever the text |
| ProxyClient.Hook | packages/cli/lib/utils/proxy-client.js:10-30 | the hook passes the unframed message on exactly when the parsed `grpc-status` is below 400, and throws otherwise |
| ProxyClient.PaddedStatusValid | packages/cli/lib/utils/proxy-client.js:41-68 | a trailer whose `grpc-status` value has a leading zero, such as "0500", is not JSON, so the status parser gives the valid response |
| ProxyClient.PaddedStatusRejected | packages/cli/lib/utils/proxy-client.js:61 | the JSON text built from such a trailer does not parse |
| ProxyClient.PaddedStatusPasses | packages/cli/lib/utils/proxy-client.js:10-30 | the hook passes a message with such a trailer on, unframed, instead of throwing |
| ProxyClient.NumeralAtLeast400 | packages/cli/lib/utils/proxy-client.js:25 | a status reaches 400 exactly when its number does, given as a number, a numeral string or a one-element array |
| ProxyClient.NumeralValue | packages/cli/lib/utils/proxy-client.js:25 | `Number` of the decimal text of n is n |
| ProxyClient.OthersBelow400 | packages/cli/lib/utils/proxy-client.js:25 | null, booleans, undefined and objects never reach 400 |
| ProxyClient.ValidPasses | packages/cli/lib/utils/proxy-client.js:43-46 | the fallback status 200 lets the response through |
| ProxyClient.WithoutKeysValid | packages/cli/lib/utils/proxy-client.js:53-64 | text that cannot mention "grpc-status" and "grpc-message" gets the 200 status |
| ProxyClient.WithoutKeysPasses | packages/cli/lib/utils/proxy-client.js:23-29 | such a response is passed on as the unframed message |
| ProxyClient.FlattenTrailer | packages/cli/lib/utils/proxy-client.js:50 | stringifying the trailer and dropping its quotes only escapes its line breaks |
| ProxyClient.SplitTrailer | packages/cli/lib/utils/proxy-client.js:56 | the flattened trailer splits at the escaped line breaks into its two lines and an empty tail |
| ProxyClient.RewriteTrailer | packages/cli/lib/utils/proxy-client.js:57-61 | the rewrite of the two trailer lines is the JSON text of the status object |
| ProxyClient.StatusTextParses | packages/cli/lib/utils/proxy-client.js:61 | `JSON.parse` reads that text back as `{grpc-status: code, grpc-message: msg}` |
| ProxyClient.TrailerStatus | packages/cli/lib/utils/proxy-client.js:56-61 | the trailer `grpc-status:N\r\ngrpc-message:M\r\n` parses to status N with message M |
| ProxyClient.TrailerHook | packages/cli/lib/utils/proxy-client.js:23-29 | on a framed trailer the hook fails exactly when the code is 400 or more, with the message or the fixed default text, and otherwise hands the message bytes on |
| CaseConv.SnakeMarks | packages/cli/src/utils/index.js:17-19 | after the capital-marking replacement no ASCII capital is left |
| CaseConv.DropLeadingUnderscore | packages/cli/src/utils/index.js:20 | one leading "_" is removed and nothing else; text without one is unchanged |
| CaseConv.ToSnakeCase | packages/cli/src/utils/index.js:16-21 | the snake-case name contains no ASCII capital |
| CaseConv.SnakeWithoutCapitals | src/utils/index.js:7-12 | text without ASCII capitals comes back unchanged, except that one leading "_" is dropped |
| CaseConv.SnakeSwallowsDot | packages/cli/src/utils/index.js:18 | a "." right before a capital is consumed: "a.B" becomes "a_b" |
| CaseConv.SnakeMarksPascal | packages/cli/src/utils/index.js:17-19 | the capital-marking scan turns a run of capitalised words into "_"-prefixed lower-case words |
| CaseConv.SnakeOfPascal | packages/cli/src/utils/index.js:16-21 | a PascalCase type name becomes its words joined by "_" |
| CaseConv.AppActionSnake | src/utils/index.js:7-12 | "AppAction" becomes "app_action" |
| CaseConv.DashesToSpace | packages/cli/lib/utils/index.js:89 | after the separator replacement no "-" or "_" is left |
| CaseConv.RemoveSpaces | packages/cli/lib/utils/index.js:95 | after the space removal no white space is left |
| CaseConv.UpperFirstWord | packages/cli/lib/utils/index.js:96 | raising the first word character keeps the length |
| CaseConv.CapitalizeWordsClass | packages/cli/lib/utils/index.js:91-94 | capitalising words keeps text of ASCII letters, digits and white space in that class |
| CaseConv.PascalIsAlnum | packages/cli/lib/utils/index.js:87-97 | every character of a `toPascalCase` result is an ASCII letter or digit, whatever the input |
| CaseConv.PascalOfSnake | lib/utils/index.js:64-74 | a snake-case type name becomes its words, each capitalised, joined with nothing between them |
| CaseConv.NameRoundTrips | packages/cli/lib/utils/index.js:87-97 | on type names the two conversions are inverse to each other in both directions |
| CaseConv.PascalOfTwo | lib/utils/index.js:66-73 | two type-name words around one underscore become the two capitalised words |
| CaseConv.AppActionsService | lib/utils/index.js:64-74 | "app_actions" becomes "AppActions" |
| CaseConv.UsersService | packages/cli/lib/utils/index.js:87-97 | "users" becomes "Users" |
| CaseConv.UnseparatedPascal | packages/cli/lib/utils/index.js:96 | text without separators or white space only has its first character raised |
| CaseConv.SeparatedPascal | packages/cli/lib/utils/index.js:91-94 | after a separator a word of two or more characters has its first character raised and the rest lowered |
| CaseConv.SeparatedClassName | lib/components/index.js:342-344 | the class name of two words around one underscore raises both first characters and lowers the rest of "<second>Client" |
| CaseConv.ClassNameUsers | lib/components/index.js:342-344 | `generateClassName("users")` is "UsersClient" |
| CaseConv.ClassNameAppActions | lib/components/index.js:342-349 | `generateClassName("app_actions")` is "AppActionsclient" |
| CaseConv.ShortWordNotCapitalised | lib/utils/index.js:68-71 | a one-character word after a separator is not capitalised: "a_b" becomes "Ab" |
| ToBytes.ToBytes | packages/cli/lib/utils/index.js:103-116 | falsy data (0, "", false, null, undefined) gives undefined and only it; `true`, the one other constructor, throws "unsupporeted type"; any other value gives bytes that decode to its `JSON.stringify` text |
| ToBytes.ToBytesRoundTrip | src/utils/base-command.js:95-108 | decoding the bytes and parsing the text gives the value back |
| ToBytes.FalsyGivesNothing | src/utils/base-command.js:96 | 0, "", null and false give undefined |
| ToBytes.ToBytesInjective | packages/cli/lib/utils/index.js:110-111 | different JSON values never give the same bytes |
| LocalPath.Head | packages/cli/src/utils/local-path.js:11 | the part of a path the expression inspects is a prefix of at most two characters |
| LocalPath.OnlyHeadMatters | packages/cli/src/utils/local-path.js:11 | two paths with the same first two characters are both local or both not |
| LocalPath.LocalIff | packages/cli/src/utils/local-path.js:11 | a path is local exactly when it starts with "." or "/", or with an ASCII letter and ":" |
| LocalPath.Examples | packages/cli/src/utils/local-path.js:10-12 | "", "owner/repo" and "github:owner/repo" are remote; "C:\tpl" and "./tpl" are local |
| DeployUser.Split | src/commands/deploy/user.js:18 | splitting gives at least one piece and no piece holds the separator |
| DeployUser.JoinSplit | src/commands/deploy/user.js:18 | joining the pieces gives the text back |
| DeployUser.LastAt | src/commands/deploy/user.js:18 | the offset found is an "@" with none after it, and none is found only when there is no "@" |
| DeployUser.DomainHasNoAt | src/commands/deploy/user.js:18 | no text the domain alternatives accept contains "@" |
| DeployUser.CheckEmailIsEmail | src/commands/deploy/user.js:18-20 | the computed check accepts exactly the addresses the regular expression matches |
| DeployUser.GetUsersInput | src/commands/deploy/user.js:13-26 | the input is accepted exactly when every argument is a valid address, a rejection names an invalid argument with none before it, and the result is the arguments without repeats |
| DeployUser.FirstInvalid | src/commands/deploy/user.js:19-24 | the index found is the first rejected argument, and none is found only when all are valid |
| DeployUser.LoadUsers | src/commands/deploy/user.js:31-42 | loading fails exactly when the input is rejected, and the personal-id branch is taken exactly when there are no arguments |
| DeployUser.DedupElements | src/commands/deploy/user.js:19 | the de-duplicated list has no repeats and holds exactly the elements of the input |
| DeployUser.DedupEmpty | src/commands/deploy/user.js:37 | the de-duplicated list is empty exactly when the input is |
| DeployUser.DedupOrder | src/commands/deploy/user.js:19 | the result keeps the order of first occurrences |
| DeployUser.DedupDistinct | src/commands/deploy/user.js:19 | a list without repeats is returned as it is |
| DeployUser.DedupIdempotent | src/commands/deploy/user.js:19 | de-duplicating twice changes nothing more |
| DeployUser.UsersAreDistinctArgs | src/commands/deploy/user.js:19-25 | with valid addresses only, the users are exactly the distinct arguments |
| DeployUser.RepeatedAddress | src/commands/deploy/user.js:19 | `[a, b, a]` of valid distinct addresses gives `[a, b]` |
| DevPorts.NextActivePort | packages/cli/src/commands/dev.js:41-50 | each call appends exactly one port, and the port returned is the new last element |
| DevPorts.NextAfter | packages/cli/src/commands/dev.js:43 | the first call returns 9090, and each later one the previous port plus one |
| DevPorts.HandedConsecutive | packages/cli/src/commands/dev.js:41-50 | after n calls from a fresh list the ports are 9090, 9091, …, 9089 + n |
| DevPorts.HandedIncreasing | packages/cli/src/commands/dev.js:43-46 | the ports handed out are strictly increasing, so none is handed out twice |
| Strings.SplitPiecesClean | packages/cli/lib/utils/proxy-client.js:56 | no piece that `split` produces holds the separator |
| Strings.JoinSplitOn | packages/cli/lib/utils/proxy-client.js:56-57 | joining the pieces of `split` with the separator gives the text back |
| Strings.ReplaceAllIsSplitJoin | packages/cli/lib/utils/proxy-client.js:50 | replacing every occurrence is the same as splitting at them and joining with the replacement |
| Strings.ReplaceAllChar | packages/cli/lib/utils/proxy-client.js:50 | `replace(/c/g, "")` with a one-character pattern takes out every `c` and keeps the other characters in order |
| Strings.RemovedCharAbsent | packages/cli/lib/utils/proxy-client.js:50 | after that replacement the character no longer occurs |
| Utf8.DecodeEncode | packages/cli/lib/utils/index.js:111 | decoding the bytes `Buffer.from` makes of a string gives the string back |
| Utf8.EncodeInjective | packages/cli/lib/utils/index.js:111 | different strings give different bytes |
| Utf8.AsciiBytes | packages/cli/lib/utils/index.js:111 | ASCII text takes one byte per character, the byte being its code |
| Utf8.LossyAgrees | packages/cli/src/utils/base-command.js:106 | on well-formed bytes `toString("utf-8")` is strict decoding |
| Utf8.LossyMarks | packages/cli/src/utils/base-command.js:106 | malformed bytes always leave a U+FFFD in the decoded text |
| JsonText.ParseStringify | packages/cli/lib/utils/index.js:110 | `JSON.parse(JSON.stringify(v))` gives `v` back for every JSON value |
| JsonText.ValueRoundTrip | packages/cli/lib/utils/proxy-client.js:61 | the text of a value parses back to it, whatever non-digit text follows |
| JsonText.StringifyExample | packages/cli/lib/utils/proxy-client.js:50 | a small object prints without white space, its members in their order |
| JsonText.ParseTextNoSpace | packages/cli/lib/utils/proxy-client.js:61 | on text without white space `JSON.parse` is the compact parser; that parser refuses leading zeros and keeps the last value of a repeated key, as `JSON.parse` does |
| JsonText.ParseNat | packages/cli/lib/utils/proxy-client.js:61 | the digits of a number are read as their value, and a zero followed by another digit is refused |
| JsonText.LeadingZeroRejected | packages/cli/lib/utils/proxy-client.js:61 | a number with a leading zero, negative or not, is not a JSON value |
| JsonText.FirstValueRejected | packages/cli/lib/utils/proxy-client.js:61 | an object whose first member's value does not parse does not parse |
| JsonText.RepeatedKeyLastWins | packages/cli/lib/utils/proxy-client.js:61 | in a parsed object each key reads as the last value written for it in the text |
| JsonText.LeadingSpace | packages/cli/src/utils/base-command.js:106 | white space before the first token changes nothing |
| JsonText.ParseTextExamples | packages/cli/src/utils/base-command.js:106 | a number with spaces around it parses; two numbers separated by a space do not |
| JsonText.ParseTextBrace | packages/cli/lib/utils/proxy-client.js:61 | whatever `JSON.parse` makes of text that starts with a brace is an object |
| Flatten.FlattenIsLeaves | packages/cli/src/utils/index.js:241-251 | the walk writes exactly the leaves of the value under their dotted paths, in walk order, and throws exactly when the value is null or undefined or holds a null |
| Flatten.FlattenIsFlat | packages/cli/src/utils/index.js:241-251 | flattening from an empty result gives distinct keys and no nested values |
| Flatten.FlatObjectUnchanged | packages/cli/src/utils/index.js:244-247 | an object that is already flat is its own flattening |
| Flatten.FlattenIdempotent | packages/cli/src/utils/index.js:241-251 | flattening a flattened object changes nothing |
| Flatten.FlattenArray | src/utils/formatters.js:6-10 | the `reduce` with `concat` gives the non-array leaves of the nested list, left to right |
| Flatten.FlatAppend | src/utils/formatters.js:7-8 | flattening distributes over concatenation |
| Flatten.FlatUnchanged | src/utils/formatters.js:8 | a list with no nested arrays is its own flattening |
| Flatten.FlatIdempotent | src/utils/formatters.js:6-10 | flattening twice is flattening once |
| Flatten.FlatKeepsLeaf | src/utils/formatters.js:8 | a non-array item survives as itself, between the flattenings of what precedes and what follows it |
| ConfigUtils.DocListToObj | packages/cli/src/utils/index.js:29-38 | the result is an object, and building it fails exactly when some document is null or undefined |
| ConfigUtils.DocListLastWins | packages/cli/src/utils/index.js:33-35 | the object maps an id to the last document with that id |
| ConfigUtils.DocListMissing | packages/cli/src/utils/index.js:33-35 | an id no document has reads as undefined |
| ConfigUtils.RbTag | packages/cli/src/utils/index.js:208-210 | every tag starts with "rb-" |
| ConfigUtils.RbTagInverse | packages/cli/src/utils/index.js:208-210 | the version text is what follows "rb-", so two tags agree exactly when the version texts do |
| ConfigUtils.StageOf | packages/cli/src/utils/index.js:76-89 | every document goes to one of the three stages |
| ConfigUtils.StagesByTypes | packages/cli/src/utils/index.js:71-94 | the split fails exactly when some document is null or undefined |
| ConfigUtils.StagesAreSelections | packages/cli/src/utils/index.js:82-90 | each stage is the selection, in input order, of the documents whose type belongs to it |
| ConfigUtils.StagesPartition | packages/cli/src/utils/index.js:82-93 | together the three stages hold every document exactly once |
| ConfigUtils.StageLengths | packages/cli/src/utils/index.js:82-93 | the stage lengths add up to the number of documents |
| ConfigUtils.GroupBy | packages/cli/src/utils/index.js:218-232 | grouping fails exactly when some item is null or undefined |
| ConfigUtils.GroupItemsIsReference | packages/cli/src/utils/index.js:221-229 | the loop builds one group per distinct key, in order of first occurrence, each holding that key's items in input order |
| ConfigUtils.GroupSharesKey | packages/cli/src/utils/index.js:222-228 | every group is non-empty and all its items have the same key |
| ConfigUtils.GroupsApart | packages/cli/src/utils/index.js:224-226 | two different groups have different keys |
| ConfigUtils.ItemGrouped | packages/cli/src/utils/index.js:228 | every item lands in some group |
| ConfigUtils.GroupTwo | packages/cli/src/utils/index.js:218-232 | two items form one group when their keys agree and two groups otherwise |
| ConfigUtils.Collision | packages/cli/src/utils/index.js:222 | the items with key "a__b" and version "c" and with key "a" and version "b__c" fall into one group as written, and into two when grouped by the pair of key and version |
| StableSort.Compare | packages/cli/src/utils/index.js:59-61 | the comparator gives 1, -1 or 0 exactly as the first rank is greater, the second is greater, or neither, a missing rank never being greater |
| StableSort.InsertionSortPermutes | packages/cli/src/utils/index.js:59 | the sort only reorders the elements |
| StableSort.SortStable | packages/cli/src/utils/index.js:59-61 | for every rank the elements of that rank keep their input order, whatever the ranks |
| StableSort.SortSorted | packages/cli/src/utils/index.js:59-61 | with every element ranked, no element comes after one of a higher rank |
| StableSort.SwapTwo | packages/cli/src/utils/index.js:60 | two ranked elements out of order are swapped |
| SortTypes.Rank | packages/cli/src/utils/index.js:51-57 | a known type ranks below 5 |
| SortTypes.SortByTypes | packages/cli/src/utils/index.js:50-62 | sorting throws exactly when there are two or more defined elements and one of them is null |
| SortTypes.SortPermutes | packages/cli/src/utils/index.js:59 | the result holds exactly the input's elements |
| SortTypes.NoRankWithoutType | packages/cli/src/utils/index.js:60 | null and undefined have no rank |
| SortTypes.SortByTypesOrders | packages/cli/src/utils/index.js:50-62 | on configs whose types are all in the table the sort never throws, orders by type (App, Workflow, Translation, AppAction, Operation) and keeps the input order within a type |
| SortTypes.AppBeforeWorkflow | packages/cli/src/utils/index.js:51-61 | a workflow listed before an app is moved after it |
| NextOps.ConfNext | packages/cli/src/utils/index.js:109-141 | a next value with no own keys becomes `{}`; otherwise it becomes an object holding only a selector list with one selector per entry, and the rewrite fails exactly when some entry's selector does |
| NextOps.ConfSelectorShape | packages/cli/src/utils/index.js:117-139 | a selector carries the entry's type and its workflow's key, a rematch flag that is never null and has the entry's truthiness, and a `next` target exactly for an operation or for a workflow without rematch, holding the target's key |
| NextOps.ConfSettled | packages/cli/src/utils/index.js:144-147 | descending into the value just written changes nothing |
| NextOps.ConfPlainUnchanged | packages/cli/src/utils/index.js:105-149 | a document with no next or on_error key and no null inside is left as it is |
| NextOps.ConfNullThrows | packages/cli/src/utils/index.js:145-146 | a null under an ordinary key makes the forward rewriting throw, wherever it sits |
| NextOps.DocNext | packages/cli/src/utils/index.js:163-194 | a missing or falsy selector list gives `{}`, a truthy selector that is not an array throws, and every result is an object |
| NextOps.DocEntryFields | packages/cli/src/utils/index.js:171-190 | an entry is keyed by a non-empty workflow id whose key is the selector's workflow; id and type are copied, rematch defaults to false, and version is present exactly when the selector's is truthy |
| NextOps.DocEntryUnknown | packages/cli/src/utils/index.js:190-192 | a selector whose workflow key no workflow carries throws the unknown-workflow error naming that key |
| NextOps.DocSelectsLastWins | packages/cli/src/utils/index.js:181 | each workflow id holds the entry of the last selector naming it |
| NextOps.DocSelectsKeeps | packages/cli/src/utils/index.js:181 | a key no selector names keeps its value |
| NextOps.DocSelectsKeys | packages/cli/src/utils/index.js:171-193 | the map's keys are the earlier keys and the selectors' workflow ids, and nothing else |
| NextOps.DocPlainUnchanged | packages/cli/src/utils/index.js:159-201 | the backward rewriting leaves a document with no next or on_error key and no null inside as it is |
| NextOps.ConfThenDoc | packages/cli/src/utils/index.js:117-190 | reading back a selector the forward direction built recovers the workflow id, the type, the defaulted rematch flag and the target, and adds no version |
| NextOps.FindsOwnId | packages/cli/src/utils/index.js:173-175 | in a table whose workflow keys are unique, the search by key finds the entry's own id |
| DefaultGroups.CheckFilter | packages/rb-plugin-default-groups/src/utils.js:7-16 | a filter is checked exactly when its condition is "==" or "!=", any other condition throws "unexpected condition", and "==" is strict equality |
| DefaultGroups.NotEqualNegates | packages/rb-plugin-default-groups/src/utils.js:9-12 | "!=" is the negation of "==" on the same operands |
| DefaultGroups.CheckFilterSymmetric | packages/rb-plugin-default-groups/src/utils.js:10 | "==" does not depend on the order of its operands |
| DefaultGroups.ReduceStep | packages/rb-plugin-default-groups/src/index.js:35 | once the accumulator is a boolean, the next call of the callback throws |
| DefaultGroups.ReduceTwo | packages/rb-plugin-default-groups/src/index.js:35 | with two filters only the first decides; the second never influences the outcome |
| DefaultGroups.ReduceOne | packages/rb-plugin-default-groups/src/index.js:35 | a single filter selects without being checked, whatever its condition |
| DefaultGroups.ReduceMany | packages/rb-plugin-default-groups/src/index.js:35 | three or more filters always throw |
| DefaultGroups.EveryFilterHolds | packages/rb-plugin-default-groups/src/index.js:35 | the intended reading selects exactly when every filter is well formed and holds |
| DefaultGroups.AssignLastWins | packages/rb-plugin-default-groups/src/converters.js:6-16 | the operations map holds, for every operation key and workflow key, the last value assigned |
| DefaultGroups.RewriteSelectors | packages/rb-plugin-default-groups/src/converters.js:24-27 | there is one rewritten selector per selector, and rewriting fails exactly when some selector is null or undefined |
| DefaultGroups.RewrittenSelector | packages/rb-plugin-default-groups/src/converters.js:24-27 | the rewritten selector keeps the workflow and names the linked operation, or a fresh `<uuid>_get_notification` when none is linked |
| DefaultGroups.LinkedTarget | packages/rb-plugin-default-groups/src/converters.js:13-15 | the operation a rewritten selector names is read from the last assignment the metadata made for it |
| DefaultGroups.Converters | packages/rb-plugin-default-groups/src/converters.js:3-73 | the converters list holds exactly one group, with one document more than the configuration has selectors |
| DefaultGroups.BaseOperationOverrides | packages/rb-plugin-default-groups/src/converters.js:18-31 | the base operation's payload keeps only the content (default ""), its selectors are the rewritten ones, and output and redis are empty |
| DefaultGroups.BaseOperationCopies | packages/rb-plugin-default-groups/src/converters.js:19 | every other field is the configuration's own |
| DefaultGroups.ConvertersBase | packages/rb-plugin-default-groups/src/converters.js:44-46 | the group's first document is the base operation over the rewritten selectors |
| DefaultGroups.ConvertersExtras | packages/rb-plugin-default-groups/src/converters.js:49-68 | the group's later documents, one per selector in order, are keyed by the operation the selector's workflow is linked to, and none is a root |
| DefaultGroups.NotificationFields | packages/rb-plugin-default-groups/src/converters.js:50-67 | a notification document is an Operation keyed by the selector's operation and is not a root |
| DefaultGroups.NotificationCall | packages/rb-plugin-default-groups/src/converters.js:52-65 | a notification document calls clara's get_notification and waits for the configured timeout, or 60 by default |
| DefaultGroups.DestructOperationsChoice | packages/rb-plugin-default-groups/src/index.js:33-43 | an Operation is replaced by the group's documents exactly when the reading of its filters selects it, and kept otherwise |
| DefaultGroups.FindSingle | packages/rb-plugin-default-groups/src/index.js:35 | searching a single group finds it exactly when it is selected |
| DefaultGroups.DropSessionReplaced | packages/rb-plugin-default-groups/src/index.js:35 | as written, a "send_message" operation whose output type is "drop_session" is still replaced; the intended reading keeps it |
| DefaultGroups.DestructGroups | packages/rb-plugin-default-groups/src/index.js:12-25 | a payload without truthy `yamlData` throws the missing-payload error, and success means `yamlData` was an array |
| DefaultGroups.ExpandDocsAppend | packages/rb-plugin-default-groups/src/index.js:14-21 | the expansion of a concatenation is the concatenation of the expansions |
| DefaultGroups.PlainDocsKept | packages/rb-plugin-default-groups/src/index.js:18-19 | documents that are neither Operations nor arrays pass through unchanged and in order |
| DefaultGroups.DestructGroupsFields | packages/rb-plugin-default-groups/src/index.js:13-14 | a successful destructuring replaces `yamlData` by the expanded documents and leaves every other field as it was |
| PluginApi.NewApi | packages/rb-plugin-helper-plugin-utils/src/declare.js:6-20 | a fresh api starts with no callbacks |
| PluginApi.OnListAppends | packages/rb-plugin-helper-plugin-utils/src/declare.js:12-14 | `onList` adds exactly one callback, at the end, and keeps the earlier ones |
| PluginApi.RunCallbacksAppend | packages/rb-plugin-helper-plugin-utils/src/declare.js:17 | running two lists of callbacks one after the other is running their concatenation |
| PluginApi.ExecuteOnList | packages/rb-plugin-helper-plugin-utils/src/declare.js:12-18 | a callback registered with `onList` runs after every earlier one, on the payload they leave behind |
| PluginApi.Calls | packages/rb-plugin-helper-plugin-utils/src/declare.js:17 | no more calls than callbacks, and the first callback is handed the payload itself |
| PluginApi.CallsComplete | packages/rb-plugin-helper-plugin-utils/src/declare.js:17 | a completed execution called every callback once, and a failed one stopped at the callback that threw |
| PluginApi.QuietCallsSeeSamePayload | packages/rb-plugin-helper-plugin-utils/src/declare.js:17 | callbacks that leave the payload as it is all see the same payload |
| PluginApi.RunStepsRegisters | packages/rb-plugin-helper-plugin-utils/src/declare.js:22-26 | a script of `onList` calls yields an api holding exactly its callbacks, after those already there |
| PluginApi.RunStepsOnThrows | packages/rb-plugin-helper-plugin-utils/src/declare.js:6-20 | a script with an `on` call anywhere throws a TypeError |
| PluginApi.OnThrows | packages/rb-plugin-helper-plugin-utils/src/declare.js:6-20 | no node of the api has an `on` member |
| PluginApi.RunPluginFresh | packages/rb-plugin-helper-plugin-utils/src/declare.js:5-27 | each call of a declared thunk starts from no callbacks, whatever earlier calls registered |
| PluginApi.DefaultGroupsScriptThrows | packages/rb-plugin-default-groups/src/index.js:66-76 | the default-groups plugin registers through namespaces the declared api lacks, so running it throws a TypeError |
| PluginApi.Contributed | packages/cli/src/utils/plugin.js:24-26 | a missing config contributes nothing |
| PluginApi.PluginsListOrder | packages/cli/src/utils/plugin.js:13-47 | local entries come first, in order, and the global ones, when loaded, follow; nothing else is in the list |
| PluginApi.GlobalSkippedIff | packages/cli/src/utils/plugin.js:29-35 | a local `useGlobalConfigs` of `false` stops the global config from loading, and every global entry is in the list exactly when it loads or the local list already holds that entry |
| PluginApi.NothingContributed | packages/cli/src/utils/plugin.js:19-43 | a missing file, a missing list and an empty list contribute nothing |
| PluginApi.Invoke | packages/cli/src/utils/plugin.js:60-66 | an entry that is neither a string nor a function, and only such an entry, throws "unsupported plugin type" |
| PluginApi.LoadFromAppend | packages/cli/src/utils/plugin.js:58-67 | loading one more entry invokes it after all the earlier ones and keeps what it produced |
| PluginApi.LastPluginWins | packages/cli/src/utils/plugin.js:52-70 | the loader gives `{}` for no entries and otherwise what the last entry produced, provided none threw |
| PluginApi.UnsupportedThrows | packages/cli/src/utils/plugin.js:64-66 | the loader throws "unsupported plugin type" at the first entry that is neither a string nor a function, when no earlier entry threw |
| PluginApi.ExportOf | packages/cli/src/utils/plugin.js:52-75 | without any plugin entry the module exports `{}`, with no namespaces |
| PluginApi.ResolveApi | packages/rb-plugin-helper-plugin-utils/src/declare.js:6-20 | only the empty path names the declared api itself |
| PluginApi.ResolveTranslation | packages/rb-plugin-helper-plugin-utils/src/declare.js:6-20 | the only namespace of the declared api is `translation` |
| PluginApi.ExecutePath | packages/rb-plugin-helper-plugin-utils/src/declare.js:6-20 | `<path>._execute` is a method of the declared api exactly when the path is `translation` |
| PluginApi.RunHook | packages/cli/src/commands/apply.js:228-235 | a command's `plugin.<path>._execute("load", data, …)` throws a TypeError when no plugin is loaded |
| PluginApi.DeclaredHook | packages/rb-plugin-helper-plugin-utils/src/declare.js:16-18 | on a declared api every path other than `translation` throws a TypeError; `translation` runs the callbacks on the string "load", which is the first argument, and leaves the data alone |
| PluginApi.DeclaredLoaderHook | packages/cli/src/utils/plugin.js:52-75 | when every plugin entry is built by `declare`, a hook on any namespace but `translation` throws |
| Components.Singular | lib/components/index.js:45 | the schema name is the plural type without its last character |
| Components.ValidateSchema | lib/components/index.js:41-52 | a type without a schema is reported as missing its schema; a type with one is checked against the schema named by the type without its last letter |
| Components.CreateCall | lib/components/index.js:61-76 | a create request is always a Create call with an object body |
| Components.CreateGated | lib/components/index.js:62 | create calls the service exactly when validation yields null, and never for a type without a schema |
| Components.CreateBodyFields | lib/components/index.js:65-68 | the create body carries the config's `org` when it has one and "" otherwise, and every other key is the config's |
| Components.UpdateBodyFields | lib/components/index.js:135-138 | the update body's id is the argument unless the config carries an `id`, which overrides it; other keys are the config's |
| Components.OrgConditionScope | lib/components/index.js:229-231 | a list asks for exactly the "global" organisation and the user's own |
| Components.GetByKeyNarrowsList | lib/components/index.js:246-252 | `getByKey` makes the List call with the list's organisation condition followed by the type's key field equal to the key |
| Components.GetByKey | lib/components/index.js:255-263 | the only errors are a reply without the type's list and "Found too many" for the type; for an array list the call succeeds exactly when fewer than two configs match |
| Components.GetByKeyCardinality | lib/components/index.js:255-263 | no match gives null, one match gives that config, and two or more throw |
| Components.LengthOf | lib/components/index.js:255-256 | `.length` of an array is its size and of an object its own "length" member; only null and undefined throw |
| Components.GetByKeyObjectReply | lib/components/index.js:255-263 | an object list is read through its "length" member: a length of one gives its "0" member, a length below two other than one gives null, and two or more throw "Found too many" |
| Components.UpdateByKeyTarget | lib/components/index.js:283-294 | a found config is updated by its id, and nothing found throws the update not-found error naming the key |
| Components.DeleteByKeyTarget | lib/components/index.js:313-324 | the delete succeeds exactly when a config is found, and then deletes by its id; otherwise it throws the delete not-found error |
| Components.ByKeyPropagates | lib/components/index.js:285 | an error of the lookup reaches `updateByKey` and `deleteByKey` unchanged, so too many matches are never updated or deleted |
| Components.ConfKeys | lib/components/index.js:15-21 | apps match on system_key, app actions on operation_key, the other types on key, and users have no key field |
| VersionSelect.WrapVersions | packages/cli/src/commands/app/get.js:52-61 | falsy versions throw the command's message and only they do; a list is used as it is and a single id becomes a one-item list |
| VersionSelect.FilterResult | packages/cli/src/commands/app/get.js:58 | filtering never adds items |
| VersionSelect.FilterResultOk | packages/cli/src/commands/app/get.js:58 | filtering completes exactly when the callback returns on every item |
| VersionSelect.FilterResultFirstError | packages/cli/src/commands/app/get.js:58 | the first item on which the callback throws decides the error |
| VersionSelect.FilterResultMembers | packages/cli/src/commands/app/get.js:58 | an item is kept exactly when it is in the list and the callback accepts it |
| VersionSelect.FilterResultAppend | packages/cli/src/commands/app/get.js:58 | filtering a concatenation filters each part and keeps them in order |
| VersionSelect.FilterByVersions | packages/cli/src/commands/workflow/get.js:50-61 | falsy versions throw before the list is touched |
| VersionSelect.FilterByVersionsMembers | packages/cli/src/commands/app/get.js:51-62 | a config survives exactly when it is an item of the list whose version is one of the selected ids |
| VersionSelect.SingleVersion | packages/cli/src/commands/app/get.js:53-58 | a single id selects the configs of exactly that version |
| VersionSelect.FirstNonGlobal | packages/cli/src/commands/apply.js:197 | the entry found is the first whose org is not "global", and none is found only when every org is "global" |
| VersionSelect.ExistingIdKept | packages/cli/src/commands/apply.js:194-200 | a truthy id that is not a list is used as it is, and nothing is created |
| VersionSelect.ListResolvesToNonGlobal | packages/cli/src/commands/apply.js:196-197 | a list resolves to the id of its first entry outside the global org, when that id is truthy |
| VersionSelect.CreatedOnlyWhenMissing | packages/cli/src/commands/apply.js:200-210 | the created version's id is used when no id was found, and an id that was found is truthy |
| VersionSelect.SettleVersionCreates | packages/cli/src/commands/apply.js:186-214 | the `--version` flag wins over the package version, and when the lookup finds nothing the version created is keyed by that same number |
| CommandCommon.ExtraConditions | packages/cli/src/commands/apply.js:82-98 | a document gets at most one extra condition |
| CommandCommon.ExtraConditionsTranslation | packages/cli/src/commands/apply.js:88-94 | exactly a Translation gets an extra condition, and it matches on its `lang` |
| CommandCommon.ExtendFields | packages/cli/src/commands/apply.js:157 | `{...data, version}` has the new version and keeps every other field |
| ApplyCommand.ConditionsShape | packages/cli/src/commands/apply.js:144-146 | the lookup is narrowed by the language for a Translation only, and always ends with the key field of the type's table entry |
| ApplyCommand.KeyFieldOfApps | packages/cli/src/commands/apply.js:146 | an App is looked up by its system key and an AppAction by its operation key |
| ApplyCommand.KeyFieldOfKeyed | packages/cli/src/commands/apply.js:146 | workflows, operations and translations are looked up by their key |
| ApplyCommand.GenerateRecordDecision | packages/cli/src/commands/apply.js:129-163 | more than one surviving config throws the duplicate error; exactly one is updated by its id with its own version; none is created under the run's version |
| ApplyCommand.SurvivorsCorrected | packages/cli/src/commands/apply.js:131-147 | read as intended, a config survives exactly when its version is one of the selected ids |
| ApplyCommand.SubstringVersionKept | packages/cli/src/commands/apply.js:147 | with the version id "v12" given as a string, a stored config of version "v1" survives as written and not as intended |
| ApplyCommand.GenerateOperations | packages/cli/src/commands/apply.js:103-112 | falsy versions throw "couldn't find matching versions" |
| ApplyCommand.OperationsOnlyWhenAny | packages/cli/src/commands/apply.js:116-123 | operations are created only for a non-empty list, one document per config |
| ApplyCommand.RunStage | packages/cli/src/commands/apply.js:245-256 | a stage makes at most one call per document, all tagged with the stage, and exactly one per document when it does not fail |
| ApplyCommand.StepsInStageOrder | packages/cli/src/commands/apply.js:238-259 | no call of a later stage comes before one of an earlier stage |
| ApplyCommand.FailedStageStops | packages/cli/src/commands/apply.js:245-259 | a failed first stage leaves the later stages untouched, and a run without error made a call for every first- and second-stage document |
| ApplyCommand.ApplyNeedsApplyPlugin | packages/cli/src/commands/apply.js:228-235 | with no plugin, or with plugins built by `declare`, there is no `apply._execute` and the run throws before any call |
| TokensCommand.GetVersionsWraps | packages/cli/src/commands/app/tokens.js:31-43 | falsy versions, and only they, throw "couldn't find matching versions"; a list is used as it is and one id becomes a one-item list |
| TokensCommand.CollectVersionIdAsApply | packages/cli/src/commands/app/tokens.js:48-82 | the token command settles its version id as the apply command does, and when the lookup finds nothing it uses the id of the version it creates |
| TokensCommand.StoredAppsExactVersion | packages/cli/src/commands/app/tokens.js:97-99 | a stored app is kept exactly when it is listed under the config's key and its version strictly equals the one id |
| TokensCommand.AppHashDuplicated | packages/cli/src/commands/app/tokens.js:101-103 | more than one stored app of the version throws the duplicate error naming the config's type |
| TokensCommand.AppHashReused | packages/cli/src/commands/app/tokens.js:108-114 | a single stored app is reused: its id, and its system key as the app key |
| TokensCommand.AppHashCreated | packages/cli/src/commands/app/tokens.js:115-128 | with no stored app one is created under the version, and the entry has the created id and the config's own key |
| TokensCommand.GenerateAppHashInOrder | packages/cli/src/commands/app/tokens.js:95-132 | there is one entry per App config, in the configs' order |
| DeleteCommand.DeleteRun | packages/cli/src/commands/delete.js:120-168 | a run succeeds only after the plugins' hook succeeded |
| DeleteCommand.AsksWithObject | packages/cli/src/commands/delete.js:77-89 | the decision depends only on the lookup's answer for the document's key, its extra conditions and the metadata extended with the document |
| DeleteCommand.MetadataCarriesObject | packages/cli/src/commands/delete.js:77-80 | the metadata handed to the lookup carries the document under `object` and keeps the run's version, `removeGlobal: true` and workflows |
| DeleteCommand.DeleteDecision | packages/cli/src/commands/delete.js:89-100 | a found config is deleted by its id; nothing found deletes nothing and logs exactly when the key does not start with "__rb_internal"; a key that is not a string throws |
| DeleteCommand.UnknownTypeThrows | packages/cli/src/commands/delete.js:83-89 | a type whose string form has no client throws before anything is looked up; a known one is looked up first and a failed lookup is the error; `["App"]` reads as "App" and has a client |
| DeleteCommand.DeleteRunPerDocument | packages/cli/src/commands/delete.js:154-158 | a completed run made one decision per document of the plugins' result, in order, each under the run's metadata |
| DeleteCommand.DeleteRunFails | packages/cli/src/commands/delete.js:154-158 | one document whose record cannot be decided fails the whole run |
| DeleteCommand.DeleteNeedsDeletePlugin | packages/cli/src/commands/delete.js:138-144 | with no plugin, or with plugins built by `declare`, there is no `delete._execute` and the run throws |
| GetCommands.DocList | packages/cli/src/utils/index.js:29-38 | indexing a reply by id succeeds exactly when it is an array without null or undefined documents, and otherwise throws a TypeError |
| GetCommands.Metadata | packages/cli/src/commands/operation/list.js:108-114 | the metadata holds one indexed reply per named list, in order, and throws exactly when some reply cannot be indexed |
| GetCommands.AppGetEmptyThrows | packages/cli/src/commands/app/get.js:94-96 | an empty or missing app list, or an object whose `length` is falsy, throws "can't find and app" before the versions are read |
| GetCommands.AppGetObjectReply | packages/cli/src/commands/app/get.js:94-99 | an object with a truthy `length` gets past that check and throws on `filter` |
| GetCommands.AppGetNoVersions | packages/cli/src/commands/app/get.js:99 | falsy versions throw for a non-empty app list |
| GetCommands.AppGetSelects | packages/cli/src/commands/app/get.js:99-122 | `app:get` prints exactly the listed apps of a selected version, only when the versions reply can be indexed, and stops without printing when there are none |
| GetCommands.AppGetMetadata | packages/cli/src/commands/app/get.js:102-110 | a non-empty selection is printed exactly when the versions reply can be indexed, and otherwise the metadata throws |
| GetCommands.OneField | packages/cli/src/commands/app/get.js:103-105 | the metadata of one reply is built exactly when that reply can be indexed |
| GetCommands.WorkflowGetOutput | packages/cli/src/commands/workflow/get.js:92-115 | `workflow:get` prints a non-empty selection exactly when the versions reply can be indexed, throws otherwise, and gives only the stop message for an empty one |
| GetCommands.WorkflowIdsSelect | packages/cli/src/commands/operation/get.js:70-83 | a workflow is kept exactly when it has the key and a selected version, and its id comes out in the workflows' order |
| GetCommands.WorkflowIdsVersions | packages/cli/src/commands/operation/list.js:74-86 | falsy versions throw the command's own message, and a single id is wrapped into a list |
| GetCommands.AnyIncludedIff | packages/cli/src/commands/operation/get.js:92 | the non-zero length of the inner filter means some workflow of the operation is among the ids |
| GetCommands.NothingShared | packages/cli/src/commands/operation/get.js:92 | with no ids no workflow is shared |
| GetCommands.FilterOperationsSelect | packages/cli/src/commands/operation/get.js:91-93 | an operation is kept exactly when it has the key and shares a workflow with the ids |
| GetCommands.EmptyIdsNothingKept | packages/cli/src/commands/operation/get.js:92 | with no workflow ids nothing is kept |
| GetCommands.OperationGetNoIds | packages/cli/src/commands/operation/get.js:117-149 | with no workflow of the flag's key `operation:get` finds nothing and stops with its message |
| GetCommands.ListMetadata | packages/cli/src/commands/operation/list.js:108-114 | the metadata of `operation:list` is built exactly when all five replies can be indexed |
| GetCommands.OperationListNoFlag | packages/cli/src/commands/operation/list.js:107-127 | without the flag every listed operation is selected when all five replies can be indexed, and the metadata throws otherwise |
| GetCommands.OperationListNoIds | packages/cli/src/commands/operation/list.js:107-126 | with the flag set and no matching workflow the command stops with "coludn't find matching operations" when all five replies can be indexed, and the metadata throws otherwise |
| GetCommands.OperationListShared | packages/cli/src/commands/operation/list.js:107-123 | with the flag set an operation is selected exactly when it shares a workflow with the key's workflows, and only indexable replies get that far |
| GetCommands.OperationList | packages/cli/src/commands/operation/list.js:107-148 | an error or a stop of the selection is the command's outcome, before any conversion or plugin call |
| GetCommands.OperationListAfterSelection | packages/cli/src/commands/operation/list.js:129-148 | after a printed selection the operations are converted, the plugin hook runs on them, and the `operations` it leaves are printed |
| GetCommands.OperationListNeedsPlugin | packages/cli/src/commands/operation/list.js:138-145 | with no plugin, or with plugins built by `declare`, there is no `operation.list._execute` and the command throws |
| GetCommands.OperationListPrintsConverted | packages/cli/src/commands/operation/list.js:129-148 | with a hook that leaves its payload alone, the command prints one converted config per selected operation, in order, and fails exactly when a conversion fails |
| DeployUtil.TableGet | packages/ops/github-actions/utils/util.py:21 | a key is found exactly when some row carries it, and the value returned is that row's |
| DeployUtil.ReturnLocalEnvTable | packages/ops/github-actions/utils/util.py:12-24 | dev, prod and prod-eu map to development, production and production-eu; every other name comes back unchanged |
| DeployUtil.ReturnLocalEnvIdempotent | packages/ops/github-actions/utils/util.py:12-24 | mapping a name twice gives what mapping it once gives, so full names pass through |
| DeployUtil.ClusterKnownEnvs | packages/ops/github-actions/utils/util.py:26-56 | the metadata lookup succeeds exactly for production-eu, production and development; any other name fails |
| DeployUtil.ClusterCreds | packages/ops/github-actions/utils/util.py:32-55 | both production clusters use the production key file under the workspace, the default; development has its own key file and coordinates |
| DeployUtil.ClusterProduction | packages/ops/github-actions/utils/util.py:33-42 | production is bot-ms-1 in us-west4 and production-eu is bot-ms-eu-juan in europe-west2, both in releai-bot-prod |
| DeployUtil.ShortNamesReachClusters | packages/ops/github-actions/utils/util.py:12-56 | after the short-name mapping, a cluster is found exactly for the three short and the three full names |
| DeployUtil.PatchOrCreate | packages/ops/github-actions/utils/util.py:104-116 | the script lists first; a listed name leads to a patch and an unlisted one to a create in the manifest's namespace, never both |
| DeployUtil.ConfigMapMessages | packages/ops/github-actions/utils/util.py:110-121 | a successful call reports ConfigMap Update only after a patch, ConfigMap Created only after a create, and otherwise configMap Failed |
| DeployUtil.SwapHarmlessWhenEqual | packages/ops/github-actions/utils/util.py:101-115 | when a ConfigMap's name equals its namespace, the script as written and the corrected one behave identically |
| DeployUtil.GeneratedConfigMapUnaffected | packages/ops/github-actions/utils/util.py:222-228 | the ConfigMap the script generates is named releai in namespace releai, so the swap does not affect it |
| DeployUtil.NamesInStore | packages/ops/github-actions/utils/util.py:106-108 | listing a namespace of the cluster yields exactly the names stored in that namespace |
| DeployUtil.CorrectedPatchesExisting | packages/ops/github-actions/utils/util.py:101-121 | read as intended, an existing ConfigMap is patched and reported updated, and a missing one is created |
| DeployUtil.SwappedNamesRecreate | packages/ops/github-actions/utils/util.py:101-121 | an existing app-config in releai is listed in the wrong namespace, created again and fails as written; corrected, it is patched |
| DeployUtil.SetFirstImageReads | packages/ops/github-actions/utils/util.py:130 | the first container gets the new image; the others are untouched |
| DeployUtil.SetInReads | packages/ops/github-actions/utils/util.py:130 | the written key reads back its new value and no other key changes |
| DeployUtil.SetImageReadsBack | packages/ops/github-actions/utils/util.py:127-130 | the manifest's first container reads back the new image, and every top-level field other than spec is unchanged |
| DeployUtil.DeploymentBySrc | packages/ops/github-actions/utils/util.py:131-147 | an unlisted service fails with the not-found message; a listed one is patched, and the reply decides patched or failed, with patch errors passed on |
| EnvMerge.StrLessIrreflexive | packages/ops/github-actions/utils/util.py:215 | no key sorts before itself |
| EnvMerge.StrLessTotal | packages/ops/github-actions/utils/util.py:215 | of two different keys, one sorts before the other |
| EnvMerge.StrLessAsymmetric | packages/ops/github-actions/utils/util.py:215 | two keys never sort before each other |
| EnvMerge.StrLessTransitive | packages/ops/github-actions/utils/util.py:215 | the key order is transitive |
| EnvMerge.SortKeys | packages/ops/github-actions/utils/util.py:215 | sorting by key keeps the set of keys |
| EnvMerge.InsertAscending | packages/ops/github-actions/utils/util.py:215 | inserting a new key into an ascending dictionary keeps it ascending |
| EnvMerge.SortByKeyDictionary | packages/ops/github-actions/utils/util.py:215 | sorting a dictionary yields ascending keys, the same key set and the same value at every key |
| EnvMerge.AssignAllDistinct | packages/ops/github-actions/utils/util.py:210 | repeated updates keep each key once |
| EnvMerge.AssignAllAppend | packages/ops/github-actions/utils/util.py:206-214 | updating with two lists in turn is updating with their concatenation |
| EnvMerge.AssignAllKeepsKeys | packages/ops/github-actions/utils/util.py:210 | an update never removes a key |
| EnvMerge.UpdateEachFlat | packages/ops/github-actions/utils/util.py:209-210 | updating with each list of variables in turn is one update with all of them |
| EnvMerge.FlatAppend | packages/ops/github-actions/utils/util.py:206-214 | the variables of two runs of services are those of the first followed by those of the second |
| EnvMerge.Sources | packages/ops/github-actions/utils/util.py:206-211 | the services are read in the given order and the web service comes last |
| EnvMerge.CollectFromIsAssignAll | packages/ops/github-actions/utils/util.py:206-214 | when every service loads and every update succeeds, the module-level dictionary ends up as one update with all variables in order, and there is no error |
| EnvMerge.CollectFromFails | packages/ops/github-actions/utils/util.py:206-214 | the first service that fails to load, has no environment section, or holds an update `dict.update` refuses gives the call's error |
| EnvMerge.Iterated | packages/ops/github-actions/utils/util.py:209-213 | the loop visits a list's items, a mapping's keys and a string's characters, and anything else is not iterable |
| EnvMerge.Pair | packages/ops/github-actions/utils/util.py:210-214 | an element of an update sequence is a pair when it has exactly two items with a key first; a different count is a ValueError and a non-iterable a TypeError |
| EnvMerge.UpdateEntries | packages/ops/github-actions/utils/util.py:210-214 | a mapping writes its entries; a non-empty string is a ValueError; a non-iterable is a TypeError; a list writes its pairs |
| EnvMerge.Pairs | packages/ops/github-actions/utils/util.py:210-214 | the pairs before the first element that is not one are written, and that element's error is the error |
| EnvMerge.UpdateAllIsUpdateEach | packages/ops/github-actions/utils/util.py:209-210 | when every update succeeds, the loop is one update per item, in order |
| EnvMerge.UpdateAllFails | packages/ops/github-actions/utils/util.py:209-210 | the first update that fails ends the loop with its error |
| EnvMerge.EarlierUpdatesStay | packages/ops/github-actions/utils/util.py:206-210 | with `environment: [<mapping>, 5]` the mapping's variables stay in the module-level dictionary although the call raises a TypeError |
| EnvMerge.UpdateArguments | packages/ops/github-actions/utils/util.py:210 | `dict.update` takes a list of pairs, a two-character string as a pair, an empty list and an empty string; a one-item pair is a ValueError |
| EnvMerge.CollectEnvsLastWins | packages/ops/github-actions/utils/util.py:202-215 | the result has ascending keys; each key has the value of its last update, with the web service's updates last, or else the value the dictionary held before |
| EnvMerge.CollectEnvsKeepsEarlierKeys | packages/ops/github-actions/utils/util.py:202-215 | keys set by an earlier call remain in the module-level dictionary and show up in every later result |
| EnvMerge.LastValueAppend | packages/ops/github-actions/utils/util.py:211-214 | a key the web service sets takes the web service's value, whatever the other services set |

## Left out

- Network transport. This covers the HTTP post of the base clients, the auth clients and the login servers. The model covers the frame and the formatters, not the HTTP round trip.
- Protobuf serialisation of messages (`requestSerialize`, `responseDeserialize`, `loadProto`). It is a foreign library, so messages are opaque bytes.
- The base64 decoding in front of the proxy client's response hook. The hook is modelled from the decoded bytes onward.
- JSON-schema validation. `validate` takes the validator as a parameter (`Components.Validate`).
- File system and YAML. Documents arrive as values: `readAppsConfigs`, the YAML loaders, template generation and the writers are not modelled. In util.py this also covers `load_src_yaml`, whose result is the `load` parameter of `EnvMerge.CollectEnvs`, and the file writing of `create_configmap`.
- The file names differ: `configmap_file_path` writes `configmap-<env>.yaml`, but `kube_config_map` reads `configMap-<env>.yaml` (util.py:98, 169). The model does not model file paths, so this mismatch is only recorded here.
- CLI plumbing: oclif `run()` bodies, spinners, logging and output tables. The read commands end in `CommandCommon` outcomes instead of printing.
- Processes and tools: ngrok and nodemon in `dev` (only the port counter is modelled), npm and git, and CSV import.
- The util.py functions that only do I/O. These are `kube_command_obj`, `export_values`, `bash_subprocess`, `src_list_dir_obj`, `run_the_yaml_command` and `ch_dir`.
- `patch_update_package_version` (util.py:235-251). The function is cut off mid-expression, so it has no behaviour to model.
- Randomness. The uuid of a fresh notification operation is a parameter of `DefaultGroups`.
- JavaScript numbers are modelled as unbounded integers. There are no fractions, NaN or exponent forms. `JsonText` numbers are integers, and `Stringify` does not produce the exponent form JavaScript uses from 1e21 on.
- JavaScript objects are insertion-ordered member lists. The engine's rule that integer-like keys come first is not modelled, and named properties on arrays are not represented.
- The prototype chain is not modelled. A property read sees only own members.
- Shared objects. The formatters and `docToConf` mutate objects in place, while the model rewrites a tree of values. When one object is reachable from two places, for example through a YAML alias `redis_functions: *f` that shares the `format_function` list, the source converts it once per place and so encodes each function's `data` twice. The model holds two copies and converts each once.
- The module-level state of `dev.js` and of util.py's `config_envs` is an explicit parameter and result.
- packages/cli/lib/components, which the apply, tokens, delete and get commands call, is not part of this model. Its replies are function parameters of those commands.
- The unknown-type order of `sortByTypes`. When a config type is missing from the rank table, the comparator is inconsistent and the engine's order is unspecified. `SortTypes.SortByTypes` uses a stable insertion sort there. It is proved to be the unique stable order whenever every type is known.
- `toSnakeCase` appears in two files, and so does `toPascalCase`. In each pair the two copies are textually identical, so one definition serves both.
- `DefaultGroups`: the plugin registers through `api.apply`, but the `declare` api has only the `translation` namespace. `PluginApi.DefaultGroupsScriptThrows` states that running the plugin throws. The callbacks themselves are modelled as functions of the documents.
- The older src/commands get, list, delete and apply command files. Their own logic is single `Array.find` calls around a client with a different signature, and src/utils/parser.js contains only stubs.
- `ApplyCommand.GenerateRecord`: the `list` reply is a value. A list call that throws is not modelled.
- `TokensCommand.GenerateAppHash`: the callbacks run concurrently under `Promise.all`. The model runs them in config order and reports the first error in that order, while the source rejects with whichever fails first in time.
- `DeleteCommand.DeleteRun`: concurrent deletions are modelled in document order, with the first error in that order.
- `ApplyCommand.ApplyRun`: the records of one stage are modelled in document order. Stage order is kept exactly.
- `ApplyCommand.StepsInStageOrder`, `ApplyCommand.FailedStageStops`, `DeleteCommand.DeleteRunPerDocument` and `GetCommands.OperationListPrintsConverted` describe completed runs. A completed run needs a plugin export whose `apply`, `delete` or `operation.list` namespace has `_execute`. No plugin in this repository provides one, because `declare` builds only `translation`. With no plugin, or with declared plugins only, these commands throw (`ApplyCommand.ApplyNeedsApplyPlugin`, `DeleteCommand.DeleteNeedsDeletePlugin`, `GetCommands.OperationListNeedsPlugin`). The export is a parameter, and any other exporter is a function of the path.
- `EnvMerge.Pair`: a pair whose key is not a string is refused, because the model's dictionary keys are strings. Python would accept a number, a boolean or None there.
- `Js.ToNumber`: a numeric string with a fraction, an exponent or a hex prefix has no value in the model. JavaScript would convert it.
- `Frame.Unframe`: the round trip is stated for messages shorter than 2^32 bytes, because the four-byte length cannot express a longer one.

## Findings

| source | as written | input that shows it | evidently intended | confidence | as-written member | corrected member |
|---|---|---|---|---|---|---|
| packages/cli/lib/formatters/request.js:126-137 | after the `$ANY` branch there is no `else`, so a payload entry literally named "$ANY" is then visited again by name | a payload holding one entry named "$ANY" with data 1: the data is encoded, and the encoding is encoded once more | each key is visited once, with the `$ANY` segment matching every key | not executed | PathRequest.WildcardEntryEncodedTwice | PathRequest.CorrectedRequestToProto |
| packages/cli/src/utils/index.js:222 | groups are keyed by the text `${key}__${version}` | key "a__b" with version "c", and key "a" with version "b__c" | one group per pair of key and version | not executed | ConfigUtils.Collision | ConfigUtils.GroupSharesKey |
| packages/rb-plugin-default-groups/src/index.js:35 | `filters.reduce` without an initial value, whose callback ignores its second argument, so only the first filter decides | a send_message operation whose operation_type is "drop_session" is still expanded | a group is selected only when every filter holds | not executed | DefaultGroups.DropSessionReplaced | DefaultGroups.EveryFilterHolds |
| packages/cli/src/commands/apply.js:147 | `vids.includes(v)` on a single version id is a substring test | selected version "v12" keeps a stored config of version "v1" | membership in the list of selected ids | not executed | ApplyCommand.SubstringVersionKept | ApplyCommand.SurvivorsCorrected |
| packages/ops/github-actions/utils/util.py:106, 111 | the ConfigMap list is asked for the namespace named after the ConfigMap, and the patch gets name and namespace swapped | ConfigMap "app-config" in namespace "releai" that already exists: the script creates it again and fails | list the manifest's namespace and patch by name in it | not executed | DeployUtil.SwappedNamesRecreate | DeployUtil.CorrectedPatchesExisting |

/** The response hook of the proxy client (packages/cli/lib/utils/proxy-client.js).
    Every response of the operation proxy is a gRPC-web body: the hook takes
    the first frame's message, reads a status out of its text with
    `getResponseStatusCode`, and fails with the status message when the
    status is 400 or more. The base64 decoding of the body happens before
    the bytes reach this model. */
module ProxyClient {
  import opened Wrappers
  import opened Js
  import opened Frame
  import opened Utf8
  import opened JsonText
  import opened Strings

  const StatusKey := "grpc-status"
  const MessageKey := "grpc-message"
  /** The label the message line starts with. */
  const MessageLabel := "grpc-message:"
  /** The four characters `JSON.stringify` writes for a CR LF line break. */
  const LineBreak := "\\r\\n"
  const QuotedStatusKey := "\"" + StatusKey + "\""
  const QuotedMessageKey := "\"" + MessageKey + "\""
  const DefaultMessage := "unable to execute operation."

  /** The status reported when the text carries none, or none that parses. */
  function ValidResponse(): Json {
    Obj([Member(StatusKey, Num(200)), Member(MessageKey, Str(""))])
  }

  /** `JSON.stringify(text)` with every double quote removed and every
      "%20" turned back into a space. */
  function Flatten(text: string): string {
    ReplaceAll(ReplaceAll(Quote(text), "\"", ""), "%20", " ")
  }

  /** The JSON text the status lines are rewritten into: the escaped line
      breaks become commas except the last, which is dropped, the first
      "grpc-status" gets quotes, and what follows the first "grpc-message:"
      becomes the quoted message; with no such label the message is the
      word "undefined". */
  function ErrorJsonText(flat: string): string {
    var parts := SplitOn(flat, LineBreak);
    var formatted := JoinOn(parts[..|parts| - 1], ",") + parts[|parts| - 1];
    var pieces := SplitOn(ReplaceFirst(formatted, StatusKey, QuotedStatusKey), MessageLabel);
    var message := if |pieces| >= 2 then pieces[1] else "undefined";
    "{" + pieces[0] + QuotedMessageKey + ":" + "\"" + message + "\"" + "}"
  }

  /** `getResponseStatusCode(text)`: the parsed status when the flattened
      text mentions both "grpc-status" and "grpc-message" and its rewrite
      parses, and the 200 status otherwise (a parse failure is caught). */
  function GetResponseStatusCode(text: string): (r: Json)
    ensures r.Obj?
  {
    var flat := Flatten(text);
    if Contains(flat, StatusKey) && Contains(flat, MessageKey) then
      var t := ErrorJsonText(flat);
      match ParseText(t)
      case Ok(v) =>
        assert t[0] == '{';
        ParseTextBrace(t);
        v
      case Err(_) => ValidResponse()
    else ValidResponse()
  }

  // ---------------------------------------------------------------------
  // The status comparison.

  /** `x >= 400` after ToNumber: a number compares as it is, a string or
      an array by the number its text spells, null and booleans (0 or 1),
      undefined and objects (NaN) never reach 400. */
  predicate AtLeast400(x: Json) {
    match x
    case Num(n) => n >= 400
    case Str(s) => NumericValue(s).Some? && NumericValue(s).value >= 400
    case Arr(_) =>
      var s := ToDisplayString(x);
      NumericValue(s).Some? && NumericValue(s).value >= 400
    case _ => false
  }

  /** The response hook: the first frame's message when its status is
      below 400; otherwise an error carrying the status message, or a
      fixed text when that message is falsy. */
  function Hook(data: seq<byte>): (r: Result<seq<byte>>)
    ensures r.Ok? ==> r.value == Unframe(data)
    ensures r.Ok? <==> !AtLeast400(Get(GetResponseStatusCode(LossyDecode(Unframe(data))), StatusKey))
  {
    var buf := Unframe(data);
    var status := GetResponseStatusCode(LossyDecode(buf));
    if AtLeast400(Get(status, StatusKey)) then
      Err(ToDisplayString(Or(Get(status, MessageKey), Str(DefaultMessage))))
    else Ok(buf)
  }

  // ---------------------------------------------------------------------
  // Comparison properties.

  /** A decimal numeral reaches 400 exactly when its number does, whether
      it stands as a number, a string or a one-element array. */
  lemma NumeralAtLeast400(n: nat)
    ensures AtLeast400(Num(n)) <==> n >= 400
    ensures AtLeast400(Str(NatToString(n))) <==> n >= 400
    ensures AtLeast400(Arr([Num(n)])) <==> n >= 400
  {
    NumeralValue(n);
    var items := [Num(n)];
    assert JoinItems(items) == ToDisplayString(items[0]);
    assert ToDisplayString(Num(n)) == NatToString(n);
  }

  /** `Number(String(n))` is `n`. */
  lemma NumeralValue(n: nat)
    ensures NumericValue(NatToString(n)) == Some(n)
  {
    DigitsOfNatToString(n);
    NumericDigits(NatToString(n));
  }

  /** A numeral stands for its decimal value. */
  lemma NumericDigits(d: string)
    requires |d| > 0 && AllDigits(d)
    ensures NumericValue(d) == Some(DigitsValue(d))
  {
    TrimmedNumeral(d);
    assert d[0] != '-' && d[0] != '+';
  }

  /** A numeral has nothing to trim. */
  lemma TrimmedNumeral(d: string)
    requires |d| > 0 && AllDigits(d)
    ensures TrimEnd(TrimStart(d)) == d
  {
    assert !IsStrSpace(d[0]);
    assert TrimStart(d) == d;
    assert !IsStrSpace(d[|d| - 1]);
  }

  /** Null, booleans, undefined and objects never reach 400. */
  lemma OthersBelow400(b: bool, ms: seq<Member>)
    ensures !AtLeast400(Null) && !AtLeast400(Bool(b)) && !AtLeast400(Undefined) && !AtLeast400(Obj(ms))
  {
  }

  // ---------------------------------------------------------------------
  // Texts without a status.

  /** The 200 status lets the response through. */
  lemma ValidPasses()
    ensures !AtLeast400(Get(ValidResponse(), StatusKey))
  {
    GetPair(Member(StatusKey, Num(200)), Member(MessageKey, Str("")), StatusKey);
  }

  /** No escape `JSON.stringify` writes contains a "g". */
  lemma {:induction false} EscapeNoG(s: string)
    requires 'g' !in s
    ensures 'g' !in EscapeAll(s)
    decreases |s|
  {
    if |s| != 0 {
      EscapeNoG(s[1..]);
      var n := s[0] as int;
      if ShortEscape(s[0]).None? && n < 0x20 {
        assert HexDigit(n / 16) != 'g' && HexDigit(n % 16) != 'g';
      }
      assert EscapeAll(s) == Escape(s[0]) + EscapeAll(s[1..]);
    }
  }

  /** Text without the letter "g" cannot mention either key, so it gets the
      200 status and passes the hook. */
  lemma WithoutKeysValid(text: string)
    requires 'g' !in text
    ensures GetResponseStatusCode(text) == ValidResponse()
  {
    EscapeNoG(text);
    var q := Quote(text);
    assert 'g' !in q;
    var noQuotes := ReplaceAll(q, "\"", "");
    ReplaceAllAbsent(q, "\"", "", 'g');
    ReplaceAllAbsent(noQuotes, "%20", " ", 'g');
    HeadAbsent(Flatten(text), StatusKey);
  }

  lemma WithoutKeysPasses(data: seq<byte>)
    requires 'g' !in LossyDecode(Unframe(data))
    ensures Hook(data) == Ok(Unframe(data))
  {
    WithoutKeysValid(LossyDecode(Unframe(data)));
    ValidPasses();
  }

  // ---------------------------------------------------------------------
  // A gRPC-web trailer.

  /** A character a status message may carry in the trailer round trip:
      printable, not a space, and none that `JSON.stringify` escapes or the
      client rewrites. */
  predicate MessageChar(c: char) {
    c as int > 0x20 && c != '"' && c != '\\' && c != '%'
  }

  predicate PlainMessage(msg: string) {
    (forall i :: 0 <= i < |msg| ==> MessageChar(msg[i])) && !Contains(msg, MessageLabel)
  }

  /** The trailer lines a gRPC-web proxy sends: status and message, each
      ended by CR LF. */
  function Trailer(code: nat, msg: string): string {
    StatusLines(NatToString(code), msg)
  }

  /** Status lines whose code is written as the digits `d`. */
  function StatusLines(d: string, msg: string): string {
    "grpc-status:" + d + "\r\n" + MessageLabel + msg + "\r\n"
  }

  /** The status the trailer denotes. */
  function StatusObject(code: nat, msg: string): Json {
    Obj([Member(StatusKey, Num(code)), Member(MessageKey, Str(msg))])
  }

  /** Characters that survive flattening unchanged and are not white
      space. */
  predicate Quiet(c: char) {
    c as int > 0x20 && c != '"' && c != '%' && c != '\\'
  }

  predicate AllQuiet(s: string) {
    forall i :: 0 <= i < |s| ==> Quiet(s[i])
  }

  lemma QuietConcat(a: string, b: string)
    requires AllQuiet(a) && AllQuiet(b)
    ensures AllQuiet(a + b)
  {
    forall i | 0 <= i < |a + b| ensures Quiet((a + b)[i]) {
      if i < |a| {
        assert (a + b)[i] == a[i];
      } else {
        assert (a + b)[i] == b[i - |a|];
      }
    }
  }

  lemma QuietPieces(d: string, msg: string)
    requires AllDigits(d) && PlainMessage(msg)
    ensures AllQuiet("grpc-status:") && AllQuiet(d) && AllQuiet(MessageLabel) && AllQuiet(msg)
  {
    assert forall i :: 0 <= i < |msg| ==> MessageChar(msg[i]);
  }

  /** The flattened trailer: the line breaks escaped, nothing else touched. */
  function FlatTrailer(d: string, msg: string): string {
    "grpc-status:" + d + LineBreak + MessageLabel + msg + LineBreak
  }

  lemma QuietIsPlain(s: string)
    requires AllQuiet(s)
    ensures EscapeAll(s) == s
  {
    assert forall i :: 0 <= i < |s| ==> PlainChar(s[i]) by {
      assert forall i :: 0 <= i < |s| ==> Quiet(s[i]);
    }
    EscapeAllPlain(s);
  }

  /** Escaping two lines of plain text touches only their line breaks. */
  lemma EscapeTwoLines(a: string, b: string, crlf: string)
    requires AllQuiet(a) && AllQuiet(b)
    ensures EscapeAll(a + crlf + b + crlf) == a + EscapeAll(crlf) + b + EscapeAll(crlf)
  {
    EscapeAllConcat(a + crlf + b, crlf);
    EscapeAllConcat(a + crlf, b);
    EscapeAllConcat(a, crlf);
    QuietIsPlain(a);
    QuietIsPlain(b);
  }

  lemma EscapeLineBreak()
    ensures EscapeAll("\r\n") == LineBreak
  {
    assert EscapeAll("\r\n") == Escape('\r') + EscapeAll("\n");
    assert EscapeAll("\n") == Escape('\n') + EscapeAll("");
  }

  lemma EscapedTrailer(d: string, msg: string)
    requires AllDigits(d) && PlainMessage(msg)
    ensures EscapeAll(StatusLines(d, msg)) == FlatTrailer(d, msg)
  {
    var a := "grpc-status:" + d;
    var b := MessageLabel + msg;
    QuietPieces(d, msg);
    QuietConcat("grpc-status:", d);
    QuietConcat(MessageLabel, msg);
    assert StatusLines(d, msg) == a + "\r\n" + b + "\r\n";
    EscapeTwoLines(a, b, "\r\n");
    EscapeLineBreak();
  }

  lemma FlatTrailerQuiet(d: string, msg: string)
    requires AllDigits(d) && PlainMessage(msg)
    ensures '"' !in FlatTrailer(d, msg) && '%' !in FlatTrailer(d, msg)
  {
    var a := "grpc-status:" + d;
    var b := MessageLabel + msg;
    QuietPieces(d, msg);
    QuietConcat("grpc-status:", d);
    QuietConcat(MessageLabel, msg);
    var f := FlatTrailer(d, msg);
    assert f == a + LineBreak + b + LineBreak;
    assert '"' !in LineBreak && '%' !in LineBreak;
    assert '"' !in a && '%' !in a by {
      assert forall i :: 0 <= i < |a| ==> Quiet(a[i]);
    }
    assert '"' !in b && '%' !in b by {
      assert forall i :: 0 <= i < |b| ==> Quiet(b[i]);
    }
  }

  /** Taking the double quotes out of text with none but the outer pair
      leaves the text between them. */
  lemma Unquote(f: string)
    requires '"' !in f
    ensures ReplaceAll("\"" + f + "\"", "\"", "") == f
  {
    ReplaceAllChar("\"" + f + "\"", '"');
    RemoveCharConcat("\"" + f, "\"", '"');
    RemoveCharConcat("\"", f, '"');
    RemoveCharAbsent(f, '"');
  }

  lemma FlattenTrailer(d: string, msg: string)
    requires AllDigits(d) && PlainMessage(msg)
    ensures Flatten(StatusLines(d, msg)) == FlatTrailer(d, msg)
  {
    var f := FlatTrailer(d, msg);
    EscapedTrailer(d, msg);
    FlatTrailerQuiet(d, msg);
    Unquote(f);
    HeadAbsent(f, "%20");
    NoMatchUnchanged(f, "%20", " ");
  }

  /** Two lines, each ended by the separator, split into the lines and the
      empty rest. */
  lemma SplitTwoLines(a: string, b: string, sep: string)
    requires |sep| > 0 && sep[0] !in a && sep[0] !in b
    ensures SplitOn(a + sep + b + sep, sep) == [a, b, ""]
  {
    assert a + sep + b + sep == a + sep + (b + sep);
    FirstMatchAfter(a, sep, b + sep);
    SplitOnFirst(a, sep, b + sep);
    assert b + sep + "" == b + sep;
    FirstMatchAfter(b, sep, "");
    SplitOnFirst(b, sep, "");
    assert IndexOf("", sep) == None;
  }

  lemma SplitTrailer(d: string, msg: string)
    requires AllDigits(d) && PlainMessage(msg)
    ensures SplitOn(FlatTrailer(d, msg), LineBreak)
         == ["grpc-status:" + d, MessageLabel + msg, ""]
  {
    var a := "grpc-status:" + d;
    var b := MessageLabel + msg;
    QuietPieces(d, msg);
    QuietConcat("grpc-status:", d);
    QuietConcat(MessageLabel, msg);
    assert '\\' !in a by {
      assert forall i :: 0 <= i < |a| ==> Quiet(a[i]);
    }
    assert '\\' !in b by {
      assert forall i :: 0 <= i < |b| ==> Quiet(b[i]);
    }
    assert FlatTrailer(d, msg) == a + LineBreak + b + LineBreak;
    SplitTwoLines(a, b, LineBreak);
  }

  /** The label first occurs after the rewritten status line. */
  lemma StatusLineHasNoLabel(d: string, msg: string)
    requires AllDigits(d)
    ensures IndexOf(QuotedStatusKey + ":" + d + "," + MessageLabel + msg, MessageLabel)
         == Some(|QuotedStatusKey + ":" + d + ","|)
  {
    var head := QuotedStatusKey + ":";
    var x := head + d + ",";
    var r := x + MessageLabel + msg;
    forall j | 0 <= j < |x| ensures !MatchAt(r, MessageLabel, j) {
      if j == 1 {
        assert r[6] == head[6] == 's';
        assert j + 13 <= |r| ==> r[j..j + 13][5] == r[6];
      } else {
        if j < 14 {
          assert r[j] == head[j] != 'g';
        } else if j < 14 + |d| {
          assert r[j] == d[j - 14];
        } else {
          assert r[j] == ',';
        }
        assert j + 13 <= |r| ==> r[j..j + 13][0] == r[j];
      }
    }
    FirstMatchAt(x, MessageLabel, msg);
  }

  /** The pieces `getResponseStatusCode` builds from two status lines. */
  lemma RewriteTwoLines(flat: string, a: string, b: string, x: string, msg: string)
    requires SplitOn(flat, LineBreak) == [a, b, ""]
    requires ReplaceFirst(a + "," + b, StatusKey, QuotedStatusKey) == x + MessageLabel + msg
    requires SplitOn(x + MessageLabel + msg, MessageLabel) == [x, msg]
    ensures ErrorJsonText(flat) == "{" + x + QuotedMessageKey + ":" + "\"" + msg + "\"" + "}"
  {
    var parts := [a, b, ""];
    assert parts[..2] == [a, b];
    assert JoinOn([a, b], ",") == a + "," + b;
    assert a + "," + b + "" == a + "," + b;
  }

  /** The JSON text of a status: code `d` and message `msg`. */
  function StatusText(d: string, msg: string): string {
    "{" + QuotedStatusKey + ":" + d + "," + QuotedMessageKey + ":" + "\"" + msg + "\"" + "}"
  }

  lemma Regroup(qs: string, d: string, qm: string, msg: string)
    ensures "{" + (qs + ":" + d + ",") + qm + ":" + "\"" + msg + "\"" + "}"
         == "{" + qs + ":" + d + "," + qm + ":" + "\"" + msg + "\"" + "}"
  {
  }

  /** The rewrite of the trailer lines is the status object's text. */
  lemma RewriteTrailer(d: string, msg: string)
    requires AllDigits(d) && PlainMessage(msg)
    ensures ErrorJsonText(FlatTrailer(d, msg)) == StatusText(d, msg)
  {
    var a := "grpc-status:" + d;
    var b := MessageLabel + msg;
    var x := QuotedStatusKey + ":" + d + ",";
    assert SplitOn(FlatTrailer(d, msg), LineBreak) == [a, b, ""] by {
      SplitTrailer(d, msg);
    }
    QuoteStatusKey(d, msg);
    SplitAtLabel(d, msg);
    RewriteTwoLines(FlatTrailer(d, msg), a, b, x, msg);
    Regroup(QuotedStatusKey, d, QuotedMessageKey, msg);
  }

  /** Quoting the key at the head of the joined lines. */
  lemma QuoteStatusKey(d: string, msg: string)
    ensures ReplaceFirst("grpc-status:" + d + "," + (MessageLabel + msg), StatusKey, QuotedStatusKey)
         == QuotedStatusKey + ":" + d + "," + MessageLabel + msg
  {
    var rest := ":" + d + "," + (MessageLabel + msg);
    ReplaceFirstAtStart(StatusKey, rest, QuotedStatusKey);
    assert "grpc-status:" + d + "," + (MessageLabel + msg) == StatusKey + rest;
  }

  /** Splitting at the label gives the status line and the message. */
  lemma SplitAtLabel(d: string, msg: string)
    requires AllDigits(d) && !Contains(msg, MessageLabel)
    ensures SplitOn(QuotedStatusKey + ":" + d + "," + MessageLabel + msg, MessageLabel)
         == [QuotedStatusKey + ":" + d + ",", msg]
  {
    var x := QuotedStatusKey + ":" + d + ",";
    StatusLineHasNoLabel(d, msg);
    SplitOnFirst(x, MessageLabel, msg);
    NoMatchUnchanged(msg, MessageLabel, "");
  }

  /** A two-member object whose values are defined prints as both members. */
  lemma TwoMembersText(a: Member, b: Member)
    requires !a.value.Undefined? && !b.value.Undefined?
    ensures MembersText([a, b]) == Quote(a.key) + ":" + Stringify(a.value) + "," + (Quote(b.key) + ":" + Stringify(b.value))
  {
    var ms := [a, b];
    assert ms[1..] == [b];
    assert [b][1..] == [];
    assert MembersText([b]) == Quote(b.key) + ":" + Stringify(b.value);
  }

  /** Keys and messages of quiet characters are quoted as they are. */
  lemma QuoteQuiet(s: string)
    requires AllQuiet(s)
    ensures Quote(s) == "\"" + s + "\""
  {
    QuietIsPlain(s);
  }

  lemma KeysQuiet()
    ensures AllQuiet(StatusKey) && AllQuiet(MessageKey)
  {
  }

  /** The text of an object with a number and a string member. */
  lemma ObjectOfTwo(sk: string, mk: string, code: nat, msg: string, qs: string, qm: string, qmsg: string)
    requires Quote(sk) == qs && Quote(mk) == qm && Quote(msg) == qmsg
    ensures Stringify(Obj([Member(sk, Num(code)), Member(mk, Str(msg))]))
         == "{" + (qs + ":" + NatToString(code) + "," + (qm + ":" + qmsg)) + "}"
  {
    TwoMembersText(Member(sk, Num(code)), Member(mk, Str(msg)));
  }

  lemma Assemble(qs: string, d: string, qm: string, msg: string)
    ensures "{" + (qs + ":" + d + "," + (qm + ":" + ("\"" + msg + "\""))) + "}"
         == "{" + qs + ":" + d + "," + qm + ":" + "\"" + msg + "\"" + "}"
  {
  }

  /** The JSON text of the status object. */
  lemma StatusObjectText(code: nat, msg: string)
    requires PlainMessage(msg)
    ensures Stringify(StatusObject(code, msg)) == StatusText(NatToString(code), msg)
  {
    KeysQuiet();
    QuoteQuiet(StatusKey);
    QuoteQuiet(MessageKey);
    QuietPieces(NatToString(code), msg);
    QuoteQuiet(msg);
    ObjectOfTwo(StatusKey, MessageKey, code, msg, QuotedStatusKey, QuotedMessageKey, "\"" + msg + "\"");
    Assemble(QuotedStatusKey, NatToString(code), QuotedMessageKey, msg);
  }

  predicate NoSpace(s: string) {
    forall i :: 0 <= i < |s| ==> !IsJsonSpace(s[i])
  }

  lemma NoSpaceConcat(a: string, b: string)
    requires NoSpace(a) && NoSpace(b)
    ensures NoSpace(a + b)
  {
    forall i | 0 <= i < |a + b| ensures !IsJsonSpace((a + b)[i]) {
      if i < |a| {
        assert (a + b)[i] == a[i];
      } else {
        assert (a + b)[i] == b[i - |a|];
      }
    }
  }

  lemma QuietNoSpace(s: string)
    requires AllQuiet(s)
    ensures NoSpace(s)
  {
    forall i | 0 <= i < |s| ensures !IsJsonSpace(s[i]) {
      assert Quiet(s[i]);
    }
  }

  /** No white space in the status text. */
  lemma StatusTextNoSpace(d: string, msg: string)
    requires AllQuiet(d) && AllQuiet(msg)
    ensures NoSpace(StatusText(d, msg))
  {
    KeysQuiet();
    QuietNoSpace(StatusKey);
    QuietNoSpace(MessageKey);
    QuietNoSpace(d);
    QuietNoSpace(msg);
    var q := "\"";
    assert NoSpace(q);
    NoSpaceConcat(q, StatusKey);
    NoSpaceConcat(q + StatusKey, q);
    NoSpaceConcat(q, MessageKey);
    NoSpaceConcat(q + MessageKey, q);
    TextNoSpace(QuotedStatusKey, d, QuotedMessageKey, msg);
  }

  lemma TextNoSpace(qs: string, d: string, qm: string, msg: string)
    requires NoSpace(qs) && NoSpace(d) && NoSpace(qm) && NoSpace(msg)
    ensures NoSpace("{" + qs + ":" + d + "," + qm + ":" + "\"" + msg + "\"" + "}")
  {
    var t := "{" + qs + ":" + d + "," + qm + ":" + "\"" + msg + "\"" + "}";
    forall i | 0 <= i < |t| ensures !IsJsonSpace(t[i]) {
      var a := 2 + |qs|;
      var b := a + |d| + 1;
      var c := b + |qm| + 2;
      if 1 <= i < 1 + |qs| {
        assert t[i] == qs[i - 1];
      } else if 2 + |qs| <= i < a + |d| {
        assert t[i] == d[i - a];
      } else if b <= i < b + |qm| {
        assert t[i] == qm[i - b];
      } else if c <= i < c + |msg| {
        assert t[i] == msg[i - c];
      }
    }
  }

  /** The status of the trailer, read back by `getResponseStatusCode`. */
  lemma TrailerStatus(code: nat, msg: string)
    requires PlainMessage(msg)
    ensures GetResponseStatusCode(Trailer(code, msg)) == StatusObject(code, msg)
  {
    var d := NatToString(code);
    FlattenTrailer(d, msg);
    FlatMentionsKeys(d, msg);
    RewriteTrailer(d, msg);
    StatusTextParses(code, msg);
  }

  lemma FlatMentionsKeys(d: string, msg: string)
    ensures Contains(FlatTrailer(d, msg), StatusKey) && Contains(FlatTrailer(d, msg), MessageKey)
  {
    var f := FlatTrailer(d, msg);
    assert MatchAt(f, StatusKey, 0);
    assert MatchAt(f, MessageKey, 16 + |d|) by {
      assert f[16 + |d|..16 + |d| + 12] == MessageKey;
    }
  }

  /** `JSON.parse` reads the status text back as the status object. */
  lemma StatusTextParses(code: nat, msg: string)
    requires PlainMessage(msg)
    ensures ParseText(StatusText(NatToString(code), msg)) == Ok(StatusObject(code, msg))
  {
    var d := NatToString(code);
    StatusObjectText(code, msg);
    QuietPieces(d, msg);
    StatusTextNoSpace(d, msg);
    ParseTextNoSpace(StatusText(d, msg));
    ParseStringify(StatusObject(code, msg));
  }

  /** The hook on a framed trailer: it fails exactly when the code is 400 or
      more, with the trailer's message or, when that is empty, the fixed
      text; otherwise it hands the message bytes on. */
  lemma TrailerHook(code: nat, msg: string)
    requires PlainMessage(msg) && |Encode(Trailer(code, msg))| < MaxLength
    ensures Hook(FrameBytes(Encode(Trailer(code, msg))))
         == if code >= 400 then Err(if msg == "" then DefaultMessage else msg)
            else Ok(Encode(Trailer(code, msg)))
  {
    var bs := Encode(Trailer(code, msg));
    UnframeRoundTrip(bs);
    LossyEncode(Trailer(code, msg));
    TrailerStatus(code, msg);
    GetPair(Member(StatusKey, Num(code)), Member(MessageKey, Str(msg)), StatusKey);
    GetPair(Member(StatusKey, Num(code)), Member(MessageKey, Str(msg)), MessageKey);
  }

  /** A status written with a leading zero is not JSON, so `JSON.parse`
      fails inside `getResponseStatusCode` and the 200 status stands. */
  lemma PaddedStatusValid(d: string, msg: string)
    requires AllDigits(d) && |d| > 1 && d[0] == '0' && PlainMessage(msg)
    ensures GetResponseStatusCode(StatusLines(d, msg)) == ValidResponse()
  {
    FlattenTrailer(d, msg);
    FlatMentionsKeys(d, msg);
    RewriteTrailer(d, msg);
    PaddedStatusRejected(d, msg);
  }

  lemma PaddedStatusRejected(d: string, msg: string)
    requires AllDigits(d) && |d| > 1 && d[0] == '0' && PlainMessage(msg)
    ensures ParseText(StatusText(d, msg)).Err?
  {
    var t := StatusText(d, msg);
    QuietPieces(d, msg);
    StatusTextNoSpace(d, msg);
    ParseTextNoSpace(t);
    var value := StatusValueText(d, msg);
    StatusTextSplit(d, msg);
    LeadingZeroRejected(value);
    FirstValueRejected(StatusKey, value);
  }

  /** What follows the status key's colon in the status text. */
  function StatusValueText(d: string, msg: string): string {
    d + "," + QuotedMessageKey + ":" + "\"" + msg + "\"" + "}"
  }

  lemma StatusTextSplit(d: string, msg: string)
    ensures StatusText(d, msg) == "{" + Quote(StatusKey) + ":" + StatusValueText(d, msg)
  {
    assert Quote(StatusKey) == QuotedStatusKey by {
      KeysQuiet();
      QuoteQuiet(StatusKey);
    }
    SplitAfterKey("{", QuotedStatusKey, ":", d, ",", QuotedMessageKey, ":", "\"", msg, "\"", "}");
  }

  lemma SplitAfterKey(a: string, b: string, c: string, d: string, e: string, f: string,
                      g: string, h: string, i: string, j: string, k: string)
    ensures a + b + c + d + e + f + g + h + i + j + k == a + b + c + (d + e + f + g + h + i + j + k)
  {
  }

  /** The hook passes a framed trailer with a zero-padded status on, even
      when the code it spells is 400 or more. */
  lemma PaddedStatusPasses(d: string, msg: string)
    requires AllDigits(d) && |d| > 1 && d[0] == '0' && PlainMessage(msg)
    requires |Encode(StatusLines(d, msg))| < MaxLength
    ensures Hook(FrameBytes(Encode(StatusLines(d, msg)))) == Ok(Encode(StatusLines(d, msg)))
  {
    var bs := Encode(StatusLines(d, msg));
    UnframeRoundTrip(bs);
    LossyEncode(StatusLines(d, msg));
    PaddedStatusValid(d, msg);
    ValidPasses();
  }
}

/** JSON text (RFC 8259): `JSON.stringify` as section 25.5.2 of ECMA-262
    defines it for the values of the model, without indentation, and a
    parser for the text it emits, so that `JSON.parse(JSON.stringify(v))`
    can be stated as a round trip. */
module JsonText {
  import opened Wrappers
  import opened Js
  import opened Frame
  import opened Utf8
  import ConfigUtils

  predicate IsDigit(c: char) {
    '0' <= c <= '9'
  }

  // ---------------------------------------------------------------------
  // Serialisation.

  /** The two-character escapes of the table in QuoteJSONString: the
      letter that follows the backslash. */
  function ShortEscape(c: char): Option<char> {
    var n := c as int;
    if c == '"' then Some('"')
    else if c == '\\' then Some('\\')
    else if n == 8 then Some('b')
    else if n == 9 then Some('t')
    else if n == 10 then Some('n')
    else if n == 12 then Some('f')
    else if n == 13 then Some('r')
    else None
  }

  /** One character of a quoted string: a two-character escape, `\u00xx`
      with lowercase hex for the other control characters, and the
      character itself otherwise. */
  function Escape(c: char): (e: string)
    ensures |e| >= 1
  {
    var n := c as int;
    if ShortEscape(c).Some? then ['\\', ShortEscape(c).value]
    else if n < 0x20 then ['\\', 'u', '0', '0', HexDigit(n / 16), HexDigit(n % 16)]
    else [c]
  }

  function EscapeAll(s: string): string
    decreases |s|
  {
    if |s| == 0 then [] else Escape(s[0]) + EscapeAll(s[1..])
  }

  function Quote(s: string): (r: string)
    ensures |r| >= 2
  {
    "\"" + EscapeAll(s) + "\""
  }

  /** `JSON.stringify(j)`. An undefined array element prints as "null" and
      an undefined member value is skipped; `JSON.stringify(undefined)`
      itself is not a string, and callers never pass it. Numbers are
      integers and print in decimal. */
  function Stringify(j: Json): (r: string)
    ensures |r| >= 1
    decreases j, 1
  {
    match j
    case Null => "null"
    case Undefined => "null"
    case Bool(b) => if b then "true" else "false"
    case Num(n) => IntToString(n)
    case Str(s) => Quote(s)
    case Arr(items) => "[" + ItemsText(items) + "]"
    case Obj(ms) => "{" + MembersText(ms) + "}"
  }

  /** Array elements joined with ",". */
  function ItemsText(items: seq<Json>): string
    decreases items, 0
  {
    if |items| == 0 then ""
    else if |items| == 1 then Stringify(items[0])
    else Stringify(items[0]) + "," + ItemsText(items[1..])
  }

  /** `"key":value` for each member whose value is not undefined, joined
      with ",". */
  function MembersText(ms: seq<Member>): (r: string)
    decreases ms, 0
  {
    if |ms| == 0 then ""
    else
      var tail := MembersText(ms[1..]);
      if ms[0].value.Undefined? then tail
      else
        var head := Quote(ms[0].key) + ":" + Stringify(ms[0].value);
        if |tail| == 0 then head else head + "," + tail
  }

  // ---------------------------------------------------------------------
  // Parsing the compact text.

  /** The number of digits at the front of `s`. */
  function LeadingDigits(s: string): (n: nat)
    ensures n <= |s|
    ensures forall i :: 0 <= i < n ==> IsDigit(s[i])
    ensures n < |s| ==> !IsDigit(s[n])
    decreases |s|
  {
    if |s| == 0 || !IsDigit(s[0]) then 0 else 1 + LeadingDigits(s[1..])
  }

  /** The digits of a JSON integer: "0" alone, or a run that does not
      start with "0". */
  function ParseNat(s: string): (r: Result<(nat, string)>)
    ensures r.Ok? ==> |r.value.1| < |s|
    ensures |s| > 1 && s[0] == '0' && IsDigit(s[1]) ==> r.Err?
  {
    var n := LeadingDigits(s);
    if n == 0 then Err("expected a digit")
    else if n > 1 && s[0] == '0' then Err("leading zero")
    else Ok((DigitsValue(s[..n]), s[n..]))
  }

  predicate IsHexChar(c: char) {
    ('0' <= c <= '9') || ('a' <= c <= 'f') || ('A' <= c <= 'F')
  }

  function HexValue(c: char): (v: nat)
    requires IsHexChar(c)
    ensures v < 16
  {
    if '0' <= c <= '9' then c as int - '0' as int
    else if 'a' <= c <= 'f' then c as int - 'a' as int + 10
    else c as int - 'A' as int + 10
  }

  /** The character a letter after a backslash stands for. */
  function ShortUnescape(e: char): Option<char> {
    if e == '"' then Some('"')
    else if e == '\\' then Some('\\')
    else if e == '/' then Some('/')
    else if e == 'b' then Some(8 as char)
    else if e == 't' then Some(9 as char)
    else if e == 'n' then Some(10 as char)
    else if e == 'f' then Some(12 as char)
    else if e == 'r' then Some(13 as char)
    else None
  }

  /** The character an escape denotes (the text after the backslash) and the
      number of characters the escape takes. */
  function ParseEscape(s: string): (r: Result<(char, nat)>)
    ensures r.Ok? ==> 1 <= r.value.1 <= |s|
  {
    if |s| == 0 then Err("unterminated escape")
    else if ShortUnescape(s[0]).Some? then Ok((ShortUnescape(s[0]).value, 1))
    else if s[0] == 'u' && |s| >= 5 && IsHexChar(s[1]) && IsHexChar(s[2]) && IsHexChar(s[3]) && IsHexChar(s[4]) then
      var n := HexValue(s[1]) * 4096 + HexValue(s[2]) * 256 + HexValue(s[3]) * 16 + HexValue(s[4]);
      if IsScalar(n) then Ok((n as char, 5)) else Err("lone surrogate")
    else Err("bad escape")
  }

  /** The body of a string after its opening quote: the characters and the
      text after the closing quote. */
  function ParseString(s: string): (r: Result<(string, string)>)
    ensures r.Ok? ==> |r.value.1| < |s|
    decreases |s|
  {
    if |s| == 0 then Err("unterminated string")
    else if s[0] == '"' then Ok(([], s[1..]))
    else if s[0] == '\\' then
      var e :- ParseEscape(s[1..]);
      var t :- ParseString(s[1 + e.1..]);
      Ok(([e.0] + t.0, t.1))
    else if (s[0] as int) < 0x20 then Err("control character in string")
    else
      var t :- ParseString(s[1..]);
      Ok(([s[0]] + t.0, t.1))
  }

  /** A literal word such as `null` at the front of `s`. */
  function Keyword(s: string, w: string, v: Json): (r: Result<(Json, string)>)
    requires |w| > 0
    ensures r.Ok? ==> |r.value.1| < |s|
  {
    if StartsWith(s, w) then Ok((v, s[|w|..])) else Err("unexpected character")
  }

  /** An optionally negative integer. */
  function ParseNumber(s: string): (r: Result<(Json, string)>)
    ensures r.Ok? ==> |r.value.1| < |s|
  {
    if |s| > 0 && s[0] == '-' then
      var p :- ParseNat(s[1..]);
      Ok((Num(-(p.0 as int)), p.1))
    else
      var p :- ParseNat(s);
      Ok((Num(p.0), p.1))
  }

  /** One value at the front of `s` and the text after it. */
  function ParseValue(s: string): (r: Result<(Json, string)>)
    ensures r.Ok? ==> |r.value.1| < |s|
    decreases |s|, 0
  {
    if |s| == 0 then Err("unexpected end")
    else if s[0] == 'n' then Keyword(s, "null", Null)
    else if s[0] == 't' then Keyword(s, "true", Bool(true))
    else if s[0] == 'f' then Keyword(s, "false", Bool(false))
    else if s[0] == '-' || IsDigit(s[0]) then ParseNumber(s)
    else if s[0] == '"' then
      var p :- ParseString(s[1..]);
      Ok((Str(p.0), p.1))
    else if s[0] == '[' then ParseArray(s[1..])
    else if s[0] == '{' then ParseObject(s[1..])
    else Err("unexpected character")
  }

  /** An array after its opening bracket. */
  function ParseArray(s: string): (r: Result<(Json, string)>)
    ensures r.Ok? ==> |r.value.1| < |s|
    decreases |s|, 2
  {
    if |s| > 0 && s[0] == ']' then Ok((Arr([]), s[1..]))
    else
      var p :- ParseElements(s);
      Ok((Arr(p.0), p.1))
  }

  /** An object after its opening brace. The members are assigned in text
      order, so a repeated key keeps its first position and its last value. */
  function ParseObject(s: string): (r: Result<(Json, string)>)
    ensures r.Ok? ==> |r.value.1| < |s|
    decreases |s|, 2
  {
    if |s| > 0 && s[0] == '}' then Ok((Obj([]), s[1..]))
    else
      var p :- ParseMembers(s);
      Ok((Obj(AssignAll([], p.0)), p.1))
  }

  /** Comma-separated values up to and including the closing bracket. */
  function ParseElements(s: string): (r: Result<(seq<Json>, string)>)
    ensures r.Ok? ==> |r.value.1| < |s|
    decreases |s|, 1
  {
    var p :- ParseValue(s);
    var rest := p.1;
    if |rest| > 0 && rest[0] == ',' then
      var q :- ParseElements(rest[1..]);
      Ok(([p.0] + q.0, q.1))
    else if |rest| > 0 && rest[0] == ']' then Ok(([p.0], rest[1..]))
    else Err("expected , or ]")
  }

  /** Comma-separated `"key":value` pairs up to and including the closing
      brace. */
  function ParseMembers(s: string): (r: Result<(seq<Member>, string)>)
    ensures r.Ok? ==> |r.value.1| < |s|
    decreases |s|, 1
  {
    if |s| == 0 || s[0] != '"' then Err("expected a key")
    else
      var k :- ParseString(s[1..]);
      if |k.1| == 0 || k.1[0] != ':' then Err("expected :")
      else
        var v :- ParseValue(k.1[1..]);
        var rest := v.1;
        if |rest| > 0 && rest[0] == ',' then
          var q :- ParseMembers(rest[1..]);
          Ok(([Member(k.0, v.0)] + q.0, q.1))
        else if |rest| > 0 && rest[0] == '}' then Ok(([Member(k.0, v.0)], rest[1..]))
        else Err("expected , or }")
  }

  /** `JSON.parse` of compact text: one value and nothing after it. */
  function Parse(s: string): Result<Json> {
    var p :- ParseValue(s);
    if |p.1| == 0 then Ok(p.0) else Err("unexpected text after the value")
  }

  // ---------------------------------------------------------------------
  // Round trip.

  /** `m` is the length of the digit run when the first `m` characters are
      digits and the next one is not. */
  lemma {:induction false} LeadingDigitsIs(s: string, m: nat)
    requires m <= |s|
    requires forall i :: 0 <= i < m ==> IsDigit(s[i])
    requires m == |s| || !IsDigit(s[m])
    ensures LeadingDigits(s) == m
    decreases m
  {
    if m > 0 {
      LeadingDigitsIs(s[1..], m - 1);
    }
  }

  lemma ParseValueNumber(s: string)
    requires |s| > 0 && (s[0] == '-' || IsDigit(s[0]))
    ensures ParseValue(s) == ParseNumber(s)
  {
    assert s[0] != 'n' && s[0] != 't' && s[0] != 'f';
  }

  lemma NatRoundTrip(k: nat, rest: string)
    requires |rest| == 0 || !IsDigit(rest[0])
    ensures ParseNat(NatToString(k) + rest) == Ok((k, rest))
  {
    var t := NatToString(k);
    var s := t + rest;
    LeadingDigitsIs(s, |t|);
    var n := LeadingDigits(s);
    assert s[..n] == t && s[n..] == rest;
    DigitsOfNatToString(k);
  }

  lemma HexDigitValue(d: nat)
    requires d < 16
    ensures IsHexChar(HexDigit(d)) && HexValue(HexDigit(d)) == d
  {
  }

  lemma ShortRoundTrip(c: char)
    requires ShortEscape(c).Some?
    ensures ShortUnescape(ShortEscape(c).value) == Some(c)
  {
  }

  /** The text after the backslash of an escape decodes to the character. */
  lemma EscapeTail(c: char, t: string)
    requires |Escape(c)| > 1
    ensures Escape(c)[0] == '\\'
    ensures ParseEscape(Escape(c)[1..] + t) == Ok((c, |Escape(c)| - 1))
  {
    var n := c as int;
    var u := Escape(c)[1..] + t;
    if ShortEscape(c).Some? {
      ShortRoundTrip(c);
    } else {
      HexDigitValue(n / 16);
      HexDigitValue(n % 16);
      assert u[0] == 'u' && u[1] == '0' && u[2] == '0';
    }
  }

  lemma ParseStringEscaped(s: string)
    requires |s| > 0 && s[0] == '\\' && ParseEscape(s[1..]).Ok?
    requires ParseString(s[1 + ParseEscape(s[1..]).value.1..]).Ok?
    ensures ParseString(s) == Ok(([ParseEscape(s[1..]).value.0] + ParseString(s[1 + ParseEscape(s[1..]).value.1..]).value.0,
                                  ParseString(s[1 + ParseEscape(s[1..]).value.1..]).value.1))
  {
    assert s[0] != '"';
  }

  lemma ParseStringPlain(s: string)
    requires |s| > 0 && s[0] != '"' && s[0] != '\\' && s[0] as int >= 0x20 && ParseString(s[1..]).Ok?
    ensures ParseString(s) == Ok(([s[0]] + ParseString(s[1..]).value.0, ParseString(s[1..]).value.1))
  {
  }

  /** Parsing past one escaped character. */
  lemma EscapeStep(c: char, t: string)
    requires ParseString(t).Ok?
    ensures ParseString(Escape(c) + t) == Ok(([c] + ParseString(t).value.0, ParseString(t).value.1))
  {
    var e := Escape(c);
    var s := e + t;
    if |e| > 1 {
      EscapeTail(c, t);
      assert s[1..] == e[1..] + t;
      assert s[1 + (|e| - 1)..] == t;
      ParseStringEscaped(s);
    } else {
      assert s[1..] == t;
      ParseStringPlain(s);
    }
  }

  lemma {:induction false} StringRoundTrip(s: string, rest: string)
    ensures ParseString(EscapeAll(s) + "\"" + rest) == Ok((s, rest))
    decreases |s|
  {
    if |s| == 0 {
      assert EscapeAll(s) + "\"" + rest == "\"" + rest;
    } else {
      var t := EscapeAll(s[1..]) + "\"" + rest;
      assert EscapeAll(s) + "\"" + rest == Escape(s[0]) + t;
      StringRoundTrip(s[1..], rest);
      EscapeStep(s[0], t);
      assert [s[0]] + s[1..] == s;
    }
  }

  lemma QuoteRoundTrip(s: string, rest: string)
    ensures ParseValue(Quote(s) + rest) == Ok((Str(s), rest))
  {
    var t := Quote(s) + rest;
    assert t[1..] == EscapeAll(s) + "\"" + rest;
    StringRoundTrip(s, rest);
  }

  lemma NegativeRoundTrip(k: nat, rest: string)
    requires |rest| == 0 || !IsDigit(rest[0])
    ensures ParseNumber("-" + NatToString(k) + rest) == Ok((Num(-(k as int)), rest))
  {
    var t := NatToString(k) + rest;
    var s := "-" + NatToString(k) + rest;
    assert s[1..] == t;
    NatRoundTrip(k, rest);
  }

  lemma NonNegativeRoundTrip(k: nat, rest: string)
    requires |rest| == 0 || !IsDigit(rest[0])
    ensures ParseNumber(NatToString(k) + rest) == Ok((Num(k), rest))
  {
    var s := NatToString(k) + rest;
    assert s[0] == NatToString(k)[0];
    NatRoundTrip(k, rest);
  }

  lemma NumberRoundTrip(n: int, rest: string)
    requires |rest| == 0 || !IsDigit(rest[0])
    ensures ParseNumber(IntToString(n) + rest) == Ok((Num(n), rest))
  {
    if n < 0 {
      var k: nat := -n;
      assert IntToString(n) + rest == "-" + NatToString(k) + rest;
      NegativeRoundTrip(k, rest);
    } else {
      var k: nat := n;
      assert IntToString(n) + rest == NatToString(k) + rest;
      NonNegativeRoundTrip(k, rest);
    }
  }

  lemma NumRoundTrip(n: int, rest: string)
    requires |rest| == 0 || !IsDigit(rest[0])
    ensures ParseValue(IntToString(n) + rest) == Ok((Num(n), rest))
  {
    var s := IntToString(n) + rest;
    assert s[0] == IntToString(n)[0];
    ParseValueNumber(s);
    NumberRoundTrip(n, rest);
  }

  /** No value's text starts with a closing bracket. */
  lemma StringifyStart(v: Json)
    ensures Stringify(v)[0] != ']'
  {
    match v
    case Num(n) =>
      assert NatToString(if n < 0 then -n else n)[0] != ']';
    case _ =>
  }

  lemma ParseValueArray(s: string)
    requires |s| > 0 && s[0] == '['
    ensures ParseValue(s) == ParseArray(s[1..])
  {
    assert !(s[0] == 'n' || s[0] == 't' || s[0] == 'f' || s[0] == '-' || IsDigit(s[0]) || s[0] == '"');
  }

  lemma ParseValueObject(s: string)
    requires |s| > 0 && s[0] == '{'
    ensures ParseValue(s) == ParseObject(s[1..])
  {
    assert !(s[0] == 'n' || s[0] == 't' || s[0] == 'f' || s[0] == '-' || IsDigit(s[0]) || s[0] == '"' || s[0] == '[');
  }

  /** A number written with a leading zero is not JSON text, with or
      without a sign. */
  lemma LeadingZeroRejected(s: string)
    requires |s| > 1 && s[0] == '0' && IsDigit(s[1])
    ensures ParseValue(s).Err? && ParseValue("-" + s).Err?
  {
    ParseValueNumber(s);
    ParseValueNumber("-" + s);
    assert ("-" + s)[1..] == s;
  }

  /** An object whose first member's value does not parse does not parse. */
  lemma FirstValueRejected(key: string, value: string)
    requires ParseValue(value).Err?
    ensures ParseValue("{" + Quote(key) + ":" + value).Err?
  {
    var body := Quote(key) + ":" + value;
    var t := "{" + Quote(key) + ":" + value;
    assert t == "{" + body && t[1..] == body;
    ParseValueObject(t);
    MembersFirstValueRejected(key, value);
    assert body[0] == '"';
  }

  lemma MembersFirstValueRejected(key: string, value: string)
    requires ParseValue(value).Err?
    ensures ParseMembers(Quote(key) + ":" + value).Err?
  {
    var after := ":" + value;
    var s := Quote(key) + ":" + value;
    assert s == "\"" + (EscapeAll(key) + "\"" + after);
    assert s[1..] == EscapeAll(key) + "\"" + after;
    StringRoundTrip(key, after);
    assert after[1..] == value;
  }

  /** For every key of an object, `JSON.parse` keeps the value written last
      in the text. */
  lemma RepeatedKeyLastWins(s: string, k: string)
    requires ParseMembers(s).Ok?
    ensures ParseObject(s).Ok?
    ensures Get(ParseObject(s).value.0, k) == ConfigUtils.LastValue(ParseMembers(s).value.0, k, Undefined)
  {
    var ms := ParseMembers(s).value.0;
    assert |s| > 0 && s[0] == '"';
    assert ParseObject(s).value.0 == Obj(AssignAll([], ms));
    ConfigUtils.GetAssignAll([], ms, k);
  }

  /** Parsing the text of a value gives the value back, whatever non-digit
      text follows it. */
  lemma {:induction false} ValueRoundTrip(v: Json, rest: string)
    requires IsJsonValue(v)
    requires |rest| == 0 || !IsDigit(rest[0])
    ensures ParseValue(Stringify(v) + rest) == Ok((v, rest))
    decreases v, 2
  {
    match v
    case Null =>
      assert ("null" + rest)[..4] == "null";
    case Bool(b) =>
      if b {
        assert ("true" + rest)[..4] == "true";
      } else {
        assert ("false" + rest)[..5] == "false";
      }
    case Num(n) => NumRoundTrip(n, rest);
    case Str(x) => QuoteRoundTrip(x, rest);
    case Arr(items) => ArrRoundTrip(items, rest);
    case Obj(ms) => ObjRoundTrip(ms, rest);
  }

  lemma {:induction false} ArrRoundTrip(items: seq<Json>, rest: string)
    requires forall i :: 0 <= i < |items| ==> IsJsonValue(items[i])
    ensures ParseValue(Stringify(Arr(items)) + rest) == Ok((Arr(items), rest))
    decreases items, 2
  {
    var body := ItemsText(items);
    var s := "[" + body + "]" + rest;
    assert Stringify(Arr(items)) + rest == s;
    ParseValueArray(s);
    assert s[1..] == body + "]" + rest;
    if |items| == 0 {
      assert (body + "]" + rest)[1..] == rest;
    } else {
      ItemsRoundTrip(items, rest);
      StringifyStart(items[0]);
      assert body[0] == Stringify(items[0])[0];
    }
  }

  lemma {:induction false} ObjRoundTrip(ms: seq<Member>, rest: string)
    requires DistinctKeys(ms)
    requires forall i :: 0 <= i < |ms| ==> IsJsonValue(ms[i].value)
    ensures ParseValue(Stringify(Obj(ms)) + rest) == Ok((Obj(ms), rest))
    decreases ms, 2
  {
    var body := MembersText(ms);
    var s := "{" + body + "}" + rest;
    assert Stringify(Obj(ms)) + rest == s;
    ParseValueObject(s);
    assert s[1..] == body + "}" + rest;
    if |ms| == 0 {
      assert (body + "}" + rest)[1..] == rest;
    } else {
      MembersRoundTrip(ms, rest);
      ObjectOfMembers(body + "}" + rest, ms, rest);
    }
  }

  /** Members with distinct keys make the object as they were read. */
  lemma ObjectOfMembers(s: string, ms: seq<Member>, rest: string)
    requires ParseMembers(s) == Ok((ms, rest)) && DistinctKeys(ms)
    ensures ParseObject(s) == Ok((Obj(ms), rest))
  {
    assert |s| > 0 && s[0] == '"';
    assert ParseObject(s) == Ok((Obj(AssignAll([], ms)), rest));
    AssignAllFresh([], ms);
    assert [] + ms == ms;
  }

  lemma ElementsLast(s: string, v: Json, rest: string)
    requires ParseValue(s) == Ok((v, "]" + rest))
    ensures ParseElements(s) == Ok(([v], rest))
  {
    assert ("]" + rest)[1..] == rest;
  }

  lemma ElementsMore(s: string, v: Json, t: string)
    requires ParseValue(s) == Ok((v, "," + t)) && ParseElements(t).Ok?
    ensures ParseElements(s) == Ok(([v] + ParseElements(t).value.0, ParseElements(t).value.1))
  {
    assert ("," + t)[1..] == t;
  }

  lemma ItemsTextSplit(items: seq<Json>, rest: string)
    requires |items| > 0
    ensures |items| == 1 ==> ItemsText(items) + "]" + rest == Stringify(items[0]) + ("]" + rest)
    ensures |items| > 1 ==> ItemsText(items) + "]" + rest == Stringify(items[0]) + ("," + (ItemsText(items[1..]) + "]" + rest))
  {
    var a := Stringify(items[0]);
    if |items| > 1 {
      var b := ItemsText(items[1..]);
      assert ItemsText(items) == a + "," + b;
      Assoc(a, ",", b, "]", rest);
    } else {
      assert ItemsText(items) == a;
    }
  }

  lemma Assoc(a: string, b: string, c: string, d: string, e: string)
    ensures a + b + c + d + e == a + (b + (c + d + e))
  {
  }

  lemma {:induction false} ItemsRoundTrip(items: seq<Json>, rest: string)
    requires |items| > 0
    requires forall i :: 0 <= i < |items| ==> IsJsonValue(items[i])
    ensures ParseElements(ItemsText(items) + "]" + rest) == Ok((items, rest))
    decreases items, 1
  {
    ItemsTextSplit(items, rest);
    if |items| == 1 {
      ValueRoundTrip(items[0], "]" + rest);
      ElementsLast(Stringify(items[0]) + ("]" + rest), items[0], rest);
      assert [items[0]] == items;
    } else {
      ItemsRoundTripMore(items, rest);
    }
  }

  lemma {:induction false} ItemsRoundTripMore(items: seq<Json>, rest: string)
    requires |items| > 1
    requires forall i :: 0 <= i < |items| ==> IsJsonValue(items[i])
    ensures ParseElements(Stringify(items[0]) + ("," + (ItemsText(items[1..]) + "]" + rest))) == Ok((items, rest))
    decreases items, 0
  {
    var tail := items[1..];
    var t := ItemsText(tail) + "]" + rest;
    ValueRoundTrip(items[0], "," + t);
    ItemsRoundTrip(tail, rest);
    ElementsMore(Stringify(items[0]) + ("," + t), items[0], t);
    assert [items[0]] + tail == items;
  }

  /** One `"key":value` pair at the front of `s`. */
  lemma MemberStep(k: string, v: Json, after: string)
    requires IsJsonValue(v)
    requires |after| > 0 && !IsDigit(after[0])
    ensures ParseString(EscapeAll(k) + "\"" + (":" + (Stringify(v) + after))) == Ok((k, ":" + (Stringify(v) + after)))
    ensures ParseValue(Stringify(v) + after) == Ok((v, after))
    decreases v, 3
  {
    StringRoundTrip(k, ":" + (Stringify(v) + after));
    ValueRoundTrip(v, after);
  }

  lemma MembersTextHead(ms: seq<Member>)
    requires |ms| > 0 && !ms[0].value.Undefined?
    requires |ms| > 1 ==> !ms[1].value.Undefined?
    ensures MembersText(ms) == Quote(ms[0].key) + ":" + Stringify(ms[0].value)
      + (if |ms| == 1 then "" else "," + MembersText(ms[1..]))
  {
    if |ms| > 1 {
      assert |MembersText(ms[1..])| > 0;
    } else {
      assert MembersText(ms[1..]) == [];
    }
  }

  /** The text of a single member followed by `after`, nested to the right. */
  lemma MemberTextNest(ms: seq<Member>, tail: string, after: string)
    requires |ms| > 0
    requires MembersText(ms) == Quote(ms[0].key) + ":" + Stringify(ms[0].value) + tail
    ensures MembersText(ms) + after == "\"" + (EscapeAll(ms[0].key) + "\"" + (":" + (Stringify(ms[0].value) + (tail + after))))
  {
    var q, v := EscapeAll(ms[0].key), Stringify(ms[0].value);
    assert Quote(ms[0].key) == "\"" + q + "\"";
    NestText(MembersText(ms), q, v, tail, after);
  }

  lemma NestText(m: string, q: string, v: string, tail: string, after: string)
    requires m == "\"" + q + "\"" + ":" + v + tail
    ensures m + after == "\"" + (q + "\"" + (":" + (v + (tail + after))))
  {
    Assoc6("\"", q, "\"", ":", v, tail + after);
  }

  lemma MembersTextOne(ms: seq<Member>, rest: string)
    requires |ms| == 1 && !ms[0].value.Undefined?
    ensures MembersText(ms) + "}" + rest == "\"" + (EscapeAll(ms[0].key) + "\"" + (":" + (Stringify(ms[0].value) + ("}" + rest))))
  {
    MembersTextHead(ms);
    assert MembersText(ms) == Quote(ms[0].key) + ":" + Stringify(ms[0].value) + "";
    MemberTextNest(ms, "", "}" + rest);
    assert "" + ("}" + rest) == "}" + rest;
    Assoc3(MembersText(ms), "}", rest);
  }

  lemma MembersTextMore(ms: seq<Member>, rest: string)
    requires |ms| > 1 && !ms[0].value.Undefined? && !ms[1].value.Undefined?
    ensures MembersText(ms) + "}" + rest == "\"" + (EscapeAll(ms[0].key) + "\"" + (":" + (Stringify(ms[0].value) + ("," + (MembersText(ms[1..]) + "}" + rest)))))
  {
    MembersTextHead(ms);
    var t := MembersText(ms[1..]);
    MemberTextNest(ms, "," + t, "}" + rest);
    Assoc3(",", t, "}" + rest);
    Assoc3(t, "}", rest);
    Assoc3(MembersText(ms), "}", rest);
  }

  lemma Assoc3(a: string, b: string, c: string)
    ensures a + b + c == a + (b + c)
  {
  }

  lemma Assoc6(a: string, b: string, c: string, d: string, e: string, f: string)
    ensures a + b + c + d + e + f == a + (b + c + (d + (e + f)))
  {
  }

  lemma MembersLast(s: string, k: string, v: Json, rest: string)
    requires |s| > 0 && s[0] == '"'
    requires ParseString(s[1..]) == Ok((k, ":" + (Stringify(v) + ("}" + rest))))
    requires ParseValue(Stringify(v) + ("}" + rest)) == Ok((v, "}" + rest))
    ensures ParseMembers(s) == Ok(([Member(k, v)], rest))
  {
    assert (":" + (Stringify(v) + ("}" + rest)))[1..] == Stringify(v) + ("}" + rest);
    assert ("}" + rest)[1..] == rest;
  }

  lemma MembersMore(s: string, k: string, v: Json, t: string)
    requires |s| > 0 && s[0] == '"'
    requires ParseString(s[1..]) == Ok((k, ":" + (Stringify(v) + ("," + t))))
    requires ParseValue(Stringify(v) + ("," + t)) == Ok((v, "," + t))
    requires ParseMembers(t).Ok?
    ensures ParseMembers(s) == Ok(([Member(k, v)] + ParseMembers(t).value.0, ParseMembers(t).value.1))
  {
    assert (":" + (Stringify(v) + ("," + t)))[1..] == Stringify(v) + ("," + t);
    assert ("," + t)[1..] == t;
  }

  lemma {:induction false} MembersRoundTrip(ms: seq<Member>, rest: string)
    requires |ms| > 0
    requires forall i :: 0 <= i < |ms| ==> IsJsonValue(ms[i].value)
    ensures ParseMembers(MembersText(ms) + "}" + rest) == Ok((ms, rest))
    decreases ms, 1
  {
    if |ms| == 1 {
      MembersRoundTripLast(ms, rest);
    } else {
      MembersRoundTripMore(ms, rest);
    }
  }

  lemma {:induction false} MembersRoundTripLast(ms: seq<Member>, rest: string)
    requires |ms| == 1 && IsJsonValue(ms[0].value)
    ensures ParseMembers(MembersText(ms) + "}" + rest) == Ok((ms, rest))
    decreases ms, 0
  {
    var m := ms[0];
    MembersTextOne(ms, rest);
    MemberStep(m.key, m.value, "}" + rest);
    MembersLast(MembersText(ms) + "}" + rest, m.key, m.value, rest);
    assert [m] == ms;
  }

  lemma {:induction false} MembersRoundTripMore(ms: seq<Member>, rest: string)
    requires |ms| > 1
    requires forall i :: 0 <= i < |ms| ==> IsJsonValue(ms[i].value)
    ensures ParseMembers(MembersText(ms) + "}" + rest) == Ok((ms, rest))
    decreases ms, 0
  {
    var m := ms[0];
    var tail := ms[1..];
    assert IsJsonValue(m.value) && IsJsonValue(ms[1].value);
    MembersTextMore(ms, rest);
    var t := MembersText(tail) + "}" + rest;
    MembersRoundTrip(tail, rest);
    MemberThenMore(m.key, m.value, t, MembersText(ms) + "}" + rest);
    assert [m] + tail == ms;
  }

  /** A member followed by a comma and more members. */
  lemma {:induction false} MemberThenMore(k: string, v: Json, t: string, s: string)
    requires IsJsonValue(v) && ParseMembers(t).Ok?
    requires s == "\"" + (EscapeAll(k) + "\"" + (":" + (Stringify(v) + ("," + t))))
    ensures ParseMembers(s) == Ok(([Member(k, v)] + ParseMembers(t).value.0, ParseMembers(t).value.1))
    decreases v, 4
  {
    MemberStep(k, v, "," + t);
    assert s[1..] == EscapeAll(k) + "\"" + (":" + (Stringify(v) + ("," + t)));
    MembersMore(s, k, v, t);
  }

  /** `JSON.parse(JSON.stringify(v))` gives `v` back for every JSON value. */
  lemma ParseStringify(v: Json)
    requires IsJsonValue(v)
    ensures Parse(Stringify(v)) == Ok(v)
  {
    ValueRoundTrip(v, []);
    assert Stringify(v) + [] == Stringify(v);
  }

  /** Example: a small object prints without spaces and in member order. */
  lemma StringifyExample()
    ensures Stringify(Obj([Member("a", Num(1)), Member("b", Arr([Bool(true), Undefined]))])) == "{\"a\":1,\"b\":[true,null]}"
  {
    assert EscapeAll("a") == "a" && EscapeAll("b") == "b";
    assert NatToString(1) == "1";
  }

  // ---------------------------------------------------------------------
  // Escaping piecewise.

  /** A character `JSON.stringify` writes as itself inside a string. */
  predicate PlainChar(c: char) {
    c as int >= 0x20 && c != '"' && c != '\\'
  }

  /** Escaping works character by character, so it distributes over
      concatenation. */
  lemma {:induction false} EscapeAllConcat(a: string, b: string)
    ensures EscapeAll(a + b) == EscapeAll(a) + EscapeAll(b)
    decreases |a|
  {
    if |a| != 0 {
      assert (a + b)[0] == a[0] && (a + b)[1..] == a[1..] + b;
      EscapeAllConcat(a[1..], b);
      assert EscapeAll(a + b) == Escape(a[0]) + EscapeAll(a[1..] + b);
      assert EscapeAll(a) == Escape(a[0]) + EscapeAll(a[1..]);
    } else {
      assert a + b == b;
    }
  }

  /** Text of plain characters is left as it is. */
  lemma {:induction false} EscapeAllPlain(s: string)
    requires forall i :: 0 <= i < |s| ==> PlainChar(s[i])
    ensures EscapeAll(s) == s
    decreases |s|
  {
    if |s| != 0 {
      EscapeAllPlain(s[1..]);
    }
  }

  // ---------------------------------------------------------------------
  // Insignificant white space.

  /** The white space JSON text may carry between tokens. */
  predicate IsJsonSpace(c: char) {
    c == ' ' || c == '\t' || c == '\n' || c == '\r'
  }

  /** Characters that continue a number or a literal name. */
  predicate IsWordChar(c: char) {
    IsDigit(c) || ('a' <= c <= 'z') || ('A' <= c <= 'Z') || c == '-' || c == '+' || c == '.'
  }

  /** The text with the white space between tokens dropped. White space
      inside a string stays; white space that separates two pieces of one
      number or name, or two numbers or names, is a syntax error, since
      dropping it would glue them together. `inString` and `escaped` track
      string literals, `afterWord` says the last character kept outside a
      string continues a number or name, and `gap` says white space was
      dropped since then. */
  function Compact(s: string, inString: bool, escaped: bool, afterWord: bool, gap: bool): (r: Result<string>)
    decreases |s|
  {
    if |s| == 0 then Ok([])
    else
      var c := s[0];
      if inString then
        var t :- Compact(s[1..], escaped || c != '"', !escaped && c == '\\', false, false);
        Ok([c] + t)
      else if IsJsonSpace(c) then Compact(s[1..], false, false, afterWord, true)
      else if gap && afterWord && IsWordChar(c) then Err("unexpected token")
      else
        var t :- Compact(s[1..], c == '"', false, IsWordChar(c), false);
        Ok([c] + t)
  }

  /** `JSON.parse(s)`: the compact parser applied after dropping the white
      space between tokens. */
  function ParseText(s: string): Result<Json> {
    var c :- Compact(s, false, false, false, false);
    Parse(c)
  }

  /** Text without white space is kept as it is. */
  lemma {:induction false} CompactNoSpace(s: string, inString: bool, escaped: bool, afterWord: bool)
    requires forall i :: 0 <= i < |s| ==> !IsJsonSpace(s[i])
    ensures Compact(s, inString, escaped, afterWord, false) == Ok(s)
    decreases |s|
  {
    if |s| != 0 {
      var c := s[0];
      assert [c] + s[1..] == s;
      if inString {
        CompactNoSpace(s[1..], escaped || c != '"', !escaped && c == '\\', false);
      } else {
        assert !IsJsonSpace(c);
        CompactNoSpace(s[1..], c == '"', false, IsWordChar(c));
      }
    }
  }

  /** On text without white space `JSON.parse` is the compact parser. */
  lemma ParseTextNoSpace(s: string)
    requires forall i :: 0 <= i < |s| ==> !IsJsonSpace(s[i])
    ensures ParseText(s) == Parse(s)
  {
    CompactNoSpace(s, false, false, false);
  }

  /** White space before the first token changes nothing. */
  lemma {:induction false} LeadingSpace(s: string, gap: bool)
    ensures Compact(s, false, false, false, gap) == Compact(s, false, false, false, false)
    decreases |s|
  {
    if |s| != 0 {
      var c := s[0];
      if IsJsonSpace(c) {
        assert Compact(s, false, false, false, gap) == Compact(s[1..], false, false, false, true);
        assert Compact(s, false, false, false, false) == Compact(s[1..], false, false, false, true);
      } else {
        assert !(gap && false && IsWordChar(c));
      }
    }
  }

  /** A number with spaces around it parses; two numbers separated by a
      space do not. */
  lemma ParseTextExamples(spaced: string, split: string)
    requires spaced == " 7 " && split == "7 7"
    ensures ParseText(spaced) == Ok(Num(7))
    ensures ParseText(split).Err?
  {
    assert Compact(" ", false, false, true, false) == Ok([]);
    assert spaced[1..] == "7 " && "7 "[1..] == " ";
    assert IsWordChar('7') && !IsJsonSpace('7') && ['7'] + [] == "7";
    assert Compact("7 ", false, false, false, true) == Ok("7");
    assert IsJsonSpace(spaced[0]);
    assert Compact(spaced, false, false, false, false) == Compact("7 ", false, false, false, true);
    assert split[1..] == " 7" && " 7"[1..] == "7";
    assert Compact(" 7", false, false, true, false).Err?;
    assert ParseValue("7") == Ok((Num(7), [])) by {
      assert LeadingDigits("7") == 1;
      assert DigitsValue("7") == 7;
    }
  }

  /** Whatever `JSON.parse` makes of text that starts with a brace is an
      object. */
  lemma ParseTextBrace(s: string)
    requires |s| > 0 && s[0] == '{' && ParseText(s).Ok?
    ensures ParseText(s).value.Obj?
  {
    var c := Compact(s, false, false, false, false).value;
    assert c[0] == '{';
    ParseValueObject(c);
  }
}

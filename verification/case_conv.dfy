/** Name-case conversions: `toSnakeCase` (packages/cli/src/utils/index.js and
    src/utils/index.js, textually identical) turns config type names such as
    "AppAction" into "app_action"; `toPascalCase` (packages/cli/lib/utils/index.js
    and lib/utils/index.js, textually identical) turns service type names such
    as "app_actions" into the proto service name "AppActions". Each regular
    expression replacement is modelled as the left-to-right scan JavaScript's
    global `replace` performs. */
module CaseConv {
  import opened Wrappers

  predicate IsUpper(c: char) { 'A' <= c <= 'Z' }
  predicate IsLower(c: char) { 'a' <= c <= 'z' }
  predicate IsDigit(c: char) { '0' <= c <= '9' }
  predicate IsAlnum(c: char) { IsUpper(c) || IsLower(c) || IsDigit(c) }

  /** The regular-expression class `\w`. */
  predicate IsWord(c: char) { IsAlnum(c) || c == '_' }

  /** The regular-expression class `\s`: ECMAScript white space and line terminators. */
  predicate IsSpace(c: char) {
    c == '\t' || c == '\n' || c == '\U{B}' || c == '\U{C}' || c == '\r' || c == ' ' ||
    c == '\U{A0}' || c == '\U{1680}' || ('\U{2000}' <= c <= '\U{200A}') ||
    c == '\U{2028}' || c == '\U{2029}' || c == '\U{202F}' || c == '\U{205F}' ||
    c == '\U{3000}' || c == '\U{FEFF}'
  }

  /** The characters the regular-expression `.` does not match. */
  predicate IsLineTerminator(c: char) {
    c == '\n' || c == '\r' || c == '\U{2028}' || c == '\U{2029}'
  }

  /** `toLowerCase` / `toUpperCase` restricted to the characters they meet
      here: ASCII letters change case, white space and digits have none. */
  function Lower(c: char): (d: char)
    ensures !IsUpper(d)
    ensures IsAlnum(c) ==> IsAlnum(d)
  {
    if IsUpper(c) then c - 'A' + 'a' else c
  }

  function Upper(c: char): (d: char)
    ensures !IsLower(d)
    ensures IsAlnum(c) ==> IsAlnum(d)
  {
    if IsLower(c) then c - 'a' + 'A' else c
  }

  function LowerAll(s: string): (r: string)
    ensures |r| == |s|
    ensures forall i :: 0 <= i < |s| ==> r[i] == Lower(s[i])
  {
    if s == [] then [] else [Lower(s[0])] + LowerAll(s[1..])
  }

  // ---------------------------------------------------------------------
  // toSnakeCase

  /** `str.replace(/(?:^|\.?)([A-Z])/g, (x, y) => "_" + y.toLowerCase())`:
      every ASCII capital becomes "_" and its lower case, swallowing one "."
      right before it. */
  function SnakeMarks(s: string): (r: string)
    ensures forall i :: 0 <= i < |r| ==> !IsUpper(r[i])
  {
    if s == [] then []
    else if s[0] == '.' && |s| >= 2 && IsUpper(s[1]) then ['_', Lower(s[1])] + SnakeMarks(s[2..])
    else if IsUpper(s[0]) then ['_', Lower(s[0])] + SnakeMarks(s[1..])
    else [s[0]] + SnakeMarks(s[1..])
  }

  /** `.replace(/^_/, "")`. */
  function DropLeadingUnderscore(s: string): (r: string)
    ensures |s| > 0 && s[0] == '_' ==> r == s[1..]
    ensures !(|s| > 0 && s[0] == '_') ==> r == s
  {
    if |s| > 0 && s[0] == '_' then s[1..] else s
  }

  /** `toSnakeCase(str)`. */
  function ToSnakeCase(s: string): (r: string)
    ensures forall i :: 0 <= i < |r| ==> !IsUpper(r[i])
  {
    DropLeadingUnderscore(SnakeMarks(s))
  }

  // ---------------------------------------------------------------------
  // toPascalCase

  /** `.replace(/[-_]+/g, " ")`: every run of dashes and underscores becomes one space. */
  function DashesToSpace(s: string): (r: string)
    ensures forall i :: 0 <= i < |r| ==> r[i] != '-' && r[i] != '_'
  {
    if s == [] then []
    else if s[0] == '-' || s[0] == '_' then [' '] + DashesToSpace(s[DashRun(s)..])
    else [s[0]] + DashesToSpace(s[1..])
  }

  /** Length of the run of dashes and underscores that starts the string. */
  function DashRun(s: string): (n: nat)
    ensures n <= |s|
    ensures forall i :: 0 <= i < n ==> s[i] == '-' || s[i] == '_'
    ensures n < |s| ==> s[n] != '-' && s[n] != '_'
    ensures |s| > 0 && (s[0] == '-' || s[0] == '_') ==> n >= 1
  {
    if s != [] && (s[0] == '-' || s[0] == '_') then 1 + DashRun(s[1..]) else 0
  }

  /** `.replace(/[^\w\s]/g, "")`. */
  function KeepWordAndSpace(s: string): (r: string)
    ensures forall i :: 0 <= i < |r| ==> IsWord(r[i]) || IsSpace(r[i])
  {
    if s == [] then []
    else if IsWord(s[0]) || IsSpace(s[0]) then [s[0]] + KeepWordAndSpace(s[1..])
    else KeepWordAndSpace(s[1..])
  }

  function SpaceRun(s: string): (n: nat)
    ensures n <= |s|
    ensures forall i :: 0 <= i < n ==> IsSpace(s[i])
    ensures n < |s| ==> !IsSpace(s[n])
  {
    if s != [] && IsSpace(s[0]) then 1 + SpaceRun(s[1..]) else 0
  }

  function WordRun(s: string): (n: nat)
    ensures n <= |s|
    ensures forall i :: 0 <= i < n ==> IsWord(s[i])
    ensures n < |s| ==> !IsWord(s[n])
  {
    if s != [] && IsWord(s[0]) then 1 + WordRun(s[1..]) else 0
  }

  /** The match of `/\s+(.)(\w+)/` at the start of `s`, as the text that
      replaces it and the length it consumes. `\s+` is greedy and gives back
      at most one white-space character, because after it `(.)` and then at
      least one `\w` must follow. */
  function CapMatch(s: string): (m: Option<(string, nat)>)
    ensures m.Some? ==> 2 <= m.value.1 <= |s| && IsSpace(s[0])
  {
    var w := SpaceRun(s);
    if w == 0 then None
    else if w < |s| && !IsLineTerminator(s[w]) && WordRun(s[w + 1..]) >= 1 then
      var n := WordRun(s[w + 1..]);
      Some(([Upper(s[w])] + LowerAll(s[w + 1..w + 1 + n]), w + 1 + n))
    else if w >= 2 && !IsLineTerminator(s[w - 1]) && WordRun(s[w..]) >= 1 then
      var n := WordRun(s[w..]);
      Some(([Upper(s[w - 1])] + LowerAll(s[w..w + n]), w + n))
    else None
  }

  /** `.replace(/\s+(.)(\w+)/g, ($1, $2, $3) => $2.toUpperCase() + $3.toLowerCase())`. */
  function CapitalizeWords(s: string): string
    decreases |s|
  {
    if s == [] then []
    else
      match CapMatch(s)
      case Some((out, n)) => out + CapitalizeWords(s[n..])
      case None => [s[0]] + CapitalizeWords(s[1..])
  }

  /** `.replace(/\s/g, "")`. */
  function RemoveSpaces(s: string): (r: string)
    ensures forall i :: 0 <= i < |r| ==> !IsSpace(r[i])
  {
    if s == [] then []
    else if IsSpace(s[0]) then RemoveSpaces(s[1..])
    else [s[0]] + RemoveSpaces(s[1..])
  }

  /** `.replace(/\w/, s => s.toUpperCase())`: only the first word character. */
  function UpperFirstWord(s: string): (r: string)
    ensures |r| == |s|
  {
    if s == [] then []
    else if IsWord(s[0]) then [Upper(s[0])] + s[1..]
    else [s[0]] + UpperFirstWord(s[1..])
  }

  /** `toPascalCase(string)`. */
  function ToPascalCase(s: string): string {
    UpperFirstWord(RemoveSpaces(CapitalizeWords(KeepWordAndSpace(DashesToSpace(s)))))
  }

  /** `generateClassName(type)` of lib/components/index.js. */
  function ClassName(serviceType: string): string {
    ToPascalCase(serviceType + "Client")
  }

  // ---------------------------------------------------------------------
  // Properties of toPascalCase.

  predicate AllAlnum(s: string) {
    forall i :: 0 <= i < |s| ==> IsAlnum(s[i])
  }

  predicate AllWordOrSpace(s: string) {
    forall i :: 0 <= i < |s| ==> IsWord(s[i]) || IsSpace(s[i])
  }

  predicate NoUnderscore(s: string) {
    forall i :: 0 <= i < |s| ==> s[i] != '_'
  }

  lemma {:induction false} LowerAllAlnum(s: string)
    requires AllAlnum(s)
    ensures AllAlnum(LowerAll(s))
  {
  }

  /** Replacing capitalised words keeps the text to ASCII letters, digits and white space. */
  lemma {:induction false} CapitalizeWordsClass(s: string)
    requires AllWordOrSpace(s) && NoUnderscore(s)
    ensures AllWordOrSpace(CapitalizeWords(s)) && NoUnderscore(CapitalizeWords(s))
    decreases |s|
  {
    if s != [] {
      match CapMatch(s)
      case Some((out, n)) =>
        CapitalizeWordsClass(s[n..]);
        CapOutClass(s);
        ConcatClass(out, CapitalizeWords(s[n..]));
      case None =>
        CapitalizeWordsClass(s[1..]);
        ConcatClass([s[0]], CapitalizeWords(s[1..]));
    }
  }

  lemma CapOutClass(s: string)
    requires AllWordOrSpace(s) && NoUnderscore(s)
    requires CapMatch(s).Some?
    ensures AllWordOrSpace(CapMatch(s).value.0) && NoUnderscore(CapMatch(s).value.0)
  {
  }

  lemma ConcatClass(a: string, b: string)
    requires AllWordOrSpace(a) && NoUnderscore(a) && AllWordOrSpace(b) && NoUnderscore(b)
    ensures AllWordOrSpace(a + b) && NoUnderscore(a + b)
  {
  }

  lemma {:induction false} RemoveSpacesAlnum(s: string)
    requires AllWordOrSpace(s) && NoUnderscore(s)
    ensures AllAlnum(RemoveSpaces(s))
  {
    if s != [] {
      RemoveSpacesAlnum(s[1..]);
    }
  }

  lemma {:induction false} KeepNoUnderscore(s: string)
    requires NoUnderscore(s)
    ensures NoUnderscore(KeepWordAndSpace(s))
  {
    if s != [] {
      KeepNoUnderscore(s[1..]);
    }
  }

  /** Every character of a PascalCase name is an ASCII letter or digit. */
  lemma PascalIsAlnum(s: string)
    ensures AllAlnum(ToPascalCase(s))
  {
    var a := DashesToSpace(s);
    KeepNoUnderscore(a);
    var b := KeepWordAndSpace(a);
    CapitalizeWordsClass(b);
    var c := CapitalizeWords(b);
    RemoveSpacesAlnum(c);
    var d := RemoveSpaces(c);
    assert ToPascalCase(s) == UpperFirstWord(d);
    if d != [] {
      assert IsWord(d[0]);
    }
  }

  // ---------------------------------------------------------------------
  // Round trips between snake_case and PascalCase names.

  /** A word of a type name: a lower-case letter followed by at least one
      lower-case letter or digit ("app", "actions"). */
  predicate IsNameWord(w: string) {
    |w| >= 2 && IsLower(w[0]) && forall i :: 1 <= i < |w| ==> IsLower(w[i]) || IsDigit(w[i])
  }

  predicate NameWords(ws: seq<string>) {
    |ws| >= 1 && forall i :: 0 <= i < |ws| ==> IsNameWord(ws[i])
  }

  /** The word with its first letter capitalised. */
  function Capital(w: string): string {
    if w == [] then [] else [Upper(w[0])] + w[1..]
  }

  /** "app_actions": the words joined by underscores. */
  function SnakeJoin(ws: seq<string>): string
    requires |ws| >= 1
  {
    if |ws| == 1 then ws[0] else ws[0] + "_" + SnakeJoin(ws[1..])
  }

  /** "app actions": the words joined by single spaces. */
  function SpaceJoin(ws: seq<string>): string
    requires |ws| >= 1
  {
    if |ws| == 1 then ws[0] else ws[0] + " " + SpaceJoin(ws[1..])
  }

  /** "AppActions": every word capitalised, nothing between them. */
  function PascalJoin(ws: seq<string>): string {
    if ws == [] then [] else Capital(ws[0]) + PascalJoin(ws[1..])
  }

  lemma {:induction false} SnakeMarksLowerWord(w: string)
    requires forall i :: 0 <= i < |w| ==> IsLower(w[i]) || IsDigit(w[i])
    ensures SnakeMarks(w) == w
  {
    if w != [] {
      SnakeMarksLowerWord(w[1..]);
    }
  }

  /** The snake scan runs word by word over a PascalCase name. */
  lemma {:induction false} SnakeMarksPascal(ws: seq<string>)
    requires forall i :: 0 <= i < |ws| ==> IsNameWord(ws[i])
    ensures SnakeMarks(PascalJoin(ws)) == if ws == [] then [] else "_" + SnakeJoin(ws)
  {
    if ws != [] {
      var w := ws[0];
      var rest := PascalJoin(ws[1..]);
      assert PascalJoin(ws) == Capital(w) + rest;
      SnakeMarksPascal(ws[1..]);
      SnakeMarksWord(w, rest);
      if |ws| > 1 {
        var tail := SnakeJoin(ws[1..]);
        assert SnakeMarks(rest) == "_" + tail;
        assert SnakeJoin(ws) == w + "_" + tail;
        Regroup3(w, tail);
      } else {
        assert rest == [];
      }
    }
  }

  lemma Regroup3(w: string, tail: string)
    ensures "_" + w + ("_" + tail) == "_" + (w + "_" + tail)
  {
  }

  lemma SnakeMarksWord(w: string, rest: string)
    requires IsNameWord(w)
    ensures SnakeMarks(Capital(w) + rest) == "_" + w + SnakeMarks(rest)
  {
    var c := Upper(w[0]);
    var s := [c] + (w[1..] + rest);
    assert Capital(w) + rest == s;
    assert s[0] == c && IsUpper(c) && Lower(c) == w[0];
    assert s[1..] == w[1..] + rest;
    assert SnakeMarks(s) == ['_', w[0]] + SnakeMarks(w[1..] + rest);
    SnakeMarksNoCapital(w[1..], rest);
    Regroup2(w, SnakeMarks(rest));
  }

  lemma Regroup2(w: string, tail: string)
    requires |w| >= 1
    ensures ['_', w[0]] + (w[1..] + tail) == "_" + w + tail
  {
    assert w == [w[0]] + w[1..];
  }

  lemma {:induction false} SnakeMarksNoCapital(a: string, b: string)
    requires forall i :: 0 <= i < |a| ==> IsLower(a[i]) || IsDigit(a[i])
    ensures SnakeMarks(a + b) == a + SnakeMarks(b)
  {
    if a != [] {
      assert (a + b)[1..] == a[1..] + b;
      SnakeMarksNoCapital(a[1..], b);
    } else {
      assert a + b == b;
    }
  }

  /** PascalCase to snake_case: "AppAction" becomes "app_action". */
  lemma SnakeOfPascal(ws: seq<string>)
    requires NameWords(ws)
    ensures ToSnakeCase(PascalJoin(ws)) == SnakeJoin(ws)
  {
    SnakeMarksPascal(ws);
  }

  lemma {:induction false} DashesSnakeJoin(ws: seq<string>)
    requires NameWords(ws)
    ensures DashesToSpace(SnakeJoin(ws)) == SpaceJoin(ws)
  {
    DashesNameWord(ws[0], if |ws| == 1 then [] else "_" + SnakeJoin(ws[1..]));
    if |ws| > 1 {
      var t := "_" + SnakeJoin(ws[1..]);
      DashesSnakeJoin(ws[1..]);
      assert SnakeJoin(ws) == ws[0] + t;
      assert DashRun(t) == 1 by {
        assert t[1..] == SnakeJoin(ws[1..]);
        SnakeJoinStart(ws[1..]);
      }
      assert t[1..] == SnakeJoin(ws[1..]);
    } else {
      assert ws[0] + [] == ws[0];
    }
  }

  lemma SnakeJoinStart(ws: seq<string>)
    requires NameWords(ws)
    ensures IsLower(SnakeJoin(ws)[0])
  {
  }

  lemma {:induction false} DashesNameWord(w: string, rest: string)
    requires forall i :: 0 <= i < |w| ==> IsLower(w[i]) || IsDigit(w[i])
    ensures DashesToSpace(w + rest) == w + DashesToSpace(rest)
  {
    if w != [] {
      assert (w + rest)[1..] == w[1..] + rest;
      DashesNameWord(w[1..], rest);
    } else {
      assert w + rest == rest;
    }
  }

  lemma {:induction false} KeepSpaceJoin(s: string)
    requires forall i :: 0 <= i < |s| ==> IsWord(s[i]) || IsSpace(s[i])
    ensures KeepWordAndSpace(s) == s
  {
    if s != [] {
      KeepSpaceJoin(s[1..]);
    }
  }

  lemma {:induction false} SpaceJoinClass(ws: seq<string>)
    requires NameWords(ws)
    ensures forall i :: 0 <= i < |SpaceJoin(ws)| ==> IsWord(SpaceJoin(ws)[i]) || IsSpace(SpaceJoin(ws)[i])
  {
    if |ws| > 1 {
      SpaceJoinClass(ws[1..]);
      var a := ws[0] + " ";
      var b := SpaceJoin(ws[1..]);
      assert SpaceJoin(ws) == a + b;
      assert forall i :: 0 <= i < |a| ==> IsWord(a[i]) || IsSpace(a[i]);
    }
  }

  /** Capitalising words leaves the first word and capitalises every later one. */
  lemma CapitalizeSpaceJoin(ws: seq<string>)
    requires NameWords(ws)
    ensures CapitalizeWords(SpaceJoin(ws)) == ws[0] + PascalJoin(ws[1..])
  {
    if |ws| == 1 {
      CapitalizeLowerWord(ws[0], []);
      assert ws[0] + [] == ws[0];
    } else {
      var tail := " " + SpaceJoin(ws[1..]);
      assert SpaceJoin(ws) == ws[0] + tail;
      CapitalizeLowerWord(ws[0], tail);
      CapitalizeSpaceWords(ws[1..]);
    }
  }

  /** After a space every word is capitalised and the spaces disappear. */
  lemma {:induction false} CapitalizeSpaceWords(ws: seq<string>)
    requires NameWords(ws)
    ensures CapitalizeWords(" " + SpaceJoin(ws)) == PascalJoin(ws)
  {
    var w := ws[0];
    var rest := if |ws| == 1 then [] else " " + SpaceJoin(ws[1..]);
    assert " " + SpaceJoin(ws) == " " + w + rest;
    CapitalizeSpaceWord(w, rest);
    if |ws| > 1 {
      CapitalizeSpaceWords(ws[1..]);
    } else {
      assert Capital(w) + [] == Capital(w);
    }
  }

  /** One step of the replacement on " word…": the space goes, the word is capitalised. */
  lemma CapitalizeSpaceWord(w: string, rest: string)
    requires IsNameWord(w)
    requires rest == [] || IsSpace(rest[0])
    ensures CapitalizeWords(" " + w + rest) == Capital(w) + CapitalizeWords(rest)
  {
    var s := " " + w + rest;
    CapMatchWord(w, rest);
    assert s[1 + |w|..] == rest;
  }

  lemma CapMatchWord(w: string, rest: string)
    requires IsNameWord(w)
    requires rest == [] || IsSpace(rest[0])
    ensures CapMatch(" " + w + rest) == Some((Capital(w), 1 + |w|))
  {
    CapMatchAnyWord(w, rest);
    LowerAllLower(w[1..]);
  }

  /** A space and a word of two or more characters: the word's first character
      is raised and all the others lowered, whatever their case was. */
  lemma CapMatchAnyWord(w: string, rest: string)
    requires |w| >= 2 && AllAlnum(w)
    requires rest == [] || !IsWord(rest[0])
    ensures CapMatch(" " + w + rest) == Some(([Upper(w[0])] + LowerAll(w[1..]), 1 + |w|))
  {
    var s := " " + w + rest;
    assert SpaceRun(s) == 1 by {
      assert SpaceRun(s[1..]) == 0;
    }
    assert s[2..] == w[1..] + rest;
    WordRunOf(w[1..], rest);
    assert s[2..2 + |w| - 1] == w[1..];
  }

  /** A space and a one-character word do not match, so that character keeps its case. */
  lemma CapMatchShortWord(c: char, rest: string)
    requires IsAlnum(c)
    requires rest == [] || !IsWord(rest[0])
    ensures CapMatch(" " + [c] + rest) == None
  {
    var s := " " + [c] + rest;
    assert SpaceRun(s) == 1 by {
      assert SpaceRun(s[1..]) == 0;
    }
    assert s[2..] == rest;
  }

  lemma {:induction false} WordRunOf(a: string, rest: string)
    requires forall i :: 0 <= i < |a| ==> IsWord(a[i])
    requires rest == [] || !IsWord(rest[0])
    ensures WordRun(a + rest) == |a|
  {
    if a != [] {
      assert (a + rest)[1..] == a[1..] + rest;
      WordRunOf(a[1..], rest);
    } else {
      assert a + rest == rest;
    }
  }

  lemma LowerAllLower(a: string)
    requires forall i :: 0 <= i < |a| ==> IsLower(a[i]) || IsDigit(a[i])
    ensures LowerAll(a) == a
  {
  }

  /** Characters that are not white space are copied one by one. */
  lemma {:induction false} CapitalizeLowerWord(w: string, rest: string)
    requires forall i :: 0 <= i < |w| ==> !IsSpace(w[i])
    ensures CapitalizeWords(w + rest) == w + CapitalizeWords(rest)
  {
    if w != [] {
      var s := w + rest;
      assert SpaceRun(s) == 0;
      assert s[1..] == w[1..] + rest;
      CapitalizeLowerWord(w[1..], rest);
    } else {
      assert w + rest == rest;
    }
  }

  lemma {:induction false} PascalJoinAlnum(ws: seq<string>)
    requires forall i :: 0 <= i < |ws| ==> IsNameWord(ws[i])
    ensures AllAlnum(PascalJoin(ws))
  {
    if ws != [] {
      PascalJoinAlnum(ws[1..]);
      var c := Capital(ws[0]);
      assert forall i :: 0 <= i < |c| ==> IsAlnum(c[i]);
      assert PascalJoin(ws) == c + PascalJoin(ws[1..]);
    }
  }

  lemma {:induction false} RemoveSpacesNone(s: string)
    requires forall i :: 0 <= i < |s| ==> !IsSpace(s[i])
    ensures RemoveSpaces(s) == s
  {
    if s != [] {
      RemoveSpacesNone(s[1..]);
    }
  }

  /** snake_case to PascalCase: "app_actions" becomes "AppActions". */
  lemma PascalOfSnake(ws: seq<string>)
    requires NameWords(ws)
    ensures ToPascalCase(SnakeJoin(ws)) == PascalJoin(ws)
  {
    DashesSnakeJoin(ws);
    SpaceJoinClass(ws);
    KeepSpaceJoin(SpaceJoin(ws));
    CapitalizeSpaceJoin(ws);
    FinishPascal(ws);
  }

  /** The last two steps on "app" + "Actions": nothing to remove, first letter raised. */
  lemma FinishPascal(ws: seq<string>)
    requires NameWords(ws)
    ensures UpperFirstWord(RemoveSpaces(ws[0] + PascalJoin(ws[1..]))) == PascalJoin(ws)
  {
    var c := ws[0] + PascalJoin(ws[1..]);
    PascalJoinAlnum(ws[1..]);
    AlnumConcat(ws[0], PascalJoin(ws[1..]));
    RemoveSpacesNone(c);
    assert UpperFirstWord(c) == Capital(ws[0]) + PascalJoin(ws[1..]);
  }

  lemma AlnumConcat(a: string, b: string)
    requires AllAlnum(a) && AllAlnum(b)
    ensures forall i :: 0 <= i < |a + b| ==> !IsSpace((a + b)[i])
  {
    assert AllAlnum(a + b);
  }

  /** The two conversions are inverse to each other on type names. */
  lemma NameRoundTrips(ws: seq<string>)
    requires NameWords(ws)
    ensures ToPascalCase(ToSnakeCase(PascalJoin(ws))) == PascalJoin(ws)
    ensures ToSnakeCase(ToPascalCase(SnakeJoin(ws))) == SnakeJoin(ws)
  {
    SnakeOfPascal(ws);
    PascalOfSnake(ws);
  }
  // ---------------------------------------------------------------------
  // Properties of toSnakeCase.

  /** Text without ASCII capitals is unchanged, except one leading "_" is dropped. */
  lemma {:induction false} SnakeWithoutCapitals(s: string)
    requires forall i :: 0 <= i < |s| ==> !IsUpper(s[i])
    ensures ToSnakeCase(s) == DropLeadingUnderscore(s)
  {
    SnakeMarksIdentity(s);
  }

  lemma {:induction false} SnakeMarksIdentity(s: string)
    requires forall i :: 0 <= i < |s| ==> !IsUpper(s[i])
    ensures SnakeMarks(s) == s
  {
    if s != [] {
      SnakeMarksIdentity(s[1..]);
    }
  }

  // Concrete names. Each example takes its text as a parameter fixed by its
  // precondition, so that the verifier reasons about it through the general
  // lemmas instead of evaluating every definition on the literal.

  /** A "." right before a capital is swallowed: "a.B" becomes "a_b". */
  lemma SnakeSwallowsDot(s: string)
    requires s == "a.B"
    ensures ToSnakeCase(s) == "a_b"
  {
    assert s[0] == 'a' && s[1] == '.' && IsUpper(s[2]);
    assert SnakeMarks(s) == ['a'] + SnakeMarks(s[1..]);
    assert SnakeMarks(s[1..]) == ['_', 'b'] + SnakeMarks([]);
  }

  /** The joined forms of a two-word name. */
  lemma TwoWords(a: string, b: string)
    requires IsNameWord(a) && IsNameWord(b)
    ensures NameWords([a, b])
    ensures PascalJoin([a, b]) == Capital(a) + Capital(b)
    ensures SnakeJoin([a, b]) == a + "_" + b
  {
    assert [a, b][1..] == [b];
    assert PascalJoin([b]) == Capital(b) + PascalJoin([]);
  }

  /** "AppAction" becomes "app_action". */
  lemma AppActionSnake(a: string, b: string, pascal: string, snake: string)
    requires a == "app" && b == "action" && pascal == "AppAction" && snake == "app_action"
    ensures ToSnakeCase(pascal) == snake
  {
    TwoWords(a, b);
    assert Capital(a) + Capital(b) == pascal;
    assert a + "_" + b == snake;
    SnakeOfPascal([a, b]);
  }

  /** The service type "app_actions" names the proto service "AppActions". */
  lemma AppActionsService(a: string, b: string)
    requires a == "app_actions" && b == "AppActions"
    ensures ToPascalCase(a) == b
  {
    var w1, w2 := "app", "actions";
    AppActionsSplit(a, w1, w2);
    PascalOfTwo(w1, w2);
    AppActionsCapitals(w1, w2, b);
  }

  lemma AppActionsCapitals(w1: string, w2: string, b: string)
    requires w1 == "app" && w2 == "actions" && b == "AppActions"
    ensures Capital(w1) + Capital(w2) == b
  {
    assert Capital(w1) == "App";
    assert Capital(w2) == "Actions";
    assert "App" + "Actions" == b;
  }

  /** Two type-name words around one underscore. */
  lemma PascalOfTwo(w1: string, w2: string)
    requires IsNameWord(w1) && IsNameWord(w2)
    ensures ToPascalCase(w1 + "_" + w2) == Capital(w1) + Capital(w2)
  {
    TwoWords(w1, w2);
    PascalOfSnake([w1, w2]);
  }

  /** The service type "users" names the proto service "Users". */
  lemma UsersService(c: string, d: string)
    requires c == "users" && d == "Users"
    ensures ToPascalCase(c) == d
  {
    var us := [c];
    assert NameWords(us) && SnakeJoin(us) == c;
    assert PascalJoin(us) == d by {
      assert PascalJoin(us) == Capital(c) + PascalJoin([]);
    }
    PascalOfSnake(us);
  }

  /** A name with no separator keeps its later capitals: "UsersClient". */
  lemma ClassNameUsers(t: string, r: string)
    requires t == "users" && r == "UsersClient"
    ensures ClassName(t) == r
  {
    var s := t + "Client";
    assert AllAlnum(s);
    UnseparatedPascal(s);
    assert UpperFirstWord(s) == [Upper(s[0])] + s[1..];
  }

  /** Without separators or white space only the first character changes. */
  lemma UnseparatedPascal(s: string)
    requires AllAlnum(s)
    ensures ToPascalCase(s) == UpperFirstWord(s)
  {
    DashesNameWordAlnum(s, []);
    assert s + [] == s;
    assert AllWordOrSpace(s);
    KeepSpaceJoin(s);
    CapitalizeLowerWord(s, []);
    RemoveSpacesNone(s);
  }

  /** After a separator the rest of the word is lowered: "AppActionsclient". */
  lemma ClassNameAppActions(t: string, r: string)
    requires t == "app_actions" && r == "AppActionsclient"
    ensures ClassName(t) == r
  {
    var a, w := "app", "actions";
    AppActionsSplit(t, a, w);
    SeparatedClassName(a, w);
    AppActionsClass(a, w, r);
  }

  lemma AppActionsSplit(t: string, a: string, w: string)
    requires t == "app_actions" && a == "app" && w == "actions"
    ensures t == a + "_" + w && AllAlnum(a) && AllAlnum(w) && IsNameWord(a) && IsNameWord(w)
  {
  }

  lemma AppActionsClass(a: string, w: string, r: string)
    requires a == "app" && w == "actions" && r == "AppActionsclient"
    ensures r == [Upper(a[0])] + a[1..] + [Upper(w[0])] + LowerAll(w[1..] + "Client")
  {
    AppCapital(a);
    ActionsClientTail(w);
    assert "App" + "A" + "ctionsclient" == r;
  }

  lemma AppCapital(a: string)
    requires a == "app"
    ensures [Upper(a[0])] + a[1..] == "App"
  {
  }

  lemma ActionsClientTail(w: string)
    requires w == "actions"
    ensures [Upper(w[0])] == "A" && LowerAll(w[1..] + "Client") == "ctionsclient"
  {
    assert w[1..] + "Client" == "ctionsClient";
    LowerTail(w[1..] + "Client", "ctionsclient");
  }

  /** `generateClassName` of two words around one underscore. */
  lemma SeparatedClassName(a: string, w: string)
    requires AllAlnum(a) && AllAlnum(w) && |a| >= 1 && |w| >= 1
    ensures ClassName(a + "_" + w) == [Upper(a[0])] + a[1..] + [Upper(w[0])] + LowerAll(w[1..] + "Client")
  {
    var b := w + "Client";
    assert a + "_" + w + "Client" == a + "_" + b;
    assert AllAlnum(b);
    SeparatedPascal(a, b);
    assert b[1..] == w[1..] + "Client";
  }

  /** Two words around one separator: both first characters raised, the rest
      of the second word lowered. */
  lemma SeparatedPascal(a: string, b: string)
    requires AllAlnum(a) && AllAlnum(b) && |a| >= 1 && |b| >= 2
    ensures ToPascalCase(a + "_" + b) == [Upper(a[0])] + a[1..] + [Upper(b[0])] + LowerAll(b[1..])
  {
    var u, l := [Upper(b[0])], LowerAll(b[1..]);
    SeparatedCapitalize(a, b);
    Assoc3Chars(a, u, l);
    LowerAllAlnum(b[1..]);
    AlnumJoin(a, u + l);
    RemoveSpacesNone(a + (u + l));
    assert IsWord(a[0]);
    UpperFirstOfWord(a, u + l);
    Assoc3Chars([Upper(a[0])] + a[1..], u, l);
  }

  lemma AlnumJoin(a: string, b: string)
    requires AllAlnum(a) && AllAlnum(b)
    ensures AllAlnum(a + b)
  {
  }

  /** Raising the first word character of a text that starts with one. */
  lemma UpperFirstOfWord(a: string, rest: string)
    requires |a| >= 1 && IsWord(a[0])
    ensures UpperFirstWord(a + rest) == [Upper(a[0])] + a[1..] + rest
  {
    assert (a + rest)[0] == a[0];
    assert (a + rest)[1..] == a[1..] + rest;
  }

  lemma LowerTail(x: string, y: string)
    requires x == "ctionsClient" && y == "ctionsclient"
    ensures LowerAll(x) == y
  {
  }

  /** Two alphanumeric words around one separator. */
  lemma SeparatedDashes(a: string, b: string)
    requires AllAlnum(a) && AllAlnum(b) && |b| >= 1
    ensures DashesToSpace(a + "_" + b) == a + " " + b
  {
    DashesNameWordAlnum(a, "_" + b);
    assert a + "_" + b == a + ("_" + b);
    assert DashRun("_" + b) == 1;
    assert ("_" + b)[1..] == b;
    DashesNameWordAlnum(b, []);
    assert b + [] == b;
  }

  /** "a_bc…": the word after the separator is capitalised and the separator goes. */
  lemma SeparatedCapitalize(a: string, b: string)
    requires AllAlnum(a) && AllAlnum(b) && |b| >= 2
    ensures ToPascalCase(a + "_" + b) == UpperFirstWord(RemoveSpaces(a + [Upper(b[0])] + LowerAll(b[1..])))
  {
    SeparatedDashes(a, b);
    SeparatedKeep(a, b);
    SeparatedCapWords(a, b);
  }

  lemma SeparatedCapWords(a: string, b: string)
    requires AllAlnum(a) && AllAlnum(b) && |b| >= 2
    ensures CapitalizeWords(a + " " + b) == a + [Upper(b[0])] + LowerAll(b[1..])
  {
    CapWordsAfterPrefix(a, b);
    CapSpaceWordEnd(b);
    Assoc3Chars(a, [Upper(b[0])], LowerAll(b[1..]));
  }

  lemma CapWordsAfterPrefix(a: string, b: string)
    requires AllAlnum(a)
    ensures CapitalizeWords(a + " " + b) == a + CapitalizeWords(" " + b)
  {
    assert a + " " + b == a + (" " + b);
    AlnumNoSpace(a);
    CapitalizeLowerWord(a, " " + b);
  }

  lemma Assoc3Chars(a: string, u: string, l: string)
    ensures a + (u + l) == a + u + l
  {
  }

  lemma AlnumNoSpace(a: string)
    requires AllAlnum(a)
    ensures forall i :: 0 <= i < |a| ==> !IsSpace(a[i])
  {
    forall i | 0 <= i < |a| ensures !IsSpace(a[i]) {
      assert IsAlnum(a[i]);
    }
  }

  lemma CapSpaceWordEnd(b: string)
    requires AllAlnum(b) && |b| >= 2
    ensures CapitalizeWords(" " + b) == [Upper(b[0])] + LowerAll(b[1..])
  {
    CapMatchAnyWord(b, []);
    assert " " + b + [] == " " + b;
    assert (" " + b)[1 + |b|..] == [];
  }

  lemma SeparatedKeep(a: string, b: string)
    requires AllAlnum(a) && AllAlnum(b)
    ensures KeepWordAndSpace(a + " " + b) == a + " " + b
  {
    assert AllWordOrSpace(a + " " + b);
    KeepSpaceJoin(a + " " + b);
  }

  /** A one-character word after a separator is not capitalised: "a_b" gives "Ab". */
  lemma ShortWordNotCapitalised(t: string, r: string)
    requires t == "a_b" && r == "Ab"
    ensures ToPascalCase(t) == r
  {
    var a, c := t[..1], t[2];
    assert t == a + "_" + [c];
    SeparatedDashes(a, [c]);
    SeparatedKeep(a, [c]);
    ShortWordKept(a, c);
    RemoveOneSpace(a, c);
  }

  lemma ShortWordKept(a: string, c: char)
    requires AllAlnum(a) && IsAlnum(c)
    ensures CapitalizeWords(a + " " + [c]) == a + " " + [c]
  {
    var v := " " + [c];
    CapMatchShortWord(c, []);
    assert v == " " + [c] + [];
    assert CapitalizeWords(v) == v by {
      assert v[1..] == [c];
      assert CapitalizeWords(v[1..]) == [c] + CapitalizeWords([]);
    }
    CapitalizeLowerWord(a, v);
    assert a + " " + [c] == a + v;
  }

  lemma RemoveOneSpace(a: string, c: char)
    requires AllAlnum(a) && IsAlnum(c)
    ensures RemoveSpaces(a + " " + [c]) == a + [c]
  {
    var v := " " + [c];
    assert a + " " + [c] == a + v;
    RemoveSpacesAppend(a, v);
    RemoveSpacesNone(a);
    assert v[1..] == [c] && IsSpace(v[0]);
    assert RemoveSpaces(v) == RemoveSpaces([c]);
    assert !IsSpace(c);
    assert RemoveSpaces([c]) == [c] + RemoveSpaces([c][1..]);
  }

  lemma {:induction false} RemoveSpacesAppend(a: string, b: string)
    ensures RemoveSpaces(a + b) == RemoveSpaces(a) + RemoveSpaces(b)
  {
    if a != [] {
      assert (a + b)[1..] == a[1..] + b;
      RemoveSpacesAppend(a[1..], b);
    } else {
      assert a + b == b;
    }
  }

  lemma {:induction false} DashesNameWordAlnum(w: string, rest: string)
    requires AllAlnum(w)
    ensures DashesToSpace(w + rest) == w + DashesToSpace(rest)
  {
    if w != [] {
      assert (w + rest)[1..] == w[1..] + rest;
      DashesNameWordAlnum(w[1..], rest);
    } else {
      assert w + rest == rest;
    }
  }
}

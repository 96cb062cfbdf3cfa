/** The string methods the client applies with a fixed, non-empty pattern:
    `s.split(sep)`, `parts.join(sep)`, `s.replace(p, r)` (first occurrence)
    and `s.replace(/p/g, r)` (every occurrence, scanning left to right). */
module Strings {
  import opened Wrappers
  import opened Js

  /** `s.split(sep)`: the pieces between the occurrences of `sep`, found
      left to right without overlap. */
  function SplitOn(s: string, sep: string): (parts: seq<string>)
    requires |sep| > 0
    ensures |parts| >= 1
    decreases |s|
  {
    match IndexOf(s, sep)
    case None => [s]
    case Some(i) => [s[..i]] + SplitOn(s[i + |sep|..], sep)
  }

  /** No piece contains the separator. */
  lemma {:induction false} SplitPiecesClean(s: string, sep: string)
    requires |sep| > 0
    ensures forall i :: 0 <= i < |SplitOn(s, sep)| ==> !Contains(SplitOn(s, sep)[i], sep)
    decreases |s|
  {
    match IndexOf(s, sep)
    case None =>
    case Some(i) =>
      NoMatchBefore(s, sep, i);
      SplitPiecesClean(s[i + |sep|..], sep);
  }

  /** A prefix ending before the first occurrence contains none. */
  lemma NoMatchBefore(s: string, sep: string, i: nat)
    requires |sep| > 0 && IndexOf(s, sep) == Some(i)
    ensures !Contains(s[..i], sep)
  {
    forall j | 0 <= j <= i && MatchAt(s[..i], sep, j) ensures false {
      assert j < i;
      assert s[j..j + |sep|] == s[..i][j..j + |sep|];
      assert MatchAt(s, sep, j);
    }
  }

  /** `parts.join(sep)`; the empty list joins to "". */
  function JoinOn(parts: seq<string>, sep: string): string
    decreases |parts|
  {
    if |parts| == 0 then ""
    else if |parts| == 1 then parts[0]
    else parts[0] + sep + JoinOn(parts[1..], sep)
  }

  /** `s.replace(/p/g, r)` for a pattern without special characters. */
  function ReplaceAll(s: string, p: string, r: string): string
    requires |p| > 0
    decreases |s|
  {
    match IndexOf(s, p)
    case None => s
    case Some(i) => s[..i] + r + ReplaceAll(s[i + |p|..], p, r)
  }

  /** `s.replace(p, r)` with a string pattern: the first occurrence only. */
  function ReplaceFirst(s: string, p: string, r: string): string {
    match IndexOf(s, p)
    case None => s
    case Some(i) => s[..i] + r + s[i + |p|..]
  }

  // ---------------------------------------------------------------------
  // Properties.

  /** Joining the pieces with the separator gives the text back. */
  lemma {:induction false} JoinSplitOn(s: string, sep: string)
    requires |sep| > 0
    ensures JoinOn(SplitOn(s, sep), sep) == s
    decreases |s|
  {
    match IndexOf(s, sep)
    case None =>
    case Some(i) =>
      var rest := s[i + |sep|..];
      var tail := SplitOn(rest, sep);
      JoinSplitOn(rest, sep);
      var parts := [s[..i]] + tail;
      assert SplitOn(s, sep) == parts;
      assert |parts| >= 2 && parts[0] == s[..i] && parts[1..] == tail;
      assert JoinOn(parts, sep) == s[..i] + sep + rest;
      assert s[i..i + |sep|] == sep;
      assert s == s[..i] + s[i..i + |sep|] + rest;
  }

  /** Replacing every occurrence is splitting at them and joining with the
      replacement. */
  lemma {:induction false} ReplaceAllIsSplitJoin(s: string, p: string, r: string)
    requires |p| > 0
    ensures ReplaceAll(s, p, r) == JoinOn(SplitOn(s, p), r)
    decreases |s|
  {
    match IndexOf(s, p)
    case None =>
    case Some(i) =>
      ReplaceAllIsSplitJoin(s[i + |p|..], p, r);
  }

  /** Text without the pattern is left as it is, by both replacements. */
  lemma NoMatchUnchanged(s: string, p: string, r: string)
    requires |p| > 0 && !Contains(s, p)
    ensures ReplaceAll(s, p, r) == s && ReplaceFirst(s, p, r) == s && SplitOn(s, p) == [s]
  {
  }

  /** After `replace(/c/g, "")` with a one-character pattern the character
      no longer occurs. */
  lemma {:induction false} RemovedCharAbsent(s: string, c: char)
    ensures c !in ReplaceAll(s, [c], "")
    decreases |s|
  {
    match IndexOf(s, [c])
    case None =>
      forall j | 0 <= j < |s| ensures s[j] != c {
        assert !MatchAt(s, [c], j);
        assert s[j..j + 1] == [s[j]];
      }
    case Some(i) =>
      RemovedCharAbsent(s[i + 1..], c);
      forall j | 0 <= j < i ensures s[j] != c {
        assert !MatchAt(s, [c], j);
        assert s[j..j + 1] == [s[j]];
      }
  }

  /** The first piece ends at the first occurrence of the separator. */
  lemma SplitOnFirst(a: string, sep: string, b: string)
    requires |sep| > 0 && IndexOf(a + sep + b, sep) == Some(|a|)
    ensures SplitOn(a + sep + b, sep) == [a] + SplitOn(b, sep)
  {
    var s := a + sep + b;
    assert s[..|a|] == a;
    assert s[|a| + |sep|..] == b;
  }

  /** Text in which the separator's first character does not occur has its
      first occurrence right after it. */
  lemma FirstMatchAfter(a: string, sep: string, b: string)
    requires |sep| > 0 && sep[0] !in a
    ensures IndexOf(a + sep + b, sep) == Some(|a|)
  {
    var s := a + sep + b;
    assert MatchAt(s, sep, |a|) by {
      assert s[|a|..|a| + |sep|] == sep;
    }
    forall j | 0 <= j < |a| ensures !MatchAt(s, sep, j) {
      assert s[j] == a[j];
    }
  }

  /** A replacement at the very start. */
  lemma ReplaceFirstAtStart(p: string, rest: string, r: string)
    requires |p| > 0
    ensures ReplaceFirst(p + rest, p, r) == r + rest
  {
    var s := p + rest;
    assert MatchAt(s, p, 0) by {
      assert s[0..|p|] == p;
    }
    assert s[|p|..] == rest;
  }

  /** The text with every `c` taken out. */
  function RemoveChar(s: string, c: char): (r: string)
    ensures c !in r
    decreases |s|
  {
    if |s| == 0 then []
    else if s[0] == c then RemoveChar(s[1..], c)
    else [s[0]] + RemoveChar(s[1..], c)
  }

  lemma {:induction false} RemoveCharConcat(a: string, b: string, c: char)
    ensures RemoveChar(a + b, c) == RemoveChar(a, c) + RemoveChar(b, c)
    decreases |a|
  {
    if |a| == 0 {
      assert a + b == b;
    } else {
      assert (a + b)[0] == a[0] && (a + b)[1..] == a[1..] + b;
      RemoveCharConcat(a[1..], b, c);
    }
  }

  lemma {:induction false} RemoveCharAbsent(s: string, c: char)
    requires c !in s
    ensures RemoveChar(s, c) == s
    decreases |s|
  {
    if |s| != 0 {
      RemoveCharAbsent(s[1..], c);
      assert [s[0]] + s[1..] == s;
    }
  }

  /** Text in which `[c]` is not found does not hold `c`. */
  lemma NotContainsChar(s: string, c: char)
    requires !Contains(s, [c])
    ensures c !in s
  {
    forall j | 0 <= j < |s| ensures s[j] != c {
      assert !MatchAt(s, [c], j);
      assert s[j..j + 1] == [s[j]];
    }
  }

  /** `replace(/c/g, "")` with a one-character pattern takes every `c` out. */
  lemma {:induction false} ReplaceAllChar(s: string, c: char)
    ensures ReplaceAll(s, [c], "") == RemoveChar(s, c)
    decreases |s|
  {
    match IndexOf(s, [c])
    case None =>
      NotContainsChar(s, c);
      RemoveCharAbsent(s, c);
    case Some(i) =>
      ReplaceAllChar(s[i + 1..], c);
      ReplaceAllCharStep(s, c, i);
      RemoveCharAtFirst(s, c, i);
  }

  lemma ReplaceAllCharStep(s: string, c: char, i: nat)
    requires IndexOf(s, [c]) == Some(i)
    ensures ReplaceAll(s, [c], "") == s[..i] + ReplaceAll(s[i + 1..], [c], "")
  {
    assert s[..i] + "" == s[..i];
  }

  /** Removing `c` around its first occurrence at `i`. */
  lemma RemoveCharAtFirst(s: string, c: char, i: nat)
    requires IndexOf(s, [c]) == Some(i)
    ensures RemoveChar(s, c) == s[..i] + RemoveChar(s[i + 1..], c)
  {
    var rest := s[i + 1..];
    NoMatchBefore(s, [c], i);
    NotContainsChar(s[..i], c);
    RemoveCharAbsent(s[..i], c);
    assert s == s[..i] + ([c] + rest) by {
      assert s[i..i + 1] == [c];
    }
    RemoveCharConcat(s[..i], [c] + rest, c);
    assert ([c] + rest)[1..] == rest;
  }

  /** A pattern whose first character does not occur is not found. */
  lemma HeadAbsent(s: string, p: string)
    requires |p| > 0 && p[0] !in s
    ensures !Contains(s, p)
  {
  }

  /** A character in neither the text nor the replacement is not in the
      result. */
  lemma {:induction false} ReplaceAllAbsent(s: string, p: string, r: string, c: char)
    requires |p| > 0 && c !in s && c !in r
    ensures c !in ReplaceAll(s, p, r)
    decreases |s|
  {
    match IndexOf(s, p)
    case None =>
    case Some(i) =>
      ReplaceAllAbsent(s[i + |p|..], p, r, c);
      assert c !in s[..i];
  }

  /** The separator is found right after `a` when no earlier offset matches. */
  lemma FirstMatchAt(a: string, sep: string, b: string)
    requires |sep| > 0
    requires forall j :: 0 <= j < |a| ==> !MatchAt(a + sep + b, sep, j)
    ensures IndexOf(a + sep + b, sep) == Some(|a|)
  {
    var s := a + sep + b;
    assert MatchAt(s, sep, |a|) by {
      assert s[|a|..|a| + |sep|] == sep;
    }
  }
}

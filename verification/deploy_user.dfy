/** `rb deploy:user` (src/commands/deploy/user.js): the e-mail check of the
    command-line arguments, their de-duplication, and the choice between the
    given users and the caller's own id. */
module DeployUser {
  import opened Wrappers

  // ---------------------------------------------------------------------
  // The e-mail expression.

  /** `\s` of ECMAScript regular expressions: WhiteSpace and LineTerminator. */
  predicate IsJsSpace(c: char) {
    var n := c as int;
    (9 <= n <= 13) || n == 32 || n == 0xA0 || n == 0x1680 || (0x2000 <= n <= 0x200A)
    || n == 0x2028 || n == 0x2029 || n == 0x202F || n == 0x205F || n == 0x3000 || n == 0xFEFF
  }

  /** The characters `.` in a regular expression does not match. */
  predicate IsLineTerminator(c: char) {
    var n := c as int;
    n == 10 || n == 13 || n == 0x2028 || n == 0x2029
  }

  /** `[^<>()[\]\\.,;:\s@"]` */
  predicate IsAtomChar(c: char) {
    c !in "<>()[]\\.,;:@\"" && !IsJsSpace(c)
  }

  predicate IsDigit(c: char) {
    '0' <= c <= '9'
  }

  predicate IsLetter(c: char) {
    ('a' <= c <= 'z') || ('A' <= c <= 'Z')
  }

  /** `[a-zA-Z\-0-9]` */
  predicate IsLabelChar(c: char) {
    IsLetter(c) || IsDigit(c) || c == '-'
  }

  /** `s.split(sep)`: the pieces between the separators, at least one. */
  function Split(s: string, sep: char): (parts: seq<string>)
    ensures |parts| >= 1
    ensures forall i :: 0 <= i < |parts| ==> sep !in parts[i]
    decreases |s|
  {
    if |s| == 0 then [""]
    else
      var rest := Split(s[1..], sep);
      if s[0] == sep then [""] + rest
      else [[s[0]] + rest[0]] + rest[1..]
  }

  function Join(parts: seq<string>, sep: char): string
    requires |parts| >= 1
    decreases |parts|
  {
    if |parts| == 1 then parts[0] else parts[0] + [sep] + Join(parts[1..], sep)
  }

  /** Splitting loses nothing: joining the pieces gives the text back. */
  lemma {:induction false} JoinSplit(s: string, sep: char)
    ensures Join(Split(s, sep), sep) == s
    decreases |s|
  {
    if |s| != 0 {
      var rest := Split(s[1..], sep);
      JoinSplit(s[1..], sep);
      if s[0] == sep {
        assert Split(s, sep)[1..] == rest;
        assert s == [sep] + s[1..];
      } else {
        var parts := Split(s, sep);
        assert parts[0] == [s[0]] + rest[0];
        if |rest| == 1 {
          assert s == [s[0]] + rest[0];
        } else {
          assert parts[1..] == rest[1..];
          assert Join(rest, sep) == rest[0] + [sep] + Join(rest[1..], sep);
          assert s == [s[0]] + (rest[0] + [sep] + Join(rest[1..], sep));
        }
      }
    }
  }

  predicate AllChars(s: string, p: char -> bool) {
    forall i :: 0 <= i < |s| ==> p(s[i])
  }

  /** `[^…]+(\.[^…]+)*`: non-empty atoms joined by single dots. */
  predicate IsDotAtom(t: string) {
    var atoms := Split(t, '.');
    forall i :: 0 <= i < |atoms| ==> |atoms[i]| > 0 && AllChars(atoms[i], IsAtomChar)
  }

  /** `".+"`: a quote, at least one character other than a line
      terminator, a quote. */
  predicate IsQuotedLocal(t: string) {
    |t| >= 3 && t[0] == '"' && t[|t| - 1] == '"'
    && forall i :: 1 <= i < |t| - 1 ==> !IsLineTerminator(t[i])
  }

  predicate IsLocalPart(t: string) {
    IsDotAtom(t) || IsQuotedLocal(t)
  }

  /** `\[[0-9]{1,3}\.[0-9]{1,3}\.[0-9]{1,3}\.[0-9]{1,3}\]` */
  predicate IsAddressLiteral(d: string) {
    |d| >= 2 && d[0] == '[' && d[|d| - 1] == ']'
    && var parts := Split(d[1..|d| - 1], '.');
    |parts| == 4
    && forall i :: 0 <= i < 4 ==> 1 <= |parts[i]| <= 3 && AllChars(parts[i], IsDigit)
  }

  /** `([a-zA-Z\-0-9]+\.)+[a-zA-Z]{2,}`: two or more non-empty labels, the
      last of two or more letters. */
  predicate IsHostName(d: string) {
    var labels := Split(d, '.');
    |labels| >= 2
    && (forall i :: 0 <= i < |labels| ==> |labels[i]| > 0 && AllChars(labels[i], IsLabelChar))
    && |labels[|labels| - 1]| >= 2 && AllChars(labels[|labels| - 1], IsLetter)
  }

  predicate IsDomain(d: string) {
    IsAddressLiteral(d) || IsHostName(d)
  }

  /** The whole expression: some "@" splits the text into a local part and a
      domain. */
  predicate IsEmail(s: string) {
    exists i :: 0 <= i < |s| && s[i] == '@' && IsLocalPart(s[..i]) && IsDomain(s[i + 1..])
  }

  /** The offset of the last "@". */
  function LastAt(s: string): (r: Option<nat>)
    ensures r.Some? ==> r.value < |s| && s[r.value] == '@' && '@' !in s[r.value + 1..]
    ensures r.None? ==> '@' !in s
    decreases |s|
  {
    if |s| == 0 then None
    else if s[|s| - 1] == '@' then Some(|s| - 1)
    else
      var r := LastAt(s[..|s| - 1]);
      assert s == s[..|s| - 1] + [s[|s| - 1]];
      r
  }

  /** The test as the matcher settles it: a domain has no "@", so the only
      split that can succeed is at the last one. */
  function CheckEmail(s: string): bool {
    match LastAt(s)
    case None => false
    case Some(i) => IsLocalPart(s[..i]) && IsDomain(s[i + 1..])
  }

  lemma {:induction false} SplitKeeps(s: string, sep: char, c: char)
    requires c != sep && c !in s
    ensures forall i :: 0 <= i < |Split(s, sep)| ==> c !in Split(s, sep)[i]
    decreases |s|
  {
    if |s| != 0 {
      SplitKeeps(s[1..], sep, c);
    }
  }

  lemma {:induction false} InSplit(s: string, sep: char, c: char)
    requires c != sep && c in s
    ensures exists i :: 0 <= i < |Split(s, sep)| && c in Split(s, sep)[i]
    decreases |s|
  {
    var parts := Split(s, sep);
    if s[0] == c {
      assert c in parts[0];
    } else {
      InSplit(s[1..], sep, c);
      var rest := Split(s[1..], sep);
      var i :| 0 <= i < |rest| && c in rest[i];
      if s[0] == sep {
        assert parts[i + 1] == rest[i];
      } else if i == 0 {
        assert c in parts[0];
      } else {
        assert parts[i] == rest[i];
      }
    }
  }

  /** A domain never contains "@". */
  lemma DomainHasNoAt(d: string)
    requires IsDomain(d)
    ensures '@' !in d
  {
    if '@' in d {
      if IsAddressLiteral(d) {
        var inner := d[1..|d| - 1];
        assert d == [d[0]] + inner + [d[|d| - 1]];
        InSplit(inner, '.', '@');
      } else {
        InSplit(d, '.', '@');
      }
    }
  }

  /** An "@" with none after it is the last one. */
  lemma LastAtIs(s: string, i: nat)
    requires i < |s| && s[i] == '@' && '@' !in s[i + 1..]
    ensures LastAt(s) == Some(i)
  {
    var j := LastAt(s);
    assert s[i] in s;
    var last := j.value;
    forall k | last < k < |s|
      ensures s[k] != '@'
    {
      assert s[k] == s[last + 1..][k - last - 1];
    }
    forall k | i < k < |s|
      ensures s[k] != '@'
    {
      assert s[k] == s[i + 1..][k - i - 1];
    }
  }

  /** The computed test agrees with the expression, both ways. */
  lemma CheckEmailIsEmail(s: string)
    ensures CheckEmail(s) <==> IsEmail(s)
  {
    if IsEmail(s) {
      var i :| 0 <= i < |s| && s[i] == '@' && IsLocalPart(s[..i]) && IsDomain(s[i + 1..]);
      DomainHasNoAt(s[i + 1..]);
      LastAtIs(s, i);
    }
  }

  // ---------------------------------------------------------------------
  // The command.

  const InvalidEmailPrefix := "invlaid email format for: "

  /** `Array.from(new Set(xs))`: the first occurrence of each element, in
      order. */
  function Dedup(xs: seq<string>): (r: seq<string>)
    decreases |xs|
  {
    if |xs| == 0 then []
    else
      var init := Dedup(xs[..|xs| - 1]);
      if xs[|xs| - 1] in xs[..|xs| - 1] then init else init + [xs[|xs| - 1]]
  }

  /** `argv.map(check)` followed by the set: the first argument the
      expression rejects is the error. */
  function GetUsersInput(argv: seq<string>): (r: Result<seq<string>>)
    ensures r.Ok? <==> forall i :: 0 <= i < |argv| ==> CheckEmail(argv[i])
    ensures r.Err? ==> exists i :: (0 <= i < |argv| && !CheckEmail(argv[i])
      && r.error == InvalidEmailPrefix + argv[i]
      && forall j :: 0 <= j < i ==> CheckEmail(argv[j]))
    ensures r.Ok? ==> r.value == Dedup(argv)
  {
    match FirstInvalid(argv, 0)
    case Some(i) => Err(InvalidEmailPrefix + argv[i])
    case None => Ok(Dedup(argv))
  }

  /** The first index at or after `from` whose argument is rejected. */
  function FirstInvalid(argv: seq<string>, from: nat): (r: Option<nat>)
    requires from <= |argv|
    ensures r.Some? ==> (from <= r.value < |argv| && !CheckEmail(argv[r.value])
      && forall j :: from <= j < r.value ==> CheckEmail(argv[j]))
    ensures r.None? ==> forall j :: from <= j < |argv| ==> CheckEmail(argv[j])
    decreases |argv| - from
  {
    if from == |argv| then None
    else if !CheckEmail(argv[from]) then Some(from)
    else FirstInvalid(argv, from + 1)
  }

  /** Whose ids `loadUsers` deploys for. */
  datatype UserSource = ProvidedArgs(users: seq<string>) | PersonalId

  function LoadUsers(argv: seq<string>): (r: Result<UserSource>)
    ensures r.Err? <==> GetUsersInput(argv).Err?
    ensures r == Ok(PersonalId) <==> |argv| == 0
  {
    match GetUsersInput(argv)
    case Err(e) => Err(e)
    case Ok(users) =>
      DedupEmpty(argv);
      if |users| > 0 then Ok(ProvidedArgs(users)) else Ok(PersonalId)
  }

  // ---------------------------------------------------------------------
  // De-duplication.

  predicate NoDuplicates(s: seq<string>) {
    forall i, j :: 0 <= i < j < |s| ==> s[i] != s[j]
  }

  lemma {:induction false} DedupElements(xs: seq<string>)
    ensures NoDuplicates(Dedup(xs))
    ensures forall x :: x in Dedup(xs) <==> x in xs
    decreases |xs|
  {
    if |xs| != 0 {
      var init := xs[..|xs| - 1];
      DedupElements(init);
      assert xs == init + [xs[|xs| - 1]];
    }
  }

  lemma DedupEmpty(xs: seq<string>)
    ensures |Dedup(xs)| == 0 <==> |xs| == 0
  {
    DedupElements(xs);
    if |xs| != 0 {
      assert xs[0] in Dedup(xs);
    }
  }

  /** The index of the first occurrence of `x`. */
  function FirstIndex(xs: seq<string>, x: string): (i: nat)
    requires x in xs
    ensures i < |xs| && xs[i] == x && x !in xs[..i]
    decreases |xs|
  {
    if xs[0] == x then 0
    else
      var i := 1 + FirstIndex(xs[1..], x);
      assert xs[..i] == [xs[0]] + xs[1..][..i - 1];
      i
  }

  lemma FirstIndexPrefix(xs: seq<string>, y: string, x: string)
    requires x in xs
    ensures FirstIndex(xs + [y], x) == FirstIndex(xs, x)
  {
    var i := FirstIndex(xs, x);
    var j := FirstIndex(xs + [y], x);
    var ys := xs + [y];
    forall k | 0 <= k < i
      ensures xs[k] != x
    {
      assert xs[k] in xs[..i];
    }
    forall k | 0 <= k < j
      ensures ys[k] != x
    {
      assert ys[k] in ys[..j];
    }
    assert ys[i] == x;
  }

  /** The result keeps the order of first occurrences. */
  lemma {:induction false} DedupOrder(xs: seq<string>, i: nat, j: nat)
    requires i < j < |Dedup(xs)|
    ensures Dedup(xs)[i] in xs && Dedup(xs)[j] in xs
    ensures FirstIndex(xs, Dedup(xs)[i]) < FirstIndex(xs, Dedup(xs)[j])
    decreases |xs|
  {
    DedupElements(xs);
    assert Dedup(xs)[i] in Dedup(xs) && Dedup(xs)[j] in Dedup(xs);
    var init := xs[..|xs| - 1];
    var last := xs[|xs| - 1];
    assert xs == init + [last];
    DedupElements(init);
    var d := Dedup(init);
    if last in init || j < |d| {
      DedupOrder(init, i, j);
      assert d[i] in init && d[j] in init;
      FirstIndexPrefix(init, last, d[i]);
      FirstIndexPrefix(init, last, d[j]);
    } else {
      assert Dedup(xs)[j] == last;
      assert d[i] in init;
      FirstIndexPrefix(init, last, d[i]);
      assert FirstIndex(xs, last) == |init|;
    }
  }

  /** A list without repetitions is returned as it is. */
  lemma {:induction false} DedupDistinct(xs: seq<string>)
    requires NoDuplicates(xs)
    ensures Dedup(xs) == xs
    decreases |xs|
  {
    if |xs| != 0 {
      var init := xs[..|xs| - 1];
      DedupDistinct(init);
      assert xs[|xs| - 1] !in init;
      assert init + [xs[|xs| - 1]] == xs;
    }
  }

  /** De-duplicating twice changes nothing more. */
  lemma DedupIdempotent(xs: seq<string>)
    ensures Dedup(Dedup(xs)) == Dedup(xs)
  {
    DedupElements(xs);
    DedupDistinct(Dedup(xs));
  }

  /** With valid addresses only, the users are exactly the distinct
      arguments, each once, in the order of first mention. */
  lemma UsersAreDistinctArgs(argv: seq<string>)
    requires GetUsersInput(argv).Ok?
    ensures NoDuplicates(GetUsersInput(argv).value)
    ensures forall u :: u in GetUsersInput(argv).value <==> u in argv
  {
    DedupElements(argv);
  }

  /** Example: two repetitions of one address give one user. */
  lemma RepeatedAddress(a: string, b: string)
    requires CheckEmail(a) && CheckEmail(b) && a != b
    ensures GetUsersInput([a, b, a]) == Ok([a, b])
  {
    var xs := [a, b, a];
    assert xs[..2] == [a, b] && [a, b][..1] == [a] && [a][..0] == [];
    assert Dedup([a]) == [a];
    assert Dedup([a, b]) == [a, b];
    assert forall i :: 0 <= i < |xs| ==> CheckEmail(xs[i]);
  }
}

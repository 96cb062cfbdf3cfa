/** `isLocalPath(p)` of packages/cli/src/utils/local-path.js: the regular
    expression `/^[./]|(^[a-zA-Z]:)/` tested against a template location. */
module LocalPath {

  predicate IsAsciiLetter(c: char) {
    ('a' <= c <= 'z') || ('A' <= c <= 'Z')
  }

  /** Starts with "." or "/", or with a drive letter and a colon. */
  predicate IsLocalPath(p: string) {
    (|p| >= 1 && (p[0] == '.' || p[0] == '/'))
    || (|p| >= 2 && IsAsciiLetter(p[0]) && p[1] == ':')
  }

  /** The characters the two alternatives of the expression may inspect. */
  function Head(p: string): (h: string)
    ensures |h| <= 2 && |h| <= |p| && h == p[..|h|]
    ensures |h| < 2 ==> h == p
  {
    if |p| <= 2 then p else p[..2]
  }

  /** Only the first two characters decide, in both directions. */
  lemma OnlyHeadMatters(p: string, q: string)
    requires Head(p) == Head(q)
    ensures IsLocalPath(p) <==> IsLocalPath(q)
  {
    assert |p| >= 1 ==> p[0] == Head(p)[0];
    assert |q| >= 1 ==> q[0] == Head(q)[0];
    assert |p| >= 2 ==> p[1] == Head(p)[1];
    assert |q| >= 2 ==> q[1] == Head(q)[1];
  }

  /** A path is local exactly when its first character is "." or "/", or it
      begins with a letter followed by a colon. */
  lemma LocalIff(p: string, c0: char, c1: char, rest: string)
    requires p == [c0, c1] + rest
    ensures IsLocalPath(p) <==> c0 == '.' || c0 == '/' || (IsAsciiLetter(c0) && c1 == ':')
  {
  }

  /** Repository references and the empty string are remote; relative,
      absolute and drive paths are local. */
  lemma Examples(empty: string, repo: string, github: string, drive: string, dot: string)
    requires empty == "" && repo == "owner/repo" && github == "github:owner/repo"
    requires drive == "C:\\tpl" && dot == "./tpl"
    ensures !IsLocalPath(empty) && !IsLocalPath(repo) && !IsLocalPath(github)
    ensures IsLocalPath(drive) && IsLocalPath(dot)
  {
  }
}

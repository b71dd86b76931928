/**
 * Shell-style pattern matching as performed by `fnmatch(pattern, string)`
 * called with no flags (POSIX.1-2017, XCU section 2.13 "Pattern Matching
 * Notation"): `*` matches any run of characters, including the empty run, a
 * `/` and a leading `.` (neither FNM_PATHNAME nor FNM_PERIOD is set); `?`
 * matches exactly one character; every other character matches itself,
 * case-sensitively; and the match is anchored at both ends of the string.
 */
module Fnmatch {

  /** The two pattern characters that are not matched literally. */
  predicate IsWildcard(c: char) {
    c == '*' || c == '?'
  }

  /** A pattern without wildcards, such as `drupal/core`. */
  predicate IsLiteral(pattern: string) {
    forall i :: 0 <= i < |pattern| ==> !IsWildcard(pattern[i])
  }

  /**
   * The strings that one pattern character matches on its own: every string
   * for `*`, every one-character string for `?`, and only itself otherwise.
   * This is the reference each match is taken apart into (see GlobTokens).
   */
  predicate TokenMatch(c: char, s: string) {
    if c == '*' then true
    else if c == '?' then |s| == 1
    else s == [c]
  }

  /** `fnmatch(pattern, name) == 0`: the whole of `name` matches `pattern`. */
  predicate GlobMatch(pattern: string, name: string)
    decreases |pattern| + |name|
  {
    if |pattern| == 0 then |name| == 0
    else if pattern[0] == '*' then
      GlobMatch(pattern[1..], name) || (|name| > 0 && GlobMatch(pattern, name[1..]))
    else
      |name| > 0 && (pattern[0] == '?' || pattern[0] == name[0]) &&
      GlobMatch(pattern[1..], name[1..])
  }

  /** The number of `*` characters in a pattern. */
  function StarCount(pattern: string): (n: nat)
    ensures n <= |pattern|
  {
    if |pattern| == 0 then 0
    else (if pattern[0] == '*' then 1 else 0) + StarCount(pattern[1..])
  }

  /**
   * A leading `*` consumes some prefix of the name, possibly empty, and the
   * rest of the pattern must match what is left.
   */
  lemma {:induction false} StarSplit(rest: string, name: string)
    ensures GlobMatch("*" + rest, name) <==>
            exists k :: 0 <= k <= |name| && GlobMatch(rest, name[k..])
    decreases |name|
  {
    var p := "*" + rest;
    assert p[0] == '*' && p[1..] == rest;
    assert name[0..] == name;
    if |name| > 0 {
      StarSplit(rest, name[1..]);
      if GlobMatch(p, name) && !GlobMatch(rest, name) {
        var k :| 0 <= k <= |name[1..]| && GlobMatch(rest, name[1..][k..]);
        assert name[1..][k..] == name[k + 1..];
      }
      if exists k :: 0 <= k <= |name| && GlobMatch(rest, name[k..]) {
        var k :| 0 <= k <= |name| && GlobMatch(rest, name[k..]);
        if k > 0 {
          assert name[1..][k - 1..] == name[k..];
        }
      }
    }
  }

  /** `*` on its own matches every name. */
  lemma StarMatchesAll(name: string)
    ensures GlobMatch("*", name)
  {
    StarSplit("", name);
    assert "*" + "" == "*";
    assert GlobMatch("", name[|name|..]);
  }

  /**
   * Matching is compositional: a concatenation of two patterns matches a name
   * exactly when the name splits into a part matching the first and a part
   * matching the second.
   */
  lemma {:induction false} GlobConcat(p1: string, p2: string, name: string)
    ensures GlobMatch(p1 + p2, name) <==>
            exists k :: 0 <= k <= |name| && GlobMatch(p1, name[..k]) && GlobMatch(p2, name[k..])
    decreases |p1|, 1
  {
    if |p1| == 0 {
      assert p1 + p2 == p2;
      assert name[..0] == [] && name[0..] == name;
      if exists k :: 0 <= k <= |name| && GlobMatch(p1, name[..k]) && GlobMatch(p2, name[k..]) {
        var k :| 0 <= k <= |name| && GlobMatch(p1, name[..k]) && GlobMatch(p2, name[k..]);
        assert |name[..k]| == 0;
      }
    } else if p1[0] == '*' {
      assert p1 == "*" + p1[1..];
      GlobConcatStar(p1[1..], p2, name);
    } else {
      GlobConcatHead(p1, p2, name);
    }
  }

  /** GlobConcat when the first pattern starts with `*`. */
  lemma {:induction false} GlobConcatStar(q1: string, p2: string, name: string)
    ensures GlobMatch("*" + q1 + p2, name) <==>
            exists k :: 0 <= k <= |name| && GlobMatch("*" + q1, name[..k]) && GlobMatch(p2, name[k..])
    decreases |q1|, 2
  {
    var p1 := "*" + q1;
    assert p1 + p2 == "*" + (q1 + p2);
    StarSplit(q1 + p2, name);
    if GlobMatch(p1 + p2, name) {
      var j :| 0 <= j <= |name| && GlobMatch(q1 + p2, name[j..]);
      GlobConcat(q1, p2, name[j..]);
      var m :| 0 <= m <= |name[j..]| && GlobMatch(q1, name[j..][..m]) && GlobMatch(p2, name[j..][m..]);
      var k := j + m;
      StarSplit(q1, name[..k]);
      assert name[..k][j..] == name[j..][..m];
      assert name[k..] == name[j..][m..];
      assert GlobMatch(p1, name[..k]);
    }
    if exists k :: 0 <= k <= |name| && GlobMatch(p1, name[..k]) && GlobMatch(p2, name[k..]) {
      var k :| 0 <= k <= |name| && GlobMatch(p1, name[..k]) && GlobMatch(p2, name[k..]);
      StarSplit(q1, name[..k]);
      var j :| 0 <= j <= |name[..k]| && GlobMatch(q1, name[..k][j..]);
      var m := k - j;
      GlobConcat(q1, p2, name[j..]);
      assert name[j..][..m] == name[..k][j..];
      assert name[j..][m..] == name[k..];
      assert GlobMatch(q1 + p2, name[j..]);
    }
  }

  /** GlobConcat when the first pattern starts with `?` or a literal character. */
  lemma {:induction false} GlobConcatHead(p1: string, p2: string, name: string)
    requires |p1| > 0 && p1[0] != '*'
    ensures GlobMatch(p1 + p2, name) <==>
            exists k :: 0 <= k <= |name| && GlobMatch(p1, name[..k]) && GlobMatch(p2, name[k..])
    decreases |p1|, 0
  {
    var q1 := p1[1..];
    assert (p1 + p2)[0] == p1[0] && (p1 + p2)[1..] == q1 + p2;
    if GlobMatch(p1 + p2, name) {
      GlobConcat(q1, p2, name[1..]);
      var m :| 0 <= m <= |name[1..]| && GlobMatch(q1, name[1..][..m]) && GlobMatch(p2, name[1..][m..]);
      var k := m + 1;
      assert name[..k][0] == name[0] && name[..k][1..] == name[1..][..m];
      assert name[k..] == name[1..][m..];
      assert GlobMatch(p1, name[..k]);
    }
    if exists k :: 0 <= k <= |name| && GlobMatch(p1, name[..k]) && GlobMatch(p2, name[k..]) {
      var k :| 0 <= k <= |name| && GlobMatch(p1, name[..k]) && GlobMatch(p2, name[k..]);
      assert k > 0;
      var m := k - 1;
      assert name[..k][0] == name[0] && name[..k][1..] == name[1..][..m];
      assert name[1..][m..] == name[k..];
      GlobConcat(q1, p2, name[1..]);
    }
  }

  /** A one-character pattern matches exactly what its token matches. */
  lemma GlobSingle(c: char, s: string)
    ensures GlobMatch([c], s) <==> TokenMatch(c, s)
  {
    assert [c][1..] == "";
    if c == '*' {
      StarMatchesAll(s);
    } else if |s| > 0 {
      assert s == [s[0]] + s[1..];
    }
  }

  /**
   * The reference semantics: a pattern `c` followed by `rest` matches a name
   * exactly when some prefix of the name is matched by the token `c` and the
   * remainder by `rest`.
   */
  lemma GlobTokens(c: char, rest: string, name: string)
    ensures GlobMatch([c] + rest, name) <==>
            exists k :: 0 <= k <= |name| && TokenMatch(c, name[..k]) && GlobMatch(rest, name[k..])
  {
    GlobConcat([c], rest, name);
    forall k | 0 <= k <= |name|
      ensures GlobMatch([c], name[..k]) <==> TokenMatch(c, name[..k])
    {
      GlobSingle(c, name[..k]);
    }
  }

  /** A pattern without wildcards matches only the identical name. */
  lemma {:induction false} LiteralMatch(pattern: string, name: string)
    requires IsLiteral(pattern)
    ensures GlobMatch(pattern, name) <==> pattern == name
  {
    if |pattern| > 0 {
      assert IsLiteral(pattern[1..]) by {
        forall i | 0 <= i < |pattern[1..]| ensures !IsWildcard(pattern[1..][i]) {
          assert pattern[1..][i] == pattern[i + 1];
        }
      }
      if |name| > 0 {
        LiteralMatch(pattern[1..], name[1..]);
        if pattern[0] == name[0] && pattern[1..] == name[1..] {
          assert pattern == [pattern[0]] + pattern[1..] && name == [name[0]] + name[1..];
        }
        if pattern == name {
          assert pattern[1..] == name[1..];
        }
      }
    }
  }

  /**
   * A literal followed by `*` is a prefix test, still anchored at the start:
   * the pattern `drupal/` followed by `*` matches every name that begins with
   * `drupal/` and no other.
   */
  lemma LiteralPrefixStar(prefix: string, name: string)
    requires IsLiteral(prefix)
    ensures GlobMatch(prefix + "*", name) <==> |prefix| <= |name| && name[..|prefix|] == prefix
  {
    GlobConcat(prefix, "*", name);
    if |prefix| <= |name| && name[..|prefix|] == prefix {
      LiteralMatch(prefix, name[..|prefix|]);
      StarMatchesAll(name[|prefix|..]);
    }
    if GlobMatch(prefix + "*", name) {
      var k :| 0 <= k <= |name| && GlobMatch(prefix, name[..k]) && GlobMatch("*", name[k..]);
      LiteralMatch(prefix, name[..k]);
    }
  }

  /**
   * Every character of a pattern other than `*` consumes exactly one
   * character of the name, so a match is never shorter than that count, and
   * a pattern without `*` matches only names of its own length.
   */
  lemma {:induction false} MatchLength(pattern: string, name: string)
    requires GlobMatch(pattern, name)
    ensures |name| >= |pattern| - StarCount(pattern)
    ensures StarCount(pattern) == 0 ==> |name| == |pattern|
    decreases |pattern| + |name|
  {
    if |pattern| > 0 {
      if pattern[0] == '*' {
        if GlobMatch(pattern[1..], name) {
          MatchLength(pattern[1..], name);
        } else {
          MatchLength(pattern, name[1..]);
        }
      } else {
        MatchLength(pattern[1..], name[1..]);
      }
    }
  }
}

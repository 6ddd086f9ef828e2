/** Path patterns of an ACL assignment: `matchPath` in acl_service.go.

    The scan keeps only the unread rest of the path and always takes the
    leftmost occurrence of the next literal. It is proved equal to the
    reference meaning `Glob`, which reads the pattern character by character
    and lets each star stand for any string.
 */
module PathMatch {
  import opened Text

  /** Reference meaning: a star stands for any string, any other character for itself. */
  ghost predicate Glob(pattern: string, path: string)
    decreases pattern
  {
    if pattern == "" then path == ""
    else if pattern[0] == '*' then exists k :: 0 <= k <= |path| && Glob(pattern[1..], path[k..])
    else path != "" && path[0] == pattern[0] && Glob(pattern[1..], path[1..])
  }

  predicate HasSuffix(s: string, suffix: string) {
    |suffix| <= |s| && s[|s| - |suffix|..] == suffix
  }

  predicate OccursAt(s: string, sub: string, i: nat) {
    i + |sub| <= |s| && s[i..i + |sub|] == sub
  }

  /** The path is the first literal, anything, the next literal, ..., and the last literal. */
  ghost predicate Literals(parts: seq<string>, path: string)
    requires parts != []
    decreases |parts|, 0
  {
    if |parts| == 1 then path == parts[0]
    else parts[0] <= path && Anywhere(parts[1..], path[|parts[0]|..])
  }

  /** Some suffix of the path is matched by the literals. */
  ghost predicate Anywhere(parts: seq<string>, path: string)
    requires parts != []
    decreases |parts|, 1
  {
    exists k :: 0 <= k <= |path| && Literals(parts, path[k..])
  }

  /** Splitting at the stars keeps the meaning of the pattern. */
  lemma {:induction false} GlobIsLiterals(pattern: string, path: string)
    ensures Glob(pattern, path) <==> Literals(Split(pattern, '*'), path)
    decreases pattern
  {
    if pattern != "" {
      var rest := Split(pattern[1..], '*');
      var parts := Split(pattern, '*');
      if pattern[0] == '*' {
        assert parts[1..] == rest && path[0..] == path;
        forall k | 0 <= k <= |path|
          ensures Glob(pattern[1..], path[k..]) <==> Literals(rest, path[k..])
        {
          GlobIsLiterals(pattern[1..], path[k..]);
        }
      } else {
        assert parts[1..] == rest[1..] && parts[0] == [pattern[0]] + rest[0];
        if path != "" && path[0] == pattern[0] {
          GlobIsLiterals(pattern[1..], path[1..]);
          assert path == [path[0]] + path[1..];
          assert parts[0] <= path <==> rest[0] <= path[1..];
          if |rest| > 1 && rest[0] <= path[1..] {
            assert path[|parts[0]|..] == path[1..][|rest[0]|..];
          }
        } else {
          assert !(parts[0] <= path);
        }
      }
    }
  }

  /** Greed is safe: taking the leftmost occurrence of a middle literal loses no match. */
  lemma LeftmostSuffices(parts: seq<string>, path: string, i: nat)
    requires |parts| > 1
    requires OccursAt(path, parts[0], i)
    requires forall j :: 0 <= j < i ==> !OccursAt(path, parts[0], j)
    ensures Anywhere(parts, path) <==> Anywhere(parts[1..], path[i + |parts[0]|..])
  {
    var rest, n := parts[1..], |parts[0]|;
    if Anywhere(parts, path) {
      var k :| 0 <= k <= |path| && Literals(parts, path[k..]);
      assert path[k..][..n] == path[k..k + n];
      assert OccursAt(path, parts[0], k);
      assert path[k..][n..] == path[k + n..];
      var tail := path[k + n..];
      assert Anywhere(rest, tail);
      var m :| 0 <= m <= |tail| && Literals(rest, tail[m..]);
      assert path[i + n..][k - i + m..] == tail[m..];
    }
    if Anywhere(rest, path[i + n..]) {
      assert path[i..][..n] == path[i..i + n];
      assert path[i..][n..] == path[i + n..];
      assert Literals(parts, path[i..]);
    }
  }

  lemma NoOccurrenceNoMatch(parts: seq<string>, path: string)
    requires |parts| > 1
    requires forall j :: 0 <= j <= |path| ==> !OccursAt(path, parts[0], j)
    ensures !Anywhere(parts, path)
  {
    if Anywhere(parts, path) {
      var k :| 0 <= k <= |path| && Literals(parts, path[k..]);
      assert path[k..][..|parts[0]|] == path[k..k + |parts[0]|];
      assert OccursAt(path, parts[0], k);
    }
  }

  lemma LastLiteral(part: string, path: string)
    ensures Anywhere([part], path) <==> HasSuffix(path, part)
  {
    if HasSuffix(path, part) {
      assert Literals([part], path[|path| - |part|..]);
    }
  }

  /** `strings.Index`: the leftmost occurrence, or -1. */
  method Index(s: string, sub: string) returns (idx: int)
    ensures -1 <= idx
    ensures idx == -1 ==> forall j :: 0 <= j <= |s| ==> !OccursAt(s, sub, j)
    ensures idx >= 0 ==> OccursAt(s, sub, idx) && forall j :: 0 <= j < idx ==> !OccursAt(s, sub, j)
  {
    idx := 0;
    while idx + |sub| <= |s|
      invariant 0 <= idx
      invariant forall j :: 0 <= j < idx ==> !OccursAt(s, sub, j)
    {
      if s[idx..idx + |sub|] == sub {
        return;
      }
      idx := idx + 1;
    }
    idx := -1;
  }

  /** The branch for patterns like `/api/` star `/users`: literals in order, ends anchored. */
  method GreedyMatch(pattern: string, path: string) returns (matched: bool)
    requires '*' in pattern
    ensures matched <==> Glob(pattern, path)
  {
    var parts := Split(pattern, '*');
    GlobIsLiterals(pattern, path);
    var remaining := path;
    var lastIdx := |parts| - 1;
    for i := 0 to |parts|
      invariant i == 0 ==> remaining == path
      invariant 0 < i <= lastIdx ==> (Literals(parts, path) <==> Anywhere(parts[i..], remaining))
      invariant i == |parts| ==> Literals(parts, path)
    {
      var part := parts[i];
      if 0 < i {
        assert parts[i..][0] == part && parts[i..][1..] == parts[i + 1..];
      }
      if part == "" {
        if i == lastIdx {
          assert parts[i..] == [part];
          LastLiteral(part, remaining);
        } else if i == 0 {
          assert path[0..] == path;
        } else {
          LeftmostSuffices(parts[i..], remaining, 0);
          assert remaining[0..] == remaining;
        }
        continue;
      }
      if i == 0 {
        if !(part <= remaining) {
          return false;
        }
        remaining := remaining[|part|..];
      } else if i == lastIdx {
        assert parts[i..] == [part];
        LastLiteral(part, remaining);
        if !HasSuffix(remaining, part) {
          return false;
        }
        remaining := "";
      } else {
        var idx := Index(remaining, part);
        if idx == -1 {
          NoOccurrenceNoMatch(parts[i..], remaining);
          return false;
        }
        LeftmostSuffices(parts[i..], remaining, idx);
        remaining := remaining[idx + |part|..];
      }
    }
    return true;
  }

  /** What a pattern means: under a `/` star suffix the rest is a literal prefix, otherwise a glob. */
  ghost predicate Matches(pattern: string, path: string) {
    if pattern == "/*" then true
    else if HasSuffix(pattern, "/*") then
      var prefix := pattern[..|pattern| - 2];
      path == prefix || prefix + "/" <= path
    else Glob(pattern, path)
  }

  lemma {:induction false} GlobWithoutStars(pattern: string, path: string)
    requires '*' !in pattern
    ensures Glob(pattern, path) <==> pattern == path
    decreases pattern
  {
    if pattern != "" && path != "" {
      GlobWithoutStars(pattern[1..], path[1..]);
      assert pattern == [pattern[0]] + pattern[1..] && path == [path[0]] + path[1..];
    }
  }

  lemma {:induction false} GlobSelf(pattern: string)
    ensures Glob(pattern, pattern)
    decreases pattern
  {
    if pattern != "" {
      GlobSelf(pattern[1..]);
      if pattern[0] == '*' {
        assert Glob(pattern[1..], pattern[1..]);
      }
    }
  }

  /** `matchPath`. */
  method MatchPath(pattern: string, path: string) returns (matched: bool)
    ensures matched <==> Matches(pattern, path)
  {
    if pattern == path {
      GlobSelf(pattern);
      return true;
    }
    if pattern == "/*" || pattern == "*" {
      if pattern == "*" {
        assert path[|path|..] == "" && Glob(pattern[1..], path[|path|..]);
      }
      return true;
    }
    if HasSuffix(pattern, "/*") {
      var prefix := pattern[..|pattern| - 2];
      return path == prefix || prefix + "/" <= path;
    }
    if '*' in pattern {
      matched := GreedyMatch(pattern, path);
      return;
    }
    GlobWithoutStars(pattern, path);
    return false;
  }

  /** The two patterns that match every path, and an exact path, which matches itself alone. */
  lemma WholePatterns(pattern: string, path: string)
    ensures Matches("/*", path) && Matches("*", path)
    ensures '*' !in pattern ==> (Matches(pattern, path) <==> pattern == path)
  {
    assert "*"[1..] == "" && path[|path|..] == "" && Glob("", path[|path|..]);
    if '*' !in pattern {
      assert |pattern| >= 2 ==> pattern[|pattern| - 2..][1] == pattern[|pattern| - 1];
      GlobWithoutStars(pattern, path);
    }
  }

  /** Under a `/` star suffix the rest is a literal, stars included. */
  lemma LiteralPrefix(prefix: string, path: string)
    requires prefix != ""
    ensures Matches(prefix + "/*", path) <==> path == prefix || prefix + "/" <= path
  {
    var pattern := prefix + "/*";
    assert pattern[..|pattern| - 2] == prefix && pattern[|pattern| - 2..] == "/*";
  }

  /** For a star-free prefix the suffix form adds exactly the bare prefix to the glob meaning. */
  lemma PrefixPattern(prefix: string, path: string)
    requires '*' !in prefix && prefix != ""
    ensures Matches(prefix + "/*", path) <==> path == prefix || Glob(prefix + "/*", path)
    ensures Glob(prefix + "/*", path) <==> prefix + "/" <= path
  {
    var pattern := prefix + "/*";
    assert pattern[..|pattern| - 2] == prefix;
    assert pattern == (prefix + "/") + "*";
    GlobTrailingStar(prefix + "/", path);
  }

  lemma {:induction false} GlobTrailingStar(literal: string, path: string)
    requires '*' !in literal
    ensures Glob(literal + "*", path) <==> literal <= path
    decreases literal
  {
    var pattern := literal + "*";
    if literal == "" {
      assert path[|path|..] == "" && Glob(pattern[1..], path[|path|..]);
    } else {
      assert pattern[1..] == literal[1..] + "*";
      if path != "" {
        GlobTrailingStar(literal[1..], path[1..]);
        assert literal == [literal[0]] + literal[1..] && path == [path[0]] + path[1..];
      }
    }
  }
}

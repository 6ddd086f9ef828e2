/** Safe file names: `sanitizeFilename` in sync_service.go. */
module Filenames {
  import opened Text

  predicate Safe(c: char) {
    'a' <= c <= 'z' || 'A' <= c <= 'Z' || '0' <= c <= '9' || c == '_' || c == '-'
  }

  function MapUnsafe(s: string): string {
    seq(|s|, i requires 0 <= i < |s| => if Safe(s[i]) then s[i] else '_')
  }

  predicate DoubleAt(s: string, i: int) { 0 <= i < |s| - 1 && s[i] == '_' && s[i + 1] == '_' }

  /** `strings.Contains(s, "__")`. */
  predicate HasDouble(s: string) { exists i :: 0 <= i < |s| && DoubleAt(s, i) }

  /** `strings.ReplaceAll(s, "__", "_")`: left to right, pairs do not overlap. */
  function ReplacePairs(s: string): string {
    if |s| < 2 then s
    else if DoubleAt(s, 0) then "_" + ReplacePairs(s[2..])
    else [s[0]] + ReplacePairs(s[1..])
  }

  /** Every maximal run of underscores becomes one. */
  function Collapse(s: string): string {
    if s == "" then ""
    else if DoubleAt(s, 0) then Collapse(s[1..])
    else [s[0]] + Collapse(s[1..])
  }

  predicate IsUnderscore(c: char) { c == '_' }

  /** `strings.Trim(s, "_")`. */
  function Strip(s: string): string { Trim(s, IsUnderscore) }

  function Sanitized(hostname: string): string { Strip(Collapse(MapUnsafe(hostname))) }

  /** Letters, digits, underscores and hyphens stay, every other character becomes an underscore. */
  lemma MapImage(s: string, i: nat)
    requires i < |s|
    ensures |MapUnsafe(s)| == |s|
    ensures 'a' <= s[i] <= 'z' || 'A' <= s[i] <= 'Z' || '0' <= s[i] <= '9' || s[i] == '-' ==> MapUnsafe(s)[i] == s[i]
    ensures s[i] < '-' || '-' < s[i] < '0' || '9' < s[i] < 'A' || 'Z' < s[i] < 'a' || 'z' < s[i] ==>
              MapUnsafe(s)[i] == '_'
  {
  }

  lemma {:induction false} PairsShrink(s: string)
    ensures |ReplacePairs(s)| <= |s|
    ensures HasDouble(s) ==> |ReplacePairs(s)| < |s|
    ensures s != "" ==> ReplacePairs(s) != "" && ReplacePairs(s)[0] == s[0]
    decreases |s|
  {
    if |s| >= 2 {
      if DoubleAt(s, 0) {
        PairsShrink(s[2..]);
      } else {
        PairsShrink(s[1..]);
        if HasDouble(s) {
          var i :| 0 <= i < |s| && DoubleAt(s, i);
          assert DoubleAt(s[1..], i - 1);
        }
      }
    }
  }

  lemma CollapseCons(c: char, s: string)
    ensures Collapse([c] + s) == if c == '_' && s != "" && s[0] == '_' then Collapse(s) else [c] + Collapse(s)
  {
    assert ([c] + s)[1..] == s;
  }

  /** A pass over the pairs does not change what the runs collapse to. */
  lemma {:induction false} PassKeepsCollapse(s: string)
    ensures Collapse(ReplacePairs(s)) == Collapse(s)
    decreases |s|
  {
    if |s| >= 2 {
      var rest := if DoubleAt(s, 0) then s[2..] else s[1..];
      PassKeepsCollapse(rest);
      PairsShrink(rest);
      CollapseCons(s[0], ReplacePairs(rest));
      CollapseCons(s[0], rest);
      if DoubleAt(s, 0) {
        assert s[1..] == [s[0]] + rest;
      } else {
        assert s == [s[0]] + rest;
      }
    }
  }

  lemma {:induction false} CollapseFixed(s: string)
    requires !HasDouble(s)
    ensures Collapse(s) == s
    decreases |s|
  {
    if s != "" {
      assert !DoubleAt(s, 0);
      assert forall i :: DoubleAt(s[1..], i) ==> DoubleAt(s, i + 1);
      CollapseFixed(s[1..]);
      assert s == [s[0]] + s[1..];
    }
  }

  lemma {:induction false} CollapseClean(s: string)
    ensures !HasDouble(Collapse(s))
    ensures forall c :: c in Collapse(s) ==> c in s
    ensures s != "" ==> Collapse(s) != "" && Collapse(s)[0] == s[0]
    decreases |s|
  {
    if s != "" {
      var rest := Collapse(s[1..]);
      CollapseClean(s[1..]);
      if !DoubleAt(s, 0) {
        var r := [s[0]] + rest;
        assert forall i :: DoubleAt(r, i) && i > 0 ==> DoubleAt(rest, i - 1);
        assert !DoubleAt(r, 0);
      }
    }
  }

  lemma StripClean(s: string)
    ensures forall c :: c in Strip(s) ==> c in s
    ensures !HasDouble(s) ==> !HasDouble(Strip(s))
    ensures Strip(s) != "" ==> Strip(s)[0] != '_' && Strip(s)[|Strip(s)| - 1] != '_'
  {
    var i, j := TrimRemovesEnds(s, IsUnderscore);
    assert forall k :: DoubleAt(s[i..j], k) ==> DoubleAt(s, i + k);
  }

  /** What a sanitized name is made of: safe characters, no double underscore, none at the ends. */
  lemma SanitizedIsClean(hostname: string)
    ensures var r := Sanitized(hostname);
            && (forall c :: c in r ==> Safe(c)) && !HasDouble(r)
            && (r != "" ==> r[0] != '_' && r[|r| - 1] != '_')
  {
    var m := MapUnsafe(hostname);
    CollapseClean(m);
    StripClean(Collapse(m));
    assert forall c :: c in m ==> Safe(c);
  }

  /** Sanitizing a sanitized name changes nothing. */
  lemma Idempotent(hostname: string)
    ensures Sanitized(Sanitized(hostname)) == Sanitized(hostname)
  {
    var r := Sanitized(hostname);
    SanitizedIsClean(hostname);
    assert MapUnsafe(r) == r by {
      assert forall k :: 0 <= k < |r| ==> r[k] in r;
    }
    CollapseFixed(r);
  }

  /** `sanitizeFilename`: the loop ends because each pass shortens the name. */
  method SanitizeFilename(hostname: string) returns (result: string)
    ensures result == Sanitized(hostname)
  {
    result := MapUnsafe(hostname);
    while HasDouble(result)
      invariant Collapse(result) == Collapse(MapUnsafe(hostname))
      decreases |result|
    {
      PairsShrink(result);
      PassKeepsCollapse(result);
      result := ReplacePairs(result);
    }
    CollapseFixed(result);
    result := Strip(result);
  }
}

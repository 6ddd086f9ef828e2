/** Splitting at a character and trimming, as Go's `strings` does both. */
module Text {

  /** `strings.Split` with a separator of one character. */
  function Split(s: string, sep: char): (pieces: seq<string>)
    ensures pieces != []
    ensures |pieces| == 1 <==> sep !in s
  {
    if s == "" then [""]
    else
      var rest := Split(s[1..], sep);
      if s[0] == sep then [""] + rest else [[s[0]] + rest[0]] + rest[1..]
  }

  /** A piece without separator is split off whole. */
  lemma {:induction false} SplitFirst(x: string, sep: char, rest: string)
    requires sep !in x
    ensures Split(x, sep) == [x]
    ensures Split(x + [sep] + rest, sep) == [x] + Split(rest, sep)
    decreases x
  {
    var s := x + [sep] + rest;
    if x == "" {
      assert s[1..] == rest;
    } else {
      assert x[0] in x && x == [x[0]] + x[1..];
      SplitFirst(x[1..], sep, rest);
      assert s[1..] == x[1..] + [sep] + rest;
    }
  }

  lemma {:induction false} PiecesHaveNoSeparator(s: string, sep: char, k: nat)
    requires k < |Split(s, sep)|
    ensures sep !in Split(s, sep)[k]
    decreases s
  {
    if s != "" {
      if s[0] == sep {
        if k > 0 {
          PiecesHaveNoSeparator(s[1..], sep, k - 1);
        }
      } else {
        PiecesHaveNoSeparator(s[1..], sep, k);
      }
    }
  }

  /** `strings.TrimFunc`. */
  function Trim(s: string, cut: char -> bool): string {
    if s == "" then ""
    else if cut(s[0]) then Trim(s[1..], cut)
    else if cut(s[|s| - 1]) then Trim(s[..|s| - 1], cut)
    else s
  }

  /** Trimming removes characters of that kind at the ends, all of them and nothing else. */
  lemma {:induction false} TrimRemovesEnds(s: string, cut: char -> bool) returns (i: nat, j: nat)
    ensures i <= j <= |s| && Trim(s, cut) == s[i..j]
    ensures forall k :: 0 <= k < |s| && !(i <= k < j) ==> cut(s[k])
    ensures i < j ==> !cut(s[i]) && !cut(s[j - 1])
    decreases |s|
  {
    i, j := 0, |s|;
    if s != "" {
      if cut(s[0]) {
        var a, b := TrimRemovesEnds(s[1..], cut);
        i, j := a + 1, b + 1;
        assert s[1..][a..b] == s[i..j];
        assert forall k :: 0 < k < |s| ==> s[k] == s[1..][k - 1];
      } else if cut(s[|s| - 1]) {
        var t := s[..|s| - 1];
        i, j := TrimRemovesEnds(t, cut);
        assert t[i..j] == s[i..j];
        assert forall k :: 0 <= k < |t| ==> t[k] == s[k];
      }
    }
  }
}

/** Insertion sort for any order, in the place of Go's `sort.Slice`. */
module Sorting {

  ghost predicate IsOrder<T(!new)>(leq: (T, T) -> bool) {
    && (forall a, b :: leq(a, b) || leq(b, a))
    && (forall a, b, c :: leq(a, b) && leq(b, c) ==> leq(a, c))
  }

  ghost predicate InOrder<T>(s: seq<T>, leq: (T, T) -> bool) {
    forall i, j :: 0 <= i < j < |s| ==> leq(s[i], s[j])
  }

  /** Where an element goes among sorted ones. */
  method Position<T(!new)>(s: seq<T>, x: T, leq: (T, T) -> bool) returns (k: nat)
    requires IsOrder(leq) && InOrder(s, leq)
    ensures k <= |s| && (forall j :: 0 <= j < k ==> leq(s[j], x)) && (forall j :: k <= j < |s| ==> leq(x, s[j]))
  {
    k := |s|;
    while k > 0 && !leq(s[k - 1], x)
      invariant 0 <= k <= |s|
      invariant forall j :: k <= j < |s| ==> leq(x, s[j])
    {
      k := k - 1;
    }
  }

  lemma InsertKeepsOrder<T>(s: seq<T>, k: nat, x: T, leq: (T, T) -> bool)
    requires k <= |s| && InOrder(s, leq)
    requires (forall j :: 0 <= j < k ==> leq(s[j], x)) && (forall j :: k <= j < |s| ==> leq(x, s[j]))
    ensures InOrder(s[..k] + [x] + s[k..], leq)
  {
    var r := s[..k] + [x] + s[k..];
    forall i, j | 0 <= i < j < |r|
      ensures leq(r[i], r[j])
    {
      var i', j' := if i < k then i else i - 1, if j < k then j else j - 1;
      assert i != k && j != k ==> s[i'] == r[i] && s[j'] == r[j];
    }
  }

  method Sort<T(!new)>(s: seq<T>, leq: (T, T) -> bool) returns (r: seq<T>)
    requires IsOrder(leq)
    ensures InOrder(r, leq) && multiset(r) == multiset(s)
  {
    r := [];
    for i := 0 to |s|
      invariant InOrder(r, leq) && multiset(r) == multiset(s[..i])
    {
      var k := Position(r, s[i], leq);
      InsertKeepsOrder(r, k, s[i], leq);
      assert r == r[..k] + r[k..] && s[..i + 1] == s[..i] + [s[i]];
      r := r[..k] + [s[i]] + r[k..];
    }
    assert s[..|s|] == s;
  }

  lemma PermutationHasSame<T>(s: seq<T>, r: seq<T>)
    requires multiset(r) == multiset(s)
    ensures forall x :: x in r <==> x in s
  {
    forall x ensures x in r <==> x in s {
      assert x in r <==> x in multiset(r);
      assert x in s <==> x in multiset(s);
    }
  }

  lemma {:induction false} DistinctCounts<T>(s: seq<T>, x: T)
    requires forall i, j :: 0 <= i < j < |s| ==> s[i] != s[j]
    ensures multiset(s)[x] <= 1
  {
    if s != [] {
      var init, last := s[..|s| - 1], s[|s| - 1];
      DistinctCounts(init, x);
      assert s == init + [last] && last !in init;
    }
  }

  /** A permutation of distinct elements is distinct. */
  lemma PermutationIsDistinct<T>(s: seq<T>, r: seq<T>)
    requires multiset(r) == multiset(s) && forall i, j :: 0 <= i < j < |s| ==> s[i] != s[j]
    ensures forall i, j :: 0 <= i < j < |r| ==> r[i] != r[j]
  {
    forall i, j | 0 <= i < j < |r|
      ensures r[i] != r[j]
    {
      DistinctCounts(s, r[j]);
      assert r == r[..j] + [r[j]] + r[j + 1..];
      assert multiset(r)[r[j]] >= multiset(r[..j])[r[j]] + 1;
      assert r[i] == r[..j][i];
    }
  }
}

/** Finite sets. */
module Sets {

  lemma {:induction false} Smaller<T>(a: set<T>, b: set<T>)
    requires a <= b
    ensures |a| <= |b|
  {
    if a != {} {
      var x :| x in a;
      Smaller(a - {x}, b - {x});
    }
  }

  /** A number that is not in the set. */
  lemma {:induction false} Unused(s: set<nat>) returns (n: nat)
    ensures forall x :: x in s ==> x < n
  {
    n := 0;
    if s != {} {
      var x :| x in s;
      n := Unused(s - {x});
      assert forall y :: y in s ==> y == x || y in s - {x};
      n := if n <= x then x + 1 else n;
    }
  }

  method AnyOf<T(==)>(s: set<T>) returns (x: T)
    requires s != {}
    ensures x in s
  {
    x :| x in s;
  }
}

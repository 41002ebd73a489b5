/** Finite sets of numbers, compared by size. */
module Counting {

  lemma {:induction false} SubsetIsSmaller(a: set<nat>, b: set<nat>)
    requires a <= b
    ensures |a| <= |b|
  {
    if a != {} {
      var x :| x in a;
      SubsetIsSmaller(a - {x}, b - {x});
    }
  }

  /** An injection from a into b shows that a is no larger than b. */
  lemma {:induction false} InjectionIsSmaller(a: set<nat>, b: set<nat>, f: map<nat, nat>)
    requires forall x :: x in a ==> x in f && f[x] in b
    requires forall x, y :: x in a && y in a && x != y ==> f[x] != f[y]
    ensures |a| <= |b|
  {
    if a != {} {
      var x :| x in a;
      InjectionIsSmaller(a - {x}, b - {f[x]}, f);
    }
  }

  lemma AtMostOneElement(a: set<nat>)
    requires |a| <= 1
    ensures forall x, y :: x in a && y in a ==> x == y
  {
    forall x, y | x in a && y in a ensures x == y {
      if x != y {
        assert |{x, y}| == 2;
        SubsetIsSmaller({x, y}, a);
      }
    }
  }
}

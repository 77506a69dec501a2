/** Sums of a measure over a list, compared pointwise. */
module Sums {

  function Sum<T>(f: T -> int, xs: seq<T>): int {
    if xs == [] then 0 else f(xs[0]) + Sum(f, xs[1..])
  }

  /** If no term rises the sum does not, and if moreover some term falls the sum falls. */
  lemma {:induction false} SumLowers<T>(f: T -> int, g: T -> int, xs: seq<T>)
    requires forall x :: x in xs ==> g(x) <= f(x)
    ensures Sum(g, xs) <= Sum(f, xs)
    ensures (exists x :: x in xs && g(x) < f(x)) ==> Sum(g, xs) < Sum(f, xs)
  {
    if xs != [] {
      SumLowers(f, g, xs[1..]);
      assert g(xs[0]) <= f(xs[0]);
      assert forall x :: x in xs ==> x == xs[0] || x in xs[1..];
    }
  }

  /** A sum of nonnegative terms is nonnegative, and zero exactly when every term is. */
  lemma {:induction false} SumOfNonnegatives<T>(f: T -> int, xs: seq<T>)
    requires forall x :: x in xs ==> f(x) >= 0
    ensures Sum(f, xs) >= 0
    ensures Sum(f, xs) == 0 <==> forall x :: x in xs ==> f(x) == 0
  {
    if xs != [] {
      SumOfNonnegatives(f, xs[1..]);
      assert f(xs[0]) >= 0;
      assert forall x :: x in xs ==> x == xs[0] || x in xs[1..];
    }
  }
}

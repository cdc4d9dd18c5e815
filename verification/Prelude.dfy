/** Stock definitions shared by the protocol models. */
module Prelude {

  datatype Option<+T> = None | Some(value: T)

  /** The sum of f over the elements of xs. */
  function Sum<T>(f: T -> nat, xs: seq<T>): nat {
    if xs == [] then 0 else f(xs[0]) + Sum(f, xs[1..])
  }

  /** Replacing one element changes the sum by exactly that element's share. */
  lemma {:induction false} SumUpdate<T>(f: T -> nat, xs: seq<T>, i: nat, x: T)
    requires i < |xs|
    ensures Sum(f, xs[i := x]) + f(xs[i]) == Sum(f, xs) + f(x)
  {
    if i == 0 {
      assert xs[i := x][1..] == xs[1..];
    } else {
      assert xs[i := x][1..] == xs[1..][i - 1 := x];
      SumUpdate(f, xs[1..], i - 1, x);
    }
  }

  /** For a 0/1 indicator, the sum reaches the length exactly when every element counts. */
  lemma {:induction false} SumOfIndicator<T>(f: T -> nat, xs: seq<T>)
    requires forall x :: x in xs ==> f(x) <= 1
    ensures Sum(f, xs) <= |xs|
    ensures Sum(f, xs) == |xs| <==> forall x :: x in xs ==> f(x) == 1
  {
    if xs != [] {
      SumOfIndicator(f, xs[1..]);
      assert forall x :: x in xs <==> x == xs[0] || x in xs[1..];
    }
  }

  lemma {:induction false} SumAppend<T>(f: T -> nat, xs: seq<T>, x: T)
    ensures Sum(f, xs + [x]) == Sum(f, xs) + f(x)
  {
    if xs == [] {
      assert xs + [x] == [x];
    } else {
      assert (xs + [x])[1..] == xs[1..] + [x];
      SumAppend(f, xs[1..], x);
    }
  }

  /** No element weighs more than the sum. */
  lemma {:induction false} SumBoundsEach<T>(f: T -> nat, xs: seq<T>, i: nat)
    requires i < |xs|
    ensures f(xs[i]) <= Sum(f, xs)
  {
    if i > 0 {
      SumBoundsEach(f, xs[1..], i - 1);
    }
  }

  /** Two places with weight make the sum at least both. */
  lemma {:induction false} SumOfTwo<T>(f: T -> nat, xs: seq<T>, i: nat, j: nat)
    requires i < j < |xs|
    ensures f(xs[i]) + f(xs[j]) <= Sum(f, xs)
  {
    if i == 0 {
      SumBoundsEach(f, xs[1..], j - 1);
    } else {
      SumOfTwo(f, xs[1..], i - 1, j - 1);
    }
  }
}

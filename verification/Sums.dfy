/** Finite sums over the ids below a bound, and the few laws the tallies need. */
module Sums {

  ghost function Sum(n: nat, f: nat -> int): int {
    if n == 0 then 0 else Sum(n - 1, f) + f(n - 1)
  }

  lemma {:induction false} Distribute(a: int, b: int, c: int)
    ensures a * (b + c) == a * b + a * c
  {
  }

  lemma {:induction false} SumEqual(n: nat, f: nat -> int, g: nat -> int)
    requires forall i :: 0 <= i < n ==> f(i) == g(i)
    ensures Sum(n, f) == Sum(n, g)
  {
    if n > 0 {
      SumEqual(n - 1, f, g);
    }
  }

  lemma {:induction false} SumZero(n: nat, f: nat -> int)
    requires forall i :: 0 <= i < n ==> f(i) == 0
    ensures Sum(n, f) == 0
  {
    if n > 0 {
      SumZero(n - 1, f);
    }
  }

  lemma {:induction false} SumAdd(n: nat, f: nat -> int, g: nat -> int, h: nat -> int)
    requires forall i :: 0 <= i < n ==> h(i) == f(i) + g(i)
    ensures Sum(n, h) == Sum(n, f) + Sum(n, g)
  {
    if n > 0 {
      SumAdd(n - 1, f, g, h);
    }
  }

  /** Two sums whose terms differ at one place only. */
  lemma {:induction false} SumChange(n: nat, f: nat -> int, g: nat -> int, k: nat)
    requires k < n && forall i :: 0 <= i < n && i != k ==> f(i) == g(i)
    ensures Sum(n, g) == Sum(n, f) + g(k) - f(k)
  {
    if k == n - 1 {
      SumEqual(n - 1, f, g);
    } else {
      SumChange(n - 1, f, g, k);
    }
  }

  /** The terms of a double sum can be taken by rows or by columns. */
  lemma {:induction false} SumSwap(n: nat, m: nat, f: nat -> nat -> int, g: nat -> nat -> int, rows: nat -> int,
                                   cols: nat -> int)
    requires forall i: nat, j: nat :: i < n && j < m ==> f(i)(j) == g(j)(i)
    requires forall i :: 0 <= i < n ==> rows(i) == Sum(m, f(i))
    requires forall j :: 0 <= j < m ==> cols(j) == Sum(n, g(j))
    ensures Sum(n, rows) == Sum(m, cols)
  {
    if n == 0 {
      SumZero(m, cols);
    } else {
      var fewer := (j: nat) => Sum(n - 1, g(j));
      SumSwap(n - 1, m, f, g, rows, fewer);
      forall j | 0 <= j < m
        ensures cols(j) == fewer(j) + f(n - 1)(j)
      {
        assert f(n - 1)(j) == g(j)(n - 1);
      }
      SumAdd(m, fewer, f(n - 1), cols);
    }
  }

  lemma {:induction false} SumNotNegative(n: nat, f: nat -> int)
    requires forall i :: 0 <= i < n ==> f(i) >= 0
    ensures Sum(n, f) >= 0
  {
    if n > 0 {
      SumNotNegative(n - 1, f);
    }
  }

  lemma {:induction false} PartOfSum(n: nat, f: nat -> int, k: nat)
    requires k < n && forall i :: 0 <= i < n ==> f(i) >= 0
    ensures 0 <= f(k) <= Sum(n, f)
  {
    if k == n - 1 {
      SumNotNegative(n - 1, f);
    } else {
      PartOfSum(n - 1, f, k);
    }
  }
}

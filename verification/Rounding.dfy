/** Integer division rounds down: the few bounds that the money arithmetic rests on. */
module Rounding {

  lemma {:induction false} Scale(a: int, b: int, c: int)
    requires a <= b && c >= 0
    ensures a * c <= b * c
  {
  }

  /** A positive factor can be put on both sides of an inequality, or taken off. */
  lemma {:induction false} ProductOrder(a: int, b: int, c: int)
    requires c > 0
    ensures a <= b <==> a * c <= b * c
  {
    if a <= b {
      Scale(a, b, c);
    } else {
      Scale(b + 1, a, c);
      assert (b + 1) * c == b * c + c;
    }
  }

  lemma {:induction false} DivisionBounds(a: int, b: int)
    requires b > 0
    ensures a / b * b <= a < (a / b + 1) * b
  {
  }

  /** `q` is `a / b` rounded down. */
  ghost predicate Floor(q: int, a: int, b: int) {
    q * b <= a < (q + 1) * b
  }

  /** Rounding down keeps exactly the integers that were not above the fraction. */
  lemma {:induction false} AtLeast(a: int, b: int, k: int)
    requires b > 0
    ensures k * b <= a <==> k <= a / b
  {
    DivisionBounds(a, b);
    ProductOrder(k, a / b, b);
    ProductOrder(a / b + 1, k, b);
  }

  lemma {:induction false} DivisionMonotone(a: int, c: int, b: int)
    requires b > 0 && a <= c
    ensures a / b <= c / b
  {
    DivisionBounds(a, b);
    AtLeast(c, b, a / b);
  }

  lemma {:induction false} Cancel(a: int, b: int)
    requires b > 0
    ensures a * b / b == a
  {
    AtLeast(a * b, b, a);
    AtLeast(a * b, b, a + 1);
    assert (a + 1) * b == a * b + b;
  }

  /** `a/b <= c/d` and `c/d <= e/f` give `a/b <= e/f`. */
  lemma {:induction false} FractionsTransitive(a: int, b: int, c: int, d: int, e: int, f: int)
    requires b > 0 && d > 0 && f > 0
    requires a * d <= c * b && c * f <= e * d
    ensures a * f <= e * b
  {
    Scale(a * d, c * b, f);
    Scale(c * f, e * d, b);
    assert a * d * f == a * f * d && c * b * f == c * f * b && e * d * b == e * b * d;
    ProductOrder(a * f, e * b, d);
  }
}

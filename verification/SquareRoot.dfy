/** The bit-by-bit integer square root, with its 32-bit root and 64-bit remainder. */
module SquareRoot {
  import opened Rounding

  const TWO_31 := 0x8000_0000
  const TWO_32 := 0x1_0000_0000
  const TWO_62 := 0x4000_0000_0000_0000
  const TWO_64 := 0x1_0000_0000_0000_0000

  /** The low 32 and 64 bits of a number. */
  function Low32(x: int): (r: nat)
    ensures r < TWO_32
  {
    x % TWO_32
  }

  function Low64(x: int): (r: nat)
    ensures r < TWO_64
  {
    x % TWO_64
  }

  lemma {:induction false} FitsLow(x: int)
    ensures 0 <= x < TWO_32 ==> Low32(x) == x
    ensures 0 <= x < TWO_64 ==> Low64(x) == x
  {
  }

  predicate IsRoot(r: int, a: int) {
    r >= 0 && r * r <= a < (r + 1) * (r + 1)
  }

  /** Taking two more digits from the top of what is left. */
  lemma {:induction false} NextDigits(low: nat, left: nat, shift: nat)
    requires left > 0 && shift > 0 && 4 * left * shift == TWO_64 && low < 4 * left
    ensures low * shift / TWO_62 == low / left && low / left <= 3
    ensures low * shift * 4 % TWO_64 == low % left * (shift * 4)
  {
    var t, rest := low / left, low % left;
    assert low == t * left + rest;
    assert left * shift == TWO_62;
    assert low * shift == t * (left * shift) + rest * shift by {
      assert (t * left + rest) * shift == t * left * shift + rest * shift;
    }
    Scale(rest, left - 1, shift);
    assert (left - 1) * shift == left * shift - shift;
    assert 0 <= rest * shift < TWO_62;
    AtLeast(low * shift, TWO_62, t);
    AtLeast(low * shift, TWO_62, t + 1);
    AtLeast(low, left, 4);
    assert low * shift * 4 == t * TWO_64 + rest * (shift * 4);
    RemainderOf(t, TWO_64, rest * (shift * 4));
  }

  lemma {:induction false} RemainderOf(t: nat, b: nat, rest: nat)
    requires b > 0 && rest < b
    ensures (t * b + rest) % b == rest
  {
    AtLeast(t * b + rest, b, t);
    AtLeast(t * b + rest, b, t + 1);
    assert (t + 1) * b == t * b + b;
    assert (t * b + rest) / b == t;
  }

  /** The root of four times a number and a little more. */
  lemma {:induction false} RootStep(s: nat, p: nat, t: nat)
    requires IsRoot(s, p) && t <= 3
    ensures 4 * s < 4 * (p - s * s) + t ==> IsRoot(2 * s + 1, 4 * p + t)
    ensures 4 * s >= 4 * (p - s * s) + t ==> IsRoot(2 * s, 4 * p + t)
  {
    assert (2 * s + 1) * (2 * s + 1) == 4 * (s * s) + 4 * s + 1 && 2 * s * (2 * s) == 4 * (s * s);
    assert (2 * s + 2) * (2 * s + 2) == 4 * ((s + 1) * (s + 1)) && (s + 1) * (s + 1) == s * s + 2 * s + 1;
  }

  lemma {:induction false} RootBelow(s: nat, p: nat, bound: nat)
    requires IsRoot(s, p) && p < bound * bound
    ensures s < bound
  {
    if s >= bound {
      Scale(bound, s, s);
      Scale(bound, s, bound);
    }
  }

  lemma {:induction false} RootAbove(s: int, a: int, bound: nat)
    requires IsRoot(s, a) && a >= bound * bound
    ensures s >= bound
  {
    if s + 1 <= bound {
      Scale(s + 1, bound, s + 1);
      Scale(s + 1, bound, bound);
    }
  }

  lemma {:induction false} DigitsFit(number: nat, p: nat, left: nat, low: nat)
    requires number == p * left + low && number < TWO_62 && left >= 4
    ensures p < TWO_62 / 4
  {
    Scale(4, left, p);
  }

  lemma {:induction false} RemainderFits(s: nat, p: nat)
    requires IsRoot(s, p)
    ensures 0 <= p - s * s <= 2 * s
  {
    assert (s + 1) * (s + 1) == s * s + 2 * s + 1;
  }

  lemma {:induction false} Regroup(number: nat, p: nat, quarter: nat, low: nat)
    requires quarter > 0 && number == p * (4 * quarter) + low
    ensures number == (4 * p + low / quarter) * quarter + low % quarter
  {
    assert low == low / quarter * quarter + low % quarter;
    assert (4 * p + low / quarter) * quarter == p * (4 * quarter) + low / quarter * quarter;
  }

  /** The arithmetic of one step on small enough numbers; `q` is the square of `s`. */
  lemma {:induction false} WithoutOverflow(s: nat, p: nat, q: int, t: nat)
    requires s < TWO_31 / 2 && 0 <= p - q <= 2 * s && t <= 3
    ensures var root, rem := Low32(2 * s * 2), Low64((p - q) * 4 + t);
      && root == 4 * s && rem == 4 * (p - q) + t
      && (root < rem ==>
         Low32(Low32(root + 1) + 1) == 4 * s + 2 && Low64(rem - Low32(root + 1)) == 4 * p + t - (4 * q + 4 * s + 1))
  {
    hide Low32, Low64;
    FitsLow(4 * s);
    FitsLow(4 * (p - q) + t);
    FitsLow(4 * s + 1);
    FitsLow(4 * s + 2);
    FitsLow(4 * (p - q) + t - (4 * s + 1));
  }

  /** One step takes the next two digits of the number. */
  lemma {:induction false} DigitsTaken(number: nat, p: nat, low: nat, left: nat, shift: nat)
    requires number < TWO_62 && number == p * left + low
    requires left >= 4 && left % 4 == 0 && low < left && shift > 0 && left * shift == TWO_64
    ensures var quarter, digits := left / 4, low / (left / 4);
      && low * shift / TWO_62 == digits <= 3 && p < TWO_62 / 4
      && Low64(low * shift * 4) == low % quarter * (shift * 4) && low % quarter < quarter
         && quarter * (shift * 4) == TWO_64
      && number == (4 * p + digits) * quarter + low % quarter
  {
    DigitsFit(number, p, left, low);
    NextDigits(low, left / 4, shift);
    Regroup(number, p, left / 4, low);
  }

  /** Nothing overflows in one step, and the step doubles the root or doubles it and adds one. */
  lemma {:induction false} RootTaken(s: nat, p: nat, digits: nat)
    requires IsRoot(s, p) && p < TWO_62 / 4 && digits <= 3
    ensures var root, rem, p' := Low32(2 * s * 2), Low64((p - s * s) * 4 + digits), 4 * p + digits;
      if root < rem then
        && IsRoot(2 * s + 1, p') && Low32(Low32(root + 1) + 1) == 2 * (2 * s + 1)
        && Low64(rem - Low32(root + 1)) == p' - (2 * s + 1) * (2 * s + 1)
      else IsRoot(2 * s, p') && root == 2 * (2 * s) && rem == p' - 2 * s * (2 * s)
  {
    hide IsRoot, Low32, Low64;
    RootBelow(s, p, TWO_31 / 2);
    RemainderFits(s, p);
    RootStep(s, p, digits);
    Doubled(s);
    WithoutOverflow(s, p, s * s, digits);
  }

  ghost function Power4(n: nat): nat {
    if n == 0 then 1 else 4 * Power4(n - 1)
  }

  lemma {:induction false} ThirtyTwoDigits()
    ensures Power4(32) == TWO_64
  {
    assert Power4(4) == 256;
    PowerSum(4, 4);
    PowerSum(8, 8);
    PowerSum(16, 16);
  }

  lemma {:induction false} PowerSum(a: nat, b: nat)
    ensures Power4(a + b) == Power4(a) * Power4(b)
  {
    if a > 0 {
      PowerSum(a - 1, b);
      assert Power4(a + b) == 4 * (Power4(a - 1) * Power4(b));
    }
  }

  lemma {:induction false} ZeroIsRoot()
    ensures IsRoot(0, 0)
  {
  }

  lemma {:induction false} Doubled(s: nat)
    ensures (2 * s + 1) * (2 * s + 1) == 4 * (s * s) + 4 * s + 1 && 2 * s * (2 * s) == 4 * (s * s)
  {
  }


  /**
   The result is the integer root exactly for numbers below 2^62; beyond that the doubled root does
   not fit 32 bits.
   */
  method ISqrt(number: nat) returns (r: nat)
    requires number < TWO_64
    ensures IsRoot(r, number) <==> number < TWO_62
  {
    hide IsRoot, Low32, Low64;
    var a, rem, root := number, 0, 0;
    ZeroIsRoot();
    ghost var s, p, low, left, shift := 0, 0, number, TWO_64, 1;
    ghost var fits := number < TWO_62;
    ThirtyTwoDigits();
    for i := 0 to 32
      invariant 0 <= root < TWO_32 && 0 <= a < TWO_64 && 0 <= rem < TWO_64
      invariant fits ==> IsRoot(s, p) && root == 2 * s && rem == p - s * s && number == p * left + low
      invariant fits ==> 0 <= low < left && a == low * shift && left * shift == TWO_64
      invariant fits ==> left == Power4(32 - i) && shift > 0
    {
      ghost var quarter := left / 4;
      ghost var digits := if fits then low / quarter else 0;
      if fits {
        DigitsTaken(number, p, low, left, shift);
        RootTaken(s, p, digits);
        assert left == 4 * Power4(31 - i);
      }
      root := Low32(root * 2);
      rem := Low64(rem * 4 + a / TWO_62);
      a := Low64(a * 4);
      if root < rem {
        root := Low32(root + 1);
        rem := Low64(rem - root);
        root := Low32(root + 1);
        s := 2 * s + 1;
      } else {
        s := 2 * s;
      }
      p, low, left, shift := 4 * p + digits, if fits then low % quarter else 0, quarter, shift * 4;
    }
    r := root / 2;
    if !fits && IsRoot(r, number) {
      RootAbove(r, number, TWO_31);
    }
  }
}

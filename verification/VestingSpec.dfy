/**
 What one account owes: power-downs paid in weekly parts, and the shares it may not touch meanwhile.
 */
module VestingSpec {
  import opened Wrappers
  import opened Sums
  import opened Rounding

  const INTERVALS := 13
  const INTERVAL_SECONDS := 604800
  const HUNDRED_PERCENT := 10000

  /** `next` is nothing while `next_vesting_withdrawal` is the end of time. */
  datatype Account = Account(vests: int, delegated: int, received: int, redelegated: int, rereceived: int,
                             toWithdraw: int, withdrawn: int, rate: int, next: Option<nat>)

  /** All shares that are delegated or still to be paid out are there. */
  predicate Solvent(a: Account) {
    0 <= a.withdrawn <= a.toWithdraw && a.delegated >= 0 && a.vests >= a.delegated + a.toWithdraw - a.withdrawn
  }

  /** A power-down under way has paid so many whole parts. */
  predicate Scheduled(a: Account) {
    if a.next.None? then a.rate == 0
    else a.rate >= 1 && a.rate == Rate(a.toWithdraw) && a.withdrawn < a.toWithdraw && a.withdrawn % a.rate == 0
  }

  function Rate(shares: int): int {
    if shares / INTERVALS == 0 then 1 else shares / INTERVALS
  }

  function Min(a: int, b: int): int {
    if a <= b then a else b
  }

  /** What is paid out next. */
  function Payment(a: Account): int
    requires a.rate > 0
  {
    if a.toWithdraw - a.withdrawn < a.rate then Min(a.vests, a.toWithdraw % a.rate) else Min(a.vests, a.rate)
  }

  /** The account after `paid` was paid out. */
  function PaidOut(a: Account, paid: int): Account
    requires a.next.Some?
  {
    var b := a.(vests := a.vests - paid, withdrawn := a.withdrawn + paid);
    if b.withdrawn >= b.toWithdraw || b.vests == 0 then b.(rate := 0, next := None)
    else b.(next := Some(a.next.value + INTERVAL_SECONDS))
  }

  lemma {:induction false} Remainder(total: int, paid: int, rate: int)
    requires rate > 0 && 0 <= paid < total && paid % rate == 0 && total - paid < rate
    ensures total % rate == total - paid
  {
    var k := paid / rate;
    assert paid == k * rate;
    AtLeast(total, rate, k);
    AtLeast(total, rate, k + 1);
    assert (k + 1) * rate == k * rate + rate;
    assert total / rate == k;
  }

  lemma {:induction false} WholeParts(paid: int, rate: int)
    requires rate > 0 && paid >= 0 && paid % rate == 0
    ensures (paid + rate) % rate == 0 && (paid + rate) / rate == paid / rate + 1
  {
    Cancel(paid / rate + 1, rate);
    assert (paid / rate + 1) * rate == paid + rate;
  }

  /** Each part is the rate, or the rest if that is less; the account can always pay it. */
  lemma {:induction false} PaymentIsDue(a: Account)
    requires Solvent(a) && Scheduled(a) && a.next.Some?
    ensures Payment(a) == Min(a.rate, a.toWithdraw - a.withdrawn) && 1 <= Payment(a) <= a.vests
  {
    if a.toWithdraw - a.withdrawn < a.rate {
      Remainder(a.toWithdraw, a.withdrawn, a.rate);
    }
  }

  /** Paying out keeps an account solvent and on schedule, also when some of the shares come back to it. */
  lemma {:induction false} PaymentKeepsSolvent(a: Account, back: int)
    requires Solvent(a) && Scheduled(a) && a.next.Some? && back >= 0
    ensures var b := PaidOut(a.(vests := a.vests + back), Payment(a));
      Solvent(b) && Scheduled(b) && b.toWithdraw - b.withdrawn < a.toWithdraw - a.withdrawn
  {
    PaymentIsDue(a);
    if a.toWithdraw - a.withdrawn >= a.rate {
      WholeParts(a.withdrawn, a.rate);
    }
  }

  /** How many parts are still to be paid. */
  function PartsLeft(a: Account): nat {
    if a.next.None? || a.rate <= 0 || a.withdrawn >= a.toWithdraw then 0
      else PartsFor(a.toWithdraw - a.withdrawn, a.rate)
  }

  function PartsFor(rest: int, rate: int): nat
    requires rest > 0 && rate > 0
  {
    DivisionBounds(rest + rate - 1, rate);
    (rest + rate - 1) / rate
  }

  /** One payment is one part less, whatever comes back to the account. */
  lemma {:induction false} PaymentIsOnePart(a: Account, back: int)
    requires Solvent(a) && Scheduled(a) && a.next.Some? && back >= 0
    ensures var b := PaidOut(a.(vests := a.vests + back), Payment(a));
      && PartsLeft(a) > 0 && PartsLeft(b) == PartsLeft(a) - 1
      && (b.next.Some? <==> PartsLeft(a) > 1) && (b.next.Some? ==> b.next.value == a.next.value + INTERVAL_SECONDS)
  {
    var rest := a.toWithdraw - a.withdrawn;
    PaymentIsDue(a);
    PaymentKeepsSolvent(a, back);
    if rest <= a.rate {
      AtLeast(rest + a.rate - 1, a.rate, 1);
      AtLeast(rest + a.rate - 1, a.rate, 2);
    } else {
      OneRateMore(rest - 1, a.rate);
      AtLeast(rest - 1, a.rate, 1);
    }
  }

  /** The parts of a power-down that nobody interferes with. */
  ghost function Payouts(a: Account): seq<int>
    requires Solvent(a) && Scheduled(a)
    decreases a.toWithdraw - a.withdrawn
  {
    if a.next.None? then []
    else
      PaymentKeepsSolvent(a, 0);
      [Payment(a)] + Payouts(PaidOut(a, Payment(a)))
  }

  ghost function Total(s: seq<int>): int {
    if s == [] then 0 else s[0] + Total(s[1..])
  }

  /** All parts together are what was to be withdrawn, and their number is the amount over the rate, rounded up. */
  lemma {:induction false} PayoutsAreExact(a: Account)
    requires Solvent(a) && Scheduled(a) && a.next.Some?
    ensures var rest := a.toWithdraw - a.withdrawn;
      Total(Payouts(a)) == rest && |Payouts(a)| == (rest + a.rate - 1) / a.rate
    decreases a.toWithdraw - a.withdrawn
  {
    var rest, paid := a.toWithdraw - a.withdrawn, Payment(a);
    var b := PaidOut(a, paid);
    PaymentIsDue(a);
    PaymentKeepsSolvent(a, 0);
    assert Payouts(a)[1..] == Payouts(b);
    if b.next.None? {
      assert rest <= a.rate;
      AtLeast(rest + a.rate - 1, a.rate, 1);
      AtLeast(rest + a.rate - 1, a.rate, 2);
    } else {
      PayoutsAreExact(b);
      OneRateMore(rest - 1, a.rate);
    }
  }

  lemma {:induction false} OneRateMore(x: int, rate: int)
    requires rate > 0
    ensures (x + rate) / rate == x / rate + 1
  {
    DivisionBounds(x, rate);
    assert (x / rate + 1) * rate == x / rate * rate + rate;
    AtLeast(x + rate, rate, x / rate + 1);
    AtLeast(x + rate, rate, x / rate + 2);
    assert (x / rate + 2) * rate == x / rate * rate + rate + rate;
  }

  /**
   A power-down takes at least `INTERVALS` parts and at most `2 * INTERVALS - 1`; a smaller one pays a single
   vest at a time.
   */
  lemma {:induction false} AtMostTwiceTheIntervals(a: Account)
    requires Solvent(a) && Scheduled(a) && a.next.Some? && a.withdrawn == 0
    ensures Total(Payouts(a)) == a.toWithdraw && |Payouts(a)| <= 2 * INTERVALS - 1
    ensures if a.toWithdraw < INTERVALS then |Payouts(a)| == a.toWithdraw else |Payouts(a)| >= INTERVALS
  {
    PayoutsAreExact(a);
    var t, r := a.toWithdraw, a.rate;
    if t / INTERVALS == 0 {
      assert t < INTERVALS;
    } else {
      assert t < INTERVALS * r + INTERVALS;
      Scale(1, r, INTERVALS - 1);
      assert t + r - 1 < 2 * INTERVALS * r;
      AtLeast(t + r - 1, r, INTERVALS);
      AtLeast(t + r - 1, r, 2 * INTERVALS);
    }
  }
}

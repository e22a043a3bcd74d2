/**
 What each payee of a content gets when one of its sides is paid.
 */
module Payees {
  import opened Sums
  import opened Rounding
  import opened LedgerSpec

  /** Interest that is due is paid, and then as much XUSD as `btcm` is worth. */
  ghost predicate Issued(x: Account, y: Account, interest: int, issued: int, btcm: int, t: Terms)
    requires t.feed.Some?
  {
    && InterestPaid(x, y.(mbd := y.mbd - issued), interest, t.now, t.rate)
    && Floor(issued, btcm * t.feed.value.xusd, t.feed.value.btcm)
  }

  /** What one payment of `btcm` makes of account `x`: XUSD at the price there is, or BTCM when there is none. */
  ghost predicate PaidOnce(x: Account, y: Account, btcm: int, t: Terms) {
    if btcm == 0 then y == x
    else if t.feed.None? then y == x.(balance := x.balance + btcm)
    else exists interest, issued :: Issued(x, y, interest, issued, btcm, t)
  }

  lemma {:induction false} CreditedOnce(accounts: seq<Account>, a: nat, btcm: int, t: Terms)
    requires a < |accounts| && Quoted(t.feed)
    ensures var after := Credited(accounts, a, btcm, t);
      && PaidOnce(accounts[a], after[a], btcm, t)
      && forall b :: 0 <= b < |accounts| && b != a ==> after[b] == accounts[b]
  {
    if btcm != 0 && t.feed.Some? {
      var issued := XusdFor(btcm, t.feed.value);
      var (y, interest) := Interest(accounts[a], t.now, t.rate);
      InterestIsDue(accounts[a], t.now, t.rate);
      XusdIsFloored(btcm, t.feed.value);
      assert y.(mbd := y.mbd + issued).(mbd := y.mbd + issued - issued) == y;
      assert Issued(accounts[a], Credited(accounts, a, btcm, t)[a], interest, issued, btcm, t);
    }
  }

  /** What account `b` gets of `toPay` by its shares, each rounded down. */
  ghost function Due(shares: seq<Share>, toPay: int, b: nat): nat -> int {
    (k: nat) => if k < |shares| && shares[k].payee == b then toPay * shares[k].bp / HUNDRED_PERCENT else 0
  }

  /** How many shares account `b` has. */
  ghost function ShareCount(shares: seq<Share>, b: nat): nat -> int {
    (k: nat) => if k < |shares| && shares[k].payee == b then 1 else 0
  }

  /** Interest that is due is paid once, and each of `count` parts of `due` is turned into XUSD and rounded down. */
  ghost predicate IssuedInParts(x: Account, y: Account, interest: int, issued: int, due: int, count: int, t: Terms)
    requires t.feed.Some?
  {
    && InterestPaid(x, y.(mbd := y.mbd - issued), interest, t.now, t.rate)
    && InParts(issued, due, count, t.feed.value)
  }

  ghost predicate InParts(issued: int, due: int, count: int, price: Feed) {
    issued * price.btcm <= due * price.xusd <= (issued + count) * price.btcm - count
  }

  /**
   What `due`, paid in `count` parts, makes of account `x`: XUSD for each part at the price there is, or BTCM
   when there is none.
   */
  ghost predicate PaidInParts(x: Account, y: Account, due: int, count: int, t: Terms) {
    if due == 0 then y == x
    else if t.feed.None? then y == x.(balance := x.balance + due)
    else exists interest, issued :: IssuedInParts(x, y, interest, issued, due, count, t)
  }

  /** Interest that was paid for this moment is not paid again. */
  lemma {:induction false} InterestIsPaidOnce(x: Account, y: Account, now: nat, rate: nat, interest: int)
    requires x.mbdUpdated == now && InterestPaid(x, y, interest, now, rate)
    ensures interest == 0 && y == x
  {
  }

  lemma {:induction false} OneMorePart(x: Account, y: Account, z: Account, due: int, count: int, btcm: int, t: Terms)
    requires Quoted(t.feed) && PaidInParts(x, y, due, count, t) && PaidOnce(y, z, btcm, t)
    requires due >= 0 && btcm >= 0 && count >= 0
    ensures PaidInParts(x, z, due + btcm, count + 1, t)
  {
    if t.feed.Some? && btcm != 0 {
      var i2, m2 :| Issued(y, z, i2, m2, btcm, t);
      if due != 0 {
        var i1, m1 :| IssuedInParts(x, y, i1, m1, due, count, t);
        BothParts(x, y, z, i1, m1, i2, m2, due, count, btcm, t);
      } else {
        PartsAdd(0, m2, 0, btcm, count, t.feed.value);
        assert IssuedInParts(x, z, i2, m2, due + btcm, count + 1, t);
      }
    } else if t.feed.Some? && due != 0 {
      var i1, m1 :| IssuedInParts(x, y, i1, m1, due, count, t);
      PartsAdd(m1, 0, due, 0, count, t.feed.value);
      assert IssuedInParts(x, z, i1, m1, due + btcm, count + 1, t);
    }
  }

  lemma {:induction false} BothParts(x: Account, y: Account, z: Account, i1: int, m1: int, i2: int, m2: int, due: int,
                                     count: int, btcm: int, t: Terms)
    requires t.feed.Some? && Quoted(t.feed) && due > 0 && btcm > 0 && count >= 0
    requires IssuedInParts(x, y, i1, m1, due, count, t) && Issued(y, z, i2, m2, btcm, t)
    ensures IssuedInParts(x, z, i1, m1 + m2, due + btcm, count + 1, t)
  {
    PartsAdd(m1, m2, due, btcm, count, t.feed.value);
    hide InParts, Floor;
    InterestIsPaidOnce(y, z.(mbd := z.mbd - m2), t.now, t.rate, i2);
    assert z.(mbd := z.mbd - (m1 + m2)) == y.(mbd := y.mbd - m1);
  }

  lemma {:induction false} PartsAdd(m1: int, m2: int, due: int, btcm: int, count: int, price: Feed)
    requires price.btcm > 0 && count >= 0
    requires if due == 0 then m1 == 0 else InParts(m1, due, count, price)
    requires if btcm == 0 then m2 == 0 else Floor(m2, btcm * price.xusd, price.btcm)
    ensures InParts(m1 + m2, due + btcm, count + 1, price)
  {
    Distribute(price.xusd, due, btcm);
    Distribute(price.btcm, m1, m2);
    Distribute(price.btcm, m1, count);
    Distribute(price.btcm, m1 + m2, count + 1);
    Distribute(price.btcm, m2, 1);
    Distribute(price.btcm, count, 1);
    Scale(1, price.btcm, count);
  }

  /** Every account gets what its shares of `toPay` come to, and no other account changes. */
  lemma {:induction false} PayeesGetShares(accounts: seq<Account>, shares: seq<Share>, toPay: nat, t: Terms, b: nat)
    requires forall s :: s in shares ==> s.payee < |accounts|
    requires Quoted(t.feed) && b < |accounts|
    ensures var n, after := |shares|, CreditedAll(accounts, shares, toPay, t);
      PaidInParts(accounts[b], after[b], Sum(n, Due(shares, toPay, b)), Sum(n, ShareCount(shares, b)), t)
    ensures Sum(|shares|, Due(shares, toPay, b)) >= 0
  {
    hide PaidInParts, PaidOnce;
    var n := |shares|;
    if n == 0 {
      NothingPaid(accounts[b], t);
    } else {
      var before, last := shares[..n - 1], shares[n - 1];
      PayeesGetShares(accounts, before, toPay, t, b);
      SumEqual(n - 1, Due(before, toPay, b), Due(shares, toPay, b));
      SumEqual(n - 1, ShareCount(before, b), ShareCount(shares, b));
      SumNotNegative(n - 1, ShareCount(shares, b));
      var paid, part := CreditedAll(accounts, before, toPay, t), toPay * last.bp / HUNDRED_PERCENT;
      CreditedOnce(paid, last.payee, part, t);
      if last.payee == b {
        OneMorePart(accounts[b], paid[b], Credited(paid, b, part, t)[b], Sum(n - 1, Due(shares, toPay, b)),
                    Sum(n - 1, ShareCount(shares, b)), part, t);
      }
    }
  }

  lemma {:induction false} NothingPaid(x: Account, t: Terms)
    ensures PaidInParts(x, x, 0, 0, t)
  {
  }
}

/**
 What accounts, orders, unclaimed balances, contents and the vesting fund hold together, and the prices
 at which one kind of money becomes another.
 */
module LedgerSpec {
  import opened Wrappers
  import opened Sums
  import opened Rounding

  const HUNDRED_PERCENT := 10000
  const SECONDS_PER_YEAR := 31536000
  const INTEREST_COMPOUND_INTERVAL := 2592000

  datatype Asset = Btcm | Xusd | Other

  datatype Account = Account(balance: int, mbd: int, vests: int, mbdSeconds: int, mbdUpdated: nat, mbdPaid: nat)

  /** What is held for an order. */
  datatype Escrow = Escrow(seller: nat, asset: Asset, amount: int)

  datatype Share = Share(payee: nat, bp: nat)

  datatype Content = Content(accumulatedMaster: int, accumulatedComp: int, master: seq<Share>, comp: seq<Share>,
                             playingReward: nat, publishersShare: nat, thirdParty: bool, disabled: bool)

  ghost function BalanceTerm(accounts: seq<Account>): nat -> int {
    (a: nat) => if a < |accounts| then accounts[a].balance else 0
  }

  ghost function MbdTerm(accounts: seq<Account>): nat -> int {
    (a: nat) => if a < |accounts| then accounts[a].mbd else 0
  }

  ghost function VestTerm(accounts: seq<Account>): nat -> int {
    (a: nat) => if a < |accounts| then accounts[a].vests else 0
  }

  ghost function EscrowTerm(orders: map<nat, Escrow>, asset: Asset): nat -> int {
    (id: nat) => if id in orders && orders[id].asset == asset then orders[id].amount else 0
  }

  ghost function UnclaimedTerm(unclaimed: seq<int>): nat -> int {
    (k: nat) => if k < |unclaimed| then unclaimed[k] else 0
  }

  ghost function ContentTerm(contents: seq<Content>): nat -> int {
    (c: nat) => if c < |contents| then contents[c].accumulatedMaster + contents[c].accumulatedComp else 0
  }

  ghost function Balances(accounts: seq<Account>): int {
    Sum(|accounts|, BalanceTerm(accounts))
  }

  ghost function Mbds(accounts: seq<Account>): int {
    Sum(|accounts|, MbdTerm(accounts))
  }

  ghost function Vests(accounts: seq<Account>): int {
    Sum(|accounts|, VestTerm(accounts))
  }

  ghost function Held(orders: map<nat, Escrow>, n: nat, asset: Asset): int {
    Sum(n, EscrowTerm(orders, asset))
  }

  ghost function Unclaimed(unclaimed: seq<int>): int {
    Sum(|unclaimed|, UnclaimedTerm(unclaimed))
  }

  ghost function Accumulated(contents: seq<Content>): int {
    Sum(|contents|, ContentTerm(contents))
  }

  lemma {:induction false} AccountSet(accounts: seq<Account>, a: nat, x: Account)
    requires a < |accounts|
    ensures var after := accounts[a := x];
      && Balances(after) == Balances(accounts) + x.balance - accounts[a].balance
      && Mbds(after) == Mbds(accounts) + x.mbd - accounts[a].mbd
      && Vests(after) == Vests(accounts) + x.vests - accounts[a].vests
  {
    var after, n := accounts[a := x], |accounts|;
    SumChange(n, BalanceTerm(accounts), BalanceTerm(after), a);
    SumChange(n, MbdTerm(accounts), MbdTerm(after), a);
    SumChange(n, VestTerm(accounts), VestTerm(after), a);
  }

  lemma {:induction false} AccountAdded(accounts: seq<Account>)
    ensures var after := accounts + [Account(0, 0, 0, 0, 0, 0)];
      Balances(after) == Balances(accounts) && Mbds(after) == Mbds(accounts) && Vests(after) == Vests(accounts)
  {
    var after, n := accounts + [Account(0, 0, 0, 0, 0, 0)], |accounts|;
    SumEqual(n, BalanceTerm(accounts), BalanceTerm(after));
    SumEqual(n, MbdTerm(accounts), MbdTerm(after));
    SumEqual(n, VestTerm(accounts), VestTerm(after));
  }

  lemma {:induction false} ContentSet(contents: seq<Content>, c: nat, x: Content)
    requires c < |contents|
    ensures Accumulated(contents[c := x]) == Accumulated(contents)
      + x.accumulatedMaster + x.accumulatedComp - contents[c].accumulatedMaster - contents[c].accumulatedComp
  {
    SumChange(|contents|, ContentTerm(contents), ContentTerm(contents[c := x]), c);
  }

  lemma {:induction false} ContentAdded(contents: seq<Content>, x: Content)
    ensures Accumulated(contents + [x]) == Accumulated(contents) + x.accumulatedMaster + x.accumulatedComp
  {
    SumEqual(|contents|, ContentTerm(contents), ContentTerm(contents + [x]));
  }

  lemma {:induction false} UnclaimedSet(unclaimed: seq<int>, k: nat, left: int)
    requires k < |unclaimed|
    ensures Unclaimed(unclaimed[k := left]) == Unclaimed(unclaimed) + left - unclaimed[k]
  {
    SumChange(|unclaimed|, UnclaimedTerm(unclaimed), UnclaimedTerm(unclaimed[k := left]), k);
  }

  lemma {:induction false} EscrowSet(orders: map<nat, Escrow>, after: map<nat, Escrow>, n: nat, id: nat, asset: Asset)
    requires id < n && forall i :: i != id ==> (i in after <==> i in orders) && (i in orders ==> after[i] == orders[i])
    ensures Held(after, n, asset) == Held(orders, n, asset)
      + EscrowTerm(after, asset)(id) - EscrowTerm(orders, asset)(id)
  {
    SumChange(n, EscrowTerm(orders, asset), EscrowTerm(after, asset), id);
  }

  lemma {:induction false} EscrowAdded(orders: map<nat, Escrow>, n: nat, e: Escrow, asset: Asset)
    requires n !in orders
    ensures Held(orders[n := e], n + 1, asset) == Held(orders, n, asset) + if e.asset == asset then e.amount else 0
  {
    SumEqual(n, EscrowTerm(orders, asset), EscrowTerm(orders[n := e], asset));
  }

  /** Vests that `btcm` makes, at `shares` vests for `fund` BTCM. */
  function VestsFor(btcm: int, shares: int, fund: int): int {
    if fund == 0 || shares == 0 then btcm else btcm * shares / fund
  }

  /** BTCM that `vests` make. */
  function BtcmFor(vests: int, shares: int, fund: int): int {
    if fund == 0 || shares == 0 then vests else vests * fund / shares
  }

  /** BTCM buys the most vests that are not worth more than it. */
  lemma {:induction false} VestsAreFloored(btcm: int, shares: int, fund: int)
    ensures if fund == 0 || shares == 0 then VestsFor(btcm, shares, fund) == btcm
      else fund > 0 ==> Floor(VestsFor(btcm, shares, fund), btcm * shares, fund)
  {
    if fund > 0 {
      DivisionBounds(btcm * shares, fund);
    }
  }

  /** Vests are paid with the most BTCM that is not worth more than them. */
  lemma {:induction false} BtcmIsFloored(vests: int, shares: int, fund: int)
    ensures if fund == 0 || shares == 0 then BtcmFor(vests, shares, fund) == vests
      else shares > 0 ==> Floor(BtcmFor(vests, shares, fund), vests * fund, shares)
  {
    if shares > 0 {
      DivisionBounds(vests * fund, shares);
    }
  }

  /** A vest is never worth less BTCM after somebody buys vests, in spite of rounding. */
  lemma {:induction false} BuyingDoesNotDilute(btcm: nat, shares: nat, fund: nat)
    requires shares > 0 && fund > 0
    ensures fund * (shares + VestsFor(btcm, shares, fund)) <= (fund + btcm) * shares
  {
    var made := VestsFor(btcm, shares, fund);
    DivisionBounds(btcm * shares, fund);
    assert fund * (shares + made) == fund * shares + made * fund;
    assert (fund + btcm) * shares == fund * shares + btcm * shares;
  }

  /** Nor after somebody turns vests into BTCM; the fund can always pay. */
  lemma {:induction false} SellingDoesNotDilute(vests: nat, shares: nat, fund: nat)
    requires shares > 0 && fund > 0 && vests <= shares
    ensures var paid := BtcmFor(vests, shares, fund);
      0 <= paid <= fund && fund * (shares - vests) <= (fund - paid) * shares
  {
    var paid := BtcmFor(vests, shares, fund);
    DivisionBounds(vests * fund, shares);
    AtLeast(vests * fund, shares, 0);
    Scale(vests, shares, fund);
    DivisionMonotone(vests * fund, fund * shares, shares);
    Cancel(fund, shares);
    assert fund * (shares - vests) == fund * shares - vests * fund;
    assert (fund - paid) * shares == fund * shares - paid * shares;
  }

  /** Nothing is gained by turning BTCM into vests and back at once. */
  lemma {:induction false} NoGainByVesting(btcm: nat, shares: nat, fund: nat)
    requires shares > 0 && fund > 0
    ensures var made := VestsFor(btcm, shares, fund); made >= 0 && BtcmFor(made, shares + made, fund + btcm) <= btcm
  {
    var made := VestsFor(btcm, shares, fund);
    DivisionBounds(btcm * shares, fund);
    AtLeast(btcm * shares, fund, 0);
    BuyingDoesNotDilute(btcm, shares, fund);
    assert made * (fund + btcm) == made * fund + made * btcm;
    assert btcm * (shares + made) == btcm * shares + btcm * made;
    AtLeast(made * (fund + btcm), shares + made, btcm + 1);
    assert (btcm + 1) * (shares + made) == btcm * (shares + made) + shares + made;
  }

  /** The account with the interest on its XUSD that is due, and the interest. */
  function Interest(x: Account, now: nat, rate: nat): (Account, int) {
    if x.mbdUpdated == now then (x, 0)
    else
      var y := x.(mbdSeconds := x.mbdSeconds + x.mbd * (now - x.mbdUpdated), mbdUpdated := now);
      if y.mbdSeconds > 0 && now - y.mbdPaid > INTEREST_COMPOUND_INTERVAL then
        var interest := y.mbdSeconds / SECONDS_PER_YEAR * rate / HUNDRED_PERCENT;
        (y.(mbd := y.mbd + interest, mbdSeconds := 0, mbdPaid := now), interest)
      else (y, 0)
  }

  /**
   How much of the interest is paid: XUSD held for `seconds` earns `rate` a year, in steps of a hundredth of
   a percent, once the last payment is 30 days back.
   */
  ghost predicate InterestPaid(x: Account, y: Account, interest: int, now: nat, rate: nat) {
    var seconds := x.mbdSeconds + x.mbd * (now - x.mbdUpdated);
    && y == x.(mbd := x.mbd + interest, mbdSeconds := y.mbdSeconds, mbdUpdated := now, mbdPaid := y.mbdPaid)
    && if x.mbdUpdated != now && seconds > 0 && now - x.mbdPaid > INTEREST_COMPOUND_INTERVAL then
         && y.mbdSeconds == 0 && y.mbdPaid == now
         && interest * HUNDRED_PERCENT * SECONDS_PER_YEAR <= seconds * rate
         && seconds * rate < (interest + 1) * HUNDRED_PERCENT * SECONDS_PER_YEAR + rate * SECONDS_PER_YEAR
       else y.mbdSeconds == seconds && y.mbdPaid == x.mbdPaid && interest == 0
  }

  lemma {:induction false} InterestIsDue(x: Account, now: nat, rate: nat)
    ensures InterestPaid(x, Interest(x, now, rate).0, Interest(x, now, rate).1, now, rate)
  {
    InterestBounds(x.mbdSeconds + x.mbd * (now - x.mbdUpdated), rate);
  }

  lemma {:induction false} InterestBounds(seconds: int, rate: nat)
    ensures var interest := seconds / SECONDS_PER_YEAR * rate / HUNDRED_PERCENT;
      && interest * HUNDRED_PERCENT * SECONDS_PER_YEAR <= seconds * rate
      && seconds * rate < (interest + 1) * HUNDRED_PERCENT * SECONDS_PER_YEAR + rate * SECONDS_PER_YEAR
  {
    var years := seconds / SECONDS_PER_YEAR;
    var interest := years * rate / HUNDRED_PERCENT;
    DivisionBounds(seconds, SECONDS_PER_YEAR);
    DivisionBounds(years * rate, HUNDRED_PERCENT);
    Scale(years * SECONDS_PER_YEAR, seconds, rate);
    Scale(seconds, (years + 1) * SECONDS_PER_YEAR, rate);
    Scale(interest * HUNDRED_PERCENT, years * rate, SECONDS_PER_YEAR);
    Scale(years * rate + 1, (interest + 1) * HUNDRED_PERCENT, SECONDS_PER_YEAR);
    assert years * SECONDS_PER_YEAR * rate == years * rate * SECONDS_PER_YEAR;
    assert (years + 1) * SECONDS_PER_YEAR * rate == years * rate * SECONDS_PER_YEAR + rate * SECONDS_PER_YEAR;
  }

  /** Looking at an account before interest is due changes nothing about what it gets later. */
  lemma {:induction false} InterestGoesOn(x: Account, first: nat, now: nat, rate: nat)
    requires x.mbdUpdated <= first <= now && Interest(x, first, rate).0.mbdPaid == x.mbdPaid != first
    ensures Interest(Interest(x, first, rate).0, now, rate) == Interest(x, now, rate)
  {
    Distribute(x.mbd, first - x.mbdUpdated, now - first);
  }

  /** The account after a change of its balance of one asset, and the interest it got on the way. */
  function Adjusted(x: Account, asset: Asset, delta: int, now: nat, rate: nat): (Account, int) {
    match asset
    case Btcm => (x.(balance := x.balance + delta), 0)
    case Xusd => var (y, interest) := Interest(x, now, rate); (y.(mbd := y.mbd + delta), interest)
    case Other => (x, 0)
  }

  /** Only XUSD earns interest, which is paid before the balance changes. */
  lemma {:induction false} AdjustedIs(x: Account, asset: Asset, delta: int, now: nat, rate: nat)
    ensures var (y, interest) := Adjusted(x, asset, delta, now, rate);
      match asset
      case Btcm => y == x.(balance := x.balance + delta) && interest == 0
      case Xusd =>
        InterestPaid(x, y.(mbd := y.mbd - delta), interest, now, rate) && y.mbd == x.mbd + interest + delta
      case Other => y == x && interest == 0
  {
    InterestIsDue(x, now, rate);
    hide InterestPaid, Interest;
    var y := Interest(x, now, rate).0;
    assert y.(mbd := y.mbd + delta).(mbd := y.mbd + delta - delta) == y;
  }

  /** A price feed: so much XUSD for so much BTCM. */
  datatype Feed = Feed(xusd: nat, btcm: nat)

  predicate Quoted(feed: Option<Feed>) {
    feed.Some? ==> feed.value.xusd > 0 && feed.value.btcm > 0
  }

  /** What XUSD payments go by. */
  datatype Terms = Terms(feed: Option<Feed>, now: nat, rate: nat)

  function XusdFor(btcm: int, feed: Feed): int {
    if feed.btcm == 0 then 0 else btcm * feed.xusd / feed.btcm
  }

  /** As much XUSD as `btcm` is worth. */
  lemma {:induction false} XusdIsFloored(btcm: int, feed: Feed)
    requires feed.btcm > 0
    ensures Floor(XusdFor(btcm, feed), btcm * feed.xusd, feed.btcm)
  {
    DivisionBounds(btcm * feed.xusd, feed.btcm);
  }

  /** The accounts after `btcm` was paid to `a` as XUSD, or as BTCM without a price. */
  function Credited(accounts: seq<Account>, a: nat, btcm: int, t: Terms): (after: seq<Account>)
    requires a < |accounts|
    ensures |after| == |accounts|
  {
    if btcm == 0 then accounts
    else if t.feed.Some? then accounts[a := Adjusted(accounts[a], Xusd, XusdFor(btcm, t.feed.value), t.now, t.rate).0]
    else accounts[a := Adjusted(accounts[a], Btcm, btcm, t.now, t.rate).0]
  }

  /** The accounts after every payee got its share of `toPay`, one after the other. */
  function CreditedAll(accounts: seq<Account>, shares: seq<Share>, toPay: int, t: Terms): (after: seq<Account>)
    requires forall s :: s in shares ==> s.payee < |accounts|
    ensures |after| == |accounts|
  {
    if shares == [] then accounts
    else
      var last := shares[|shares| - 1];
      Credited(CreditedAll(accounts, shares[..|shares| - 1], toPay, t), last.payee,
        toPay * last.bp / HUNDRED_PERCENT, t)
  }

  /** What the payees get together. */
  function Paid(shares: seq<Share>, toPay: int): int {
    if shares == [] then 0 else Paid(shares[..|shares| - 1], toPay) + toPay * shares[|shares| - 1].bp / HUNDRED_PERCENT
  }

  /** With shares that make up the whole, payees never get more than there is. */
  lemma {:induction false} SharesDoNotExceed(shares: seq<Share>, toPay: nat)
    ensures Paid(shares, toPay) * HUNDRED_PERCENT <= toPay * BasisPoints(shares)
  {
    if shares != [] {
      var b, last := shares[..|shares| - 1], shares[|shares| - 1];
      SharesDoNotExceed(b, toPay);
      DivisionBounds(toPay * last.bp, HUNDRED_PERCENT);
      assert toPay * (BasisPoints(b) + last.bp) == toPay * BasisPoints(b) + toPay * last.bp;
    }
  }

  function BasisPoints(shares: seq<Share>): nat {
    if shares == [] then 0 else BasisPoints(shares[..|shares| - 1]) + shares[|shares| - 1].bp
  }

  /** A content after one of its sides was paid. */
  function Settled(x: Content, master: bool, payout: int): Content {
    if master then x.(accumulatedMaster := payout + x.accumulatedMaster - Paid(x.master, payout + x.accumulatedMaster))
    else x.(accumulatedComp := payout + x.accumulatedComp - Paid(x.comp, payout + x.accumulatedComp))
  }

  /** No side gives away more than all of it, and nothing is owed by the content. */
  predicate Whole(x: Content) {
    && BasisPoints(x.master) <= HUNDRED_PERCENT && BasisPoints(x.comp) <= HUNDRED_PERCENT
    && x.accumulatedMaster >= 0 && x.accumulatedComp >= 0
  }

  /** What accumulates for a side whose shares do not exceed the whole is what rounding leaves over: never negative. */
  lemma {:induction false} NothingOverpaid(x: Content, master: bool, payout: nat)
    requires Whole(x)
    ensures Whole(Settled(x, master, payout))
  {
    var shares := if master then x.master else x.comp;
    var toPay := payout + if master then x.accumulatedMaster else x.accumulatedComp;
    OverpaidBeyondWhole(shares);
    assert Paid(shares, toPay) <= toPay;
  }

  const TWO_32 := 0x1_0000_0000

  /** `validate`: the 32-bit sum of the shares is the whole, or nothing, which only a new content may have. */
  predicate Checked(shares: seq<Share>) {
    BasisPoints(shares) % TWO_32 == 0 || BasisPoints(shares) % TWO_32 == HUNDRED_PERCENT
  }

  /** Payees never get more than there is. */
  ghost predicate NeverOverpaid(shares: seq<Share>) {
    forall toPay: nat :: Paid(shares, toPay) <= toPay
  }

  /** Nothing is lost to rounding when as many basis points are paid out as make up the whole, or a multiple. */
  lemma {:induction false} PaidOfWhole(shares: seq<Share>, k: nat)
    ensures Paid(shares, k * HUNDRED_PERCENT) == k * BasisPoints(shares)
  {
    if shares != [] {
      var before, bp := shares[..|shares| - 1], shares[|shares| - 1].bp;
      PaidOfWhole(before, k);
      assert k * HUNDRED_PERCENT * bp == k * bp * HUNDRED_PERCENT;
      Cancel(k * bp, HUNDRED_PERCENT);
      assert k * (BasisPoints(before) + bp) == k * BasisPoints(before) + k * bp;
    }
  }

  /** Payees never get more than there is exactly if their shares do not exceed the whole. */
  lemma {:induction false} OverpaidBeyondWhole(shares: seq<Share>)
    ensures NeverOverpaid(shares) <==> BasisPoints(shares) <= HUNDRED_PERCENT
  {
    if BasisPoints(shares) <= HUNDRED_PERCENT {
      forall toPay: nat
        ensures Paid(shares, toPay) <= toPay
      {
        SharesDoNotExceed(shares, toPay);
        Scale(BasisPoints(shares), HUNDRED_PERCENT, toPay);
        ProductOrder(Paid(shares, toPay), toPay, HUNDRED_PERCENT);
      }
    } else {
      PaidOfWhole(shares, 1);
      assert Paid(shares, HUNDRED_PERCENT) > HUNDRED_PERCENT;
    }
  }

  /** Shares that pass the check are never overpaid if and only if their sum fits the 32 bits it is checked in. */
  lemma {:induction false} CheckedShares(shares: seq<Share>)
    requires Checked(shares)
    ensures NeverOverpaid(shares) <==> BasisPoints(shares) < TWO_32
  {
    OverpaidBeyondWhole(shares);
  }

  /** Two shares that pass the check with a sum of 100%; a payout of the whole leaves a debt. */
  lemma {:induction false} SharesBeyondWhole(x: Content)
    requires x.master == [Share(0, 4294967295), Share(1, 10001)] && x.accumulatedMaster == 0
    ensures Checked(x.master) && BasisPoints(x.master) % TWO_32 == HUNDRED_PERCENT && !NeverOverpaid(x.master)
    ensures Settled(x, true, HUNDRED_PERCENT).accumulatedMaster == -TWO_32
  {
    var first := x.master[..1];
    assert first == [Share(0, 4294967295)] && first[..0] == [];
    assert BasisPoints(first) == 4294967295 && BasisPoints(x.master) == TWO_32 + HUNDRED_PERCENT;
    CheckedShares(x.master);
    PaidOfWhole(x.master, 1);
  }

  /** Accounts, all vests, and the fund behind them. */
  datatype Books = Books(accounts: seq<Account>, totalVests: int, fund: int)

  /** `made` are the vests that `btcm` makes at the price of the fund. */
  ghost predicate VestsMade(made: int, btcm: int, shares: int, fund: int) {
    if fund == 0 || shares == 0 then made == btcm else fund > 0 ==> Floor(made, btcm * shares, fund)
  }

  /** `paid` is the BTCM that `vests` are paid with. */
  ghost predicate VestsSold(paid: int, vests: int, shares: int, fund: int) {
    if fund == 0 || shares == 0 then paid == vests else shares > 0 ==> Floor(paid, vests * fund, shares)
  }

  /** After `btcm` from elsewhere became vests of `a`. */
  function Vested(b: Books, a: nat, btcm: int): (after: Books)
    requires a < |b.accounts|
    ensures |after.accounts| == |b.accounts| && after.fund - b.fund == btcm
    ensures VestsMade(after.totalVests - b.totalVests, btcm, b.totalVests, b.fund)
    ensures forall c :: 0 <= c < |b.accounts| ==> after.accounts[c] == b.accounts[c].(vests :=
        b.accounts[c].vests + if c == a then after.totalVests - b.totalVests else 0)
  {
    VestsAreFloored(btcm, b.totalVests, b.fund);
    var made := VestsFor(btcm, b.totalVests, b.fund);
    Books(b.accounts[a := b.accounts[a].(vests := b.accounts[a].vests + made)], b.totalVests + made, b.fund + btcm)
  }

  /** What the payees of `payments` get together. */
  ghost function Parts(payments: seq<(nat, int)>): nat -> int {
    (k: nat) => if k < |payments| then payments[k].1 else 0
  }

  /** What account `a` gets out of `payments`. */
  ghost function PartsTo(payments: seq<(nat, int)>, a: nat): nat -> int {
    (k: nat) => if k < |payments| && payments[k].0 == a then payments[k].1 else 0
  }

  /**
   `paid` pays for the vests of `sold` one after the other, each at the price that those before leave, and
   rounded down.
   */
  ghost predicate SoldInTurn(shares: int, fund: int, sold: seq<(nat, int)>, paid: seq<(nat, int)>) {
    && |paid| == |sold|
    && forall k :: 0 <= k < |sold| ==>
         && paid[k].0 == sold[k].0
         && VestsSold(paid[k].1, sold[k].1, shares - Sum(k, Parts(sold)), fund - Sum(k, Parts(paid)))
  }

  lemma {:induction false} NothingSoldYet(shares: int, fund: int)
    ensures SoldInTurn(shares, fund, [], [])
  {
  }

  lemma {:induction false} OneMoreSold(shares: int, fund: int, sold: seq<(nat, int)>, paid: seq<(nat, int)>,
                                       a: nat, vests: int, btcm: int)
    requires SoldInTurn(shares, fund, sold, paid)
    requires VestsSold(btcm, vests, shares - Sum(|sold|, Parts(sold)), fund - Sum(|paid|, Parts(paid)))
    ensures SoldInTurn(shares, fund, sold + [(a, vests)], paid + [(a, btcm)])
  {
    hide VestsSold, Sum, Parts;
    EarlierParts(sold, (a, vests));
    EarlierParts(paid, (a, btcm));
  }

  lemma {:induction false} EarlierParts(payments: seq<(nat, int)>, next: (nat, int))
    ensures forall k :: 0 <= k <= |payments| ==> Sum(k, Parts(payments + [next])) == Sum(k, Parts(payments))
  {
    forall k | 0 <= k <= |payments|
      ensures Sum(k, Parts(payments + [next])) == Sum(k, Parts(payments))
    {
      SumEqual(k, Parts(payments + [next]), Parts(payments));
    }
  }

  lemma {:induction false} OneMorePayment(payments: seq<(nat, int)>, a: nat, amount: int)
    ensures Sum(|payments| + 1, Parts(payments + [(a, amount)])) == Sum(|payments|, Parts(payments)) + amount
    ensures forall b ::
      Sum(|payments| + 1, PartsTo(payments + [(a, amount)], b))
      == Sum(|payments|, PartsTo(payments, b)) + if b == a then amount else 0
  {
    var more := payments + [(a, amount)];
    SumEqual(|payments|, Parts(more), Parts(payments));
    forall b
      ensures Sum(|payments|, PartsTo(more, b)) == Sum(|payments|, PartsTo(payments, b))
    {
      SumEqual(|payments|, PartsTo(more, b), PartsTo(payments, b));
    }
  }
}

/**
 Every operation on money, changed in place, and the supply that `validate_invariants` adds up.
 */
module Ledger {
  import opened Wrappers
  import opened Sums
  import opened Rounding
  import opened LedgerSpec
  import opened Payees
  import OrderBook
  import OrderSpec

  /**
   What a cashed-out report pays: `spinner` is the owner of another platform that played it, with
   the reporter's part.
   */
  datatype Payment = Payment(content: nat, reward: nat, reporter: nat, spinner: Option<(nat, nat)>)

  /** BTCM is asset 0, XUSD asset 2. */
  function AssetOf(id: OrderSpec.AssetId): Asset {
    if id == 0 then Btcm else if id == 2 then Xusd else Other
  }

  /** What is held for an order of the book. */
  predicate StandsFor(e: Escrow, order: OrderSpec.Order) {
    e == Escrow(order.seller, AssetOf(order.sellPrice.base.id), order.forSale)
  }

  /** What a match leaves of two orders. */
  function Matched(newId: nat, oldId: nat, first: OrderSpec.Order, second: OrderSpec.Order): map<nat, OrderSpec.Order>
    requires newId != oldId && OrderSpec.Live(first) && OrderSpec.Live(second) && OrderSpec.Crosses(first, second)
  {
    OrderBook.Traded(map[newId := first, oldId := second], newId, oldId)
  }

  /** What two orders that match pay each other. */
  function Amounts(first: OrderSpec.Order, second: OrderSpec.Order): (amounts: (int, int))
    requires OrderSpec.Live(first) && OrderSpec.Live(second) && OrderSpec.Crosses(first, second)
    ensures 0 < amounts.0 <= first.forSale && 0 < amounts.1 <= second.forSale
  {
    OrderSpec.TradeIsPossible(first, second);
    OrderSpec.Trade(first, second)
  }

  /** What is held after an order paid; with nothing left the order goes. */
  function PaidFrom(orders: map<nat, Escrow>, id: nat, pays: int): map<nat, Escrow>
    requires id in orders
  {
    if pays == orders[id].amount then orders - {id}
    else orders[id := orders[id].(amount := orders[id].amount - pays)]
  }

  /** A remainder that is too small to stay in the book goes. */
  function Without(orders: map<nat, Escrow>, id: nat, order: OrderSpec.Order, pays: int): map<nat, Escrow>
    requires OrderSpec.Live(order) && 0 < pays <= order.forSale
  {
    if OrderSpec.Left(order, pays).None? then orders - {id} else orders
  }

  /** What is held for an order after a match: what the book keeps of it. */
  function Kept(orders: map<nat, Escrow>, id: nat, order: OrderSpec.Order, pays: int): map<nat, Escrow>
    requires OrderSpec.Live(order) && 0 < pays <= order.forSale
  {
    var left := OrderSpec.Left(order, pays);
    if left.None? then orders - {id}
    else orders[id := Escrow(order.seller, AssetOf(order.sellPrice.base.id), left.value.forSale)]
  }

  /** An order that paid, and a remainder that is cancelled, leave what the book keeps of it. */
  lemma {:induction false} OneSideLeaves(orders: map<nat, Escrow>, id: nat, order: OrderSpec.Order, pays: int)
    requires id in orders && StandsFor(orders[id], order) && OrderSpec.Live(order) && 0 < pays <= order.forSale
    ensures var paid := PaidFrom(orders, id, pays);
      && (id in paid <==> pays < order.forSale)
      && (id in paid ==> paid[id] == Escrow(order.seller, AssetOf(order.sellPrice.base.id), order.forSale - pays))
      && Without(paid, id, order, pays) == Kept(orders, id, order, pays)
  {
    hide OrderSpec.Live;
    if pays == order.forSale {
      OrderBook.NothingLeft(order, pays);
    } else {
      OrderBook.LeftIs(order, pays);
    }
  }

  /** The same for both sides of a match. */
  lemma {:induction false} BothSidesLeave(orders: map<nat, Escrow>, newId: nat, oldId: nat, first: OrderSpec.Order,
                                          second: OrderSpec.Order, pays: int, receives: int)
    requires newId in orders && oldId in orders && newId != oldId
    requires StandsFor(orders[newId], first) && StandsFor(orders[oldId], second)
    requires OrderSpec.Live(first) && OrderSpec.Live(second)
    requires 0 < pays <= first.forSale && 0 < receives <= second.forSale
    ensures oldId in PaidFrom(orders, newId, pays)
    ensures var paid := PaidFrom(PaidFrom(orders, newId, pays), oldId, receives);
      var rest := Without(paid, newId, first, pays);
      && (newId in paid <==> pays < first.forSale) && (oldId in rest <==> receives < second.forSale)
      && (newId in paid ==> paid[newId] == Escrow(first.seller, AssetOf(first.sellPrice.base.id), first.forSale - pays))
      && (oldId in rest ==>
         rest[oldId] == Escrow(second.seller, AssetOf(second.sellPrice.base.id), second.forSale - receives))
      && Without(rest, oldId, second, receives) == Kept(Kept(orders, newId, first, pays), oldId, second, receives)
  {
    OneSideLeaves(orders, newId, first, pays);
    hide OrderSpec.Live, OrderSpec.Left;
    var kept := Kept(orders, newId, first, pays);
    OneSideLeaves(kept, oldId, second, receives);
    assert Without(PaidFrom(PaidFrom(orders, newId, pays), oldId, receives), newId, first, pays)
      == PaidFrom(Without(PaidFrom(orders, newId, pays), newId, first, pays), oldId, receives);
  }

  /** What is held for two orders after a match is what the book keeps of them. */
  lemma {:induction false} HeldIsKept(orders: map<nat, Escrow>, newId: nat, oldId: nat, first: OrderSpec.Order,
                                      second: OrderSpec.Order)
    requires newId != oldId && OrderSpec.Live(first) && OrderSpec.Live(second) && OrderSpec.Crosses(first, second)
    ensures var left, (pays, receives) := Matched(newId, oldId, first, second), Amounts(first, second);
      var held := Kept(Kept(orders, newId, first, pays), oldId, second, receives);
      forall id :: id == newId || id == oldId ==>
        (id in held <==> id in left) && (id in left ==> StandsFor(held[id], left[id]))
  {
    var (pays, receives) := Amounts(first, second);
    hide OrderSpec.Trade, OrderSpec.Worth, OrderSpec.Live, OrderSpec.Crosses;
  }

  const BLOCKS_PER_DAY := 28800
  const START_MINER_VOTING_BLOCK := BLOCKS_PER_DAY

  function Rewards(payments: seq<Payment>): int {
    if payments == [] then 0 else Rewards(payments[..|payments| - 1]) + payments[|payments| - 1].reward
  }

  function Deposits(routes: seq<(nat, int)>): int {
    if routes == [] then 0 else Deposits(routes[..|routes| - 1]) + routes[|routes| - 1].1
  }

  lemma {:induction false} DepositsAre(routes: seq<(nat, int)>)
    ensures Deposits(routes) == Sum(|routes|, Parts(routes))
  {
    if routes != [] {
      var before, last := routes[..|routes| - 1], routes[|routes| - 1];
      DepositsAre(before);
      OneMorePayment(before, last.0, last.1);
      assert routes == before + [last];
    }
  }

  lemma {:induction false} PartOf(amount: int, percent: nat)
    requires amount >= 0 && percent <= HUNDRED_PERCENT
    ensures 0 <= amount * percent / HUNDRED_PERCENT <= amount
    ensures Floor(amount * percent / HUNDRED_PERCENT, amount * percent, HUNDRED_PERCENT)
  {
    DivisionBounds(amount * percent, HUNDRED_PERCENT);
    Scale(percent, HUNDRED_PERCENT, amount);
    DivisionMonotone(amount * percent, amount * HUNDRED_PERCENT, HUNDRED_PERCENT);
    Cancel(amount, HUNDRED_PERCENT);
    AtLeast(amount * percent, HUNDRED_PERCENT, 0);
  }

  lemma {:induction false} NobodyPaid(accounts: seq<Account>, toPay: int, t: Terms)
    ensures Paid([], toPay) == 0 && CreditedAll(accounts, [], toPay, t) == accounts
  {
  }

  lemma {:induction false} NoVestsForNothing(shares: int, fund: int)
    ensures VestsFor(0, shares, fund) == 0
  {
  }

  /** The parts of a reward: both sides of the content, the reporting platform and the one that was played on. */
  datatype Split = Split(master: int, comp: int, reporter: int, spinner: int)

  /** Nothing of a reward is lost, and each part but the first of its kind is a percentage, rounded down. */
  ghost predicate IsSplit(x: Content, p: Payment, s: Split) {
    var platforms := s.reporter + s.spinner;
    && s.master + s.comp + platforms == p.reward
    && s.master >= 0 && s.comp >= 0 && s.reporter >= 0 && s.spinner >= 0
    && Floor(platforms, p.reward * x.playingReward, HUNDRED_PERCENT)
    && Floor(s.comp, (p.reward - platforms) * x.publishersShare, HUNDRED_PERCENT)
    && if p.spinner.None? then s.spinner == 0
       else Floor(s.reporter, platforms * p.spinner.value.1, HUNDRED_PERCENT)
  }

  function SplitOf(x: Content, p: Payment): (s: Split)
    requires x.playingReward <= HUNDRED_PERCENT && x.publishersShare <= HUNDRED_PERCENT
    requires p.spinner.Some? ==> p.spinner.value.1 <= HUNDRED_PERCENT
    ensures IsSplit(x, p, s)
  {
    var platforms := p.reward * x.playingReward / HUNDRED_PERCENT;
    var comp := (p.reward - platforms) * x.publishersShare / HUNDRED_PERCENT;
    var percent := if p.spinner.Some? then p.spinner.value.1 else HUNDRED_PERCENT;
    var reporter := if p.spinner.Some? then platforms * percent / HUNDRED_PERCENT else platforms;
    PartOf(p.reward, x.playingReward);
    PartOf(p.reward - platforms, x.publishersShare);
    PartOf(platforms, percent);
    Split(p.reward - platforms - comp, comp, reporter, platforms - reporter)
  }

  /** There is only one way to split a reward. */
  lemma {:induction false} OneSplit(x: Content, p: Payment, s: Split)
    requires x.playingReward <= HUNDRED_PERCENT && x.publishersShare <= HUNDRED_PERCENT
    requires p.spinner.Some? ==> p.spinner.value.1 <= HUNDRED_PERCENT
    requires IsSplit(x, p, s)
    ensures s == SplitOf(x, p)
  {
  }

  /** All percentages are within 100%, and all payees are there. */
  ghost predicate WellShared(contents: seq<Content>, n: nat) {
    forall c :: 0 <= c < |contents| ==>
      && contents[c].playingReward <= HUNDRED_PERCENT && contents[c].publishersShare <= HUNDRED_PERCENT
      && forall s :: s in contents[c].master || s in contents[c].comp ==> s.payee < n
  }

  ghost predicate PayableTo(p: Payment, contentCount: nat, n: nat) {
    && p.content < contentCount && p.reporter < n
    && (p.spinner.Some? ==> p.spinner.value.0 < n && p.spinner.value.1 <= HUNDRED_PERCENT)
  }

  /** The accounts after the payees of both sides were paid. */
  function PayeesPaid(accounts: seq<Account>, x: Content, s: Split, t: Terms): (after: seq<Account>)
    requires forall s :: s in x.master || s in x.comp ==> s.payee < |accounts|
    ensures |after| == |accounts|
  {
    CreditedAll(CreditedAll(accounts, x.master, s.master + x.accumulatedMaster, t),
                x.comp, s.comp + x.accumulatedComp, t)
  }

  /** Contents and books after a report was paid. */
  ghost function AfterReport(contents: seq<Content>, b: Books, p: Payment, t: Terms): (after: (seq<Content>, Books))
    requires WellShared(contents, |b.accounts|) && PayableTo(p, |contents|, |b.accounts|)
    ensures |after.0| == |contents| && |after.1.accounts| == |b.accounts| && WellShared(after.0, |b.accounts|)
  {
    var x := contents[p.content];
    var s := SplitOf(x, p);
    var paid := b.(accounts := PayeesPaid(b.accounts, x, s, t));
    var spun := if s.spinner > 0 then Vested(paid, p.spinner.value.0, s.spinner) else paid;
    (contents[p.content := Settled(Settled(x, true, s.master), false, s.comp)],
     if s.reporter > 0 then Vested(spun, p.reporter, s.reporter) else spun)
  }

  /** Who gets what of a report's reward: the platforms get vests, `spun` and `reported`, the content's payees XUSD. */
  ghost predicate ReportPaid(contents: seq<Content>, b: Books, after: (seq<Content>, Books), p: Payment, t: Terms,
                             s: Split, spun: int, reported: int)
    requires WellShared(contents, |b.accounts|) && PayableTo(p, |contents|, |b.accounts|)
  {
    var x, n := contents[p.content], |b.accounts|;
    && IsSplit(x, p, s)
    && after.0 == contents[p.content := Settled(Settled(x, true, s.master), false, s.comp)]
    && VestsMade(spun, s.spinner, b.totalVests, b.fund)
    && VestsMade(reported, s.reporter, b.totalVests + spun, b.fund + s.spinner)
    && after.1.totalVests == b.totalVests + spun + reported && after.1.fund == b.fund + s.spinner + s.reporter
    && |after.1.accounts| == n
    && forall c :: 0 <= c < n ==>
         var y := PayeesPaid(b.accounts, x, s, t)[c];
         after.1.accounts[c] == y.(vests := y.vests + (if c == p.reporter then reported else 0)
           + if p.spinner.Some? && c == p.spinner.value.0 then spun else 0)
  }

  lemma {:induction false} WhoIsPaid(contents: seq<Content>, b: Books, p: Payment, t: Terms)
    returns (s: Split, spun: int, reported: int)
    requires WellShared(contents, |b.accounts|) && PayableTo(p, |contents|, |b.accounts|)
    ensures ReportPaid(contents, b, AfterReport(contents, b, p, t), p, t, s, spun, reported)
  {
    hide CreditedAll, Settled, Floor;
    var x := contents[p.content];
    s := SplitOf(x, p);
    var paid := b.(accounts := PayeesPaid(b.accounts, x, s, t));
    var mid := if s.spinner > 0 then Vested(paid, p.spinner.value.0, s.spinner) else paid;
    spun := mid.totalVests - b.totalVests;
    NoVests(b.totalVests, b.fund);
    NoVests(b.totalVests + spun, b.fund + s.spinner);
    reported := AfterReport(contents, b, p, t).1.totalVests - mid.totalVests;
  }

  lemma {:induction false} NoVests(shares: int, fund: int)
    ensures VestsMade(0, 0, shares, fund)
  {
  }

  ghost function AfterReports(contents: seq<Content>, b: Books, payments: seq<Payment>,
                              t: Terms): (after: (seq<Content>, Books))
    requires WellShared(contents, |b.accounts|)
    requires forall p :: p in payments ==> PayableTo(p, |contents|, |b.accounts|)
    ensures |after.0| == |contents| && |after.1.accounts| == |b.accounts| && WellShared(after.0, |b.accounts|)
  {
    if payments == [] then (contents, b)
    else
      var before := AfterReports(contents, b, payments[..|payments| - 1], t);
      AfterReport(before.0, before.1, payments[|payments| - 1], t)
  }

  class Chain {
    var accounts: seq<Account>
    var orders: map<nat, Escrow>
    var nextOrder: nat
    var unclaimed: seq<int>
    var contents: seq<Content>
    var fund: int
    var totalVests: int
    var currentSupply: int
    var currentMbd: int
    /** `actual_median_history`, by which XUSD is issued. */
    var actualFeed: Option<Feed>
    /** `effective_median_history`, by which BTCM and XUSD are converted; it may be limited by the debt. */
    var effectiveFeed: Option<Feed>
    var interestRate: nat
    var now: nat
    var headBlock: nat

    /** By how much BTCM that somebody has exceeds the supply. */
    ghost function BtcmGap(): int
      reads this
    {
      Balances(accounts) + Held(orders, nextOrder, Btcm) + Unclaimed(unclaimed) + Accumulated(contents)
        + fund - currentSupply
    }

    ghost function XusdGap(): int
      reads this
    {
      Mbds(accounts) + Held(orders, nextOrder, Xusd) - currentMbd
    }

    ghost function VestGap(): int
      reads this
    {
      Vests(accounts) - totalVests
    }

    function CurrentTerms(): Terms
      reads this
    {
      Terms(actualFeed, now, interestRate)
    }

    function CurrentBooks(): Books
      reads this
    {
      Books(accounts, totalVests, fund)
    }

    ghost predicate Shape()
      reads this
    {
      && (forall id :: id in orders ==> id < nextOrder && orders[id].seller < |accounts|)
      && WellShared(contents, |accounts|)
      && Quoted(actualFeed) && Quoted(effectiveFeed)
    }

    /** What `validate_invariants` checks. */
    ghost predicate Valid()
      reads this
    {
      Shape() && BtcmGap() == 0 && XusdGap() == 0 && VestGap() == 0
    }

    constructor (accountCount: nat, balances: seq<int>)
      ensures Valid() && |accounts| == accountCount && unclaimed == balances && currentSupply == Unclaimed(balances)
    {
      accounts := seq(accountCount, _ => Account(0, 0, 0, 0, 0, 0));
      orders, nextOrder, unclaimed, contents := map[], 0, balances, [];
      fund, totalVests, currentMbd, actualFeed, effectiveFeed, interestRate, now, headBlock := 0, 0, 0, None, None,
        0, 0, 0;
      var supply := 0;
      for k := 0 to |balances|
        invariant supply == Sum(k, UnclaimedTerm(balances))
      {
        supply := supply + balances[k];
      }
      currentSupply := supply;
      new;
      SumZero(|accounts|, BalanceTerm(accounts));
      SumZero(|accounts|, MbdTerm(accounts));
      SumZero(|accounts|, VestTerm(accounts));
    }

    /** A block comes in: time passes, and the medians of the published prices change. */
    method NewBlock(time: nat, actual: Option<Feed>, effective: Option<Feed>, rate: nat)
      requires Valid() && time >= now && Quoted(actual) && Quoted(effective)
      modifies this`now, this`headBlock, this`actualFeed, this`effectiveFeed, this`interestRate
      ensures Valid() && now == time && headBlock == old(headBlock) + 1
      ensures actualFeed == actual && effectiveFeed == effective && interestRate == rate
    {
      hide Balances, Mbds, Vests, Held, Unclaimed, Accumulated, Quoted;
      now, headBlock, actualFeed, effectiveFeed, interestRate := time, headBlock + 1, actual, effective, rate;
    }

    method AdjustBalance(a: nat, asset: Asset, delta: int)
      requires Shape() && a < |accounts|
      modifies this`accounts, this`currentMbd
      ensures Shape() && VestGap() == old(VestGap())
      ensures accounts == old(accounts)[a := Adjusted(old(accounts)[a], asset, delta, now, interestRate).0]
      ensures asset == Btcm ==> accounts[a] == old(accounts)[a].(balance := old(accounts)[a].balance + delta)
      ensures asset == Xusd ==>
        InterestPaid(old(accounts)[a], accounts[a].(mbd := accounts[a].mbd - delta), currentMbd - old(currentMbd),
                     now, interestRate)
      ensures asset != Xusd ==> currentMbd == old(currentMbd)
      ensures BtcmGap() == old(BtcmGap()) + if asset == Btcm then delta else 0
      ensures XusdGap() == old(XusdGap()) + if asset == Xusd then delta else 0
    {
      hide Balances, Mbds, Vests, Held, Unclaimed, Accumulated;
      AdjustedIs(accounts[a], asset, delta, now, interestRate);
      hide Adjusted, InterestPaid;
      var (x, interest) := Adjusted(accounts[a], asset, delta, now, interestRate);
      AccountSet(accounts, a, x);
      accounts := accounts[a := x];
      currentMbd := currentMbd + interest;
    }

    /** Changes the supply of an asset; from the second week on an increase of BTCM may also feed the vesting fund. */
    method AdjustSupply(asset: Asset, delta: int, adjustVesting: bool)
      requires Shape()
      modifies this`currentSupply, this`currentMbd, this`fund
      ensures BtcmGap() == old(BtcmGap()) - if asset == Btcm then delta else 0
      ensures XusdGap() == old(XusdGap()) - if asset == Xusd then delta else 0
      ensures asset == Btcm ==>
        fund - old(fund) == (if adjustVesting && headBlock >= 7 * BLOCKS_PER_DAY && delta > 0 then delta * 9 else 0)
      ensures asset == Btcm ==>
        currentSupply - old(currentSupply) == delta + fund - old(fund) && currentMbd == old(currentMbd)
      ensures asset == Xusd ==>
        currentMbd == old(currentMbd) + delta && currentSupply == old(currentSupply) && fund == old(fund)
    {
      hide Balances, Mbds, Vests, Held, Unclaimed, Accumulated;
      var adjust := adjustVesting;
      if headBlock < BLOCKS_PER_DAY * 7 {
        adjust := false;
      }
      match asset
      case Btcm =>
        var toVesting := if adjust && delta > 0 then delta * 9 else 0;
        currentSupply := currentSupply + delta + toVesting;
        fund := fund + toVesting;
      case Xusd =>
        currentMbd := currentMbd + delta;
      case Other =>
    }

    /** Turns BTCM that was taken from elsewhere into vests. */
    method CreateVesting(a: nat, btcm: int) returns (made: int)
      requires Shape() && a < |accounts|
      modifies this`accounts, this`fund, this`totalVests
      ensures Shape() && made == VestsFor(btcm, old(totalVests), old(fund))
      ensures VestsMade(made, btcm, old(totalVests), old(fund))
      ensures accounts == old(accounts)[a := old(accounts)[a].(vests := old(accounts)[a].vests + made)]
      ensures fund == old(fund) + btcm && totalVests == old(totalVests) + made
      ensures BtcmGap() == old(BtcmGap()) + btcm && XusdGap() == old(XusdGap()) && VestGap() == old(VestGap())
    {
      hide Balances, Mbds, Vests, Held, Unclaimed, Accumulated;
      made := VestsFor(btcm, totalVests, fund);
      VestsAreFloored(btcm, totalVests, fund);
      var x := accounts[a].(vests := accounts[a].vests + made);
      AccountSet(accounts, a, x);
      accounts := accounts[a := x];
      fund, totalVests := fund + btcm, totalVests + made;
    }

    /** Pays BTCM out as XUSD, which takes it out of the supply, or as BTCM while there is no price. */
    method CreateMbd(a: nat, btcm: int)
      requires Shape() && a < |accounts|
      modifies this`accounts, this`currentSupply, this`currentMbd, this`fund
      ensures Shape() && accounts == Credited(old(accounts), a, btcm, CurrentTerms()) && fund == old(fund)
      ensures PaidOnce(old(accounts)[a], accounts[a], btcm, CurrentTerms())
      ensures currentMbd - old(currentMbd) == accounts[a].mbd - old(accounts)[a].mbd
      ensures currentSupply == old(currentSupply) - if actualFeed.Some? then btcm else 0
      ensures BtcmGap() == old(BtcmGap()) + btcm && XusdGap() == old(XusdGap()) && VestGap() == old(VestGap())
    {
      hide Balances, Mbds, Vests, Held, Unclaimed, Accumulated;
      CreditedOnce(accounts, a, btcm, CurrentTerms());
      if btcm == 0 {
        return;
      }
      if actualFeed.Some? {
        var xusd := XusdFor(btcm, actualFeed.value);
        AdjustBalance(a, Xusd, xusd);
        AdjustSupply(Btcm, -btcm, false);
        AdjustSupply(Xusd, xusd, false);
      } else {
        AdjustBalance(a, Btcm, btcm);
      }
    }

    method Transfer(from: nat, to: nat, asset: Asset, amount: nat) returns (ok: bool)
      requires Valid() && from < |accounts| && to < |accounts| && asset != Other
      modifies this`accounts, this`currentMbd
      ensures Valid()
      ensures ok == ((if asset == Btcm then old(accounts)[from].balance else old(accounts)[from].mbd) >= amount)
      ensures !ok ==> accounts == old(accounts) && currentMbd == old(currentMbd)
      ensures ok ==>
        var paid := old(accounts)[from := Adjusted(old(accounts)[from], asset, 0 - amount, now, interestRate).0];
        accounts == paid[to := Adjusted(paid[to], asset, amount, now, interestRate).0]
    {
      hide Balances, Mbds, Vests, Held, Unclaimed, Accumulated;
      ok := (if asset == Btcm then accounts[from].balance else accounts[from].mbd) >= amount;
      if ok {
        AdjustBalance(from, asset, 0 - amount);
        AdjustBalance(to, asset, amount);
      }
    }

    method TransferToVesting(from: nat, to: nat, amount: nat) returns (ok: bool)
      requires Valid() && from < |accounts| && to < |accounts|
      modifies this`accounts, this`currentMbd, this`fund, this`totalVests
      ensures Valid() && ok == (old(accounts)[from].balance >= amount)
      ensures !ok ==> accounts == old(accounts) && fund == old(fund) && totalVests == old(totalVests)
      ensures ok ==>
        fund == old(fund) + amount && totalVests == old(totalVests) + VestsFor(amount, old(totalVests), old(fund))
      ensures ok ==>
        var paid := old(accounts)[from := old(accounts)[from].(balance := old(accounts)[from].balance - amount)];
        accounts == paid[to := paid[to].(vests := paid[to].vests + VestsFor(amount, old(totalVests), old(fund)))]
      ensures ok ==> VestsMade(totalVests - old(totalVests), amount, old(totalVests), old(fund))
    {
      hide Balances, Mbds, Vests, Held, Unclaimed, Accumulated;
      ok := accounts[from].balance >= amount;
      if ok {
        AdjustBalance(from, Btcm, 0 - amount);
        var made := CreateVesting(to, amount);
      }
    }

    /** A fee leaves the supply. */
    method PayFee(a: nat, fee: nat) returns (ok: bool)
      requires Valid() && a < |accounts|
      modifies this`accounts, this`currentMbd, this`currentSupply, this`fund
      ensures Valid() && ok == (old(accounts)[a].balance >= fee)
      ensures accounts == if ok then old(accounts)[a := old(accounts)[a].(balance := old(accounts)[a].balance - fee)]
        else old(accounts)
    {
      hide Balances, Mbds, Vests, Held, Unclaimed, Accumulated;
      ok := accounts[a].balance >= fee;
      if ok && fee > 0 {
        AdjustBalance(a, Btcm, 0 - fee);
        AdjustSupply(Btcm, 0 - fee, false);
      }
    }

    /** BTCM to XUSD at the effective median price. */
    method Convert(a: nat, amount: nat) returns (ok: bool, ghost interest: int, ghost issued: int)
      requires Valid() && a < |accounts|
      modifies this`accounts, this`currentMbd, this`currentSupply
      ensures Valid() && ok == (old(accounts)[a].balance >= amount && effectiveFeed.Some?)
      ensures ok ==> currentSupply == old(currentSupply) - amount
      ensures ok ==>
        accounts == old(accounts)[a := Adjusted(old(accounts)[a].(balance := old(accounts)[a].balance - amount),
          Xusd, XusdFor(amount, effectiveFeed.value), now, interestRate).0]
      ensures ok ==>
        && Issued(old(accounts)[a].(balance := old(accounts)[a].balance - amount), accounts[a], interest,
           issued, amount,
                  Terms(effectiveFeed, now, interestRate))
        && currentMbd == old(currentMbd) + interest + issued
        && accounts[a].balance == old(accounts)[a].balance - amount
      ensures !ok ==> accounts == old(accounts) && currentSupply == old(currentSupply) && currentMbd == old(currentMbd)
    {
      hide Balances, Mbds, Vests, Held, Unclaimed, Accumulated;
      ok, interest, issued := accounts[a].balance >= amount && effectiveFeed.Some?, 0, 0;
      if ok {
        XusdIsFloored(amount, effectiveFeed.value);
        AdjustBalance(a, Btcm, 0 - amount);
        var xusd := XusdFor(amount, effectiveFeed.value);
        AdjustBalance(a, Xusd, xusd);
        interest, issued := currentMbd - old(currentMbd), xusd;
        currentSupply, currentMbd := currentSupply - amount, currentMbd + xusd;
      }
    }

    /** A new account starts with the vests that its fee makes. */
    method AccountCreate(creator: nat, fee: nat) returns (ok: bool)
      requires Valid() && creator < |accounts|
      modifies this`accounts, this`fund, this`totalVests
      ensures Valid() && ok == (old(accounts)[creator].balance >= fee)
      ensures !ok ==> accounts == old(accounts)
      ensures ok ==> |accounts| == |old(accounts)| + 1
      ensures ok ==>
        accounts[..|old(accounts)|] ==
          old(accounts)[creator := old(accounts)[creator].(balance := old(accounts)[creator].balance - fee)]
      ensures ok ==>
        accounts[|old(accounts)|] ==
          Account(0, 0, if fee > 0 then VestsFor(fee, old(totalVests), old(fund)) else 0, 0, 0, 0)
    {
      hide Balances, Mbds, Vests, Held, Unclaimed, Accumulated;
      ok := accounts[creator].balance >= fee;
      if ok {
        var x := accounts[creator].(balance := accounts[creator].balance - fee);
        AccountSet(accounts, creator, x);
        accounts := accounts[creator := x];
        AccountAdded(accounts);
        accounts := accounts + [Account(0, 0, 0, 0, 0, 0)];
        if fee > 0 {
          var made := CreateVesting(|accounts| - 1, fee);
        }
      }
    }

    method ClaimBalance(k: nat, to: nat, amount: int) returns (ok: bool)
      requires Valid() && k < |unclaimed| && to < |accounts|
      modifies this`accounts, this`currentMbd, this`unclaimed
      ensures Valid() && ok == (amount <= old(unclaimed)[k])
      ensures unclaimed == if ok then old(unclaimed)[k := old(unclaimed)[k] - amount] else old(unclaimed)
      ensures accounts ==
        if ok then old(accounts)[to := old(accounts)[to].(balance := old(accounts)[to].balance + amount)]
          else old(accounts)
    {
      hide Balances, Mbds, Vests, Held, Unclaimed, Accumulated;
      ok := amount <= unclaimed[k];
      if ok {
        UnclaimedSet(unclaimed, k, unclaimed[k] - amount);
        unclaimed := unclaimed[k := unclaimed[k] - amount];
        AdjustBalance(to, Btcm, amount);
      }
    }

    /** The money side of a new order: what is for sale leaves the balance and is held. */
    method OpenOrder(a: nat, asset: Asset, amount: nat) returns (ok: bool)
      requires Valid() && a < |accounts| && asset != Other
      modifies this`accounts, this`currentMbd, this`orders, this`nextOrder
      ensures Valid() && ok == ((if asset == Btcm then old(accounts)[a].balance else old(accounts)[a].mbd) >= amount)
      ensures ok ==>
        orders == old(orders)[old(nextOrder) := Escrow(a, asset, amount)] && nextOrder == old(nextOrder) + 1
      ensures ok ==> accounts == old(accounts)[a := Adjusted(old(accounts)[a], asset, 0 - amount, now, interestRate).0]
      ensures !ok ==> accounts == old(accounts) && orders == old(orders)
    {
      hide Balances, Mbds, Vests, Held, Unclaimed, Accumulated;
      ok := (if asset == Btcm then accounts[a].balance else accounts[a].mbd) >= amount;
      if ok {
        AdjustBalance(a, asset, 0 - amount);
        EscrowAdded(orders, nextOrder, Escrow(a, asset, amount), Btcm);
        EscrowAdded(orders, nextOrder, Escrow(a, asset, amount), Xusd);
        orders, nextOrder := orders[nextOrder := Escrow(a, asset, amount)], nextOrder + 1;
      }
    }

    /** Takes `pays` out of what is held for an order; with nothing left the order goes. */
    method PayFromOrder(id: nat, pays: nat)
      requires Shape() && id in orders && pays <= orders[id].amount
      modifies this`orders
      ensures Shape() && VestGap() == old(VestGap())
      ensures orders == PaidFrom(old(orders), id, pays)
      ensures BtcmGap() == old(BtcmGap()) - if old(orders)[id].asset == Btcm then pays else 0
      ensures XusdGap() == old(XusdGap()) - if old(orders)[id].asset == Xusd then pays else 0
    {
      hide Balances, Mbds, Vests, Held, Unclaimed, Accumulated;
      var after := if pays == orders[id].amount then orders - {id}
        else orders[id := orders[id].(amount := orders[id].amount - pays)];
      EscrowSet(orders, after, nextOrder, id, Btcm);
      EscrowSet(orders, after, nextOrder, id, Xusd);
      orders := after;
    }

    /** The money side of a trade: each side receives what the other pays. */
    method FillOrders(newId: nat, oldId: nat, newPays: nat, oldPays: nat)
      requires Valid() && newId in orders && oldId in orders && newId != oldId
      requires newPays <= orders[newId].amount && oldPays <= orders[oldId].amount
      modifies this`accounts, this`currentMbd, this`orders
      ensures Valid() && |accounts| == |old(accounts)|
      ensures old(orders)[newId].seller < |accounts| && old(orders)[oldId].seller < |accounts|
      ensures orders == PaidFrom(PaidFrom(old(orders), newId, newPays), oldId, oldPays)
      ensures accounts ==
        Received(Received(old(accounts), old(orders)[newId].seller, old(orders)[oldId].asset, oldPays),
                 old(orders)[oldId].seller, old(orders)[newId].asset, newPays)
    {
      hide Balances, Mbds, Vests, Held, Unclaimed, Accumulated;
      var first, second := orders[newId], orders[oldId];
      AdjustBalance(first.seller, second.asset, oldPays);
      PayFromOrder(newId, newPays);
      AdjustBalance(second.seller, first.asset, newPays);
      PayFromOrder(oldId, oldPays);
    }

    /**
     A whole match of two orders of the book, `first` against `second`: each side gets what the other pays
     by `Trade`, and a remainder too small to ask for a unit goes back.
     */
    method MatchOrders(newId: nat, oldId: nat, first: OrderSpec.Order, second: OrderSpec.Order)
      requires Valid() && newId in orders && oldId in orders && newId != oldId
      requires StandsFor(orders[newId], first) && StandsFor(orders[oldId], second)
      requires OrderSpec.Live(first) && OrderSpec.Live(second) && OrderSpec.Crosses(first, second)
      modifies this`accounts, this`currentMbd, this`orders
      ensures Valid()
      ensures var (pays, receives) := Amounts(first, second);
        orders == Kept(Kept(old(orders), newId, first, pays), oldId, second, receives)
      ensures accounts == AfterMatch(old(accounts), first, second)
    {
      hide Valid, Shape, BtcmGap, XusdGap, VestGap, Received, Refunded, Amounts, AssetOf, PaidFrom, Without, Kept;
      hide Balances, Mbds, Vests, Held, Unclaimed, Accumulated, Adjusted, OrderSpec.Live, OrderSpec.Crosses,
        OrderSpec.Left;
      var (pays, receives) := Amounts(first, second);
      BothSidesLeave(orders, newId, oldId, first, second, pays, receives);
      FillOrders(newId, oldId, pays, receives);
      CancelRemainder(newId, first, pays);
      CancelRemainder(oldId, second, receives);
    }

    /** Cancels what is left of an order that paid if it is too small to stay in the book. */
    method CancelRemainder(id: nat, order: OrderSpec.Order, pays: int)
      requires Valid() && OrderSpec.Live(order) && 0 < pays <= order.forSale && order.seller < |accounts|
      requires id in orders <==> pays < order.forSale
      requires id in orders ==>
        orders[id] == Escrow(order.seller, AssetOf(order.sellPrice.base.id), order.forSale - pays)
      modifies this`accounts, this`currentMbd, this`orders
      ensures Valid() && |accounts| == |old(accounts)|
      ensures orders == Without(old(orders), id, order, pays)
      ensures accounts == Refunded(old(accounts), order, pays)
    {
      hide Balances, Mbds, Vests, Held, Unclaimed, Accumulated, Adjusted;
      if id in orders && OrderSpec.Left(order, pays).None? {
        CancelOrder(id);
      } else {
        assert id !in orders ==> orders - {id} == orders;
      }
    }

    ghost function AfterMatch(before: seq<Account>, first: OrderSpec.Order, second: OrderSpec.Order): seq<Account>
      requires OrderSpec.Live(first) && OrderSpec.Live(second) && OrderSpec.Crosses(first, second)
      requires first.seller < |before| && second.seller < |before|
      reads this`now, this`interestRate
    {
      var (pays, receives) := Amounts(first, second);
      var paid := Received(Received(before, first.seller, AssetOf(second.sellPrice.base.id), receives),
                           second.seller, AssetOf(first.sellPrice.base.id), pays);
      Refunded(Refunded(paid, first, pays), second, receives)
    }

    /** A remainder that is too small to stay in the book goes back to the seller. */
    ghost function Refunded(before: seq<Account>, order: OrderSpec.Order, pays: int): (after: seq<Account>)
      requires OrderSpec.Live(order) && 0 < pays <= order.forSale && order.seller < |before|
      reads this`now, this`interestRate
      ensures |after| == |before|
    {
      if pays < order.forSale && OrderSpec.Left(order, pays).None? then
        Received(before, order.seller, AssetOf(order.sellPrice.base.id), order.forSale - pays)
      else before
    }

    ghost function Received(before: seq<Account>, a: nat, asset: Asset, amount: int): (after: seq<Account>)
      requires a < |before|
      reads this`now, this`interestRate
      ensures |after| == |before| && forall b :: 0 <= b < |before| && b != a ==> after[b] == before[b]
      ensures asset == Btcm ==> after[a] == before[a].(balance := before[a].balance + amount)
      ensures asset == Xusd ==>
        InterestPaid(before[a], after[a].(mbd := after[a].mbd - amount), after[a].mbd - amount - before[a].mbd, now,
                     interestRate)
    {
      AdjustedIs(before[a], asset, amount, now, interestRate);
      before[a := Adjusted(before[a], asset, amount, now, interestRate).0]
    }

    method CancelOrder(id: nat)
      requires Valid() && id in orders && orders[id].amount >= 0
      modifies this`accounts, this`currentMbd, this`orders
      ensures Valid() && orders == old(orders) - {id}
      ensures accounts == Received(old(accounts), old(orders)[id].seller, old(orders)[id].asset, old(orders)[id].amount)
    {
      hide Balances, Mbds, Vests, Held, Unclaimed, Accumulated;
      var order := orders[id];
      AdjustBalance(order.seller, order.asset, order.amount);
      PayFromOrder(id, order.amount);
    }

    method SetContent(c: nat, x: Content)
      requires Shape() && c < |contents| && x.playingReward <= HUNDRED_PERCENT && x.publishersShare <= HUNDRED_PERCENT
      requires forall s :: s in x.master || s in x.comp ==> s.payee < |accounts|
      modifies this`contents
      ensures Shape() && contents == old(contents)[c := x]
      ensures BtcmGap() == old(BtcmGap()) + x.accumulatedMaster + x.accumulatedComp
        - old(contents)[c].accumulatedMaster - old(contents)[c].accumulatedComp
      ensures XusdGap() == old(XusdGap()) && VestGap() == old(VestGap())
    {
      hide Balances, Mbds, Vests, Held, Unclaimed, Accumulated;
      ContentSet(contents, c, x);
      contents := contents[c := x];
    }

    /**
     Pays one side of a content, together with what had accumulated for it: every payee gets its share,
     rounded down, and what is left accumulates.
     */
    method PayToSide(c: nat, master: bool, payout: int)
      requires Shape() && c < |contents|
      modifies this`accounts, this`currentMbd, this`currentSupply, this`fund, this`totalVests, this`contents
      ensures Shape() && |accounts| == |old(accounts)| && |contents| == |old(contents)|
      ensures BtcmGap() == old(BtcmGap()) + payout && XusdGap() == old(XusdGap()) && VestGap() == old(VestGap())
      ensures contents == old(contents)[c := Settled(old(contents)[c], master, payout)]
      ensures payout >= 0 && Whole(old(contents)[c]) ==> Whole(contents[c])
      ensures var x := old(contents)[c]; CurrentBooks() == old(CurrentBooks()).(accounts := CreditedAll(old(accounts),
        if master then x.master
          else x.comp, payout + (if master then x.accumulatedMaster else x.accumulatedComp), old(CurrentTerms())))
    {
      hide Balances, Mbds, Vests, Held, Unclaimed, Accumulated, Whole, Paid, CreditedAll;
      var x := contents[c];
      var toPay := payout + if master then x.accumulatedMaster else x.accumulatedComp;
      var totalPaid := PayShares(if master then x.master else x.comp, toPay);
      toPay := toPay - totalPaid;
      if payout >= 0 && Whole(x) {
        NothingOverpaid(x, master, payout);
      }
      SetContent(c, if master then x.(accumulatedMaster := toPay) else x.(accumulatedComp := toPay));
    }

    /** Pays every payee its share of `toPay`. */
    method PayShares(shares: seq<Share>, toPay: int) returns (totalPaid: int)
      requires Shape() && forall s :: s in shares ==> s.payee < |accounts|
      modifies this`accounts, this`currentMbd, this`currentSupply, this`fund, this`totalVests
      ensures Shape() && totalPaid == Paid(shares, toPay) && |accounts| == |old(accounts)|
      ensures toPay >= 0 ==> forall b :: 0 <= b < |accounts| ==>
        PaidInParts(old(accounts)[b], accounts[b], Sum(|shares|, Due(shares, toPay, b)),
                    Sum(|shares|, ShareCount(shares, b)), CurrentTerms())
      ensures CurrentBooks() ==
        old(CurrentBooks()).(accounts := CreditedAll(old(accounts), shares, toPay, CurrentTerms()))
      ensures BtcmGap() == old(BtcmGap()) + totalPaid && XusdGap() == old(XusdGap()) && VestGap() == old(VestGap())
    {
      hide Balances, Mbds, Vests, Held, Unclaimed, Accumulated, Credited, PaidInParts;
      totalPaid := 0;
      for k := 0 to |shares|
        invariant Shape() && totalPaid == Paid(shares[..k], toPay)
        invariant accounts == CreditedAll(old(accounts), shares[..k], toPay, CurrentTerms())
        invariant fund == old(fund) && totalVests == old(totalVests)
        invariant BtcmGap() == old(BtcmGap()) + totalPaid && XusdGap() == old(XusdGap()) && VestGap() == old(VestGap())
      {
        assert shares[k] in shares && shares[..k + 1] == shares[..k] + [shares[k]];
        var reward := toPay * shares[k].bp / HUNDRED_PERCENT;
        totalPaid := totalPaid + reward;
        PayAuthor(shares[k].payee, reward);
      }
      assert shares[..|shares|] == shares;
      if toPay >= 0 {
        forall b | 0 <= b < |accounts|
          ensures PaidInParts(old(accounts)[b], accounts[b], Sum(|shares|, Due(shares, toPay, b)),
                              Sum(|shares|, ShareCount(shares, b)), CurrentTerms())
        {
          PayeesGetShares(old(accounts), shares, toPay, CurrentTerms(), b);
        }
      }
    }

    /** All of an author's reward is paid as XUSD; the part that would become vests is nothing. */
    method PayAuthor(a: nat, reward: int)
      requires Shape() && a < |accounts|
      modifies this`accounts, this`currentMbd, this`currentSupply, this`fund, this`totalVests
      ensures Shape()
      ensures CurrentBooks() == old(CurrentBooks()).(accounts := Credited(old(accounts), a, reward, CurrentTerms()))
      ensures BtcmGap() == old(BtcmGap()) + reward && XusdGap() == old(XusdGap()) && VestGap() == old(VestGap())
    {
      hide Balances, Mbds, Vests, Held, Unclaimed, Accumulated, Credited;
      NoVestsForNothing(totalVests, fund);
      var made := CreateVesting(a, 0);
      assert accounts == old(accounts);
      CreateMbd(a, reward);
    }

    method PayToPlatform(owner: nat, payout: int)
      requires Shape() && owner < |accounts|
      modifies this`accounts, this`currentMbd, this`currentSupply, this`fund, this`totalVests
      ensures Shape() && CurrentBooks() == Vested(old(CurrentBooks()), owner, payout)
      ensures BtcmGap() == old(BtcmGap()) + payout && XusdGap() == old(XusdGap()) && VestGap() == old(VestGap())
    {
      hide Balances, Mbds, Vests, Held, Unclaimed, Accumulated;
      var made := CreateVesting(owner, payout);
      CreateMbd(owner, 0);
    }

    /** Pays the composition's and the master's part; the platform's part is left to the caller. */
    method PayToContent(c: nat, payout: nat) returns (paid: int, ghost comp: int)
      requires Shape() && c < |contents|
      modifies this`accounts, this`currentMbd, this`currentSupply, this`fund, this`totalVests, this`contents
      ensures Shape() && |accounts| == |old(accounts)| && |contents| == |old(contents)|
      ensures 0 <= comp <= paid <= payout
      ensures Floor(payout - paid, payout * old(contents)[c].playingReward, HUNDRED_PERCENT)
      ensures Floor(comp, paid * old(contents)[c].publishersShare, HUNDRED_PERCENT)
      ensures contents == old(contents)[c := Settled(Settled(old(contents)[c], true, paid - comp), false, comp)]
      ensures Whole(old(contents)[c]) ==> Whole(contents[c])
      ensures var x := old(contents)[c]; CurrentBooks() == old(CurrentBooks()).(accounts :=
          CreditedAll(CreditedAll(old(accounts), x.master, paid - comp + x.accumulatedMaster, old(CurrentTerms())),
                      x.comp, comp + x.accumulatedComp, old(CurrentTerms())))
      ensures BtcmGap() == old(BtcmGap()) + paid && XusdGap() == old(XusdGap()) && VestGap() == old(VestGap())
    {
      hide Balances, Mbds, Vests, Held, Unclaimed, Accumulated;
      hide Whole;
      var platform := payout * contents[c].playingReward / HUNDRED_PERCENT;
      var rest := payout - platform;
      var toComp := rest * contents[c].publishersShare / HUNDRED_PERCENT;
      PartOf(payout, contents[c].playingReward);
      PartOf(rest, contents[c].publishersShare);
      PayToSide(c, true, rest - toComp);
      PayToSide(c, false, toComp);
      paid, comp := rest - toComp + toComp, toComp;
    }

    /** `process_content_cashout` as far as money goes: everything that the reports are worth is paid. */
    method ContentCashout(payments: seq<Payment>) returns (paid: int)
      requires Shape() && forall p :: p in payments ==> PayableTo(p, |contents|, |accounts|)
      modifies this`accounts, this`currentMbd, this`currentSupply, this`fund, this`totalVests, this`contents
      ensures Shape() && |accounts| == |old(accounts)| && |contents| == |old(contents)|
      ensures paid == Rewards(payments)
      ensures (contents, CurrentBooks()) ==
        AfterReports(old(contents), old(CurrentBooks()), payments, old(CurrentTerms()))
      ensures forall c :: 0 <= c < |contents| && Whole(old(contents)[c]) ==> Whole(contents[c])
      ensures BtcmGap() == old(BtcmGap()) + paid && XusdGap() == old(XusdGap()) && VestGap() == old(VestGap())
    {
      hide Balances, Mbds, Vests, Held, Unclaimed, Accumulated;
      hide Whole, AfterReport, IsSplit, WellShared, PayableTo, VestsMade;
      paid := 0;
      for k := 0 to |payments|
        invariant Shape() && |accounts| == |old(accounts)| && |contents| == |old(contents)|
        invariant paid == Rewards(payments[..k])
        invariant (contents, CurrentBooks()) ==
          AfterReports(old(contents), old(CurrentBooks()), payments[..k], old(CurrentTerms()))
        invariant forall c :: 0 <= c < |contents| && Whole(old(contents)[c]) ==> Whole(contents[c])
        invariant BtcmGap() == old(BtcmGap()) + paid && XusdGap() == old(XusdGap()) && VestGap() == old(VestGap())
      {
        assert payments[k] in payments && payments[..k + 1] == payments[..k] + [payments[k]];
        ghost var _, _, _ := PayReport(payments[k]);
        paid := paid + payments[k].reward;
      }
      assert payments[..|payments|] == payments;
    }

    /** One report: its content first, then the platforms share what is left, which becomes vests. */
    method PayReport(p: Payment) returns (ghost s: Split, ghost spun: int, ghost reported: int)
      requires Shape() && PayableTo(p, |contents|, |accounts|)
      modifies this`accounts, this`currentMbd, this`currentSupply, this`fund, this`totalVests, this`contents
      ensures Shape() && |accounts| == |old(accounts)| && |contents| == |old(contents)|
      ensures ReportPaid(old(contents), old(CurrentBooks()), (contents, CurrentBooks()), p, old(CurrentTerms()),
                         s, spun, reported)
      ensures (contents, CurrentBooks()) == AfterReport(old(contents), old(CurrentBooks()), p, old(CurrentTerms()))
      ensures Whole(old(contents)[p.content]) ==> Whole(contents[p.content])
      ensures BtcmGap() == old(BtcmGap()) + p.reward && XusdGap() == old(XusdGap()) && VestGap() == old(VestGap())
    {
      hide Balances, Mbds, Vests, Held, Unclaimed, Accumulated;
      hide Whole, CreditedAll, Settled, Vested, ReportPaid;
      var contentPayment;
      ghost var comp;
      contentPayment, comp := PayToContent(p.content, p.reward);
      var platformReward := p.reward - contentPayment;
      var reporterReward := platformReward;
      if p.spinner.Some? {
        PartOf(platformReward, p.spinner.value.1);
        reporterReward := platformReward * p.spinner.value.1 / HUNDRED_PERCENT;
        if platformReward > reporterReward {
          PayToPlatform(p.spinner.value.0, platformReward - reporterReward);
        }
      }
      if reporterReward > 0 {
        PayToPlatform(p.reporter, reporterReward);
      }
      OneSplit(old(contents)[p.content], p,
               Split(contentPayment - comp, comp, reporterReward, platformReward - reporterReward));
      s, spun, reported := WhoIsPaid(old(contents), old(CurrentBooks()), p, old(CurrentTerms()));
    }

    /** `get_producer_reward`: as vests once witnesses are voted for, or for a witness without any. */
    method ProducerReward(producer: nat, pay: nat)
      requires Shape() && producer < |accounts|
      modifies this`accounts, this`fund, this`totalVests
      ensures Shape()
      ensures headBlock >= START_MINER_VOTING_BLOCK || old(accounts)[producer].vests == 0 ==>
        CurrentBooks() == Vested(old(CurrentBooks()), producer, pay)
      ensures headBlock < START_MINER_VOTING_BLOCK && old(accounts)[producer].vests != 0 ==>
        CurrentBooks() == old(CurrentBooks()).(accounts := Received(old(accounts), producer, Btcm, pay))
      ensures BtcmGap() == old(BtcmGap()) + pay && XusdGap() == old(XusdGap()) && VestGap() == old(VestGap())
    {
      hide Balances, Mbds, Vests, Held, Unclaimed, Accumulated;
      if headBlock >= START_MINER_VOTING_BLOCK || accounts[producer].vests == 0 {
        var made := CreateVesting(producer, pay);
      } else {
        var x := accounts[producer].(balance := accounts[producer].balance + pay);
        AccountSet(accounts, producer, x);
        accounts := accounts[producer := x];
      }
    }

    /**
     The rewards of one block: the producer is paid before the supply grows by it, and the content
     reward is added to the supply before what was not paid is taken out again.
     */
    method BlockRewards(producer: nat, pay: nat, contentReward: nat, payments: seq<Payment>)
      requires Valid() && producer < |accounts| && forall p :: p in payments ==> PayableTo(p, |contents|, |accounts|)
      modifies this`accounts, this`currentMbd, this`currentSupply, this`fund, this`totalVests, this`contents
      ensures Valid() && |accounts| == |old(accounts)| && |contents| == |old(contents)|
      ensures forall c :: 0 <= c < |contents| && Whole(old(contents)[c]) ==> Whole(contents[c])
      ensures var b := if headBlock >= START_MINER_VOTING_BLOCK || old(accounts)[producer].vests == 0 then
            Vested(old(CurrentBooks()), producer, pay)
          else old(CurrentBooks()).(accounts := Received(old(accounts), producer, Btcm, pay));
        (contents, CurrentBooks()) == AfterReports(old(contents), b, payments, old(CurrentTerms()))
    {
      hide Balances, Mbds, Vests, Held, Unclaimed, Accumulated, AfterReports, Vested, Whole, WellShared, Received;
      ProducerReward(producer, pay);
      currentSupply := currentSupply + contentReward + pay;
      var paid := ContentCashout(payments);
      currentSupply := currentSupply - (contentReward - paid);
    }

    /** What a power-down pays as BTCM to one account. */
    method PayVestsAsBtcm(to: nat, vests: int) returns (paid: int)
      requires Shape() && to < |accounts|
      modifies this`accounts, this`fund, this`totalVests
      ensures Shape() && VestsSold(paid, vests, old(totalVests), old(fund))
      ensures accounts == old(accounts)[to := old(accounts)[to].(balance := old(accounts)[to].balance + paid)]
      ensures fund == old(fund) - paid && totalVests == old(totalVests) - vests
      ensures BtcmGap() == old(BtcmGap()) && XusdGap() == old(XusdGap()) && VestGap() == old(VestGap()) + vests
    {
      hide Balances, Mbds, Vests, Held, Unclaimed, Accumulated;
      BtcmIsFloored(vests, totalVests, fund);
      paid := BtcmFor(vests, totalVests, fund);
      var x := accounts[to].(balance := accounts[to].balance + paid);
      AccountSet(accounts, to, x);
      accounts := accounts[to := x];
      fund, totalVests := fund - paid, totalVests - vests;
    }

    method AddVests(a: nat, vests: int)
      requires Shape() && a < |accounts|
      modifies this`accounts
      ensures Shape() && accounts == old(accounts)[a := old(accounts)[a].(vests := old(accounts)[a].vests + vests)]
      ensures BtcmGap() == old(BtcmGap()) && XusdGap() == old(XusdGap()) && VestGap() == old(VestGap()) + vests
    {
      hide Balances, Mbds, Vests, Held, Unclaimed, Accumulated;
      var x := accounts[a].(vests := accounts[a].vests + vests);
      AccountSet(accounts, a, x);
      accounts := accounts[a := x];
    }

    method AddAllVests(deposits: seq<(nat, int)>)
      requires Shape() && forall d :: d in deposits ==> d.0 < |accounts|
      modifies this`accounts
      ensures Shape() && |accounts| == |old(accounts)|
      ensures forall b :: 0 <= b < |accounts| ==> accounts[b] == old(accounts)[b].(vests :=
          old(accounts)[b].vests + Sum(|deposits|, PartsTo(deposits, b)))
      ensures BtcmGap() == old(BtcmGap()) && XusdGap() == old(XusdGap())
      ensures VestGap() == old(VestGap()) + Deposits(deposits)
    {
      hide Balances, Mbds, Vests, Held, Unclaimed, Accumulated;
      for k := 0 to |deposits|
        invariant Shape() && |accounts| == |old(accounts)|
        invariant forall b :: 0 <= b < |accounts| ==>
          accounts[b] == old(accounts)[b].(vests := old(accounts)[b].vests + Sum(k, PartsTo(deposits, b)))
        invariant BtcmGap() == old(BtcmGap()) && XusdGap() == old(XusdGap())
        invariant VestGap() == old(VestGap()) + Deposits(deposits[..k])
      {
        assert deposits[k] in deposits && deposits[..k + 1] == deposits[..k] + [deposits[k]];
        AddVests(deposits[k].0, deposits[k].1);
      }
      assert deposits[..|deposits|] == deposits;
    }

    method PayAllAsBtcm(sold: seq<(nat, int)>) returns (paid: seq<(nat, int)>)
      requires Shape() && forall p :: p in sold ==> p.0 < |accounts|
      modifies this`accounts, this`fund, this`totalVests
      ensures Shape() && |accounts| == |old(accounts)| && SoldInTurn(old(totalVests), old(fund), sold, paid)
      ensures forall b :: 0 <= b < |accounts| ==> accounts[b] == old(accounts)[b].(balance :=
          old(accounts)[b].balance + Sum(|paid|, PartsTo(paid, b)))
      ensures fund == old(fund) - Sum(|paid|, Parts(paid)) && totalVests == old(totalVests) - Sum(|sold|, Parts(sold))
      ensures BtcmGap() == old(BtcmGap()) && XusdGap() == old(XusdGap())
      ensures VestGap() == old(VestGap()) + Sum(|sold|, Parts(sold))
    {
      hide Balances, Mbds, Vests, Held, Unclaimed, Accumulated, SoldInTurn, VestsSold, Parts, PartsTo;
      paid := [];
      NothingSoldYet(totalVests, fund);
      for k := 0 to |sold|
        invariant Shape() && |accounts| == |old(accounts)| && SoldInTurn(old(totalVests), old(fund), sold[..k], paid)
        invariant |paid| == k
        invariant forall b :: 0 <= b < |accounts| ==>
          accounts[b] == old(accounts)[b].(balance := old(accounts)[b].balance + Sum(k, PartsTo(paid, b)))
        invariant fund == old(fund) - Sum(k, Parts(paid)) && totalVests == old(totalVests) - Sum(k, Parts(sold[..k]))
        invariant BtcmGap() == old(BtcmGap()) && XusdGap() == old(XusdGap())
        invariant VestGap() == old(VestGap()) + Sum(k, Parts(sold[..k]))
      {
        assert sold[k] in sold && sold[..k + 1] == sold[..k] + [sold[k]];
        var btcm := PayVestsAsBtcm(sold[k].0, sold[k].1);
        OneMoreSold(old(totalVests), old(fund), sold[..k], paid, sold[k].0, sold[k].1, btcm);
        OneMorePayment(sold[..k], sold[k].0, sold[k].1);
        OneMorePayment(paid, sold[k].0, btcm);
        paid := paid + [(sold[k].0, btcm)];
      }
      assert sold[..|sold|] == sold;
    }

    /**
     One payment of a power-down: routes that take vests, routes that take BTCM, and the rest as BTCM.  Vests
     are `sold` one after the other, for what is `paid`.
     */
    method WithdrawVests(from: nat, amount: int, asVests: seq<(nat, int)>, asBtcm: seq<(nat, int)>)
      returns (sold: seq<(nat, int)>, paid: seq<(nat, int)>)
      requires Valid() && from < |accounts|
      requires forall r :: r in asVests || r in asBtcm ==> r.0 < |accounts|
      modifies this`accounts, this`fund, this`totalVests
      ensures Valid() && |accounts| == |old(accounts)|
      ensures sold == asBtcm + [(from, amount - Deposits(asVests) - Deposits(asBtcm))]
      ensures SoldInTurn(old(totalVests), old(fund), sold, paid) && fund == old(fund) - Sum(|paid|, Parts(paid))
      ensures totalVests == old(totalVests) - amount + Deposits(asVests)
      ensures forall b :: 0 <= b < |accounts| ==> accounts[b] == old(accounts)[b].(
          vests := old(accounts)[b].vests + Sum(|asVests|, PartsTo(asVests, b)) - (if b == from then amount else 0),
          balance := old(accounts)[b].balance + Sum(|paid|, PartsTo(paid, b)))
    {
      hide Balances, Mbds, Vests, Held, Unclaimed, Accumulated, Sum, SoldInTurn, VestsSold, Parts, PartsTo;
      AddAllVests(asVests);
      AddVests(from, -amount);
      sold := asBtcm + [(from, amount - Deposits(asVests) - Deposits(asBtcm))];
      paid := PayAllAsBtcm(sold);
      DepositsAre(sold);
    }

    /** `content`: a new content has nothing accumulated; without third-party publishers it has one side only. */
    method ContentCreate(master: seq<Share>, comp: seq<Share>, playingReward: nat, publishersShare: nat,
                         thirdParty: bool)
      requires Valid() && playingReward < HUNDRED_PERCENT && publishersShare < HUNDRED_PERCENT
      requires forall s :: s in master || s in comp ==> s.payee < |accounts|
      modifies this`contents
      ensures Valid()
      ensures contents == old(contents) + [Content(0, 0, master, if thirdParty then comp else [], playingReward,
        if thirdParty then publishersShare else 0, thirdParty, false)]
      ensures BasisPoints(master) <= HUNDRED_PERCENT && BasisPoints(comp) <= HUNDRED_PERCENT ==>
        Whole(contents[|old(contents)|])
    {
      hide Balances, Mbds, Vests, Held, Unclaimed, Accumulated;
      var x := Content(0, 0, master, if thirdParty then comp else [], playingReward,
        if thirdParty then publishersShare else 0, thirdParty, false);
      ContentAdded(contents, x);
      contents := contents + [x];
    }

    /** `content_disable`: done once, and nothing that is owed changes. */
    method ContentDisable(c: nat) returns (ok: bool)
      requires Valid() && c < |contents|
      modifies this`contents
      ensures Valid() && ok == !old(contents)[c].disabled
      ensures contents == old(contents)[c := old(contents)[c].(disabled := true)]
    {
      hide Balances, Mbds, Vests, Held, Unclaimed, Accumulated;
      ok := !contents[c].disabled;
      SetContent(c, contents[c].(disabled := true));
    }

    /** `content_update`: new shares of one side take effect on what had accumulated for it. */
    method ContentUpdate(c: nat, master: bool, shares: seq<Share>, playingReward: nat,
                         publishersShare: nat) returns (ok: bool)
      requires Valid() && c < |contents| && playingReward < HUNDRED_PERCENT && publishersShare < HUNDRED_PERCENT
      requires forall s :: s in shares ==> s.payee < |accounts|
      modifies this`accounts, this`currentMbd, this`currentSupply, this`fund, this`totalVests, this`contents
      ensures Valid() && |accounts| == |old(accounts)|
      ensures ok == (!old(contents)[c].disabled && (master || old(contents)[c].thirdParty))
      ensures !ok ==> contents == old(contents) && accounts == old(accounts)
      ensures ok ==> |contents| == |old(contents)| && (forall d :: 0 <= d < |contents| && d != c ==>
          contents[d] == old(contents)[d])
      ensures ok ==> var x, y := old(contents)[c], contents[c];
        var accumulated := if master then x.accumulatedMaster else x.accumulatedComp;
        var paid := if accumulated > 0 then Paid(shares, accumulated) else 0;
        && y.master == (if master && shares != [] then shares else x.master)
        && y.comp == (if !master && shares != [] then shares else x.comp)
        && y.playingReward == (if playingReward > 0 then playingReward else x.playingReward)
        && y.publishersShare == (if publishersShare > 0 then publishersShare else x.publishersShare)
        && y.accumulatedMaster == x.accumulatedMaster - (if master then paid else 0)
        && y.accumulatedComp == x.accumulatedComp - (if master then 0 else paid)
        && y.thirdParty == x.thirdParty && y.disabled == x.disabled
      ensures ok ==> var x := old(contents)[c];
        var accumulated := if master then x.accumulatedMaster else x.accumulatedComp;
        accounts == if accumulated > 0 then CreditedAll(old(accounts), shares, accumulated, old(CurrentTerms()))
          else old(accounts)
      ensures Whole(old(contents)[c]) && BasisPoints(shares) <= HUNDRED_PERCENT ==> Whole(contents[c])
    {
      hide Balances, Mbds, Vests, Held, Unclaimed, Accumulated, CreditedAll, Paid, Interest;
      NobodyPaid(accounts, if master then contents[c].accumulatedMaster
        else contents[c].accumulatedComp, CurrentTerms());
      var x := contents[c];
      ok := !x.disabled && (x.thirdParty || master);
      if !ok {
        return;
      }
      var accumulated := if master then x.accumulatedMaster else x.accumulatedComp;
      if shares != [] {
        x := if master then x.(master := shares) else x.(comp := shares);
      }
      x := x.(playingReward := if playingReward > 0 then playingReward else x.playingReward,
              publishersShare := if publishersShare > 0 then publishersShare else x.publishersShare);
      SetContent(c, x);
      if shares != [] && accumulated > 0 {
        PayToSide(c, master, 0);
      }
    }
  }
}

/**
 Vesting shares: powered down, delegated, redelegated and returned in place.
 */
module Vesting {
  import opened Wrappers
  import opened Rounding
  import opened Sums
  import opened Tables
  import opened VestingSpec
  import opened VestingRoutes
  import opened DelegationSpec
  import opened WitnessOrder
  import opened WithdrawalPass

  /** 30 days. */
  const CREATE_ACCOUNT_DELEGATION_TIME := 2592000

  ghost predicate AllSolvent(accounts: seq<Account>) {
    forall a :: 0 <= a < |accounts| ==> Solvent(accounts[a]) && Scheduled(accounts[a])
  }

  /** What is still to be paid out. */
  ghost function OwedTerm(accounts: seq<Account>): nat -> int {
    (a: nat) => if a < |accounts| then accounts[a].toWithdraw - accounts[a].withdrawn else 0
  }

  lemma {:induction false} OwedNotNegative(accounts: seq<Account>)
    requires AllSolvent(accounts)
    ensures Sum(|accounts|, OwedTerm(accounts)) >= 0
  {
    SumNotNegative(|accounts|, OwedTerm(accounts));
  }

  lemma {:induction false} NoRouteToTheFirst(accounts: seq<Account>, routes: Routes, a: nat, paid: int)
    requires accounts != []
    ensures Sum(1, DepositTerm(routes, a, paid, true)) == 0 && accounts[0] == Enriched(accounts, routes, a, paid, 0)
  {
  }

  lemma {:induction false} RicherIsSolvent(accounts: seq<Account>, b: nat, vests: nat)
    requires AllSolvent(accounts) && b < |accounts|
    ensures AllSolvent(accounts[b := accounts[b].(vests := accounts[b].vests + vests)])
  {
  }

  /** Account `b` with what it gets as vests when `a` pays out. */
  function Enriched(accounts: seq<Account>, routes: Routes, a: nat, paid: int, b: nat): Account
    requires b < |accounts|
  {
    accounts[b].(vests := accounts[b].vests + Deposit(routes, a, b, paid, true))
  }

  /** All accounts after `a` has paid out the part that is due next. */
  function AfterPayment(accounts: seq<Account>, routes: Routes, a: nat): (after: seq<Account>)
    requires a < |accounts| && accounts[a].next.Some? && accounts[a].rate > 0
    ensures |after| == |accounts|
    ensures forall b :: 0 <= b < |accounts| ==>
      after[b] == var rich := Enriched(accounts, routes, a, Payment(accounts[a]), b);
                  if b == a then PaidOut(rich, Payment(accounts[a])) else rich
  {
    seq(|accounts|, b requires 0 <= b < |accounts| =>
      var rich := Enriched(accounts, routes, a, Payment(accounts[a]), b);
      if b == a then PaidOut(rich, Payment(accounts[a])) else rich)
  }

  /** Account `b` gets vests for its percentage of what `a` pays, rounded down, if a route says so. */
  ghost predicate RoutedTo(x: Account, y: Account, routes: Routes, a: nat, b: nat, paid: int) {
    var got := y.vests - x.vests;
    && y == x.(vests := x.vests + got)
    && if b > 0 && (a, b) in routes && routes[(a, b)].autoVest
       then Floor(got, paid * routes[(a, b)].percent, HUNDRED_PERCENT) else got == 0
  }

  lemma {:induction false} OthersGetVests(accounts: seq<Account>, routes: Routes, a: nat)
    requires a < |accounts| && accounts[a].next.Some? && accounts[a].rate > 0
    ensures forall b :: 0 <= b < |accounts| && b != a ==>
      RoutedTo(accounts[b], AfterPayment(accounts, routes, a)[b], routes, a, b, Payment(accounts[a]))
  {
    var paid := Payment(accounts[a]);
    forall b | 0 <= b < |accounts| && b != a
      ensures RoutedTo(accounts[b], Enriched(accounts, routes, a, paid, b), routes, a, b, paid)
    {
      if (a, b) in routes {
        DivisionBounds(paid * routes[(a, b)].percent, HUNDRED_PERCENT);
      }
    }
  }

  /** One payment in the plan of power-downs; everybody stays solvent. */
  lemma {:induction false} PaymentInPlan(accounts: seq<Account>, routes: Routes, a: nat)
    requires AllSolvent(accounts) && a < |accounts| && accounts[a].next.Some?
    ensures Planned(PlanOf(accounts)) && AllSolvent(AfterPayment(accounts, routes, a))
    ensures PlanOf(AfterPayment(accounts, routes, a)) == OnePaid(PlanOf(accounts), a)
  {
    hide PartsFor, Rate;
    PlanIsPlanned(accounts);
    var x, paid := accounts[a], Payment(accounts[a]);
    PaymentIsDue(x);
    forall b | 0 <= b < |accounts|
      ensures Deposit(routes, a, b, paid, true) >= 0
    {
      DepositNotNegative(routes, a, b, paid, true);
    }
    PaymentIsOnePart(x, Deposit(routes, a, a, paid, true));
    PaymentKeepsSolvent(x, Deposit(routes, a, a, paid, true));
    var after := AfterPayment(accounts, routes, a);
    forall b | 0 <= b < |accounts| && b != a
      ensures PlanOf(after)[b] == PlanOf(accounts)[b] && Solvent(after[b]) && Scheduled(after[b])
    {
      assert after[b] == Enriched(accounts, routes, a, paid, b);
    }
  }

  lemma {:induction false} PlanIsPlanned(accounts: seq<Account>)
    requires AllSolvent(accounts)
    ensures Planned(PlanOf(accounts))
  {
    forall a | 0 <= a < |accounts| && accounts[a].next.Some?
      ensures PartsLeft(accounts[a]) > 0
    {
      PaymentIsOnePart(accounts[a], 0);
    }
  }

  /** All accounts after a pass that goes on from account `c`. */
  ghost function AfterPass(accounts: seq<Account>, routes: Routes, c: Option<nat>, now: nat): (after: seq<Account>)
    requires AllSolvent(accounts) && (c.Some? ==> Waits(PlanOf(accounts), c.value))
    ensures |after| == |accounts|
    decreases Sum(|accounts|, LeftTerm(PlanOf(accounts)))
  {
    var p := PlanOf(accounts);
    if c.None? || !DueIn(p, c.value, now) then accounts
    else
      PaymentInPlan(accounts, routes, c.value);
      OnePartLess(p, c.value);
      AfterPass(AfterPayment(accounts, routes, c.value), routes, Following(p, KeyOf(p, c.value), |p|), now)
  }

  /** One account of the pass is paid, and the pass goes on from the account that followed it. */
  lemma {:induction false} PassGoesOn(accounts: seq<Account>, routes: Routes, a: nat, now: nat)
    requires AllSolvent(accounts) && Waits(PlanOf(accounts), a) && accounts[a].next.value <= now
    ensures var c := Following(PlanOf(accounts), (accounts[a].next.value, a), |accounts|);
      && accounts[a].rate > 0 && AllSolvent(AfterPayment(accounts, routes, a))
      && (c.Some? ==> Waits(PlanOf(AfterPayment(accounts, routes, a)), c.value))
      && AfterPass(AfterPayment(accounts, routes, a), routes, c, now) == AfterPass(accounts, routes, Some(a), now)
  {
    hide Following, AfterPayment, PartsLeft;
    PaymentInPlan(accounts, routes, a);
  }

  lemma {:induction false} PassEnds(accounts: seq<Account>, routes: Routes, c: Option<nat>, now: nat)
    requires AllSolvent(accounts)
    requires (c.Some? ==> Waits(PlanOf(accounts), c.value) && accounts[c.value].next.value > now)
    ensures AfterPass(accounts, routes, c, now) == accounts
  {
  }

  /** What the pass does to the accounts follows their plan. */
  lemma {:induction false} PassFollowsPlan(accounts: seq<Account>, routes: Routes, c: Option<nat>, now: nat)
    requires AllSolvent(accounts) && (c.Some? ==> Waits(PlanOf(accounts), c.value))
    ensures Planned(PlanOf(accounts)) && AllSolvent(AfterPass(accounts, routes, c, now))
    ensures PlanOf(AfterPass(accounts, routes, c, now)) == Pass(PlanOf(accounts), c, now)
    decreases Sum(|accounts|, LeftTerm(PlanOf(accounts)))
  {
    PlanIsPlanned(accounts);
    var p := PlanOf(accounts);
    if c.Some? && DueIn(p, c.value, now) {
      PaymentInPlan(accounts, routes, c.value);
      OnePartLess(p, c.value);
      PassFollowsPlan(AfterPayment(accounts, routes, c.value), routes, Following(p, KeyOf(p, c.value), |p|), now);
    }
  }

  /** An account that is due gets at least one part, one that is not due gets none. */
  lemma {:induction false} DueAccountsArePaid(accounts: seq<Account>, routes: Routes, now: nat)
    requires AllSolvent(accounts)
    ensures var p := PlanOf(accounts); var after := PlanOf(AfterPass(accounts, routes, Following(p, BEGIN, |p|), now));
      && (NothingDue(after, now) <==> Alternating(p, now))
      && forall a :: 0 <= a < |accounts| ==> if DueIn(p, a, now) then after[a].left < p[a].left else after[a] == p[a]
  {
    hide Alternating, Less, Following;
    var p := PlanOf(accounts);
    var c := Following(p, BEGIN, |p|);
    PassFollowsPlan(accounts, routes, c, now);
    NothingDueAfter(p, now);
    forall a | 0 <= a < |accounts|
      ensures var after := Pass(p, c, now); if DueIn(p, a, now) then after[a].left < p[a].left else after[a] == p[a]
    {
      EveryDueAccountIsPaid(p, c, now, a);
      if DueIn(p, a, now) {
        FirstIsFirst(p, a);
      }
    }
  }

  lemma {:induction false} FirstIsFirst(p: Plan, a: nat)
    requires Waits(p, a)
    ensures var c := Following(p, BEGIN, |p|); c.Some? && !Less(KeyOf(p, a), KeyOf(p, c.value))
  {
  }

  lemma {:induction false} RedelegatingKeepsSolvent(accounts: seq<Account>, after: seq<Account>, t: Table,
                                          exps: seq<Expiration>)
    requires AllSolvent(accounts) && SameVests(accounts, after) && Delegated(accounts, t, exps)
    requires forall a :: 0 <= a < |accounts| ==>
      after[a].delegated == accounts[a].delegated && after[a].received == accounts[a].received
    ensures AllSolvent(after) && Delegated(after, t, exps)
  {
  }

  /** Everything but the shares that delegations and redelegations concern is the same before and after. */
  ghost predicate SameVests(accounts: seq<Account>, after: seq<Account>) {
    && |after| == |accounts|
    && forall a :: 0 <= a < |accounts| ==>
         after[a] == accounts[a].(delegated := after[a].delegated, received := after[a].received,
                                  redelegated := after[a].redelegated, rereceived := after[a].rereceived)
  }

  lemma {:induction false} VestsKept(accounts: seq<Account>, after: seq<Account>)
    requires SameVests(accounts, after)
    ensures Sum(|accounts|, VestTerm(after)) == Sum(|accounts|, VestTerm(accounts))
  {
    SumEqual(|accounts|, VestTerm(after), VestTerm(accounts));
  }

  /** What an account can delegate. */
  function Available(a: Account): int {
    a.vests - a.delegated - (a.toWithdraw - a.withdrawn)
  }

  /** Accounts stay solvent as long as none delegates more than it can spare. */
  lemma {:induction false} DelegatingKeepsSolvent(accounts: seq<Account>, after: seq<Account>, x: nat, t: Table,
                                          exps: seq<Expiration>, r: Table)
    requires AllSolvent(accounts) && SameVests(accounts, after) && Delegated(after, t, exps) && Redelegated(accounts, r)
    requires x < |accounts|
    requires forall a :: 0 <= a < |accounts| && a != x ==> after[a].delegated == accounts[a].delegated
    requires forall a :: 0 <= a < |accounts| ==>
      after[a].redelegated == accounts[a].redelegated && after[a].rereceived == accounts[a].rereceived
    requires var d := after[x].delegated - accounts[x].delegated; d <= 0 || d <= Available(accounts[x])
    ensures AllSolvent(after) && Redelegated(after, r)
  {
    RowNotNegative(t, x, |accounts|);
    PendingNotNegative(exps, x);
  }

  function More(exps: seq<Expiration>, back: Option<Expiration>): seq<Expiration> {
    if back.None? then exps else exps + [back.value]
  }

  lemma {:induction false} PendingMore(exps: seq<Expiration>, back: Option<Expiration>, x: nat, n: nat)
    requires forall e :: e in exps ==> e.delegator < n && e.shares >= 0
    requires back.Some? ==> back.value.delegator == x < n && back.value.shares >= 0
    ensures forall a: nat :: Pending(More(exps, back), a) == Pending(exps, a) + if a == x
      && back.Some? then back.value.shares else 0
    ensures forall e :: e in More(exps, back) ==> e.delegator < n && e.shares >= 0
  {
    forall a: nat
      ensures Pending(More(exps, back), a) == Pending(exps, a) + if a == x && back.Some? then back.value.shares else 0
    {
      if back.Some? {
        PendingOne(exps, back.value, a);
      }
    }
  }

  function Set<T>(m: map<(nat, nat), T>, x: nat, y: nat, entry: Option<T>): map<(nat, nat), T> {
    if entry.None? then m - {(x, y)} else m[(x, y) := entry.value]
  }

  function EntryShares(entry: Option<Delegation>): int {
    if entry.None? then 0 else entry.value.shares
  }

  function EntryAmount(entry: Option<Redelegation>): int {
    if entry.None? then 0 else entry.value.amount
  }

  lemma {:induction false} SharesSet(m: map<(nat, nat), Delegation>, x: nat, y: nat, entry: Option<Delegation>)
    ensures OneCell(Shares(m), Shares(Set(m, x, y, entry)), x, y)
    ensures Cell(Shares(Set(m, x, y, entry)), x, y) == EntryShares(entry)
  {
  }

  lemma {:induction false} AmountsSet(m: map<(nat, nat), Redelegation>, x: nat, y: nat, entry: Option<Redelegation>)
    ensures OneCell(Amounts(m), Amounts(Set(m, x, y, entry)), x, y)
    ensures Cell(Amounts(Set(m, x, y, entry)), x, y) == EntryAmount(entry)
  {
  }

  lemma {:induction false} AmountOf(m: map<(nat, nat), Redelegation>, x: nat, y: nat)
    ensures Cell(Amounts(m), x, y) == if (x, y) in m then m[(x, y)].amount else 0
  {
  }

  lemma {:induction false} SharesOf(m: map<(nat, nat), Delegation>, x: nat, y: nat)
    ensures Cell(Shares(m), x, y) == if (x, y) in m then m[(x, y)].shares else 0
  {
  }

  /** The entries of `y` to accounts below `n` follow a delegation that changes from `before` to `now`. */
  function Adjusted(m: Redelegations, y: nat, n: nat, before: int, now: int): Redelegations {
    map k | k in m ::
      if k.0 == y && k.1 < n
      then m[k].(amount := m[k].amount + Part(now, m[k].percent) - Part(before, m[k].percent)) else m[k]
  }

  /** What account `a` has after `x` redelegates `delta` more to `y`. */
  function Redelegating(a: Account, isX: bool, isY: bool, delta: int): Account {
    a.(redelegated := a.redelegated + (if isX then delta else 0), rereceived := a.rereceived + if isY then delta else 0)
  }

  lemma {:induction false} NothingThere(m: map<(nat, nat), Delegation>, n: nat, x: nat, y: nat)
    requires Inside(Shares(m), n) && y >= n
    ensures Cell(Shares(m), x, y) == 0
  {
  }

  function Later(a: nat, b: nat): nat {
    if a >= b then a else b
  }

  /** The expirations that are not due. */
  function Unexpired(exps: seq<Expiration>, now: nat): seq<Expiration> {
    if exps == [] then [] else (if exps[0].at < now then [] else [exps[0]]) + Unexpired(exps[1..], now)
  }

  /** The expirations of account `a` that are due. */
  ghost function DueTerm(exps: seq<Expiration>, a: nat, now: nat): nat -> int {
    (i: nat) => if i < |exps| && exps[i].delegator == a && exps[i].at < now then exps[i].shares else 0
  }

  /** Of the first `j` expirations those that are not due are left, in order. */
  ghost predicate Sifted(exps: seq<Expiration>, j: nat, left: seq<Expiration>, now: nat)
    requires j <= |exps|
  {
    && left + Unexpired(exps[j..], now) == Unexpired(exps, now)
    && forall e :: multiset(left)[e] == if e.at >= now then multiset(exps[..j])[e] else 0
  }

  /** What the first `j` expirations held is free again as far as they are due. */
  ghost predicate Freed(before: seq<Account>, exps: seq<Expiration>, j: nat, after: seq<Account>, now: nat) {
    |after| == |before| && forall a :: 0 <= a < |before| ==>
      after[a] == before[a].(delegated := before[a].delegated - Sum(j, DueTerm(exps, a, now)))
  }

  lemma {:induction false} NothingSifted(accounts: seq<Account>, exps: seq<Expiration>, now: nat)
    ensures Sifted(exps, 0, [], now) && Freed(accounts, exps, 0, accounts, now)
  {
    assert exps[0..] == exps;
  }

  lemma {:induction false} OneMoreSifted(exps: seq<Expiration>, j: nat, left: seq<Expiration>, now: nat)
    requires j < |exps| && Sifted(exps, j, left, now)
    ensures Sifted(exps, j + 1, if exps[j].at < now then left else left + [exps[j]], now)
  {
    assert exps[..j + 1] == exps[..j] + [exps[j]] && exps[j..][1..] == exps[j + 1..];
  }

  /** The shares of an expiration are no longer delegated. */
  function Free(accounts: seq<Account>, e: Expiration): seq<Account>
    requires e.delegator < |accounts|
  {
    accounts[e.delegator := accounts[e.delegator].(delegated := accounts[e.delegator].delegated - e.shares)]
  }

  lemma {:induction false} OneMoreFreed(before: seq<Account>, exps: seq<Expiration>, j: nat, accounts: seq<Account>,
                                        now: nat)
    requires j < |exps| && Freed(before, exps, j, accounts, now)
    requires exps[j].at < now ==> exps[j].delegator < |accounts|
    ensures
      var e := exps[j];
      Freed(before, exps, j + 1, if e.at < now then Free(accounts, e) else accounts, now)
  {
  }

  lemma {:induction false} AllSifted(exps: seq<Expiration>, left: seq<Expiration>, now: nat)
    requires Sifted(exps, |exps|, left, now)
    ensures left == Unexpired(exps, now)
    ensures forall e :: multiset(left)[e] == if e.at >= now then multiset(exps)[e] else 0
  {
    assert exps[..|exps|] == exps && exps[|exps|..] == [];
  }

  lemma {:induction false} AllFreed(before: seq<Account>, exps: seq<Expiration>, after: seq<Account>, now: nat)
    requires Freed(before, exps, |exps|, after, now)
    ensures SameVests(before, after) && forall a :: 0 <= a < |before| ==>
      after[a] == before[a].(delegated := before[a].delegated - Sum(|exps|, DueTerm(exps, a, now)))
  {
    hide Sum;
  }

  lemma {:induction false} PendingSplit(a: seq<Expiration>, b: seq<Expiration>, x: nat)
    ensures Pending(a + b, x) == Pending(a, x) + Pending(b, x)
  {
    if b == [] {
      assert a + b == a;
    } else {
      assert (a + b)[..|a + b| - 1] == a + b[..|b| - 1];
      PendingSplit(a, b[..|b| - 1], x);
    }
  }

  lemma {:induction false} PendingWithout(exps: seq<Expiration>, k: nat, x: nat)
    requires k < |exps|
    ensures Pending(exps[..k] + exps[k + 1..], x) == Pending(exps, x) - if exps[k].delegator ==
      x then exps[k].shares else 0
  {
    assert exps == exps[..k] + [exps[k]] + exps[k + 1..];
    PendingSplit(exps[..k] + [exps[k]], exps[k + 1..], x);
    PendingOne(exps[..k], exps[k], x);
    PendingSplit(exps[..k], exps[k + 1..], x);
  }

  lemma {:induction false} RoutesGrown(routes: Routes, n: nat)
    requires RoutesFit(routes, n) && forall k :: k in routes ==> k.0 < n && k.1 < n
    ensures RoutesFit(routes, n + 1)
  {
    forall a: nat
      ensures Sum(n + 1, PercentTerm(routes, a)) <= HUNDRED_PERCENT
    {
      assert Sum(n, PercentTerm(routes, a)) <= HUNDRED_PERCENT;
      assert PercentTerm(routes, a)(n) == 0;
    }
  }

  class VestingShares {
    var accounts: seq<Account>
    var totalVests: int
    /** By delegator and delegatee. */
    var delegations: map<(nat, nat), Delegation>
    var expirations: seq<Expiration>
    /** By requestor and reporter. */
    var redelegations: map<(nat, nat), Redelegation>
    /** `reward_pct` of stream report requests, by requestor and reporter. */
    var requests: map<(nat, nat), nat>
    var routes: Routes

    ghost predicate Shared()
      reads this
    {
      && Delegated(accounts, Shares(delegations), expirations) && Redelegated(accounts, Amounts(redelegations))
      && forall k :: k in redelegations ==> redelegations[k].percent > 0
    }

    ghost predicate Routed()
      reads this
    {
      RoutesFit(routes, |accounts|) && forall k :: k in routes ==> k.0 < |accounts| && k.1 < |accounts|
    }

    ghost predicate Counted()
      reads this
    {
      totalVests == Sum(|accounts|, VestTerm(accounts))
    }

    ghost predicate Valid()
      reads this
    {
      AllSolvent(accounts) && Shared() && Routed() && Counted()
    }

    constructor (accountCount: nat)
      ensures Valid() && |accounts| == accountCount
    {
      accounts := seq(accountCount, _ => Account(0, 0, 0, 0, 0, 0, 0, 0, None));
      totalVests := 0;
      delegations, expirations, redelegations, requests, routes := map[], [], map[], map[], map[];
      new;
      forall a: nat
        ensures RowSum(Shares(delegations), a, |accounts|) == ColumnSum(Shares(delegations), a, |accounts|) == 0
        ensures RowSum(Amounts(redelegations), a, |accounts|) == ColumnSum(Amounts(redelegations), a, |accounts|) == 0
        ensures Sum(|accounts|, PercentTerm(routes, a)) == 0
      {
        SumZero(|accounts|, RowTerm(Shares(delegations), a));
        SumZero(|accounts|, ColumnTerm(Shares(delegations), a));
        SumZero(|accounts|, RowTerm(Amounts(redelegations), a));
        SumZero(|accounts|, ColumnTerm(Amounts(redelegations), a));
        SumZero(|accounts|, PercentTerm(routes, a));
      }
      SumZero(|accounts|, VestTerm(accounts));
    }

    /** Changes the shares of one account; what is delegated and routed is not concerned. */
    method SetAccount(a: nat, after: Account)
      requires Shared() && Routed() && a < |accounts|
      requires after.delegated == accounts[a].delegated && after.received == accounts[a].received
      requires after.redelegated == accounts[a].redelegated && after.rereceived == accounts[a].rereceived
      modifies this`accounts
      ensures accounts == old(accounts)[a := after] && Shared() && Routed()
      ensures Sum(|accounts|, VestTerm(accounts)) == Sum(|accounts|, VestTerm(old(accounts)))
        + after.vests - old(accounts)[a].vests
      ensures Sum(|accounts|, OwedTerm(accounts)) == Sum(|accounts|, OwedTerm(old(accounts)))
        + after.toWithdraw - after.withdrawn - (old(accounts)[a].toWithdraw - old(accounts)[a].withdrawn)
    {
      hide Delegated, Redelegated, RoutesFit, Shares, Amounts;
      ghost var before := accounts;
      accounts := accounts[a := after];
      SharesKept(before, accounts, Shares(delegations), expirations, Amounts(redelegations));
      SumChange(|accounts|, VestTerm(before), VestTerm(accounts), a);
      SumChange(|accounts|, OwedTerm(before), OwedTerm(accounts), a);
    }

    /** The vests that `create_vesting` adds to an account. */
    method AddVests(a: nat, vests: nat)
      requires Valid() && a < |accounts|
      modifies this`accounts, this`totalVests
      ensures Valid() && accounts == old(accounts)[a := old(accounts)[a].(vests := old(accounts)[a].vests + vests)]
      ensures totalVests == old(totalVests) + vests
    {
      hide Delegated, Redelegated, RoutesFit, Shares, Amounts, Sum, Rate;
      SetAccount(a, accounts[a].(vests := accounts[a].vests + vests));
      totalVests := totalVests + vests;
    }

    /**
     Starts a power-down of `shares`, or ends it for 0.  `minVests` is ten times the account creation
     fee in vests.
     */
    method WithdrawVesting(a: nat, shares: nat, minVests: int, now: nat) returns (ok: bool)
      requires Valid() && a < |accounts|
      modifies this`accounts
      ensures Valid()
      ensures ok <==> var x := old(accounts)[a];
        && x.vests - x.delegated >= shares && x.vests > minVests && x.rate != if shares == 0 then 0 else Rate(shares)
      ensures ok ==> accounts == old(accounts)[a := old(accounts)[a].(withdrawn := 0, toWithdraw := shares,
          rate := if shares == 0 then 0 else Rate(shares), next := if shares == 0 then None
            else Some(now + INTERVAL_SECONDS))]
      ensures !ok ==> accounts == old(accounts)
    {
      hide Delegated, Redelegated, RoutesFit, Shares, Amounts, Sum;
      var x := accounts[a];
      if x.vests - x.delegated < shares || x.vests <= minVests {
        return false;
      }
      if shares == 0 {
        if x.rate == 0 {
          return false;
        }
        SetAccount(a, x.(rate := 0, next := None, toWithdraw := 0, withdrawn := 0));
      } else {
        var rate := shares / INTERVALS;
        if rate == 0 {
          rate := 1;
        }
        if x.rate == rate {
          return false;
        }
        SetAccount(a, x.(rate := rate, next := Some(now + INTERVAL_SECONDS), toWithdraw := shares, withdrawn := 0));
      }
      ok := true;
    }

    /** Sets the part of `from`'s withdrawals that goes to `to`, or removes it for 0. */
    method SetWithdrawVestingRoute(from: nat, to: nat, percent: nat, autoVest: bool) returns (ok: bool)
      requires Valid() && from < |accounts| && to < |accounts| && percent <= HUNDRED_PERCENT
      modifies this`routes
      ensures Valid()
      ensures var after := WithRoute(old(routes), from, to, Route(percent, autoVest));
        && (ok <==> ((from, to) in old(routes) || (percent > 0 && RouteCount(old(routes), from) < MAX_WITHDRAW_ROUTES))
                    && Sum(|accounts|, PercentTerm(after, from)) <= HUNDRED_PERCENT)
        && routes == if ok then after else old(routes)
      ensures ok ==>
        && ((from, to) in routes <==> percent > 0) && (percent > 0 ==> routes[(from, to)] == Route(percent, autoVest))
        && forall k :: k != (from, to) ==>
             (k in routes <==> k in old(routes)) && (k in routes ==> routes[k] == old(routes)[k])
    {
      hide Delegated, Redelegated, Shares, Amounts, AllSolvent, Sum, RoutesFit;
      if (from, to) !in routes && (percent == 0 || RouteCount(routes, from) >= MAX_WITHDRAW_ROUTES) {
        return false;
      }
      var after := if percent == 0 then routes - {(from, to)} else routes[(from, to) := Route(percent, autoVest)];
      hide RouteCount;
      PercentsFitSixteenBits(routes, after, from, to, |accounts|);
      var total := TotalPercent(after, from);
      ok := total <= HUNDRED_PERCENT;
      if ok {
        routes := after;
      }
    }

    /** The sum over all routes behind the one to account id 0, in 16 bits. */
    method TotalPercent(all: Routes, from: nat) returns (total: nat)
      requires forall k :: 0 <= k <= |accounts| ==> 0 <= Sum(k, PercentTerm(all, from)) <= 2 * HUNDRED_PERCENT
      ensures total == Sum(|accounts|, PercentTerm(all, from))
    {
      total := 0;
      if |accounts| == 0 {
        return;
      }
      assert Sum(1, PercentTerm(all, from)) == 0;
      for to := 1 to |accounts|
        invariant total == Sum(to, PercentTerm(all, from))
      {
        assert Sum(to + 1, PercentTerm(all, from)) <= 2 * HUNDRED_PERCENT;
        if (from, to) in all {
          total := (total + all[(from, to)].percent) % 65536;
        }
      }
    }

    /**
     Pays what is due next: first to accounts that get vests, then to those that get BTCM, the rest to `a`
     itself.  `sold` are the vests that others get as BTCM, `rest` those that `a` gets as BTCM.
     */
    method PayOut(a: nat) returns (sold: seq<(nat, int)>, rest: int)
      requires Valid() && a < |accounts| && accounts[a].next.Some?
      modifies this`accounts, this`totalVests
      ensures Valid() && |accounts| == |old(accounts)|
      ensures old(accounts)[a].rate > 0 && accounts == AfterPayment(old(accounts), routes, a)
      ensures forall b :: 0 <= b < |accounts| && b != a ==>
        RoutedTo(old(accounts)[b], accounts[b], routes, a, b, Payment(old(accounts)[a]))
      ensures var paid := Payment(old(accounts)[a]);
        && totalVests == old(totalVests) - paid + Sum(|accounts|, DepositTerm(routes, a, paid, true))
        && sold == RouteDeposits(routes, a, paid, false, |accounts|) && rest >= 0
        && (forall b: nat, d: int ::
             (b, d) in sold <==> b < |accounts| && d == Deposit(routes, a, b, paid, false) && d > 0)
        && rest == paid - Sum(|accounts|, DepositTerm(routes, a, paid, true))
                    - Sum(|accounts|, DepositTerm(routes, a, paid, false))
      ensures Sum(|accounts|, OwedTerm(accounts)) < Sum(|accounts|, OwedTerm(old(accounts)))
    {
      hide Delegated, Redelegated, RoutesFit, Shares, Amounts, Sum, Rate, Payment, RoutedTo, Deposit, RouteDeposits;
      ghost var before := accounts;
      PaymentIsDue(accounts[a]);
      var paid := Payment(accounts[a]);
      var asVests := DepositVests(a, paid);
      var asBtcm;
      asBtcm, sold := DepositBtcm(a, paid);
      SomethingLeft(routes, a, paid, |accounts|);
      var toConvert := paid - asBtcm - asVests;
      assert toConvert >= 0;
      DepositNotNegative(routes, a, a, paid, true);
      PaymentKeepsSolvent(before[a], Deposit(routes, a, a, paid, true));
      SetAccount(a, PaidOut(accounts[a], paid));
      totalVests := totalVests - toConvert;
      rest := toConvert;
      OthersGetVests(before, routes, a);
      DepositsAreListed(routes, a, paid, false, |accounts|);
    }

    method DepositVests(a: nat, paid: nat) returns (deposited: int)
      requires AllSolvent(accounts) && Shared() && Routed() && a < |accounts|
      modifies this`accounts
      ensures AllSolvent(accounts) && Shared() && Routed() && |accounts| == |old(accounts)|
      ensures forall b :: 0 <= b < |accounts| ==> accounts[b] == Enriched(old(accounts), routes, a, paid, b)
      ensures deposited == Sum(|accounts|, DepositTerm(routes, a, paid, true))
      ensures Sum(|accounts|, VestTerm(accounts)) == Sum(|accounts|, VestTerm(old(accounts))) + deposited
      ensures Sum(|accounts|, OwedTerm(accounts)) == Sum(|accounts|, OwedTerm(old(accounts)))
    {
      hide Delegated, Redelegated, RoutesFit, Shares, Amounts, AllSolvent, OwedTerm, VestTerm, Deposit;
      deposited := 0;
      NoRouteToTheFirst(accounts, routes, a, paid);
      for b := 1 to |accounts|
        invariant AllSolvent(accounts) && Shared() && Routed() && |accounts| == |old(accounts)|
        invariant forall c :: 0 <= c < b ==> accounts[c] == Enriched(old(accounts), routes, a, paid, c)
        invariant forall c :: b <= c < |accounts| ==> accounts[c] == old(accounts)[c]
        invariant deposited == Sum(b, DepositTerm(routes, a, paid, true))
        invariant Sum(|accounts|, VestTerm(accounts)) == Sum(|accounts|, VestTerm(old(accounts))) + deposited
        invariant Sum(|accounts|, OwedTerm(accounts)) == Sum(|accounts|, OwedTerm(old(accounts)))
      {
        var deposit := DepositOne(a, b, paid);
        deposited := deposited + deposit;
      }
    }

    /** What one route brings as vests. */
    method DepositOne(a: nat, b: nat, paid: nat) returns (deposit: int)
      requires AllSolvent(accounts) && Shared() && Routed() && a < |accounts| && 0 < b < |accounts|
      modifies this`accounts
      ensures AllSolvent(accounts) && Shared() && Routed() && deposit == Deposit(routes, a, b, paid, true)
      ensures accounts == old(accounts)[b := Enriched(old(accounts), routes, a, paid, b)]
      ensures Sum(|accounts|, VestTerm(accounts)) == Sum(|accounts|, VestTerm(old(accounts))) + deposit
      ensures Sum(|accounts|, OwedTerm(accounts)) == Sum(|accounts|, OwedTerm(old(accounts)))
    {
      hide Delegated, Redelegated, RoutesFit, Shares, Amounts, AllSolvent, OwedTerm, VestTerm, Sum;
      deposit := 0;
      DepositNotNegative(routes, a, b, paid, true);
      if (a, b) in routes && routes[(a, b)].autoVest {
        deposit := paid * routes[(a, b)].percent / HUNDRED_PERCENT;
        RicherIsSolvent(accounts, b, deposit);
        SetAccount(b, accounts[b].(vests := accounts[b].vests + deposit));
      } else {
        assert accounts[b] == Enriched(accounts, routes, a, paid, b);
      }
    }

    /** The vests that other accounts get as BTCM leave the total. */
    method DepositBtcm(a: nat, paid: nat) returns (deposited: int, sold: seq<(nat, int)>)
      requires a < |accounts|
      modifies this`totalVests
      ensures deposited == Sum(|accounts|, DepositTerm(routes, a, paid, false))
      ensures sold == RouteDeposits(routes, a, paid, false, |accounts|)
      ensures totalVests == old(totalVests) - deposited
    {
      deposited, sold := 0, [];
      assert Sum(1, DepositTerm(routes, a, paid, false)) == 0;
      assert RouteDeposits(routes, a, paid, false, 1) == [];
      for b := 1 to |accounts|
        invariant sold == RouteDeposits(routes, a, paid, false, b)
        invariant deposited == Sum(b, DepositTerm(routes, a, paid, false)) && totalVests == old(totalVests) - deposited
      {
        if (a, b) in routes && !routes[(a, b)].autoVest {
          var deposit := paid * routes[(a, b)].percent / HUNDRED_PERCENT;
          deposited := deposited + deposit;
          totalVests := totalVests - deposit;
          if deposit > 0 {
            sold := sold + [(b, deposit)];
          }
        }
      }
    }

    /**
     `process_vesting_withdrawals`: one pass over the index.  Every account that is due gets at least one
     part; afterwards nothing is due any more if and only if the payments that were due alternate.
     */
    method ProcessVestingWithdrawals(now: nat)
      requires Valid()
      modifies this`accounts, this`totalVests
      ensures Valid()
      ensures var p := PlanOf(old(accounts));
        accounts == AfterPass(old(accounts), routes, Following(p, BEGIN, |p|), now)
      ensures NothingDue(PlanOf(accounts), now) <==> Alternating(PlanOf(old(accounts)), now)
      ensures forall a :: 0 <= a < |accounts| ==>
        if DueIn(PlanOf(old(accounts)), a, now) then PartsLeft(accounts[a]) < PartsLeft(old(accounts)[a])
        else PartsLeft(accounts[a]) == PartsLeft(old(accounts)[a]) && accounts[a].next == old(accounts)[a].next
    {
      hide Delegated, Redelegated, RoutesFit, Shares, Amounts, Sum, Rate, Payment, Following, Alternating, Less,
        PartsLeft, AfterPass, AfterPayment, OnePaid, Counted, Routed, Shared, RouteDeposits, DepositTerm;
      DueAccountsArePaid(accounts, routes, now);
      var current := NextInIndex(BEGIN);
      ghost var first := current;
      while current.Some? && accounts[current.value].next.value <= now
        invariant Valid() && |accounts| == |old(accounts)| && (current.Some? ==> Waits(PlanOf(accounts), current.value))
        invariant AfterPass(accounts, routes, current, now) == AfterPass(old(accounts), routes, first, now)
        decreases Sum(|accounts|, OwedTerm(accounts))
      {
        var a := current.value;
        current := NextInIndex((accounts[a].next.value, a));
        OwedNotNegative(accounts);
        PassGoesOn(accounts, routes, a, now);
        var _, _ := PayOut(a);
        OwedNotNegative(accounts);
      }
      PassEnds(accounts, routes, current, now);
    }

    /** The account that follows `after` in the index `by_next_vesting_withdrawal`. */
    method NextInIndex(after: Key) returns (r: Option<nat>)
      ensures r == Following(PlanOf(accounts), after, |accounts|)
    {
      hide PartsLeft, Less;
      r := None;
      for a := 0 to |accounts|
        invariant r == Following(PlanOf(accounts), after, a)
      {
        if accounts[a].next.Some? {
          var key := (accounts[a].next.value, a);
          if Less(after, key) && (r.None? || Less(key, (accounts[r.value].next.value, r.value))) {
            r := Some(a);
          }
        }
      }
    }

    /** Changes what `x` redelegates to `y`. */
    method Redelegate(x: nat, y: nat, entry: Option<Redelegation>)
      requires Valid() && x < |accounts| && y < |accounts| && (entry.Some? ==> entry.value.percent > 0)
      modifies this`accounts, this`redelegations
      ensures Valid() && redelegations == Set(old(redelegations), x, y, entry) && SameVests(old(accounts), accounts)
      ensures forall a :: 0 <= a < |accounts| ==>
        accounts[a] ==
          Redelegating(old(accounts)[a], a == x, a == y, EntryAmount(entry) - Cell(Amounts(old(redelegations)), x, y))
    {
      hide RoutesFit, Amounts, Sum, AllSolvent, Redelegated, OneCell, Delegated, Cell;
      ghost var before, t := accounts, Amounts(redelegations);
      var delta := EntryAmount(entry) - if (x, y) in redelegations then redelegations[(x, y)].amount else 0;
      AmountOf(redelegations, x, y);
      AmountsSet(redelegations, x, y, entry);
      redelegations := Set(redelegations, x, y, entry);
      accounts := accounts[x := accounts[x].(redelegated := accounts[x].redelegated + delta)];
      accounts := accounts[y := accounts[y].(rereceived := accounts[y].rereceived + delta)];
      RedelegatedStep(before, accounts, t, Amounts(redelegations), x, y);
      VestsKept(before, accounts);
      RedelegatingKeepsSolvent(before, accounts, Shares(delegations), expirations);
    }

    /** Passes a changed delegation to `y` on to all that `y` redelegates to. */
    method AdjustRedelegations(y: nat, before: int, now: int)
      requires Valid() && y < |accounts|
      modifies this`accounts, this`redelegations
      ensures Valid() && SameVests(old(accounts), accounts)
      ensures redelegations == Adjusted(old(redelegations), y, |accounts|, before, now)
    {
      hide Delegated, Redelegated, RoutesFit, Sum, Shares, Amounts, AllSolvent;
      for r := 0 to |accounts|
        invariant Valid() && SameVests(old(accounts), accounts)
        invariant redelegations == Adjusted(old(redelegations), y, r, before, now)
      {
        if (y, r) in redelegations {
          var entry := redelegations[(y, r)];
          var delta := Part(now, entry.percent) - Part(before, entry.percent);
          if delta != 0 {
            Redelegate(y, r, Some(entry.(amount := entry.amount + delta)));
          }
        }
      }
    }

    /**
     Changes what `x` delegates to `y`; what comes `back` later stays delegated until then.
     */
    method SetDelegation(x: nat, y: nat, entry: Option<Delegation>, back: Option<Expiration>)
      requires Valid() && x < |accounts| && y < |accounts| && EntryShares(entry) >= 0
      requires back.Some? ==> back.value.delegator == x && back.value.shares >= 0
      requires var d := EntryShares(entry) - Cell(Shares(delegations), x, y)
        + (if back.Some? then back.value.shares else 0);
        d <= 0 || d <= Available(accounts[x])
      modifies this`accounts, this`delegations, this`expirations
      ensures Valid() && delegations == Set(old(delegations), x, y, entry)
      ensures expirations == More(old(expirations), back)
      ensures SameVests(old(accounts), accounts)
    {
      hide RoutesFit, Shares, Sum, AllSolvent, OneCell, Redelegated, Available, Pending, More, RowSum, ColumnSum;
      ghost var before, t, exps := accounts, Shares(delegations), expirations;
      var delta := EntryShares(entry) - if (x, y) in delegations then delegations[(x, y)].shares else 0;
      var pending := if back.Some? then back.value.shares else 0;
      SharesOf(delegations, x, y);
      SharesSet(delegations, x, y, entry);
      PendingMore(expirations, back, x, |accounts|);
      delegations := Set(delegations, x, y, entry);
      expirations := More(expirations, back);
      accounts := accounts[x := accounts[x].(delegated := accounts[x].delegated + delta + pending)];
      accounts := accounts[y := accounts[y].(received := accounts[y].received + delta)];
      DelegatedStep(before, accounts, t, Shares(delegations), exps, expirations, x, y, pending);
      DelegatingKeepsSolvent(before, accounts, x, Shares(delegations), expirations, Amounts(redelegations));
      VestsKept(before, accounts);
    }

    method DelegateVestingShares(x: nat, y: nat, shares: int, now: nat, minDelegation: int, minUpdate: int,
                                 returnPeriod: nat) returns (ok: bool)
      requires Valid() && x < |accounts| && y < |accounts|
      modifies this`accounts, this`delegations, this`expirations, this`redelegations
      ensures Valid() && SameVests(old(accounts), accounts)
      ensures var before := if (x, y) in old(delegations) then Some(old(delegations)[(x, y)]) else None;
        && ok == (x != y && shares >= 0
                  && if before.None? then Available(old(accounts)[x]) >= shares >= minDelegation
                     else if shares >= before.value.shares then
                       Available(old(accounts)[x]) >= shares - before.value.shares >= minUpdate
                     else shares == 0 || (before.value.shares - shares >= minUpdate && shares >= minDelegation))
        && (ok ==> delegations == Set(old(delegations), x, y,
              if before.Some? && shares == 0 < before.value.shares then None
              else Some(Delegation(shares, if before.Some? then before.value.minTime else now))))
        && (ok ==> expirations == More(old(expirations),
              if before.Some? && shares < before.value.shares
              then Some(Expiration(x, before.value.shares - shares, Later(now + returnPeriod, before.value.minTime)))
                else None))
        && (ok && before.Some? && shares < before.value.shares ==>
             |expirations| == |old(expirations)| + 1 && var back := expirations[|old(expirations)|];
             && back.delegator == x && back.shares == before.value.shares - shares
             && back.at >= now + returnPeriod && back.at >= before.value.minTime
             && back.at in {now + returnPeriod, before.value.minTime})
        && (ok ==> redelegations == if EntryShares(before) == shares then old(redelegations)
              else Adjusted(old(redelegations), y, |accounts|, EntryShares(before), shares))
      ensures !ok ==>
        accounts == old(accounts) && delegations == old(delegations) && expirations == old(expirations)
          && redelegations == old(redelegations)
    {
      hide Delegated, Redelegated, RoutesFit, Shares, Amounts, Sum, AllSolvent, Part;
      if x == y || shares < 0 {
        return false;
      }
      SharesOf(delegations, x, y);
      var available := Available(accounts[x]);
      var before := 0;
      if (x, y) !in delegations {
        if available < shares || shares < minDelegation {
          return false;
        }
        SetDelegation(x, y, Some(Delegation(shares, now)), None);
      } else {
        before := delegations[(x, y)].shares;
        var minTime := delegations[(x, y)].minTime;
        if shares >= before {
          if shares - before < minUpdate || available < shares - before {
            return false;
          }
          SetDelegation(x, y, Some(Delegation(shares, minTime)), None);
        } else {
          if shares > 0 && (before - shares < minUpdate || shares < minDelegation) {
            return false;
          }
          SetDelegation(x, y, if shares > 0 then Some(Delegation(shares, minTime)) else None,
                        Some(Expiration(x, before - shares, Later(now + returnPeriod, minTime))));
        }
      }
      if before != shares {
        AdjustRedelegations(y, before, shares);
      }
      ok := true;
    }

    method AddAccount()
      requires Valid()
      modifies this`accounts
      ensures Valid() && accounts == old(accounts) + [Account(0, 0, 0, 0, 0, 0, 0, 0, None)]
    {
      hide Delegated, Redelegated, RoutesFit, Shares, Amounts;
      var added := Account(0, 0, 0, 0, 0, 0, 0, 0, None);
      ghost var before := accounts;
      AccountAdded(accounts, added, Shares(delegations), expirations, Amounts(redelegations));
      RoutesGrown(routes, |accounts|);
      accounts := accounts + [added];
      SumEqual(|before|, VestTerm(before), VestTerm(accounts));
    }

    /**
     Creates an account that starts with shares of its creator, which can be taken back after 30 days.
     `feeVests` is what the fee makes as vests; `accepted` stands for the checks of fee and amount.
     */
    method AccountCreateWithDelegation(creator: nat, shares: nat, feeVests: nat, now: nat,
                                       accepted: bool) returns (ok: bool)
      requires Valid() && creator < |accounts|
      modifies this`accounts, this`delegations, this`expirations, this`totalVests
      ensures Valid() && ok == (accepted && Available(old(accounts)[creator]) >= shares)
      ensures !ok ==> accounts == old(accounts) && delegations == old(delegations) && totalVests == old(totalVests)
      ensures ok ==> |accounts| == |old(accounts)| + 1 && totalVests == old(totalVests) + feeVests
      ensures ok ==> delegations == if shares == 0 then old(delegations)
        else Set(old(delegations), creator, |old(accounts)|,
          Some(Delegation(shares, now + CREATE_ACCOUNT_DELEGATION_TIME)))
      ensures ok ==> SameVests(old(accounts) + [Account(feeVests, 0, 0, 0, 0, 0, 0, 0, None)], accounts)
      ensures expirations == old(expirations)
    {
      hide RoutesFit, Shares, Amounts, Sum, AllSolvent, RowSum, ColumnSum, Rate;
      if !accepted || Available(accounts[creator]) < shares {
        return false;
      }
      var created := |accounts|;
      SharesOf(delegations, creator, created);
      NothingThere(delegations, |accounts|, creator, created);
      AddAccount();
      if shares > 0 {
        SetDelegation(creator, created, Some(Delegation(shares, now + CREATE_ACCOUNT_DELEGATION_TIME)), None);
      }
      if feeVests > 0 {
        AddVests(created, feeVests);
      }
      ok := true;
    }

    /** One delegation that was taken back becomes free. */
    method ReturnDelegation(k: nat)
      requires Valid() && k < |expirations|
      modifies this`accounts, this`expirations
      ensures Valid() && expirations == old(expirations)[..k] + old(expirations)[k + 1..]
      ensures SameVests(old(accounts), accounts)
      ensures old(expirations)[k].delegator < |accounts| == |old(accounts)|
      ensures accounts == Free(old(accounts), old(expirations)[k])
    {
      hide RoutesFit, Shares, Sum, AllSolvent, Redelegated, Available, Pending, RowSum, ColumnSum;
      ghost var before, t, exps := accounts, Shares(delegations), expirations;
      var e := expirations[k];
      assert e in expirations;
      var x := accounts[e.delegator];
      accounts := accounts[e.delegator := x.(delegated := x.delegated - e.shares)];
      expirations := expirations[..k] + expirations[k + 1..];
      forall a: nat
        ensures Pending(expirations, a) == Pending(exps, a) + if a == e.delegator then -e.shares else 0
      {
        PendingWithout(exps, k, a);
      }
      assert forall x :: x in expirations ==> x in exps;
      DelegatedStep(before, accounts, t, t, exps, expirations, e.delegator, e.delegator, -e.shares);
      DelegatingKeepsSolvent(before, accounts, e.delegator, t, expirations, Amounts(redelegations));
      VestsKept(before, accounts);
    }

    /** `clear_expired_delegations`: exactly the expirations that are due go, and their shares are free again. */
    method ClearExpiredDelegations(now: nat)
      requires Valid()
      modifies this`accounts, this`expirations
      ensures Valid() && expirations == Unexpired(old(expirations), now) && SameVests(old(accounts), accounts)
      ensures forall e :: multiset(expirations)[e] == if e.at >= now then multiset(old(expirations))[e] else 0
      ensures forall a :: 0 <= a < |accounts| ==> accounts[a] == old(accounts)[a].(delegated :=
          old(accounts)[a].delegated - Sum(|old(expirations)|, DueTerm(old(expirations), a, now)))
    {
      hide Delegated, Redelegated, RoutesFit, Shares, Amounts, AllSolvent, Sifted, Freed, Unexpired, SameVests;
      var k := 0;
      ghost var j, start := 0, expirations;
      NothingSifted(accounts, start, now);
      while k < |expirations|
        invariant Valid() && k <= |expirations| && |accounts| == |old(accounts)|
        invariant j <= |start| && expirations[k..] == start[j..]
        invariant Sifted(start, j, expirations[..k], now) && Freed(old(accounts), start, j, accounts, now)
        decreases |expirations| - k
      {
        ghost var exps, funds := expirations, accounts;
        assert exps[k] == exps[k..][0] == start[j] && exps[k] in exps;
        assert exps[k + 1..] == exps[k..][1..] == start[j + 1..];
        OneMoreSifted(start, j, exps[..k], now);
        if expirations[k].at < now {
          ReturnDelegation(k);
          assert expirations[k..] == exps[k + 1..] && expirations[..k] == exps[..k];
        } else {
          assert exps[..k + 1] == exps[..k] + [exps[k]];
          k := k + 1;
        }
        OneMoreFreed(old(accounts), start, j, funds, now);
        j := j + 1;
      }
      assert expirations[..k] == expirations && j == |start|;
      AllSifted(start, expirations, now);
      AllFreed(old(accounts), start, accounts, now);
    }

    /** What `x` redelegates already, checked against 100%: the change for `y` and its percentage so far. */
    method SumUpRedelegations(x: nat, y: nat, percent: nat) returns (ok: bool, delta: int, previous: nat)
      requires x < |accounts| && y < |accounts| && percent <= HUNDRED_PERCENT
      ensures ok == (Sum(|accounts|, AskedTerm(redelegations, x, y, percent)) <= HUNDRED_PERCENT)
      ensures ok ==> previous == PercentOf(redelegations, x, y)
      ensures ok ==>
        delta ==
          Part(accounts[x].received, percent) - if (x, y) in redelegations then redelegations[(x, y)].amount else 0
    {
      hide Part;
      var redelegated := Part(accounts[x].received, percent);
      var totalPercent := 0;
      delta, previous := redelegated, 0;
      for r := 0 to |accounts|
        invariant delta == if y < r && (x, y) in redelegations then redelegated - redelegations[(x, y)].amount
          else redelegated
        invariant previous == if y < r then PercentOf(redelegations, x, y) else 0
        invariant totalPercent == Sum(r, AskedTerm(redelegations, x, y, percent)) <= HUNDRED_PERCENT
      {
        if (x, r) in redelegations {
          if r == y {
            previous, totalPercent, delta := redelegations[(x, r)].percent, totalPercent + percent,
              redelegated - redelegations[(x, r)].amount;
          } else {
            totalPercent := totalPercent + redelegations[(x, r)].percent;
          }
          if totalPercent > HUNDRED_PERCENT {
            PartialSum(AskedTerm(redelegations, x, y, percent), r + 1, |accounts|);
            return false, delta, previous;
          }
        }
      }
      ok := true;
    }

    /** `x` asks `y` to report for it and passes on `percent` of what it received, besides a part of the rewards. */
    method RequestStreamReporting(x: nat, y: nat, rewardPercent: nat, percent: nat) returns (ok: bool)
      requires Valid() && x < |accounts| && y < |accounts| && x != y && rewardPercent <= HUNDRED_PERCENT
      requires percent <= HUNDRED_PERCENT
      modifies this`accounts, this`redelegations, this`requests
      ensures Valid() && SameVests(old(accounts), accounts)
      ensures ok == (Sum(|accounts|, AskedTerm(old(redelegations), x, y, percent)) <= HUNDRED_PERCENT
                     && !RequestedAlready(old(requests), old(redelegations), x, y, rewardPercent, percent))
      ensures ok ==> requests == old(requests)[(x, y) := rewardPercent]
      ensures ok ==> redelegations == Set(old(redelegations), x, y,
        if percent == 0 then None else Some(Redelegation(percent, Part(old(accounts)[x].received, percent))))
      ensures !ok ==> accounts == old(accounts) && redelegations == old(redelegations) && requests == old(requests)
    {
      hide Delegated, Redelegated, RoutesFit, Shares, Amounts, Sum, AllSolvent, AskedTerm;
      var delta, previous;
      ok, delta, previous := SumUpRedelegations(x, y, percent);
      if !ok || ((x, y) in requests && requests[(x, y)] == rewardPercent && percent == previous) {
        return false;
      }
      requests := requests[(x, y) := rewardPercent];
      if delta != 0 || percent > 0 || ((x, y) in redelegations && redelegations[(x, y)].percent != percent) {
        var amount := (if (x, y) in redelegations then redelegations[(x, y)].amount else 0) + delta;
        if percent == 0 {
          assert amount == 0;
          Redelegate(x, y, None);
        } else {
          Redelegate(x, y, Some(Redelegation(percent, amount)));
        }
      } else {
        assert (x, y) !in redelegations;
        assert redelegations - {(x, y)} == redelegations;
      }
    }

    method CancelStreamReporting(x: nat, y: nat) returns (ok: bool)
      requires Valid() && x < |accounts| && y < |accounts| && x != y
      modifies this`accounts, this`redelegations, this`requests
      ensures Valid() && SameVests(old(accounts), accounts)
      ensures ok == ((x, y) in old(requests)) && requests == old(requests) - {(x, y)}
      ensures redelegations == if ok then Set(old(redelegations), x, y, None) else old(redelegations)
      ensures !ok ==> accounts == old(accounts)
    {
      hide Delegated, Redelegated, RoutesFit, Shares, Amounts, Sum, AllSolvent;
      ok := (x, y) in requests;
      if ok {
        requests := requests - {(x, y)};
        if (x, y) in redelegations {
          Redelegate(x, y, None);
        }
      }
    }
  }
}

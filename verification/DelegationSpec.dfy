/**
 Delegated and redelegated shares against the tables of delegations.
 */
module DelegationSpec {
  import opened Sums
  import opened Tables
  import opened VestingSpec

  datatype Delegation = Delegation(shares: int, minTime: nat)
  datatype Expiration = Expiration(delegator: nat, shares: int, at: nat)
  datatype Redelegation = Redelegation(percent: nat, amount: int)

  type Redelegations = map<(nat, nat), Redelegation>

  /** The part of a delegation that is passed on. */
  function Part(shares: int, percent: nat): int {
    shares * percent / HUNDRED_PERCENT
  }

  function Shares(m: map<(nat, nat), Delegation>): Table {
    map k | k in m :: m[k].shares
  }

  function Amounts(m: map<(nat, nat), Redelegation>): Table {
    map k | k in m :: m[k].amount
  }

  function PercentOf(m: map<(nat, nat), Redelegation>, x: nat, y: nat): nat {
    if (x, y) in m then m[(x, y)].percent else 0
  }

  /**
   What counts towards 100% when `x` is to redelegate `percent` to `y`: the new percentage only if
   `y` has one already.
   */
  ghost function AskedTerm(m: map<(nat, nat), Redelegation>, x: nat, y: nat, percent: nat): nat -> int {
    (r: nat) => if (x, r) !in m then 0 else if r == y then percent else PercentOf(m, x, r)
  }

  ghost function PercentsFrom(m: map<(nat, nat), Redelegation>, x: nat): nat -> int {
    (r: nat) => PercentOf(m, x, r)
  }

  /**
   The check keeps redelegations within 100% for a reporter that has one already; a new one's
   percentage escapes it.
   */
  lemma {:induction false} CheckedAgainstTotal(m: map<(nat, nat), Redelegation>, x: nat, y: nat, percent: nat,
                                          amount: int, n: nat)
    requires y < n
    ensures var after := if percent == 0 then m - {(x, y)} else m[(x, y) := Redelegation(percent, amount)];
      Sum(n, PercentsFrom(after, x)) == Sum(n, AskedTerm(m, x, y, percent)) + if (x, y) in m then 0 else percent
  {
    var after := if percent == 0 then m - {(x, y)} else m[(x, y) := Redelegation(percent, amount)];
    SumChange(n, AskedTerm(m, x, y, percent), PercentsFrom(after, x), y);
  }

  /** Two reporters with 100% each pass the check. */
  lemma {:induction false} TwoFullRedelegations()
    ensures exists m: map<(nat, nat), Redelegation> ::
      && Sum(3, PercentsFrom(m, 0)) <= HUNDRED_PERCENT && Sum(3, AskedTerm(m, 0, 2, HUNDRED_PERCENT)) <= HUNDRED_PERCENT
      && Sum(3, PercentsFrom(m[(0, 2) := Redelegation(HUNDRED_PERCENT, 7)], 0)) == 2 * HUNDRED_PERCENT
  {
    var m: map<(nat, nat), Redelegation> := map[(0, 1) := Redelegation(HUNDRED_PERCENT, 7)];
    CheckedAgainstTotal(m, 0, 2, HUNDRED_PERCENT, 7, 3);
    var f, g := PercentsFrom(m, 0), AskedTerm(m, 0, 2, HUNDRED_PERCENT);
    assert f(0) == f(2) == g(0) == g(2) == 0 && f(1) == g(1) == HUNDRED_PERCENT;
    assert Sum(2, f) == Sum(2, g) == HUNDRED_PERCENT;
  }

  /** The same request is there already. */
  predicate RequestedAlready(requests: map<(nat, nat), nat>, m: map<(nat, nat), Redelegation>, x: nat, y: nat,
                             reward: nat, percent: nat) {
    (x, y) in requests && requests[(x, y)] == reward && percent == PercentOf(m, x, y)
  }

  /** The shares of `a` that are on their way back to it. */
  ghost function Pending(exps: seq<Expiration>, a: nat): int {
    if exps == [] then 0
    else Pending(exps[..|exps| - 1], a) + if exps[|exps| - 1].delegator == a then exps[|exps| - 1].shares else 0
  }

  lemma {:induction false} PendingOne(exps: seq<Expiration>, e: Expiration, a: nat)
    ensures Pending(exps + [e], a) == Pending(exps, a) + if e.delegator == a then e.shares else 0
  {
    assert (exps + [e])[..|exps|] == exps;
  }

  /** Every account's delegated and received shares are what the delegations and expirations say. */
  ghost predicate Delegated(accounts: seq<Account>, t: Table, exps: seq<Expiration>) {
    && Inside(t, |accounts|) && (forall x: nat, y: nat :: Cell(t, x, y) >= 0)
    && (forall e :: e in exps ==> e.delegator < |accounts| && e.shares >= 0)
    && (forall a :: 0 <= a < |accounts| ==> accounts[a].delegated == RowSum(t, a, |accounts|) + Pending(exps, a))
    && (forall a :: 0 <= a < |accounts| ==> accounts[a].received == ColumnSum(t, a, |accounts|))
  }

  ghost predicate Redelegated(accounts: seq<Account>, t: Table) {
    && Inside(t, |accounts|)
    && (forall a :: 0 <= a < |accounts| ==> accounts[a].redelegated == RowSum(t, a, |accounts|))
    && (forall a :: 0 <= a < |accounts| ==> accounts[a].rereceived == ColumnSum(t, a, |accounts|))
  }

  /** What happens to one delegation happens to the shares of both sides; what expires later stays delegated. */
  lemma {:induction false} DelegatedStep(accounts: seq<Account>, after: seq<Account>, t: Table, t': Table,
                                         exps: seq<Expiration>, exps': seq<Expiration>, x: nat, y: nat, pending: int)
    requires Delegated(accounts, t, exps) && |after| == |accounts| && x < |accounts| && y < |accounts|
    requires OneCell(t, t', x, y) && Cell(t', x, y) >= 0
    requires forall e :: e in exps' ==> e.delegator < |accounts| && e.shares >= 0
    requires forall a: nat :: Pending(exps', a) == Pending(exps, a) + if a == x then pending else 0
    requires forall a :: 0 <= a < |accounts| ==>
      after[a].delegated == accounts[a].delegated + if a == x then Cell(t', x, y) - Cell(t, x, y) + pending else 0
    requires forall a :: 0 <= a < |accounts| ==>
      after[a].received == accounts[a].received + if a == y then Cell(t', x, y) - Cell(t, x, y) else 0
    ensures Delegated(after, t', exps')
  {
    CellChanged(t, t', x, y, |accounts|);
  }

  lemma {:induction false} RedelegatedStep(accounts: seq<Account>, after: seq<Account>, t: Table, t': Table,
                                          x: nat, y: nat)
    requires Redelegated(accounts, t) && |after| == |accounts| && x < |accounts| && y < |accounts|
    requires OneCell(t, t', x, y)
    requires forall a :: 0 <= a < |accounts| ==>
      after[a].redelegated == accounts[a].redelegated + if a == x then Cell(t', x, y) - Cell(t, x, y) else 0
    requires forall a :: 0 <= a < |accounts| ==>
      after[a].rereceived == accounts[a].rereceived + if a == y then Cell(t', x, y) - Cell(t, x, y) else 0
    ensures Redelegated(after, t')
  {
    CellChanged(t, t', x, y, |accounts|);
  }

  /** The shares that delegations concern are the same before and after. */
  ghost predicate SameShares(accounts: seq<Account>, after: seq<Account>) {
    && |after| == |accounts|
    && forall a :: 0 <= a < |accounts| ==>
         && after[a].delegated == accounts[a].delegated && after[a].received == accounts[a].received
         && after[a].redelegated == accounts[a].redelegated && after[a].rereceived == accounts[a].rereceived
  }

  lemma {:induction false} SharesKept(accounts: seq<Account>, after: seq<Account>, t: Table, exps: seq<Expiration>,
                                      r: Table)
    requires SameShares(accounts, after) && Delegated(accounts, t, exps) && Redelegated(accounts, r)
    ensures Delegated(after, t, exps) && Redelegated(after, r)
  {
  }

  /** A new account without shares of others. */
  lemma {:induction false} AccountAdded(accounts: seq<Account>, a: Account, t: Table, exps: seq<Expiration>, r: Table)
    requires Delegated(accounts, t, exps) && Redelegated(accounts, r)
    requires a.delegated == a.received == a.redelegated == a.rereceived == 0
    ensures Delegated(accounts + [a], t, exps) && Redelegated(accounts + [a], r)
  {
    Grown(t, |accounts|);
    Grown(r, |accounts|);
    NobodysPending(exps, |accounts|);
  }

  lemma {:induction false} NobodysPending(exps: seq<Expiration>, n: nat)
    requires forall e :: e in exps ==> e.delegator < n
    ensures Pending(exps, n) == 0
  {
    if exps != [] {
      assert exps[|exps| - 1] in exps;
      NobodysPending(exps[..|exps| - 1], n);
    }
  }

  lemma {:induction false} PendingNotNegative(exps: seq<Expiration>, a: nat)
    requires forall e :: e in exps ==> e.shares >= 0
    ensures Pending(exps, a) >= 0
  {
    if exps != [] {
      assert exps[|exps| - 1] in exps;
      PendingNotNegative(exps[..|exps| - 1], a);
    }
  }

  /** `get_effective_vesting_shares`. */
  function Effective(a: Account): int {
    a.vests - a.delegated + a.received - a.redelegated + a.rereceived
  }

  ghost function EffectiveTerm(accounts: seq<Account>): nat -> int {
    (a: nat) => if a < |accounts| then Effective(accounts[a]) else 0
  }

  ghost function VestTerm(accounts: seq<Account>): nat -> int {
    (a: nat) => if a < |accounts| then accounts[a].vests else 0
  }

  ghost function PendingTerm(exps: seq<Expiration>): nat -> int {
    (a: nat) => Pending(exps, a)
  }

  ghost function AllPending(exps: seq<Expiration>): int {
    if exps == [] then 0 else AllPending(exps[..|exps| - 1]) + exps[|exps| - 1].shares
  }

  lemma {:induction false} PendingOfAll(exps: seq<Expiration>, n: nat)
    requires forall e :: e in exps ==> e.delegator < n
    ensures Sum(n, PendingTerm(exps)) == AllPending(exps)
  {
    if exps == [] {
      SumZero(n, PendingTerm(exps));
    } else {
      var b, e := exps[..|exps| - 1], exps[|exps| - 1];
      assert e in exps;
      PendingOfAll(b, n);
      SumChange(n, PendingTerm(b), PendingTerm(exps), e.delegator);
    }
  }

  ghost function Effectives(accounts: seq<Account>, t: Table, r: Table): (nat -> int, nat -> int, nat -> int) {
    var n := |accounts|;
    ((a: nat) => VestTerm(accounts)(a) + ColumnsTerm(t, n)(a),
     (a: nat) => VestTerm(accounts)(a) + ColumnsTerm(t, n)(a) + ColumnsTerm(r, n)(a),
     (a: nat) => RowsTerm(t, n)(a) + RowsTerm(r, n)(a))
  }

  /**
   Delegating moves shares without losing any: together all accounts can use all vests but those on
   their way back.
   */
  lemma {:induction false} EffectiveSharesAreVests(accounts: seq<Account>, t: Table, exps: seq<Expiration>, r: Table)
    requires Delegated(accounts, t, exps) && Redelegated(accounts, r)
    ensures Sum(|accounts|, EffectiveTerm(accounts)) == Sum(|accounts|, VestTerm(accounts)) - AllPending(exps)
  {
    var n := |accounts|;
    var (first, plus, minus) := Effectives(accounts, t, r);
    var minusAll, together := (a: nat) => minus(a) + PendingTerm(exps)(a),
      (a: nat) => EffectiveTerm(accounts)(a) + (minus(a) + PendingTerm(exps)(a));
    SumAdd(n, VestTerm(accounts), ColumnsTerm(t, n), first);
    SumAdd(n, first, ColumnsTerm(r, n), plus);
    SumAdd(n, RowsTerm(t, n), RowsTerm(r, n), minus);
    SumAdd(n, minus, PendingTerm(exps), minusAll);
    SumAdd(n, EffectiveTerm(accounts), minusAll, together);
    SumEqual(n, together, plus);
    RowsAreColumns(t, n);
    RowsAreColumns(r, n);
    PendingOfAll(exps, n);
  }
}

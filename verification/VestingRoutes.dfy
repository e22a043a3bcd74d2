/**
 Routes that split what is paid out of a power-down among accounts.
 */
module VestingRoutes {
  import opened Sums
  import opened Rounding
  import opened VestingSpec

  datatype Route = Route(percent: nat, autoVest: bool)

  type Routes = map<(nat, nat), Route>

  const MAX_WITHDRAW_ROUTES := 10

  /**
   Whether the route from `a` to `b` takes part in checks and payments.  Both look for routes after the
   one to account id 0, so that one is passed over in both.
   */
  predicate Used(routes: Routes, a: nat, b: nat) {
    b > 0 && (a, b) in routes
  }

  ghost function PercentTerm(routes: Routes, a: nat): nat -> int {
    (b: nat) => if Used(routes, a, b) then routes[(a, b)].percent else 0
  }

  /** How many routes lead away from `a`: the counter `withdraw_routes`. */
  function RouteCount(routes: Routes, a: nat): nat {
    |set k | k in routes && k.0 == a|
  }

  /** The routes with that from `a` to `b` set, or removed for 0%. */
  function WithRoute(routes: Routes, a: nat, b: nat, route: Route): Routes {
    if route.percent == 0 then routes - {(a, b)} else routes[(a, b) := route]
  }

  /** What account `b` gets when `a` pays out `amount`, of the one kind of routes or the other. */
  function Deposit(routes: Routes, a: nat, b: nat, amount: int, autoVest: bool): int {
    if Used(routes, a, b)
      && routes[(a, b)].autoVest == autoVest then amount * routes[(a, b)].percent / HUNDRED_PERCENT else 0
  }

  /** What the routes to the first `n` accounts bring of one kind, in their order. */
  function RouteDeposits(routes: Routes, a: nat, amount: int, autoVest: bool, n: nat): seq<(nat, int)> {
    if n == 0 then []
    else
      var d := Deposit(routes, a, n - 1, amount, autoVest);
      RouteDeposits(routes, a, amount, autoVest, n - 1) + if d > 0 then [(n - 1, d)] else []
  }

  /** Exactly the accounts with a route of that kind are listed, each once with its share, by their ids. */
  lemma {:induction false} DepositsAreListed(routes: Routes, a: nat, amount: int, autoVest: bool, n: nat)
    ensures var list := RouteDeposits(routes, a, amount, autoVest, n);
      && (forall b: nat, d: int :: (b, d) in list <==> b < n && d == Deposit(routes, a, b, amount, autoVest) && d > 0)
      && forall i, j :: 0 <= i < j < |list| ==> list[i].0 < list[j].0
  {
    hide Deposit;
    if n > 0 {
      DepositsAreListed(routes, a, amount, autoVest, n - 1);
      var d := Deposit(routes, a, n - 1, amount, autoVest);
      var before := RouteDeposits(routes, a, amount, autoVest, n - 1);
      forall i | 0 <= i < |before|
        ensures before[i].0 < n - 1
      {
        var b: nat, e := before[i].0, before[i].1;
        assert before[i] == (b, e) && (b, e) in before;
      }
    }
  }

  ghost function DepositTerm(routes: Routes, a: nat, amount: int, autoVest: bool): nat -> int {
    (b: nat) => Deposit(routes, a, b, amount, autoVest)
  }

  /** The percentages of all routes, also of the one to account id 0. */
  ghost function AllPercentTerm(routes: Routes, a: nat): nat -> int {
    (b: nat) => if (a, b) in routes then routes[(a, b)].percent else 0
  }

  /**
   A route gets its share of a part if and only if it does not lead to account id 0, or the share
   rounds to nothing.
   */
  lemma {:induction false} ShareIsPaid(routes: Routes, a: nat, b: nat, amount: int)
    requires (a, b) in routes && amount >= 0
    ensures var route := routes[(a, b)];
      Deposit(routes, a, b, amount, route.autoVest) == amount * route.percent / HUNDRED_PERCENT
      <==> b > 0 || amount * route.percent / HUNDRED_PERCENT == 0
  {
  }

  /** The check adds up everything but the percentage of the route to account id 0. */
  lemma {:induction false} CheckedPercents(routes: Routes, a: nat, n: nat)
    requires n > 0
    ensures Sum(n, AllPercentTerm(routes, a)) == Sum(n, PercentTerm(routes, a)) + AllPercentTerm(routes, a)(0)
  {
    SumChange(n, PercentTerm(routes, a), AllPercentTerm(routes, a), 0);
  }

  /** Two routes of 60% pass the check if one of them leads to account id 0. */
  lemma {:induction false} RoutesBeyondAll()
    ensures exists routes: Routes :: RoutesFit(routes, 3) && Sum(3, AllPercentTerm(routes, 1)) == 12000
  {
    var routes: Routes := map[(1, 0) := Route(6000, true), (1, 2) := Route(6000, true)];
    forall a: nat
      ensures Sum(3, PercentTerm(routes, a)) == if a == 1 then 6000 else 0
    {
      var f := PercentTerm(routes, a);
      assert f(0) == f(1) == 0 && f(2) == if a == 1 then 6000 else 0;
      assert Sum(2, f) == 0;
    }
    CheckedPercents(routes, 1, 3);
  }

  /** No account sends away more than it pays out. */
  ghost predicate RoutesFit(routes: Routes, n: nat) {
    forall a: nat :: Sum(n, PercentTerm(routes, a)) <= HUNDRED_PERCENT
  }

  lemma {:induction false} OneDepositScaled(routes: Routes, a: nat, b: nat, amount: int)
    requires amount >= 0
    ensures (Deposit(routes, a, b, amount, true)
      + Deposit(routes, a, b, amount, false)) * HUNDRED_PERCENT <= amount * PercentTerm(routes, a)(b)
  {
    if Used(routes, a, b) {
      DivisionBounds(amount * routes[(a, b)].percent, HUNDRED_PERCENT);
    }
  }

  lemma {:induction false} DepositsScaled(routes: Routes, a: nat, amount: int, n: nat)
    requires amount >= 0
    ensures (Sum(n, DepositTerm(routes, a, amount, true))
      + Sum(n, DepositTerm(routes, a, amount, false))) * HUNDRED_PERCENT
      <= amount * Sum(n, PercentTerm(routes, a))
  {
    if n > 0 {
      hide Deposit, PercentTerm;
      DepositsScaled(routes, a, amount, n - 1);
      OneDepositScaled(routes, a, n - 1, amount);
      Distribute(amount, Sum(n - 1, PercentTerm(routes, a)), PercentTerm(routes, a)(n - 1));
    }
  }

  lemma {:induction false} DepositNotNegative(routes: Routes, a: nat, b: nat, amount: int, autoVest: bool)
    requires amount >= 0
    ensures Deposit(routes, a, b, amount, autoVest) >= 0
  {
    if Used(routes, a, b) {
      DivisionMonotone(0, amount * routes[(a, b)].percent, HUNDRED_PERCENT);
    }
  }

  /** With routes that fit, the assertion that something is left to convert holds. */
  lemma {:induction false} SomethingLeft(routes: Routes, a: nat, amount: int, n: nat)
    requires amount >= 0 && RoutesFit(routes, n)
    ensures amount - Sum(n, DepositTerm(routes, a, amount, true)) - Sum(n, DepositTerm(routes, a, amount, false)) >= 0
  {
    var all := Sum(n, DepositTerm(routes, a, amount, true)) + Sum(n, DepositTerm(routes, a, amount, false));
    DepositsScaled(routes, a, amount, n);
    Scale(Sum(n, PercentTerm(routes, a)), HUNDRED_PERCENT, amount);
    ProductOrder(all, amount, HUNDRED_PERCENT);
  }

  /** Setting or removing the route from `a` to `b` changes the sum of `a` only. */
  lemma {:induction false} RouteChanged(routes: Routes, after: Routes, a: nat, b: nat, n: nat)
    requires b < n && forall x, y :: (x, y) != (a, b) ==> ((x, y) in after <==> (x, y) in routes)
    requires forall x, y :: (x, y) != (a, b) && (x, y) in routes ==> after[(x, y)] == routes[(x, y)]
    ensures forall x: nat ::
      Sum(n, PercentTerm(after, x)) == Sum(n, PercentTerm(routes, x)) + if x ==
        a then PercentTerm(after, a)(b) - PercentTerm(routes, a)(b) else 0
  {
    forall x: nat
      ensures Sum(n, PercentTerm(after, x))
        == Sum(n, PercentTerm(routes, x)) + if x == a then PercentTerm(after, a)(b) - PercentTerm(routes, a)(b) else 0
    {
      if x == a {
        SumChange(n, PercentTerm(routes, a), PercentTerm(after, a), b);
      } else {
        SumEqual(n, PercentTerm(routes, x), PercentTerm(after, x));
      }
    }
  }

  lemma {:induction false} PartialSum(f: nat -> int, k: nat, n: nat)
    requires k <= n && forall i :: 0 <= i < n ==> f(i) >= 0
    ensures 0 <= Sum(k, f) <= Sum(n, f)
  {
    if k == n {
      SumNotNegative(n, f);
    } else {
      PartialSum(f, k, n - 1);
    }
  }

  /** A changed route takes no sum above twice 100%, so that a 16-bit sum holds it. */
  lemma {:induction false} PercentsFitSixteenBits(routes: Routes, after: Routes, a: nat, b: nat, n: nat)
    requires RoutesFit(routes, n) && b < n && forall x, y :: (x, y) != (a, b) ==>
      ((x, y) in after <==> (x, y) in routes)
    requires forall x, y :: (x, y) != (a, b) && (x, y) in routes ==> after[(x, y)] == routes[(x, y)]
    requires (a, b) in after ==> after[(a, b)].percent <= HUNDRED_PERCENT
    ensures forall k :: 0 <= k <= n ==> 0 <= Sum(k, PercentTerm(after, a)) <= 2 * HUNDRED_PERCENT
    ensures Sum(n, PercentTerm(after, a)) <= HUNDRED_PERCENT ==> RoutesFit(after, n)
  {
    RouteChanged(routes, after, a, b, n);
    forall k | 0 <= k <= n
      ensures 0 <= Sum(k, PercentTerm(after, a)) <= 2 * HUNDRED_PERCENT
    {
      PartialSum(PercentTerm(after, a), k, n);
    }
  }
}

/**
 The book kept in the order in which orders are matched, and what all balances and orders hold together.
 */
module BookIndex {
  import opened Sums
  import opened OrderSpec

  /** Best price first, then the order that came first. */
  predicate Before(p: Price, i: nat, q: Price, j: nat) {
    Less(q, p) || (!Less(p, q) && i < j)
  }

  ghost predicate Ordered(orders: Orders, s: seq<nat>) {
    && (forall i :: 0 <= i < |s| ==> s[i] in orders)
    && (forall i, j :: 0 <= i < j < |s| ==> Before(orders[s[i]].sellPrice, s[i], orders[s[j]].sellPrice, s[j]))
  }

  /** `s` lists every order of the book, in order. */
  ghost predicate Indexed(orders: Orders, s: seq<nat>) {
    Ordered(orders, s) && forall id :: id in orders ==> id in s
  }

  ghost predicate AllProper(orders: Orders) {
    forall id :: id in orders ==> Proper(orders[id].sellPrice)
  }

  lemma {:induction false} BeforeTransitive(p: Price, i: nat, q: Price, j: nat, r: Price, k: nat)
    requires Proper(p) && Proper(q) && Proper(r) && Before(p, i, q, j) && Before(q, j, r, k)
    ensures Before(p, i, r, k)
  {
    if p.base.id == q.base.id == r.base.id && p.quote.id == q.quote.id == r.quote.id {
      AtLeastTransitive(p, q, r);
    }
  }

  /** Only the amounts of orders change: their places stay. */
  lemma {:induction false} SamePlaces(orders: Orders, after: Orders, s: seq<nat>)
    requires Indexed(orders, s) && after.Keys == orders.Keys
    requires forall id :: id in orders ==> after[id].sellPrice == orders[id].sellPrice
    ensures Indexed(after, s)
  {
  }

  lemma {:induction false} PlacesDiffer(orders: Orders, s: seq<nat>, i: nat, k: nat)
    requires Ordered(orders, s) && i < |s| && k < |s| && i != k
    ensures s[i] != s[k]
  {
    var first, last := if i < k then i else k, if i < k then k else i;
    assert Before(orders[s[first]].sellPrice, s[first], orders[s[last]].sellPrice, s[last]);
  }

  lemma {:induction false} Erased(orders: Orders, s: seq<nat>, k: nat)
    requires Indexed(orders, s) && k < |s|
    ensures Indexed(orders - {s[k]}, s[..k] + s[k + 1..])
  {
    hide Before;
    var t, after := s[..k] + s[k + 1..], orders - {s[k]};
    forall i | 0 <= i < |s| && i != k
      ensures s[i] in after
    {
      PlacesDiffer(orders, s, i, k);
    }
    assert forall i :: 0 <= i < k ==> t[i] == s[i];
    assert forall i :: k <= i < |t| ==> t[i] == s[i + 1];
    forall id | id in after
      ensures id in t
    {
      var i :| 0 <= i < |s| && s[i] == id;
      assert id == t[if i < k then i else i - 1];
    }
    forall i, j | 0 <= i < j < |t|
      ensures Before(after[t[i]].sellPrice, t[i], after[t[j]].sellPrice, t[j])
    {
      var i', j' := if i < k then i else i + 1, if j < k then j else j + 1;
      assert Before(orders[s[i']].sellPrice, s[i'], orders[s[j']].sellPrice, s[j']);
    }
  }

  /** A new order goes after all that come before it; its id is the highest. */
  lemma {:induction false} Inserted(orders: Orders, s: seq<nat>, k: nat, id: nat, o: Order)
    requires Indexed(orders, s) && AllProper(orders) && Proper(o.sellPrice) && id !in orders && k <= |s|
    requires forall i :: 0 <= i < k ==> Before(orders[s[i]].sellPrice, s[i], o.sellPrice, id)
    requires k < |s| ==> Before(o.sellPrice, id, orders[s[k]].sellPrice, s[k])
    ensures Indexed(orders[id := o], s[..k] + [id] + s[k..])
  {
    var t, after := s[..k] + [id] + s[k..], orders[id := o];
    forall i | k <= i < |s|
      ensures Before(o.sellPrice, id, orders[s[i]].sellPrice, s[i])
    {
      if i > k {
        BeforeTransitive(o.sellPrice, id, orders[s[k]].sellPrice, s[k], orders[s[i]].sellPrice, s[i]);
      }
    }
    forall i | 0 <= i < |s|
      ensures s[i] in t
    {
      assert s[i] == t[if i < k then i else i + 1];
    }
    assert t[k] == id;
  }

  /**
   The positions between the highest price of the market and the price asked hold exactly the orders
   that cross.
   */
  lemma {:induction false} RangeIsCrossing(orders: Orders, s: seq<nat>, n: Order, lo: nat, hi: nat)
    requires Indexed(orders, s) && Proper(n.sellPrice) && lo <= |s| && hi <= |s|
    requires forall id :: id in orders ==> Live(orders[id])
    requires forall i :: 0 <= i < lo ==> Less(Highest(Inverse(n.sellPrice)), orders[s[i]].sellPrice)
    requires lo < |s| ==> !Less(Highest(Inverse(n.sellPrice)), orders[s[lo]].sellPrice)
    requires forall i :: 0 <= i < hi ==> !Less(orders[s[i]].sellPrice, Inverse(n.sellPrice))
    requires hi < |s| ==> Less(orders[s[hi]].sellPrice, Inverse(n.sellPrice))
    ensures lo <= hi
    ensures forall i :: 0 <= i < |s| ==> (Crosses(n, orders[s[i]]) <==> lo <= i < hi)
  {
    var asked, top := Inverse(n.sellPrice), Highest(n.sellPrice);
    forall i | 0 <= i < |s|
      ensures Crosses(n, orders[s[i]]) <==> lo <= i < hi
      ensures hi <= i ==> Less(orders[s[i]].sellPrice, asked)
    {
      var p := orders[s[i]].sellPrice;
      NotAboveHighest(orders[s[i]]);
      if lo < i {
        AtLeastTransitive(Highest(asked), orders[s[lo]].sellPrice, p);
      }
      if hi < i && !Less(p, asked) {
        AtLeastTransitive(orders[s[hi]].sellPrice, p, asked);
      }
    }
    if hi < lo {
      NotAboveHighest(orders[s[hi]]);
      assert false;
    }
  }

  /** One account's balance of asset `s`. */
  function Balance(accounts: Balances, a: nat, s: AssetId): int
    requires a < |accounts|
  {
    if s in accounts[a] then accounts[a][s] else 0
  }

  function Credit(accounts: Balances, a: nat, sum: Asset): Balances
    requires a < |accounts|
  {
    var held: map<AssetId, int> := accounts[a][sum.id := Balance(accounts, a, sum.id) + sum.amount];
    accounts[a := held]
  }

  ghost function BalanceTerm(accounts: Balances, s: AssetId): nat -> int {
    (a: nat) => if a < |accounts| then Balance(accounts, a, s) else 0
  }

  ghost function EscrowTerm(orders: Orders, s: AssetId): nat -> int {
    (id: nat) => if id in orders && orders[id].sellPrice.base.id == s then orders[id].forSale else 0
  }

  /** All of asset `s`: on accounts, and held for orders with ids below `n`. */
  ghost function Holdings(accounts: Balances, orders: Orders, n: nat, s: AssetId): int {
    Sum(|accounts|, BalanceTerm(accounts, s)) + Sum(n, EscrowTerm(orders, s))
  }

  lemma {:induction false} Credited(accounts: Balances, orders: Orders, n: nat, a: nat, sum: Asset, s: AssetId)
    requires a < |accounts|
    ensures Holdings(Credit(accounts, a, sum), orders, n, s)
         == Holdings(accounts, orders, n, s) + if s == sum.id then sum.amount else 0
  {
    SumChange(|accounts|, BalanceTerm(accounts, s), BalanceTerm(Credit(accounts, a, sum), s), a);
  }

  lemma {:induction false} Escrowed(accounts: Balances, orders: Orders, after: Orders, n: nat, id: nat, s: AssetId)
    requires id < n && forall i :: i != id ==> (i in after <==> i in orders) && (i in orders ==> after[i] == orders[i])
    ensures Holdings(accounts, after, n, s)
         == Holdings(accounts, orders, n, s) + EscrowTerm(after, s)(id) - EscrowTerm(orders, s)(id)
  {
    SumChange(n, EscrowTerm(orders, s), EscrowTerm(after, s), id);
  }

  ghost predicate NonNegative(accounts: Balances) {
    forall a, s :: 0 <= a < |accounts| && s in accounts[a] ==> accounts[a][s] >= 0
  }

  /** No balance exceeds all there is of an asset. */
  lemma {:induction false} BalanceIsPart(accounts: Balances, orders: Orders, n: nat, a: nat, s: AssetId)
    requires a < |accounts| && NonNegative(accounts) && forall id :: id in orders ==> orders[id].forSale > 0
    ensures 0 <= Balance(accounts, a, s) <= Holdings(accounts, orders, n, s)
  {
    PartOfSum(|accounts|, BalanceTerm(accounts, s), a);
    SumNotNegative(n, EscrowTerm(orders, s));
  }
}

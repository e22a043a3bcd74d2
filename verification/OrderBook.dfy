/**
 The market: limit orders created, matched, filled, cancelled and expired in place.
 */
module OrderBook {
  import opened Wrappers
  import opened Sums
  import opened Rounding
  import opened OrderSpec
  import opened BookIndex

  const VESTS_SYMBOL: AssetId := 1

  function Settled(orders: Orders, id: nat, pays: int): Orders
    requires id in orders && Live(orders[id]) && 0 < pays <= orders[id].forSale
  {
    var left := Left(orders[id], pays);
    if left.None? then orders - {id} else orders[id := left.value]
  }

  /** A seller gets what the order receives, and back what is too little to be sold. */
  function Payout(accounts: Balances, o: Order, pays: int, receives: int): Balances
    requires Live(o) && 0 < pays <= o.forSale && o.seller < |accounts|
  {
    var paid := Credit(accounts, o.seller, Asset(receives, o.sellPrice.quote.id));
    if Left(o, pays).None?
      && pays < o.forSale then Credit(paid, o.seller, Asset(o.forSale - pays, o.sellPrice.base.id)) else paid
  }

  lemma {:induction false} FillKeepsTotals(accounts: Balances, orders: Orders, n: nat, id: nat, pays: int,
                                          receives: int, s: AssetId)
    requires id in orders && id < n && Live(orders[id]) && 0 < pays <= orders[id].forSale
    requires orders[id].seller < |accounts|
    ensures var o := orders[id];
      Holdings(Payout(accounts, o, pays, receives), Settled(orders, id, pays), n, s)
      == Holdings(accounts, orders, n, s)
         + (if s == o.sellPrice.quote.id then receives else 0) - if s == o.sellPrice.base.id then pays else 0
  {
    hide Sum, Left;
    var o := orders[id];
    var gets, back := Asset(receives, o.sellPrice.quote.id), Asset(o.forSale - pays, o.sellPrice.base.id);
    var paid := Credit(accounts, o.seller, gets);
    Credited(accounts, orders, n, o.seller, gets, s);
    Credited(paid, orders, n, o.seller, back, s);
    Escrowed(Payout(accounts, o, pays, receives), orders, Settled(orders, id, pays), n, id, s);
    NothingLeft(o, o.forSale);
  }

  lemma {:induction false} NothingLeft(o: Order, pays: int)
    requires Live(o) && pays == o.forSale
    ensures Left(o, pays).None?
  {
  }

  lemma {:induction false} LeftIs(o: Order, pays: int)
    requires Live(o) && 0 < pays < o.forSale
    ensures Left(o, pays) == if Worth(o.forSale - pays, o.sellPrice) == 0 then None
      else Some(o.(forSale := o.forSale - pays))
    ensures Proper(o.sellPrice)
  {
  }

  ghost predicate Uncrossed(orders: Orders) {
    forall i, j :: i in orders && j in orders ==> !Crosses(orders[i], orders[j])
  }

  /** No two orders cross, unless one of them is `id`. */
  ghost predicate UncrossedBut(orders: Orders, id: nat) {
    forall i, j :: i in orders && j in orders && i != id && j != id ==> !Crosses(orders[i], orders[j])
  }

  lemma {:induction false} FewerUncrossed(orders: Orders, id: nat)
    requires Uncrossed(orders)
    ensures Uncrossed(orders - {id})
  {
    hide Crosses;
  }

  /** The same order with another amount for sale. */
  predicate SameOrder(o: Order, after: Order) {
    after == o.(forSale := after.forSale)
  }

  /** The orders after a trade. */
  function Traded(orders: Orders, newId: nat, oldId: nat): Orders
    requires Matchable(orders, newId, oldId)
  {
    TradeIsPossible(orders[newId], orders[oldId]);
    var (pays, receives) := Trade(orders[newId], orders[oldId]);
    Settled(Settled(orders, newId, pays), oldId, receives)
  }

  /** The balances after a trade: each side receives exactly what the other pays. */
  function Credits(accounts: Balances, orders: Orders, newId: nat, oldId: nat): Balances
    requires Matchable(orders, newId, oldId) && orders[newId].seller < |accounts| && orders[oldId].seller < |accounts|
  {
    TradeIsPossible(orders[newId], orders[oldId]);
    var (pays, receives) := Trade(orders[newId], orders[oldId]);
    Payout(Payout(accounts, orders[newId], pays, receives), orders[oldId], receives, pays)
  }

  predicate Matchable(orders: Orders, newId: nat, oldId: nat) {
    newId in orders && oldId in orders && newId != oldId && Live(orders[newId]) && Live(orders[oldId])
      && Crosses(orders[newId], orders[oldId])
  }

  /** A trade removes at least one of the two orders and touches no third one. */
  lemma {:induction false} TradeUsesUp(orders: Orders, newId: nat, oldId: nat)
    requires Matchable(orders, newId, oldId)
    ensures var after := Traded(orders, newId, oldId);
      && (newId !in after || oldId !in after)
      && (forall i :: i != newId && i != oldId ==>
         (i in after <==> i in orders) && (i in orders ==> after[i] == orders[i]))
      && (newId in after ==>
         Live(after[newId]) && after[newId] == orders[newId].(forSale := after[newId].forSale)
           && after[newId].forSale < orders[newId].forSale)
      && (oldId in after ==>
         Live(after[oldId]) && after[oldId] == orders[oldId].(forSale := after[oldId].forSale)
           && after[oldId].forSale < orders[oldId].forSale)
  {
    hide Worth, Crosses;
    TradeIsPossible(orders[newId], orders[oldId]);
    var (pays, receives) := Trade(orders[newId], orders[oldId]);
    if pays == orders[newId].forSale {
      NothingLeft(orders[newId], pays);
    } else {
      NothingLeft(orders[oldId], receives);
    }
  }

  /** A trade neither makes nor destroys any asset. */
  lemma {:induction false} TradeKeepsTotals(accounts: Balances, orders: Orders, n: nat, newId: nat, oldId: nat,
                                          s: AssetId)
    requires Matchable(orders, newId, oldId) && newId < n && oldId < n
    requires orders[newId].seller < |accounts| && orders[oldId].seller < |accounts|
    ensures Holdings(Credits(accounts, orders, newId, oldId), Traded(orders, newId, oldId), n, s) ==
      Holdings(accounts, orders, n, s)
  {
    hide Worth, Left, Sum;
    TradeIsPossible(orders[newId], orders[oldId]);
    var (pays, receives) := Trade(orders[newId], orders[oldId]);
    FillKeepsTotals(accounts, orders, n, newId, pays, receives, s);
    FillKeepsTotals(Payout(accounts, orders[newId], pays, receives), Settled(orders, newId, pays), n, oldId, receives,
      pays, s);
  }

  /** A new order traded with the orders of a queue, one after the other, as long as it is in the book. */
  function MatchedAll(orders: Orders, accounts: Balances, newId: nat, queue: seq<nat>): (Orders, Balances)
    decreases queue
  {
    if queue == [] || !Matchable(orders, newId, queue[0]) || orders[newId].seller >= |accounts|
      || orders[queue[0]].seller >= |accounts| then
      (orders, accounts)
    else
      MatchedAll(Traded(orders, newId, queue[0]), Credits(accounts, orders, newId, queue[0]), newId, queue[1..])
  }

  /**
   The offer is taken from the owner's balance and the order matched; a fill-or-kill order that is
   not filled fails.
   */
  ghost predicate PlacedAs(orders: Orders, accounts: Balances, id: nat, o: Order, queue: seq<nat>, fillOrKill: bool,
                           ok: bool,
                           orders': Orders, accounts': Balances)
    requires o.seller < |accounts|
  {
    var open := orders[id := o];
    var (left, paid) := MatchedAll(open, Credit(accounts, o.seller, Asset(-o.forSale, o.sellPrice.base.id)), id, queue);
    && Queue(open, o, queue)
    && (ok <==> !fillOrKill || id !in left)
    && (ok ==> orders' == left && accounts' == paid)
  }

  /** `queue` lists the orders that cross `n`, in the order in which they are to be matched. */
  ghost predicate Queue(orders: Orders, n: Order, queue: seq<nat>) {
    Ordered(orders, queue) && forall id :: id in orders ==> (Crosses(n, orders[id]) <==> id in queue)
  }

  /**
   The state of the book after `met` orders of the queue have been traded with: all of them are used
   up, except that the last one may be left when the new order is not.
   */
  ghost predicate Worked(before: Orders, after: Orders, newId: nat, queue: seq<nat>, met: nat) {
    && met <= |queue|
    && (forall k :: 0 <= k < met - 1 ==> queue[k] !in after)
    && (met > 0 ==>
       queue[met - 1] !in after
         || (newId !in after && queue[met - 1] in before && SameOrder(before[queue[met - 1]], after[queue[met - 1]])))
    && (newId in after ==>
       newId in before && SameOrder(before[newId], after[newId]) && after[newId].forSale <= before[newId].forSale)
    && (forall id :: id != newId && id !in queue[..met] ==>
       (id in after <==> id in before) && (id in before ==> after[id] == before[id]))
  }

  lemma {:induction false} QueueOf(orders: Orders, s: seq<nat>, n: Order, lo: nat, hi: nat)
    requires Indexed(orders, s) && lo <= hi <= |s|
    requires forall i :: 0 <= i < |s| ==> (Crosses(n, orders[s[i]]) <==> lo <= i < hi)
    ensures Queue(orders, n, s[lo..hi])
  {
    hide Crosses, Before, Less;
    forall i | 0 <= i < |s|
      ensures s[i] in s[lo..hi] <==> lo <= i < hi
    {
      forall j | lo <= j < hi && j != i
        ensures s[j] != s[i]
      {
        PlacesDiffer(orders, s, i, j);
      }
      if lo <= i < hi {
        assert s[lo..hi][i - lo] == s[i];
      }
    }
  }

  /** The queue goes by price, the best for the new order first, and at the same price by age. */
  lemma {:induction false} BestAndOldestFirst(orders: Orders, n: Order, queue: seq<nat>)
    requires Queue(orders, n, queue)
    ensures forall i, j :: 0 <= i < j < |queue| ==>
      var p, q := orders[queue[i]].sellPrice, orders[queue[j]].sellPrice;
      && p.base.id == q.base.id && p.quote.id == q.quote.id
      && q.base.amount * p.quote.amount <= p.base.amount * q.quote.amount
      && (q.base.amount * p.quote.amount == p.base.amount * q.quote.amount ==> queue[i] < queue[j])
  {
    assert forall i :: 0 <= i < |queue| ==> Crosses(n, orders[queue[i]]);
  }

  lemma {:induction false} NothingWorked(before: Orders, newId: nat, queue: seq<nat>)
    ensures newId in before ==> Worked(before, before, newId, queue, 0)
  {
  }

  lemma {:induction false} StaysItself(before: Orders, after: Orders, newId: nat, queue: seq<nat>, met: nat)
    requires Worked(before, after, newId, queue, met) && newId in after
    ensures newId in before && after[newId] == before[newId].(forSale := after[newId].forSale)
    ensures after[newId].forSale <= before[newId].forSale
  {
  }

  lemma {:induction false} NotItself(o: Order)
    requires Proper(o.sellPrice)
    ensures !Crosses(o, o)
  {
  }

  /** The amount for sale does not matter. */
  lemma {:induction false} CrossesAlike(n: Order, after: Order, o: Order)
    requires SameOrder(n, after)
    ensures Crosses(after, o) == Crosses(n, o)
  {
  }

  lemma {:induction false} NextInQueue(orders: Orders, newId: nat, queue: seq<nat>, i: nat)
    requires newId in orders && Proper(orders[newId].sellPrice) && Queue(orders, orders[newId], queue) && i < |queue|
    ensures queue[i] in orders && queue[i] != newId && queue[i] !in queue[..i]
    ensures Crosses(orders[newId], orders[queue[i]])
  {
    hide Less, Before, Crosses;
    NotItself(orders[newId]);
    forall k | 0 <= k < i
      ensures queue[k] != queue[i]
    {
      PlacesDiffer(orders, queue, k, i);
    }
  }

  lemma {:induction false} WorkedMore(before: Orders, mid: Orders, newId: nat, queue: seq<nat>, i: nat)
    requires newId in before && Proper(before[newId].sellPrice) && Queue(before, before[newId], queue)
    requires i < |queue| && newId in mid && Worked(before, mid, newId, queue, i)
    requires forall id :: id in mid ==> Live(mid[id])
    ensures Matchable(mid, newId, queue[i])
    ensures Worked(before, Traded(mid, newId, queue[i]), newId, queue, i + 1)
  {
    hide Less, Before, Live, Traded, Crosses, Queue;
    var oldId := queue[i];
    NextInQueue(before, newId, queue, i);
    assert oldId in mid && mid[oldId] == before[oldId];
    CrossesAlike(before[newId], mid[newId], mid[oldId]);
    TradeUsesUp(mid, newId, oldId);
    assert queue[..i + 1] == queue[..i] + [oldId];
  }

  /** When nothing is left to trade with, or nothing to trade, no two orders cross. */
  lemma {:induction false} WorkedUncrossed(before: Orders, after: Orders, newId: nat, queue: seq<nat>, met: nat)
    requires newId in before && Proper(before[newId].sellPrice) && Queue(before, before[newId], queue)
    requires UncrossedBut(before, newId)
    requires Worked(before, after, newId, queue, met) && (met < |queue| ==> newId !in after)
    ensures Uncrossed(after)
  {
    hide Less, Before, Ordered;
    NotItself(before[newId]);
    forall id | id in after
      ensures id in before && SameOrder(before[id], after[id])
      ensures newId in after && id != newId ==> id !in queue
    {
      if id != newId && id in queue[..met] {
        var k :| 0 <= k < met && queue[k] == id;
      } else if newId in after && id != newId {
        assert queue[..met] == queue;
      }
    }
    forall i, j | i in after && j in after
      ensures !Crosses(after[i], after[j])
    {
      CrossesBack(before[i], before[j]);
      assert Crosses(after[i], after[j]) == Crosses(before[i], before[j]);
    }
  }

  /** What account `a` gets of asset `s` out of an order that paid and received: a remainder that left the book too. */
  ghost function Gain(o: Order, id: nat, left: Orders, pays: int, receives: int, a: nat, s: AssetId): int {
    if a != o.seller then 0
    else if s == o.sellPrice.quote.id then receives
    else if s == o.sellPrice.base.id && id !in left then o.forSale - pays
    else 0
  }

  lemma {:induction false} PayoutIsGain(accounts: Balances, orders: Orders, id: nat, pays: int, receives: int)
    requires id in orders && Live(orders[id]) && 0 < pays <= orders[id].forSale && orders[id].seller < |accounts|
    ensures var after := Payout(accounts, orders[id], pays, receives);
      && |after| == |accounts|
      && forall a, s :: 0 <= a < |accounts| ==>
           Balance(after, a, s) == Balance(accounts, a, s)
             + Gain(orders[id], id, Settled(orders, id, pays), pays, receives, a, s)
  {
    NothingLeft(orders[id], orders[id].forSale);
    hide Left, Worth;
  }

  /** What a new order paid (or received) in the first `k` trades. */
  ghost function Spent(trades: seq<(int, int)>): nat -> int {
    (i: nat) => if i < |trades| then trades[i].0 else 0
  }

  ghost function Earned(trades: seq<(int, int)>): nat -> int {
    (i: nat) => if i < |trades| then trades[i].1 else 0
  }

  /** What account `a` gets of asset `s` out of the older orders that were traded with. */
  ghost function OlderGain(before: Orders, after: Orders, queue: seq<nat>, trades: seq<(int, int)>, a: nat,
                           s: AssetId): nat -> int {
    (i: nat) =>
      if i < |trades| && i < |queue| && queue[i] in before
      then Gain(before[queue[i]], queue[i], after, trades[i].1, trades[i].0, a, s) else 0
  }

  /** The order as it is when it meets the next one of its queue. */
  function Remaining(o: Order, spent: int): Order {
    o.(forSale := o.forSale - spent)
  }

  /** `trades` are made in turn with the orders of the queue, each at the terms of `Trade`. */
  ghost predicate InTurn(before: Orders, newId: nat, queue: seq<nat>, trades: seq<(int, int)>) {
    && newId in before && |trades| <= |queue|
    && forall i :: 0 <= i < |trades| ==>
         && queue[i] in before && Proper(before[queue[i]].sellPrice)
         && trades[i] == Trade(Remaining(before[newId], Sum(i, Spent(trades))), before[queue[i]])
  }

  /**
   Everybody has what their orders gained in the trades, and nothing else changed: sellers have what they
   received and what is too little to be sold.  `held` of the new order came from its owner's balance.
   */
  ghost predicate Exchanged(before: Orders, funds: Balances, held: int, after: Orders, accounts: Balances, newId: nat,
                            queue: seq<nat>, trades: seq<(int, int)>)
    requires InTurn(before, newId, queue, trades)
  {
    var n, o := |trades|, before[newId];
    && |accounts| == |funds|
    && (newId in after ==> after[newId] == Remaining(o, Sum(n, Spent(trades))))
    && forall a, s :: 0 <= a < |funds| ==>
         Balance(accounts, a, s) ==
           Balance(funds, a, s) - (if a == o.seller && s == o.sellPrice.base.id then held else 0)
         + Gain(o, newId, after, Sum(n, Spent(trades)), Sum(n, Earned(trades)), a, s)
         + Sum(n, OlderGain(before, after, queue, trades, a, s))
  }

  lemma {:induction false} NothingExchanged(before: Orders, funds: Balances, newId: nat, queue: seq<nat>)
    requires newId in before && Proper(before[newId].sellPrice)
    ensures InTurn(before, newId, queue, []) && Exchanged(before, funds, 0, before, funds, newId, queue, [])
  {
  }

  /** What everybody has after one trade. */
  ghost predicate TradedOnce(orders: Orders, funds: Balances, after: Orders, accounts: Balances, newId: nat, oldId: nat)
    requires newId in orders && oldId in orders && Proper(orders[oldId].sellPrice)
  {
    var n, o := orders[newId], orders[oldId];
    var (pays, receives) := Trade(n, o);
    && |accounts| == |funds|
    && forall a, s :: 0 <= a < |funds| ==>
         Balance(accounts, a, s) == Balance(funds, a, s) + Gain(n, newId, after, pays, receives, a, s)
           + Gain(o, oldId, after, receives, pays, a, s)
  }

  lemma {:induction false} CreditsAreGains(accounts: Balances, orders: Orders, newId: nat, oldId: nat)
    requires Matchable(orders, newId, oldId) && orders[newId].seller < |accounts| && orders[oldId].seller < |accounts|
    ensures TradedOnce(orders, accounts, Traded(orders, newId, oldId), Credits(accounts, orders, newId, oldId), newId,
                       oldId)
  {
    TradeIsPossible(orders[newId], orders[oldId]);
    var (pays, receives) := Trade(orders[newId], orders[oldId]);
    PayoutIsGain(accounts, orders, newId, pays, receives);
    var paid := Payout(accounts, orders[newId], pays, receives);
    PayoutIsGain(paid, Settled(orders, newId, pays), oldId, receives, pays);
    hide Left, Worth, Balance, Payout, Trade, Crosses;
  }

  /** Later trades do not change the sums over earlier ones. */
  lemma {:induction false} EarlierTrades(trades: seq<(int, int)>, next: (int, int))
    ensures forall k :: 0 <= k <= |trades| ==>
      Sum(k, Spent(trades + [next])) == Sum(k, Spent(trades))
        && Sum(k, Earned(trades + [next])) == Sum(k, Earned(trades))
  {
    forall k | 0 <= k <= |trades|
      ensures Sum(k, Spent(trades + [next])) == Sum(k, Spent(trades))
      ensures Sum(k, Earned(trades + [next])) == Sum(k, Earned(trades))
    {
      SumEqual(k, Spent(trades + [next]), Spent(trades));
      SumEqual(k, Earned(trades + [next]), Earned(trades));
    }
  }

  lemma {:induction false} OneMoreInTurn(before: Orders, newId: nat, queue: seq<nat>, trades: seq<(int, int)>,
                                         next: (int, int))
    requires InTurn(before, newId, queue, trades) && |trades| < |queue|
    requires queue[|trades|] in before && Proper(before[queue[|trades|]].sellPrice)
    requires next == Trade(Remaining(before[newId], Sum(|trades|, Spent(trades))), before[queue[|trades|]])
    ensures InTurn(before, newId, queue, trades + [next])
    ensures Sum(|trades|, Spent(trades + [next])) == Sum(|trades|, Spent(trades))
    ensures Sum(|trades|, Earned(trades + [next])) == Sum(|trades|, Earned(trades))
  {
    EarlierTrades(trades, next);
    hide Trade, Sum, Proper, Remaining;
  }

  /** The orders that were traded with before are gone for good. */
  lemma {:induction false} EarlierAreGone(before: Orders, mid: Orders, newId: nat, queue: seq<nat>, n: nat)
    requires newId in before && Proper(before[newId].sellPrice) && Queue(before, before[newId], queue)
    requires n < |queue| && newId in mid && Worked(before, mid, newId, queue, n) && Matchable(mid, newId, queue[n])
    ensures queue[n] in before && queue[n] in mid && mid[queue[n]] == before[queue[n]] && queue[n] != newId
    ensures Proper(before[queue[n]].sellPrice)
    ensures forall i :: 0 <= i < n ==> queue[i] !in mid && queue[i] !in Traded(mid, newId, queue[n])
    ensures var after := Traded(mid, newId, queue[n]);
      newId in after ==> after[newId] == Remaining(mid[newId], Trade(mid[newId], mid[queue[n]]).0)
  {
    hide Queue, Crosses, Worth, Before, Less;
    assert Live(mid[queue[n]]);
    hide Live;
    NextInQueue(before, newId, queue, n);
    TradeUsesUp(mid, newId, queue[n]);
    forall i | 0 <= i < n
      ensures queue[i] !in mid && queue[i] != newId
    {
      NextInQueue(before, newId, queue, i);
    }
  }

  /** An order that stays gains in two trades what it gains in both together. */
  lemma {:induction false} GainAdds(o: Order, id: nat, mid: Orders, after: Orders, spent: int, earned: int,
                                    pays: int, receives: int)
    requires id in mid
    ensures forall a, s ::
      Gain(o, id, after, spent + pays, earned + receives, a, s)
      == Gain(o, id, mid, spent, earned, a, s) + Gain(Remaining(o, spent), id, after, pays, receives, a, s)
  {
  }

  lemma {:induction false} AllAddUp(before: Orders, funds: Balances, mid: Orders, paid: Balances, after: Orders,
                                    accounts: Balances, newId: nat, queue: seq<nat>, trades: seq<(int, int)>,
                                    all: seq<(int, int)>)
    requires InTurn(before, newId, queue, trades) && Exchanged(before, funds, 0, mid, paid, newId, queue, trades)
    requires InTurn(before, newId, queue, all) && |all| == |trades| + 1 && newId in mid && queue[|trades|] in mid
    requires mid[queue[|trades|]] == before[queue[|trades|]]
    requires TradedOnce(mid, paid, after, accounts, newId, queue[|trades|])
    requires all[|trades|] == Trade(mid[newId], mid[queue[|trades|]])
    requires newId in after ==> after[newId] == Remaining(mid[newId], all[|trades|].0)
    requires Sum(|trades|, Spent(all)) == Sum(|trades|, Spent(trades))
    requires Sum(|trades|, Earned(all)) == Sum(|trades|, Earned(trades))
    requires forall a, s ::
      Sum(|trades|, OlderGain(before, after, queue, all, a, s))
      == Sum(|trades|, OlderGain(before, mid, queue, trades, a, s))
    ensures Exchanged(before, funds, 0, after, accounts, newId, queue, all)
  {
    var n := |trades|;
    var oldId := queue[n];
    GainAdds(before[newId], newId, mid, after, Sum(n, Spent(trades)), Sum(n, Earned(trades)), all[n].0, all[n].1);
    assert forall a, s ::
        OlderGain(before, after, queue, all, a, s)(n) == Gain(before[oldId], oldId, after, all[n].1, all[n].0, a, s);
    assert Sum(n + 1, Spent(all)) == Sum(n, Spent(trades)) + all[n].0;
    assert Sum(n + 1, Earned(all)) == Sum(n, Earned(trades)) + all[n].1;
    assert forall a, s ::
        Sum(n + 1, OlderGain(before, after, queue, all, a, s))
        == Sum(n, OlderGain(before, mid, queue, trades, a, s))
          + Gain(before[oldId], oldId, after, all[n].1, all[n].0, a, s);
    hide Gain, Trade, Proper, OlderGain, InTurn, Sum, Spent, Earned;
  }

  lemma {:induction false} WhatRemains(before: Orders, funds: Balances, mid: Orders, paid: Balances, newId: nat,
                                       queue: seq<nat>, trades: seq<(int, int)>)
    requires InTurn(before, newId, queue, trades) && Exchanged(before, funds, 0, mid, paid, newId, queue, trades)
    ensures newId in mid ==> mid[newId] == Remaining(before[newId], Sum(|trades|, Spent(trades)))
  {
    hide Trade;
  }

  /** One more trade with the next order of the queue. */
  lemma {:induction false} ExchangedMore(before: Orders, funds: Balances, mid: Orders, paid: Balances,
                                         accounts: Balances, newId: nat, queue: seq<nat>, trades: seq<(int, int)>)
    requires newId in before && Proper(before[newId].sellPrice) && Queue(before, before[newId], queue)
    requires |trades| < |queue| && newId in mid && Worked(before, mid, newId, queue, |trades|)
    requires InTurn(before, newId, queue, trades) && Exchanged(before, funds, 0, mid, paid, newId, queue, trades)
    requires Matchable(mid, newId, queue[|trades|])
    requires TradedOnce(mid, paid, Traded(mid, newId, queue[|trades|]), accounts, newId, queue[|trades|])
    ensures var all := trades + [Trade(mid[newId], mid[queue[|trades|]])];
      InTurn(before, newId, queue, all)
      && Exchanged(before, funds, 0, Traded(mid, newId, queue[|trades|]), accounts, newId, queue, all)
  {
    hide Queue, Crosses, Trade, Worth, Traded, Worked, Exchanged, TradedOnce, Matchable, Live, InTurn, Sum;
    var n, oldId := |trades|, queue[|trades|];
    EarlierAreGone(before, mid, newId, queue, n);
    var all, after := trades + [Trade(mid[newId], mid[oldId])], Traded(mid, newId, oldId);
    WhatRemains(before, funds, mid, paid, newId, queue, trades);
    OneMoreInTurn(before, newId, queue, trades, all[n]);
    forall a, s
      ensures Sum(n, OlderGain(before, after, queue, all, a, s)) == Sum(n, OlderGain(before, mid, queue, trades, a, s))
    {
      SumEqual(n, OlderGain(before, after, queue, all, a, s), OlderGain(before, mid, queue, trades, a, s));
    }
    AllAddUp(before, funds, mid, paid, after, accounts, newId, queue, trades, all);
  }

  /** The offer is taken from the owner's balance before anything is traded. */
  lemma {:induction false} OfferTaken(before: Orders, funds: Balances, after: Orders, accounts: Balances, newId: nat,
                                      queue: seq<nat>, trades: seq<(int, int)>)
    requires InTurn(before, newId, queue, trades) && before[newId].seller < |funds|
    requires var o := before[newId];
      Exchanged(before, Credit(funds, o.seller, Asset(-o.forSale, o.sellPrice.base.id)), 0, after, accounts, newId,
                queue, trades)
    ensures Exchanged(before, funds, before[newId].forSale, after, accounts, newId, queue, trades)
  {
    hide Gain, Sum, Trade;
  }

  /** What a new order comes to: it is worked through the queue of those it crosses, and everybody gets what is due. */
  ghost predicate Fulfilled(before: Orders, funds: Balances, id: nat, o: Order, after: Orders, accounts: Balances,
                            queue: seq<nat>, trades: seq<(int, int)>) {
    && InTurn(before[id := o], id, queue, trades) && Worked(before[id := o], after, id, queue, |trades|)
    && (|trades| < |queue| ==> id !in after)
    && Exchanged(before[id := o], funds, o.forSale, after, accounts, id, queue, trades)
  }

  lemma {:induction false} NothingSold(accounts: Balances, orders: Orders, n: nat, s: AssetId)
    requires n !in orders
    ensures Holdings(accounts, orders, n + 1, s) == Holdings(accounts, orders, n, s)
  {
  }

  /** What a seller offers is taken from the balance and held for the order. */
  lemma {:induction false} OfferKeepsTotals(accounts: Balances, orders: Orders, n: nat, o: Order, s: AssetId)
    requires n !in orders && o.seller < |accounts|
    ensures Holdings(Credit(accounts, o.seller, Asset(-o.forSale, o.sellPrice.base.id)), orders[n := o], n + 1, s)
         == Holdings(accounts, orders, n, s)
  {
    hide Sum;
    var debit := Asset(-o.forSale, o.sellPrice.base.id);
    NothingSold(accounts, orders, n, s);
    Credited(accounts, orders, n + 1, o.seller, debit, s);
    Escrowed(Credit(accounts, o.seller, debit), orders, orders[n := o], n + 1, n, s);
  }

  /** What an expired order gives back of asset `s` to account `a`. */
  ghost function RefundTerm(orders: Orders, now: nat, a: nat, s: AssetId): nat -> int {
    (id: nat) =>
      if id in orders && orders[id].expiration < now && orders[id].seller == a
        && orders[id].sellPrice.base.id == s then orders[id].forSale else 0
  }

  /** What everybody has, counting what expired orders will give back, is the same. */
  ghost predicate SameClaims(before: Balances, orders: Orders, after: Balances, left: Orders, n: nat, now: nat) {
    |after| == |before| && forall a, s :: 0 <= a < |before| ==>
      Balance(after, a, s) + Sum(n, RefundTerm(left, now, a, s)) == Balance(before, a, s)
        + Sum(n, RefundTerm(orders, now, a, s))
  }

  /** One more expired order is cancelled. */
  lemma {:induction false} OneRefund(before: Balances, orders: Orders, accounts: Balances, left: Orders, n: nat,
                                     id: nat, now: nat)
    requires SameClaims(before, orders, accounts, left, n, now)
    requires id in left && id < n && left[id].expiration < now && left[id].seller < |accounts|
    ensures SameClaims(before, orders, Credit(accounts, left[id].seller, AmountForSale(left[id])), left - {id}, n, now)
  {
    hide Sum;
    var paid := Credit(accounts, left[id].seller, AmountForSale(left[id]));
    forall a, s | 0 <= a < |accounts|
      ensures Balance(paid, a, s) + Sum(n, RefundTerm(left - {id}, now, a, s))
           == Balance(accounts, a, s) + Sum(n, RefundTerm(left, now, a, s))
    {
      SumChange(n, RefundTerm(left, now, a, s), RefundTerm(left - {id}, now, a, s), id);
    }
  }

  /** `expired` are the expired orders that are left; nothing but expired orders has gone. */
  ghost predicate Expiring(start: Orders, orders: Orders, expired: set<nat>, now: nat) {
    && (forall id :: id in expired <==> id in orders && orders[id].expiration < now)
    && (forall id :: id in orders ==> id in start && orders[id] == start[id])
    && (forall id :: id in start && start[id].expiration >= now ==> id in orders)
  }

  lemma {:induction false} NoneCancelled(accounts: Balances, orders: Orders, n: nat, now: nat)
    ensures SameClaims(accounts, orders, accounts, orders, n, now)
    ensures Expiring(orders, orders, (set id | id in orders && orders[id].expiration < now), now)
  {
    hide Balance, Sum, RefundTerm;
  }

  lemma {:induction false} OneExpired(start: Orders, orders: Orders, expired: set<nat>, now: nat, id: nat)
    requires Expiring(start, orders, expired, now) && id in expired
    ensures id in orders && orders[id].expiration < now && Expiring(start, orders - {id}, expired - {id}, now)
  {
  }

  lemma {:induction false} AllExpired(start: Orders, orders: Orders, now: nat)
    requires Expiring(start, orders, {}, now)
    ensures orders == map id | id in start && start[id].expiration >= now :: start[id]
    ensures forall id :: id in orders ==> orders[id].expiration >= now
  {
  }

  /** When no order is expired, everybody has got what expired orders held. */
  lemma {:induction false} AllRefunded(before: Balances, orders: Orders, after: Balances, left: Orders, n: nat,
                                       now: nat)
    requires SameClaims(before, orders, after, left, n, now) && forall id :: id in left ==> left[id].expiration >= now
    ensures |after| == |before| && forall a, s :: 0 <= a < |before| ==>
      Balance(after, a, s) == Balance(before, a, s) + Sum(n, RefundTerm(orders, now, a, s))
  {
    forall a, s
      ensures Sum(n, RefundTerm(left, now, a, s)) == 0
    {
      SumZero(n, RefundTerm(left, now, a, s));
    }
  }

  class Market {
    var orders: Orders
    var nextId: nat
    /** The ids of all orders in the order of the `by_price` index. */
    var byPrice: seq<nat>
    var accounts: Balances

    ghost predicate Placed()
      reads this
    {
      && Indexed(orders, byPrice) && NonNegative(accounts)
      && forall id :: id in orders ==>
           id < nextId && orders[id].seller < |accounts| && Proper(orders[id].sellPrice) && orders[id].forSale > 0
    }

    ghost predicate Shape()
      reads this
    {
      Placed() && forall id :: id in orders ==> Live(orders[id])
    }

    ghost function Total(s: AssetId): int
      reads this
    {
      Holdings(accounts, orders, nextId, s)
    }

    ghost predicate Valid()
      reads this
    {
      Shape() && Uncrossed(orders) && forall s: AssetId :: Total(s) <= MAX_SHARE_SUPPLY
    }

    constructor (balances: Balances)
      requires NonNegative(balances)
      requires forall s: AssetId :: Sum(|balances|, BalanceTerm(balances, s)) <= MAX_SHARE_SUPPLY
      ensures Valid() && orders == map[] && accounts == balances
    {
      orders, nextId, byPrice, accounts := map[], 0, [], balances;
    }

    method RemoveOrder(id: nat)
      requires Placed() && id in orders
      modifies this`orders, this`byPrice
      ensures Placed() && orders == old(orders) - {id}
    {
      var k := 0;
      while byPrice[k] != id
        invariant k < |byPrice| && id !in byPrice[..k]
        decreases |byPrice| - k
      {
        k := k + 1;
      }
      Erased(orders, byPrice, k);
      orders, byPrice := orders - {id}, byPrice[..k] + byPrice[k + 1..];
    }

    /** Gives back what an order has for sale and removes it. */
    method CancelOrder(id: nat)
      requires Placed() && id in orders
      modifies this`orders, this`byPrice, this`accounts
      ensures Placed() && orders == old(orders) - {id}
      ensures accounts == Credit(old(accounts), old(orders)[id].seller, AmountForSale(old(orders)[id]))
      ensures forall s :: Total(s) == old(Total(s))
    {
      hide Sum, Indexed;
      var o := orders[id];
      accounts := Credit(accounts, o.seller, AmountForSale(o));
      RemoveOrder(id);
      forall s: AssetId
        ensures Total(s) == old(Total(s))
      {
        Credited(old(accounts), old(orders), nextId, o.seller, AmountForSale(o), s);
        Escrowed(accounts, old(orders), orders, nextId, id, s);
      }
    }

    /** Settles one side of a trade; tells whether the order left the book. */
    method FillOrder(id: nat, pays: Asset, receives: Asset) returns (gone: bool)
      requires Shape() && id in orders
      requires pays.id == orders[id].sellPrice.base.id && 0 < pays.amount <= orders[id].forSale
      requires receives.id == orders[id].sellPrice.quote.id && receives.amount > 0
      modifies this`orders, this`byPrice, this`accounts
      ensures Shape()
      ensures orders == Settled(old(orders), id, pays.amount) && gone == (id !in orders)
      ensures accounts == Payout(old(accounts), old(orders)[id], pays.amount, receives.amount)
      ensures |accounts| == |old(accounts)| && forall a, s :: 0 <= a < |accounts| ==>
        Balance(accounts, a, s) ==
          Balance(old(accounts), a, s) + Gain(old(orders)[id], id, orders, pays.amount, receives.amount, a, s)
    {
      hide Sum, Indexed, Worth, Times, Left, Live, Gain;
      var o := orders[id];
      accounts := Credit(accounts, o.seller, receives);
      if pays == AmountForSale(o) {
        NothingLeft(o, pays.amount);
        RemoveOrder(id);
        gone := true;
      } else {
        var left := o.(forSale := o.forSale - pays.amount);
        SamePlaces(orders, orders[id := left], byPrice);
        orders := orders[id := left];
        Receivable(o, pays.amount);
        var receivable := Times(AmountForSale(left), left.sellPrice);
        LeftIs(o, pays.amount);
        gone := receivable.value.amount == 0;
        if gone {
          CancelOrder(id);
          assert orders == old(orders) - {id};
        }
      }
      PayoutIsGain(old(accounts), old(orders), id, pays.amount, receives.amount);
    }

    /**
     Trades a new order against an older one at the older one's price.  Bit 0 of the result: the new
     order left the book; bit 1: the older one did.
     */
    method Match(newId: nat, oldId: nat) returns (result: nat)
      requires Shape() && Matchable(orders, newId, oldId)
      modifies this`orders, this`byPrice, this`accounts
      ensures Shape()
      ensures orders == Traded(old(orders), newId, oldId)
      ensures accounts == Credits(old(accounts), old(orders), newId, oldId)
      ensures TradedOnce(old(orders), old(accounts), orders, accounts, newId, oldId)
      ensures result == (if newId !in orders then 1 else 0) + (if oldId !in orders then 2 else 0)
      ensures forall s :: Total(s) == old(Total(s))
    {
      CreditsAreGains(accounts, orders, newId, oldId);
      hide Sum, Indexed, Worth, Left, Gain, TradedOnce;
      var newOrder, oldOrder := orders[newId], orders[oldId];
      var price := oldOrder.sellPrice;
      TradeFits(newOrder, oldOrder);
      TradeIsPossible(newOrder, oldOrder);
      var forSale := AmountForSale(newOrder);
      var wanted := Times(AmountForSale(oldOrder), price).value;
      var newReceives, oldReceives: Asset;
      if forSale.amount <= wanted.amount {
        oldReceives, newReceives := forSale, Times(forSale, price).value;
      } else {
        newReceives, oldReceives := AmountForSale(oldOrder), wanted;
      }
      var newGone := FillOrder(newId, oldReceives, newReceives);
      var oldGone := FillOrder(oldId, newReceives, oldReceives);
      result := (if newGone then 1 else 0) + (if oldGone then 2 else 0);
      forall s: AssetId
        ensures Total(s) == old(Total(s))
      {
        TradeKeepsTotals(old(accounts), old(orders), nextId, newId, oldId, s);
      }
    }

    /** The first position of the `by_price` index whose price is not above `p`. */
    method LowerBound(p: Price) returns (k: nat)
      requires Placed()
      ensures k <= |byPrice|
      ensures forall i :: 0 <= i < k ==> Less(p, orders[byPrice[i]].sellPrice)
      ensures k < |byPrice| ==> !Less(p, orders[byPrice[k]].sellPrice)
    {
      k := 0;
      while k < |byPrice| && Less(p, orders[byPrice[k]].sellPrice)
        invariant k <= |byPrice|
        invariant forall i :: 0 <= i < k ==> Less(p, orders[byPrice[i]].sellPrice)
      {
        k := k + 1;
      }
    }

    /** The first position of the `by_price` index whose price is below `p`. */
    method UpperBound(p: Price) returns (k: nat)
      requires Placed()
      ensures k <= |byPrice|
      ensures forall i :: 0 <= i < k ==> !Less(orders[byPrice[i]].sellPrice, p)
      ensures k < |byPrice| ==> Less(orders[byPrice[k]].sellPrice, p)
    {
      k := 0;
      while k < |byPrice| && !Less(orders[byPrice[k]].sellPrice, p)
        invariant k <= |byPrice|
        invariant forall i :: 0 <= i < k ==> !Less(orders[byPrice[i]].sellPrice, p)
      {
        k := k + 1;
      }
    }

    /**
     Trades a new order against everything it crosses, best price first and older orders first, until
     one of the two is exhausted.  Whatever is left does not cross.
     */
    method ApplyOrder(newId: nat) returns (filled: bool, ghost queue: seq<nat>, ghost trades: seq<(int, int)>)
      requires Shape() && newId in orders && UncrossedBut(orders, newId)
      modifies this`orders, this`byPrice, this`accounts
      ensures Shape() && Uncrossed(orders)
      ensures forall s :: Total(s) == old(Total(s))
      ensures filled == (newId !in orders)
      ensures Queue(old(orders), old(orders)[newId], queue) && Worked(old(orders), orders, newId, queue, |trades|)
      ensures (orders, accounts) == MatchedAll(old(orders), old(accounts), newId, queue)
      ensures |trades| < |queue| ==> filled
      ensures InTurn(old(orders), newId, queue, trades)
      ensures Exchanged(old(orders), old(accounts), 0, orders, accounts, newId, queue, trades)
    {
      hide Sum, Worth, Left, Less, Before, Live, Traded, Credits, Crosses, Worked, Indexed, Queue, Uncrossed,
        UncrossedBut, Exchanged, InTurn, TradedOnce, Trade;
      ghost var before := orders;
      var price := orders[newId].sellPrice;
      var asked := Inverse(price);
      var lo := LowerBound(Highest(asked));
      var hi := UpperBound(asked);
      RangeIsCrossing(orders, byPrice, orders[newId], lo, hi);
      QueueOf(orders, byPrice, orders[newId], lo, hi);
      var crossing := byPrice[lo..hi];
      queue := crossing;
      NothingWorked(before, newId, crossing);
      NothingExchanged(before, accounts, newId, crossing);
      trades := [];
      var i, finished := 0, false;
      while !finished && i < |crossing|
        invariant Shape() && i <= |crossing| && finished == (newId !in orders)
        invariant forall s :: Total(s) == old(Total(s))
        invariant Worked(before, orders, newId, crossing, i) && |trades| == i && InTurn(before, newId, crossing, trades)
        invariant Exchanged(before, old(accounts), 0, orders, accounts, newId, crossing, trades)
        invariant MatchedAll(orders, accounts, newId, crossing[i..]) ==
          MatchedAll(before, old(accounts), newId, crossing)
      {
        WorkedMore(before, orders, newId, crossing, i);
        assert crossing[i..][1..] == crossing[i + 1..];
        ghost var mid, paid := orders, accounts;
        var result := Match(newId, crossing[i]);
        ExchangedMore(before, old(accounts), mid, paid, accounts, newId, crossing, trades);
        trades := trades + [Trade(mid[newId], mid[crossing[i]])];
        finished := result % 2 == 1;
        i := i + 1;
      }
      filled := finished;
      WorkedUncrossed(before, orders, newId, crossing, i);
    }

    /**
     What both evaluators do: take the offer from the owner's balance, put the order in the book and
     match it.  An exception, as from a fill-or-kill order that is not filled, undoes everything.
     */
    method Place(owner: nat, offer: Asset, rate: Price, expiration: nat, now: nat, fillOrKill: bool)
      returns (ok: bool, ghost queue: seq<nat>, ghost trades: seq<(int, int)>)
      requires Valid() && Proper(rate) && offer.id == rate.base.id && 1 <= Worth(offer.amount, rate) < TWO_63
      requires offer.amount > 0
      modifies this
      ensures Valid() && forall s :: Total(s) == old(Total(s))
      ensures ok ==> nextId == old(nextId) + 1
      ensures if expiration <= now || owner >= |old(accounts)| || Balance(old(accounts), owner, offer.id) < offer.amount
              then !ok
              else PlacedAs(old(orders), old(accounts), old(nextId), Order(owner, offer.amount, rate, expiration),
                queue, fillOrKill, ok, orders, accounts)
      ensures ok ==> Fulfilled(old(orders), old(accounts), old(nextId), Order(owner, offer.amount, rate, expiration),
                               orders, accounts, queue, trades)
      ensures ok && fillOrKill ==> old(nextId) !in orders
      ensures ok && old(nextId) in orders ==>
        var left := orders[old(nextId)];
          left == Order(owner, left.forSale, rate, expiration) && left.forSale <= offer.amount
      ensures !ok ==>
        orders == old(orders) && accounts == old(accounts) && nextId == old(nextId) && byPrice == old(byPrice)
    {
      hide Sum, Worth, Left, Less, Before, Crosses, Indexed, Live, Uncrossed, UncrossedBut, Queue, Holdings, MatchedAll,
        Exchanged, InTurn, Worked;
      queue, trades := [], [];
      if expiration <= now || owner >= |accounts| || Balance(accounts, owner, offer.id) < offer.amount {
        return false, queue, trades;
      }
      var orders0, accounts0, byPrice0, id := orders, accounts, byPrice, nextId;
      OpenOrder(Order(owner, offer.amount, rate, expiration));
      ghost var open := orders;
      ok, queue, trades := ApplyOrder(id);
      OfferTaken(open, accounts0, orders, accounts, id, queue, trades);
      if id in orders {
        StaysItself(open, orders, id, queue, |trades|);
      }
      if fillOrKill && !ok {
        orders, accounts, byPrice, nextId := orders0, accounts0, byPrice0, id;
      } else {
        ok := true;
      }
    }

    /** Takes what an order has for sale from its owner's balance and puts the order in the book. */
    method OpenOrder(o: Order)
      requires Valid() && Proper(o.sellPrice) && 0 < o.forSale && 1 <= Worth(o.forSale, o.sellPrice) < TWO_63
      requires o.seller < |accounts| && o.forSale <= Balance(accounts, o.seller, o.sellPrice.base.id)
      modifies this`orders, this`byPrice, this`nextId, this`accounts
      ensures Shape() && nextId == old(nextId) + 1 && old(nextId) !in old(orders)
      ensures orders == old(orders)[old(nextId) := o]
      ensures accounts == Credit(old(accounts), o.seller, Asset(-o.forSale, o.sellPrice.base.id))
      ensures UncrossedBut(orders, old(nextId)) && forall s :: Total(s) == old(Total(s))
    {
      hide Sum, Worth, Less, Before, Crosses, Indexed;
      BalanceIsPart(accounts, orders, nextId, o.seller, o.sellPrice.base.id);
      assert Total(o.sellPrice.base.id) <= MAX_SHARE_SUPPLY;
      accounts := Credit(accounts, o.seller, Asset(-o.forSale, o.sellPrice.base.id));
      InsertOrder(o);
      forall s: AssetId
        ensures Total(s) == old(Total(s))
      {
        OfferKeepsTotals(old(accounts), old(orders), old(nextId), o, s);
      }
    }

    method InsertOrder(o: Order)
      requires Placed() && o.seller < |accounts| && Proper(o.sellPrice) && o.forSale > 0
      modifies this`orders, this`byPrice, this`nextId
      ensures Placed() && nextId == old(nextId) + 1 && old(nextId) !in old(orders)
      ensures orders == old(orders)[old(nextId) := o]
    {
      var k := 0;
      while k < |byPrice| && !Less(orders[byPrice[k]].sellPrice, o.sellPrice)
        invariant k <= |byPrice|
        invariant forall i :: 0 <= i < k ==> !Less(orders[byPrice[i]].sellPrice, o.sellPrice)
      {
        k := k + 1;
      }
      Inserted(orders, byPrice, k, nextId, o);
      orders, byPrice, nextId := orders[nextId := o], byPrice[..k] + [nextId] + byPrice[k..], nextId + 1;
    }

    /** `limit_order_create`: the price is what is sold over the least that is to be received. */
    method LimitOrderCreate(owner: nat, offer: Asset, minToReceive: Asset, expiration: nat, now: nat, fillOrKill: bool)
      returns (ok: bool, ghost queue: seq<nat>, ghost trades: seq<(int, int)>)
      requires Valid() && -TWO_63 <= minToReceive.amount < TWO_63
      modifies this
      ensures Valid() && forall s :: Total(s) == old(Total(s))
      ensures ok && fillOrKill ==> old(nextId) !in orders
      ensures ok && old(nextId) in orders ==>
        var left := orders[old(nextId)];
          left == Order(owner, left.forSale, Price(offer, minToReceive), expiration) && left.forSale <= offer.amount
      ensures if offer.id == VESTS_SYMBOL || minToReceive.id == VESTS_SYMBOL || !Proper(Price(offer, minToReceive))
                 || expiration <= now || owner >= |old(accounts)|
                 || Balance(old(accounts), owner, offer.id) < offer.amount then !ok
              else PlacedAs(old(orders), old(accounts), old(nextId),
                Order(owner, offer.amount, Price(offer, minToReceive), expiration),
                            queue, fillOrKill, ok, orders, accounts)
      ensures ok ==>
        Fulfilled(old(orders), old(accounts), old(nextId),
                  Order(owner, offer.amount, Price(offer, minToReceive), expiration), orders, accounts, queue, trades)
      ensures !ok ==> orders == old(orders) && accounts == old(accounts)
    {
      hide Fulfilled, PlacedAs, Sum, Indexed, Crosses, Holdings, Uncrossed, Balance;
      var rate := Price(offer, minToReceive);
      if offer.id == VESTS_SYMBOL || minToReceive.id == VESTS_SYMBOL || !Proper(rate) {
        return false, [], [];
      }
      Cancel(minToReceive.amount, offer.amount);
      assert offer.amount * minToReceive.amount == minToReceive.amount * offer.amount;
      ok, queue, trades := Place(owner, offer, rate, expiration, now, fillOrKill);
    }

    /** `limit_order_create2`: an offer that would round to nothing is rejected. */
    method LimitOrderCreate2(owner: nat, offer: Asset, rate: Price, expiration: nat, now: nat, fillOrKill: bool)
      returns (ok: bool, ghost queue: seq<nat>, ghost trades: seq<(int, int)>)
      requires Valid()
      modifies this
      ensures Valid() && forall s :: Total(s) == old(Total(s))
      ensures ok && fillOrKill ==> old(nextId) !in orders
      ensures ok && old(nextId) in orders ==>
        var left := orders[old(nextId)];
          left == Order(owner, left.forSale, rate, expiration) && left.forSale <= offer.amount
      ensures if offer.id != rate.base.id || !Proper(rate) || offer.id == VESTS_SYMBOL || rate.quote.id == VESTS_SYMBOL
        || offer.amount <= 0
                 || Times(offer, rate).None? || Times(offer, rate).value.amount <= 0
                    || expiration <= now || owner >= |old(accounts)|
                 || Balance(old(accounts), owner, offer.id) < offer.amount then !ok
              else PlacedAs(old(orders), old(accounts), old(nextId), Order(owner, offer.amount, rate, expiration),
                queue, fillOrKill, ok, orders, accounts)
      ensures ok ==> Fulfilled(old(orders), old(accounts), old(nextId), Order(owner, offer.amount, rate, expiration),
                               orders, accounts, queue, trades)
      ensures !ok ==> orders == old(orders) && accounts == old(accounts)
    {
      hide Fulfilled, PlacedAs, Sum, Indexed, Crosses, Holdings, Uncrossed, Balance;
      if offer.id != rate.base.id || !Proper(rate) || rate.base.id == VESTS_SYMBOL || rate.quote.id == VESTS_SYMBOL
        || offer.amount <= 0 {
        return false, [], [];
      }
      var receivable := Times(offer, rate);
      if receivable.None? || receivable.value.amount <= 0 {
        return false, [], [];
      }
      ok, queue, trades := Place(owner, offer, rate, expiration, now, fillOrKill);
    }

    /** Cancelling an order of an uncrossed book leaves an uncrossed book. */
    method CancelInBook(id: nat)
      requires Valid() && id in orders
      modifies this`orders, this`byPrice, this`accounts
      ensures Valid() && id < nextId && old(orders)[id].seller < |old(accounts)| && orders == old(orders) - {id}
      ensures accounts == Credit(old(accounts), old(orders)[id].seller, AmountForSale(old(orders)[id]))
      ensures forall s :: Total(s) == old(Total(s))
    {
      hide Sum, Worth, Less, Before, Indexed, Crosses, Uncrossed, Live, Holdings;
      FewerUncrossed(orders, id);
      CancelOrder(id);
    }

    /** `limit_order_cancel`. */
    method LimitOrderCancel(id: nat) returns (ok: bool)
      requires Valid()
      modifies this`orders, this`byPrice, this`accounts
      ensures Valid() && ok == (id in old(orders)) && orders == old(orders) - {id} && |accounts| == |old(accounts)|
      ensures !ok ==> accounts == old(accounts)
      ensures forall a, s :: 0 <= a < |accounts| ==>
        Balance(accounts, a, s) == Balance(old(accounts), a, s) + if ok && a == old(orders)[id].seller
          && s == old(orders)[id].sellPrice.base.id then old(orders)[id].forSale else 0
      ensures forall s :: Total(s) == old(Total(s))
    {
      hide Valid;
      ok := id in orders;
      if ok {
        CancelInBook(id);
      }
    }

    /** `clear_expired_orders`. */
    method ClearExpiredOrders(now: nat)
      requires Valid()
      modifies this`orders, this`byPrice, this`accounts
      ensures Valid() && forall s :: Total(s) == old(Total(s))
      ensures orders == map id | id in old(orders) && old(orders)[id].expiration >= now :: old(orders)[id]
      ensures |accounts| == |old(accounts)| && forall a, s :: 0 <= a < |accounts| ==>
        Balance(accounts, a, s) == Balance(old(accounts), a, s) + Sum(nextId, RefundTerm(old(orders), now, a, s))
    {
      hide *;
      ghost var start, funds := orders, accounts;
      var expired := set id | id in orders && orders[id].expiration < now;
      NoneCancelled(funds, start, nextId, now);
      while expired != {}
        invariant Valid() && forall s :: Total(s) == old(Total(s))
        invariant Expiring(start, orders, expired, now) && SameClaims(funds, start, accounts, orders, nextId, now)
      {
        var id :| id in expired;
        OneExpired(start, orders, expired, now, id);
        ghost var orders0, accounts0 := orders, accounts;
        CancelInBook(id);
        OneRefund(funds, start, accounts0, orders0, nextId, id, now);
        expired := expired - {id};
      }
      AllExpired(start, orders, now);
      AllRefunded(funds, start, accounts, orders, nextId, now);
    }
  }
}

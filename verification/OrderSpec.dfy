/**
 Prices, limit orders and single trades: rational prices, rounding, and the order in which the book is kept.
 */
module OrderSpec {
  import opened Wrappers
  import opened Rounding
  import opened Sums

  type AssetId = nat

  /** `BTCM_MAX_SHARE_SUPPLY`. */
  const MAX_SHARE_SUPPLY := 30000000000000
  const TWO_63 := 0x8000_0000_0000_0000
  const TWO_64 := 0x1_0000_0000_0000_0000

  datatype Asset = Asset(amount: int, id: AssetId)

  /** `base` is sold for `quote`. */
  datatype Price = Price(base: Asset, quote: Asset)

  datatype Order = Order(seller: nat, forSale: int, sellPrice: Price, expiration: nat)

  type Orders = map<nat, Order>
  type Balances = seq<map<AssetId, int>>

  /** `price::validate`. */
  predicate Proper(p: Price) {
    p.base.amount > 0 && p.quote.amount > 0 && p.base.id != p.quote.id
  }

  function Inverse(p: Price): Price {
    Price(p.quote, p.base)
  }

  /** The highest price of a market. */
  function Highest(p: Price): Price {
    Price(Asset(MAX_SHARE_SUPPLY, p.base.id), Asset(1, p.quote.id))
  }

  /** Markets apart, prices are compared as fractions. */
  predicate Less(a: Price, b: Price) {
    if a.base.id != b.base.id then a.base.id < b.base.id
    else if a.quote.id != b.quote.id then a.quote.id < b.quote.id
    else b.quote.amount * a.base.amount < a.quote.amount * b.base.amount
  }

  /**
   `asset * price`: rounded down, and nothing if it does not fit 64 bits; a result above the signed
   range turns negative.
   */
  function Times(a: Asset, p: Price): Option<Asset>
    requires a.amount >= 0 && Proper(p)
  {
    if a.id == p.base.id then Narrow(a.amount * p.quote.amount / p.base.amount, p.quote.id)
    else if a.id == p.quote.id then Narrow(a.amount * p.base.amount / p.quote.amount, p.base.id)
    else None
  }

  function Narrow(amount: int, id: AssetId): Option<Asset> {
    if amount >= TWO_64 then None else Some(Asset(if amount >= TWO_63 then amount - TWO_64 else amount, id))
  }

  function AmountForSale(o: Order): Asset {
    Asset(o.forSale, o.sellPrice.base.id)
  }

  /** What an order still asks for, rounded down. */
  function Worth(amount: int, p: Price): int
    requires p.base.amount > 0
  {
    amount * p.quote.amount / p.base.amount
  }

  lemma {:induction false} WorthLess(a: int, b: int, p: Price)
    requires Proper(p) && 0 <= a <= b
    ensures 0 <= Worth(a, p) <= Worth(b, p)
  {
    Scale(a, b, p.quote.amount);
    DivisionMonotone(a * p.quote.amount, b * p.quote.amount, p.base.amount);
    DivisionMonotone(0, a * p.quote.amount, p.base.amount);
  }

  /** An order that may stay in the book: it asks for at least one unit. */
  predicate Live(o: Order) {
    Proper(o.sellPrice) && 0 < o.forSale <= MAX_SHARE_SUPPLY && 1 <= Worth(o.forSale, o.sellPrice) < TWO_63
  }

  /** Each order offers the other at least what it asks for. */
  predicate Crosses(n: Order, o: Order) {
    && o.sellPrice.base.id == n.sellPrice.quote.id && o.sellPrice.quote.id == n.sellPrice.base.id
    && !Less(o.sellPrice, Inverse(n.sellPrice))
  }

  /** What is left of an order that paid; nothing if it could not ask for a single unit any more. */
  function Left(o: Order, pays: int): (left: Option<Order>)
    requires Live(o) && 0 < pays <= o.forSale
    ensures left.Some? ==> Live(left.value) && left.value == o.(forSale := o.forSale - pays)
  {
    WorthLess(o.forSale - pays, o.forSale, o.sellPrice);
    if Worth(o.forSale - pays, o.sellPrice) == 0 then None else Some(o.(forSale := o.forSale - pays))
  }

  lemma {:induction false} Receivable(o: Order, pays: int)
    requires Live(o) && 0 < pays < o.forSale
    ensures var less := Asset(o.forSale - pays, o.sellPrice.base.id);
      Times(less, o.sellPrice) == Some(Asset(Worth(less.amount, o.sellPrice), o.sellPrice.quote.id))
  {
    WorthLess(o.forSale - pays, o.forSale, o.sellPrice);
  }

  /** What a new order pays and receives when it meets an older order, at the price of the older one. */
  function Trade(n: Order, o: Order): (int, int)
    requires Proper(o.sellPrice)
  {
    var wanted := Worth(o.forSale, o.sellPrice);
    if n.forSale <= wanted then (n.forSale, n.forSale * o.sellPrice.base.amount / o.sellPrice.quote.amount)
    else (wanted, o.forSale)
  }

  /** At least one side of a trade is used up, neither pays more than it offers, and both are paid something. */
  lemma {:induction false} TradeIsPossible(n: Order, o: Order)
    requires Live(n) && Live(o) && Crosses(n, o)
    ensures var (pays, receives) := Trade(n, o);
      && 0 < pays <= n.forSale && 0 < receives <= o.forSale && (pays == n.forSale || receives == o.forSale)
  {
    var np, op := n.sellPrice, o.sellPrice;
    var wanted := Worth(o.forSale, op);
    if n.forSale <= wanted {
      var given := n.forSale * op.base.amount / op.quote.amount;
      DivisionBounds(o.forSale * op.quote.amount, op.base.amount);
      Scale(n.forSale, wanted, op.base.amount);
      AtLeast(n.forSale * op.base.amount, op.quote.amount, o.forSale);
      DivisionMonotone(n.forSale * op.base.amount, o.forSale * op.quote.amount, op.quote.amount);
      Cancel(o.forSale, op.quote.amount);
      BetterPriceGivesMore(n.forSale, np, op);
    }
  }

  /** Selling at a price that crosses one's own gives at least what the own price gives. */
  lemma {:induction false} BetterPriceGivesMore(amount: int, np: Price, op: Price)
    requires amount >= 0 && Proper(np) && Proper(op)
    requires op.quote.amount * np.quote.amount <= op.base.amount * np.base.amount
    ensures Worth(amount, np) <= amount * op.base.amount / op.quote.amount
  {
    var got := Worth(amount, np);
    DivisionBounds(amount * np.quote.amount, np.base.amount);
    Scale(op.quote.amount * np.quote.amount, op.base.amount * np.base.amount, amount);
    Scale(got * np.base.amount, amount * np.quote.amount, op.quote.amount);
    assert amount * np.quote.amount * op.quote.amount == op.quote.amount * np.quote.amount * amount;
    assert op.base.amount * np.base.amount * amount == amount * op.base.amount * np.base.amount;
    assert got * np.base.amount * op.quote.amount == got * op.quote.amount * np.base.amount;
    ProductOrder(got * op.quote.amount, amount * op.base.amount, np.base.amount);
    AtLeast(amount * op.base.amount, op.quote.amount, got);
  }

  /** What is received is worth what is paid at price `p`, without rounding. */
  predicate InFull(pays: int, receives: int, p: Price) {
    pays * p.quote.amount <= receives * p.base.amount
  }

  lemma {:induction false} InFullIsEnough(pays: int, receives: int, p: Price)
    requires Proper(p) && InFull(pays, receives, p)
    ensures Worth(pays, p) <= receives
  {
    AtLeast(pays * p.quote.amount, p.base.amount, receives + 1);
    assert (receives + 1) * p.base.amount == receives * p.base.amount + p.base.amount;
  }

  /** The older order sets the price: whoever is used up second gets it in full. */
  lemma {:induction false} OlderInFull(n: Order, o: Order)
    requires Proper(o.sellPrice)
    ensures var (pays, receives) := Trade(n, o);
      if n.forSale <= Worth(o.forSale, o.sellPrice) then InFull(receives, pays, o.sellPrice)
      else pays * o.sellPrice.base.amount <= receives * o.sellPrice.quote.amount
  {
    var p := o.sellPrice;
    DivisionBounds(n.forSale * p.base.amount, p.quote.amount);
    DivisionBounds(o.forSale * p.quote.amount, p.base.amount);
  }

  lemma {:induction false} NewerInFull(pays: int, receives: int, np: Price, op: Price)
    requires Proper(np) && Proper(op) && receives >= 0
    requires op.quote.amount * np.quote.amount <= op.base.amount * np.base.amount
    requires pays * op.base.amount <= receives * op.quote.amount
    ensures InFull(pays, receives, np)
  {
    Scale(pays * op.base.amount, receives * op.quote.amount, np.quote.amount);
    Scale(op.quote.amount * np.quote.amount, op.base.amount * np.base.amount, receives);
    assert pays * op.base.amount * np.quote.amount == pays * np.quote.amount * op.base.amount;
    assert receives * op.quote.amount * np.quote.amount == op.quote.amount * np.quote.amount * receives;
    assert op.base.amount * np.base.amount * receives == receives * np.base.amount * op.base.amount;
    ProductOrder(pays * np.quote.amount, receives * np.base.amount, op.base.amount);
  }

  /** Both limits are honoured up to rounding down once, and one of the two sides is not rounded at all. */
  lemma {:induction false} LimitsHonoured(n: Order, o: Order)
    requires Live(n) && Live(o) && Crosses(n, o)
    ensures var (pays, receives) := Trade(n, o);
      && Worth(pays, n.sellPrice) <= receives && Worth(receives, o.sellPrice) <= pays
      && (InFull(pays, receives, n.sellPrice) || InFull(receives, pays, o.sellPrice))
  {
    hide Worth, InFull;
    var np, op := n.sellPrice, o.sellPrice;
    var (pays, receives) := Trade(n, o);
    OlderInFull(n, o);
    TradeIsPossible(n, o);
    if n.forSale <= Worth(o.forSale, op) {
      BetterPriceGivesMore(n.forSale, np, op);
      InFullIsEnough(receives, pays, op);
    } else {
      NewerInFull(pays, receives, np, op);
      InFullIsEnough(pays, receives, np);
    }
  }

  /** The products of a trade fit their 64 bits, so that no assertion of `asset * price` fails. */
  lemma {:induction false} TradeFits(n: Order, o: Order)
    requires Live(n) && Live(o) && Crosses(n, o)
    ensures Times(AmountForSale(o), o.sellPrice) == Some(Asset(Worth(o.forSale, o.sellPrice), o.sellPrice.quote.id))
    ensures n.forSale <= Worth(o.forSale, o.sellPrice) ==>
      Times(AmountForSale(n), o.sellPrice) == Some(Asset(Trade(n, o).1, o.sellPrice.base.id))
  {
    TradeIsPossible(n, o);
  }

  /** An order that can be in the book is not priced above the highest price of its market. */
  lemma {:induction false} NotAboveHighest(o: Order)
    requires Live(o)
    ensures !Less(Highest(o.sellPrice), o.sellPrice)
  {
    var p := o.sellPrice;
    AtLeast(o.forSale * p.quote.amount, p.base.amount, 1);
    Scale(o.forSale, MAX_SHARE_SUPPLY, p.quote.amount);
  }

  /** Crossing is the same seen from either side. */
  lemma {:induction false} CrossesBack(n: Order, o: Order)
    ensures Crosses(n, o) <==> Crosses(o, n)
  {
  }

  /** `!Less` is a total order on prices up to equal fractions. */
  lemma {:induction false} AtLeastTransitive(a: Price, b: Price, c: Price)
    requires Proper(a) && Proper(b) && Proper(c) && !Less(a, b) && !Less(b, c)
    ensures !Less(a, c)
    ensures !Less(c, a) ==> !Less(b, a) && !Less(c, b)
  {
    if a.base.id == c.base.id && a.quote.id == c.quote.id {
      FractionsTransitive(c.base.amount, c.quote.amount, b.base.amount, b.quote.amount, a.base.amount, a.quote.amount);
      if !Less(c, a) {
        FractionsTransitive(a.base.amount, a.quote.amount, c.base.amount, c.quote.amount, b.base.amount,
          b.quote.amount);
        FractionsTransitive(b.base.amount, b.quote.amount, a.base.amount, a.quote.amount, c.base.amount,
          c.quote.amount);
      }
    }
  }
}

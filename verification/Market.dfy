/**
 The limit-order market: price-time matching with rounding, trade fees and dust cancellation, on top
 of three redundant books (liquid balances, market balances, pair depths) that must stay in agreement
 with the orders themselves.
 */
module Market {
  import opened Common
  import opened Arith
  import opened Sums
  import opened Prices

  type Name = string

  datatype Order = Order(seller: Name, orderId: nat, forSale: int, price: Price, expiration: nat)

  /** What trading an asset costs the receiver, and who is paid; core assets have no entry. */
  datatype Fee = Fee(creator: Name, percent: int)

  type Fees = map<Symbol, Fee>

  predicate ValidFees(fees: Fees) {
    forall s :: s in fees ==> 0 <= fees[s].percent <= HUNDRED_PERCENT
  }

  type Account = (Name, Symbol)

  type Pair = (Symbol, Symbol)

  datatype Book = Book(
    orders: map<nat, Order>,
    nextId: nat,
    balances: map<Account, int>,
    marketBalances: map<Account, int>,
    depths: map<Pair, (int, int)>)

  function AmountToReceive(o: Order): int
    requires 0 < o.price.base
  {
    ToQuote(o.forSale, o.price)
  }

  /** An order that may rest: it sells something and asks for something. */
  predicate Sound(o: Order) {
    ValidPrice(o.price) && 0 < o.forSale && 1 <= AmountToReceive(o)
  }

  function PairOf(o: Order): Pair {
    (o.price.baseSymbol, o.price.quoteSymbol)
  }

  // ---------- one trade ----------

  datatype Trade = Trade(newPays: int, newReceives: int)

  /** match: the resting order's price decides; the smaller side is filled. */
  function MatchAmounts(newForSale: int, oldForSale: int, price: Price): Trade
    requires ValidPrice(price)
  {
    if newForSale <= ToQuote(oldForSale, price) then Trade(newForSale, ToBase(newForSale, price))
    else Trade(ToQuote(oldForSale, price), oldForSale)
  }

  /** When the new order is the smaller side. */
  lemma FairSmallNew(n: Order, o: Order)
    requires Sound(n) && Sound(o) && Crosses(o.price, n.price) && n.forSale <= ToQuote(o.forSale, o.price)
    ensures var t := MatchAmounts(n.forSale, o.forSale, o.price);
            && t.newPays == n.forSale && 1 <= t.newReceives <= o.forSale
            && AmountToReceive(n) <= t.newReceives
            && t.newReceives * o.price.quote <= t.newPays * o.price.base
  {
    var b, q := o.price.base, o.price.quote;
    var r := ToBase(n.forSale, o.price);
    DivBounds(n.forSale * b, q);
    // the new side gets at least what its own limit asks for
    DivBounds(n.forSale * n.price.quote, n.price.base);
    var ask := AmountToReceive(n);
    assert ask * n.price.base <= n.forSale * n.price.quote;
    RatioStep(ask, n.price.base, n.forSale, n.price.quote, b, q);
    DivAtLeast(n.forSale * b, q, ask);
    // the old side never pays more than it has
    DivAtLeast(o.forSale * q, b, n.forSale);
    assert r * q <= n.forSale * b <= o.forSale * q;
    if r > o.forSale {
      MulStrict(o.forSale, r, q);
      assert false;
    }
  }

  /** x/y is at most z/w, which the price b/q is at least: ask * q <= sell * b. */
  lemma RatioStep(ask: int, base: int, sell: int, quote: int, b: int, q: int)
    requires 0 < base && 0 < q && 0 <= sell && 0 < b && ask * base <= sell * quote && quote * q <= base * b
    ensures ask * q <= sell * b
  {
    calc {
      ask * q * base;
      (ask * base) * q;
      <= { MulMonotone(ask * base, sell * quote, q); }
      (sell * quote) * q;
      (quote * q) * sell;
      <= { MulMonotone(quote * q, base * b, sell); }
      (base * b) * sell;
      sell * b * base;
    }
    if ask * q > sell * b {
      MulStrict(sell * b, ask * q, base);
      assert false;
    }
  }

  /** When the resting order is the smaller side. */
  lemma FairSmallOld(n: Order, o: Order)
    requires Sound(n) && Sound(o) && Crosses(o.price, n.price) && n.forSale > ToQuote(o.forSale, o.price)
    ensures var t := MatchAmounts(n.forSale, o.forSale, o.price);
            && t.newReceives == o.forSale && 1 <= t.newPays < n.forSale && t.newPays == AmountToReceive(o)
            && t.newPays * n.price.quote <= t.newReceives * n.price.base
            && t.newPays * n.price.quote / n.price.base <= t.newReceives
  {
    var b, q := o.price.base, o.price.quote;
    var pays := ToQuote(o.forSale, o.price);
    DivBounds(o.forSale * q, b);
    assert pays * b <= o.forSale * q;
    RatioStep2(pays, b, o.forSale, q, n.price.base, n.price.quote);
    DivAtLeast(pays * n.price.quote, n.price.base, o.forSale + 1);
    assert (o.forSale + 1) * n.price.base == o.forSale * n.price.base + n.price.base;
  }

  lemma RatioStep2(pays: int, b: int, sell: int, q: int, nb: int, nq: int)
    requires 0 < b && 0 < q && 0 < nb && 0 < nq && 0 <= sell && 0 <= pays && pays * b <= sell * q && nq * q <= nb * b
    ensures pays * nq <= sell * nb
  {
    calc {
      pays * nq * (b * q);
      (pays * b) * (nq * q);
      <= { MulMonotone(pays * b, sell * q, nq * q); }
      (sell * q) * (nq * q);
      (nq * q) * (sell * q);
      <= { MulMonotone(nq * q, nb * b, sell * q); }
      (nb * b) * (sell * q);
      sell * nb * (b * q);
    }
    if pays * nq > sell * nb {
      MulStrict(sell * nb, pays * nq, b * q);
      assert false;
    }
  }

  /**
   Every trade, before fees: both sides move at least one unit and no more than they have, one of them
   sells all it has, each receives at least the floor of what it pays at its own limit, and the side
   whose payment was rounded down gets its own limit price with no rounding loss at all.
   */
  lemma EveryTradeIsFair(n: Order, o: Order)
    requires Sound(n) && Sound(o) && Crosses(o.price, n.price)
    ensures var t := MatchAmounts(n.forSale, o.forSale, o.price);
            && 1 <= t.newPays <= n.forSale && 1 <= t.newReceives <= o.forSale
            && (t.newPays == n.forSale || t.newReceives == o.forSale)
            && t.newPays * n.price.quote / n.price.base <= t.newReceives
            && t.newReceives * o.price.quote / o.price.base <= t.newPays
            && (n.forSale <= ToQuote(o.forSale, o.price) ==> t.newReceives * o.price.quote <= t.newPays * o.price.base)
            && (n.forSale > ToQuote(o.forSale, o.price) ==> t.newPays * n.price.quote <= t.newReceives * n.price.base)
  {
    var t := MatchAmounts(n.forSale, o.forSale, o.price);
    if n.forSale <= ToQuote(o.forSale, o.price) {
      FairSmallNew(n, o);
      DivAtLeast(t.newReceives * o.price.quote, o.price.base, t.newPays + 1);
      assert (t.newPays + 1) * o.price.base == t.newPays * o.price.base + o.price.base;
    } else {
      FairSmallOld(n, o);
    }
  }

  lemma TradeAmounts(n: Order, o: Order)
    requires Sound(n) && Sound(o) && Crosses(o.price, n.price)
    ensures var t := MatchAmounts(n.forSale, o.forSale, o.price);
            1 <= t.newPays <= n.forSale && 1 <= t.newReceives <= o.forSale
  {
    EveryTradeIsFair(n, o);
  }

  // ---------- the books ----------

  function Held(m: map<Account, int>, a: Account): int {
    if a in m then m[a] else 0
  }

  function Adjusted(m: map<Account, int>, a: Account, delta: int): map<Account, int> {
    m[a := Held(m, a) + delta]
  }

  function Depth(m: map<Pair, (int, int)>, p: Pair): (int, int) {
    if p in m then m[p] else (0, 0)
  }

  /** update_pair_depth: an entry that becomes empty is removed. */
  function Deepened(m: map<Pair, (int, int)>, p: Pair, base: int, quote: int): map<Pair, (int, int)> {
    if p !in m then m[p := (base, quote)]
    else if m[p].0 + base == 0 && m[p].1 + quote == 0 then m - {p}
    else m[p := (m[p].0 + base, m[p].1 + quote)]
  }

  function Cancelled(b: Book, id: nat): Book
    requires id in b.orders && 0 < b.orders[id].price.base
  {
    var o := b.orders[id];
    b.(balances := Adjusted(b.balances, (o.seller, o.price.baseSymbol), o.forSale),
       marketBalances := Adjusted(b.marketBalances, (o.seller, o.price.baseSymbol), -o.forSale),
       depths := Deepened(b.depths, PairOf(o), -o.forSale, -AmountToReceive(o)),
       orders := b.orders - {id})
  }

  /** The seller of order id has been paid, and the order has not been changed yet. */
  function PaidFor(b: Book, id: nat, pays: int, receives: int): Book
    requires id in b.orders
  {
    var o := b.orders[id];
    b.(balances := Adjusted(b.balances, (o.seller, o.price.quoteSymbol), receives),
       marketBalances := Adjusted(b.marketBalances, (o.seller, o.price.baseSymbol), -pays))
  }

  /** A partial fill, before an order that has become too small is cancelled. */
  function Shrunk(b: Book, id: nat, pays: int, receives: int): Book
    requires id in b.orders && 0 < b.orders[id].price.base
  {
    var o := b.orders[id];
    var rest := o.(forSale := o.forSale - pays);
    PaidFor(b, id, pays, receives).(
      depths := Deepened(b.depths, PairOf(o), -pays, AmountToReceive(rest) - AmountToReceive(o)),
      orders := b.orders[id := rest])
  }

  /** fill_order: the flag says that the order has left the book. */
  function Filled(b: Book, id: nat, pays: int, receives: int): (Book, bool)
    requires id in b.orders && 0 < b.orders[id].price.base
  {
    var o := b.orders[id];
    if pays == o.forSale then
      var depths := Deepened(b.depths, PairOf(o), -o.forSale, -AmountToReceive(o));
      (PaidFor(b, id, pays, receives).(depths := depths, orders := b.orders - {id}), true)
    else
      var smaller := Shrunk(b, id, pays, receives);
      if AmountToReceive(smaller.orders[id]) == 0 then (Cancelled(smaller, id), true) else (smaller, false)
  }

  /** The part of a received amount that goes to the asset's creator. */
  function FeeOf(fees: Fees, s: Symbol, received: int): (fee: int)
    requires ValidFees(fees) && 0 <= received
    ensures 0 <= fee <= received
  {
    if s !in fees || fees[s].percent == 0 || received == 0 then 0
    else
      DivAtLeast(received * fees[s].percent, HUNDRED_PERCENT, received + 1);
      assert received * fees[s].percent <= received * HUNDRED_PERCENT by {
        MulMonotone(fees[s].percent, HUNDRED_PERCENT, received);
      }
      var fee := received * fees[s].percent / HUNDRED_PERCENT;
      if fee < 1 then 1 else fee
  }

  function FeePaid(fees: Fees, b: Book, s: Symbol, received: int): Book
    requires ValidFees(fees) && 0 <= received
  {
    var fee := FeeOf(fees, s, received);
    if fee == 0 then b else b.(balances := Adjusted(b.balances, (fees[s].creator, s), fee))
  }

  // ---------- totals over the orders ----------

  ghost function Ids(n: nat): (ids: set<nat>)
    ensures forall i: nat :: i in ids <==> i < n
  {
    if n == 0 then {} else Ids(n - 1) + {n - 1}
  }

  ghost function Term(orders: map<nat, Order>, w: Order -> int): nat -> int {
    (id: nat) => if id in orders then w(orders[id]) else 0
  }

  ghost function Total(orders: map<nat, Order>, n: nat, w: Order -> int): int {
    Sum(Ids(n), Term(orders, w))
  }

  lemma TotalSet(orders: map<nat, Order>, n: nat, w: Order -> int, id: nat, o: Order)
    requires id < n
    ensures Total(orders[id := o], n, w) == Total(orders, n, w) + w(o) - if id in orders then w(orders[id]) else 0
  {
    SumPoint(Ids(n), Term(orders, w), Term(orders[id := o], w), id);
  }

  lemma TotalRemove(orders: map<nat, Order>, n: nat, w: Order -> int, id: nat)
    requires id < n && id in orders
    ensures Total(orders - {id}, n, w) == Total(orders, n, w) - w(orders[id])
  {
    SumPoint(Ids(n), Term(orders, w), Term(orders - {id}, w), id);
  }

  lemma TotalGrow(orders: map<nat, Order>, n: nat, w: Order -> int)
    requires n !in orders
    ensures Total(orders, n + 1, w) == Total(orders, n, w)
  {
    assert Ids(n + 1) == Ids(n) + {n};
    SumInsert(Ids(n), Term(orders, w), n);
  }

  ghost function SoldBy(a: Account): Order -> int {
    (o: Order) => if (o.seller, o.price.baseSymbol) == a then o.forSale else 0
  }

  /** What an account holds of an asset and has on offer. */
  ghost function Wealth(b: Book, a: Account): int {
    Held(b.balances, a) + Total(b.orders, b.nextId, SoldBy(a))
  }

  ghost function SoldIn(p: Pair): Order -> int {
    (o: Order) => if PairOf(o) == p then o.forSale else 0
  }

  ghost function AskedIn(p: Pair): Order -> int {
    (o: Order) => if PairOf(o) == p && 0 < o.price.base then AmountToReceive(o) else 0
  }

  ghost function SoldOf(s: Symbol): Order -> int {
    (o: Order) => if o.price.baseSymbol == s then o.forSale else 0
  }

  ghost function BalanceOf(m: map<Account, int>, s: Symbol): Account -> int {
    (a: Account) => if a in m && a.1 == s then m[a] else 0
  }

  ghost function Liquid(m: map<Account, int>, s: Symbol): int {
    Sum(m.Keys, BalanceOf(m, s))
  }

  /** Everything there is of an asset: liquid, or offered for sale. */
  ghost function Supply(b: Book, s: Symbol): int {
    Liquid(b.balances, s) + Total(b.orders, b.nextId, SoldOf(s))
  }

  lemma BalanceAdjusted(m: map<Account, int>, a: Account, delta: int, s: Symbol)
    ensures Liquid(Adjusted(m, a, delta), s) == Liquid(m, s) + if a.1 == s then delta else 0
  {
    var r := Adjusted(m, a, delta);
    if a in m {
      assert r.Keys == m.Keys;
      SumPoint(m.Keys, BalanceOf(m, s), BalanceOf(r, s), a);
    } else {
      assert r.Keys == m.Keys + {a};
      SumInsert(m.Keys, BalanceOf(r, s), a);
      SumCongruence(m.Keys, BalanceOf(m, s), BalanceOf(r, s));
    }
  }

  // ---------- the invariant ----------

  predicate OrdersSound(b: Book) {
    forall id :: id in b.orders ==> id < b.nextId && Sound(b.orders[id])
  }

  ghost predicate MarketExact(b: Book) {
    forall a: Account :: Held(b.marketBalances, a) == Total(b.orders, b.nextId, SoldBy(a))
  }

  /** Depths agree with the orders, except that off is still missing from pair p. */
  ghost predicate DepthExact(b: Book, p: Pair, off: (int, int)) {
    forall x: Pair ::
      && Depth(b.depths, x).0 + (if x == p then off.0 else 0) == Total(b.orders, b.nextId, SoldIn(x))
      && Depth(b.depths, x).1 + (if x == p then off.1 else 0) == Total(b.orders, b.nextId, AskedIn(x))
  }

  predicate BalancesSound(b: Book) {
    forall a :: a in b.balances ==> 0 <= b.balances[a]
  }

  /** Two resting orders that cross: only behind an older one that sells above the price cap. */
  predicate CrossedOnlyOverCap(b: Book) {
    forall i, j :: i in b.orders && j in b.orders && i < j && Crosses(b.orders[i].price, b.orders[j].price) ==>
      OverCap(b.orders[i].price)
  }

  ghost predicate Inv(b: Book) {
    && OrdersSound(b) && MarketExact(b) && DepthExact(b, (0, 0), (0, 0)) && BalancesSound(b) && CrossedOnlyOverCap(b)
  }

  // ---------- cancelling and filling keep the books in agreement ----------

  /** Removing an order together with what the books hold for it. */
  lemma RemoveKeeps(b: Book, id: nat, r: Book, p: Pair, off: (int, int))
    requires id in b.orders && id < b.nextId && ValidPrice(b.orders[id].price)
            && OrdersSound(b.(orders := b.orders - {id}))
    requires MarketExact(b) && DepthExact(b, p, off)
    requires r.orders == b.orders - {id} && r.nextId == b.nextId
    requires var o := b.orders[id];
             && r.marketBalances == Adjusted(b.marketBalances, (o.seller, o.price.baseSymbol), -o.forSale)
             && r.depths == Deepened(b.depths, PairOf(o), -o.forSale, -AmountToReceive(o))
    ensures OrdersSound(r) && MarketExact(r) && DepthExact(r, p, off)
  {
    hide Total, ToQuote;
    forall a: Account
      ensures Held(r.marketBalances, a) == Total(r.orders, r.nextId, SoldBy(a))
    {
      TotalRemove(b.orders, b.nextId, SoldBy(a), id);
    }
    forall x: Pair
      ensures Depth(r.depths, x).0 + (if x == p then off.0 else 0) == Total(r.orders, r.nextId, SoldIn(x))
      ensures Depth(r.depths, x).1 + (if x == p then off.1 else 0) == Total(r.orders, r.nextId, AskedIn(x))
    {
      TotalRemove(b.orders, b.nextId, SoldIn(x), id);
      TotalRemove(b.orders, b.nextId, AskedIn(x), id);
    }
  }

  /** Shrinking an order by what it pays. */
  lemma ShrinkKeeps(b: Book, id: nat, pays: int, r: Book, p: Pair, off: (int, int))
    requires OrdersSound(b) && id in b.orders && MarketExact(b) && DepthExact(b, p, off)
    requires r.nextId == b.nextId
    requires var o := b.orders[id];
             var rest := o.(forSale := o.forSale - pays);
             && r.orders == b.orders[id := rest]
             && r.marketBalances == Adjusted(b.marketBalances, (o.seller, o.price.baseSymbol), -pays)
             && r.depths == Deepened(b.depths, PairOf(o), -pays, AmountToReceive(rest) - AmountToReceive(o))
    ensures MarketExact(r) && DepthExact(r, p, off)
  {
    hide Total, ToQuote;
    var o := b.orders[id];
    var rest := o.(forSale := o.forSale - pays);
    forall a: Account
      ensures Held(r.marketBalances, a) == Total(r.orders, r.nextId, SoldBy(a))
    {
      TotalSet(b.orders, b.nextId, SoldBy(a), id, rest);
    }
    forall x: Pair
      ensures Depth(r.depths, x).0 + (if x == p then off.0 else 0) == Total(r.orders, r.nextId, SoldIn(x))
      ensures Depth(r.depths, x).1 + (if x == p then off.1 else 0) == Total(r.orders, r.nextId, AskedIn(x))
    {
      TotalSet(b.orders, b.nextId, SoldIn(x), id, rest);
      TotalSet(b.orders, b.nextId, AskedIn(x), id, rest);
    }
  }

  lemma SoldOfAt(s: Symbol, o: Order)
    ensures SoldOf(s)(o) == if o.price.baseSymbol == s then o.forSale else 0
  {
  }

  /** The change of an asset's supply when an order gives pays and its seller gets receives. */
  function SupplyChange(o: Order, pays: int, receives: int, s: Symbol): int {
    (if o.price.quoteSymbol == s then receives else 0) - (if o.price.baseSymbol == s then pays else 0)
  }

  lemma PaidForSupply(b: Book, id: nat, pays: int, receives: int, s: Symbol)
    requires id in b.orders
    ensures Liquid(PaidFor(b, id, pays, receives).balances, s)
            == Liquid(b.balances, s) + if b.orders[id].price.quoteSymbol == s then receives else 0
  {
    hide Liquid, Adjusted;
    BalanceAdjusted(b.balances, (b.orders[id].seller, b.orders[id].price.quoteSymbol), receives, s);
  }

  lemma GoneSupply(b: Book, id: nat, receives: int, s: Symbol)
    requires id in b.orders && id < b.nextId && 0 < b.orders[id].price.base
    ensures var o := b.orders[id];
            Supply(Filled(b, id, o.forSale, receives).0, s) == Supply(b, s) + SupplyChange(o, o.forSale, receives, s)
  {
    hide Liquid, Total, SoldOf, Adjusted, Deepened, AmountToReceive, PairOf, Shrunk;
    PaidForSupply(b, id, b.orders[id].forSale, receives, s);
    SoldOfAt(s, b.orders[id]);
    TotalRemove(b.orders, b.nextId, SoldOf(s), id);
  }

  lemma ShrunkSupply(b: Book, id: nat, pays: int, receives: int, s: Symbol)
    requires id in b.orders && id < b.nextId && 0 < b.orders[id].price.base
    ensures Supply(Shrunk(b, id, pays, receives), s) == Supply(b, s) + SupplyChange(b.orders[id], pays, receives, s)
  {
    hide Liquid, Total, SoldOf, Adjusted, Deepened, AmountToReceive, PairOf;
    var o := b.orders[id];
    var rest := o.(forSale := o.forSale - pays);
    PaidForSupply(b, id, pays, receives, s);
    SoldOfAt(s, o);
    SoldOfAt(s, rest);
    TotalSet(b.orders, b.nextId, SoldOf(s), id, rest);
  }

  lemma CancelSupply(b: Book, id: nat, s: Symbol)
    requires id in b.orders && id < b.nextId && 0 < b.orders[id].price.base
    ensures Supply(Cancelled(b, id), s) == Supply(b, s)
  {
    hide Liquid, Total, SoldOf, Adjusted, Deepened, AmountToReceive, PairOf;
    var o := b.orders[id];
    BalanceAdjusted(b.balances, (o.seller, o.price.baseSymbol), o.forSale, s);
    TotalRemove(b.orders, b.nextId, SoldOf(s), id);
    SoldOfAt(s, o);
  }

  /** What filling order id does to an asset's supply: it takes pays from the order and adds receives to balances. */
  lemma FillSupply(b: Book, id: nat, pays: int, receives: int, s: Symbol)
    requires OrdersSound(b) && id in b.orders
    ensures Supply(Filled(b, id, pays, receives).0, s) == Supply(b, s) + SupplyChange(b.orders[id], pays, receives, s)
  {
    assert id < b.nextId && 0 < b.orders[id].price.base;
    var smaller := Shrunk(b, id, pays, receives);
    assert smaller.nextId == b.nextId && id in smaller.orders && smaller.orders[id].price == b.orders[id].price;
    hide Supply, Cancelled, Shrunk, AmountToReceive, OrdersSound, SupplyChange;
    if pays == b.orders[id].forSale {
      GoneSupply(b, id, receives, s);
    } else {
      ShrunkSupply(b, id, pays, receives, s);
      CancelSupply(smaller, id, s);
    }
  }

  /** The order either leaves the book or stays with less to sell; every other order is untouched. */
  lemma FillOrders(b: Book, id: nat, pays: int, receives: int)
    requires OrdersSound(b) && id in b.orders && 0 < pays <= b.orders[id].forSale
    ensures var (r, gone) := Filled(b, id, pays, receives);
            && r.nextId == b.nextId && (pays == b.orders[id].forSale ==> gone)
            && r.orders == (if gone then b.orders - {id}
                            else b.orders[id := b.orders[id].(forSale := b.orders[id].forSale - pays)])
            && OrdersSound(r)
  {
    var o := b.orders[id];
    var rest := o.(forSale := o.forSale - pays);
    assert b.orders[id := rest] - {id} == b.orders - {id};
    if pays < o.forSale && AmountToReceive(rest) != 0 {
      DivAtLeast(rest.forSale * o.price.quote, o.price.base, 0);
      assert 0 <= rest.forSale * o.price.quote by {
        MulMonotone(0, rest.forSale, o.price.quote);
      }
    }
  }

  /** Filling keeps both redundant books exact. */
  lemma FillKeeps(b: Book, id: nat, pays: int, receives: int, p: Pair, off: (int, int))
    requires OrdersSound(b) && MarketExact(b) && DepthExact(b, p, off)
    requires id in b.orders && 0 < pays <= b.orders[id].forSale
    ensures var r := Filled(b, id, pays, receives).0;
            MarketExact(r) && DepthExact(r, p, off)
  {
    hide MarketExact, DepthExact, ToQuote;
    var r := Filled(b, id, pays, receives).0;
    var o := b.orders[id];
    var rest := o.(forSale := o.forSale - pays);
    if pays == o.forSale {
      RemoveKeeps(b, id, r, p, off);
    } else {
      var smaller := Shrunk(b, id, pays, receives);
      ShrinkKeeps(b, id, pays, smaller, p, off);
      if AmountToReceive(rest) == 0 {
        assert smaller.orders - {id} == b.orders - {id};
        RemoveKeeps(smaller, id, Cancelled(smaller, id), p, off);
      }
    }
  }

  lemma FillBalances(b: Book, id: nat, pays: int, receives: int)
    requires OrdersSound(b) && BalancesSound(b) && id in b.orders && 0 < pays <= b.orders[id].forSale && 0 <= receives
    ensures BalancesSound(Filled(b, id, pays, receives).0)
  {
  }

  /** The orders are sound and the three books agree with them. */
  ghost predicate Agree(b: Book, p: Pair, off: (int, int)) {
    OrdersSound(b) && MarketExact(b) && DepthExact(b, p, off) && BalancesSound(b)
  }

  lemma FillAgree(b: Book, id: nat, pays: int, receives: int, p: Pair, off: (int, int))
    requires Agree(b, p, off) && id in b.orders && 0 < pays <= b.orders[id].forSale && 0 <= receives
    ensures Agree(Filled(b, id, pays, receives).0, p, off)
  {
    FillOrders(b, id, pays, receives);
    FillKeeps(b, id, pays, receives, p, off);
    FillBalances(b, id, pays, receives);
  }

  // ---------- a trade between two orders ----------

  /** The book once both fees of a trade are paid out. */
  function FeesPaid(fees: Fees, b: Book, n: Order, o: Order, t: Trade): Book
    requires ValidFees(fees) && 0 <= t.newPays && 0 <= t.newReceives
  {
    FeePaid(fees, FeePaid(fees, b, o.price.baseSymbol, t.newReceives), n.price.baseSymbol, t.newPays)
  }

  lemma FeePaidSupply(fees: Fees, b: Book, s: Symbol, received: int, x: Symbol)
    requires ValidFees(fees) && 0 <= received
    ensures Supply(FeePaid(fees, b, s, received), x) == Supply(b, x) + if x == s then FeeOf(fees, s, received) else 0
  {
    if FeeOf(fees, s, received) != 0 {
      BalanceAdjusted(b.balances, (fees[s].creator, s), FeeOf(fees, s, received), x);
    }
  }

  lemma FeePaidAgree(fees: Fees, b: Book, s: Symbol, received: int, p: Pair, off: (int, int))
    requires ValidFees(fees) && 0 <= received && Agree(b, p, off)
    ensures var r := FeePaid(fees, b, s, received);
            Agree(r, p, off) && r.orders == b.orders && r.nextId == b.nextId
  {
  }

  lemma FeesPaidAgree(fees: Fees, b: Book, n: Order, o: Order, t: Trade, p: Pair, off: (int, int))
    requires ValidFees(fees) && 0 <= t.newPays && 0 <= t.newReceives && Agree(b, p, off)
    ensures var r := FeesPaid(fees, b, n, o, t);
            Agree(r, p, off) && r.orders == b.orders && r.nextId == b.nextId
  {
    FeePaidAgree(fees, b, o.price.baseSymbol, t.newReceives, p, off);
    FeePaidAgree(fees, FeePaid(fees, b, o.price.baseSymbol, t.newReceives), n.price.baseSymbol, t.newPays, p, off);
  }

  /** Filling both sides of trade t, each with what is left of its receipt. */
  function BothFilled(b: Book, newId: nat, oldId: nat, t: Trade, newFee: int, oldFee: int): (Book, bool, bool)
    requires OrdersSound(b) && newId in b.orders && oldId in b.orders && newId != oldId
    requires 0 < t.newPays <= b.orders[newId].forSale
  {
    FillOrders(b, newId, t.newPays, t.newReceives - newFee);
    var (b1, newGone) := Filled(b, newId, t.newPays, t.newReceives - newFee);
    var (b2, oldGone) := Filled(b1, oldId, t.newReceives, t.newPays - oldFee);
    (b2, newGone, oldGone)
  }

  /** match: fees first, then the new order is filled, then the old one. */
  function Traded(fees: Fees, b: Book, newId: nat, oldId: nat): (Book, bool, bool)
    requires ValidFees(fees) && OrdersSound(b) && newId in b.orders && oldId in b.orders && newId != oldId
    requires Crosses(b.orders[oldId].price, b.orders[newId].price)
  {
    var n, o := b.orders[newId], b.orders[oldId];
    EveryTradeIsFair(n, o);
    var t := MatchAmounts(n.forSale, o.forSale, o.price);
    BothFilled(
      FeesPaid(fees, b, n, o, t), newId, oldId, t,
      FeeOf(fees, o.price.baseSymbol, t.newReceives), FeeOf(fees, n.price.baseSymbol, t.newPays))
  }

  /** What a fill of both sides leaves behind. */
  ghost predicate TradeOutcome(b: Book, newId: nat, oldId: nat, r: Book, newGone: bool, oldGone: bool)
    requires newId in b.orders && oldId in b.orders
  {
    && r.nextId == b.nextId && (newGone || oldGone)
    && (newGone <==> newId !in r.orders) && (oldGone <==> oldId !in r.orders)
    && (!newGone ==> r.orders[newId] == b.orders[newId].(forSale := r.orders[newId].forSale))
    && (!oldGone ==> r.orders[oldId] == b.orders[oldId].(forSale := r.orders[oldId].forSale))
    && r.orders - {newId, oldId} == b.orders - {newId, oldId}
  }

  lemma BothFilledKeeps(
    b: Book, newId: nat, oldId: nat, t: Trade, newFee: int, oldFee: int, p: Pair, off: (int, int))
    requires Agree(b, p, off) && newId in b.orders && oldId in b.orders && newId != oldId
    requires 0 < t.newPays <= b.orders[newId].forSale && 0 < t.newReceives <= b.orders[oldId].forSale
    requires t.newPays == b.orders[newId].forSale || t.newReceives == b.orders[oldId].forSale
    requires newFee <= t.newReceives && oldFee <= t.newPays
    ensures var (r, newGone, oldGone) := BothFilled(b, newId, oldId, t, newFee, oldFee);
            Agree(r, p, off) && TradeOutcome(b, newId, oldId, r, newGone, oldGone)
  {
    hide Filled;
    FillAgree(b, newId, t.newPays, t.newReceives - newFee, p, off);
    FillOrders(b, newId, t.newPays, t.newReceives - newFee);
    var (b1, newGone) := Filled(b, newId, t.newPays, t.newReceives - newFee);
    FillAgree(b1, oldId, t.newReceives, t.newPays - oldFee, p, off);
    FillOrders(b1, oldId, t.newReceives, t.newPays - oldFee);
    var (b2, oldGone) := Filled(b1, oldId, t.newReceives, t.newPays - oldFee);
    assert b1.orders - {newId, oldId} == b.orders - {newId, oldId};
    assert b2.orders - {newId, oldId} == b1.orders - {newId, oldId};
  }

  /** A trade: at least one side leaves, the rest of the book is untouched, and the books still agree. */
  lemma TradeKeeps(fees: Fees, b: Book, newId: nat, oldId: nat, p: Pair, off: (int, int))
    requires ValidFees(fees) && Agree(b, p, off) && newId in b.orders && oldId in b.orders && newId != oldId
    requires Crosses(b.orders[oldId].price, b.orders[newId].price)
    ensures var (r, newGone, oldGone) := Traded(fees, b, newId, oldId);
            Agree(r, p, off) && TradeOutcome(b, newId, oldId, r, newGone, oldGone)
  {
    var n, o := b.orders[newId], b.orders[oldId];
    EveryTradeIsFair(n, o);
    var t := MatchAmounts(n.forSale, o.forSale, o.price);
    FeesPaidAgree(fees, b, n, o, t, p, off);
    BothFilledKeeps(
      FeesPaid(fees, b, n, o, t), newId, oldId, t,
      FeeOf(fees, o.price.baseSymbol, t.newReceives), FeeOf(fees, n.price.baseSymbol, t.newPays), p, off);
  }

  lemma BothFilledSupply(b: Book, newId: nat, oldId: nat, t: Trade, newFee: int, oldFee: int, s: Symbol)
    requires OrdersSound(b) && newId in b.orders && oldId in b.orders && newId != oldId
    requires 0 < t.newPays <= b.orders[newId].forSale
    requires b.orders[newId].price.baseSymbol == b.orders[oldId].price.quoteSymbol
    requires b.orders[newId].price.quoteSymbol == b.orders[oldId].price.baseSymbol
    ensures Supply(BothFilled(b, newId, oldId, t, newFee, oldFee).0, s) == Supply(b, s)
            - (if s == b.orders[oldId].price.baseSymbol then newFee else 0)
            - (if s == b.orders[newId].price.baseSymbol then oldFee else 0)
  {
    hide Filled, Supply;
    FillOrders(b, newId, t.newPays, t.newReceives - newFee);
    FillSupply(b, newId, t.newPays, t.newReceives - newFee, s);
    var b1 := Filled(b, newId, t.newPays, t.newReceives - newFee).0;
    FillSupply(b1, oldId, t.newReceives, t.newPays - oldFee, s);
  }

  /** No asset is created or destroyed by a trade, whatever the fees. */
  lemma TradeConserves(fees: Fees, b: Book, newId: nat, oldId: nat, s: Symbol)
    requires ValidFees(fees) && OrdersSound(b) && newId in b.orders && oldId in b.orders && newId != oldId
    requires Crosses(b.orders[oldId].price, b.orders[newId].price)
    ensures Supply(Traded(fees, b, newId, oldId).0, s) == Supply(b, s)
  {
    hide Supply, BothFilled, FeeOf, MatchAmounts;
    var n, o := b.orders[newId], b.orders[oldId];
    EveryTradeIsFair(n, o);
    var t := MatchAmounts(n.forSale, o.forSale, o.price);
    FeePaidSupply(fees, b, o.price.baseSymbol, t.newReceives, s);
    FeePaidSupply(fees, FeePaid(fees, b, o.price.baseSymbol, t.newReceives), n.price.baseSymbol, t.newPays, s);
    BothFilledSupply(
      FeesPaid(fees, b, n, o, t), newId, oldId, t,
      FeeOf(fees, o.price.baseSymbol, t.newReceives), FeeOf(fees, n.price.baseSymbol, t.newPays), s);
  }

  // ---------- who gets what ----------

  /**
   Trades happen at the resting order's price: one side sells all it has, and the other amount is that one at
   this price, rounded down.
   */
  lemma TradedAtRestingPrice(n: Order, o: Order)
    requires Sound(n) && Sound(o) && Crosses(o.price, n.price)
    ensures var t, b, q := MatchAmounts(n.forSale, o.forSale, o.price), o.price.base, o.price.quote;
            || (t.newPays == n.forSale && t.newReceives * q <= t.newPays * b < (t.newReceives + 1) * q)
            || (t.newReceives == o.forSale && t.newPays * b <= t.newReceives * q < (t.newPays + 1) * b)
  {
    var b, q := o.price.base, o.price.quote;
    DivBounds(n.forSale * b, q);
    DivBounds(o.forSale * q, b);
  }

  /** A fee is its percentage of the receipt, rounded down but at least one; core assets and empty receipts are free. */
  lemma FeeIsPercentage(fees: Fees, s: Symbol, received: int)
    requires ValidFees(fees) && 0 <= received
    ensures var fee := FeeOf(fees, s, received);
            if s in fees && 0 < fees[s].percent && 0 < received then
              && 1 <= fee && received * fees[s].percent < (fee + 1) * HUNDRED_PERCENT
              && (1 < fee ==> fee * HUNDRED_PERCENT <= received * fees[s].percent)
            else fee == 0
  {
    if s in fees {
      DivBounds(received * fees[s].percent, HUNDRED_PERCENT);
    }
  }

  function Gain(a: Account, to: Account, amount: int): int {
    if a == to then amount else 0
  }

  /** A fill pays the order's own seller in the asset asked for, and costs it what the order sold. */
  lemma FillWealth(b: Book, id: nat, pays: int, receives: int, a: Account)
    requires id in b.orders && id < b.nextId && 0 < b.orders[id].price.base
    ensures var o := b.orders[id];
            Wealth(Filled(b, id, pays, receives).0, a)
            == Wealth(b, a) + Gain(a, (o.seller, o.price.quoteSymbol), receives)
               - Gain(a, (o.seller, o.price.baseSymbol), pays)
  {
    hide Total, Deepened, AmountToReceive, PairOf;
    var o := b.orders[id];
    if pays == o.forSale {
      TotalRemove(b.orders, b.nextId, SoldBy(a), id);
    } else {
      var smaller := Shrunk(b, id, pays, receives);
      TotalSet(b.orders, b.nextId, SoldBy(a), id, o.(forSale := o.forSale - pays));
      CancelWealth(smaller, id, a);
    }
  }

  lemma FillWealths(b: Book, id: nat, pays: int, receives: int)
    requires id in b.orders && 0 < b.orders[id].price.base
    ensures var o := b.orders[id];
            id < b.nextId ==>
              forall a :: Wealth(Filled(b, id, pays, receives).0, a)
                          == Wealth(b, a) + Gain(a, (o.seller, o.price.quoteSymbol), receives)
                             - Gain(a, (o.seller, o.price.baseSymbol), pays)
  {
    hide Wealth, Filled, Gain;
    if id < b.nextId {
      forall a
        ensures var o := b.orders[id];
                Wealth(Filled(b, id, pays, receives).0, a)
                == Wealth(b, a) + Gain(a, (o.seller, o.price.quoteSymbol), receives)
                   - Gain(a, (o.seller, o.price.baseSymbol), pays)
      {
        FillWealth(b, id, pays, receives, a);
      }
    }
  }

  function FeeGain(fees: Fees, s: Symbol, received: int, a: Account): int
    requires ValidFees(fees) && 0 <= received
  {
    if s in fees then Gain(a, (fees[s].creator, s), FeeOf(fees, s, received)) else 0
  }

  lemma FeeWealth(fees: Fees, b: Book, s: Symbol, received: int, a: Account)
    requires ValidFees(fees) && 0 <= received
    ensures Wealth(FeePaid(fees, b, s, received), a) == Wealth(b, a) + FeeGain(fees, s, received, a)
  {
    hide Total;
  }

  /** What a trade of amounts t between orders n and o is worth to account a, fees taken and given. */
  function AmountsGain(fees: Fees, n: Order, o: Order, t: Trade, a: Account): int
    requires ValidFees(fees) && 0 <= t.newPays && 0 <= t.newReceives
  {
    var bought, sold := o.price.baseSymbol, n.price.baseSymbol;
    Gain(a, (n.seller, bought), t.newReceives - FeeOf(fees, bought, t.newReceives))
    - Gain(a, (n.seller, sold), t.newPays)
    + Gain(a, (o.seller, sold), t.newPays - FeeOf(fees, sold, t.newPays))
    - Gain(a, (o.seller, bought), t.newReceives)
    + FeeGain(fees, bought, t.newReceives, a) + FeeGain(fees, sold, t.newPays, a)
  }

  function TradeGain(fees: Fees, n: Order, o: Order, a: Account): int
    requires ValidFees(fees) && Sound(n) && Sound(o) && Crosses(o.price, n.price)
  {
    TradeAmounts(n, o);
    AmountsGain(fees, n, o, MatchAmounts(n.forSale, o.forSale, o.price), a)
  }

  lemma BothFilledWealth(b: Book, newId: nat, oldId: nat, t: Trade, newFee: int, oldFee: int, a: Account)
    requires OrdersSound(b) && newId in b.orders && oldId in b.orders && newId != oldId
    requires 0 < t.newPays <= b.orders[newId].forSale
    ensures var n, o := b.orders[newId], b.orders[oldId];
            Wealth(BothFilled(b, newId, oldId, t, newFee, oldFee).0, a)
            == Wealth(b, a)
               + Gain(a, (n.seller, n.price.quoteSymbol), t.newReceives - newFee)
               - Gain(a, (n.seller, n.price.baseSymbol), t.newPays)
               + Gain(a, (o.seller, o.price.quoteSymbol), t.newPays - oldFee)
               - Gain(a, (o.seller, o.price.baseSymbol), t.newReceives)
  {
    hide Filled, Wealth;
    FillOrders(b, newId, t.newPays, t.newReceives - newFee);
    FillWealth(b, newId, t.newPays, t.newReceives - newFee, a);
    var b1 := Filled(b, newId, t.newPays, t.newReceives - newFee).0;
    FillWealth(b1, oldId, t.newReceives, t.newPays - oldFee, a);
  }

  /** A trade is worth to every account exactly what it bought, sold and took in fees. */
  lemma TradeWealth(fees: Fees, b: Book, newId: nat, oldId: nat, a: Account)
    requires ValidFees(fees) && OrdersSound(b) && newId in b.orders && oldId in b.orders && newId != oldId
    requires Crosses(b.orders[oldId].price, b.orders[newId].price)
    ensures Wealth(Traded(fees, b, newId, oldId).0, a)
            == Wealth(b, a) + TradeGain(fees, b.orders[newId], b.orders[oldId], a)
  {
    hide Wealth, BothFilled, FeeOf, MatchAmounts, Gain, FeeGain;
    var n, o := b.orders[newId], b.orders[oldId];
    TradeAmounts(n, o);
    var t := MatchAmounts(n.forSale, o.forSale, o.price);
    FeeWealth(fees, b, o.price.baseSymbol, t.newReceives, a);
    FeeWealth(fees, FeePaid(fees, b, o.price.baseSymbol, t.newReceives), n.price.baseSymbol, t.newPays, a);
    FeesPaidOrders(fees, b, n, o, t);
    BothFilledWealth(
      FeesPaid(fees, b, n, o, t), newId, oldId, t,
      FeeOf(fees, o.price.baseSymbol, t.newReceives), FeeOf(fees, n.price.baseSymbol, t.newPays), a);
  }

  // ---------- the price index ----------

  /** Index order: better price first, then the older order. */
  predicate Before(orders: map<nat, Order>, i: nat, j: nat)
    requires i in orders && j in orders
  {
    Greater(orders[i].price, orders[j].price) || (Equal(orders[i].price, orders[j].price) && i < j)
  }

  /** The resting orders that a new order at this price is matched with. */
  function Candidates(orders: map<nat, Order>, newPrice: Price): set<nat> {
    set id | id in orders && InRange(orders[id].price, newPrice)
  }

  predicate IsBest(orders: map<nat, Order>, ids: set<nat>, best: nat)
    requires ids <= orders.Keys
  {
    best in ids && forall id :: id in ids && id != best ==> Before(orders, best, id)
  }

  lemma BeforeTransitive(orders: map<nat, Order>, i: nat, j: nat, k: nat)
    requires i in orders && j in orders && k in orders && Before(orders, i, j) && Before(orders, j, k)
    requires ValidPrice(orders[i].price) && ValidPrice(orders[j].price) && ValidPrice(orders[k].price)
    ensures Before(orders, i, k)
  {
    var a, b, c := orders[i].price, orders[j].price, orders[k].price;
    GreaterIsLessReversed(a, b);
    GreaterIsLessReversed(b, c);
    GreaterIsLessReversed(a, c);
    LessTransitive(c, b, a);
  }

  lemma {:induction false} BestExists(orders: map<nat, Order>, ids: set<nat>)
    requires ids != {} && ids <= orders.Keys && forall id :: id in ids ==> ValidPrice(orders[id].price)
    ensures exists best :: IsBest(orders, ids, best)
    decreases |ids|
  {
    var i :| i in ids;
    var rest := ids - {i};
    if rest == {} {
      assert forall id :: id in ids && id != i ==> id in rest;
      assert IsBest(orders, ids, i);
    } else {
      BestExists(orders, rest);
      var j :| IsBest(orders, rest, j);
      if Before(orders, j, i) {
        assert IsBest(orders, ids, j);
      } else {
        forall id | id in ids && id != i
          ensures Before(orders, i, id)
        {
          if id != j {
            BeforeTransitive(orders, i, j, id);
          }
        }
        assert IsBest(orders, ids, i);
      }
    }
  }

  // ---------- when the book can be crossed ----------

  /** An order that asks for at least one unit is above the cap only if it offers more than MAX_SHARE_SUPPLY units. */
  lemma OverCapNeedsMore(o: Order)
    requires Sound(o) && o.forSale <= MAX_SHARE_SUPPLY
    ensures !OverCap(o.price)
  {
    DivAtLeast(o.forSale * o.price.quote, o.price.base, 1);
    MulMonotone(o.forSale, MAX_SHARE_SUPPLY, o.price.quote);
  }

  /** A book whose orders each offer at most MAX_SHARE_SUPPLY units is never crossed. */
  lemma NeverCrossed(b: Book, i: nat, j: nat)
    requires Inv(b) && i in b.orders && j in b.orders && i < j && b.orders[i].forSale <= MAX_SHARE_SUPPLY
    ensures !Crosses(b.orders[i].price, b.orders[j].price)
  {
    OverCapNeedsMore(b.orders[i]);
  }

  // ---------- opening an order ----------

  predicate Acceptable(b: Book, o: Order, now: nat) {
    && ValidPrice(o.price) && 0 < o.forSale && 1 <= AmountToReceive(o) && now < o.expiration
    && o.forSale <= Held(b.balances, (o.seller, o.price.baseSymbol))
    && forall id :: id in b.orders ==> !Owns(b.orders[id], o.seller, o.orderId)
  }

  /** The order is on the book and paid for, but not yet counted in the depth. */
  function Opened(b: Book, o: Order): Book {
    b.(balances := Adjusted(b.balances, (o.seller, o.price.baseSymbol), -o.forSale),
       marketBalances := Adjusted(b.marketBalances, (o.seller, o.price.baseSymbol), o.forSale),
       orders := b.orders[b.nextId := o],
       nextId := b.nextId + 1)
  }

  function Counted(b: Book, o: Order): Book
    requires 0 < o.price.base
  {
    b.(depths := Deepened(b.depths, PairOf(o), o.forSale, AmountToReceive(o)))
  }

  lemma TotalOpened(b: Book, o: Order, w: Order -> int)
    requires OrdersSound(b)
    ensures Total(Opened(b, o).orders, b.nextId + 1, w) == Total(b.orders, b.nextId, w) + w(o)
  {
    assert b.nextId !in b.orders;
    TotalGrow(b.orders, b.nextId, w);
    TotalSet(b.orders, b.nextId + 1, w, b.nextId, o);
  }

  lemma OpenAgree(b: Book, o: Order, now: nat)
    requires Inv(b) && Acceptable(b, o, now)
    ensures Agree(Opened(b, o), PairOf(o), (o.forSale, AmountToReceive(o)))
    ensures CrossedOnlyOverCap(Opened(b, o).(orders := Opened(b, o).orders - {b.nextId}))
  {
    hide Total, ToQuote;
    var r := Opened(b, o);
    forall a: Account
      ensures Held(r.marketBalances, a) == Total(r.orders, r.nextId, SoldBy(a))
    {
      TotalOpened(b, o, SoldBy(a));
    }
    forall x: Pair
      ensures Depth(r.depths, x).0 + (if x == PairOf(o) then o.forSale else 0) == Total(r.orders, r.nextId, SoldIn(x))
      ensures Depth(r.depths, x).1 + (if x == PairOf(o) then AmountToReceive(o) else 0)
              == Total(r.orders, r.nextId, AskedIn(x))
    {
      TotalOpened(b, o, SoldIn(x));
      TotalOpened(b, o, AskedIn(x));
    }
    assert r.orders - {b.nextId} == b.orders;
  }

  lemma OpenConserves(b: Book, o: Order, s: Symbol)
    requires OrdersSound(b)
    ensures Supply(Opened(b, o), s) == Supply(b, s)
  {
    TotalOpened(b, o, SoldOf(s));
    BalanceAdjusted(b.balances, (o.seller, o.price.baseSymbol), -o.forSale, s);
  }

  lemma CountedExact(b: Book, o: Order)
    requires 0 < o.price.base && Agree(b, PairOf(o), (o.forSale, AmountToReceive(o))) && CrossedOnlyOverCap(b)
    ensures Inv(Counted(b, o))
  {
    hide Total, ToQuote;
    var r := Counted(b, o);
    forall x: Pair
      ensures Depth(r.depths, x).0 == Total(r.orders, r.nextId, SoldIn(x))
      ensures Depth(r.depths, x).1 == Total(r.orders, r.nextId, AskedIn(x))
    {
    }
  }

  lemma CancelKeeps(b: Book, id: nat)
    requires Inv(b) && id in b.orders
    ensures Inv(Cancelled(b, id))
  {
    hide MarketExact, DepthExact, ToQuote;
    RemoveKeeps(b, id, Cancelled(b, id), (0, 0), (0, 0));
  }

  /** An order given by two amounts asks for exactly its minimum, which is also what its depth is counted with. */
  lemma MinimumIsAsk(
    seller: Name, orderId: nat, amount: int, sell: Symbol, minimum: int, receive: Symbol, expiration: nat)
    requires 0 < amount
    ensures AmountToReceive(Order(seller, orderId, amount, Price(amount, sell, minimum, receive), expiration))
            == minimum
  {
    DivAtLeast(amount * minimum, amount, minimum);
    DivAtLeast(amount * minimum, amount, minimum + 1);
    assert (minimum + 1) * amount == minimum * amount + amount;
  }

  // ---------- the matching loop ----------

  /**
   Apart from newId and the orders in log, the book is as it was; those may have shrunk or gone, at unchanged
   prices.
   */
  predicate Untouched(start: Book, b: Book, newId: nat, log: seq<nat>) {
    && b.nextId == start.nextId && b.orders.Keys <= start.orders.Keys
    && (forall id :: id in b.orders ==> b.orders[id].price == start.orders[id].price)
    && (forall id :: id in start.orders && id != newId && id !in log ==>
                       id in b.orders && b.orders[id] == start.orders[id])
  }

  /** While order newId is matched, every step keeps this; log lists the resting orders taken so far, in order. */
  ghost predicate Progress(start: Book, b: Book, newId: nat, log: seq<nat>, p: Pair, off: (int, int))
    requires newId in start.orders
  {
    && Agree(b, p, off) && CrossedOnlyOverCap(b.(orders := b.orders - {newId})) && Untouched(start, b, newId, log)
    && (forall k :: 0 <= k < |log| ==> log[k] in Candidates(start.orders, start.orders[newId].price))
  }

  /** Price-time priority: each order taken comes before those taken later and those never reached. */
  ghost predicate InPriority(orders: map<nat, Order>, newPrice: Price, log: seq<nat>) {
    && (forall k :: 0 <= k < |log| ==> log[k] in orders)
    && (forall j, k :: 0 <= j < k < |log| ==> Before(orders, log[j], log[k]))
    && (forall k, id :: 0 <= k < |log| && id in Candidates(orders, newPrice) && id !in log ==>
                          Before(orders, log[k], id))
  }

  /** The trade of two crossing orders, as one step of a run. */
  predicate Tradeable(b: Book, newId: nat, oldId: nat) {
    && OrdersSound(b) && newId in b.orders && oldId in b.orders && newId != oldId
    && Crosses(b.orders[oldId].price, b.orders[newId].price)
  }

  /** The book after order newId has traded with each order of log in turn; None if some trade is not there to make. */
  function TradedAlong(fees: Fees, b: Book, newId: nat, log: seq<nat>): Option<Book>
    requires ValidFees(fees)
    decreases |log|
  {
    if log == [] then Some(b)
    else
      match TradedAlong(fees, b, newId, log[..|log| - 1])
      case None => None
      case Some(m) =>
        if Tradeable(m, newId, log[|log| - 1]) then Some(Traded(fees, m, newId, log[|log| - 1]).0) else None
  }

  lemma TradedAlongNext(fees: Fees, b: Book, newId: nat, log: seq<nat>, m: Book, oldId: nat)
    requires ValidFees(fees) && TradedAlong(fees, b, newId, log) == Some(m) && Tradeable(m, newId, oldId)
    ensures TradedAlong(fees, b, newId, log + [oldId]) == Some(Traded(fees, m, newId, oldId).0)
  {
    hide Traded;
    assert (log + [oldId])[..|log|] == log;
  }

  /** What a whole run is worth to an account: the sum over its trades. */
  function RunGain(fees: Fees, b: Book, newId: nat, log: seq<nat>, a: Account): int
    requires ValidFees(fees)
    decreases |log|
  {
    if log == [] then 0
    else
      var before, last := log[..|log| - 1], log[|log| - 1];
      RunGain(fees, b, newId, before, a)
      + match TradedAlong(fees, b, newId, before)
        case None => 0
        case Some(m) => if Tradeable(m, newId, last) then TradeGain(fees, m.orders[newId], m.orders[last], a) else 0
  }

  lemma {:induction false} RunWealth(fees: Fees, b: Book, newId: nat, log: seq<nat>, r: Book, a: Account)
    requires ValidFees(fees) && TradedAlong(fees, b, newId, log) == Some(r)
    ensures Wealth(r, a) == Wealth(b, a) + RunGain(fees, b, newId, log, a)
    decreases |log|
  {
    hide Traded, TradeGain, Wealth, Crosses, OrdersSound;
    if log != [] {
      var m := TradedAlong(fees, b, newId, log[..|log| - 1]).value;
      RunWealth(fees, b, newId, log[..|log| - 1], m, a);
      TradeWealth(fees, m, newId, log[|log| - 1], a);
    }
  }

  /** Placing an order is worth to every account exactly what its trades are: offering costs nothing yet. */
  lemma PlacedWealth(fees: Fees, b: Book, o: Order, after: Book, log: seq<nat>, a: Account)
    requires ValidFees(fees) && OrdersSound(b) && 0 < o.price.base && Placed(fees, b, o, after, log)
    ensures Wealth(after, a) == Wealth(b, a) + RunGain(fees, Opened(b, o), b.nextId, log, a)
  {
    hide TradedAlong, InPriority, Total, Deepened, RunGain, Untouched, AmountToReceive;
    var start := Opened(b, o);
    TotalOpened(b, o, SoldBy(a));
    assert Wealth(start, a) == Wealth(b, a);
    var matched :| MatchRun(fees, start, b.nextId, log, matched) && after == Counted(matched, o);
    RunWealth(fees, start, b.nextId, log, matched, a);
    assert Wealth(after, a) == Wealth(matched, a);
  }

  lemma PlacedWealths(fees: Fees, b: Book, o: Order, after: Book, log: seq<nat>)
    requires ValidFees(fees) && OrdersSound(b) && 0 < o.price.base && Placed(fees, b, o, after, log)
    ensures forall a :: Wealth(after, a) == Wealth(b, a) + RunGain(fees, Opened(b, o), b.nextId, log, a)
  {
    hide *;
    forall a
      ensures Wealth(after, a) == Wealth(b, a) + RunGain(fees, Opened(b, o), b.nextId, log, a)
    {
      PlacedWealth(fees, b, o, after, log, a);
    }
  }

  /** A prefix of a run is a run, up to a book in which the next order of the log is there to trade with. */
  lemma {:induction false} TradedAlongPrefix(fees: Fees, b: Book, newId: nat, log: seq<nat>, k: nat)
    requires ValidFees(fees) && k < |log| && TradedAlong(fees, b, newId, log).Some?
    ensures TradedAlong(fees, b, newId, log[..k]).Some?
    ensures Tradeable(TradedAlong(fees, b, newId, log[..k]).value, newId, log[k])
  {
    hide Traded, Tradeable;
    var n := |log| - 1;
    if k < n {
      TradedAlongPrefix(fees, b, newId, log[..n], k);
      assert log[..n][..k] == log[..k];
    }
  }

  /**
   A whole run of order newId: it trades with the candidates in price-time priority, and stops only when it is
   gone or no candidate is left.
   */
  ghost predicate MatchRun(fees: Fees, start: Book, newId: nat, log: seq<nat>, r: Book)
    requires ValidFees(fees) && newId in start.orders
  {
    var price := start.orders[newId].price;
    && TradedAlong(fees, start, newId, log) == Some(r) && InPriority(start.orders, price, log)
    && (forall k :: 0 <= k < |log| ==> log[k] in Candidates(start.orders, price))
    && (newId in r.orders ==> forall id :: id in Candidates(start.orders, price) ==> id !in r.orders)
  }

  /** A run that goes on where another stopped would trade with an order that is not there. */
  lemma RunStops(fees: Fees, start: Book, newId: nat, log: seq<nat>, r: Book, more: seq<nat>, s: Book)
    requires ValidFees(fees) && newId in start.orders
    requires MatchRun(fees, start, newId, log, r) && MatchRun(fees, start, newId, more, s) && log <= more
    ensures log == more
  {
    if |log| < |more| {
      hide Traded, InPriority;
      assert more[..|log|] == log;
      assert more[|log|] in Candidates(start.orders, start.orders[newId].price);
      TradedAlongPrefix(fees, start, newId, more, |log|);
      assert false;
    }
  }

  /** Where two runs part, each would have to take its order before the other's. */
  lemma RunsDoNotPart(fees: Fees, start: Book, newId: nat, log: seq<nat>, r: Book, other: seq<nat>, s: Book, k: nat)
    requires ValidFees(fees) && newId in start.orders && OrdersSound(start)
    requires MatchRun(fees, start, newId, log, r) && MatchRun(fees, start, newId, other, s)
    requires k < |log| && k < |other| && log[..k] == other[..k]
    ensures log[k] == other[k]
  {
    if log[k] != other[k] {
      hide TradedAlong;
      FirstOfTheRest(start.orders, start.orders[newId].price, log, k, other[k], other);
      FirstOfTheRest(start.orders, start.orders[newId].price, other, k, log[k], log);
      assert ValidPrice(start.orders[log[k]].price) && ValidPrice(start.orders[other[k]].price);
      BeforeIsStrict(start.orders, log[k], other[k]);
      assert false;
    }
  }

  lemma FirstOfTheRest(orders: map<nat, Order>, price: Price, log: seq<nat>, k: nat, id: nat, other: seq<nat>)
    requires InPriority(orders, price, log) && InPriority(orders, price, other)
    requires k < |log| && k < |other| && log[..k] == other[..k] && other[k] == id && id in Candidates(orders, price)
    requires id != log[k] && ValidPrice(orders[id].price)
    requires forall i :: 0 <= i < |log| ==> ValidPrice(orders[log[i]].price)
    ensures Before(orders, log[k], id)
  {
    forall j | 0 <= j < k
      ensures log[j] != id
    {
      assert log[..k][j] == other[..k][j];
      BeforeIsStrict(orders, log[j], id);
      assert Before(orders, other[j], other[k]);
    }
  }

  lemma BeforeIsStrict(orders: map<nat, Order>, i: nat, j: nat)
    requires i in orders && j in orders && ValidPrice(orders[i].price) && ValidPrice(orders[j].price)
    ensures !(Before(orders, i, j) && Before(orders, j, i))
  {
    if Before(orders, i, j) && Before(orders, j, i) {
      BeforeTransitive(orders, i, j, i);
    }
  }

  /** Matching is deterministic: a book and a new order allow exactly one run. */
  lemma MatchingIsDeterministic(
    fees: Fees, start: Book, newId: nat, log: seq<nat>, r: Book, other: seq<nat>, s: Book)
    requires ValidFees(fees) && newId in start.orders && OrdersSound(start)
    requires MatchRun(fees, start, newId, log, r) && MatchRun(fees, start, newId, other, s)
    ensures log == other && r == s
  {
    hide MatchRun, OrdersSound;
    SamePrefix(fees, start, newId, log, r, other, s, if |log| < |other| then |log| else |other|);
    if |log| <= |other| {
      RunStops(fees, start, newId, log, r, other, s);
    } else {
      RunStops(fees, start, newId, other, s, log, r);
    }
    RunEnds(fees, start, newId, log, r);
    RunEnds(fees, start, newId, other, s);
  }

  lemma RunEnds(fees: Fees, start: Book, newId: nat, log: seq<nat>, r: Book)
    requires ValidFees(fees) && newId in start.orders && MatchRun(fees, start, newId, log, r)
    ensures TradedAlong(fees, start, newId, log) == Some(r)
  {
  }

  lemma {:induction false} SamePrefix(
    fees: Fees, start: Book, newId: nat, log: seq<nat>, r: Book, other: seq<nat>, s: Book, k: nat)
    requires ValidFees(fees) && newId in start.orders && OrdersSound(start)
    requires MatchRun(fees, start, newId, log, r) && MatchRun(fees, start, newId, other, s)
    requires k <= |log| && k <= |other|
    ensures log[..k] == other[..k]
  {
    if k > 0 {
      hide MatchRun, OrdersSound;
      SamePrefix(fees, start, newId, log, r, other, s, k - 1);
      RunsDoNotPart(fees, start, newId, log, r, other, s, k - 1);
      LongerPrefix(log, other, k);
    }
  }

  lemma LongerPrefix(a: seq<nat>, b: seq<nat>, k: nat)
    requires 0 < k <= |a| && k <= |b| && a[..k - 1] == b[..k - 1] && a[k - 1] == b[k - 1]
    ensures a[..k] == b[..k]
  {
    assert a[..k] == a[..k - 1] + [a[k - 1]] && b[..k] == b[..k - 1] + [b[k - 1]];
  }

  lemma TradeUntouched(
    start: Book, b: Book, r: Book, newId: nat, log: seq<nat>, oldId: nat, newGone: bool, oldGone: bool)
    requires newId in b.orders && oldId in b.orders && Untouched(start, b, newId, log)
    requires TradeOutcome(b, newId, oldId, r, newGone, oldGone)
    ensures Untouched(start, r, newId, log + [oldId]) && r.orders.Keys <= b.orders.Keys
    ensures forall id :: id in r.orders ==> r.orders[id].price == b.orders[id].price
  {
    var others := r.orders - {newId, oldId};
    assert others == b.orders - {newId, oldId};
    forall id | id in r.orders
      ensures id in b.orders && r.orders[id].price == b.orders[id].price
    {
      if id != newId && id != oldId {
        assert id in others;
      }
    }
    forall id | id in start.orders && id != newId && id !in log + [oldId]
      ensures id in r.orders && r.orders[id] == start.orders[id]
    {
      assert id in b.orders && id != oldId;
      assert id in others;
    }
  }

  lemma CrossedShrinks(b: Book, r: Book)
    requires CrossedOnlyOverCap(b) && r.orders.Keys <= b.orders.Keys
    requires forall id :: id in r.orders ==> r.orders[id].price == b.orders[id].price
    ensures CrossedOnlyOverCap(r)
  {
  }

  lemma TradeProgress(fees: Fees, start: Book, b: Book, newId: nat, log: seq<nat>, oldId: nat, p: Pair, off: (int, int))
    requires ValidFees(fees) && newId in start.orders && Progress(start, b, newId, log, p, off)
    requires newId in b.orders && oldId in b.orders && oldId != newId && OrdersSound(b)
    requires oldId in Candidates(start.orders, start.orders[newId].price)
    requires Crosses(b.orders[oldId].price, b.orders[newId].price)
    ensures Progress(start, Traded(fees, b, newId, oldId).0, newId, log + [oldId], p, off)
  {
    hide Agree, Traded, CrossedOnlyOverCap, Untouched, Crosses;
    TradeKeeps(fees, b, newId, oldId, p, off);
    var (r, newGone, oldGone) := Traded(fees, b, newId, oldId);
    TradeUntouched(start, b, r, newId, log, oldId, newGone, oldGone);
    CrossedShrinks(b.(orders := b.orders - {newId}), r.(orders := r.orders - {newId}));
  }

  lemma PriorityStep(orders: map<nat, Order>, newPrice: Price, log: seq<nat>, best: nat)
    requires InPriority(orders, newPrice, log)
    requires forall k :: 0 <= k < |log| ==> log[k] in Candidates(orders, newPrice)
    requires best in Candidates(orders, newPrice) && best !in log
    requires forall id :: id in Candidates(orders, newPrice) && id !in log && id != best ==> Before(orders, best, id)
    ensures InPriority(orders, newPrice, log + [best])
  {
  }

  /** When nothing in range is left, the new order crosses only orders above the cap. */
  lemma RangeExhausted(b: Book, newId: nat)
    requires newId in b.orders && newId + 1 == b.nextId && OrdersSound(b)
    requires CrossedOnlyOverCap(b.(orders := b.orders - {newId}))
    requires Candidates(b.orders, b.orders[newId].price) == {}
    ensures CrossedOnlyOverCap(b)
  {
    forall i, j | i in b.orders && j in b.orders && i < j && Crosses(b.orders[i].price, b.orders[j].price)
      ensures OverCap(b.orders[i].price)
    {
      if j == newId {
        RangeIsCrossingBelowCap(b.orders[i].price, b.orders[j].price);
        assert i !in Candidates(b.orders, b.orders[newId].price);
      } else {
        assert i in b.orders - {newId} && j in b.orders - {newId};
      }
    }
  }

  /**
   What placing order o did: it became the newest order, traded with the resting orders in log, in price-time
   priority, until it was gone or no candidate was left, and was then counted in the depth; all other orders
   are untouched.
   */
  ghost predicate Placed(fees: Fees, before: Book, o: Order, after: Book, log: seq<nat>)
    requires ValidFees(fees) && 0 < o.price.base
  {
    && before.nextId !in before.orders && after.nextId == before.nextId + 1
    && Untouched(Opened(before, o), after, before.nextId, log)
    && exists matched :: MatchRun(fees, Opened(before, o), before.nextId, log, matched) && after == Counted(matched, o)
  }

  /** Whether order o would leave the book at once; it depends on the book and the order alone. */
  ghost predicate WouldFill(fees: Fees, b: Book, o: Order)
    requires ValidFees(fees)
  {
    exists log, r :: MatchRun(fees, Opened(b, o), b.nextId, log, r) && b.nextId !in r.orders
  }

  /** Any run decides it, because there is only one. */
  lemma FillIsDecided(fees: Fees, b: Book, o: Order, log: seq<nat>, r: Book)
    requires ValidFees(fees) && OrdersSound(Opened(b, o)) && MatchRun(fees, Opened(b, o), b.nextId, log, r)
    ensures WouldFill(fees, b, o) <==> b.nextId !in r.orders
  {
    hide MatchRun, OrdersSound;
    if WouldFill(fees, b, o) {
      var other, s :| MatchRun(fees, Opened(b, o), b.nextId, other, s) && b.nextId !in s.orders;
      MatchingIsDeterministic(fees, Opened(b, o), b.nextId, log, r, other, s);
    }
  }

  // ---------- exactly when an order leaves the book crossed ----------

  predicate Crossed(b: Book) {
    exists i, j :: i in b.orders && j in b.orders && i < j && Crosses(b.orders[i].price, b.orders[j].price)
  }

  predicate CrossedBy(b: Book, newId: nat) {
    newId in b.orders
    && exists i :: i in b.orders && i != newId && Crosses(b.orders[i].price, b.orders[newId].price)
  }

  /** Some resting order would take the new one but is priced above the cap. */
  predicate Skips(b: Book, o: Order) {
    exists i :: i in b.orders && OverCap(b.orders[i].price) && Crosses(b.orders[i].price, o.price)
  }

  /** What is left of the new order, and of the orders it skipped. */
  lemma PlacedFacts(fees: Fees, b: Book, o: Order, now: nat, after: Book, log: seq<nat>)
    requires ValidFees(fees) && Inv(b) && Acceptable(b, o, now) && Placed(fees, b, o, after, log)
    ensures b.nextId in after.orders <==> !WouldFill(fees, b, o)
    ensures b.nextId in after.orders ==> after.orders[b.nextId].price == o.price
    ensures forall id :: id in after.orders && id != b.nextId ==>
                           id in b.orders && after.orders[id].price == b.orders[id].price
    ensures forall id :: id in b.orders && OverCap(b.orders[id].price) ==> id in after.orders
  {
    OpeningFacts(b, o, now);
    var start := Opened(b, o);
    assert start.orders == b.orders[b.nextId := o];
    var matched :| MatchRun(fees, start, b.nextId, log, matched) && after == Counted(matched, o);
    FillIsDecided(fees, b, o, log, matched);
    assert after.orders == matched.orders;
    hide Inv, Agree, WouldFill, OverCap, TradedAlong, InPriority, Crosses, OrdersSound, Opened, Counted;
    forall id | id in b.orders && OverCap(b.orders[id].price)
      ensures id in after.orders
    {
      assert start.orders[id] == b.orders[id];
      SoundPrice(b, id);
      RangeIsCrossingBelowCap(start.orders[id].price, o.price);
      assert id !in log;
    }
  }

  lemma SoundPrice(b: Book, id: nat)
    requires Inv(b) && id in b.orders
    ensures ValidPrice(b.orders[id].price) && id < b.nextId
  {
  }

  /**
   The exact condition, known before the call: the new order is left crossing a resting one if and only if it is
   not filled and skips some order. A book that was not crossed is then crossed on the same condition.
   */
  lemma CrossedExactlyBySkipping(fees: Fees, b: Book, o: Order, now: nat, after: Book, log: seq<nat>)
    requires ValidFees(fees) && Inv(b) && Acceptable(b, o, now)
    requires Inv(after) && Placed(fees, b, o, after, log)
    ensures CrossedBy(after, b.nextId) <==> !WouldFill(fees, b, o) && Skips(b, o)
    ensures !Crossed(b) ==> (Crossed(after) <==> CrossedBy(after, b.nextId))
  {
    PlacedFacts(fees, b, o, now, after, log);
    assert forall id :: id in after.orders ==> id < after.nextId;
    assert b.nextId !in b.orders && after.nextId == b.nextId + 1 && CrossedOnlyOverCap(after);
    hide Inv, Placed, WouldFill, OverCap, Crosses, Acceptable;
    if !WouldFill(fees, b, o) && Skips(b, o) {
      var i :| i in b.orders && OverCap(b.orders[i].price) && Crosses(b.orders[i].price, o.price);
      assert i in after.orders && i < b.nextId;
      assert CrossedBy(after, b.nextId) && Crossed(after);
    }
    if CrossedBy(after, b.nextId) {
      var i :| i in after.orders && i != b.nextId && Crosses(after.orders[i].price, after.orders[b.nextId].price);
      assert OverCap(b.orders[i].price);
      assert Skips(b, o);
    }
    if Crossed(after) && !Crossed(b) {
      var i, j :| i in after.orders && j in after.orders && i < j
                  && Crosses(after.orders[i].price, after.orders[j].price);
      assert j == b.nextId;
    }
  }

  predicate Owns(o: Order, seller: Name, orderId: nat) {
    o.seller == seller && o.orderId == orderId
  }

  // ---------- the object ----------

  class OrderMarket {
    const fees: Fees
    var book: Book

    constructor (fees: Fees, balances: map<Account, int>)
      requires ValidFees(fees) && forall a :: a in balances ==> 0 <= balances[a]
      ensures this.fees == fees && book == Book(map[], 0, balances, map[], map[]) && Inv(book)
    {
      this.fees := fees;
      book := Book(map[], 0, balances, map[], map[]);
      new;
      EmptyInv(balances);
    }

    method UpdatePairDepth(p: Pair, base: int, quote: int)
      modifies this
      ensures book == old(book).(depths := Deepened(old(book).depths, p, base, quote))
    {
      if p in book.depths {
        var newBase, newQuote := book.depths[p].0 + base, book.depths[p].1 + quote;
        if newBase == 0 && newQuote == 0 {
          book := book.(depths := book.depths - {p});
        } else {
          book := book.(depths := book.depths[p := (newBase, newQuote)]);
        }
      } else {
        book := book.(depths := book.depths[p := (base, quote)]);
      }
    }

    method AdjustBalance(a: Account, delta: int)
      modifies this
      ensures book == old(book).(balances := Adjusted(old(book).balances, a, delta))
    {
      var balance := if a in book.balances then book.balances[a] else 0;
      book := book.(balances := book.balances[a := balance + delta]);
    }

    method AdjustMarketBalance(a: Account, delta: int)
      modifies this
      ensures book == old(book).(marketBalances := Adjusted(old(book).marketBalances, a, delta))
    {
      var balance := if a in book.marketBalances then book.marketBalances[a] else 0;
      book := book.(marketBalances := book.marketBalances[a := balance + delta]);
    }

    method CancelOrder(id: nat)
      requires id in book.orders && ValidPrice(book.orders[id].price)
      modifies this
      ensures book == Cancelled(old(book), id)
    {
      var o := book.orders[id];
      AdjustBalance((o.seller, o.price.baseSymbol), o.forSale);
      AdjustMarketBalance((o.seller, o.price.baseSymbol), -o.forSale);
      UpdatePairDepth(PairOf(o), -o.forSale, -AmountToReceive(o));
      book := book.(orders := book.orders - {id});
    }

    method FillOrder(id: nat, pays: int, receives: int) returns (gone: bool)
      requires id in book.orders && ValidPrice(book.orders[id].price)
      modifies this
      ensures (book, gone) == Filled(old(book), id, pays, receives)
      ensures id < old(book).nextId ==>
                var o := old(book).orders[id];
                forall a :: Wealth(book, a)
                            == Wealth(old(book), a) + Gain(a, (o.seller, o.price.quoteSymbol), receives)
                               - Gain(a, (o.seller, o.price.baseSymbol), pays)
    {
      hide ToQuote, Wealth, Gain;
      FillWealths(book, id, pays, receives);
      var o := book.orders[id];
      AdjustBalance((o.seller, o.price.quoteSymbol), receives);
      AdjustMarketBalance((o.seller, o.price.baseSymbol), -pays);
      if pays == o.forSale {
        UpdatePairDepth(PairOf(o), -o.forSale, -AmountToReceive(o));
        book := book.(orders := book.orders - {id});
        return true;
      }
      var rest := o.(forSale := o.forSale - pays);
      book := book.(orders := book.orders[id := rest]);
      var rec := AmountToReceive(o) - AmountToReceive(rest);
      UpdatePairDepth(PairOf(o), -pays, -rec);
      if AmountToReceive(rest) == 0 {
        CancelOrder(id);
        return true;
      }
      return false;
    }

    method SubtractFee(s: Symbol, received: int) returns (left: int)
      requires ValidFees(fees) && 0 <= received
      modifies this
      ensures book == FeePaid(fees, old(book), s, received) && left == received - FeeOf(fees, s, received)
    {
      if s !in fees || fees[s].percent == 0 || received == 0 {
        return received;
      }
      var fee := received * fees[s].percent / HUNDRED_PERCENT;
      fee := if fee < 1 then 1 else fee;
      AdjustBalance((fees[s].creator, s), fee);
      return received - fee;
    }

    /** match: the result is 1 if the new order is gone, plus 2 if the old one is. */
    method Match(newId: nat, oldId: nat) returns (result: nat)
      requires ValidFees(fees) && OrdersSound(book) && newId in book.orders && oldId in book.orders && newId != oldId
      requires Crosses(book.orders[oldId].price, book.orders[newId].price)
      modifies this
      ensures var (b, newGone, oldGone) := Traded(fees, old(book), newId, oldId);
              book == b && result == (if newGone then 1 else 0) + if oldGone then 2 else 0
    {
      hide Filled, FeePaid, FeeOf, ToQuote, ToBase, AmountToReceive;
      var n, o := book.orders[newId], book.orders[oldId];
      TradeAmounts(n, o);
      var newPays, newReceives;
      if n.forSale <= ToQuote(o.forSale, o.price) {
        newPays, newReceives := n.forSale, ToBase(n.forSale, o.price);
      } else {
        newPays, newReceives := ToQuote(o.forSale, o.price), o.forSale;
      }
      var newGets := SubtractFee(o.price.baseSymbol, newReceives);
      var oldGets := SubtractFee(n.price.baseSymbol, newPays);
      FeesPaidOrders(fees, old(book), n, o, Trade(newPays, newReceives));
      var newGone := FillOrder(newId, newPays, newGets);
      FillOrders(FeesPaid(fees, old(book), n, o, Trade(newPays, newReceives)), newId, newPays, newGets);
      var oldGone := FillOrder(oldId, newReceives, oldGets);
      result := (if newGone then 1 else 0) + if oldGone then 2 else 0;
    }

    /** apply_order: matches the newest order with the best resting orders until it is gone or the range is empty. */
    method ApplyOrder(newId: nat, ghost p: Pair, ghost off: (int, int)) returns (filled: bool, log: seq<nat>)
      requires ValidFees(fees) && Agree(book, p, off) && newId in book.orders && newId + 1 == book.nextId
      requires CrossedOnlyOverCap(book.(orders := book.orders - {newId}))
      modifies this
      ensures Agree(book, p, off) && CrossedOnlyOverCap(book) && filled == (newId !in book.orders)
      ensures Progress(old(book), book, newId, log, p, off)
      ensures MatchRun(fees, old(book), newId, log, book)
      ensures forall k :: 0 <= k < |log| - (if filled then 1 else 0) ==> log[k] !in book.orders
      ensures Candidates(old(book).orders, old(book).orders[newId].price) == {} ==> book == old(book) && !filled
      ensures forall s :: Supply(book, s) == Supply(old(book), s)
    {
      hide Agree, Supply, Traded, Progress, InPriority, Candidates, CrossedOnlyOverCap, TradeOutcome, TradedAlong,
        MatchRun;
      ghost var start := book;
      var newPrice := book.orders[newId].price;
      log := [];
      var finished := false;
      MatchStarts(fees, start, newId, p, off);
      while !finished && Candidates(book.orders, newPrice) != {}
        invariant Progress(start, book, newId, log, p, off) && InPriority(start.orders, newPrice, log)
        invariant finished <==> newId !in book.orders
        invariant TradedAlong(fees, start, newId, log) == Some(book)
        invariant forall k :: 0 <= k < |log| - (if finished then 1 else 0) ==> log[k] !in book.orders
        invariant Candidates(start.orders, newPrice) == {} ==> book == start
        invariant forall s :: Supply(book, s) == Supply(start, s)
        decreases |book.orders|
      {
        MatchReady(start, book, newId, log, p, off);
        var candidates := Candidates(book.orders, newPrice);
        var best :| IsBest(book.orders, candidates, best);
        MatchStep(fees, start, book, newId, log, best, p, off);
        TradedAlongNext(fees, start, newId, log, book, best);
        var result := Match(newId, best);
        finished := result % 2 == 1;
        log := log + [best];
      }
      filled := newId !in book.orders;
      MatchEnds(fees, start, book, newId, log, p, off);
    }

    /**
     Matches an order that has just been opened and counts it in the depth; false if it had to be filled and
     was not.
     */
    method Settle(o: Order, fillOrKill: bool, ghost before: Book, ghost now: nat) returns (ok: bool, log: seq<nat>)
      requires ValidFees(fees) && Inv(before) && Acceptable(before, o, now) && book == Opened(before, o)
      modifies this
      ensures ok == (fillOrKill ==> WouldFill(fees, before, o))
      ensures ok ==> 0 < o.price.base && Inv(book) && Placed(fees, before, o, book, log)
      ensures ok ==> forall s :: Supply(book, s) == Supply(before, s)
      ensures ok && fillOrKill ==> before.nextId !in book.orders
      ensures ok && Candidates(before.orders, o.price) == {} ==> book == Counted(Opened(before, o), o)
    {
      hide Inv, Agree, Supply, Progress, CrossedOnlyOverCap, Candidates, AmountToReceive, Untouched, Acceptable,
        MatchRun, WouldFill, OrdersSound;
      OpeningFacts(before, o, now);
      var id := book.nextId - 1;
      var toReceive := AmountToReceive(o);
      var filled;
      filled, log := ApplyOrder(id, PairOf(o), (o.forSale, toReceive));
      FillIsDecided(fees, before, o, log, book);
      if fillOrKill && !filled {
        return false, log;
      }
      ghost var matched := book;
      UpdatePairDepth(PairOf(o), o.forSale, toReceive);
      ClosingFacts(before, o, matched, id, log);
      return true, log;
    }

    /** limit_order_create2: a failed check, or an unfilled fill-or-kill order, restores the book. */
    method CreateOrder(o: Order, fillOrKill: bool, now: nat) returns (ok: bool, log: seq<nat>)
      requires ValidFees(fees) && Inv(book)
      modifies this
      ensures Inv(book) && forall s :: Supply(book, s) == Supply(old(book), s)
      ensures !ok ==> book == old(book)
      ensures ok == (Acceptable(old(book), o, now) && (fillOrKill ==> WouldFill(fees, old(book), o)))
      ensures ok ==> now < o.expiration && 0 < o.forSale <= Held(old(book).balances, (o.seller, o.price.baseSymbol))
                     && forall id :: id in old(book).orders ==> !Owns(old(book).orders[id], o.seller, o.orderId)
      ensures ok ==> Placed(fees, old(book), o, book, log)
      ensures ok && fillOrKill ==> old(book).nextId !in book.orders
      ensures ok ==> (CrossedBy(book, old(book).nextId) <==> !WouldFill(fees, old(book), o) && Skips(old(book), o))
      ensures ok && !Crossed(old(book)) ==> (Crossed(book) <==> CrossedBy(book, old(book).nextId))
      ensures ok ==> forall a ::
                       Wealth(book, a)
                       == Wealth(old(book), a) + RunGain(fees, Opened(old(book), o), old(book).nextId, log, a)
      ensures ok && Candidates(old(book).orders, o.price) == {} ==> book == Counted(Opened(old(book), o), o)
    {
      log := [];
      if !ValidPrice(o.price) || o.forSale <= 0 || AmountToReceive(o) < 1 || o.expiration <= now {
        return false, log;
      }
      var sold := (o.seller, o.price.baseSymbol);
      if Held(book.balances, sold) < o.forSale {
        return false, log;
      }
      var saved := book;
      AdjustBalance(sold, -o.forSale);
      AdjustMarketBalance(sold, o.forSale);
      if exists id :: id in book.orders && Owns(book.orders[id], o.seller, o.orderId) {
        book := saved;
        return false, log;
      }
      book := book.(orders := book.orders[book.nextId := o], nextId := book.nextId + 1);
      assert OrdersSound(saved);
      hide Inv, OrdersSound, Placed, Supply, Candidates, WouldFill, Acceptable, Crossed, CrossedBy, Skips, Wealth,
        RunGain;
      ok, log := Settle(o, fillOrKill, saved, now);
      if !ok {
        book := saved;
        return;
      }
      CrossedExactlyBySkipping(fees, saved, o, now, book, log);
      PlacedWealths(fees, saved, o, book, log);
    }

    /** limit_order_cancel; a missing order is an error. */
    method Cancel(seller: Name, orderId: nat) returns (ok: bool)
      requires Inv(book)
      modifies this
      ensures Inv(book) && forall s :: Supply(book, s) == Supply(old(book), s)
      ensures !ok ==> book == old(book) && forall id :: id in book.orders ==> !Owns(book.orders[id], seller, orderId)
      ensures ok ==>
                exists id :: id in old(book).orders && ValidPrice(old(book).orders[id].price)
                             && Owns(old(book).orders[id], seller, orderId) && book == Cancelled(old(book), id)
    {
      if id :| id in book.orders && Owns(book.orders[id], seller, orderId) {
        assert Sound(book.orders[id]);
        CancelKeeps(book, id);
        CancelConserves(book, id);
        CancelOrder(id);
        return true;
      }
      return false;
    }

    /** clear_expired_orders: cancels every order whose expiration has passed, and only those. */
    method ClearExpiredOrders(now: nat)
      requires Inv(book)
      modifies this
      ensures Inv(book) && forall s :: Supply(book, s) == Supply(old(book), s)
      ensures book.orders
              == map id | id in old(book).orders && now <= old(book).orders[id].expiration :: old(book).orders[id]
      ensures book.nextId == old(book).nextId && forall a :: Wealth(book, a) == Wealth(old(book), a)
    {
      hide Inv, Supply, AmountToReceive, Wealth;
      ghost var kept := map id | id in book.orders && now <= book.orders[id].expiration :: book.orders[id];
      while exists id :: id in book.orders && book.orders[id].expiration < now
        invariant Inv(book) && forall s :: Supply(book, s) == Supply(old(book), s)
        invariant book.nextId == old(book).nextId && forall a :: Wealth(book, a) == Wealth(old(book), a)
        invariant kept.Keys <= book.orders.Keys <= old(book).orders.Keys
        invariant forall id :: id in book.orders ==> book.orders[id] == old(book).orders[id]
        decreases |book.orders|
      {
        var id :| id in book.orders && book.orders[id].expiration < now;
        CancelFacts(book, id);
        ghost var before := book.orders.Keys;
        CancelOrder(id);
        assert book.orders.Keys == before - {id};
      }
      assert book.orders.Keys == kept.Keys;
    }
  }

  lemma CancelFacts(b: Book, id: nat)
    requires Inv(b) && id in b.orders
    ensures ValidPrice(b.orders[id].price) && Inv(Cancelled(b, id))
    ensures forall s :: Supply(Cancelled(b, id), s) == Supply(b, s)
    ensures forall a :: Wealth(Cancelled(b, id), a) == Wealth(b, a)
  {
    assert id < b.nextId && 0 < b.orders[id].price.base;
    hide Supply, Cancelled, Wealth;
    CancelKeeps(b, id);
    CancelConserves(b, id);
    forall a
      ensures Wealth(Cancelled(b, id), a) == Wealth(b, a)
    {
      CancelWealth(b, id, a);
    }
  }

  /** A cancelled order is given back to its own seller. */
  lemma CancelWealth(b: Book, id: nat, a: Account)
    requires id in b.orders && id < b.nextId && 0 < b.orders[id].price.base
    ensures Wealth(Cancelled(b, id), a) == Wealth(b, a)
  {
    hide Total, Deepened, AmountToReceive, PairOf;
    TotalRemove(b.orders, b.nextId, SoldBy(a), id);
  }

  lemma CancelConserves(b: Book, id: nat)
    requires OrdersSound(b) && id in b.orders
    ensures forall s :: Supply(Cancelled(b, id), s) == Supply(b, s)
  {
    forall s: Symbol
      ensures Supply(Cancelled(b, id), s) == Supply(b, s)
    {
      CancelSupply(b, id, s);
    }
  }

  /** The book with the new order opened is ready to be matched. */
  lemma OpeningFacts(b: Book, o: Order, now: nat)
    requires Inv(b) && Acceptable(b, o, now)
    ensures var r := Opened(b, o);
            && b.nextId !in b.orders && b.nextId in r.orders && r.orders[b.nextId] == o && b.nextId + 1 == r.nextId
            && ValidPrice(o.price) && OrdersSound(r)
            && Agree(r, PairOf(o), (o.forSale, AmountToReceive(o)))
            && CrossedOnlyOverCap(r.(orders := r.orders - {b.nextId}))
            && Candidates(r.orders, o.price) == Candidates(b.orders, o.price)
            && forall s :: Supply(r, s) == Supply(b, s)
  {
    var r := Opened(b, o);
    OpenAgree(b, o, now);
    forall s: Symbol
      ensures Supply(r, s) == Supply(b, s)
    {
      OpenConserves(b, o, s);
    }
    RangeIsCrossingBelowCap(o.price, o.price);
    hide InRange;
    assert b.nextId !in b.orders;
    assert forall id :: id in b.orders ==> id in r.orders && r.orders[id] == b.orders[id];
  }

  lemma ClosingFacts(b: Book, o: Order, matched: Book, id: nat, log: seq<nat>)
    requires 0 < o.price.base && id in Opened(b, o).orders && Opened(b, o).orders[id] == o
    requires Agree(matched, PairOf(o), (o.forSale, AmountToReceive(o))) && CrossedOnlyOverCap(matched)
    requires Progress(Opened(b, o), matched, id, log, PairOf(o), (o.forSale, AmountToReceive(o)))
    ensures var r := Counted(matched, o);
            && Inv(r) && Untouched(Opened(b, o), r, id, log) && r.nextId == b.nextId + 1
            && (forall k :: 0 <= k < |log| ==> log[k] in Candidates(Opened(b, o).orders, o.price))
            && forall s :: Supply(r, s) == Supply(matched, s)
  {
    CountedExact(matched, o);
  }

  lemma EmptyInv(balances: map<Account, int>)
    requires forall a :: a in balances ==> 0 <= balances[a]
    ensures Inv(Book(map[], 0, balances, map[], map[]))
  {
  }

  lemma FeesPaidOrders(fees: Fees, b: Book, n: Order, o: Order, t: Trade)
    requires ValidFees(fees) && 0 <= t.newPays && 0 <= t.newReceives
    ensures FeesPaid(fees, b, n, o, t).orders == b.orders && FeesPaid(fees, b, n, o, t).nextId == b.nextId
  {
  }

  lemma MatchStarts(fees: Fees, start: Book, newId: nat, p: Pair, off: (int, int))
    requires ValidFees(fees) && Agree(start, p, off) && newId in start.orders
            && CrossedOnlyOverCap(start.(orders := start.orders - {newId}))
    ensures Progress(start, start, newId, [], p, off) && InPriority(start.orders, start.orders[newId].price, [])
    ensures TradedAlong(fees, start, newId, []) == Some(start)
  {
  }

  /** There is a best candidate, and the new order still has its price. */
  lemma MatchReady(start: Book, b: Book, newId: nat, log: seq<nat>, p: Pair, off: (int, int))
    requires newId in start.orders && Progress(start, b, newId, log, p, off) && newId in b.orders
    ensures b.orders[newId].price == start.orders[newId].price && OrdersSound(b)
    ensures Candidates(b.orders, b.orders[newId].price) <= b.orders.Keys
    ensures Candidates(b.orders, b.orders[newId].price) != {} ==>
              exists best :: IsBest(b.orders, Candidates(b.orders, b.orders[newId].price), best)
  {
    hide InRange, IsBest;
    if Candidates(b.orders, b.orders[newId].price) != {} {
      BestExists(b.orders, Candidates(b.orders, b.orders[newId].price));
    }
  }

  /**
   The best candidate of the current book: it crosses, has not been taken, and comes first among all that are
   left.
   */
  lemma CandidateFacts(start: Book, b: Book, newId: nat, log: seq<nat>, best: nat)
    requires newId in start.orders && newId in b.orders && Untouched(start, b, newId, log) && OrdersSound(b)
    requires forall k :: 0 <= k < |log| ==> log[k] !in b.orders
    requires IsBest(b.orders, Candidates(b.orders, b.orders[newId].price), best)
    ensures best in b.orders && best != newId && best !in log
    ensures Crosses(b.orders[best].price, b.orders[newId].price)
    ensures best in Candidates(start.orders, start.orders[newId].price)
    ensures forall id :: id in Candidates(start.orders, start.orders[newId].price) && id !in log && id != best ==>
              Before(start.orders, best, id)
  {
    var newPrice := b.orders[newId].price;
    RangeIsCrossingBelowCap(b.orders[best].price, newPrice);
    assert ValidPrice(newPrice);
    hide InRange, OverCap;
    forall id | id in Candidates(start.orders, newPrice) && id !in log && id != best
      ensures Before(start.orders, best, id)
    {
      RangeIsCrossingBelowCap(start.orders[id].price, newPrice);
      assert id != newId;
      assert id in Candidates(b.orders, newPrice);
      assert Before(b.orders, best, id);
    }
  }

  /** One turn of the matching loop. */
  lemma MatchStep(fees: Fees, start: Book, b: Book, newId: nat, log: seq<nat>, best: nat, p: Pair, off: (int, int))
    requires ValidFees(fees) && newId in start.orders && Progress(start, b, newId, log, p, off) && newId in b.orders
    requires InPriority(start.orders, start.orders[newId].price, log)
    requires forall k :: 0 <= k < |log| ==> log[k] !in b.orders
    requires Candidates(b.orders, b.orders[newId].price) <= b.orders.Keys
    requires IsBest(b.orders, Candidates(b.orders, b.orders[newId].price), best)
    ensures OrdersSound(b) && best in b.orders && best != newId && Crosses(b.orders[best].price, b.orders[newId].price)
    ensures Candidates(start.orders, start.orders[newId].price) != {}
    ensures var (r, newGone, oldGone) := Traded(fees, b, newId, best);
            && Progress(start, r, newId, log + [best], p, off)
            && InPriority(start.orders, start.orders[newId].price, log + [best])
            && (newGone <==> newId !in r.orders)
            && (forall k :: 0 <= k < |log + [best]| - (if newGone then 1 else 0) ==> (log + [best])[k] !in r.orders)
            && |r.orders| < |b.orders|
            && forall s :: Supply(r, s) == Supply(b, s)
  {
    assert OrdersSound(b);
    hide Agree, Traded, Supply, Crosses, Before, InRange, Untouched, CrossedOnlyOverCap, InPriority, IsBest,
      OrdersSound;
    CandidateFacts(start, b, newId, log, best);
    TradeProgress(fees, start, b, newId, log, best, p, off);
    TradeKeeps(fees, b, newId, best, p, off);
    PriorityStep(start.orders, start.orders[newId].price, log, best);
    var (r, newGone, oldGone) := Traded(fees, b, newId, best);
    SmallerBook(b, r, newId, best);
    TradeConservesAll(fees, b, newId, best);
  }

  lemma TradeConservesAll(fees: Fees, b: Book, newId: nat, oldId: nat)
    requires ValidFees(fees) && OrdersSound(b) && newId in b.orders && oldId in b.orders && newId != oldId
    requires Crosses(b.orders[oldId].price, b.orders[newId].price)
    ensures forall s :: Supply(Traded(fees, b, newId, oldId).0, s) == Supply(b, s)
  {
    hide Traded, Supply, Crosses, OrdersSound;
    forall s: Symbol
      ensures Supply(Traded(fees, b, newId, oldId).0, s) == Supply(b, s)
    {
      TradeConserves(fees, b, newId, oldId, s);
    }
  }

  lemma MatchEnds(fees: Fees, start: Book, b: Book, newId: nat, log: seq<nat>, p: Pair, off: (int, int))
    requires newId in start.orders && newId + 1 == start.nextId && Progress(start, b, newId, log, p, off)
    requires ValidFees(fees) && TradedAlong(fees, start, newId, log) == Some(b)
    requires InPriority(start.orders, start.orders[newId].price, log)
    requires newId in b.orders ==> Candidates(b.orders, start.orders[newId].price) == {}
    ensures Agree(b, p, off) && CrossedOnlyOverCap(b)
    ensures MatchRun(fees, start, newId, log, b)
  {
    hide TradedAlong, InPriority, Crosses, InRange, OverCap;
    if newId in b.orders {
      RangeExhausted(b, newId);
      forall id | id in Candidates(start.orders, start.orders[newId].price)
        ensures id !in b.orders
      {
        assert id !in Candidates(b.orders, start.orders[newId].price);
      }
    } else {
      assert b.orders - {newId} == b.orders;
    }
  }

  lemma SmallerBook(b: Book, r: Book, newId: nat, oldId: nat)
    requires newId in b.orders && oldId in b.orders && (newId !in r.orders || oldId !in r.orders)
    requires r.orders - {newId, oldId} == b.orders - {newId, oldId}
    ensures |r.orders| < |b.orders| && r.orders.Keys <= b.orders.Keys
  {
    forall id | id in r.orders
      ensures id in b.orders
    {
      if id != newId && id != oldId {
        assert id in r.orders - {newId, oldId};
      }
    }
    assert r.orders.Keys < b.orders.Keys;
    SmallerSet(r.orders.Keys, b.orders.Keys);
  }

  lemma SmallerSet(a: set<nat>, b: set<nat>)
    requires a < b
    ensures |a| < |b|
  {
    assert |b - a| > 0;
    assert |b| == |a| + |b - a|;
  }

  /**
   The book can be crossed: an order that sells two thousand trillion units for one rests, is skipped
   by an order that would gladly take it, and both stay on the book.
   */
  method OverCapOrderIsSkipped() returns (m: OrderMarket)
    ensures exists i, j :: i in m.book.orders && j in m.book.orders && i < j
                           && Crosses(m.book.orders[i].price, m.book.orders[j].price)
    ensures Inv(m.book)
  {
    hide Inv, Supply, Placed, WouldFill, Deepened, InRange;
    var maker := Order("maker", 1, 2_000_000_000_000_000, Price(2_000_000_000_000_000, 7, 1, 3), 10);
    var taker := Order("taker", 1, 1, Price(1, 3, 1, 7), 10);
    m := new OrderMarket(map[], map[("maker", 7) := 2_000_000_000_000_000, ("taker", 3) := 1]);
    assert Acceptable(m.book, maker, 0);
    ghost var b0 := m.book;
    var ok, log := m.CreateOrder(maker, false, 0);
    assert Candidates(b0.orders, maker.price) == {};
    ghost var b1 := Counted(Opened(b0, maker), maker);
    assert m.book == b1 && b1.orders == map[0 := maker];
    RangeIsCrossingBelowCap(maker.price, taker.price);
    assert Candidates(b1.orders, taker.price) == {};
    assert Held(b1.balances, ("taker", 3)) == 1;
    assert Acceptable(b1, taker, 0);
    ok, log := m.CreateOrder(taker, false, 0);
    assert m.book.orders == map[0 := maker, 1 := taker];
    assert Crosses(m.book.orders[0].price, m.book.orders[1].price);
  }
}

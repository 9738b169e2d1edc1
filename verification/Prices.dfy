/** Prices as pairs of positive amounts, compared by cross multiplication; converting an amount rounds down. */
module Prices {
  import opened Arith

  /** The numeric value of an asset symbol, in which symbols are ordered. */
  type Symbol = nat

  const MAX_SHARE_SUPPLY := 1_000_000_000_000_000

  datatype Price = Price(base: int, baseSymbol: Symbol, quote: int, quoteSymbol: Symbol)

  predicate ValidPrice(p: Price) {
    0 < p.base && 0 < p.quote && p.baseSymbol != p.quoteSymbol
  }

  /** ~p */
  function Inverse(p: Price): Price {
    Price(p.quote, p.quoteSymbol, p.base, p.baseSymbol)
  }

  /** price::max for p's pair of symbols. */
  function MaxPrice(p: Price): Price {
    Price(MAX_SHARE_SUPPLY, p.baseSymbol, 1, p.quoteSymbol)
  }

  predicate Equal(a: Price, b: Price) {
    a.baseSymbol == b.baseSymbol && a.quoteSymbol == b.quoteSymbol && b.quote * a.base == a.quote * b.base
  }

  predicate Less(a: Price, b: Price) {
    if a.baseSymbol != b.baseSymbol then a.baseSymbol < b.baseSymbol
    else if a.quoteSymbol != b.quoteSymbol then a.quoteSymbol < b.quoteSymbol
    else b.quote * a.base < a.quote * b.base
  }

  predicate LessOrEqual(a: Price, b: Price) {
    Equal(a, b) || Less(a, b)
  }

  predicate Greater(a: Price, b: Price) {
    !LessOrEqual(a, b)
  }

  /** x units of the base asset in units of the quote asset, and back; both round down. */
  function ToQuote(x: int, p: Price): int
    requires 0 < p.base
  {
    x * p.quote / p.base
  }

  function ToBase(x: int, p: Price): int
    requires 0 < p.quote
  {
    x * p.base / p.quote
  }

  // ---------- the order ----------

  lemma GreaterIsLessReversed(a: Price, b: Price)
    ensures Greater(a, b) == Less(b, a)
  {
  }

  lemma CrossTransitive(a: int, b: int, c: int, d: int, e: int, f: int)
    requires 0 < b && 0 < d && 0 < f && 0 < c
    requires a * d <= c * b && c * f <= e * d
    ensures a * f <= e * b
    ensures a * d < c * b || c * f < e * d ==> a * f < e * b
  {
    calc {
      a * f * d;
      (a * d) * f;
      <= { MulMonotone(a * d, c * b, f); }
      (c * b) * f;
      (c * f) * b;
      <= { MulMonotone(c * f, e * d, b); }
      (e * d) * b;
      e * b * d;
    }
    if a * f > e * b {
      MulStrict(e * b, a * f, d);
      assert false;
    }
    if a * d < c * b {
      MulStrict(a * d, c * b, f);
      assert a * f * d < e * b * d;
    } else if c * f < e * d {
      MulStrict(c * f, e * d, b);
      assert a * f * d < e * b * d;
    }
    if a * f == e * b {
      assert a * f * d == e * b * d;
    }
  }

  /** With positive amounts the comparison is a strict weak order: the index is well ordered. */
  lemma LessTransitive(a: Price, b: Price, c: Price)
    requires ValidPrice(a) && ValidPrice(b) && ValidPrice(c)
    requires LessOrEqual(a, b) && LessOrEqual(b, c)
    ensures LessOrEqual(a, c)
    ensures Less(a, b) || Less(b, c) ==> Less(a, c)
  {
    if a.baseSymbol == b.baseSymbol == c.baseSymbol && a.quoteSymbol == b.quoteSymbol == c.quoteSymbol {
      CrossTransitive(a.base, a.quote, b.base, b.quote, c.base, c.quote);
    }
  }

  // ---------- which resting orders a new order is matched with ----------

  /** A price between the limit of the new order and price::max of the opposite pair, in index order. */
  predicate InRange(p: Price, newPrice: Price) {
    var limit := Inverse(newPrice);
    !Greater(p, MaxPrice(limit)) && !Greater(limit, p)
  }

  /** p sells what the new order buys at a price the new order accepts. */
  predicate Crosses(p: Price, newPrice: Price) {
    && p.baseSymbol == newPrice.quoteSymbol && p.quoteSymbol == newPrice.baseSymbol
    && newPrice.quote * p.quote <= newPrice.base * p.base
  }

  /** More than MAX_SHARE_SUPPLY units of base for each unit of quote. */
  predicate OverCap(p: Price) {
    p.base > MAX_SHARE_SUPPLY * p.quote
  }

  lemma CrossesSymmetric(p: Price, q: Price)
    ensures Crosses(p, q) == Crosses(q, p)
  {
    assert q.quote * p.quote == p.quote * q.quote && q.base * p.base == p.base * q.base;
  }

  /** The scanned range holds exactly the crossing prices that do not exceed the cap. */
  lemma RangeIsCrossingBelowCap(p: Price, newPrice: Price)
    ensures InRange(p, newPrice) <==> Crosses(p, newPrice) && !OverCap(p)
  {
    var limit := Inverse(newPrice);
    assert MaxPrice(limit).base == MAX_SHARE_SUPPLY && MaxPrice(limit).quote == 1;
    if p.baseSymbol == limit.baseSymbol && p.quoteSymbol == limit.quoteSymbol {
      GreaterIsLessReversed(p, MaxPrice(limit));
      GreaterIsLessReversed(limit, p);
      assert Less(MaxPrice(limit), p) <==> p.quote * MAX_SHARE_SUPPLY < 1 * p.base;
      assert Less(p, limit) <==> limit.quote * p.base < p.quote * limit.base;
      assert limit.quote * p.base == newPrice.base * p.base && p.quote * limit.base == newPrice.quote * p.quote;
    }
  }
}

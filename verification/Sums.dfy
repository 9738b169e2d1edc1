/** Finite sums over sets of keys: the one summation every ledger invariant of this project is stated with. */
module Sums {

  /** The sum of f over s. */
  ghost function Sum<K>(s: set<K>, f: K -> int): int
    decreases |s|
  {
    if s == {} then 0
    else
      var x :| x in s;
      f(x) + Sum(s - {x}, f)
  }

  /** The value 1 when b holds and 0 otherwise, so that a filtered sum is a sum of products. */
  function Ind(b: bool): int {
    if b then 1 else 0
  }

  /** Any member can be taken out first. */
  lemma {:induction false} SumRemove<K>(s: set<K>, f: K -> int, x: K)
    requires x in s
    ensures Sum(s, f) == f(x) + Sum(s - {x}, f)
    decreases |s|
  {
    var y :| y in s && Sum(s, f) == f(y) + Sum(s - {y}, f);
    if y != x {
      SumRemove(s - {y}, f, x);
      SumRemove(s - {x}, f, y);
      assert s - {y} - {x} == s - {x} - {y};
    }
  }

  lemma SumInsert<K>(s: set<K>, f: K -> int, x: K)
    requires x !in s
    ensures Sum(s + {x}, f) == f(x) + Sum(s, f)
  {
    SumRemove(s + {x}, f, x);
    assert s + {x} - {x} == s;
  }

  lemma {:induction false} SumCongruence<K>(s: set<K>, f: K -> int, g: K -> int)
    requires forall x :: x in s ==> f(x) == g(x)
    ensures Sum(s, f) == Sum(s, g)
    decreases |s|
  {
    if s != {} {
      var x :| x in s;
      SumRemove(s, f, x);
      SumRemove(s, g, x);
      SumCongruence(s - {x}, f, g);
    }
  }

  /** Sums are linear: h = f + c * g pointwise. */
  lemma {:induction false} SumLinear<K>(s: set<K>, h: K -> int, f: K -> int, c: int, g: K -> int)
    requires forall x :: x in s ==> h(x) == f(x) + c * g(x)
    ensures Sum(s, h) == Sum(s, f) + c * Sum(s, g)
    decreases |s|
  {
    if s != {} {
      var x :| x in s;
      SumRemove(s, h, x);
      SumRemove(s, f, x);
      SumRemove(s, g, x);
      SumLinear(s - {x}, h, f, c, g);
      assert c * (g(x) + Sum(s - {x}, g)) == c * g(x) + c * Sum(s - {x}, g);
    }
  }

  lemma {:induction false} SumZero<K>(s: set<K>, f: K -> int)
    requires forall x :: x in s ==> f(x) == 0
    ensures Sum(s, f) == 0
    decreases |s|
  {
    if s != {} {
      var x :| x in s;
      SumRemove(s, f, x);
      SumZero(s - {x}, f);
    }
  }

  lemma {:induction false} SumMonotone<K>(s: set<K>, f: K -> int, g: K -> int)
    requires forall x :: x in s ==> f(x) <= g(x)
    ensures Sum(s, f) <= Sum(s, g)
    decreases |s|
  {
    if s != {} {
      var x :| x in s;
      SumRemove(s, f, x);
      SumRemove(s, g, x);
      SumMonotone(s - {x}, f, g);
    }
  }

  lemma SumNonNegative<K>(s: set<K>, f: K -> int)
    requires forall x :: x in s ==> 0 <= f(x)
    ensures 0 <= Sum(s, f)
  {
    SumZero(s, (x: K) => 0);
    SumMonotone(s, (x: K) => 0, f);
  }

  /** Two summands that agree everywhere but at x differ by their difference at x. */
  lemma SumPoint<K>(s: set<K>, f: K -> int, g: K -> int, x: K)
    requires x in s
    requires forall y :: y in s && y != x ==> f(y) == g(y)
    ensures Sum(s, g) == Sum(s, f) + g(x) - f(x)
  {
    SumRemove(s, f, x);
    SumRemove(s, g, x);
    SumCongruence(s - {x}, f, g);
  }

  /** Row x of a table, and column y. */
  ghost function Row<K, L>(f: (K, L) -> int, x: K): L -> int {
    (y: L) => f(x, y)
  }

  ghost function Column<K, L>(f: (K, L) -> int, y: L): K -> int {
    (x: K) => f(x, y)
  }

  ghost function RowSums<K, L>(t: set<L>, f: (K, L) -> int): K -> int {
    (x: K) => Sum(t, Row(f, x))
  }

  ghost function ColumnSums<K, L>(s: set<K>, f: (K, L) -> int): L -> int {
    (y: L) => Sum(s, Column(f, y))
  }

  /** The order of summation can be exchanged. */
  lemma {:induction false} SumExchange<K, L>(s: set<K>, t: set<L>, f: (K, L) -> int)
    ensures Sum(s, RowSums(t, f)) == Sum(t, ColumnSums(s, f))
    decreases |s|
  {
    if s == {} {
      SumZero(t, ColumnSums(s, f));
    } else {
      var x0 :| x0 in s;
      SumRemove(s, RowSums(t, f), x0);
      SumExchange(s - {x0}, t, f);
      forall y | y in t
        ensures ColumnSums(s, f)(y) == ColumnSums(s - {x0}, f)(y) + 1 * Row(f, x0)(y)
      {
        SumRemove(s, Column(f, y), x0);
      }
      SumLinear(t, ColumnSums(s, f), ColumnSums(s - {x0}, f), 1, Row(f, x0));
    }
  }
}

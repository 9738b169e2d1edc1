/** Curation weights: the two growing curves, the approximate square root, and the split at the auction window. */
module Curation {
  import opened Arith

  const LIMIT64: int := 0x1_0000_0000_0000_0000
  const LIMIT128: int := 0x1_0000_0000_0000_0000_0000_0000_0000_0000

  // ---------- powers of two ----------

  function Pow2(n: nat): (r: nat)
    ensures 0 < r
  {
    if n == 0 then 1 else 2 * Pow2(n - 1)
  }

  lemma DoubleProduct(a: nat, b: nat)
    ensures 2 * (a * b) == (2 * a) * b
  {
  }

  lemma {:induction false} Pow2Add(m: nat, n: nat)
    ensures Pow2(m + n) == Pow2(m) * Pow2(n)
  {
    if m > 0 {
      Pow2Add(m - 1, n);
      assert Pow2(m + n) == 2 * Pow2(m - 1 + n);
      DoubleProduct(Pow2(m - 1), Pow2(n));
    }
  }

  lemma {:induction false} Pow2Monotone(m: nat, n: nat)
    requires m <= n
    ensures Pow2(m) <= Pow2(n)
  {
    if m < n {
      Pow2Monotone(m, n - 1);
    }
  }

  lemma Pow2Of64()
    ensures Pow2(64) == LIMIT64 && Pow2(128) == LIMIT128 && Pow2(64) == 2 * Pow2(63)
  {
    assert Pow2(4) == 16;
    assert Pow2(64) == 2 * Pow2(63);
    hide Pow2;
    Pow2Add(4, 4);
    Pow2Add(8, 8);
    Pow2Add(16, 16);
    Pow2Add(32, 32);
    Pow2Add(64, 64);
  }

  // ---------- the approximate square root ----------

  /** The place of the highest set bit. */
  function Msb(x: nat): (r: nat)
    requires 0 < x
  {
    if x == 1 then 0 else 1 + Msb(x / 2)
  }

  lemma {:induction false} MsbBounds(x: nat)
    requires 0 < x
    ensures Pow2(Msb(x)) <= x < Pow2(Msb(x) + 1)
  {
    if x > 1 {
      MsbBounds(x / 2);
    }
  }

  /** The highest set bit of a 128-bit value, found in its upper half if that is not zero. */
  function FindMsb(x: nat): nat {
    var hi, lo := x / LIMIT64, x % LIMIT64;
    if hi != 0 then Msb(hi) + 64 else Msb(if lo != 0 then lo else 1)
  }

  lemma FindMsbBounds(x: nat)
    requires 0 < x < LIMIT128
    ensures FindMsb(x) < 128 && Pow2(FindMsb(x)) <= x < Pow2(FindMsb(x) + 1)
  {
    Pow2Of64();
    var hi := x / LIMIT64;
    var m := FindMsb(x);
    if hi != 0 {
      MsbBounds(hi);
      Pow2Add(Msb(hi), 64);
      Pow2Add(Msb(hi) + 1, 64);
      assert Pow2(m) == Pow2(Msb(hi)) * LIMIT64 && Pow2(m + 1) == Pow2(Msb(hi) + 1) * LIMIT64;
    } else {
      MsbBounds(x);
    }
    if m >= 128 {
      Pow2Monotone(128, m);
    }
  }

  /**
   approx_sqrt, from the highest bit on. The bits joined by the two bitwise ors never overlap, so the ors are
   sums.
   */
  function RootFrom(x: nat, m: nat): nat {
    var z := m / 2;
    var bitZ := Pow2(z);
    var hi := if m % 2 == 1 then bitZ else 0;
    var lo := x % Pow2(m) / Pow2(m - z) % LIMIT64;
    bitZ + (hi + lo) / 2
  }

  function ApproxSqrt(x: nat): nat {
    if x == 0 then 0 else RootFrom(x, FindMsb(x))
  }

  /** The power of two nearest to the root: the one whose square is within a factor two of x. */
  function Guess(x: nat): nat
    requires 0 < x
  {
    Pow2((FindMsb(x) + 1) / 2)
  }

  /** Splitting off the highest bit. */
  lemma TakeHighBit(x: nat, p: nat)
    requires 0 < p <= x < 2 * p
    ensures x % p == x - p
  {
    assert x == p * 1 + (x - p);
    DivBounds(x, p);
    DivAtLeast(x, p, 1);
    DivAtLeast(x, p, 2);
  }

  /** Halving after dividing, and adding whole multiples before. */
  lemma DivAdd(x: int, k: int, q: int)
    requires 0 < k
    ensures (x + q * k) / k == x / k + q
  {
    DivBounds(x, k);
    assert (x / k + q) * k == x / k * k + q * k;
    assert (x / k + q + 1) * k == x / k * k + q * k + k;
    DivAtLeast(x + q * k, k, x / k + q);
    DivAtLeast(x + q * k, k, x / k + q + 1);
  }

  lemma HalfOfDiv(x: int, k: int)
    requires 0 < k
    ensures x / k / 2 == x / (2 * k)
  {
    var q := x / k / 2;
    DivAtLeast(x, k, 2 * q);
    DivAtLeast(x, k, 2 * q + 2);
    assert 2 * q * k == q * (2 * k) && (2 * q + 2) * k == (q + 1) * (2 * k);
    DivAtLeast(x, 2 * k, q);
    DivAtLeast(x, 2 * k, q + 1);
  }

  lemma SmallMod(x: int, p: int)
    requires 0 <= x < p <= LIMIT64
    ensures x % LIMIT64 == x
  {
  }

  /** The mantissa shifted down has fewer bits than the leading bit of the root. */
  lemma MantissaBits(rest: int, k: int, p: int)
    requires 0 < k && 0 <= rest < p * k && p <= LIMIT64
    ensures 0 <= rest / k < p && rest / k % LIMIT64 == rest / k
  {
    DivAtLeast(rest, k, p);
    DivNonNegative(rest, k);
    SmallMod(rest / k, p);
  }

  lemma EvenHalf(x: nat, p: nat)
    requires 0 < p && p * p <= x
    ensures p + (x - p * p) / p / 2 == (x + p * p) / (2 * p)
  {
    var rest := x - p * p;
    HalfOfDiv(rest, p);
    assert p * (2 * p) == 2 * (p * p);
    DivAdd(rest, 2 * p, p);
  }

  lemma OddHalf(x: nat, p: nat)
    requires 0 < p && 2 * (p * p) <= x
    ensures p + (p + (x - 2 * (p * p)) / (2 * p)) / 2 == (x + 4 * (p * p)) / (4 * p)
  {
    assert p * (2 * p) == 2 * (p * p) && p * (4 * p) == 4 * (p * p);
    OddHalfOf(x, p, 2 * (p * p));
  }

  lemma OddHalfOf(x: nat, p: nat, a: nat)
    requires 0 < p && p * (2 * p) == a && p * (4 * p) == 2 * a
    ensures p + (p + (x - a) / (2 * p)) / 2 == (x + 2 * a) / (4 * p)
  {
    DivAdd(x - a, 2 * p, p);
    HalfOfDiv(x, 2 * p);
    DivAdd(x, 4 * p, p);
  }

  lemma EvenStep(x: nat, z: nat, p: nat)
    requires p == Pow2(z) && p < LIMIT64 && Pow2(2 * z) <= x < 2 * Pow2(2 * z)
    ensures p * p <= x < 2 * (p * p) && RootFrom(x, 2 * z) == (x + p * p) / (2 * p)
    ensures p <= RootFrom(x, 2 * z) <= p + p / 2
  {
    Pow2Add(z, z);
    TakeHighBit(x, Pow2(2 * z));
    hide Pow2;
    MantissaBits(x - p * p, p, p);
    EvenHalf(x, p);
  }

  lemma RootFromOdd(x: nat, z: nat)
    ensures RootFrom(x, 2 * z + 1) == Pow2(z) + (Pow2(z) + x % Pow2(2 * z + 1) / Pow2(z + 1) % LIMIT64) / 2
    ensures Pow2(2 * z + 1) == 2 * (Pow2(z) * Pow2(z)) && Pow2(z + 1) == 2 * Pow2(z)
  {
    assert (2 * z + 1) / 2 == z && (2 * z + 1) % 2 == 1 && 2 * z + 1 - z == z + 1;
    Pow2Add(z, z);
  }

  lemma OddStep(x: nat, z: nat, p: nat)
    requires p == Pow2(z) && p < LIMIT64 && Pow2(2 * z + 1) <= x < 2 * Pow2(2 * z + 1)
    ensures 2 * (p * p) <= x < 4 * (p * p) && RootFrom(x, 2 * z + 1) == (x + 4 * (p * p)) / (4 * p)
    ensures p + p / 2 <= RootFrom(x, 2 * z + 1) < 2 * p
  {
    hide RootFrom, Pow2;
    RootFromOdd(x, z);
    TakeHighBit(x, Pow2(2 * z + 1));
    var rest := x - 2 * (p * p);
    assert p * (2 * p) == 2 * (p * p);
    MantissaBits(rest, 2 * p, p);
    OddHalf(x, p);
    assert p / 2 <= (p + rest / (2 * p)) / 2 < p;
  }

  /** The code is one step of Newton's iteration from that power of two. */
  lemma RootOf(x: nat)
    requires 0 < x < LIMIT128
    ensures FindMsb(x) < 128 && ApproxSqrt(x) == RootFrom(x, FindMsb(x))
  {
    FindMsbBounds(x);
    hide FindMsb, RootFrom;
  }

  lemma ApproxSqrtIsNewtonStep(x: nat)
    requires 0 < x < LIMIT128
    ensures var q := Guess(x);
            && q * q <= 2 * x && x <= 2 * (q * q)
            && ApproxSqrt(x) == (x + q * q) / (2 * q)
  {
    hide RootFrom, FindMsb, Pow2, Guess, ApproxSqrt;
    var m, z, p := HighBit(x);
    RootOf(x);
    if m == 2 * z {
      EvenStep(x, z, p);
    } else {
      OddStep(x, z, p);
      DoubleSquare(p);
    }
  }

  lemma DoubleSquare(p: int)
    ensures 2 * p * (2 * p) == 4 * (p * p) && 2 * (2 * p) == 4 * p
  {
  }

  /** Which half of which octave the root is in follows from the highest bit alone. */
  lemma ApproxSqrtRange(x: nat)
    requires 0 < x < LIMIT128
    ensures var m := FindMsb(x);
            var p := Pow2(m / 2);
            if m % 2 == 0 then p <= ApproxSqrt(x) <= p + p / 2 else p + p / 2 <= ApproxSqrt(x) < 2 * p
  {
    var m, z, p := HighBit(x);
    hide RootFrom, FindMsb, Pow2;
    if m == 2 * z {
      EvenStep(x, z, p);
    } else {
      OddStep(x, z, p);
    }
  }

  lemma HighBit(x: nat) returns (m: nat, z: nat, p: nat)
    requires 0 < x < LIMIT128
    ensures m == FindMsb(x) && z == m / 2 && (m == 2 * z || m == 2 * z + 1) && p == Pow2(z) && p < LIMIT64
    ensures Pow2(m) <= x < 2 * Pow2(m)
    ensures Guess(x) == if m == 2 * z then p else 2 * p
  {
    m := FindMsb(x);
    FindMsbBounds(x);
    z := m / 2;
    p := Pow2(z);
    Pow2Monotone(z, 63);
    Pow2Of64();
  }

  /** A Newton step from a guess within a factor two of x is never below the root, rounded down. */
  lemma NewtonNotBelow(x: nat, q: nat, s: nat)
    requires 0 < q && s * s <= x
    ensures s <= (x + q * q) / (2 * q)
  {
    var d := s - q;
    assert 0 <= d * d;
    assert d * d == s * s - 2 * (s * q) + q * q;
    assert s * (2 * q) == 2 * (s * q);
    DivAtLeast(x + q * q, 2 * q, s);
  }

  /** And its square is never more than nine eighths of x. */
  lemma NewtonNotAbove(x: nat, q: nat)
    requires 0 < q && q * q <= 2 * x && x <= 2 * (q * q)
    ensures var r := (x + q * q) / (2 * q); 8 * (r * r) <= 9 * x
  {
    var r := (x + q * q) / (2 * q);
    DivBounds(x + q * q, 2 * q);
    DivAtLeast(x + q * q, 2 * q, 0);
    SquareBound(x, q * q);
    TwiceSquare(r, q);
    DropFactor(x, q * q, r * r, r * (2 * q));
  }

  lemma TwiceSquare(r: int, q: int)
    ensures r * (2 * q) * (r * (2 * q)) == 4 * (r * r * (q * q))
  {
  }

  lemma DropFactor(x: nat, a: nat, rr: nat, b: nat)
    requires 0 < a && 2 * ((x + a) * (x + a)) <= 9 * x * a && b <= x + a && b * b == 4 * (rr * a)
    ensures 8 * rr <= 9 * x
  {
    MulMonotone(b, x + a, b);
    MulMonotone(b, x + a, x + a);
    assert 8 * rr * a == 2 * (4 * (rr * a));
    if 9 * x < 8 * rr {
      MulStrict(9 * x, 8 * rr, a);
    }
  }

  lemma SquareBound(x: nat, a: nat)
    requires a <= 2 * x && x <= 2 * a
    ensures 2 * ((x + a) * (x + a)) <= 9 * x * a
  {
    MulMonotone(0, 2 * x - a, 2 * a - x);
    assert (2 * x - a) * (2 * a - x) == 5 * (x * a) - 2 * (x * x) - 2 * (a * a);
    assert (x + a) * (x + a) == x * x + 2 * (x * a) + a * a;
  }

  /** The root of every 128-bit value, between its floor and three over the root of eight times it. */
  lemma ApproxSqrtBounds(x: nat, s: nat)
    requires x < LIMIT128 && s * s <= x
    ensures s <= ApproxSqrt(x) && 8 * (ApproxSqrt(x) * ApproxSqrt(x)) <= 9 * x
    ensures ApproxSqrt(x) < LIMIT64
  {
    if x == 0 {
      if s > 0 {
        MulStrict(0, s, s);
      }
    } else {
      ApproxSqrtIsNewtonStep(x);
      NewtonNotBelow(x, Guess(x), s);
      NewtonNotAbove(x, Guess(x));
      ApproxSqrtRange(x);
      var z := FindMsb(x) / 2;
      FindMsbBounds(x);
      Pow2Monotone(z + 1, 64);
      Pow2Of64();
    }
  }

  /** With the same highest bit the guess is the same, and the step from it is monotone. */
  lemma SameGuessMonotone(x: nat, y: nat)
    requires 0 < x <= y < LIMIT128 && FindMsb(x) == FindMsb(y)
    ensures ApproxSqrt(x) <= ApproxSqrt(y)
  {
    hide RootFrom, FindMsb, ApproxSqrt, Pow2;
    ApproxSqrtIsNewtonStep(x);
    ApproxSqrtIsNewtonStep(y);
    assert Guess(x) == Guess(y);
    hide Guess;
    StepMonotone(x, y, Guess(x));
  }

  lemma StepMonotone(x: nat, y: nat, q: nat)
    requires x <= y && 0 < q
    ensures (x + q * q) / (2 * q) <= (y + q * q) / (2 * q)
  {
    DivMonotone(x + q * q, y + q * q, 2 * q);
  }

  /** With a higher one the roots are in disjoint ranges, or on either side of the middle of one. */
  lemma HigherBitMonotone(x: nat, y: nat)
    requires 0 < x < LIMIT128 && 0 < y < LIMIT128 && FindMsb(x) < FindMsb(y)
    ensures ApproxSqrt(x) <= ApproxSqrt(y)
  {
    hide RootFrom, FindMsb, ApproxSqrt;
    var m, n := FindMsb(x), FindMsb(y);
    ApproxSqrtRange(x);
    ApproxSqrtRange(y);
    if m / 2 < n / 2 {
      Pow2Monotone(m / 2 + 1, n / 2);
    }
  }

  /** More shares never have a smaller root. */
  lemma ApproxSqrtMonotone(x: nat, y: nat)
    requires x <= y < LIMIT128
    ensures ApproxSqrt(x) <= ApproxSqrt(y)
  {
    if 0 < x {
      FindMsbBounds(x);
      FindMsbBounds(y);
      hide RootFrom, FindMsb, ApproxSqrt;
      if FindMsb(x) > FindMsb(y) {
        Pow2Monotone(FindMsb(y) + 1, FindMsb(x));
      } else if FindMsb(x) == FindMsb(y) {
        SameGuessMonotone(x, y);
      } else {
        HigherBitMonotone(x, y);
      }
    }
  }

  // ---------- the curves ----------

  /** The two curves whose weights grow with the shares; constant is the content constant. */
  datatype Curve = Bounded(constant: nat) | SquareRoot

  /** W(R), the weight of a comment with R shares voted for it. */
  function Weight(c: Curve, shares: nat): nat {
    match c
    case Bounded(s) => if shares == 0 then 0 else shares * (LIMIT64 - 1) / (2 * s + shares)
    case SquareRoot => ApproxSqrt(shares)
  }

  /** The bounded curve is 2^64 - 1 times R / (R + 2S), rounded down. */
  lemma BoundedIsShare(s: nat, shares: nat)
    requires 0 < shares
    ensures IsFloor(Weight(Bounded(s), shares), shares * (LIMIT64 - 1), 2 * s + shares)
  {
    FloorIs(shares * (LIMIT64 - 1), 2 * s + shares);
  }

  /** A weight w of at most b that x shares earn is earned by more shares as well. */
  lemma MoreShares(w: int, b: int, k: nat, x: nat, y: nat)
    requires w <= b && x <= y && w * (k + x) <= x * b
    ensures w * (k + y) <= y * b
  {
    MulMonotone(0, b - w, y - x);
    assert w * (k + y) == w * (k + x) + w * (y - x);
    assert y * b == x * b + (y - x) * b;
    assert (b - w) * (y - x) == (y - x) * b - w * (y - x);
  }

  lemma BoundedMonotone(s: nat, x: nat, y: nat)
    requires x <= y
    ensures Weight(Bounded(s), x) <= Weight(Bounded(s), y) < LIMIT64
  {
    if 0 < y {
      var b := LIMIT64 - 1;
      ShareBounds(b, y, 2 * s + y);
      assert y * b == b * y;
      if 0 < x {
        var w := x * b / (2 * s + x);
        ShareBounds(b, x, 2 * s + x);
        assert x * b == b * x;
        DivBounds(x * b, 2 * s + x);
        MoreShares(w, b, 2 * s, x, y);
        DivAtLeast(y * b, 2 * s + y, w);
      }
    }
  }

  /** Both curves grow with the shares and fit 64 bits. */
  lemma WeightMonotone(c: Curve, x: nat, y: nat)
    requires x <= y < LIMIT64
    ensures Weight(c, x) <= Weight(c, y) < LIMIT64
  {
    match c
    case Bounded(s) =>
      BoundedMonotone(s, x, y);
    case SquareRoot =>
      ApproxSqrtMonotone(x, y);
      ApproxSqrtBounds(y, 0);
  }

  // ---------- what each vote contributes ----------

  type Voter = nat

  /** The part of a vote's reward that goes to an account that lent the voter shares, in hundredths of a percent. */
  datatype DelegatorRate = DelegatorRate(account: Voter, rate: nat)

  datatype Vote = Vote(
    voter: Voter, origRshares: int, numChanges: int, auctionTime: nat, rates: seq<DelegatorRate>)

  /** The part of the time window that counts for a vote cast that many seconds after the comment was created. */
  function AuctionTime(elapsed: nat, window: nat, selfVote: bool): (r: nat)
    ensures r <= window && (!selfVote && elapsed <= window ==> r == elapsed)
    ensures selfVote || window <= elapsed ==> r == window
  {
    if selfVote || window < elapsed then window else elapsed
  }

  predicate WithinWindow(votes: seq<Vote>, window: nat) {
    forall k :: 0 <= k < |votes| ==> votes[k].auctionTime <= window
  }

  predicate Changed(v: Vote) {
    v.numChanges != 0 && v.numChanges != -1
  }

  /** The shares voted for the comment by the first n votes. */
  function Shares(votes: seq<Vote>, n: nat): nat
    requires n <= |votes|
  {
    if n == 0 then 0 else Shares(votes, n - 1) + Max(votes[n - 1].origRshares, 0)
  }

  /** How much vote k moves the curve. */
  function Raw(c: Curve, votes: seq<Vote>, k: nat): int
    requires k < |votes|
  {
    Weight(c, Shares(votes, k + 1)) - Weight(c, Shares(votes, k))
  }

  /** What the auction window leaves of a weight. */
  function Discounted(weight: int, time: nat, window: nat): int
    requires time <= window
  {
    if time == window then weight else weight * time / window
  }

  /** A vote within the window keeps the part of its weight that its time is of the window, rounded down. */
  lemma DiscountIsPart(weight: int, time: nat, window: nat)
    requires time <= window
    ensures if time == window then Discounted(weight, time, window) == weight
            else IsFloor(Discounted(weight, time, window), weight * time, window)
  {
    if time < window {
      FloorIs(weight * time, window);
    }
  }

  lemma DiscountBounds(weight: int, time: nat, window: nat)
    requires 0 <= weight && time <= window
    ensures 0 <= Discounted(weight, time, window) <= weight
    ensures Discounted(weight, window, window) == weight
  {
    if time < window {
      ShareBounds(weight, time, window);
    }
  }

  /** What it leaves of vote k. */
  function Kept(c: Curve, votes: seq<Vote>, k: nat, window: nat): int
    requires k < |votes| && WithinWindow(votes, window)
  {
    Discounted(Raw(c, votes, k), votes[k].auctionTime, window)
  }

  /** Where the weight of a vote goes. */
  datatype Part = ToWindow | InsideWindow | AfterWindow | Dropped

  function PartOf(c: Curve, votes: seq<Vote>, k: nat, window: nat, p: Part): int
    requires k < |votes| && WithinWindow(votes, window)
  {
    match p
    case ToWindow => Raw(c, votes, k) - Kept(c, votes, k, window)
    case InsideWindow => if Changed(votes[k]) || votes[k].auctionTime == window then 0 else Kept(c, votes, k, window)
    case AfterWindow => if Changed(votes[k]) || votes[k].auctionTime != window then 0 else Kept(c, votes, k, window)
    case Dropped => if Changed(votes[k]) then Kept(c, votes, k, window) else 0
  }

  /** The weight vote k is paid by. */
  function VoteWeight(c: Curve, votes: seq<Vote>, k: nat, window: nat): int
    requires k < |votes| && WithinWindow(votes, window)
  {
    if Changed(votes[k]) then 0 else Kept(c, votes, k, window)
  }

  /** A vote never changed, or only marked for removal, is paid by what it keeps, and any other by nothing. */
  lemma OnlyUnchangedVotesWeigh(c: Curve, votes: seq<Vote>, k: nat, window: nat)
    requires k < |votes| && WithinWindow(votes, window)
    ensures VoteWeight(c, votes, k, window)
            == if votes[k].numChanges in {0, -1} then Kept(c, votes, k, window) else 0
  {
    hide Kept;
  }

  function Total(c: Curve, votes: seq<Vote>, n: nat, window: nat, p: Part): int
    requires n <= |votes| && WithinWindow(votes, window)
  {
    if n == 0 then 0 else Total(c, votes, n - 1, window, p) + PartOf(c, votes, n - 1, window, p)
  }

  /** No vote moves a curve down, and the window takes a part of the move, never more. */
  lemma PartsOfVote(c: Curve, votes: seq<Vote>, k: nat, window: nat)
    requires k < |votes| && WithinWindow(votes, window) && Shares(votes, k + 1) < LIMIT64
    ensures 0 <= Kept(c, votes, k, window) <= Raw(c, votes, k)
    ensures forall p :: 0 <= PartOf(c, votes, k, window, p)
    ensures PartOf(c, votes, k, window, ToWindow) + VoteWeight(c, votes, k, window)
            + PartOf(c, votes, k, window, Dropped) == Raw(c, votes, k)
    ensures VoteWeight(c, votes, k, window)
            == PartOf(c, votes, k, window, InsideWindow) + PartOf(c, votes, k, window, AfterWindow)
  {
    WeightMonotone(c, Shares(votes, k), Shares(votes, k + 1));
    DiscountBounds(Raw(c, votes, k), votes[k].auctionTime, window);
    hide Weight, Discounted;
  }

  lemma {:induction false} SharesMonotone(votes: seq<Vote>, m: nat, n: nat)
    requires m <= n <= |votes|
    ensures Shares(votes, m) <= Shares(votes, n)
  {
    if m < n {
      SharesMonotone(votes, m, n - 1);
    }
  }

  /** The four parts add up to the curve at the total shares, so no sum of them leaves 64 bits. */
  lemma {:induction false} PartsAddUp(c: Curve, votes: seq<Vote>, n: nat, window: nat)
    requires n <= |votes| && WithinWindow(votes, window) && Shares(votes, n) < LIMIT64
    ensures forall p :: 0 <= Total(c, votes, n, window, p)
    ensures Total(c, votes, n, window, ToWindow) + Total(c, votes, n, window, InsideWindow)
            + Total(c, votes, n, window, AfterWindow) + Total(c, votes, n, window, Dropped)
            == Weight(c, Shares(votes, n)) < LIMIT64
  {
    WeightMonotone(c, 0, Shares(votes, n));
    if n == 0 {
      assert Weight(c, 0) == 0;
    } else {
      hide Weight, PartOf;
      PartsAddUp(c, votes, n - 1, window);
      PartsOfVote(c, votes, n - 1, window);
    }
  }

  // ---------- the computation ----------

  /** Unsigned 64-bit arithmetic. */
  function Wrap(x: int): int {
    x % LIMIT64
  }

  lemma NoWrap(x: int)
    requires 0 <= x < LIMIT64
    ensures Wrap(x) == x
  {
  }

  class WeightHelper {
    const curve: Curve
    const window: nat
    var voteRshares: int
    var oldVoteWeight: int
    var totalVoteWeight: int
    var auctionWindowWeight: int
    var votesInAuctionWindowWeight: int

    constructor (curve: Curve, window: nat)
      ensures this.curve == curve && this.window == window
      ensures voteRshares == 0 && oldVoteWeight == 0 && Done([], 0)
    {
      this.curve, this.window := curve, window;
      voteRshares, oldVoteWeight, totalVoteWeight, auctionWindowWeight, votesInAuctionWindowWeight := 0, 0, 0, 0, 0;
      new;
      assert Weight(this.curve, 0) == 0;
    }

    /** The running totals stand for the first n votes. */
    ghost predicate Done(votes: seq<Vote>, n: nat)
      reads this
    {
      && n <= |votes| && WithinWindow(votes, window) && voteRshares == Shares(votes, n) < 0x8000_0000_0000_0000
      && oldVoteWeight == Weight(curve, voteRshares)
      && auctionWindowWeight == Total(curve, votes, n, window, ToWindow)
      && votesInAuctionWindowWeight == Total(curve, votes, n, window, InsideWindow)
      && totalVoteWeight == auctionWindowWeight + votesInAuctionWindowWeight
         + Total(curve, votes, n, window, AfterWindow)
    }

    /** calculate_bounded and calculate_square_root: the move of the curve, which is never down. */
    method CalculateCurve(ghost was: nat) returns (weight: int)
      requires 0 <= was <= voteRshares < LIMIT64 && oldVoteWeight == Weight(curve, was)
      modifies this`oldVoteWeight
      ensures oldVoteWeight == Weight(curve, voteRshares)
      ensures weight == Weight(curve, voteRshares) - Weight(curve, was)
    {
      WeightMonotone(curve, was, voteRshares);
      var newWeight := Weight(curve, voteRshares);
      NoWrap(newWeight - oldVoteWeight);
      weight := Wrap(newWeight - oldVoteWeight);
      oldVoteWeight := newWeight;
    }

    /** Leaves the discount of an early vote to the auction window. */
    method LeaveToWindow(weight: int, auctionTime: nat, changed: bool) returns (kept: int)
      requires 0 <= weight && auctionTime <= window
      requires 0 <= totalVoteWeight && totalVoteWeight + weight < LIMIT64
      requires 0 <= auctionWindowWeight <= totalVoteWeight && 0 <= votesInAuctionWindowWeight <= totalVoteWeight
      modifies this`totalVoteWeight, this`auctionWindowWeight, this`votesInAuctionWindowWeight
      ensures kept == Discounted(weight, auctionTime, window)
      ensures totalVoteWeight == old(totalVoteWeight) + weight - kept
      ensures auctionWindowWeight == old(auctionWindowWeight) + weight - kept
      ensures votesInAuctionWindowWeight
              == old(votesInAuctionWindowWeight) + if changed || auctionTime == window then 0 else kept
    {
      DiscountBounds(weight, auctionTime, window);
      kept := weight;
      if weight > 0 && auctionTime != window {
        kept := weight * auctionTime / window;
        assert kept == Discounted(weight, auctionTime, window);
        hide Discounted, Wrap;
        NoWrap(weight - kept);
        NoWrap(totalVoteWeight + (weight - kept));
        NoWrap(auctionWindowWeight + (weight - kept));
        NoWrap(votesInAuctionWindowWeight + kept);
        var auctionWeight := Wrap(weight - kept);
        totalVoteWeight := Wrap(totalVoteWeight + auctionWeight);
        auctionWindowWeight := Wrap(auctionWindowWeight + auctionWeight);
        if !changed {
          votesInAuctionWindowWeight := Wrap(votesInAuctionWindowWeight + kept);
        }
      }
    }

    /** calculate_weight on vote n; it throws only when the shares exceed 63 bits. */
    method CalculateWeight(ghost votes: seq<Vote>, ghost n: nat, vote: Vote) returns (ok: bool, weight: int)
      requires Done(votes, n) && n < |votes| && vote == votes[n]
      modifies this
      ensures ok == (Shares(votes, n + 1) < 0x8000_0000_0000_0000)
      ensures ok ==> Done(votes, n + 1) && weight == VoteWeight(curve, votes, n, window)
    {
      hide Weight, Total, Shares, PartOf, Wrap, Kept, Raw, VoteWeight, Changed, Discounted;
      SharesNext(votes, n);
      if vote.origRshares <= 0 {
        UncountedVote(curve, votes, n, window);
        return true, 0;
      }
      if voteRshares + vote.origRshares >= 0x8000_0000_0000_0000 {
        return false, 0;
      }
      VoteAdds(curve, votes, n, window);
      voteRshares := voteRshares + vote.origRshares;
      weight := CalculateCurve(Shares(votes, n));
      var changed := Changed(vote);
      weight := LeaveToWindow(weight, vote.auctionTime, changed);
      if changed {
        return true, 0;
      }
      NoWrap(totalVoteWeight + weight);
      totalVoteWeight := Wrap(totalVoteWeight + weight);
      return true, weight;
    }
  }

  lemma SharesNext(votes: seq<Vote>, n: nat)
    requires n < |votes|
    ensures Shares(votes, n + 1) == Shares(votes, n) + Max(votes[n].origRshares, 0)
  {
  }

  lemma UncountedVote(c: Curve, votes: seq<Vote>, n: nat, window: nat)
    requires n < |votes| && WithinWindow(votes, window) && votes[n].origRshares <= 0
    ensures Shares(votes, n + 1) == Shares(votes, n) && VoteWeight(c, votes, n, window) == 0
    ensures forall p :: Total(c, votes, n + 1, window, p) == Total(c, votes, n, window, p)
  {
    assert Shares(votes, n + 1) == Shares(votes, n);
    assert Raw(c, votes, n) == 0;
    DiscountBounds(0, votes[n].auctionTime, window);
    assert Kept(c, votes, n, window) == 0;
    hide Kept, Raw;
    assert forall p :: PartOf(c, votes, n, window, p) == 0;
  }

  /** What the totals gain from a vote, by case. */
  lemma VoteAdds(c: Curve, votes: seq<Vote>, n: nat, window: nat)
    requires n < |votes| && WithinWindow(votes, window) && Shares(votes, n + 1) < LIMIT64
    ensures Shares(votes, n + 1) == Shares(votes, n) + Max(votes[n].origRshares, 0)
    ensures var raw, kept := Weight(c, Shares(votes, n + 1)) - Weight(c, Shares(votes, n)), Kept(c, votes, n, window);
            && kept == Discounted(raw, votes[n].auctionTime, window) && 0 <= kept <= raw
            && Total(c, votes, n + 1, window, ToWindow) == Total(c, votes, n, window, ToWindow) + raw - kept
            && Total(c, votes, n + 1, window, InsideWindow)
               == Total(c, votes, n, window, InsideWindow)
                  + (if Changed(votes[n]) || votes[n].auctionTime == window then 0 else kept)
            && Total(c, votes, n + 1, window, AfterWindow)
               == Total(c, votes, n, window, AfterWindow)
                  + (if Changed(votes[n]) || votes[n].auctionTime != window then 0 else kept)
            && VoteWeight(c, votes, n, window) == if Changed(votes[n]) then 0 else kept
    ensures 0 <= Total(c, votes, n, window, ToWindow) && 0 <= Total(c, votes, n, window, InsideWindow)
    ensures 0 <= Total(c, votes, n, window, AfterWindow)
    ensures Total(c, votes, n, window, ToWindow) + Total(c, votes, n, window, InsideWindow)
            + Total(c, votes, n, window, AfterWindow)
              + Weight(c, Shares(votes, n + 1)) - Weight(c, Shares(votes, n)) < LIMIT64
  {
    PartsOfVote(c, votes, n, window);
    PartsAddUp(c, votes, n, window);
    PartsAddUp(c, votes, n + 1, window);
    hide Weight, Discounted;
  }

  // ---------- the list of votes to pay ----------

  datatype VoteInfo = VoteInfo(vote: Vote, weight: int)

  datatype CurationInfo = CurationInfo(
    voteList: seq<VoteInfo>, totalVoteWeight: int, auctionWindowWeight: int,
    votesInAuctionWindowWeight: int, votesAfterAuctionWindowWeight: int)

  /** The heavier vote first, and of equal votes the one with the lower voter. */
  predicate Before(a: VoteInfo, b: VoteInfo) {
    a.weight > b.weight || (a.weight == b.weight && a.vote.voter < b.vote.voter)
  }

  predicate InOrder(list: seq<VoteInfo>) {
    forall i, j :: 0 <= i < j < |list| ==> !Before(list[j], list[i])
  }

  function Inserted(list: seq<VoteInfo>, e: VoteInfo): seq<VoteInfo> {
    if list == [] then [e]
    else if Before(e, list[0]) then [e] + list
    else [list[0]] + Inserted(list[1..], e)
  }

  function SortedList(s: seq<VoteInfo>): seq<VoteInfo> {
    if s == [] then [] else Inserted(SortedList(s[..|s| - 1]), s[|s| - 1])
  }

  /** The weights of a list of votes, of all of them or only of those at full auction time. */
  function WeightOf(list: seq<VoteInfo>, window: nat, onlyFull: bool): int {
    if list == [] then 0
    else Counted(list[0], window, onlyFull) + WeightOf(list[1..], window, onlyFull)
  }

  function Counted(e: VoteInfo, window: nat, onlyFull: bool): int {
    if onlyFull && e.vote.auctionTime != window then 0 else e.weight
  }

  lemma {:induction false} WeightOfAppend(list: seq<VoteInfo>, e: VoteInfo, window: nat, onlyFull: bool)
    ensures WeightOf(list + [e], window, onlyFull) == WeightOf(list, window, onlyFull) + Counted(e, window, onlyFull)
  {
    if list == [] {
      assert [e][1..] == [];
      assert list + [e] == [e];
    } else {
      assert (list + [e])[1..] == list[1..] + [e];
      WeightOfAppend(list[1..], e, window, onlyFull);
    }
  }

  lemma {:induction false} InsertedFacts(list: seq<VoteInfo>, e: VoteInfo)
    requires InOrder(list)
    ensures InOrder(Inserted(list, e)) && multiset(Inserted(list, e)) == multiset(list) + multiset{e}
  {
    if list != [] {
      if Before(e, list[0]) {
        InsertedInFront(list, e);
      } else {
        InsertedFacts(list[1..], e);
        assert list == [list[0]] + list[1..];
        InsertedBehind(list, e, Inserted(list[1..], e));
      }
    }
  }

  lemma InsertedBehind(list: seq<VoteInfo>, e: VoteInfo, rest: seq<VoteInfo>)
    requires list != [] && InOrder(list) && !Before(e, list[0])
    requires InOrder(rest) && multiset(rest) == multiset(list[1..]) + multiset{e}
    ensures InOrder([list[0]] + rest)
  {
    forall k | 0 <= k < |rest|
      ensures !Before(rest[k], list[0])
    {
      assert rest[k] in multiset(rest);
      assert rest[k] in multiset(list[1..]) + multiset{e};
    }
    hide Before;
  }

  lemma {:induction false} InsertedWeight(list: seq<VoteInfo>, e: VoteInfo, window: nat, full: bool)
    ensures WeightOf(Inserted(list, e), window, full) == WeightOf(list, window, full) + Counted(e, window, full)
  {
    if list == [] {
      assert [e][1..] == [];
    } else if Before(e, list[0]) {
      assert ([e] + list)[1..] == list;
    } else {
      var rest := Inserted(list[1..], e);
      InsertedWeight(list[1..], e, window, full);
      assert ([list[0]] + rest)[1..] == rest;
    }
  }

  lemma InsertedInFront(list: seq<VoteInfo>, e: VoteInfo)
    requires list != [] && InOrder(list) && Before(e, list[0])
    ensures InOrder([e] + list)
  {
    var r := [e] + list;
    forall j | 0 < j < |r|
      ensures !Before(r[j], e)
    {
      if j > 1 {
        assert !Before(list[j - 1], list[0]);
      }
    }
  }

  /** Sorting loses no vote and changes no sum. */
  lemma {:induction false} SortedListFacts(s: seq<VoteInfo>, window: nat)
    ensures InOrder(SortedList(s)) && multiset(SortedList(s)) == multiset(s)
    ensures forall full :: WeightOf(SortedList(s), window, full) == WeightOf(s, window, full)
  {
    if s != [] {
      var t, e := s[..|s| - 1], s[|s| - 1];
      assert s == t + [e];
      SortedListFacts(t, window);
      InsertedFacts(SortedList(t), e);
      forall full
        ensures WeightOf(SortedList(s), window, full) == WeightOf(s, window, full)
      {
        InsertedWeight(SortedList(t), e, window, full);
        WeightOfAppend(t, e, window, full);
      }
    }
  }

  /** The votes with some weight, or all of them. */
  function Entries(c: Curve, votes: seq<Vote>, n: nat, window: nat, fullList: bool): seq<VoteInfo>
    requires n <= |votes| && WithinWindow(votes, window)
  {
    if n == 0 then []
    else
      var weight := VoteWeight(c, votes, n - 1, window);
      Entries(c, votes, n - 1, window, fullList)
      + if weight > 0 || fullList then [VoteInfo(votes[n - 1], weight)] else []
  }

  /** The list's weights are the weights inside and after the window; at full auction time, exactly those after it. */
  lemma NoWeight(window: nat)
    ensures WeightOf([], window, false) == 0 && WeightOf([], window, true) == 0
  {
  }

  lemma {:induction false} EntriesWeight(c: Curve, votes: seq<Vote>, n: nat, window: nat, fullList: bool)
    requires n <= |votes| && WithinWindow(votes, window) && Shares(votes, n) < LIMIT64
    ensures var list := Entries(c, votes, n, window, fullList);
            && WeightOf(list, window, false) == Total(c, votes, n, window, InsideWindow)
               + Total(c, votes, n, window, AfterWindow)
            && WeightOf(list, window, true) == Total(c, votes, n, window, AfterWindow)
    ensures forall e :: e in Entries(c, votes, n, window, fullList) ==> 0 <= e.weight && e.vote.auctionTime <= window
  {
    hide Weight, Kept, Raw, WeightOf;
    if n == 0 {
      NoWeight(window);
    } else {
      EntriesWeight(c, votes, n - 1, window, fullList);
      PartsOfVote(c, votes, n - 1, window);
      var weight := VoteWeight(c, votes, n - 1, window);
      var e := VoteInfo(votes[n - 1], weight);
      WeightOfAppend(Entries(c, votes, n - 1, window, fullList), e, window, false);
      WeightOfAppend(Entries(c, votes, n - 1, window, fullList), e, window, true);
      assert Entries(c, votes, n - 1, window, fullList) + [] == Entries(c, votes, n - 1, window, fullList);
    }
  }

  /** What the payout needs of the list: ordered, and its weights are what is left of the total after the window's. */
  ghost predicate InfoFor(info: CurationInfo, window: nat) {
    && InOrder(info.voteList)
    && (forall e :: e in info.voteList ==> 0 <= e.weight && e.vote.auctionTime <= window)
    && 0 <= info.auctionWindowWeight && 0 <= info.votesInAuctionWindowWeight && 0 <= info.votesAfterAuctionWindowWeight
    && info.totalVoteWeight < LIMIT64
    && WeightOf(info.voteList, window, true) == info.votesAfterAuctionWindowWeight
    && WeightOf(info.voteList, window, false) == info.votesInAuctionWindowWeight + info.votesAfterAuctionWindowWeight
    && info.totalVoteWeight == info.auctionWindowWeight + info.votesInAuctionWindowWeight
       + info.votesAfterAuctionWindowWeight
  }

  /** The curation information of a comment; votes are in the order they were cast. */
  method CommentCurationInfo(votes: seq<Vote>, curve: Curve, window: nat, paidOut: bool, fullList: bool)
    returns (ok: bool, info: CurationInfo)
    requires WithinWindow(votes, window)
    ensures ok == ((paidOut && !fullList) || Shares(votes, |votes|) < 0x8000_0000_0000_0000)
    ensures ok ==> InfoFor(info, window)
    ensures ok && paidOut && !fullList ==> info == CurationInfo([], 0, 0, 0, 0)
    ensures ok && (fullList || !paidOut) ==>
              && info.voteList == SortedList(Entries(curve, votes, |votes|, window, fullList))
              && multiset(info.voteList) == multiset(Entries(curve, votes, |votes|, window, fullList))
              && info.totalVoteWeight
                 == info.auctionWindowWeight + info.votesInAuctionWindowWeight + info.votesAfterAuctionWindowWeight
              && info.auctionWindowWeight == Total(curve, votes, |votes|, window, ToWindow)
              && info.votesInAuctionWindowWeight == Total(curve, votes, |votes|, window, InsideWindow)
              && info.votesAfterAuctionWindowWeight == Total(curve, votes, |votes|, window, AfterWindow)
              && info.totalVoteWeight <= Weight(curve, Shares(votes, |votes|))
  {
    if paidOut && !fullList {
      return true, CurationInfo([], 0, 0, 0, 0);
    }
    var helper := new WeightHelper(curve, window);
    hide Weight, Total, Shares, VoteWeight, Entries, InfoFor, WithinWindow;
    var list;
    ok, list := WeighAll(helper, votes, fullList);
    if !ok {
      return false, CurationInfo([], 0, 0, 0, 0);
    }
    var total, auction, inside := helper.totalVoteWeight, helper.auctionWindowWeight, helper.votesInAuctionWindowWeight;
    PartsAddUp(curve, votes, |votes|, window);
    var after := Wrap(total - inside - auction);
    NoWrap(total - inside - auction);
    info := CurationInfo(SortedList(list), total, auction, inside, after);
    InfoFacts(curve, votes, window, fullList, info);
  }

  /** The loop over the votes. */
  method WeighAll(helper: WeightHelper, votes: seq<Vote>, fullList: bool) returns (ok: bool, list: seq<VoteInfo>)
    requires helper.Done([], 0) && WithinWindow(votes, helper.window)
    modifies helper
    ensures ok == (Shares(votes, |votes|) < 0x8000_0000_0000_0000)
    ensures ok ==> helper.Done(votes, |votes|) && list == Entries(helper.curve, votes, |votes|, helper.window, fullList)
  {
    DoneForAny(helper, votes);
    list := [];
    hide Weight, Total, VoteWeight, WithinWindow, Shares;
    for n := 0 to |votes|
      invariant helper.Done(votes, n) && WithinWindow(votes, helper.window)
      invariant list == Entries(helper.curve, votes, n, helper.window, fullList)
    {
      var weight;
      ok, weight := helper.CalculateWeight(votes, n, votes[n]);
      if !ok {
        SharesMonotone(votes, n + 1, |votes|);
        return;
      }
      if weight > 0 || fullList {
        list := list + [VoteInfo(votes[n], weight)];
      }
    }
    ok := true;
  }

  lemma InfoFacts(c: Curve, votes: seq<Vote>, window: nat, fullList: bool, info: CurationInfo)
    requires WithinWindow(votes, window) && Shares(votes, |votes|) < LIMIT64
    requires info.voteList == SortedList(Entries(c, votes, |votes|, window, fullList))
    requires info.auctionWindowWeight == Total(c, votes, |votes|, window, ToWindow)
    requires info.votesInAuctionWindowWeight == Total(c, votes, |votes|, window, InsideWindow)
    requires info.votesAfterAuctionWindowWeight == Total(c, votes, |votes|, window, AfterWindow)
    requires info.totalVoteWeight
             == info.auctionWindowWeight + info.votesInAuctionWindowWeight + info.votesAfterAuctionWindowWeight
    ensures InfoFor(info, window) && multiset(info.voteList) == multiset(Entries(c, votes, |votes|, window, fullList))
    ensures info.totalVoteWeight <= Weight(c, Shares(votes, |votes|))
  {
    hide Weight, Total, Shares, Entries, InOrder, WeightOf, SortedList, WithinWindow;
    var list := Entries(c, votes, |votes|, window, fullList);
    PartsAddUp(c, votes, |votes|, window);
    EntriesWeight(c, votes, |votes|, window, fullList);
    SortedListFacts(list, window);
    SameMembers(info.voteList, list);
  }

  /** Every entry is about one of the votes. */
  lemma {:induction false} EntriesAreVotes(c: Curve, votes: seq<Vote>, n: nat, window: nat, fullList: bool)
    requires n <= |votes| && WithinWindow(votes, window)
    ensures forall e :: e in Entries(c, votes, n, window, fullList) ==> e.vote in votes
  {
    if n > 0 {
      EntriesAreVotes(c, votes, n - 1, window, fullList);
      hide VoteWeight;
    }
  }

  lemma SameMembers<T>(a: seq<T>, b: seq<T>)
    requires multiset(a) == multiset(b)
    ensures forall e :: e in a ==> e in b
  {
    forall e | e in a
      ensures e in b
    {
      assert e in multiset(a);
    }
  }

  lemma DoneForAny(helper: WeightHelper, votes: seq<Vote>)
    requires helper.Done([], 0) && WithinWindow(votes, helper.window)
    ensures helper.Done(votes, 0)
  {
  }
}

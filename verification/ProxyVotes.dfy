/**
 Witness-vote proxying: every account either votes itself or names a proxy, and every account
 keeps, for each of the MAX_PROXY_RECURSION_DEPTH distances below it, the total stake proxied to
 it from exactly that far. The counters are maintained by walking proxy chains; this module states
 what they must equal, independently of any walk, and proves that every operation keeps it so.
 */
module ProxyVotes {
  import opened Sums

  const MAX_PROXY_RECURSION_DEPTH: nat := 4

  type Name = string

  /** The empty proxy name: the account votes itself. */
  const PROXY_TO_SELF: Name := ""

  datatype Account = Account(vestingShares: int, proxy: Name, proxiedVotes: seq<int>, canVote: bool)

  type Ledger = map<Name, Account>

  // ---------- the proxy graph ----------

  predicate WellFormed(s: Ledger) {
    && PROXY_TO_SELF !in s
    && forall a :: a in s ==>
         && |s[a].proxiedVotes| == MAX_PROXY_RECURSION_DEPTH
         && (s[a].proxy == PROXY_TO_SELF || s[a].proxy in s)
  }

  /** The account k proxy links above a, or PROXY_TO_SELF when the chain is shorter than that. */
  function Hop(s: Ledger, a: Name, k: nat): Name
    decreases k
  {
    if k == 0 then a
    else if a !in s then PROXY_TO_SELF
    else Hop(s, s[a].proxy, k - 1)
  }

  ghost predicate Acyclic(s: Ledger) {
    forall a, k: nat :: a in s && 0 < k ==> Hop(s, a, k) != a
  }

  lemma {:induction false} HopCompose(s: Ledger, a: Name, i: nat, j: nat)
    requires PROXY_TO_SELF !in s
    ensures Hop(s, a, i + j) == Hop(s, Hop(s, a, i), j)
    decreases i
  {
    if i > 0 {
      if a in s {
        HopCompose(s, s[a].proxy, i - 1, j);
      }
    }
  }

  lemma NextHop(s: Ledger, a: Name, k: nat)
    requires PROXY_TO_SELF !in s
    ensures Hop(s, a, k + 1) == if Hop(s, a, k) in s then s[Hop(s, a, k)].proxy else PROXY_TO_SELF
  {
    HopCompose(s, a, k, 1);
    assert Hop(s, a, k) in s ==> Hop(s, Hop(s, a, k), 1) == Hop(s, s[Hop(s, a, k)].proxy, 0);
  }

  // ---------- what the counters must equal ----------

  /** b's stake if x is exactly k links above b, and nothing otherwise. */
  ghost function Contribution(s: Ledger, x: Name, k: nat): Name -> int {
    (b: Name) => if b in s && Hop(s, b, k) == x then s[b].vestingShares else 0
  }

  /** The stake of all accounts whose k-th proxy is x. */
  ghost function Weight(s: Ledger, x: Name, k: nat): int {
    Sum(s.Keys, Contribution(s, x, k))
  }

  ghost predicate SlotsExact(s: Ledger)
    requires WellFormed(s)
  {
    forall x, d :: x in s && 0 <= d < MAX_PROXY_RECURSION_DEPTH ==> s[x].proxiedVotes[d] == Weight(s, x, d + 1)
  }

  /** The state invariant: a forest of proxies whose counters are all exact. */
  ghost predicate Inv(s: Ledger) {
    WellFormed(s) && Acyclic(s) && SlotsExact(s)
  }

  // ---------- what a walk up a proxy chain adds up to ----------

  /** What travels with a: its own stake, then the stake proxied to it from 1, 2, ... links below. */
  function Carried(s: Ledger, a: Name): (r: seq<int>)
    requires WellFormed(s) && a in s
    ensures |r| == MAX_PROXY_RECURSION_DEPTH + 1
  {
    [s[a].vestingShares] + s[a].proxiedVotes
  }

  function Negated(delta: seq<int>): (r: seq<int>)
    ensures |r| == |delta|
    ensures forall i :: 0 <= i < |delta| ==> r[i] == -delta[i]
  {
    seq(|delta|, i requires 0 <= i < |delta| => -delta[i])
  }

  /** The sum of delta[d + 1 - j] over those of the first n links j at which x stands above a. */
  function Along(s: Ledger, a: Name, delta: seq<int>, x: Name, d: nat, n: nat): int
    requires n <= d + 1 <= |delta|
  {
    if n == 0 then 0
    else Along(s, a, delta, x, d, n - 1) + (if Hop(s, a, n) == x then delta[d + 1 - n] else 0)
  }

  /** The ledger after pushing delta up a's chain, when a itself is already t links from where delta started. */
  function Shifted(s: Ledger, a: Name, delta: seq<int>, t: nat): (r: Ledger)
    requires WellFormed(s) && |delta| == MAX_PROXY_RECURSION_DEPTH + 1
  {
    map x | x in s :: s[x].(proxiedVotes := seq(MAX_PROXY_RECURSION_DEPTH,
      d requires 0 <= d < MAX_PROXY_RECURSION_DEPTH && x in s =>
        s[x].proxiedVotes[d] + (if d < t then 0 else Along(s, a, delta, x, d - t, d - t + 1))))
  }

  /** The stake walk: only a's own stake moves, by delta. */
  function StakeShifted(s: Ledger, a: Name, delta: int, t: nat): (r: Ledger)
    requires WellFormed(s)
  {
    map x | x in s :: s[x].(proxiedVotes := seq(MAX_PROXY_RECURSION_DEPTH,
      d requires 0 <= d < MAX_PROXY_RECURSION_DEPTH && x in s =>
        s[x].proxiedVotes[d] + (if t <= d && Hop(s, a, d - t + 1) == x then delta else 0)))
  }

  function WithProxy(s: Ledger, a: Name, p: Name): Ledger
    requires a in s
  {
    s[a := s[a].(proxy := p)]
  }

  // ---------- the operations, in closed form ----------

  function Detached(s: Ledger, a: Name): Ledger
    requires WellFormed(s) && a in s
  {
    WithProxy(Shifted(s, a, Negated(Carried(s, a)), 0), a, PROXY_TO_SELF)
  }

  function Attached(s: Ledger, a: Name, p: Name): Ledger
    requires WellFormed(s) && a in s && p in s
  {
    Shifted(WithProxy(s, a, p), a, Carried(s, a), 0)
  }

  function StakeAdjusted(s: Ledger, a: Name, delta: int): Ledger
    requires WellFormed(s) && a in s
  {
    StakeShifted(s[a := s[a].(vestingShares := s[a].vestingShares + delta)], a, delta, 0)
  }

  function Created(s: Ledger, a: Name): Ledger {
    s[a := Account(0, PROXY_TO_SELF, seq(MAX_PROXY_RECURSION_DEPTH, _ => 0), true)]
  }

  /** When the evaluator accepts p as a's proxy: it walks p's own chain, which may hold at most two more accounts. */
  predicate ProxyAllowed(s: Ledger, a: Name, p: Name) {
    p in s && p != a && Hop(s, p, 3) == PROXY_TO_SELF && Hop(s, p, 1) != a && Hop(s, p, 2) != a
  }

  datatype Operation =
    | CreateAccount(account: Name)
    | AdjustStake(account: Name, delta: int)
    | SetProxy(account: Name, proxy: Name)
    | DeclineVotingRights(account: Name)

  /** Whether an operation is accepted. */
  predicate Accepted(s: Ledger, op: Operation) {
    match op
    case CreateAccount(a) => a != PROXY_TO_SELF && a !in s
    case AdjustStake(a, _) => a in s
    case SetProxy(a, p) => a in s && s[a].proxy != p && s[a].canVote && (p == PROXY_TO_SELF || ProxyAllowed(s, a, p))
    case DeclineVotingRights(a) => a in s
  }

  /** An operation's effect; one that is not accepted throws and leaves the ledger as it was. */
  function Step(s: Ledger, op: Operation): Ledger
    requires WellFormed(s)
  {
    if !Accepted(s, op) then s
    else match op
      case CreateAccount(a) => Created(s, a)
      case AdjustStake(a, delta) => StakeAdjusted(s, a, delta)
      case SetProxy(a, p) =>
        if p == PROXY_TO_SELF then Detached(s, a) else Attached(Detached(s, a), a, p)
      case DeclineVotingRights(a) =>
        var r := Detached(s, a);
        r[a := r[a].(canVote := false)]
  }

  // ---------- what an operation does besides the counters ----------

  /** Nobody but a is touched, and no account comes or goes; the counters are left aside. */
  predicate OnlyAt(s: Ledger, r: Ledger, a: Name) {
    && a in s && r.Keys == s.Keys
    && forall x :: x in s && x != a ==>
         r[x].proxy == s[x].proxy && r[x].vestingShares == s[x].vestingShares && r[x].canVote == s[x].canVote
  }

  /** Who stakes how much, who votes through whom and who may vote, after an accepted operation. */
  predicate Effect(s: Ledger, op: Operation, r: Ledger) {
    match op
    case CreateAccount(a) =>
      a in r && r - {a} == s && r[a] == Account(0, PROXY_TO_SELF, [0, 0, 0, 0], true)
    case AdjustStake(a, delta) =>
      && OnlyAt(s, r, a) && r[a].vestingShares == s[a].vestingShares + delta
      && r[a].proxy == s[a].proxy && r[a].canVote == s[a].canVote
    case SetProxy(a, p) =>
      && OnlyAt(s, r, a) && r[a].proxy == p
      && r[a].vestingShares == s[a].vestingShares && r[a].canVote == s[a].canVote
    case DeclineVotingRights(a) =>
      && OnlyAt(s, r, a) && r[a].proxy == PROXY_TO_SELF && !r[a].canVote
      && r[a].vestingShares == s[a].vestingShares
  }

  lemma StepHasEffect(s: Ledger, op: Operation)
    requires WellFormed(s) && Accepted(s, op)
    ensures Effect(s, op, Step(s, op))
  {
  }

  lemma EffectIfAccepted(s: Ledger, op: Operation)
    requires WellFormed(s)
    ensures if Accepted(s, op) then Effect(s, op, Step(s, op)) else Step(s, op) == s
  {
    hide Effect;
    if Accepted(s, op) {
      StepHasEffect(s, op);
    }
  }

  // ---------- cutting one link ----------

  /** c is s with a's proxy cleared; counters and voting rights may differ. */
  ghost predicate IsCut(s: Ledger, c: Ledger, a: Name) {
    && a in s && c.Keys == s.Keys && c[a].proxy == PROXY_TO_SELF
    && (forall b :: b in s ==> c[b].vestingShares == s[b].vestingShares)
    && (forall b :: b in s && b != a ==> c[b].proxy == s[b].proxy)
  }

  /** A chain of the cut graph is the chain of the whole graph up to the first visit of a. */
  lemma {:induction false} HopCut(s: Ledger, c: Ledger, a: Name, b: Name, k: nat)
    requires WellFormed(s) && IsCut(s, c, a)
    ensures (forall i :: 0 <= i < k ==> Hop(s, b, i) != a) ==> Hop(c, b, k) == Hop(s, b, k)
    ensures (exists i :: 0 <= i < k && Hop(s, b, i) == a) ==> Hop(c, b, k) == PROXY_TO_SELF
    decreases k
  {
    if k > 0 && b in s {
      var p := s[b].proxy;
      HopCut(s, c, a, p, k - 1);
      if b == a {
        assert Hop(s, b, 0) == a;
        HopFromSelf(c, k - 1);
      } else {
        forall i: nat | 0 < i < k
          ensures Hop(s, b, i) == Hop(s, p, i - 1)
        {
        }
        if i :| 0 <= i < k && Hop(s, b, i) == a {
          assert Hop(s, p, i - 1) == a;
        } else {
          forall i | 0 <= i < k - 1
            ensures Hop(s, p, i) != a
          {
            assert Hop(s, b, i + 1) == Hop(s, p, i);
          }
        }
      }
    } else if k > 0 {
      assert forall i: nat :: 0 < i < k ==> Hop(s, b, i) == PROXY_TO_SELF;
      assert Hop(s, b, 0) == b;
    }
  }

  lemma HopFromSelf(s: Ledger, k: nat)
    requires PROXY_TO_SELF !in s
    ensures Hop(s, PROXY_TO_SELF, k) == PROXY_TO_SELF
  {
  }

  lemma CutAcyclic(s: Ledger, c: Ledger, a: Name)
    requires WellFormed(s) && Acyclic(s) && IsCut(s, c, a)
    ensures Acyclic(c)
  {
    forall b, k: nat | b in c && 0 < k
      ensures Hop(c, b, k) != b
    {
      HopCut(s, c, a, b, k);
    }
  }

  /** No account is met twice on a chain of an acyclic graph. */
  lemma MetOnce(s: Ledger, a: Name, b: Name, i: nat, j: nat)
    requires WellFormed(s) && Acyclic(s) && a in s && i < j && Hop(s, b, i) == a
    ensures Hop(s, b, j) != a
  {
    HopCompose(s, b, i, j - i);
  }

  /** Stake k links below x whose chain avoids a from link m on. */
  ghost function Avoiding(s: Ledger, a: Name, x: Name, k: nat, m: nat): Name -> int {
    (b: Name) =>
      if b in s && Hop(s, b, k) == x && (forall i :: m <= i < k ==> Hop(s, b, i) != a) then s[b].vestingShares else 0
  }

  lemma AvoidingAt(s: Ledger, a: Name, x: Name, k: nat, m: nat, b: Name)
    requires WellFormed(s) && Acyclic(s) && a in s && m < k && b in s
    ensures Avoiding(s, a, x, k, m)(b) == Avoiding(s, a, x, k, m + 1)(b)
            - (if Hop(s, a, k - m) == x then Contribution(s, a, m)(b) else 0)
  {
    if Hop(s, b, m) == a {
      HopCompose(s, b, m, k - m);
      forall i | m + 1 <= i < k
        ensures Hop(s, b, i) != a
      {
        MetOnce(s, a, b, m, i);
      }
      assert Avoiding(s, a, x, k, m)(b) == 0;
    } else {
      assert Contribution(s, a, m)(b) == 0;
      if Hop(s, b, k) == x && forall i :: m + 1 <= i < k ==> Hop(s, b, i) != a {
        assert forall i :: m <= i < k ==> Hop(s, b, i) != a;
      }
    }
  }

  /** Going one link further down removes exactly a's own weight at that distance. */
  lemma AvoidingStep(s: Ledger, a: Name, x: Name, k: nat, m: nat)
    requires WellFormed(s) && Acyclic(s) && a in s && m < k
    ensures Sum(s.Keys, Avoiding(s, a, x, k, m)) ==
            Sum(s.Keys, Avoiding(s, a, x, k, m + 1)) - (if Hop(s, a, k - m) == x then Weight(s, a, m) else 0)
  {
    var f, g, h := Avoiding(s, a, x, k, m), Avoiding(s, a, x, k, m + 1), Contribution(s, a, m);
    var on := if Hop(s, a, k - m) == x then -1 else 0;
    forall b | b in s.Keys
      ensures f(b) == g(b) + on * h(b)
    {
      AvoidingAt(s, a, x, k, m, b);
    }
    SumLinear(s.Keys, f, g, on, h);
  }

  lemma AvoidingNothing(s: Ledger, a: Name, x: Name, k: nat)
    ensures Sum(s.Keys, Avoiding(s, a, x, k, k)) == Weight(s, x, k)
  {
    SumCongruence(s.Keys, Avoiding(s, a, x, k, k), Contribution(s, x, k));
  }

  lemma {:induction false} AvoidingAlong(s: Ledger, a: Name, x: Name, d: nat, w: seq<int>, n: nat)
    requires WellFormed(s) && Acyclic(s) && a in s && n <= d + 1 <= |w|
    requires forall i :: 0 <= i <= d ==> w[i] == Weight(s, a, i)
    ensures Sum(s.Keys, Avoiding(s, a, x, d + 1, d + 1 - n)) == Weight(s, x, d + 1) - Along(s, a, w, x, d, n)
  {
    hide Avoiding, Sum, Weight, Hop, Acyclic, WellFormed;
    if n == 0 {
      AvoidingNothing(s, a, x, d + 1);
    } else {
      AvoidingAlong(s, a, x, d, w, n - 1);
      AvoidingStep(s, a, x, d + 1, d + 1 - n);
    }
  }

  /** Cutting a's link takes away from x exactly what a carries, shifted by the distance from a to x. */
  lemma CutWeight(s: Ledger, c: Ledger, a: Name, x: Name, d: nat, w: seq<int>)
    requires WellFormed(s) && Acyclic(s) && IsCut(s, c, a) && x in s && d < |w|
    requires forall i :: 0 <= i <= d ==> w[i] == Weight(s, a, i)
    ensures Weight(c, x, d + 1) == Weight(s, x, d + 1) - Along(s, a, w, x, d, d + 1)
  {
    AvoidingAlong(s, a, x, d, w, d + 1);
    var f, g := Contribution(c, x, d + 1), Avoiding(s, a, x, d + 1, 0);
    forall b | b in s.Keys
      ensures f(b) == g(b)
    {
      HopCut(s, c, a, b, d + 1);
    }
    SumCongruence(s.Keys, f, g);
  }

  /** Nothing above a ever counts toward a itself. */
  lemma {:induction false} AlongSelf(s: Ledger, a: Name, delta: seq<int>, d: nat, n: nat)
    requires WellFormed(s) && Acyclic(s) && a in s && n <= d + 1 <= |delta|
    ensures Along(s, a, delta, a, d, n) == 0
  {
    if n > 0 {
      AlongSelf(s, a, delta, d, n - 1);
    }
  }

  /** a's own counters do not see the link above a. */
  lemma CutWeightSelf(s: Ledger, c: Ledger, a: Name, k: nat)
    requires WellFormed(s) && Acyclic(s) && IsCut(s, c, a)
    ensures Weight(c, a, k) == Weight(s, a, k)
  {
    if k == 0 {
      SumCongruence(s.Keys, Contribution(c, a, 0), Contribution(s, a, 0));
    } else {
      var w := seq(k, (i: int) requires 0 <= i => Weight(s, a, i));
      CutWeight(s, c, a, a, k - 1, w);
      AlongSelf(s, a, w, k - 1, k);
    }
  }

  /** With exact counters, what a carries is the stake found at each distance below a. */
  lemma CarriedIsWeight(s: Ledger, a: Name)
    requires Inv(s) && a in s
    ensures forall i :: 0 <= i <= MAX_PROXY_RECURSION_DEPTH ==> Carried(s, a)[i] == Weight(s, a, i)
  {
    var f := (b: Name) => 0;
    SumPoint(s.Keys, f, Contribution(s, a, 0), a);
    SumZero(s.Keys, f);
  }

  /** Only proxies and stakes matter to chains and weights. */
  lemma {:induction false} SameGraphHop(s: Ledger, r: Ledger, b: Name, k: nat)
    requires r.Keys == s.Keys && forall x :: x in s ==> r[x].proxy == s[x].proxy
    ensures Hop(r, b, k) == Hop(s, b, k)
    decreases k
  {
    if k > 0 && b in s {
      SameGraphHop(s, r, s[b].proxy, k - 1);
    }
  }

  lemma SameGraphWeight(s: Ledger, r: Ledger, x: Name, k: nat)
    requires r.Keys == s.Keys
    requires forall b :: b in s ==> r[b].proxy == s[b].proxy && r[b].vestingShares == s[b].vestingShares
    ensures Weight(r, x, k) == Weight(s, x, k)
  {
    forall b | b in s.Keys
      ensures Contribution(r, x, k)(b) == Contribution(s, x, k)(b)
    {
      SameGraphHop(s, r, b, k);
    }
    SumCongruence(s.Keys, Contribution(r, x, k), Contribution(s, x, k));
  }

  lemma {:induction false} NegatedAlong(s: Ledger, a: Name, delta: seq<int>, x: Name, d: nat, n: nat)
    requires n <= d + 1 <= |delta|
    ensures Along(s, a, Negated(delta), x, d, n) == -Along(s, a, delta, x, d, n)
  {
    if n > 0 {
      NegatedAlong(s, a, delta, x, d, n - 1);
    }
  }

  // ---------- every operation keeps the invariant ----------

  lemma DetachWeight(s: Ledger, a: Name, x: Name, d: nat)
    requires Inv(s) && a in s && x in s && d < MAX_PROXY_RECURSION_DEPTH
    ensures Detached(s, a)[x].proxiedVotes[d] == Weight(Detached(s, a), x, d + 1)
  {
    var w := Carried(s, a);
    CarriedIsWeight(s, a);
    CutWeight(s, Detached(s, a), a, x, d, w);
    NegatedAlong(s, a, w, x, d, d + 1);
  }

  lemma DetachKeepsCarried(s: Ledger, a: Name)
    requires Inv(s) && a in s
    ensures Carried(Detached(s, a), a) == Carried(s, a)
  {
    var c := Detached(s, a);
    forall d | 0 <= d < MAX_PROXY_RECURSION_DEPTH
      ensures c[a].proxiedVotes[d] == s[a].proxiedVotes[d]
    {
      DetachWeight(s, a, a, d);
      CutWeightSelf(s, c, a, d + 1);
    }
    assert c[a].proxiedVotes == s[a].proxiedVotes;
  }

  lemma DetachKeepsInv(s: Ledger, a: Name)
    requires Inv(s) && a in s
    ensures Inv(Detached(s, a))
    ensures Carried(Detached(s, a), a) == Carried(s, a)
  {
    var c := Detached(s, a);
    CutAcyclic(s, c, a);
    DetachKeepsCarried(s, a);
    forall x, d | x in c && 0 <= d < MAX_PROXY_RECURSION_DEPTH
      ensures c[x].proxiedVotes[d] == Weight(c, x, d + 1)
    {
      DetachWeight(s, a, x, d);
    }
  }

  /** A chain that ends stays ended. */
  lemma HopPastEnd(s: Ledger, p: Name, i: nat, k: nat)
    requires PROXY_TO_SELF !in s && i <= k && Hop(s, p, i) == PROXY_TO_SELF
    ensures Hop(s, p, k) == PROXY_TO_SELF
  {
    HopCompose(s, p, i, k - i);
    HopFromSelf(s, k - i);
  }

  /** Linking a self-voting account to one whose chain avoids it closes no cycle. */
  lemma LinkAcyclic(c: Ledger, a: Name, p: Name)
    requires WellFormed(c) && Acyclic(c) && a in c && p in c && c[a].proxy == PROXY_TO_SELF
    requires forall k: nat :: Hop(c, p, k) != a
    ensures Acyclic(WithProxy(c, a, p))
  {
    var s := WithProxy(c, a, p);
    forall k: nat
      ensures Hop(s, p, k) != a
    {
      NeverReaches(c, s, a, p, k);
    }
    forall b, k: nat | b in s && 0 < k
      ensures Hop(s, b, k) != b
    {
      if Hop(s, b, k) == b {
        HopCut(s, c, a, b, k);
        if i :| 0 <= i < k && Hop(s, b, i) == a {
          // rotate the cycle so that it starts at a
          HopCompose(s, b, i, k);
          HopCompose(s, b, k, i);
          assert false;
        }
      }
    }
  }

  lemma {:induction false} NeverReaches(c: Ledger, s: Ledger, a: Name, p: Name, k: nat)
    requires WellFormed(c) && WellFormed(s) && IsCut(s, c, a)
    requires forall j: nat :: Hop(c, p, j) != a
    ensures Hop(s, p, k) != a
  {
    forall i | 0 <= i < k
      ensures Hop(s, p, i) != a
    {
      NeverReaches(c, s, a, p, i);
    }
    HopCut(s, c, a, p, k);
  }

  lemma AttachAcyclic(c: Ledger, a: Name, p: Name)
    requires WellFormed(c) && Acyclic(c) && a in c && c[a].proxy == PROXY_TO_SELF && ProxyAllowed(c, a, p)
    ensures Acyclic(WithProxy(c, a, p))
  {
    forall k: nat
      ensures Hop(c, p, k) != a
    {
      if k >= 3 {
        HopPastEnd(c, p, 3, k);
      }
    }
    LinkAcyclic(c, a, p);
  }

  /** What a carries is what must be added above it once it is linked. */
  lemma AttachWeight(c: Ledger, a: Name, p: Name, x: Name, d: nat)
    requires Inv(c) && a in c && c[a].proxy == PROXY_TO_SELF && p in c && Acyclic(WithProxy(c, a, p))
    requires x in c && d < MAX_PROXY_RECURSION_DEPTH
    ensures Weight(WithProxy(c, a, p), x, d + 1)
            == Weight(c, x, d + 1) + Along(WithProxy(c, a, p), a, Carried(c, a), x, d, d + 1)
  {
    var s, w := WithProxy(c, a, p), Carried(c, a);
    CarriedIsWeight(c, a);
    assert IsCut(s, c, a);
    forall i | 0 <= i <= d
      ensures w[i] == Weight(s, a, i)
    {
      CutWeightSelf(s, c, a, i);
    }
    CutWeight(s, c, a, x, d, w);
  }

  lemma AttachKeepsInv(c: Ledger, a: Name, p: Name)
    requires Inv(c) && a in c && c[a].proxy == PROXY_TO_SELF && ProxyAllowed(c, a, p)
    ensures Inv(Attached(c, a, p))
  {
    hide Weight, Acyclic;
    AttachAcyclic(c, a, p);
    var s, r := WithProxy(c, a, p), Attached(c, a, p);
    SameGraphAcyclic(s, r);
    assert WellFormed(r) && r.Keys == s.Keys;
    assert forall b :: b in s ==> r[b].proxy == s[b].proxy && r[b].vestingShares == s[b].vestingShares;
    hide Attached, Shifted, Along;
    forall x, d | x in r && 0 <= d < MAX_PROXY_RECURSION_DEPTH
      ensures r[x].proxiedVotes[d] == Weight(r, x, d + 1)
    {
      AttachWeight(c, a, p, x, d);
      SameGraphWeight(s, r, x, d + 1);
    }
  }

  lemma SameGraphAcyclic(s: Ledger, r: Ledger)
    requires Acyclic(s) && r.Keys == s.Keys && forall x :: x in s ==> r[x].proxy == s[x].proxy
    ensures Acyclic(r)
  {
    forall b, k: nat | b in r && 0 < k
      ensures Hop(r, b, k) != b
    {
      SameGraphHop(s, r, b, k);
    }
  }

  lemma StakeWeight(s: Ledger, a: Name, delta: int, x: Name, k: nat)
    requires WellFormed(s) && a in s
    ensures Weight(s[a := s[a].(vestingShares := s[a].vestingShares + delta)], x, k)
            == Weight(s, x, k) + if Hop(s, a, k) == x then delta else 0
  {
    var s1 := s[a := s[a].(vestingShares := s[a].vestingShares + delta)];
    forall b | b in s.Keys
      ensures Hop(s1, b, k) == Hop(s, b, k)
    {
      SameGraphHop(s, s1, b, k);
    }
    assert s1.Keys == s.Keys;
    SumPoint(s.Keys, Contribution(s, x, k), Contribution(s1, x, k), a);
  }

  lemma StakeKeepsInv(s: Ledger, a: Name, delta: int)
    requires Inv(s) && a in s
    ensures Inv(StakeAdjusted(s, a, delta))
  {
    var s1 := s[a := s[a].(vestingShares := s[a].vestingShares + delta)];
    var r := StakeAdjusted(s, a, delta);
    SameGraphAcyclic(s, r);
    forall x, d | x in r && 0 <= d < MAX_PROXY_RECURSION_DEPTH
      ensures r[x].proxiedVotes[d] == Weight(r, x, d + 1)
    {
      SameGraphWeight(s1, r, x, d + 1);
      StakeWeight(s, a, delta, x, d + 1);
      SameGraphHop(s, s1, a, d + 1);
    }
  }

  /** A new account is on nobody's chain. */
  lemma {:induction false} CreatedHop(s: Ledger, a: Name, b: Name, k: nat)
    requires WellFormed(s) && a !in s && a != PROXY_TO_SELF
    ensures b != a ==> Hop(Created(s, a), b, k) == Hop(s, b, k) && (b in s ==> Hop(s, b, k) != a)
    ensures b == a && 0 < k ==> Hop(Created(s, a), b, k) == PROXY_TO_SELF
    decreases k
  {
    if k > 0 {
      HopFromSelf(Created(s, a), k - 1);
      HopFromSelf(s, k - 1);
      if b in s {
        CreatedHop(s, a, s[b].proxy, k - 1);
      }
    }
  }

  lemma CreateKeepsInv(s: Ledger, a: Name)
    requires Inv(s) && a !in s && a != PROXY_TO_SELF
    ensures Inv(Created(s, a))
  {
    var r := Created(s, a);
    forall b, k: nat | b in r && 0 < k
      ensures Hop(r, b, k) != b
    {
      CreatedHop(s, a, b, k);
    }
    forall x, d | x in r && 0 <= d < MAX_PROXY_RECURSION_DEPTH
      ensures r[x].proxiedVotes[d] == Weight(r, x, d + 1)
    {
      var f, g := Contribution(s, x, d + 1), Contribution(r, x, d + 1);
      forall b | b in s.Keys
        ensures f(b) == g(b) && (x == a ==> f(b) == 0)
      {
        CreatedHop(s, a, b, d + 1);
      }
      CreatedHop(s, a, a, d + 1);
      SumCongruence(s.Keys, f, g);
      assert r.Keys == s.Keys + {a};
      SumInsert(s.Keys, g, a);
      if x == a {
        SumZero(s.Keys, f);
      }
    }
  }

  lemma DeclineKeepsInv(s: Ledger, a: Name)
    requires Inv(s) && a in s
    ensures Inv(Step(s, DeclineVotingRights(a)))
  {
    DetachKeepsInv(s, a);
    var c := Detached(s, a);
    assert a in c && Step(s, DeclineVotingRights(a)) == c[a := c[a].(canVote := false)];
    hide Detached, Inv;
    SameGraphInv(c, c[a := c[a].(canVote := false)]);
  }

  /** Nothing else about an account matters to the invariant. */
  lemma SameGraphInv(c: Ledger, r: Ledger)
    requires Inv(c) && r.Keys == c.Keys
    requires forall x :: x in c ==> r[x] == c[x].(canVote := r[x].canVote)
    ensures Inv(r)
  {
    hide Weight, Acyclic;
    forall x, d | x in r && 0 <= d < MAX_PROXY_RECURSION_DEPTH
      ensures r[x].proxiedVotes[d] == Weight(r, x, d + 1)
    {
      SameGraphWeight(c, r, x, d + 1);
    }
    SameGraphAcyclic(c, r);
  }

  /** Detaching a leaves every chain that avoids a, so a proxy that was allowed stays allowed. */
  lemma AllowedAfterDetach(s: Ledger, a: Name, p: Name)
    requires Inv(s) && a in s && ProxyAllowed(s, a, p)
    ensures ProxyAllowed(Detached(s, a), a, p)
  {
    var c := Detached(s, a);
    HopCut(s, c, a, p, 1);
    HopCut(s, c, a, p, 2);
    HopCut(s, c, a, p, 3);
    assert Hop(s, p, 0) == p;
  }

  lemma StepKeepsInv(s: Ledger, op: Operation)
    requires Inv(s)
    ensures Inv(Step(s, op))
  {
    if Accepted(s, op) {
      match op
      case CreateAccount(a) => CreateKeepsInv(s, a);
      case AdjustStake(a, delta) => StakeKeepsInv(s, a, delta);
      case SetProxy(a, p) =>
        DetachKeepsInv(s, a);
        if p != PROXY_TO_SELF {
          AllowedAfterDetach(s, a, p);
          AttachKeepsInv(Detached(s, a), a, p);
        }
      case DeclineVotingRights(a) => DeclineKeepsInv(s, a);
    }
  }

  /** After an accepted change the account's chain ends within the depth to which votes are forwarded. */
  lemma ChainStaysShort(s: Ledger, a: Name, p: Name)
    requires Inv(s) && Accepted(s, SetProxy(a, p))
    ensures Hop(Step(s, SetProxy(a, p)), a, MAX_PROXY_RECURSION_DEPTH) == PROXY_TO_SELF
  {
    var r := Step(s, SetProxy(a, p));
    StepHasEffect(s, SetProxy(a, p));
    hide Step, Inv;
    if p == PROXY_TO_SELF {
      HopFromSelf(r, MAX_PROXY_RECURSION_DEPTH - 1);
    } else {
      assert Hop(r, a, MAX_PROXY_RECURSION_DEPTH) == Hop(r, p, 3);
      SameUpTo(s, r, a, p, 3);
    }
  }

  /** A chain that does not meet a is the same whatever a's proxy is. */
  lemma {:induction false} SameUpTo(s: Ledger, r: Ledger, a: Name, b: Name, k: nat)
    requires OnlyAt(s, r, a) && forall i: nat :: i < k ==> Hop(s, b, i) != a
    ensures Hop(r, b, k) == Hop(s, b, k)
    decreases k
  {
    assert k > 0 ==> Hop(s, b, 0) != a;
    if k > 0 && b in s {
      forall i: nat | i < k - 1
        ensures Hop(s, s[b].proxy, i) != a
      {
        assert Hop(s, b, i + 1) == Hop(s, s[b].proxy, i);
      }
      SameUpTo(s, r, a, s[b].proxy, k - 1);
    }
  }

  // ---------- the ledger is decided by stakes and proxies ----------

  /** Stakes, proxies and voting rights leave only one ledger with exact counters. */
  lemma LedgerIsDecided(s: Ledger, r: Ledger)
    requires Inv(s) && Inv(r) && s.Keys == r.Keys
    requires forall x :: x in s ==>
                           r[x].proxy == s[x].proxy && r[x].vestingShares == s[x].vestingShares
                           && r[x].canVote == s[x].canVote
    ensures s == r
  {
    forall x | x in s
      ensures s[x] == r[x]
    {
      forall d | 0 <= d < MAX_PROXY_RECURSION_DEPTH
        ensures s[x].proxiedVotes[d] == r[x].proxiedVotes[d]
      {
        SameGraphWeight(s, r, x, d + 1);
      }
      assert s[x].proxiedVotes == r[x].proxiedVotes;
    }
  }

  /** So an accepted operation does what its effect says and keeps the counters exact, and nothing else does. */
  lemma StepIsDecided(s: Ledger, op: Operation, r: Ledger)
    requires Inv(s) && Accepted(s, op)
    ensures r == Step(s, op) <==> Inv(r) && Effect(s, op, r)
  {
    StepKeepsInv(s, op);
    StepHasEffect(s, op);
    if Inv(r) && Effect(s, op, r) {
      hide Step, Inv;
      EffectsAgree(s, op, r, Step(s, op));
      LedgerIsDecided(r, Step(s, op));
    }
  }

  lemma EffectsAgree(s: Ledger, op: Operation, r: Ledger, q: Ledger)
    requires Effect(s, op, r) && Effect(s, op, q)
    ensures r.Keys == q.Keys
    ensures forall x :: x in r ==>
                          q[x].proxy == r[x].proxy && q[x].vestingShares == r[x].vestingShares
                          && q[x].canVote == r[x].canVote
  {
    if op.CreateAccount? {
      assert r.Keys == s.Keys + {op.account} && q.Keys == s.Keys + {op.account};
      forall x | x in r && x != op.account
        ensures r[x] == s[x] && q[x] == s[x]
      {
        assert x in r - {op.account} && x in q - {op.account};
      }
    }
  }

  // ---------- whole runs ----------

  ghost function Run(s: Ledger, ops: seq<Operation>): Ledger
    requires Inv(s)
    decreases |ops|
  {
    if ops == [] then s else
      StepKeepsInv(s, ops[0]);
      Run(Step(s, ops[0]), ops[1..])
  }

  /** From the empty ledger, after any operations whatever: no cycle, and every counter exact. */
  lemma {:induction false} EveryReachableLedgerIsExact(s: Ledger, ops: seq<Operation>)
    requires Inv(s)
    ensures Inv(Run(s, ops))
    ensures Sum(Run(s, ops).Keys, TallyTerm(Run(s, ops))) == Sum(Run(s, ops).Keys, Stake(Run(s, ops)))
    decreases |ops|
  {
    if ops == [] {
      TallyIsTotalStake(s);
    } else {
      StepKeepsInv(s, ops[0]);
      EveryReachableLedgerIsExact(Step(s, ops[0]), ops[1..]);
    }
  }

  /** An account that has declined its voting rights votes itself, and never names a proxy again. */
  lemma {:induction false} DeclinedForGood(s: Ledger, ops: seq<Operation>, a: Name)
    requires Inv(s) && a in s && !s[a].canVote && s[a].proxy == PROXY_TO_SELF
    ensures a in Run(s, ops) && !Run(s, ops)[a].canVote && Run(s, ops)[a].proxy == PROXY_TO_SELF
    decreases |ops|
  {
    if ops != [] {
      var next := Step(s, ops[0]);
      StepKeepsInv(s, ops[0]);
      if Accepted(s, ops[0]) {
        StepHasEffect(s, ops[0]);
        assert a in next && next[a].canVote == s[a].canVote && next[a].proxy == s[a].proxy by {
          hide Step, Inv;
          if ops[0].CreateAccount? {
            assert a in next - {ops[0].account};
          }
        }
      }
      DeclinedForGood(next, ops[1..], a);
    }
  }

  lemma EmptyLedgerInv()
    ensures Inv(map[])
  {
  }

  // ---------- the tally ----------

  ghost function Stake(s: Ledger): Name -> int {
    (a: Name) => if a in s then s[a].vestingShares else 0
  }

  /** The votes an account casts when it votes itself. */
  function WitnessVoteWeight(a: Account): int
    requires |a.proxiedVotes| == MAX_PROXY_RECURSION_DEPTH
  {
    a.vestingShares + a.proxiedVotes[0] + a.proxiedVotes[1] + a.proxiedVotes[2] + a.proxiedVotes[3]
  }

  /** Self-voters count with all they carry, proxied accounts only with what is too deep to be passed on. */
  ghost function TallyTerm(s: Ledger): Name -> int
    requires WellFormed(s)
  {
    (x: Name) =>
      if x !in s then 0
      else if s[x].proxy == PROXY_TO_SELF then WitnessVoteWeight(s[x])
      else s[x].proxiedVotes[MAX_PROXY_RECURSION_DEPTH - 1]
  }

  /** b's stake, once for each of the first n links of b's chain, b itself included, at which x stands. */
  ghost function Met(s: Ledger, x: Name, b: Name, n: nat): int
    requires b in s
  {
    if n == 0 then 0 else Met(s, x, b, n - 1) + if Hop(s, b, n - 1) == x then s[b].vestingShares else 0
  }

  ghost function Below(s: Ledger, x: Name, n: nat): Name -> int {
    (b: Name) => if b in s then Met(s, x, b, n) else 0
  }

  ghost function WeightBelow(s: Ledger, x: Name, n: nat): int {
    if n == 0 then 0 else WeightBelow(s, x, n - 1) + Weight(s, x, n - 1)
  }

  lemma {:induction false} SumBelow(s: Ledger, x: Name, n: nat)
    ensures Sum(s.Keys, Below(s, x, n)) == WeightBelow(s, x, n)
  {
    if n == 0 {
      SumZero(s.Keys, Below(s, x, 0));
    } else {
      SumBelow(s, x, n - 1);
      forall b | b in s.Keys
        ensures Below(s, x, n)(b) == Below(s, x, n - 1)(b) + 1 * Contribution(s, x, n - 1)(b)
      {
      }
      SumLinear(s.Keys, Below(s, x, n), Below(s, x, n - 1), 1, Contribution(s, x, n - 1));
    }
  }

  /** The part of b's stake that the tally takes at x. */
  ghost function Share(s: Ledger): (Name, Name) -> int {
    (x: Name, b: Name) =>
      if x !in s || b !in s then 0
      else if s[x].proxy == PROXY_TO_SELF then Met(s, x, b, MAX_PROXY_RECURSION_DEPTH + 1)
      else Contribution(s, x, MAX_PROXY_RECURSION_DEPTH)(b)
  }

  /** A chain has one end. */
  lemma EndIsUnique(s: Ledger, b: Name, i: nat, j: nat)
    requires WellFormed(s) && i < j && Hop(s, b, i) in s && s[Hop(s, b, i)].proxy == PROXY_TO_SELF
    ensures Hop(s, b, j) == PROXY_TO_SELF
  {
    NextHop(s, b, i);
    HopPastEnd(s, b, i + 1, j);
  }

  lemma {:induction false} MetNever(s: Ledger, x: Name, b: Name, n: nat)
    requires b in s && forall i: nat :: i < n ==> Hop(s, b, i) != x
    ensures Met(s, x, b, n) == 0
  {
    if n > 0 {
      MetNever(s, x, b, n - 1);
    }
  }

  /** A self-voter met at link m is met nowhere else, so it takes b's stake exactly once. */
  lemma {:induction false} MetOnlyOnce(s: Ledger, x: Name, b: Name, n: nat, m: nat)
    requires WellFormed(s) && b in s && x in s && s[x].proxy == PROXY_TO_SELF && m < n && Hop(s, b, m) == x
    ensures Met(s, x, b, n) == s[b].vestingShares
  {
    if m == n - 1 {
      forall i: nat | i < m
        ensures Hop(s, b, i) != x
      {
        if Hop(s, b, i) == x {
          EndIsUnique(s, b, i, m);
        }
      }
      MetNever(s, x, b, m);
    } else {
      MetOnlyOnce(s, x, b, n - 1, m);
      EndIsUnique(s, b, m, n - 1);
    }
  }

  /** How many links to climb from b: to the end of its chain, but at most n. */
  ghost function Climb(s: Ledger, b: Name, n: nat): (m: nat)
    requires WellFormed(s) && b in s
    ensures m <= n && Hop(s, b, m) in s && (m == n || s[Hop(s, b, m)].proxy == PROXY_TO_SELF)
    decreases n
  {
    if n == 0 || s[b].proxy == PROXY_TO_SELF then 0 else 1 + Climb(s, s[b].proxy, n - 1)
  }

  lemma ShareElsewhere(s: Ledger, b: Name, x: Name, m: nat)
    requires WellFormed(s) && b in s && x in s && m == Climb(s, b, MAX_PROXY_RECURSION_DEPTH) && x != Hop(s, b, m)
    ensures Share(s)(x, b) == 0
  {
    var n := MAX_PROXY_RECURSION_DEPTH;
    if s[x].proxy == PROXY_TO_SELF {
      forall i: nat | i < n + 1
        ensures Hop(s, b, i) != x
      {
        if Hop(s, b, i) == x {
          if i < m {
            EndIsUnique(s, b, i, m);
          } else {
            EndIsUnique(s, b, m, i);
          }
        }
      }
      MetNever(s, x, b, n + 1);
      assert Share(s)(x, b) == Met(s, x, b, n + 1);
    } else {
      if m < n {
        EndIsUnique(s, b, m, n);
      }
      assert Share(s)(x, b) == Contribution(s, x, n)(b);
    }
  }

  /** b's stake is taken once: at the self-voter its chain reaches within four links, or else four links up. */
  lemma ShareOfOne(s: Ledger, b: Name)
    requires WellFormed(s) && b in s
    ensures Sum(s.Keys, Column(Share(s), b)) == s[b].vestingShares
  {
    var m := Climb(s, b, MAX_PROXY_RECURSION_DEPTH);
    var y := Hop(s, b, m);
    var zero := (x: Name) => 0;
    forall x | x in s.Keys && x != y
      ensures zero(x) == Column(Share(s), b)(x)
    {
      ShareElsewhere(s, b, x, m);
    }
    if s[y].proxy == PROXY_TO_SELF {
      MetOnlyOnce(s, y, b, MAX_PROXY_RECURSION_DEPTH + 1, m);
      assert Share(s)(y, b) == Met(s, y, b, MAX_PROXY_RECURSION_DEPTH + 1);
    } else {
      assert Share(s)(y, b) == Contribution(s, y, MAX_PROXY_RECURSION_DEPTH)(b);
    }
    assert Share(s)(y, b) == s[b].vestingShares;
    SumPoint(s.Keys, zero, Column(Share(s), b), y);
    SumZero(s.Keys, zero);
  }

  lemma TallyAtOne(s: Ledger, x: Name)
    requires Inv(s) && x in s
    ensures TallyTerm(s)(x) == Sum(s.Keys, Row(Share(s), x))
  {
    var f := Row(Share(s), x);
    if s[x].proxy == PROXY_TO_SELF {
      SumBelow(s, x, MAX_PROXY_RECURSION_DEPTH + 1);
      SumCongruence(s.Keys, f, Below(s, x, MAX_PROXY_RECURSION_DEPTH + 1));
      WeightBelowIsVoteWeight(s, x);
    } else {
      SumCongruence(s.Keys, f, Contribution(s, x, MAX_PROXY_RECURSION_DEPTH));
    }
  }

  lemma FirstWeights(s: Ledger, x: Name)
    ensures WeightBelow(s, x, 5)
            == Weight(s, x, 0) + Weight(s, x, 1) + Weight(s, x, 2) + Weight(s, x, 3) + Weight(s, x, 4)
  {
    assert WeightBelow(s, x, 1) == Weight(s, x, 0);
    assert WeightBelow(s, x, 2) == WeightBelow(s, x, 1) + Weight(s, x, 1);
    assert WeightBelow(s, x, 3) == WeightBelow(s, x, 2) + Weight(s, x, 2);
    assert WeightBelow(s, x, 4) == WeightBelow(s, x, 3) + Weight(s, x, 3);
  }

  lemma WeightBelowIsVoteWeight(s: Ledger, x: Name)
    requires Inv(s) && x in s
    ensures WeightBelow(s, x, MAX_PROXY_RECURSION_DEPTH + 1) == WitnessVoteWeight(s[x])
  {
    CarriedIsWeight(s, x);
    var w := Carried(s, x);
    FirstWeights(s, x);
    assert w[0] == Weight(s, x, 0) && w[1] == Weight(s, x, 1) && w[2] == Weight(s, x, 2);
    assert w[3] == Weight(s, x, 3) && w[4] == Weight(s, x, 4);
  }

  /** No stake is lost and none is counted twice, however long the proxy chains are. */
  lemma TallyIsTotalStake(s: Ledger)
    requires Inv(s)
    ensures Sum(s.Keys, TallyTerm(s)) == Sum(s.Keys, Stake(s))
  {
    forall x | x in s.Keys
      ensures TallyTerm(s)(x) == RowSums(s.Keys, Share(s))(x)
    {
      TallyAtOne(s, x);
    }
    SumCongruence(s.Keys, TallyTerm(s), RowSums(s.Keys, Share(s)));
    SumExchange(s.Keys, s.Keys, Share(s));
    forall b | b in s.Keys
      ensures ColumnSums(s.Keys, Share(s))(b) == Stake(s)(b)
    {
      ShareOfOne(s, b);
    }
    SumCongruence(s.Keys, ColumnSums(s.Keys, Share(s)), Stake(s));
  }

  // ---------- the walks ----------

  function PrefixSum(delta: seq<int>, n: nat): int
    requires n <= |delta|
  {
    if n == 0 then 0 else PrefixSum(delta, n - 1) + delta[n - 1]
  }

  /** The first link of a walk, split off from the rest. */
  lemma {:induction false} AlongFirst(s: Ledger, a: Name, delta: seq<int>, x: Name, d: nat, n: nat)
    requires WellFormed(s) && a in s && 0 < n <= d + 1 <= |delta|
    ensures Along(s, a, delta, x, d, n) ==
            (if s[a].proxy == x then delta[d] else 0)
            + (if d == 0 then 0 else Along(s, s[a].proxy, delta, x, d - 1, n - 1))
  {
    if n == 1 {
      assert Hop(s, a, 1) == Hop(s, s[a].proxy, 0);
      assert Along(s, a, delta, x, d, 0) == 0;
    } else {
      AlongFirst(s, a, delta, x, d, n - 1);
      assert Hop(s, a, n) == Hop(s, s[a].proxy, n - 1);
    }
  }

  lemma {:induction false} AlongEnded(s: Ledger, a: Name, delta: seq<int>, x: Name, d: nat, n: nat)
    requires WellFormed(s) && a in s && s[a].proxy == PROXY_TO_SELF && x in s && n <= d + 1 <= |delta|
    ensures Along(s, a, delta, x, d, n) == 0
  {
    if n > 0 {
      AlongEnded(s, a, delta, x, d, n - 1);
      HopFromSelf(s, n - 1);
    }
  }

  lemma {:induction false} AlongSameGraph(s: Ledger, r: Ledger, a: Name, delta: seq<int>, x: Name, d: nat, n: nat)
    requires r.Keys == s.Keys && (forall b :: b in s ==> r[b].proxy == s[b].proxy) && n <= d + 1 <= |delta|
    ensures Along(r, a, delta, x, d, n) == Along(s, a, delta, x, d, n)
  {
    if n > 0 {
      AlongSameGraph(s, r, a, delta, x, d, n - 1);
      SameGraphHop(s, r, a, n);
    }
  }

  /** One step of the walk, then the rest of it, is the whole of it. */
  lemma ShiftedUnfolds(s: Ledger, r: Ledger, a: Name, delta: seq<int>, t: nat)
    requires WellFormed(s) && a in s && |delta| == MAX_PROXY_RECURSION_DEPTH + 1 && t < MAX_PROXY_RECURSION_DEPTH
    requires s[a].proxy != PROXY_TO_SELF
    requires var p := s[a].proxy;
             && r.Keys == s.Keys && (forall x :: x in s && x != p ==> r[x] == s[x])
             && |r[p].proxiedVotes| == MAX_PROXY_RECURSION_DEPTH
             && r[p] == s[p].(proxiedVotes := r[p].proxiedVotes)
             && forall d :: 0 <= d < MAX_PROXY_RECURSION_DEPTH ==>
                  r[p].proxiedVotes[d] == s[p].proxiedVotes[d] + if d < t then 0 else delta[d - t]
    ensures WellFormed(r) && Shifted(r, s[a].proxy, delta, t + 1) == Shifted(s, a, delta, t)
  {
    var left, right := Shifted(r, s[a].proxy, delta, t + 1), Shifted(s, a, delta, t);
    assert left.Keys == right.Keys;
    forall x | x in s
      ensures left[x] == right[x]
    {
      VotesUnfold(s, r, a, delta, t, x);
    }
  }

  lemma VotesUnfold(s: Ledger, r: Ledger, a: Name, delta: seq<int>, t: nat, x: Name)
    requires WellFormed(s) && WellFormed(r) && a in s && x in s
    requires |delta| == MAX_PROXY_RECURSION_DEPTH + 1 && t < MAX_PROXY_RECURSION_DEPTH
    requires r.Keys == s.Keys && forall b :: b in s ==> r[b].proxy == s[b].proxy
    requires r[x] == s[x].(proxiedVotes := r[x].proxiedVotes)
    requires forall d :: 0 <= d < MAX_PROXY_RECURSION_DEPTH ==>
               r[x].proxiedVotes[d] == s[x].proxiedVotes[d] + if d < t || s[a].proxy != x then 0 else delta[d - t]
    ensures Shifted(r, s[a].proxy, delta, t + 1)[x] == Shifted(s, a, delta, t)[x]
  {
    var left, right := Shifted(r, s[a].proxy, delta, t + 1)[x], Shifted(s, a, delta, t)[x];
    forall d | 0 <= d < MAX_PROXY_RECURSION_DEPTH
      ensures left.proxiedVotes[d] == right.proxiedVotes[d]
    {
      SlotUnfolds(s, r, a, delta, t, x, d);
    }
    assert left.proxiedVotes == right.proxiedVotes;
  }

  lemma SlotUnfolds(s: Ledger, r: Ledger, a: Name, delta: seq<int>, t: nat, x: Name, d: nat)
    requires WellFormed(s) && a in s && |delta| == MAX_PROXY_RECURSION_DEPTH + 1 && x in s
    requires r.Keys == s.Keys && forall b :: b in s ==> r[b].proxy == s[b].proxy
    requires d < MAX_PROXY_RECURSION_DEPTH && t < MAX_PROXY_RECURSION_DEPTH
    ensures (if d < t then 0 else Along(s, a, delta, x, d - t, d - t + 1))
            == (if d < t || s[a].proxy != x then 0 else delta[d - t])
               + (if d < t + 1 then 0 else Along(r, s[a].proxy, delta, x, d - t - 1, d - t))
  {
    if t <= d {
      AlongFirst(s, a, delta, x, d - t, d - t + 1);
    }
    if t < d {
      AlongSameGraph(s, r, s[a].proxy, delta, x, d - t - 1, d - t);
    }
  }

  lemma ShiftedAtEnd(s: Ledger, a: Name, delta: seq<int>, t: nat)
    requires WellFormed(s) && a in s && |delta| == MAX_PROXY_RECURSION_DEPTH + 1
    requires s[a].proxy == PROXY_TO_SELF || MAX_PROXY_RECURSION_DEPTH <= t
    ensures Shifted(s, a, delta, t) == s
  {
    var r := Shifted(s, a, delta, t);
    forall x | x in s
      ensures r[x] == s[x]
    {
      forall d | 0 <= d < MAX_PROXY_RECURSION_DEPTH
        ensures r[x].proxiedVotes[d] == s[x].proxiedVotes[d]
      {
        if t <= d {
          AlongEnded(s, a, delta, x, d - t, d - t + 1);
        }
      }
      assert r[x].proxiedVotes == s[x].proxiedVotes;
    }
  }

  lemma StakeShiftedUnfolds(s: Ledger, r: Ledger, a: Name, delta: int, t: nat)
    requires WellFormed(s) && a in s && t < MAX_PROXY_RECURSION_DEPTH && s[a].proxy != PROXY_TO_SELF
    requires var p := s[a].proxy;
             r == s[p := s[p].(proxiedVotes := s[p].proxiedVotes[t := s[p].proxiedVotes[t] + delta])]
    ensures WellFormed(r) && StakeShifted(r, s[a].proxy, delta, t + 1) == StakeShifted(s, a, delta, t)
  {
    var p := s[a].proxy;
    var left, right := StakeShifted(r, p, delta, t + 1), StakeShifted(s, a, delta, t);
    assert left.Keys == right.Keys;
    forall x | x in s
      ensures left[x] == right[x]
    {
      StakeSlotUnfolds(s, r, a, delta, t, x);
    }
  }

  lemma StakeSlotUnfolds(s: Ledger, r: Ledger, a: Name, delta: int, t: nat, x: Name)
    requires WellFormed(s) && WellFormed(r) && a in s && x in s
    requires t < MAX_PROXY_RECURSION_DEPTH && s[a].proxy != PROXY_TO_SELF
    requires var p := s[a].proxy;
             r == s[p := s[p].(proxiedVotes := s[p].proxiedVotes[t := s[p].proxiedVotes[t] + delta])]
    ensures StakeShifted(r, s[a].proxy, delta, t + 1)[x] == StakeShifted(s, a, delta, t)[x]
  {
    var p := s[a].proxy;
    var left, right := StakeShifted(r, p, delta, t + 1)[x], StakeShifted(s, a, delta, t)[x];
    forall d | 0 <= d < MAX_PROXY_RECURSION_DEPTH
      ensures left.proxiedVotes[d] == right.proxiedVotes[d]
    {
      if t < d {
        assert Hop(s, a, d - t + 1) == Hop(s, p, d - t);
        SameGraphHop(s, r, p, d - t);
      } else if t == d {
        assert Hop(s, a, 1) == Hop(s, p, 0);
      }
    }
    assert left.proxiedVotes == right.proxiedVotes;
  }

  lemma StakeShiftedAtEnd(s: Ledger, a: Name, delta: int, t: nat)
    requires WellFormed(s) && a in s && (s[a].proxy == PROXY_TO_SELF || MAX_PROXY_RECURSION_DEPTH <= t)
    ensures StakeShifted(s, a, delta, t) == s
  {
    var r := StakeShifted(s, a, delta, t);
    forall x | x in s
      ensures r[x] == s[x]
    {
      forall d | 0 <= d < MAX_PROXY_RECURSION_DEPTH
        ensures r[x].proxiedVotes[d] == s[x].proxiedVotes[d]
      {
        if t <= d && s[a].proxy == PROXY_TO_SELF {
          assert Hop(s, a, d - t + 1) == Hop(s, PROXY_TO_SELF, d - t);
          HopFromSelf(s, d - t);
        }
      }
      assert r[x].proxiedVotes == s[x].proxiedVotes;
    }
  }

  // ---------- what reaches the witnesses ----------

  lemma {:induction false} AlongRoot(s: Ledger, a: Name, delta: seq<int>, m: nat, d: nat, n: nat)
    requires WellFormed(s) && Acyclic(s) && 0 < m && Hop(s, a, m) in s && n <= d + 1 <= |delta|
    ensures Along(s, a, delta, Hop(s, a, m), d, n) == if m <= n then delta[d + 1 - m] else 0
  {
    if n > 0 {
      AlongRoot(s, a, delta, m, d, n - 1);
      if n < m {
        if Hop(s, a, n) == Hop(s, a, m) {
          MetOnce(s, Hop(s, a, m), a, n, m);
        }
      } else if m < n {
        MetOnce(s, Hop(s, a, m), a, m, n);
      }
    }
  }

  lemma SlotChange(s: Ledger, a: Name, delta: seq<int>, m: nat, d: nat)
    requires Inv(s) && |delta| == MAX_PROXY_RECURSION_DEPTH + 1 && 0 < m && Hop(s, a, m) in s
    requires d < MAX_PROXY_RECURSION_DEPTH
    ensures var x := Hop(s, a, m);
            Shifted(s, a, delta, 0)[x].proxiedVotes[d]
            == s[x].proxiedVotes[d] + if m <= d + 1 then delta[d + 1 - m] else 0
  {
    AlongRoot(s, a, delta, m, d, d + 1);
  }

  /** What is forwarded to the witnesses of an account m links up is exactly the change of its own vote weight. */
  lemma WitnessesSeeTheChange(s: Ledger, a: Name, delta: seq<int>, m: nat)
    requires Inv(s) && a in s && |delta| == MAX_PROXY_RECURSION_DEPTH + 1
    requires 0 < m <= MAX_PROXY_RECURSION_DEPTH && Hop(s, a, m) in s
    ensures var x := Hop(s, a, m);
            WitnessVoteWeight(Shifted(s, a, delta, 0)[x]) - WitnessVoteWeight(s[x])
            == PrefixSum(delta, MAX_PROXY_RECURSION_DEPTH + 1 - m)
  {
    var before, after := s[Hop(s, a, m)], Shifted(s, a, delta, 0)[Hop(s, a, m)];
    forall d | 0 <= d < MAX_PROXY_RECURSION_DEPTH
      ensures after.proxiedVotes[d] == before.proxiedVotes[d] + if m <= d + 1 then delta[d + 1 - m] else 0
    {
      SlotChange(s, a, delta, m, d);
    }
    WeightChange(before, after, delta, m);
  }

  lemma WeightChange(before: Account, after: Account, delta: seq<int>, m: nat)
    requires |before.proxiedVotes| == |after.proxiedVotes| == MAX_PROXY_RECURSION_DEPTH
    requires |delta| == MAX_PROXY_RECURSION_DEPTH + 1 && 0 < m <= MAX_PROXY_RECURSION_DEPTH
    requires after.vestingShares == before.vestingShares
    requires forall d :: 0 <= d < MAX_PROXY_RECURSION_DEPTH ==>
               after.proxiedVotes[d] == before.proxiedVotes[d] + if m <= d + 1 then delta[d + 1 - m] else 0
    ensures WitnessVoteWeight(after) - WitnessVoteWeight(before) == PrefixSum(delta, MAX_PROXY_RECURSION_DEPTH + 1 - m)
  {
    FirstSums(delta);
  }

  lemma FirstSums(delta: seq<int>)
    requires |delta| == MAX_PROXY_RECURSION_DEPTH + 1
    ensures PrefixSum(delta, 1) == delta[0]
    ensures PrefixSum(delta, 2) == delta[0] + delta[1]
    ensures PrefixSum(delta, 3) == delta[0] + delta[1] + delta[2]
    ensures PrefixSum(delta, 4) == delta[0] + delta[1] + delta[2] + delta[3]
  {
  }

  /** The self-voting end of a's chain if it is at most n links up, and PROXY_TO_SELF otherwise. */
  function RootWithin(s: Ledger, a: Name, n: nat): Name
    requires WellFormed(s) && a in s
    decreases n
  {
    if s[a].proxy == PROXY_TO_SELF then a
    else if n == 0 then PROXY_TO_SELF
    else RootWithin(s, s[a].proxy, n - 1)
  }

  /** What the walk forwards to that end's witnesses. */
  function RootShare(s: Ledger, a: Name, delta: seq<int>, n: nat): int
    requires WellFormed(s) && a in s && n < |delta|
    decreases n
  {
    if s[a].proxy == PROXY_TO_SELF then PrefixSum(delta, n + 1)
    else if n == 0 then 0
    else RootShare(s, s[a].proxy, delta, n - 1)
  }

  lemma {:induction false} RootIsHop(s: Ledger, a: Name, delta: seq<int>, n: nat) returns (m: nat)
    requires WellFormed(s) && a in s && n < |delta| && RootWithin(s, a, n) != PROXY_TO_SELF
    ensures m <= n && Hop(s, a, m) == RootWithin(s, a, n) && RootShare(s, a, delta, n) == PrefixSum(delta, n + 1 - m)
    decreases n
  {
    if s[a].proxy == PROXY_TO_SELF {
      m := 0;
    } else {
      m := RootIsHop(s, s[a].proxy, delta, n - 1);
      m := m + 1;
    }
  }

  /** So the votes forwarded to the witnesses of the end of a's chain are the change of its vote weight. */
  lemma ForwardedVotes(s: Ledger, a: Name, delta: seq<int>)
    requires Inv(s) && a in s && |delta| == MAX_PROXY_RECURSION_DEPTH + 1 && s[a].proxy != PROXY_TO_SELF
    requires RootWithin(s, a, MAX_PROXY_RECURSION_DEPTH) in s
    ensures var x := RootWithin(s, a, MAX_PROXY_RECURSION_DEPTH);
            WitnessVoteWeight(Shifted(s, a, delta, 0)[x]) - WitnessVoteWeight(s[x])
            == RootShare(s, a, delta, MAX_PROXY_RECURSION_DEPTH)
  {
    var m := RootIsHop(s, a, delta, MAX_PROXY_RECURSION_DEPTH);
    RootVotesItself(s, a, MAX_PROXY_RECURSION_DEPTH);
    assert m != 0 by {
      assert Hop(s, a, 0) == a;
    }
    WitnessesSeeTheChange(s, a, delta, m);
  }

  lemma {:induction false} RootVotesItself(s: Ledger, a: Name, n: nat)
    requires WellFormed(s) && a in s && RootWithin(s, a, n) in s
    ensures s[RootWithin(s, a, n)].proxy == PROXY_TO_SELF
    decreases n
  {
    if s[a].proxy != PROXY_TO_SELF && n > 0 {
      RootVotesItself(s, s[a].proxy, n - 1);
    }
  }

  // ---------- the ledger object ----------

  /** The counters of an account depth + 1 links above the start of the walk. */
  method AddVotes(before: seq<int>, delta: seq<int>, depth: nat) returns (votes: seq<int>)
    requires |before| == MAX_PROXY_RECURSION_DEPTH && |delta| == MAX_PROXY_RECURSION_DEPTH + 1
    requires depth < MAX_PROXY_RECURSION_DEPTH
    ensures |votes| == MAX_PROXY_RECURSION_DEPTH
    ensures forall d :: 0 <= d < MAX_PROXY_RECURSION_DEPTH ==>
              votes[d] == before[d] + if d < depth then 0 else delta[d - depth]
  {
    votes := before;
    var i := MAX_PROXY_RECURSION_DEPTH - depth - 1;
    while i >= 0
      invariant -1 <= i < MAX_PROXY_RECURSION_DEPTH - depth
      invariant |votes| == MAX_PROXY_RECURSION_DEPTH
      invariant forall d :: 0 <= d < MAX_PROXY_RECURSION_DEPTH ==>
                  votes[d] == before[d] + if d <= depth + i then 0 else delta[d - depth]
    {
      votes := votes[i + depth := votes[i + depth] + delta[i]];
      i := i - 1;
    }
  }

  /** Everything that is still within reach of the self-voter depth links up. */
  method TotalDelta(delta: seq<int>, depth: nat) returns (total: int)
    requires |delta| == MAX_PROXY_RECURSION_DEPTH + 1 && depth <= MAX_PROXY_RECURSION_DEPTH
    ensures total == PrefixSum(delta, MAX_PROXY_RECURSION_DEPTH - depth + 1)
  {
    total := 0;
    var i := MAX_PROXY_RECURSION_DEPTH - depth;
    while i >= 0
      invariant -1 <= i <= MAX_PROXY_RECURSION_DEPTH - depth
      invariant total == PrefixSum(delta, MAX_PROXY_RECURSION_DEPTH - depth + 1) - PrefixSum(delta, i + 1)
    {
      total := total + delta[i];
      i := i - 1;
    }
  }

  class VoteLedger {
    var accounts: Ledger

    constructor ()
      ensures accounts == map[]
    {
      accounts := map[];
    }

    /** adjust_proxied_witness_votes with one delta per distance; reports the self-voter reached and its share. */
    method AdjustProxiedVotes(a: Name, delta: seq<int>, depth: nat) returns (root: Name, total: int)
      requires WellFormed(accounts) && a in accounts && |delta| == MAX_PROXY_RECURSION_DEPTH + 1
      requires depth <= MAX_PROXY_RECURSION_DEPTH
      modifies this
      ensures accounts == Shifted(old(accounts), a, delta, depth)
      ensures root == RootWithin(old(accounts), a, MAX_PROXY_RECURSION_DEPTH - depth)
      ensures total == RootShare(old(accounts), a, delta, MAX_PROXY_RECURSION_DEPTH - depth)
      decreases MAX_PROXY_RECURSION_DEPTH - depth
    {
      root, total := PROXY_TO_SELF, 0;
      ghost var s := accounts;
      if accounts[a].proxy != PROXY_TO_SELF {
        if depth >= MAX_PROXY_RECURSION_DEPTH {
          ShiftedAtEnd(s, a, delta, depth);
          return;
        }
        var proxy := accounts[a].proxy;
        var votes := AddVotes(accounts[proxy].proxiedVotes, delta, depth);
        accounts := accounts[proxy := accounts[proxy].(proxiedVotes := votes)];
        ShiftedUnfolds(s, accounts, a, delta, depth);
        RootSameGraph(s, accounts, proxy, delta, MAX_PROXY_RECURSION_DEPTH - depth - 1);
        root, total := AdjustProxiedVotes(proxy, delta, depth + 1);
      } else {
        ShiftedAtEnd(s, a, delta, depth);
        root := a;
        total := TotalDelta(delta, depth);
      }
    }

    /** adjust_proxied_witness_votes with a single delta: only a's own stake has changed. */
    method AdjustStakeVotes(a: Name, delta: int, depth: nat) returns (root: Name)
      requires WellFormed(accounts) && a in accounts && depth <= MAX_PROXY_RECURSION_DEPTH
      modifies this
      ensures accounts == StakeShifted(old(accounts), a, delta, depth)
      ensures root == RootWithin(old(accounts), a, MAX_PROXY_RECURSION_DEPTH - depth)
      decreases MAX_PROXY_RECURSION_DEPTH - depth
    {
      root := PROXY_TO_SELF;
      ghost var s := accounts;
      if accounts[a].proxy != PROXY_TO_SELF {
        if depth >= MAX_PROXY_RECURSION_DEPTH {
          StakeShiftedAtEnd(s, a, delta, depth);
          return;
        }
        var proxy := accounts[a].proxy;
        var votes := accounts[proxy].proxiedVotes;
        accounts := accounts[proxy := accounts[proxy].(proxiedVotes := votes[depth := votes[depth] + delta])];
        StakeShiftedUnfolds(s, accounts, a, delta, depth);
        RootSameGraph(s, accounts, proxy, [0, 0, 0, 0, 0], MAX_PROXY_RECURSION_DEPTH - depth - 1);
        root := AdjustStakeVotes(proxy, delta, depth + 1);
      } else {
        StakeShiftedAtEnd(s, a, delta, depth);
        root := a;
      }
    }

    method CreateAccount(a: Name) returns (ok: bool)
      requires Inv(accounts)
      modifies this
      ensures accounts == Step(old(accounts), Operation.CreateAccount(a))
      ensures ok == Accepted(old(accounts), Operation.CreateAccount(a))
      ensures if ok then Effect(old(accounts), Operation.CreateAccount(a), accounts) else accounts == old(accounts)
    {
      ok := a != PROXY_TO_SELF && a !in accounts;
      if ok {
        StepHasEffect(accounts, Operation.CreateAccount(a));
        accounts := accounts[a := Account(0, PROXY_TO_SELF, seq(MAX_PROXY_RECURSION_DEPTH, _ => 0), true)];
      }
    }

    /** A deposit or withdrawal of stake, followed by the walk that publishes it. */
    method AdjustStake(a: Name, delta: int) returns (ok: bool)
      requires Inv(accounts)
      modifies this
      ensures accounts == Step(old(accounts), Operation.AdjustStake(a, delta))
      ensures ok == Accepted(old(accounts), Operation.AdjustStake(a, delta))
      ensures if ok then Effect(old(accounts), Operation.AdjustStake(a, delta), accounts) else accounts == old(accounts)
    {
      ok := a in accounts;
      if ok {
        StepHasEffect(accounts, Operation.AdjustStake(a, delta));
        accounts := accounts[a := accounts[a].(vestingShares := accounts[a].vestingShares + delta)];
        var _ := AdjustStakeVotes(a, delta, 0);
      }
    }

    /** The evaluator's loop check: follows the new proxy's chain, refusing a repeated account or too long a chain. */
    method CheckProxyChain(a: Name, proxy: Name) returns (ok: bool)
      requires WellFormed(accounts) && Acyclic(accounts) && a in accounts && proxy in accounts && proxy != a
      ensures ok == ProxyAllowed(accounts, a, proxy)
    {
      var chain := {a, proxy};
      var cprox := proxy;
      ghost var h1, h2, h3 := Hop(accounts, proxy, 1), Hop(accounts, proxy, 2), Hop(accounts, proxy, 3);
      ghost var steps: nat := 0;
      FirstHops(accounts, proxy);
      while accounts[cprox].proxy != PROXY_TO_SELF
        invariant steps <= 2 && cprox in accounts
        invariant steps == 0 ==> cprox == proxy && chain == {a, proxy}
        invariant steps == 1 ==> cprox == h1 && chain == {a, proxy, h1} && h1 != a
        invariant steps == 2 ==> cprox == h2 && chain == {a, proxy, h1, h2} && h1 != a && h2 != a
        invariant |chain| == steps + 2
        decreases 3 - steps
      {
        var next := accounts[cprox].proxy;
        if next in chain {
          assert next == a;
          return false;
        }
        chain := chain + {next};
        cprox := next;
        steps := steps + 1;
        if |chain| > MAX_PROXY_RECURSION_DEPTH {
          return false;
        }
      }
      return true;
    }

    /** account_witness_proxy_evaluator; a failed check restores the ledger. */
    method SetProxy(a: Name, proxy: Name) returns (ok: bool)
      requires Inv(accounts)
      modifies this
      ensures accounts == Step(old(accounts), Operation.SetProxy(a, proxy))
      ensures ok == Accepted(old(accounts), Operation.SetProxy(a, proxy))
      ensures if ok then Effect(old(accounts), Operation.SetProxy(a, proxy), accounts) else accounts == old(accounts)
    {
      hide Weight, Acyclic, Along, Effect;
      ghost var s := accounts;
      EffectIfAccepted(s, Operation.SetProxy(a, proxy));
      if a !in accounts || proxy == a || accounts[a].proxy == proxy || !accounts[a].canVote {
        return false;
      }
      var saved := accounts;
      var carried := [accounts[a].vestingShares] + accounts[a].proxiedVotes;
      var _, _ := AdjustProxiedVotes(a, Negated(carried), 0);
      if proxy == PROXY_TO_SELF {
        accounts := accounts[a := accounts[a].(proxy := proxy)];
        return true;
      }
      if proxy !in accounts {
        accounts := saved;
        return false;
      }
      SameGraphAllowed(s, accounts, a, proxy);
      var allowed := CheckProxyChain(a, proxy);
      if !allowed {
        accounts := saved;
        return false;
      }
      accounts := accounts[a := accounts[a].(proxy := proxy)];
      assert accounts == WithProxy(Detached(s, a), a, proxy);
      DetachKeepsInv(s, a);
      var _, _ := AdjustProxiedVotes(a, carried, 0);
      return true;
    }

    /** One entry of process_decline_voting_rights. */
    method DeclineVotingRights(a: Name) returns (ok: bool)
      requires Inv(accounts)
      modifies this
      ensures accounts == Step(old(accounts), Operation.DeclineVotingRights(a))
      ensures ok == Accepted(old(accounts), Operation.DeclineVotingRights(a))
      ensures if ok then Effect(old(accounts), Operation.DeclineVotingRights(a), accounts)
              else accounts == old(accounts)
    {
      if a !in accounts {
        return false;
      }
      StepHasEffect(accounts, Operation.DeclineVotingRights(a));
      var carried := [accounts[a].vestingShares] + accounts[a].proxiedVotes;
      var _, _ := AdjustProxiedVotes(a, Negated(carried), 0);
      accounts := accounts[a := accounts[a].(canVote := false, proxy := PROXY_TO_SELF)];
      return true;
    }
  }

  lemma {:induction false} RootSameGraph(s: Ledger, r: Ledger, a: Name, delta: seq<int>, n: nat)
    requires WellFormed(s) && WellFormed(r) && r.Keys == s.Keys && a in s && n < |delta|
    requires forall b :: b in s ==> r[b].proxy == s[b].proxy
    ensures RootWithin(r, a, n) == RootWithin(s, a, n) && RootShare(r, a, delta, n) == RootShare(s, a, delta, n)
    decreases n
  {
    if n > 0 && s[a].proxy != PROXY_TO_SELF {
      RootSameGraph(s, r, s[a].proxy, delta, n - 1);
    }
  }

  lemma SameGraphAllowed(s: Ledger, r: Ledger, a: Name, p: Name)
    requires WellFormed(s) && Acyclic(s) && r.Keys == s.Keys && forall x :: x in s ==> r[x].proxy == s[x].proxy
    ensures Acyclic(r) && ProxyAllowed(r, a, p) == ProxyAllowed(s, a, p)
  {
    SameGraphHop(s, r, p, 1);
    SameGraphHop(s, r, p, 2);
    SameGraphHop(s, r, p, 3);
    forall b, k: nat | b in r && 0 < k
      ensures Hop(r, b, k) != b
    {
      SameGraphHop(s, r, b, k);
    }
  }

  /** The first three links above p, each read off the one before, and no account among them twice. */
  lemma FirstHops(s: Ledger, p: Name)
    requires WellFormed(s) && Acyclic(s) && p in s
    ensures Hop(s, p, 1) == s[p].proxy && Hop(s, p, 1) != p
    ensures Hop(s, p, 2) == if Hop(s, p, 1) in s then s[Hop(s, p, 1)].proxy else PROXY_TO_SELF
    ensures Hop(s, p, 3) == if Hop(s, p, 2) in s then s[Hop(s, p, 2)].proxy else PROXY_TO_SELF
    ensures Hop(s, p, 1) in s ==> Hop(s, p, 2) != p && Hop(s, p, 2) != Hop(s, p, 1)
    ensures Hop(s, p, 2) in s ==> Hop(s, p, 3) != p && Hop(s, p, 3) != Hop(s, p, 1) && Hop(s, p, 3) != Hop(s, p, 2)
  {
    NextHop(s, p, 0);
    NextHop(s, p, 1);
    NextHop(s, p, 2);
    if Hop(s, p, 1) in s {
      MetOnce(s, Hop(s, p, 1), p, 1, 2);
      MetOnce(s, Hop(s, p, 1), p, 1, 3);
    }
    if Hop(s, p, 2) in s {
      MetOnce(s, Hop(s, p, 2), p, 2, 3);
    }
  }
}

/**
 Vesting: liquid tokens are deposited into a common fund against shares, and shares are withdrawn from it
 in a power-down of a few payments, part of which may be routed to other accounts.
 */
module Vesting {
  import opened Common
  import opened Arith
  import opened Sums

  const INTERVALS: int := 4
  const MAX_ROUTES: nat := 10

  /** Accounts by number; the first account has number 0. */
  type Id = nat

  datatype Account = Account(shares: int, delegated: nat, balance: int, rate: int, toWithdraw: int, withdrawn: int)

  datatype Pool = Pool(fund: int, shares: int)

  datatype Ledger = Ledger(accounts: map<Id, Account>, pool: Pool)

  // ---------- the share price ----------

  /** Shares for tokens at the current price; one token is a thousand shares while the pool is empty. */
  function SharesFor(p: Pool, tokens: int): int {
    if p.fund == 0 || p.shares == 0 then tokens * 1000000 / 1000 else tokens * p.shares / p.fund
  }

  function TokensFor(p: Pool, shares: int): int {
    if p.fund == 0 || p.shares == 0 then shares * 1000 / 1000000 else shares * p.fund / p.shares
  }

  function Deposited(p: Pool, tokens: int): Pool {
    Pool(p.fund + tokens, p.shares + SharesFor(p, tokens))
  }

  function Withdrawn(p: Pool, shares: int): Pool {
    Pool(p.fund - TokensFor(p, shares), p.shares - shares)
  }

  /** Shares are never without tokens behind them. */
  predicate Backed(p: Pool) {
    0 <= p.fund && 0 <= p.shares && (0 < p.shares ==> 0 < p.fund)
  }

  /** A share is worth at least as many tokens in q as in p. */
  predicate NoCheaper(p: Pool, q: Pool) {
    p.fund * q.shares <= q.fund * p.shares
  }

  /** A deposit gets its price rounded down, so the shares already there lose nothing. */
  lemma DepositKeepsPrice(p: Pool, tokens: nat)
    requires Backed(p)
    ensures 0 <= SharesFor(p, tokens) && Backed(Deposited(p, tokens))
    ensures 0 < p.shares ==> NoCheaper(p, Deposited(p, tokens))
  {
    if 0 < p.shares {
      MulMonotone(0, tokens, p.shares);
      DivNonNegative(tokens * p.shares, p.fund);
      DivBounds(tokens * p.shares, p.fund);
      var s := SharesFor(p, tokens);
      assert p.fund * (p.shares + s) == p.fund * p.shares + s * p.fund;
      assert (p.fund + tokens) * p.shares == p.fund * p.shares + tokens * p.shares;
    } else {
      DivNonNegative(tokens * 1000000, 1000);
    }
  }

  /** A withdrawal is rounded down too; the last share takes the whole fund, and any other leaves some of it. */
  lemma WithdrawalKeepsPrice(p: Pool, shares: nat)
    requires Backed(p) && shares <= p.shares
    ensures 0 <= TokensFor(p, shares) <= p.fund && Backed(Withdrawn(p, shares)) && NoCheaper(p, Withdrawn(p, shares))
  {
    if 0 < p.shares {
      var t := TokensFor(p, shares);
      assert shares * p.fund == p.fund * shares;
      ShareBounds(p.fund, shares, p.shares);
      DivBounds(shares * p.fund, p.shares);
      assert p.fund * (p.shares - shares) == p.fund * p.shares - shares * p.fund;
      assert (p.fund - t) * p.shares == p.fund * p.shares - t * p.shares;
      if shares < p.shares && t == p.fund {
        MulStrict(shares, p.shares, p.fund);
        assert false;
      }
    }
  }

  /** What a deposit is given: its worth at the pool's price, with less than one share rounded off. */
  predicate FairDeposit(p: Pool, tokens: int, shares: int) {
    if p.fund == 0 || p.shares == 0 then shares == 1000 * tokens else IsFloor(shares, tokens * p.shares, p.fund)
  }

  /** What a withdrawal is paid, with less than one token rounded off. */
  predicate FairWithdrawal(p: Pool, shares: int, tokens: int) {
    if p.fund == 0 || p.shares == 0 then IsFloor(tokens, shares, 1000) else IsFloor(tokens, shares * p.fund, p.shares)
  }

  lemma PricesAreFair(p: Pool, x: int)
    requires Backed(p)
    ensures FairDeposit(p, x, SharesFor(p, x)) && FairWithdrawal(p, x, TokensFor(p, x))
  {
    if p.fund != 0 && p.shares != 0 {
      FloorIs(x * p.shares, p.fund);
      FloorIs(x * p.fund, p.shares);
    } else {
      FloorIs(x * 1000, 1000000);
    }
  }

  lemma NoCheaperTransitive(p: Pool, q: Pool, r: Pool)
    requires NoCheaper(p, q) && NoCheaper(q, r) && 0 <= r.shares && 0 <= p.shares && 0 <= q.shares && 0 <= r.fund
    requires q.shares == 0 ==> r.shares == 0
    ensures NoCheaper(p, r)
  {
    if q.shares == 0 {
      MulMonotone(0, r.fund, p.shares);
    } else {
      MulMonotone(p.fund * q.shares, q.fund * p.shares, r.shares);
      MulMonotone(q.fund * r.shares, r.fund * q.shares, p.shares);
      Regroup(p.fund, q.shares, r.shares);
      Regroup(q.fund, p.shares, r.shares);
      Regroup(r.fund, q.shares, p.shares);
      if r.fund * p.shares < p.fund * r.shares {
        MulStrict(r.fund * p.shares, p.fund * r.shares, q.shares);
      }
    }
  }

  lemma Regroup(x: int, y: int, z: int)
    ensures x * y * z == x * z * y
  {
  }

  // ---------- the power-down schedule ----------

  /** What is paid when r shares are outstanding: the rate, or everything if less than a rate would then be left. */
  function Due(r: int, rate: int): int {
    if r < 2 * rate then r else rate
  }

  function Payments(r: int, rate: int): seq<int>
    requires 0 < rate && (r == 0 || rate <= r)
    decreases r
  {
    if r == 0 then [] else [Due(r, rate)] + Payments(r - Due(r, rate), rate)
  }

  function Total(s: seq<int>): int {
    if s == [] then 0 else s[0] + Total(s[1..])
  }

  /**
   A power-down pays exactly what was asked for, in the rounded-down number of payments, the last taking the
   remainder.
   */
  lemma {:induction false} PaymentsAddUp(r: int, rate: int)
    requires 0 < rate <= r
    ensures var s := Payments(r, rate);
            && Total(s) == r && |s| == r / rate && 0 < |s|
            && (forall k :: 0 <= k < |s| - 1 ==> s[k] == rate) && rate <= s[|s| - 1] < 2 * rate
    decreases r
  {
    if r < 2 * rate {
      assert Payments(r - Due(r, rate), rate) == [];
      assert Payments(r, rate) == [r] && [r][1..] == [];
      DivAtLeast(r, rate, 1);
      DivAtLeast(r, rate, 2);
    } else {
      var rest := Payments(r - rate, rate);
      PaymentsAddUp(r - rate, rate);
      assert Payments(r, rate) == [rate] + rest && ([rate] + rest)[1..] == rest;
      OneMore(r - rate, rate);
    }
  }

  lemma OneMore(x: int, k: int)
    requires 0 < k
    ensures (x + k) / k == x / k + 1
  {
    var q := x / k;
    DivBounds(x, k);
    assert (q + 1) * k == q * k + k && (q + 2) * k == q * k + 2 * k;
    DivAtLeast(x + k, k, q + 1);
    DivAtLeast(x + k, k, q + 2);
  }

  function StartRate(amount: int): int {
    Max(amount / INTERVALS, 1)
  }

  /** From sixteen shares on, that is the four payments the interval count promises. */
  lemma FourPayments(amount: int)
    requires 16 <= amount
    ensures |Payments(amount, StartRate(amount))| == INTERVALS
  {
    var rate := StartRate(amount);
    PaymentsAddUp(amount, rate);
    DivAtLeast(amount, rate, 4);
    DivAtLeast(amount, rate, 5);
  }

  /** The payment as the code computes it. */
  function PaymentOf(a: Account): int
    requires 0 < a.rate
  {
    var p :=
      if a.toWithdraw - a.withdrawn < a.rate then Min(a.shares, a.toWithdraw % a.rate) else Min(a.shares, a.rate);
    if p < 0 then 0
    else
      var remainder := a.toWithdraw - (a.withdrawn + p);
      if 0 < remainder < a.rate then p + remainder else p
  }

  function Outstanding(a: Account): int {
    a.toWithdraw - a.withdrawn
  }

  /** No power-down, or one with at least a rate and at most the account's shares outstanding. */
  predicate OnSchedule(a: Account) {
    && 0 <= a.shares
    && (if a.rate == 0 then a.toWithdraw == 0 && a.withdrawn == 0
        else 0 < a.rate <= Outstanding(a) <= a.shares && 0 <= a.withdrawn)
  }

  /** The code's payment is the next one of the schedule. */
  lemma PaymentIsDue(a: Account)
    requires OnSchedule(a) && 0 < a.rate
    ensures PaymentOf(a) == Due(Outstanding(a), a.rate) && a.rate <= PaymentOf(a) <= Outstanding(a)
    ensures Outstanding(a) == PaymentOf(a) || a.rate <= Outstanding(a) - PaymentOf(a)
  {
  }

  // ---------- totals ----------

  ghost function ShareTerm(m: map<Id, Account>): Id -> int {
    (x: Id) => if x in m then m[x].shares else 0
  }

  ghost function BalanceTerm(m: map<Id, Account>): Id -> int {
    (x: Id) => if x in m then m[x].balance else 0
  }

  ghost function AllShares(m: map<Id, Account>): int {
    Sum(m.Keys, ShareTerm(m))
  }

  ghost function AllBalances(m: map<Id, Account>): int {
    Sum(m.Keys, BalanceTerm(m))
  }

  /** The liquid tokens and those in the fund. */
  ghost function Tokens(l: Ledger): int {
    AllBalances(l.accounts) + l.pool.fund
  }

  lemma UpdateTotals(m: map<Id, Account>, x: Id, a: Account)
    requires x in m
    ensures AllShares(m[x := a]) == AllShares(m) + a.shares - m[x].shares
    ensures AllBalances(m[x := a]) == AllBalances(m) + a.balance - m[x].balance
  {
    assert m[x := a].Keys == m.Keys;
    hide Sum;
    SumPoint(m.Keys, ShareTerm(m), ShareTerm(m[x := a]), x);
    SumPoint(m.Keys, BalanceTerm(m), BalanceTerm(m[x := a]), x);
  }

  predicate AllOnSchedule(m: map<Id, Account>) {
    forall x :: x in m ==> OnSchedule(m[x])
  }

  ghost predicate Inv(l: Ledger) {
    AllOnSchedule(l.accounts) && Backed(l.pool) && AllShares(l.accounts) == l.pool.shares
  }

  lemma SharesInTotal(m: map<Id, Account>, x: Id)
    requires AllOnSchedule(m) && x in m
    ensures 0 <= m[x].shares <= AllShares(m)
  {
    SumRemove(m.Keys, ShareTerm(m), x);
    SumNonNegative(m.Keys - {x}, ShareTerm(m));
  }

  // ---------- deposits ----------

  /** create_vesting. */
  function Created(l: Ledger, to: Id, tokens: int): Ledger
    requires to in l.accounts
  {
    var a := l.accounts[to];
    Ledger(l.accounts[to := a.(shares := a.shares + SharesFor(l.pool, tokens))], Deposited(l.pool, tokens))
  }

  lemma CreatedKeeps(l: Ledger, to: Id, tokens: nat)
    requires Inv(l) && to in l.accounts
    ensures Inv(Created(l, to, tokens)) && Tokens(Created(l, to, tokens)) == Tokens(l) + tokens
    ensures 0 < l.pool.shares ==> NoCheaper(l.pool, Created(l, to, tokens).pool)
  {
    hide SharesFor, NoCheaper, Backed, AllShares, AllBalances;
    DepositKeepsPrice(l.pool, tokens);
    var a := l.accounts[to];
    UpdateTotals(l.accounts, to, a.(shares := a.shares + SharesFor(l.pool, tokens)));
  }

  lemma DepositIsFair(l: Ledger, tokens: int)
    requires Inv(l)
    ensures FairDeposit(l.pool, tokens, SharesFor(l.pool, tokens))
  {
    PricesAreFair(l.pool, tokens);
    hide FairDeposit, SharesFor;
  }

  // ---------- routes ----------

  datatype Route = Route(to: Id, percent: nat, autoVest: bool)

  /** The percentages of the routes that are followed: the walk starts after account 0. */
  function Percents(rs: seq<Route>): nat {
    if rs == [] then 0 else Percents(rs[..|rs| - 1]) + rs[|rs| - 1].percent
  }

  function Part(payment: int, percent: nat): int {
    payment * percent / HUNDRED_PERCENT
  }

  predicate Reach(rs: seq<Route>, m: map<Id, Account>) {
    forall k :: 0 <= k < |rs| ==> rs[k].to in m
  }

  /** First pass: shares moved to other accounts as shares. */
  function AutoVested(l: Ledger, rs: seq<Route>, payment: int): (m: Ledger)
    requires Reach(rs, l.accounts)
    ensures m.accounts.Keys == l.accounts.Keys && m.pool == l.pool && Reach(rs, m.accounts)
  {
    if rs == [] then l
    else
      var r := rs[|rs| - 1];
      var m := AutoVested(l, rs[..|rs| - 1], payment);
      if r.autoVest then GiveShares(m, r.to, Part(payment, r.percent)) else m
  }

  /** Second pass: shares converted and paid to other accounts. */
  function PaidOut(l: Ledger, rs: seq<Route>, payment: int): (m: Ledger)
    requires Reach(rs, l.accounts)
    ensures m.accounts.Keys == l.accounts.Keys
  {
    if rs == [] then l
    else
      var r := rs[|rs| - 1];
      var m := PaidOut(l, rs[..|rs| - 1], payment);
      if r.autoVest then m else PayTokens(m, r.to, Part(payment, r.percent))
  }

  /** The shares the routes of one kind take. */
  function Routed(rs: seq<Route>, payment: int, autoVest: bool): int {
    if rs == [] then 0
    else
      var r := rs[|rs| - 1];
      Routed(rs[..|rs| - 1], payment, autoVest) + if r.autoVest == autoVest then Part(payment, r.percent) else 0
  }

  lemma PartIsPercentage(payment: int, percent: nat)
    ensures IsFloor(Part(payment, percent), payment * percent, HUNDRED_PERCENT)
  {
    FloorIs(payment * percent, HUNDRED_PERCENT);
  }

  /** The shares that the routes of one kind to account x take. */
  function RoutedTo(rs: seq<Route>, payment: int, autoVest: bool, x: Id): int {
    if rs == [] then 0
    else
      var r := rs[|rs| - 1];
      RoutedTo(rs[..|rs| - 1], payment, autoVest, x)
      + if r.autoVest == autoVest && r.to == x then Part(payment, r.percent) else 0
  }

  /** The tokens the second pass pays to account x, each part converted at the price of its moment. */
  function PaidTo(l: Ledger, rs: seq<Route>, payment: int, x: Id): int
    requires Reach(rs, l.accounts)
  {
    if rs == [] then 0
    else
      var r, before := rs[|rs| - 1], rs[..|rs| - 1];
      PaidTo(l, before, payment, x)
      + if !r.autoVest && r.to == x then TokensFor(PaidOut(l, before, payment).pool, Part(payment, r.percent)) else 0
  }

  /** The first pass credits shares to the accounts routed to, and nothing else. */
  lemma {:induction false} AutoVestedAt(l: Ledger, rs: seq<Route>, payment: int, x: Id)
    requires Reach(rs, l.accounts) && x in l.accounts
    ensures AutoVested(l, rs, payment).accounts[x]
            == l.accounts[x].(shares := l.accounts[x].shares + RoutedTo(rs, payment, true, x))
  {
    if rs != [] {
      AutoVestedAt(l, rs[..|rs| - 1], payment, x);
      hide Part;
    }
  }

  /** The second pass credits tokens to the accounts routed to, and nothing else. */
  lemma {:induction false} PaidOutAt(l: Ledger, rs: seq<Route>, payment: int, x: Id)
    requires Reach(rs, l.accounts) && x in l.accounts
    ensures PaidOut(l, rs, payment).accounts[x]
            == l.accounts[x].(balance := l.accounts[x].balance + PaidTo(l, rs, payment, x))
  {
    if rs != [] {
      PaidOutAt(l, rs[..|rs| - 1], payment, x);
      hide Part, TokensFor;
    }
  }

  lemma PartBounds(payment: nat, percent: nat)
    ensures 0 <= Part(payment, percent) && Part(payment, percent) * HUNDRED_PERCENT <= payment * percent
  {
    MulMonotone(0, percent, payment);
    DivNonNegative(payment * percent, HUNDRED_PERCENT);
    DivBounds(payment * percent, HUNDRED_PERCENT);
  }

  /** Routes that add up to at most 100% never take more than the payment. */
  lemma {:induction false} RoutedShares(rs: seq<Route>, payment: nat)
    ensures 0 <= Routed(rs, payment, true) && 0 <= Routed(rs, payment, false)
    ensures (Routed(rs, payment, true) + Routed(rs, payment, false)) * HUNDRED_PERCENT <= payment * Percents(rs)
  {
    if rs != [] {
      var n := |rs| - 1;
      RoutedShares(rs[..n], payment);
      PartBounds(payment, rs[n].percent);
      assert payment * (Percents(rs[..n]) + rs[n].percent) == payment * Percents(rs[..n]) + payment * rs[n].percent;
      hide Part;
    }
  }

  lemma RoutedWithinPayment(rs: seq<Route>, payment: nat)
    requires Percents(rs) <= HUNDRED_PERCENT
    ensures 0 <= Routed(rs, payment, true) && 0 <= Routed(rs, payment, false)
    ensures Routed(rs, payment, true) + Routed(rs, payment, false) <= payment
  {
    RoutedShares(rs, payment);
    MulMonotone(Percents(rs), HUNDRED_PERCENT, payment);
    var routed := Routed(rs, payment, true) + Routed(rs, payment, false);
    assert payment * Percents(rs) == Percents(rs) * payment;
    hide Routed, Percents;
    if payment < routed {
      MulStrict(payment, routed, HUNDRED_PERCENT);
    }
  }

  /** Nothing about an account changed but more shares or another balance. */
  predicate GrownAt(a: Account, b: Account) {
    b == a.(shares := b.shares, balance := b.balance) && a.shares <= b.shares
  }

  predicate Grown(m: map<Id, Account>, n: map<Id, Account>) {
    m.Keys == n.Keys && forall x :: x in m ==> GrownAt(m[x], n[x])
  }

  lemma GrownUpdate(m: map<Id, Account>, n: map<Id, Account>, x: Id, b: Account)
    requires Grown(m, n) && x in n && GrownAt(n[x], b)
    ensures Grown(m, n[x := b])
  {
  }

  lemma AutoVestedNext(l: Ledger, rs: seq<Route>, payment: nat)
    requires rs != [] && Reach(rs, l.accounts)
    ensures Reach(rs[..|rs| - 1], l.accounts)
    ensures var r, m := rs[|rs| - 1], AutoVested(l, rs[..|rs| - 1], payment);
            && r.to in m.accounts && 0 <= Part(payment, r.percent)
            && Routed(rs, payment, true)
               == Routed(rs[..|rs| - 1], payment, true) + (if r.autoVest then Part(payment, r.percent) else 0)
            && AutoVested(l, rs, payment)
               == if r.autoVest then GiveShares(m, r.to, Part(payment, r.percent)) else m
  {
    PartBounds(payment, rs[|rs| - 1].percent);
    hide Part;
  }

  /** On the way from l to m the routes have added dv shares to accounts and taken ds shares from the pool. */
  ghost predicate Passed(l: Ledger, m: Ledger, dv: int, ds: int) {
    && Grown(l.accounts, m.accounts) && AllShares(m.accounts) == AllShares(l.accounts) + dv && Tokens(m) == Tokens(l)
    && m.pool.shares == l.pool.shares - ds && Backed(m.pool) && NoCheaper(l.pool, m.pool)
  }

  function GiveShares(m: Ledger, to: Id, shares: int): Ledger
    requires to in m.accounts
  {
    m.(accounts := m.accounts[to := m.accounts[to].(shares := m.accounts[to].shares + shares)])
  }

  function PayTokens(m: Ledger, to: Id, shares: int): Ledger
    requires to in m.accounts
  {
    Ledger(
      m.accounts[to := m.accounts[to].(balance := m.accounts[to].balance + TokensFor(m.pool, shares))],
      Withdrawn(m.pool, shares))
  }

  lemma PassedStart(l: Ledger)
    requires Backed(l.pool)
    ensures Passed(l, l, 0, 0)
  {
  }

  lemma PassedShares(l: Ledger, m: Ledger, dv: int, ds: int, to: Id, shares: nat)
    requires Passed(l, m, dv, ds) && to in m.accounts
    ensures Passed(l, GiveShares(m, to, shares), dv + shares, ds)
  {
    hide AllShares, AllBalances, Grown, Backed, NoCheaper;
    var b := m.accounts[to].(shares := m.accounts[to].shares + shares);
    UpdateTotals(m.accounts, to, b);
    GrownUpdate(l.accounts, m.accounts, to, b);
  }

  lemma PassedTokens(l: Ledger, m: Ledger, dv: int, ds: int, to: Id, shares: nat)
    requires Backed(l.pool) && Passed(l, m, dv, ds) && to in m.accounts && shares <= m.pool.shares
    ensures Passed(l, PayTokens(m, to, shares), dv, ds + shares)
  {
    hide AllShares, AllBalances, Grown, Backed, NoCheaper, TokensFor;
    WithdrawalKeepsPrice(m.pool, shares);
    NoCheaperChain(l.pool, m.pool, Withdrawn(m.pool, shares));
    var b := m.accounts[to].(balance := m.accounts[to].balance + TokensFor(m.pool, shares));
    UpdateTotals(m.accounts, to, b);
    GrownUpdate(l.accounts, m.accounts, to, b);
  }

  /** The first pass only adds shares. */
  lemma {:induction false} AutoVestedFacts(l: Ledger, rs: seq<Route>, payment: nat)
    requires Reach(rs, l.accounts) && Backed(l.pool)
    ensures Passed(l, AutoVested(l, rs, payment), Routed(rs, payment, true), 0)
  {
    PassedStart(l);
    if rs != [] {
      hide AutoVested, Part, Routed, Reach, Passed, GiveShares;
      AutoVestedNext(l, rs, payment);
      var m, r := AutoVested(l, rs[..|rs| - 1], payment), rs[|rs| - 1];
      AutoVestedFacts(l, rs[..|rs| - 1], payment);
      PassedShares(l, m, Routed(rs[..|rs| - 1], payment, true), 0, r.to, Part(payment, r.percent));
    }
  }

  lemma PaidOutNext(l: Ledger, rs: seq<Route>, payment: nat)
    requires rs != [] && Reach(rs, l.accounts)
    ensures Reach(rs[..|rs| - 1], l.accounts)
    ensures var r, m := rs[|rs| - 1], PaidOut(l, rs[..|rs| - 1], payment);
            && r.to in m.accounts && var shares := Part(payment, r.percent);
            && 0 <= shares
            && Routed(rs, payment, false) == Routed(rs[..|rs| - 1], payment, false) + (if r.autoVest then 0 else shares)
            && PaidOut(l, rs, payment)
               == if r.autoVest then m else PayTokens(m, r.to, shares)
  {
    PartBounds(payment, rs[|rs| - 1].percent);
    hide Part, TokensFor, Withdrawn;
  }

  lemma NoCheaperChain(p: Pool, q: Pool, r: Pool)
    requires NoCheaper(p, q) && NoCheaper(q, r) && Backed(p) && Backed(q) && Backed(r) && r.shares <= q.shares
    ensures NoCheaper(p, r)
  {
    NoCheaperTransitive(p, q, r);
  }

  /** The second pass takes from the pool exactly what it pays, at a price that never falls. */
  lemma {:induction false} PaidOutFacts(l: Ledger, m: Ledger, rs: seq<Route>, payment: nat, dv: int)
    requires Reach(rs, m.accounts) && Backed(l.pool) && Passed(l, m, dv, 0)
            && Routed(rs, payment, false) <= l.pool.shares
    ensures Passed(l, PaidOut(m, rs, payment), dv, Routed(rs, payment, false))
  {
    if rs != [] {
      hide PaidOut, Part, Routed, Reach, PayTokens;
      PaidOutNext(m, rs, payment);
      var n, r := PaidOut(m, rs[..|rs| - 1], payment), rs[|rs| - 1];
      PaidOutFacts(l, m, rs[..|rs| - 1], payment, dv);
      if !r.autoVest {
        PassedLeaves(l, n, dv, Routed(rs[..|rs| - 1], payment, false));
        hide Passed;
        PassedTokens(l, n, dv, Routed(rs[..|rs| - 1], payment, false), r.to, Part(payment, r.percent));
      }
    }
  }

  lemma PassedLeaves(l: Ledger, m: Ledger, dv: int, ds: int)
    requires Passed(l, m, dv, ds)
    ensures m.pool.shares == l.pool.shares - ds
  {
  }

  // ---------- a withdrawal ----------

  /** The account after a payment; when nothing is left to withdraw the power-down ends. */
  function AfterPayment(a: Account, payment: int, tokens: int): Account {
    var b := a.(shares := a.shares - payment, balance := a.balance + tokens, withdrawn := a.withdrawn + payment);
    if b.toWithdraw <= b.withdrawn || b.shares == 0 then b.(rate := 0, withdrawn := 0, toWithdraw := 0) else b
  }

  /** The account's own part, after the routes; the code would take a negative part for none. */
  function Kept(rs: seq<Route>, payment: int): int {
    Max(payment - Routed(rs, payment, false) - Routed(rs, payment, true), 0)
  }

  function Finished(l: Ledger, id: Id, payment: int, kept: int): Ledger
    requires id in l.accounts
  {
    Ledger(l.accounts[id := AfterPayment(l.accounts[id], payment, TokensFor(l.pool, kept))], Withdrawn(l.pool, kept))
  }

  function Processed(l: Ledger, id: Id, rs: seq<Route>): Ledger
    requires id in l.accounts && 0 < l.accounts[id].rate && Reach(rs, l.accounts)
  {
    var payment := PaymentOf(l.accounts[id]);
    Finished(PaidOut(AutoVested(l, rs, payment), rs, payment), id, payment, Kept(rs, payment))
  }

  /** What a whole turn of account id gives account x. */
  lemma ProcessedAt(l: Ledger, id: Id, rs: seq<Route>, x: Id)
    requires id in l.accounts && 0 < l.accounts[id].rate && Reach(rs, l.accounts) && x in l.accounts
    ensures var payment := PaymentOf(l.accounts[id]);
            var v := AutoVested(l, rs, payment);
            var routed := l.accounts[x].(
                            shares := l.accounts[x].shares + RoutedTo(rs, payment, true, x),
                            balance := l.accounts[x].balance + PaidTo(v, rs, payment, x));
            && x in Processed(l, id, rs).accounts
            && Processed(l, id, rs).accounts[x]
               == if x != id then routed
                  else AfterPayment(routed, payment, TokensFor(PaidOut(v, rs, payment).pool, Kept(rs, payment)))
  {
    hide PaymentOf, AutoVested, PaidOut, PaidTo, RoutedTo, TokensFor, Kept, AfterPayment;
    var payment := PaymentOf(l.accounts[id]);
    var v := AutoVested(l, rs, payment);
    AutoVestedAt(l, rs, payment, x);
    PaidOutAt(v, rs, payment, x);
  }

  /** A payment keeps the schedule, even when routes gave the account shares back. */
  lemma StaysOnSchedule(a: Account, b: Account, tokens: int)
    requires OnSchedule(a) && 0 < a.rate && GrownAt(a, b)
    ensures var c := AfterPayment(b, PaymentOf(a), tokens);
            && OnSchedule(c) && c.balance == b.balance + tokens && c.shares == b.shares - PaymentOf(a)
            && Outstanding(c) == Outstanding(a) - PaymentOf(a)
            && (c.rate == if PaymentOf(a) == Outstanding(a) then 0 else a.rate)
  {
    PaymentIsDue(a);
    hide PaymentOf;
  }

  lemma FinishedOnSchedule(m: map<Id, Account>, n: map<Id, Account>, id: Id, tokens: int)
    requires AllOnSchedule(m) && Grown(m, n) && id in m && 0 < m[id].rate
    ensures AllOnSchedule(n[id := AfterPayment(n[id], PaymentOf(m[id]), tokens)])
    ensures GrownAt(m[id], n[id])
  {
    StaysOnSchedule(m[id], n[id], tokens);
    hide PaymentOf, AfterPayment;
  }

  /** From the state after the routes to the end. */
  lemma FinishedKeeps(l: Ledger, m: Ledger, id: Id, payment: int, kept: nat)
    requires AllOnSchedule(l.accounts) && Backed(l.pool) && id in l.accounts && 0 < l.accounts[id].rate
    requires payment == PaymentOf(l.accounts[id]) && Grown(l.accounts, m.accounts) && id in m.accounts
    requires Backed(m.pool) && NoCheaper(l.pool, m.pool) && kept <= m.pool.shares
    requires AllShares(m.accounts) - payment == m.pool.shares - kept
    ensures var f := Finished(m, id, payment, kept);
            Inv(f) && Tokens(f) == Tokens(m) && NoCheaper(l.pool, f.pool) && f.pool.shares == m.pool.shares - kept
  {
    assert OnSchedule(l.accounts[id]);
    hide PaymentOf, AllShares, AllBalances, NoCheaper, TokensFor, AllOnSchedule, AfterPayment, Grown, GrownAt, Backed,
      OnSchedule;
    WithdrawalKeepsPrice(m.pool, kept);
    NoCheaperChain(l.pool, m.pool, Withdrawn(m.pool, kept));
    var tokens := TokensFor(m.pool, kept);
    FinishedOnSchedule(l.accounts, m.accounts, id, tokens);
    StaysOnSchedule(l.accounts[id], m.accounts[id], tokens);
    UpdateTotals(m.accounts, id, AfterPayment(m.accounts[id], payment, tokens));
  }

  lemma PaymentFacts(l: Ledger, id: Id, rs: seq<Route>)
    requires Inv(l) && id in l.accounts && 0 < l.accounts[id].rate && Percents(rs) <= HUNDRED_PERCENT
    ensures var payment := PaymentOf(l.accounts[id]);
            && 0 < payment <= l.pool.shares == AllShares(l.accounts) && AllOnSchedule(l.accounts) && Backed(l.pool)
            && 0 <= Routed(rs, payment, true) && 0 <= Routed(rs, payment, false)
            && Routed(rs, payment, true) + Routed(rs, payment, false) <= payment
            && Kept(rs, payment) == payment - Routed(rs, payment, false) - Routed(rs, payment, true)
  {
    assert OnSchedule(l.accounts[id]);
    PaymentIsDue(l.accounts[id]);
    SharesInTotal(l.accounts, id);
    RoutedWithinPayment(rs, PaymentOf(l.accounts[id]));
    hide PaymentOf, Routed, AllShares, Percents;
  }

  /**
   A withdrawal keeps the shares of all accounts equal to the pool's, moves tokens without making or losing
   any, never makes a share cheaper, and never meets the negative part the code guards against.
   */
  lemma ProcessedKeeps(l: Ledger, id: Id, rs: seq<Route>)
    requires Inv(l) && id in l.accounts && 0 < l.accounts[id].rate
    requires Percents(rs) <= HUNDRED_PERCENT && Reach(rs, l.accounts)
    ensures var payment := PaymentOf(l.accounts[id]);
            && Inv(Processed(l, id, rs)) && Tokens(Processed(l, id, rs)) == Tokens(l)
            && NoCheaper(l.pool, Processed(l, id, rs).pool)
            && Processed(l, id, rs).pool.shares == l.pool.shares - payment + Routed(rs, payment, true)
            && 0 <= payment - Routed(rs, payment, false) - Routed(rs, payment, true)
  {
    hide Inv, PaymentOf, Routed, AllShares, AllBalances, NoCheaper, Percents, AutoVested, PaidOut, AllOnSchedule,
      Grown, Finished, Kept, Backed;
    PaymentFacts(l, id, rs);
    var payment := PaymentOf(l.accounts[id]);
    var v := AutoVested(l, rs, payment);
    AutoVestedFacts(l, rs, payment);
    PaidOutFacts(l, v, rs, payment, Routed(rs, payment, true));
    FinishedKeeps(l, PaidOut(v, rs, payment), id, payment, Kept(rs, payment));
  }

  // ---------- an uninterrupted power-down ----------

  /** One payment to a; before and during it the account may have gained shares in other ways. */
  ghost predicate PaysOnce(a: Account, c: Account) {
    0 < a.rate && exists b, tokens :: GrownAt(a, b) && c == AfterPayment(b, PaymentOf(a), tokens)
  }

  ghost predicate Run(states: seq<Account>) {
    1 < |states| ==> PaysOnce(states[0], states[1]) && Run(states[1..])
  }

  function PaidAmounts(states: seq<Account>): seq<int> {
    if |states| <= 1 then [] else [Outstanding(states[0]) - Outstanding(states[1])] + PaidAmounts(states[1..])
  }

  lemma PaysOnceIsDue(a: Account, c: Account)
    requires OnSchedule(a) && PaysOnce(a, c)
    ensures OnSchedule(c) && Outstanding(a) - Outstanding(c) == Due(Outstanding(a), a.rate)
    ensures c.rate == if Outstanding(c) == 0 then 0 else a.rate
  {
    var b, tokens :| GrownAt(a, b) && c == AfterPayment(b, PaymentOf(a), tokens);
    StaysOnSchedule(a, b, tokens);
    PaymentIsDue(a);
    hide PaymentOf, AfterPayment;
  }

  /** An account's turn is such a payment, whatever it gained since its state a and gains from its routes. */
  lemma TurnPaysOnce(l: Ledger, id: Id, rs: seq<Route>, a: Account)
    requires Inv(l) && id in l.accounts && 0 < l.accounts[id].rate
    requires Percents(rs) <= HUNDRED_PERCENT && Reach(rs, l.accounts)
    requires OnSchedule(a) && GrownAt(a, l.accounts[id])
    ensures PaysOnce(a, Processed(l, id, rs).accounts[id])
  {
    PaymentFacts(l, id, rs);
    var payment := PaymentOf(l.accounts[id]);
    PaymentIsDue(a);
    PaymentIsDue(l.accounts[id]);
    hide Inv, PaymentOf, Routed, AllShares, AllBalances, NoCheaper, Percents, AutoVested, PaidOut, AllOnSchedule,
      Kept, Backed, Due, AfterPayment;
    var v := AutoVested(l, rs, payment);
    AutoVestedFacts(l, rs, payment);
    PaidOutFacts(l, v, rs, payment, Routed(rs, payment, true));
    var m := PaidOut(v, rs, payment);
    assert GrownAt(l.accounts[id], m.accounts[id]);
    assert GrownAt(a, m.accounts[id]);
  }

  lemma TurnsPayOnce(l: Ledger, id: Id, rs: seq<Route>)
    requires Inv(l) && id in l.accounts && 0 < l.accounts[id].rate
    requires Percents(rs) <= HUNDRED_PERCENT && Reach(rs, l.accounts)
    ensures id in Processed(l, id, rs).accounts
    ensures forall a :: OnSchedule(a) && GrownAt(a, l.accounts[id]) ==> PaysOnce(a, Processed(l, id, rs).accounts[id])
  {
    hide *;
    ProcessedKeys(l, id, rs);
    forall a | OnSchedule(a) && GrownAt(a, l.accounts[id])
      ensures PaysOnce(a, Processed(l, id, rs).accounts[id])
    {
      TurnPaysOnce(l, id, rs, a);
    }
  }

  /** From start to end it makes the payments of the schedule: as many, as much, and in that order. */
  lemma {:induction false} PowerDownFollowsSchedule(states: seq<Account>)
    requires 0 < |states| && OnSchedule(states[0]) && 0 < states[0].rate
    requires Run(states) && states[|states| - 1].rate == 0
    ensures PaidAmounts(states) == Payments(Outstanding(states[0]), states[0].rate)
    decreases |states|
  {
    var a, c, rest := states[0], states[1], states[1..];
    PaysOnceIsDue(a, c);
    hide PaysOnce, Due;
    if c.rate == 0 {
      EndsHere(rest);
      assert Payments(0, a.rate) == [];
    } else {
      PowerDownFollowsSchedule(rest);
    }
  }

  lemma EndsHere(states: seq<Account>)
    requires 0 < |states| && states[0].rate == 0 && Run(states)
    ensures |states| == 1
  {
  }

  // ---------- setting routes ----------

  predicate InOrder(rs: seq<Route>) {
    forall i, j :: 0 <= i < j < |rs| ==> rs[i].to < rs[j].to
  }

  predicate HasRoute(rs: seq<Route>, to: Id) {
    exists k :: 0 <= k < |rs| && rs[k].to == to
  }

  /** The walk over an account's routes starts after account 0, so a route to that account is not followed. */
  function Followed(rs: seq<Route>): seq<Route> {
    if rs != [] && rs[0].to == 0 then rs[1..] else rs
  }

  /** The route put in its place, instead of one to the same account if there is one. */
  function Placed(rs: seq<Route>, r: Route): seq<Route> {
    if rs == [] || r.to < rs[0].to then [r] + rs
    else if rs[0].to == r.to then [r] + rs[1..]
    else [rs[0]] + Placed(rs[1..], r)
  }

  function Dropped(rs: seq<Route>, to: Id): seq<Route> {
    if rs == [] then [] else if rs[0].to == to then rs[1..] else [rs[0]] + Dropped(rs[1..], to)
  }

  lemma {:induction false} PlacedFacts(rs: seq<Route>, r: Route)
    requires InOrder(rs)
    ensures InOrder(Placed(rs, r))
    ensures forall q :: q in Placed(rs, r) <==> q == r || (q in rs && q.to != r.to)
    ensures |Placed(rs, r)| == if HasRoute(rs, r.to) then |rs| else |rs| + 1
  {
    if rs != [] && rs[0].to < r.to {
      PlacedFacts(rs[1..], r);
      assert rs == [rs[0]] + rs[1..];
      PlacedBehind(rs, r, Placed(rs[1..], r));
      HasRouteBehind(rs, r.to);
      hide HasRoute, InOrder;
    }
  }

  lemma HasRouteBehind(rs: seq<Route>, to: Id)
    requires rs != [] && rs[0].to != to
    ensures HasRoute(rs, to) <==> HasRoute(rs[1..], to)
  {
    if HasRoute(rs, to) {
      var k :| 0 <= k < |rs| && rs[k].to == to;
      assert rs[1..][k - 1] == rs[k];
    }
  }

  lemma PlacedBehind(rs: seq<Route>, r: Route, rest: seq<Route>)
    requires rs != [] && InOrder(rs) && rs[0].to < r.to && InOrder(rest)
    requires forall q :: q in rest ==> q == r || (q in rs[1..] && q.to != r.to)
    ensures InOrder([rs[0]] + rest)
  {
    forall k | 0 <= k < |rest|
      ensures rs[0].to < rest[k].to
    {
      assert rest[k] in rest;
    }
  }

  lemma {:induction false} DroppedMembers(rs: seq<Route>, to: Id)
    requires InOrder(rs)
    ensures forall q :: q in Dropped(rs, to) <==> q in rs && q.to != to
  {
    if rs != [] {
      assert rs == [rs[0]] + rs[1..];
      if rs[0].to != to {
        DroppedMembers(rs[1..], to);
      }
    }
  }

  lemma {:induction false} DroppedInOrder(rs: seq<Route>, to: Id)
    requires InOrder(rs)
    ensures InOrder(Dropped(rs, to))
  {
    if rs != [] && rs[0].to != to {
      DroppedInOrder(rs[1..], to);
      DroppedMembers(rs[1..], to);
      var rest := Dropped(rs[1..], to);
      forall k | 0 <= k < |rest|
        ensures rs[0].to < rest[k].to
      {
        assert rest[k] in rest;
      }
    }
  }

  /** Every route is followed exactly when none leads to account 0. */
  lemma FollowedAll(rs: seq<Route>)
    requires InOrder(rs)
    ensures Followed(rs) == rs <==> !HasRoute(rs, 0)
  {
    if rs != [] && rs[0].to == 0 {
      assert HasRoute(rs, 0);
    }
    if HasRoute(rs, 0) {
      var k :| 0 <= k < |rs| && rs[k].to == 0;
      assert k == 0 || rs[0].to < rs[k].to;
    }
  }

  lemma {:induction false} DroppedReach(rs: seq<Route>, r: Route, m: map<Id, Account>)
    requires Reach(rs, m)
    ensures Reach(Dropped(rs, r.to), m) && (r.to in m ==> Reach(Placed(rs, r), m)) && Reach(Followed(rs), m)
  {
    if rs != [] {
      DroppedReach(rs[1..], r, m);
    }
  }

  /** A changed list of routes within 100% leaves all routes in order and within reach. */
  lemma RoutesStayOk(routes: map<Id, seq<Route>>, m: map<Id, Account>, from: Id, r: Route)
    requires RoutesOk(routes, m) && r.to in m
    requires var rs := if from in routes then routes[from] else [];
             Percents(Followed(if r.percent == 0 then Dropped(rs, r.to) else Placed(rs, r))) <= HUNDRED_PERCENT
    ensures var rs := if from in routes then routes[from] else [];
            RoutesOk(routes[from := if r.percent == 0 then Dropped(rs, r.to) else Placed(rs, r)], m)
  {
    hide Percents, Followed, Dropped, Placed;
    var rs := if from in routes then routes[from] else [];
    PlacedFacts(rs, r);
    DroppedInOrder(rs, r.to);
    DroppedReach(rs, r, m);
  }

  const NEW_ACCOUNT := Account(0, 0, 0, 0, 0, 0)

  lemma NewAccountTotals(m: map<Id, Account>, id: Id)
    requires id !in m
    ensures AllShares(m[id := NEW_ACCOUNT]) == AllShares(m) && AllBalances(m[id := NEW_ACCOUNT]) == AllBalances(m)
  {
    var n := m[id := NEW_ACCOUNT];
    assert n.Keys == m.Keys + {id};
    hide Sum;
    SumInsert(m.Keys, ShareTerm(n), id);
    SumCongruence(m.Keys, ShareTerm(n), ShareTerm(m));
    SumInsert(m.Keys, BalanceTerm(n), id);
    SumCongruence(m.Keys, BalanceTerm(n), BalanceTerm(m));
  }

  lemma NewAccountOk(m: map<Id, Account>, routes: map<Id, seq<Route>>, id: Id)
    requires AllOnSchedule(m) && RoutesOk(routes, m) && id !in m
    ensures AllOnSchedule(m[id := NEW_ACCOUNT]) && RoutesOk(routes, m[id := NEW_ACCOUNT])
  {
    hide Percents, Followed, InOrder;
  }

  // ---------- the object ----------

  ghost predicate RoutesOk(routes: map<Id, seq<Route>>, m: map<Id, Account>) {
    forall x :: x in routes ==>
                  InOrder(routes[x]) && Reach(routes[x], m) && Percents(Followed(routes[x])) <= HUNDRED_PERCENT
  }

  class VestingLedger {
    var accounts: map<Id, Account>
    var pool: Pool
    var routes: map<Id, seq<Route>>

    ghost function Value(): Ledger
      reads this
    {
      Ledger(accounts, pool)
    }

    ghost predicate Valid()
      reads this
    {
      Inv(Value()) && RoutesOk(routes, accounts)
    }

    constructor ()
      ensures Valid() && accounts == map[] && pool == Pool(0, 0) && routes == map[]
    {
      accounts, pool, routes := map[], Pool(0, 0), map[];
    }

    /** A new account has nothing. */
    method CreateAccount(id: Id) returns (ok: bool)
      requires Valid()
      modifies this
      ensures Valid() && ok == (id !in old(accounts)) && pool == old(pool) && routes == old(routes)
      ensures accounts == if ok then old(accounts)[id := NEW_ACCOUNT] else old(accounts)
      ensures Tokens(Value()) == old(Tokens(Value()))
    {
      if id in accounts {
        return false;
      }
      NewAccountTotals(accounts, id);
      NewAccountOk(accounts, routes, id);
      hide RoutesOk, AllOnSchedule, AllShares, AllBalances;
      accounts := accounts[id := NEW_ACCOUNT];
      return true;
    }

    method CreateVesting(to: Id, tokens: nat) returns (shares: int)
      requires Valid() && to in accounts
      modifies this
      ensures Valid() && routes == old(routes) && Value() == Created(old(Value()), to, tokens)
      ensures Tokens(Value()) == old(Tokens(Value())) + tokens
      ensures 0 < old(pool).shares ==> NoCheaper(old(pool), pool)
      ensures shares == SharesFor(old(pool), tokens) && FairDeposit(old(pool), tokens, shares)
      ensures accounts == old(accounts)[to := old(accounts)[to].(shares := old(accounts)[to].shares + shares)]
      ensures pool == Pool(old(pool).fund + tokens, old(pool).shares + shares)
    {
      hide Inv, RoutesOk, Tokens, NoCheaper, SharesFor, FairDeposit;
      DepositIsFair(Value(), tokens);
      CreatedKeeps(Value(), to, tokens);
      SameReach(routes, accounts, Created(Value(), to, tokens).accounts);
      shares := SharesFor(pool, tokens);
      accounts := accounts[to := accounts[to].(shares := accounts[to].shares + shares)];
      pool := Pool(pool.fund + tokens, pool.shares + shares);
    }

    /** A deposit from a liquid balance moves tokens into the fund and makes none. */
    method TransferToVesting(from: Id, to: Id, tokens: nat) returns (ok: bool)
      requires Valid() && from in accounts && to in accounts
      modifies this
      ensures Valid() && routes == old(routes)
      ensures ok == (tokens <= old(accounts)[from].balance)
      ensures Tokens(Value()) == old(Tokens(Value()))
      ensures var a := old(accounts)[from];
              Value() == if ok
                then Created(Ledger(old(accounts)[from := a.(balance := a.balance - tokens)], old(pool)), to, tokens)
                         else old(Value())
      ensures 0 < old(pool).shares ==> NoCheaper(old(pool), pool)
    {
      hide RoutesOk, AllShares, AllBalances, Backed, Created;
      var a := accounts[from];
      if a.balance < tokens {
        return false;
      }
      var b := a.(balance := a.balance - tokens);
      UpdateTotals(accounts, from, b);
      SameReach(routes, accounts, accounts[from := b]);
      accounts := accounts[from := b];
      var _ := CreateVesting(to, tokens);
      return true;
    }

    /** Starts, changes or stops a power-down; allowed is whether the account may power down at all. */
    method WithdrawVesting(id: Id, amount: nat, allowed: bool) returns (ok: bool)
      requires Valid() && id in accounts
      modifies this
      ensures Valid() && routes == old(routes) && pool == old(pool)
      ensures var a := old(accounts)[id];
              var rate := if amount == 0 then 0 else StartRate(amount);
              && ok == (amount <= a.shares - a.delegated && 0 <= a.shares - a.delegated && (allowed || amount == 0)
                 && a.rate != rate)
              && accounts == if ok then old(accounts)[id := a.(rate := rate, toWithdraw := amount, withdrawn := 0)]
                             else old(accounts)
      ensures Tokens(Value()) == old(Tokens(Value()))
    {
      var a := accounts[id];
      var rate := if amount == 0 then 0 else StartRate(amount);
      if a.shares - a.delegated < 0 || a.shares - a.delegated < amount || (!allowed && amount != 0) || a.rate == rate {
        return false;
      }
      var b := a.(rate := rate, toWithdraw := amount, withdrawn := 0);
      UpdateTotals(accounts, id, b);
      SameReach(routes, accounts, accounts[id := b]);
      assert OnSchedule(a) && OnSchedule(b);
      hide RoutesOk, OnSchedule, AllShares, AllBalances, StartRate;
      accounts := accounts[id := b];
      return true;
    }

    /** Sets, changes or removes a route; refused if the routes would take more than everything. */
    method SetRoute(from: Id, r: Route) returns (ok: bool)
      requires Valid() && from in accounts && r.to in accounts
      modifies this
      ensures Valid() && accounts == old(accounts) && pool == old(pool)
      ensures var rs := if from in old(routes) then old(routes)[from] else [];
              var next := if r.percent == 0 then Dropped(rs, r.to) else Placed(rs, r);
              && ok == ((HasRoute(rs, r.to) || (r.percent != 0 && |rs| < MAX_ROUTES))
                 && Percents(Followed(next)) <= HUNDRED_PERCENT)
              && routes == if ok then old(routes)[from := next] else old(routes)
    {
      hide Inv, RoutesOk, Followed, Percents, HasRoute, Dropped, Placed;
      var rs := if from in routes then routes[from] else [];
      if !HasRoute(rs, r.to) && (r.percent == 0 || |rs| >= MAX_ROUTES) {
        return false;
      }
      var next := if r.percent == 0 then Dropped(rs, r.to) else Placed(rs, r);
      if Percents(Followed(next)) > HUNDRED_PERCENT {
        return false;
      }
      RoutesStayOk(routes, accounts, from, r);
      routes := routes[from := next];
      return true;
    }

    /** One account's turn in process_vesting_withdrawals. */
    method ProcessWithdrawal(id: Id)
      requires Valid() && id in accounts && 0 < accounts[id].rate
      modifies this
      ensures Valid() && routes == old(routes)
      ensures var rs := if id in routes then Followed(routes[id]) else [];
              Reach(rs, old(accounts)) && Value() == Processed(old(Value()), id, rs)
      ensures Tokens(Value()) == old(Tokens(Value())) && NoCheaper(old(pool), pool)
      ensures id in accounts
              && forall a :: OnSchedule(a) && GrownAt(a, old(accounts)[id]) ==> PaysOnce(a, accounts[id])
    {
      hide Inv, RoutesOk, Tokens, NoCheaper, Percents, Followed, PaymentOf, AutoVested, PaidOut, Routed, TokensFor,
        AfterPayment, Reach, OnSchedule, GrownAt, PaysOnce;
      ghost var l := Value();
      var rs := if id in routes then Followed(routes[id]) else [];
      RoutesFacts(routes, accounts, id);
      ProcessedKeeps(l, id, rs);
      ProcessedKeys(l, id, rs);
      TurnsPayOnce(l, id, rs);
      SameReach(routes, accounts, Processed(l, id, rs).accounts);
      var payment := PaymentOf(accounts[id]);
      var asVests := PassVests(rs, payment);
      var asTokens := PassTokens(rs, payment);
      var kept := Max(payment - asTokens - asVests, 0);
      var tokens := TokensFor(pool, kept);
      accounts := accounts[id := AfterPayment(accounts[id], payment, tokens)];
      pool := Pool(pool.fund - tokens, pool.shares - kept);
    }

    method PassVests(rs: seq<Route>, payment: nat) returns (deposited: int)
      requires Reach(rs, accounts)
      modifies this`accounts
      ensures Value() == AutoVested(old(Value()), rs, payment) && deposited == Routed(rs, payment, true)
    {
      deposited := 0;
      hide Part;
      for i := 0 to |rs|
        invariant Reach(rs[..i], old(accounts)) && Value() == AutoVested(old(Value()), rs[..i], payment)
        invariant deposited == Routed(rs[..i], payment, true)
      {
        assert rs[..i + 1][..i] == rs[..i];
        AutoVestedNext(old(Value()), rs[..i + 1], payment);
        hide AutoVested, Routed;
        var r := rs[i];
        if r.autoVest {
          var part := Part(payment, r.percent);
          deposited := deposited + part;
          accounts := accounts[r.to := accounts[r.to].(shares := accounts[r.to].shares + part)];
        }
      }
      assert rs[..|rs|] == rs;
    }

    method PassTokens(rs: seq<Route>, payment: nat) returns (deposited: int)
      requires Reach(rs, accounts)
      modifies this`accounts, this`pool
      ensures Value() == PaidOut(old(Value()), rs, payment) && deposited == Routed(rs, payment, false)
    {
      deposited := 0;
      hide Part, TokensFor;
      for i := 0 to |rs|
        invariant Reach(rs[..i], old(accounts)) && Value() == PaidOut(old(Value()), rs[..i], payment)
        invariant deposited == Routed(rs[..i], payment, false)
      {
        assert rs[..i + 1][..i] == rs[..i];
        PaidOutNext(old(Value()), rs[..i + 1], payment);
        hide PaidOut, Routed;
        var r := rs[i];
        if !r.autoVest {
          var part := Part(payment, r.percent);
          deposited := deposited + part;
          var tokens := TokensFor(pool, part);
          accounts := accounts[r.to := accounts[r.to].(balance := accounts[r.to].balance + tokens)];
          pool := Pool(pool.fund - tokens, pool.shares - part);
        }
      }
      assert rs[..|rs|] == rs;
    }
  }

  lemma SameReach(routes: map<Id, seq<Route>>, m: map<Id, Account>, n: map<Id, Account>)
    requires RoutesOk(routes, m) && m.Keys == n.Keys
    ensures RoutesOk(routes, n)
  {
  }

  lemma RoutesFacts(routes: map<Id, seq<Route>>, m: map<Id, Account>, id: Id)
    requires RoutesOk(routes, m)
    ensures var rs := if id in routes then Followed(routes[id]) else [];
            Reach(rs, m) && Percents(rs) <= HUNDRED_PERCENT
  {
  }

  lemma ProcessedKeys(l: Ledger, id: Id, rs: seq<Route>)
    requires Inv(l) && id in l.accounts && 0 < l.accounts[id].rate && Reach(rs, l.accounts)
    ensures Processed(l, id, rs).accounts.Keys == l.accounts.Keys && 0 < PaymentOf(l.accounts[id])
  {
    PaymentIsDue(l.accounts[id]);
    hide PaymentOf, AutoVested, PaidOut;
  }

  /** A route of everything to account 0 is accepted, and the payment goes to the account that powers down. */
  method RouteToFirstAccount() returns (ledger: VestingLedger, accepted: bool)
    ensures accepted && ledger.routes == map[1 := [Route(0, HUNDRED_PERCENT, false)]]
    ensures ledger.accounts.Keys == {0, 1} && ledger.accounts[0] == NEW_ACCOUNT && ledger.accounts[1].balance == 4
  {
    hide Inv, RoutesOk, Tokens, NoCheaper;
    ledger := new VestingLedger();
    var first := ledger.CreateAccount(0);
    var second := ledger.CreateAccount(1);
    var shares := ledger.CreateVesting(1, 16);
    var started := ledger.WithdrawVesting(1, 16000, true);
    assert started && ledger.accounts[1] == Account(16000, 0, 0, 4000, 16000, 0);
    var r := Route(0, HUNDRED_PERCENT, false);
    assert Placed([], r) == [r] && Followed([r]) == [] && Percents([]) == 0;
    accepted := ledger.SetRoute(1, r);
    ledger.ProcessWithdrawal(1);
  }
}

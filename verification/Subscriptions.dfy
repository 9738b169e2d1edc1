/**
 Paid subscriptions: a subscriber pays an author at intervals, from a prepaid amount first and then from its
 balance. Every token taken is with the author, prepaid, or given back, and the counters count.
 */
module Subscriptions {
  import opened Common
  import opened Arith
  import opened Sums

  type Id = nat
  type Symbol = nat

  datatype Asset = Asset(amount: int, symbol: Symbol)

  /** A subscription, by author and object id. */
  datatype Key = Key(author: Id, oid: nat)

  /** A subscriber of one. */
  datatype Member = Member(sub: Key, subscriber: Id)

  /** Tip balances are kept apart from main balances. */
  datatype Purse = Purse(account: Id, symbol: Symbol, tip: bool)

  datatype Subscription = Subscription(
    cost: Asset, tip: bool, allowPrepaid: bool, interval: nat, executions: nat, subscribers: int,
    activeSubscribers: int)

  datatype Subscriber = Subscriber(
    cost: Asset, tip: bool, interval: nat, executions: nat, executionsLeft: nat, prepaid: Asset, nextPayment: nat,
    active: bool)

  type Subscribers = map<Member, Subscriber>
  type Balances = map<Purse, int>

  // ---------- sums ----------

  function Balance(b: Balances, p: Purse): int {
    if p in b then b[p] else 0
  }

  ghost function BalanceTerm(b: Balances, symbol: Symbol, tip: bool): Purse -> int {
    (p: Purse) => if p in b && p.symbol == symbol && p.tip == tip then b[p] else 0
  }

  ghost function InPurses(b: Balances, symbol: Symbol, tip: bool): int {
    Sum(b.Keys, BalanceTerm(b, symbol, tip))
  }

  function HeldBy(r: Subscriber, symbol: Symbol, tip: bool): int {
    if r.prepaid.symbol == symbol && r.tip == tip then r.prepaid.amount else 0
  }

  ghost function HeldTerm(rs: Subscribers, symbol: Symbol, tip: bool): Member -> int {
    (m: Member) => if m in rs then HeldBy(rs[m], symbol, tip) else 0
  }

  ghost function Held(rs: Subscribers, symbol: Symbol, tip: bool): int {
    Sum(rs.Keys, HeldTerm(rs, symbol, tip))
  }

  ghost function MemberTerm(rs: Subscribers, sub: Key): Member -> int {
    (m: Member) => if m in rs && m.sub == sub then 1 else 0
  }

  ghost function ActiveTerm(rs: Subscribers, sub: Key): Member -> int {
    (m: Member) => if m in rs && m.sub == sub && rs[m].active then 1 else 0
  }

  ghost function Members(rs: Subscribers, sub: Key): int {
    Sum(rs.Keys, MemberTerm(rs, sub))
  }

  ghost function ActiveMembers(rs: Subscribers, sub: Key): int {
    Sum(rs.Keys, ActiveTerm(rs, sub))
  }

  /** All tokens of one kind: in purses and prepaid. */
  ghost function Tokens(b: Balances, rs: Subscribers, symbol: Symbol, tip: bool): int {
    InPurses(b, symbol, tip) + Held(rs, symbol, tip)
  }

  lemma BalancePut(b: Balances, p: Purse, x: int, symbol: Symbol, tip: bool)
    ensures InPurses(b[p := x], symbol, tip)
            == InPurses(b, symbol, tip) + if p.symbol == symbol && p.tip == tip then x - Balance(b, p) else 0
  {
    var c := b[p := x];
    hide Sum;
    if p in b {
      assert c.Keys == b.Keys;
      SumPoint(b.Keys, BalanceTerm(b, symbol, tip), BalanceTerm(c, symbol, tip), p);
    } else {
      assert c.Keys == b.Keys + {p};
      SumInsert(b.Keys, BalanceTerm(c, symbol, tip), p);
      SumCongruence(b.Keys, BalanceTerm(c, symbol, tip), BalanceTerm(b, symbol, tip));
    }
  }

  lemma HeldPut(rs: Subscribers, m: Member, r: Subscriber, symbol: Symbol, tip: bool)
    ensures Held(rs[m := r], symbol, tip)
            == Held(rs, symbol, tip) + HeldBy(r, symbol, tip) - if m in rs then HeldBy(rs[m], symbol, tip) else 0
  {
    var qs := rs[m := r];
    hide Sum, HeldBy;
    if m in rs {
      assert qs.Keys == rs.Keys;
      SumPoint(rs.Keys, HeldTerm(rs, symbol, tip), HeldTerm(qs, symbol, tip), m);
    } else {
      assert qs.Keys == rs.Keys + {m};
      SumInsert(rs.Keys, HeldTerm(qs, symbol, tip), m);
      SumCongruence(rs.Keys, HeldTerm(qs, symbol, tip), HeldTerm(rs, symbol, tip));
    }
  }

  lemma CountPut(rs: Subscribers, m: Member, r: Subscriber, sub: Key)
    ensures Members(rs[m := r], sub) == Members(rs, sub) + if m in rs || m.sub != sub then 0 else 1
    ensures ActiveMembers(rs[m := r], sub)
            == ActiveMembers(rs, sub)
               + if m.sub != sub then 0 else (if r.active then 1 else 0) - (if m in rs && rs[m].active then 1 else 0)
  {
    var qs := rs[m := r];
    hide Sum;
    if m in rs {
      assert qs.Keys == rs.Keys;
      SumCongruence(rs.Keys, MemberTerm(rs, sub), MemberTerm(qs, sub));
      SumPoint(rs.Keys, ActiveTerm(rs, sub), ActiveTerm(qs, sub), m);
    } else {
      assert qs.Keys == rs.Keys + {m};
      SumInsert(rs.Keys, MemberTerm(qs, sub), m);
      SumCongruence(rs.Keys, MemberTerm(qs, sub), MemberTerm(rs, sub));
      SumInsert(rs.Keys, ActiveTerm(qs, sub), m);
      SumCongruence(rs.Keys, ActiveTerm(qs, sub), ActiveTerm(rs, sub));
    }
  }

  /** Taking a subscriber out is putting it in, backwards. */
  lemma TakeOut(rs: Subscribers, m: Member, sub: Key, symbol: Symbol, tip: bool)
    requires m in rs
    ensures Held(rs - {m}, symbol, tip) == Held(rs, symbol, tip) - HeldBy(rs[m], symbol, tip)
    ensures Members(rs - {m}, sub) == Members(rs, sub) - if m.sub == sub then 1 else 0
    ensures ActiveMembers(rs - {m}, sub) == ActiveMembers(rs, sub) - if m.sub == sub && rs[m].active then 1 else 0
  {
    assert (rs - {m})[m := rs[m]] == rs;
    HeldPut(rs - {m}, m, rs[m], symbol, tip);
    CountPut(rs - {m}, m, rs[m], sub);
    hide Held, Members, ActiveMembers, HeldBy;
  }

  /** A member is counted, so taking one off a counter never goes below zero. */
  lemma MemberCounted(rs: Subscribers, m: Member)
    requires m in rs
    ensures 1 <= Members(rs, m.sub) && (if rs[m].active then 1 else 0) <= ActiveMembers(rs, m.sub)
  {
    SumRemove(rs.Keys, MemberTerm(rs, m.sub), m);
    SumNonNegative(rs.Keys - {m}, MemberTerm(rs, m.sub));
    SumRemove(rs.Keys, ActiveTerm(rs, m.sub), m);
    SumNonNegative(rs.Keys - {m}, ActiveTerm(rs, m.sub));
  }

  // ---------- the invariant ----------

  predicate SubscriptionOk(p: Subscription) {
    && 0 < p.cost.amount && (p.allowPrepaid ==> 0 < p.executions) && (0 < p.executions ==> 0 < p.interval)
  }

  /** Prepaid tokens are of the cost's symbol, and there are none where they could not be spent. */
  predicate SubscriberOk(r: Subscriber, p: Subscription) {
    && 0 < r.cost.amount && r.prepaid.symbol == r.cost.symbol && 0 <= r.prepaid.amount
    && (!p.allowPrepaid || r.executionsLeft == 0 ==> r.prepaid.amount == 0)
    && (!p.allowPrepaid ==> r.cost == p.cost && r.tip == p.tip)
    && r.executionsLeft <= r.executions && (r.executions == 0 <==> p.executions == 0)
       && (0 < r.executions ==> 0 < r.interval)
    && (0 < r.nextPayment <==> r.active && 0 < r.executions)
  }

  predicate AllOk(subs: map<Key, Subscription>, rs: Subscribers) {
    && (forall k :: k in subs ==> SubscriptionOk(subs[k]))
    && (forall m :: m in rs ==> m.sub in subs && SubscriberOk(rs[m], subs[m.sub]))
  }

  ghost predicate CountsAt(subs: map<Key, Subscription>, rs: Subscribers, k: Key)
    requires k in subs
  {
    subs[k].subscribers == Members(rs, k) && subs[k].activeSubscribers == ActiveMembers(rs, k)
  }

  ghost predicate Inv(subs: map<Key, Subscription>, rs: Subscribers) {
    AllOk(subs, rs) && forall k :: k in subs ==> CountsAt(subs, rs, k)
  }

  /** A subscription with its counters moved. */
  function Recounted(p: Subscription, dm: int, da: int): Subscription {
    p.(subscribers := p.subscribers + dm, activeSubscribers := p.activeSubscribers + da)
  }

  function WasActive(rs: Subscribers, m: Member): int {
    if m in rs && rs[m].active then 1 else 0
  }

  lemma RecountedOk(subs: map<Key, Subscription>, rs: Subscribers, k: Key, dm: int, da: int)
    requires AllOk(subs, rs) && k in subs
    ensures AllOk(subs[k := Recounted(subs[k], dm, da)], rs)
  {
  }

  lemma PutOk(subs: map<Key, Subscription>, rs: Subscribers, m: Member, r: Subscriber)
    requires AllOk(subs, rs) && m.sub in subs && SubscriberOk(r, subs[m.sub])
    ensures AllOk(subs, rs[m := r])
  {
    hide SubscriberOk, SubscriptionOk;
  }

  lemma PutCounts(subs: map<Key, Subscription>, rs: Subscribers, m: Member, r: Subscriber, k: Key)
    requires m.sub in subs && k in subs && CountsAt(subs, rs, k)
    ensures CountsAt(subs[m.sub := Recounted(subs[m.sub], Ind(m !in rs), Ind(r.active) - WasActive(rs, m))],
            rs[m := r], k)
  {
    CountPut(rs, m, r, k);
    hide Members, ActiveMembers;
  }

  lemma RecountedSubscriberOk(r: Subscriber, p: Subscription, dm: int, da: int)
    ensures SubscriberOk(r, Recounted(p, dm, da)) == SubscriberOk(r, p)
  {
  }

  /** A subscriber put in and its subscription's counters moved with it. */
  lemma PutKeeps(subs: map<Key, Subscription>, rs: Subscribers, m: Member, r: Subscriber)
    requires Inv(subs, rs) && m.sub in subs && SubscriberOk(r, subs[m.sub])
    ensures Inv(subs[m.sub := Recounted(subs[m.sub], Ind(m !in rs), Ind(r.active) - WasActive(rs, m))], rs[m := r])
  {
    hide AllOk, SubscriberOk, CountsAt, Recounted, WasActive;
    RecountedSubscriberOk(r, subs[m.sub], Ind(m !in rs), Ind(r.active) - WasActive(rs, m));
    RecountedOk(subs, rs, m.sub, Ind(m !in rs), Ind(r.active) - WasActive(rs, m));
    var ts := subs[m.sub := Recounted(subs[m.sub], Ind(m !in rs), Ind(r.active) - WasActive(rs, m))];
    PutOk(ts, rs, m, r);
    forall k | k in ts
      ensures CountsAt(ts, rs[m := r], k)
    {
      PutCounts(subs, rs, m, r, k);
    }
  }

  lemma TakeOutOk(subs: map<Key, Subscription>, rs: Subscribers, m: Member)
    requires AllOk(subs, rs)
    ensures AllOk(subs, rs - {m})
  {
    hide SubscriberOk, SubscriptionOk;
  }

  lemma TakeOutCounts(subs: map<Key, Subscription>, rs: Subscribers, m: Member, k: Key)
    requires m in rs && m.sub in subs && k in subs && CountsAt(subs, rs, k)
    ensures CountsAt(subs[m.sub := Recounted(subs[m.sub], -1, -WasActive(rs, m))], rs - {m}, k)
  {
    TakeOut(rs, m, k, 0, false);
    hide Members, ActiveMembers;
  }

  lemma MemberIn(subs: map<Key, Subscription>, rs: Subscribers, m: Member)
    requires Inv(subs, rs) && m in rs
    ensures m.sub in subs && SubscriptionOk(subs[m.sub]) && SubscriberOk(rs[m], subs[m.sub])
            && CountsAt(subs, rs, m.sub)
    ensures 1 <= subs[m.sub].subscribers && WasActive(rs, m) <= subs[m.sub].activeSubscribers
  {
    assert m.sub in subs && CountsAt(subs, rs, m.sub);
    MemberCounted(rs, m);
    hide Members, ActiveMembers, SubscriberOk, SubscriptionOk;
  }

  lemma TakeOutKeeps(subs: map<Key, Subscription>, rs: Subscribers, m: Member)
    requires Inv(subs, rs) && m in rs && m.sub in subs
    ensures Inv(subs[m.sub := Recounted(subs[m.sub], -1, -WasActive(rs, m))], rs - {m})
  {
    hide AllOk, CountsAt, Recounted, WasActive;
    RecountedOk(subs, rs, m.sub, -1, -WasActive(rs, m));
    var ts := subs[m.sub := Recounted(subs[m.sub], -1, -WasActive(rs, m))];
    TakeOutOk(ts, rs, m);
    forall k | k in ts
      ensures CountsAt(ts, rs - {m}, k)
    {
      TakeOutCounts(subs, rs, m, k);
    }
  }

  // ---------- moving tokens ----------

  /** claim_for_subscription with a negative amount, pay_for_subscription with a positive one. */
  function Moved(b: Balances, p: Purse, d: int): Balances {
    b[p := Balance(b, p) + d]
  }

  lemma MovedTokens(b: Balances, p: Purse, d: int, symbol: Symbol, tip: bool)
    ensures InPurses(Moved(b, p, d), symbol, tip)
            == InPurses(b, symbol, tip) + if p.symbol == symbol && p.tip == tip then d else 0
  {
    BalancePut(b, p, Balance(b, p) + d, symbol, tip);
    hide InPurses;
  }

  // ---------- a transfer ----------

  function PayNow(p: Subscription, amount: int): int {
    if p.executions == 0 then amount else p.cost.amount
  }

  function FirstTime(p: Subscription, amount: int, now: nat): Subscriber {
    Subscriber(p.cost, p.tip, p.interval, p.executions, p.executions, Asset(amount - PayNow(p, amount), p.cost.symbol),
               if 0 < p.executions then now + p.interval else 0, true)
  }

  function Reactivated(r: Subscriber, p: Subscription, now: nat): Subscriber {
    if r.active then r
    else r.(active := true, interval := p.interval, executions := p.executions,
            nextPayment := if 0 < p.executions then now + p.interval else r.nextPayment)
  }

  function Renewed(r: Subscriber, p: Subscription, amount: int, now: nat): Subscriber {
    var a := Reactivated(r, p, now);
    var b := if p.allowPrepaid then
               a.(cost := p.cost, tip := p.tip, interval := p.interval, executions := p.executions,
                  prepaid := Asset((if r.prepaid.symbol == p.cost.symbol then r.prepaid.amount else 0) + amount,
                    p.cost.symbol))
             else a;
    b.(executionsLeft := b.executions)
  }

  /** What the evaluator accepts from a subscriber that is new (None) or known. */
  predicate Accepts(p: Subscription, known: Option<Subscriber>, amount: Asset, fromTip: bool, balance: int) {
    && p.tip == fromTip && amount.amount <= balance && amount.symbol == p.cost.symbol && p.cost.amount <= amount.amount
    && (p.executions != 0 && !p.allowPrepaid ==> amount == p.cost)
    && (known.Some? && known.value.active ==> p.executions != 0 && p.allowPrepaid)
  }

  lemma FirstTimeOk(p: Subscription, amount: Asset, now: nat)
    requires SubscriptionOk(p) && Accepts(p, None, amount, p.tip, amount.amount)
    ensures SubscriberOk(FirstTime(p, amount.amount, now), p)
  {
  }

  lemma RenewedOk(r: Subscriber, p: Subscription, amount: Asset, now: nat)
    requires SubscriptionOk(p) && SubscriberOk(r, p) && Accepts(p, Some(r), amount, p.tip, amount.amount)
    ensures SubscriberOk(Renewed(r, p, amount.amount, now), p) && Renewed(r, p, amount.amount, now).active
  {
  }

  /**
   The purses after a transfer: the payer's, the author's, and the payer's again if prepaid tokens of an old
   symbol go back.
   */
  function Paid(b: Balances, k: Key, from: Id, p: Subscription, known: Option<Subscriber>, amount: int): Balances {
    var claimed := Moved(b, Purse(from, p.cost.symbol, p.tip), -amount);
    var author := Purse(k.author, p.cost.symbol, p.tip);
    if known.None? then Moved(claimed, author, PayNow(p, amount))
    else
      var r := known.value;
      var paid := if p.allowPrepaid then claimed else Moved(claimed, author, amount);
      if 0 < r.prepaid.amount && r.prepaid.symbol != p.cost.symbol
      then Moved(paid, Purse(from, r.prepaid.symbol, r.tip), r.prepaid.amount) else paid
  }

  /** What a transfer costs the payer's purse, gives the author's, and gives back to the purse of an old prepayment. */
  lemma PaidAt(
    b: Balances, k: Key, from: Id, p: Subscription, known: Option<Subscriber>, amount: int, x: Purse)
    ensures Balance(Paid(b, k, from, p, known, amount), x)
            == Balance(b, x)
               - (if x == Purse(from, p.cost.symbol, p.tip) then amount else 0)
               + (if x != Purse(k.author, p.cost.symbol, p.tip) then 0
                  else if known.None? then (if p.executions == 0 then amount else p.cost.amount)
                  else if p.allowPrepaid then 0 else amount)
               + (if known.Some? && 0 < known.value.prepaid.amount && known.value.prepaid.symbol != p.cost.symbol
                     && x == Purse(from, known.value.prepaid.symbol, known.value.tip)
                  then known.value.prepaid.amount else 0)
  {
  }

  /** No purse is overdrawn by an accepted transfer. */
  lemma TransferNeverOverdraws(
    b: Balances, k: Key, from: Id, p: Subscription, known: Option<Subscriber>, amount: Asset, x: Purse)
    requires 0 <= Balance(b, x) && 0 <= p.cost.amount
    requires Accepts(p, known, amount, p.tip, Balance(b, Purse(from, p.cost.symbol, p.tip)))
    ensures 0 <= Balance(Paid(b, k, from, p, known, amount.amount), x)
  {
    PaidAt(b, k, from, p, known, amount.amount, x);
    hide Paid;
  }

  /** The record of a subscriber after a transfer: on the subscription's terms, with all executions ahead. */
  lemma TransferRecord(p: Subscription, known: Option<Subscriber>, amount: int, now: nat)
    ensures var r := if known.Some? then Renewed(known.value, p, amount, now) else FirstTime(p, amount, now);
            && r.active && r.executionsLeft == r.executions
            && (known.None? || p.allowPrepaid ==>
                  r.cost == p.cost && r.tip == p.tip && r.interval == p.interval && r.executions == p.executions
                  && r.prepaid.symbol == p.cost.symbol)
            && (known.Some? && known.value.active ==> r.nextPayment == known.value.nextPayment)
            && (known.None? || !known.value.active ==>
                  && r.interval == p.interval && r.executions == p.executions
                  && (0 < p.executions ==> r.nextPayment == now + p.interval))
            && (known.None? ==> r.prepaid.amount == if p.executions == 0 then 0 else amount - p.cost.amount)
            && (known.Some? && p.allowPrepaid ==>
                  r.prepaid.amount
                  == amount + if known.value.prepaid.symbol == p.cost.symbol then known.value.prepaid.amount else 0)
            && (known.Some? && !p.allowPrepaid ==>
                  r.prepaid == known.value.prepaid && r.cost == known.value.cost && r.tip == known.value.tip)
  {
  }

  /**
   Tokens prepaid from one kind of balance that a transfer turns into the other kind: the author changed the
   kind, the symbol stayed, and something was prepaid.
   */
  function Shift(known: Option<Subscriber>, p: Subscription, symbol: Symbol, tip: bool): int {
    if known.None? || !p.allowPrepaid || known.value.tip == p.tip || symbol != p.cost.symbol
       || known.value.prepaid.symbol != p.cost.symbol then 0
    else if tip == p.tip then known.value.prepaid.amount
    else -known.value.prepaid.amount
  }

  /** So a kind is conserved exactly when nothing is turned, and a symbol always. */
  lemma ShiftCancels(known: Option<Subscriber>, p: Subscription, symbol: Symbol)
    ensures Shift(known, p, symbol, true) + Shift(known, p, symbol, false) == 0
    ensures forall tip :: Shift(known, p, symbol, tip) == 0
                          <==> !(known.Some? && p.allowPrepaid && known.value.tip != p.tip && symbol == p.cost.symbol
                                 && known.value.prepaid.symbol == symbol && known.value.prepaid.amount != 0)
  {
  }

  lemma FirstTokens(
    b: Balances, rs: Subscribers, m: Member, p: Subscription, amount: int, now: nat, symbol: Symbol, tip: bool)
    requires m !in rs
    ensures Tokens(Paid(b, m.sub, m.subscriber, p, None, amount), rs[m := FirstTime(p, amount, now)], symbol, tip)
            == Tokens(b, rs, symbol, tip)
  {
    var claimed := Moved(b, Purse(m.subscriber, p.cost.symbol, p.tip), -amount);
    MovedTokens(b, Purse(m.subscriber, p.cost.symbol, p.tip), -amount, symbol, tip);
    MovedTokens(claimed, Purse(m.sub.author, p.cost.symbol, p.tip), PayNow(p, amount), symbol, tip);
    HeldPut(rs, m, FirstTime(p, amount, now), symbol, tip);
    hide InPurses, Held, Moved;
  }

  lemma RenewedTokens(
    b: Balances, rs: Subscribers, m: Member, p: Subscription, amount: int, now: nat, symbol: Symbol, tip: bool)
    requires m in rs && SubscriberOk(rs[m], p)
    ensures Tokens(Paid(b, m.sub, m.subscriber, p, Some(rs[m]), amount), rs[m := Renewed(rs[m], p, amount, now)],
            symbol, tip)
            == Tokens(b, rs, symbol, tip) + Shift(Some(rs[m]), p, symbol, tip)
  {
    hide InPurses, Held, Moved;
    var r := rs[m];
    var claimed := Moved(b, Purse(m.subscriber, p.cost.symbol, p.tip), -amount);
    var paid := if p.allowPrepaid then claimed else Moved(claimed, Purse(m.sub.author, p.cost.symbol, p.tip), amount);
    MovedTokens(b, Purse(m.subscriber, p.cost.symbol, p.tip), -amount, symbol, tip);
    MovedTokens(claimed, Purse(m.sub.author, p.cost.symbol, p.tip), amount, symbol, tip);
    MovedTokens(paid, Purse(m.subscriber, r.prepaid.symbol, r.tip), r.prepaid.amount, symbol, tip);
    HeldPut(rs, m, Renewed(r, p, amount, now), symbol, tip);
  }

  // ---------- a regular payment ----------

  function Used(r: Subscriber): int {
    Min(r.cost.amount, r.prepaid.amount)
  }

  /** The last payment takes what is left of the prepaid tokens too. */
  function Rest(r: Subscriber): int {
    if r.executionsLeft == 1 && r.prepaid.amount > Used(r) then r.prepaid.amount - Used(r) else 0
  }

  function Ended(r: Subscriber): Subscriber {
    r.(active := false, nextPayment := 0)
  }

  function Charged(r: Subscriber): Subscriber
    requires 0 < r.executionsLeft
  {
    r.(prepaid := r.prepaid.(amount := r.prepaid.amount - (Used(r) + Rest(r))), executionsLeft := r.executionsLeft - 1,
       nextPayment := r.nextPayment + r.interval)
  }

  lemma ChargedOk(r: Subscriber, p: Subscription)
    requires SubscriberOk(r, p) && 0 < r.nextPayment
    ensures r.active && r.prepaid.symbol == r.cost.symbol
    ensures SubscriberOk(Ended(r), p) && !Ended(r).active && Turns(Ended(r)) < Turns(r)
    ensures 0 < r.executionsLeft ==> SubscriberOk(Charged(r), p) && Charged(r).active && Turns(Charged(r)) < Turns(r)
  {
  }

  function ChargedPurses(b: Balances, m: Member, r: Subscriber): Balances {
    var claim := r.cost.amount - Used(r);
    var claimed := if 0 < claim then Moved(b, Purse(m.subscriber, r.cost.symbol, r.tip), -claim) else b;
    Moved(claimed, Purse(m.sub.author, r.cost.symbol, r.tip), Used(r) + claim + Rest(r))
  }

  /** What a payment costs the subscriber's purse and gives the author's, and no other purse. */
  lemma ChargedAt(b: Balances, m: Member, r: Subscriber, p: Purse)
    requires 0 <= r.prepaid.amount
    ensures var used := Min(r.cost.amount, r.prepaid.amount);
            Balance(ChargedPurses(b, m, r), p)
            == Balance(b, p)
               - (if p == Purse(m.subscriber, r.cost.symbol, r.tip) then r.cost.amount - used else 0)
               + (if p == Purse(m.sub.author, r.cost.symbol, r.tip)
                  then r.cost.amount + (if r.executionsLeft == 1 then r.prepaid.amount - used else 0) else 0)
  {
  }

  /** A turn pays exactly when something is left to execute and the purse has what the prepaid tokens lack. */
  lemma TurnPaysExactly(s: Books, m: Member)
    requires m in s.subscribers && m.sub in s.subs
    ensures var r := s.subscribers[m];
            var lacks := r.cost.amount - Min(r.cost.amount, r.prepaid.amount);
            var purse := Purse(m.subscriber, r.cost.symbol, r.tip);
            var q := Turned(s, m);
            && m in q.subscribers
            && if 0 < r.executionsLeft && lacks <= Max(Balance(s.balances, purse), 0) then
                 && q.subs == s.subs && q.balances == ChargedPurses(s.balances, m, r)
                 && q.subscribers[m].executionsLeft == r.executionsLeft - 1 && q.subscribers[m].active == r.active
               else
                 && q.balances == s.balances && !q.subscribers[m].active && q.subscribers[m].nextPayment == 0
                 && q.subscribers[m].executionsLeft == r.executionsLeft
  {
    hide ChargedPurses, Recounted;
  }

  /** And no purse is overdrawn by it. */
  lemma TurnNeverOverdraws(s: Books, m: Member, p: Purse)
    requires m in s.subscribers && m.sub in s.subs && 0 <= Balance(s.balances, p)
    requires 0 <= s.subscribers[m].cost.amount && 0 <= s.subscribers[m].prepaid.amount
    ensures 0 <= Balance(Turned(s, m).balances, p)
  {
    if CanPay(s.subscribers[m], m, s.balances) {
      ChargedAt(s.balances, m, s.subscribers[m], p);
      hide ChargedPurses;
    }
  }

  /** And what it leaves of the record: one execution fewer, the next one interval later. */
  lemma ChargedRecord(r: Subscriber)
    requires 0 < r.executionsLeft && 0 <= r.prepaid.amount
    ensures var c := Charged(r);
            && c.executionsLeft == r.executionsLeft - 1 && c.nextPayment == r.nextPayment + r.interval
            && c.cost == r.cost && c.tip == r.tip && c.interval == r.interval && c.executions == r.executions
            && c.active == r.active && c.prepaid.symbol == r.prepaid.symbol
            && c.prepaid.amount
               == if r.executionsLeft == 1 then 0 else Max(r.prepaid.amount - r.cost.amount, 0)
  {
  }

  lemma UsedBounds(r: Subscriber)
    ensures Used(r) <= r.cost.amount
  {
  }

  lemma ChargedTokens(b: Balances, rs: Subscribers, m: Member, symbol: Symbol, tip: bool)
    requires m in rs && 0 < rs[m].executionsLeft && rs[m].prepaid.symbol == rs[m].cost.symbol
    ensures Tokens(ChargedPurses(b, m, rs[m]), rs[m := Charged(rs[m])], symbol, tip) == Tokens(b, rs, symbol, tip)
  {
    hide InPurses, Held, Moved, Used, Rest;
    var r := rs[m];
    var claim := r.cost.amount - Used(r);
    var claimed := if 0 < claim then Moved(b, Purse(m.subscriber, r.cost.symbol, r.tip), -claim) else b;
    UsedBounds(r);
    MovedTokens(b, Purse(m.subscriber, r.cost.symbol, r.tip), -claim, symbol, tip);
    MovedTokens(claimed, Purse(m.sub.author, r.cost.symbol, r.tip), Used(r) + claim + Rest(r), symbol, tip);
    HeldPut(rs, m, Charged(r), symbol, tip);
  }

  lemma EndedTokens(b: Balances, rs: Subscribers, m: Member, symbol: Symbol, tip: bool)
    requires m in rs
    ensures Tokens(b, rs[m := Ended(rs[m])], symbol, tip) == Tokens(b, rs, symbol, tip)
  {
    HeldPut(rs, m, Ended(rs[m]), symbol, tip);
    hide Held;
  }

  /** How many more times a subscriber can come up: once for each execution left and once to end. */
  function Turns(r: Subscriber): nat {
    if r.nextPayment == 0 then 0 else r.executionsLeft + 1
  }

  ghost function TurnTerm(rs: Subscribers): Member -> int {
    (m: Member) => if m in rs then Turns(rs[m]) else 0
  }

  ghost function AllTurns(rs: Subscribers): int {
    Sum(rs.Keys, TurnTerm(rs))
  }

  lemma FewerTurns(rs: Subscribers, m: Member, r: Subscriber)
    requires m in rs && Turns(r) < Turns(rs[m])
    ensures 0 <= AllTurns(rs[m := r]) < AllTurns(rs)
  {
    assert rs[m := r].Keys == rs.Keys;
    SumPoint(rs.Keys, TurnTerm(rs), TurnTerm(rs[m := r]), m);
    SumNonNegative(rs[m := r].Keys, TurnTerm(rs[m := r]));
    hide Sum;
  }

  // ---------- the index of next payments ----------

  datatype Books = Books(subs: map<Key, Subscription>, subscribers: Subscribers, balances: Balances)

  function CanPay(r: Subscriber, m: Member, b: Balances): bool {
    && 0 < r.executionsLeft
    && r.cost.amount - Used(r) <= Max(Balance(b, Purse(m.subscriber, r.cost.symbol, r.tip)), 0)
  }

  /** One turn of subscriber m: it pays, or it ends. */
  function Turned(s: Books, m: Member): Books {
    if m !in s.subscribers || m.sub !in s.subs then s
    else
      var r := s.subscribers[m];
      if CanPay(r, m, s.balances) then
        Books(s.subs, s.subscribers[m := Charged(r)], ChargedPurses(s.balances, m, r))
      else
        Books(s.subs[m.sub := Recounted(s.subs[m.sub], 0, -1)], s.subscribers[m := Ended(r)], s.balances)
  }

  function NextPayment(rs: Subscribers, m: Member): nat {
    if m in rs then rs[m].nextPayment else 0
  }

  /** The index by next payment: everyone with a payment ahead, once, ordered; equal times in any order. */
  ghost predicate IsIndex(queue: seq<Member>, rs: Subscribers) {
    Ordered(queue, rs) && forall m :: m in queue <==> 0 < NextPayment(rs, m)
  }

  predicate Ordered(queue: seq<Member>, rs: Subscribers) {
    && NoDuplicates(queue)
    && forall i, j :: 0 <= i < j < |queue| ==> NextPayment(rs, queue[i]) <= NextPayment(rs, queue[j])
  }

  /** All of a comes before all of b. */
  predicate Precedes(a: seq<Member>, b: seq<Member>, rs: Subscribers) {
    forall i, j :: 0 <= i < |a| && 0 <= j < |b| ==> a[i] != b[j] && NextPayment(rs, a[i]) <= NextPayment(rs, b[j])
  }

  lemma OrderedJoin(a: seq<Member>, b: seq<Member>, rs: Subscribers)
    ensures Ordered(a + b, rs) <==> Ordered(a, rs) && Ordered(b, rs) && Precedes(a, b, rs)
  {
    hide NextPayment;
    var q := a + b;
    assert forall i :: 0 <= i < |a| ==> q[i] == a[i];
    assert forall i :: 0 <= i < |b| ==> q[|a| + i] == b[i];
    if Ordered(q, rs) {
      forall i, j | 0 <= i < |a| && 0 <= j < |b|
        ensures a[i] != b[j] && NextPayment(rs, a[i]) <= NextPayment(rs, b[j])
      {
        assert q[i] != q[|a| + j];
      }
      forall i, j | 0 <= i < j < |b|
        ensures b[i] != b[j] && NextPayment(rs, b[i]) <= NextPayment(rs, b[j])
      {
        assert q[|a| + i] != q[|a| + j];
      }
    }
  }

  lemma OrderedSame(q: seq<Member>, rs: Subscribers, qs: Subscribers)
    requires Ordered(q, rs) && forall i :: 0 <= i < |q| ==> NextPayment(qs, q[i]) == NextPayment(rs, q[i])
    ensures Ordered(q, qs)
  {
    hide NextPayment;
  }

  /** An entry whose time has changed goes behind the entries of its new time. */
  function Reinserted(rest: seq<Member>, rs: Subscribers, m: Member): seq<Member> {
    if rest == [] || NextPayment(rs, m) < NextPayment(rs, rest[0]) then [m] + rest
    else [rest[0]] + Reinserted(rest[1..], rs, m)
  }

  /** The loop: the books, the index, and the entry the iterator stands at. */
  datatype Cursor = Cursor(books: Books, queue: seq<Member>, at: nat)

  predicate AtDue(c: Cursor, now: nat) {
    c.at < |c.queue| && NextPayment(c.books.subscribers, c.queue[c.at]) <= now
  }

  /**
   One round of the loop. The iterator moves on before the entry changes, so an entry whose new time is not
   after the next entry's stays where it is, behind the iterator; one with a later time comes up again.
   */
  function Visited(c: Cursor): Cursor
    requires c.at < |c.queue|
  {
    var m := c.queue[c.at];
    var s := Turned(c.books, m);
    var rest := c.queue[c.at + 1..];
    var time := NextPayment(s.subscribers, m);
    if time == 0 then Cursor(s, c.queue[..c.at] + rest, c.at)
    else if rest == [] || time <= NextPayment(s.subscribers, rest[0]) then Cursor(s, c.queue, c.at + 1)
    else Cursor(s, c.queue[..c.at] + Reinserted(rest, s.subscribers, m), c.at)
  }

  /** The loop after n rounds. */
  function Visits(c: Cursor, n: nat): Cursor {
    if n == 0 then c
    else
      var before := Visits(c, n - 1);
      if before.at < |before.queue| then Visited(before) else before
  }

  /** The whole loop is n rounds: every one at a due entry, and none due after them. */
  predicate RunsFor(c: Cursor, n: nat, now: nat) {
    (forall k :: 0 <= k < n ==> AtDue(Visits(c, k), now)) && !AtDue(Visits(c, n), now)
  }

  /** Subscriber m has its turn within the first n rounds. */
  ghost predicate HasTurn(c: Cursor, n: nat, m: Member) {
    exists k :: 0 <= k < n && Visits(c, k).at < |Visits(c, k).queue| && Visits(c, k).queue[Visits(c, k).at] == m
  }

  predicate Due(rs: Subscribers, m: Member, now: nat) {
    0 < NextPayment(rs, m) <= now
  }

  lemma {:induction false} ReinsertedMembers(rest: seq<Member>, rs: Subscribers, m: Member)
    ensures forall x :: x in Reinserted(rest, rs, m) <==> x == m || x in rest
  {
    hide NextPayment;
    if rest != [] {
      assert rest == [rest[0]] + rest[1..];
      ReinsertedMembers(rest[1..], rs, m);
    }
  }

  lemma {:induction false} ReinsertedOrdered(rest: seq<Member>, rs: Subscribers, m: Member)
    requires Ordered(rest, rs) && m !in rest
    ensures Ordered(Reinserted(rest, rs, m), rs)
  {
    if rest == [] {
      return;
    }
    var first, q := rest[0], Reinserted(rest[1..], rs, m);
    assert rest == [first] + rest[1..];
    OrderedJoin([first], rest[1..], rs);
    if NextPayment(rs, m) < NextPayment(rs, first) {
      FrontPrecedes(m, first, rest[1..], rs);
      hide NextPayment, Ordered, Precedes;
      OrderedJoin([m], rest, rs);
      SingleOrdered(m, rs);
    } else {
      ReinsertedMembers(rest[1..], rs, m);
      PrecedesAll([first], m, rest[1..], q, rs);
      hide NextPayment, Ordered, Precedes;
      ReinsertedOrdered(rest[1..], rs, m);
      OrderedJoin([first], q, rs);
    }
  }

  lemma SingleOrdered(m: Member, rs: Subscribers)
    ensures Ordered([m], rs)
  {
  }

  lemma FrontPrecedes(m: Member, first: Member, rest: seq<Member>, rs: Subscribers)
    requires Precedes([first], rest, rs) && m !in [first] + rest && NextPayment(rs, m) <= NextPayment(rs, first)
    ensures Precedes([m], [first] + rest, rs)
  {
    hide NextPayment;
    forall j | 0 <= j < |[first] + rest|
      ensures m != ([first] + rest)[j] && NextPayment(rs, m) <= NextPayment(rs, ([first] + rest)[j])
    {
      assert ([first] + rest)[j] in [first] + rest;
      if 0 < j {
        assert NextPayment(rs, [first][0]) <= NextPayment(rs, rest[j - 1]);
      }
    }
  }

  /** A turn leaves everyone else's time as it was, and its own is later or none. */
  predicate OnlyLater(rs: Subscribers, qs: Subscribers, m: Member) {
    && (NextPayment(qs, m) == 0 || NextPayment(rs, m) < NextPayment(qs, m))
    && forall x :: x in rs.Keys + qs.Keys && x != m ==> NextPayment(qs, x) == NextPayment(rs, x)
  }

  lemma TurnIsLater(s: Books, m: Member)
    requires Inv(s.subs, s.subscribers) && 0 < NextPayment(s.subscribers, m)
    ensures OnlyLater(s.subscribers, Turned(s, m).subscribers, m)
  {
    assert m.sub in s.subs && SubscriberOk(s.subscribers[m], s.subs[m.sub]);
    hide Inv, CountsAt, CanPay, Used, Rest, ChargedPurses, Recounted;
  }

  lemma OthersSame(rs: Subscribers, qs: Subscribers, m: Member, x: Member)
    requires OnlyLater(rs, qs, m) && x != m
    ensures NextPayment(qs, x) == NextPayment(rs, x)
  {
  }

  /** The index around the current entry m, once its time has changed. */
  lemma AroundCurrent(rs: Subscribers, qs: Subscribers, front: seq<Member>, m: Member, rest: seq<Member>)
    requires Ordered(front + [m] + rest, rs) && OnlyLater(rs, qs, m)
    ensures Ordered(front, qs) && Ordered(rest, qs) && Precedes(front, rest, qs) && m !in front && m !in rest
    ensures NextPayment(qs, m) != 0 ==> Precedes(front, [m], qs)
  {
    OrderedJoin(front + [m], rest, rs);
    OrderedJoin(front, [m], rs);
    assert m == [m][0] == (front + [m])[|front|];
    assert forall i :: 0 <= i < |front| ==> (front + [m])[i] == front[i] && front[i] != [m][0];
    assert forall i :: 0 <= i < |rest| ==> (front + [m])[|front|] != rest[i];
    forall x | x != m
      ensures NextPayment(qs, x) == NextPayment(rs, x)
    {
      OthersSame(rs, qs, m, x);
    }
    OrderedSame(front, rs, qs);
    OrderedSame(rest, rs, qs);
    forall i, j | 0 <= i < |front| && 0 <= j < |rest|
      ensures front[i] != rest[j] && NextPayment(qs, front[i]) <= NextPayment(qs, rest[j])
    {
      assert (front + [m])[i] == front[i];
    }
  }

  lemma VisitedOrdered(c: Cursor, front: seq<Member>, m: Member, rest: seq<Member>, qs: Subscribers)
    requires c.at < |c.queue| && front == c.queue[..c.at] && m == c.queue[c.at] && rest == c.queue[c.at + 1..]
    requires qs == Visited(c).books.subscribers
    requires Ordered(front, qs) && Ordered(rest, qs) && Precedes(front, rest, qs) && m !in front && m !in rest
    requires NextPayment(qs, m) != 0 ==> Precedes(front, [m], qs)
    ensures Ordered(Visited(c).queue, qs)
  {
    var ahead := rest != [] && NextPayment(qs, m) <= NextPayment(qs, rest[0]);
    if ahead {
      assert rest == [rest[0]] + rest[1..];
      OrderedJoin([rest[0]], rest[1..], qs);
      FrontPrecedes(m, rest[0], rest[1..], qs);
    }
    assert c.queue == front + ([m] + rest) && [m] + [] == [m];
    SingleOrdered(m, qs);
    hide Turned, NextPayment, Ordered, Precedes, Reinserted;
    if NextPayment(qs, m) == 0 {
      OrderedJoin(front, rest, qs);
    } else if rest == [] || ahead {
      OrderedJoin([m], rest, qs);
      PrecedesMore(front, [m], rest, qs);
      OrderedJoin(front, [m] + rest, qs);
    } else {
      ReinsertedMembers(rest, qs, m);
      ReinsertedOrdered(rest, qs, m);
      PrecedesAll(front, m, rest, Reinserted(rest, qs, m), qs);
      OrderedJoin(front, Reinserted(rest, qs, m), qs);
    }
  }

  lemma VisitedMembers(c: Cursor, qs: Subscribers)
    requires c.at < |c.queue| && qs == Visited(c).books.subscribers && IsIndex(c.queue, c.books.subscribers)
    requires OnlyLater(c.books.subscribers, qs, c.queue[c.at])
    requires c.queue[c.at] !in c.queue[..c.at] && c.queue[c.at] !in c.queue[c.at + 1..]
    ensures forall x :: x in Visited(c).queue <==> 0 < NextPayment(qs, x)
  {
    var rs, front, m, rest := c.books.subscribers, c.queue[..c.at], c.queue[c.at], c.queue[c.at + 1..];
    assert c.queue == front + [m] + rest;
    ReinsertedMembers(rest, qs, m);
    hide Turned, Ordered, Reinserted;
    forall x
      ensures x in Visited(c).queue <==> 0 < NextPayment(qs, x)
    {
      hide NextPayment, OnlyLater;
      if x != m {
        OthersSame(rs, qs, m, x);
        assert x in c.queue <==> x in front || x in rest;
      }
    }
  }

  lemma VisitedBooks(c: Cursor)
    requires c.at < |c.queue|
    ensures Visited(c).books == Turned(c.books, c.queue[c.at])
  {
  }

  lemma QueueSplits(q: seq<Member>, at: nat, rs: Subscribers)
    requires at < |q| && IsIndex(q, rs)
    ensures Ordered(q[..at] + [q[at]] + q[at + 1..], rs) && 0 < NextPayment(rs, q[at])
  {
    assert q == q[..at] + [q[at]] + q[at + 1..] && q[at] in q;
  }

  /** Every round leaves an index. */
  lemma VisitedKeepsIndex(c: Cursor)
    requires Inv(c.books.subs, c.books.subscribers) && c.at < |c.queue| && IsIndex(c.queue, c.books.subscribers)
    ensures IsIndex(Visited(c).queue, Visited(c).books.subscribers)
  {
    var rs, m := c.books.subscribers, c.queue[c.at];
    VisitedBooks(c);
    QueueSplits(c.queue, c.at, rs);
    hide Inv, Turned, Visited, NextPayment, Ordered, Precedes, OnlyLater;
    TurnIsLater(c.books, m);
    var qs := Visited(c).books.subscribers;
    AroundCurrent(rs, qs, c.queue[..c.at], m, c.queue[c.at + 1..]);
    VisitedOrdered(c, c.queue[..c.at], m, c.queue[c.at + 1..], qs);
    VisitedMembers(c, qs);
  }

  lemma PrecedesMore(a: seq<Member>, b: seq<Member>, d: seq<Member>, rs: Subscribers)
    requires Precedes(a, b, rs) && Precedes(a, d, rs)
    ensures Precedes(a, b + d, rs)
  {
    hide NextPayment;
  }

  lemma PrecedesAll(a: seq<Member>, m: Member, rest: seq<Member>, q: seq<Member>, rs: Subscribers)
    requires Precedes(a, [m], rs) && Precedes(a, rest, rs) && forall x :: x in q <==> x == m || x in rest
    ensures Precedes(a, q, rs)
  {
    hide NextPayment;
    forall i, j | 0 <= i < |a| && 0 <= j < |q|
      ensures a[i] != q[j] && NextPayment(rs, a[i]) <= NextPayment(rs, q[j])
    {
      assert q[j] in q;
      assert a[i] != [m][0] && NextPayment(rs, a[i]) <= NextPayment(rs, [m][0]);
    }
  }

  lemma TurnKeepsInv(s: Books, m: Member)
    requires Inv(s.subs, s.subscribers) && 0 < NextPayment(s.subscribers, m)
    ensures Inv(Turned(s, m).subs, Turned(s, m).subscribers)
  {
    hide Inv, AllTurns, Tokens, Recounted, Charged, Ended, ChargedPurses;
    ProcessFacts(s.subs, s.subscribers, s.balances, m);
    NoRecount(s.subs, m.sub);
    hide Used;
  }

  /** How far the loop has come: the entries behind the iterator had their turn, and the others are as they were. */
  ghost predicate CameSoFar(c: Cursor, n: nat) {
    var now := Visits(c, n);
    && Inv(now.books.subs, now.books.subscribers) && IsIndex(now.queue, now.books.subscribers) && now.at <= |now.queue|
    && (forall j :: 0 <= j < now.at ==> HasTurn(c, n, now.queue[j]))
    && (forall m :: !HasTurn(c, n, m) ==> NextPayment(now.books.subscribers, m) == NextPayment(c.books.subscribers, m))
  }

  lemma HasTurnNext(c: Cursor, n: nat, m: Member)
    ensures HasTurn(c, n, m) ==> HasTurn(c, n + 1, m)
    ensures Visits(c, n).at < |Visits(c, n).queue| ==> HasTurn(c, n + 1, Visits(c, n).queue[Visits(c, n).at])
  {
    hide Visits;
  }

  lemma CameFurther(c: Cursor, n: nat)
    requires CameSoFar(c, n) && Visits(c, n).at < |Visits(c, n).queue|
    ensures CameSoFar(c, n + 1)
  {
    var before := Visits(c, n);
    var m := before.queue[before.at];
    VisitsStep(c, n, before);
    VisitedBooks(before);
    hide Visits, Visited, Turned, Inv, IsIndex, NextPayment, HasTurn;
    TurnKeepsInv(before.books, m);
    TurnIsLater(before.books, m);
    hide OnlyLater;
    FrontHadTurns(c, n);
    OthersWait(c, n);
  }

  lemma CameFacts(c: Cursor, n: nat)
    requires CameSoFar(c, n)
    ensures var now := Visits(c, n);
            now.at <= |now.queue| && forall j :: 0 <= j < now.at ==> HasTurn(c, n, now.queue[j])
    ensures Visits(c, n).at < |Visits(c, n).queue| ==> Visits(c, n + 1) == Visited(Visits(c, n))
  {
    hide HasTurn, Inv, IsIndex, NextPayment, Visited;
  }

  lemma FrontHadTurns(c: Cursor, n: nat)
    requires CameSoFar(c, n) && Visits(c, n).at < |Visits(c, n).queue|
    ensures var now := Visits(c, n + 1);
            now.at <= |now.queue| && forall j :: 0 <= j < now.at ==> HasTurn(c, n + 1, now.queue[j])
  {
    hide *;
    CameFacts(c, n);
    var before, now := Visits(c, n), Visits(c, n + 1);
    VisitedFront(before);
    forall j | 0 <= j < now.at
      ensures HasTurn(c, n + 1, now.queue[j])
    {
      HasTurnNext(c, n, before.queue[j]);
    }
  }

  lemma OthersWait(c: Cursor, n: nat)
    requires CameSoFar(c, n) && Visits(c, n).at < |Visits(c, n).queue|
    requires OnlyLater(Visits(c, n).books.subscribers, Visits(c, n + 1).books.subscribers,
                       Visits(c, n).queue[Visits(c, n).at])
    ensures forall x :: !HasTurn(c, n + 1, x) ==>
                          NextPayment(Visits(c, n + 1).books.subscribers, x) == NextPayment(c.books.subscribers, x)
  {
    var before, now := Visits(c, n), Visits(c, n + 1);
    hide Visits, Inv, IsIndex, NextPayment, HasTurn, OnlyLater;
    forall x | !HasTurn(c, n + 1, x)
      ensures NextPayment(now.books.subscribers, x) == NextPayment(c.books.subscribers, x)
    {
      HasTurnNext(c, n, x);
      OthersSame(before.books.subscribers, now.books.subscribers, before.queue[before.at], x);
    }
  }

  /** What stands behind the iterator after a round: what stood there before, and perhaps the entry just visited. */
  lemma VisitedFront(c: Cursor)
    requires c.at < |c.queue|
    ensures var now := Visited(c);
            && c.at <= now.at <= c.at + 1 && now.at <= |now.queue|
            && forall j :: 0 <= j < now.at ==> now.queue[j] == c.queue[j]
  {
    hide Turned, NextPayment;
  }

  lemma BeforeIsDue(c: Cursor, n: nat, now: nat)
    requires 0 < n && forall k :: 0 <= k < n ==> AtDue(Visits(c, k), now)
    ensures Visits(c, n - 1).at < |Visits(c, n - 1).queue|
  {
    hide Visits, NextPayment;
    assert AtDue(Visits(c, n - 1), now);
  }

  lemma CameStarts(c: Cursor)
    requires Inv(c.books.subs, c.books.subscribers) && IsIndex(c.queue, c.books.subscribers) && c.at == 0
    ensures CameSoFar(c, 0)
  {
    hide Inv, IsIndex, NextPayment;
  }

  lemma {:induction false} CameAlong(c: Cursor, n: nat, now: nat)
    requires Inv(c.books.subs, c.books.subscribers) && IsIndex(c.queue, c.books.subscribers) && c.at == 0
    requires forall k :: 0 <= k < n ==> AtDue(Visits(c, k), now)
    ensures CameSoFar(c, n)
  {
    hide *;
    if n == 0 {
      CameStarts(c);
    } else {
      BeforeIsDue(c, n, now);
      CameAlong(c, n - 1, now);
      CameFurther(c, n - 1);
    }
  }

  /** When the entry the iterator stands at is not due, those that are due stand behind it. */
  lemma DueIsBehind(queue: seq<Member>, rs: Subscribers, at: nat, m: Member, now: nat)
    requires IsIndex(queue, rs) && Due(rs, m, now) && (at < |queue| ==> now < NextPayment(rs, queue[at]))
    ensures exists j :: 0 <= j < at && j < |queue| && queue[j] == m
  {
    hide NextPayment;
    assert m in queue;
    assert forall i :: at < i < |queue| ==> NextPayment(rs, queue[at]) <= NextPayment(rs, queue[i]);
  }

  /** Whoever is due when the loop starts has a turn, and whoever is still due when it ends has had one. */
  lemma EveryoneDueHasATurn(c: Cursor, n: nat, now: nat, m: Member)
    requires Inv(c.books.subs, c.books.subscribers) && IsIndex(c.queue, c.books.subscribers) && c.at == 0
    requires RunsFor(c, n, now)
    ensures Due(c.books.subscribers, m, now) || Due(Visits(c, n).books.subscribers, m, now) ==> HasTurn(c, n, m)
  {
    hide Visits, HasTurn, Inv, NextPayment, IsIndex;
    CameAlong(c, n, now);
    var end := Visits(c, n);
    if Due(end.books.subscribers, m, now) {
      DueIsBehind(end.queue, end.books.subscribers, end.at, m, now);
    }
  }

  /**
   Round k leaves m overdue: the iterator moves past it, because its new time is not after the next entry's or
   there is no next entry, and that time has come as well.
   */
  predicate LeftAt(c: Cursor, k: nat, now: nat, m: Member) {
    var before, after := Visits(c, k), Visits(c, k + 1);
    && before.at < |before.queue| && before.queue[before.at] == m
    && after.at == before.at + 1 && Due(after.books.subscribers, m, now)
  }

  predicate Passed(c: Cursor, m: Member) {
    exists j :: 0 <= j < c.at && j < |c.queue| && c.queue[j] == m
  }

  /** What stands behind the iterator stays there, and keeps its time. */
  lemma PassedStays(c: Cursor, m: Member)
    requires Inv(c.books.subs, c.books.subscribers) && c.at < |c.queue| && IsIndex(c.queue, c.books.subscribers)
    requires Passed(c, m)
    ensures m != c.queue[c.at] && Passed(Visited(c), m)
    ensures NextPayment(Visited(c).books.subscribers, m) == NextPayment(c.books.subscribers, m)
  {
    hide Visited, Turned, Inv, IsIndex, NextPayment, OnlyLater;
    VisitedFront(c);
    VisitedBooks(c);
    CurrentIsAhead(c.queue, c.at, c.books.subscribers);
    var j :| 0 <= j < c.at && c.queue[j] == m;
    assert Visited(c).queue[j] == m;
    TurnIsLater(c.books, c.queue[c.at]);
    OthersSame(c.books.subscribers, Visited(c).books.subscribers, c.queue[c.at], m);
  }

  /** And a round puts nothing there but its own entry. */
  lemma PassedOnly(c: Cursor, m: Member)
    requires c.at < |c.queue| && !Passed(c, m)
    ensures Passed(Visited(c), m) <==> m == c.queue[c.at] && Visited(c).at == c.at + 1
  {
    VisitedFront(c);
    hide Visited;
    if m == c.queue[c.at] && Visited(c).at == c.at + 1 {
      assert Visited(c).queue[c.at] == m;
    }
    if j :| 0 <= j < Visited(c).at && j < |Visited(c).queue| && Visited(c).queue[j] == m {
      assert c.queue[j] == m;
    }
  }

  lemma CurrentIsAhead(q: seq<Member>, at: nat, rs: Subscribers)
    requires at < |q| && IsIndex(q, rs)
    ensures 0 < NextPayment(rs, q[at]) && forall j :: 0 <= j < at ==> q[j] != q[at]
  {
    hide NextPayment;
    assert q[at] in q;
  }

  /** Up to any round, those left overdue are the due ones behind the iterator. */
  lemma {:induction false} LeftSoFar(c: Cursor, n: nat, now: nat, m: Member)
    requires Inv(c.books.subs, c.books.subscribers) && IsIndex(c.queue, c.books.subscribers) && c.at == 0
    requires forall k :: 0 <= k < n ==> AtDue(Visits(c, k), now)
    ensures Passed(Visits(c, n), m) && Due(Visits(c, n).books.subscribers, m, now)
            <==> exists k :: 0 <= k < n && LeftAt(c, k, now, m)
  {
    hide *;
    if n == 0 {
      NobodyPassed(c, m);
    } else {
      LeftSoFar(c, n - 1, now, m);
      BeforeIsDue(c, n, now);
      CameAlong(c, n - 1, now);
      LeftNext(c, n - 1, now, m);
      if k :| 0 <= k < n && LeftAt(c, k, now, m) && k != n - 1 {
        assert k < n - 1;
      }
    }
  }

  lemma NobodyPassed(c: Cursor, m: Member)
    requires c.at == 0
    ensures !Passed(Visits(c, 0), m)
  {
  }

  lemma LeftNext(c: Cursor, n: nat, now: nat, m: Member)
    requires CameSoFar(c, n) && Visits(c, n).at < |Visits(c, n).queue|
    ensures var before, after := Visits(c, n), Visits(c, n + 1);
            Passed(after, m) && Due(after.books.subscribers, m, now)
            <==> (Passed(before, m) && Due(before.books.subscribers, m, now)) || LeftAt(c, n, now, m)
  {
    CameFacts(c, n);
    hide Visits, Visited, Inv, IsIndex, NextPayment, Passed, HasTurn;
    if Passed(Visits(c, n), m) {
      PassedStays(Visits(c, n), m);
    } else {
      PassedOnly(Visits(c, n), m);
    }
  }

  /**
   The exact condition: a subscriber is still due after the loop if and only if one of its turns leaves it
   behind the iterator at a time that has come as well.
   */
  lemma StillDueExactlyWhenLeft(c: Cursor, n: nat, now: nat, m: Member)
    requires Inv(c.books.subs, c.books.subscribers) && IsIndex(c.queue, c.books.subscribers) && c.at == 0
    requires RunsFor(c, n, now)
    ensures Due(Visits(c, n).books.subscribers, m, now) <==> exists k :: 0 <= k < n && LeftAt(c, k, now, m)
  {
    hide Visits, Inv, IsIndex, NextPayment, LeftAt, HasTurn;
    LeftSoFar(c, n, now, m);
    CameAlong(c, n, now);
    var end := Visits(c, n);
    if Due(end.books.subscribers, m, now) {
      DueIsBehind(end.queue, end.books.subscribers, end.at, m, now);
    }
  }

  /** No due subscriber is more than one payment behind. */
  predicate OneBehind(rs: Subscribers, now: nat) {
    forall m :: m in rs && Due(rs, m, now) ==> now < rs[m].nextPayment + rs[m].interval
  }

  predicate SameRecord(rs: Subscribers, qs: Subscribers, m: Member) {
    (m in rs <==> m in qs) && (m in rs ==> rs[m] == qs[m])
  }

  /** Everyone visited so far is up to date, and everyone else is as at the start. */
  ghost predicate CaughtUp(c: Cursor, n: nat, now: nat) {
    var rs := Visits(c, n).books.subscribers;
    forall m ::
      if HasTurn(c, n, m) then !Due(rs, m, now) else SameRecord(c.books.subscribers, rs, m)
  }

  lemma TurnedRecords(s: Books, m: Member, x: Member)
    requires Inv(s.subs, s.subscribers) && 0 < NextPayment(s.subscribers, m)
    ensures var qs := Turned(s, m).subscribers;
            && (x != m ==> SameRecord(s.subscribers, qs, x))
            && NextPayment(qs, m) in {0, s.subscribers[m].nextPayment + s.subscribers[m].interval}
  {
    assert m.sub in s.subs && SubscriberOk(s.subscribers[m], s.subs[m.sub]);
    hide Inv, CountsAt, CanPay, Used, Rest, ChargedPurses, Recounted;
  }

  /** One payment brings a subscriber who is as at the start past now. */
  lemma TurnSettles(start: Subscribers, s: Books, m: Member, now: nat)
    requires Inv(s.subs, s.subscribers) && Due(s.subscribers, m, now)
    requires SameRecord(start, s.subscribers, m) && OneBehind(start, now)
    ensures !Due(Turned(s, m).subscribers, m, now)
  {
    hide Inv, Turned;
    TurnedRecords(s, m, m);
  }

  lemma TurnLeavesOthers(start: Subscribers, s: Books, m: Member, x: Member, now: nat)
    requires Inv(s.subs, s.subscribers) && Due(s.subscribers, m, now) && x != m
    ensures var qs := Turned(s, m).subscribers;
            && (SameRecord(start, s.subscribers, x) ==> SameRecord(start, qs, x))
            && (!Due(s.subscribers, x, now) ==> !Due(qs, x, now))
  {
    hide Inv, Turned;
    TurnedRecords(s, m, x);
  }

  lemma CaughtUpNext(c: Cursor, n: nat, now: nat, m: Member)
    requires CameSoFar(c, n) && CaughtUp(c, n, now) && AtDue(Visits(c, n), now)
    requires OneBehind(c.books.subscribers, now)
    ensures var rs := Visits(c, n + 1).books.subscribers;
            if HasTurn(c, n + 1, m) then !Due(rs, m, now) else SameRecord(c.books.subscribers, rs, m)
  {
    var before := Visits(c, n);
    var current := before.queue[before.at];
    CameFacts(c, n);
    VisitedBooks(before);
    CurrentIsAhead(before.queue, before.at, before.books.subscribers);
    TurnNext(c, n, m);
    hide Visits, Visited, Turned, Inv, IsIndex, HasTurn, OneBehind, SameRecord, NextPayment;
    if m == current {
      assert SameRecord(c.books.subscribers, before.books.subscribers, m);
      TurnSettles(c.books.subscribers, before.books, m, now);
    } else {
      TurnLeavesOthers(c.books.subscribers, before.books, current, m, now);
    }
  }

  lemma TurnNext(c: Cursor, n: nat, m: Member)
    requires Visits(c, n).at < |Visits(c, n).queue|
    ensures HasTurn(c, n + 1, m) <==> HasTurn(c, n, m) || Visits(c, n).queue[Visits(c, n).at] == m
  {
    hide Visits;
  }

  lemma CaughtUpStarts(c: Cursor, now: nat)
    ensures CaughtUp(c, 0, now)
  {
  }

  lemma {:induction false} CaughtUpAlong(c: Cursor, n: nat, now: nat)
    requires Inv(c.books.subs, c.books.subscribers) && IsIndex(c.queue, c.books.subscribers) && c.at == 0
    requires (forall k :: 0 <= k < n ==> AtDue(Visits(c, k), now)) && OneBehind(c.books.subscribers, now)
    ensures CaughtUp(c, n, now)
  {
    hide Visits, HasTurn, Inv, IsIndex, AtDue, OneBehind, NextPayment, CameSoFar, SameRecord, Due;
    if n == 0 {
      CaughtUpStarts(c, now);
    } else {
      CaughtUpAlong(c, n - 1, now);
      CameAlong(c, n - 1, now);
      assert AtDue(Visits(c, n - 1), now);
      forall m
        ensures var rs := Visits(c, n).books.subscribers;
                if HasTurn(c, n, m) then !Due(rs, m, now) else SameRecord(c.books.subscribers, rs, m)
      {
        CaughtUpNext(c, n - 1, now, m);
      }
    }
  }

  /** So the loop leaves nobody due unless somebody was more than one payment behind. */
  lemma NobodyLeftDue(c: Cursor, n: nat, now: nat, m: Member)
    requires Inv(c.books.subs, c.books.subscribers) && IsIndex(c.queue, c.books.subscribers) && c.at == 0
    requires RunsFor(c, n, now) && OneBehind(c.books.subscribers, now)
    ensures !Due(Visits(c, n).books.subscribers, m, now)
  {
    hide Visits, Inv, IsIndex, NextPayment, HasTurn, OneBehind, Due, AtDue;
    CaughtUpAlong(c, n, now);
    EveryoneDueHasATurn(c, n, now, m);
  }

  // ---------- an update ----------

  /** A subscriber of a subscription without prepayment when the author changes the cost: it has to subscribe again. */
  function Repriced(r: Subscriber, cost: Asset): Subscriber {
    r.(prepaid := if cost.symbol != r.cost.symbol then Asset(0, cost.symbol) else r.prepaid, cost := cost,
       active := false, nextPayment := 0)
  }

  function AllRepriced(rs: Subscribers, k: Key, cost: Asset, but: set<Member>): Subscribers {
    map m | m in rs :: if m.sub == k && m !in but then Repriced(rs[m], cost) else rs[m]
  }

  lemma RepricedTokensAndCounts(rs: Subscribers, k: Key, cost: Asset, symbol: Symbol, tip: bool, other: Key)
    requires forall m :: m in rs && m.sub == k ==> rs[m].prepaid.amount == 0
    ensures var qs := AllRepriced(rs, k, cost, {});
            && Held(qs, symbol, tip) == Held(rs, symbol, tip) && Members(qs, other) == Members(rs, other)
            && ActiveMembers(qs, other) == if other == k then 0 else ActiveMembers(rs, other)
  {
    var qs := AllRepriced(rs, k, cost, {});
    assert qs.Keys == rs.Keys;
    hide Sum;
    SumCongruence(rs.Keys, HeldTerm(rs, symbol, tip), HeldTerm(qs, symbol, tip));
    SumCongruence(rs.Keys, MemberTerm(rs, other), MemberTerm(qs, other));
    if other == k {
      SumZero(rs.Keys, ActiveTerm(qs, other));
    } else {
      SumCongruence(rs.Keys, ActiveTerm(rs, other), ActiveTerm(qs, other));
    }
  }

  function Updated(
    p: Subscription, cost: Asset, tip: bool, interval: nat, executions: nat, inactivated: int): Subscription {
    p.(cost := cost, tip := tip, interval := interval, executions := executions,
       activeSubscribers := p.activeSubscribers - inactivated)
  }

  /** What the evaluator accepts of an update: prepayment apart, only the cost may change. */
  predicate MayUpdate(p: Subscription, cost: Asset, tip: bool, interval: nat, executions: nat) {
    && (p.executions == 0 <==> executions == 0)
    && (!p.allowPrepaid ==> tip == p.tip && interval == p.interval && executions == p.executions)
  }

  predicate UpdateValid(cost: Asset, interval: nat, executions: nat) {
    0 < cost.amount && (0 < executions ==> 0 < interval)
  }

  lemma UpdateOk(
    subs: map<Key, Subscription>, rs: Subscribers, k: Key, cost: Asset, tip: bool, interval: nat, executions: nat,
    n: int)
    requires AllOk(subs, rs) && k in subs && UpdateValid(cost, interval, executions)
    requires MayUpdate(subs[k], cost, tip, interval, executions)
    ensures var p := Updated(subs[k], cost, tip, interval, executions, n);
            AllOk(subs[k := p], if subs[k].allowPrepaid then rs else AllRepriced(rs, k, cost, {}))
  {
  }

  lemma UpdateCounts(
    subs: map<Key, Subscription>, rs: Subscribers, k: Key, p: Subscription, cost: Asset, other: Key)
    requires k in subs && other in subs && CountsAt(subs, rs, k) && CountsAt(subs, rs, other)
    requires forall m :: m in rs && m.sub == k ==> rs[m].prepaid.amount == 0
    requires p.subscribers == subs[k].subscribers && p.activeSubscribers == 0
    ensures CountsAt(subs[k := p], AllRepriced(rs, k, cost, {}), other)
  {
    RepricedTokensAndCounts(rs, k, cost, 0, false, other);
    hide AllRepriced, Members, ActiveMembers;
  }

  lemma UpdateKeeps(
    subs: map<Key, Subscription>, rs: Subscribers, k: Key, cost: Asset, tip: bool, interval: nat, executions: nat)
    requires Inv(subs, rs) && k in subs && UpdateValid(cost, interval, executions)
    requires MayUpdate(subs[k], cost, tip, interval, executions)
    ensures var allow := subs[k].allowPrepaid;
            var p := Updated(subs[k], cost, tip, interval, executions, if allow then 0 else ActiveMembers(rs, k));
            Inv(subs[k := p], if allow then rs else AllRepriced(rs, k, cost, {}))
  {
    var allow := subs[k].allowPrepaid;
    assert CountsAt(subs, rs, k);
    var p := Updated(subs[k], cost, tip, interval, executions, if allow then 0 else ActiveMembers(rs, k));
    assert p.subscribers == subs[k].subscribers;
    assert if allow then p.activeSubscribers == subs[k].activeSubscribers else p.activeSubscribers == 0;
    UpdateOk(subs, rs, k, cost, tip, interval, executions, if allow then 0 else ActiveMembers(rs, k));
    NothingPrepaid(subs, rs, k);
    hide AllOk, AllRepriced, Members, ActiveMembers, Updated, MayUpdate;
    forall other | other in subs
      ensures CountsAt(subs[k := p], if allow then rs else AllRepriced(rs, k, cost, {}), other)
    {
      assert CountsAt(subs, rs, other);
      if !allow {
        UpdateCounts(subs, rs, k, p, cost, other);
      }
    }
  }

  lemma UpdateHeld(subs: map<Key, Subscription>, rs: Subscribers, k: Key, cost: Asset)
    requires Inv(subs, rs) && k in subs && !subs[k].allowPrepaid
    ensures forall symbol, tip :: Held(AllRepriced(rs, k, cost, {}), symbol, tip) == Held(rs, symbol, tip)
  {
    NothingPrepaid(subs, rs, k);
    hide Inv, AllRepriced, Held;
    forall symbol, tip
      ensures Held(AllRepriced(rs, k, cost, {}), symbol, tip) == Held(rs, symbol, tip)
    {
      RepricedTokensAndCounts(rs, k, cost, symbol, tip, k);
    }
  }

  lemma NothingPrepaid(subs: map<Key, Subscription>, rs: Subscribers, k: Key)
    requires AllOk(subs, rs) && k in subs
    ensures !subs[k].allowPrepaid ==> forall m :: m in rs && m.sub == k ==> rs[m].prepaid.amount == 0
  {
  }

  // ---------- creation and deletion ----------

  lemma CreateKeeps(subs: map<Key, Subscription>, rs: Subscribers, k: Key, p: Subscription)
    requires Inv(subs, rs) && k !in subs && SubscriptionOk(p) && p.subscribers == 0 && p.activeSubscribers == 0
    ensures Inv(subs[k := p], rs)
  {
    SumZero(rs.Keys, MemberTerm(rs, k));
    SumZero(rs.Keys, ActiveTerm(rs, k));
    forall x | x in subs
      ensures CountsAt(subs[k := p], rs, x)
    {
      assert CountsAt(subs, rs, x);
    }
    hide Sum, SubscriberOk, SubscriptionOk;
  }

  lemma DropKeeps(subs: map<Key, Subscription>, rs: Subscribers, k: Key)
    requires Inv(subs, rs) && forall m :: m in rs ==> m.sub != k
    ensures Inv(subs - {k}, rs)
  {
    var ts := subs - {k};
    hide SubscriberOk, SubscriptionOk, Members, ActiveMembers;
    forall x | x in ts
      ensures CountsAt(ts, rs, x)
    {
      assert CountsAt(subs, rs, x);
    }
  }

  /** What a purse gets back when its owner leaves a subscription. */
  function Refund(rs: Subscribers, k: Key, p: Purse): int {
    var m := Member(k, p.account);
    if m in rs then HeldBy(rs[m], p.symbol, p.tip) else 0
  }

  /** Giving a subscriber's prepaid tokens back as it goes. */
  lemma RefundTokens(b: Balances, rs: Subscribers, m: Member, symbol: Symbol, tip: bool)
    requires m in rs
    ensures Tokens(Moved(b, Purse(m.subscriber, rs[m].prepaid.symbol, rs[m].tip), rs[m].prepaid.amount), rs - {m},
            symbol, tip)
            == Tokens(b, rs, symbol, tip)
    ensures rs[m].prepaid.amount == 0 ==> Tokens(b, rs - {m}, symbol, tip) == Tokens(b, rs, symbol, tip)
  {
    MovedTokens(b, Purse(m.subscriber, rs[m].prepaid.symbol, rs[m].tip), rs[m].prepaid.amount, symbol, tip);
    TakeOut(rs, m, m.sub, symbol, tip);
    hide InPurses, Held, Moved;
  }

  // ---------- the object ----------

  class SubscriptionLedger {
    var subs: map<Key, Subscription>
    var subscribers: Subscribers
    var balances: Balances

    ghost predicate Valid()
      reads this
    {
      Inv(subs, subscribers)
    }

    constructor (balances: Balances)
      ensures Valid() && subs == map[] && subscribers == map[] && this.balances == balances
    {
      this.subs, this.subscribers, this.balances := map[], map[], balances;
    }

    method Create(k: Key, cost: Asset, tip: bool, allowPrepaid: bool, interval: nat, executions: nat) returns (ok: bool)
      requires Valid() && UpdateValid(cost, interval, executions) && (allowPrepaid ==> executions != 0)
      modifies this
      ensures Valid() && ok == (k !in old(subs))
      ensures subscribers == old(subscribers) && balances == old(balances)
      ensures subs == if ok then old(subs)[k := Subscription(cost, tip, allowPrepaid, interval, executions, 0, 0)]
              else old(subs)
    {
      if k in subs {
        return false;
      }
      var p := Subscription(cost, tip, allowPrepaid, interval, executions, 0, 0);
      CreateKeeps(subs, subscribers, k, p);
      hide Inv;
      subs := subs[k := p];
      return true;
    }

    method Update(k: Key, cost: Asset, tip: bool, interval: nat, executions: nat) returns (ok: bool)
      requires Valid() && UpdateValid(cost, interval, executions)
      modifies this
      ensures Valid() && balances == old(balances)
      ensures ok == (k in old(subs) && MayUpdate(old(subs)[k], cost, tip, interval, executions))
      ensures !ok ==> subs == old(subs) && subscribers == old(subscribers)
      ensures ok ==> subs == old(subs)[k := Updated(old(subs)[k], cost, tip, interval, executions,
                              if old(subs)[k].allowPrepaid then 0 else ActiveMembers(old(subscribers), k))]
      ensures ok ==> subscribers == if old(subs)[k].allowPrepaid then old(subscribers)
                                    else AllRepriced(old(subscribers), k, cost, {})
      ensures ok ==> var p := old(subs)[k];
                     && (p.executions == 0 <==> executions == 0)
                     && (!p.allowPrepaid ==> tip == p.tip && interval == p.interval && executions == p.executions)
      ensures ok ==> var p := subs[k];
                     p.cost == cost && p.tip == tip && p.interval == interval && p.executions == executions
      ensures forall symbol, tip ::
                Tokens(balances, subscribers, symbol, tip) == old(Tokens(balances, subscribers, symbol, tip))
    {
      hide Inv, Held, InPurses, ActiveMembers, AllRepriced;
      if k !in subs || !MayUpdate(subs[k], cost, tip, interval, executions) {
        return false;
      }
      UpdateKeeps(subs, subscribers, k, cost, tip, interval, executions);
      var inactivated := 0;
      if !subs[k].allowPrepaid {
        UpdateHeld(subs, subscribers, k, cost);
        inactivated := RepriceAll(k, cost);
      }
      subs := subs[k := Updated(subs[k], cost, tip, interval, executions, inactivated)];
      return true;
    }

    /** The loop over the subscribers of a subscription. */
    method RepriceAll(k: Key, cost: Asset) returns (inactivated: int)
      modifies this`subscribers
      ensures subscribers == AllRepriced(old(subscribers), k, cost, {})
      ensures inactivated == ActiveMembers(old(subscribers), k)
    {
      ghost var rs := subscribers;
      var todo := set m | m in subscribers && m.sub == k;
      inactivated := 0;
      RepriceStarts(rs, k, cost, todo);
      hide ActiveMembers, AllRepriced;
      while todo != {}
        invariant forall m :: m in todo ==> m in rs && m.sub == k
        invariant subscribers == AllRepriced(rs, k, cost, todo)
        invariant inactivated + ActiveMembers(subscribers, k) == ActiveMembers(rs, k)
        decreases |todo|
      {
        var m :| m in todo;
        RepriceStep(rs, k, cost, todo, m);
        if subscribers[m].active {
          inactivated := inactivated + 1;
        }
        subscribers := subscribers[m := Repriced(subscribers[m], cost)];
        todo := todo - {m};
      }
      RepriceEnds(rs, k, cost);
    }

    method Delete(k: Key) returns (ok: bool)
      requires Valid()
      modifies this
      ensures Valid() && ok == (k in old(subs))
      ensures subs == old(subs) - {k}
      ensures subscribers == if ok then map m | m in old(subscribers) && m.sub != k :: old(subscribers)[m]
              else old(subscribers)
      ensures forall p ::
                Balance(balances, p) == Balance(old(balances), p) + if ok then Refund(old(subscribers), k, p) else 0
      ensures forall symbol, tip ::
                Tokens(balances, subscribers, symbol, tip) == old(Tokens(balances, subscribers, symbol, tip))
    {
      hide Inv, Tokens, WasActive, Recounted;
      if k !in subs {
        assert subs - {k} == subs;
        return false;
      }
      ghost var rs, b, g := subscribers, balances, subs;
      var todo := set m | m in subscribers && m.sub == k;
      hide Leaving, Moved;
      while todo != {}
        invariant Leaving(rs, subscribers, k, todo, b, balances)
        invariant k in g && g - {k} == subs - {k} && subs == old(subs) && Inv(g, subscribers)
        invariant forall symbol, tip :: Tokens(balances, subscribers, symbol, tip) == Tokens(b, rs, symbol, tip)
        decreases |todo|
      {
        var m :| m in todo;
        LeavingStep(rs, subscribers, k, todo, b, balances, m);
        var r := subscribers[m];
        RefundAll(balances, subscribers, m);
        TakeOutKeeps(g, subscribers, m);
        g := g[k := Recounted(g[k], -1, -WasActive(subscribers, m))];
        if r.prepaid.amount != 0 {
          balances := Moved(balances, Purse(m.subscriber, r.prepaid.symbol, r.tip), r.prepaid.amount);
        }
        subscribers := subscribers - {m};
        todo := todo - {m};
      }
      DropKeeps(g, subscribers, k);
      subs := subs - {k};
      return true;
    }

    /** A payment to a subscription: the first of a subscriber, a renewal, or a prepayment. */
    method Transfer(k: Key, from: Id, amount: Asset, fromTip: bool, now: nat) returns (ok: bool)
      requires Valid()
      modifies this
      ensures Valid()
      ensures var m := Member(k, from);
              var known := if m in old(subscribers) then Some(old(subscribers)[m]) else None;
              && ok == (k in old(subs)
                        && Accepts(old(subs)[k], known, amount, fromTip,
                           Balance(old(balances), Purse(from, amount.symbol, fromTip))))
              && (ok ==>
                    var p := old(subs)[k];
                    && subscribers == old(subscribers)[m :=
                       if known.Some? then Renewed(known.value, p, amount.amount, now)
                                                              else FirstTime(p, amount.amount, now)]
                    && balances == Paid(old(balances), k, from, p, known, amount.amount)
                    && subs == old(subs)[k := Recounted(p, Ind(known.None?), 1 - WasActive(old(subscribers), m))]
                    && forall symbol, tip ::
                      Tokens(balances, subscribers, symbol, tip)
                      == old(Tokens(balances, subscribers, symbol, tip)) + Shift(known, p, symbol, tip))
      ensures !ok ==> subs == old(subs) && subscribers == old(subscribers) && balances == old(balances)
      ensures ok ==> var p := old(subs)[k];
                     && fromTip == p.tip && amount.symbol == p.cost.symbol && p.cost.amount <= amount.amount
                     && amount.amount <= Balance(old(balances), Purse(from, p.cost.symbol, p.tip))
                     && (0 < p.executions && !p.allowPrepaid ==> amount.amount == p.cost.amount)
                     && (Member(k, from) in old(subscribers) && old(subscribers)[Member(k, from)].active ==>
                           0 < p.executions && p.allowPrepaid)
    {
      hide Inv, Tokens, Moved, Renewed, FirstTime, Recounted, Shift;
      var m := Member(k, from);
      if k !in subs {
        return false;
      }
      var p := subs[k];
      var known := if m in subscribers then Some(subscribers[m]) else None;
      if !Accepts(p, known, amount, fromTip, Balance(balances, Purse(from, amount.symbol, fromTip))) {
        return false;
      }
      TransferFacts(subs, subscribers, balances, m, amount, now);
      NoRecount(subs, k);
      hide Accepts;
      var claimed := Moved(balances, Purse(from, amount.symbol, fromTip), -amount.amount);
      var author := Purse(k.author, amount.symbol, fromTip);
      if m !in subscribers {
        balances := Moved(claimed, author, if p.executions == 0 then amount.amount else p.cost.amount);
        subscribers := subscribers[m := FirstTime(p, amount.amount, now)];
        subs := subs[k := Recounted(p, 1, 1)];
      } else {
        var r := subscribers[m];
        balances := if p.allowPrepaid then claimed else Moved(claimed, author, amount.amount);
        if !r.active {
          subs := subs[k := Recounted(p, 0, 1)];
        }
        if r.prepaid.amount > 0 && r.prepaid.symbol != p.cost.symbol {
          balances := Moved(balances, Purse(from, r.prepaid.symbol, r.tip), r.prepaid.amount);
        }
        subscribers := subscribers[m := Renewed(r, p, amount.amount, now)];
      }
      return true;
    }

    /** A subscriber leaves and gets its prepaid tokens back. */
    method Cancel(m: Member) returns (ok: bool)
      requires Valid()
      modifies this
      ensures Valid() && ok == (m in old(subscribers)) && subscribers == old(subscribers) - {m}
      ensures forall symbol, tip ::
                Tokens(balances, subscribers, symbol, tip) == old(Tokens(balances, subscribers, symbol, tip))
      ensures ok ==> m.sub in old(subs)
                     && subs == old(subs)[m.sub := Recounted(old(subs)[m.sub], -1, -WasActive(old(subscribers), m))]
      ensures forall p :: Balance(balances, p)
                          == Balance(old(balances), p)
                             + if p.account == m.subscriber then Refund(old(subscribers), m.sub, p) else 0
    {
      hide Inv, Tokens, Recounted, WasActive;
      if m !in subscribers {
        assert subscribers - {m} == subscribers;
        return false;
      }
      MemberIn(subs, subscribers, m);
      TakeOutKeeps(subs, subscribers, m);
      RefundAll(balances, subscribers, m);
      var r := subscribers[m];
      if r.prepaid.amount != 0 {
        balances := Moved(balances, Purse(m.subscriber, r.prepaid.symbol, r.tip), r.prepaid.amount);
      }
      subs := subs[m.sub := Recounted(subs[m.sub], -1, -WasActive(subscribers, m))];
      subscribers := subscribers - {m};
      return true;
    }

    /** One turn of a due subscriber: it pays, or it ends because nothing is left to execute or it cannot pay. */
    method ProcessOne(m: Member)
      requires Valid() && m in subscribers && 0 < subscribers[m].nextPayment
      modifies this
      ensures Valid() && 0 <= AllTurns(subscribers) < AllTurns(old(subscribers))
      ensures forall symbol, tip ::
                Tokens(balances, subscribers, symbol, tip) == old(Tokens(balances, subscribers, symbol, tip))
      ensures m.sub in old(subs) && View() == Turned(old(View()), m)
    {
      hide Inv, Tokens, Moved, Recounted, Charged, Ended, AllTurns, Rest;
      ProcessFacts(subs, subscribers, balances, m);
      NoRecount(subs, m.sub);
      var r := subscribers[m];
      UsedBounds(r);
      var used := Used(r);
      if r.executionsLeft == 0 {
        subscribers := subscribers[m := Ended(r)];
        subs := subs[m.sub := Recounted(subs[m.sub], 0, -1)];
        return;
      }
      var claim := 0;
      var claimed := balances;
      if used < r.cost.amount {
        claim := r.cost.amount - used;
        var purse := Purse(m.subscriber, r.cost.symbol, r.tip);
        if Balance(balances, purse) < claim {
          subscribers := subscribers[m := Ended(r)];
          subs := subs[m.sub := Recounted(subs[m.sub], 0, -1)];
          return;
        }
        claimed := Moved(balances, purse, -claim);
      }
      balances := Moved(claimed, Purse(m.sub.author, r.cost.symbol, r.tip), used + claim + Rest(r));
      subscribers := subscribers[m := Charged(r)];
    }

    /**
     process_paid_subscribers, with the index in any order among equal times: it visits the due entries one
     after another as the index moves under it, ends, because each turn uses one up, and neither makes nor
     loses tokens.
     */
    method ProcessAll(now: nat, index: seq<Member>) returns (turns: nat, queue: seq<Member>)
      requires Valid() && IsIndex(index, subscribers)
      modifies this
      ensures Valid() && turns <= Max(AllTurns(old(subscribers)), 0)
      ensures var start := Cursor(old(View()), index, 0);
              && RunsFor(start, turns, now)
              && View() == Visits(start, turns).books && queue == Visits(start, turns).queue
      ensures forall symbol, tip ::
                Tokens(balances, subscribers, symbol, tip) == old(Tokens(balances, subscribers, symbol, tip))
    {
      hide Inv, Tokens, AllTurns, Turned, Visits, IsIndex;
      ghost var start := Cursor(View(), index, 0);
      var at := 0;
      turns, queue := 0, index;
      VisitsStart(start);
      while at < |queue| && NextPayment(subscribers, queue[at]) <= now
        invariant Valid() && Visits(start, turns) == Cursor(View(), queue, at) && IsIndex(queue, subscribers)
        invariant forall k :: 0 <= k < turns ==> AtDue(Visits(start, k), now)
        invariant turns == 0 ==> subscribers == old(subscribers)
        invariant 0 < turns ==> 0 <= AllTurns(subscribers)
        invariant turns + AllTurns(subscribers) <= AllTurns(old(subscribers))
        invariant forall symbol, tip ::
                    Tokens(balances, subscribers, symbol, tip) == old(Tokens(balances, subscribers, symbol, tip))
        decreases AllTurns(subscribers)
      {
        var m, rest := queue[at], queue[at + 1..];
        VisitsStep(start, turns, Cursor(View(), queue, at));
        ProcessOne(m);
        var time := NextPayment(subscribers, m);
        if time == 0 {
          queue := queue[..at] + rest;
        } else if rest == [] || time <= NextPayment(subscribers, rest[0]) {
          at := at + 1;
        } else {
          queue := queue[..at] + Reinserted(rest, subscribers, m);
        }
        turns := turns + 1;
      }
    }

    ghost function View(): Books
      reads this
    {
      Books(subs, subscribers, balances)
    }
  }

  lemma VisitsStart(c: Cursor)
    ensures Visits(c, 0) == c
  {
  }

  lemma VisitsStep(start: Cursor, n: nat, c: Cursor)
    requires Visits(start, n) == c && Inv(c.books.subs, c.books.subscribers) && c.at < |c.queue|
    requires IsIndex(c.queue, c.books.subscribers)
    ensures Visits(start, n + 1) == Visited(c) && 0 < NextPayment(c.books.subscribers, c.queue[c.at])
    ensures IsIndex(Visited(c).queue, Visited(c).books.subscribers)
  {
    assert c.queue[c.at] in c.queue;
    VisitedKeepsIndex(c);
  }

  /** A deletion under way: todo are the members still to be refunded and removed. */
  ghost predicate Leaving(rs: Subscribers, now: Subscribers, k: Key, todo: set<Member>, b: Balances, c: Balances) {
    && (forall m :: m in todo ==> m in now && m.sub == k)
    && (forall m :: m in now <==> m in rs && (m.sub == k ==> m in todo))
    && (forall m :: m in now ==> now[m] == rs[m])
    && (forall p :: Balance(c, p) == Balance(b, p) + if Member(k, p.account) in todo then 0 else Refund(rs, k, p))
  }

  lemma LeavingStep(rs: Subscribers, now: Subscribers, k: Key, todo: set<Member>, b: Balances, c: Balances, m: Member)
    requires Leaving(rs, now, k, todo, b, c) && m in todo
    ensures m in now && m.sub == k
    ensures var r := now[m];
            Leaving(rs, now - {m}, k, todo - {m}, b,
                    if r.prepaid.amount == 0 then c
                    else Moved(c, Purse(m.subscriber, r.prepaid.symbol, r.tip), r.prepaid.amount))
  {
  }

  lemma NoRecount(subs: map<Key, Subscription>, k: Key)
    requires k in subs
    ensures subs[k := Recounted(subs[k], 0, 0)] == subs
  {
  }

  lemma RefundAll(b: Balances, rs: Subscribers, m: Member)
    requires m in rs
    ensures var r := rs[m];
            forall symbol, tip ::
              && Tokens(Moved(b, Purse(m.subscriber, r.prepaid.symbol, r.tip), r.prepaid.amount), rs - {m}, symbol, tip)
                 == Tokens(b, rs, symbol, tip)
              && (r.prepaid.amount == 0 ==> Tokens(b, rs - {m}, symbol, tip) == Tokens(b, rs, symbol, tip))
  {
    hide Tokens, Moved;
    forall symbol, tip
      ensures var r := rs[m];
              && Tokens(Moved(b, Purse(m.subscriber, r.prepaid.symbol, r.tip), r.prepaid.amount), rs - {m}, symbol, tip)
                 == Tokens(b, rs, symbol, tip)
              && (r.prepaid.amount == 0 ==> Tokens(b, rs - {m}, symbol, tip) == Tokens(b, rs, symbol, tip))
    {
      RefundTokens(b, rs, m, symbol, tip);
    }
  }

  /** All that a transfer relies on and achieves. */
  lemma TransferFacts(subs: map<Key, Subscription>, rs: Subscribers, b: Balances, m: Member, amount: Asset, now: nat)
    requires Inv(subs, rs) && m.sub in subs
    requires Accepts(subs[m.sub], if m in rs then Some(rs[m]) else None, amount, subs[m.sub].tip, amount.amount)
    ensures var p, known := subs[m.sub], if m in rs then Some(rs[m]) else None;
            var r := if m in rs then Renewed(rs[m], p, amount.amount, now) else FirstTime(p, amount.amount, now);
            && Inv(subs[m.sub := Recounted(p, Ind(m !in rs), 1 - WasActive(rs, m))], rs[m := r])
            && forall symbol, tip ::
              Tokens(Paid(b, m.sub, m.subscriber, p, known, amount.amount), rs[m := r], symbol, tip)
              == Tokens(b, rs, symbol, tip) + Shift(known, p, symbol, tip)
  {
    var p, known := subs[m.sub], if m in rs then Some(rs[m]) else None;
    assert SubscriptionOk(p);
    if m in rs {
      RenewedOk(rs[m], p, amount, now);
    } else {
      FirstTimeOk(p, amount, now);
    }
    var r := if m in rs then Renewed(rs[m], p, amount.amount, now) else FirstTime(p, amount.amount, now);
    assert r.active;
    PutKeeps(subs, rs, m, r);
    assert m in rs ==> SubscriberOk(rs[m], p);
    hide Inv, SubscriberOk, SubscriptionOk, Renewed, FirstTime, Recounted, Tokens, Paid;
    forall symbol, tip
      ensures Tokens(Paid(b, m.sub, m.subscriber, p, known, amount.amount), rs[m := r], symbol, tip)
              == Tokens(b, rs, symbol, tip) + Shift(known, p, symbol, tip)
    {
      if m in rs {
        RenewedTokens(b, rs, m, p, amount.amount, now, symbol, tip);
      } else {
        FirstTokens(b, rs, m, p, amount.amount, now, symbol, tip);
      }
    }
  }

  /** All that a turn relies on and achieves, whether the subscriber pays or ends. */
  lemma ProcessFacts(subs: map<Key, Subscription>, rs: Subscribers, b: Balances, m: Member)
    requires Inv(subs, rs) && m in rs && 0 < rs[m].nextPayment
    ensures m.sub in subs && 0 < subs[m.sub].activeSubscribers
    ensures Inv(subs[m.sub := Recounted(subs[m.sub], 0, -1)], rs[m := Ended(rs[m])])
    ensures 0 <= AllTurns(rs[m := Ended(rs[m])]) < AllTurns(rs)
    ensures forall symbol, tip :: Tokens(b, rs[m := Ended(rs[m])], symbol, tip) == Tokens(b, rs, symbol, tip)
    ensures 0 < rs[m].executionsLeft ==>
              && Inv(subs[m.sub := Recounted(subs[m.sub], 0, 0)], rs[m := Charged(rs[m])])
              && 0 <= AllTurns(rs[m := Charged(rs[m])]) < AllTurns(rs)
              && forall symbol, tip ::
                Tokens(ChargedPurses(b, m, rs[m]), rs[m := Charged(rs[m])], symbol, tip) == Tokens(b, rs, symbol, tip)
  {
    hide Inv, Tokens, AllTurns, SubscriberOk, SubscriptionOk, CountsAt, ChargedPurses, Recounted, Ended, Charged, Turns;
    MemberIn(subs, rs, m);
    var r := rs[m];
    ChargedOk(r, subs[m.sub]);
    PutKeeps(subs, rs, m, Ended(r));
    FewerTurns(rs, m, Ended(r));
    EndedAll(b, rs, m);
    if 0 < r.executionsLeft {
      PutKeeps(subs, rs, m, Charged(r));
      FewerTurns(rs, m, Charged(r));
      ChargedAll(b, rs, m);
    }
  }

  lemma EndedAll(b: Balances, rs: Subscribers, m: Member)
    requires m in rs
    ensures forall symbol, tip :: Tokens(b, rs[m := Ended(rs[m])], symbol, tip) == Tokens(b, rs, symbol, tip)
  {
    hide Tokens, Ended;
    forall symbol, tip
      ensures Tokens(b, rs[m := Ended(rs[m])], symbol, tip) == Tokens(b, rs, symbol, tip)
    {
      EndedTokens(b, rs, m, symbol, tip);
    }
  }

  lemma ChargedAll(b: Balances, rs: Subscribers, m: Member)
    requires m in rs && 0 < rs[m].executionsLeft && rs[m].prepaid.symbol == rs[m].cost.symbol
    ensures forall symbol, tip ::
              Tokens(ChargedPurses(b, m, rs[m]), rs[m := Charged(rs[m])], symbol, tip) == Tokens(b, rs, symbol, tip)
  {
    hide Tokens, ChargedPurses, Charged;
    forall symbol, tip
      ensures Tokens(ChargedPurses(b, m, rs[m]), rs[m := Charged(rs[m])], symbol, tip) == Tokens(b, rs, symbol, tip)
    {
      ChargedTokens(b, rs, m, symbol, tip);
    }
  }

  lemma RepriceStarts(rs: Subscribers, k: Key, cost: Asset, todo: set<Member>)
    requires todo == set m | m in rs && m.sub == k
    ensures AllRepriced(rs, k, cost, todo) == rs
  {
  }

  lemma RepriceStep(rs: Subscribers, k: Key, cost: Asset, todo: set<Member>, m: Member)
    requires m in todo && m in rs && m.sub == k
    ensures var now := AllRepriced(rs, k, cost, todo);
            && m in now && AllRepriced(rs, k, cost, todo - {m}) == now[m := Repriced(now[m], cost)]
            && ActiveMembers(AllRepriced(rs, k, cost, todo - {m}), k)
               == ActiveMembers(now, k) - if now[m].active then 1 else 0
  {
    var now := AllRepriced(rs, k, cost, todo);
    assert AllRepriced(rs, k, cost, todo - {m}) == now[m := Repriced(now[m], cost)];
    CountPut(now, m, Repriced(now[m], cost), k);
    hide ActiveMembers, AllRepriced;
  }

  lemma RepriceEnds(rs: Subscribers, k: Key, cost: Asset)
    ensures ActiveMembers(AllRepriced(rs, k, cost, {}), k) == 0
  {
    var qs := AllRepriced(rs, k, cost, {});
    SumZero(qs.Keys, ActiveTerm(qs, k));
  }

  /**
   A run in which prepaid main tokens become tip tokens: the author changes the kind between two payments of
   a subscriber that has five tokens prepaid.
   */
  method PrepaidChangesKind() returns (ledger: SubscriptionLedger, start: Balances)
    ensures Tokens(ledger.balances, ledger.subscribers, 0, false) == Tokens(start, map[], 0, false) - 5
    ensures Tokens(ledger.balances, ledger.subscribers, 0, true) == Tokens(start, map[], 0, true) + 5
  {
    start := map[Purse(1, 0, false) := 20, Purse(1, 0, true) := 20];
    ledger := new SubscriptionLedger(start);
    var k := Key(2, 0);
    hide Tokens, Inv;
    var created := ledger.Create(k, Asset(10, 0), false, true, 7, 3);
    var first := ledger.Transfer(k, 1, Asset(15, 0), false, 100);
    assert first && ledger.subscribers[Member(k, 1)].prepaid == Asset(5, 0);
    assert ledger.balances[Purse(1, 0, true)] == 20;
    var updated := ledger.Update(k, Asset(10, 0), true, 7, 3);
    assert updated;
    var second := ledger.Transfer(k, 1, Asset(10, 0), true, 101);
    assert second;
  }

  /** A subscriber that has made the first of three payments of ten, and has ninety left. */
  method OneSubscriber() returns (ledger: SubscriptionLedger)
    ensures fresh(ledger) && ledger.Valid() && ledger.subscribers.Keys == {Member(Key(2, 0), 1)}
    ensures Key(2, 0) in ledger.subs && Balance(ledger.balances, Purse(1, 0, false)) == 90
    ensures ledger.subscribers[Member(Key(2, 0), 1)]
            == Subscriber(Asset(10, 0), false, 7, 3, 3, Asset(0, 0), 107, true)
  {
    var k := Key(2, 0);
    ledger := new SubscriptionLedger(map[Purse(1, 0, false) := 100]);
    hide Tokens, Inv, Shift;
    var created := ledger.Create(k, Asset(10, 0), false, false, 7, 3);
    var first := ledger.Transfer(k, 1, Asset(10, 0), false, 100);
    assert first;
  }

  /** A subscriber two payments behind pays one of them and is still due: nothing stood after it in the index. */
  method OverdueWaits() returns (ledger: SubscriptionLedger, turns: nat)
    ensures var m := Member(Key(2, 0), 1);
            turns == 1 && m in ledger.subscribers && Due(ledger.subscribers, m, 200)
  {
    ledger := OneSubscriber();
    var m := Member(Key(2, 0), 1);
    ghost var start := Cursor(ledger.View(), [m], 0);
    SingleIndex(m, ledger.subscribers);
    OneVisit(start, m);
    hide IsIndex, Visits, AtDue, Due, RunsFor, Inv, Tokens, AllTurns;
    var queue;
    turns, queue := ledger.ProcessAll(200, [m]);
    OneTurn(start, m, turns);
  }

  lemma OneTurn(c: Cursor, m: Member, turns: nat)
    requires RunsFor(c, turns, 200) && AtDue(Visits(c, 0), 200) && !AtDue(Visits(c, 1), 200)
    requires Due(Visits(c, 1).books.subscribers, m, 200)
    ensures turns == 1 && m in Visits(c, 1).books.subscribers
  {
    hide AtDue, Visits;
  }

  lemma SingleIndex(m: Member, rs: Subscribers)
    requires rs.Keys == {m} && 0 < rs[m].nextPayment
    ensures IsIndex([m], rs)
  {
  }

  lemma OneVisit(c: Cursor, m: Member)
    requires c.queue == [m] && c.at == 0 && m in c.books.subscribers && m.sub in c.books.subs
    requires CanPay(c.books.subscribers[m], m, c.books.balances)
    requires c.books.subscribers[m].nextPayment == 107 && c.books.subscribers[m].interval == 7
    ensures AtDue(Visits(c, 0), 200) && !AtDue(Visits(c, 1), 200) && Due(Visits(c, 1).books.subscribers, m, 200)
  {
    var s := Turned(c.books, m);
    assert s.subscribers[m].nextPayment == 114;
    assert Visits(c, 1) == Visited(c) == Cursor(s, [m], 1);
  }
}

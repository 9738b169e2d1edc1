/** Paying a comment out of the reward fund: curators and their delegators, beneficiaries, and the author. */
module Cashout {
  import opened Common
  import opened Arith
  import opened Curation

  datatype Kind = Delegation | CurationReward | Benefaction | AuthorVesting | WorkerPool

  datatype Payment = Payment(kind: Kind, account: Voter, amount: int)

  datatype Destination = ToFund | ToCurators | ToAuthor

  datatype Beneficiary = Beneficiary(account: Voter, weight: nat)

  datatype Bill = Bill(
    allowCuration: bool, destination: Destination, window: nat, curationPercent: nat, dollarPercent: nat,
    beneficiaries: seq<Beneficiary>)

  /** The tokens of a list of payments. */
  function Amount(log: seq<Payment>): int {
    if log == [] then 0 else log[0].amount + Amount(log[1..])
  }

  lemma {:induction false} AmountConcat(a: seq<Payment>, b: seq<Payment>)
    ensures Amount(a + b) == Amount(a) + Amount(b)
  {
    if a == [] {
      assert a + b == b;
    } else {
      assert (a + b)[1..] == a[1..] + b;
      AmountConcat(a[1..], b);
    }
  }

  lemma AmountOne(p: Payment)
    ensures Amount([p]) == p.amount
  {
    assert [p][1..] == [];
  }

  // ---------- a curator and its delegators ----------

  /** The sum of the rates that are honoured: those above 100% are skipped. */
  function RateSum(rates: seq<DelegatorRate>): nat {
    if rates == [] then 0
    else (if rates[0].rate > HUNDRED_PERCENT then 0 else rates[0].rate) + RateSum(rates[1..])
  }

  /** A part of a claim; the product is taken in 64 bits. */
  function Portion(claim: nat, rate: nat): nat {
    Wrap(claim * rate) / HUNDRED_PERCENT
  }

  function DelegatorClaim(claim: nat, rate: nat): nat {
    if rate > HUNDRED_PERCENT then 0 else Portion(claim, rate)
  }

  function DelegatorPayments(rates: seq<DelegatorRate>, claim: nat): seq<Payment> {
    if rates == [] then []
    else
      var part := DelegatorClaim(claim, rates[|rates| - 1].rate);
      DelegatorPayments(rates[..|rates| - 1], claim)
      + if part == 0 then [] else [Payment(Delegation, rates[|rates| - 1].account, part)]
  }

  lemma {:induction false} RateSumAppend(rates: seq<DelegatorRate>, r: DelegatorRate)
    ensures RateSum(rates + [r]) == RateSum(rates) + if r.rate > HUNDRED_PERCENT then 0 else r.rate
  {
    if rates == [] {
      assert rates + [r] == [r] && [r][1..] == [];
    } else {
      assert (rates + [r])[1..] == rates[1..] + [r];
      RateSumAppend(rates[1..], r);
    }
  }

  /** An honoured rate is a percentage of the claim, rounded down, as long as the product fits 64 bits. */
  lemma DelegatorClaimIsRate(claim: nat, rate: nat)
    requires claim * rate < LIMIT64
    ensures if rate <= HUNDRED_PERCENT then IsFloor(DelegatorClaim(claim, rate), claim * rate, HUNDRED_PERCENT)
            else DelegatorClaim(claim, rate) == 0
  {
    NoWrap(claim * rate);
    FloorIs(claim * rate, HUNDRED_PERCENT);
  }

  lemma DelegatorClaimBound(claim: nat, rate: nat)
    ensures DelegatorClaim(claim, rate) * HUNDRED_PERCENT <= claim * if rate > HUNDRED_PERCENT then 0 else rate
  {
    var product := claim * rate;
    assert 0 <= product;
    assert Wrap(product) <= product;
  }

  /** The delegators take no more than their rates of the claim. */
  lemma {:induction false} DelegatorsTakeTheirRates(rates: seq<DelegatorRate>, claim: nat)
    ensures 0 <= Amount(DelegatorPayments(rates, claim))
    ensures Amount(DelegatorPayments(rates, claim)) * HUNDRED_PERCENT <= claim * RateSum(rates)
  {
    if rates != [] {
      var n := |rates| - 1;
      var part := DelegatorClaim(claim, rates[n].rate);
      DelegatorsTakeTheirRates(rates[..n], claim);
      assert rates == rates[..n] + [rates[n]];
      RateSumAppend(rates[..n], rates[n]);
      var tail := if part == 0 then [] else [Payment(Delegation, rates[n].account, part)];
      AmountConcat(DelegatorPayments(rates[..n], claim), tail);
      AmountOne(Payment(Delegation, rates[n].account, part));
      assert Amount(tail) == part;
      var rate := if rates[n].rate > HUNDRED_PERCENT then 0 else rates[n].rate;
      DelegatorClaimBound(claim, rates[n].rate);
      Distribute(Amount(DelegatorPayments(rates[..n], claim)), part, HUNDRED_PERCENT, claim, RateSum(rates[..n]), rate);
      hide DelegatorClaim, RateSum;
    }
  }

  /** So when the rates add up to at most 100%, the curator's own part is never negative. */
  lemma DelegatorsWithinClaim(rates: seq<DelegatorRate>, claim: nat)
    requires RateSum(rates) <= HUNDRED_PERCENT
    ensures 0 <= Amount(DelegatorPayments(rates, claim)) <= claim
  {
    DelegatorsTakeTheirRates(rates, claim);
    MulMonotone(RateSum(rates), HUNDRED_PERCENT, claim);
    assert claim * RateSum(rates) == RateSum(rates) * claim;
    var amount := Amount(DelegatorPayments(rates, claim));
    hide *;
    if claim < amount {
      MulStrict(claim, amount, HUNDRED_PERCENT);
    }
  }

  lemma AppendOne(a: seq<Payment>, b: seq<Payment>, p: Payment)
    ensures a + b + [p] == a + (b + [p])
  {
  }

  lemma DelegatorPaymentsStart(rates: seq<DelegatorRate>, claim: nat)
    ensures DelegatorPayments(rates[..0], claim) == [] && Amount(DelegatorPayments(rates[..0], claim)) == 0
  {
  }

  lemma DelegatorPaymentsNext(rates: seq<DelegatorRate>, i: nat, claim: nat)
    requires i < |rates|
    ensures var part := DelegatorClaim(claim, rates[i].rate);
            var before, after := DelegatorPayments(rates[..i], claim), DelegatorPayments(rates[..i + 1], claim);
            && after == (if part == 0 then before else before + [Payment(Delegation, rates[i].account, part)])
            && Amount(after) == Amount(before) + part
  {
    assert rates[..i + 1][..i] == rates[..i];
    var p := Payment(Delegation, rates[i].account, DelegatorClaim(claim, rates[i].rate));
    AmountConcat(DelegatorPayments(rates[..i], claim), [p]);
    AmountOne(p);
  }

  /** Whether the voter has enough shares to curate may depend on what was paid before. */
  type Eligible = (Voter, seq<Payment>) -> bool

  /** A claim goes to the delegators and the rest of it to the voter, unless the voter may not curate. */
  function CuratorPayments(vote: Vote, claim: nat, ok: bool): seq<Payment> {
    if !ok then []
    else
      var delegators := DelegatorPayments(vote.rates, claim);
      delegators + [Payment(CurationReward, vote.voter, claim - Amount(delegators))]
  }

  lemma ClaimIsPaidInFull(vote: Vote, claim: nat, ok: bool)
    ensures Amount(CuratorPayments(vote, claim, ok)) == if ok then claim else 0
  {
    if ok {
      var delegators := DelegatorPayments(vote.rates, claim);
      var own := Payment(CurationReward, vote.voter, claim - Amount(delegators));
      AmountConcat(delegators, [own]);
      AmountOne(own);
    }
  }

  /** The delegators come first, and whatever they leave is the voter's; a voter who may not curate gets nothing. */
  lemma VoterGetsTheRest(vote: Vote, claim: nat, ok: bool)
    ensures var ps := CuratorPayments(vote, claim, ok);
            if !ok then ps == []
            else
              && ps != [] && ps[..|ps| - 1] == DelegatorPayments(vote.rates, claim)
              && ps[|ps| - 1] == Payment(CurationReward, vote.voter, claim - Amount(ps[..|ps| - 1]))
  {
    hide DelegatorPayments, Amount;
    if ok {
      var ps := CuratorPayments(vote, claim, ok);
      assert ps[..|ps| - 1] == DelegatorPayments(vote.rates, claim);
    }
  }

  // ---------- the curators of a comment ----------

  /** The figures one payout to curators is computed from. */
  datatype Terms = Terms(max: nat, total: nat, auctionReward: nat, after: nat, window: nat, toCurators: bool)

  function TermsOf(max: nat, info: CurationInfo, bill: Bill): Terms
    requires 0 < info.totalVoteWeight && InfoWeights(info)
  {
    DivNonNegative(max * info.auctionWindowWeight, info.totalVoteWeight);
    Terms(max, info.totalVoteWeight, max * info.auctionWindowWeight / info.totalVoteWeight,
          info.votesAfterAuctionWindowWeight, bill.window, bill.destination == ToCurators)
  }

  predicate InfoWeights(info: CurationInfo) {
    0 <= info.auctionWindowWeight && 0 <= info.votesAfterAuctionWindowWeight
  }

  predicate Full(t: Terms, e: VoteInfo) {
    t.toCurators && e.vote.auctionTime == t.window
  }

  /** A vote's share of the budget, and its share of what the auction window withheld. */
  function Base(t: Terms, e: VoteInfo): int
    requires 0 < t.total
  {
    t.max * e.weight / t.total
  }

  function Bonus(t: Terms, e: VoteInfo): int {
    if Full(t, e) && t.after != 0 then t.auctionReward * e.weight / t.after else 0
  }

  function Claim(t: Terms, e: VoteInfo): int
    requires 0 < t.total
  {
    Base(t, e) + Bonus(t, e)
  }

  predicate Heaviest(t: Terms, list: seq<VoteInfo>, k: nat)
    requires k < |list|
  {
    Full(t, list[k]) && forall j :: 0 <= j < k ==> !Full(t, list[j])
  }

  /** In a list in order, the first vote at full auction time is the heaviest of those. */
  lemma FirstIsHeaviest(t: Terms, list: seq<VoteInfo>, k: nat, j: nat)
    requires InOrder(list) && k < |list| && j < |list| && Heaviest(t, list, k)
    requires t.toCurators && list[j].vote.auctionTime == t.window
    ensures list[j].weight <= list[k].weight
  {
    if j != k {
      assert k < j;
      assert !Before(list[j], list[k]);
    }
  }

  function ClaimsUpTo(t: Terms, list: seq<VoteInfo>, n: nat): int
    requires 0 < t.total && n <= |list|
  {
    if n == 0 then 0 else ClaimsUpTo(t, list, n - 1) + Claim(t, list[n - 1])
  }

  predicate NonNegative(list: seq<VoteInfo>) {
    forall k :: 0 <= k < |list| ==> 0 <= list[k].weight
  }

  lemma BaseBounds(t: Terms, e: VoteInfo)
    requires 0 < t.total && 0 <= e.weight
    ensures 0 <= Base(t, e) && Base(t, e) * t.total <= t.max * e.weight
  {
    MulMonotone(0, e.weight, t.max);
    DivNonNegative(t.max * e.weight, t.total);
    DivBounds(t.max * e.weight, t.total);
  }

  lemma BonusBounds(t: Terms, e: VoteInfo)
    requires 0 <= e.weight
    ensures 0 <= Bonus(t, e)
    ensures Bonus(t, e) * t.after <= t.auctionReward * Counted(e, t.window, true)
  {
    MulMonotone(0, e.weight, t.auctionReward);
    if Full(t, e) && t.after != 0 {
      DivNonNegative(t.auctionReward * e.weight, t.after);
      DivBounds(t.auctionReward * e.weight, t.after);
    }
  }

  /**
   A claim is the vote's share of the budget by weight, rounded down, and for a vote at full auction time, if the
   window's reward goes to curators, its share of that reward among those votes as well.
   */
  lemma ClaimIsShare(t: Terms, e: VoteInfo)
    requires 0 < t.total && 0 <= t.after
    ensures IsFloor(Base(t, e), t.max * e.weight, t.total)
    ensures if t.toCurators && e.vote.auctionTime == t.window && 0 < t.after then
              IsFloor(Claim(t, e) - Base(t, e), t.auctionReward * e.weight, t.after)
            else Claim(t, e) == Base(t, e)
  {
    FloorIs(t.max * e.weight, t.total);
    if 0 < t.after {
      FloorIs(t.auctionReward * e.weight, t.after);
    }
  }

  /** The terms are the comment's own figures, the window's reward being its share of the budget, rounded down. */
  lemma TermsAreFigures(max: nat, info: CurationInfo, bill: Bill)
    requires 0 < info.totalVoteWeight && InfoWeights(info)
    ensures var t := TermsOf(max, info, bill);
            && t.max == max && t.total == info.totalVoteWeight && t.after == info.votesAfterAuctionWindowWeight
            && t.window == bill.window && t.toCurators == (bill.destination == ToCurators)
            && IsFloor(t.auctionReward, max * info.auctionWindowWeight, info.totalVoteWeight)
  {
    FloorIs(max * info.auctionWindowWeight, info.totalVoteWeight);
  }

  /** The budget and the window's reward, each shared out by weight and rounded down. */
  lemma {:induction false} SharesRoundDown(t: Terms, list: seq<VoteInfo>, n: nat) returns (base: int, bonus: int)
    requires 0 < t.total && n <= |list| && NonNegative(list)
    ensures ClaimsUpTo(t, list, n) == base + bonus && 0 <= base && 0 <= bonus
    ensures base * t.total <= t.max * WeightOf(list[..n], t.window, false)
    ensures bonus * t.after <= t.auctionReward * WeightOf(list[..n], t.window, true)
    ensures t.after == 0 ==> bonus == 0
  {
    if n == 0 {
      return 0, 0;
    }
    var e := list[n - 1];
    base, bonus := SharesRoundDown(t, list, n - 1);
    BaseBounds(t, e);
    BonusBounds(t, e);
    assert list[..n] == list[..n - 1] + [e];
    WeightOfAppend(list[..n - 1], e, t.window, false);
    WeightOfAppend(list[..n - 1], e, t.window, true);
    Distribute(base, Base(t, e), t.total, t.max, WeightOf(list[..n - 1], t.window, false), e.weight);
    Distribute(bonus, Bonus(t, e), t.after, t.auctionReward, WeightOf(list[..n - 1], t.window, true),
      Counted(e, t.window, true));
    hide Base, WeightOf, Counted;
    base, bonus := base + Base(t, e), bonus + Bonus(t, e);
  }

  lemma Distribute(x: int, y: int, k: int, m: int, a: int, b: int)
    requires x * k <= m * a && y * k <= m * b
    ensures (x + y) * k <= m * (a + b)
  {
    assert (x + y) * k == x * k + y * k && m * (a + b) == m * a + m * b;
  }

  /** All claims together never exceed the budget, whatever the destination of the window's reward. */
  lemma ClaimsWithinBudget(t: Terms, info: CurationInfo, bill: Bill)
    requires InfoFor(info, bill.window) && 0 < info.totalVoteWeight && InfoWeights(info)
            && t == TermsOf(t.max, info, bill)
    ensures ClaimsUpTo(t, info.voteList, |info.voteList|) <= t.max
  {
    var list := info.voteList;
    var base, bonus := SharesRoundDown(t, list, |list|);
    assert list[..|list|] == list;
    var given := WeightOf(list, t.window, false);
    DivBounds(t.max * info.auctionWindowWeight, t.total);
    assert bonus <= t.auctionReward by {
      if t.auctionReward < bonus && t.after != 0 {
        MulStrict(t.auctionReward, bonus, t.after);
      }
    }
    MulMonotone(bonus, t.auctionReward, t.total);
    BudgetSum(t.max, t.total, base, bonus, given, info.auctionWindowWeight);
  }

  lemma BudgetSum(max: int, total: int, base: int, bonus: int, given: int, auction: int)
    requires 0 < total && base * total <= max * given && bonus * total <= max * auction && total == given + auction
    ensures base + bonus <= max
  {
    Distribute(base, bonus, total, max, given, auction);
    if max < base + bonus {
      MulStrict(max, base + bonus, total);
    }
  }

  // ---------- the order of payments ----------

  /** One claim paid: the vote's place in the list and the tokens. */
  datatype Step = Step(index: nat, claim: int)

  /** The first n votes, each paid its claim, without the one that waits for the remainder. */
  function StepsUpTo(t: Terms, list: seq<VoteInfo>, n: nat): (r: seq<Step>)
    requires 0 < t.total && n <= |list|
    ensures forall k :: 0 <= k < |r| ==> r[k].index < n
  {
    if n == 0 then []
    else StepsUpTo(t, list, n - 1) + if Heaviest(t, list, n - 1) then [] else [Step(n - 1, Claim(t, list[n - 1]))]
  }

  predicate GoodSteps(list: seq<VoteInfo>, steps: seq<Step>) {
    forall k :: 0 <= k < |steps| ==> steps[k].index < |list| && 0 <= steps[k].claim
  }

  lemma {:induction false} StepsAreGood(t: Terms, list: seq<VoteInfo>, n: nat)
    requires 0 < t.total && n <= |list| && NonNegative(list)
    ensures GoodSteps(list, StepsUpTo(t, list, n))
  {
    if n > 0 {
      StepsAreGood(t, list, n - 1);
      ClaimNonNegative(t, list[n - 1]);
    }
  }

  function StepSum(steps: seq<Step>): int {
    if steps == [] then 0 else StepSum(steps[..|steps| - 1]) + steps[|steps| - 1].claim
  }

  lemma StepSumAppend(steps: seq<Step>, s: Step)
    ensures StepSum(steps + [s]) == StepSum(steps) + s.claim
  {
    assert (steps + [s])[..|steps|] == steps;
  }

  lemma ClaimNonNegative(t: Terms, e: VoteInfo)
    requires 0 < t.total && 0 <= e.weight
    ensures 0 <= Claim(t, e)
  {
    BaseBounds(t, e);
    BonusBounds(t, e);
  }

  lemma {:induction false} StepsWithinClaims(t: Terms, list: seq<VoteInfo>, n: nat)
    requires 0 < t.total && n <= |list| && NonNegative(list)
    ensures StepSum(StepsUpTo(t, list, n)) <= ClaimsUpTo(t, list, n) <= ClaimsUpTo(t, list, |list|)
    decreases n
  {
    hide Claim, Heaviest, NonNegative, StepsUpTo, StepSum;
    ClaimsGrow(t, list, n);
    if n == 0 {
      NoSteps(t, list);
    } else {
      ClaimAt(t, list, n - 1);
      StepsWithinClaims(t, list, n - 1);
      StepSumNext(t, list, n - 1);
    }
  }

  lemma NoSteps(t: Terms, list: seq<VoteInfo>)
    requires 0 < t.total
    ensures StepSum(StepsUpTo(t, list, 0)) == 0
  {
  }

  lemma ClaimAt(t: Terms, list: seq<VoteInfo>, k: nat)
    requires 0 < t.total && k < |list| && NonNegative(list)
    ensures 0 <= Claim(t, list[k])
  {
    ClaimNonNegative(t, list[k]);
  }

  lemma StepSumNext(t: Terms, list: seq<VoteInfo>, n: nat)
    requires 0 < t.total && n < |list|
    ensures StepSum(StepsUpTo(t, list, n + 1))
            == StepSum(StepsUpTo(t, list, n)) + if Heaviest(t, list, n) then 0 else Claim(t, list[n])
  {
    hide Claim, Heaviest;
    StepSumAppend(StepsUpTo(t, list, n), Step(n, Claim(t, list[n])));
    assert StepsUpTo(t, list, n) + [] == StepsUpTo(t, list, n);
  }

  lemma {:induction false} ClaimsGrow(t: Terms, list: seq<VoteInfo>, n: nat)
    requires 0 < t.total && n <= |list| && NonNegative(list)
    ensures ClaimsUpTo(t, list, n) <= ClaimsUpTo(t, list, |list|)
    decreases |list| - n
  {
    if n < |list| {
      ClaimNonNegative(t, list[n]);
      ClaimsGrow(t, list, n + 1);
    }
  }

  /** Payments end before the first vote, other than the waiting one, whose claim is nothing. */
  predicate StopsAt(t: Terms, list: seq<VoteInfo>, stop: nat)
    requires 0 < t.total
  {
    && stop <= |list|
    && (forall k :: 0 <= k < stop && !Heaviest(t, list, k) ==> 0 < Claim(t, list[k]))
    && (stop < |list| ==> !Heaviest(t, list, stop) && Claim(t, list[stop]) == 0)
  }

  /** What is paid in all: the claims up to the stop, then the remainder to the waiting vote if there is one. */
  predicate StepsAre(t: Terms, list: seq<VoteInfo>, stop: nat, steps: seq<Step>)
    requires 0 < t.total && stop <= |list|
  {
    var before := StepsUpTo(t, list, stop);
    || (steps == before && forall h :: 0 <= h < stop ==> !Heaviest(t, list, h))
    || (exists h :: 0 <= h < stop && Heaviest(t, list, h) && steps == before + [Step(h, t.max - StepSum(before))])
  }

  /** When the window's reward does not go to curators, the early end of the loop costs nobody anything. */
  lemma NobodySkipped(t: Terms, list: seq<VoteInfo>, stop: nat, k: nat)
    requires 0 < t.total && InOrder(list) && NonNegative(list) && !t.toCurators
    requires StopsAt(t, list, stop) && stop <= k < |list|
    ensures Claim(t, list[k]) == 0
  {
    BaseMonotone(t, list[k], list[stop]);
    BaseBounds(t, list[k]);
    if stop < k {
      assert !Before(list[k], list[stop]);
    }
  }

  lemma BaseMonotone(t: Terms, a: VoteInfo, b: VoteInfo)
    requires 0 < t.total
    ensures a.weight <= b.weight ==> Base(t, a) <= Base(t, b)
  {
    if a.weight <= b.weight {
      MulMonotone(a.weight, b.weight, t.max);
      DivMonotone(t.max * a.weight, t.max * b.weight, t.total);
    }
  }

  lemma BonusMonotone(t: Terms, a: VoteInfo, b: VoteInfo)
    requires Full(t, a) == Full(t, b)
    ensures a.weight <= b.weight ==> Bonus(t, a) <= Bonus(t, b)
  {
    if a.weight <= b.weight && Full(t, a) && t.after != 0 {
      MulMonotone(a.weight, b.weight, t.auctionReward);
      DivMonotone(t.auctionReward * a.weight, t.auctionReward * b.weight, t.after);
    }
  }

  /** A dust vote from inside the window stands before a vote that would share the window's reward. */
  predicate DustInFront(t: Terms, list: seq<VoteInfo>, i: nat, j: nat)
    requires i < j < |list|
  {
    && !Full(t, list[i]) && t.max * list[i].weight < t.total
    && Full(t, list[j]) && t.after != 0 && t.after <= t.auctionReward * list[j].weight
  }

  /**
   When the reward does go to curators, a vote with a claim can be skipped: exactly when a vote from inside
   the window, too light for a claim of its own, is ordered before a vote that has a share in that reward.
   */
  lemma SkippedExactlyBehindDust(t: Terms, list: seq<VoteInfo>, stop: nat)
    requires 0 < t.total && InOrder(list) && NonNegative(list) && StopsAt(t, list, stop)
    ensures (exists j :: stop <= j < |list| && 0 < Claim(t, list[j]))
            <==> (exists i, j :: 0 <= i < j < |list| && DustInFront(t, list, i, j))
  {
    if i, j :| 0 <= i < j < |list| && DustInFront(t, list, i, j) {
      DivAtLeast(t.max * list[i].weight, t.total, 1);
      BaseBounds(t, list[i]);
      assert Claim(t, list[i]) == 0 && !Heaviest(t, list, i);
      assert stop <= i;
      DivAtLeast(t.auctionReward * list[j].weight, t.after, 1);
      BaseBounds(t, list[j]);
      assert 0 < Claim(t, list[j]);
    }
    if j :| stop <= j < |list| && 0 < Claim(t, list[j]) {
      SkippedBehind(t, list, stop, j);
    }
  }

  lemma SkippedBehind(t: Terms, list: seq<VoteInfo>, stop: nat, j: nat)
    requires 0 < t.total && InOrder(list) && NonNegative(list) && StopsAt(t, list, stop)
    requires stop <= j < |list| && 0 < Claim(t, list[j])
    ensures stop < j && DustInFront(t, list, stop, j)
  {
    var s, e := list[stop], list[j];
    assert stop < j;
    assert !Before(e, s);
    BaseMonotone(t, e, s);
    BaseBounds(t, s);
    BonusBounds(t, s);
    BaseBounds(t, e);
    DivAtLeast(t.max * s.weight, t.total, 1);
    if Full(t, s) == Full(t, e) {
      BonusMonotone(t, e, s);
      assert false;
    }
    assert 0 < Bonus(t, e);
    DivAtLeast(t.auctionReward * e.weight, t.after, 1);
  }

  // ---------- settling the steps ----------

  /** The payments after a sequence of steps, and what of them went back to the fund. */
  function Log(eligible: Eligible, list: seq<VoteInfo>, paid: seq<Payment>, steps: seq<Step>): seq<Payment>
    requires GoodSteps(list, steps)
  {
    if steps == [] then paid
    else
      var s := steps[|steps| - 1];
      var before := Log(eligible, list, paid, steps[..|steps| - 1]);
      var vote := list[s.index].vote;
      before + CuratorPayments(vote, s.claim, eligible(vote.voter, before))
  }

  function Back(eligible: Eligible, list: seq<VoteInfo>, paid: seq<Payment>, steps: seq<Step>): int
    requires GoodSteps(list, steps)
  {
    if steps == [] then 0
    else
      var s := steps[|steps| - 1];
      var before := Log(eligible, list, paid, steps[..|steps| - 1]);
      Back(eligible, list, paid, steps[..|steps| - 1])
      + if eligible(list[s.index].vote.voter, before) then 0 else s.claim
  }

  /** Every step's tokens are paid out or go back to the fund. */
  lemma {:induction false} StepsAreConserved(
    eligible: Eligible, list: seq<VoteInfo>, paid: seq<Payment>, steps: seq<Step>)
    requires GoodSteps(list, steps)
    ensures Amount(Log(eligible, list, paid, steps)) + Back(eligible, list, paid, steps)
            == Amount(paid) + StepSum(steps)
    ensures 0 <= Back(eligible, list, paid, steps)
  {
    if steps != [] {
      var n := |steps| - 1;
      StepsAreConserved(eligible, list, paid, steps[..n]);
      var before := Log(eligible, list, paid, steps[..n]);
      var vote := list[steps[n].index].vote;
      var ok := eligible(vote.voter, before);
      ClaimIsPaidInFull(vote, steps[n].claim, ok);
      AmountConcat(before, CuratorPayments(vote, steps[n].claim, ok));
    }
  }

  /** One more step. */
  lemma LogNext(eligible: Eligible, list: seq<VoteInfo>, paid: seq<Payment>, steps: seq<Step>, s: Step)
    requires GoodSteps(list, steps) && s.index < |list| && 0 <= s.claim
    ensures GoodSteps(list, steps + [s]) && StepSum(steps + [s]) == StepSum(steps) + s.claim
    ensures var before, vote := Log(eligible, list, paid, steps), list[s.index].vote;
            && Log(eligible, list, paid, steps + [s])
               == before + CuratorPayments(vote, s.claim, eligible(vote.voter, before))
            && Back(eligible, list, paid, steps + [s])
               == Back(eligible, list, paid, steps) + if eligible(vote.voter, before) then 0 else s.claim
  {
    assert (steps + [s])[..|steps|] == steps;
    hide CuratorPayments;
  }

  /**
   The step of vote n: nothing for the waiting vote, its claim for any other, always within what is left of the
   budget.
   */
  lemma StepsNext(t: Terms, list: seq<VoteInfo>, n: nat)
    requires 0 < t.total && n < |list| && NonNegative(list) && ClaimsUpTo(t, list, |list|) <= t.max
    ensures GoodSteps(list, StepsUpTo(t, list, n)) && 0 <= Claim(t, list[n])
    ensures StepSum(StepsUpTo(t, list, n)) + (if Heaviest(t, list, n) then 0 else Claim(t, list[n])) <= t.max
    ensures StepsUpTo(t, list, n + 1)
            == if Heaviest(t, list, n) then StepsUpTo(t, list, n)
               else StepsUpTo(t, list, n) + [Step(n, Claim(t, list[n]))]
  {
    StepsAreGood(t, list, n);
    ClaimNonNegative(t, list[n]);
    StepsWithinClaims(t, list, n + 1);
    StepsWithinClaims(t, list, n);
    StepSumAppend(StepsUpTo(t, list, n), Step(n, Claim(t, list[n])));
    hide Claim, Heaviest;
  }

  /** The recorded rates of every vote add up to at most 100%. */
  predicate RatesWithin(list: seq<VoteInfo>) {
    forall k :: 0 <= k < |list| ==> RateSum(list[k].vote.rates) <= HUNDRED_PERCENT
  }

  // ---------- beneficiaries ----------

  function WeightSum(bs: seq<Beneficiary>): nat {
    if bs == [] then 0 else WeightSum(bs[..|bs| - 1]) + bs[|bs| - 1].weight
  }

  function BeneficiaryPayments(bs: seq<Beneficiary>, tokens: nat): seq<Payment> {
    if bs == [] then []
    else
      var b := bs[|bs| - 1];
      BeneficiaryPayments(bs[..|bs| - 1], tokens)
      + [Payment(Benefaction, b.account, tokens * b.weight / HUNDRED_PERCENT)]
  }

  lemma {:induction false} BeneficiariesTakeTheirWeights(bs: seq<Beneficiary>, tokens: nat)
    ensures 0 <= Amount(BeneficiaryPayments(bs, tokens))
    ensures Amount(BeneficiaryPayments(bs, tokens)) * HUNDRED_PERCENT <= tokens * WeightSum(bs)
    ensures forall p :: p in BeneficiaryPayments(bs, tokens) ==> 0 <= p.amount
  {
    if bs != [] {
      var n := |bs| - 1;
      var part := tokens * bs[n].weight / HUNDRED_PERCENT;
      BeneficiariesTakeTheirWeights(bs[..n], tokens);
      AmountConcat(BeneficiaryPayments(bs[..n], tokens), [Payment(Benefaction, bs[n].account, part)]);
      AmountOne(Payment(Benefaction, bs[n].account, part));
      MulMonotone(0, bs[n].weight, tokens);
      DivNonNegative(tokens * bs[n].weight, HUNDRED_PERCENT);
      DivBounds(tokens * bs[n].weight, HUNDRED_PERCENT);
      Distribute(Amount(BeneficiaryPayments(bs[..n], tokens)), part, HUNDRED_PERCENT, tokens, WeightSum(bs[..n]),
        bs[n].weight);
    }
  }

  lemma BeneficiariesWithinTokens(bs: seq<Beneficiary>, tokens: nat)
    requires WeightSum(bs) <= HUNDRED_PERCENT
    ensures 0 <= Amount(BeneficiaryPayments(bs, tokens)) <= tokens
    ensures forall p :: p in BeneficiaryPayments(bs, tokens) ==> 0 <= p.amount
  {
    BeneficiariesTakeTheirWeights(bs, tokens);
    MulMonotone(WeightSum(bs), HUNDRED_PERCENT, tokens);
    assert tokens * WeightSum(bs) == WeightSum(bs) * tokens;
    var amount := Amount(BeneficiaryPayments(bs, tokens));
    hide *;
    if tokens < amount {
      MulStrict(tokens, amount, HUNDRED_PERCENT);
    }
  }

  predicate BillWithin(bill: Bill) {
    && WeightSum(bill.beneficiaries) <= HUNDRED_PERCENT && bill.curationPercent <= HUNDRED_PERCENT
    && bill.dollarPercent <= HUNDRED_PERCENT
  }

  /** The author's side: beneficiaries, the author's vesting, and the part for the worker pool. */
  function AuthorPayments(bill: Bill, author: Voter, workers: Voter, tokens: nat): seq<Payment> {
    var rest := tokens - Amount(BeneficiaryPayments(bill.beneficiaries, tokens));
    var dollars := rest * bill.dollarPercent / (2 * HUNDRED_PERCENT);
    BeneficiaryPayments(bill.beneficiaries, tokens)
    + [Payment(AuthorVesting, author, rest - dollars), Payment(WorkerPool, workers, dollars)]
  }

  /** It is paid in full, and nobody on it is paid a negative amount. */
  lemma AuthorSideIsPaidInFull(bill: Bill, author: Voter, workers: Voter, tokens: nat)
    requires BillWithin(bill)
    ensures Amount(AuthorPayments(bill, author, workers, tokens)) == tokens
    ensures forall p :: p in AuthorPayments(bill, author, workers, tokens) ==> 0 <= p.amount
  {
    var bs := BeneficiaryPayments(bill.beneficiaries, tokens);
    BeneficiariesWithinTokens(bill.beneficiaries, tokens);
    var rest := tokens - Amount(bs);
    var dollars := rest * bill.dollarPercent / (2 * HUNDRED_PERCENT);
    ShareBounds(rest, bill.dollarPercent, 2 * HUNDRED_PERCENT);
    hide BeneficiaryPayments;
    var a, w := Payment(AuthorVesting, author, rest - dollars), Payment(WorkerPool, workers, dollars);
    assert [a, w] == [a] + [w];
    AmountConcat([a], [w]);
    AmountOne(a);
    AmountOne(w);
    AmountConcat(bs, [a, w]);
  }

  /**
   Who gets how much of the author's side: every beneficiary its percentage of the tokens, rounded down, and of the
   rest the worker pool half the dollar percentage, rounded down, and the author everything else.
   */
  predicate AuthorSplit(added: seq<Payment>, bill: Bill, author: Voter, workers: Voter, tokens: nat) {
    var bs, n := bill.beneficiaries, |bill.beneficiaries|;
    && |added| == n + 2
    && (forall k :: 0 <= k < n ==>
                      && added[k].kind == Benefaction && added[k].account == bs[k].account
                      && IsFloor(added[k].amount, tokens * bs[k].weight, HUNDRED_PERCENT))
    && var rest, w := tokens - Amount(added[..n]), added[n + 1].amount;
    && added[n] == Payment(AuthorVesting, author, rest - w) && added[n + 1] == Payment(WorkerPool, workers, w)
    && IsFloor(w, rest * bill.dollarPercent, 2 * HUNDRED_PERCENT)
    && rest <= 2 * added[n].amount && (bill.dollarPercent == 0 ==> added[n].amount == rest)
  }

  lemma {:induction false} BeneficiariesSplit(bs: seq<Beneficiary>, tokens: nat)
    ensures var ps := BeneficiaryPayments(bs, tokens);
            && |ps| == |bs|
            && forall k :: 0 <= k < |bs| ==>
                             && ps[k].kind == Benefaction && ps[k].account == bs[k].account
                             && IsFloor(ps[k].amount, tokens * bs[k].weight, HUNDRED_PERCENT)
  {
    if bs != [] {
      BeneficiariesSplit(bs[..|bs| - 1], tokens);
      FloorIs(tokens * bs[|bs| - 1].weight, HUNDRED_PERCENT);
      hide IsFloor;
    }
  }

  lemma AuthorPaymentsSplit(bill: Bill, author: Voter, workers: Voter, tokens: nat)
    requires BillWithin(bill)
    ensures AuthorSplit(AuthorPayments(bill, author, workers, tokens), bill, author, workers, tokens)
  {
    var ps := BeneficiaryPayments(bill.beneficiaries, tokens);
    BeneficiariesSplit(bill.beneficiaries, tokens);
    BeneficiariesWithinTokens(bill.beneficiaries, tokens);
    var rest := tokens - Amount(ps);
    HalfIsLeft(rest, bill.dollarPercent);
    hide BeneficiaryPayments, IsFloor, Amount;
    var added := AuthorPayments(bill, author, workers, tokens);
    assert added[..|ps|] == ps;
    assert forall k :: 0 <= k < |ps| ==> added[k] == ps[k];
  }

  lemma HalfIsLeft(rest: nat, percent: nat)
    requires percent <= HUNDRED_PERCENT
    ensures var w := rest * percent / (2 * HUNDRED_PERCENT);
            IsFloor(w, rest * percent, 2 * HUNDRED_PERCENT) && rest <= 2 * (rest - w) && (percent == 0 ==> w == 0)
  {
    FloorIs(rest * percent, 2 * HUNDRED_PERCENT);
    MulMonotone(percent, HUNDRED_PERCENT, rest);
  }

  function CurationBudget(tokens: nat, bill: Bill): nat {
    tokens * bill.curationPercent / HUNDRED_PERCENT
  }

  lemma BudgetIsPercentage(tokens: nat, bill: Bill)
    ensures IsFloor(CurationBudget(tokens, bill), tokens * bill.curationPercent, HUNDRED_PERCENT)
  {
    FloorIs(tokens * bill.curationPercent, HUNDRED_PERCENT);
  }

  /** The author's side: what is not for curation, and what curators left if the window's reward is the author's. */
  function AuthorTokens(tokens: nat, bill: Bill, steps: seq<Step>): int {
    var curation := CurationBudget(tokens, bill);
    tokens - curation + if bill.allowCuration && bill.destination == ToAuthor then curation - StepSum(steps) else 0
  }

  /** Which claims are paid and in which order. */
  predicate CuratorSteps(info: CurationInfo, max: nat, bill: Bill, steps: seq<Step>, stop: nat)
    requires InfoWeights(info)
  {
    if 0 < info.totalVoteWeight && bill.allowCuration then
      var t := TermsOf(max, info, bill);
      StopsAt(t, info.voteList, stop) && StepsAre(t, info.voteList, stop, steps)
    else steps == []
  }

  class RewardFund {
    var fund: int
    var paid: seq<Payment>

    constructor (fund: int)
      ensures this.fund == fund && paid == []
    {
      this.fund, paid := fund, [];
    }

    /** All tokens this object answers for. */
    ghost function Tokens(): int
      reads this
    {
      fund + Amount(paid)
    }

    method PayDelegators(rates: seq<DelegatorRate>, claim: nat) returns (reward: int)
      requires RateSum(rates) <= HUNDRED_PERCENT && claim < LIMIT64
      modifies this`paid
      ensures paid == old(paid) + DelegatorPayments(rates, claim)
      ensures reward == Amount(DelegatorPayments(rates, claim)) && 0 <= reward <= claim
    {
      reward := 0;
      DelegatorsWithinClaim(rates, claim);
      DelegatorPaymentsStart(rates, claim);
      hide DelegatorPayments, RateSum, Amount, Portion;
      for i := 0 to |rates|
        invariant paid == old(paid) + DelegatorPayments(rates[..i], claim)
        invariant reward == Amount(DelegatorPayments(rates[..i], claim))
      {
        DelegatorPaymentsNext(rates, i, claim);
        var r := rates[i];
        if r.rate > HUNDRED_PERCENT {
          continue;
        }
        var part := Portion(claim, r.rate);
        if part == 0 {
          continue;
        }
        reward := reward + part;
        AppendOne(old(paid), DelegatorPayments(rates[..i], claim), Payment(Delegation, r.account, part));
        paid := paid + [Payment(Delegation, r.account, part)];
      }
      assert rates[..|rates|] == rates;
    }

    method PayCurator(vote: Vote, claim: nat, eligible: Eligible, backToFund: int) returns (back: int)
      requires RateSum(vote.rates) <= HUNDRED_PERCENT && claim < LIMIT64
      modifies this`paid
      ensures var ok := eligible(vote.voter, old(paid));
              && paid == old(paid) + CuratorPayments(vote, claim, ok)
              && back == backToFund + if ok then 0 else claim
    {
      if !eligible(vote.voter, paid) {
        return backToFund + claim;
      }
      var delegators := PayDelegators(vote.rates, claim);
      var own := Wrap(claim - delegators);
      NoWrap(claim - delegators);
      paid := paid + [Payment(CurationReward, vote.voter, own)];
      return backToFund;
    }

    /**
     The loop over the votes: claims are paid in order, the first vote at full auction time waits for the
     remainder.
     */
    method PayVotes(t: Terms, list: seq<VoteInfo>, eligible: Eligible)
      returns (steps: seq<Step>, stop: nat, unclaimed: int, back: int)
      requires 0 < t.total && t.max < LIMIT64 && NonNegative(list) && RatesWithin(list)
      requires ClaimsUpTo(t, list, |list|) <= t.max
      modifies this`paid
      ensures StopsAt(t, list, stop) && GoodSteps(list, steps) && StepsAre(t, list, stop, steps)
      ensures paid == Log(eligible, list, old(paid), steps) && back == Back(eligible, list, old(paid), steps)
      ensures unclaimed == t.max - StepSum(steps) && 0 <= unclaimed <= t.max
    {
      hide Log, Back, CuratorPayments, RateSum, Base, Bonus, StepSum, StepsUpTo, ClaimsUpTo;
      steps, unclaimed, back := [], t.max, 0;
      PayStarts(t, list, eligible, paid);
      var heaviest := -1;
      stop := 0;
      while stop < |list|
        invariant 0 <= stop <= |list| && steps == StepsUpTo(t, list, stop) && GoodSteps(list, steps)
        invariant paid == Log(eligible, list, old(paid), steps) && back == Back(eligible, list, old(paid), steps)
        invariant unclaimed == t.max - StepSum(steps) && 0 <= unclaimed <= t.max
        invariant forall k :: 0 <= k < stop && !Heaviest(t, list, k) ==> 0 < Claim(t, list[k])
        invariant heaviest == -1 ==> forall k :: 0 <= k < stop ==> !Full(t, list[k])
        invariant heaviest != -1 ==> 0 <= heaviest < stop && Heaviest(t, list, heaviest)
      {
        StepsNext(t, list, stop);
        var e := list[stop];
        var claim := Base(t, e);
        if Full(t, e) {
          claim := claim + Bonus(t, e);
          if heaviest == -1 {
            heaviest := stop;
            stop := stop + 1;
            continue;
          }
        }
        ClaimIs(t, e);
        if claim > 0 {
          LogNext(eligible, list, old(paid), steps, Step(stop, claim));
          unclaimed := unclaimed - claim;
          back := PayCurator(e.vote, claim, eligible, back);
          steps := steps + [Step(stop, claim)];
          stop := stop + 1;
        } else {
          break;
        }
      }
      if t.toCurators && heaviest != -1 {
        LogNext(eligible, list, old(paid), steps, Step(heaviest, unclaimed));
        back := PayCurator(list[heaviest].vote, unclaimed, eligible, back);
        steps := steps + [Step(heaviest, unclaimed)];
        unclaimed := 0;
      }
    }

    /**
     pay_curators. The whole budget is accounted for: paid to curators and delegators, put back into the
     fund, or, if the window's reward is the author's, returned to the caller.
     */
    method PayCurators(info: CurationInfo, max: nat, bill: Bill, eligible: Eligible)
      returns (unclaimed: int, steps: seq<Step>, stop: nat)
      requires InfoFor(info, bill.window) && RatesWithin(info.voteList) && max < LIMIT64
      modifies this
      ensures Tokens() + unclaimed == old(Tokens()) + max && 0 <= unclaimed <= max
      ensures old(fund) <= fund
      ensures GoodSteps(info.voteList, steps) && CuratorSteps(info, max, bill, steps, stop)
      ensures paid == Log(eligible, info.voteList, old(paid), steps)
      ensures unclaimed == if bill.allowCuration && bill.destination == ToAuthor then max - StepSum(steps) else 0
    {
      ghost var list := info.voteList;
      unclaimed, steps, stop := max, [], 0;
      InfoGives(info, bill, max);
      LogStarts(eligible, list, paid);
      hide InfoFor, Log, Back, StepSum, StopsAt, StepsAre, Amount, ClaimsUpTo, GoodSteps, TermsOf, NonNegative,
        RatesWithin;
      if info.totalVoteWeight > 0 && bill.allowCuration {
        var t := TermsOf(max, info, bill);
        var back;
        steps, stop, unclaimed, back := PayVotes(t, info.voteList, eligible);
        if back != 0 {
          fund := fund + back;
        }
      }
      StepsAreConserved(eligible, list, old(paid), steps);
      if !bill.allowCuration {
        fund := fund + unclaimed;
        unclaimed := 0;
      } else if bill.destination != ToAuthor && unclaimed > 0 {
        fund := fund + unclaimed;
        unclaimed := 0;
      }
    }

    /**
     The payment part of cashout_comment_helper, once tokens have been claimed from the fund. Nothing is lost
     or created: what was claimed is paid out or back in the fund.
     */
    method PayComment(
      tokens: nat, info: CurationInfo, bill: Bill, eligible: Eligible, author: Voter, workers: Voter, reputation: int)
      returns (steps: seq<Step>, stop: nat)
      requires InfoFor(info, bill.window) && RatesWithin(info.voteList) && BillWithin(bill) && tokens < LIMIT64
      modifies this
      ensures Tokens() == old(Tokens()) + tokens && old(fund) <= fund
      ensures reputation < 0 || tokens == 0 ==> paid == old(paid) && fund == old(fund) + tokens
      ensures reputation >= 0 && tokens > 0 ==>
                && GoodSteps(info.voteList, steps)
                && CuratorSteps(info, CurationBudget(tokens, bill), bill, steps, stop)
                && 0 <= AuthorTokens(tokens, bill, steps) <= tokens
                && paid == Log(eligible, info.voteList, old(paid), steps)
                           + AuthorPayments(bill, author, workers, AuthorTokens(tokens, bill, steps))
                && AuthorSplit(paid[|Log(eligible, info.voteList, old(paid), steps)|..], bill, author, workers,
                               AuthorTokens(tokens, bill, steps))
    {
      hide InfoFor, Log, Amount, GoodSteps, CuratorSteps, AuthorSplit, AuthorPayments;
      steps, stop := [], 0;
      if tokens == 0 {
        return;
      }
      if reputation < 0 {
        fund := fund + tokens;
        return;
      }
      var curation := tokens * bill.curationPercent / HUNDRED_PERCENT;
      ShareBounds(tokens, bill.curationPercent, HUNDRED_PERCENT);
      assert curation == CurationBudget(tokens, bill);
      hide CurationBudget;
      var unclaimed;
      unclaimed, steps, stop := PayCurators(info, curation, bill, eligible);
      PayAuthor(bill, author, workers, tokens - curation + unclaimed);
    }

    method PayAuthor(bill: Bill, author: Voter, workers: Voter, tokens: nat)
      requires BillWithin(bill)
      modifies this`paid
      ensures paid == old(paid) + AuthorPayments(bill, author, workers, tokens)
      ensures old(paid) <= paid && AuthorSplit(paid[|old(paid)|..], bill, author, workers, tokens)
      ensures Tokens() == old(Tokens()) + tokens
    {
      var beneficiaries := 0;
      hide Amount, BeneficiaryPayments, AuthorSplit;
      AuthorSideAdded(paid, bill, author, workers, tokens);
      BeneficiaryPaymentsStart(bill.beneficiaries, tokens);
      var i := 0;
      while i < |bill.beneficiaries|
        invariant 0 <= i <= |bill.beneficiaries|
        invariant paid == old(paid) + BeneficiaryPayments(bill.beneficiaries[..i], tokens)
        invariant beneficiaries == Amount(BeneficiaryPayments(bill.beneficiaries[..i], tokens))
      {
        BeneficiaryPaymentsNext(bill.beneficiaries, i, tokens);
        var b := bill.beneficiaries[i];
        var part := tokens * b.weight / HUNDRED_PERCENT;
        paid := paid + [Payment(Benefaction, b.account, part)];
        beneficiaries := beneficiaries + part;
        i := i + 1;
      }
      assert bill.beneficiaries[..i] == bill.beneficiaries;
      var rest := tokens - beneficiaries;
      var dollars := rest * bill.dollarPercent / (2 * HUNDRED_PERCENT);
      paid := paid + [Payment(AuthorVesting, author, rest - dollars)];
      paid := paid + [Payment(WorkerPool, workers, dollars)];
    }
  }

  lemma AuthorSideAdded(before: seq<Payment>, bill: Bill, author: Voter, workers: Voter, tokens: nat)
    requires BillWithin(bill)
    ensures var after := before + AuthorPayments(bill, author, workers, tokens);
            && before <= after && AuthorSplit(after[|before|..], bill, author, workers, tokens)
            && Amount(after) == Amount(before) + tokens
  {
    hide *;
    AuthorPaymentsSplit(bill, author, workers, tokens);
    AuthorSideIsPaidInFull(bill, author, workers, tokens);
    AmountConcat(before, AuthorPayments(bill, author, workers, tokens));
    var after := before + AuthorPayments(bill, author, workers, tokens);
    assert after[|before|..] == AuthorPayments(bill, author, workers, tokens);
  }

  lemma BeneficiaryPaymentsStart(bs: seq<Beneficiary>, tokens: nat)
    ensures BeneficiaryPayments(bs[..0], tokens) == [] && Amount(BeneficiaryPayments(bs[..0], tokens)) == 0
  {
  }

  lemma BeneficiaryPaymentsNext(bs: seq<Beneficiary>, i: nat, tokens: nat)
    requires i < |bs|
    ensures var part := tokens * bs[i].weight / HUNDRED_PERCENT;
            var before, after := BeneficiaryPayments(bs[..i], tokens), BeneficiaryPayments(bs[..i + 1], tokens);
            after == before + [Payment(Benefaction, bs[i].account, part)] && Amount(after) == Amount(before) + part
  {
    assert bs[..i + 1][..i] == bs[..i];
    var p := Payment(Benefaction, bs[i].account, tokens * bs[i].weight / HUNDRED_PERCENT);
    AmountConcat(BeneficiaryPayments(bs[..i], tokens), [p]);
    AmountOne(p);
  }

  lemma InfoGives(info: CurationInfo, bill: Bill, max: nat)
    requires InfoFor(info, bill.window)
    ensures InfoWeights(info) && NonNegative(info.voteList)
    ensures 0 < info.totalVoteWeight ==>
              var t := TermsOf(max, info, bill);
              t.max == max && 0 < t.total && ClaimsUpTo(t, info.voteList, |info.voteList|) <= max
  {
    if 0 < info.totalVoteWeight {
      ClaimsWithinBudget(TermsOf(max, info, bill), info, bill);
    }
  }

  lemma LogStarts(eligible: Eligible, list: seq<VoteInfo>, paid: seq<Payment>)
    ensures GoodSteps(list, []) && StepSum([]) == 0
    ensures Log(eligible, list, paid, []) == paid && Back(eligible, list, paid, []) == 0
  {
  }

  lemma ClaimIs(t: Terms, e: VoteInfo)
    requires 0 < t.total
    ensures Claim(t, e) == Base(t, e) + Bonus(t, e) && (!Full(t, e) ==> Bonus(t, e) == 0)
  {
  }

  lemma PayStarts(t: Terms, list: seq<VoteInfo>, eligible: Eligible, paid: seq<Payment>)
    requires 0 < t.total
    ensures StepsUpTo(t, list, 0) == [] && StepSum([]) == 0
    ensures Log(eligible, list, paid, []) == paid && Back(eligible, list, paid, []) == 0
  {
  }

  // ---------- a skipped vote ----------

  const EARLY := Vote(1, 100, 0, 6, [])
  const LATE := Vote(2, 21, 0, 30, [])

  /** The root curve weighs the first vote ten, of which the window takes eight, and the second one. */
  lemma SkippedWeights()
    ensures WithinWindow([EARLY, LATE], 30) && Shares([EARLY, LATE], 2) == 121
    ensures Raw(SquareRoot, [EARLY, LATE], 0) == 10 && Raw(SquareRoot, [EARLY, LATE], 1) == 1
  {
    var votes := [EARLY, LATE];
    assert Shares(votes, 0) == 0 && Shares(votes, 1) == 100 && Shares(votes, 2) == 121;
    Roots();
    hide ApproxSqrt, Shares;
  }

  lemma Roots()
    ensures ApproxSqrt(0) == 0 && ApproxSqrt(100) == 10 && ApproxSqrt(121) == 11
  {
    assert Msb(1) == 0 && Msb(3) == 1 && Msb(6) == 2 && Msb(12) == 3 && Msb(25) == 4 && Msb(50) == 5;
    assert Msb(7) == 2 && Msb(15) == 3 && Msb(30) == 4 && Msb(60) == 5;
    assert FindMsb(100) == Msb(100) == 6 && FindMsb(121) == Msb(121) == 6;
    assert Pow2(3) == 8 && Pow2(6) == 64;
    hide Msb, FindMsb, Pow2;
    assert RootFrom(100, 6) == 10 && RootFrom(121, 6) == 11;
  }

  lemma SkippedEntries()
    ensures WithinWindow([EARLY, LATE], 30)
    ensures Entries(SquareRoot, [EARLY, LATE], 2, 30, false) == [VoteInfo(EARLY, 2), VoteInfo(LATE, 1)]
    ensures Total(SquareRoot, [EARLY, LATE], 2, 30, ToWindow) == 8
    ensures Total(SquareRoot, [EARLY, LATE], 2, 30, InsideWindow) == 2
    ensures Total(SquareRoot, [EARLY, LATE], 2, 30, AfterWindow) == 1
  {
    SkippedWeights();
    hide Raw, Shares;
    var votes := [EARLY, LATE];
    assert Kept(SquareRoot, votes, 0, 30) == 2 && Kept(SquareRoot, votes, 1, 30) == 1;
    hide Kept;
    assert Entries(SquareRoot, votes, 1, 30, false) == [VoteInfo(EARLY, 2)];
    forall p
      ensures Total(SquareRoot, votes, 2, 30, p) == PartOf(SquareRoot, votes, 0, 30, p)
              + PartOf(SquareRoot, votes, 1, 30, p)
    {
      assert Total(SquareRoot, votes, 1, 30, p) == PartOf(SquareRoot, votes, 0, 30, p);
    }
  }

  lemma SkippedOrder()
    ensures SortedList([VoteInfo(EARLY, 2), VoteInfo(LATE, 1)]) == [VoteInfo(EARLY, 2), VoteInfo(LATE, 1)]
  {
    var a, b := VoteInfo(EARLY, 2), VoteInfo(LATE, 1);
    assert [a, b][..1] == [a] && [a][..0] == [];
    assert SortedList([a]) == Inserted([], a) == [a];
    assert [a][1..] == [];
    assert Inserted([a], b) == [a] + Inserted([], b);
  }

  /**
   With five tokens to share out the loop ends before its first payment, though the second vote has three to
   claim.
   */
  lemma SkippedSteps(info: CurationInfo, bill: Bill, steps: seq<Step>, stop: nat)
    requires info == CurationInfo([VoteInfo(EARLY, 2), VoteInfo(LATE, 1)], 11, 8, 2, 1)
    requires bill.allowCuration && bill.destination == ToCurators && bill.window == 30
    ensures InfoWeights(info) && Claim(TermsOf(5, info, bill), info.voteList[1]) == 3
    ensures CuratorSteps(info, 5, bill, steps, stop) ==> steps == []
  {
    var t := TermsOf(5, info, bill);
    assert t == Terms(5, 11, 3, 1, 30, true);
    assert Claim(t, info.voteList[0]) == 0 && Claim(t, info.voteList[1]) == 3;
    hide Claim, TermsOf;
    assert !Heaviest(t, info.voteList, 0);
    if StopsAt(t, info.voteList, stop) {
      assert stop == 0;
    }
  }

  /** A run: nobody is paid, and the five tokens go back to the fund. */
  method SkippedVote(eligible: Eligible) returns (rewards: RewardFund, steps: seq<Step>)
    ensures steps == [] && rewards.paid == [] && rewards.fund == 5
  {
    SkippedEntries();
    SkippedOrder();
    SkippedWeights();
    hide InfoFor, Shares, Total, Entries, SortedList, WithinWindow, Weight, Amount;
    var ok, info := CommentCurationInfo([EARLY, LATE], SquareRoot, 30, false, false);
    assert info == CurationInfo([VoteInfo(EARLY, 2), VoteInfo(LATE, 1)], 11, 8, 2, 1);
    var bill := Bill(true, ToCurators, 30, 10000, 0, []);
    rewards := new RewardFund(0);
    var unclaimed, stop;
    unclaimed, steps, stop := rewards.PayCurators(info, 5, bill, eligible);
    SkippedSteps(info, bill, steps, stop);
  }
}

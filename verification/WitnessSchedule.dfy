/**
 The virtual-time witness scheduler. All times and positions are 128-bit unsigned and every addition
 may wrap; the code detects wrapping by comparing a sum with its operand. The module states what an
 unbounded scheduler would compute and proves that the wrapping one computes exactly that, capped at
 the largest 128-bit value, in every reachable state.
 */
module WitnessSchedule {
  import opened Common
  import opened Arith

  const LIMIT: int := 0x1_0000_0000_0000_0000_0000_0000_0000_0000

  /** The largest 128-bit value, which is also the length of a virtual lap. */
  const LAP: int := LIMIT - 1

  const MAX_VOTED_WITNESSES: nat := 19
  const MAX_WITNESSES: nat := 21

  /** From this block on a round must not come out short. */
  const FIRST_DAY: nat := 14400

  /** Account names, by their place in name order. */
  type Name = nat

  /** The empty account name. */
  const NO_NAME: Name := 0

  datatype Witness = Witness(
    owner: Name, votes: int, hasKey: bool, lastUpdate: int, position: int, scheduled: int)

  datatype Schedule = Schedule(witnesses: map<nat, Witness>, currentTime: int)

  /** 128-bit arithmetic. */
  function Wrap(x: int): (r: int)
    ensures 0 <= r < LIMIT
  {
    x % LIMIT
  }

  lemma WrapSmall(x: int)
    requires 0 <= x < LIMIT
    ensures Wrap(x) == x
  {
  }

  lemma WrapOnce(x: int)
    requires LIMIT <= x < 2 * LIMIT
    ensures Wrap(x) == x - LIMIT
  {
  }

  // ---------- what an unbounded scheduler would do ----------

  /** Where a witness would finish its lap, in unbounded time. */
  function Finish(w: Witness): int
    requires 0 <= w.votes
  {
    w.lastUpdate + (LAP - w.position) / (w.votes + 1)
  }

  /** The scheduled time is the unbounded one, capped; nobody is scheduled in the past; no position is past the lap. */
  predicate OnTrack(w: Witness, now: int) {
    && 0 <= w.votes < 0x8000_0000_0000_0000
    && 0 <= w.lastUpdate <= now && 0 <= w.position <= LAP
    && w.scheduled == Min(LAP, Finish(w)) && now <= w.scheduled
  }

  predicate Inv(s: Schedule) {
    && 0 <= s.currentTime <= LAP
    && (forall id :: id in s.witnesses ==> OnTrack(s.witnesses[id], s.currentTime))
    && (forall i, j :: i in s.witnesses && j in s.witnesses && i != j ==> s.witnesses[i].owner != s.witnesses[j].owner)
  }

  // ---------- votes change ----------

  /** The position a witness has reached at time now, in unbounded arithmetic. */
  function Reached(w: Witness, now: int): int {
    w.position + w.votes * (now - w.lastUpdate)
  }

  /** A witness that is on track has not passed the end of its lap, so no multiplication or addition wraps. */
  lemma NeverPastTheLap(w: Witness, now: int)
    requires OnTrack(w, now)
    ensures 0 <= w.votes * (now - w.lastUpdate) && w.position <= Reached(w, now) <= LAP
  {
    var e := now - w.lastUpdate;
    DivAtLeast(LAP - w.position, w.votes + 1, e);
    assert e * (w.votes + 1) == e * w.votes + e;
    MulMonotone(0, w.votes, e);
  }

  /** The end of a lap as the code computes it: a sum that wrapped is taken for the latest time. */
  function Rescheduled(now: int, position: int, votes: int): int
    requires 0 <= votes
  {
    var scheduled := Wrap(now + Wrap(LAP - position) / (votes + 1));
    if scheduled < now then LAP else scheduled
  }

  /** A wrapped sum is always noticed, so the result is the unbounded one, capped. */
  lemma RescheduledExactly(now: int, position: int, votes: int)
    requires 0 <= now <= LAP && 0 <= position <= LAP && 0 <= votes
    ensures Rescheduled(now, position, votes) == Min(LAP, now + (LAP - position) / (votes + 1))
    ensures now <= Rescheduled(now, position, votes)
  {
    WrapSmall(LAP - position);
    DivNonNegative(LAP - position, votes + 1);
    OverflowIsCaught(now, (LAP - position) / (votes + 1));
  }

  /** adjust_witness_vote, in 128-bit arithmetic. */
  function Adjusted(w: Witness, delta: int, now: int): Witness {
    var position := Wrap(w.position + Wrap(w.votes * Wrap(now - w.lastUpdate)));
    var votes := Max(w.votes + delta, 0);
    w.(position := position, lastUpdate := now, votes := votes, scheduled := Rescheduled(now, position, votes))
  }

  /** It advances the position exactly and reschedules exactly, capped. */
  lemma AdjustedOnTrack(w: Witness, delta: int, now: int)
    requires OnTrack(w, now) && now <= LAP && w.votes + delta < 0x8000_0000_0000_0000
    ensures var r := Adjusted(w, delta, now);
            && OnTrack(r, now) && r.position == Reached(w, now) && r.lastUpdate == now
            && r.votes == Max(w.votes + delta, 0) && r.owner == w.owner && r.hasKey == w.hasKey
  {
    NeverPastTheLap(w, now);
    var e := now - w.lastUpdate;
    WrapSmall(e);
    WrapSmall(w.votes * e);
    WrapSmall(Reached(w, now));
    RescheduledExactly(now, Reached(w, now), Max(w.votes + delta, 0));
    hide Wrap, Rescheduled;
  }

  lemma ScheduledIsFinish(w: Witness, now: int)
    requires OnTrack(w, now)
    ensures w.scheduled == Min(LAP, Finish(w))
  {
  }

  /**
   The witness has advanced exactly, has its new votes, and is due when an unbounded scheduler would have it,
   capped.
   */
  predicate VoteAdjusted(s: Schedule, next: Schedule, id: nat, delta: int)
    requires id in s.witnesses
  {
    && next.currentTime == s.currentTime && next.witnesses.Keys == s.witnesses.Keys
    && (forall i :: i in s.witnesses && i != id ==> next.witnesses[i] == s.witnesses[i])
    && var w, r := s.witnesses[id], next.witnesses[id];
    && r.votes == Max(w.votes + delta, 0) && r.position == Reached(w, s.currentTime) && r.lastUpdate == s.currentTime
    && r.owner == w.owner && r.hasKey == w.hasKey && r.scheduled == Min(LAP, Finish(r))
  }

  lemma AdjustFacts(s: Schedule, id: nat, delta: int)
    requires Inv(s) && id in s.witnesses && s.witnesses[id].votes + delta < 0x8000_0000_0000_0000
    ensures var next := s.(witnesses := s.witnesses[id := Adjusted(s.witnesses[id], delta, s.currentTime)]);
            Inv(next) && VoteAdjusted(s, next, id, delta)
  {
    hide Adjusted, OnTrack, Reached, Finish;
    AdjustedOnTrack(s.witnesses[id], delta, s.currentTime);
    ScheduledIsFinish(Adjusted(s.witnesses[id], delta, s.currentTime), s.currentTime);
  }

  // ---------- a round ----------

  /** A wrapped sum is smaller than its operand exactly when the true sum does not fit. */
  lemma OverflowIsCaught(t: int, x: int)
    requires 0 <= t < LIMIT && 0 <= x < LIMIT
    ensures Wrap(t + x) < t <==> LIMIT <= t + x
    ensures t + x < LIMIT ==> Wrap(t + x) == t + x
  {
    if t + x < LIMIT {
      WrapSmall(t + x);
    } else {
      WrapOnce(t + x);
    }
  }

  /** A witness starting a new lap at time t. */
  function NewLap(w: Witness, t: int): Witness
    requires 0 <= w.votes
  {
    w.(position := 0, lastUpdate := t, scheduled := t + LAP / (w.votes + 1))
  }

  lemma NewLapOnTrack(w: Witness, t: int)
    requires 0 <= w.votes < 0x8000_0000_0000_0000 && 0 <= t && t + LAP / (w.votes + 1) <= LAP
    ensures OnTrack(NewLap(w, t), t)
  {
    DivNonNegative(LAP, w.votes + 1);
  }

  /** Before: the index order of witnesses by scheduled time, and by votes. */
  predicate TimeBefore(ws: map<nat, Witness>, i: nat, j: nat)
    requires i in ws && j in ws
  {
    ws[i].scheduled < ws[j].scheduled || (ws[i].scheduled == ws[j].scheduled && i < j)
  }

  predicate VotesBefore(ws: map<nat, Witness>, i: nat, j: nat)
    requires i in ws && j in ws
  {
    ws[i].votes > ws[j].votes || (ws[i].votes == ws[j].votes && ws[i].owner < ws[j].owner)
  }

  predicate FirstByTime(ws: map<nat, Witness>, ids: set<nat>, first: nat)
    requires ids <= ws.Keys
  {
    first in ids && forall id :: id in ids && id != first ==> TimeBefore(ws, first, id)
  }

  predicate FirstByVotes(ws: map<nat, Witness>, ids: set<nat>, first: nat)
    requires ids <= ws.Keys
  {
    first in ids && forall id :: id in ids && id != first ==> VotesBefore(ws, first, id)
  }

  lemma {:induction false} FirstByTimeExists(ws: map<nat, Witness>, ids: set<nat>)
    requires ids != {} && ids <= ws.Keys
    ensures exists first :: FirstByTime(ws, ids, first)
    decreases |ids|
  {
    var i :| i in ids;
    var rest := ids - {i};
    if rest == {} {
      assert forall id :: id in ids && id != i ==> id in rest;
      assert FirstByTime(ws, ids, i);
    } else {
      FirstByTimeExists(ws, rest);
      var j :| FirstByTime(ws, rest, j);
      var first := if TimeBefore(ws, i, j) then i else j;
      forall id | id in ids && id != first
        ensures TimeBefore(ws, first, id)
      {
        assert id == i || id == j || id in rest;
      }
      assert FirstByTime(ws, ids, first);
    }
  }

  lemma {:induction false} FirstByVotesExists(ws: map<nat, Witness>, ids: set<nat>)
    requires ids != {} && ids <= ws.Keys
    requires forall i, j :: i in ws && j in ws && i != j ==> ws[i].owner != ws[j].owner
    ensures exists first :: FirstByVotes(ws, ids, first)
    decreases |ids|
  {
    var i :| i in ids;
    var rest := ids - {i};
    if rest == {} {
      assert forall id :: id in ids && id != i ==> id in rest;
      assert FirstByVotes(ws, ids, i);
    } else {
      FirstByVotesExists(ws, rest);
      var j :| FirstByVotes(ws, rest, j);
      var first := if VotesBefore(ws, i, j) then i else j;
      forall id | id in ids && id != first
        ensures VotesBefore(ws, first, id)
      {
        assert id == i || id == j || id in rest;
      }
      assert FirstByVotes(ws, ids, first);
    }
  }

  predicate Keyed(ws: map<nat, Witness>, id: nat) {
    id in ws && ws[id].hasKey
  }

  function KeyedIds(ws: map<nat, Witness>): set<nat> {
    set id | id in ws && ws[id].hasKey
  }

  /** The voted part of a round: the most voted witnesses that have a signing key. */
  ghost predicate TopVoted(ws: map<nat, Witness>, voted: seq<nat>) {
    && NoDuplicates(voted) && |voted| <= MAX_VOTED_WITNESSES
    && (forall k :: 0 <= k < |voted| ==> Keyed(ws, voted[k]))
    && (forall k, id :: 0 <= k < |voted| && Keyed(ws, id) && id !in voted ==> VotesBefore(ws, voted[k], id))
    && (|voted| < MAX_VOTED_WITNESSES ==> forall id :: Keyed(ws, id) ==> id in voted)
  }

  /** A whole round: the voted part, then the keyed witnesses next in virtual time, up to the round's size. */
  ghost predicate RoundOf(ws: map<nat, Witness>, voted: seq<nat>, round: seq<nat>) {
    && TopVoted(ws, voted) && voted <= round && NoDuplicates(round) && |round| <= MAX_WITNESSES
    && (forall k :: 0 <= k < |round| ==> Keyed(ws, round[k]))
    && (forall k, id :: |voted| <= k < |round| && Keyed(ws, id) && id !in round ==> TimeBefore(ws, round[k], id))
    && (|round| < MAX_WITNESSES ==> forall id :: Keyed(ws, id) ==> id in round)
  }

  /** processed are the first witnesses in virtual time, in that order. */
  ghost predicate FirstInTime(ws: map<nat, Witness>, processed: seq<nat>) {
    && (forall k :: 0 <= k < |processed| ==> processed[k] in ws)
    && (forall i, j :: 0 <= i < j < |processed| ==> TimeBefore(ws, processed[i], processed[j]))
    && (forall k, id :: 0 <= k < |processed| && id in ws && id !in processed ==> TimeBefore(ws, processed[k], id))
  }

  /** Everyone advances to at least the time of the last witness looked at. */
  function NewTime(s: Schedule, processed: seq<nat>): int
    requires forall k :: 0 <= k < |processed| ==> processed[k] in s.witnesses
  {
    if processed == [] then s.currentTime else s.witnesses[processed[|processed| - 1]].scheduled
  }

  /** Witnesses are looked at until the round is full, and all of them if it never is. */
  ghost predicate Completes(ws: map<nat, Witness>, voted: seq<nat>, round: seq<nat>, processed: seq<nat>) {
    && |voted| <= |round| <= MAX_WITNESSES
    && (forall k :: |voted| <= k < |round| ==> round[k] in processed)
    && (|round| < MAX_WITNESSES ==> forall id :: id in ws ==> id in processed)
    && (|round| == MAX_WITNESSES ==>
          |voted| < |round| && processed != [] && processed[|processed| - 1] == round[|round| - 1])
  }

  lemma FirstInTimeStep(ws: map<nat, Witness>, processed: seq<nat>, remaining: set<nat>, first: nat)
    requires FirstInTime(ws, processed) && remaining <= ws.Keys && FirstByTime(ws, remaining, first)
    requires forall id :: id in remaining <==> id in ws && id !in processed
    ensures FirstInTime(ws, processed + [first])
    ensures forall id :: id in remaining - {first} <==> id in ws && id !in processed + [first]
  {
    hide TimeBefore;
    var p := processed + [first];
    assert forall id :: id in p <==> id in processed || id == first;
    assert forall k :: 0 <= k < |processed| ==> p[k] == processed[k] && p[k] in processed;
  }

  /** The round while the witnesses in remaining have not been looked at yet. */
  ghost predicate PartialRound(ws: map<nat, Witness>, voted: seq<nat>, round: seq<nat>, remaining: set<nat>) {
    && voted <= round && NoDuplicates(round) && remaining <= ws.Keys
    && (forall k :: 0 <= k < |round| ==> Keyed(ws, round[k]) && (|voted| <= k ==> round[k] !in remaining))
    && (forall k, id :: |voted| <= k < |round| && id in remaining ==> TimeBefore(ws, round[k], id))
    && (forall id :: Keyed(ws, id) && id !in remaining ==> id in round)
  }

  lemma PartialRoundStep(ws: map<nat, Witness>, voted: seq<nat>, round: seq<nat>, remaining: set<nat>, first: nat)
    requires PartialRound(ws, voted, round, remaining) && FirstByTime(ws, remaining, first)
    ensures first in ws
    ensures ws[first].hasKey && first !in voted ==> PartialRound(ws, voted, round + [first], remaining - {first})
    ensures !(ws[first].hasKey && first !in voted) ==> PartialRound(ws, voted, round, remaining - {first})
  {
    hide TimeBefore;
    var rest := remaining - {first};
    if ws[first].hasKey && first !in voted {
      var r := round + [first];
      forall k | 0 <= k < |round|
        ensures round[k] != first
      {
        if k < |voted| {
          assert round[k] == voted[k];
        }
      }
      forall k, id | |voted| <= k < |r| && id in rest
        ensures TimeBefore(ws, r[k], id)
      {
      }
      forall id | Keyed(ws, id) && id !in rest
        ensures id in r
      {
        if id == first {
          assert r[|round|] == first;
        }
      }
    } else {
      forall id | Keyed(ws, id) && id !in rest
        ensures id in round
      {
        if id == first {
          var k :| 0 <= k < |voted| && voted[k] == first;
          assert round[k] == first;
        }
      }
    }
  }

  lemma PartialRoundDone(ws: map<nat, Witness>, voted: seq<nat>, round: seq<nat>, remaining: set<nat>)
    requires TopVoted(ws, voted) && PartialRound(ws, voted, round, remaining) && |round| <= MAX_WITNESSES
    requires remaining == {} || |round| == MAX_WITNESSES
    ensures RoundOf(ws, voted, round)
  {
    hide TopVoted, TimeBefore;
  }

  lemma {:induction false} NoDuplicatesSize(s: seq<nat>)
    requires NoDuplicates(s)
    ensures |set k | 0 <= k < |s| :: s[k]| == |s|
  {
    if s != [] {
      var n := |s| - 1;
      NoDuplicatesSize(s[..n]);
      var before := set k | 0 <= k < n :: s[..n][k];
      assert (set k | 0 <= k < |s| :: s[k]) == before + {s[n]};
      assert s[n] !in before;
    }
  }

  /** A round has as many members as there are keyed witnesses, up to its full size. */
  lemma RoundSize(ws: map<nat, Witness>, voted: seq<nat>, round: seq<nat>)
    requires RoundOf(ws, voted, round)
    ensures |round| == Min(MAX_WITNESSES, |KeyedIds(ws)|)
  {
    var members := set k | 0 <= k < |round| :: round[k];
    NoDuplicatesSize(round);
    assert members <= KeyedIds(ws);
    SubsetSize(members, KeyedIds(ws));
    if |round| < MAX_WITNESSES {
      forall id | id in KeyedIds(ws)
        ensures id in members
      {
        assert Keyed(ws, id);
      }
      assert members == KeyedIds(ws);
    }
  }

  lemma SubsetSize(a: set<nat>, b: set<nat>)
    requires a <= b
    ensures |a| <= |b|
  {
    assert |b| == |a| + |b - a| by {
      assert b == a + (b - a);
    }
  }

  // ---------- the next schedule ----------

  predicate VotesNonNegative(s: Schedule) {
    forall id :: id in s.witnesses ==> 0 <= s.witnesses[id].votes
  }

  /** Everyone processed starts a new lap at time t, which becomes the current time. */
  function Advanced(s: Schedule, processed: seq<nat>, t: int): Schedule
    requires VotesNonNegative(s)
  {
    Schedule(map id | id in s.witnesses :: if id in processed then NewLap(s.witnesses[id], t) else s.witnesses[id], t)
  }

  /** reset_virtual_schedule_time: everyone starts a new lap at time zero. */
  function Reset(s: Schedule): Schedule
    requires VotesNonNegative(s)
  {
    Schedule(map id | id in s.witnesses :: NewLap(s.witnesses[id], 0), 0)
  }

  /** Some processed witness's next lap would end beyond 128 bits. */
  predicate Overflows(s: Schedule, processed: seq<nat>, t: int)
    requires VotesNonNegative(s)
  {
    exists id :: id in processed && id in s.witnesses && LAP < t + LAP / (s.witnesses[id].votes + 1)
  }

  lemma ResetInv(s: Schedule)
    requires Inv(s) && VotesNonNegative(s)
    ensures Inv(Reset(s))
  {
    forall id | id in s.witnesses
      ensures OnTrack(NewLap(s.witnesses[id], 0), 0)
    {
      DivNonNegative(LAP, s.witnesses[id].votes + 1);
      NewLapOnTrack(s.witnesses[id], 0);
    }
  }

  /** Witnesses that are not due yet keep their lap: the new time has not passed them. */
  lemma AdvancedInv(s: Schedule, processed: seq<nat>, t: int)
    requires Inv(s) && VotesNonNegative(s) && s.currentTime <= t <= LAP && !Overflows(s, processed, t)
    requires forall id :: id in s.witnesses && id !in processed ==> t <= s.witnesses[id].scheduled
    ensures Inv(Advanced(s, processed, t))
  {
    forall id | id in s.witnesses && id in processed
      ensures OnTrack(NewLap(s.witnesses[id], t), t)
    {
      NewLapOnTrack(s.witnesses[id], t);
    }
  }

  // ---------- the shuffle ----------

  /**
   The entry swapped into position i; draw stands for the generator seeded with the block time, and any draw
   will do.
   */
  function Pick(draw: nat -> nat, i: nat, n: nat): (j: nat)
    requires i < n
    ensures i <= j < n
  {
    i + draw(i) % (n - i)
  }

  function Swapped<T>(s: seq<T>, i: nat, j: nat): seq<T>
    requires i < |s| && j < |s|
  {
    s[i := s[j]][j := s[i]]
  }

  /** The shuffle from position i on. */
  function ShuffledFrom(s: seq<Name>, draw: nat -> nat, i: nat, n: nat): (r: seq<Name>)
    requires i <= n <= |s|
    ensures |r| == |s|
    decreases n - i
  {
    if i == n then s else ShuffledFrom(Swapped(s, i, Pick(draw, i, n)), draw, i + 1, n)
  }

  lemma SwapIsPermutation<T>(s: seq<T>, i: nat, j: nat)
    requires i <= j < |s|
    ensures multiset(Swapped(s, i, j)) == multiset(s)
  {
    if i < j {
      assert s == s[..i] + [s[i]] + s[i + 1..j] + [s[j]] + s[j + 1..];
      assert Swapped(s, i, j) == s[..i] + [s[j]] + s[i + 1..j] + [s[i]] + s[j + 1..];
    } else {
      assert Swapped(s, i, j) == s;
    }
  }

  /** The shuffle permutes the scheduled part and leaves the rest of the array alone. */
  lemma {:induction false} ShuffleIsPermutation(s: seq<Name>, draw: nat -> nat, i: nat, n: nat)
    requires i <= n <= |s|
    ensures var r := ShuffledFrom(s, draw, i, n);
            multiset(r[..n]) == multiset(s[..n]) && r[n..] == s[n..]
    decreases n - i
  {
    if i < n {
      var j := Pick(draw, i, n);
      var t := Swapped(s, i, j);
      SwapIsPermutation(s[..n], i, j);
      assert t[..n] == Swapped(s[..n], i, j) && t[n..] == s[n..];
      ShuffleIsPermutation(t, draw, i + 1, n);
    }
  }

  lemma {:induction false} NoDuplicatesIsMultiplicity<T>(s: seq<T>)
    ensures NoDuplicates(s) <==> forall x :: x in multiset(s) ==> multiset(s)[x] == 1
  {
    if s != [] {
      var n := |s| - 1;
      var t, x := s[..n], s[n];
      assert s == t + [x];
      NoDuplicatesIsMultiplicity(t);
      if NoDuplicates(s) {
        assert NoDuplicates(t) && x !in t;
      } else if NoDuplicates(t) {
        var i :| 0 <= i < n && s[i] == x;
        assert t[i] == x && x in multiset(t);
        assert multiset(s)[x] == multiset(t)[x] + 1;
      } else {
        var y :| y in multiset(t) && multiset(t)[y] != 1;
        assert y in multiset(s) && multiset(s)[y] >= multiset(t)[y];
      }
    }
  }

  /** So a round without duplicates is published without duplicates. */
  lemma PermutationKeepsNoDuplicates<T>(s: seq<T>, r: seq<T>)
    requires multiset(s) == multiset(r) && NoDuplicates(s)
    ensures NoDuplicates(r)
  {
    NoDuplicatesIsMultiplicity(s);
    NoDuplicatesIsMultiplicity(r);
  }

  function Owners(ws: map<nat, Witness>, round: seq<nat>): (r: seq<Name>)
    requires forall k :: 0 <= k < |round| ==> round[k] in ws
    ensures |r| == |round|
  {
    seq(|round|, k requires 0 <= k < |round| => ws[round[k]].owner)
  }

  // ---------- the object ----------

  class Scheduler {
    var schedule: Schedule
    const shuffled: array<Name>
    var numScheduled: nat

    ghost predicate Valid()
      reads this
    {
      Inv(schedule) && shuffled.Length == MAX_WITNESSES
    }

    constructor ()
      ensures Valid() && schedule == Schedule(map[], 0) && fresh(shuffled)
    {
      schedule, numScheduled := Schedule(map[], 0), 1;
      shuffled := new Name[MAX_WITNESSES](_ => 0);
    }

    /** A new witness has no votes and the latest possible scheduled time. */
    method CreateWitness(id: nat, owner: Name, hasKey: bool) returns (ok: bool)
      requires Valid()
      modifies this
      ensures Valid()
      ensures ok == (id !in old(schedule).witnesses
                     && forall i :: i in old(schedule).witnesses ==> old(schedule).witnesses[i].owner != owner)
      ensures schedule == if ok
              then old(schedule).(witnesses := old(schedule).witnesses[id := Witness(owner, 0, hasKey, 0, 0, LAP)])
                          else old(schedule)
    {
      if id in schedule.witnesses || exists i :: i in schedule.witnesses && schedule.witnesses[i].owner == owner {
        return false;
      }
      schedule := schedule.(witnesses := schedule.witnesses[id := Witness(owner, 0, hasKey, 0, 0, LAP)]);
      return true;
    }

    /** adjust_witness_vote: throws when the votes would exceed the total stake. */
    method AdjustWitnessVote(id: nat, delta: int, totalVestingShares: int) returns (ok: bool)
      requires Valid() && id in schedule.witnesses && totalVestingShares < 0x8000_0000_0000_0000
      modifies this
      ensures Valid()
      ensures ok == (Max(old(schedule).witnesses[id].votes + delta, 0) <= totalVestingShares)
      ensures if ok then VoteAdjusted(old(schedule), schedule, id, delta) else schedule == old(schedule)
    {
      hide Wrap, Inv, VoteAdjusted;
      var w, now := schedule.witnesses[id], schedule.currentTime;
      var deltaPos := Wrap(w.votes * Wrap(now - w.lastUpdate));
      var position := Wrap(w.position + deltaPos);
      var votes := Max(w.votes + delta, 0);
      if votes > totalVestingShares {
        return false;
      }
      var scheduled := Wrap(now + Wrap(LAP - position) / (votes + 1));
      if scheduled < now {
        scheduled := LAP;
      }
      AdjustFacts(schedule, id, delta);
      schedule := schedule.(witnesses := schedule.witnesses[id :=
        w.(position := position, lastUpdate := now, votes := votes, scheduled := scheduled)]);
      return true;
    }

    /** The highest voted witnesses with a signing key. */
    method SelectVoted() returns (voted: seq<nat>)
      requires Valid()
      ensures TopVoted(schedule.witnesses, voted)
    {
      hide OnTrack;
      var ws := schedule.witnesses;
      var remaining := ws.Keys;
      voted := [];
      while remaining != {} && |voted| < MAX_VOTED_WITNESSES
        invariant remaining <= ws.Keys && |voted| <= MAX_VOTED_WITNESSES && NoDuplicates(voted)
        invariant forall k :: 0 <= k < |voted| ==> Keyed(ws, voted[k]) && voted[k] !in remaining
        invariant forall k, id :: 0 <= k < |voted| && id in remaining ==> VotesBefore(ws, voted[k], id)
        invariant forall id :: Keyed(ws, id) && id !in remaining ==> id in voted
        decreases |remaining|
      {
        FirstByVotesExists(ws, remaining);
        var first :| FirstByVotes(ws, remaining, first);
        remaining := remaining - {first};
        if ws[first].hasKey {
          voted := voted + [first];
        }
      }
    }

    /** The witnesses next in virtual time; everyone looked at is processed, keyed or not. */
    method SelectByTime(voted: seq<nat>) returns (round: seq<nat>, processed: seq<nat>, newTime: int)
      requires Valid() && TopVoted(schedule.witnesses, voted)
      ensures RoundOf(schedule.witnesses, voted, round)
      ensures FirstInTime(schedule.witnesses, processed) && newTime == NewTime(schedule, processed)
      ensures Completes(schedule.witnesses, voted, round, processed)
    {
      hide Inv, FirstInTime, TimeBefore, TopVoted, PartialRound, RoundOf;
      var ws := schedule.witnesses;
      var remaining := ws.Keys;
      round, processed, newTime := voted, [], schedule.currentTime;
      PartialRoundStart(ws, voted);
      NobodyYet(ws);
      while remaining != {} && |round| < MAX_WITNESSES
        invariant remaining <= ws.Keys && |round| <= MAX_WITNESSES
        invariant PartialRound(ws, voted, round, remaining) && FirstInTime(ws, processed)
        invariant forall id :: id in remaining <==> id in ws && id !in processed
        invariant (forall k :: 0 <= k < |processed| ==> processed[k] in ws) && newTime == NewTime(schedule, processed)
        invariant |voted| <= |round| && forall k :: |voted| <= k < |round| ==> round[k] in processed
        invariant |round| == MAX_WITNESSES ==>
                    |voted| < |round| && processed != [] && processed[|processed| - 1] == round[|round| - 1]
        decreases |remaining|
      {
        FirstByTimeExists(ws, remaining);
        var first :| FirstByTime(ws, remaining, first);
        PartialRoundStep(ws, voted, round, remaining, first);
        FirstInTimeStep(ws, processed, remaining, first);
        newTime := ws[first].scheduled;
        processed := processed + [first];
        remaining := remaining - {first};
        if ws[first].hasKey && first !in voted {
          round := round + [first];
        }
      }
      PartialRoundDone(ws, voted, round, remaining);
    }

    /** Starts a new lap for everyone processed, up to the first whose lap would overflow. */
    method StartLaps(processed: seq<nat>, newTime: int) returns (done: nat)
      requires VotesNonNegative(schedule) && 0 <= newTime <= LAP
      requires forall k :: 0 <= k < |processed| ==> processed[k] in schedule.witnesses
      modifies this
      ensures numScheduled == old(numScheduled)
      ensures done <= |processed| && (done < |processed| <==> Overflows(old(schedule), processed, newTime))
      ensures schedule == Advanced(old(schedule), processed[..done], newTime).(currentTime := old(schedule).currentTime)
    {
      hide Overflows, Advanced;
      ghost var s := schedule;
      AdvanceStarts(s, newTime);
      done := 0;
      while done < |processed|
        invariant 0 <= done <= |processed| && numScheduled == old(numScheduled)
        invariant schedule == Advanced(s, processed[..done], newTime).(currentTime := s.currentTime)
        invariant !Overflows(s, processed[..done], newTime)
      {
        var id := processed[done];
        AdvanceStep(s, processed, done, newTime);
        var w := schedule.witnesses[id];
        var scheduled := Wrap(newTime + LAP / (w.votes + 1));
        if scheduled < newTime {
          OverflowFound(s, processed, done, newTime);
          return;
        }
        var next := w.(position := 0, lastUpdate := newTime, scheduled := scheduled);
        schedule := schedule.(witnesses := schedule.witnesses[id := next]);
        done := done + 1;
      }
      assert processed[..done] == processed;
    }

    /** Starts a new lap for everyone processed, or for everyone at time zero when a lap would overflow. */
    method AdvanceTime(processed: seq<nat>, newTime: int) returns (reset: bool)
      requires Valid() && FirstInTime(schedule.witnesses, processed) && newTime == NewTime(schedule, processed)
      modifies this
      ensures Valid() && numScheduled == old(numScheduled)
      ensures reset == Overflows(old(schedule), processed, newTime)
      ensures schedule == if reset then Reset(old(schedule)) else Advanced(old(schedule), processed, newTime)
    {
      ghost var s := schedule;
      NewTimeFacts(s, processed);
      AdvanceResult(s, processed, newTime);
      hide OnTrack, Inv, Overflows, Advanced, Reset, VotesNonNegative;
      var done := StartLaps(processed, newTime);
      reset := done < |processed|;
      if reset {
        ResetForgets(s, processed[..done], newTime);
        schedule := Reset(schedule);
      } else {
        assert processed[..done] == processed;
        schedule := schedule.(currentTime := newTime);
      }
    }

    /** Shuffles the first n entries in place. */
    method Shuffle(n: nat, draw: nat -> nat)
      requires n <= shuffled.Length == MAX_WITNESSES
      modifies shuffled
      ensures shuffled[..] == ShuffledFrom(old(shuffled[..]), draw, 0, n)
    {
      var i := 0;
      while i < n
        invariant 0 <= i <= n
        invariant ShuffledFrom(shuffled[..], draw, i, n) == ShuffledFrom(old(shuffled[..]), draw, 0, n)
      {
        var j := Pick(draw, i, n);
        ghost var before := shuffled[..];
        shuffled[i], shuffled[j] := shuffled[j], shuffled[i];
        assert shuffled[..] == Swapped(before, i, j);
        i := i + 1;
      }
    }

    /** Writes the names at the front of the table and blanks the rest. */
    method FillTable(names: seq<Name>)
      requires |names| <= shuffled.Length == MAX_WITNESSES
      modifies shuffled
      ensures shuffled[..] == Padded(names)
    {
      for i := 0 to shuffled.Length
        invariant forall k :: 0 <= k < i ==> shuffled[k] == if k < |names| then names[k] else NO_NAME
      {
        shuffled[i] := if i < |names| then names[i] else NO_NAME;
      }
    }

    /**
     update_witness_schedule4. It throws, and so changes nothing, exactly when the chain is past its
     first day and some witness the round has room for has no signing key. Otherwise it publishes, in an
     order that depends on the draws, exactly the owners of the round, each once, and moves virtual time
     forward to the last witness looked at or, when a lap would not fit 128 bits, resets everyone.
     */
    method UpdateWitnessSchedule(headBlockNum: nat, draw: nat -> nat)
      returns (ok: bool, reset: bool, voted: seq<nat>, round: seq<nat>, processed: seq<nat>)
      requires Valid()
      modifies this, shuffled
      ensures Valid()
      ensures RoundOf(old(schedule).witnesses, voted, round)
      ensures ok == (headBlockNum <= FIRST_DAY
                     || Min(MAX_WITNESSES, |KeyedIds(old(schedule).witnesses)|)
                        == Min(MAX_WITNESSES, |old(schedule).witnesses|))
      ensures !ok ==> schedule == old(schedule) && numScheduled == old(numScheduled)
                      && shuffled[..] == old(shuffled[..])
      ensures ok ==> numScheduled == Max(|round|, 1) && Published(old(schedule).witnesses, round, shuffled[..])
      ensures FirstInTime(old(schedule).witnesses, processed)
      ensures Completes(old(schedule).witnesses, voted, round, processed)
      ensures ok ==> NextSchedule(old(schedule), schedule, processed, reset)
    {
      hide Inv, OnTrack, RoundOf, TopVoted, FirstInTime, Completes, Overflows, Advanced, Reset, KeyedIds, Padded,
        Published, NextSchedule, NoDuplicates, VotesNonNegative, ShuffledFrom, NewTime;
      var before := schedule;
      voted := SelectVoted();
      var newTime;
      round, processed, newTime := SelectByTime(voted);
      RoundSize(before.witnesses, voted, round);
      RoundMembers(before, voted, round);
      reset := AdvanceTime(processed, newTime);
      NextScheduleIs(before, schedule, processed, reset);
      if headBlockNum > FIRST_DAY && |round| != Min(MAX_WITNESSES, |before.witnesses|) {
        schedule := before;
        return false, reset, voted, round, processed;
      }
      ok := true;
      FillTable(Owners(before.witnesses, round));
      numScheduled := Max(|round|, 1);
      Shuffle(numScheduled, draw);
      ShuffledIsPublished(before.witnesses, round, draw);
    }
  }

  /** The first name of the table after the round. */
  function Padded(names: seq<Name>): (r: seq<Name>)
    requires |names| <= MAX_WITNESSES
    ensures |r| == MAX_WITNESSES
  {
    names + seq(MAX_WITNESSES - |names|, _ => NO_NAME)
  }

  /** The table holds the round's owners, each once and in some order, and then blanks. */
  ghost predicate Published(ws: map<nat, Witness>, round: seq<nat>, table: seq<Name>)
    requires forall k :: 0 <= k < |round| ==> round[k] in ws
  {
    && |round| <= |table| == MAX_WITNESSES
    && multiset(table[..|round|]) == multiset(Owners(ws, round)) && NoDuplicates(table[..|round|])
    && (forall k :: |round| <= k < |table| ==> table[k] == NO_NAME)
  }

  /** The next schedule: laps started at the new time for everyone looked at, or the full reset. */
  ghost predicate NextSchedule(s: Schedule, next: Schedule, processed: seq<nat>, reset: bool)
    requires VotesNonNegative(s) && FirstInTime(s.witnesses, processed)
  {
    var t := NewTime(s, processed);
    && reset == Overflows(s, processed, t)
    && next == (if reset then Reset(s) else Advanced(s, processed, t))
    && s.currentTime <= t && next.currentTime == (if reset then 0 else t)
    && next.witnesses.Keys == s.witnesses.Keys
    && forall id :: id in s.witnesses ==>
         var w, v := s.witnesses[id], next.witnesses[id];
         if reset || id in processed then StartsLap(w, v, next.currentTime) else v == w
  }

  /** The same witness, at the start of a lap at time t. */
  predicate StartsLap(w: Witness, v: Witness, t: int) {
    && v.owner == w.owner && v.votes == w.votes && v.hasKey == w.hasKey
    && v.position == 0 && v.lastUpdate == t && 0 <= w.votes && IsFloor(v.scheduled - t, LAP, w.votes + 1)
  }

  lemma NewLapStarts(w: Witness, t: int)
    requires 0 <= w.votes
    ensures StartsLap(w, NewLap(w, t), t)
  {
    FloorIs(LAP, w.votes + 1);
  }

  lemma LapsStart(s: Schedule, processed: seq<nat>, t: int)
    requires VotesNonNegative(s)
    ensures Advanced(s, processed, t).witnesses.Keys == Reset(s).witnesses.Keys == s.witnesses.Keys
    ensures forall id :: id in s.witnesses ==>
                           && StartsLap(s.witnesses[id], Reset(s).witnesses[id], 0)
                           && var v := Advanced(s, processed, t).witnesses[id];
                           if id in processed then StartsLap(s.witnesses[id], v, t) else v == s.witnesses[id]
  {
    hide StartsLap, NewLap;
    forall id | id in s.witnesses
      ensures StartsLap(s.witnesses[id], NewLap(s.witnesses[id], 0), 0)
      ensures StartsLap(s.witnesses[id], NewLap(s.witnesses[id], t), t)
    {
      NewLapStarts(s.witnesses[id], 0);
      NewLapStarts(s.witnesses[id], t);
    }
  }

  lemma NextScheduleIs(s: Schedule, next: Schedule, processed: seq<nat>, reset: bool)
    requires Inv(s) && VotesNonNegative(s) && FirstInTime(s.witnesses, processed)
    requires reset == Overflows(s, processed, NewTime(s, processed))
    requires next == if reset then Reset(s) else Advanced(s, processed, NewTime(s, processed))
    ensures NextSchedule(s, next, processed, reset)
  {
    NewTimeFacts(s, processed);
    LapsStart(s, processed, NewTime(s, processed));
    hide Inv, FirstInTime, Overflows, StartsLap, NewLap;
  }

  lemma ShuffledIsPublished(ws: map<nat, Witness>, round: seq<nat>, draw: nat -> nat)
    requires |round| <= MAX_WITNESSES && NoDuplicates(round) && forall k :: 0 <= k < |round| ==> round[k] in ws
    requires forall i, j :: i in ws && j in ws && i != j ==> ws[i].owner != ws[j].owner
    ensures Published(ws, round, ShuffledFrom(Padded(Owners(ws, round)), draw, 0, Max(|round|, 1)))
  {
    var names, n := Owners(ws, round), Max(|round|, 1);
    var p := Padded(names);
    var r := ShuffledFrom(p, draw, 0, n);
    if round == [] {
      assert Pick(draw, 0, 1) == 0;
      assert Swapped(p, 0, 0) == p;
      assert r == ShuffledFrom(p, draw, 1, 1) == p;
      assert r[..0] == names;
    } else {
      ShuffleIsPermutation(p, draw, 0, n);
      assert p[..n] == names;
      assert NoDuplicates(names);
      PermutationKeepsNoDuplicates(names, r[..n]);
      forall k | n <= k < |r|
        ensures r[k] == NO_NAME
      {
        assert r[k] == r[n..][k - n] == p[n..][k - n];
      }
    }
  }

  lemma RoundMembers(s: Schedule, voted: seq<nat>, round: seq<nat>)
    requires Inv(s) && RoundOf(s.witnesses, voted, round)
    ensures VotesNonNegative(s) && NoDuplicates(round) && |round| <= MAX_WITNESSES
    ensures forall k :: 0 <= k < |round| ==> round[k] in s.witnesses
    ensures forall i, j :: i in s.witnesses && j in s.witnesses && i != j ==>
                             s.witnesses[i].owner != s.witnesses[j].owner
  {
    hide TopVoted, TimeBefore;
  }

  lemma NobodyYet(ws: map<nat, Witness>)
    ensures FirstInTime(ws, [])
  {
  }

  /** Time does not go back, and has not passed anybody who was not looked at. */
  lemma NewTimeFacts(s: Schedule, processed: seq<nat>)
    requires Inv(s) && FirstInTime(s.witnesses, processed)
    ensures VotesNonNegative(s)
    ensures forall k :: 0 <= k < |processed| ==> processed[k] in s.witnesses
    ensures 0 <= s.currentTime <= NewTime(s, processed) <= LAP
    ensures forall id :: id in s.witnesses && id !in processed ==> NewTime(s, processed) <= s.witnesses[id].scheduled
  {
    if processed != [] {
      var last := |processed| - 1;
      assert OnTrack(s.witnesses[processed[last]], s.currentTime);
      assert forall id :: id in s.witnesses && id !in processed ==> TimeBefore(s.witnesses, processed[last], id);
    }
  }

  lemma PartialRoundStart(ws: map<nat, Witness>, voted: seq<nat>)
    requires TopVoted(ws, voted)
    ensures PartialRound(ws, voted, voted, ws.Keys) && |voted| <= MAX_VOTED_WITNESSES
  {
  }

  lemma AdvanceStarts(s: Schedule, t: int)
    requires VotesNonNegative(s)
    ensures forall p: seq<nat> :: p == [] ==>
                                    s == Advanced(s, p, t).(currentTime := s.currentTime) && !Overflows(s, p, t)
    ensures forall p: seq<nat> :: Advanced(s, p, t).currentTime == t
  {
  }

  /** Resetting forgets the laps that were started before the overflow was found. */
  lemma ResetForgets(s: Schedule, p: seq<nat>, t: int)
    requires VotesNonNegative(s)
    ensures var a := Advanced(s, p, t).(currentTime := s.currentTime);
            VotesNonNegative(a) && Reset(a) == Reset(s)
  {
  }

  lemma AdvanceResult(s: Schedule, processed: seq<nat>, t: int)
    requires Inv(s) && VotesNonNegative(s) && s.currentTime <= t <= LAP
    requires forall id :: id in s.witnesses && id !in processed ==> t <= s.witnesses[id].scheduled
    ensures Inv(Reset(s)) && (!Overflows(s, processed, t) ==> Inv(Advanced(s, processed, t)))
  {
    ResetInv(s);
    if !Overflows(s, processed, t) {
      AdvancedInv(s, processed, t);
    }
  }

  lemma OverflowFound(s: Schedule, processed: seq<nat>, i: nat, t: int)
    requires VotesNonNegative(s)
    requires i < |processed| && processed[i] in s.witnesses && LAP < t + LAP / (s.witnesses[processed[i]].votes + 1)
    ensures Overflows(s, processed, t)
  {
  }

  /** One processed witness: the comparison notices an overflow, and otherwise the sum is exact. */
  lemma AdvanceStep(s: Schedule, processed: seq<nat>, i: nat, t: int)
    requires VotesNonNegative(s)
    requires i < |processed| && processed[i] in s.witnesses && 0 <= t <= LAP && !Overflows(s, processed[..i], t)
    ensures var id := processed[i];
            var before, after := Advanced(s, processed[..i], t), Advanced(s, processed[..i + 1], t);
            && id in before.witnesses && before.witnesses[id].votes == s.witnesses[id].votes
            && var w := before.witnesses[id];
            var scheduled := Wrap(t + LAP / (w.votes + 1));
            && (scheduled < t <==> LAP < t + LAP / (w.votes + 1))
            && (t <= scheduled ==>
                  && !Overflows(s, processed[..i + 1], t) && after.currentTime == t
                  && after.witnesses
                     == before.witnesses[id := w.(position := 0, lastUpdate := t, scheduled := scheduled)])
  {
    var w := s.witnesses[processed[i]];
    DivNonNegative(LAP, w.votes + 1);
    OverflowIsCaught(t, LAP / (w.votes + 1));
    assert forall id :: id in processed[..i + 1] <==> id in processed[..i] || id == processed[i];
  }
}

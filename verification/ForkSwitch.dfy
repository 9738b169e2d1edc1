/**
 Pushing a block: extend the chain, remember a side branch, or switch to a longer branch by undoing
 blocks down to the fork point and applying the other branch, with recovery if that branch is bad.
 Applying a block is any deterministic partial function on chain states.
 */
module ForkSwitch {
  import opened Common
  import opened F = ForkDatabase

  /** Everything a chain state holds besides the id of its last applied block. */
  type Contents(!new)

  datatype ChainState = ChainState(headId: BlockId, contents: Contents)

  /** None when apply_block throws. */
  type Rules = (ChainState, Block) -> Option<ChainState>

  function Apply(rules: Rules, s: ChainState, b: Block): Option<ChainState> {
    rules(s, b)
  }

  /** A block is only ever applied to the state of its previous block, and becomes the head. */
  ghost predicate Lawful(rules: Rules) {
    forall s: ChainState, b: Block :: Apply(rules, s, b).Some? ==>
      s.headId == b.previous && Apply(rules, s, b).value.headId == b.id
  }

  /** The states after each block in turn, up to the first one that fails. */
  function Trace(rules: Rules, s: ChainState, blocks: seq<Block>): seq<ChainState>
    decreases |blocks|
  {
    if blocks == [] then []
    else match Apply(rules, s, blocks[0])
      case None => []
      case Some(t) => [t] + Trace(rules, t, blocks[1..])
  }

  /** Folding apply over blocks. */
  function Replay(rules: Rules, s: ChainState, blocks: seq<Block>): Option<ChainState>
    decreases |blocks|
  {
    if blocks == [] then Some(s)
    else match Apply(rules, s, blocks[0])
      case None => None
      case Some(t) => Replay(rules, t, blocks[1..])
  }

  /** states[i + 1] is blocks[i] applied to states[i]: an undo history with the current state at its end. */
  ghost predicate Consistent(rules: Rules, states: seq<ChainState>, blocks: seq<Block>) {
    && |states| == |blocks| + 1
    && forall i {:trigger blocks[i]} :: 0 <= i < |blocks| ==>
         Apply(rules, states[i], blocks[i]).Some? && Apply(rules, states[i], blocks[i]).value == states[i + 1]
  }

  /** The index still holds every block that can be undone. */
  predicate Held(index: Index, blocks: seq<Block>) {
    forall i :: 0 <= i < |blocks| ==> blocks[i].id in index && index[blocks[i].id].block == blocks[i]
  }

  // ---------- histories ----------

  lemma {:induction false} TraceProperties(rules: Rules, s: ChainState, blocks: seq<Block>)
    ensures |Trace(rules, s, blocks)| <= |blocks|
    ensures Consistent(rules, [s] + Trace(rules, s, blocks), blocks[..|Trace(rules, s, blocks)|])
    ensures |Trace(rules, s, blocks)| < |blocks| ==>
              Apply(rules, ([s] + Trace(rules, s, blocks))[|Trace(rules, s, blocks)|],
                blocks[|Trace(rules, s, blocks)|]) == None
    decreases |blocks|
  {
    if blocks != [] {
      match Apply(rules, s, blocks[0])
      case None =>
      case Some(t) =>
        TraceProperties(rules, t, blocks[1..]);
        var tail := Trace(rules, t, blocks[1..]);
        var all := [s] + Trace(rules, s, blocks);
        assert all == [s] + ([t] + tail);
        forall i | 0 <= i < |tail| + 1
          ensures Apply(rules, all[i], blocks[i]) == Some(all[i + 1])
        {
          if i > 0 {
            assert all[i] == ([t] + tail)[i - 1] && blocks[i] == blocks[1..][i - 1];
          }
        }
    }
  }

  /** Unrolling a trace by one block, behind what is already done. */
  lemma TraceStep(rules: Rules, s: ChainState, blocks: seq<Block>, n: nat, done: seq<ChainState>)
    requires n < |blocks|
    ensures match Apply(rules, s, blocks[n])
      case None => done + Trace(rules, s, blocks[n..]) == done
      case Some(t) => done + Trace(rules, s, blocks[n..]) == done + [t] + Trace(rules, t, blocks[n + 1..])
  {
    assert blocks[n..][0] == blocks[n] && blocks[n..][1..] == blocks[n + 1..];
    match Apply(rules, s, blocks[n])
    case None =>
    case Some(t) =>
      var rest := Trace(rules, t, blocks[n + 1..]);
      assert done + ([t] + rest) == done + [t] + rest;
  }

  /** Replaying the blocks of a history from its start gives its end. */
  lemma {:induction false} HistoryIsReplay(rules: Rules, states: seq<ChainState>, blocks: seq<Block>)
    requires Consistent(rules, states, blocks)
    ensures Replay(rules, states[0], blocks) == Some(states[|blocks|])
    ensures Trace(rules, states[0], blocks) == states[1..]
    decreases |blocks|
  {
    if blocks != [] {
      HistoryIsReplay(rules, states[1..], blocks[1..]);
    }
  }

  /** Consecutive blocks of a lawful history link to each other, so heights go up by one. */
  lemma {:induction false} HistoryLinks(rules: Rules, states: seq<ChainState>, blocks: seq<Block>, i: nat)
    requires Lawful(rules) && Consistent(rules, states, blocks) && i <= |blocks|
    requires forall j :: 0 <= j < |blocks| ==> ValidBlock(blocks[j])
    ensures states[i].headId.num == states[0].headId.num + i
    ensures 0 < i ==> states[i].headId == blocks[i - 1].id && states[i - 1].headId == blocks[i - 1].previous
  {
    if i > 0 {
      HistoryLinks(rules, states, blocks, i - 1);
      assert ValidBlock(blocks[i - 1]);
    }
  }

  lemma HistoryHeadIsLast(rules: Rules, states: seq<ChainState>, blocks: seq<Block>)
    requires Lawful(rules) && Consistent(rules, states, blocks) && 0 < |blocks|
    ensures states[|blocks|].headId == blocks[|blocks| - 1].id
  {
    assert Apply(rules, states[|blocks| - 1], blocks[|blocks| - 1]).Some?;
  }

  /** Every head of a held history stands one higher than the one before, and all but the first are in the index. */
  lemma HistoryHeads(rules: Rules, index: Index, states: seq<ChainState>, blocks: seq<Block>)
    requires Lawful(rules) && ValidIndex(index) && Consistent(rules, states, blocks) && Held(index, blocks)
    ensures forall i :: 0 <= i < |states| ==>
              states[i].headId.num == states[0].headId.num + i && (0 < i ==> states[i].headId in index)
  {
    forall i | 0 <= i < |states|
      ensures states[i].headId.num == states[0].headId.num + i && (0 < i ==> states[i].headId in index)
    {
      assert forall j :: 0 <= j < |blocks| ==> ValidBlock(blocks[j]);
      HistoryLinks(rules, states, blocks, i);
      if i > 0 {
        assert blocks[i - 1].id in index;
      }
    }
  }

  lemma BlocksLink(rules: Rules, states: seq<ChainState>, blocks: seq<Block>, i: nat)
    requires Lawful(rules) && Consistent(rules, states, blocks) && 0 < i < |blocks|
    ensures blocks[i].previous == blocks[i - 1].id
  {
    assert Apply(rules, states[i - 1], blocks[i - 1]).Some? && Apply(rules, states[i], blocks[i]).Some?;
  }

  /** The branch of the index below the head runs through the blocks of the history. */
  lemma {:induction false} BranchFollowsHistory(
    rules: Rules, index: Index, states: seq<ChainState>, blocks: seq<Block>, h: nat, i: nat)
    requires Lawful(rules) && ValidIndex(index) && Consistent(rules, states, blocks) && Held(index, blocks)
    requires blocks != [] && AncestorAt(index, states[|blocks|].headId, h).Some?
    requires var branch := Branch(index, states[|blocks|].headId, h); i < |branch| && i < |blocks|
    ensures var branch := Branch(index, states[|blocks|].headId, h);
            branch[i] == blocks[|blocks| - 1 - i].id
  {
    assert |states| == |blocks| + 1;
    hide Lawful, ValidIndex, Consistent, AncestorAt, Branch;
    var n := |blocks|;
    var head := states[n].headId;
    BranchIsContiguous(index, head, h);
    if i == 0 {
      HistoryHeadIsLast(rules, states, blocks);
    } else {
      BranchFollowsHistory(rules, index, states, blocks, h, i - 1);
      BlocksLink(rules, states, blocks, n - i);
      assert Parent(index, Branch(index, head, h)[i - 1]) == Some(Branch(index, head, h)[i]);
      assert index[blocks[n - i].id].block == blocks[n - i];
    }
  }

  /** The blocks of a branch, oldest first. */
  function Oldest(index: Index, branch: seq<BlockId>): (blocks: seq<Block>)
    requires forall i :: 0 <= i < |branch| ==> branch[i] in index
    ensures |blocks| == |branch|
  {
    seq(|branch|, i requires 0 <= i < |branch| => index[branch[|branch| - 1 - i]].block)
  }

  /** The ids of all but the n oldest blocks of a branch. */
  function NewestIds(branch: seq<BlockId>, n: nat): set<BlockId>
    requires n <= |branch|
  {
    set i | 0 <= i < |branch| - n :: branch[i]
  }

  /** The tail of the history is the branch of the index from the head down to height h. */
  lemma HistoryTail(rules: Rules, index: Index, states: seq<ChainState>, blocks: seq<Block>, h: nat)
    requires Lawful(rules) && ValidIndex(index) && Consistent(rules, states, blocks) && Held(index, blocks)
    requires AncestorAt(index, states[|blocks|].headId, h).Some?
    requires |Branch(index, states[|blocks|].headId, h)| <= |blocks|
    ensures var branch := Branch(index, states[|blocks|].headId, h);
            var keep := |blocks| - |branch|;
            && (forall i :: 0 <= i < |branch| ==> branch[i] in index)
            && Oldest(index, branch) == blocks[keep..]
            && index[branch[|branch| - 1]].block.previous == states[keep].headId
            && Consistent(rules, states[keep..], Oldest(index, branch))
  {
    var head := states[|blocks|].headId;
    var branch := Branch(index, head, h);
    var keep := |blocks| - |branch|;
    BranchIsContiguous(index, head, h);
    forall i | 0 <= i < |branch|
      ensures branch[i] == blocks[|blocks| - 1 - i].id
    {
      BranchFollowsHistory(rules, index, states, blocks, h, i);
    }
    forall i | 0 <= i < |branch|
      ensures Oldest(index, branch)[i] == blocks[keep..][i]
    {
      assert branch[|branch| - 1 - i] == blocks[keep + i].id;
    }
    assert Apply(rules, states[keep], blocks[keep]).Some?;
  }

  lemma Rejoin(states: seq<ChainState>, blocks: seq<Block>, keep: nat)
    requires keep < |states| && keep <= |blocks|
    ensures states[..keep + 1] + states[keep..][1..] == states && blocks[..keep] + blocks[keep..] == blocks
    ensures blocks[keep..][..|blocks| - keep] == blocks[keep..]
  {
  }

  // ---------- bad suffixes ----------

  /**
   The blocks of the new branch x that are dropped after a failure never include a block of the old
   chain: above the meeting height the branches differ, and at it they are equal only if that block
   is the old chain's own, which applies again.
   */
  lemma DroppedAreForeign(
    rules: Rules, index: Index, states: seq<ChainState>, blocks: seq<Block>, x: BlockId, h: nat, n: nat)
    requires Lawful(rules) && ValidIndex(index) && Consistent(rules, states, blocks) && Held(index, blocks)
    requires var y := states[|blocks|].headId;
             && x in index && Meeting(index, x, y, h) && |Branch(index, y, h)| <= |blocks| && n <= |Branch(index, x, h)|
             && (AncestorAt(index, x, h) == AncestorAt(index, y, h) ==> 0 < n)
    ensures Held(index - NewestIds(Branch(index, x, h), n), blocks)
  {
    var y := states[|blocks|].headId;
    var a := Branch(index, x, h);
    forall j | 0 <= j < |blocks|
      ensures blocks[j].id !in NewestIds(a, n)
    {
      forall i | 0 <= i < |a| - n
        ensures a[i] != blocks[j].id
      {
        DroppedIsForeign(rules, index, states, blocks, x, h, n, i, j);
      }
    }
  }

  lemma DroppedIsForeign(
    rules: Rules, index: Index, states: seq<ChainState>, blocks: seq<Block>, x: BlockId, h: nat, n: nat, i: nat, j: nat)
    requires Lawful(rules) && ValidIndex(index) && Consistent(rules, states, blocks) && Held(index, blocks)
    requires var y := states[|blocks|].headId;
             && x in index && Meeting(index, x, y, h) && |Branch(index, y, h)| <= |blocks| && n <= |Branch(index, x, h)|
             && (AncestorAt(index, x, h) == AncestorAt(index, y, h) ==> 0 < n)
    requires i < |Branch(index, x, h)| - n && j < |blocks|
    ensures Branch(index, x, h)[i] != blocks[j].id
  {
    if h <= blocks[j].id.num {
      ChainAncestor(rules, index, states, blocks, h, j);
    }
    OffTheOtherBranch(index, x, states[|blocks|].headId, h, i, blocks[j].id);
  }

  /** A block of the history above the fork point is the head's ancestor at its height. */
  lemma ChainAncestor(rules: Rules, index: Index, states: seq<ChainState>, blocks: seq<Block>, h: nat, j: nat)
    requires Lawful(rules) && ValidIndex(index) && Consistent(rules, states, blocks) && Held(index, blocks)
    requires AncestorAt(index, states[|blocks|].headId, h).Some?
    requires j < |blocks| && h <= blocks[j].id.num
    ensures AncestorAt(index, states[|blocks|].headId, blocks[j].id.num) == Some(blocks[j].id)
  {
    var y := states[|blocks|].headId;
    HistoryHeads(rules, index, states, blocks);
    assert states[j + 1].headId == blocks[j].id;
    var k := |blocks| - 1 - j;
    assert blocks[j].id.num == y.num - k;
    BranchFollowsHistory(rules, index, states, blocks, h, k);
    BranchAt(index, y, h, k);
  }

  lemma HeldAppend(index: Index, blocks: seq<Block>, more: seq<Block>)
    requires Held(index, blocks) && Held(index, more)
    ensures Held(index, blocks + more)
  {
    forall i | 0 <= i < |blocks + more|
      ensures (blocks + more)[i].id in index && index[(blocks + more)[i].id].block == (blocks + more)[i]
    {
      if i >= |blocks| {
        assert (blocks + more)[i] == more[i - |blocks|];
      }
    }
  }

  /** The history's position after j pops of n blocks. */
  function Standing(n: nat, j: nat): nat {
    if j <= n then n - j else 0
  }

  /** A pop that fails short of the target means the target is out of reach, and no further pop moves the history. */
  lemma PopBlocked(states: seq<ChainState>, index: Index, top: BlockId, target: BlockId, j: nat, d: nat)
    requires ValidIndex(index) && states != [] && j <= Below(index, top) && (d < |states| ==> j <= d)
    requires forall i :: 0 < i < |states| ==> states[i].headId in index
    requires d < |states| ==> target == states[|states| - 1 - d].headId
    requires states[Standing(|states| - 1, j)].headId != target
    requires states[Standing(|states| - 1, j)].headId !in index || Below(index, top) == j
    ensures !(d < |states| && d <= Below(index, top))
    ensures Standing(|states| - 1, j) == Standing(|states| - 1, Below(index, top))
  {
  }

  lemma PopArrived(states: seq<ChainState>, target: BlockId, at: nat, j: nat, d: nat)
    requires at < |states| && (d < |states| ==> j <= d)
    requires forall i :: 0 <= i < |states| ==> states[i].headId.num == states[0].headId.num + i
    requires at == (if j < |states| then |states| - 1 - j else 0)
    requires states[at].headId == target && target.num + d == states[|states| - 1].headId.num
    ensures d < |states| && j == d && at == |states| - 1 - d
  {
    assert states[at].headId.num == states[0].headId.num + at;
  }

  lemma HistoryStart(states: seq<ChainState>, undo: seq<ChainState>, state: ChainState, at: nat)
    requires at < |states| && undo == states[..at] && state == states[at]
    ensures undo + [state] == states[..at + 1] && (undo + [state])[0] == states[0]
  {
  }

  /** One more block on a history. */
  lemma AppendBlock(rules: Rules, index: Index, states: seq<ChainState>, blocks: seq<Block>, b: Block)
    requires Consistent(rules, states, blocks) && Held(index, blocks)
    requires b.id in index && index[b.id].block == b && Apply(rules, states[|blocks|], b).Some?
    ensures Consistent(rules, states + [Apply(rules, states[|blocks|], b).value], blocks + [b])
    ensures Held(index, blocks + [b])
  {
  }

  // ---------- the object ----------

  datatype Outcome =
    | Refused        // the fork database did not take the block
    | NoCommonBlock  // a higher branch that does not meet the current one
    | Stored         // a side branch that is not higher
    | Extended       // applied on top of the head
    | ApplyFailed    // linked to the head but failed to apply
    | Switched       // now on the other branch
    | SwitchFailed   // the other branch was bad; back on the old one
    | Stuck          // an assertion failed while undoing blocks

  /** The fork database's head once it has taken b. */
  function NewTop(head: Option<Block>, b: Block): Block {
    if head.None? || head.value.id.num < b.id.num then b else head.value
  }

  /** What the database stands for: the fork index, the undo history with the current state last, the applied blocks. */
  datatype Chain = Chain(index: Index, states: seq<ChainState>, blocks: seq<Block>)

  /**
   What a switch does, from the two branches and the rules alone: stuck with everything undone if the undo
   history does not reach the fork point; on the new branch if all of it applies; and if block n of it fails,
   back on the old chain without the rest of the branch, unless the fork database cannot step back n blocks from
   the old head.
   */
  ghost predicate SwitchOutcome(
    rules: Rules, before: Chain, after: Chain, branches: (seq<BlockId>, seq<BlockId>), r: Outcome, n: nat, keep: int)
    requires ValidIndex(before.index)
  {
    && branches.1 != [] && |before.states| == |before.blocks| + 1 && keep == |before.blocks| - |branches.1|
    && (forall i :: 0 <= i < |branches.0| ==> branches.0[i] in before.index)
    && if keep < 0 then
         r == Stuck && after == Chain(before.index, before.states[..1], [])
       else
         var incoming := Oldest(before.index, branches.0);
         var trace := Trace(rules, before.states[keep], incoming);
         && n == |trace| <= |incoming|
         && if n == |incoming| then
              && r == Switched
              && after == Chain(before.index, before.states[..keep + 1] + trace, before.blocks[..keep] + incoming)
            else
              && after.index == before.index - NewestIds(branches.0, n)
              && FailedOutcome(before, after, before.states[..keep + 1] + trace, before.blocks[..keep] + incoming[..n],
                               branches.1[0], n, r)
  }

  /**
   After a failed branch, with n blocks of it applied: all the way back, exactly when the fork database holds n
   blocks below the old head y; otherwise back by as many as it holds.
   */
  ghost predicate FailedOutcome(
    before: Chain, after: Chain, states: seq<ChainState>, blocks: seq<Block>, y: BlockId, n: nat, r: Outcome)
  {
    ValidIndex(after.index) && |states| == |blocks| + 1 &&
    var below := Below(after.index, y);
    if n <= below then
      r == SwitchFailed && after.states == before.states && after.blocks == before.blocks
    else
      var at := Standing(|blocks|, below);
      r == Stuck && after.states == states[..at + 1] && after.blocks == blocks[..at]
  }

  /** What pushing a block the fork database takes does; head is the fork database's head before. */
  ghost predicate PushOutcome(
    rules: Rules, before: Chain, head: Option<Block>, b: Block, after: Chain, r: Outcome,
    branches: (seq<BlockId>, seq<BlockId>), n: nat, keep: int)
    requires ValidIndex(before.index) && ValidBlock(b) && before.states != []
  {
    var taken := before.(index := Taken(before.index, head, b));
    var top, state := NewTop(head, b), before.states[|before.states| - 1];
    var y := state.headId;
    if top.previous == y then
      match Apply(rules, state, b)
      case None => r == ApplyFailed && after == taken.(index := taken.index - {b.id})
      case Some(next) => r == Extended && after == Chain(taken.index, before.states + [next], before.blocks + [b])
    else if top.id.num <= y.num then
      r == Stored && after == taken
    else
      HigherOutcome(rules, taken, top.id, y, after, r, branches, n, keep)
  }

  /** A higher block x that does not stand on the head y: a switch, if their branches meet. */
  ghost predicate HigherOutcome(
    rules: Rules, taken: Chain, x: BlockId, y: BlockId, after: Chain, r: Outcome,
    branches: (seq<BlockId>, seq<BlockId>), n: nat, keep: int)
    requires ValidIndex(taken.index)
  {
    if x !in taken.index || y !in taken.index || !exists h: nat :: Meeting(taken.index, x, y, h) then
      r == NoCommonBlock && after == taken
    else
      exists h: nat ::
        && Meeting(taken.index, x, y, h) && branches == (Branch(taken.index, x, h), Branch(taken.index, y, h))
        && SwitchOutcome(rules, taken, after, branches, r, n, keep)
  }

  class ChainDatabase {
    const rules: Rules
    const forkDb: ForkDatabase
    var state: ChainState
    var undo: seq<ChainState>
    ghost var applied: seq<Block>

    /** The undo history, current state last. */
    ghost function History(): seq<ChainState>
      reads this
    {
      undo + [state]
    }

    ghost function View(): Chain
      reads this, forkDb
    {
      Chain(forkDb.index, History(), applied)
    }

    ghost predicate Valid()
      reads this, forkDb
    {
      && forkDb.Valid() && Lawful(rules)
      && Consistent(rules, History(), applied) && Held(forkDb.index, applied)
    }

    constructor (rules: Rules, genesis: ChainState, forkDb: ForkDatabase)
      requires Lawful(rules) && forkDb.Valid()
      ensures Valid() && this.rules == rules && this.forkDb == forkDb
      ensures History() == [genesis] && applied == []
    {
      this.rules, this.forkDb, state, undo, applied := rules, forkDb, genesis, [], [];
    }

    /** pop_block: the fork database steps back too; nothing to undo leaves the state as it is. */
    method PopBlock() returns (ok: bool)
      requires Valid()
      modifies this, forkDb
      ensures Valid() && forkDb.index == old(forkDb.index) && forkDb.maxSize == old(forkDb.maxSize)
      ensures ok == (old(state).headId in forkDb.index
                     && old(forkDb.head).Some? && Parent(forkDb.index, old(forkDb.head).value.id).Some?)
      ensures forkDb.head == if ok then Some(forkDb.index[Parent(forkDb.index, old(forkDb.head).value.id).value].block)
                             else old(forkDb.head)
      ensures (undo, state) == if ok && 0 < |old(undo)| then (old(undo)[..|old(undo)| - 1], old(undo)[|old(undo)| - 1])
                               else (old(undo), old(state))
      ensures applied == if ok && 0 < |old(undo)| then old(applied)[..|old(undo)| - 1] else old(applied)
    {
      if state.headId !in forkDb.index {
        return false;
      }
      ok := forkDb.PopBlock();
      if ok && |undo| > 0 {
        applied := applied[..|undo| - 1];
        state, undo := undo[|undo| - 1], undo[..|undo| - 1];
        assert History() == old(undo);
      }
    }

    /** This database stands at position at of a history. */
    ghost predicate StandsAt(states: seq<ChainState>, blocks: seq<Block>, at: nat)
      reads this
    {
      && at < |states| && at <= |blocks|
      && undo == states[..at] && state == states[at] && applied == blocks[..at]
    }

    /** One pop, when the fork database's head is j below top. */
    method PopOne(
      ghost states: seq<ChainState>, ghost blocks: seq<Block>, ghost at: nat, ghost top: BlockId, ghost j: nat)
      returns (ok: bool)
      requires Valid() && StandsAt(states, blocks, at) && j <= top.num
      requires forkDb.head.Some? && AncestorAt(forkDb.index, top, top.num - j) == Some(forkDb.head.value.id)
      modifies this, forkDb
      ensures Valid() && forkDb.index == old(forkDb.index) && forkDb.maxSize == old(forkDb.maxSize)
      ensures ok <==> states[at].headId in forkDb.index
                      && j < top.num && AncestorAt(forkDb.index, top, top.num - j - 1).Some?
      ensures ok ==> forkDb.head.Some? && AncestorAt(forkDb.index, top, top.num - j - 1) == Some(forkDb.head.value.id)
      ensures !ok ==> forkDb.head == old(forkDb.head)
      ensures StandsAt(states, blocks, if ok && 0 < at then at - 1 else at)
    {
      AncestorNext(forkDb.index, top, top.num - j);
      ok := PopBlock();
    }

    /** Undoes blocks until the head is target, which stands d blocks below the head, or as far as it goes. */
    method PopTo(target: BlockId, ghost d: nat) returns (ok: bool)
      requires Valid() && forkDb.head.Some? && forkDb.head.value.id in forkDb.index
      requires target.num + d == state.headId.num
      requires d <= |undo| ==> target == History()[|undo| - d].headId
      modifies this, forkDb
      ensures Valid() && forkDb.index == old(forkDb.index) && forkDb.maxSize == old(forkDb.maxSize)
      ensures var n, below := |old(undo)|, Below(forkDb.index, old(forkDb.head).value.id);
              var at := Standing(n, if ok then d else below);
              && (ok <==> d <= n && d <= below)
              && History() == old(History())[..at + 1] && applied == old(applied)[..at]
    {
      hide Consistent, Held, AncestorAt, StandsAt, Popping, Lawful, ValidIndex;
      ghost var states, blocks, index := History(), applied, forkDb.index;
      ghost var top, j: nat := forkDb.head.value.id, 0;
      PopStarts(top, d);
      while state.headId != target
        invariant Popping(states, blocks, index, top, d, j) && forkDb.maxSize == old(forkDb.maxSize)
        invariant j <= top.num
        decreases top.num - j
      {
        ok := PopOnce(states, blocks, index, top, target, d, j);
        if !ok {
          PoppingFacts(states, blocks, index, top, d, j);
          return false;
        }
        j := j + 1;
      }
      PoppingFacts(states, blocks, index, top, d, j);
      PopArrived(states, target, Standing(|blocks|, j), j, d);
      return true;
    }

    /** j blocks have been popped, of d at most that a history of that length has to give. */
    ghost predicate Popping(states: seq<ChainState>, blocks: seq<Block>, index: Index, top: BlockId, d: nat, j: nat)
      reads this, forkDb
    {
      && Valid() && forkDb.index == index && (d <= |blocks| ==> j <= d) && j <= top.num && |states| == |blocks| + 1
      && top in index && forkDb.head.Some? && AncestorAt(index, top, top.num - j) == Some(forkDb.head.value.id)
      && StandsAt(states, blocks, Standing(|blocks|, j))
    }

    lemma PopStarts(top: BlockId, d: nat)
      requires Valid() && forkDb.head.Some? && forkDb.head.value.id == top && top in forkDb.index
      ensures Popping(History(), applied, forkDb.index, top, d, 0) && |applied| == |undo|
      ensures var states := History();
              && (forall i :: 0 < i < |states| ==> states[i].headId in forkDb.index)
              && forall i :: 0 <= i < |states| ==> states[i].headId.num == states[0].headId.num + i
    {
      HistoryHeads(rules, forkDb.index, History(), applied);
    }

    lemma PoppingFacts(states: seq<ChainState>, blocks: seq<Block>, index: Index, top: BlockId, d: nat, j: nat)
      requires Popping(states, blocks, index, top, d, j)
      ensures var at := Standing(|blocks|, j);
              && Valid() && forkDb.index == index && at <= |blocks| && at < |states| && |states| == |blocks| + 1
              && (d <= |blocks| ==> j <= d) && j <= Below(index, top)
              && History() == states[..at + 1] && History()[0] == states[0] && state == states[at]
                 && applied == blocks[..at]
    {
      AncestorsReachBelow(index, top, j);
      HistoryStart(states, undo, state, Standing(|blocks|, j));
    }

    /** One more pop, or why there is none. */
    method PopOnce(
      ghost states: seq<ChainState>, ghost blocks: seq<Block>, ghost index: Index, ghost top: BlockId,
      ghost target: BlockId, ghost d: nat, ghost j: nat)
      returns (ok: bool)
      requires Popping(states, blocks, index, top, d, j) && state.headId != target
      requires forall i :: 0 < i < |states| ==> states[i].headId in index
      requires d <= |blocks| ==> target == states[|blocks| - d].headId
      modifies this, forkDb
      ensures Popping(states, blocks, index, top, d, if ok then j + 1 else j) && forkDb.maxSize == old(forkDb.maxSize)
      ensures ok ==> j < top.num
      ensures !ok ==> !(d <= |blocks| && d <= Below(index, top))
                      && Standing(|blocks|, j) == Standing(|blocks|, Below(index, top))
    {
      AncestorsReachBelow(index, top, j);
      if j < top.num {
        AncestorsReachBelow(index, top, j + 1);
      }
      ok := PopOne(states, blocks, Standing(|blocks|, j), top, j);
      if !ok {
        PopBlocked(states, index, top, target, j, d);
      }
    }

    /** apply_block inside an undo session: a throw leaves no trace, success pushes the session. */
    method ApplyBlock(b: Block) returns (ok: bool)
      requires Valid() && b.id in forkDb.index && forkDb.index[b.id].block == b
      modifies this
      ensures Valid() && ok == Apply(rules, old(state), b).Some?
      ensures if ok then undo == old(undo) + [old(state)] && state == Apply(rules, old(state), b).value
              && applied == old(applied) + [b]
              else undo == old(undo) && state == old(state) && applied == old(applied)
    {
      match rules(state, b) {
        case None =>
          return false;
        case Some(next) =>
          AppendBlock(rules, forkDb.index, History(), applied, b);
          assert undo + [state] + [next] == History() + [next];
          undo, state, applied := undo + [state], next, applied + [b];
          return true;
      }
    }

    /** Applies blocks one after another, stopping at the first that fails. */
    method ApplyAll(blocks: seq<Block>) returns (n: nat)
      requires Valid() && Held(forkDb.index, blocks)
      modifies this
      ensures Valid()
      ensures n == |Trace(rules, old(state), blocks)| <= |blocks|
      ensures History() == old(History()) + Trace(rules, old(state), blocks)
      ensures applied == old(applied) + blocks[..n]
    {
      ghost var start := History();
      ghost var done: seq<ChainState> := [];
      assert blocks[0..] == blocks;
      n := 0;
      while n < |blocks|
        invariant n <= |blocks| && |done| == n && Valid()
        invariant Trace(rules, old(state), blocks) == done + Trace(rules, state, blocks[n..])
        invariant History() == start + done && applied == old(applied) + blocks[..n]
      {
        TraceStep(rules, state, blocks, n, done);
        ghost var before := History();
        var ok := ApplyBlock(blocks[n]);
        if !ok {
          return;
        }
        assert History() == before + [state] == start + (done + [state]);
        done := done + [state];
        n := n + 1;
      }
    }

    /** Applies a block on top of the head, or drops it from the fork database. */
    method Extend(b: Block) returns (r: Outcome)
      requires Valid() && b.id in forkDb.index && forkDb.index[b.id].block == b
      modifies this, forkDb
      ensures forkDb.head == old(forkDb.head) && forkDb.maxSize == old(forkDb.maxSize)
      ensures History()[0] == old(History())[0] && Consistent(rules, History(), applied)
      ensures match Apply(rules, old(state), b)
        case None =>
          && r == ApplyFailed && History() == old(History()) && applied == old(applied)
          && forkDb.index == old(forkDb.index) - {b.id}
          && (Valid() <==> b !in applied)
        case Some(next) =>
          && r == Extended && History() == old(History()) + [next] && applied == old(applied) + [b]
          && forkDb.index == old(forkDb.index) && Valid()
    {
      var ok := ApplyBlock(b);
      if ok {
        return Extended;
      }
      forkDb.Remove(b.id);
      if b !in applied {
        assert forall i :: 0 <= i < |applied| ==> applied[i].id in old(forkDb.index) && applied[i].id != b.id;
        assert Held(forkDb.index, applied);
      } else {
        var i :| 0 <= i < |applied| && applied[i] == b;
        assert !Held(forkDb.index, applied);
      }
      return ApplyFailed;
    }

    /** Undoes the current chain down to the fork point and applies branch x as far as it goes. */
    method TryBranch(x: BlockId, branches: (seq<BlockId>, seq<BlockId>), ghost h: nat)
      returns (r: Outcome, n: nat, ghost keep: int)
      requires Valid() && forkDb.head.Some? && forkDb.head.value.id == x && x in forkDb.index
      requires state.headId in forkDb.index && state.headId.num < x.num
      requires Meeting(forkDb.index, x, state.headId, h)
      requires branches == (Branch(forkDb.index, x, h), Branch(forkDb.index, state.headId, h))
      modifies this, forkDb
      ensures Valid() && forkDb.index == old(forkDb.index)
      ensures forall i :: 0 <= i < |branches.0| ==> branches.0[i] in old(forkDb.index)
      ensures keep == |old(undo)| - |branches.1| && (r == Stuck <==> keep < 0)
      ensures keep < 0 ==> History() == old(History())[..1] && applied == []
      ensures 0 <= keep ==>
                && n == |Trace(rules, old(History())[keep], Oldest(old(forkDb.index), branches.0))| <= |branches.0|
                && History() == old(History())[..keep + 1]
                                + Trace(rules, old(History())[keep], Oldest(old(forkDb.index), branches.0))
                && applied == old(applied)[..keep] + Oldest(old(forkDb.index), branches.0)[..n]
                && r == (if n == |branches.0| then Switched else SwitchFailed)
    {
      var (a, b) := branches;
      ghost var states, blocks, index := History(), applied, forkDb.index;
      keep, n := |undo| - |b|, 0;
      SwitchFacts(rules, index, states, blocks, x, h);
      var incoming := Oldest(forkDb.index, a);
      var ok := PopTo(forkDb.index[b[|b| - 1]].block.previous, |b|);
      if !ok {
        r := Stuck;
        return;
      }
      assert state == states[keep];
      n := ApplyAll(incoming);
      r := if n == |a| then Switched else SwitchFailed;
    }

    /** The switch from the head to branch x, which meets the current chain at height h. */
    method SwitchFork(x: BlockId, branches: (seq<BlockId>, seq<BlockId>), ghost h: nat)
      returns (r: Outcome, n: nat, ghost keep: int)
      requires Valid() && forkDb.head.Some? && forkDb.head.value.id == x && x in forkDb.index
      requires state.headId in forkDb.index && state.headId.num < x.num
      requires Meeting(forkDb.index, x, state.headId, h)
      requires branches == (Branch(forkDb.index, x, h), Branch(forkDb.index, state.headId, h))
      modifies this, forkDb
      ensures Valid() && SwitchOutcome(rules, old(View()), View(), branches, r, n, keep)
      ensures r in {Switched, SwitchFailed, Stuck}
      ensures (r == Switched ==> state.headId == x) && (r == SwitchFailed ==> x !in forkDb.index)
    {
      var (a, b) := branches;
      ghost var states, blocks, index := History(), applied, forkDb.index;
      SwitchFacts(rules, index, states, blocks, x, h);
      var good := Oldest(forkDb.index, b);
      var oldHead := forkDb.index[b[0]].block;
      var target := forkDb.index[b[|b| - 1]].block.previous;
      hide Trace, Branch, AncestorAt, Lawful, ValidIndex, Meeting, Held;
      r, n, keep := TryBranch(x, branches, h);
      if r == Switched {
        assert Oldest(index, a)[..n] == Oldest(index, a);
        NewHead(rules, index, History(), applied, blocks[..keep], a);
      } else if r == SwitchFailed {
        RecoveryIsReady(rules, index, states, blocks, x, h, n);
        r := Recover(target, a, n, b[0], oldHead, good, states, blocks, keep);
      }
    }

    /** Back from a bad branch: n of its blocks are applied on top of the fork point, states[keep]. */
    method Recover(
      target: BlockId, a: seq<BlockId>, n: nat, y: BlockId, oldHead: Block, good: seq<Block>,
      ghost states: seq<ChainState>, ghost blocks: seq<Block>, ghost keep: nat) returns (r: Outcome)
      requires Valid() && RecoveryReady(rules, forkDb.index, states, blocks, keep, History(), applied, a, n)
      requires target == states[keep].headId && good == blocks[keep..]
      requires y == states[|blocks|].headId && oldHead.id == y && ValidBlock(oldHead)
      modifies this, forkDb
      ensures Valid() && forkDb.index == old(forkDb.index) - NewestIds(a, n)
      ensures FailedOutcome(Chain(old(forkDb.index), states, blocks), View(), old(History()), old(applied), y, n, r)
    {
      hide Lawful, ValidIndex, Consistent, Held, Trace, RecoveryReady, NewestIds, Below;
      RecoveryFacts(rules, forkDb.index, states, blocks, keep, History(), applied, a, n);
      RemoveNewest(a, n);
      forkDb.SetHead(oldHead);
      var ok := PopTo(target, n);
      if !ok {
        return Stuck;
      }
      assert History() == states[..keep + 1] && state == History()[keep];
      var m := ApplyAll(good);
      return SwitchFailed;
    }

    /** Removes from the fork database all but the n oldest blocks of a branch. */
    method RemoveNewest(a: seq<BlockId>, n: nat)
      requires forkDb.Valid() && n <= |a|
      modifies forkDb
      ensures forkDb.Valid() && forkDb.index == old(forkDb.index) - NewestIds(a, n)
      ensures forkDb.head == old(forkDb.head) && forkDb.maxSize == old(forkDb.maxSize)
    {
      var i := |a| - n;
      while i > 0
        invariant 0 <= i <= |a| - n && forkDb.Valid()
        invariant forkDb.head == old(forkDb.head) && forkDb.maxSize == old(forkDb.maxSize)
        invariant forkDb.index == old(forkDb.index) - (set k | i <= k < |a| - n :: a[k])
      {
        i := i - 1;
        forkDb.Remove(a[i]);
      }
      assert NewestIds(a, n) == set k | 0 <= k < |a| - n :: a[k];
    }

    /** Fetches both branches and switches, if they meet. */
    method SwitchTo(x: BlockId)
      returns (r: Outcome, ghost branches: (seq<BlockId>, seq<BlockId>), n: nat, ghost keep: int)
      requires Valid() && forkDb.head.Some? && forkDb.head.value.id == x && state.headId.num < x.num
      modifies this, forkDb
      ensures Valid() && r in {NoCommonBlock, Switched, SwitchFailed, Stuck}
      ensures HigherOutcome(rules, old(View()), x, old(state).headId, View(), r, branches, n, keep)
      ensures r == NoCommonBlock ==> forkDb.head == old(forkDb.head) && forkDb.maxSize == old(forkDb.maxSize)
      ensures (r == Switched ==> state.headId == x) && (r == SwitchFailed ==> x !in forkDb.index)
    {
      hide Trace, Branch, AncestorAt, Lawful, Consistent, Held, SwitchOutcome;
      branches, n, keep := ([], []), 0, 0;
      var found := forkDb.FetchBranchFrom(x, state.headId);
      if found.None? {
        return NoCommonBlock, branches, n, keep;
      }
      branches := found.value;
      ghost var h: nat :| Meeting(forkDb.index, x, state.headId, h)
        && branches == (Branch(forkDb.index, x, h), Branch(forkDb.index, state.headId, h));
      r, n, keep := SwitchFork(x, found.value, h);
    }

    /**
     database::_push_block. Every outcome is decided by what the fork database, the history and the rules are
     before the call. The one push after which the fork database no longer holds the applied blocks is the
     push of an applied block while the fork database's head stands directly on the current head.
     */
    method PushBlock(b: Block)
      returns (r: Outcome, ghost branches: (seq<BlockId>, seq<BlockId>), n: nat, ghost keep: int)
      requires Valid() && ValidBlock(b) && (b.id in forkDb.index ==> forkDb.index[b.id].block == b)
      modifies this, forkDb
      ensures (r == Refused) == !Takes(old(forkDb.index), old(forkDb.head), old(forkDb.maxSize), b)
      ensures r == Refused ==> View() == old(View()) && forkDb.head == old(forkDb.head)
      ensures r != Refused ==> PushOutcome(rules, old(View()), old(forkDb.head), b, View(), r, branches, n, keep)
      ensures r in {Stored, NoCommonBlock, Extended, ApplyFailed} ==>
                forkDb.head == Some(NewTop(old(forkDb.head), b)) && forkDb.maxSize == old(forkDb.maxSize)
      ensures r == Switched ==> state.headId == NewTop(old(forkDb.head), b).id
      ensures r == SwitchFailed ==> NewTop(old(forkDb.head), b).id !in forkDb.index
      ensures Consistent(rules, History(), applied) && forkDb.Valid()
      ensures Valid()
              <==> !(r != Refused && NewTop(old(forkDb.head), b).previous == old(state).headId && b in old(applied))
    {
      hide Lawful, Consistent, HigherOutcome;
      branches, n, keep := ([], []), 0, 0;
      var pushed := forkDb.PushBlock(b);
      if !pushed {
        return Refused, branches, n, keep;
      }
      var newHead := forkDb.head.value;
      if newHead.previous != state.headId {
        if newHead.id.num > state.headId.num {
          r, branches, n, keep := SwitchTo(newHead.id);
          return;
        }
        return Stored, branches, n, keep;
      }
      AppliedCannotExtend(rules, forkDb.index, History(), applied, b);
      r := Extend(b);
    }
  }

  /** A block of a history stands no higher than its head, so it does not apply there again. */
  lemma AppliedCannotExtend(rules: Rules, index: Index, states: seq<ChainState>, blocks: seq<Block>, b: Block)
    requires Lawful(rules) && ValidIndex(index) && Consistent(rules, states, blocks) && Held(index, blocks)
    ensures b in blocks ==> Apply(rules, states[|blocks|], b).None?
  {
    if b in blocks {
      var i :| 0 <= i < |blocks| && blocks[i] == b;
      HistoryHeads(rules, index, states, blocks);
      assert Apply(rules, states[i], blocks[i]).Some? && states[i].headId == b.previous;
    }
  }

  /** A history that ends with a whole branch has the branch's first block for its head. */
  lemma NewHead(
    rules: Rules, index: Index, states: seq<ChainState>, blocks: seq<Block>, below: seq<Block>, a: seq<BlockId>)
    requires Lawful(rules) && ValidIndex(index) && Consistent(rules, states, blocks)
    requires a != [] && (forall i :: 0 <= i < |a| ==> a[i] in index) && blocks == below + Oldest(index, a)
    ensures states[|blocks|].headId == a[0]
  {
    HistoryHeadIsLast(rules, states, blocks);
    assert blocks[|blocks| - 1] == Oldest(index, a)[|a| - 1];
  }

  /**
   Standing on n blocks of branch a above states[keep], with the old history still held once the rest of a is
   dropped.
   */
  ghost predicate RecoveryReady(
    rules: Rules, index: Index, states: seq<ChainState>, blocks: seq<Block>, keep: nat,
    now: seq<ChainState>, nowBlocks: seq<Block>, a: seq<BlockId>, n: nat)
  {
    && n < |a| && Consistent(rules, states, blocks) && keep < |blocks|
    && |nowBlocks| == keep + n && |now| == keep + n + 1 && now[..keep + 1] == states[..keep + 1]
    && nowBlocks[..keep] == blocks[..keep] && a[0] in NewestIds(a, n)
    && Held(index - NewestIds(a, n), blocks) && Held(index - NewestIds(a, n), nowBlocks)
  }

  /** What recovery relies on, before and after its own pops. */
  lemma RecoveryFacts(
    rules: Rules, index: Index, states: seq<ChainState>, blocks: seq<Block>, keep: nat,
    now: seq<ChainState>, nowBlocks: seq<Block>, a: seq<BlockId>, n: nat)
    requires Lawful(rules) && ValidIndex(index) && Consistent(rules, now, nowBlocks)
    requires RecoveryReady(rules, index, states, blocks, keep, now, nowBlocks, a, n)
    ensures n < |a| && keep < |blocks| && |states| == |blocks| + 1
            && |nowBlocks| == keep + n && |now| == keep + n + 1
    ensures now[..keep + 1] == states[..keep + 1] && now[keep] == states[keep] && nowBlocks[..keep] == blocks[..keep]
    ensures states[keep].headId.num + n == now[keep + n].headId.num
    ensures var rest := index - NewestIds(a, n);
            states[|blocks|].headId in rest && Held(rest, nowBlocks) && Held(rest, blocks[keep..])
    ensures Trace(rules, states[keep], blocks[keep..]) == states[keep + 1..]
    ensures states[..keep + 1] + states[keep + 1..] == states && blocks[..keep] + blocks[keep..] == blocks
  {
    var rest := index - NewestIds(a, n);
    assert now[keep] == now[..keep + 1][keep];
    assert states[keep..][0] == states[keep] && states[keep..][1..] == states[keep + 1..];
    hide NewestIds, Lawful, ValidIndex, Trace;
    HistoryHeadIsLast(rules, states, blocks);
    HistoryIsReplay(rules, states[keep..], blocks[keep..]);
    assert ValidIndex(rest) by {
      SmallerIndex(index, NewestIds(a, n));
    }
    HistoryHeads(rules, rest, now, nowBlocks);
  }

  lemma SmallerIndex(index: Index, ids: set<BlockId>)
    requires ValidIndex(index)
    ensures ValidIndex(index - ids)
  {
  }

  lemma RecoveryIsReady(
    rules: Rules, index: Index, states: seq<ChainState>, blocks: seq<Block>, x: BlockId, h: nat, n: nat)
    requires Lawful(rules) && ValidIndex(index) && Consistent(rules, states, blocks) && Held(index, blocks)
    requires x in index && states[|blocks|].headId in index && states[|blocks|].headId.num < x.num
    requires Meeting(index, x, states[|blocks|].headId, h)
    requires |Branch(index, states[|blocks|].headId, h)| <= |blocks|
    requires var a := Branch(index, x, h);
             && (forall i :: 0 <= i < |a| ==> a[i] in index) && n < |a|
             && n == |Trace(rules, states[|blocks| - |Branch(index, states[|blocks|].headId, h)|], Oldest(index, a))|
    ensures var a := Branch(index, x, h);
            var keep := |blocks| - |Branch(index, states[|blocks|].headId, h)|;
            RecoveryReady(rules, index, states, blocks, keep,
                          states[..keep + 1] + Trace(rules, states[keep], Oldest(index, a)),
                          blocks[..keep] + Oldest(index, a)[..n], a, n)
  {
    var a := Branch(index, x, h);
    var keep := |blocks| - |Branch(index, states[|blocks|].headId, h)|;
    FailedBranch(rules, index, states, blocks, x, h, n);
    HeldPrefix(index, a, n);
    Rejoin(states, blocks, keep);
    HeldAppend(index - NewestIds(a, n), blocks[..keep], Oldest(index, a)[..n]);
  }

  /** What the switch relies on, all of it known before the first block is undone. */
  lemma SwitchFacts(rules: Rules, index: Index, states: seq<ChainState>, blocks: seq<Block>, x: BlockId, h: nat)
    requires Lawful(rules) && ValidIndex(index) && Consistent(rules, states, blocks) && Held(index, blocks)
    requires x in index && states[|blocks|].headId in index && states[|blocks|].headId.num < x.num
    requires Meeting(index, x, states[|blocks|].headId, h)
    ensures var y := states[|blocks|].headId;
            var a, b := Branch(index, x, h), Branch(index, y, h);
            && a[0] == x && b[0] == y
            && (forall i :: 0 <= i < |a| ==> a[i] in index) && (forall i :: 0 <= i < |b| ==> b[i] in index)
            && Held(index, Oldest(index, a)) && index[b[0]].block.id == y
            && index[b[|b| - 1]].block.previous.num + |b| == y.num
            && |b| <= Below(index, x)
            && (|b| <= |blocks| ==>
                  var keep := |blocks| - |b|;
                  && index[b[|b| - 1]].block.previous == states[keep].headId
                  && Oldest(index, b) == blocks[keep..])
  {
    var y := states[|blocks|].headId;
    var a, b := Branch(index, x, h), Branch(index, y, h);
    BranchIsContiguous(index, x, h);
    BranchIsContiguous(index, y, h);
    BranchAt(index, y, h, |b| - 1);
    AncestorBetween(index, x, x.num - |b|, h);
    AncestorsReachBelow(index, x, |b|);
    if |b| <= |blocks| {
      HistoryTail(rules, index, states, blocks, h);
    }
  }

  lemma HeldPrefix(index: Index, a: seq<BlockId>, n: nat)
    requires ValidIndex(index) && n <= |a| && forall i :: 0 <= i < |a| ==> a[i] in index
    requires forall i, j :: 0 <= i < j < |a| ==> a[i] != a[j]
    ensures Held(index - NewestIds(a, n), Oldest(index, a)[..n])
  {
  }

  /** After a failure on the new branch, the old chain is still held, and so is the part that did apply. */
  lemma FailedBranch(
    rules: Rules, index: Index, states: seq<ChainState>, blocks: seq<Block>, x: BlockId, h: nat, n: nat)
    requires Lawful(rules) && ValidIndex(index) && Consistent(rules, states, blocks) && Held(index, blocks)
    requires x in index && Meeting(index, x, states[|blocks|].headId, h)
    requires |Branch(index, states[|blocks|].headId, h)| <= |blocks|
    requires var a := Branch(index, x, h);
             && (forall i :: 0 <= i < |a| ==> a[i] in index)
             && n == |Trace(rules, states[|blocks| - |Branch(index, states[|blocks|].headId, h)|], Oldest(index, a))|
    ensures n <= |Branch(index, x, h)|
    ensures Held(index - NewestIds(Branch(index, x, h), n), blocks)
    ensures var a := Branch(index, x, h); forall i, j :: 0 <= i < j < |a| ==> a[i] != a[j]
  {
    var y := states[|blocks|].headId;
    var a, b := Branch(index, x, h), Branch(index, y, h);
    var keep := |blocks| - |b|;
    TraceProperties(rules, states[keep], Oldest(index, a));
    HistoryTail(rules, index, states, blocks, h);
    BranchAt(index, x, h, |a| - 1);
    BranchAt(index, y, h, |b| - 1);
    if AncestorAt(index, x, h) == AncestorAt(index, y, h) {
      assert Oldest(index, a)[0] == index[a[|a| - 1]].block == Oldest(index, b)[0];
      assert Apply(rules, states[keep..][0], Oldest(index, b)[0]).Some?;
    }
    DroppedAreForeign(rules, index, states, blocks, x, h, n);
    forall i, j | 0 <= i < j < |a|
      ensures a[i] != a[j]
    {
      BranchAt(index, x, h, i);
      BranchAt(index, x, h, j);
    }
  }

  // ---------- two runs ----------

  const FIRST := Block(BlockId(1, 1), NO_BLOCK, [])
  const SECOND := Block(BlockId(2, 1), BlockId(1, 1), [])
  const OTHER_FIRST := Block(BlockId(1, 2), NO_BLOCK, [])
  const OTHER_SECOND := Block(BlockId(2, 2), BlockId(1, 2), [])

  /** Rules under which every block that links applies, but for one bad block. */
  function AllBut(bad: BlockId): Rules {
    (s: ChainState, b: Block) =>
      if s.headId == b.previous && b.id != bad then Some(ChainState(b.id, s.contents)) else None
  }

  /**
   An applied block leaves the fork database: the first block is applied, the second one fails but stays the
   fork database's head, and the first one is pushed again.
   */
  method AppliedBlockIsDropped(contents: Contents) returns (db: ChainDatabase)
    ensures db.applied == [FIRST] && db.state.headId == FIRST.id && FIRST.id !in db.forkDb.index && !db.Valid()
  {
    hide Consistent, Held, HigherOutcome;
    db := FirstPushed(SECOND.id, contents);
    var second, _, _, _ := db.PushBlock(SECOND);
    assert second == ApplyFailed && db.forkDb.head == Some(SECOND);
    var again, _, _, _ := db.PushBlock(FIRST);
    assert again == ApplyFailed;
  }

  /**
   A switch that cannot be taken back: of a longer branch from the start of the chain the first block applies
   and the second fails, and the fork database holds nothing below the old head to step back to.
   */
  method RecoveryGetsStuck(contents: Contents) returns (db: ChainDatabase, r: Outcome)
    ensures r == Stuck && db.applied == [OTHER_FIRST] && db.state.headId == OTHER_FIRST.id
  {
    db := OtherFirstPushed(contents);
    hide Consistent, Held, HigherOutcome, Taken, AllBut;
    ghost var before := db.View();
    ThirdBlockTaken(before.index);
    var last, branches, n, keep := db.PushBlock(OTHER_SECOND);
    before := before.(index := ThreeBlocks());
    StuckFacts(before, db.View(), last, branches, n, keep);
    r := last;
  }

  lemma ThirdBlockTaken(index: Index)
    requires index == ThreeBlocks() - {OTHER_SECOND.id}
    ensures Takes(index, Some(FIRST), 1024, OTHER_SECOND) && Taken(index, Some(FIRST), OTHER_SECOND) == ThreeBlocks()
  {
  }

  method OtherFirstPushed(contents: Contents) returns (db: ChainDatabase)
    ensures fresh(db) && fresh(db.forkDb) && db.Valid() && db.rules == AllBut(OTHER_SECOND.id)
    ensures db.applied == [FIRST] && db.forkDb.head == Some(FIRST) && db.forkDb.maxSize == 1024
    ensures db.forkDb.index == ThreeBlocks() - {OTHER_SECOND.id}
    ensures |db.History()| == 2 && db.History()[0].headId == NO_BLOCK && db.state.headId == FIRST.id
  {
    hide Consistent, Held, HigherOutcome;
    db := FirstPushed(OTHER_SECOND.id, contents);
    var other, _, _, _ := db.PushBlock(OTHER_FIRST);
    assert other == Stored;
  }

  /** An empty chain that has taken and applied its first block. */
  method FirstPushed(bad: BlockId, contents: Contents) returns (db: ChainDatabase)
    requires bad != FIRST.id
    ensures fresh(db) && fresh(db.forkDb) && db.Valid() && db.rules == AllBut(bad)
    ensures db.applied == [FIRST] && db.forkDb.head == Some(FIRST) && db.forkDb.maxSize == 1024
    ensures db.forkDb.index == map[FIRST.id := Item(FIRST, false)]
    ensures |db.History()| == 2 && db.History()[0].headId == NO_BLOCK && db.state.headId == FIRST.id
  {
    FirstApplies(bad, contents);
    hide Consistent, Held, HigherOutcome, Lawful, AllBut, Apply;
    var forkDb := new ForkDatabase();
    db := new ChainDatabase(AllBut(bad), ChainState(NO_BLOCK, contents), forkDb);
    var first, _, _, _ := db.PushBlock(FIRST);
    assert first == Extended && db.state == db.History()[1];
  }

  lemma FirstApplies(bad: BlockId, contents: Contents)
    requires bad != FIRST.id
    ensures Lawful(AllBut(bad))
    ensures Apply(AllBut(bad), ChainState(NO_BLOCK, contents), FIRST) == Some(ChainState(FIRST.id, contents))
  {
  }

  function ThreeBlocks(): Index {
    map[FIRST.id := Item(FIRST, false), OTHER_FIRST.id := Item(OTHER_FIRST, false),
        OTHER_SECOND.id := Item(OTHER_SECOND, true)]
  }

  lemma ThreeBlocksMeet()
    ensures ValidIndex(ThreeBlocks()) && Meeting(ThreeBlocks(), OTHER_SECOND.id, FIRST.id, 1)
    ensures forall h: nat :: Meeting(ThreeBlocks(), OTHER_SECOND.id, FIRST.id, h) ==> h == 1
    ensures Branch(ThreeBlocks(), OTHER_SECOND.id, 1) == [OTHER_SECOND.id, OTHER_FIRST.id]
    ensures Branch(ThreeBlocks(), FIRST.id, 1) == [FIRST.id]
  {
    var index := ThreeBlocks();
    assert AncestorAt(index, FIRST.id, 1) == Some(FIRST.id) && AncestorAt(index, FIRST.id, 0) == None;
    assert AncestorAt(index, OTHER_FIRST.id, 1) == Some(OTHER_FIRST.id);
    assert AncestorAt(index, OTHER_SECOND.id, 1) == Some(OTHER_FIRST.id);
    assert Parent(index, OTHER_SECOND.id) == Some(OTHER_FIRST.id);
    assert PathAbove(index, OTHER_FIRST.id, 1) == [];
    assert PathAbove(index, OTHER_SECOND.id, 1) == [OTHER_SECOND.id];
  }

  lemma OneApplies(s: ChainState)
    requires s.headId == NO_BLOCK
    ensures Trace(AllBut(OTHER_SECOND.id), s, [OTHER_FIRST, OTHER_SECOND]) == [ChainState(OTHER_FIRST.id, s.contents)]
  {
    var rules, next := AllBut(OTHER_SECOND.id), ChainState(OTHER_FIRST.id, s.contents);
    assert [OTHER_FIRST, OTHER_SECOND][1..] == [OTHER_SECOND];
    assert Trace(rules, next, [OTHER_SECOND]) == [];
  }

  lemma NothingBelow(index: Index)
    requires ValidIndex(index) && FIRST.id in index ==> !index[FIRST.id].linked
    ensures ValidIndex(index) ==> Below(index, FIRST.id) == 0
  {
  }

  lemma StuckFacts(before: Chain, after: Chain, r: Outcome, branches: (seq<BlockId>, seq<BlockId>), n: nat, keep: int)
    requires before.blocks == [FIRST] && |before.states| == 2 && before.index == ThreeBlocks()
    requires before.states[0].headId == NO_BLOCK && before.states[1].headId == FIRST.id
    requires ValidIndex(before.index)
    requires HigherOutcome(AllBut(OTHER_SECOND.id), before, OTHER_SECOND.id, FIRST.id, after, r, branches, n, keep)
    ensures r == Stuck && after.blocks == [OTHER_FIRST]
    ensures after.states != [] && after.states[|after.states| - 1].headId == OTHER_FIRST.id
  {
    hide AncestorAt, Branch, Meeting, Trace, ValidIndex, AllBut;
    ThreeBlocksMeet();
    OneApplies(before.states[0]);
    assert Oldest(before.index, [OTHER_SECOND.id, OTHER_FIRST.id]) == [OTHER_FIRST, OTHER_SECOND];
    NothingBelow(after.index);
    assert branches == ([OTHER_SECOND.id, OTHER_FIRST.id], [FIRST.id]);
  }
}

/**
 The fork database: a tree of recent blocks indexed by id. A block id carries its block number, and
 a block's number is one more than the number in its previous id, so every parent link goes down by one.
 */
module ForkDatabase {
  import opened Common

  datatype BlockId = BlockId(num: nat, hash: nat)

  /** The previous id of block 1. */
  const NO_BLOCK := BlockId(0, 0)

  datatype Block = Block(id: BlockId, previous: BlockId, transactions: seq<nat>)

  /** linked records whether the item was attached to its previous block when it was pushed. */
  datatype Item = Item(block: Block, linked: bool)

  type Index = map<BlockId, Item>

  predicate ValidBlock(b: Block) {
    b.id.num == b.previous.num + 1
  }

  predicate ValidIndex(index: Index) {
    forall id :: id in index ==> index[id].block.id == id && ValidBlock(index[id].block)
  }

  // ---------- parents, ancestors and paths ----------

  /** prev.lock(): the parent item, if it was linked and is still held. */
  function Parent(index: Index, id: BlockId): Option<BlockId> {
    if id in index && index[id].linked && index[id].block.previous in index then Some(index[id].block.previous)
    else None
  }

  /** The ancestor of id (or id itself) at height h. */
  function AncestorAt(index: Index, id: BlockId, h: nat): Option<BlockId>
    requires ValidIndex(index)
    decreases id.num
  {
    if id !in index || id.num < h then None
    else if id.num == h then Some(id)
    else match Parent(index, id)
      case None => None
      case Some(p) => AncestorAt(index, p, h)
  }

  predicate IsAncestorOrSelf(index: Index, x: BlockId, y: BlockId)
    requires ValidIndex(index)
  {
    AncestorAt(index, y, x.num) == Some(x)
  }

  /** The blocks from id down to, but not including, its ancestor at height h. */
  function PathAbove(index: Index, id: BlockId, h: nat): (path: seq<BlockId>)
    requires ValidIndex(index) && AncestorAt(index, id, h).Some?
    ensures |path| == id.num - h
    decreases id.num
  {
    if id.num == h then [] else [id] + PathAbove(index, Parent(index, id).value, h)
  }

  /** The branch from id down to its ancestor at height h. */
  function Branch(index: Index, id: BlockId, h: nat): (path: seq<BlockId>)
    requires ValidIndex(index) && AncestorAt(index, id, h).Some?
    ensures |path| == id.num - h + 1
  {
    PathAbove(index, id, h) + [AncestorAt(index, id, h).value]
  }

  lemma {:induction false} AncestorCompose(index: Index, id: BlockId, h: nat, k: nat)
    requires ValidIndex(index) && k <= h && AncestorAt(index, id, h).Some?
    ensures var a := AncestorAt(index, id, h).value;
            a in index && a.num == h && AncestorAt(index, id, k) == AncestorAt(index, a, k)
    decreases id.num
  {
    if id.num > h {
      AncestorCompose(index, Parent(index, id).value, h, k);
    }
  }

  /** An ancestor lower down implies one at every height in between. */
  lemma {:induction false} AncestorBetween(index: Index, id: BlockId, h: nat, k: nat)
    requires ValidIndex(index) && k <= h <= id.num && AncestorAt(index, id, k).Some?
    ensures AncestorAt(index, id, h).Some?
    decreases id.num
  {
    if id.num > h {
      AncestorBetween(index, Parent(index, id).value, h, k);
    }
  }

  /** One level further down is the parent. */
  lemma AncestorNext(index: Index, id: BlockId, h: nat)
    requires ValidIndex(index) && AncestorAt(index, id, h).Some?
    ensures AncestorAt(index, id, h).value in index && AncestorAt(index, id, h).value.num == h && 0 < h
    ensures AncestorAt(index, id, h - 1) == Parent(index, AncestorAt(index, id, h).value)
  {
    AncestorCompose(index, id, h, h);
    assert ValidBlock(index[AncestorAt(index, id, h).value].block);
    AncestorCompose(index, id, h, h - 1);
  }

  /** How many ancestors of id the index still holds. */
  function Below(index: Index, id: BlockId): (n: nat)
    requires ValidIndex(index)
    ensures n <= id.num
    decreases id.num
  {
    match Parent(index, id)
    case None => 0
    case Some(p) => 1 + Below(index, p)
  }

  lemma {:induction false} AncestorsReachBelow(index: Index, id: BlockId, j: nat)
    requires ValidIndex(index) && id in index && j <= id.num
    ensures AncestorAt(index, id, id.num - j).Some? <==> j <= Below(index, id)
    decreases id.num
  {
    if j > 0 && Parent(index, id).Some? {
      AncestorsReachBelow(index, Parent(index, id).value, j - 1);
    }
  }

  /** Below a missing ancestor there is none. */
  lemma NoAncestorBelow(index: Index, id: BlockId, h: nat, k: nat)
    requires ValidIndex(index) && k <= h <= id.num && AncestorAt(index, id, h).None?
    ensures AncestorAt(index, id, k).None?
  {
    if AncestorAt(index, id, k).Some? {
      AncestorBetween(index, id, h, k);
    }
  }

  lemma {:induction false} PathAboveExtends(index: Index, id: BlockId, h: nat)
    requires ValidIndex(index) && 0 < h && AncestorAt(index, id, h).Some? && AncestorAt(index, id, h - 1).Some?
    ensures PathAbove(index, id, h - 1) == Branch(index, id, h)
    decreases id.num
  {
    if id.num > h {
      PathAboveExtends(index, Parent(index, id).value, h);
    } else {
      assert PathAbove(index, Parent(index, id).value, h - 1) == [];
    }
  }

  /** Element i of a branch is the ancestor i levels down. */
  lemma {:induction false} BranchAt(index: Index, id: BlockId, h: nat, i: nat)
    requires ValidIndex(index) && AncestorAt(index, id, h).Some? && i <= id.num - h
    ensures AncestorAt(index, id, id.num - i) == Some(Branch(index, id, h)[i])
    ensures Branch(index, id, h)[i] in index && Branch(index, id, h)[i].num == id.num - i
    decreases id.num
  {
    if id.num > h {
      var p := Parent(index, id).value;
      if i > 0 {
        BranchAt(index, p, h, i - 1);
        assert Branch(index, id, h) == [id] + Branch(index, p, h);
      }
    }
  }

  /** A branch is a contiguous parent chain that starts at its first block. */
  lemma BranchIsContiguous(index: Index, id: BlockId, h: nat)
    requires ValidIndex(index) && AncestorAt(index, id, h).Some?
    ensures var path := Branch(index, id, h);
            && path[0] == id
            && (forall i :: 0 <= i < |path| ==> path[i] in index)
            && (forall i :: 0 <= i < |path| - 1 ==> Parent(index, path[i]) == Some(path[i + 1]))
  {
    var path := Branch(index, id, h);
    BranchAt(index, id, h, 0);
    forall i | 0 <= i < |path|
      ensures path[i] in index
    {
      BranchAt(index, id, h, i);
    }
    forall i | 0 <= i < |path| - 1
      ensures Parent(index, path[i]) == Some(path[i + 1])
    {
      BranchAt(index, id, h, i);
      BranchAt(index, id, h, i + 1);
      AncestorCompose(index, id, id.num - i, id.num - i - 1);
      assert AncestorAt(index, path[i], path[i].num - 1) == Some(path[i + 1]);
    }
  }

  // ---------- where two branches meet ----------

  /** Both have an ancestor at height h, and those two ancestors name the same previous block. */
  predicate MeetAt(index: Index, x: BlockId, y: BlockId, h: nat)
    requires ValidIndex(index)
  {
    var a, b := AncestorAt(index, x, h), AncestorAt(index, y, h);
    a.Some? && b.Some? && a.value in index && b.value in index
    && index[a.value].block.previous == index[b.value].block.previous
  }

  /** The height at which the branches meet: the highest one. */
  ghost predicate Meeting(index: Index, x: BlockId, y: BlockId, h: nat)
    requires ValidIndex(index)
  {
    && h <= x.num && h <= y.num && MeetAt(index, x, y, h)
    && forall k :: h < k <= x.num && k <= y.num ==> !MeetAt(index, x, y, k)
  }

  lemma DistinctAbove(index: Index, x: BlockId, y: BlockId, h: nat, k: nat)
    requires ValidIndex(index) && Meeting(index, x, y, h) && h < k <= x.num && k <= y.num
    ensures AncestorAt(index, x, k).Some? && AncestorAt(index, y, k).Some?
    ensures AncestorAt(index, x, k) != AncestorAt(index, y, k)
  {
    AncestorBetween(index, x, k, h);
    AncestorBetween(index, y, k, h);
    if AncestorAt(index, x, k) == AncestorAt(index, y, k) {
      AncestorCompose(index, x, k, k);
      assert MeetAt(index, x, y, k);
      assert false;
    }
  }

  /**
   At the meeting height the two branches have arrived at one block exactly when one argument is an ancestor of
   the other.
   */
  lemma SameAtMeeting(index: Index, x: BlockId, y: BlockId, h: nat)
    requires ValidIndex(index) && Meeting(index, x, y, h)
    ensures AncestorAt(index, x, h) == AncestorAt(index, y, h)
            <==> IsAncestorOrSelf(index, x, y) || IsAncestorOrSelf(index, y, x)
  {
    AncestorCompose(index, x, h, h);
    AncestorCompose(index, y, h, h);
    if AncestorAt(index, x, h) == AncestorAt(index, y, h) {
      if h < x.num && h < y.num {
        MeetOneAbove(index, x, y, h);
        assert false;
      }
    }
    if IsAncestorOrSelf(index, x, y) {
      AncestorCompose(index, y, x.num, h);
    }
    if IsAncestorOrSelf(index, y, x) {
      AncestorCompose(index, x, y.num, h);
    }
  }

  /** If both branches are at one block at height h, they already met one level above. */
  lemma MeetOneAbove(index: Index, x: BlockId, y: BlockId, h: nat)
    requires ValidIndex(index) && h < x.num && h < y.num
    requires AncestorAt(index, x, h).Some? && AncestorAt(index, x, h) == AncestorAt(index, y, h)
    ensures MeetAt(index, x, y, h + 1)
  {
    AncestorBetween(index, x, h + 1, h);
    AncestorBetween(index, y, h + 1, h);
    AncestorCompose(index, x, h + 1, h);
    AncestorCompose(index, y, h + 1, h);
  }

  /** The branches share no block exactly when neither argument is an ancestor of the other. */
  lemma BranchesDisjoint(index: Index, x: BlockId, y: BlockId, h: nat)
    requires ValidIndex(index) && Meeting(index, x, y, h)
    ensures (forall i, j :: 0 <= i < |Branch(index, x, h)| && 0 <= j < |Branch(index, y, h)| ==>
               Branch(index, x, h)[i] != Branch(index, y, h)[j])
            <==> !IsAncestorOrSelf(index, x, y) && !IsAncestorOrSelf(index, y, x)
  {
    var p, q := Branch(index, x, h), Branch(index, y, h);
    SameAtMeeting(index, x, y, h);
    BranchAt(index, x, h, |p| - 1);
    BranchAt(index, y, h, |q| - 1);
    if AncestorAt(index, x, h) == AncestorAt(index, y, h) {
      assert p[|p| - 1] == q[|q| - 1];
    } else {
      forall i, j | 0 <= i < |p| && 0 <= j < |q|
        ensures p[i] != q[j]
      {
        BranchAt(index, x, h, i);
        BranchAt(index, y, h, j);
        if p[i].num == q[j].num && p[i].num > h {
          DistinctAbove(index, x, y, h, p[i].num);
        }
      }
    }
  }

  /** A common ancestor of blocks that are not each other's ancestors stands below the meeting height. */
  lemma CommonAncestorIsBelow(index: Index, x: BlockId, y: BlockId, h: nat, z: BlockId)
    requires ValidIndex(index) && Meeting(index, x, y, h)
    requires !IsAncestorOrSelf(index, x, y) && !IsAncestorOrSelf(index, y, x)
    requires IsAncestorOrSelf(index, z, x) && IsAncestorOrSelf(index, z, y)
    ensures z.num < h
  {
    SameAtMeeting(index, x, y, h);
    if z.num > h {
      AncestorCompose(index, x, z.num, z.num);
      AncestorCompose(index, y, z.num, z.num);
      DistinctAbove(index, x, y, h, z.num);
    }
  }

  /** The shared previous id is the most recent common ancestor when neither argument is an ancestor of the other. */
  lemma SharedPreviousIsMostRecent(index: Index, x: BlockId, y: BlockId, h: nat, z: BlockId)
    requires ValidIndex(index) && Meeting(index, x, y, h)
    requires !IsAncestorOrSelf(index, x, y) && !IsAncestorOrSelf(index, y, x)
    requires IsAncestorOrSelf(index, z, x) && IsAncestorOrSelf(index, z, y)
    ensures AncestorAt(index, x, h).value in index
    ensures z.num <= index[AncestorAt(index, x, h).value].block.previous.num
    ensures z.num == h - 1 ==> z == index[AncestorAt(index, x, h).value].block.previous
    ensures var prev := index[AncestorAt(index, x, h).value].block.previous;
            IsAncestorOrSelf(index, prev, x) && IsAncestorOrSelf(index, prev, y)
  {
    hide AncestorAt, ValidIndex;
    CommonAncestorIsBelow(index, x, y, h, z);
    PreviousIsAncestor(index, x, h, z.num);
    PreviousIsAncestor(index, y, h, z.num);
  }

  /** With an ancestor further down, the previous id of the ancestor at height h is the next ancestor. */
  lemma PreviousIsAncestor(index: Index, x: BlockId, h: nat, k: nat)
    requires ValidIndex(index) && k < h && AncestorAt(index, x, h).Some? && AncestorAt(index, x, k).Some?
    ensures AncestorAt(index, x, h).value in index
    ensures var prev := index[AncestorAt(index, x, h).value].block.previous;
            prev.num == h - 1 && AncestorAt(index, x, h - 1) == Some(prev)
  {
    AncestorNext(index, x, h);
    AncestorCompose(index, x, h, k);
    assert ValidBlock(index[AncestorAt(index, x, h).value].block);
    if h <= x.num {
      AncestorBetween(index, x, h - 1, k);
    }
  }

  /**
   Above the meeting height no block of one branch is on the other; at it, the branches share a block
   only if they end in the same one.
   */
  lemma OffTheOtherBranch(index: Index, x: BlockId, y: BlockId, h: nat, i: nat, z: BlockId)
    requires ValidIndex(index) && Meeting(index, x, y, h) && i < |Branch(index, x, h)|
    requires h <= z.num ==> AncestorAt(index, y, z.num) == Some(z)
    requires i == |Branch(index, x, h)| - 1 ==> AncestorAt(index, x, h) != AncestorAt(index, y, h)
    ensures Branch(index, x, h)[i] != z
  {
    var a := Branch(index, x, h)[i];
    BranchAt(index, x, h, i);
    if a == z && z.num > h {
      AncestorCompose(index, y, z.num, z.num);
      assert z.num <= y.num;
      DistinctAbove(index, x, y, h, z.num);
    }
  }

  // ---------- taking and dropping blocks ----------

  /** Whether the fork database takes a block: it is not too old, and it links. */
  predicate Takes(index: Index, head: Option<Block>, maxSize: nat, b: Block) {
    head.None? || (head.value.id.num - maxSize < b.id.num && (b.previous == NO_BLOCK || b.previous in index))
  }

  /** The index with a block it takes; a block it already holds stays as it was. */
  function Taken(index: Index, head: Option<Block>, b: Block): Index {
    if b.id in index then index else index[b.id := Item(b, head.Some? && b.previous != NO_BLOCK)]
  }

  function Above(index: Index, lowest: int): Index {
    map id | id in index && lowest <= id.num :: index[id]
  }

  /** Some of what stands below lowest is gone, and nothing else. */
  predicate Pruning(before: Index, now: Index, lowest: int) {
    && (forall id :: id in now ==> id in before && now[id] == before[id])
    && (forall id :: id in before && lowest <= id.num ==> id in now)
  }

  lemma PruningStarts(before: Index, lowest: nat, least: int)
    requires ValidIndex(before) && lowest == if least > 0 then least else 0
    ensures Pruning(before, before, lowest) && Above(before, lowest) == Above(before, least)
            && ValidIndex(Above(before, least))
  {
  }

  lemma PruneOne(before: Index, now: Index, lowest: int, id: BlockId)
    requires Pruning(before, now, lowest) && id in now && id.num < lowest
    ensures Pruning(before, now - {id}, lowest) && |now - {id}| < |now|
  {
    assert (now - {id}).Keys == now.Keys - {id};
    assert |now.Keys - {id}| < |now.Keys|;
  }

  lemma PruningEnds(before: Index, now: Index, lowest: int)
    requires Pruning(before, now, lowest) && forall id :: id in now ==> lowest <= id.num
    ensures now == Above(before, lowest)
  {
  }

  // ---------- the object ----------

  class ForkDatabase {
    var index: Index
    var head: Option<Block>
    var maxSize: nat

    ghost predicate Valid()
      reads this
    {
      ValidIndex(index) && (head.Some? ==> ValidBlock(head.value))
    }

    constructor ()
      ensures Valid() && index == map[] && head == None && maxSize == 1024
    {
      index, head, maxSize := map[], None, 1024;
    }

    method StartBlock(b: Block)
      requires Valid() && ValidBlock(b)
      modifies this
      ensures Valid() && maxSize == old(maxSize) && head == Some(b)
      ensures index == if b.id in old(index) then old(index) else old(index)[b.id := Item(b, false)]
    {
      if b.id !in index {
        index := index[b.id := Item(b, false)];
      }
      head := Some(b);
    }

    /** _push_block: refuses a block that is too old or does not link; the longest chain's block becomes head. */
    method PushBlock(b: Block) returns (ok: bool)
      requires Valid() && ValidBlock(b)
      modifies this
      ensures Valid() && maxSize == old(maxSize)
      ensures ok == Takes(old(index), old(head), maxSize, b)
      ensures ok <==> old(head).None?
                      || (old(head).value.id.num < b.id.num + maxSize
                          && (b.previous == NO_BLOCK || b.previous in old(index)))
      ensures !ok ==> index == old(index) && head == old(head)
      ensures ok ==> index == Taken(old(index), old(head), b)
      ensures ok ==> b.id in index && index - {b.id} == old(index) - {b.id}
      ensures ok && b.id in old(index) ==> index == old(index)
      ensures ok && b.id !in old(index) ==>
                && index[b.id].block == b
                && index[b.id].linked == (old(head).Some? && b.previous in old(index) && b.previous != NO_BLOCK)
      ensures ok ==> head == if old(head).None? || b.id.num > old(head).value.id.num then Some(b) else old(head)
    {
      if head.Some? {
        var lowest := head.value.id.num - maxSize;
        if !(b.id.num > if lowest > 0 then lowest else 0) {
          return false;
        }
      }
      var linked := false;
      if head.Some? && b.previous != NO_BLOCK {
        if b.previous !in index {
          return false;
        }
        linked := true;
      }
      if b.id !in index {
        index := index[b.id := Item(b, linked)];
      }
      if head.None? || b.id.num > head.value.id.num {
        head := Some(b);
      }
      return true;
    }

    /** Steps the head back to its parent; throws when there is none. */
    method PopBlock() returns (ok: bool)
      requires Valid()
      modifies this
      ensures Valid() && index == old(index) && maxSize == old(maxSize)
      ensures ok == (old(head).Some? && Parent(index, old(head).value.id).Some?)
      ensures head == if ok then Some(index[Parent(index, old(head).value.id).value].block) else old(head)
    {
      if head.None? {
        return false;
      }
      match Parent(index, head.value.id) {
        case None => return false;
        case Some(p) =>
          head := Some(index[p].block);
          return true;
      }
    }

    method Remove(id: BlockId)
      requires Valid()
      modifies this
      ensures Valid() && index == old(index) - {id} && head == old(head) && maxSize == old(maxSize)
    {
      index := index - {id};
    }

    method SetHead(b: Block)
      requires Valid() && ValidBlock(b)
      modifies this
      ensures Valid() && index == old(index) && head == Some(b) && maxSize == old(maxSize)
    {
      head := Some(b);
    }

    /** Drops, lowest first, every block more than s below the head. */
    method SetMaxSize(s: nat)
      requires Valid()
      modifies this
      ensures Valid() && maxSize == s && head == old(head)
      ensures index == if head.None? then old(index) else Above(old(index), head.value.id.num - s)
    {
      maxSize := s;
      if head.None? {
        return;
      }
      var lowest := if head.value.id.num > s then head.value.id.num - s else 0;
      ghost var before := index;
      PruningStarts(before, lowest, head.value.id.num - s);
      hide ValidIndex, Pruning, Above;
      while exists id :: id in index && id.num < lowest
        invariant maxSize == s && head == old(head) && Pruning(before, index, lowest)
        decreases |index|
      {
        var itr :| itr in index && itr.num < lowest;
        PruneOne(before, index, lowest, itr);
        index := index - {itr};
      }
      PruningEnds(before, index, lowest);
    }

    /** Walks back from a block to height h, collecting the blocks passed. */
    method Descend(start: BlockId, h: nat) returns (r: Option<(BlockId, seq<BlockId>)>)
      requires Valid() && start in index && h <= start.num
      ensures r == match AncestorAt(index, start, h)
                   case None => None
                   case Some(a) => Some((a, PathAbove(index, start, h)))
      ensures r.Some? ==> r.value.0 in index && r.value.0.num == h
    {
      var a, p := start, [];
      while a.num > h
        invariant AncestorAt(index, start, a.num) == Some(a) && h <= a.num <= start.num && a in index
        invariant p == PathAbove(index, start, a.num)
        decreases a.num
      {
        AncestorNext(index, start, a.num);
        p := p + [a];
        var up := Parent(index, a);
        if up.None? {
          NoAncestorBelow(index, start, a.num - 1, h);
          return None;
        }
        PathAboveExtends(index, start, a.num);
        a := up.value;
      }
      return Some((a, p));
    }

    /** Walks both branches back, level by level, until their previous ids agree; None is a failed assertion. */
    method FetchBranchFrom(first: BlockId, second: BlockId) returns (r: Option<(seq<BlockId>, seq<BlockId>)>)
      requires Valid()
      ensures r.None? <==> !(first in index && second in index && exists h: nat :: Meeting(index, first, second, h))
      ensures r.Some? ==>
                exists h: nat :: Meeting(index, first, second, h)
                                 && r.value == (Branch(index, first, h), Branch(index, second, h))
    {
      if first !in index || second !in index {
        return None;
      }
      var level := if first.num < second.num then first.num else second.num;
      var left := Descend(first, level);
      if left.None? {
        NoMeetingAbove(index, first, second, level);
        return None;
      }
      var right := Descend(second, level);
      if right.None? {
        NoMeetingAbove(index, first, second, level);
        return None;
      }
      var (a, p) := left.value;
      var (b, q) := right.value;
      while index[a].block.previous != index[b].block.previous
        invariant a.num == b.num <= first.num && b.num <= second.num
        invariant AncestorAt(index, first, a.num) == Some(a) && a in index && p == PathAbove(index, first, a.num)
        invariant AncestorAt(index, second, b.num) == Some(b) && b in index && q == PathAbove(index, second, b.num)
        invariant forall k :: a.num < k <= first.num && k <= second.num ==> !MeetAt(index, first, second, k)
        decreases a.num
      {
        AncestorNext(index, first, a.num);
        AncestorNext(index, second, b.num);
        p, q := p + [a], q + [b];
        var up := Parent(index, a);
        var vp := Parent(index, b);
        if up.None? || vp.None? {
          NoMeetingBelow(index, first, second, a.num);
          return None;
        }
        PathAboveExtends(index, first, a.num);
        PathAboveExtends(index, second, b.num);
        a, b := up.value, vp.value;
      }
      assert Meeting(index, first, second, a.num);
      p, q := p + [a], q + [b];
      return Some((p, q));
    }

    /** The block of the head's own chain with that number; None past the head or below what is held. */
    method WalkMainBranchToNum(num: nat) returns (r: Option<BlockId>)
      requires Valid() && head.Some? && head.value.id in index
      ensures r == AncestorAt(index, head.value.id, num)
    {
      var next := head.value.id;
      if num > next.num {
        return None;
      }
      while next.num > num
        invariant next in index && num <= next.num
        invariant AncestorAt(index, head.value.id, num) == AncestorAt(index, next, num)
        decreases next.num
      {
        var up := Parent(index, next);
        if up.None? {
          return None;
        }
        next := up.value;
      }
      return Some(next);
    }

    /**
     Skips the walk when the number is unambiguous. The answer is the same whenever the main branch reaches it;
     otherwise it is the lone block with that number, if there is just one.
     */
    method FetchBlockOnMainBranchByNumber(num: nat) returns (r: Option<BlockId>)
      requires Valid() && head.Some? && head.value.id in index
      ensures AncestorAt(index, head.value.id, num).Some? ==> r == AncestorAt(index, head.value.id, num)
      ensures r.Some? ==> r.value in index && r.value.num == num
      ensures AncestorAt(index, head.value.id, num).None? ==>
                (r.Some? <==> exists id :: LoneAt(index, num, id)) && (r.Some? ==> LoneAt(index, num, r.value))
    {
      var blocks := set id | id in index && id.num == num;
      if AncestorAt(index, head.value.id, num).Some? {
        AncestorCompose(index, head.value.id, num, num);
        assert AncestorAt(index, head.value.id, num).value in blocks;
      }
      if |blocks| == 1 {
        var b :| b in blocks;
        assert |blocks - {b}| == 0;
        assert forall id :: id in index && id.num == num ==> id in blocks && id !in blocks - {b};
        assert LoneAt(index, num, b);
        return Some(b);
      }
      LoneIsOne(index, num, blocks);
      if |blocks| == 0 {
        return None;
      }
      r := WalkMainBranchToNum(num);
    }
  }

  predicate LoneAt(index: Index, num: nat, id: BlockId) {
    id in index && id.num == num && forall x :: x in index && x.num == num ==> x == id
  }

  lemma LoneIsOne(index: Index, num: nat, blocks: set<BlockId>)
    requires blocks == set id | id in index && id.num == num
    ensures (exists id :: LoneAt(index, num, id)) ==> |blocks| == 1
  {
    if id :| LoneAt(index, num, id) {
      assert blocks == {id};
    }
  }

  /** Where one branch breaks off, the other can no longer meet it lower down. */
  lemma NoMeetingBelow(index: Index, x: BlockId, y: BlockId, n: nat)
    requires ValidIndex(index) && 0 < n <= x.num && n <= y.num
    requires AncestorAt(index, x, n - 1).None? || AncestorAt(index, y, n - 1).None?
    requires forall k :: n <= k <= x.num && k <= y.num ==> !MeetAt(index, x, y, k)
    ensures !exists h: nat :: Meeting(index, x, y, h)
  {
    forall h: nat | h < n
      ensures !MeetAt(index, x, y, h)
    {
      if AncestorAt(index, x, n - 1).None? {
        NoAncestorBelow(index, x, n - 1, h);
      } else {
        NoAncestorBelow(index, y, n - 1, h);
      }
    }
  }

  lemma NoMeetingAbove(index: Index, x: BlockId, y: BlockId, n: nat)
    requires ValidIndex(index) && n <= x.num && n <= y.num && (n == x.num || n == y.num)
    requires AncestorAt(index, x, n).None? || AncestorAt(index, y, n).None?
    ensures !exists h: nat :: Meeting(index, x, y, h)
  {
    forall h: nat | h <= n
      ensures !MeetAt(index, x, y, h)
    {
      if AncestorAt(index, x, n).None? {
        NoAncestorBelow(index, x, n, h);
      } else {
        NoAncestorBelow(index, y, n, h);
      }
    }
  }
}

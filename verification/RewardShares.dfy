/**
 The discussion tree: every comment counts its descendants and, where the node keeps extras, the reward
 shares of its whole subtree; the chain keeps the reward shares of all comments. The module proves these
 running totals equal to plain sums in every reachable state, and what follows for claims on the fund.
 */
module RewardShares {
  import opened Common
  import opened Arith
  import opened Sums
  import opened Curation
  import opened Cashout

  type Id = nat

  /** A post has depth 0 and no parent in the tree; a reply is one deeper than its parent. */
  datatype Comment = Comment(
    parent: Id, depth: nat, netRshares: int, children: int, hasExtras: bool, childrenRshares2: int, rewardWeight: nat)

  type Comments = map<Id, Comment>

  /** calculate_vshares of the shares that count: a comment with negative shares has none. */
  function Shares2(c: Comment): nat {
    Max(c.netRshares, 0)
  }

  // ---------- the tree ----------

  predicate Tree(cs: Comments) {
    forall x :: x in cs && 0 < cs[x].depth ==> cs[x].parent in cs && cs[cs[x].parent].depth + 1 == cs[x].depth
  }

  /** a is x or one of the comments above it. */
  predicate Under(cs: Comments, x: Id, a: Id)
    requires Tree(cs) && x in cs
    decreases cs[x].depth
  {
    x == a || (0 < cs[x].depth && Under(cs, cs[x].parent, a))
  }

  lemma {:induction false} UnderIsDeeper(cs: Comments, x: Id, a: Id)
    requires Tree(cs) && x in cs && Under(cs, x, a)
    ensures a in cs && cs[a].depth <= cs[x].depth && (x != a ==> cs[a].depth < cs[x].depth)
    decreases cs[x].depth
  {
    if x != a {
      UnderIsDeeper(cs, cs[x].parent, a);
    }
  }

  /** Two trees with the same comments in the same places. */
  predicate SameShape(cs: Comments, ds: Comments) {
    cs.Keys == ds.Keys && forall x :: x in cs ==> cs[x].parent == ds[x].parent && cs[x].depth == ds[x].depth
  }

  lemma {:induction false} UnderFollowsShape(cs: Comments, ds: Comments, x: Id, a: Id)
    requires Tree(cs) && SameShape(cs, ds) && Tree(ds) && x in cs
    ensures Under(cs, x, a) == Under(ds, x, a)
    decreases cs[x].depth
  {
    if x != a && 0 < cs[x].depth {
      UnderFollowsShape(cs, ds, cs[x].parent, a);
    }
  }

  // ---------- the sums ----------

  ghost function SubtreeTerm(cs: Comments, a: Id): Id -> int
    requires Tree(cs)
  {
    (x: Id) => if x in cs && Under(cs, x, a) then Shares2(cs[x]) else 0
  }

  ghost function BelowTerm(cs: Comments, a: Id): Id -> int
    requires Tree(cs)
  {
    (x: Id) => if x in cs && x != a && Under(cs, x, a) then 1 else 0
  }

  ghost function ShareTerm(cs: Comments): Id -> int {
    (x: Id) => if x in cs then Shares2(cs[x]) else 0
  }

  ghost function SubtreeShares(cs: Comments, a: Id): int
    requires Tree(cs)
  {
    Sum(cs.Keys, SubtreeTerm(cs, a))
  }

  ghost function Descendants(cs: Comments, a: Id): int
    requires Tree(cs)
  {
    Sum(cs.Keys, BelowTerm(cs, a))
  }

  ghost function AllShares(cs: Comments): int {
    Sum(cs.Keys, ShareTerm(cs))
  }

  ghost predicate Exact(cs: Comments, a: Id)
    requires Tree(cs) && a in cs
  {
    cs[a].children == Descendants(cs, a) && (cs[a].hasExtras ==> cs[a].childrenRshares2 == SubtreeShares(cs, a))
  }

  ghost predicate AllExact(cs: Comments)
    requires Tree(cs)
  {
    forall a :: a in cs ==> Exact(cs, a)
  }

  predicate WeightsWithin(cs: Comments) {
    forall a :: a in cs ==> cs[a].rewardWeight <= HUNDRED_PERCENT
  }

  ghost predicate Inv(cs: Comments, total: int) {
    Tree(cs) && AllExact(cs) && WeightsWithin(cs) && total == AllShares(cs)
  }

  // ---------- walking up ----------

  function BumpOne(c: Comment, dc: int, ds: int): Comment {
    c.(children := c.children + dc,
       childrenRshares2 := if c.hasExtras then c.childrenRshares2 + ds else c.childrenRshares2)
  }

  /** Every comment from x up to the post counts dc more descendants and ds more shares. */
  function Bumped(cs: Comments, x: Id, dc: int, ds: int): Comments
    requires Tree(cs) && x in cs
  {
    map c | c in cs :: if Under(cs, x, c) then BumpOne(cs[c], dc, ds) else cs[c]
  }

  /** One step of the walk. */
  lemma BumpStep(cs: Comments, x: Id, dc: int, ds: int)
    requires Tree(cs) && x in cs
    ensures var next := cs[x := BumpOne(cs[x], dc, ds)];
            && Tree(next)
            && Bumped(cs, x, dc, ds) == if 0 < cs[x].depth then Bumped(next, cs[x].parent, dc, ds) else next
  {
    var next := cs[x := BumpOne(cs[x], dc, ds)];
    assert SameShape(cs, next) && Tree(next);
    hide BumpOne, SameShape;
    if 0 < cs[x].depth {
      forall c | c in cs
        ensures Bumped(cs, x, dc, ds)[c] == Bumped(next, cs[x].parent, dc, ds)[c]
      {
        BumpStepAt(cs, next, x, c);
      }
    }
  }

  lemma BumpStepAt(cs: Comments, next: Comments, x: Id, c: Id)
    requires Tree(cs) && Tree(next) && SameShape(cs, next) && x in cs && 0 < cs[x].depth
    ensures cs[x].parent in cs && Under(cs, x, c) == (x == c || Under(next, cs[x].parent, c))
    ensures !Under(next, cs[x].parent, x)
  {
    var p := cs[x].parent;
    UnderFollowsShape(cs, next, p, c);
    UnderFollowsShape(cs, next, p, x);
    if Under(cs, p, x) {
      UnderIsDeeper(cs, p, x);
    }
  }

  // ---------- a comment's shares change ----------

  lemma UnderAllFollowsShape(cs: Comments, ds: Comments, a: Id)
    requires Tree(cs) && Tree(ds) && SameShape(cs, ds)
    ensures forall y :: y in cs ==> Under(cs, y, a) == Under(ds, y, a)
  {
    forall y | y in cs
      ensures Under(cs, y, a) == Under(ds, y, a)
    {
      UnderFollowsShape(cs, ds, y, a);
    }
  }

  /** Only x's shares differ. */
  predicate MovedAt(cs: Comments, ds: Comments, x: Id) {
    && x in cs && cs.Keys == ds.Keys
    && forall y :: y in cs && y != x ==> ds[y].netRshares == cs[y].netRshares
  }

  lemma SharesMoved(cs: Comments, ds: Comments, x: Id, a: Id)
    requires Tree(cs) && Tree(ds) && SameShape(cs, ds) && MovedAt(cs, ds, x)
    ensures SubtreeShares(ds, a)
            == SubtreeShares(cs, a) + if Under(cs, x, a) then Shares2(ds[x]) - Shares2(cs[x]) else 0
    ensures Descendants(ds, a) == Descendants(cs, a)
  {
    UnderAllFollowsShape(cs, ds, a);
    assert cs.Keys == ds.Keys;
    hide Under, Tree, SameShape, Sum;
    SumPoint(cs.Keys, SubtreeTerm(cs, a), SubtreeTerm(ds, a), x);
    SumCongruence(cs.Keys, BelowTerm(cs, a), BelowTerm(ds, a));
  }

  lemma TotalMoved(cs: Comments, ds: Comments, x: Id)
    requires MovedAt(cs, ds, x)
    ensures AllShares(ds) == AllShares(cs) + Shares2(ds[x]) - Shares2(cs[x])
  {
    hide Sum;
    SumPoint(cs.Keys, ShareTerm(cs), ShareTerm(ds), x);
  }

  /** The comments once x's shares are n and the difference has been passed up. */
  function Revalued(cs: Comments, x: Id, n: int): Comments
    requires Tree(cs) && x in cs
  {
    var moved := cs[x := cs[x].(netRshares := n)];
    KeepsTree(cs, x, n);
    Bumped(moved, x, 0, Shares2(moved[x]) - Shares2(cs[x]))
  }

  lemma KeepsTree(cs: Comments, x: Id, n: int)
    requires Tree(cs) && x in cs
    ensures Tree(cs[x := cs[x].(netRshares := n)]) && SameShape(cs, cs[x := cs[x].(netRshares := n)])
  {
  }

  /** What the walk up does to comment a. */
  predicate WalkedAt(cs: Comments, ds: Comments, x: Id, a: Id, dc: int, dr: int)
    requires Tree(cs) && x in cs
  {
    && a in cs && a in ds && ds[a].hasExtras == cs[a].hasExtras && ds[a].rewardWeight == cs[a].rewardWeight
    && ds[a].children == cs[a].children + (if Under(cs, x, a) then dc else 0)
    && (cs[a].hasExtras ==> ds[a].childrenRshares2 == cs[a].childrenRshares2 + if Under(cs, x, a) then dr else 0)
  }

  lemma RevaluedAt(cs: Comments, x: Id, n: int, a: Id)
    requires Tree(cs) && x in cs && a in cs
    ensures WalkedAt(cs, Revalued(cs, x, n), x, a, 0, Max(n, 0) - Shares2(cs[x]))
    ensures var r := Revalued(cs, x, n)[a];
            && r.parent == cs[a].parent && r.depth == cs[a].depth
               && r.netRshares == if a == x then n else cs[a].netRshares
  {
    KeepsTree(cs, x, n);
    UnderFollowsShape(cs, cs[x := cs[x].(netRshares := n)], x, a);
    hide Under, Tree, SameShape;
  }

  lemma RevaluedShape(cs: Comments, x: Id, n: int)
    requires Tree(cs) && x in cs
    ensures var ds := Revalued(cs, x, n);
            Tree(ds) && SameShape(cs, ds) && MovedAt(cs, ds, x) && ds[x].netRshares == n
  {
    KeepsTree(cs, x, n);
    var ds := Revalued(cs, x, n);
    assert ds.Keys == cs.Keys;
    hide Revalued, Under;
    forall a | a in cs
      ensures ds[a].parent == cs[a].parent && ds[a].depth == cs[a].depth
      ensures ds[a].netRshares == if a == x then n else cs[a].netRshares
    {
      RevaluedAt(cs, x, n, a);
    }
  }

  lemma ExactAfterMove(cs: Comments, ds: Comments, x: Id, a: Id)
    requires Tree(cs) && Tree(ds) && SameShape(cs, ds) && MovedAt(cs, ds, x) && x in ds
    requires a in cs && Exact(cs, a) && WalkedAt(cs, ds, x, a, 0, Shares2(ds[x]) - Shares2(cs[x]))
    ensures Exact(ds, a)
  {
    hide Tree, SameShape, MovedAt, Under, SubtreeShares, Descendants;
    SharesMoved(cs, ds, x, a);
  }

  lemma RevaluedExact(cs: Comments, x: Id, n: int)
    requires Tree(cs) && AllExact(cs) && x in cs
    ensures Tree(Revalued(cs, x, n)) && AllExact(Revalued(cs, x, n))
  {
    RevaluedShape(cs, x, n);
    var ds := Revalued(cs, x, n);
    assert ds.Keys == cs.Keys;
    hide Revalued, Tree, SameShape, Under, MovedAt, WalkedAt, Exact;
    forall a | a in cs
      ensures Exact(ds, a)
    {
      assert Exact(cs, a);
      RevaluedAt(cs, x, n, a);
      ExactAfterMove(cs, ds, x, a);
    }
  }

  lemma RevaluedWeights(cs: Comments, x: Id, n: int)
    requires Tree(cs) && WeightsWithin(cs) && x in cs
    ensures WeightsWithin(Revalued(cs, x, n))
  {
    hide Tree, Under;
  }

  /** Passing the difference up keeps every total exact. */
  lemma RevaluedKeeps(cs: Comments, total: int, x: Id, n: int)
    requires Inv(cs, total) && x in cs
    ensures Inv(Revalued(cs, x, n), total + Max(n, 0) - Shares2(cs[x]))
  {
    hide Revalued, Tree, AllShares, MovedAt, AllExact, WeightsWithin, SameShape;
    RevaluedShape(cs, x, n);
    RevaluedExact(cs, x, n);
    RevaluedWeights(cs, x, n);
    TotalMoved(cs, Revalued(cs, x, n), x);
  }

  /** A comment's own shares are part of every total above it, so taking them out of a total never goes below zero. */
  lemma OwnSharesAreCounted(cs: Comments, total: int, x: Id, a: Id)
    requires Inv(cs, total) && x in cs && a in cs && Under(cs, x, a)
    ensures 0 <= Shares2(cs[x]) <= total && (cs[a].hasExtras ==> Shares2(cs[x]) <= cs[a].childrenRshares2)
  {
    assert Exact(cs, a);
    SumRemove(cs.Keys, SubtreeTerm(cs, a), x);
    SumNonNegative(cs.Keys - {x}, SubtreeTerm(cs, a));
    SumRemove(cs.Keys, ShareTerm(cs), x);
    SumNonNegative(cs.Keys - {x}, ShareTerm(cs));
  }

  /** What no total touches: a comment's place in the tree and its own settings. */
  predicate SameComment(c: Comment, d: Comment) {
    d.parent == c.parent && d.depth == c.depth && d.hasExtras == c.hasExtras && d.rewardWeight == c.rewardWeight
  }

  lemma RevaluedRecords(cs: Comments, x: Id, n: int)
    requires Tree(cs) && x in cs
    ensures var ds := Revalued(cs, x, n);
            && ds.Keys == cs.Keys && ds[x].netRshares == n
            && forall y :: y in cs ==>
                             && SameComment(cs[y], ds[y]) && ds[y].children == cs[y].children
                             && (y != x ==> ds[y].netRshares == cs[y].netRshares)
  {
    KeepsTree(cs, x, n);
    hide Under;
  }

  // ---------- a comment is created ----------

  function NewPost(hasExtras: bool, weight: nat): Comment {
    Comment(0, 0, 0, 0, hasExtras, 0, weight)
  }

  function NewReply(parent: Id, depth: nat, hasExtras: bool, weight: nat): Comment {
    Comment(parent, depth, 0, 0, hasExtras, 0, weight)
  }

  /** A leaf added to the tree is under nothing but its own ancestors. */
  lemma LeafAdded(cs: Comments, id: Id, c: Comment, x: Id, a: Id)
    requires Tree(cs) && id !in cs && Tree(cs[id := c]) && x in cs
    ensures Under(cs[id := c], x, a) == (Under(cs, x, a) && a != id)
    decreases cs[x].depth
  {
    if x != a && 0 < cs[x].depth {
      LeafAdded(cs, id, c, cs[x].parent, a);
    }
    if Under(cs, x, a) {
      UnderIsDeeper(cs, x, a);
    }
  }

  predicate AddsLeaf(cs: Comments, id: Id, c: Comment) {
    && Tree(cs) && id !in cs && Shares2(c) == 0
    && (0 < c.depth ==> c.parent in cs && cs[c.parent].depth + 1 == c.depth)
  }

  lemma LeafTree(cs: Comments, id: Id, c: Comment, a: Id)
    requires AddsLeaf(cs, id, c)
    ensures Tree(cs[id := c])
    ensures forall x :: x in cs ==> Under(cs[id := c], x, a) == (Under(cs, x, a) && a != id)
    ensures Under(cs[id := c], id, a) == (a == id || (0 < c.depth && Under(cs, c.parent, a)))
  {
    var ds := cs[id := c];
    assert Tree(ds);
    forall x | x in cs
      ensures Under(ds, x, a) == (Under(cs, x, a) && a != id)
    {
      LeafAdded(cs, id, c, x, a);
    }
  }

  /** A leaf without shares changes no share total, and is one more descendant of every comment above it. */
  lemma LeafSums(cs: Comments, id: Id, c: Comment, a: Id)
    requires AddsLeaf(cs, id, c)
    ensures Tree(cs[id := c]) && SubtreeShares(cs[id := c], a) == if a == id then 0 else SubtreeShares(cs, a)
  {
    var ds := cs[id := c];
    LeafTree(cs, id, c, a);
    assert ds.Keys == cs.Keys + {id};
    hide Under, Tree, Sum;
    SumInsert(cs.Keys, SubtreeTerm(ds, a), id);
    if a == id {
      SumZero(cs.Keys, SubtreeTerm(ds, a));
    } else {
      SumCongruence(cs.Keys, SubtreeTerm(ds, a), SubtreeTerm(cs, a));
    }
  }

  lemma LeafCounts(cs: Comments, id: Id, c: Comment, a: Id)
    requires AddsLeaf(cs, id, c)
    ensures Tree(cs[id := c])
    ensures Descendants(cs[id := c], a)
            == if a == id then 0 else Descendants(cs, a) + if 0 < c.depth && Under(cs, c.parent, a) then 1 else 0
  {
    var ds := cs[id := c];
    LeafTree(cs, id, c, a);
    assert ds.Keys == cs.Keys + {id};
    hide Under, Tree, Sum;
    SumInsert(cs.Keys, BelowTerm(ds, a), id);
    if a == id {
      SumZero(cs.Keys, BelowTerm(ds, a));
    } else {
      SumCongruence(cs.Keys, BelowTerm(ds, a), BelowTerm(cs, a));
    }
  }

  lemma LeafTotal(cs: Comments, id: Id, c: Comment)
    requires AddsLeaf(cs, id, c)
    ensures AllShares(cs[id := c]) == AllShares(cs)
  {
    var ds := cs[id := c];
    assert ds.Keys == cs.Keys + {id};
    hide Sum;
    SumInsert(cs.Keys, ShareTerm(ds), id);
    SumCongruence(cs.Keys, ShareTerm(ds), ShareTerm(cs));
  }

  lemma BumpedAt(cs: Comments, x: Id, dc: int, dr: int, a: Id)
    requires Tree(cs) && x in cs && a in cs
    ensures WalkedAt(cs, Bumped(cs, x, dc, dr), x, a, dc, dr)
    ensures var r := Bumped(cs, x, dc, dr)[a];
            r.parent == cs[a].parent && r.depth == cs[a].depth && r.netRshares == cs[a].netRshares
  {
    hide Under, Tree;
  }

  lemma BumpedShape(cs: Comments, x: Id, dc: int, dr: int)
    requires Tree(cs) && x in cs
    ensures var ds := Bumped(cs, x, dc, dr);
            Tree(ds) && SameShape(cs, ds) && forall a :: a in cs ==> ds[a].netRshares == cs[a].netRshares
  {
    var ds := Bumped(cs, x, dc, dr);
    assert ds.Keys == cs.Keys;
    hide Bumped, Under;
    forall a | a in cs
      ensures ds[a].parent == cs[a].parent && ds[a].depth == cs[a].depth && ds[a].netRshares == cs[a].netRshares
    {
      BumpedAt(cs, x, dc, dr, a);
    }
  }

  /** Sums are about places and shares only. */
  lemma SameSums(cs: Comments, ds: Comments, a: Id)
    requires Tree(cs) && Tree(ds) && SameShape(cs, ds) && forall y :: y in cs ==> ds[y].netRshares == cs[y].netRshares
    ensures SubtreeShares(ds, a) == SubtreeShares(cs, a) && Descendants(ds, a) == Descendants(cs, a)
    ensures AllShares(ds) == AllShares(cs)
  {
    UnderAllFollowsShape(cs, ds, a);
    assert cs.Keys == ds.Keys;
    hide Under, Tree, SameShape, Sum;
    SumCongruence(cs.Keys, SubtreeTerm(cs, a), SubtreeTerm(ds, a));
    SumCongruence(cs.Keys, BelowTerm(cs, a), BelowTerm(ds, a));
    SumCongruence(cs.Keys, ShareTerm(cs), ShareTerm(ds));
  }

  /** Everyone above c counts d more descendants. */
  function Recounted(cs: Comments, c: Comment, d: int): Comments
    requires Tree(cs) && (0 < c.depth ==> c.parent in cs)
  {
    if 0 < c.depth then Bumped(cs, c.parent, d, 0) else cs
  }

  predicate Above(cs: Comments, c: Comment, a: Id)
    requires Tree(cs) && (0 < c.depth ==> c.parent in cs)
  {
    0 < c.depth && Under(cs, c.parent, a)
  }

  lemma RecountedShape(cs: Comments, c: Comment, d: int)
    requires Tree(cs) && (0 < c.depth ==> c.parent in cs)
    ensures var ds := Recounted(cs, c, d);
            Tree(ds) && SameShape(cs, ds) && forall a :: a in cs ==> ds[a].netRshares == cs[a].netRshares
  {
    if 0 < c.depth {
      BumpedShape(cs, c.parent, d, 0);
    }
    hide Bumped, Under;
  }

  /** The new count at a; all sums stay. */
  lemma RecountedAt(cs: Comments, c: Comment, d: int, a: Id)
    requires Tree(cs) && (0 < c.depth ==> c.parent in cs) && a in cs
    ensures var ds := Recounted(cs, c, d);
            && a in ds && ds[a].hasExtras == cs[a].hasExtras && ds[a].rewardWeight == cs[a].rewardWeight
            && ds[a].children == cs[a].children + (if Above(cs, c, a) then d else 0)
            && (cs[a].hasExtras ==> ds[a].childrenRshares2 == cs[a].childrenRshares2)
  {
    if 0 < c.depth {
      BumpedAt(cs, c.parent, d, 0, a);
    }
    hide Bumped, Under, Tree;
  }

  lemma RecountedWeights(cs: Comments, c: Comment, d: int)
    requires Tree(cs) && (0 < c.depth ==> c.parent in cs) && WeightsWithin(cs)
    ensures WeightsWithin(Recounted(cs, c, d))
  {
    RecountedShape(cs, c, d);
    var ds := Recounted(cs, c, d);
    assert ds.Keys == cs.Keys;
    hide Recounted, Tree, SameShape;
    forall a | a in cs
      ensures ds[a].rewardWeight <= HUNDRED_PERCENT
    {
      RecountedAt(cs, c, d, a);
    }
  }

  lemma RecountedRecords(cs: Comments, c: Comment, d: int)
    requires Tree(cs) && (0 < c.depth ==> c.parent in cs)
    ensures var ds := Recounted(cs, c, d);
            && ds.Keys == cs.Keys
            && forall y :: y in cs ==> SameComment(cs[y], ds[y]) && ds[y].netRshares == cs[y].netRshares
  {
    hide Under, Tree;
  }

  /** The comments once a new one has been added and counted by everyone above it. */
  function Created(cs: Comments, id: Id, c: Comment): Comments
    requires AddsLeaf(cs, id, c)
  {
    LeafTree(cs, id, c, id);
    Recounted(cs[id := c], c, 1)
  }

  predicate IsNew(c: Comment) {
    c.netRshares == 0 && c.children == 0 && c.childrenRshares2 == 0 && c.rewardWeight <= HUNDRED_PERCENT
  }

  lemma CreatedFacts(cs: Comments, id: Id, c: Comment)
    requires AddsLeaf(cs, id, c) && WeightsWithin(cs) && IsNew(c)
    ensures var ds := Created(cs, id, c);
            Tree(ds) && ds.Keys == cs.Keys + {id} && AllShares(ds) == AllShares(cs) && WeightsWithin(ds)
  {
    LeafTree(cs, id, c, id);
    LeafTotal(cs, id, c);
    var mid := cs[id := c];
    assert WeightsWithin(mid) && mid.Keys == cs.Keys + {id};
    RecountedShape(mid, c, 1);
    SameSums(mid, Recounted(mid, c, 1), id);
    RecountedWeights(mid, c, 1);
    hide Recounted, Tree, WeightsWithin, AllShares, Under;
  }

  lemma CreatedExactAt(cs: Comments, id: Id, c: Comment, a: Id)
    requires AddsLeaf(cs, id, c) && IsNew(c) && (a == id || (a in cs && Exact(cs, a)))
    ensures Tree(Created(cs, id, c)) && a in Created(cs, id, c) && Exact(Created(cs, id, c), a)
  {
    var mid := cs[id := c];
    LeafTree(cs, id, c, a);
    LeafSums(cs, id, c, a);
    LeafCounts(cs, id, c, a);
    hide Recounted, Tree, SameShape, SubtreeShares, Descendants, Under;
    RecountedShape(mid, c, 1);
    RecountedAt(mid, c, 1, a);
    SameSums(mid, Recounted(mid, c, 1), a);
  }

  /** A new comment keeps every total exact. */
  lemma CreatedKeeps(cs: Comments, total: int, id: Id, c: Comment)
    requires Inv(cs, total) && AddsLeaf(cs, id, c) && IsNew(c)
    ensures Inv(Created(cs, id, c), total)
  {
    hide Created, Tree, Exact, AllShares, AddsLeaf, IsNew, WeightsWithin;
    CreatedFacts(cs, id, c);
    var ds := Created(cs, id, c);
    forall a | a in ds
      ensures Exact(ds, a)
    {
      CreatedExactAt(cs, id, c, a);
    }
  }

  // ---------- a comment is deleted ----------

  /** A comment that counts no descendants has no replies, so removing it leaves a tree. */
  lemma NoneBelow(cs: Comments, id: Id)
    requires Tree(cs) && id in cs && Exact(cs, id) && cs[id].children == 0
    ensures forall x :: x in cs && 0 < cs[x].depth ==> cs[x].parent != id
  {
    forall x | x in cs && 0 < cs[x].depth
      ensures cs[x].parent != id
    {
      if cs[x].parent == id {
        assert Under(cs, id, id) && Under(cs, x, id);
        SumRemove(cs.Keys, BelowTerm(cs, id), x);
        SumNonNegative(cs.Keys - {x}, BelowTerm(cs, id));
        assert false;
      }
    }
  }

  function Deleted(cs: Comments, id: Id): Comments
    requires Tree(cs) && id in cs
  {
    Recounted(cs, cs[id], -1) - {id}
  }

  lemma RestIsTree(cs: Comments, id: Id)
    requires Tree(cs) && id in cs && Exact(cs, id) && cs[id].children == 0 && Shares2(cs[id]) == 0
    ensures Tree(cs - {id}) && AddsLeaf(cs - {id}, id, cs[id]) && (cs - {id})[id := cs[id]] == cs
  {
    NoneBelow(cs, id);
    hide Exact;
  }

  lemma DeletedShape(cs: Comments, id: Id)
    requires Tree(cs) && id in cs && Exact(cs, id) && cs[id].children == 0 && Shares2(cs[id]) == 0
    ensures var rest, ds := cs - {id}, Deleted(cs, id);
            && Tree(rest) && Tree(ds) && SameShape(rest, ds) && rest.Keys == ds.Keys == cs.Keys - {id}
            && forall a :: a in rest ==> ds[a].netRshares == rest[a].netRshares
  {
    hide Recounted, Exact, AddsLeaf, Shares2, Under, Tree;
    RestIsTree(cs, id);
    LeafParent(cs - {id}, id, cs[id]);
    RecountedShape(cs, cs[id], -1);
    ShapeWithout(cs, Recounted(cs, cs[id], -1), id);
  }

  lemma ShapeWithout(cs: Comments, ds: Comments, id: Id)
    requires SameShape(cs, ds) && Tree(cs - {id}) && forall a :: a in cs ==> ds[a].netRshares == cs[a].netRshares
    ensures SameShape(cs - {id}, ds - {id}) && Tree(ds - {id})
    ensures forall a :: a in cs - {id} ==> (ds - {id})[a].netRshares == (cs - {id})[a].netRshares
  {
  }

  lemma DeletedFacts(cs: Comments, id: Id)
    requires Tree(cs) && id in cs && Exact(cs, id) && cs[id].children == 0 && Shares2(cs[id]) == 0 && WeightsWithin(cs)
    ensures var ds := Deleted(cs, id);
            Tree(ds) && ds.Keys == cs.Keys - {id} && AllShares(ds) == AllShares(cs) && WeightsWithin(ds)
  {
    RecountedWeights(cs, cs[id], -1);
    assert WeightsWithin(Deleted(cs, id));
    hide Recounted, Exact, WeightsWithin, AllShares, AddsLeaf, SameShape, Deleted, Tree, Shares2;
    DeletedShape(cs, id);
    RestIsTree(cs, id);
    LeafTotal(cs - {id}, id, cs[id]);
    SameSums(cs - {id}, Deleted(cs, id), id);
  }

  lemma DeletedExactAt(cs: Comments, id: Id, a: Id)
    requires Tree(cs) && id in cs && Exact(cs, id) && cs[id].children == 0 && Shares2(cs[id]) == 0
    requires a in cs && a != id && Exact(cs, a)
    ensures Tree(Deleted(cs, id)) && a in Deleted(cs, id) && Exact(Deleted(cs, id), a)
  {
    hide Recounted, Tree, SameShape, SubtreeShares, Descendants, AddsLeaf, Under, Shares2, SameComment;
    var c, rest := cs[id], cs - {id};
    OwnParent(cs, id);
    RecountedAt(cs, c, -1, a);
    DeletedShape(cs, id);
    RestIsTree(cs, id);
    LeafParent(rest, id, c);
    LeafTree(rest, id, c, a);
    LeafSums(rest, id, c, a);
    LeafCounts(rest, id, c, a);
    SameSums(rest, Deleted(cs, id), a);
  }

  lemma OwnParent(cs: Comments, id: Id)
    requires Tree(cs) && id in cs
    ensures 0 < cs[id].depth ==> cs[id].parent in cs
  {
  }

  lemma LeafParent(cs: Comments, id: Id, c: Comment)
    requires AddsLeaf(cs, id, c)
    ensures 0 < c.depth ==> c.parent in cs
  {
  }

  /** Deleting a comment without replies and without positive shares keeps every total exact. */
  lemma DeletedKeeps(cs: Comments, total: int, id: Id)
    requires Inv(cs, total) && id in cs && cs[id].children == 0 && Shares2(cs[id]) == 0
    ensures Inv(Deleted(cs, id), total)
  {
    assert Exact(cs, id);
    hide Deleted, Tree, Exact, AllShares, WeightsWithin, Shares2;
    DeletedFacts(cs, id);
    var ds := Deleted(cs, id);
    forall a | a in ds
      ensures Exact(ds, a)
    {
      DeletedExactAt(cs, id, a);
    }
  }

  // ---------- claims on the fund ----------

  const INT64_MAX: int := 0x7fff_ffff_ffff_ffff

  /** A comment's part of the fund before the limits: by its shares, cut by its reward weight. */
  function RawPayout(fund: nat, c: Comment, total: int): int
    requires 0 < total
  {
    fund * (Shares2(c) * c.rewardWeight / HUNDRED_PERCENT) / total
  }

  /** The part below the least payout is nothing, and the author may have set a limit. */
  function Payout(raw: int, max: nat, toDollars: int -> int, least: int): int {
    Min(if toDollars(raw) < least then 0 else raw, max)
  }

  /** The two things that make a payout throw: a claim beyond 63 bits, or a payable one with that many shares voted. */
  predicate Throws(raw: int, max: nat, toDollars: int -> int, least: int, reputation: int, votes: seq<Vote>) {
    || INT64_MAX < raw
    || (0 < Payout(raw, max, toDollars, least) && 0 <= reputation && INT64_MAX < Shares(votes, |votes|))
  }

  /** The part is the weighted shares' part of the fund, where both are rounded down. */
  lemma RawPayoutIsShare(fund: nat, c: Comment, total: int) returns (weighted: int)
    requires 0 < total
    ensures IsFloor(weighted, Max(c.netRshares, 0) * c.rewardWeight, HUNDRED_PERCENT)
    ensures IsFloor(RawPayout(fund, c, total), fund * weighted, total)
  {
    weighted := Shares2(c) * c.rewardWeight / HUNDRED_PERCENT;
    FloorIs(Shares2(c) * c.rewardWeight, HUNDRED_PERCENT);
    FloorIs(fund * weighted, total);
  }

  /** All of it is paid if it is worth the least payout, up to the limit, and nothing otherwise. */
  lemma PayoutIsAllOrLimit(raw: int, max: nat, toDollars: int -> int, least: int)
    requires 0 <= raw
    ensures var p := Payout(raw, max, toDollars, least);
            if toDollars(raw) < least then p == 0
            else p <= raw && p <= max && (p == raw || p == max)
  {
  }

  /** A comment with positive shares finds a positive total and never claims more than the fund holds. */
  lemma ClaimIsCovered(cs: Comments, total: int, x: Id, fund: nat)
    requires Inv(cs, total) && x in cs && 0 < cs[x].netRshares
    ensures 0 < total && 0 <= RawPayout(fund, cs[x], total) <= fund
  {
    OwnSharesAreCounted(cs, total, x, x);
    ShareBounds(Shares2(cs[x]), cs[x].rewardWeight, HUNDRED_PERCENT);
    ShareBounds(fund, Shares2(cs[x]) * cs[x].rewardWeight / HUNDRED_PERCENT, total);
  }

  predicate VoteRatesWithin(votes: seq<Vote>) {
    forall k :: 0 <= k < |votes| ==> RateSum(votes[k].rates) <= HUNDRED_PERCENT
  }

  /** info is the curation information of those votes. */
  ghost predicate IsCuration(info: CurationInfo, curve: Curve, votes: seq<Vote>, window: nat)
    requires WithinWindow(votes, window)
  {
    && InfoFor(info, window) && multiset(info.voteList) == multiset(Entries(curve, votes, |votes|, window, false))
    && info.auctionWindowWeight == Total(curve, votes, |votes|, window, ToWindow)
    && info.votesInAuctionWindowWeight == Total(curve, votes, |votes|, window, InsideWindow)
    && info.votesAfterAuctionWindowWeight == Total(curve, votes, |votes|, window, AfterWindow)
  }

  /** What a payout adds to the payments: the curators in their order and then the author's side, or nothing. */
  ghost predicate PaidFor(
    before: seq<Payment>, after: seq<Payment>, payout: nat, votes: seq<Vote>, curve: Curve, bill: Bill,
    eligible: Eligible,
    author: Voter, workers: Voter, reputation: int)
    requires WithinWindow(votes, bill.window)
  {
    if payout == 0 || reputation < 0 then after == before
    else
      exists info, steps, stop ::
        && IsCuration(info, curve, votes, bill.window) && InfoWeights(info)
        && GoodSteps(info.voteList, steps) && CuratorSteps(info, CurationBudget(payout, bill), bill, steps, stop)
        && 0 <= AuthorTokens(payout, bill, steps)
        && after == Log(eligible, info.voteList, before, steps)
                    + AuthorPayments(bill, author, workers, AuthorTokens(payout, bill, steps))
  }

  lemma ListRatesWithin(c: Curve, votes: seq<Vote>, window: nat, list: seq<VoteInfo>)
    requires WithinWindow(votes, window) && VoteRatesWithin(votes)
    requires multiset(list) == multiset(Entries(c, votes, |votes|, window, false))
    ensures RatesWithin(list)
  {
    hide RateSum;
    EntriesAreVotes(c, votes, |votes|, window, false);
    SameMembers(list, Entries(c, votes, |votes|, window, false));
    forall k | 0 <= k < |list|
      ensures RateSum(list[k].vote.rates) <= HUNDRED_PERCENT
    {
      assert list[k] in list;
    }
  }

  /** Everything above x holds at least that many shares. */
  predicate Covered(cs: Comments, x: Id, shares: int)
    requires Tree(cs) && x in cs
  {
    forall a :: a in cs && Under(cs, x, a) && cs[a].hasExtras ==> shares <= cs[a].childrenRshares2
  }

  lemma CoveredNext(cs: Comments, x: Id, shares: nat, more: nat)
    requires Tree(cs) && x in cs && 0 < cs[x].depth && Covered(cs, x, shares)
    ensures var next := cs[x := BumpOne(cs[x], 0, more - shares)];
            && Tree(next) && cs[x].parent in next && Covered(next, cs[x].parent, shares)
            && next[cs[x].parent].depth < cs[x].depth
  {
    var next, p := cs[x := BumpOne(cs[x], 0, more - shares)], cs[x].parent;
    assert SameShape(cs, next);
    forall a | a in next && Under(next, p, a) && next[a].hasExtras
      ensures shares <= next[a].childrenRshares2
    {
      UnderFollowsShape(cs, next, p, a);
      UnderIsDeeper(cs, p, a);
      assert Under(cs, x, a);
    }
  }

  lemma CoveredNow(cs: Comments, total: int, x: Id)
    requires Inv(cs, total) && x in cs && Tree(cs)
    ensures Covered(cs, x, Shares2(cs[x])) && Shares2(cs[x]) <= total
  {
    OwnSharesAreCounted(cs, total, x, x);
    hide Inv, Tree;
    forall a | a in cs && Under(cs, x, a) && cs[a].hasExtras
      ensures Shares2(cs[x]) <= cs[a].childrenRshares2
    {
      OwnSharesAreCounted(cs, total, x, a);
    }
  }

  lemma CoveredByInv(cs: Comments, total: int, x: Id, n: int)
    requires Inv(cs, total) && x in cs
    ensures var moved := cs[x := cs[x].(netRshares := n)];
            Tree(moved) && Covered(moved, x, Shares2(cs[x])) && Shares2(cs[x]) <= total
  {
    var moved := cs[x := cs[x].(netRshares := n)];
    KeepsTree(cs, x, n);
    OwnSharesAreCounted(cs, total, x, x);
    hide Inv, Tree, SameShape;
    forall a | a in moved && Under(moved, x, a) && moved[a].hasExtras
      ensures Shares2(cs[x]) <= moved[a].childrenRshares2
    {
      UnderFollowsShape(cs, moved, x, a);
      OwnSharesAreCounted(cs, total, x, a);
    }
  }

  /** Passing a difference up and then setting the comment's own shares is the same as the other way round. */
  lemma RevaluedLast(cs: Comments, x: Id, n: int)
    requires Tree(cs) && x in cs
    ensures var up := Bumped(cs, x, 0, Max(n, 0) - Shares2(cs[x]));
            x in up && up[x := up[x].(netRshares := n)] == Revalued(cs, x, n)
  {
    hide Under, Tree, SameShape;
    var up := Bumped(cs, x, 0, Max(n, 0) - Shares2(cs[x]));
    var last, ds := up[x := up[x].(netRshares := n)], Revalued(cs, x, n);
    KeepsTree(cs, x, n);
    assert last.Keys == cs.Keys == ds.Keys;
    hide Bumped, Revalued;
    forall a | a in cs
      ensures last[a] == ds[a]
    {
      RevaluedLastAt(cs, x, n, a);
    }
  }

  lemma RevaluedLastAt(cs: Comments, x: Id, n: int, a: Id)
    requires Tree(cs) && x in cs && a in cs
    ensures var up := Bumped(cs, x, 0, Max(n, 0) - Shares2(cs[x]));
            x in up && a in Revalued(cs, x, n) && up[x := up[x].(netRshares := n)][a] == Revalued(cs, x, n)[a]
  {
    hide Under, Tree, SameShape;
    KeepsTree(cs, x, n);
    UnderFollowsShape(cs, cs[x := cs[x].(netRshares := n)], x, a);
  }

  lemma RevaluedNothing(cs: Comments, x: Id)
    requires Tree(cs) && x in cs
    ensures Revalued(cs, x, cs[x].netRshares) == cs
  {
    var ds := Revalued(cs, x, cs[x].netRshares);
    assert cs[x := cs[x].(netRshares := cs[x].netRshares)] == cs;
    hide Under, Tree;
    forall a | a in cs
      ensures ds[a] == cs[a]
    {
    }
  }

  lemma InvTree(cs: Comments, total: int)
    requires Inv(cs, total)
    ensures Tree(cs)
  {
  }

  /** All that a change of shares relies on and achieves. */
  lemma MoveFacts(cs: Comments, total: int, x: Id, n: int)
    requires Inv(cs, total) && x in cs
    ensures var moved := cs[x := cs[x].(netRshares := n)];
            && Tree(cs) && Tree(moved) && Covered(moved, x, Shares2(cs[x])) && Shares2(cs[x]) <= total
            && Revalued(cs, x, n) == Bumped(moved, x, 0, Max(n, 0) - Shares2(cs[x]))
            && Inv(Revalued(cs, x, n), total + Max(n, 0) - Shares2(cs[x]))
  {
    hide Inv, Covered, Bumped, Tree;
    InvTree(cs, total);
    RevaluedKeeps(cs, total, x, n);
    CoveredByInv(cs, total, x, n);
  }

  /** The same when the shares are set after the walk, as a payout does. */
  lemma CashoutFacts(cs: Comments, total: int, x: Id)
    requires Inv(cs, total) && x in cs && 0 < cs[x].netRshares
    ensures Tree(cs) && Covered(cs, x, cs[x].netRshares) && cs[x].netRshares <= total
    ensures var up := Bumped(cs, x, 0, -cs[x].netRshares);
            x in up && up[x := up[x].(netRshares := 0)] == Revalued(cs, x, 0)
              && Inv(Revalued(cs, x, 0), total - cs[x].netRshares)
  {
    hide Inv, Covered, Bumped, Tree, Revalued;
    InvTree(cs, total);
    CoveredNow(cs, total, x);
    RevaluedKeeps(cs, total, x, 0);
    RevaluedLast(cs, x, 0);
  }

  lemma NonPositiveStays(cs: Comments, total: int, x: Id)
    requires Inv(cs, total) && x in cs
    ensures Tree(cs) && Revalued(cs, x, cs[x].netRshares) == cs
  {
    hide Revalued, AllExact;
    RevaluedNothing(cs, x);
  }

  /** All that a new comment relies on and achieves. */
  lemma CreateFacts(cs: Comments, total: int, id: Id, c: Comment)
    requires Inv(cs, total) && id !in cs && IsNew(c)
    requires 0 < c.depth ==> c.parent in cs && cs[c.parent].depth + 1 == c.depth
    ensures var mid := cs[id := c];
            && Tree(mid) && var ds := Recounted(mid, c, 1);
            && Inv(ds, total) && ds.Keys == cs.Keys + {id} && SameShape(mid, ds) && ds[id].children == 0
            && forall y :: y in mid ==> ds[y].netRshares == mid[y].netRshares
  {
    var mid := cs[id := c];
    CreatedKeeps(cs, total, id, c);
    CreatedFacts(cs, id, c);
    LeafTree(cs, id, c, id);
    RecountedShape(mid, c, 1);
    RecountedAt(mid, c, 1, id);
    assert !Above(mid, c, id) by {
      if 0 < c.depth {
        LeafAdded(cs, id, c, c.parent, id);
      }
    }
    hide Under, Recounted, Inv, Tree, Above;
  }

  lemma DeleteFacts(cs: Comments, total: int, id: Id)
    requires Inv(cs, total) && id in cs
    ensures Tree(cs) && cs[id].children == Descendants(cs, id) && (0 < cs[id].depth ==> cs[id].parent in cs)
    ensures cs[id].children == 0 && cs[id].netRshares <= 0 ==>
              Inv(Deleted(cs, id), total) && Deleted(cs, id) == Recounted(cs, cs[id], -1) - {id}
  {
    assert Exact(cs, id);
    if cs[id].children == 0 && cs[id].netRshares <= 0 {
      DeletedKeeps(cs, total, id);
    }
    hide Descendants, SubtreeShares, Recounted, Under;
  }

  lemma OwnIsCovered(cs: Comments, x: Id, shares: int)
    requires Tree(cs) && x in cs && Covered(cs, x, shares)
    ensures cs[x].hasExtras ==> shares <= cs[x].childrenRshares2
  {
    assert Under(cs, x, x);
  }

  class Discussion {
    var comments: Comments
    var total: int
    const rewards: RewardFund

    constructor (rewards: RewardFund)
      requires 0 <= rewards.fund
      ensures Valid() && comments == map[] && total == 0 && this.rewards == rewards
    {
      this.rewards, comments, total := rewards, map[], 0;
    }

    ghost predicate Valid()
      reads this, rewards
    {
      Inv(comments, total) && 0 <= rewards.fund
    }

    /** adjust_rshares2: the old shares come out and the new ones go in, at every level; nothing goes below zero. */
    method AdjustRshares2(x: Id, before: nat, after: nat)
      requires Tree(comments) && x in comments && Covered(comments, x, before) && before <= total
      modifies this
      ensures comments == Bumped(old(comments), x, 0, after - before) && total == old(total) - before + after
      decreases if x in comments then comments[x].depth else 0
    {
      hide Bumped, Under, Tree, Covered;
      BumpStep(comments, x, 0, after - before);
      if 0 < comments[x].depth {
        CoveredNext(comments, x, before, after);
      }
      OwnIsCovered(comments, x, before);
      var c := comments[x];
      var next := c;
      if c.hasExtras {
        var left: nat := c.childrenRshares2 - before;
        next := c.(childrenRshares2 := left + after);
      }
      assert next == BumpOne(c, 0, after - before);
      hide BumpOne;
      comments := comments[x := next];
      if 0 < c.depth {
        AdjustRshares2(c.parent, before, after);
      } else {
        var left: nat := total - before;
        total := left + after;
      }
    }

    /** The loop over the parents of a comment that is created or deleted. */
    method AddToChildren(c: Comment, d: int)
      requires Tree(comments) && (0 < c.depth ==> c.parent in comments)
      modifies this`comments
      ensures comments == Recounted(old(comments), c, d)
    {
      if c.depth == 0 {
        return;
      }
      var x := c.parent;
      hide Under, Bumped;
      while 0 < comments[x].depth
        invariant Tree(comments) && x in comments
        invariant Bumped(comments, x, d, 0) == Bumped(old(comments), c.parent, d, 0)
        decreases comments[x].depth
      {
        BumpStep(comments, x, d, 0);
        var p := comments[x].parent;
        comments := comments[x := BumpOne(comments[x], d, 0)];
        x := p;
      }
      BumpStep(comments, x, d, 0);
      comments := comments[x := BumpOne(comments[x], d, 0)];
    }

    /** Refused when the comment exists, its parent does not, or its parent is too deep. */
    method CreateComment(id: Id, reply: bool, parent: Id, maxDepth: nat, hasExtras: bool, weight: nat)
      returns (ok: bool)
      requires Valid() && weight <= HUNDRED_PERCENT
      modifies this
      ensures Valid() && rewards.fund == old(rewards.fund) && total == old(total)
      ensures ok == (id !in old(comments)
                     && (reply ==> parent in old(comments) && old(comments)[parent].depth < maxDepth))
      ensures ok ==> comments.Keys == old(comments).Keys + {id} && comments[id].netRshares == 0
                     && comments[id].children == 0
      ensures ok ==> comments[id].depth == if reply then old(comments)[parent].depth + 1 else 0
      ensures ok && reply ==> comments[id].parent == parent
      ensures ok ==> comments[id].hasExtras == hasExtras && comments[id].rewardWeight == weight
      ensures ok ==> forall y :: y in old(comments) ==> comments[y].netRshares == old(comments)[y].netRshares
                                                        && SameComment(old(comments)[y], comments[y])
      ensures !ok ==> comments == old(comments)
    {
      hide Inv, Tree, Recounted;
      if id in comments || (reply && (parent !in comments || comments[parent].depth >= maxDepth)) {
        return false;
      }
      var c := if reply then NewReply(parent, comments[parent].depth + 1, hasExtras, weight)
        else NewPost(hasExtras, weight);
      CreateFacts(comments, total, id, c);
      RecountedRecords(comments[id := c], c, 1);
      hide SameShape;
      comments := comments[id := c];
      AddToChildren(c, 1);
      return true;
    }

    /** A vote replaces the voter's earlier shares, none for a first vote; every total follows. */
    method Vote(id: Id, earlier: int, rshares: int)
      requires Valid() && id in comments
      modifies this
      ensures Valid() && rewards.fund == old(rewards.fund)
      ensures comments == Revalued(old(comments), id, old(comments)[id].netRshares - earlier + rshares)
      ensures comments.Keys == old(comments).Keys && comments[id].netRshares
              == old(comments)[id].netRshares - earlier + rshares
      ensures forall y :: y in old(comments) ==> SameComment(old(comments)[y], comments[y])
                                                 && comments[y].children == old(comments)[y].children
                                                 && (y != id ==> comments[y].netRshares == old(comments)[y].netRshares)
    {
      hide Inv, Bumped, Covered, Tree, Revalued, SameComment;
      var before := Shares2(comments[id]);
      var n := comments[id].netRshares - earlier + rshares;
      MoveFacts(comments, total, id, n);
      RevaluedRecords(comments, id, n);
      comments := comments[id := comments[id].(netRshares := n)];
      AdjustRshares2(id, before, Shares2(comments[id]));
    }

    /**
     Refused for a comment with replies, and by a producer for one with positive shares; otherwise such a one
     just stays.
     */
    method DeleteComment(id: Id, producing: bool) returns (ok: bool)
      requires Valid() && id in comments
      modifies this
      ensures Valid() && rewards.fund == old(rewards.fund) && total == old(total)
      ensures ok == (Descendants(old(comments), id) == 0 && (producing ==> old(comments)[id].netRshares <= 0))
      ensures comments == if ok && old(comments)[id].netRshares <= 0 then Deleted(old(comments), id) else old(comments)
      ensures comments.Keys == old(comments).Keys - if ok && old(comments)[id].netRshares <= 0 then {id} else {}
      ensures forall y :: y in comments ==> SameComment(old(comments)[y], comments[y])
                                            && comments[y].netRshares == old(comments)[y].netRshares
    {
      hide Inv, Tree, Recounted, Deleted, Descendants;
      var c := comments[id];
      DeleteFacts(comments, total, id);
      RecountedRecords(comments, c, -1);
      if c.children != 0 || (producing && c.netRshares > 0) {
        return false;
      }
      if c.netRshares > 0 {
        return true;
      }
      AddToChildren(c, -1);
      comments := comments - {id};
      return true;
    }

    /**
     cashout_comment_helper: claims, pays, and takes the comment's shares out of every total. The tokens
     claimed are all paid out or back in the fund; a throw leaves everything as it was.
     */
    method CashoutComment(
      id: Id, votes: seq<Vote>, curve: Curve, bill: Bill, max: nat, toDollars: int -> int, least: int,
      eligible: Eligible, author: Voter, workers: Voter, reputation: int)
      returns (ok: bool, payout: nat)
      requires Valid() && id in comments
      requires WithinWindow(votes, bill.window) && VoteRatesWithin(votes) && BillWithin(bill)
      modifies this, rewards
      ensures Valid() && rewards.Tokens() == old(rewards.Tokens())
      ensures comments == if ok then Revalued(old(comments), id, Min(old(comments)[id].netRshares, 0))
              else old(comments)
      ensures old(comments)[id].netRshares <= 0 ==> ok && payout == 0
      ensures 0 < old(comments)[id].netRshares ==>
                0 < old(total) && 0 <= old(rewards.fund)
                && ok == !Throws(
                     RawPayout(old(rewards.fund), old(comments)[id], old(total)), max, toDollars, least, reputation,
                     votes)
      ensures ok && 0 < old(comments)[id].netRshares ==>
                0 < old(total) && payout
                == Payout(RawPayout(old(rewards.fund), old(comments)[id], old(total)), max, toDollars, least)
      ensures ok ==> PaidFor(old(rewards.paid), rewards.paid,
                             payout, votes, curve, bill, eligible, author, workers, reputation)
      ensures !ok ==> total == old(total) && rewards.fund == old(rewards.fund) && rewards.paid == old(rewards.paid)
    {
      hide Inv, Bumped, Covered, Tree, Revalued, Amount, VoteRatesWithin, BillWithin, WithinWindow, RawPayout, Payout,
        Throws;
      var c := comments[id];
      NonPositiveStays(comments, total, id);
      if c.netRshares <= 0 {
        return true, 0;
      }
      hide PaidFor;
      ok, payout := ClaimAndPay(id, votes, curve, bill, max, toDollars, least, eligible, author, workers, reputation);
      if !ok {
        return;
      }
      CashoutFacts(comments, total, id);
      AdjustRshares2(id, c.netRshares, 0);
      comments := comments[id := comments[id].(netRshares := 0)];
    }

    /**
     The claim on the fund and the payments; it throws for a claim beyond 63 bits or votes with too many shares
     in all.
     */
    method ClaimAndPay(
      id: Id, votes: seq<Vote>, curve: Curve, bill: Bill, max: nat, toDollars: int -> int, least: int,
      eligible: Eligible, author: Voter, workers: Voter, reputation: int)
      returns (ok: bool, payout: nat)
      requires Valid() && id in comments && 0 < comments[id].netRshares
      requires WithinWindow(votes, bill.window) && VoteRatesWithin(votes) && BillWithin(bill)
      modifies rewards
      ensures 0 <= rewards.fund && rewards.Tokens() == old(rewards.Tokens())
      ensures 0 < total
      ensures ok == !Throws(RawPayout(old(rewards.fund), comments[id], total), max, toDollars, least, reputation, votes)
      ensures ok ==> payout == Payout(RawPayout(old(rewards.fund), comments[id], total), max, toDollars, least)
      ensures ok ==> PaidFor(old(rewards.paid), rewards.paid,
                             payout, votes, curve, bill, eligible, author, workers, reputation)
      ensures !ok ==> rewards.fund == old(rewards.fund) && rewards.paid == old(rewards.paid)
    {
      hide Inv, RawPayout, Amount, PaidFor, VoteRatesWithin, BillWithin, WithinWindow, Shares;
      ClaimIsCovered(comments, total, id, rewards.fund);
      var raw := RawPayout(rewards.fund, comments[id], total);
      if raw > INT64_MAX {
        return false, 0;
      }
      payout := Payout(raw, max, toDollars, least);
      if payout == 0 || reputation < 0 {
        NothingPaid(rewards.paid, payout, votes, curve, bill, eligible, author, workers, reputation);
        return true, payout;
      }
      ok := PayClaimed(payout, votes, curve, bill, eligible, author, workers, reputation);
    }

    /** Takes the payout from the fund and pays it. */
    method PayClaimed(
      payout: nat, votes: seq<Vote>, curve: Curve, bill: Bill, eligible: Eligible, author: Voter, workers: Voter,
      reputation: int)
      returns (ok: bool)
      requires 0 < payout <= INT64_MAX && payout <= rewards.fund && 0 <= reputation
      requires WithinWindow(votes, bill.window) && VoteRatesWithin(votes) && BillWithin(bill)
      modifies rewards
      ensures 0 <= rewards.fund && rewards.Tokens() == old(rewards.Tokens())
      ensures ok == (Shares(votes, |votes|) <= INT64_MAX)
      ensures ok ==> PaidFor(old(rewards.paid), rewards.paid,
                             payout, votes, curve, bill, eligible, author, workers, reputation)
      ensures !ok ==> rewards.fund == old(rewards.fund) && rewards.paid == old(rewards.paid)
    {
      hide Amount, InfoFor, RatesWithin, VoteRatesWithin, Total, Weight, Shares, Entries, CuratorSteps, GoodSteps, Log,
        AuthorPayments, AuthorTokens, CurationBudget, BillWithin, WithinWindow;
      var info;
      ok, info := CommentCurationInfo(votes, curve, bill.window, false, false);
      if !ok {
        return;
      }
      ListRatesWithin(curve, votes, bill.window, info.voteList);
      InfoHasWeights(info, bill.window);
      rewards.fund := rewards.fund - payout;
      var steps, stop := rewards.PayComment(payout, info, bill, eligible, author, workers, reputation);
    }
  }

  lemma NothingPaid(
    paid: seq<Payment>, payout: nat, votes: seq<Vote>, curve: Curve, bill: Bill, eligible: Eligible,
    author: Voter, workers: Voter, reputation: int)
    requires WithinWindow(votes, bill.window) && (payout == 0 || reputation < 0)
    ensures PaidFor(paid, paid, payout, votes, curve, bill, eligible, author, workers, reputation)
  {
  }

  lemma InfoHasWeights(info: CurationInfo, window: nat)
    requires InfoFor(info, window)
    ensures InfoWeights(info)
  {
  }
}

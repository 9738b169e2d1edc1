/**
 Authority checking: does a set of signatures satisfy a weighted authority whose members may be
 other accounts, recursively, in a graph that may be cyclic? The check is cut off at a recursion
 depth and remembers approved accounts across calls, whatever depth they were approved at. The
 pure definition `Satisfied` has no memory; the check is proved to lie between that definition at
 the remaining depth and the same definition at some finite depth.
 */
module SignState {
  import opened Arith

  type Key = string

  type Name = string

  /** key_auths and account_auths list each member once, with its weight. */
  datatype Authority = Authority(threshold: nat, accountAuths: seq<(Name, nat)>, keyAuths: seq<(Key, nat)>)

  /** What does not change during a check: the authority graph, the keys that could still sign, the depth limit. */
  datatype Context = Context(getActive: Name -> Authority, available: set<Key>, maxRecursion: nat)

  /** provided maps each signature to whether it has been used, approved each approval likewise. */
  datatype State = State(provided: map<Key, bool>, approved: map<Name, bool>)

  function SignedKeys(c: Context, st: State): set<Key> {
    st.provided.Keys + c.available
  }

  function UsedKeys(st: State): set<Key> {
    set k | k in st.provided && st.provided[k]
  }

  // ---------- the pure definition ----------

  /** The weight of the first i keys of auth that are signed. */
  function KeyWeight(signed: set<Key>, auth: Authority, i: nat): nat
    requires i <= |auth.keyAuths|
  {
    if i == 0 then 0
    else KeyWeight(signed, auth, i - 1) + if auth.keyAuths[i - 1].0 in signed then auth.keyAuths[i - 1].1 else 0
  }

  /** An account counts if it was granted beforehand or if its own authority is satisfied one level down. */
  predicate Counts(c: Context, signed: set<Key>, granted: set<Name>, a: Name, n: nat)
    decreases n, 0, 1
  {
    a in granted || (n > 0 && Satisfied(c, signed, granted, c.getActive(a), n - 1))
  }

  function AccountWeight(c: Context, signed: set<Key>, granted: set<Name>, auth: Authority, i: nat, n: nat): nat
    requires i <= |auth.accountAuths|
    decreases n, 1, i
  {
    if i == 0 then 0
    else
      var weight := if Counts(c, signed, granted, auth.accountAuths[i - 1].0, n) then auth.accountAuths[i - 1].1 else 0;
      AccountWeight(c, signed, granted, auth, i - 1, n) + weight
  }

  /** The weighted threshold is met using at most n levels of other accounts' authorities. */
  predicate Satisfied(c: Context, signed: set<Key>, granted: set<Name>, auth: Authority, n: nat)
    decreases n, 2
  {
    KeyWeight(signed, auth, |auth.keyAuths|)
    + AccountWeight(c, signed, granted, auth, |auth.accountAuths|, n) >= auth.threshold
  }

  lemma {:induction false} KeyWeightMonotone(signed: set<Key>, more: set<Key>, auth: Authority, i: nat)
    requires signed <= more && i <= |auth.keyAuths|
    ensures KeyWeight(signed, auth, i) <= KeyWeight(more, auth, i)
  {
    if i > 0 {
      KeyWeightMonotone(signed, more, auth, i - 1);
    }
  }

  lemma {:induction false} AccountWeightMonotone(
    c: Context, signed: set<Key>, more: set<Key>, granted: set<Name>, wider: set<Name>,
    auth: Authority, i: nat, n: nat, m: nat)
    requires signed <= more && granted <= wider && i <= |auth.accountAuths| && n <= m
    ensures AccountWeight(c, signed, granted, auth, i, n) <= AccountWeight(c, more, wider, auth, i, m)
    decreases n, 1, i
  {
    if i > 0 {
      AccountWeightMonotone(c, signed, more, granted, wider, auth, i - 1, n, m);
      var a := auth.accountAuths[i - 1].0;
      if n > 0 && Satisfied(c, signed, granted, c.getActive(a), n - 1) {
        SatisfiedMonotone(c, signed, more, granted, wider, c.getActive(a), n - 1, m - 1);
      }
    }
  }

  /** More signatures, more grants and more depth never hurt. */
  lemma {:induction false} SatisfiedMonotone(
    c: Context, signed: set<Key>, more: set<Key>, granted: set<Name>, wider: set<Name>, auth: Authority, n: nat, m: nat)
    requires signed <= more && granted <= wider && n <= m && Satisfied(c, signed, granted, auth, n)
    ensures Satisfied(c, more, wider, auth, m)
    decreases n, 2
  {
    KeyWeightMonotone(signed, more, auth, |auth.keyAuths|);
    AccountWeightMonotone(c, signed, more, granted, wider, auth, |auth.accountAuths|, n, m);
  }

  // ---------- the check ----------

  function SignedBy(c: Context, st: State, k: Key): (State, bool) {
    if k in st.provided || k in c.available then (st.(provided := st.provided[k := true]), true) else (st, false)
  }

  /** The key loop from index i on; the last component says that the threshold was reached. */
  function CheckKeys(c: Context, st: State, auth: Authority, i: nat, total: nat): (State, nat, bool)
    requires i <= |auth.keyAuths|
    decreases |auth.keyAuths| - i
  {
    if i == |auth.keyAuths| then (st, total, false)
    else
      var (st1, signed) := SignedBy(c, st, auth.keyAuths[i].0);
      var total1 := if signed then total + auth.keyAuths[i].1 else total;
      if signed && total1 >= auth.threshold then (st1, total1, true)
      else CheckKeys(c, st1, auth, i + 1, total1)
  }

  /** The account loop from index i on. */
  function CheckAccounts(c: Context, st: State, auth: Authority, i: nat, total: nat, depth: nat): (State, bool)
    requires depth <= c.maxRecursion && i <= |auth.accountAuths|
    decreases c.maxRecursion - depth, 1, |auth.accountAuths| - i
  {
    if i == |auth.accountAuths| then (st, total >= auth.threshold)
    else
      var (a, weight) := auth.accountAuths[i];
      if a in st.approved then
        if total + weight >= auth.threshold then (st, true)
        else CheckAccounts(c, st, auth, i + 1, total + weight, depth)
      else if depth == c.maxRecursion then CheckAccounts(c, st, auth, i + 1, total, depth)
      else
        var (st1, ok) := Check(c, st, c.getActive(a), depth + 1);
        if !ok then CheckAccounts(c, st1, auth, i + 1, total, depth)
        else
          var st2 := st1.(approved := st1.approved[a := true]);
          if total + weight >= auth.threshold then (st2, true)
          else CheckAccounts(c, st2, auth, i + 1, total + weight, depth)
  }

  function Check(c: Context, st: State, auth: Authority, depth: nat): (State, bool)
    requires depth <= c.maxRecursion
    decreases c.maxRecursion - depth, 2
  {
    var (st1, total, done) := CheckKeys(c, st, auth, 0, 0);
    if done then (st1, true) else CheckAccounts(c, st1, auth, 0, total, depth)
  }

  // ---------- what every step keeps ----------

  /** Signatures are never lost, only marked used; approvals only grow; nothing becomes signed that was not. */
  ghost predicate Grows(c: Context, st: State, st1: State) {
    && UsedKeys(st) <= UsedKeys(st1) && SignedKeys(c, st1) == SignedKeys(c, st)
    && st.approved.Keys <= st1.approved.Keys
  }

  /** Every approval was granted at the start or is justified, at some depth, by signatures marked used. */
  ghost predicate Justified(c: Context, granted: set<Name>, st: State) {
    && granted <= st.approved.Keys
    && forall a :: a in st.approved && a !in granted ==>
                     exists n: nat :: Satisfied(c, UsedKeys(st), granted, c.getActive(a), n)
  }

  /** The running total never exceeds what the pure definition counts, at depth n, with the signatures used so far. */
  ghost predicate Backed(
    c: Context, granted: set<Name>, st: State, auth: Authority, keys: nat, accounts: nat, total: nat, n: nat)
    requires keys <= |auth.keyAuths| && accounts <= |auth.accountAuths|
  {
    total <= KeyWeight(UsedKeys(st), auth, keys) + AccountWeight(c, UsedKeys(st), granted, auth, accounts, n)
  }

  lemma BackedGrows(
    c: Context, granted: set<Name>, st: State, st1: State, auth: Authority, keys: nat, accounts: nat, total: nat,
    n: nat, m: nat)
    requires keys <= |auth.keyAuths| && accounts <= |auth.accountAuths| && Grows(c, st, st1) && n <= m
    requires Backed(c, granted, st, auth, keys, accounts, total, n)
    ensures Backed(c, granted, st1, auth, keys, accounts, total, m)
  {
    KeyWeightMonotone(UsedKeys(st), UsedKeys(st1), auth, keys);
    AccountWeightMonotone(c, UsedKeys(st), UsedKeys(st1), granted, granted, auth, accounts, n, m);
  }

  lemma JustifiedGrows(c: Context, granted: set<Name>, st: State, st1: State)
    requires Justified(c, granted, st) && Grows(c, st, st1) && st1.approved == st.approved
    ensures Justified(c, granted, st1)
  {
    forall a | a in st1.approved && a !in granted
      ensures exists n: nat :: Satisfied(c, UsedKeys(st1), granted, c.getActive(a), n)
    {
      var n: nat :| Satisfied(c, UsedKeys(st), granted, c.getActive(a), n);
      SatisfiedMonotone(c, UsedKeys(st), UsedKeys(st1), granted, granted, c.getActive(a), n, n);
    }
  }

  lemma {:induction false} KeysSound(
    c: Context, granted: set<Name>, st: State, auth: Authority, i: nat, total: nat)
    requires i <= |auth.keyAuths| && Justified(c, granted, st)
    requires Backed(c, granted, st, auth, i, 0, total, 0)
    ensures var (st1, total1, done) := CheckKeys(c, st, auth, i, total);
            && Grows(c, st, st1) && st1.approved == st.approved && Justified(c, granted, st1)
            && Backed(c, granted, st1, auth, |auth.keyAuths|, 0, total1, 0)
            && (done ==> total1 >= auth.threshold)
    decreases |auth.keyAuths| - i
  {
    if i < |auth.keyAuths| {
      var (st1, signed) := SignedBy(c, st, auth.keyAuths[i].0);
      assert Grows(c, st, st1);
      JustifiedGrows(c, granted, st, st1);
      BackedGrows(c, granted, st, st1, auth, i, 0, total, 0, 0);
      assert signed ==> auth.keyAuths[i].0 in UsedKeys(st1);
      var total1 := if signed then total + auth.keyAuths[i].1 else total;
      if signed && total1 >= auth.threshold {
        KeyWeightPrefix(UsedKeys(st1), auth, i + 1, |auth.keyAuths|);
      } else {
        KeysSound(c, granted, st1, auth, i + 1, total1);
      }
    }
  }

  lemma {:induction false} KeyWeightPrefix(signed: set<Key>, auth: Authority, i: nat, j: nat)
    requires i <= j <= |auth.keyAuths|
    ensures KeyWeight(signed, auth, i) <= KeyWeight(signed, auth, j)
    decreases j
  {
    if i < j {
      KeyWeightPrefix(signed, auth, i, j - 1);
    }
  }

  lemma {:induction false} AccountWeightPrefix(
    c: Context, signed: set<Key>, granted: set<Name>, auth: Authority, i: nat, j: nat, n: nat)
    requires i <= j <= |auth.accountAuths|
    ensures AccountWeight(c, signed, granted, auth, i, n) <= AccountWeight(c, signed, granted, auth, j, n)
    decreases j
  {
    if i < j {
      AccountWeightPrefix(c, signed, granted, auth, i, j - 1, n);
    }
  }

  /** Counting an account that is justified keeps the total backed, one level deeper if need be. */
  lemma BackedByAccount(c: Context, granted: set<Name>, st: State, auth: Authority, i: nat, total: nat, n: nat)
    returns (m: nat)
    requires i < |auth.accountAuths| && Justified(c, granted, st)
    requires Backed(c, granted, st, auth, |auth.keyAuths|, i, total, n)
    requires auth.accountAuths[i].0 in st.approved
    ensures Backed(c, granted, st, auth, |auth.keyAuths|, i + 1, total + auth.accountAuths[i].1, m)
  {
    var a := auth.accountAuths[i].0;
    var d: nat := 0;
    if a !in granted {
      d :| Satisfied(c, UsedKeys(st), granted, c.getActive(a), d);
    }
    m := Max(n, d + 1);
    BackedGrows(c, granted, st, st, auth, |auth.keyAuths|, i, total, n, m);
    if a !in granted {
      SatisfiedMonotone(c, UsedKeys(st), UsedKeys(st), granted, granted, c.getActive(a), d, m - 1);
    }
    assert Counts(c, UsedKeys(st), granted, a, m);
  }

  lemma BackedIsSatisfied(c: Context, granted: set<Name>, st: State, auth: Authority, i: nat, total: nat, n: nat)
    requires i <= |auth.accountAuths| && total >= auth.threshold
    requires Backed(c, granted, st, auth, |auth.keyAuths|, i, total, n)
    ensures Satisfied(c, UsedKeys(st), granted, auth, n)
  {
    AccountWeightPrefix(c, UsedKeys(st), granted, auth, i, |auth.accountAuths|, n);
  }

  ghost predicate SoundResult(c: Context, granted: set<Name>, st: State, auth: Authority, st1: State, ok: bool) {
    && Grows(c, st, st1) && Justified(c, granted, st1)
    && (ok ==> exists n: nat :: Satisfied(c, UsedKeys(st1), granted, auth, n))
  }

  lemma SoundResultChain(
    c: Context, granted: set<Name>, st: State, st1: State, auth: Authority, st2: State, ok: bool)
    requires Grows(c, st, st1) && SoundResult(c, granted, st1, auth, st2, ok)
    ensures SoundResult(c, granted, st, auth, st2, ok)
  {
  }

  lemma ApprovedAfter(c: Context, granted: set<Name>, st: State, a: Name) returns (st1: State)
    requires Justified(c, granted, st) && exists n: nat :: Satisfied(c, UsedKeys(st), granted, c.getActive(a), n)
    ensures st1 == st.(approved := st.approved[a := true])
    ensures Justified(c, granted, st1) && Grows(c, st, st1)
  {
    st1 := st.(approved := st.approved[a := true]);
    assert UsedKeys(st1) == UsedKeys(st);
    forall b | b in st1.approved && b !in granted
      ensures exists n: nat :: Satisfied(c, UsedKeys(st1), granted, c.getActive(b), n)
    {
    }
  }

  /** Account i is approved in st: counting it, then the rest of the loop. */
  lemma {:induction false} CountedSound(
    c: Context, granted: set<Name>, st: State, auth: Authority, i: nat, total: nat, depth: nat, n: nat)
    requires depth <= c.maxRecursion && i < |auth.accountAuths| && Justified(c, granted, st)
    requires auth.accountAuths[i].0 in st.approved
    requires Backed(c, granted, st, auth, |auth.keyAuths|, i, total, n)
    ensures var (st1, ok) := CheckAccounts(c, st, auth, i, total, depth);
            SoundResult(c, granted, st, auth, st1, ok)
    decreases c.maxRecursion - depth, 1, |auth.accountAuths| - i, 0
  {
    var weight := auth.accountAuths[i].1;
    var m := BackedByAccount(c, granted, st, auth, i, total, n);
    if total + weight >= auth.threshold {
      BackedIsSatisfied(c, granted, st, auth, i + 1, total + weight, m);
    } else {
      AccountsSound(c, granted, st, auth, i + 1, total + weight, depth, m);
    }
  }

  lemma {:induction false} AccountsSound(
    c: Context, granted: set<Name>, st: State, auth: Authority, i: nat, total: nat, depth: nat, n: nat)
    requires depth <= c.maxRecursion && i <= |auth.accountAuths| && Justified(c, granted, st)
    requires Backed(c, granted, st, auth, |auth.keyAuths|, i, total, n)
    ensures var (st1, ok) := CheckAccounts(c, st, auth, i, total, depth);
            SoundResult(c, granted, st, auth, st1, ok)
    decreases c.maxRecursion - depth, 1, |auth.accountAuths| - i, 1
  {
    if i == |auth.accountAuths| {
      if total >= auth.threshold {
        BackedIsSatisfied(c, granted, st, auth, i, total, n);
      }
    } else if auth.accountAuths[i].0 in st.approved {
      CountedSound(c, granted, st, auth, i, total, depth, n);
    } else if depth == c.maxRecursion {
      AccountsSound(c, granted, st, auth, i + 1, total, depth, n);
    } else {
      var a := auth.accountAuths[i].0;
      CheckSound(c, granted, st, c.getActive(a), depth + 1);
      var (st1, ok) := Check(c, st, c.getActive(a), depth + 1);
      BackedGrows(c, granted, st, st1, auth, |auth.keyAuths|, i, total, n, n);
      if !ok {
        AccountsSound(c, granted, st1, auth, i + 1, total, depth, n);
        var (st3, ok3) := CheckAccounts(c, st1, auth, i + 1, total, depth);
        SoundResultChain(c, granted, st, st1, auth, st3, ok3);
      } else {
        var st2 := ApprovedAfter(c, granted, st1, a);
        BackedGrows(c, granted, st1, st2, auth, |auth.keyAuths|, i, total, n, n);
        CountedSound(c, granted, st2, auth, i, total, depth, n);
        var (st3, ok3) := CheckAccounts(c, st2, auth, i, total, depth);
        SoundResultChain(c, granted, st, st2, auth, st3, ok3);
      }
    }
  }

  /** Upper half of the sandwich: a positive answer is earned, at some finite depth, by signatures marked used. */
  lemma {:induction false} CheckSound(c: Context, granted: set<Name>, st: State, auth: Authority, depth: nat)
    requires depth <= c.maxRecursion && Justified(c, granted, st)
    ensures var (st1, ok) := Check(c, st, auth, depth);
            SoundResult(c, granted, st, auth, st1, ok)
    decreases c.maxRecursion - depth, 2
  {
    KeysSound(c, granted, st, auth, 0, 0);
    var (st1, total, done) := CheckKeys(c, st, auth, 0, 0);
    if done {
      BackedIsSatisfied(c, granted, st1, auth, 0, total, 0);
    } else {
      AccountsSound(c, granted, st1, auth, 0, total, depth, 0);
      var (st2, ok) := CheckAccounts(c, st1, auth, 0, total, depth);
      SoundResultChain(c, granted, st, st1, auth, st2, ok);
    }
  }

  lemma {:induction false} KeysComplete(c: Context, st: State, auth: Authority, i: nat, total: nat)
    requires i <= |auth.keyAuths| && total >= KeyWeight(SignedKeys(c, st), auth, i)
    ensures var (st1, total1, done) := CheckKeys(c, st, auth, i, total);
            && SignedKeys(c, st1) == SignedKeys(c, st) && st1.approved == st.approved
            && (!done ==> total1 >= KeyWeight(SignedKeys(c, st), auth, |auth.keyAuths|))
    decreases |auth.keyAuths| - i
  {
    if i < |auth.keyAuths| {
      var (st1, signed) := SignedBy(c, st, auth.keyAuths[i].0);
      assert SignedKeys(c, st1) == SignedKeys(c, st);
      var total1 := if signed then total + auth.keyAuths[i].1 else total;
      if !(signed && total1 >= auth.threshold) {
        KeysComplete(c, st1, auth, i + 1, total1);
      }
    }
  }

  lemma {:induction false} AccountsComplete(
    c: Context, signed: set<Key>, granted: set<Name>, st: State, auth: Authority, i: nat, total: nat, depth: nat)
    requires depth <= c.maxRecursion && i <= |auth.accountAuths|
    requires signed == SignedKeys(c, st) && granted <= st.approved.Keys
    requires total >= KeyWeight(signed, auth, |auth.keyAuths|)
                      + AccountWeight(c, signed, granted, auth, i, c.maxRecursion - depth)
    ensures var (st1, ok) := CheckAccounts(c, st, auth, i, total, depth);
            && SignedKeys(c, st1) == signed && granted <= st1.approved.Keys
            && (Satisfied(c, signed, granted, auth, c.maxRecursion - depth) ==> ok)
    decreases c.maxRecursion - depth, 1, |auth.accountAuths| - i
  {
    if i < |auth.accountAuths| {
      var (a, weight) := auth.accountAuths[i];
      if a in st.approved {
        if total + weight < auth.threshold {
          AccountsComplete(c, signed, granted, st, auth, i + 1, total + weight, depth);
        }
      } else if depth == c.maxRecursion {
        AccountsComplete(c, signed, granted, st, auth, i + 1, total, depth);
      } else {
        CheckComplete(c, signed, granted, st, c.getActive(a), depth + 1);
        var (st1, ok) := Check(c, st, c.getActive(a), depth + 1);
        if !ok {
          AccountsComplete(c, signed, granted, st1, auth, i + 1, total, depth);
        } else if total + weight < auth.threshold {
          var st2 := st1.(approved := st1.approved[a := true]);
          AccountsComplete(c, signed, granted, st2, auth, i + 1, total + weight, depth);
        }
      }
    }
  }

  /** Lower half of the sandwich: whatever the definition grants within the remaining depth, the check grants. */
  lemma {:induction false} CheckComplete(
    c: Context, signed: set<Key>, granted: set<Name>, st: State, auth: Authority, depth: nat)
    requires depth <= c.maxRecursion && signed == SignedKeys(c, st) && granted <= st.approved.Keys
    ensures var (st1, ok) := Check(c, st, auth, depth);
            && SignedKeys(c, st1) == signed && granted <= st1.approved.Keys
            && (Satisfied(c, signed, granted, auth, c.maxRecursion - depth) ==> ok)
    decreases c.maxRecursion - depth, 2
  {
    KeysComplete(c, st, auth, 0, 0);
    var (st1, total, done) := CheckKeys(c, st, auth, 0, 0);
    if !done {
      AccountsComplete(c, signed, granted, st1, auth, 0, total, depth);
    }
  }

  // ---------- a whole verification: many requests against one state ----------

  datatype Request = ById(id: Name) | ByAuthority(auth: Authority)

  function AuthorityOf(c: Context, r: Request): Authority {
    if r.ById? then c.getActive(r.id) else r.auth
  }

  /** The account overload answers from the approvals before it looks at the authority. */
  function Answer(c: Context, st: State, r: Request): (State, bool) {
    match r
    case ByAuthority(auth) => Check(c, st, auth, 0)
    case ById(id) =>
      if id in st.approved then (st.(approved := st.approved[id := true]), true)
      else Check(c, st, c.getActive(id), 0)
  }

  function Serve(c: Context, st: State, rs: seq<Request>): (State, seq<bool>)
    decreases |rs|
  {
    if rs == [] then (st, [])
    else
      var (st1, ok) := Answer(c, st, rs[0]);
      var (st2, oks) := Serve(c, st1, rs[1..]);
      (st2, [ok] + oks)
  }

  ghost predicate Meets(c: Context, signed: set<Key>, granted: set<Name>, r: Request, n: nat) {
    match r
    case ByAuthority(auth) => Satisfied(c, signed, granted, auth, n)
    case ById(id) => id in granted || Satisfied(c, signed, granted, c.getActive(id), n)
  }

  lemma AnswerSandwich(c: Context, granted: set<Name>, st: State, r: Request)
    requires Justified(c, granted, st)
    ensures var (st1, ok) := Answer(c, st, r);
            && Grows(c, st, st1) && Justified(c, granted, st1)
            && (ok ==> exists n: nat :: Meets(c, UsedKeys(st1), granted, r, n))
            && (Meets(c, SignedKeys(c, st), granted, r, c.maxRecursion) ==> ok)
  {
    var auth := if r.ById? then c.getActive(r.id) else r.auth;
    if r.ById? && r.id in st.approved {
      var (st1, ok) := Answer(c, st, r);
      assert UsedKeys(st1) == UsedKeys(st) && st1.approved.Keys == st.approved.Keys;
      JustifiedSameKeys(c, granted, st, st1);
      if r.id !in granted {
        var n: nat :| Satisfied(c, UsedKeys(st), granted, c.getActive(r.id), n);
        assert Meets(c, UsedKeys(st1), granted, r, n);
      } else {
        assert Meets(c, UsedKeys(st1), granted, r, 0);
      }
    } else {
      CheckSound(c, granted, st, auth, 0);
      CheckComplete(c, SignedKeys(c, st), granted, st, auth, 0);
      var (st1, ok) := Answer(c, st, r);
      if ok {
        var n: nat :| Satisfied(c, UsedKeys(st1), granted, auth, n);
        assert Meets(c, UsedKeys(st1), granted, r, n);
      }
    }
  }

  lemma JustifiedSameKeys(c: Context, granted: set<Name>, st: State, st1: State)
    requires Justified(c, granted, st) && UsedKeys(st1) == UsedKeys(st) && st1.approved.Keys == st.approved.Keys
    ensures Justified(c, granted, st1)
  {
    forall a | a in st1.approved && a !in granted
      ensures exists n: nat :: Satisfied(c, UsedKeys(st1), granted, c.getActive(a), n)
    {
      assert a in st.approved;
    }
  }

  lemma MeetsMonotone(c: Context, signed: set<Key>, more: set<Key>, granted: set<Name>, r: Request, n: nat)
    requires signed <= more && Meets(c, signed, granted, r, n)
    ensures Meets(c, more, granted, r, n)
  {
    var auth := if r.ById? then c.getActive(r.id) else r.auth;
    if Satisfied(c, signed, granted, auth, n) {
      SatisfiedMonotone(c, signed, more, granted, granted, auth, n, n);
    }
  }

  /**
   The sandwich for every request of a run, over every authority graph: a request that the definition
   grants within the depth limit is granted; one that is granted is granted by the definition at some
   depth, and the signatures left marked used are enough for that.
   */
  lemma {:induction false} EveryAnswerIsSandwiched(c: Context, granted: set<Name>, st: State, rs: seq<Request>, i: nat)
    requires Justified(c, granted, st) && i < |rs|
    ensures var (st1, oks) := Serve(c, st, rs);
            && |oks| == |rs| && Grows(c, st, st1) && Justified(c, granted, st1)
            && (oks[i] ==> exists n: nat :: Meets(c, UsedKeys(st1), granted, rs[i], n))
            && (Meets(c, SignedKeys(c, st), granted, rs[i], c.maxRecursion) ==> oks[i])
    decreases |rs|
  {
    AnswerSandwich(c, granted, st, rs[0]);
    var (st1, ok) := Answer(c, st, rs[0]);
    var (st2, oks) := Serve(c, st1, rs[1..]);
    if |rs| == 1 {
      assert rs[1..] == [];
    } else {
      EveryAnswerIsSandwiched(c, granted, st1, rs[1..], if i == 0 then 0 else i - 1);
      if i == 0 && ok {
        var n: nat :| Meets(c, UsedKeys(st1), granted, rs[0], n);
        MeetsMonotone(c, UsedKeys(st1), UsedKeys(st2), granted, rs[0], n);
      }
    }
  }

  // ---------- which signatures are used ----------

  /** Key k is one of auth's own, or of an authority at most n account links away. */
  predicate Concerns(c: Context, auth: Authority, n: nat, k: Key)
    decreases n
  {
    || (exists i :: 0 <= i < |auth.keyAuths| && auth.keyAuths[i].0 == k)
    || (0 < n && exists i :: 0 <= i < |auth.accountAuths| && Concerns(c, c.getActive(auth.accountAuths[i].0), n - 1, k))
  }

  /** Only the keys looked at are marked used: those of the list from index i on. */
  lemma {:induction false} KeysUse(c: Context, st: State, auth: Authority, i: nat, total: nat, k: Key)
    requires i <= |auth.keyAuths| && k !in UsedKeys(st) && k in UsedKeys(CheckKeys(c, st, auth, i, total).0)
    ensures exists j :: i <= j < |auth.keyAuths| && auth.keyAuths[j].0 == k
    decreases |auth.keyAuths| - i
  {
    if i < |auth.keyAuths| {
      var (st1, signed) := SignedBy(c, st, auth.keyAuths[i].0);
      if k !in UsedKeys(st1) {
        KeysUse(c, st1, auth, i + 1, if signed then total + auth.keyAuths[i].1 else total, k);
      }
    }
  }

  lemma {:induction false} AccountsUse(
    c: Context, st: State, auth: Authority, i: nat, total: nat, depth: nat, k: Key)
    requires depth <= c.maxRecursion && i <= |auth.accountAuths|
    requires k !in UsedKeys(st) && k in UsedKeys(CheckAccounts(c, st, auth, i, total, depth).0)
    ensures depth < c.maxRecursion
            && exists j :: i <= j < |auth.accountAuths|
                           && Concerns(c, c.getActive(auth.accountAuths[j].0), c.maxRecursion - depth - 1, k)
    decreases c.maxRecursion - depth, 1, |auth.accountAuths| - i
  {
    if i < |auth.accountAuths| {
      var (a, weight) := auth.accountAuths[i];
      if a in st.approved {
        AccountsUse(c, st, auth, i + 1, total + weight, depth, k);
      } else if depth == c.maxRecursion {
        AccountsUse(c, st, auth, i + 1, total, depth, k);
      } else {
        var (st1, ok) := Check(c, st, c.getActive(a), depth + 1);
        if k in UsedKeys(st1) {
          CheckUses(c, st, c.getActive(a), depth + 1, k);
        } else if !ok {
          AccountsUse(c, st1, auth, i + 1, total, depth, k);
        } else {
          var st2 := st1.(approved := st1.approved[a := true]);
          AccountsUse(c, st2, auth, i + 1, total + weight, depth, k);
        }
      }
    }
  }

  /** A check marks no key that does not concern its authority within the remaining depth. */
  lemma {:induction false} CheckUses(c: Context, st: State, auth: Authority, depth: nat, k: Key)
    requires depth <= c.maxRecursion && k !in UsedKeys(st) && k in UsedKeys(Check(c, st, auth, depth).0)
    ensures Concerns(c, auth, c.maxRecursion - depth, k)
    decreases c.maxRecursion - depth, 2
  {
    var (st1, total, done) := CheckKeys(c, st, auth, 0, 0);
    if k in UsedKeys(st1) {
      KeysUse(c, st, auth, 0, 0, k);
    } else {
      AccountsUse(c, st1, auth, 0, total, depth, k);
    }
  }

  lemma CheckUsesOnly(c: Context, st: State, auth: Authority, depth: nat)
    requires depth <= c.maxRecursion
    ensures forall k :: k in UsedKeys(Check(c, st, auth, depth).0) - UsedKeys(st) ==>
                          Concerns(c, auth, c.maxRecursion - depth, k)
  {
    hide *;
    forall k | k in UsedKeys(Check(c, st, auth, depth).0) - UsedKeys(st)
      ensures Concerns(c, auth, c.maxRecursion - depth, k)
    {
      CheckUses(c, st, auth, depth, k);
    }
  }

  /** The keys used on the way to the threshold: when the first i keys reach it, none after them is marked. */
  lemma {:induction false} KeysStop(c: Context, st: State, auth: Authority, from: nat, i: nat, total: nat, k: Key)
    requires from < i <= |auth.keyAuths| && total < auth.threshold
    requires total + KeyWeight(SignedKeys(c, st), auth, i) - KeyWeight(SignedKeys(c, st), auth, from) >= auth.threshold
    requires k !in UsedKeys(st) && k in UsedKeys(CheckKeys(c, st, auth, from, total).0)
    ensures CheckKeys(c, st, auth, from, total).2
    ensures exists j :: from <= j < i && auth.keyAuths[j].0 == k
    decreases i - from
  {
    var (st1, signed) := SignedBy(c, st, auth.keyAuths[from].0);
    var total1 := if signed then total + auth.keyAuths[from].1 else total;
    assert SignedKeys(c, st1) == SignedKeys(c, st);
    if !(signed && total1 >= auth.threshold) {
      assert from + 1 < i;
      if k in UsedKeys(st1) {
        StopsEarly(c, st1, auth, from + 1, i, total1);
      } else {
        KeysStop(c, st1, auth, from + 1, i, total1, k);
      }
    }
  }

  lemma {:induction false} StopsEarly(c: Context, st: State, auth: Authority, from: nat, i: nat, total: nat)
    requires from < i <= |auth.keyAuths| && total < auth.threshold
    requires total + KeyWeight(SignedKeys(c, st), auth, i) - KeyWeight(SignedKeys(c, st), auth, from) >= auth.threshold
    ensures CheckKeys(c, st, auth, from, total).2
    decreases i - from
  {
    var (st1, signed) := SignedBy(c, st, auth.keyAuths[from].0);
    var total1 := if signed then total + auth.keyAuths[from].1 else total;
    assert SignedKeys(c, st1) == SignedKeys(c, st);
    if !(signed && total1 >= auth.threshold) {
      assert from + 1 < i;
      StopsEarly(c, st1, auth, from + 1, i, total1);
    }
  }

  /** So in a whole check: a signature that is not needed for a threshold met by the keys before it stays unused. */
  lemma UsesNoMoreKeys(c: Context, st: State, auth: Authority, i: nat, depth: nat, k: Key)
    requires depth <= c.maxRecursion && i <= |auth.keyAuths|
    requires 0 < auth.threshold <= KeyWeight(SignedKeys(c, st), auth, i)
    requires k !in UsedKeys(st) && k in UsedKeys(Check(c, st, auth, depth).0)
    ensures exists j :: 0 <= j < i && auth.keyAuths[j].0 == k
  {
    StopsEarly(c, st, auth, 0, i, 0);
    KeysStop(c, st, auth, 0, i, 0, k);
  }

  /** In a whole series every newly used signature concerns one of the requests. */
  lemma {:induction false} ServeUses(c: Context, st: State, rs: seq<Request>, k: Key)
    requires k !in UsedKeys(st) && k in UsedKeys(Serve(c, st, rs).0)
    ensures exists i :: 0 <= i < |rs| && Concerns(c, AuthorityOf(c, rs[i]), c.maxRecursion, k)
    decreases |rs|
  {
    if rs != [] {
      var st1 := Answer(c, st, rs[0]).0;
      if k in UsedKeys(st1) {
        CheckUses(c, st, AuthorityOf(c, rs[0]), 0, k);
        assert Concerns(c, AuthorityOf(c, rs[0]), c.maxRecursion, k);
      } else {
        ServeUses(c, st1, rs[1..], k);
        var i :| 0 <= i < |rs[1..]| && Concerns(c, AuthorityOf(c, rs[1..][i]), c.maxRecursion, k);
        assert rs[i + 1] == rs[1..][i];
      }
    }
  }

  /** The state a verification starts with: signatures not used yet, and the approval every transaction has. */
  function Initial(sigs: set<Key>): State {
    State(map k | k in sigs :: false, map["temp" := true])
  }

  /** A signature that concerns none of the requests is unused at the end, so it is removed as unused. */
  lemma IrrelevantIsUnused(c: Context, sigs: set<Key>, rs: seq<Request>, k: Key)
    requires k in sigs && forall i :: 0 <= i < |rs| ==> !Concerns(c, AuthorityOf(c, rs[i]), c.maxRecursion, k)
    ensures k !in UsedKeys(Serve(c, Initial(sigs), rs).0)
  {
    if k in UsedKeys(Serve(c, Initial(sigs), rs).0) {
      ServeUses(c, Initial(sigs), rs, k);
    }
  }

  // ---------- the gap between the two halves is real ----------

  const SAMPLE_LEAF := Authority(1, [], [("key", 1)])
  const SAMPLE_MIDDLE := Authority(1, [("leaf", 1)], [])
  const SAMPLE_DIRECT := Authority(1, [("leaf", 1)], [])
  const SAMPLE_DEEP := Authority(1, [("middle", 1)], [])

  const SAMPLE_CONTEXT := Context((a: Name) => if a == "leaf" then SAMPLE_LEAF else SAMPLE_MIDDLE, {}, 1)

  const SAMPLE_STATE := State(map["key" := false], map[])

  /** Two levels deep with a limit of one: refused on its own, granted once an earlier request has cached the leaf. */
  lemma AnswersDependOnOrder()
    ensures !Satisfied(SAMPLE_CONTEXT, {"key"}, {}, SAMPLE_DEEP, SAMPLE_CONTEXT.maxRecursion)
    ensures Serve(SAMPLE_CONTEXT, SAMPLE_STATE, [ByAuthority(SAMPLE_DIRECT), ByAuthority(SAMPLE_DEEP)]).1
            == [true, true]
    ensures Serve(SAMPLE_CONTEXT, SAMPLE_STATE, [ByAuthority(SAMPLE_DEEP), ByAuthority(SAMPLE_DIRECT)]).1
            == [false, true]
  {
    var c, st := SAMPLE_CONTEXT, SAMPLE_STATE;
    var st1 := State(map["key" := true], map[]);
    var st2 := State(map["key" := true], map["leaf" := true]);
    assert st.provided["key" := true] == st1.provided;
    assert SignedBy(c, st, "key") == (st1, true);
    assert CheckKeys(c, st, SAMPLE_LEAF, 0, 0) == (st1, 1, true);
    assert Check(c, st, SAMPLE_LEAF, 1) == (st1, true);
    assert Check(c, st, SAMPLE_DIRECT, 0) == (st2, true);
    assert CheckAccounts(c, st2, SAMPLE_MIDDLE, 0, 0, 1) == (st2, true);
    assert Check(c, st2, SAMPLE_MIDDLE, 1) == (st2, true);
    assert Check(c, st2, SAMPLE_DEEP, 0).1;
    assert CheckAccounts(c, st, SAMPLE_MIDDLE, 1, 0, 1) == (st, false);
    assert CheckAccounts(c, st, SAMPLE_MIDDLE, 0, 0, 1) == (st, false);
    assert Check(c, st, SAMPLE_MIDDLE, 1) == (st, false);
    assert CheckAccounts(c, st, SAMPLE_DEEP, 1, 0, 0) == (st, false);
    assert Check(c, st, SAMPLE_DEEP, 0) == (st, false);
    ServeTwo(c, st, ByAuthority(SAMPLE_DIRECT), ByAuthority(SAMPLE_DEEP));
    ServeTwo(c, st, ByAuthority(SAMPLE_DEEP), ByAuthority(SAMPLE_DIRECT));
  }

  lemma ServeTwo(c: Context, st: State, r: Request, q: Request)
    ensures var (st1, ok) := Answer(c, st, r);
            Serve(c, st, [r, q]).1 == [ok, Answer(c, st1, q).1]
  {
    var (st1, ok) := Answer(c, st, r);
    assert [r, q][1..] == [q] && [q][1..] == [];
    assert Serve(c, st1, [q]).1 == [Answer(c, st1, q).1];
  }

  // ---------- the object ----------

  class SignChecker {
    const context: Context
    var provided: map<Key, bool>
    var approved: map<Name, bool>

    constructor (c: Context, sigs: set<Key>)
      ensures context == c && View() == Initial(sigs)
    {
      context := c;
      provided := map k | k in sigs :: false;
      approved := map["temp" := true];
    }

    ghost function View(): State
      reads this
    {
      State(provided, approved)
    }

    method IsSignedBy(k: Key) returns (signed: bool)
      modifies this
      ensures (View(), signed) == SignedBy(context, old(View()), k)
      ensures signed == (k in SignedKeys(context, old(View()))) && approved == old(approved)
      ensures UsedKeys(View()) == UsedKeys(old(View())) + if signed then {k} else {}
    {
      if k !in provided {
        if k in context.available {
          provided := provided[k := true];
          return true;
        }
        return false;
      }
      provided := provided[k := true];
      return true;
    }

    method CheckAuthority(auth: Authority, depth: nat) returns (ok: bool)
      requires depth <= context.maxRecursion
      modifies this
      ensures (View(), ok) == Check(context, old(View()), auth, depth)
      ensures forall k :: k in UsedKeys(View()) - UsedKeys(old(View())) ==>
                            Concerns(context, auth, context.maxRecursion - depth, k)
      decreases context.maxRecursion - depth
    {
      CheckUsesOnly(context, View(), auth, depth);
      hide Concerns, UsedKeys;
      var totalWeight: nat := 0;
      var i := 0;
      while i < |auth.keyAuths|
        invariant 0 <= i <= |auth.keyAuths|
        invariant CheckKeys(context, old(View()), auth, 0, 0) == CheckKeys(context, View(), auth, i, totalWeight)
      {
        var signed := IsSignedBy(auth.keyAuths[i].0);
        if signed {
          totalWeight := totalWeight + auth.keyAuths[i].1;
          if totalWeight >= auth.threshold {
            return true;
          }
        }
        i := i + 1;
      }
      i := 0;
      while i < |auth.accountAuths|
        invariant 0 <= i <= |auth.accountAuths|
        invariant Check(context, old(View()), auth, depth)
          == CheckAccounts(context, View(), auth, i, totalWeight, depth)
      {
        var (a, weight) := auth.accountAuths[i];
        if a !in approved {
          if depth != context.maxRecursion {
            var nested := CheckAuthority(context.getActive(a), depth + 1);
            if nested {
              approved := approved[a := true];
              totalWeight := totalWeight + weight;
              if totalWeight >= auth.threshold {
                return true;
              }
            }
          }
        } else {
          totalWeight := totalWeight + weight;
          if totalWeight >= auth.threshold {
            return true;
          }
        }
        i := i + 1;
      }
      return totalWeight >= auth.threshold;
    }

    method CheckAccount(id: Name) returns (ok: bool)
      modifies this
      ensures (View(), ok) == Answer(context, old(View()), ById(id))
      ensures forall k :: k in UsedKeys(View()) - UsedKeys(old(View())) ==>
                            Concerns(context, context.getActive(id), context.maxRecursion, k)
    {
      if id in approved {
        approved := approved[id := true];
        return true;
      }
      ok := CheckAuthority(context.getActive(id), 0);
    }

    /** Keeps exactly the signatures that some check has used. */
    method RemoveUnusedSignatures() returns (removed: bool)
      modifies this
      ensures provided.Keys == UsedKeys(old(View())) == UsedKeys(View())
      ensures approved == old(approved)
      ensures removed == (old(provided).Keys != UsedKeys(old(View())))
    {
      var unused: set<Key> := {};
      var pending := provided.Keys;
      while pending != {}
        invariant pending <= provided.Keys && provided == old(provided) && approved == old(approved)
        invariant unused == set k | k in provided && k !in pending && !provided[k]
        decreases |pending|
      {
        var k :| k in pending;
        if !provided[k] {
          unused := unused + {k};
        }
        pending := pending - {k};
      }
      provided := map k | k in provided && k !in unused :: provided[k];
      removed := unused != {};
      assert provided.Keys == UsedKeys(old(View()));
      assert forall k :: k in old(provided).Keys - UsedKeys(old(View())) <==> k in unused;
    }
  }
}

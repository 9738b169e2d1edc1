/**
 When the cache of approved accounts makes no difference: the exact condition under which the answers to a
 request are the definition at the depth limit, whatever was asked before.
 */
module SignExact {
  import opened SignState

  /** Every chain of account authorities from auth ends within n levels, or at an account granted beforehand. */
  predicate EndsWithin(c: Context, granted: set<Name>, auth: Authority, n: nat)
    decreases n
  {
    forall i :: 0 <= i < |auth.accountAuths| ==>
      auth.accountAuths[i].0 in granted || (0 < n && EndsWithin(c, granted, c.getActive(auth.accountAuths[i].0), n - 1))
  }

  /** Where the chains end, more depth adds nothing. */
  lemma {:induction false} DepthIsEnough(
    c: Context, signed: set<Key>, granted: set<Name>, auth: Authority, n: nat, m: nat)
    requires EndsWithin(c, granted, auth, n) && n <= m && Satisfied(c, signed, granted, auth, m)
    ensures Satisfied(c, signed, granted, auth, n)
    decreases n, 2
  {
    WeightIsEnough(c, signed, granted, auth, |auth.accountAuths|, n, m);
  }

  lemma {:induction false} WeightIsEnough(
    c: Context, signed: set<Key>, granted: set<Name>, auth: Authority, i: nat, n: nat, m: nat)
    requires EndsWithin(c, granted, auth, n) && n <= m && i <= |auth.accountAuths|
    ensures AccountWeight(c, signed, granted, auth, i, m) <= AccountWeight(c, signed, granted, auth, i, n)
    decreases n, 1, i
  {
    if i > 0 {
      WeightIsEnough(c, signed, granted, auth, i - 1, n, m);
      var a := auth.accountAuths[i - 1].0;
      if a !in granted && Counts(c, signed, granted, a, m) {
        DepthIsEnough(c, signed, granted, c.getActive(a), n - 1, m - 1);
      }
    }
  }

  /** No depth grants more than the limit does. */
  ghost predicate LimitIsEnough(c: Context, signed: set<Key>, granted: set<Name>, r: Request) {
    forall n: nat :: Meets(c, signed, granted, r, n) ==> Meets(c, signed, granted, r, c.maxRecursion)
  }

  /** Which it does whenever all chains from the request end within the limit. */
  lemma ShortChainsAreEnough(c: Context, signed: set<Key>, granted: set<Name>, r: Request)
    requires EndsWithin(c, granted, AuthorityOf(c, r), c.maxRecursion)
    ensures LimitIsEnough(c, signed, granted, r)
  {
    forall n: nat | Meets(c, signed, granted, r, n)
      ensures Meets(c, signed, granted, r, c.maxRecursion)
    {
      var auth, max := AuthorityOf(c, r), c.maxRecursion;
      if Satisfied(c, signed, granted, auth, n) {
        if n <= max {
          SatisfiedMonotone(c, signed, signed, granted, granted, auth, n, max);
        } else {
          DepthIsEnough(c, signed, granted, auth, max, n);
        }
      }
    }
  }

  /** Then every answer, in every series, is exactly the definition at the limit. */
  lemma ExactWhenLimitIsEnough(c: Context, granted: set<Name>, st: State, rs: seq<Request>, i: nat)
    requires Justified(c, granted, st) && i < |rs| && LimitIsEnough(c, SignedKeys(c, st), granted, rs[i])
    ensures |Serve(c, st, rs).1| == |rs|
    ensures Serve(c, st, rs).1[i] == Meets(c, SignedKeys(c, st), granted, rs[i], c.maxRecursion)
  {
    EveryAnswerIsSandwiched(c, granted, st, rs, i);
    var (st1, oks) := Serve(c, st, rs);
    if oks[i] {
      var n: nat :| Meets(c, UsedKeys(st1), granted, rs[i], n);
      MeetsMonotone(c, UsedKeys(st1), SignedKeys(c, st1), granted, rs[i], n);
    }
  }

  /** In particular when the chains are short, which can be seen from the authorities alone. */
  lemma ExactOnShortChains(c: Context, granted: set<Name>, st: State, rs: seq<Request>, i: nat)
    requires Justified(c, granted, st) && i < |rs|
    requires EndsWithin(c, granted, AuthorityOf(c, rs[i]), c.maxRecursion)
    ensures |Serve(c, st, rs).1| == |rs|
    ensures Serve(c, st, rs).1[i] == Meets(c, SignedKeys(c, st), granted, rs[i], c.maxRecursion)
  {
    ShortChainsAreEnough(c, SignedKeys(c, st), granted, rs[i]);
    ExactWhenLimitIsEnough(c, granted, st, rs, i);
  }

  // ---------- and only then ----------

  function Single(a: Name): Request {
    ByAuthority(Authority(1, [(a, 1)], []))
  }

  /** Requests that have the members of auth, down to n levels, approved one by one from the bottom up. */
  function Preparation(c: Context, auth: Authority, i: nat, n: nat): seq<Request>
    requires i <= |auth.accountAuths|
    decreases n, i
  {
    if n == 0 || i == 0 then []
    else
      var a := auth.accountAuths[i - 1].0;
      var below := c.getActive(a);
      Preparation(c, auth, i - 1, n) + Preparation(c, below, |below.accountAuths|, n - 1) + [Single(a)]
  }

  /** No answer takes a signature or an approval away. */
  ghost predicate Keeps(c: Context, st: State, st1: State) {
    SignedKeys(c, st1) == SignedKeys(c, st) && st.approved.Keys <= st1.approved.Keys
  }

  lemma AnswerKeeps(c: Context, st: State, r: Request)
    ensures Keeps(c, st, Answer(c, st, r).0)
  {
    CheckComplete(c, SignedKeys(c, st), st.approved.Keys, st, AuthorityOf(c, r), 0);
  }

  lemma {:induction false} ServeKeeps(c: Context, st: State, rs: seq<Request>)
    ensures Keeps(c, st, Serve(c, st, rs).0) && |Serve(c, st, rs).1| == |rs|
    decreases |rs|
  {
    if rs != [] {
      AnswerKeeps(c, st, rs[0]);
      ServeKeeps(c, Answer(c, st, rs[0]).0, rs[1..]);
    }
  }

  lemma {:induction false} ServeConcat(c: Context, st: State, rs: seq<Request>, qs: seq<Request>)
    ensures var (st1, oks) := Serve(c, st, rs);
            var (st2, more) := Serve(c, st1, qs);
            Serve(c, st, rs + qs) == (st2, oks + more)
    decreases |rs|
  {
    if rs == [] {
      assert rs + qs == qs;
      assert Serve(c, st, rs) == (st, []);
      assert [] + Serve(c, st, qs).1 == Serve(c, st, qs).1;
    } else {
      assert (rs + qs)[0] == rs[0] && (rs + qs)[1..] == rs[1..] + qs;
      var (st1, ok) := Answer(c, st, rs[0]);
      ServeConcat(c, st1, rs[1..], qs);
      var (st2, oks) := Serve(c, st1, rs[1..]);
      var more := Serve(c, st2, qs).1;
      assert [ok] + (oks + more) == [ok] + oks + more;
    }
  }

  lemma ServeOne(c: Context, st: State, r: Request)
    ensures Serve(c, st, [r]) == (Answer(c, st, r).0, [Answer(c, st, r).1])
  {
    assert [r][1..] == [];
    var (st1, ok) := Answer(c, st, r);
    assert Serve(c, st1, []) == (st1, []);
    assert [ok] + [] == [ok];
  }

  /** The first i members of auth that count at depth n are approved. */
  ghost predicate Approved(
    c: Context, signed: set<Key>, granted: set<Name>, approved: set<Name>, auth: Authority, i: nat, n: nat)
    requires i <= |auth.accountAuths|
  {
    forall j :: 0 <= j < i && Counts(c, signed, granted, auth.accountAuths[j].0, n) ==>
                  auth.accountAuths[j].0 in approved
  }

  /** With its members approved, an authority needs no depth any more. */
  lemma {:induction false} ApprovedWeight(
    c: Context, signed: set<Key>, granted: set<Name>, approved: set<Name>, auth: Authority, i: nat, n: nat)
    requires i <= |auth.accountAuths| && Approved(c, signed, granted, approved, auth, i, n)
    ensures AccountWeight(c, signed, granted, auth, i, n) <= AccountWeight(c, signed, approved, auth, i, 0)
    decreases i
  {
    if i > 0 {
      ApprovedWeight(c, signed, granted, approved, auth, i - 1, n);
    }
  }

  lemma CheckAfterPreparation(
    c: Context, signed: set<Key>, granted: set<Name>, st: State, auth: Authority, n: nat, depth: nat)
    requires signed == SignedKeys(c, st) && depth <= c.maxRecursion && Satisfied(c, signed, granted, auth, n)
    requires Approved(c, signed, granted, st.approved.Keys, auth, |auth.accountAuths|, n)
    ensures Check(c, st, auth, depth).1
  {
    ApprovedWeight(c, signed, granted, st.approved.Keys, auth, |auth.accountAuths|, n);
    assert Satisfied(c, signed, st.approved.Keys, auth, 0);
    SatisfiedMonotone(c, signed, signed, st.approved.Keys, st.approved.Keys, auth, 0, c.maxRecursion - depth);
    CheckComplete(c, signed, st.approved.Keys, st, auth, depth);
  }

  /** A single request approves an account whose own authority passes one level down. */
  lemma SingleApproves(c: Context, st: State, a: Name)
    requires 1 <= c.maxRecursion && (a in st.approved || Check(c, st, c.getActive(a), 1).1)
    ensures a in Answer(c, st, Single(a)).0.approved
  {
    var auth := Single(a).auth;
    assert CheckKeys(c, st, auth, 0, 0) == (st, 0, false);
    assert Answer(c, st, Single(a)) == CheckAccounts(c, st, auth, 0, 0, 0);
    assert auth.accountAuths[0] == (a, 1);
    var (st1, ok) := Check(c, st, c.getActive(a), 1);
    hide Check, CheckKeys;
    if a !in st.approved {
      assert CheckAccounts(c, st, auth, 0, 0, 0) == (st1.(approved := st1.approved[a := true]), true);
    }
  }

  /** After its preparation every member of auth that counts at depth n is approved. */
  lemma {:induction false} PreparationApproves(
    c: Context, signed: set<Key>, granted: set<Name>, st: State, auth: Authority, i: nat, n: nat)
    requires 1 <= c.maxRecursion && signed == SignedKeys(c, st) && granted <= st.approved.Keys
            && i <= |auth.accountAuths|
    ensures var st1 := Serve(c, st, Preparation(c, auth, i, n)).0;
            Keeps(c, st, st1) && Approved(c, signed, granted, st1.approved.Keys, auth, i, n)
    decreases n, i
  {
    ServeKeeps(c, st, Preparation(c, auth, i, n));
    if 0 < n && 0 < i {
      var a := auth.accountAuths[i - 1].0;
      var below := c.getActive(a);
      var first, second := Preparation(c, auth, i - 1, n), Preparation(c, below, |below.accountAuths|, n - 1);
      var st1 := Serve(c, st, first).0;
      var st2 := Serve(c, st1, second).0;
      PreparationApproves(c, signed, granted, st, auth, i - 1, n);
      PreparationApproves(c, signed, granted, st1, below, |below.accountAuths|, n - 1);
      ServeConcat(c, st, first, second);
      ServeConcat(c, st, first + second, [Single(a)]);
      ServeOne(c, st2, Single(a));
      AnswerKeeps(c, st2, Single(a));
      hide Serve, Preparation, Check, Answer, Single;
      if Counts(c, signed, granted, a, n) {
        if a !in granted {
          CheckAfterPreparation(c, signed, granted, st2, below, n - 1, 1);
        }
        SingleApproves(c, st2, a);
      }
    }
  }

  /** A request that some depth grants is granted after a suitable series of other requests. */
  lemma GrantedAfterPreparation(c: Context, granted: set<Name>, st: State, r: Request, n: nat)
    requires 1 <= c.maxRecursion && granted <= st.approved.Keys && Meets(c, SignedKeys(c, st), granted, r, n)
    ensures var auth := AuthorityOf(c, r);
            var rs := Preparation(c, auth, |auth.accountAuths|, n);
            |Serve(c, st, rs + [r]).1| == |rs| + 1 && Serve(c, st, rs + [r]).1[|rs|]
  {
    var auth, signed := AuthorityOf(c, r), SignedKeys(c, st);
    var rs := Preparation(c, auth, |auth.accountAuths|, n);
    var st1 := Serve(c, st, rs).0;
    PreparationApproves(c, signed, granted, st, auth, |auth.accountAuths|, n);
    ServeKeeps(c, st, rs);
    ServeConcat(c, st, rs, [r]);
    ServeOne(c, st1, r);
    if Satisfied(c, signed, granted, auth, n) {
      CheckAfterPreparation(c, signed, granted, st1, auth, n, 0);
    }
    hide Serve, Preparation, Check;
  }

  /** All answers to r, in every series of requests, are the definition at the depth limit. */
  ghost predicate AlwaysExact(c: Context, granted: set<Name>, st: State, r: Request) {
    forall rs, i :: 0 <= i < |rs| && rs[i] == r ==>
      i < |Serve(c, st, rs).1| && Serve(c, st, rs).1[i] == Meets(c, SignedKeys(c, st), granted, r, c.maxRecursion)
  }

  /**
   The exact condition: the answers to a request never depend on what was asked before if and only if no
   depth beyond the limit would grant it.
   */
  lemma AnswersAreExactIff(c: Context, granted: set<Name>, st: State, r: Request)
    requires 1 <= c.maxRecursion && Justified(c, granted, st)
    ensures AlwaysExact(c, granted, st, r) <==> LimitIsEnough(c, SignedKeys(c, st), granted, r)
  {
    hide Serve, Meets;
    if LimitIsEnough(c, SignedKeys(c, st), granted, r) {
      forall rs, i | 0 <= i < |rs| && rs[i] == r
        ensures i < |Serve(c, st, rs).1|
        ensures Serve(c, st, rs).1[i] == Meets(c, SignedKeys(c, st), granted, r, c.maxRecursion)
      {
        ExactWhenLimitIsEnough(c, granted, st, rs, i);
      }
    }
    if AlwaysExact(c, granted, st, r) {
      forall n: nat | Meets(c, SignedKeys(c, st), granted, r, n)
        ensures Meets(c, SignedKeys(c, st), granted, r, c.maxRecursion)
      {
        GrantedAfterPreparation(c, granted, st, r, n);
        var auth := AuthorityOf(c, r);
        var rs := Preparation(c, auth, |auth.accountAuths|, n);
        assert (rs + [r])[|rs|] == r;
      }
    }
  }
}

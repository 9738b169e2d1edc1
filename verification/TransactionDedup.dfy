/** The index of recent transactions: on a chain no transaction is applied twice, although the index forgets. */
module TransactionDedup {
  import opened Common

  /** Transaction ids; an id is a hash of the whole transaction, so it determines the expiration. */
  type TxId = nat

  const MAX_TIME_UNTIL_EXPIRATION: nat := 3600

  /** Block number and time of the head, and the index: the expiration of each id in it. */
  datatype Head = Head(num: nat, time: nat, index: map<TxId, nat>)

  /** Every transaction applied so far is still in the index, or has expired for good. */
  predicate Remembers(h: Head, expiration: TxId -> nat, applied: seq<TxId>) {
    && NoDuplicates(applied)
    && (forall id :: id in h.index ==> h.index[id] == expiration(id))
    && (forall k :: 0 <= k < |applied| ==> applied[k] in h.index || (0 < h.num && expiration(applied[k]) < h.time))
  }

  /** Whether a transaction passes the duplicate check and the time check; block 1 has no time check. */
  predicate Admits(h: Head, expiration: TxId -> nat, id: TxId) {
    id !in h.index && (0 < h.num ==> h.time < expiration(id) <= h.time + MAX_TIME_UNTIL_EXPIRATION)
  }

  /** A transaction that was ever applied is refused for ever after, in the index or not. */
  lemma ReplayIsRefused(h: Head, expiration: TxId -> nat, applied: seq<TxId>, id: TxId)
    requires Remembers(h, expiration, applied) && id in applied
    ensures !Admits(h, expiration, id)
  {
    var k :| 0 <= k < |applied| && applied[k] == id;
  }

  /** The index after the transactions of a block. */
  function Recorded(index: map<TxId, nat>, expiration: TxId -> nat, txs: seq<TxId>): map<TxId, nat> {
    if txs == [] then index
    else
      var id := txs[|txs| - 1];
      Recorded(index, expiration, txs[..|txs| - 1])[id := expiration(id)]
  }

  /** The index without what has expired at the new head. */
  function Swept(index: map<TxId, nat>, time: nat): map<TxId, nat> {
    map id | id in index && time <= index[id] :: index[id]
  }

  lemma {:induction false} RecordedHas(index: map<TxId, nat>, expiration: TxId -> nat, txs: seq<TxId>)
    ensures forall id :: id in Recorded(index, expiration, txs) <==> id in index || id in txs
    ensures forall id :: id in Recorded(index, expiration, txs) ==>
                           Recorded(index, expiration, txs)[id] == if id in txs then expiration(id) else index[id]
  {
    if txs != [] {
      RecordedHas(index, expiration, txs[..|txs| - 1]);
      assert txs == txs[..|txs| - 1] + [txs[|txs| - 1]];
    }
  }

  /** Whether a whole block of transactions is admitted: each on its own, and none twice. */
  predicate BlockAdmitted(h: Head, expiration: TxId -> nat, txs: seq<TxId>) {
    NoDuplicates(txs) && forall k :: 0 <= k < |txs| ==> Admits(h, expiration, txs[k])
  }

  function Next(h: Head, expiration: TxId -> nat, txs: seq<TxId>, time: nat): Head {
    Head(h.num + 1, time, Swept(Recorded(h.index, expiration, txs), time))
  }

  /** A later block keeps the promise, because its time is later and so everything it forgets has expired. */
  lemma NextRemembers(h: Head, expiration: TxId -> nat, applied: seq<TxId>, txs: seq<TxId>, time: nat)
    requires Remembers(h, expiration, applied) && BlockAdmitted(h, expiration, txs) && h.time < time
    ensures Remembers(Next(h, expiration, txs, time), expiration, applied + txs)
  {
    RecordedHas(h.index, expiration, txs);
    var all := applied + txs;
    forall i, j | 0 <= i < j < |all|
      ensures all[i] != all[j]
    {
      if i < |applied| <= j {
        assert Admits(h, expiration, txs[j - |applied|]);
        if all[i] == all[j] {
          ReplayIsRefused(h, expiration, applied, all[i]);
        }
      }
    }
    hide Recorded;
    forall k | 0 <= k < |all|
      ensures all[k] in Next(h, expiration, txs, time).index || expiration(all[k]) < time
    {
      if k >= |applied| {
        assert all[k] in txs;
      }
    }
  }

  // ---------- whole chains ----------

  datatype Block = Block(txs: seq<TxId>, time: nat)

  /** The head after a chain of blocks, and whether each of them was accepted in its turn. */
  function HeadAfter(h: Head, expiration: TxId -> nat, chain: seq<Block>): Head {
    if chain == [] then h
    else
      var b := chain[|chain| - 1];
      Next(HeadAfter(h, expiration, chain[..|chain| - 1]), expiration, b.txs, b.time)
  }

  predicate Accepted(h: Head, expiration: TxId -> nat, chain: seq<Block>) {
    chain == [] ||
    (var b, before := chain[|chain| - 1], HeadAfter(h, expiration, chain[..|chain| - 1]);
     && Accepted(h, expiration, chain[..|chain| - 1])
     && before.time < b.time && BlockAdmitted(before, expiration, b.txs))
  }

  function Transactions(chain: seq<Block>): seq<TxId> {
    if chain == [] then [] else Transactions(chain[..|chain| - 1]) + chain[|chain| - 1].txs
  }

  /** On every chain from genesis no transaction is applied twice. */
  lemma {:induction false} NoTransactionTwice(genesis: nat, expiration: TxId -> nat, chain: seq<Block>)
    requires Accepted(Head(0, genesis, map[]), expiration, chain)
    ensures NoDuplicates(Transactions(chain))
    ensures Remembers(HeadAfter(Head(0, genesis, map[]), expiration, chain), expiration, Transactions(chain))
  {
    if chain != [] {
      var b, rest := chain[|chain| - 1], chain[..|chain| - 1];
      NoTransactionTwice(genesis, expiration, rest);
      NextRemembers(HeadAfter(Head(0, genesis, map[]), expiration, rest), expiration, Transactions(rest), b.txs,
        b.time);
    }
  }

  predicate Earliest(index: map<TxId, nat>, ids: set<TxId>, first: TxId)
    requires ids <= index.Keys
  {
    first in ids && forall id :: id in ids ==> index[first] <= index[id]
  }

  lemma {:induction false} EarliestExists(index: map<TxId, nat>, ids: set<TxId>)
    requires ids <= index.Keys && ids != {}
    ensures exists first :: Earliest(index, ids, first)
    decreases |ids|
  {
    var x :| x in ids;
    var rest := ids - {x};
    if rest == {} {
      assert ids == {x};
      assert Earliest(index, ids, x);
    } else {
      EarliestExists(index, rest);
      var y :| Earliest(index, rest, y);
      var first := if index[x] <= index[y] then x else y;
      assert forall id :: id in ids ==> id == x || id in rest;
      assert Earliest(index, ids, first);
    }
  }

  /** A sweep under way: only expired entries are gone. */
  predicate Sweeping(before: map<TxId, nat>, now: map<TxId, nat>, time: nat) {
    && (forall id :: id in now ==> id in before && now[id] == before[id])
    && (forall id :: id in before && time <= before[id] ==> id in now)
  }

  class TransactionIndex {
    const expiration: TxId -> nat
    var num: nat
    var time: nat
    var index: map<TxId, nat>
    ghost var applied: seq<TxId>

    ghost function State(): Head
      reads this
    {
      Head(num, time, index)
    }

    ghost predicate Valid()
      reads this
    {
      Remembers(State(), expiration, applied)
    }

    constructor (expiration: TxId -> nat, genesis: nat)
      ensures Valid() && applied == [] && State() == Head(0, genesis, map[]) && this.expiration == expiration
    {
      this.expiration, num, time, index, applied := expiration, 0, genesis, map[], [];
    }

    /** The checks of one transaction and its entry in the index; applies is whether its operations succeed. */
    method ApplyTransaction(id: TxId, applies: bool) returns (ok: bool)
      modifies this`index
      ensures ok == (Admits(old(State()), expiration, id) && applies)
      ensures index == if ok then old(index)[id := expiration(id)] else old(index)
    {
      if id in index {
        return false;
      }
      if num > 0 {
        if expiration(id) > time + MAX_TIME_UNTIL_EXPIRATION {
          return false;
        }
        if time >= expiration(id) {
          return false;
        }
      }
      if !applies {
        return false;
      }
      index := index[id := expiration(id)];
      return true;
    }

    /** Removes entries while the one that expires first has expired. */
    method ClearExpired()
      modifies this`index
      ensures index == Swept(old(index), time)
    {
      ghost var before := index;
      while index.Keys != {}
        invariant Sweeping(before, index, time)
        decreases |index|
      {
        EarliestExists(index, index.Keys);
        var first :| Earliest(index, index.Keys, first);
        if time <= index[first] {
          break;
        }
        index := index - {first};
      }
    }

    /**
     The transactions of a block and what happens to the index around them. A block is accepted exactly when it
     is later than the head, repeats no transaction of itself or of the index, has none out of its time, and
     every operation succeeds; and then no transaction of the chain has ever been applied twice.
     */
    method ApplyBlock(txs: seq<TxId>, timestamp: nat, applies: nat -> bool) returns (ok: bool)
      requires Valid()
      modifies this
      ensures Valid() && NoDuplicates(applied)
      ensures ok == (old(time) < timestamp && BlockAdmitted(old(State()), expiration, txs)
                     && forall k :: 0 <= k < |txs| ==> applies(k))
      ensures State() == if ok then Next(old(State()), expiration, txs, timestamp) else old(State())
      ensures applied == if ok then old(applied) + txs else old(applied)
    {
      if timestamp <= time {
        return false;
      }
      var before := index;
      hide Recorded, BlockAdmitted, Admits, Remembers, NoDuplicates;
      for i := 0 to |txs|
        invariant index == Recorded(before, expiration, txs[..i]) && num == old(num) && time == old(time)
                  && applied == old(applied)
        invariant BlockAdmitted(old(State()), expiration, txs[..i]) && forall k :: 0 <= k < i ==> applies(k)
      {
        var admitted := ApplyTransaction(txs[i], applies(i));
        if !admitted {
          RefusedAt(old(State()), expiration, txs, i, applies);
          index := before;
          return false;
        }
        AdmittedStep(old(State()), expiration, txs, i);
      }
      assert txs[..|txs|] == txs;
      NoDuplicatesOf(old(State()), expiration, txs, applied, timestamp);
      NextRemembers(old(State()), expiration, applied, txs, timestamp);
      num, time := num + 1, timestamp;
      ClearExpired();
      applied := applied + txs;
      return true;
    }
  }

  lemma AdmittedStep(h: Head, expiration: TxId -> nat, txs: seq<TxId>, i: nat)
    requires i < |txs| && BlockAdmitted(h, expiration, txs[..i])
    requires Admits(h.(index := Recorded(h.index, expiration, txs[..i])), expiration, txs[i])
    ensures BlockAdmitted(h, expiration, txs[..i + 1])
    ensures Recorded(h.index, expiration, txs[..i + 1])
            == Recorded(h.index, expiration, txs[..i])[txs[i] := expiration(txs[i])]
  {
    RecordedHas(h.index, expiration, txs[..i]);
    assert txs[..i + 1] == txs[..i] + [txs[i]] && txs[..i + 1][..i] == txs[..i];
  }

  lemma NoDuplicatesOf(h: Head, expiration: TxId -> nat, txs: seq<TxId>, applied: seq<TxId>, time: nat)
    requires Remembers(h, expiration, applied) && BlockAdmitted(h, expiration, txs) && h.time < time
    ensures NoDuplicates(applied + txs)
  {
    NextRemembers(h, expiration, applied, txs, time);
    hide Recorded, BlockAdmitted;
  }

  lemma RefusedAt(h: Head, expiration: TxId -> nat, txs: seq<TxId>, i: nat, applies: nat -> bool)
    requires i < |txs|
    requires !(Admits(h.(index := Recorded(h.index, expiration, txs[..i])), expiration, txs[i]) && applies(i))
    ensures !(BlockAdmitted(h, expiration, txs) && forall k :: 0 <= k < |txs| ==> applies(k))
  {
    RecordedHas(h.index, expiration, txs[..i]);
    if BlockAdmitted(h, expiration, txs) {
      assert Admits(h, expiration, txs[i]);
    }
  }
}

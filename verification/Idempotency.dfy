/** Exactly once under retry: what a key that was used means for every later request that carries it. */
module Idempotency {
  import opened Ledger
  import opened Engine
  import opened Invariants
  import opened Runs
  import opened Permanence

  // the key was used by an entry that stores this transaction under this request
  ghost predicate Used(logs: seq<Log>, key: string, hash: RequestHash, tx: Tx) {
    var l := FindKey(logs, key);
    l.Some? && l.value.use == Some(KeyUse(key, hash)) && l.value.data == TxData(tx)
  }

  lemma {:induction false} FindKeyAppend(logs: seq<Log>, more: seq<Log>, key: string)
    ensures FindKey(logs + more, key) == if FindKey(logs, key).Some? then FindKey(logs, key) else FindKey(more, key)
  {
    if logs == [] {
      assert logs + more == more;
    } else {
      assert (logs + more)[1..] == logs[1..] + more;
      FindKeyAppend(logs[1..], more, key);
    }
  }

  lemma {:induction false} UsedForever(a: seq<Log>, b: seq<Log>, key: string, hash: RequestHash, tx: Tx)
    requires a <= b && Used(a, key, hash, tx)
    ensures Used(b, key, hash, tx)
  {
    FindKeyAppend(a, b[|a|..], key);
    assert b == a + b[|a|..];
  }

  lemma {:induction false} FoundIsTx(logs: seq<Log>, key: string)
    requires KeysOk(logs) && FindKey(logs, key).Some? && forall i | 0 <= i < |logs| :: KindAt(logs, i)
    ensures FindKey(logs, key).value.data.TxData?
  {
    var l := FindKey(logs, key).value;
    var i :| 0 <= i < |logs| && logs[i] == l;
    assert KeyNew(logs, i) && KindAt(logs, i);
  }

  lemma {:induction false} ReplayIsUsed(db: Db, item: Item, key: string, now: Time)
    requires Inv(db) && key != "" && FindKey(db.logs, key).Some? && Commit(db, item, key, false, now).reply.Committed?
    ensures var s := Commit(db, item, key, false, now); s.db == db && Used(db.logs, key, CommitHash(item), s.reply.tx)
  {
    FoundIsTx(db.logs, key);
  }

  lemma {:induction false} FreshIsUsed(db: Db, item: Item, key: string, now: Time)
    requires key != "" && FindKey(db.logs, key).None? && Commit(db, item, key, false, now).reply.Committed?
    ensures var s := Commit(db, item, key, false, now);
            && |s.db.logs| == |db.logs| + 1 && s.db.logs[..|db.logs|] == db.logs
            && s.db.logs[|db.logs|].use == Some(KeyUse(key, CommitHash(item)))
            && s.db.logs[|db.logs|].data == TxData(s.reply.tx)
  {
  }

  lemma {:induction false} FreshKeyFound(logs: seq<Log>, l: Log, key: string, hash: RequestHash, tx: Tx)
    requires FindKey(logs, key).None? && l.use == Some(KeyUse(key, hash)) && l.data == TxData(tx)
    ensures Used(logs + [l], key, hash, tx)
  {
    FindKeyAppend(logs, [l], key);
  }

  /** A keyed commit that answered, and was not a dry run, leaves its key on an entry that stores
      exactly what it answered: a fresh transaction or the one it replayed. */
  lemma {:induction false} AnsweredIsUsed(db: Db, item: Item, key: string, now: Time)
    requires Inv(db) && key != "" && Commit(db, item, key, false, now).reply.Committed?
    ensures var s := Commit(db, item, key, false, now); Used(s.db.logs, key, CommitHash(item), s.reply.tx)
  {
    if FindKey(db.logs, key).Some? {
      ReplayIsUsed(db, item, key, now);
    } else {
      FreshIsUsed(db, item, key, now);
      var s := Commit(db, item, key, false, now);
      FreshKeyFound(db.logs, s.db.logs[|db.logs|], key, CommitHash(item), s.reply.tx);
      assert s.db.logs == db.logs + [s.db.logs[|db.logs|]];
    }
  }

  /** Whatever ran since, a later request with the key changes nothing. With the same inputs it is
      answered with the transaction first given; with different inputs it is refused. */
  lemma {:induction false} ExactlyOnce(db: Db, item: Item, key: string, now: Time, ops: seq<Op>,
                                       again: Item, dryRun: bool, later: Time)
    requires Reachable(db) && key != "" && forall op | op in ops :: Sensible(op)
    requires Commit(db, item, key, false, now).reply.Committed? && Malformed(again.postings).None?
    ensures var first := Commit(db, item, key, false, now);
            var since := Run(first.db, ops);
            Commit(since, again, key, dryRun, later) ==
            Step(since, if again == item then Committed(first.reply.tx) else Rejected(IdempotencyMismatch(key)))
  {
    ReachableInv(db);
    var first := Commit(db, item, key, false, now);
    AnsweredIsUsed(db, item, key, now);
    CommitKeepsInv(db, item, key, false, now);
    RunExtends(first.db, ops);
    UsedForever(first.db.logs, Run(first.db, ops).logs, key, CommitHash(item), first.reply.tx);
  }

  /** At most one entry carries a key, in every reachable state. */
  lemma {:induction false} OneEntryPerKey(db: Db, i: nat, j: nat)
    requires Reachable(db) && i < |db.logs| && j < |db.logs|
    requires db.logs[i].use.Some? && db.logs[j].use.Some? && db.logs[i].use.value.key == db.logs[j].use.value.key
    ensures i == j
  {
    ReachableInv(db);
    assert KeyNew(db.logs, i) && KeyNew(db.logs, j);
  }

  // ---------------------------------------------------------------- batches

  // consecutive transactions, as recorded
  ghost predicate Members(db: Db, txs: seq<Tx>) {
    && (forall i | 0 <= i < |txs| :: txs[i].id in db.txs && db.txs[txs[i].id].tx == txs[i])
    && (forall i | 0 < i < |txs| :: txs[i].id == txs[i - 1].id + 1)
  }

  // the same transactions as they now stand
  ghost function RowsOf(db: Db, txs: seq<Tx>): (r: seq<TxRow>)
    requires Members(db, txs)
    ensures |r| == |txs| && forall i | 0 <= i < |txs| :: r[i].tx == txs[i]
  {
    seq(|txs|, i requires 0 <= i < |txs| => db.txs[txs[i].id])
  }

  lemma {:induction false} TaggedNext(db: Db, hash: RequestHash, m: nat, n: nat)
    requires n == m + 1
    ensures TaggedRows(db, hash, n) == TaggedRows(db, hash, m) + TaggedAt(db.txs, hash, n)
  {
  }

  lemma {:induction false} TaggedExact(db: Db, hash: RequestHash, upTo: nat, id: nat)
    requires forall x | x in db.txs :: Numbered(db.txs, db.lastTx, x)
    ensures (exists t | t in TaggedRows(db, hash, upTo) :: t.tx.id == id) <==>
            1 <= id <= upTo && id in db.txs && TaggedWith(db.txs[id], hash)
  {
    assert id in db.txs ==> Numbered(db.txs, db.lastTx, id);
    if upTo > 0 {
      var m := upTo - 1;
      TaggedExact(db, hash, m, id);
      TaggedNext(db, hash, m, upTo);
      assert upTo in db.txs ==> Numbered(db.txs, db.lastTx, upTo);
      OneMore(TaggedRows(db, hash, m), TaggedAt(db.txs, hash, upTo), id);
    }
  }

  lemma {:induction false} OneMore(a: seq<TxRow>, b: seq<TxRow>, id: nat)
    ensures (exists t | t in a + b :: t.tx.id == id) <==>
            (exists t | t in a :: t.tx.id == id) || (exists t | t in b :: t.tx.id == id)
  {
  }

  // how many of consecutive ids starting at first lie at or below n
  function Reached(first: int, count: nat, n: nat): nat {
    if count == 0 || n < first then 0 else if n - first + 1 >= count then count else n - first + 1
  }

  // the i-th of these rows is stored, first + i being its id
  ghost predicate StoredAt(txs: map<nat, TxRow>, rows: seq<TxRow>, first: nat, i: nat)
    requires i < |rows|
  {
    var id := rows[i].tx.id;
    id == first + i && id in txs && txs[id] == rows[i]
  }

  lemma {:induction false} TaggedRange(db: Db, hash: RequestHash, rows: seq<TxRow>, first: nat, n: nat)
    requires first >= 1 && forall i | 0 <= i < |rows| :: StoredAt(db.txs, rows, first, i)
    requires forall id | id in db.txs :: TaggedWith(db.txs[id], hash) <==> first <= id < first + |rows|
    ensures TaggedRows(db, hash, n) == rows[..Reached(first, |rows|, n)]
  {
    if n > 0 {
      var m := n - 1;
      TaggedRange(db, hash, rows, first, m);
      TaggedNext(db, hash, m, n);
      if first <= n < first + |rows| {
        TakeNext(rows, n - first);
        assert StoredAt(db.txs, rows, first, n - first);
      }
    }
  }

  lemma {:induction false} Consecutive(db: Db, txs: seq<Tx>, i: nat)
    requires Members(db, txs) && i < |txs|
    ensures txs[i].id == txs[0].id + i
  {
    if i > 0 { Consecutive(db, txs, i - 1); }
  }

  // the transactions that carry the tag are exactly these
  ghost predicate TagsAre(db: Db, hash: RequestHash, txs: seq<Tx>) {
    forall id | id in db.txs :: TaggedWith(db.txs[id], hash) <==> exists i | 0 <= i < |txs| :: txs[i].id == id
  }

  /** A batch is found again by the hash its members are tagged with, not by its key: what is found is
      its own transactions, as they now stand, exactly when the tagged transactions are its own. */
  lemma {:induction false} BatchReplayExact(db: Db, hash: RequestHash, txs: seq<Tx>)
    requires Inv(db) && Members(db, txs)
    ensures TaggedRows(db, hash, db.lastTx) == RowsOf(db, txs) <==> TagsAre(db, hash, txs)
  {
    if TaggedRows(db, hash, db.lastTx) == RowsOf(db, txs) {
      forall id | id in db.txs ensures TaggedWith(db.txs[id], hash) <==> exists i | 0 <= i < |txs| :: txs[i].id == id {
        TaggedExact(db, hash, db.lastTx, id);
        assert Numbered(db.txs, db.lastTx, id);
        assert forall i | 0 <= i < |txs| :: RowsOf(db, txs)[i] in RowsOf(db, txs);
      }
    }
    if TagsAre(db, hash, txs) { AllTagged(db, hash, txs); }
  }

  lemma {:induction false} AllTagged(db: Db, hash: RequestHash, txs: seq<Tx>)
    requires Members(db, txs) && forall id | id in db.txs :: Numbered(db.txs, db.lastTx, id)
    requires TagsAre(db, hash, txs)
    ensures TaggedRows(db, hash, db.lastTx) == RowsOf(db, txs)
  {
    var first, rows := if txs == [] then 1 else txs[0].id, RowsOf(db, txs);
    forall i | 0 <= i < |txs| ensures txs[i].id == first + i && StoredAt(db.txs, rows, first, i) {
      Consecutive(db, txs, i);
    }
    assert txs != [] ==> Numbered(db.txs, db.lastTx, first) && Numbered(db.txs, db.lastTx, txs[|txs| - 1].id);
    forall id | id in db.txs ensures TaggedWith(db.txs[id], hash) <==> first <= id < first + |txs| {
      if first <= id < first + |txs| { assert txs[id - first].id == id; }
    }
    TaggedRange(db, hash, rows, first, db.lastTx);
    assert rows[..|txs|] == rows;
  }
}

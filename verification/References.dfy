/** A reference names one transaction at most, reversed or not, whatever ran and however it interleaved. */
module References {
  import opened Ledger
  import opened Engine
  import opened Runs
  import opened Invariants
  import Protocol
  import opened Interleaving

  // no two stored transactions carry one reference, other than none
  ghost predicate OnceEach(txs: map<nat, TxRow>) {
    forall i, j | i in txs && j in txs :: txs[i].tx.reference == txs[j].tx.reference != "" ==> i == j
  }

  lemma {:induction false} StoredOnce(txs: map<nat, TxRow>, id: nat, row: TxRow)
    requires OnceEach(txs) && id !in txs
    requires row.tx.reference != "" ==> forall x | x in txs :: txs[x].tx.reference != row.tx.reference
    ensures OnceEach(txs[id := row])
  {
  }

  // the same transactions, with whatever was changed on them since
  lemma {:induction false} SameOnce(a: map<nat, TxRow>, b: map<nat, TxRow>)
    requires OnceEach(a) && b.Keys == a.Keys && forall id | id in a :: b[id].tx == a[id].tx
    ensures OnceEach(b)
  {
  }

  lemma {:induction false} AppliedOnce(db: Db, item: Item, now: Time)
    requires TxsOk(db.txs, db.logs, db.lastTx) && OnceEach(db.txs) && Apply(db, item, now).Done?
    ensures OnceEach(Apply(db, item, now).value.db.txs)
  {
    var tx := Apply(db, item, now).value.tx;
    assert tx.id in db.txs ==> Numbered(db.txs, db.lastTx, tx.id);
    StoredOnce(db.txs, tx.id, TxRow(tx, tx.metadata, None));
  }

  lemma {:induction false} LoggedOnce(db: Db, item: Item, use: Option<KeyUse>, now: Time)
    requires TxsOk(db.txs, db.logs, db.lastTx) && OnceEach(db.txs) && ApplyAndLog(db, item, use, now).Done?
    ensures OnceEach(ApplyAndLog(db, item, use, now).value.db.txs)
  {
    LogsDone(db, item, use, now);
    AppliedOnce(db, item, now);
  }

  lemma {:induction false} ItemsOnce(db: Db, items: seq<Item>, key: string, now: Time, n: nat)
    requires Inv(db) && OnceEach(db.txs) && n <= |items| && RunItems(db, items, key, now, n).Done?
    requires forall i | 0 <= i < |items| :: Malformed(items[i].postings).None?
    ensures OnceEach(RunItems(db, items, key, now, n).value.db.txs)
  {
    if n > 0 {
      var m := n - 1;
      RunItemsLast(db, items, key, now, m, n);
      ItemsOnce(db, items, key, now, m);
      RunItemsKeepsInv(db, items, key, now, m);
      var r := RunItems(db, items, key, now, m).value.db;
      LoggedOnce(r, Tagged(items[m], key, items), BatchUse(key, items, m), now);
    }
  }

  lemma {:induction false} CommitOnce(db: Db, item: Item, key: string, dryRun: bool, now: Time)
    requires TxsOk(db.txs, db.logs, db.lastTx) && OnceEach(db.txs)
    ensures OnceEach(Commit(db, item, key, dryRun, now).db.txs)
  {
    var use := Use(key, CommitHash(item));
    if ApplyAndLog(db, item, use, now).Done? { LoggedOnce(db, item, use, now); }
  }

  lemma {:induction false} BatchOnce(db: Db, items: seq<Item>, key: string, dryRun: bool, now: Time)
    requires Inv(db) && OnceEach(db.txs)
    ensures OnceEach(Batch(db, items, key, dryRun, now).db.txs)
  {
    BatchComesTo(db, items, key, dryRun, now);
    if BatchRan(db, items, key, now, Batch(db, items, key, dryRun, now).db) {
      MaterialisedKeepsInv(db, BatchTouched(items));
      ItemsOnce(Locking(db, BatchTouched(items)), items, key, now, |items|);
    }
  }

  lemma {:induction false} RevertStores(db: Db, id: nat, at: bool, now: Time)
    requires Revert(db, id, at, now).reply.RevertedBy?
    ensures id in db.txs
    ensures var r := Apply(db, RevertItem(db.txs[id], id, at, now), now);
            && r.Done? && id in r.value.db.txs
            && Revert(db, id, at, now).db.txs ==
               r.value.db.txs[id := r.value.db.txs[id].(revertedAt := Some(r.value.tx.timestamp))]
  {
  }

  lemma {:induction false} RevertOnce(db: Db, id: nat, at: bool, now: Time)
    requires TxsOk(db.txs, db.logs, db.lastTx) && OnceEach(db.txs)
    ensures OnceEach(Revert(db, id, at, now).db.txs)
  {
    if Revert(db, id, at, now).reply.RevertedBy? {
      RevertStores(db, id, at, now);
      AppliedOnce(db, RevertItem(db.txs[id], id, at, now), now);
      SameOnce(Apply(db, RevertItem(db.txs[id], id, at, now), now).value.db.txs, Revert(db, id, at, now).db.txs);
    }
  }

  lemma {:induction false} SetOnce(db: Db, id: nat, m: Metadata)
    requires OnceEach(db.txs)
    ensures OnceEach(SetTxMetadata(db, id, m).db.txs)
  {
    SameOnce(db.txs, SetTxMetadata(db, id, m).db.txs);
  }

  lemma {:induction false} DeleteOnce(db: Db, id: nat, name: string)
    requires OnceEach(db.txs)
    ensures OnceEach(DeleteTxMetadata(db, id, name).db.txs)
  {
    SameOnce(db.txs, DeleteTxMetadata(db, id, name).db.txs);
  }

  lemma {:induction false} OtherStores(db: Db, op: Op)
    requires !op.OpCommit? && !op.OpBatch? && !op.OpRevert? && !op.OpSetTxMetadata? && !op.OpDeleteTxMetadata?
    ensures Perform(db, op).db.txs == db.txs
  {
  }

  lemma {:induction false} StepOnce(db: Db, op: Op)
    requires Inv(db) && OnceEach(db.txs)
    ensures OnceEach(Perform(db, op).db.txs)
  {
    match op
    case OpCommit(item, key, dryRun, now) => CommitOnce(db, item, key, dryRun, now);
    case OpBatch(items, key, dryRun, now) => BatchOnce(db, items, key, dryRun, now);
    case OpRevert(id, at, now) => RevertOnce(db, id, at, now);
    case OpSetTxMetadata(id, m) => SetOnce(db, id, m);
    case OpDeleteTxMetadata(id, name) => DeleteOnce(db, id, name);
    case _ => OtherStores(db, op);
  }

  lemma {:induction false} RunOnce(ops: seq<Op>)
    requires forall op | op in ops :: Sensible(op)
    ensures OnceEach(Run(EMPTY, ops).txs)
  {
    if ops != [] {
      var init, op := ops[..|ops| - 1], ops[|ops| - 1];
      assert op in ops && forall o | o in init :: o in ops;
      RunOnce(init);
      EmptyInv();
      RunKeepsInv(EMPTY, init);
      StepOnce(Run(EMPTY, init), op);
    }
  }

  /** In every reachable state two transactions with one reference are one transaction. */
  lemma {:induction false} ReferenceNamesOne(db: Db, i: nat, j: nat)
    requires Reachable(db) && i in db.txs && j in db.txs
    requires db.txs[i].tx.reference == db.txs[j].tx.reference != ""
    ensures i == j
  {
    var ops :| (forall op | op in ops :: Sensible(op)) && db == Run(EMPTY, ops);
    RunOnce(ops);
  }

  /** And in every state an interleaving commits. */
  lemma {:induction false} InterleavedNamesOne(events: seq<Protocol.Event>, i: nat, j: nat)
    requires var txs := Play(Opened(EMPTY), events).committed.txs;
             i in txs && j in txs && txs[i].tx.reference == txs[j].tx.reference != ""
    ensures i == j
  {
    InterleavedIsReachable(events);
    ReferenceNamesOne(Play(Opened(EMPTY), events).committed, i, j);
  }
}

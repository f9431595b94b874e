/** What a key on a batch changes: the tag its members carry and the key on its first entry, and
    so the hashes behind them, and nothing else. */
module Tags {
  import opened Ledger
  import opened Engine
  import opened Runs
  import opened Batches

  ghost predicate AlikeMetadata(a: Metadata, b: Metadata) { a - {BATCH_KEY} == b - {BATCH_KEY} }

  ghost predicate AlikeTx(a: Tx, b: Tx) {
    && a.id == b.id && a.postings == b.postings && a.timestamp == b.timestamp
    && a.reference == b.reference && a.postCommit == b.postCommit
    && AlikeMetadata(a.metadata, b.metadata)
  }

  ghost predicate AlikeRow(a: TxRow, b: TxRow) {
    AlikeTx(a.tx, b.tx) && AlikeMetadata(a.metadata, b.metadata) && a.revertedAt == b.revertedAt
  }

  ghost predicate AlikeTxs(a: map<nat, TxRow>, b: map<nat, TxRow>) {
    a.Keys == b.Keys && forall id | id in a :: AlikeRow(a[id], b[id])
  }

  ghost predicate AlikeData(a: Data, b: Data) {
    if a.TxData? then b.TxData? && AlikeTx(a.tx, b.tx)
    else if a.RevertData? then b.RevertData? && a.reverted == b.reverted && AlikeTx(a.tx, b.tx)
    else a == b
  }

  // the same entry, but for its hash and its key
  ghost predicate AlikeAt(a: seq<Log>, b: seq<Log>, i: nat)
    requires i < |a| == |b|
  {
    a[i].id == b[i].id && a[i].kind == b[i].kind && AlikeData(a[i].data, b[i].data)
  }

  ghost predicate AlikeLogs(a: seq<Log>, b: seq<Log>) { |a| == |b| && forall i | 0 <= i < |a| :: AlikeAt(a, b, i) }

  ghost predicate Alike(a: Db, b: Db) {
    && a.rows == b.rows && a.accounts == b.accounts && a.moves == b.moves
    && a.lastTx == b.lastTx && a.lastLog == b.lastLog
    && AlikeTxs(a.txs, b.txs) && AlikeLogs(a.logs, b.logs)
  }

  lemma {:induction false} AlikeSelf(db: Db)
    ensures Alike(db, db)
  {
  }

  ghost predicate AlikeItem(a: Item, b: Item) {
    a.postings == b.postings && a.timestamp == b.timestamp && a.reference == b.reference
      && AlikeMetadata(a.metadata, b.metadata)
  }

  lemma {:induction false} TaggedAlike(item: Item, key: string, items: seq<Item>)
    ensures AlikeItem(Tagged(item, key, items), item)
  {
  }

  lemma {:induction false} AlikeReferences(a: Db, b: Db, reference: string)
    requires AlikeTxs(a.txs, b.txs)
    ensures ReferenceUsed(a, reference) == ReferenceUsed(b, reference)
  {
    if ReferenceUsed(a, reference) {
      var id :| id in a.txs && a.txs[id].tx.reference == reference;
      assert AlikeRow(a.txs[id], b.txs[id]);
    }
    if ReferenceUsed(b, reference) {
      var id :| id in b.txs && b.txs[id].tx.reference == reference;
      assert AlikeRow(a.txs[id], b.txs[id]);
    }
  }

  lemma {:induction false} AlikeInstalled(a: Db, b: Db, t: Tx, u: Tx, before: map<Key, Volumes>,
                                          effective: map<Key, Volumes>)
    requires Alike(a, b) && AlikeTx(t, u)
    ensures Alike(Installed(a, t, before, effective), Installed(b, u, before, effective))
  {
    var i, j := Installed(a, t, before, effective), Installed(b, u, before, effective);
    forall id | id in i.txs ensures AlikeRow(i.txs[id], j.txs[id]) {
      assert id in a.txs ==> AlikeRow(a.txs[id], b.txs[id]);
    }
  }

  // refused alike, or done alike
  ghost predicate AlikeApplied(a: Outcome<Applied>, b: Outcome<Applied>) {
    if b.Refused? then a.Refused? && a.error == b.error
    else a.Done? && Alike(a.value.db, b.value.db) && AlikeTx(a.value.tx, b.value.tx)
  }

  lemma {:induction false} AlikeWrites(a: Db, b: Db, x: Item, y: Item, q: Postings, d: Time,
                                       before: map<Key, Volumes>, effective: map<Key, Volumes>)
    requires Alike(a, b) && AlikeItem(x, y)
    ensures AlikeApplied(Write(a, x, q, d, before, effective), Write(b, y, q, d, before, effective))
  {
    AlikeReferences(a, b, x.reference);
    AlikeInstalled(a, b, Tx(a.lastTx + 1, q, d, x.reference, x.metadata, PostCommit(before, q)),
                   Tx(b.lastTx + 1, q, d, y.reference, y.metadata, PostCommit(before, q)), before, effective);
    WriteInstalls(a, x, q, d, before, effective);
    WriteInstalls(b, y, q, d, before, effective);
  }

  lemma {:induction false} AlikeReads(a: Db, b: Db, ks: set<Key>)
    requires Alike(a, b)
    ensures LockRead(a, ks) == LockRead(b, ks)
  {
  }

  // deciding and writing never look at a tag
  lemma {:induction false} AlikeApply(a: Db, b: Db, x: Item, y: Item, now: Time)
    requires Alike(a, b) && AlikeItem(x, y)
    ensures AlikeApplied(Apply(a, x, now), Apply(b, y, now))
  {
    var before := LockRead(b, Touched(y.postings));
    AlikeReads(a, b, Touched(y.postings));
    var r := Prepare(before, y.postings);
    if r.Done? {
      var d := Stamp(y.timestamp, now);
      AlikeWrites(a, b, x, y, r.value, d, VolumesOf(before), EffectiveReads(b.moves, Touched(r.value), d));
    }
  }

  lemma {:induction false} AlikeAppends(a: Db, b: Db, t: Tx, u: Tx, use: Option<KeyUse>)
    requires Alike(a, b) && AlikeTx(t, u)
    ensures Alike(Appended(a, NewTransaction, TxData(t), use), Appended(b, NewTransaction, TxData(u), None))
  {
    var i, j := Appended(a, NewTransaction, TxData(t), use).logs, Appended(b, NewTransaction, TxData(u), None).logs;
    forall n | 0 <= n < |i| ensures AlikeAt(i, j, n) { assert n < |a.logs| ==> AlikeAt(a.logs, b.logs, n); }
  }

  lemma {:induction false} AlikeLogged(a: Db, b: Db, x: Item, y: Item, use: Option<KeyUse>, now: Time)
    requires Alike(a, b) && AlikeItem(x, y) && !Taken(a.logs, use)
    ensures AlikeApplied(ApplyAndLog(a, x, use, now), ApplyAndLog(b, y, None, now))
  {
    AlikeApply(a, b, x, y, now);
    var r, s := Apply(a, x, now), Apply(b, y, now);
    if s.Done? { AlikeAppends(r.value.db, s.value.db, r.value.tx, s.value.tx, use); }
  }

  ghost predicate AlikeTxAt(a: seq<Tx>, b: seq<Tx>, i: nat)
    requires i < |a| == |b|
  {
    AlikeTx(a[i], b[i])
  }

  ghost predicate AlikeAll(a: seq<Tx>, b: seq<Tx>) { |a| == |b| && forall i | 0 <= i < |a| :: AlikeTxAt(a, b, i) }

  ghost predicate AlikeRan(a: Outcome<Ran>, b: Outcome<Ran>) {
    if b.Refused? then a.Refused? && a.error == b.error
    else a.Done? && Alike(a.value.db, b.value.db) && AlikeAll(a.value.txs, b.value.txs)
  }

  lemma {:induction false} AlikeSnoc(a: seq<Tx>, b: seq<Tx>, t: Tx, u: Tx)
    requires AlikeAll(a, b) && AlikeTx(t, u)
    ensures AlikeAll(a + [t], b + [u])
  {
    var x, y := a + [t], b + [u];
    forall i | 0 <= i < |x| ensures AlikeTxAt(x, y, i) { assert i < |a| ==> AlikeTxAt(a, b, i); }
  }

  lemma {:induction false} NextAlike(db: Db, items: seq<Item>, key: string, now: Time, m: nat, n: nat)
    requires n == m + 1 && n <= |items| && FindKey(db.logs, key).None?
    requires AlikeRan(RunItems(db, items, key, now, m), RunItems(db, items, "", now, m))
    ensures AlikeRan(RunItems(db, items, key, now, n), RunItems(db, items, "", now, n))
  {
    RunItemsLast(db, items, key, now, m, n);
    RunItemsLast(db, items, "", now, m, n);
    var r, s := RunItems(db, items, key, now, m), RunItems(db, items, "", now, m);
    if s.Done? {
      TaggedAlike(items[m], key, items);
      assert m == 0 ==> r.value.db == db;
      AlikeLogged(r.value.db, s.value.db, Tagged(items[m], key, items), Tagged(items[m], "", items),
          BatchUse(key, items, m), now);
      var a := ApplyAndLog(r.value.db, Tagged(items[m], key, items), BatchUse(key, items, m), now);
      var b := ApplyAndLog(s.value.db, Tagged(items[m], "", items), None, now);
      if b.Done? { AlikeSnoc(r.value.txs, s.value.txs, a.value.tx, b.value.tx); }
    }
  }

  lemma {:induction false} RunsAlike(db: Db, items: seq<Item>, key: string, now: Time, n: nat)
    requires n <= |items| && FindKey(db.logs, key).None?
    ensures AlikeRan(RunItems(db, items, key, now, n), RunItems(db, items, "", now, n))
  {
    if n == 0 {
      AlikeSelf(db);
    } else {
      var m := n - 1;
      RunsAlike(db, items, key, now, m);
      NextAlike(db, items, key, now, m, n);
    }
  }

  /** A keyed batch, its key unused, does what the same batch without a key does: the same refusal, or
      the same tables, log data and transactions but for the tag on each member. */
  lemma {:induction false} KeyOnlyTags(db: Db, items: seq<Item>, key: string, now: Time)
    requires MalformedBatch(items).None? && FindKey(db.logs, key).None?
    ensures var k, u := Batch(db, items, key, false, now), Batch(db, items, "", false, now);
            if u.reply.Rejected? then k.reply == u.reply && k.db == u.db == db
            else
              && k.reply.CommittedAll? && u.reply.CommittedAll?
              && Alike(k.db, u.db) && AlikeAll(k.reply.txs, u.reply.txs)
  {
    BatchRuns(db, items, key, false, now);
    BatchRuns(db, items, "", false, now);
    RunsAlike(db, items, key, now, |items|);
  }
}

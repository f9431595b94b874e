/** What no operation ever takes back: log entries, transactions, reversal stamps, the insertion
    order history, and the ids already issued. */
module Permanence {
  import opened Ledger
  import opened History
  import opened Engine
  import opened Invariants
  import opened Runs

  // moves and their first snapshot stay as inserted
  ghost predicate MovesKept(a: seq<Move>, b: seq<Move>) {
    |a| <= |b| && forall i | 0 <= i < |a| :: b[i].movement == a[i].movement && b[i].pcv == a[i].pcv
  }

  ghost predicate TxsKept(a: map<nat, TxRow>, b: map<nat, TxRow>) {
    forall id | id in a ::
      id in b && b[id].tx == a[id].tx && (a[id].revertedAt.Some? ==> b[id].revertedAt == a[id].revertedAt)
  }

  // ids only ever go up: what is new was never issued before
  ghost predicate FreshIds(a: Db, b: Db) {
    && (forall i | |a.logs| <= i < |b.logs| :: b.logs[i].id > a.lastLog)
    && (forall id | id in b.txs && id !in a.txs :: id > a.lastTx)
  }

  ghost predicate Extends(a: Db, b: Db) {
    && a.logs <= b.logs && a.lastTx <= b.lastTx && a.lastLog <= b.lastLog
    && MovesKept(a.moves, b.moves) && TxsKept(a.txs, b.txs) && FreshIds(a, b)
    && a.rows.Keys <= b.rows.Keys
  }

  lemma {:induction false} ExtendsTransitive(a: Db, b: Db, c: Db)
    requires Extends(a, b) && Extends(b, c)
    ensures Extends(a, c)
  {
    forall i | |a.logs| <= i < |c.logs| ensures c.logs[i].id > a.lastLog {
      assert i < |b.logs| ==> c.logs[i] == b.logs[i];
    }
  }

  lemma {:induction false} PostedKeeps(ms: seq<Move>, tx: Tx, before: map<Key, Volumes>, effective: map<Key, Volumes>)
    ensures MovesKept(ms, Posted(ms, tx.postings, tx.id, tx.timestamp, before, effective))
  {
  }

  lemma {:induction false} LandedExtends(db: Db, tx: Tx, before: map<Key, Volumes>, effective: map<Key, Volumes>,
                                         use: Option<KeyUse>, undone: Option<nat>)
    requires TxsOk(db.txs, db.logs, db.lastTx) && tx.id == db.lastTx + 1 && UndoFits(db, tx, undone)
    ensures Extends(db, Landed(db, tx, before, effective, use, undone))
  {
    LandedFields(db, tx, before, effective, use, undone);
    LandedStamps(db, tx, before, effective, use, undone);
    PostedKeeps(db.moves, tx, before, effective);
  }

  lemma {:induction false} CommitExtends(db: Db, item: Item, key: string, dryRun: bool, now: Time)
    requires Inv(db)
    ensures Extends(db, Commit(db, item, key, dryRun, now).db)
  {
    if Malformed(item.postings).None? && (key == "" || FindKey(db.logs, key).None?) {
      var use := Use(key, CommitHash(item));
      if ApplyAndLog(db, item, use, now).Done? { ItemExtends(db, item, use, now); }
    }
  }

  lemma {:induction false} ItemExtends(db: Db, item: Item, use: Option<KeyUse>, now: Time)
    requires Inv(db) && Malformed(item.postings).None? && ApplyAndLog(db, item, use, now).Done?
    ensures Extends(db, ApplyAndLog(db, item, use, now).value.db)
  {
    WellFormedIsAcceptable(item.postings);
    ApplyAndLogLands(db, item, use, now);
    var a := ApplyAndLog(db, item, use, now).value;
    var ks := Touched(item.postings);
    LandedExtends(db, a.tx, VolumesOf(LockRead(db, ks)), EffectiveReads(db.moves, ks, a.tx.timestamp), use, None);
  }

  lemma {:induction false} NextItemExtends(db: Db, r: Db, item: Item, use: Option<KeyUse>, now: Time)
    requires Inv(r) && Extends(db, r) && Malformed(item.postings).None? && ApplyAndLog(r, item, use, now).Done?
    ensures Extends(db, ApplyAndLog(r, item, use, now).value.db)
  {
    ItemExtends(r, item, use, now);
    ExtendsTransitive(db, r, ApplyAndLog(r, item, use, now).value.db);
  }

  lemma {:induction false} RunItemsExtends(db: Db, items: seq<Item>, key: string, now: Time, n: nat)
    requires Inv(db) && n <= |items|
    requires forall i | 0 <= i < |items| :: Malformed(items[i].postings).None?
    requires RunItems(db, items, key, now, n).Done?
    ensures Extends(db, RunItems(db, items, key, now, n).value.db)
  {
    if n > 0 {
      var m := n - 1;
      RunItemsLast(db, items, key, now, m, n);
      RunItemsKeepsInv(db, items, key, now, m);
      RunItemsExtends(db, items, key, now, m);
      NextItemExtends(db, RunItems(db, items, key, now, m).value.db,
                      Tagged(items[m], key, items), BatchUse(key, items, m), now);
    }
  }

  lemma {:induction false} BatchExtends(db: Db, items: seq<Item>, key: string, dryRun: bool, now: Time)
    requires Inv(db)
    ensures Extends(db, Batch(db, items, key, dryRun, now).db)
  {
    BatchComesTo(db, items, key, dryRun, now);
    if BatchRan(db, items, key, now, Batch(db, items, key, dryRun, now).db) {
      var locked := Locking(db, BatchTouched(items));
      MaterialisedKeepsInv(db, BatchTouched(items));
      RunItemsExtends(locked, items, key, now, |items|);
      ExtendsTransitive(db, locked, RunItems(locked, items, key, now, |items|).value.db);
    }
  }

  lemma {:induction false} RevertExtends(db: Db, id: nat, atEffectiveDate: bool, now: Time)
    requires Inv(db)
    ensures Extends(db, Revert(db, id, atEffectiveDate, now).db)
  {
    if Revert(db, id, atEffectiveDate, now).reply.RevertedBy? {
      RevertLands(db, id, atEffectiveDate, now);
      var tx := Revert(db, id, atEffectiveDate, now).reply.tx;
      var ks := Touched(tx.postings);
      LandedExtends(db, tx, VolumesOf(LockRead(db, ks)), EffectiveReads(db.moves, ks, tx.timestamp), None, Some(id));
    }
  }

  lemma {:induction false} AppendedExtends(db: Db, r: Db, l: Log)
    requires r.logs == db.logs + [l] && l.id > db.lastLog && r.lastLog == l.id && r.lastTx >= db.lastTx
    requires r.moves == db.moves && r.rows == db.rows && r.txs.Keys == db.txs.Keys
    requires forall id | id in db.txs :: r.txs[id].tx == db.txs[id].tx && r.txs[id].revertedAt == db.txs[id].revertedAt
    ensures Extends(db, r)
  {
  }

  lemma {:induction false} TxTaggingExtends(db: Db, op: Op)
    requires op.OpSetTxMetadata? || op.OpDeleteTxMetadata?
    ensures var r := Perform(db, op).db; r == db || Extends(db, r)
  {
    var r := Perform(db, op).db;
    if |r.logs| > |db.logs| { AppendedExtends(db, r, r.logs[|db.logs|]); }
  }

  lemma {:induction false} AccountTaggingExtends(db: Db, op: Op)
    requires op.OpSetAccountMetadata? || op.OpDeleteAccountMetadata?
    ensures var r := Perform(db, op).db; r == db || Extends(db, r)
  {
    var r := Perform(db, op).db;
    if |r.logs| > |db.logs| { AppendedExtends(db, r, r.logs[|db.logs|]); }
  }

  lemma {:induction false} SettingExtends(db: Db, op: Op)
    requires !Moving(op) && !Tagging(op)
    ensures Extends(db, Perform(db, op).db)
  {
  }

  lemma {:induction false} RecoveryExtends(db: Db, t: Tip, note: string)
    ensures Extends(db, RecordRecovery(db, t, note))
  {
    var r := RecordRecovery(db, t, note);
    if !PastTip(db, t) { AppendedExtends(db, r, r.logs[|db.logs|]); }
  }

  lemma {:induction false} StepExtends(db: Db, op: Op)
    requires Inv(db) && Sensible(op)
    ensures Extends(db, Perform(db, op).db)
  {
    match op
    case OpCommit(item, key, dryRun, now) => CommitExtends(db, item, key, dryRun, now);
    case OpBatch(items, key, dryRun, now) => BatchExtends(db, items, key, dryRun, now);
    case OpRevert(id, at, now) => RevertExtends(db, id, at, now);
    case OpRecover(t, note) => RecoveryExtends(db, t, note);
    case OpSetTxMetadata(_, _) => TxTaggingExtends(db, op);
    case OpDeleteTxMetadata(_, _) => TxTaggingExtends(db, op);
    case OpSetAccountMetadata(_, _, _) => AccountTaggingExtends(db, op);
    case OpDeleteAccountMetadata(_, _) => AccountTaggingExtends(db, op);
    case _ => SettingExtends(db, op);
  }

  /** Whatever runs, what is written stays as written: the log, the transactions and the insertion-order
      history only grow, and no id is issued twice. */
  lemma {:induction false} RunExtends(db: Db, ops: seq<Op>)
    requires Inv(db) && forall op | op in ops :: Sensible(op)
    ensures Inv(Run(db, ops)) && Extends(db, Run(db, ops))
  {
    RunKeepsInv(db, ops);
    if ops != [] {
      var init, op := ops[..|ops| - 1], ops[|ops| - 1];
      assert op in ops && forall o | o in init :: o in ops;
      RunExtends(db, init);
      StepExtends(Run(db, init), op);
      ExtendsTransitive(db, Run(db, init), Run(db, ops));
    }
  }

  lemma {:induction false} RunConcat(db: Db, a: seq<Op>, b: seq<Op>)
    ensures Run(db, a + b) == Run(Run(db, a), b)
  {
    if b == [] {
      assert a + b == a;
    } else {
      assert (a + b)[..|a + b| - 1] == a + b[..|b| - 1];
      RunConcat(db, a, b[..|b| - 1]);
    }
  }

  lemma {:induction false} TotalNonnegative(ms: seq<Movement>, k: Key, out: bool)
    requires forall m | m in ms :: m.amount >= 0
    ensures Total(ms, k, out) >= 0
  {
    if ms != [] {
      assert ms[|ms| - 1] in ms && forall m | m in ms[..|ms| - 1] :: m in ms;
      TotalNonnegative(ms[..|ms| - 1], k, out);
    }
  }

  lemma {:induction false} LegsNonnegative(p: Postings, id: nat, d: Time)
    requires forall q | q in p :: q.Resolved()
    ensures forall m | m in Legs(p, id, d) :: m.amount >= 0
  {
    if p != [] {
      assert p[|p| - 1] in p && forall q | q in p[..|p| - 1] :: q in p;
      LegsNonnegative(p[..|p| - 1], id, d);
    }
  }

  lemma {:induction false} LogNonnegative(logs: seq<Log>, from: nat)
    requires from <= |logs| && FiguresOk(logs)
    ensures forall m | m in LogMovements(logs[from..]) :: m.amount >= 0
    decreases |logs| - from
  {
    var rest := logs[from..];
    if rest != [] {
      var l := |logs| - 1;
      assert rest[..|rest| - 1] == logs[..l][from..] && rest[|rest| - 1] == logs[l];
      assert FiguresOk(logs[..l]) by {
        forall i | 0 <= i < l ensures FiguresAt(logs[..l], i) { assert FiguresAt(logs, i); }
      }
      LogNonnegative(logs[..l], from);
      assert FiguresAt(logs, l);
      if CarriedTx(logs[l]).Some? { var t := CarriedTx(logs[l]).value; LegsNonnegative(t.postings, t.id, t.timestamp); }
    }
  }

  /** The two counters of a row only ever increase, whatever runs. */
  lemma {:induction false} VolumesOnlyGrow(db: Db, ops: seq<Op>, k: Key)
    requires Inv(db) && forall op | op in ops :: Sensible(op)
    ensures var a, b := RowVolumes(db.rows, k), RowVolumes(Run(db, ops).rows, k);
            a.input <= b.input && a.output <= b.output
  {
    RunExtends(db, ops);
    GrownBy(db, Run(db, ops), k);
  }

  lemma {:induction false} GrownBy(a: Db, b: Db, k: Key)
    requires RowsOk(a.rows, a.moves) && MovesOk(a.moves, a.logs) && RowsOk(b.rows, b.moves) && MovesOk(b.moves, b.logs)
    requires a.logs <= b.logs && FiguresOk(b.logs)
    ensures var v, w := RowVolumes(a.rows, k), RowVolumes(b.rows, k); v.input <= w.input && v.output <= w.output
  {
    var more := b.logs[|a.logs|..];
    assert b.logs == a.logs + more;
    assert RowVolumes(a.rows, k) == Totals(Core(a.moves), k) && RowVolumes(b.rows, k) == Totals(Core(b.moves), k);
    LogMovementsConcat(a.logs, more);
    LogNonnegative(b.logs, |a.logs|);
    TotalConcat(LogMovements(a.logs), LogMovements(more), k, false);
    TotalConcat(LogMovements(a.logs), LogMovements(more), k, true);
    TotalNonnegative(LogMovements(more), k, false);
    TotalNonnegative(LogMovements(more), k, true);
  }
}

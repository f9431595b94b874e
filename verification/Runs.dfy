/** Every operation of the ledger as a step, runs of steps, and the invariant over all of them. */
module Runs {
  import opened Ledger
  import opened History
  import opened Engine
  import opened Sweeps
  import opened Invariants

  datatype Op =
    | OpCommit(item: Item, key: string, dryRun: bool, now: Time)
    | OpBatch(items: seq<Item>, key: string, dryRun: bool, now: Time)
    | OpRevert(id: nat, atEffectiveDate: bool, now: Time)
    | OpSetTxMetadata(id: nat, metadata: Metadata)
    | OpDeleteTxMetadata(id: nat, name: string)
    | OpSetAccountMetadata(account: Address, metadata: Metadata, now: Time)
    | OpDeleteAccountMetadata(account: Address, name: string)
    | OpAllowNegative(row: Key, allow: bool)
    | OpAllowPositive(row: Key, allow: bool)
    | OpClose(account: Address, now: Time)
    | OpReopen(account: Address)
    | OpRecover(watermark: Tip, note: string)

  ghost function Perform(db: Db, op: Op): Step {
    match op
    case OpCommit(item, key, dryRun, now) => Commit(db, item, key, dryRun, now)
    case OpBatch(items, key, dryRun, now) => Batch(db, items, key, dryRun, now)
    case OpRevert(id, at, now) => Revert(db, id, at, now)
    case OpSetTxMetadata(id, m) => SetTxMetadata(db, id, m)
    case OpDeleteTxMetadata(id, name) => DeleteTxMetadata(db, id, name)
    case OpSetAccountMetadata(a, m, now) => SetAccountMetadata(db, a, m, now)
    case OpDeleteAccountMetadata(a, name) => DeleteAccountMetadata(db, a, name)
    case OpAllowNegative(k, allow) => SetAllowNegative(db, k, allow)
    case OpAllowPositive(k, allow) => SetAllowPositive(db, k, allow)
    case OpClose(a, now) => Close(db, a, now)
    case OpReopen(a) => Reopen(db, a)
    case OpRecover(t, note) => Step(RecordRecovery(db, t, note), Acknowledged)
  }

  // the one thing asked of a caller: a watermark is a position some ledger was in, where every
  // transaction had written an entry
  predicate Sensible(op: Op) { op.OpRecover? ==> op.watermark.txId <= op.watermark.logId }

  ghost function Run(db: Db, ops: seq<Op>): Db {
    if ops == [] then db else Perform(Run(db, ops[..|ops| - 1]), ops[|ops| - 1]).db
  }

  ghost predicate Reachable(db: Db) {
    exists ops: seq<Op> :: (forall op | op in ops :: Sensible(op)) && db == Run(EMPTY, ops)
  }

  // ---------------------------------------------------------------- commit

  // what was read and decided step by step is what applying in one go reads and decides
  lemma {:induction false} ApplyIsSteps(db: Db, item: Item, now: Time, seen: map<Key, Locked>, q: Postings,
                                        e: map<Key, Volumes>)
    requires seen == LockRead(db, Touched(item.postings)) && Prepare(seen, item.postings) == Done(q)
    requires e == EffectiveReads(db.moves, Touched(q), Stamp(item.timestamp, now))
    ensures Apply(db, item, now) == Write(db, item, q, Stamp(item.timestamp, now), VolumesOf(seen), e)
  {
  }

  // a write is refused for its reference, or installs the transaction it numbered
  lemma {:induction false} WriteInstalls(db: Db, item: Item, q: Postings, d: Time, before: map<Key, Volumes>,
                                         effective: map<Key, Volumes>)
    ensures var tx := Tx(db.lastTx + 1, q, d, item.reference, item.metadata, PostCommit(before, q));
            var w := Write(db, item, q, d, before, effective);
            w == if item.reference != "" && ReferenceUsed(db, item.reference) then
                Refused(DuplicateReference(item.reference))
                 else Done(Applied(Installed(db, tx, before, effective), tx))
  {
  }

  lemma {:induction false} WellFormedIsAcceptable(p: Postings)
    requires Malformed(p).None?
    ensures forall q | q in p :: q.Acceptable()
  {
    forall q | q in p ensures q.Acceptable() {
      var j :| 0 <= j < |p| && p[j] == q;
      assert PostingError(p[j]).None?;
    }
  }

  lemma {:induction false} LogsDone(db: Db, item: Item, use: Option<KeyUse>, now: Time)
    requires ApplyAndLog(db, item, use, now).Done?
    ensures var r, a := Apply(db, item, now), ApplyAndLog(db, item, use, now).value;
            r.Done? && !Taken(db.logs, use) && a.tx == r.value.tx
              && a.db == Appended(r.value.db, NewTransaction, TxData(a.tx), use)
  {
  }

  lemma {:induction false} AppendedIsLanded(db: Db, tx: Tx, before: map<Key, Volumes>, effective: map<Key, Volumes>,
                                          use: Option<KeyUse>)
    ensures Appended(Installed(db, tx, before, effective), NewTransaction, TxData(tx), use) ==
            Landed(db, tx, before, effective, use, None)
  {
  }

  // a commit or a batch item lands exactly what it decided
  lemma {:induction false} ApplyAndLogLands(db: Db, item: Item, use: Option<KeyUse>, now: Time)
    requires Inv(db) && ApplyAndLog(db, item, use, now).Done?
    requires forall q | q in item.postings :: q.Acceptable()
    ensures var a := ApplyAndLog(db, item, use, now).value;
            var ks := Touched(item.postings);
            var before, effective := VolumesOf(LockRead(db, ks)), EffectiveReads(db.moves, ks, a.tx.timestamp);
            && Touched(a.tx.postings) == ks
            && Fits(db, a.tx, before, effective)
            && a.db == Landed(db, a.tx, before, effective, use, None) && !Taken(db.logs, use)
            && (forall k | k in ks :: Within(a.db.rows[k]))
  {
    LogsDone(db, item, use, now);
    ApplyFits(db, item, now);
    var tx, ks := Apply(db, item, now).value.tx, Touched(item.postings);
    AppendedIsLanded(db, tx, VolumesOf(LockRead(db, ks)), EffectiveReads(db.moves, ks, tx.timestamp), use);
  }

  lemma {:induction false} ItemKeepsInv(db: Db, item: Item, use: Option<KeyUse>, now: Time)
    requires Inv(db) && Malformed(item.postings).None? && ApplyAndLog(db, item, use, now).Done?
    ensures Inv(ApplyAndLog(db, item, use, now).value.db)
  {
    WellFormedIsAcceptable(item.postings);
    ApplyAndLogLands(db, item, use, now);
    var a := ApplyAndLog(db, item, use, now).value;
    var ks := Touched(item.postings);
    LandKeepsInv(db, a.tx, VolumesOf(LockRead(db, ks)), EffectiveReads(db.moves, ks, a.tx.timestamp), use, None);
  }

  lemma {:induction false} CommitKeepsInv(db: Db, item: Item, key: string, dryRun: bool, now: Time)
    requires Inv(db)
    ensures Inv(Commit(db, item, key, dryRun, now).db)
  {
    if Malformed(item.postings).None? && (key == "" || FindKey(db.logs, key).None?) {
      var use := Use(key, CommitHash(item));
      if ApplyAndLog(db, item, use, now).Done? { ItemKeepsInv(db, item, use, now); }
    }
  }

  // ---------------------------------------------------------------- batch

  lemma {:induction false} MaterialisedKeepsInv(db: Db, ks: set<Key>)
    requires Inv(db)
    ensures Inv(Locking(db, ks))
  {
    var rows := Materialised(db.rows, ks);
    forall k ensures RowVolumes(rows, k) == Totals(Core(db.moves), k) {
      assert RowVolumes(db.rows, k) == Totals(Core(db.moves), k);
    }
  }

  lemma {:induction false} RunItemsLast(db: Db, items: seq<Item>, key: string, now: Time, m: nat, n: nat)
    requires n == m + 1 && n <= |items|
    ensures var r := RunItems(db, items, key, now, m);
            && (n == 1 ==> r == Done(Ran(db, [])))
            && (r.Refused? ==> RunItems(db, items, key, now, n) == r)
            && (r.Done? ==>
                  var a := ApplyAndLog(r.value.db, Tagged(items[m], key, items), BatchUse(key, items, m), now);
                  && (a.Refused? ==> RunItems(db, items, key, now, n) == Refused(BatchItemFailed(m, a.error)))
                  && (a.Done? ==>
                        RunItems(db, items, key, now, n) == Done(Ran(a.value.db, r.value.txs + [a.value.tx]))))
  {
  }

  // the batch stops at the first item that is refused
  lemma {:induction false} ItemsStop(db: Db, items: seq<Item>, key: string, now: Time, j: nat, n: nat, r: Ran)
    requires j < n <= |items| && RunItems(db, items, key, now, j) == Done(r)
    requires ApplyAndLog(r.db, Tagged(items[j], key, items), BatchUse(key, items, j), now).Refused?
    ensures var e := ApplyAndLog(r.db, Tagged(items[j], key, items), BatchUse(key, items, j), now).error;
            RunItems(db, items, key, now, n) == Refused(BatchItemFailed(j, e))
  {
    var m := n - 1;
    RunItemsLast(db, items, key, now, m, n);
    if j != m { ItemsStop(db, items, key, now, j, m, r); }
  }

  lemma {:induction false} RunItemsKeepsInv(db: Db, items: seq<Item>, key: string, now: Time, n: nat)
    requires Inv(db) && n <= |items|
    requires forall i | 0 <= i < |items| :: Malformed(items[i].postings).None?
    requires RunItems(db, items, key, now, n).Done?
    ensures Inv(RunItems(db, items, key, now, n).value.db)
  {
    if n > 0 {
      var m := n - 1;
      RunItemsLast(db, items, key, now, m, n);
      RunItemsKeepsInv(db, items, key, now, m);
      var r := RunItems(db, items, key, now, m).value;
      ItemKeepsInv(r.db, Tagged(items[m], key, items), BatchUse(key, items, m), now);
    }
  }

  // a batch changes nothing, or runs its items on the rows it locked
  ghost predicate BatchRan(db: Db, items: seq<Item>, key: string, now: Time, after: Db) {
    var r := RunItems(Locking(db, BatchTouched(items)), items, key, now, |items|);
    MalformedBatch(items).None? && r.Done? && after == r.value.db
  }

  lemma {:induction false} BatchComesTo(db: Db, items: seq<Item>, key: string, dryRun: bool, now: Time)
    ensures var after := Batch(db, items, key, dryRun, now).db; after == db || BatchRan(db, items, key, now, after)
  {
  }

  lemma {:induction false} BatchKeepsInv(db: Db, items: seq<Item>, key: string, dryRun: bool, now: Time)
    requires Inv(db)
    ensures Inv(Batch(db, items, key, dryRun, now).db)
  {
    BatchComesTo(db, items, key, dryRun, now);
    if BatchRan(db, items, key, now, Batch(db, items, key, dryRun, now).db) {
      MaterialisedKeepsInv(db, BatchTouched(items));
      RunItemsKeepsInv(Locking(db, BatchTouched(items)), items, key, now, |items|);
    }
  }

  // ---------------------------------------------------------------- revert

  lemma {:induction false} StoredFigures(db: Db, id: nat)
    requires TxsOk(db.txs, db.logs, db.lastTx) && FiguresOk(db.logs) && id in db.txs
    ensures forall q | q in db.txs[id].tx.postings :: q.Resolved()
  {
    LoggedIdsExact(db.logs, id);
    var i :| 0 <= i < |db.logs| && CarriedTx(db.logs[i]).Some? && CarriedTx(db.logs[i]).value.id == id;
    assert EntryStored(db.txs, db.logs, i) && FiguresAt(db.logs, i);
  }

  lemma {:induction false} LoggedIdsExact(logs: seq<Log>, id: nat)
    ensures id in LoggedIds(logs) <==> exists i | 0 <= i < |logs| ::
              CarriedTx(logs[i]).Some? && CarriedTx(logs[i]).value.id == id
  {
    if logs != [] {
      var l := |logs| - 1;
      LoggedIdsExact(logs[..l], id);
      assert forall i | 0 <= i < l :: logs[..l][i] == logs[i];
    }
  }

  lemma {:induction false} ReversedFigures(p: Postings)
    requires forall q | q in p :: q.Resolved()
    ensures forall q | q in Reversed(p) :: q.Resolved() && q.Acceptable() && !q.upTo
  {
    forall q | q in Reversed(p) ensures q.Resolved() {
      var i :| 0 <= i < |p| && Reversed(p)[i] == q;
      assert p[|p| - 1 - i] in p;
    }
  }

  lemma {:induction false} RevertFits(db: Db, id: nat, atEffectiveDate: bool, now: Time)
    requires Inv(db) && id in db.txs && Apply(db, RevertItem(db.txs[id], id, atEffectiveDate, now), now).Done?
    ensures var a := Apply(db, RevertItem(db.txs[id], id, atEffectiveDate, now), now).value;
            var ks := Touched(a.tx.postings);
            var before, effective := VolumesOf(LockRead(db, ks)), EffectiveReads(db.moves, ks, a.tx.timestamp);
            && a.tx.postings == Reversed(db.txs[id].tx.postings)
            && Fits(db, a.tx, before, effective)
            && a.db == Installed(db, a.tx, before, effective)
            && (forall k | k in ks :: Within(a.db.rows[k]))
  {
    var item := RevertItem(db.txs[id], id, atEffectiveDate, now);
    StoredFigures(db, id);
    ReversedFigures(db.txs[id].tx.postings);
    ApplyFixed(db, item, now);
    ApplyFits(db, item, now);
  }

  // without a sweep, what is written is what was asked
  lemma {:induction false} ApplyFixed(db: Db, item: Item, now: Time)
    requires Apply(db, item, now).Done? && forall q | q in item.postings :: !q.upTo
    ensures Apply(db, item, now).value.tx.postings == item.postings
  {
    var before := LockRead(db, Touched(item.postings));
    NothingToResolve(item.postings, before);
    assert Prepare(before, item.postings).value == item.postings;
  }

  /** A reversal lands the inverse postings exactly, stamps the original and nothing else. */
  lemma {:induction false} RevertLands(db: Db, id: nat, atEffectiveDate: bool, now: Time)
    requires Inv(db) && Revert(db, id, atEffectiveDate, now).reply.RevertedBy?
    ensures var s := Revert(db, id, atEffectiveDate, now);
            var tx := s.reply.tx;
            var ks := Touched(tx.postings);
            var before, effective := VolumesOf(LockRead(db, ks)), EffectiveReads(db.moves, ks, tx.timestamp);
            && UndoFits(db, tx, Some(id)) && Fits(db, tx, before, effective)
            && s.db == Landed(db, tx, before, effective, None, Some(id))
            && (forall k | k in ks :: Within(s.db.rows[k]))
  {
    RevertFits(db, id, atEffectiveDate, now);
  }

  lemma {:induction false} RevertKeepsInv(db: Db, id: nat, atEffectiveDate: bool, now: Time)
    requires Inv(db)
    ensures Inv(Revert(db, id, atEffectiveDate, now).db)
  {
    if Revert(db, id, atEffectiveDate, now).reply.RevertedBy? {
      RevertLands(db, id, atEffectiveDate, now);
      var tx := Revert(db, id, atEffectiveDate, now).reply.tx;
      var ks := Touched(tx.postings);
      LandKeepsInv(db, tx, VolumesOf(LockRead(db, ks)), EffectiveReads(db.moves, ks, tx.timestamp), None, Some(id));
    }
  }

  // ---------------------------------------------------------------- metadata

  function MetadataLog(db: Db, kind: LogKind, data: Data): Log {
    Log(db.lastLog + 1, kind, data, Chained(db.tip, data), None)
  }

  // the entry that takes one target's metadata from m to m'
  predicate Rewrites(l: Log, target: Target, m: Metadata, m': Metadata) {
    || (l.kind == SetMetadata && l.data.SetMetadataData? && l.data.target == target && m' == m + l.data.metadata)
    || (l.kind == DeleteMetadata && l.data.DeleteMetadataData? && l.data.target == target && m' == m - {l.data.key})
  }

  lemma {:induction false} FoldsOne(l: Log, target: Target, m: Metadata, m': Metadata, t: Target, held: Metadata)
    requires Rewrites(l, target, m, m') && (target == t ==> m == held)
    ensures CarriedTx(l).None? && FoldOne(held, l, t) == if target == t then m' else held
  {
  }

  // an entry folds into the metadata of its target, and leaves every other target alone
  lemma {:induction false} TxFolds(logs: seq<Log>, l: Log, target: Target, m: Metadata, m': Metadata, id: nat)
    requires Rewrites(l, target, m, m')
    requires target == OnTransaction(id) ==> m == FoldTx(logs, id)
    ensures FoldTx(logs + [l], id) == if target == OnTransaction(id) then m' else FoldTx(logs, id)
  {
    FoldTxSnoc(logs, l, id);
    FoldsOne(l, target, m, m', OnTransaction(id), FoldTx(logs, id));
  }

  lemma {:induction false} AccountFolds(logs: seq<Log>, l: Log, target: Target, m: Metadata, m': Metadata, a: Address)
    requires Rewrites(l, target, m, m')
    requires target == OnAccount(a) ==> m == FoldAccount(logs, a)
    ensures FoldAccount(logs + [l], a) == if target == OnAccount(a) then m' else FoldAccount(logs, a)
  {
    FoldAccountSnoc(logs, l, a);
    FoldsOne(l, target, m, m', OnAccount(a), FoldAccount(logs, a));
  }

  lemma {:induction false} TxMetadataMoves(txs: map<nat, TxRow>, logs: seq<Log>, l: Log, id: nat, m: Metadata)
    requires TxMetadataOk(txs, logs) && id in txs && Rewrites(l, OnTransaction(id), txs[id].metadata, m)
    ensures TxMetadataOk(txs[id := txs[id].(metadata := m)], logs + [l])
  {
    forall x | x in txs ensures FoldTx(logs + [l], x) == if x == id then m else txs[x].metadata {
      TxFolds(logs, l, OnTransaction(id), txs[id].metadata, m, x);
    }
  }

  lemma {:induction false} TxMetadataStays(txs: map<nat, TxRow>, logs: seq<Log>, l: Log, a: Address, m: Metadata,
                                          m': Metadata)
    requires TxMetadataOk(txs, logs) && Rewrites(l, OnAccount(a), m, m')
    ensures TxMetadataOk(txs, logs + [l])
  {
    forall x | x in txs ensures FoldTx(logs + [l], x) == txs[x].metadata { TxFolds(logs, l, OnAccount(a), m, m', x); }
  }

  lemma {:induction false} AccountMetadataMoves(accounts: map<Address, Account>, logs: seq<Log>, l: Log, a: Address,
                                          account: Account)
    requires AccountMetadataOk(accounts, logs)
    requires Rewrites(l, OnAccount(a), MetadataOf(accounts, a), account.metadata)
    ensures AccountMetadataOk(accounts[a := account], logs + [l])
  {
    forall x ensures MetadataOf(accounts[a := account], x) == FoldAccount(logs + [l], x) {
      assert MetadataOf(accounts, x) == FoldAccount(logs, x);
      AccountFolds(logs, l, OnAccount(a), MetadataOf(accounts, a), account.metadata, x);
    }
  }

  lemma {:induction false} AccountMetadataStays(accounts: map<Address, Account>, logs: seq<Log>, l: Log, id: nat,
                                          m: Metadata, m': Metadata)
    requires AccountMetadataOk(accounts, logs) && Rewrites(l, OnTransaction(id), m, m')
    ensures AccountMetadataOk(accounts, logs + [l])
  {
    forall x ensures MetadataOf(accounts, x) == FoldAccount(logs + [l], x) {
      assert MetadataOf(accounts, x) == FoldAccount(logs, x);
      AccountFolds(logs, l, OnTransaction(id), m, m', x);
    }
  }

  lemma {:induction false} TxRewritten(db: Db, id: nat, kind: LogKind, data: Data, m: Metadata, r: Db)
    requires id in db.txs && r == AppendedNext(db.(txs := db.txs[id := db.txs[id].(metadata := m)]), kind, data)
    ensures var l := MetadataLog(db, kind, data);
            && r.logs == db.logs + [l] && r.lastLog == l.id && r.tip == l.hash && r.lastTx == db.lastTx
            && r.rows == db.rows && r.moves == db.moves && r.accounts == db.accounts
            && r.txs == db.txs[id := db.txs[id].(metadata := m)]
  {
  }

  lemma {:induction false} TxMetadataKeepsInv(db: Db, id: nat, kind: LogKind, data: Data, m: Metadata)
    requires Inv(db) && id in db.txs && Rewrites(MetadataLog(db, kind, data), OnTransaction(id), db.txs[id].metadata, m)
    ensures Inv(AppendedNext(db.(txs := db.txs[id := db.txs[id].(metadata := m)]), kind, data))
  {
    var l := MetadataLog(db, kind, data);
    var r := AppendedNext(db.(txs := db.txs[id := db.txs[id].(metadata := m)]), kind, data);
    TxRewritten(db, id, kind, data, m, r);
    LogOkSnoc(db.logs, db.lastLog, db.tip, l);
    TxMetadataMoves(db.txs, db.logs, l, id, m);
    AccountMetadataStays(db.accounts, db.logs, l, id, db.txs[id].metadata, m);
    QuietEntry(db, r, l);
  }

  lemma {:induction false} ClosedStays(rows: map<Key, Row>, accounts: map<Address, Account>, a: Address,
                                       account: Account)
    requires ClosedOk(rows, accounts) && (account.closed ==> a in accounts && accounts[a].closed)
    ensures ClosedOk(rows, accounts[a := account])
  {
  }

  lemma {:induction false} AccountMetadataKeepsInv(db: Db, a: Address, account: Account, kind: LogKind, data: Data)
    requires Inv(db) && account.closed == Closed(db, a)
    requires Rewrites(MetadataLog(db, kind, data), OnAccount(a), MetadataOf(db.accounts, a), account.metadata)
    ensures Inv(AppendedNext(db.(accounts := db.accounts[a := account]), kind, data))
  {
    var l := MetadataLog(db, kind, data);
    LogOkSnoc(db.logs, db.lastLog, db.tip, l);
    AccountMetadataMoves(db.accounts, db.logs, l, a, account);
    TxMetadataStays(db.txs, db.logs, l, a, MetadataOf(db.accounts, a), account.metadata);
    ClosedStays(db.rows, db.accounts, a, account);
    QuietEntry(db, AppendedNext(db.(accounts := db.accounts[a := account]), kind, data), l);
  }

  lemma {:induction false} SetTxMetadataKeepsInv(db: Db, id: nat, m: Metadata)
    requires Inv(db)
    ensures Inv(SetTxMetadata(db, id, m).db)
  {
    if m != map[] && id in db.txs && !Contains(db.txs[id].metadata, m) {
      TxMetadataKeepsInv(db, id, SetMetadata, SetMetadataData(OnTransaction(id), m), db.txs[id].metadata + m);
    }
  }

  lemma {:induction false} DeleteTxMetadataKeepsInv(db: Db, id: nat, name: string)
    requires Inv(db)
    ensures Inv(DeleteTxMetadata(db, id, name).db)
  {
    if name != "" && id in db.txs && name in db.txs[id].metadata {
      TxMetadataKeepsInv(db, id, DeleteMetadata, DeleteMetadataData(OnTransaction(id), name),
          db.txs[id].metadata - {name});
    }
  }

  lemma {:induction false} SetAccountMetadataKeepsInv(db: Db, a: Address, m: Metadata, now: Time)
    requires Inv(db)
    ensures Inv(SetAccountMetadata(db, a, m, now).db)
  {
    if m != map[] && !(a in db.accounts && Contains(db.accounts[a].metadata, m)) {
      var account := if a in db.accounts then db.accounts[a].(metadata := db.accounts[a].metadata + m)
                     else Account(m, Stamp(now, now), false);
      assert account.metadata == MetadataOf(db.accounts, a) + m;
      AccountMetadataKeepsInv(db, a, account, SetMetadata, SetMetadataData(OnAccount(a), m));
    }
  }

  lemma {:induction false} DeleteAccountMetadataKeepsInv(db: Db, a: Address, name: string)
    requires Inv(db)
    ensures Inv(DeleteAccountMetadata(db, a, name).db)
  {
    if name != "" && a in db.accounts && name in db.accounts[a].metadata {
      AccountMetadataKeepsInv(db, a, db.accounts[a].(metadata := db.accounts[a].metadata - {name}),
                              DeleteMetadata, DeleteMetadataData(OnAccount(a), name));
    }
  }

  // ---------------------------------------------------------------- policy, closure, recovery

  lemma {:induction false} PolicyKeepsInv(db: Db, k: Key, row: Row)
    requires Inv(db) && row.volumes == RowVolumes(db.rows, k)
    ensures Inv(db.(rows := db.rows[k := row]))
  {
    var rows := db.rows[k := row];
    forall x ensures RowVolumes(rows, x) == Totals(Core(db.moves), x) {
      assert RowVolumes(db.rows, x) == Totals(Core(db.moves), x);
    }
  }

  lemma {:induction false} AllowNegativeKeepsInv(db: Db, k: Key, allow: bool)
    requires Inv(db)
    ensures Inv(SetAllowNegative(db, k, allow).db)
  {
    PolicyKeepsInv(db, k, if k in db.rows then db.rows[k].(allowNegative := allow) else Row(ZERO, allow, true));
  }

  lemma {:induction false} AllowPositiveKeepsInv(db: Db, k: Key, allow: bool)
    requires Inv(db)
    ensures Inv(SetAllowPositive(db, k, allow).db)
  {
    PolicyKeepsInv(db, k, if k in db.rows then db.rows[k].(allowPositive := allow) else Row(ZERO, false, allow));
  }

  lemma {:induction false} ClosureKeepsInv(db: Db, a: Address, account: Account)
    requires Inv(db) && account.metadata == MetadataOf(db.accounts, a)
    requires account.closed ==> Empty(db, a)
    ensures Inv(db.(accounts := db.accounts[a := account]))
  {
    var accounts := db.accounts[a := account];
    forall x ensures MetadataOf(accounts, x) == FoldAccount(db.logs, x) {
      assert MetadataOf(db.accounts, x) == FoldAccount(db.logs, x);
    }
  }

  lemma {:induction false} CloseKeepsInv(db: Db, a: Address, now: Time)
    requires Inv(db)
    ensures Inv(Close(db, a, now).db)
  {
    if Empty(db, a) {
      ClosureKeepsInv(db, a, if a in db.accounts then db.accounts[a].(closed := true) else Account(map[], now, true));
    }
  }

  lemma {:induction false} ReopenKeepsInv(db: Db, a: Address)
    requires Inv(db)
    ensures Inv(Reopen(db, a).db)
  {
    if Closed(db, a) { ClosureKeepsInv(db, a, db.accounts[a].(closed := false)); }
  }

  lemma {:induction false} QuietRecovery(txs: map<nat, TxRow>, accounts: map<Address, Account>, logs: seq<Log>, l: Log)
    requires TxMetadataOk(txs, logs) && AccountMetadataOk(accounts, logs) && l.kind == Recovery
    ensures TxMetadataOk(txs, logs + [l]) && AccountMetadataOk(accounts, logs + [l])
  {
    forall id | id in txs ensures txs[id].metadata == FoldTx(logs + [l], id) { FoldTxSnoc(logs, l, id); }
    forall a ensures MetadataOf(accounts, a) == FoldAccount(logs + [l], a) {
      assert MetadataOf(accounts, a) == FoldAccount(logs, a);
      FoldAccountSnoc(logs, l, a);
    }
  }

  lemma {:induction false} RecoveryKeepsInv(db: Db, t: Tip, note: string)
    requires Inv(db) && t.txId <= t.logId
    ensures Inv(RecordRecovery(db, t, note))
  {
    if !PastTip(db, t) {
      var r := RecordRecovery(db, t, note);
      var data := RecoveryData(db.lastLog, t.logId, note);
      var l := Log(Max(db.lastLog, t.logId) + 1, Recovery, data, Chained(db.tip, data), None);
      assert r.logs == db.logs + [l];
      LogOkSnoc(db.logs, db.lastLog, db.tip, l);
      QuietRecovery(db.txs, db.accounts, db.logs, l);
      QuietEntry(db, r, l);
    }
  }

  predicate Moving(op: Op) { op.OpCommit? || op.OpBatch? || op.OpRevert? || op.OpRecover? }

  lemma {:induction false} MovingKeepsInv(db: Db, op: Op)
    requires Inv(db) && Sensible(op) && Moving(op)
    ensures Inv(Perform(db, op).db)
  {
    match op
    case OpCommit(item, key, dryRun, now) => CommitKeepsInv(db, item, key, dryRun, now);
    case OpBatch(items, key, dryRun, now) => BatchKeepsInv(db, items, key, dryRun, now);
    case OpRevert(id, at, now) => RevertKeepsInv(db, id, at, now);
    case OpRecover(t, note) => RecoveryKeepsInv(db, t, note);
  }

  predicate Tagging(op: Op) {
    op.OpSetTxMetadata? || op.OpDeleteTxMetadata? || op.OpSetAccountMetadata? || op.OpDeleteAccountMetadata?
  }

  lemma {:induction false} TaggingKeepsInv(db: Db, op: Op)
    requires Inv(db) && Tagging(op)
    ensures Inv(Perform(db, op).db)
  {
    match op
    case OpSetTxMetadata(id, m) => SetTxMetadataKeepsInv(db, id, m);
    case OpDeleteTxMetadata(id, name) => DeleteTxMetadataKeepsInv(db, id, name);
    case OpSetAccountMetadata(a, m, now) => SetAccountMetadataKeepsInv(db, a, m, now);
    case OpDeleteAccountMetadata(a, name) => DeleteAccountMetadataKeepsInv(db, a, name);
  }

  lemma {:induction false} SettingKeepsInv(db: Db, op: Op)
    requires Inv(db) && !Moving(op) && !Tagging(op)
    ensures Inv(Perform(db, op).db)
  {
    match op
    case OpAllowNegative(k, allow) => AllowNegativeKeepsInv(db, k, allow);
    case OpAllowPositive(k, allow) => AllowPositiveKeepsInv(db, k, allow);
    case OpClose(a, now) => CloseKeepsInv(db, a, now);
    case OpReopen(a) => ReopenKeepsInv(db, a);
  }

  /** Every operation keeps every invariant. */
  lemma {:induction false} StepKeepsInv(db: Db, op: Op)
    requires Inv(db) && Sensible(op)
    ensures Inv(Perform(db, op).db)
  {
    if Moving(op) {
      MovingKeepsInv(db, op);
    } else if Tagging(op) {
      TaggingKeepsInv(db, op);
    } else {
      SettingKeepsInv(db, op);
    }
  }

  /** Safety over whole runs: whatever mixture of operations ran, every invariant holds. */
  lemma {:induction false} RunKeepsInv(db: Db, ops: seq<Op>)
    requires Inv(db) && forall op | op in ops :: Sensible(op)
    ensures Inv(Run(db, ops))
  {
    if ops != [] {
      assert ops[|ops| - 1] in ops;
      RunKeepsInv(db, ops[..|ops| - 1]);
      StepKeepsInv(Run(db, ops[..|ops| - 1]), ops[|ops| - 1]);
    }
  }

  lemma {:induction false} ReachableInv(db: Db)
    requires Reachable(db)
    ensures Inv(db)
  {
    var ops :| (forall op | op in ops :: Sensible(op)) && db == Run(EMPTY, ops);
    EmptyInv();
    RunKeepsInv(EMPTY, ops);
  }
}

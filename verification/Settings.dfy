/** The operations of one statement or of one entry: metadata, policy, closure, recovery. Which reply each gives,
    exactly when, and what every table holds afterwards, said of the request and the tables before it. */
module Settings {
  import opened Ledger
  import opened Engine
  import opened Invariants
  import opened Runs

  // ---------------------------------------------------------------- entries

  predicate NoEntry(db: Db, r: Db) { r.logs == db.logs && r.lastLog == db.lastLog && r.tip == db.tip }

  // one entry more, under the next id, saying this
  predicate OneEntry(db: Db, r: Db, kind: LogKind, data: Data) {
    && r.logs == db.logs + [Log(db.lastLog + 1, kind, data, Chained(db.tip, data), None)]
    && r.lastLog == db.lastLog + 1 && r.tip == Chained(db.tip, data)
  }

  // an entry carrying the request exactly when something changed
  predicate EntryIf(changed: bool, db: Db, r: Db, kind: LogKind, data: Data) {
    if changed then OneEntry(db, r, kind, data) else NoEntry(db, r)
  }

  // ---------------------------------------------------------------- metadata

  // every key asked for holds what was asked, and every other what it held
  ghost predicate Merged(was: Metadata, m: Metadata, now: Metadata) {
    && (forall k :: k in now <==> k in was || k in m)
    && forall k | k in now :: now[k] == if k in m then m[k] else was[k]
  }

  // the key is gone, and nothing else is
  ghost predicate Removed(was: Metadata, key: string, now: Metadata) {
    && (forall k :: k in now <==> k in was && k != key)
    && forall k | k in now :: now[k] == was[k]
  }

  predicate OnlyTxs(db: Db, r: Db) {
    r.rows == db.rows && r.accounts == db.accounts && r.moves == db.moves && r.lastTx == db.lastTx
  }

  // one transaction's metadata and no more of the table
  ghost predicate Retagged(db: Db, r: Db, id: nat)
    requires id in db.txs
  {
    && r.txs.Keys == db.txs.Keys
    && r.txs[id].tx == db.txs[id].tx && r.txs[id].revertedAt == db.txs[id].revertedAt
    && forall x | x in db.txs && x != id :: r.txs[x] == db.txs[x]
  }

  /** Setting a transaction's metadata. Refused for nothing to set, and for a transaction that is not there.
      Otherwise every key asked for holds what was asked for, everything else of every table is as it was, and
      one entry carrying the request is appended if and only if the metadata differs from before. */
  lemma {:induction false} TxMetadataSet(db: Db, id: nat, m: Metadata)
    ensures var s := SetTxMetadata(db, id, m);
            if m == map[] then s == Step(db, Rejected(EmptyMetadata))
            else if id !in db.txs then s == Step(db, Rejected(NotFound))
            else
              && s.reply == Acknowledged && OnlyTxs(db, s.db) && Retagged(db, s.db, id)
              && Merged(db.txs[id].metadata, m, s.db.txs[id].metadata)
              && EntryIf(s.db.txs[id].metadata != db.txs[id].metadata, db, s.db, SetMetadata,
                         SetMetadataData(OnTransaction(id), m))
  {
    if m != map[] && id in db.txs && !Contains(db.txs[id].metadata, m) {
      var k :| k in m && !(k in db.txs[id].metadata && db.txs[id].metadata[k] == m[k]);
      assert (db.txs[id].metadata + m)[k] == m[k];
    }
  }

  /** Deleting one key of a transaction. */
  lemma {:induction false} TxMetadataDeleted(db: Db, id: nat, key: string)
    ensures var s := DeleteTxMetadata(db, id, key);
            if key == "" then s == Step(db, Rejected(EmptyMetadataKey))
            else if id !in db.txs then s == Step(db, Rejected(NotFound))
            else
              && s.reply == Acknowledged && OnlyTxs(db, s.db) && Retagged(db, s.db, id)
              && Removed(db.txs[id].metadata, key, s.db.txs[id].metadata)
              && EntryIf(s.db.txs[id].metadata != db.txs[id].metadata, db, s.db, DeleteMetadata,
                         DeleteMetadataData(OnTransaction(id), key))
  {
    if id in db.txs && key in db.txs[id].metadata { assert key !in db.txs[id].metadata - {key}; }
  }

  predicate OnlyAccounts(db: Db, r: Db) {
    r.rows == db.rows && r.txs == db.txs && r.moves == db.moves && r.lastTx == db.lastTx
  }

  ghost predicate OtherAccounts(db: Db, r: Db, a: Address) {
    forall x | x != a ::
      (x in r.accounts <==> x in db.accounts) && (x in db.accounts ==> r.accounts[x] == db.accounts[x])
  }

  // first used at the microsecond it was created in
  predicate CreatedAt(account: Account, now: Time) {
    account.firstUsage % 1000 == 0 && account.firstUsage <= now < account.firstUsage + 1000 && !account.closed
  }

  /** Setting an account's metadata; an account nothing has used is created for it. */
  lemma {:induction false} AccountMetadataSet(db: Db, a: Address, m: Metadata, now: Time)
    ensures var s := SetAccountMetadata(db, a, m, now);
            if m == map[] then s == Step(db, Rejected(EmptyMetadata))
            else
              && s.reply == Acknowledged && OnlyAccounts(db, s.db) && OtherAccounts(db, s.db, a)
              && a in s.db.accounts
              && Merged(MetadataOf(db.accounts, a), m, s.db.accounts[a].metadata)
              && (if a in db.accounts then
                    s.db.accounts[a].firstUsage == db.accounts[a].firstUsage
                      && s.db.accounts[a].closed == db.accounts[a].closed
                  else CreatedAt(s.db.accounts[a], now))
              && EntryIf(s.db.accounts[a].metadata != MetadataOf(db.accounts, a), db, s.db, SetMetadata,
                         SetMetadataData(OnAccount(a), m))
  {
    if m != map[] && a in db.accounts && !Contains(db.accounts[a].metadata, m) {
      var k :| k in m && !(k in db.accounts[a].metadata && db.accounts[a].metadata[k] == m[k]);
      assert (db.accounts[a].metadata + m)[k] == m[k];
    }
  }

  /** Deleting one key of an account. */
  lemma {:induction false} AccountMetadataDeleted(db: Db, a: Address, key: string)
    ensures var s := DeleteAccountMetadata(db, a, key);
            if key == "" then s == Step(db, Rejected(EmptyMetadataKey))
            else if a !in db.accounts then s == Step(db, Rejected(NotFound))
            else
              && s.reply == Acknowledged && OnlyAccounts(db, s.db) && OtherAccounts(db, s.db, a)
              && a in s.db.accounts
              && Removed(db.accounts[a].metadata, key, s.db.accounts[a].metadata)
              && s.db.accounts[a].firstUsage == db.accounts[a].firstUsage
              && s.db.accounts[a].closed == db.accounts[a].closed
              && EntryIf(s.db.accounts[a].metadata != db.accounts[a].metadata, db, s.db, DeleteMetadata,
                         DeleteMetadataData(OnAccount(a), key))
  {
    if a in db.accounts && key in db.accounts[a].metadata { assert key !in db.accounts[a].metadata - {key}; }
  }

  // ---------------------------------------------------------------- policy

  predicate OnlyRows(db: Db, r: Db) {
    && r.accounts == db.accounts && r.txs == db.txs && r.moves == db.moves && r.lastTx == db.lastTx
    && NoEntry(db, r)
  }

  ghost predicate OtherRows(db: Db, r: Db, k: Key) {
    r.rows.Keys == db.rows.Keys + {k} && forall x | x in db.rows && x != k :: r.rows[x] == db.rows[x]
  }

  /** Allowing or refusing a negative balance: the flag is the one asked for, a new row holds nothing and may be
      positive, and everything else stays. World cannot be refused. */
  lemma {:induction false} NegativeAllowed(db: Db, k: Key, allow: bool)
    ensures var s := SetAllowNegative(db, k, allow);
            if k.account == WORLD && !allow then s == Step(db, Rejected(WorldMustAllowNegative))
            else
              && s.reply == Acknowledged && OnlyRows(db, s.db) && OtherRows(db, s.db, k)
              && s.db.rows[k].allowNegative == allow
              && s.db.rows[k].allowPositive == (k in db.rows ==> db.rows[k].allowPositive)
              && s.db.rows[k].volumes == if k in db.rows then db.rows[k].volumes else Volumes(0, 0)
  {
  }

  /** The same of a positive balance; a new row, world's too, may not be negative. */
  lemma {:induction false} PositiveAllowed(db: Db, k: Key, allow: bool)
    ensures var s := SetAllowPositive(db, k, allow);
            if k.account == WORLD && !allow then s == Step(db, Rejected(WorldMustAllowNegative))
            else
              && s.reply == Acknowledged && OnlyRows(db, s.db) && OtherRows(db, s.db, k)
              && s.db.rows[k].allowPositive == allow
              && s.db.rows[k].allowNegative == (k in db.rows && db.rows[k].allowNegative)
              && s.db.rows[k].volumes == if k in db.rows then db.rows[k].volumes else Volumes(0, 0)
  {
  }

  // ---------------------------------------------------------------- closure

  // some asset in which what came in is not what went out
  ghost predicate Unsettled(db: Db, a: Address) {
    exists k | k in db.rows :: k.account == a && db.rows[k].volumes.input != db.rows[k].volumes.output
  }

  /** Closing is refused to world and to an account that holds something in some asset, and otherwise the account
      is closed, with its metadata and first use as they were, and nothing else changes. */
  lemma {:induction false} CloseCloses(db: Db, a: Address, now: Time)
    ensures var s := Close(db, a, now);
            if a == WORLD then s == Step(db, Rejected(ClosureRefused))
            else if Unsettled(db, a) then s == Step(db, Rejected(AccountNotEmpty))
            else
              && s.reply == Acknowledged && OnlyAccounts(db, s.db) && NoEntry(db, s.db) && OtherAccounts(db, s.db, a)
              && a in s.db.accounts && s.db.accounts[a].closed
              && (if a in db.accounts then
                    s.db.accounts[a].metadata == db.accounts[a].metadata
                      && s.db.accounts[a].firstUsage == db.accounts[a].firstUsage
                  else s.db.accounts[a].metadata == map[] && s.db.accounts[a].firstUsage == now)
  {
    assert Unsettled(db, a) <==> !Empty(db, a) by {
      if !Empty(db, a) { var k :| k in db.rows && k.account == a && db.rows[k].volumes.Balance() != 0; }
    }
  }

  /** Reopening a closed account opens it, with its metadata and first use as they were, and changes nothing else;
      any other account is refused, and nothing changes. */
  lemma {:induction false} ReopenOpens(db: Db, a: Address)
    ensures var s := Reopen(db, a);
            if a in db.accounts && db.accounts[a].closed then
              && s.reply == Acknowledged && OnlyAccounts(db, s.db) && NoEntry(db, s.db) && OtherAccounts(db, s.db, a)
              && a in s.db.accounts && !s.db.accounts[a].closed
              && s.db.accounts[a].metadata == db.accounts[a].metadata
              && s.db.accounts[a].firstUsage == db.accounts[a].firstUsage
            else s == Step(db, Rejected(NotClosed))
  {
  }

  // the same tables but for the accounts, and the same accounts closed
  ghost predicate SameToCommits(a: Db, b: Db) {
    && OnlyAccounts(a, b) && NoEntry(a, b)
    && forall x {:trigger Closed(b, x)} :: Closed(b, x) == Closed(a, x)
  }

  lemma {:induction false} SameLocks(a: Db, b: Db, ks: set<Key>)
    requires SameToCommits(a, b)
    ensures LockRead(b, ks) == LockRead(a, ks)
  {
    forall k | k in ks ensures LockedAt(b, k) == LockedAt(a, k) { assert Closed(b, k.account) == Closed(a, k.account); }
  }

  ghost predicate SameOutcome(x: Outcome<Applied>, y: Outcome<Applied>) {
    if x.Refused? then y == x else y.Done? && y.value.tx == x.value.tx && y.value.db.logs == x.value.db.logs
  }

  lemma {:induction false} SameWrite(a: Db, b: Db, item: Item, q: Postings, d: Time, before: map<Key, Volumes>,
                                     effective: map<Key, Volumes>)
    requires SameToCommits(a, b)
    ensures SameOutcome(Write(a, item, q, d, before, effective), Write(b, item, q, d, before, effective))
  {
    WriteInstalls(a, item, q, d, before, effective);
    WriteInstalls(b, item, q, d, before, effective);
  }

  lemma {:induction false} SameApply(a: Db, b: Db, item: Item, now: Time)
    requires SameToCommits(a, b)
    ensures SameOutcome(Apply(a, item, now), Apply(b, item, now))
  {
    var seen := LockRead(a, Touched(item.postings));
    SameLocks(a, b, Touched(item.postings));
    var r := Prepare(seen, item.postings);
    if r.Done? {
      var d := Stamp(item.timestamp, now);
      var e := EffectiveReads(a.moves, Touched(r.value), d);
      ApplyIsSteps(a, item, now, seen, r.value, e);
      ApplyIsSteps(b, item, now, seen, r.value, e);
      SameWrite(a, b, item, r.value, d, VolumesOf(seen), e);
    }
  }

  lemma {:induction false} SameAnswer(a: Db, b: Db, item: Item, key: string, dryRun: bool, now: Time)
    requires SameToCommits(a, b)
    ensures Commit(b, item, key, dryRun, now).reply == Commit(a, item, key, dryRun, now).reply
  {
    SameApply(a, b, item, now);
  }

  /** Closing and reopening leaves no mark a commit can tell: whatever is asked next is answered as it would have
      been had the account never been closed. */
  lemma {:induction false} ReopenedAsBefore(db: Db, a: Address, at: Time, item: Item, key: string, dryRun: bool,
                                            now: Time)
    requires Close(db, a, at).reply.Acknowledged? && !(a in db.accounts && db.accounts[a].closed)
    ensures var r := Reopen(Close(db, a, at).db, a);
            && r.reply.Acknowledged? && (a in db.accounts ==> r.db == db)
            && Commit(r.db, item, key, dryRun, now).reply == Commit(db, item, key, dryRun, now).reply
  {
    var c := Close(db, a, at).db;
    var r := Reopen(c, a).db;
    CloseCloses(db, a, at);
    ReopenOpens(c, a);
    forall x ensures Closed(r, x) == Closed(db, x) { }
    SameAnswer(db, r, item, key, dryRun, now);
    if a in db.accounts { assert r.accounts[a] == db.accounts[a] && r.accounts == db.accounts; }
  }

  // the tables as they are but for this one flag
  function Unflagged(db: Db, a: Address): Db
    requires a in db.accounts
  {
    db.(accounts := db.accounts[a := Account(db.accounts[a].metadata, db.accounts[a].firstUsage, false)])
  }

  /** And whenever it was closed: a commit after reopening is answered as by the same tables without the flag. */
  lemma {:induction false} ReopenedIsUnflagged(db: Db, a: Address, item: Item, key: string, dryRun: bool, now: Time)
    requires a in db.accounts && db.accounts[a].closed
    ensures Commit(Reopen(db, a).db, item, key, dryRun, now) == Commit(Unflagged(db, a), item, key, dryRun, now)
  {
    assert Reopen(db, a).db.accounts == Unflagged(db, a).accounts;
  }

  // ---------------------------------------------------------------- recovery

  /** Recording a recovery does nothing to a ledger past the watermark in both counters. Otherwise each counter
      stands at the further of the two, one entry takes the id after that and declares where the log had got to and
      what was skipped, and no other table changes. */
  lemma {:induction false} RecoveryRecords(db: Db, w: Tip, note: string)
    ensures var r := RecordRecovery(db, w, note);
            if db.lastLog >= w.logId && db.lastTx >= w.txId then r == db
            else
              && r.rows == db.rows && r.accounts == db.accounts && r.txs == db.txs && r.moves == db.moves
              && r.lastTx >= db.lastTx && r.lastTx >= w.txId && (r.lastTx == db.lastTx || r.lastTx == w.txId)
              && r.lastLog > db.lastLog && r.lastLog > w.logId
              && (r.lastLog == db.lastLog + 1 || r.lastLog == w.logId + 1)
              && var data := RecoveryData(db.lastLog, w.logId, note);
                 r.tip == Chained(db.tip, data) && r.logs == db.logs + [Log(r.lastLog, Recovery, data, r.tip, None)]
  {
  }

  /** The tip a ledger reports is its last entry's id and hash, and the last transaction id given out, which no
      transaction exceeds. */
  lemma {:induction false} TipIsTheEnd(db: Db)
    requires Reachable(db)
    ensures var t := ChainTip(db);
            && t.logId == (if db.logs == [] then 0 else db.logs[|db.logs| - 1].id)
            && t.hash == (if db.logs == [] then Root else db.logs[|db.logs| - 1].hash)
            && t.txId == db.lastTx && forall id | id in db.txs :: id <= t.txId
  {
    ReachableInv(db);
    forall id | id in db.txs ensures id <= db.lastTx { assert Numbered(db.txs, db.lastTx, id); }
  }
}

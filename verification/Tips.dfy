/** What one tip hash fixes. Of two logs that are merely accepted it fixes the data; of two ledgers the
    engine wrote it fixes every entry and every table the entries project onto. */
module Tips {
  import opened Ledger
  import opened History
  import opened Engine
  import opened Chain
  import opened Invariants
  import opened Runs

  // ---------------------------------------------------------------- accepted logs

  ghost predicate SameTip(a: seq<Log>, b: seq<Log>) { ChainOk(a) && ChainOk(b) && LastHash(a) == LastHash(b) }

  lemma {:induction false} SameDataAt(a: seq<Log>, b: seq<Log>)
    requires SameTip(a, b)
    ensures |a| == |b| && forall i | 0 <= i < |a| :: a[i].data == b[i].data
  {
    SameTipSameData(a, b);
    assert |a| == |DataOf(a)| == |b|;
    forall i | 0 <= i < |a| ensures a[i].data == b[i].data { assert DataOf(a)[i] == DataOf(b)[i]; }
  }

  // the entry stands behind a gap
  ghost predicate Skips(logs: seq<Log>, i: nat)
    requires i < |logs|
  {
    logs[i].id != LastId(logs[..i]) + 1
  }

  ghost predicate SameIds(a: seq<Log>, b: seq<Log>, n: nat)
    requires n <= |a| == |b|
  {
    forall i | 0 <= i < n :: a[i].id == b[i].id
  }

  ghost predicate SameGaps(a: seq<Log>, b: seq<Log>, n: nat)
    requires n <= |a| == |b|
  {
    forall i | 0 <= i < n :: Skips(a, i) <==> Skips(b, i)
  }

  lemma {:induction false} SameLastId(a: seq<Log>, b: seq<Log>, n: nat)
    requires n <= |a| == |b| && SameIds(a, b, n)
    ensures LastId(a[..n]) == LastId(b[..n])
  {
  }

  // a gap is declared in the data, which is the same
  lemma {:induction false} GapsFixIds(a: seq<Log>, b: seq<Log>, n: nat)
    requires SameTip(a, b) && n <= |a| == |b| && (forall i | 0 <= i < |a| :: a[i].data == b[i].data)
             && SameGaps(a, b, n)
    ensures SameIds(a, b, n)
  {
    if n > 0 {
      var m := n - 1;
      GapsFixIds(a, b, m);
      SameLastId(a, b, m);
      assert EntryOk(a, m) && EntryOk(b, m);
      assert Skips(a, m) <==> Skips(b, m);
    }
  }

  /** Two accepted logs with one tip carry the same ids exactly when they skip at the same entries. */
  lemma {:induction false} IdsAgree(a: seq<Log>, b: seq<Log>)
    requires SameTip(a, b)
    ensures |a| == |b| && (SameIds(a, b, |a|) <==> SameGaps(a, b, |a|))
  {
    SameDataAt(a, b);
    if SameGaps(a, b, |a|) { GapsFixIds(a, b, |a|); }
    if SameIds(a, b, |a|) {
      forall i | 0 <= i < |a| ensures Skips(a, i) <==> Skips(b, i) { SameLastId(a, b, i); }
    }
  }

  // every type is that of its data
  ghost predicate Typed(logs: seq<Log>) { forall i | 0 <= i < |logs| :: KindFits(logs[i]) }

  /** If one of them is typed by its data, they carry the same types exactly when the other is too. */
  lemma {:induction false} TypesAgree(a: seq<Log>, b: seq<Log>)
    requires SameTip(a, b) && Typed(a)
    ensures |a| == |b| && ((forall i | 0 <= i < |a| :: a[i].kind == b[i].kind) <==> Typed(b))
  {
    SameDataAt(a, b);
    if Typed(b) {
      forall i | 0 <= i < |a| ensures a[i].kind == b[i].kind { assert KindFits(a[i]) && KindFits(b[i]); }
    }
    if forall i | 0 <= i < |a| :: a[i].kind == b[i].kind {
      forall i | 0 <= i < |b| ensures KindFits(b[i]) { assert KindFits(a[i]); }
    }
  }

  // ---------------------------------------------------------------- logs the engine wrote

  // everything but the idempotency key
  predicate SameEntry(l: Log, m: Log) { l.id == m.id && l.kind == m.kind && l.data == m.data && l.hash == m.hash }

  ghost predicate SameEntryAt(a: seq<Log>, b: seq<Log>, i: nat)
    requires i < |a| == |b|
  {
    SameEntry(a[i], b[i])
  }

  ghost predicate SameLogs(a: seq<Log>, b: seq<Log>) { |a| == |b| && forall i | 0 <= i < |a| :: SameEntryAt(a, b, i) }

  // the id of an entry is fixed by what stands before it and by its own data
  lemma {:induction false} NextAgrees(a: seq<Log>, b: seq<Log>, m: nat)
    requires m < |a| == |b| && EntryOk(a, m) && EntryOk(b, m) && KindAt(a, m) && KindAt(b, m) && a[m].data == b[m].data
    requires LastId(a[..m]) == LastId(b[..m]) && LastHash(a[..m]) == LastHash(b[..m])
    ensures SameEntry(a[m], b[m])
  {
  }

  lemma {:induction false} EntriesAgree(a: seq<Log>, b: seq<Log>, x: nat, y: nat, n: nat)
    requires LogOk(a, x, LastHash(a)) && LogOk(b, y, LastHash(b)) && SameTip(a, b) && n <= |a| == |b|
    requires forall i | 0 <= i < |a| :: a[i].data == b[i].data
    ensures forall i | 0 <= i < n :: SameEntryAt(a, b, i)
  {
    if n > 0 {
      var m := n - 1;
      EntriesAgree(a, b, x, y, m);
      assert m > 0 ==> SameEntryAt(a, b, m - 1);
      assert EntryOk(a, m) && EntryOk(b, m) && KindAt(a, m) && KindAt(b, m);
      NextAgrees(a, b, m);
    }
  }

  lemma {:induction false} TipFixesLog(a: seq<Log>, b: seq<Log>, x: nat, y: nat, tip: Hash)
    requires LogOk(a, x, tip) && LogOk(b, y, tip)
    ensures SameLogs(a, b) && x == y
  {
    SameDataAt(a, b);
    EntriesAgree(a, b, x, y, |a|);
    assert a != [] ==> SameEntryAt(a, b, |a| - 1);
  }

  // ---------------------------------------------------------------- and the tables

  lemma {:induction false} SamePrefix(a: seq<Log>, b: seq<Log>)
    requires SameLogs(a, b) && a != []
    ensures SameLogs(a[..|a| - 1], b[..|b| - 1]) && SameEntry(a[|a| - 1], b[|b| - 1])
  {
    var x, y := a[..|a| - 1], b[..|b| - 1];
    assert SameEntryAt(a, b, |a| - 1);
    forall i | 0 <= i < |x| ensures SameEntryAt(x, y, i) { assert SameEntryAt(a, b, i); }
  }

  lemma {:induction false} SameMovements(a: seq<Log>, b: seq<Log>)
    requires SameLogs(a, b)
    ensures LogMovements(a) == LogMovements(b) && LoggedIds(a) == LoggedIds(b) && RevertedIds(a) == RevertedIds(b)
  {
    if a != [] {
      SamePrefix(a, b);
      SameMovements(a[..|a| - 1], b[..|b| - 1]);
    }
  }

  lemma {:induction false} SameFolds(a: seq<Log>, b: seq<Log>, id: nat, at: Address)
    requires SameLogs(a, b)
    ensures FoldTx(a, id) == FoldTx(b, id) && FoldAccount(a, at) == FoldAccount(b, at)
  {
    if a != [] {
      SamePrefix(a, b);
      SameFolds(a[..|a| - 1], b[..|b| - 1], id, at);
    }
  }

  lemma {:induction false} SameMoves(a: seq<Move>, b: seq<Move>)
    requires Core(a) == Core(b) && PcvOk(a) && PcvOk(b) && PcevOk(a) && PcevOk(b)
    ensures a == b
  {
    assert |a| == |Core(a)| == |b|;
    forall i | 0 <= i < |a| ensures a[i] == b[i] {
      assert PcvAt(a, i) && PcvAt(b, i) && PcevAt(a, i) && PcevAt(b, i);
      assert Core(a)[i] == Core(b)[i];
    }
  }

  // the row of one transaction
  lemma {:induction false} SameTx(a: Db, b: Db, id: nat)
    requires TxsOk(a.txs, a.logs, a.lastTx) && TxsOk(b.txs, b.logs, b.lastTx) && SameLogs(a.logs, b.logs)
             && id in a.txs && id in b.txs
    ensures a.txs[id].tx == b.txs[id].tx
  {
    LoggedIdsExact(a.logs, id);
    var i :| 0 <= i < |a.logs| && CarriedTx(a.logs[i]).Some? && CarriedTx(a.logs[i]).value.id == id;
    assert SameEntryAt(a.logs, b.logs, i) && EntryStored(a.txs, a.logs, i) && EntryStored(b.txs, b.logs, i);
  }

  lemma {:induction false} SameStamp(a: Db, b: Db, id: nat)
    requires RevertsOk(a.txs, a.logs) && RevertsOk(b.txs, b.logs) && SameLogs(a.logs, b.logs) && id in a.txs
             && id in b.txs
    ensures a.txs[id].revertedAt == b.txs[id].revertedAt
  {
    SameMovements(a.logs, b.logs);
    if id in RevertedIds(a.logs) {
      RevertedIdsExact(a.logs, id);
      var i :| 0 <= i < |a.logs| && a.logs[i].data.RevertData? && a.logs[i].data.reverted == id;
      assert SameEntryAt(a.logs, b.logs, i) && RevertStored(a.txs, a.logs, i) && RevertStored(b.txs, b.logs, i);
    }
  }

  lemma {:induction false} SameTxs(a: Db, b: Db)
    requires TxsOk(a.txs, a.logs, a.lastTx) && TxsOk(b.txs, b.logs, b.lastTx) && RevertsOk(a.txs, a.logs)
             && RevertsOk(b.txs, b.logs)
    requires TxMetadataOk(a.txs, a.logs) && TxMetadataOk(b.txs, b.logs) && SameLogs(a.logs, b.logs)
    ensures a.txs == b.txs
  {
    SameMovements(a.logs, b.logs);
    forall id | id in a.txs ensures a.txs[id] == b.txs[id] {
      SameTx(a, b, id);
      SameStamp(a, b, id);
      SameFolds(a.logs, b.logs, id, WORLD);
    }
  }

  lemma {:induction false} SameRows(a: Db, b: Db, k: Key)
    requires RowsOk(a.rows, a.moves) && RowsOk(b.rows, b.moves) && a.moves == b.moves
    ensures RowVolumes(a.rows, k) == RowVolumes(b.rows, k)
  {
    assert RowVolumes(a.rows, k) == Totals(Core(a.moves), k) && RowVolumes(b.rows, k) == Totals(Core(b.moves), k);
  }

  /** One tip, one ledger: two ledgers the engine reaches by any two runs, whose tips carry one hash, have
      the same entries under the same ids and types, the same transactions with their metadata and
      reversal stamps, the same moves with both their histories, the same volumes and the same metadata
      of every account. */
  lemma {:induction false} TipFixesLedger(a: Db, b: Db, k: Key, at: Address)
    requires Reachable(a) && Reachable(b) && a.tip == b.tip
    ensures SameLogs(a.logs, b.logs) && a.lastLog == b.lastLog
    ensures a.txs == b.txs && a.moves == b.moves
    ensures RowVolumes(a.rows, k) == RowVolumes(b.rows, k)
    ensures MetadataOf(a.accounts, at) == MetadataOf(b.accounts, at)
  {
    ReachableInv(a);
    ReachableInv(b);
    TipFixesLog(a.logs, b.logs, a.lastLog, b.lastLog, a.tip);
    SameMovements(a.logs, b.logs);
    SameMoves(a.moves, b.moves);
    SameTxs(a, b);
    SameRows(a, b, k);
    SameFolds(a.logs, b.logs, 0, at);
  }

  // ---------------------------------------------------------------- comparing against a recorded ledger

  lemma {:induction false} LogOkPrefix(logs: seq<Log>, x: nat, tip: Hash, n: nat)
    requires LogOk(logs, x, tip) && n <= |logs|
    ensures LogOk(logs[..n], LastId(logs[..n]), LastHash(logs[..n]))
  {
    var p := logs[..n];
    PrefixOk(logs, n);
    forall i | 0 <= i < n ensures IdAbove(p, i) && KindAt(p, i) { assert IdAbove(logs, i) && KindAt(logs, i); }
  }

  lemma {:induction false} LastIdPositive(logs: seq<Log>, x: nat, tip: Hash)
    requires LogOk(logs, x, tip) && logs != []
    ensures LastId(logs) > 0
  {
    var m := |logs| - 1;
    assert EntryOk(logs, m) && KindAt(logs, m);
    if m > 0 {
      LogOkPrefix(logs, x, tip, m);
      LastIdPositive(logs[..m], LastId(logs[..m]), LastHash(logs[..m]));
      assert IdAbove(logs, m);
    }
  }

  // the entries recorded are the first n of the current log
  ghost predicate Begins(current: seq<Log>, recorded: seq<Log>, n: nat) {
    0 < n <= |current| && SameLogs(current[..n], recorded)
  }

  lemma {:induction false} BeginsEnds(current: seq<Log>, recorded: seq<Log>, n: nat)
    requires Begins(current, recorded, n)
    ensures current[n - 1].id == LastId(recorded) && current[n - 1].hash == LastHash(recorded)
  {
    assert SameEntryAt(current[..n], recorded, n - 1);
  }

  lemma {:induction false} TipBegins(current: seq<Log>, recorded: seq<Log>, x: nat, y: nat, tip: Hash, other: Hash,
                                     t: Tip)
    requires LogOk(current, x, tip) && LogOk(recorded, y, other) && recorded != []
    requires t.logId == LastId(recorded) && t.hash == LastHash(recorded)
    ensures CheckTip(current, t).Matches? <==> exists n: nat :: Begins(current, recorded, n)
  {
    LastIdPositive(recorded, y, other);
    var found := FindId(current, t.logId);
    if CheckTip(current, t).Matches? {
      var n := found.value + 1;
      LogOkPrefix(current, x, tip, n);
      TipFixesLog(current[..n], recorded, LastId(current[..n]), y, other);
      assert Begins(current, recorded, n);
    }
    forall n: nat | Begins(current, recorded, n) ensures CheckTip(current, t).Matches? {
      BeginsEnds(current, recorded, n);
      if found.value != n - 1 { IdsDiffer(current, found.value, n - 1); }
    }
  }

  /** Of two ledgers the engine wrote, one passes a check against the other's tip exactly when the other's
      whole log, ids and types included, is the beginning of its own. */
  lemma {:induction false} TipMatchesIffLogKept(current: Db, recorded: Db)
    requires Reachable(current) && Reachable(recorded) && recorded.logs != []
    ensures CheckTip(current.logs, ChainTip(recorded)).Matches? <==>
              exists n: nat :: Begins(current.logs, recorded.logs, n)
  {
    ReachableInv(current);
    ReachableInv(recorded);
    TipBegins(current.logs, recorded.logs, current.lastLog, recorded.lastLog, current.tip, recorded.tip,
              ChainTip(recorded));
  }
}

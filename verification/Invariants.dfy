/** What every committed state satisfies. Each part relates the log to one of the tables that
    project it, and is shown to survive a transaction landing on its own. */
module Invariants {
  import opened Ledger
  import opened History
  import opened Engine
  import opened Chain
  import opened Sweeps

  // ---------------------------------------------------------------- what the log says

  // the transaction an entry carries when the log is replayed
  function CarriedTx(l: Log): Option<Tx> {
    if l.kind == NewTransaction then Some(AsTx(l.data))
    else if l.kind == RevertedTransaction && l.data.RevertData? then Some(l.data.tx)
    else None
  }

  function LogLegs(l: Log): seq<Movement> {
    var t := CarriedTx(l);
    if t.Some? then Legs(t.value.postings, t.value.id, t.value.timestamp) else []
  }

  // every movement the log describes, in order
  function LogMovements(logs: seq<Log>): seq<Movement> {
    if logs == [] then [] else LogMovements(logs[..|logs| - 1]) + LogLegs(logs[|logs| - 1])
  }

  // the transactions the log carries, and those it says were reversed
  function LoggedIds(logs: seq<Log>): set<nat> {
    if logs == [] then {}
    else LoggedIds(logs[..|logs| - 1]) + var t := CarriedTx(logs[|logs| - 1]); if t.Some? then {t.value.id} else {}
  }

  function RevertedIds(logs: seq<Log>): set<nat> {
    if logs == [] then {}
    else RevertedIds(logs[..|logs| - 1]) + var d := logs[|logs| - 1].data; if d.RevertData? then {d.reverted} else {}
  }

  predicate KindFits(l: Log) {
    match l.kind
    case NewTransaction => l.data.TxData?
    case RevertedTransaction => l.data.RevertData?
    case SetMetadata => l.data.SetMetadataData?
    case DeleteMetadata => l.data.DeleteMetadataData?
    case Recovery => l.data.RecoveryData?
  }

  predicate AboveGap(l: Log) {
    l.kind == Recovery && l.data.RecoveryData? ==> l.id == Max(l.data.resumedFrom, l.data.skippedThrough) + 1
  }

  // metadata as a fold over the log
  function FoldTx(logs: seq<Log>, id: nat): Metadata {
    if logs == [] then map[] else FoldTxOne(FoldTx(logs[..|logs| - 1], id), logs[|logs| - 1], id)
  }

  function FoldTxOne(m: Metadata, l: Log, id: nat): Metadata {
    if CarriedTx(l).Some? && CarriedTx(l).value.id == id then CarriedTx(l).value.metadata
    else FoldOne(m, l, OnTransaction(id))
  }

  function FoldAccount(logs: seq<Log>, a: Address): Metadata {
    if logs == [] then map[] else FoldOne(FoldAccount(logs[..|logs| - 1], a), logs[|logs| - 1], OnAccount(a))
  }

  function FoldOne(m: Metadata, l: Log, t: Target): Metadata {
    if l.kind == SetMetadata && l.data.SetMetadataData? && l.data.target == t then m + l.data.metadata
    else if l.kind == DeleteMetadata && l.data.DeleteMetadataData? && l.data.target == t then m - {l.data.key}
    else m
  }

  // ---------------------------------------------------------------- the parts

  function RowVolumes(rows: map<Key, Row>, k: Key): Volumes { if k in rows then rows[k].volumes else ZERO }

  // the stored volumes are the sums of the moves
  ghost predicate RowsOk(rows: map<Key, Row>, moves: seq<Move>) {
    forall k {:trigger RowVolumes(rows, k)} :: RowVolumes(rows, k) == Totals(Core(moves), k)
  }

  // a row that has moved is there to be read, even when it moved nothing
  ghost predicate RowsCover(rows: map<Key, Row>, moves: seq<Move>) {
    forall i | 0 <= i < |moves| :: moves[i].movement.key in rows
  }

  // the moves are those the log describes, and both their running histories are right
  ghost predicate MovesOk(moves: seq<Move>, logs: seq<Log>) {
    Core(moves) == LogMovements(logs) && PcvOk(moves) && PcevOk(moves)
  }

  ghost predicate EntryStored(txs: map<nat, TxRow>, logs: seq<Log>, i: nat)
    requires i < |logs|
  {
    var t := CarriedTx(logs[i]);
    t.Some? ==> t.value.id in txs && txs[t.value.id].tx == t.value
  }

  ghost predicate TxAbove(logs: seq<Log>, i: nat)
    requires i < |logs|
  {
    CarriedTx(logs[i]).Some? ==>
      forall j | 0 <= j < i && CarriedTx(logs[j]).Some? :: CarriedTx(logs[j]).value.id < CarriedTx(logs[i]).value.id
  }

  predicate Numbered(txs: map<nat, TxRow>, lastTx: nat, id: nat)
    requires id in txs
  {
    txs[id].tx.id == id && 1 <= id <= lastTx
  }

  // the transactions are exactly those the log carries, their ids ascending with the log
  ghost predicate TxsOk(txs: map<nat, TxRow>, logs: seq<Log>, lastTx: nat) {
    && txs.Keys == LoggedIds(logs)
    && (forall id | id in txs :: Numbered(txs, lastTx, id))
    && (forall i | 0 <= i < |logs| :: EntryStored(txs, logs, i))
    && (forall i | 0 <= i < |logs| :: TxAbove(logs, i))
  }

  // an entry's type is that of its data, and a recovery stands right above what it skipped
  ghost predicate KindAt(logs: seq<Log>, i: nat)
    requires i < |logs|
  {
    KindFits(logs[i]) && AboveGap(logs[i])
  }

  ghost predicate LogOk(logs: seq<Log>, lastLog: nat, tip: Hash) {
    && ChainOk(logs) && IdsAscend(logs) && lastLog == LastId(logs) && tip == LastHash(logs)
    && forall i | 0 <= i < |logs| :: KindAt(logs, i)
  }

  // recorded postings are figures, never ceilings
  ghost predicate FiguresAt(logs: seq<Log>, i: nat)
    requires i < |logs|
  {
    CarriedTx(logs[i]).Some? ==> forall q | q in CarriedTx(logs[i]).value.postings :: q.Resolved()
  }

  ghost predicate FiguresOk(logs: seq<Log>) { forall i | 0 <= i < |logs| :: FiguresAt(logs, i) }

  ghost predicate RevertsNew(logs: seq<Log>, i: nat)
    requires i < |logs|
  {
    logs[i].data.RevertData? ==>
      forall j | 0 <= j < i && logs[j].data.RevertData? :: logs[j].data.reverted != logs[i].data.reverted
  }

  ghost predicate RevertStored(txs: map<nat, TxRow>, logs: seq<Log>, i: nat)
    requires i < |logs|
  {
    logs[i].data.RevertData? ==>
      && logs[i].data.reverted in txs && logs[i].data.reverted < logs[i].data.tx.id
      && logs[i].data.tx.postings == Reversed(txs[logs[i].data.reverted].tx.postings)
      && txs[logs[i].data.reverted].revertedAt == Some(logs[i].data.tx.timestamp)
  }

  // a transaction is stamped exactly when an entry reverses it, and at most one entry does
  ghost predicate RevertsOk(txs: map<nat, TxRow>, logs: seq<Log>) {
    && (forall id | id in txs :: txs[id].revertedAt.Some? <==> id in RevertedIds(logs))
    && (forall i | 0 <= i < |logs| :: RevertsNew(logs, i))
    && (forall i | 0 <= i < |logs| :: RevertStored(txs, logs, i))
  }

  // an idempotency key stands on at most one entry, and only on a committed transaction
  ghost predicate KeyNew(logs: seq<Log>, i: nat)
    requires i < |logs|
  {
    logs[i].use.Some? ==>
      && logs[i].kind == NewTransaction
      && forall j | 0 <= j < i && logs[j].use.Some? :: logs[j].use.value.key != logs[i].use.value.key
  }

  ghost predicate KeysOk(logs: seq<Log>) { forall i | 0 <= i < |logs| :: KeyNew(logs, i) }

  // the volumes frozen on a transaction are what the log adds up to through its entry
  ghost predicate PostCommitAt(logs: seq<Log>, i: nat)
    requires i < |logs|
  {
    var t := CarriedTx(logs[i]);
    t.Some? ==>
      && t.value.postCommit.Keys == Touched(t.value.postings)
      && forall k | k in t.value.postCommit :: t.value.postCommit[k] == Totals(LogMovements(logs[..i + 1]), k)
  }

  ghost predicate PostCommitOk(logs: seq<Log>) { forall i | 0 <= i < |logs| :: PostCommitAt(logs, i) }

  // every row of a closed account is at zero
  ghost predicate ClosedOk(rows: map<Key, Row>, accounts: map<Address, Account>) {
    forall k | k in rows && k.account in accounts && accounts[k.account].closed :: rows[k].volumes.Balance() == 0
  }

  // current metadata is the fold of the log
  ghost predicate TxMetadataOk(txs: map<nat, TxRow>, logs: seq<Log>) {
    forall id | id in txs :: txs[id].metadata == FoldTx(logs, id)
  }

  function MetadataOf(accounts: map<Address, Account>, a: Address): Metadata {
    if a in accounts then accounts[a].metadata else map[]
  }

  ghost predicate AccountMetadataOk(accounts: map<Address, Account>, logs: seq<Log>) {
    forall a {:trigger MetadataOf(accounts, a)} :: MetadataOf(accounts, a) == FoldAccount(logs, a)
  }

  ghost predicate Inv(db: Db) {
    && RowsOk(db.rows, db.moves)
    && RowsCover(db.rows, db.moves)
    && MovesOk(db.moves, db.logs)
    && TxsOk(db.txs, db.logs, db.lastTx)
    && LogOk(db.logs, db.lastLog, db.tip)
    && db.lastTx <= db.lastLog
    && FiguresOk(db.logs)
    && RevertsOk(db.txs, db.logs)
    && KeysOk(db.logs)
    && PostCommitOk(db.logs)
    && ClosedOk(db.rows, db.accounts)
    && TxMetadataOk(db.txs, db.logs)
    && AccountMetadataOk(db.accounts, db.logs)
  }

  lemma {:induction false} EmptyInv()
    ensures Inv(EMPTY)
  {
    assert Core([]) == LogMovements([]);
  }

  // ---------------------------------------------------------------- one entry behind the log

  lemma {:induction false} LogMovementsSnoc(logs: seq<Log>, l: Log)
    ensures LogMovements(logs + [l]) == LogMovements(logs) + LogLegs(l)
  {
    assert (logs + [l])[..|logs|] == logs;
  }

  lemma {:induction false} LogMovementsConcat(a: seq<Log>, b: seq<Log>)
    ensures LogMovements(a + b) == LogMovements(a) + LogMovements(b)
  {
    if b == [] {
      assert a + b == a;
    } else {
      assert (a + b)[..|a + b| - 1] == a + b[..|b| - 1];
      LogMovementsConcat(a, b[..|b| - 1]);
    }
  }

  lemma {:induction false} FoldTxSnoc(logs: seq<Log>, l: Log, id: nat)
    ensures FoldTx(logs + [l], id) == FoldTxOne(FoldTx(logs, id), l, id)
  {
    assert (logs + [l])[..|logs|] == logs;
  }

  lemma {:induction false} FoldAccountSnoc(logs: seq<Log>, l: Log, a: Address)
    ensures FoldAccount(logs + [l], a) == FoldOne(FoldAccount(logs, a), l, OnAccount(a))
  {
    assert (logs + [l])[..|logs|] == logs;
  }

  lemma {:induction false} LogOkSnoc(logs: seq<Log>, lastLog: nat, tip: Hash, l: Log)
    requires LogOk(logs, lastLog, tip)
    requires l.id == lastLog + 1 || (l.id > lastLog && DeclaredGap(l) == Some(Gap(lastLog, l.id - 1)))
    requires l.hash == Chained(tip, l.data) && KindFits(l) && AboveGap(l)
    ensures LogOk(logs + [l], l.id, l.hash)
  {
    ChainExtends(logs, l);
    forall i | 0 <= i < |logs + [l]| ensures IdAbove(logs + [l], i) && KindAt(logs + [l], i) {
      if i < |logs| {
        assert IdAbove(logs, i) && KindAt(logs, i);
      } else if logs != [] {
        assert IdAbove(logs, |logs| - 1);
      }
    }
  }

  lemma {:induction false} FiguresSnoc(logs: seq<Log>, l: Log)
    requires FiguresOk(logs) && FiguresAt([l], 0)
    ensures FiguresOk(logs + [l])
  {
    forall i | 0 <= i < |logs + [l]| ensures FiguresAt(logs + [l], i) { assert i < |logs| ==> FiguresAt(logs, i); }
  }

  lemma {:induction false} PostCommitSnoc(logs: seq<Log>, l: Log)
    requires PostCommitOk(logs) && PostCommitAt(logs + [l], |logs|)
    ensures PostCommitOk(logs + [l])
  {
    forall i | 0 <= i < |logs| ensures PostCommitAt(logs + [l], i) {
      assert PostCommitAt(logs, i);
      assert (logs + [l])[..i + 1] == logs[..i + 1];
    }
  }

  lemma {:induction false} KeysOkSnoc(logs: seq<Log>, l: Log)
    requires KeysOk(logs)
    requires l.use.Some? ==> l.kind == NewTransaction && FindKey(logs, l.use.value.key).None?
    ensures KeysOk(logs + [l])
  {
    forall i | 0 <= i < |logs + [l]| ensures KeyNew(logs + [l], i) {
      if i < |logs| {
        assert KeyNew(logs, i);
      } else {
        assert forall j | 0 <= j < |logs| :: logs[j] in logs;
      }
    }
  }

  // an entry that carries no transaction and no key leaves everything but metadata alone
  lemma {:induction false} QuietEntry(db: Db, db': Db, l: Log)
    requires Inv(db) && CarriedTx(l).None? && l.use.None? && !l.data.RevertData?
    requires db'.logs == db.logs + [l] && db'.lastLog == l.id && db'.tip == l.hash
    requires db'.rows == db.rows && db'.moves == db.moves
    requires LogOk(db'.logs, db'.lastLog, db'.tip) && db.lastTx <= db'.lastTx <= db'.lastLog
    requires db'.txs.Keys == db.txs.Keys
    requires forall id | id in db.txs ::
               db'.txs[id].tx == db.txs[id].tx && db'.txs[id].revertedAt == db.txs[id].revertedAt
    requires ClosedOk(db'.rows, db'.accounts)
    requires TxMetadataOk(db'.txs, db'.logs) && AccountMetadataOk(db'.accounts, db'.logs)
    ensures Inv(db')
  {
    LogMovementsSnoc(db.logs, l);
    PostCommitSnoc(db.logs, l);
    KeysOkSnoc(db.logs, l);
    FiguresSnoc(db.logs, l);
    QuietTxs(db, db', l);
  }

  lemma {:induction false} LoggedIdsSnoc(logs: seq<Log>, l: Log)
    ensures LoggedIds(logs + [l]) == LoggedIds(logs) + if CarriedTx(l).Some? then {CarriedTx(l).value.id} else {}
    ensures RevertedIds(logs + [l]) == RevertedIds(logs) + if l.data.RevertData? then {l.data.reverted} else {}
  {
    assert (logs + [l])[..|logs|] == logs;
  }

  lemma {:induction false} RevertedIdsExact(logs: seq<Log>, id: nat)
    ensures id in RevertedIds(logs) <==> exists i | 0 <= i < |logs| ::
              logs[i].data.RevertData? && logs[i].data.reverted == id
  {
    if logs != [] {
      var l := |logs| - 1;
      RevertedIdsExact(logs[..l], id);
      assert forall i | 0 <= i < l :: logs[..l][i] == logs[i];
    }
  }

  lemma {:induction false} QuietTxs(db: Db, db': Db, l: Log)
    requires TxsOk(db.txs, db.logs, db.lastTx) && RevertsOk(db.txs, db.logs)
    requires CarriedTx(l).None? && !l.data.RevertData? && db'.logs == db.logs + [l] && db.lastTx <= db'.lastTx
    requires db'.txs.Keys == db.txs.Keys
    requires forall id | id in db.txs ::
               db'.txs[id].tx == db.txs[id].tx && db'.txs[id].revertedAt == db.txs[id].revertedAt
    ensures TxsOk(db'.txs, db'.logs, db'.lastTx) && RevertsOk(db'.txs, db'.logs)
  {
    LoggedIdsSnoc(db.logs, l);
    forall id | id in db'.txs ensures Numbered(db'.txs, db'.lastTx, id) { assert Numbered(db.txs, db.lastTx, id); }
    forall i | 0 <= i < |db'.logs|
      ensures EntryStored(db'.txs, db'.logs, i) && TxAbove(db'.logs, i) && RevertStored(db'.txs, db'.logs, i)
              && RevertsNew(db'.logs, i)
    {
      assert i < |db.logs| ==>
        EntryStored(db.txs, db.logs, i) && TxAbove(db.logs, i) && RevertStored(db.txs, db.logs, i)
          && RevertsNew(db.logs, i);
    }
  }

  // ---------------------------------------------------------------- a transaction lands

  // what a decided transaction read from the committed tables before it wrote
  ghost predicate Fits(db: Db, tx: Tx, before: map<Key, Volumes>, effective: map<Key, Volumes>) {
    && tx.id == db.lastTx + 1
    && ReadNow(db.moves, Touched(tx.postings), before)
    && ReadAsOf(db.moves, Touched(tx.postings), tx.timestamp, effective)
    && tx.postCommit == PostCommit(before, tx.postings)
    && (forall q | q in tx.postings :: q.Resolved())
    && (forall k | k in Touched(tx.postings) :: !Closed(db, k.account))
  }

  lemma {:induction false} LandRows(db: Db, tx: Tx, before: map<Key, Volumes>, effective: map<Key, Volumes>)
    requires RowsOk(db.rows, db.moves) && Fits(db, tx, before, effective)
    ensures var r := Installed(db, tx, before, effective); RowsOk(r.rows, r.moves)
  {
    var r := Installed(db, tx, before, effective);
    forall k ensures RowVolumes(r.rows, k) == Totals(Core(r.moves), k) {
      assert RowVolumes(db.rows, k) == Totals(Core(db.moves), k);
      LandRow(db, tx, before, effective, k);
    }
  }

  lemma {:induction false} LandCover(db: Db, tx: Tx, before: map<Key, Volumes>, effective: map<Key, Volumes>)
    requires RowsCover(db.rows, db.moves)
    ensures var r := Installed(db, tx, before, effective); RowsCover(r.rows, r.moves)
  {
    LegsKeys(tx.postings, tx.id, tx.timestamp);
    PostedCore(db.moves, tx.postings, tx.id, tx.timestamp, before, effective);
    var r := Installed(db, tx, before, effective);
    forall i | 0 <= i < |r.moves| ensures r.moves[i].movement.key in r.rows {
      assert r.moves[i].movement == (Core(db.moves) + Legs(tx.postings, tx.id, tx.timestamp))[i];
    }
  }

  lemma {:induction false} LandRow(db: Db, tx: Tx, before: map<Key, Volumes>, effective: map<Key, Volumes>, k: Key)
    requires RowVolumes(db.rows, k) == Totals(Core(db.moves), k)
    ensures var r := Installed(db, tx, before, effective); RowVolumes(r.rows, k) == Totals(Core(r.moves), k)
  {
    PostedCore(db.moves, tx.postings, tx.id, tx.timestamp, before, effective);
    LandedRow(db.rows, tx.postings, k);
    LandedTotal(db.moves, tx, k, false);
    LandedTotal(db.moves, tx, k, true);
  }

  lemma {:induction false} LandedRow(rows: map<Key, Row>, p: Postings, k: Key)
    ensures RowVolumes(ApplyDeltas(Materialised(rows, Touched(p)), p), k) == After(RowVolumes(rows, k), p, k)
  {
    if k !in Touched(p) {
      UntouchedDelta(p, k);
    }
  }

  lemma {:induction false} LandedTotal(moves: seq<Move>, tx: Tx, k: Key, out: bool)
    ensures Total(Core(moves) + Legs(tx.postings, tx.id, tx.timestamp), k, out) ==
            Total(Core(moves), k, out) + Flow(tx.postings, k, out)
  {
    TotalConcat(Core(moves), Legs(tx.postings, tx.id, tx.timestamp), k, out);
    LegsTotal(tx.postings, tx.id, tx.timestamp, k, out);
  }

  lemma {:induction false} LandMoves(db: Db, tx: Tx, before: map<Key, Volumes>, effective: map<Key, Volumes>, l: Log)
    requires MovesOk(db.moves, db.logs) && Fits(db, tx, before, effective) && CarriedTx(l) == Some(tx)
    ensures MovesOk(Installed(db, tx, before, effective).moves, db.logs + [l])
  {
    PostedCore(db.moves, tx.postings, tx.id, tx.timestamp, before, effective);
    PostedPcv(db.moves, tx.postings, tx.id, tx.timestamp, before, effective);
    PostedPcev(db.moves, tx.postings, tx.id, tx.timestamp, before, effective);
    LogMovementsSnoc(db.logs, l);
  }

  lemma {:induction false} LandPostCommitOne(db: Db, tx: Tx, before: map<Key, Volumes>, l: Log, k: Key)
    requires Core(db.moves) == LogMovements(db.logs) && CarriedTx(l) == Some(tx)
    requires At(before, k) == Totals(Core(db.moves), k)
    ensures After(At(before, k), tx.postings, k) == Totals(LogMovements(db.logs + [l]), k)
  {
    LogMovementsSnoc(db.logs, l);
    LandedTotal(db.moves, tx, k, false);
    LandedTotal(db.moves, tx, k, true);
  }

  lemma {:induction false} LandPostCommit(db: Db, tx: Tx, before: map<Key, Volumes>, effective: map<Key, Volumes>,
                                          l: Log)
    requires PostCommitOk(db.logs) && MovesOk(db.moves, db.logs)
    requires Fits(db, tx, before, effective) && CarriedTx(l) == Some(tx)
    ensures PostCommitOk(db.logs + [l])
  {
    var logs := db.logs + [l];
    assert logs[..|db.logs| + 1] == logs && logs[|db.logs|] == l;
    forall k | k in tx.postCommit ensures tx.postCommit[k] == Totals(LogMovements(logs), k) {
      assert At(before, k) == Totals(Core(db.moves), k);
      LandPostCommitOne(db, tx, before, l, k);
    }
    PostCommitSnoc(db.logs, l);
  }

  lemma {:induction false} LandTxs(db: Db, tx: Tx, txs: map<nat, TxRow>, l: Log)
    requires TxsOk(db.txs, db.logs, db.lastTx) && tx.id == db.lastTx + 1 && CarriedTx(l) == Some(tx)
    requires txs.Keys == db.txs.Keys + {tx.id} && txs[tx.id].tx == tx
    requires forall id | id in db.txs :: txs[id].tx == db.txs[id].tx
    ensures TxsOk(txs, db.logs + [l], tx.id)
  {
    var logs := db.logs + [l];
    LoggedIdsSnoc(db.logs, l);
    forall id | id in txs ensures Numbered(txs, tx.id, id) { assert id in db.txs ==> Numbered(db.txs, db.lastTx, id); }
    forall i | 0 <= i < |logs| ensures EntryStored(txs, logs, i) && TxAbove(logs, i) {
      if i < |db.logs| {
        assert EntryStored(db.txs, db.logs, i) && TxAbove(db.logs, i);
      } else {
        forall j | 0 <= j < i && CarriedTx(logs[j]).Some? ensures CarriedTx(logs[j]).value.id < tx.id {
          assert EntryStored(db.txs, db.logs, j);
          assert Numbered(db.txs, db.lastTx, CarriedTx(logs[j]).value.id);
        }
      }
    }
  }

  // the stamp of a landing: the reversed transaction gains one, and nothing else changes
  ghost predicate StampsFit(db: Db, tx: Tx, txs: map<nat, TxRow>, undone: Option<nat>) {
    && txs.Keys == db.txs.Keys + {tx.id} && txs[tx.id].tx == tx && txs[tx.id].revertedAt.None?
    && (forall id | id in db.txs :: txs[id].tx == db.txs[id].tx)
    && (forall id | id in db.txs ::
          txs[id].revertedAt == if undone == Some(id) then Some(tx.timestamp) else db.txs[id].revertedAt)
  }

  ghost predicate EntryFits(db: Db, tx: Tx, l: Log, undone: Option<nat>) {
    match undone
    case None => l.kind == NewTransaction && l.data == TxData(tx)
    case Some(id) =>
      && l.kind == RevertedTransaction && l.data == RevertData(id, tx)
      && id in db.txs && db.txs[id].revertedAt.None? && tx.postings == Reversed(db.txs[id].tx.postings)
  }

  lemma {:induction false} LandReverts(db: Db, tx: Tx, txs: map<nat, TxRow>, l: Log, undone: Option<nat>)
    requires TxsOk(db.txs, db.logs, db.lastTx) && RevertsOk(db.txs, db.logs) && tx.id == db.lastTx + 1
    requires StampsFit(db, tx, txs, undone) && EntryFits(db, tx, l, undone)
    ensures RevertsOk(txs, db.logs + [l])
  {
    var logs := db.logs + [l];
    LoggedIdsSnoc(db.logs, l);
    assert tx.id in db.txs ==> Numbered(db.txs, db.lastTx, tx.id);
    forall id | id in RevertedIds(db.logs) ensures id in db.txs {
      RevertedIdsExact(db.logs, id);
      var i :| 0 <= i < |db.logs| && db.logs[i].data.RevertData? && db.logs[i].data.reverted == id;
      assert RevertStored(db.txs, db.logs, i);
    }
    forall i | 0 <= i < |logs| ensures RevertStored(txs, logs, i) && RevertsNew(logs, i) {
      if i < |db.logs| { LandOldRevert(db, tx, txs, l, undone, i); } else { LandNewRevert(db, tx, txs, l, undone); }
    }
  }

  lemma {:induction false} LandOldRevert(db: Db, tx: Tx, txs: map<nat, TxRow>, l: Log, undone: Option<nat>, i: nat)
    requires RevertsOk(db.txs, db.logs) && StampsFit(db, tx, txs, undone) && EntryFits(db, tx, l, undone)
             && i < |db.logs|
    ensures RevertStored(txs, db.logs + [l], i) && RevertsNew(db.logs + [l], i)
  {
    assert RevertStored(db.txs, db.logs, i) && RevertsNew(db.logs, i);
  }

  lemma {:induction false} LandNewRevert(db: Db, tx: Tx, txs: map<nat, TxRow>, l: Log, undone: Option<nat>)
    requires TxsOk(db.txs, db.logs, db.lastTx) && RevertsOk(db.txs, db.logs) && tx.id == db.lastTx + 1
    requires StampsFit(db, tx, txs, undone) && EntryFits(db, tx, l, undone)
    ensures RevertStored(txs, db.logs + [l], |db.logs|) && RevertsNew(db.logs + [l], |db.logs|)
  {
    if undone.Some? {
      assert Numbered(db.txs, db.lastTx, undone.value);
      RevertedIdsExact(db.logs, undone.value);
    }
  }

  lemma {:induction false} LandMetadata(db: Db, tx: Tx, txs: map<nat, TxRow>, l: Log)
    requires TxMetadataOk(db.txs, db.logs) && AccountMetadataOk(db.accounts, db.logs)
    requires TxsOk(db.txs, db.logs, db.lastTx) && tx.id == db.lastTx + 1
    requires CarriedTx(l) == Some(tx) && l.kind != SetMetadata && l.kind != DeleteMetadata
    requires txs.Keys == db.txs.Keys + {tx.id} && txs[tx.id].metadata == tx.metadata
    requires forall id | id in db.txs :: txs[id].metadata == db.txs[id].metadata
    ensures TxMetadataOk(txs, db.logs + [l])
    ensures AccountMetadataOk(Upserted(db.accounts, Accounts(tx.postings), tx.timestamp), db.logs + [l])
  {
    forall id | id in txs ensures txs[id].metadata == FoldTx(db.logs + [l], id) {
      FoldTxSnoc(db.logs, l, id);
      assert id in db.txs ==> Numbered(db.txs, db.lastTx, id);
    }
    var accounts := Upserted(db.accounts, Accounts(tx.postings), tx.timestamp);
    forall a ensures MetadataOf(accounts, a) == FoldAccount(db.logs + [l], a) {
      FoldAccountSnoc(db.logs, l, a);
      assert MetadataOf(db.accounts, a) == FoldAccount(db.logs, a);
    }
  }

  lemma {:induction false} LandClosed(db: Db, tx: Tx, before: map<Key, Volumes>, effective: map<Key, Volumes>)
    requires ClosedOk(db.rows, db.accounts) && Fits(db, tx, before, effective)
    ensures var r := Installed(db, tx, before, effective); ClosedOk(r.rows, r.accounts)
  {
    var r := Installed(db, tx, before, effective);
    forall k | k in r.rows && k.account in r.accounts && r.accounts[k.account].closed
      ensures r.rows[k].volumes.Balance() == 0
    {
      assert Closed(db, k.account);
      UntouchedDelta(tx.postings, k);
    }
  }

  function UndoKind(undone: Option<nat>): LogKind { if undone.None? then NewTransaction else RevertedTransaction }

  function UndoData(undone: Option<nat>, tx: Tx): Data {
    if undone.None? then TxData(tx) else RevertData(undone.value, tx)
  }

  // a commit or a reversal, published
  ghost function Landed(db: Db, tx: Tx, before: map<Key, Volumes>, effective: map<Key, Volumes>, use: Option<KeyUse>,
                        undone: Option<nat>): Db
    requires undone.Some? ==> undone.value in db.txs
  {
    var i := Installed(db, tx, before, effective);
    Appended(if undone.None? then i else Stamped(i, undone.value, tx.timestamp), UndoKind(undone),
        UndoData(undone, tx), use)
  }

  // the entry a landing appends
  function LandedEntry(db: Db, tx: Tx, use: Option<KeyUse>, undone: Option<nat>): Log {
    Log(db.lastLog + 1, UndoKind(undone), UndoData(undone, tx), Chained(db.tip, UndoData(undone, tx)), use)
  }

  ghost predicate UndoFits(db: Db, tx: Tx, undone: Option<nat>) {
    undone.Some? ==>
      && undone.value in db.txs && db.txs[undone.value].revertedAt.None?
      && tx.postings == Reversed(db.txs[undone.value].tx.postings)
  }

  lemma {:induction false} LandedFields(db: Db, tx: Tx, before: map<Key, Volumes>, effective: map<Key, Volumes>,
                                        use: Option<KeyUse>, undone: Option<nat>)
    requires undone.Some? ==> undone.value in db.txs
    requires tx.id == db.lastTx + 1
    ensures var r := Landed(db, tx, before, effective, use, undone);
            var i := Installed(db, tx, before, effective);
            var l := LandedEntry(db, tx, use, undone);
            && r.rows == i.rows && r.moves == i.moves && r.accounts == i.accounts
            && r.logs == db.logs + [l] && r.lastLog == l.id && r.tip == l.hash && r.lastTx == tx.id
            && CarriedTx(l) == Some(tx)
  {
  }

  lemma {:induction false} LandedStamps(db: Db, tx: Tx, before: map<Key, Volumes>, effective: map<Key, Volumes>,
                                        use: Option<KeyUse>, undone: Option<nat>)
    requires TxsOk(db.txs, db.logs, db.lastTx) && tx.id == db.lastTx + 1
    requires undone.Some? ==> undone.value in db.txs
    ensures StampsFit(db, tx, Landed(db, tx, before, effective, use, undone).txs, undone)
    ensures var r := Landed(db, tx, before, effective, use, undone).txs;
            r[tx.id].metadata == tx.metadata && forall id | id in db.txs :: r[id].metadata == db.txs[id].metadata
  {
    assert undone.Some? ==> Numbered(db.txs, db.lastTx, undone.value);
    assert tx.id in db.txs ==> Numbered(db.txs, db.lastTx, tx.id);
    var txs := db.txs[tx.id := TxRow(tx, tx.metadata, None)];
    assert Landed(db, tx, before, effective, use, undone).txs ==
           if undone.None? then txs else txs[undone.value := txs[undone.value].(revertedAt := Some(tx.timestamp))];
  }

  lemma {:induction false} LandKeepsVolumes(db: Db, tx: Tx, before: map<Key, Volumes>, effective: map<Key, Volumes>,
                                            use: Option<KeyUse>, undone: Option<nat>)
    requires RowsOk(db.rows, db.moves) && RowsCover(db.rows, db.moves) && MovesOk(db.moves, db.logs)
    requires PostCommitOk(db.logs) && ClosedOk(db.rows, db.accounts)
    requires Fits(db, tx, before, effective) && UndoFits(db, tx, undone)
    ensures var r := Landed(db, tx, before, effective, use, undone);
            && RowsOk(r.rows, r.moves) && RowsCover(r.rows, r.moves) && MovesOk(r.moves, r.logs)
            && PostCommitOk(r.logs) && ClosedOk(r.rows, r.accounts)
  {
    var l := LandedEntry(db, tx, use, undone);
    LandedFields(db, tx, before, effective, use, undone);
    LandRows(db, tx, before, effective);
    LandCover(db, tx, before, effective);
    LandMoves(db, tx, before, effective, l);
    LandPostCommit(db, tx, before, effective, l);
    LandClosed(db, tx, before, effective);
  }

  lemma {:induction false} LandKeepsTxs(db: Db, tx: Tx, before: map<Key, Volumes>, effective: map<Key, Volumes>,
                                        use: Option<KeyUse>, undone: Option<nat>)
    requires TxsOk(db.txs, db.logs, db.lastTx) && RevertsOk(db.txs, db.logs)
    requires TxMetadataOk(db.txs, db.logs) && AccountMetadataOk(db.accounts, db.logs)
    requires tx.id == db.lastTx + 1 && UndoFits(db, tx, undone)
    ensures var r := Landed(db, tx, before, effective, use, undone);
            && TxsOk(r.txs, r.logs, r.lastTx) && RevertsOk(r.txs, r.logs)
            && TxMetadataOk(r.txs, r.logs) && AccountMetadataOk(r.accounts, r.logs)
  {
    var l := LandedEntry(db, tx, use, undone);
    var txs := Landed(db, tx, before, effective, use, undone).txs;
    LandedFields(db, tx, before, effective, use, undone);
    LandedStamps(db, tx, before, effective, use, undone);
    LandTxs(db, tx, txs, l);
    LandReverts(db, tx, txs, l, undone);
    LandMetadata(db, tx, txs, l);
  }

  lemma {:induction false} LandKeepsLog(db: Db, tx: Tx, before: map<Key, Volumes>, effective: map<Key, Volumes>,
                                        use: Option<KeyUse>, undone: Option<nat>)
    requires LogOk(db.logs, db.lastLog, db.tip) && KeysOk(db.logs) && FiguresOk(db.logs)
    requires tx.id == db.lastTx + 1 && UndoFits(db, tx, undone)
    requires forall q | q in tx.postings :: q.Resolved()
    requires use.Some? ==> undone.None? && FindKey(db.logs, use.value.key).None?
    ensures var r := Landed(db, tx, before, effective, use, undone);
            LogOk(r.logs, r.lastLog, r.tip) && KeysOk(r.logs) && FiguresOk(r.logs)
  {
    var l := LandedEntry(db, tx, use, undone);
    LandedFields(db, tx, before, effective, use, undone);
    LogOkSnoc(db.logs, db.lastLog, db.tip, l);
    KeysOkSnoc(db.logs, l);
    FiguresSnoc(db.logs, l);
  }

  /** A transaction that fits the state it lands on keeps every invariant. */
  lemma {:induction false} LandKeepsInv(db: Db, tx: Tx, before: map<Key, Volumes>, effective: map<Key, Volumes>,
                                        use: Option<KeyUse>, undone: Option<nat>)
    requires Inv(db) && Fits(db, tx, before, effective) && UndoFits(db, tx, undone)
    requires use.Some? ==> undone.None? && FindKey(db.logs, use.value.key).None?
    ensures Inv(Landed(db, tx, before, effective, use, undone))
  {
    LandedFields(db, tx, before, effective, use, undone);
    LandKeepsVolumes(db, tx, before, effective, use, undone);
    LandKeepsTxs(db, tx, before, effective, use, undone);
    LandKeepsLog(db, tx, before, effective, use, undone);
  }

  // ---------------------------------------------------------------- what Apply reads fits

  lemma {:induction false} ReadsFit(db: Db, ks: set<Key>, d: Time)
    requires RowsOk(db.rows, db.moves) && PcevOk(db.moves)
    ensures ReadNow(db.moves, ks, VolumesOf(LockRead(db, ks)))
    ensures ReadAsOf(db.moves, ks, d, EffectiveReads(db.moves, ks, d))
  {
    forall k | k in ks
      ensures At(VolumesOf(LockRead(db, ks)), k) == Totals(Core(db.moves), k)
      ensures At(EffectiveReads(db.moves, ks, d), k) == HeldAsOf(Core(db.moves), k, d)
    {
      assert RowVolumes(db.rows, k) == Totals(Core(db.moves), k);
      FastReadExact(db.moves, k, d);
    }
  }

  lemma {:induction false} AppliedWithin(db: Db, ks: set<Key>, q: Postings, k: Key)
    requires k in ks && WithinAfter(LockedAt(db, k).row, Flow(q, k, false), Flow(q, k, true))
    ensures Within(ApplyDeltas(Materialised(db.rows, ks), q)[k])
  {
  }

  /** A transaction decided and written in one go fits, and leaves every row it touched within bounds. */
  lemma {:induction false} ApplyFits(db: Db, item: Item, now: Time)
    requires RowsOk(db.rows, db.moves) && PcevOk(db.moves) && Apply(db, item, now).Done?
    requires forall q | q in item.postings :: q.Acceptable()
    ensures var a := Apply(db, item, now).value;
            var ks := Touched(item.postings);
            var before := VolumesOf(LockRead(db, ks));
            var effective := EffectiveReads(db.moves, ks, a.tx.timestamp);
            && Touched(a.tx.postings) == ks
            && Fits(db, a.tx, before, effective)
            && a.db == Installed(db, a.tx, before, effective)
            && (forall k | k in ks :: Within(a.db.rows[k]))
  {
    var a := Apply(db, item, now).value;
    var ks := Touched(item.postings);
    var locked := LockRead(db, ks);
    PrepareGuarantees(locked, item.postings);
    ResolveYieldsFigures(item.postings, locked);
    ReadsFit(db, ks, a.tx.timestamp);
    assert forall k | k in ks :: !locked[k].closed;
    forall k | k in ks ensures Within(a.db.rows[k]) { AppliedWithin(db, ks, a.tx.postings, k); }
  }
}

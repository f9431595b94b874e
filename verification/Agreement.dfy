/** The same facts in several places: the rows, both running histories and the frozen volumes of
    every transaction agree with each other, and per asset nothing is created or destroyed. */
module Agreement {
  import opened Ledger
  import opened History
  import opened Engine
  import opened Chain
  import opened Invariants
  import opened Runs
  import opened Projection

  // ---------------------------------------------------------------- four histories

  ghost predicate LastBySeq(moves: seq<Move>, i: nat)
    requires i < |moves|
  {
    forall j | i < j < |moves| :: moves[j].movement.key != moves[i].movement.key
  }

  ghost predicate LastByDate(moves: seq<Move>, i: nat)
    requires i < |moves|
  {
    var m := moves[i].movement;
    forall j | 0 <= j < |moves| && moves[j].movement.key == m.key :: Precedes(moves[j].movement, j, m.date, i + 1)
  }

  lemma {:induction false} TotalBeyond(ms: seq<Movement>, n: nat, k: Key, out: bool)
    requires n <= |ms| && forall j | n <= j < |ms| :: ms[j].key != k
    ensures Total(ms[..n], k, out) == Total(ms, k, out)
  {
    if n == |ms| {
      assert ms[..n] == ms;
    } else {
      var l := |ms| - 1;
      assert ms[..l][..n] == ms[..n];
      TotalBeyond(ms[..l], n, k, out);
    }
  }

  lemma {:induction false} EffectiveEverything(ms: seq<Movement>, k: Key, d: Time, n: nat, out: bool)
    requires forall j | 0 <= j < |ms| && ms[j].key == k :: Precedes(ms[j], j, d, n)
    ensures Effective(ms, k, d, n, out) == Total(ms, k, out)
  {
    if ms != [] {
      assert forall j | 0 <= j < |ms| - 1 :: ms[..|ms| - 1][j] == ms[j];
      EffectiveEverything(ms[..|ms| - 1], k, d, n, out);
    }
  }

  lemma {:induction false} LastSnapshots(moves: seq<Move>, i: nat, held: Volumes)
    requires PcvOk(moves) && PcevOk(moves) && i < |moves| && held == Totals(Core(moves), moves[i].movement.key)
    ensures LastBySeq(moves, i) ==> moves[i].pcv == held
    ensures LastByDate(moves, i) ==> moves[i].pcev == held
  {
    var ms, m := Core(moves), moves[i].movement;
    assert PcvAt(moves, i) && PcevAt(moves, i);
    if LastBySeq(moves, i) {
      TotalBeyond(ms, i + 1, m.key, false);
      TotalBeyond(ms, i + 1, m.key, true);
    }
    if LastByDate(moves, i) {
      EffectiveEverything(ms, m.key, m.date, i + 1, false);
      EffectiveEverything(ms, m.key, m.date, i + 1, true);
    }
  }

  /** In every reachable state a row's volumes are what the log adds up to, what its last move by
      insertion carries, and what its last move by effective date carries. */
  lemma {:induction false} FourHistoriesAgree(db: Db, i: nat)
    requires Reachable(db) && i < |db.moves|
    ensures var k := db.moves[i].movement.key;
            && k in db.rows && db.rows[k].volumes == Totals(LogMovements(db.logs), k)
            && (LastBySeq(db.moves, i) ==> db.moves[i].pcv == db.rows[k].volumes)
            && (LastByDate(db.moves, i) ==> db.moves[i].pcev == db.rows[k].volumes)
  {
    ReachableInv(db);
    var k := db.moves[i].movement.key;
    assert RowVolumes(db.rows, k) == Totals(Core(db.moves), k);
    LastSnapshots(db.moves, i, RowVolumes(db.rows, k));
  }

  // ---------------------------------------------------------------- the frozen volumes of a transaction

  // the entry a move came from
  ghost predicate CameFrom(logs: seq<Log>, i: nat, n: nat) {
    && n < |logs| && |LogMovements(logs[..n])| <= i < |LogMovements(logs[..n + 1])|
    && CarriedTx(logs[n]).Some?
  }

  lemma {:induction false} EntryOf(logs: seq<Log>, i: nat) returns (n: nat)
    requires i < |LogMovements(logs)|
    ensures CameFrom(logs, i, n)
  {
    var l := |logs| - 1;
    assert logs[..l + 1] == logs;
    if i < |LogMovements(logs[..l])| {
      n := EntryOf(logs[..l], i);
      assert logs[..l][..n] == logs[..n] && logs[..l][..n + 1] == logs[..n + 1];
    } else {
      n := l;
    }
  }

  lemma {:induction false} MovementsPrefix(logs: seq<Log>, n: nat)
    requires n <= |logs|
    ensures |LogMovements(logs[..n])| <= |LogMovements(logs)|
    ensures LogMovements(logs)[..|LogMovements(logs[..n])|] == LogMovements(logs[..n])
  {
    if n == |logs| {
      assert logs[..n] == logs;
    } else {
      var l := |logs| - 1;
      assert logs[..l][..n] == logs[..n];
      MovementsPrefix(logs[..l], n);
    }
  }

  // the moves of one entry: its transaction's id, on rows its postings touch
  lemma {:induction false} EntryMoves(logs: seq<Log>, i: nat, n: nat)
    requires CameFrom(logs, i, n) && i < |LogMovements(logs)|
    ensures var t, m := CarriedTx(logs[n]).value, LogMovements(logs)[i]; m.txId == t.id && m.key in Touched(t.postings)
  {
    var t := CarriedTx(logs[n]).value;
    MovementsPrefix(logs, n + 1);
    assert logs[..n + 1][..n] == logs[..n];
    LegsKeys(t.postings, t.id, t.timestamp);
    assert LogMovements(logs)[i] == LogMovements(logs[..n + 1])[i] == LogLegs(logs[n])[i - |LogMovements(logs[..n])|];
  }

  lemma {:induction false} TotalsThrough(whole: seq<Movement>, mine: seq<Movement>, i: nat, k: Key)
    requires i < |mine| <= |whole| && whole[..|mine|] == mine
    requires forall j | i < j < |mine| :: whole[j].key != k
    ensures Totals(whole[..i + 1], k) == Totals(mine, k)
  {
    assert forall j | 0 <= j < |mine| :: mine[j] == whole[j];
    assert mine[..i + 1] == whole[..i + 1];
    TotalBeyond(mine, i + 1, k, false);
    TotalBeyond(mine, i + 1, k, true);
  }

  // no later move of the entry is on the row
  lemma {:induction false} TotalsThroughEntry(logs: seq<Log>, i: nat, n: nat, k: Key)
    requires i < |LogMovements(logs)| && CameFrom(logs, i, n)
    requires forall j | i < j < |LogMovements(logs)| && LogMovements(logs)[j].txId == CarriedTx(logs[n]).value.id ::
               LogMovements(logs)[j].key != k
    ensures Totals(LogMovements(logs)[..i + 1], k) == Totals(LogMovements(logs[..n + 1]), k)
  {
    var whole, mine := LogMovements(logs), LogMovements(logs[..n + 1]);
    MovementsPrefix(logs, n + 1);
    forall j | i < j < |mine| ensures whole[j].key != k { EntryMoves(logs, j, n); }
    TotalsThrough(whole, mine, i, k);
  }

  /** The volumes frozen on a transaction are those its own last move of each row carries. */
  lemma {:induction false} PostCommitMatchesLastMove(db: Db, i: nat)
    requires Reachable(db) && i < |db.moves|
    requires forall j | i < j < |db.moves| && db.moves[j].movement.txId == db.moves[i].movement.txId ::
               db.moves[j].movement.key != db.moves[i].movement.key
    ensures var m := db.moves[i].movement;
            && m.txId in db.txs && m.key in db.txs[m.txId].tx.postCommit
            && db.txs[m.txId].tx.postCommit[m.key] == db.moves[i].pcv
  {
    ReachableInv(db);
    FrozenMatches(db.moves, db.logs, db.txs, db.lastTx, i);
  }

  lemma {:induction false} FrozenMatches(moves: seq<Move>, logs: seq<Log>, txs: map<nat, TxRow>, lastTx: nat, i: nat)
    requires MovesOk(moves, logs) && TxsOk(txs, logs, lastTx) && PostCommitOk(logs) && i < |moves|
    requires forall j | i < j < |moves| && moves[j].movement.txId == moves[i].movement.txId ::
               moves[j].movement.key != moves[i].movement.key
    ensures var m := moves[i].movement;
            m.txId in txs && m.key in txs[m.txId].tx.postCommit && txs[m.txId].tx.postCommit[m.key] == moves[i].pcv
  {
    assert |LogMovements(logs)| == |moves| && forall j | 0 <= j < |moves| :: LogMovements(logs)[j] == moves[j].movement;
    var n := EntryOf(logs, i);
    EntryMoves(logs, i, n);
    assert EntryStored(txs, logs, n) && PostCommitAt(logs, n) && PcvAt(moves, i);
    TotalsThroughEntry(logs, i, n, moves[i].movement.key);
  }

  // ---------------------------------------------------------------- conservation

  // what moved through one counter of any row of an asset
  function AssetTotal(ms: seq<Movement>, a: Asset, out: bool): int {
    if ms == [] then 0
    else
      var m := ms[|ms| - 1];
      AssetTotal(ms[..|ms| - 1], a, out) + if m.key.asset == a && m.isSource == out then m.amount else 0
  }

  lemma {:induction false} AssetTotalConcat(x: seq<Movement>, y: seq<Movement>, a: Asset, out: bool)
    ensures AssetTotal(x + y, a, out) == AssetTotal(x, a, out) + AssetTotal(y, a, out)
  {
    if y == [] {
      assert x + y == x;
    } else {
      assert (x + y)[..|x + y| - 1] == x + y[..|y| - 1];
      AssetTotalConcat(x, y[..|y| - 1], a, out);
    }
  }

  // what one row of an asset receives another has sent
  lemma {:induction false} LegsConserve(p: Postings, id: nat, d: Time, a: Asset)
    ensures AssetTotal(Legs(p, id, d), a, false) == AssetTotal(Legs(p, id, d), a, true)
  {
    if p != [] {
      var l := |p| - 1;
      LegsConserve(p[..l], id, d, a);
      var all, mid := Legs(p, id, d), Legs(p[..l], id, d) + [Sent(p[l], id, d)];
      assert all[..|all| - 1] == mid && mid[..|mid| - 1] == Legs(p[..l], id, d);
    }
  }

  lemma {:induction false} LogConserves(logs: seq<Log>, a: Asset)
    ensures AssetTotal(LogMovements(logs), a, false) == AssetTotal(LogMovements(logs), a, true)
  {
    if logs != [] {
      var l := |logs| - 1;
      LogConserves(logs[..l], a);
      AssetTotalConcat(LogMovements(logs[..l]), LogLegs(logs[l]), a, false);
      AssetTotalConcat(LogMovements(logs[..l]), LogLegs(logs[l]), a, true);
      if CarriedTx(logs[l]).Some? {
        var t := CarriedTx(logs[l]).value;
        LegsConserve(t.postings, t.id, t.timestamp, a);
      }
    }
  }

  function Counter(v: Volumes, out: bool): int { if out then v.output else v.input }

  // one counter summed over the rows of an asset
  function RowSum(rows: map<Key, Row>, ks: seq<Key>, a: Asset, out: bool): int {
    if ks == [] then 0
    else
      var k := ks[|ks| - 1];
      RowSum(rows, ks[..|ks| - 1], a, out) + if k.asset == a then Counter(RowVolumes(rows, k), out) else 0
  }

  // the same sum over moves instead of rows
  function MovedSum(ms: seq<Movement>, ks: seq<Key>, a: Asset, out: bool): int {
    if ks == [] then 0
    else
      var k := ks[|ks| - 1];
      MovedSum(ms, ks[..|ks| - 1], a, out) + if k.asset == a then Total(ms, k, out) else 0
  }

  lemma {:induction false} RowSumIsMovedSum(rows: map<Key, Row>, moves: seq<Move>, ks: seq<Key>, a: Asset, out: bool)
    requires RowsOk(rows, moves)
    ensures RowSum(rows, ks, a, out) == MovedSum(Core(moves), ks, a, out)
  {
    if ks != [] {
      RowSumIsMovedSum(rows, moves, ks[..|ks| - 1], a, out);
      assert RowVolumes(rows, ks[|ks| - 1]) == Totals(Core(moves), ks[|ks| - 1]);
    }
  }

  ghost predicate OnceAt(ks: seq<Key>, j: nat)
    requires j < |ks|
  {
    forall i | 0 <= i < j :: ks[i] != ks[j]
  }

  ghost predicate AllOnce(ks: seq<Key>) { forall j | 0 <= j < |ks| :: OnceAt(ks, j) }

  lemma {:induction false} AscendingOnce(ks: seq<Key>)
    requires Ascending(ks)
    ensures AllOnce(ks)
  {
    forall j | 0 <= j < |ks| ensures OnceAt(ks, j) {
      forall i | 0 <= i < j ensures ks[i] != ks[j] { KeyTotal(ks[i], ks[j]); }
    }
  }

  lemma {:induction false} MovedSumSnoc(ms: seq<Movement>, m: Movement, ks: seq<Key>, a: Asset, out: bool)
    requires AllOnce(ks)
    ensures MovedSum(ms + [m], ks, a, out) ==
            MovedSum(ms, ks, a, out) + if m.key in ks && m.key.asset == a && m.isSource == out then m.amount else 0
  {
    if ks != [] {
      var l := |ks| - 1;
      assert OnceAt(ks, l) && forall j | 0 <= j < l :: OnceAt(ks, j) && ks[..l][j] == ks[j];
      assert AllOnce(ks[..l]) by { forall j | 0 <= j < l ensures OnceAt(ks[..l], j) { assert OnceAt(ks, j); } }
      MovedSumSnoc(ms, m, ks[..l], a, out);
      TotalSnoc(ms, m, ks[l], out);
      assert m.key in ks <==> m.key in ks[..l] || m.key == ks[l];
    }
  }

  lemma {:induction false} MovedSumZero(ks: seq<Key>, a: Asset, out: bool)
    ensures MovedSum([], ks, a, out) == 0
  {
    if ks != [] { MovedSumZero(ks[..|ks| - 1], a, out); }
  }

  lemma {:induction false} MovedSumIsAssetTotal(ms: seq<Movement>, ks: seq<Key>, a: Asset, out: bool)
    requires AllOnce(ks) && forall m | m in ms :: m.key in ks
    ensures MovedSum(ms, ks, a, out) == AssetTotal(ms, a, out)
  {
    if ms == [] {
      MovedSumZero(ks, a, out);
    } else {
      var l := |ms| - 1;
      assert ms == ms[..l] + [ms[l]] && ms[l] in ms && forall m | m in ms[..l] :: m in ms;
      MovedSumIsAssetTotal(ms[..l], ks, a, out);
      MovedSumSnoc(ms[..l], ms[l], ks, a, out);
    }
  }

  ghost function Drift(rows: map<Key, Row>, a: Asset): int {
    RowSum(rows, SortedKeys(rows.Keys), a, false) - RowSum(rows, SortedKeys(rows.Keys), a, true)
  }

  /** Every balance of an asset, summed, is exactly zero in every reachable state. */
  lemma {:induction false} Conservation(db: Db, a: Asset)
    requires Reachable(db)
    ensures Drift(db.rows, a) == 0
  {
    ReachableInv(db);
    var ms, ks := Core(db.moves), SortedKeys(db.rows.Keys);
    SortedKeysAscend(db.rows.Keys);
    AscendingOnce(ks);
    forall m | m in ms ensures m.key in ks {
      var i :| 0 <= i < |ms| && ms[i] == m;
      assert db.moves[i].movement.key in db.rows;
    }
    RowSumIsMovedSum(db.rows, db.moves, ks, a, false);
    RowSumIsMovedSum(db.rows, db.moves, ks, a, true);
    MovedSumIsAssetTotal(ms, ks, a, false);
    MovedSumIsAssetTotal(ms, ks, a, true);
    LogConserves(db.logs, a);
  }

  function DriftOf(sums: map<Asset, int>, a: Asset): int { if a in sums then sums[a] else 0 }

  ghost predicate Summed(sums: map<Asset, int>, rows: map<Key, Row>, ks: seq<Key>) {
    forall a {:trigger DriftOf(sums, a)} :: DriftOf(sums, a) == RowSum(rows, ks, a, false) - RowSum(rows, ks, a, true)
  }

  lemma {:induction false} RowSumSnoc(rows: map<Key, Row>, ks: seq<Key>, k: Key, a: Asset, out: bool)
    ensures RowSum(rows, ks + [k], a, out) == RowSum(rows, ks, a, out) + if k.asset == a then
              Counter(RowVolumes(rows, k), out) else 0
  {
    assert (ks + [k])[..|ks|] == ks;
  }

  function AddDrift(sums: map<Asset, int>, a: Asset, balance: int): (r: map<Asset, int>)
    ensures forall x {:trigger DriftOf(r, x)} :: DriftOf(r, x) == DriftOf(sums, x) + if x == a then balance else 0
  {
    sums[a := DriftOf(sums, a) + balance]
  }

  lemma {:induction false} SummedNext(sums: map<Asset, int>, rows: map<Key, Row>, ks: seq<Key>, i: nat)
    requires i < |ks| && Summed(sums, rows, ks[..i])
    ensures Summed(AddDrift(sums, ks[i].asset, RowVolumes(rows, ks[i]).Balance()), rows, ks[..i + 1])
  {
    TakeNext(ks, i);
    var r := AddDrift(sums, ks[i].asset, RowVolumes(rows, ks[i]).Balance());
    forall a ensures DriftOf(r, a) == RowSum(rows, ks[..i + 1], a, false) - RowSum(rows, ks[..i + 1], a, true) {
      RowSumSnoc(rows, ks[..i], ks[i], a, false);
      RowSumSnoc(rows, ks[..i], ks[i], a, true);
      assert DriftOf(sums, a) == RowSum(rows, ks[..i], a, false) - RowSum(rows, ks[..i], a, true);
    }
  }

  lemma {:induction false} SummedIsDrift(sums: map<Asset, int>, rows: map<Key, Row>, a: Asset)
    requires Summed(sums, rows, SortedKeys(rows.Keys))
    ensures (a in sums && sums[a] != 0) <==> Drift(rows, a) != 0
    ensures a in sums ==> sums[a] == Drift(rows, a)
  {
    assert DriftOf(sums, a) == Drift(rows, a);
  }

  /** Sums the rows asset by asset and names exactly the assets whose total is not zero. */
  method VerifyConservation(rows: map<Key, Row>) returns (checked: nat, drifted: map<Asset, int>)
    ensures checked == |rows|
    ensures forall a :: a in drifted <==> Drift(rows, a) != 0
    ensures forall a | a in drifted :: drifted[a] == Drift(rows, a)
  {
    var sums;
    checked, sums := SumByAsset(rows);
    drifted := map a | a in sums && sums[a] != 0 :: sums[a];
    forall a ensures (a in drifted <==> Drift(rows, a) != 0) && (a in drifted ==> drifted[a] == Drift(rows, a)) {
      SummedIsDrift(sums, rows, a);
    }
  }

  method SumByAsset(rows: map<Key, Row>) returns (count: nat, sums: map<Asset, int>)
    ensures count == |rows| && Summed(sums, rows, SortedKeys(rows.Keys))
  {
    var ks := SortKeys(rows.Keys);
    SortedKeysCount(rows.Keys);
    sums := map[];
    count := 0;
    while count < |ks|
      invariant 0 <= count <= |ks|
      invariant Summed(sums, rows, ks[..count])
    {
      SummedNext(sums, rows, ks, count);
      sums := AddDrift(sums, ks[count].asset, RowVolumes(rows, ks[count]).Balance());
      count := count + 1;
    }
    assert ks[..|ks|] == ks;
  }

  // ---------------------------------------------------------------- everything derived is derivable

  /** Backdating cache equals replay: in every reachable state, whatever order transactions arrived in
      and whatever dates they carried, each move's effective snapshot is the sum of every move of its
      row at or before it in (date, seq) order, and the read by date is the sum of every move dated
      at or before the date. */
  lemma {:induction false} EffectiveCacheIsReplay(db: Db, i: nat, k: Key, d: Time)
    requires Reachable(db) && i < |db.moves|
    ensures var m := db.moves[i].movement;
            db.moves[i].pcev == HeldBefore(LogMovements(db.logs), m.key, m.date, i + 1)
    ensures EffectiveRead(db.moves, k, d) == HeldAsOf(LogMovements(db.logs), k, d)
  {
    ReachableInv(db);
    assert PcevAt(db.moves, i);
    FastReadExact(db.moves, k, d);
  }

  /** Metadata is derivable: folding the log gives the current metadata of every transaction and
      account, though writes that change nothing append nothing. */
  lemma {:induction false} MetadataIsDerivable(db: Db, id: nat, a: Address)
    requires Reachable(db)
    ensures id in db.txs ==> db.txs[id].metadata == FoldTx(db.logs, id)
    ensures MetadataOf(db.accounts, a) == FoldAccount(db.logs, a)
  {
    ReachableInv(db);
  }

  /** Every check of the verify run that asks for consistency accepts every reachable state. */
  lemma {:induction false} EveryCheckAccepts(db: Db)
    requires Reachable(db)
    ensures forall a :: Drift(db.rows, a) == 0
    ensures ChainOk(db.logs)
    ensures Projected(db.logs, db.rows, db.txs)
    ensures PcevOk(db.moves)
    ensures ClosedOk(db.rows, db.accounts)
  {
    ReachableInv(db);
    LogIsTheSourceOfTruth(db);
    forall a ensures Drift(db.rows, a) == 0 { Conservation(db, a); }
  }
}

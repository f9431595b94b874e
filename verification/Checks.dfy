/** What the checks of a verify run look at, in figures: which tables each of them accepts when it is run beside
    a log the engine wrote. */
module Checks {
  import opened Ledger
  import opened History
  import opened Engine
  import opened Invariants
  import opened Runs
  import opened Projection
  import opened Agreement

  // ---------------------------------------------------------------- conservation

  lemma {:induction false} RowSumOfSame(rows: map<Key, Row>, more: map<Key, Row>, ks: seq<Key>, a: Asset, out: bool)
    requires forall k | k in ks :: RowVolumes(more, k) == RowVolumes(rows, k)
    ensures RowSum(more, ks, a, out) == RowSum(rows, ks, a, out)
  {
    if ks != [] {
      var l := |ks| - 1;
      assert ks[l] in ks && forall k | k in ks[..l] :: k in ks;
      RowSumOfSame(rows, more, ks[..l], a, out);
    }
  }

  // what one row adds, wherever it stands
  lemma {:induction false} RowSumWith(rows: map<Key, Row>, xs: seq<Key>, k: Key, ys: seq<Key>, a: Asset, out: bool)
    ensures RowSum(rows, xs + [k] + ys, a, out) ==
            RowSum(rows, xs + ys, a, out) + if k.asset == a then Counter(RowVolumes(rows, k), out) else 0
  {
    if ys == [] {
      assert xs + [k] + ys == xs + [k] && xs + ys == xs;
      RowSumSnoc(rows, xs, k, a, out);
    } else {
      var l := |ys| - 1;
      RowSumWith(rows, xs, k, ys[..l], a, out);
      assert xs + [k] + ys == (xs + [k] + ys[..l]) + [ys[l]] && xs + ys == (xs + ys[..l]) + [ys[l]];
      RowSumSnoc(rows, xs + [k] + ys[..l], ys[l], a, out);
      RowSumSnoc(rows, xs + ys[..l], ys[l], a, out);
    }
  }

  // the sorted keys around one of them are the sorted keys of the rest
  lemma {:induction false} SortedAround(s: set<Key>, k: Key) returns (xs: seq<Key>, ys: seq<Key>)
    requires k !in s
    ensures SortedKeys(s + {k}) == xs + [k] + ys && SortedKeys(s) == xs + ys
  {
    var all := SortedKeys(s + {k});
    SortedKeysAscend(s + {k});
    SortedKeysAscend(s);
    assert k in all;
    var i :| 0 <= i < |all| && all[i] == k;
    xs, ys := all[..i], all[i + 1..];
    assert all == xs + [k] + ys;
    OthersAscend(all, i, k);
    forall x ensures x in xs + ys <==> x in SortedKeys(s) {
      assert x in all <==> x in xs + ys || x == k;
      if x in xs + ys { AscendingApart(all, i, x); }
    }
    AscendingUnique(xs + ys, SortedKeys(s));
  }

  lemma {:induction false} OthersAscend(all: seq<Key>, i: nat, k: Key)
    requires Ascending(all) && i < |all|
    ensures Ascending(all[..i] + all[i + 1..])
  {
    var r := all[..i] + all[i + 1..];
    forall x, y | 0 <= x < y < |r| ensures KeyBefore(r[x], r[y]) {
      assert r[x] == all[if x < i then x else x + 1] && r[y] == all[if y < i then y else y + 1];
    }
  }

  lemma {:induction false} AscendingApart(all: seq<Key>, i: nat, x: Key)
    requires Ascending(all) && i < |all| && x in all[..i] + all[i + 1..]
    ensures x != all[i]
  {
    var r := all[..i] + all[i + 1..];
    var n :| 0 <= n < |r| && r[n] == x;
    assert x == all[if n < i then n else n + 1];
    KeyTotal(x, all[i]);
  }

  lemma {:induction false} RowSumAdds(rows: map<Key, Row>, k: Key, row: Row, a: Asset, out: bool)
    requires k !in rows
    ensures RowSum(rows[k := row], SortedKeys(rows.Keys + {k}), a, out) ==
            RowSum(rows, SortedKeys(rows.Keys), a, out) + if k.asset == a then Counter(row.volumes, out) else 0
  {
    var more := rows[k := row];
    var xs, ys := SortedAround(rows.Keys, k);
    SortedKeysAscend(rows.Keys);
    RowSumWith(more, xs, k, ys, a, out);
    RowSumOfSame(rows, more, xs + ys, a, out);
  }

  /** What the conservation check sums: each row of the asset once, what came in less what went out. */
  lemma {:induction false} DriftAdds(rows: map<Key, Row>, k: Key, row: Row, a: Asset)
    requires k !in rows
    ensures Drift(map[], a) == 0
    ensures Drift(rows[k := row], a) ==
            Drift(rows, a) + if k.asset == a then row.volumes.input - row.volumes.output else 0
  {
    assert rows[k := row].Keys == rows.Keys + {k};
    RowSumAdds(rows, k, row, a, false);
    RowSumAdds(rows, k, row, a, true);
  }

  // ---------------------------------------------------------------- projection

  /** Beside the log of a ledger the replay check accepts exactly the tables that hold, row for row, what the
      ledger holds, have every row that has moved, and list the same transactions. */
  lemma {:induction false} ProjectedExactly(db: Db, rows: map<Key, Row>, txs: map<nat, TxRow>)
    requires Reachable(db)
    ensures Projected(db.logs, rows, txs) <==>
              && (forall k {:trigger RowVolumes(rows, k)} :: RowVolumes(rows, k) == RowVolumes(db.rows, k))
              && (forall i | 0 <= i < |db.moves| :: db.moves[i].movement.key in rows)
              && txs.Keys == db.txs.Keys
  {
    ReachableInv(db);
    LogIsTheSourceOfTruth(db);
    var ms := LogMovements(db.logs);
    forall k ensures RowVolumes(db.rows, k) == Totals(ms, k) { }
    assert |ms| == |db.moves| && forall i | 0 <= i < |ms| :: ms[i] == db.moves[i].movement && ms[i] in ms;
    assert forall k :: k in MovedKeys(ms) <==> exists i | 0 <= i < |ms| :: db.moves[i].movement.key == k;
  }

  // ---------------------------------------------------------------- snapshots

  /** Beside the moves of a ledger the effective check accepts exactly the snapshots the ledger holds. */
  lemma {:induction false} SnapshotsExactly(db: Db, moves: seq<Move>)
    requires Reachable(db) && |moves| == |db.moves|
    requires forall i | 0 <= i < |moves| :: moves[i].movement == db.moves[i].movement
    ensures PcevOk(moves) <==> forall i | 0 <= i < |moves| :: moves[i].pcev == db.moves[i].pcev
  {
    ReachableInv(db);
    assert Core(moves) == Core(db.moves);
    forall i | 0 <= i < |moves| ensures PcevAt(moves, i) <==> moves[i].pcev == db.moves[i].pcev {
      assert PcevAt(db.moves, i);
    }
  }
}

/** Replaying the log: what the volumes and the transactions must be, and the check that the
    tables are exactly that. */
module Projection {
  import opened Ledger
  import opened History
  import opened Engine
  import opened Invariants
  import opened Runs

  // ---------------------------------------------------------------- replay

  ghost function MovedKeys(ms: seq<Movement>): set<Key> { set m | m in ms :: m.key }

  // the volumes a sequence of movements adds up to, a row for each key moved
  ghost predicate Replays(want: map<Key, Volumes>, ms: seq<Movement>) {
    want.Keys == MovedKeys(ms) && forall k {:trigger At(want, k)} :: At(want, k) == Totals(ms, k)
  }

  // an entry of a transaction type that decodes to none
  predicate Bare(l: Log) { l.kind == RevertedTransaction && !l.data.RevertData? }

  ghost predicate AllCarry(logs: seq<Log>) { forall i | 0 <= i < |logs| :: !Bare(logs[i]) }

  lemma {:induction false} PairTotal(ms: seq<Movement>, q: Posting, id: nat, d: Time, k: Key, out: bool)
    ensures Total(ms + [Sent(q, id, d)] + [Received(q, id, d)], k, out) == Total(ms, k, out) + q.Adds(k, out)
  {
    TotalSnoc(ms, Sent(q, id, d), k, out);
    TotalSnoc(ms + [Sent(q, id, d)], Received(q, id, d), k, out);
  }

  lemma {:induction false} PairKeys(ms: seq<Movement>, q: Posting, id: nat, d: Time)
    ensures MovedKeys(ms + [Sent(q, id, d)] + [Received(q, id, d)]) == MovedKeys(ms) + {q.From(), q.To()}
  {
    var all := ms + [Sent(q, id, d)] + [Received(q, id, d)];
    assert forall m :: m in all <==> m in ms || m == Sent(q, id, d) || m == Received(q, id, d);
  }

  lemma {:induction false} ReplayPosting(want: map<Key, Volumes>, ms: seq<Movement>, q: Posting, id: nat, d: Time)
    requires Replays(want, ms)
    ensures Replays(Accumulate(want, q), ms + [Sent(q, id, d)] + [Received(q, id, d)])
  {
    PairKeys(ms, q, id, d);
    forall k ensures At(Accumulate(want, q), k) == Totals(ms + [Sent(q, id, d)] + [Received(q, id, d)], k) {
      PairTotal(ms, q, id, d, k, false);
      PairTotal(ms, q, id, d, k, true);
    }
  }

  lemma {:induction false} LegsBehind(ms: seq<Movement>, t: Tx, i: nat)
    requires i < |t.postings|
    ensures var q := t.postings[i];
            ms + Legs(t.postings[..i + 1], t.id, t.timestamp) ==
            ms + Legs(t.postings[..i], t.id, t.timestamp)
              + [Sent(q, t.id, t.timestamp)] + [Received(q, t.id, t.timestamp)]
  {
    assert t.postings[..i + 1][..i] == t.postings[..i];
  }

  method ReplayPostings(want: map<Key, Volumes>, t: Tx, ghost ms: seq<Movement>) returns (r: map<Key, Volumes>)
    requires Replays(want, ms)
    ensures Replays(r, ms + Legs(t.postings, t.id, t.timestamp))
  {
    r := want;
    assert ms + Legs([], t.id, t.timestamp) == ms;
    for i := 0 to |t.postings|
      invariant Replays(r, ms + Legs(t.postings[..i], t.id, t.timestamp))
    {
      LegsBehind(ms, t, i);
      ReplayPosting(r, ms + Legs(t.postings[..i], t.id, t.timestamp), t.postings[i], t.id, t.timestamp);
      r := Accumulate(r, t.postings[i]);
    }
    assert t.postings[..|t.postings|] == t.postings;
  }

  lemma {:induction false} ReplayNext(logs: seq<Log>, i: nat)
    requires i < |logs|
    ensures LogMovements(logs[..i + 1]) == LogMovements(logs[..i]) + LogLegs(logs[i])
    ensures LoggedIds(logs[..i + 1]) == LoggedIds(logs[..i]) + if CarriedTx(logs[i]).Some? then
              {CarriedTx(logs[i]).value.id} else {}
  {
    TakeNext(logs, i);
    LogMovementsSnoc(logs[..i], logs[i]);
    LoggedIdsSnoc(logs[..i], logs[i]);
  }

  method ReplayEntry(want: map<Key, Volumes>, l: Log, ghost ms: seq<Movement>) returns (r: map<Key, Volumes>)
    requires Replays(want, ms)
    ensures Replays(r, ms + LogLegs(l))
  {
    var t := CarriedTx(l);
    if t.Some? {
      r := ReplayPostings(want, t.value, ms);
    } else {
      r := want;
      assert ms + [] == ms;
    }
  }

  ghost predicate ReplayedSoFar(want: map<Key, Volumes>, seen: set<nat>, logs: seq<Log>) {
    Replays(want, LogMovements(logs)) && seen == LoggedIds(logs)
  }

  method ReplayStep(want: map<Key, Volumes>, seen: set<nat>, logs: seq<Log>, i: nat)
      returns (want': map<Key, Volumes>, seen': set<nat>)
    requires i < |logs| && ReplayedTo(want, seen, logs, i) && !Bare(logs[i])
    ensures ReplayedTo(want', seen', logs, i + 1)
  {
    ReplayNext(logs, i);
    seen' := if CarriedTx(logs[i]).Some? then seen + {CarriedTx(logs[i]).value.id} else seen;
    want' := ReplayEntry(want, logs[i], LogMovements(logs[..i]));
  }

  // the first n entries replayed, each of them carrying what it should
  ghost predicate ReplayedTo(want: map<Key, Volumes>, seen: set<nat>, logs: seq<Log>, n: nat)
    requires n <= |logs|
  {
    ReplayedSoFar(want, seen, logs[..n]) && forall j | 0 <= j < n :: !Bare(logs[j])
  }

  lemma {:induction false} NothingReplayed(logs: seq<Log>)
    ensures ReplayedTo(map[], {}, logs, 0)
  {
  }

  lemma {:induction false} AllReplayed(want: map<Key, Volumes>, seen: set<nat>, logs: seq<Log>)
    requires ReplayedTo(want, seen, logs, |logs|)
    ensures AllCarry(logs) && Replays(want, LogMovements(logs)) && seen == LoggedIds(logs)
  {
    assert logs[..|logs|] == logs;
  }

  /** Replays the log into volumes and transaction ids, entry by entry. */
  method ReplayLog(logs: seq<Log>) returns (want: map<Key, Volumes>, seen: set<nat>, bare: Option<nat>)
    ensures bare.None? <==> AllCarry(logs)
    ensures bare.Some? ==>
              && bare.value < |logs| && Bare(logs[bare.value])
              && forall j | 0 <= j < bare.value :: !Bare(logs[j])
    ensures bare.None? ==> Replays(want, LogMovements(logs)) && seen == LoggedIds(logs)
  {
    want, seen := map[], {};
    NothingReplayed(logs);
    for i := 0 to |logs|
      invariant ReplayedTo(want, seen, logs, i)
    {
      if Bare(logs[i]) { return want, seen, Some(i); }
      want, seen := ReplayStep(want, seen, logs, i);
    }
    AllReplayed(want, seen, logs);
    bare := None;
  }

  // ---------------------------------------------------------------- the transactions

  datatype TxVerdict = SameTransactions | NeverLogged(id: nat) | CountDiffers

  lemma {:induction false} SubsetOfSameSize(a: set<nat>, b: set<nat>)
    requires a <= b
    ensures |a| <= |b| && (|a| == |b| <==> a == b)
  {
    if a != {} {
      var x :| x in a;
      SubsetOfSameSize(a - {x}, b - {x});
      assert a == (a - {x}) + {x} && b == (b - {x}) + {x};
    } else {
      assert b != {} ==> |b| > 0;
    }
  }

  ghost predicate Below(x: nat, rest: set<nat>) { forall y | y in rest :: x < y }

  method Lowest(s: set<nat>) returns (low: nat)
    requires s != {}
    ensures low in s && forall x | x in s :: low <= x
  {
    ghost var least := LowestExists(s);
    low :| low in s && forall x | x in s :: low <= x;
  }

  lemma {:induction false} LowestExists(s: set<nat>) returns (low: nat)
    requires s != {}
    ensures low in s && forall x | x in s :: low <= x
  {
    low :| low in s;
    if s != {low} {
      var rest := LowestExists(s - {low});
      forall x | x in s ensures (if low < rest then low else rest) <= x { assert x != low ==> x in s - {low}; }
      low := if low < rest then low else rest;
    }
  }

  /** Reads the table in id order, looks each id up, and compares the counts at the end. Subset
      and equal count is the same as equality, so nothing is missing on either side. */
  method VerifyTransactionsMatchLog(stored: set<nat>, logged: set<nat>) returns (v: TxVerdict)
    ensures v.SameTransactions? <==> stored == logged
    ensures v.NeverLogged? ==> v.id in stored && v.id !in logged && forall x | x in stored && x < v.id :: x in logged
    ensures v.CountDiffers? ==> stored < logged
  {
    var rest, count := stored, 0;
    while rest != {}
      invariant count + |rest| == |stored|
      invariant forall x | x in rest :: x in stored
      invariant forall x | x in stored && x !in rest :: x in logged && Below(x, rest)
      decreases |rest|
    {
      var id := Lowest(rest);
      if id !in logged { return NeverLogged(id); }
      assert |rest - {id}| == |rest| - 1;
      rest := rest - {id};
      count := count + 1;
    }
    SubsetOfSameSize(stored, logged);
    v := if count != |logged| then CountDiffers else SameTransactions;
  }

  // ---------------------------------------------------------------- the volumes

  // what one row must look like: absent from the log it may be there, but only holding nothing
  predicate RowAgrees(want: map<Key, Volumes>, rows: map<Key, Row>, k: Key) {
    if k in want then k in rows && rows[k].volumes == want[k]
    else k in rows ==> rows[k].volumes == ZERO
  }

  datatype Verdict = Agrees(checked: nat) | Undecodable(index: nat) | Mismatch(key: Key) | Transactions(why: TxVerdict)

  // the tables are what the log says: volumes up to rows that hold nothing, and the same transactions
  ghost predicate Projected(logs: seq<Log>, rows: map<Key, Row>, txs: map<nat, TxRow>) {
    && AllCarry(logs)
    && (forall k {:trigger RowVolumes(rows, k)} :: RowVolumes(rows, k) == Totals(LogMovements(logs), k))
    && MovedKeys(LogMovements(logs)) <= rows.Keys
    && txs.Keys == LoggedIds(logs)
  }

  lemma {:induction false} UnmovedIsZero(ms: seq<Movement>, k: Key, out: bool)
    requires k !in MovedKeys(ms)
    ensures Total(ms, k, out) == 0
  {
    if ms != [] {
      var l := |ms| - 1;
      assert ms[l] in ms && forall m | m in ms[..l] :: m in ms;
      UnmovedIsZero(ms[..l], k, out);
    }
  }

  lemma {:induction false} AgreesMeans(want: map<Key, Volumes>, ms: seq<Movement>, rows: map<Key, Row>, k: Key)
    requires Replays(want, ms)
    ensures RowAgrees(want, rows, k) <==> RowVolumes(rows, k) == Totals(ms, k) && (k in MovedKeys(ms) ==> k in rows)
  {
    assert At(want, k) == Totals(ms, k);
    if k !in want {
      UnmovedIsZero(ms, k, false);
      UnmovedIsZero(ms, k, true);
    }
  }

  // a row one side lacks must be empty on the other
  method CheckRow(want: map<Key, Volumes>, rows: map<Key, Row>, k: Key) returns (ok: bool)
    requires k in want || k in rows
    ensures ok == RowAgrees(want, rows, k)
  {
    if k in want && k !in rows {
      ok := false;
    } else if k !in want && k in rows {
      ok := !(rows[k].volumes.Balance() != 0 || rows[k].volumes.input != 0);
    } else {
      ok := rows[k].volumes.input == want[k].input && rows[k].volumes.output == want[k].output;
    }
  }

  // the first of the rows that disagrees
  method FirstDisagreeing(want: map<Key, Volumes>, rows: map<Key, Row>, keys: seq<Key>) returns (n: nat)
    requires forall i | 0 <= i < |keys| :: keys[i] in want || keys[i] in rows
    ensures n <= |keys| && forall i | 0 <= i < n :: RowAgrees(want, rows, keys[i])
    ensures n < |keys| ==> !RowAgrees(want, rows, keys[n])
  {
    n := 0;
    while n < |keys|
      invariant 0 <= n <= |keys|
      invariant forall i | 0 <= i < n :: RowAgrees(want, rows, keys[i])
    {
      var ok := CheckRow(want, rows, keys[n]);
      if !ok { return; }
      n := n + 1;
    }
  }

  method CheckRows(want: map<Key, Volumes>, rows: map<Key, Row>) returns (checked: nat, bad: Option<Key>)
    ensures bad.None? <==> forall k | k in want.Keys + rows.Keys :: RowAgrees(want, rows, k)
    ensures bad.None? ==> checked == |want.Keys + rows.Keys|
    ensures bad.Some? ==> !RowAgrees(want, rows, bad.value)
                          && forall k | k in want.Keys + rows.Keys && KeyBefore(k, bad.value) ::
                              RowAgrees(want, rows, k)
  {
    var all := want.Keys + rows.Keys;
    var keys := SortKeys(all);
    SortedKeysAscend(all);
    SortedKeysCount(all);
    assert forall i | 0 <= i < |keys| :: keys[i] in keys;
    checked := FirstDisagreeing(want, rows, keys);
    if checked < |keys| {
      EarlierAgree(want, rows, keys, checked);
      return checked, Some(keys[checked]);
    }
    bad := None;
  }

  lemma {:induction false} EarlierAgree(want: map<Key, Volumes>, rows: map<Key, Row>, keys: seq<Key>, n: nat)
    requires Ascending(keys) && n < |keys| && forall i | 0 <= i < n :: RowAgrees(want, rows, keys[i])
    ensures forall x | x in keys && KeyBefore(x, keys[n]) :: RowAgrees(want, rows, x)
  {
    forall x | x in keys && KeyBefore(x, keys[n]) ensures RowAgrees(want, rows, x) { EarlierKey(keys, n, x); }
  }

  /** The replay check accepts exactly the tables the log produces. */
  method VerifyProjection(logs: seq<Log>, rows: map<Key, Row>, txs: map<nat, TxRow>) returns (v: Verdict)
    ensures v.Agrees? <==> Projected(logs, rows, txs)
    ensures v.Agrees? ==> v.checked == |MovedKeys(LogMovements(logs)) + rows.Keys|
    ensures v.Mismatch? ==>
              || RowVolumes(rows, v.key) != Totals(LogMovements(logs), v.key)
              || v.key in MovedKeys(LogMovements(logs)) - rows.Keys
    ensures v.Transactions? ==> txs.Keys != LoggedIds(logs)
    ensures v.Undecodable? ==> !AllCarry(logs)
  {
    var want, seen, bare := ReplayLog(logs);
    if bare.Some? { return Undecodable(bare.value); }
    var checked, bad := CheckRows(want, rows);
    forall k ensures RowAgrees(want, rows, k) <==>
                     RowVolumes(rows, k) == Totals(LogMovements(logs), k)
                       && (k in MovedKeys(LogMovements(logs)) ==> k in rows)
    { AgreesMeans(want, LogMovements(logs), rows, k); }
    if bad.Some? { return Mismatch(bad.value); }
    assert forall k :: RowAgrees(want, rows, k);
    var t := VerifyTransactionsMatchLog(txs.Keys, seen);
    v := if t.SameTransactions? then Agrees(checked) else Transactions(t);
  }

  /** The log is the source of truth: whatever ran, the tables are what its replay produces. */
  lemma {:induction false} LogIsTheSourceOfTruth(db: Db)
    requires Reachable(db)
    ensures Projected(db.logs, db.rows, db.txs)
  {
    ReachableInv(db);
    forall i | 0 <= i < |db.logs| ensures !Bare(db.logs[i]) { assert KindAt(db.logs, i); }
    forall k ensures RowVolumes(db.rows, k) == Totals(LogMovements(db.logs), k) {
      assert RowVolumes(db.rows, k) == Totals(Core(db.moves), k);
    }
    forall k | k in MovedKeys(LogMovements(db.logs)) ensures k in db.rows {
      var i :| 0 <= i < |Core(db.moves)| && Core(db.moves)[i].key == k;
      assert db.moves[i].movement.key in db.rows;
    }
  }
}

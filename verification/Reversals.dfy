/** A transaction is reversed at most once, and the pair leaves no trace on any balance. */
module Reversals {
  import opened Ledger
  import opened History
  import opened Engine
  import opened Invariants
  import opened Runs
  import opened Permanence

  ghost predicate Reverses(logs: seq<Log>, i: nat, id: nat) {
    i < |logs| && logs[i].data.RevertData? && logs[i].data.reverted == id
  }

  /** In every reachable state one entry at most reverses a transaction, and the transaction is
      stamped exactly when one does. */
  lemma {:induction false} OneReversalEach(db: Db, id: nat)
    requires Reachable(db) && id in db.txs
    ensures db.txs[id].revertedAt.Some? <==> exists i :: Reverses(db.logs, i, id)
    ensures forall i, j | Reverses(db.logs, i, id) && Reverses(db.logs, j, id) :: i == j
  {
    ReachableInv(db);
    RevertedIdsExact(db.logs, id);
    if db.txs[id].revertedAt.Some? {
      var i :| 0 <= i < |db.logs| && db.logs[i].data.RevertData? && db.logs[i].data.reverted == id;
      assert Reverses(db.logs, i, id);
    }
    forall i, j | Reverses(db.logs, i, id) && Reverses(db.logs, j, id) ensures i == j {
      assert RevertsNew(db.logs, i) && RevertsNew(db.logs, j);
    }
  }

  /** A reversal that was answered is never repeated, whatever ran since. */
  lemma {:induction false} NeverTwice(db: Db, id: nat, at: bool, now: Time, ops: seq<Op>, again: bool, later: Time)
    requires Reachable(db) && (forall op | op in ops :: Sensible(op)) && Revert(db, id, at, now).reply.RevertedBy?
    ensures var since := Run(Revert(db, id, at, now).db, ops);
            Revert(since, id, again, later) == Step(since, Rejected(AlreadyReverted(id)))
  {
    ReachableInv(db);
    var first := Revert(db, id, at, now);
    RevertKeepsInv(db, id, at, now);
    RevertStamps(db, id, at, now);
    RunExtends(first.db, ops);
    StampedRefuses(Run(first.db, ops), id, again, later);
  }

  lemma {:induction false} RevertStamps(db: Db, id: nat, at: bool, now: Time)
    requires Inv(db) && Revert(db, id, at, now).reply.RevertedBy?
    ensures var s := Revert(db, id, at, now); id in s.db.txs && s.db.txs[id].revertedAt.Some?
  {
  }

  lemma {:induction false} StampedRefuses(db: Db, id: nat, at: bool, now: Time)
    requires id in db.txs && db.txs[id].revertedAt.Some?
    ensures Revert(db, id, at, now) == Step(db, Rejected(AlreadyReverted(id)))
  {
  }

  // the log as it would be without one entry
  function Without(logs: seq<Log>, i: nat): seq<Log>
    requires i < |logs|
  {
    logs[..i] + logs[i + 1..]
  }

  lemma {:induction false} OneEntryTotal(logs: seq<Log>, i: nat, k: Key, out: bool)
    requires i < |logs|
    ensures Total(LogMovements(logs), k, out) ==
              Total(LogMovements(Without(logs, i)), k, out) + Total(LogLegs(logs[i]), k, out)
  {
    var a, b := logs[..i], logs[i + 1..];
    assert logs == a + [logs[i]] + b;
    LogMovementsConcat(a + [logs[i]], b);
    LogMovementsConcat(a, b);
    LogMovementsSnoc(a, logs[i]);
    TotalConcat(LogMovements(a) + LogLegs(logs[i]), LogMovements(b), k, out);
    TotalConcat(LogMovements(a), LogLegs(logs[i]), k, out);
    TotalConcat(LogMovements(a), LogMovements(b), k, out);
  }

  ghost predicate Carries(logs: seq<Log>, i: nat, id: nat) {
    i < |logs| && CarriedTx(logs[i]).Some? && CarriedTx(logs[i]).value.id == id
  }

  lemma {:induction false} PairCancels(logs: seq<Log>, n: nat, m: nat, k: Key)
    requires n < m < |logs| && CarriedTx(logs[n]).Some? && CarriedTx(logs[m]).Some?
    requires CarriedTx(logs[m]).value.postings == Reversed(CarriedTx(logs[n]).value.postings)
    ensures Totals(LogMovements(logs), k).Balance() == Totals(LogMovements(Without(Without(logs, m), n)), k).Balance()
  {
    var t, r := CarriedTx(logs[n]).value, CarriedTx(logs[m]).value;
    assert Without(logs, m)[n] == logs[n];
    OneEntryTotal(logs, m, k, false);
    OneEntryTotal(logs, m, k, true);
    OneEntryTotal(Without(logs, m), n, k, false);
    OneEntryTotal(Without(logs, m), n, k, true);
    LegsTotal(t.postings, t.id, t.timestamp, k, false);
    LegsTotal(t.postings, t.id, t.timestamp, k, true);
    LegsTotal(r.postings, r.id, r.timestamp, k, false);
    LegsTotal(r.postings, r.id, r.timestamp, k, true);
    ReversedFlow(t.postings, k, false);
    ReversedFlow(t.postings, k, true);
  }

  // what is reversed was committed before
  lemma {:induction false} OriginalFirst(txs: map<nat, TxRow>, logs: seq<Log>, n: nat, m: nat, id: nat)
    requires Carries(logs, n, id) && Reverses(logs, m, id)
    requires TxAbove(logs, n) && TxAbove(logs, m) && KindAt(logs, m) && KindAt(logs, n) && RevertStored(txs, logs, m)
    ensures n < m
  {
  }

  /** Whatever was committed in between, every balance is what it would be had neither the
      transaction nor its reversal ever been logged. */
  lemma {:induction false} PairLeavesNoTrace(db: Db, n: nat, m: nat, id: nat, k: Key)
    requires Reachable(db) && Carries(db.logs, n, id) && Reverses(db.logs, m, id)
    ensures n < m
    ensures RowVolumes(db.rows, k).Balance() == Totals(LogMovements(Without(Without(db.logs, m), n)), k).Balance()
  {
    ReachableInv(db);
    assert RowVolumes(db.rows, k) == Totals(Core(db.moves), k);
    assert RevertStored(db.txs, db.logs, m) && EntryStored(db.txs, db.logs, n);
    assert TxAbove(db.logs, n) && TxAbove(db.logs, m) && KindAt(db.logs, m) && KindAt(db.logs, n);
    OriginalFirst(db.txs, db.logs, n, m, id);
    PairCancels(db.logs, n, m, k);
  }
}

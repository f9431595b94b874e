/** No id is given out twice, whatever a restore has forgotten. */
module Restore {
  import opened Ledger
  import opened Engine
  import opened Chain
  import opened Invariants
  import opened Runs
  import opened Permanence

  lemma {:induction false} RecoveryClears(db: Db, w: Tip, note: string)
    ensures PastTip(RecordRecovery(db, w, note), w)
    ensures RecordRecovery(db, w, note).txs == db.txs
  {
  }

  lemma {:induction false} PastTipStays(a: Db, b: Db, w: Tip)
    requires PastTip(a, w) && Extends(a, b)
    ensures PastTip(b, w)
  {
  }

  /** A database set back to an earlier committed state, and resumed with a watermark recorded
      before that, never issues again an id at or below the watermark: not for an entry, and not
      for a transaction, whatever runs afterwards. The log check still accepts, and recording the
      recovery again changes nothing. */
  lemma {:induction false} RestoreSafety(earlier: Db, lost: seq<Op>, w: Tip, note: string, after: seq<Op>,
                                         again: string)
    requires Reachable(earlier) && (forall op | op in lost + after :: Sensible(op))
    requires var before := Run(earlier, lost); before.lastLog <= w.logId && before.lastTx <= w.txId <= w.logId
    ensures var before := Run(earlier, lost);
            var resumed := RecordRecovery(earlier, w, note);
            var end := Run(resumed, after);
            && (forall i | |resumed.logs| <= i < |end.logs| :: end.logs[i].id > w.logId)
            && (forall id | id in end.txs && id !in earlier.txs :: id > w.txId)
            && (forall id | id in before.txs && id !in earlier.txs :: id !in end.txs)
            && ChainOk(end.logs)
            && RecordRecovery(end, w, again) == end
  {
    ReachableInv(earlier);
    assert forall op | op in lost :: op in lost + after;
    assert forall op | op in after :: op in lost + after;
    var before, resumed := Run(earlier, lost), RecordRecovery(earlier, w, note);
    var end := Run(resumed, after);
    RunExtends(earlier, lost);
    RecoveryKeepsInv(earlier, w, note);
    RecoveryClears(earlier, w, note);
    RunExtends(resumed, after);
    PastTipStays(resumed, end, w);
    LostStayLost(before.txs, before.lastTx, earlier, resumed, end, w);
  }

  lemma {:induction false} LostStayLost(before: map<nat, TxRow>, lastTx: nat, earlier: Db, resumed: Db, end: Db, w: Tip)
    requires forall id | id in before :: Numbered(before, lastTx, id)
    requires lastTx <= w.txId <= resumed.lastTx && resumed.txs == earlier.txs && FreshIds(resumed, end)
    ensures forall id | id in before && id !in earlier.txs :: id !in end.txs
  {
    forall id | id in before && id !in earlier.txs ensures id !in end.txs { assert Numbered(before, lastTx, id); }
  }

  /** The tip a ledger reports is such a watermark, and so is the tip with the log id standing in
      for the transaction id: there are at least as many entries as transactions. */
  lemma {:induction false} TipIsWatermark(earlier: Db, lost: seq<Op>)
    requires Reachable(earlier) && forall op | op in lost :: Sensible(op)
    ensures var t := ChainTip(Run(earlier, lost)); t.txId <= t.logId
  {
    ReachableInv(earlier);
    RunKeepsInv(earlier, lost);
  }

  // the watermark built from the text of a tip, which carries no transaction id
  function FromText(logId: int, hash: Hash): Tip { Tip(logId, logId, hash) }

  /** Resuming from the text form. The recovery is a no-op exactly when both counters have reached
      the log id, so an intact ledger still gains an entry whenever it recorded fewer transactions
      than entries. That entry declares no gap: it stands at the next id and claims
      to skip through ids at or below where it resumed. */
  lemma {:induction false} ResumeFromText(db: Db, logId: int, hash: Hash, note: string)
    requires db.lastLog >= logId
    ensures var r := RecordRecovery(db, FromText(logId, hash), note);
            && (r.logs == db.logs <==> db.lastTx >= logId)
            && (db.lastTx < logId ==>
                  r.logs == db.logs + [Log(db.lastLog + 1, Recovery, RecoveryData(db.lastLog, logId, note),
                                           Chained(db.tip, RecoveryData(db.lastLog, logId, note)), None)])
  {
    var r := RecordRecovery(db, FromText(logId, hash), note);
    assert db.lastTx < logId ==> |r.logs| == |db.logs| + 1;
  }

  // one metadata entry is enough: nothing was lost, and resuming from its own tip still appends
  lemma {:induction false} ResumeWithNothingLost(note: string) returns (db: Db)
    ensures Reachable(db) && db.lastLog == 1
    ensures var t := ChainTip(db);
            RecordRecovery(db, t, note) == db && RecordRecovery(db, FromText(t.logId, t.hash), note) != db
  {
    var op := OpSetAccountMetadata(Address("a"), map["k" := Text("v")], 0);
    db := Perform(EMPTY, op).db;
    assert "k" in map["k" := Text("v")];
    assert [op][..0] == [];
    assert Run(EMPTY, [op]) == db;
    assert forall o | o in [op] :: Sensible(o);
    ResumeFromText(db, 1, db.tip, note);
  }
}

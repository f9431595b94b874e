/** Money entering from world into a ledger nobody has restricted always goes through. The concrete
    runs of other modules are built on it. */
module Funding {
  import opened Ledger
  import opened History
  import opened Engine
  import opened Sweeps
  import opened Runs

  predicate Easy(k: Key, row: Row) {
    row.allowPositive && if k.account == WORLD then row.allowNegative else row.volumes.Balance() >= 0
  }

  // nothing closed, nothing bounded above, world unbounded below, nobody else overdrawn
  ghost predicate Unrestricted(db: Db) {
    (forall a :: a in db.accounts ==> !db.accounts[a].closed) && forall k | k in db.rows :: Easy(k, db.rows[k])
  }

  predicate Funds(p: Postings) {
    p != [] && forall q | q in p ::
      q.source == WORLD && q.destination != WORLD && !q.upTo && q.amount.Some? && 0 <= q.amount.value < AMOUNT_LIMIT
  }

  // a transaction of figures is decided exactly by closure and by where each row ends
  lemma {:induction false} FixedGoesThrough(before: map<Key, Locked>, p: Postings)
    requires before.Keys == Touched(p) && forall q | q in p :: q.amount.Some? && !q.upTo
    ensures Prepare(before, p) == Done(p) <==>
            forall k | k in Touched(p) ::
                !before[k].closed && WithinAfter(before[k].row, Flow(p, k, false), Flow(p, k, true))
  {
    var us := Updates(p);
    FixedDecide(before, p);
    UpdatesKeys(p);
    ClosedExact(before, us);
    BoundsExact(before, us);
    forall i | 0 <= i < |us| ensures us[i] == UpdateOf(p, us[i].key) { }
    if Prepare(before, p) == Done(p) { PrepareGuarantees(before, p); }
  }

  lemma {:induction false} NothingLeaves(p: Postings, k: Key)
    requires (forall q | q in p :: q.source == WORLD && q.Acceptable()) && k.account != WORLD
    ensures Flow(p, k, true) == 0 && Flow(p, k, false) >= 0
  {
    FlowNonnegative(p, k, false);
    if p != [] {
      assert p[|p| - 1] in p && forall q | q in p[..|p| - 1] :: q in p;
      NothingLeaves(p[..|p| - 1], k);
    }
  }

  // figures that overdraw nobody but world go through
  lemma {:induction false} EasyDecides(db: Db, p: Postings)
    requires Unrestricted(db) && forall q | q in p :: q.amount.Some? && !q.upTo
    requires forall k | k in Touched(p) && k.account != WORLD :: After(RowAt(db, k).volumes, p, k).Balance() >= 0
    ensures Prepare(LockRead(db, Touched(p)), p) == Done(p)
  {
    var before := LockRead(db, Touched(p));
    forall k | k in Touched(p)
      ensures !before[k].closed && WithinAfter(before[k].row, Flow(p, k, false), Flow(p, k, true)) {
      assert Easy(k, RowAt(db, k));
    }
    FixedGoesThrough(before, p);
  }

  lemma {:induction false} FundingDecides(db: Db, p: Postings)
    requires Unrestricted(db) && Funds(p)
    ensures Prepare(LockRead(db, Touched(p)), p) == Done(p)
  {
    forall k | k in Touched(p) && k.account != WORLD ensures After(RowAt(db, k).volumes, p, k).Balance() >= 0 {
      assert Easy(k, RowAt(db, k));
      NothingLeaves(p, k);
    }
    EasyDecides(db, p);
  }

  lemma {:induction false} FundingWellFormed(p: Postings)
    requires Funds(p)
    ensures Malformed(p).None?
  {
    if Malformed(p).Some? { FirstFails(p, 0); }
  }

  lemma {:induction false} FirstFails(p: Postings, i: nat)
    ensures Invalid(p, i).Some? ==> exists q | q in p :: PostingError(q).Some?
    decreases |p| - i
  {
    if i < |p| {
      if PostingError(p[i]).Some? { assert p[i] in p; } else { FirstFails(p, i + 1); }
    }
  }

  // what it leaves behind: the transaction as asked, its moves, and a ledger as unrestricted as before
  ghost predicate Funded(db: Db, r: Db, item: Item, use: Option<KeyUse>, now: Time, tx: Tx) {
    && tx.id == db.lastTx + 1 == r.lastTx && tx.postings == item.postings && tx.reference == item.reference
    && r.txs == db.txs[tx.id := TxRow(tx, item.metadata, None)]
    && Core(r.moves) == Core(db.moves) + Legs(item.postings, tx.id, Stamp(item.timestamp, now))
    && |r.logs| == |db.logs| + 1 && r.logs[..|db.logs|] == db.logs && r.logs[|db.logs|].use == use
    && Unrestricted(r)
  }

  lemma {:induction false} FundingKeeps(db: Db, p: Postings)
    requires Unrestricted(db) && Funds(p)
    ensures var rows := ApplyDeltas(Materialised(db.rows, Touched(p)), p); forall k | k in rows :: Easy(k, rows[k])
  {
    var rows := ApplyDeltas(Materialised(db.rows, Touched(p)), p);
    forall k | k in rows ensures Easy(k, rows[k]) {
      assert Easy(k, RowAt(db, k));
      if k.account != WORLD { NothingLeaves(p, k); }
    }
  }

  lemma {:induction false} FundingApplies(db: Db, item: Item, now: Time)
    requires Unrestricted(db) && Funds(item.postings)
    ensures if item.reference != "" && ReferenceUsed(db, item.reference) then
              Apply(db, item, now) == Refused(DuplicateReference(item.reference))
            else
              Apply(db, item, now).Done? && var a := Apply(db, item, now).value;
              && a.tx.id == db.lastTx + 1 && a.tx.postings == item.postings && a.tx.reference == item.reference
              && Unrestricted(a.db) && a.db.lastTx == a.tx.id && a.db.logs == db.logs
              && a.db.txs == db.txs[a.tx.id := TxRow(a.tx, item.metadata, None)]
              && Core(a.db.moves) == Core(db.moves) + Legs(item.postings, a.tx.id, Stamp(item.timestamp, now))
  {
    var before, d := LockRead(db, Touched(item.postings)), Stamp(item.timestamp, now);
    FundingDecides(db, item.postings);
    var effective := EffectiveReads(db.moves, Touched(item.postings), d);
    ApplyIsSteps(db, item, now, before, item.postings, effective);
    WriteInstalls(db, item, item.postings, d, VolumesOf(before), effective);
    var tx := Tx(db.lastTx + 1, item.postings, d, item.reference, item.metadata,
        PostCommit(VolumesOf(before), item.postings));
    InstalledFunded(db, tx, VolumesOf(before), effective);
  }

  lemma {:induction false} InstalledFunded(db: Db, tx: Tx, before: map<Key, Volumes>, effective: map<Key, Volumes>)
    requires Unrestricted(db) && Funds(tx.postings) && tx.id == db.lastTx + 1
    ensures var r := Installed(db, tx, before, effective);
            && Unrestricted(r) && r.lastTx == tx.id && r.logs == db.logs
            && r.txs == db.txs[tx.id := TxRow(tx, tx.metadata, None)]
            && Core(r.moves) == Core(db.moves) + Legs(tx.postings, tx.id, tx.timestamp)
  {
    FundingKeeps(db, tx.postings);
    PostedCore(db.moves, tx.postings, tx.id, tx.timestamp, before, effective);
  }

  /** It goes through unless its reference or its key is used, and then it is refused for that. */
  lemma {:induction false} FundingLands(db: Db, item: Item, use: Option<KeyUse>, now: Time)
    requires Unrestricted(db) && Funds(item.postings)
    ensures var r := ApplyAndLog(db, item, use, now);
            if item.reference != "" && ReferenceUsed(db, item.reference) then
                r == Refused(DuplicateReference(item.reference))
            else if Taken(db.logs, use) then r == Refused(KeyTaken(use.value.key))
            else r.Done? && Funded(db, r.value.db, item, use, now, r.value.tx)
  {
    FundingApplies(db, item, now);
  }

  lemma {:induction false} FundingCommits(db: Db, item: Item, now: Time, id: nat, d: Time)
    requires Unrestricted(db) && Funds(item.postings) && item.reference == ""
    requires id == db.lastTx + 1 && d == Stamp(item.timestamp, now)
    ensures var r := Commit(db, item, "", false, now);
            && r.reply.Committed? && Unrestricted(r.db)
            && Core(r.db.moves) == Core(db.moves) + Legs(item.postings, id, d)
  {
    FundingWellFormed(item.postings);
    FundingLands(db, item, None, now);
    assert ApplyAndLog(db, item, None, now).value.tx.id == id;
  }

  lemma {:induction false} OneStepReaches(start: Db, op: Op)
    requires start == EMPTY && Sensible(op)
    ensures Reachable(Perform(start, op).db)
  {
    var ops := [op];
    assert ops[..0] == [] && Run(start, []) == start;
    assert Run(start, ops) == Perform(start, op).db;
    assert forall o | o in ops :: Sensible(o);
  }

  // the first commit of all
  lemma {:induction false} FundingOpens(start: Db, item: Item, now: Time, d: Time)
    requires start == EMPTY && Funds(item.postings) && item.reference == "" && d == Stamp(item.timestamp, now)
    ensures var r := Commit(start, item, "", false, now).db;
            Reachable(r) && Unrestricted(r) && Core(r.moves) == Legs(item.postings, 1, d)
  {
    FundingCommits(start, item, now, 1, d);
    OneStepReaches(start, OpCommit(item, "", false, now));
    NoMovesYet(start.moves, Legs(item.postings, 1, d));
  }

  lemma {:induction false} NoMovesYet(moves: seq<Move>, legs: seq<Movement>)
    requires moves == []
    ensures Core(moves) + legs == legs
  {
  }
}

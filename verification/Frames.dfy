/** What landing a transaction leaves alone: the rows it does not touch, what was or will be read
    of them at any date, which accounts are closed, and every other transaction. */
module Frames {
  import opened Ledger
  import opened History
  import opened Engine
  import opened Invariants
  import opened Runs
  import opened Protocol
  import opened Sessions

  ghost predicate SameRow(a: map<Key, Row>, b: map<Key, Row>, k: Key) {
    (k in a <==> k in b) && (k in a ==> a[k] == b[k])
  }

  ghost predicate SameRows(a: Db, b: Db, ks: set<Key>) {
    a.rows.Keys <= b.rows.Keys && forall k {:trigger SameRow(a.rows, b.rows, k)} | k !in ks ::
        SameRow(a.rows, b.rows, k)
  }

  ghost predicate SameReads(a: Db, b: Db, ks: set<Key>) {
    forall k, d {:trigger EffectiveRead(b.moves, k, d)} | k !in ks ::
        EffectiveRead(b.moves, k, d) == EffectiveRead(a.moves, k, d)
  }

  ghost predicate SameClosed(a: Db, b: Db) { forall x {:trigger Closed(b, x)} :: Closed(b, x) == Closed(a, x) }

  ghost predicate SameTxs(a: Db, b: Db, undone: Option<nat>) {
    forall id | id in a.txs ::
      id in b.txs && b.txs[id].tx == a.txs[id].tx
        && (undone != Some(id) ==> b.txs[id].revertedAt == a.txs[id].revertedAt)
  }

  ghost predicate FrameOf(a: Db, b: Db, ks: set<Key>, undone: Option<nat>) {
    SameRows(a, b, ks) && SameReads(a, b, ks) && SameClosed(a, b) && SameTxs(a, b, undone)
  }

  lemma {:induction false} NoFrame(db: Db, ks: set<Key>, undone: Option<nat>)
    ensures FrameOf(db, db, ks, undone)
  {
  }

  lemma {:induction false} FrameTransitive(a: Db, b: Db, c: Db, ks: set<Key>, undone: Option<nat>)
    requires FrameOf(a, b, ks, undone) && FrameOf(b, c, ks, undone)
    ensures FrameOf(a, c, ks, undone)
  {
    forall k | k !in ks ensures SameRow(a.rows, c.rows, k) {
      assert SameRow(a.rows, b.rows, k) && SameRow(b.rows, c.rows, k);
    }
    forall k, d | k !in ks ensures EffectiveRead(c.moves, k, d) == EffectiveRead(a.moves, k, d) {
      assert EffectiveRead(b.moves, k, d) == EffectiveRead(a.moves, k, d);
    }
    forall x ensures Closed(c, x) == Closed(a, x) { assert Closed(b, x) == Closed(a, x); }
  }

  lemma {:induction false} FrameWidens(a: Db, b: Db, few: set<Key>, ks: set<Key>, undone: Option<nat>)
    requires FrameOf(a, b, few, undone) && few <= ks
    ensures FrameOf(a, b, ks, undone)
  {
  }

  lemma {:induction false} UntouchedRow(rows: map<Key, Row>, p: Postings, k: Key)
    requires k !in Touched(p)
    ensures SameRow(rows, ApplyDeltas(Materialised(rows, Touched(p)), p), k)
  {
    UntouchedDelta(p, k);
  }

  lemma {:induction false} InstalledRows(db: Db, tx: Tx, before: map<Key, Volumes>, effective: map<Key, Volumes>)
    ensures SameRows(db, Installed(db, tx, before, effective), Touched(tx.postings))
  {
    var r := Installed(db, tx, before, effective);
    forall k | k !in Touched(tx.postings) ensures SameRow(db.rows, r.rows, k) { UntouchedRow(db.rows, tx.postings, k); }
  }

  lemma {:induction false} InstalledReads(db: Db, tx: Tx, before: map<Key, Volumes>, effective: map<Key, Volumes>)
    requires PcevOk(db.moves) && ReadAsOf(db.moves, Touched(tx.postings), tx.timestamp, effective)
    ensures SameReads(db, Installed(db, tx, before, effective), Touched(tx.postings))
  {
    PostedPcev(db.moves, tx.postings, tx.id, tx.timestamp, before, effective);
    forall k, d | k !in Touched(tx.postings)
      ensures EffectiveRead(Installed(db, tx, before, effective).moves, k, d) == EffectiveRead(db.moves, k, d) {
      EffectiveReadFrame(db.moves, tx.postings, tx.id, tx.timestamp, before, effective, k, d);
    }
  }

  lemma {:induction false} InstalledClosed(db: Db, tx: Tx, before: map<Key, Volumes>, effective: map<Key, Volumes>)
    ensures SameClosed(db, Installed(db, tx, before, effective))
  {
  }

  lemma {:induction false} LandedFrame(db: Db, tx: Tx, before: map<Key, Volumes>, effective: map<Key, Volumes>,
                                       use: Option<KeyUse>, undone: Option<nat>)
    requires Inv(db) && Fits(db, tx, before, effective) && UndoFits(db, tx, undone)
    ensures FrameOf(db, Landed(db, tx, before, effective, use, undone), Touched(tx.postings), undone)
  {
    var r := Landed(db, tx, before, effective, use, undone);
    var i := Installed(db, tx, before, effective);
    LandedFields(db, tx, before, effective, use, undone);
    LandedStamps(db, tx, before, effective, use, undone);
    InstalledRows(db, tx, before, effective);
    InstalledReads(db, tx, before, effective);
    InstalledClosed(db, tx, before, effective);
    forall x ensures Closed(r, x) == Closed(db, x) { assert Closed(i, x) == Closed(db, x); }
    forall k | k !in Touched(tx.postings) ensures SameRow(db.rows, r.rows, k) { assert SameRow(db.rows, i.rows, k); }
  }

  // ---------------------------------------------------------------- parts of a request

  // what a part needs of the tables it runs on
  ghost predicate PartFits(db: Db, part: Part) {
    && (forall q | q in part.item.postings :: q.Acceptable())
    && (part.use.Some? ==> part.undone.None?)
    && (part.undone.Some? ==>
          && part.undone.value in db.txs && db.txs[part.undone.value].revertedAt.None?
          && part.item.postings == Reversed(db.txs[part.undone.value].tx.postings)
          && forall q | q in part.item.postings :: !q.upTo)
  }

  lemma {:induction false} RunPartDone(db: Db, part: Part, now: Time)
    requires RunPart(db, part, now).Done?
    ensures var r, a := Apply(db, part.item, now), RunPart(db, part, now).value;
            && r.Done? && a.tx == r.value.tx && !Taken(db.logs, part.use)
            && (part.undone.Some? ==> part.undone.value in r.value.db.txs)
            && a.db == Logged(r.value.db, part, a.tx)
  {
  }

  lemma {:induction false} LoggedIsLanded(db: Db, tx: Tx, before: map<Key, Volumes>, effective: map<Key, Volumes>,
                                          part: Part)
    requires part.undone.Some? ==> part.undone.value in db.txs
    ensures var i := Installed(db, tx, before, effective);
            && (part.undone.Some? ==> part.undone.value in i.txs)
            && Logged(i, part, tx) == Landed(db, tx, before, effective, part.use, part.undone)
  {
  }

  lemma {:induction false} RunPartLands(db: Db, part: Part, now: Time)
    requires Inv(db) && PartFits(db, part) && RunPart(db, part, now).Done?
    ensures var a := RunPart(db, part, now).value;
            var ks := Touched(part.item.postings);
            var before, effective := VolumesOf(LockRead(db, ks)), EffectiveReads(db.moves, ks, a.tx.timestamp);
            && Touched(a.tx.postings) == ks
            && Fits(db, a.tx, before, effective) && UndoFits(db, a.tx, part.undone)
            && a.db == Landed(db, a.tx, before, effective, part.use, part.undone) && !Taken(db.logs, part.use)
  {
    RunPartDone(db, part, now);
    ApplyFits(db, part.item, now);
    var tx, ks := Apply(db, part.item, now).value.tx, Touched(part.item.postings);
    LoggedIsLanded(db, tx, VolumesOf(LockRead(db, ks)), EffectiveReads(db.moves, ks, tx.timestamp), part);
    if part.undone.Some? { ApplyFixed(db, part.item, now); }
  }

  lemma {:induction false} RunPartFrames(db: Db, part: Part, now: Time)
    requires Inv(db) && PartFits(db, part) && RunPart(db, part, now).Done?
    ensures FrameOf(db, RunPart(db, part, now).value.db, Touched(part.item.postings), part.undone)
  {
    RunPartLands(db, part, now);
    var a := RunPart(db, part, now).value;
    var ks := Touched(part.item.postings);
    LandedFrame(db, a.tx, VolumesOf(LockRead(db, ks)), EffectiveReads(db.moves, ks, a.tx.timestamp), part.use,
        part.undone);
  }

  lemma {:induction false} RunPartKeepsInv(db: Db, part: Part, now: Time)
    requires Inv(db) && PartFits(db, part) && RunPart(db, part, now).Done?
    ensures Inv(RunPart(db, part, now).value.db)
  {
    RunPartLands(db, part, now);
    var a := RunPart(db, part, now).value;
    var ks := Touched(part.item.postings);
    LandKeepsInv(db, a.tx, VolumesOf(LockRead(db, ks)), EffectiveReads(db.moves, ks, a.tx.timestamp), part.use,
        part.undone);
  }

  function Undone(op: Op): Option<nat> { if op.OpRevert? then Some(op.id) else None }

  lemma {:induction false} RevertPartFits(db: Db, s: Session)
    requires Inv(db) && PlanOk(db, s) && s.op.OpRevert?
    ensures |s.parts| == 1 && PartFits(db, s.parts[0])
  {
    StoredFigures(db, s.op.id);
    ReversedFigures(db.txs[s.op.id].tx.postings);
  }

  lemma {:induction false} PlainPartFits(db: Db, s: Session, r: Db, m: nat)
    requires PlanOk(db, s) && !s.op.OpRevert? && m < |s.parts|
    ensures PartFits(r, s.parts[m])
  {
    match s.op
    case OpCommit(item, _, _, _) => WellFormedIsAcceptable(item.postings);
    case OpBatch(items, key, _, _) => WellFormedIsAcceptable(items[m].postings);
  }

  lemma {:induction false} NextPartFits(db: Db, s: Session, m: nat)
    requires Inv(db) && PlanOk(db, s) && m < |s.parts| && RunParts(db, s.parts, Clock(s.op), m).Done?
    ensures PartFits(RunParts(db, s.parts, Clock(s.op), m).value.db, s.parts[m])
  {
    if s.op.OpRevert? {
      RevertPartFits(db, s);
      assert m == 0;
    } else {
      PlainPartFits(db, s, RunParts(db, s.parts, Clock(s.op), m).value.db, m);
    }
  }

  lemma {:induction false} PartIn(parts: seq<Part>, m: nat)
    requires m < |parts|
    ensures Touched(parts[m].item.postings) <= PartKeys(parts)
  {
  }

  /** The parts of a request, run one after another, keep every invariant and leave alone whatever
      lies outside the rows the request locks. */
  lemma {:induction false} RunPartsFrame(db: Db, s: Session, n: nat)
    requires Inv(db) && PlanOk(db, s) && n <= |s.parts|
    requires RunParts(db, s.parts, Clock(s.op), n).Done?
    ensures var r := RunParts(db, s.parts, Clock(s.op), n).value.db;
            Inv(r) && FrameOf(db, r, PartKeys(s.parts), Undone(s.op))
  {
    if n == 0 {
      NoFrame(db, PartKeys(s.parts), Undone(s.op));
    } else {
      var m := n - 1;
      RunPartsLast(db, s.parts, Clock(s.op), m, n);
      RunPartsFrame(db, s, m);
      var r := RunParts(db, s.parts, Clock(s.op), m).value.db;
      NextPartFits(db, s, m);
      NextPartFrames(db, r, s, m);
    }
  }

  lemma {:induction false} NextPartFrames(db: Db, r: Db, s: Session, m: nat)
    requires Inv(r) && PlanOk(db, s) && m < |s.parts| && PartFits(r, s.parts[m])
             && RunPart(r, s.parts[m], Clock(s.op)).Done?
    requires FrameOf(db, r, PartKeys(s.parts), Undone(s.op))
    ensures var a := RunPart(r, s.parts[m], Clock(s.op)).value.db;
            Inv(a) && FrameOf(db, a, PartKeys(s.parts), Undone(s.op))
  {
    var a := RunPart(r, s.parts[m], Clock(s.op)).value.db;
    RunPartKeepsInv(r, s.parts[m], Clock(s.op));
    RunPartFrames(r, s.parts[m], Clock(s.op));
    PartKinds(db, s, m);
    PartIn(s.parts, m);
    assert s.parts[m].undone == Undone(s.op);
    FrameWidens(r, a, Touched(s.parts[m].item.postings), PartKeys(s.parts), Undone(s.op));
    FrameTransitive(db, r, a, PartKeys(s.parts), Undone(s.op));
  }
}

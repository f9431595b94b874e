/** What other sessions' publications, and brief operations between the steps, leave of a session: all
    it holds, has read and has decided is as current as before. */
module Survival {
  import opened Ledger
  import opened History
  import opened Engine
  import opened Sweeps
  import opened Invariants
  import opened Runs
  import opened Protocol
  import opened Sessions
  import opened Frames

  // ---------------------------------------------------------------- a session survives another's publication

  // nothing of the frame's difference is anything the session has locked
  ghost predicate Untouched(t: Session, ks: set<Key>, undone: Option<nat>) {
    && !t.ledger && (forall k | k in t.held :: k !in ks)
    && (t.row.Some? ==> t.row != undone)
  }

  lemma {:induction false} PlanSurvives(a: Db, b: Db, ks: set<Key>, undone: Option<nat>, t: Session)
    requires FrameOf(a, b, ks, undone) && Untouched(t, ks, undone) && PlanOk(a, t)
    ensures PlanOk(b, t)
  {
    if t.op.OpRevert? { assert a.txs[t.op.id].tx == b.txs[t.op.id].tx; }
  }

  lemma {:induction false} RowsSurvive(a: Db, b: Db, ks: set<Key>, undone: Option<nat>, t: Session, n: nat, m: nat)
    requires FrameOf(a, b, ks, undone) && Untouched(t, ks, undone) && n <= |t.ks| && m <= |t.ks|
    requires CreatedOk(a, t, n) && Present(a, t, m) && forall k | k in t.created :: k in t.held
    ensures CreatedOk(b, t, n) && Present(b, t, m)
  {
    forall k | k in t.created ensures k !in b.rows { assert SameRow(a.rows, b.rows, k); }
  }

  lemma {:induction false} SeenSurvives(a: Db, b: Db, ks: set<Key>, undone: Option<nat>, t: Session, n: nat)
    requires FrameOf(a, b, ks, undone) && Untouched(t, ks, undone) && n <= |t.ks| && Holds(t, n) && SeenOk(a, t, n)
    ensures SeenOk(b, t, n)
  {
    forall k | k in t.seen ensures RowAt(b, k) == RowAt(a, k) { assert SameRow(a.rows, b.rows, k); }
  }

  lemma {:induction false} LocksSurvive(a: Db, b: Db, ks: set<Key>, undone: Option<nat>, t: Session, n: nat)
    requires FrameOf(a, b, ks, undone) && Untouched(t, ks, undone) && Locks(a, t, n)
    ensures Locks(b, t, n)
  {
    PlanSurvives(a, b, ks, undone, t);
    RowsSurvive(a, b, ks, undone, t, |t.ks|, |t.ks|);
    SeenSurvives(a, b, ks, undone, t, n);
  }

  lemma {:induction false} ReadySurvives(a: Db, b: Db, ks: set<Key>, undone: Option<nat>, t: Session, j: nat)
    requires FrameOf(a, b, ks, undone) && Untouched(t, ks, undone) && Ready(a, t, j)
    ensures Ready(b, t, j)
  {
    PlanSurvives(a, b, ks, undone, t);
    RowsSurvive(a, b, ks, undone, t, |t.ks|, |t.ks|);
  }

  lemma {:induction false} HeldCovers(db: Db, t: Session, j: nat)
    requires Ready(db, t, j) && j < |t.parts|
    ensures forall k | k in Touched(t.parts[j].item.postings) :: k in t.held
  {
    PartKeysSorted(t);
    PartIn(t.parts, j);
    assert t.ks[..|t.ks|] == t.ks;
  }

  lemma {:induction false} LockReadSurvives(a: Db, b: Db, ks: set<Key>, few: set<Key>)
    requires SameRows(a, b, ks) && SameClosed(a, b) && forall k | k in few :: k !in ks
    ensures LockRead(b, few) == LockRead(a, few)
  {
    forall k | k in few ensures LockedAt(b, k) == LockedAt(a, k) {
      assert SameRow(a.rows, b.rows, k) && Closed(b, k.account) == Closed(a, k.account);
    }
  }

  // what was read before the ledger lock is still what would be read under it
  lemma {:induction false} ReadsSurvive(a: Db, b: Db, ks: set<Key>, undone: Option<nat>, t: Session, j: nat)
    requires FrameOf(a, b, ks, undone) && Untouched(t, ks, undone) && Ready(a, t, j) && j < |t.parts| && Reads(a, t, j)
    ensures Reads(b, t, j)
  {
    HeldCovers(a, t, j);
    LockReadSurvives(a, b, ks, Touched(t.parts[j].item.postings));
  }

  lemma {:induction false} EffectiveReadsSurvive(a: Db, b: Db, ks: set<Key>, few: set<Key>, d: Time)
    requires SameReads(a, b, ks) && forall k | k in few :: k !in ks
    ensures EffectiveReads(b.moves, few, d) == EffectiveReads(a.moves, few, d)
  {
    forall k | k in few ensures EffectiveRead(b.moves, k, d) == EffectiveRead(a.moves, k, d) { }
  }

  lemma {:induction false} DecidedTouches(a: Db, t: Session, j: nat, q: Postings)
    requires Ready(a, t, j) && j < |t.parts| && Reads(a, t, j) && Decided(t, j, q)
    ensures forall k | k in Touched(q) :: k in t.held
  {
    HeldCovers(a, t, j);
    PrepareGuarantees(t.seen, t.parts[j].item.postings);
  }

  lemma {:induction false} DatedSurvives(a: Db, b: Db, ks: set<Key>, undone: Option<nat>, t: Session, j: nat,
                                         q: Postings, e: map<Key, Volumes>)
    requires FrameOf(a, b, ks, undone) && Untouched(t, ks, undone) && Ready(a, t, j) && j < |t.parts|
    requires Reads(a, t, j) && Decided(t, j, q) && Dated(a, t, j, q, e)
    ensures Dated(b, t, j, q, e)
  {
    DecidedTouches(a, t, j, q);
    EffectiveReadsSurvive(a, b, ks, Touched(q), Stamp(t.parts[j].item.timestamp, Clock(t.op)));
  }

  /** Publishing leaves every other session where it was: what it holds, what it has read and what
      it has decided are as current as before, including effective volumes read without the ledger lock. */
  lemma {:induction false} SessionSurvives(a: Db, b: Db, ks: set<Key>, undone: Option<nat>, t: Session)
    requires FrameOf(a, b, ks, undone) && Untouched(t, ks, undone) && SessionOk(a, t)
    ensures SessionOk(b, t)
  {
    match t.phase
    case Creating(n) =>
      PlanSurvives(a, b, ks, undone, t);
      RowsSurvive(a, b, ks, undone, t, n, n);
    case Locking(n) => LocksSurvive(a, b, ks, undone, t, n);
    case Closing => LocksSurvive(a, b, ks, undone, t, |t.ks|);
    case Reading(j) => ReadySurvives(a, b, ks, undone, t, j);
    case Deciding(j) =>
      ReadySurvives(a, b, ks, undone, t, j);
      ReadsSurvive(a, b, ks, undone, t, j);
    case Dating(j, q) =>
      ReadySurvives(a, b, ks, undone, t, j);
      ReadsSurvive(a, b, ks, undone, t, j);
    case Numbering(j, q, e) =>
      ReadySurvives(a, b, ks, undone, t, j);
      ReadsSurvive(a, b, ks, undone, t, j);
      DatedSurvives(a, b, ks, undone, t, j, q, e);
    case _ =>
  }

  // ---------------------------------------------------------------- brief operations between the steps

  function SetRow(db: Db, k: Key, row: Row): Db { db.(rows := db.rows[k := row]) }

  lemma {:induction false} RowBeside(rows: map<Key, Row>, k: Key, row: Row, p: Postings)
    requires k !in Touched(p)
    ensures var ks := Touched(p);
            ApplyDeltas(Materialised(rows[k := row], ks), p) == ApplyDeltas(Materialised(rows, ks), p)[k := row]
  {
    UntouchedDelta(p, k);
  }

  lemma {:induction false} LockReadBeside(db: Db, k: Key, row: Row, few: set<Key>)
    requires k !in few
    ensures LockRead(SetRow(db, k, row), few) == LockRead(db, few)
  {
  }

  // the same outcome, but for one row
  ghost predicate AlikeBeside(a: Outcome<Applied>, b: Outcome<Applied>, k: Key, row: Row) {
    if b.Refused? then a == b else a == Done(Applied(SetRow(b.value.db, k, row), b.value.tx))
  }

  lemma {:induction false} InstallsBeside(db: Db, k: Key, row: Row, tx: Tx, before: map<Key, Volumes>,
                                          effective: map<Key, Volumes>)
    requires k !in Touched(tx.postings)
    ensures Installed(SetRow(db, k, row), tx, before, effective) == SetRow(Installed(db, tx, before, effective), k, row)
  {
    RowBeside(db.rows, k, row, tx.postings);
  }

  lemma {:induction false} WriteBeside(db: Db, k: Key, row: Row, item: Item, q: Postings, d: Time,
                                       before: map<Key, Volumes>, effective: map<Key, Volumes>)
    requires k !in Touched(q)
    ensures AlikeBeside(Write(SetRow(db, k, row), item, q, d, before, effective),
              Write(db, item, q, d, before, effective), k, row)
  {
    InstallsBeside(db, k, row, Tx(db.lastTx + 1, q, d, item.reference, item.metadata, PostCommit(before, q)), before,
        effective);
    WriteInstalls(db, item, q, d, before, effective);
    WriteInstalls(SetRow(db, k, row), item, q, d, before, effective);
  }

  lemma {:induction false} ApplyBeside(db: Db, k: Key, row: Row, item: Item, now: Time)
    requires k !in Touched(item.postings)
    ensures AlikeBeside(Apply(SetRow(db, k, row), item, now), Apply(db, item, now), k, row)
  {
    var before := LockRead(db, Touched(item.postings));
    LockReadBeside(db, k, row, Touched(item.postings));
    var r := Prepare(before, item.postings);
    if r.Done? {
      PrepareGuarantees(before, item.postings);
      var d := Stamp(item.timestamp, now);
      WriteBeside(db, k, row, item, r.value, d, VolumesOf(before), EffectiveReads(db.moves, Touched(r.value), d));
    }
  }

  lemma {:induction false} PartBeside(db: Db, k: Key, row: Row, part: Part, now: Time)
    requires k !in Touched(part.item.postings)
    ensures AlikeBeside(RunPart(SetRow(db, k, row), part, now), RunPart(db, part, now), k, row)
  {
    ApplyBeside(db, k, row, part.item, now);
  }

  lemma {:induction false} PartsBeside(db: Db, k: Key, row: Row, parts: seq<Part>, now: Time, n: nat, r: Ran)
    requires n <= |parts| && k !in PartKeys(parts) && RunParts(db, parts, now, n) == Done(r)
    ensures RunParts(SetRow(db, k, row), parts, now, n) == Done(Ran(SetRow(r.db, k, row), r.txs))
  {
    if n > 0 {
      var m := n - 1;
      RunPartsLast(db, parts, now, m, n);
      RunPartsLast(SetRow(db, k, row), parts, now, m, n);
      var before := RunParts(db, parts, now, m).value;
      PartsBeside(db, k, row, parts, now, m, before);
      PartIn(parts, m);
      PartBeside(before.db, k, row, parts[m], now);
    }
  }

  // the row a policy leaves behind
  function PolicyRow(rows: map<Key, Row>, op: Op): Row
    requires SetsPolicy(op)
  {
    match op
    case OpAllowNegative(k, allow) => if k in rows then rows[k].(allowNegative := allow) else Row(ZERO, allow, true)
    case OpAllowPositive(k, allow) => if k in rows then rows[k].(allowPositive := allow) else Row(ZERO, false, allow)
  }

  lemma {:induction false} PolicySets(db: Db, op: Op)
    requires SetsPolicy(op)
    ensures Perform(db, op).db ==
            if op.row.account == WORLD && !op.allow then db else SetRow(db, op.row, PolicyRow(db.rows, op))
  {
  }

  // to a session without the ledger a policy is a frame around one row it does not hold
  lemma {:induction false} PolicyFrame(db: Db, k: Key, row: Row)
    ensures FrameOf(db, SetRow(db, k, row), {k}, None)
  {
    var r := SetRow(db, k, row);
    forall x | x !in {k} ensures SameRow(db.rows, r.rows, x) { }
    forall x ensures Closed(r, x) == Closed(db, x) { }
  }

  lemma {:induction false} RowsBeside(db: Db, t: Session, k: Key, row: Row)
    requires CreatedOk(db, t, |t.ks|) && Present(db, t, |t.ks|) && k !in t.created
    ensures CreatedOk(SetRow(db, k, row), t, |t.ks|) && Present(SetRow(db, k, row), t, |t.ks|)
  {
  }

  lemma {:induction false} ReadyBeside(db: Db, t: Session, k: Key, row: Row, j: nat)
    requires Ready(db, t, j) && t.ledger && k !in t.held
    ensures Ready(SetRow(db, k, row), t.(work := SetRow(t.work, k, row)), j)
  {
    PartKeysSorted(t);
    assert t.ks[..|t.ks|] == t.ks;
    RowsBeside(db, t, k, row);
    PartsBeside(db, k, row, t.parts, Clock(t.op), j, Ran(t.work, t.out));
    assert PlanOk(SetRow(db, k, row), t.(work := SetRow(t.work, k, row)));
  }

  lemma {:induction false} ReadsBeside(db: Db, t: Session, k: Key, row: Row, j: nat)
    requires Ready(db, t, j) && t.ledger && k !in t.held && j < |t.parts| && Reads(db, t, j)
    ensures Reads(SetRow(db, k, row), t.(work := SetRow(t.work, k, row)), j)
  {
    var touched := Touched(t.parts[j].item.postings);
    assert k !in touched by { HeldCovers(db, t, j); }
    LockReadBeside(t.work, k, row, touched);
  }

  // to the one that holds the ledger it shows through, on a row it does not hold either
  lemma {:induction false} HolderSees(db: Db, t: Session, k: Key, row: Row)
    requires SessionOk(db, t) && t.ledger && k !in t.held
    ensures SessionOk(SetRow(db, k, row), t.(work := SetRow(t.work, k, row)))
  {
    match t.phase
    case Reading(j) => ReadyBeside(db, t, k, row, j);
    case Deciding(j) =>
      ReadyBeside(db, t, k, row, j);
      ReadsBeside(db, t, k, row, j);
    case Dating(j, q) =>
      ReadyBeside(db, t, k, row, j);
      ReadsBeside(db, t, k, row, j);
    case Numbering(j, q, e) =>
      ReadyBeside(db, t, k, row, j);
      ReadsBeside(db, t, k, row, j);
    case Writing(j, q, e) =>
      ReadyBeside(db, t, k, row, j);
      ReadsBeside(db, t, k, row, j);
    case Publishing => ReadyBeside(db, t, k, row, |t.parts|);
    case _ =>
  }

  lemma {:induction false} SameCommitted(db: Db, t: Session, k: Key)
    requires Inv(db) && SessionOk(db, t) && t.ledger && k !in t.held
    ensures SameRow(db.rows, t.work.rows, k)
  {
    var j := match t.phase
      case Reading(j) => j
      case Deciding(j) => j
      case Dating(j, _) => j
      case Numbering(j, _, _) => j
      case Writing(j, _, _) => j
      case _ => |t.parts|;
    assert Ready(db, t, j);
    PartKeysSorted(t);
    assert t.ks[..|t.ks|] == t.ks;
    RunPartsFrame(db, t, j);
  }

  lemma {:induction false} PolicySpares(db: Db, op: Op, t: Session)
    requires Inv(db) && SessionOk(db, t) && SetsPolicy(op) && !Blocks(t, op)
    ensures SessionOk(Perform(db, op).db, Seeing(t, op))
  {
    var row := PolicyRow(db.rows, op);
    PolicySets(db, op);
    PolicySets(t.work, op);
    if t.ledger {
      SameCommitted(db, t, op.row);
      HolderSees(db, t, op.row, row);
    } else {
      PolicyFrame(db, op.row, row);
      SessionSurvives(db, SetRow(db, op.row, row), {op.row}, None, t);
    }
  }

  ghost predicate OnlyLogs(db: Db, r: Db) {
    r.rows == db.rows && r.moves == db.moves && SameClosed(db, r) && SameTxs(db, r, None)
  }

  // metadata and recoveries touch nothing a session reads
  lemma {:induction false} EntryFrame(db: Db, r: Db)
    requires OnlyLogs(db, r)
    ensures FrameOf(db, r, {}, None)
  {
  }

  lemma {:induction false} SetOnlyLogs(db: Db, id: nat, m: Metadata)
    ensures OnlyLogs(db, SetTxMetadata(db, id, m).db)
  {
  }

  lemma {:induction false} DeleteOnlyLogs(db: Db, id: nat, name: string)
    ensures OnlyLogs(db, DeleteTxMetadata(db, id, name).db)
  {
  }

  lemma {:induction false} SetAccountOnlyLogs(db: Db, a: Address, m: Metadata, now: Time)
    ensures OnlyLogs(db, SetAccountMetadata(db, a, m, now).db)
  {
  }

  lemma {:induction false} DeleteAccountOnlyLogs(db: Db, a: Address, name: string)
    ensures OnlyLogs(db, DeleteAccountMetadata(db, a, name).db)
  {
  }

  lemma {:induction false} RecoveryOnlyLogs(db: Db, t: Tip, note: string)
    ensures OnlyLogs(db, RecordRecovery(db, t, note))
  {
  }

  lemma {:induction false} EntryOnlyLogs(db: Db, op: Op)
    requires Brief(op) && !SetsPolicy(op)
    ensures OnlyLogs(db, Perform(db, op).db)
  {
    match op
    case OpSetTxMetadata(id, m) => SetOnlyLogs(db, id, m);
    case OpDeleteTxMetadata(id, name) => DeleteOnlyLogs(db, id, name);
    case OpSetAccountMetadata(a, m, now) => SetAccountOnlyLogs(db, a, m, now);
    case OpDeleteAccountMetadata(a, name) => DeleteAccountOnlyLogs(db, a, name);
    case OpRecover(t, note) => RecoveryOnlyLogs(db, t, note);
  }

  lemma {:induction false} BriefSpares(db: Db, op: Op, t: Session)
    requires Inv(db) && SessionOk(db, t) && Brief(op) && !Blocks(t, op)
    ensures SessionOk(Perform(db, op).db, Seeing(t, op))
  {
    if SetsPolicy(op) {
      PolicySpares(db, op, t);
    } else {
      EntryOnlyLogs(db, op);
      EntryFrame(db, Perform(db, op).db);
      SessionSurvives(db, Perform(db, op).db, {}, None, t);
    }
  }
}

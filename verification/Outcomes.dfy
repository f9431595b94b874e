/** Commits and reversals from the outside: which answer is given, if and only if what, and everything
    that is different afterwards. */
module Outcomes {
  import opened Ledger
  import opened History
  import opened Engine
  import opened Invariants
  import opened Runs
  import opened Idempotency
  import opened Requests
  import opened Decisions
  import opened Landings

  // ---------------------------------------------------------------- what is recorded

  // the date asked for, the clock's when none was, to the microsecond below
  predicate DatedAs(asked: Time, now: Time, at: Time) {
    at % 1000 == 0 && at <= (if asked == 0 then now else asked) < at + 1000
  }

  lemma {:induction false} DatedOnce(asked: Time, now: Time, x: Time, y: Time)
    requires DatedAs(asked, now, x) && DatedAs(asked, now, y)
    ensures x == y
  {
  }

  ghost predicate Recorded(db: Db, item: Item, q: Postings, now: Time, tx: Tx) {
    && tx.id == db.lastTx + 1 && tx.postings == q && DatedAs(item.timestamp, now, tx.timestamp)
    && tx.reference == item.reference && tx.metadata == item.metadata && FrozenAs(db, tx)
  }

  lemma {:induction false} RecordedOnce(db: Db, item: Item, q: Postings, now: Time, x: Tx, y: Tx)
    requires Recorded(db, item, q, now, x) && Recorded(db, item, q, now, y)
    ensures x == y
  {
    DatedOnce(item.timestamp, now, x.timestamp, y.timestamp);
    assert x.postCommit == y.postCommit;
  }

  // some transaction, reversed or not, was recorded with this reference
  ghost predicate Carried(db: Db, reference: string) {
    exists id | id in db.txs :: db.txs[id].tx.reference == reference
  }

  // what comes of an item once it is decided: refused as decided, refused for its reference, or recorded
  ghost predicate ComesOf(db: Db, item: Item, now: Time, d: Outcome<Postings>, r: Outcome<Tx>) {
    && DecidedAs(db, item.postings, d)
    && if d.Refused? then r == Refused(d.error)
       else if item.reference != "" && Carried(db, item.reference) then
         r == Refused(DuplicateReference(item.reference))
       else r.Done? && Recorded(db, item, d.value, now, r.value)
  }

  ghost predicate Comes(db: Db, item: Item, now: Time, r: Outcome<Tx>) { exists d :: ComesOf(db, item, now, d, r) }

  lemma {:induction false} ComesOnce(db: Db, item: Item, now: Time, r: Outcome<Tx>, s: Outcome<Tx>)
    requires Comes(db, item, now, r) && Comes(db, item, now, s)
    ensures r == s
  {
    var d :| ComesOf(db, item, now, d, r);
    var e :| ComesOf(db, item, now, e, s);
    DecidedOnce(db, item.postings, d, e);
    if r.Done? && s.Done? { RecordedOnce(db, item, d.value, now, r.value, s.value); }
  }

  function OfTx(r: Outcome<Applied>): Outcome<Tx> { if r.Refused? then Refused(r.error) else Done(r.value.tx) }

  lemma {:induction false} AcceptableFigures(p: Postings)
    requires forall q | q in p :: q.Acceptable()
    ensures FirstNil(p, 0).None?
  {
    assert forall j | 0 <= j < |p| :: p[j] in p;
  }

  lemma {:induction false} AppliedIs(db: Db, item: Item, now: Time, q: Postings)
    requires RowsOk(db.rows, db.moves) && PcevOk(db.moves) && forall q | q in item.postings :: q.Acceptable()
    requires Apply(db, item, now).Done? && Prepare(LockRead(db, Touched(item.postings)), item.postings) == Done(q)
    ensures Recorded(db, item, q, now, Apply(db, item, now).value.tx)
  {
    var tx, ks := Apply(db, item, now).value.tx, Touched(item.postings);
    AppliedTx(db, item, now);
    ApplyFits(db, item, now);
    StampRoundsDown(item.timestamp, now);
    Freezes(db, tx, VolumesOf(LockRead(db, ks)), EffectiveReads(db.moves, ks, tx.timestamp));
  }

  // applied from what was decided: written unless the reference is carried
  lemma {:induction false} WrittenOr(db: Db, item: Item, now: Time, q: Postings)
    requires Prepare(LockRead(db, Touched(item.postings)), item.postings) == Done(q)
    ensures if item.reference != "" && Carried(db, item.reference) then
              Apply(db, item, now) == Refused(DuplicateReference(item.reference))
            else Apply(db, item, now).Done?
  {
    var seen, at := LockRead(db, Touched(item.postings)), Stamp(item.timestamp, now);
    var e := EffectiveReads(db.moves, Touched(q), at);
    ApplyIsSteps(db, item, now, seen, q, e);
    WriteInstalls(db, item, q, at, VolumesOf(seen), e);
  }

  lemma {:induction false} RefusedAs(db: Db, item: Item, now: Time)
    requires Prepare(LockRead(db, Touched(item.postings)), item.postings).Refused?
    ensures Apply(db, item, now) == Refused(Prepare(LockRead(db, Touched(item.postings)), item.postings).error)
  {
  }

  lemma {:induction false} AppliedAs(db: Db, item: Item, now: Time)
    requires RowsOk(db.rows, db.moves) && PcevOk(db.moves) && forall q | q in item.postings :: q.Acceptable()
    ensures Comes(db, item, now, OfTx(Apply(db, item, now)))
  {
    var d := Prepare(LockRead(db, Touched(item.postings)), item.postings);
    AcceptableFigures(item.postings);
    DecisionExactly(db, item.postings, d);
    if d.Done? {
      WrittenOr(db, item, now, d.value);
      if Apply(db, item, now).Done? { AppliedIs(db, item, now, d.value); }
    } else {
      RefusedAs(db, item, now);
    }
    assert ComesOf(db, item, now, d, OfTx(Apply(db, item, now)));
  }

  // ---------------------------------------------------------------- commits

  ghost predicate Faulty(p: Postings, e: Error) { if p == [] then e == NoPostings else NamesFirst(p, 0, e) }

  predicate Uses(l: Log, key: string) { l.use.Some? && l.use.value.key == key }

  ghost predicate InUse(db: Db, key: string) { key != "" && exists l | l in db.logs :: Uses(l, key) }

  // what the entry that uses the key answers
  ghost predicate ReplayOf(l: Log, item: Item, key: string, reply: Reply)
    requires l.use.Some?
  {
    if l.use.value.hash == CommitHash(item) then l.data.TxData? && reply == Committed(l.data.tx)
    else reply == Rejected(IdempotencyMismatch(key))
  }

  function ReplyTo(r: Outcome<Tx>): Reply { if r.Done? then Committed(r.value) else Rejected(r.error) }

  ghost predicate CommitAnswer(db: Db, item: Item, key: string, now: Time, reply: Reply) {
    if !AllWellFormed(item.postings) then reply.Rejected? && Faulty(item.postings, reply.error)
    else if InUse(db, key) then exists l | l in db.logs :: Uses(l, key) && ReplayOf(l, item, key, reply)
    else exists r :: Comes(db, item, now, r) && reply == ReplyTo(r)
  }

  lemma {:induction false} FaultyOnce(p: Postings, d: Error, e: Error)
    requires Faulty(p, d) && Faulty(p, e)
    ensures d == e
  {
  }

  lemma {:induction false} UsedOnce(logs: seq<Log>, l: Log, m: Log, key: string)
    requires KeysOk(logs) && l in logs && m in logs && Uses(l, key) && Uses(m, key)
    ensures l == m
  {
    var i :| 0 <= i < |logs| && logs[i] == l;
    var j :| 0 <= j < |logs| && logs[j] == m;
    assert KeyNew(logs, i) && KeyNew(logs, j);
  }

  lemma {:induction false} ReplayOnce(db: Db, item: Item, key: string, r: Reply, s: Reply)
    requires KeysOk(db.logs)
    requires (exists l | l in db.logs :: Uses(l, key) && ReplayOf(l, item, key, r))
             && (exists l | l in db.logs :: Uses(l, key) && ReplayOf(l, item, key, s))
    ensures r == s
  {
    var l :| l in db.logs && Uses(l, key) && ReplayOf(l, item, key, r);
    var m :| m in db.logs && Uses(m, key) && ReplayOf(m, item, key, s);
    UsedOnce(db.logs, l, m, key);
  }

  lemma {:induction false} FreshOnce(db: Db, item: Item, now: Time, r: Reply, s: Reply)
    requires (exists x :: Comes(db, item, now, x) && r == ReplyTo(x))
             && (exists x :: Comes(db, item, now, x) && s == ReplyTo(x))
    ensures r == s
  {
    var x :| Comes(db, item, now, x) && r == ReplyTo(x);
    var y :| Comes(db, item, now, y) && s == ReplyTo(y);
    ComesOnce(db, item, now, x, y);
  }

  lemma {:induction false} CommitAnswerOnce(db: Db, item: Item, key: string, now: Time, r: Reply, s: Reply)
    requires KeysOk(db.logs) && CommitAnswer(db, item, key, now, r) && CommitAnswer(db, item, key, now, s)
    ensures r == s
  {
    if !AllWellFormed(item.postings) {
      FaultyOnce(item.postings, r.error, s.error);
    } else if InUse(db, key) {
      ReplayOnce(db, item, key, r, s);
    } else {
      FreshOnce(db, item, now, r, s);
    }
  }

  // a request not refused outright, under a key nothing uses, is answered as it is applied
  lemma {:induction false} FreshCommit(db: Db, item: Item, key: string, dryRun: bool, now: Time)
    requires Malformed(item.postings).None? && (key == "" || FindKey(db.logs, key).None?)
    ensures Commit(db, item, key, dryRun, now).reply == ReplyTo(OfTx(Apply(db, item, now)))
  {
  }

  lemma {:induction false} InUseIs(db: Db, key: string)
    ensures InUse(db, key) <==> key != "" && FindKey(db.logs, key).Some?
  {
    if key != "" && FindKey(db.logs, key).Some? { assert Uses(FindKey(db.logs, key).value, key); }
  }

  lemma {:induction false} KeyedCommit(db: Db, item: Item, key: string, dryRun: bool, now: Time)
    requires KeysOk(db.logs) && forall i | 0 <= i < |db.logs| :: KindAt(db.logs, i)
    requires Malformed(item.postings).None? && key != "" && FindKey(db.logs, key).Some?
    ensures var l := FindKey(db.logs, key).value;
            Uses(l, key) && ReplayOf(l, item, key, Commit(db, item, key, dryRun, now).reply)
  {
    FoundIsTx(db.logs, key);
  }

  lemma {:induction false} CommitIsAnswered(db: Db, item: Item, key: string, dryRun: bool, now: Time)
    requires Inv(db)
    ensures CommitAnswer(db, item, key, now, Commit(db, item, key, dryRun, now).reply)
  {
    AcceptedExactly(item.postings);
    InUseIs(db, key);
    if Malformed(item.postings).None? {
      if InUse(db, key) {
        KeyedCommit(db, item, key, dryRun, now);
      } else {
        WellFormedIsAcceptable(item.postings);
        AppliedAs(db, item, now);
        FreshCommit(db, item, key, dryRun, now);
      }
    }
  }

  /** A commit is given an answer if and only if the request earns it. It is refused for its own faults; answered
      from the entry that uses its key; refused as decided from the rows; refused for a reference some transaction,
      reversed or not, already carries; and otherwise recorded, every figure of the record determined. A dry run
      is answered the same. */
  lemma {:induction false} CommitAnsweredExactly(db: Db, item: Item, key: string, dryRun: bool, now: Time, reply: Reply)
    requires Inv(db)
    ensures Commit(db, item, key, dryRun, now).reply == reply <==> CommitAnswer(db, item, key, now, reply)
  {
    CommitIsAnswered(db, item, key, dryRun, now);
    if CommitAnswer(db, item, key, now, reply) {
      CommitAnswerOnce(db, item, key, now, reply, Commit(db, item, key, dryRun, now).reply);
    }
  }

  function KeyEntry(key: string, hash: RequestHash): Option<KeyUse> {
    if key == "" then None else Some(KeyUse(key, hash))
  }

  // the transaction stored as it was recorded, and one entry that carries it
  ghost predicate Stored(db: Db, r: Db, tx: Tx, use: Option<KeyUse>) {
    && r.txs == db.txs[tx.id := TxRow(tx, tx.metadata, None)]
    && EntryAdded(db, r, tx, NewTransaction, TxData(tx), use)
  }

  lemma {:induction false} LandedStored(db: Db, tx: Tx, before: map<Key, Volumes>, effective: map<Key, Volumes>,
                                        use: Option<KeyUse>)
    requires tx.id == db.lastTx + 1
    ensures Stored(db, Landed(db, tx, before, effective, use, None), tx, use)
  {
  }

  lemma {:induction false} ItemLeaves(db: Db, item: Item, use: Option<KeyUse>, now: Time)
    requires Inv(db) && ApplyAndLog(db, item, use, now).Done? && forall q | q in item.postings :: q.Acceptable()
    ensures var a := ApplyAndLog(db, item, use, now).value;
            Landings.Moved(db, a.db, a.tx) && Stored(db, a.db, a.tx, use)
  {
    ApplyAndLogLands(db, item, use, now);
    var tx, ks := ApplyAndLog(db, item, use, now).value.tx, Touched(item.postings);
    var before, effective := VolumesOf(LockRead(db, ks)), EffectiveReads(db.moves, ks, tx.timestamp);
    LandingMoves(db, tx, before, effective, use, None);
    LandedStored(db, tx, before, effective, use);
  }

  lemma {:induction false} CommitComesTo(db: Db, item: Item, key: string, dryRun: bool, now: Time)
    ensures var s, a := Commit(db, item, key, dryRun, now), ApplyAndLog(db, item, KeyEntry(key, CommitHash(item)), now);
            if s.reply.Committed? && !dryRun && !(key != "" && FindKey(db.logs, key).Some?) then
              Malformed(item.postings).None? && a == Done(Applied(s.db, s.reply.tx))
            else s.db == db
  {
  }

  /** A commit changes nothing when it is refused, replayed or a dry run; and otherwise its transaction is stored as
      answered, one entry carries it with its key, and the rows, accounts and moves are as its figures say. */
  lemma {:induction false} CommitLeaves(db: Db, item: Item, key: string, dryRun: bool, now: Time)
    requires Inv(db)
    ensures var s := Commit(db, item, key, dryRun, now);
            if s.reply.Committed? && !dryRun && !InUse(db, key) then
              Landings.Moved(db, s.db, s.reply.tx) && Stored(db, s.db, s.reply.tx, KeyEntry(key, CommitHash(item)))
            else s.db == db
  {
    InUseIs(db, key);
    CommitComesTo(db, item, key, dryRun, now);
    var s := Commit(db, item, key, dryRun, now);
    if s.reply.Committed? && !dryRun && !InUse(db, key) {
      WellFormedIsAcceptable(item.postings);
      ItemLeaves(db, item, KeyEntry(key, CommitHash(item)), now);
    }
  }

  // ---------------------------------------------------------------- reversals

  // every posting the other way round, last first
  function Undoing(p: Postings): (r: Postings)
    ensures |r| == |p|
  {
    seq(|p|, i requires 0 <= i < |p| =>
        var q := p[|p| - 1 - i]; Posting(q.destination, q.source, q.asset, q.amount, false))
  }

  function UndoItem(t: Tx, id: nat, atEffectiveDate: bool, now: Time): Item {
    Item(Undoing(t.postings), if atEffectiveDate then t.timestamp else now, "", map["giro/reverts" := TxRef(id)])
  }

  lemma {:induction false} UndoItemIs(row: TxRow, id: nat, atEffectiveDate: bool, now: Time)
    ensures RevertItem(row, id, atEffectiveDate, now) == UndoItem(row.tx, id, atEffectiveDate, now)
  {
    assert Reversed(row.tx.postings) == Undoing(row.tx.postings);
  }

  ghost predicate RevertAnswer(db: Db, id: nat, atEffectiveDate: bool, now: Time, reply: Reply) {
    if id !in db.txs then reply == Rejected(NotFound)
    else if db.txs[id].revertedAt.Some? then reply == Rejected(AlreadyReverted(id))
    else exists r :: Comes(db, UndoItem(db.txs[id].tx, id, atEffectiveDate, now), now, r)
                     && reply == if r.Done? then RevertedBy(id, r.value) else Rejected(r.error)
  }

  lemma {:induction false} RevertAnswerOnce(db: Db, id: nat, at: bool, now: Time, r: Reply, s: Reply)
    requires RevertAnswer(db, id, at, now, r) && RevertAnswer(db, id, at, now, s)
    ensures r == s
  {
    if id in db.txs && db.txs[id].revertedAt.None? {
      var item := UndoItem(db.txs[id].tx, id, at, now);
      var x :| Comes(db, item, now, x) && r == if x.Done? then RevertedBy(id, x.value) else Rejected(x.error);
      var y :| Comes(db, item, now, y) && s == if y.Done? then RevertedBy(id, y.value) else Rejected(y.error);
      ComesOnce(db, item, now, x, y);
    }
  }

  lemma {:induction false} RevertIs(db: Db, id: nat, at: bool, now: Time)
    requires id in db.txs && db.txs[id].revertedAt.None?
    ensures var r := OfTx(Apply(db, RevertItem(db.txs[id], id, at, now), now));
            Revert(db, id, at, now).reply == if r.Done? then RevertedBy(id, r.value) else Rejected(r.error)
  {
  }

  lemma {:induction false} RevertIsAnswered(db: Db, id: nat, at: bool, now: Time)
    requires Inv(db)
    ensures RevertAnswer(db, id, at, now, Revert(db, id, at, now).reply)
  {
    if id in db.txs && db.txs[id].revertedAt.None? {
      StoredFigures(db, id);
      ReversedFigures(db.txs[id].tx.postings);
      UndoItemIs(db.txs[id], id, at, now);
      AppliedAs(db, RevertItem(db.txs[id], id, at, now), now);
      RevertIs(db, id, at, now);
    }
  }

  /** A reversal is given an answer if and only if it earns it: nothing there, already stamped, or whatever a
      request to move everything back comes to, recorded under a mark of what it undoes. */
  lemma {:induction false} RevertAnsweredExactly(db: Db, id: nat, at: bool, now: Time, reply: Reply)
    requires Inv(db)
    ensures Revert(db, id, at, now).reply == reply <==> RevertAnswer(db, id, at, now, reply)
  {
    RevertIsAnswered(db, id, at, now);
    if RevertAnswer(db, id, at, now, reply) {
      RevertAnswerOnce(db, id, at, now, reply, Revert(db, id, at, now).reply);
    }
  }

  // the reversal stored, the original stamped with its date, and one entry that says so
  ghost predicate Undone(db: Db, r: Db, id: nat, tx: Tx)
    requires id in db.txs
  {
    && r.txs.Keys == db.txs.Keys + {tx.id} && r.txs[tx.id] == TxRow(tx, tx.metadata, None)
    && r.txs[id] == TxRow(db.txs[id].tx, db.txs[id].metadata, Some(tx.timestamp))
    && (forall x | x in db.txs && x != id :: r.txs[x] == db.txs[x])
    && EntryAdded(db, r, tx, RevertedTransaction, RevertData(id, tx), None)
  }

  lemma {:induction false} LandedUndone(db: Db, id: nat, tx: Tx, before: map<Key, Volumes>,
                                        effective: map<Key, Volumes>)
    requires tx.id == db.lastTx + 1 && id in db.txs && tx.id !in db.txs
    ensures Undone(db, Landed(db, tx, before, effective, None, Some(id)), id, tx)
  {
  }

  /** And a reversal that goes through leaves the rows, accounts and moves as its figures say, itself stored, the
      original stamped, and one entry. Any other changes nothing. */
  lemma {:induction false} RevertLeaves(db: Db, id: nat, at: bool, now: Time)
    requires Inv(db)
    ensures var s := Revert(db, id, at, now);
            if s.reply.RevertedBy? then
              id in db.txs && Landings.Moved(db, s.db, s.reply.tx) && Undone(db, s.db, id, s.reply.tx)
            else s.db == db
  {
    var s := Revert(db, id, at, now);
    if s.reply.RevertedBy? {
      RevertLands(db, id, at, now);
      var tx, ks := s.reply.tx, Touched(s.reply.tx.postings);
      var before, effective := VolumesOf(LockRead(db, ks)), EffectiveReads(db.moves, ks, tx.timestamp);
      LandingMoves(db, tx, before, effective, None, Some(id));
      assert tx.id in db.txs ==> Numbered(db.txs, db.lastTx, tx.id);
      LandedUndone(db, id, tx, before, effective);
    }
  }
}

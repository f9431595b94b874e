/** What holds of every session wherever it has got to: the rows it created and locked are its own,
    what it has read is still current, and its private view is what its parts so far amount to. */
module Sessions {
  import opened Ledger
  import opened Engine
  import opened Invariants
  import opened Runs
  import opened Protocol

  // ---------------------------------------------------------------- what holds of one session

  ghost predicate Idle(s: Session) { s.held == {} && s.created == {} && s.row == None && !s.ledger }

  ghost predicate Target(db: Db, s: Session) {
    if s.op.OpRevert? then s.row == Some(s.op.id) && s.op.id in db.txs && db.txs[s.op.id].revertedAt.None?
    else s.row == None
  }

  ghost predicate PlanOk(db: Db, s: Session) {
    && Writes(s.op) && Unacceptable(s.op).None? && Target(db, s)
    && s.parts == Parts(db.txs, s.op) && s.parts != []
    && s.ks == SortedKeys(PartKeys(s.parts))
  }

  // the rows it created are its own and not yet committed
  ghost predicate CreatedOk(db: Db, s: Session, n: nat)
    requires n <= |s.ks|
  {
    forall k | k in s.created :: k in s.ks[..n] && k !in db.rows
  }

  ghost predicate Present(db: Db, s: Session, n: nat)
    requires n <= |s.ks|
  {
    forall m | 0 <= m < n :: s.ks[m] in db.rows || s.ks[m] in s.created
  }

  ghost predicate Holds(s: Session, n: nat)
    requires n <= |s.ks|
  {
    forall k :: k in s.held <==> k in s.created || k in s.ks[..n]
  }

  // what it read under a lock is still there
  ghost predicate SeenOk(db: Db, s: Session, n: nat)
    requires n <= |s.ks|
  {
    && (forall k :: k in s.seen <==> k in s.ks[..n])
    && (forall k | k in s.seen :: s.seen[k] == Locked(RowAt(db, k), false))
  }

  ghost predicate Locks(db: Db, s: Session, n: nat) {
    && PlanOk(db, s) && !s.ledger && n <= |s.ks|
    && CreatedOk(db, s, |s.ks|) && Present(db, s, |s.ks|) && Holds(s, n) && SeenOk(db, s, n)
  }

  ghost predicate Unclaimed(db: Db, op: Op) { KeyOf(op) != "" ==> FindKey(db.logs, KeyOf(op)).None? }

  // the parts before this one have run, in its own view, on top of what is committed now
  ghost predicate Ready(db: Db, s: Session, j: nat) {
    && PlanOk(db, s) && CreatedOk(db, s, |s.ks|) && Present(db, s, |s.ks|) && Holds(s, |s.ks|)
    && j <= |s.parts| && (!s.ledger ==> j == 0)
    && (s.ledger ==> RunParts(db, s.parts, Clock(s.op), j) == Done(Ran(s.work, s.out)))
    && (j > 0 ==> Unclaimed(db, s.op))
  }

  ghost predicate Reads(db: Db, s: Session, j: nat)
    requires j < |s.parts|
  {
    s.seen == LockRead(View(db, s), Touched(s.parts[j].item.postings))
  }

  ghost predicate Decided(s: Session, j: nat, q: Postings)
    requires j < |s.parts|
  {
    Prepare(s.seen, s.parts[j].item.postings) == Done(q)
  }

  ghost predicate Dated(db: Db, s: Session, j: nat, q: Postings, e: map<Key, Volumes>)
    requires j < |s.parts|
  {
    e == EffectiveReads(View(db, s).moves, Touched(q), Stamp(s.parts[j].item.timestamp, Clock(s.op)))
  }

  ghost predicate SessionOk(db: Db, s: Session) {
    match s.phase
    case Started => Idle(s) && Writes(s.op)
    case Finding => Idle(s) && s.op.OpRevert?
    case Creating(n) => PlanOk(db, s) && !s.ledger && n <= |s.ks| && s.held == s.created && CreatedOk(db, s, n)
      && Present(db, s, n)
    case Locking(n) => Locks(db, s, n)
    case Closing => Locks(db, s, |s.ks|)
    case Reading(j) => Ready(db, s, j) && j < |s.parts|
    case Deciding(j) => Ready(db, s, j) && j < |s.parts| && Reads(db, s, j)
    case Dating(j, q) => Ready(db, s, j) && j < |s.parts| && Reads(db, s, j) && Decided(s, j, q)
    case Numbering(j, q, e) => Ready(db, s, j) && j < |s.parts| && Reads(db, s, j) && Decided(s, j, q)
      && Dated(db, s, j, q, e)
    case Writing(j, q, e) =>
      Ready(db, s, j) && j < |s.parts| && Reads(db, s, j) && Decided(s, j, q) && Dated(db, s, j, q, e) && s.ledger
    case Publishing => Ready(db, s, |s.parts|) && s.ledger
    case Answered(_) => Idle(s)
    case Gone => Idle(s)
  }

  ghost predicate Apart(s: Session, t: Session) {
    && (forall k | k in s.held :: k !in t.held)
    && !(s.ledger && t.ledger)
    && (s.row.Some? ==> s.row != t.row)
  }

  ghost predicate ApartFrom(sessions: seq<Session>, i: nat)
    requires i < |sessions|
  {
    forall j | 0 <= j < |sessions| && j != i :: Apart(sessions[i], sessions[j])
  }

  ghost predicate Good(w: World) {
    && Inv(w.committed)
    && (forall i | 0 <= i < |w.sessions| :: SessionOk(w.committed, w.sessions[i]))
    && (forall i | 0 <= i < |w.sessions| :: ApartFrom(w.sessions, i))
  }

  // ---------------------------------------------------------------- the steps that take no decision

  lemma {:induction false} PartKeysSorted(s: Session)
    requires s.ks == SortedKeys(PartKeys(s.parts))
    ensures Ascending(s.ks) && forall k :: k in s.ks <==> k in PartKeys(s.parts)
  {
    SortedKeysAscend(PartKeys(s.parts));
  }

  lemma {:induction false} CreateNext(db: Db, s: Session, n: nat)
    requires s.phase == Creating(n) && SessionOk(db, s) && n < |s.ks|
    ensures SessionOk(db, Create(db, s, n))
  {
    var r := Create(db, s, n);
    assert PlanOk(db, r);
    TakeNext(s.ks, n);
    forall m | 0 <= m < n + 1 ensures r.ks[m] in db.rows || r.ks[m] in r.created { }
  }

  lemma {:induction false} CreateDone(db: Db, s: Session, n: nat)
    requires s.phase == Creating(n) && SessionOk(db, s) && n == |s.ks|
    ensures SessionOk(db, Create(db, s, n))
  {
    assert PlanOk(db, Create(db, s, n));
    assert s.ks[..n] == s.ks && s.ks[..0] == [];
  }

  lemma {:induction false} CreateOk(db: Db, s: Session, n: nat)
    requires s.phase == Creating(n) && SessionOk(db, s)
    ensures SessionOk(db, Create(db, s, n))
  {
    if n < |s.ks| { CreateNext(db, s, n); } else { CreateDone(db, s, n); }
  }

  lemma {:induction false} LockOk(db: Db, s: Session, n: nat)
    requires s.phase == Locking(n) && SessionOk(db, s)
    ensures SessionOk(db, Lock(db, s, n))
  {
    if n < |s.ks| { TakeNext(s.ks, n); }
  }

  lemma {:induction false} SinglePart(db: Db, s: Session)
    requires PlanOk(db, s) && !s.op.OpBatch?
    ensures |s.parts| == 1 && PartKeys(s.parts) == Touched(s.parts[0].item.postings)
  {
    assert |s.parts| == 1;
    forall k | k in Touched(s.parts[0].item.postings) ensures k in PartKeys(s.parts) { }
  }

  lemma {:induction false} PlanReady(db: Db, s: Session, r: Session)
    requires Locks(db, s, |s.ks|) && r == s.(phase := r.phase, seen := r.seen)
    ensures Ready(db, r, 0) && |r.parts| > 0
  {
  }

  lemma {:induction false} ClosedReads(db: Db, s: Session, ks: set<Key>)
    requires (forall k :: k in s.seen <==> k in ks) && forall k | k in s.seen ::
               s.seen[k] == Locked(RowAt(db, k), false)
    ensures ReadClosed(db, s).seen == LockRead(db, ks)
  {
  }

  lemma {:induction false} ReadClosedOk(db: Db, s: Session)
    requires s.phase == Closing && SessionOk(db, s)
    ensures SessionOk(db, ReadClosed(db, s))
  {
    var r := ReadClosed(db, s);
    assert s.ks[..|s.ks|] == s.ks;
    PlanReady(db, s, r);
    if !s.op.OpBatch? {
      PartKeysSorted(s);
      SinglePart(db, s);
      ClosedReads(db, s, Touched(s.parts[0].item.postings));
    }
  }

  // only the phase and what is read change
  lemma {:induction false} ReadyStays(db: Db, s: Session, r: Session, j: nat)
    requires Ready(db, s, j) && r.op == s.op && r.parts == s.parts && r.ks == s.ks && r.created == s.created
             && r.held == s.held
    requires r.row == s.row && r.ledger == s.ledger && r.work == s.work && r.out == s.out
    ensures Ready(db, r, j)
  {
    assert PlanOk(db, r);
  }

  lemma {:induction false} RereadOk(db: Db, s: Session, j: nat)
    requires s.phase == Reading(j) && SessionOk(db, s)
    ensures SessionOk(db, Reread(db, s, j))
  {
    ReadyStays(db, s, Reread(db, s, j), j);
  }

  lemma {:induction false} DatingOk(db: Db, s: Session, j: nat, q: Postings)
    requires Ready(db, s, j) && j < |s.parts| && Reads(db, s, j) && Decided(s, j, q)
    ensures SessionOk(db, s.(phase := Dating(j, q)))
  {
    ReadyStays(db, s, s.(phase := Dating(j, q)), j);
  }

  lemma {:induction false} DecideOk(db: Db, s: Session, j: nat)
    requires s.phase == Deciding(j) && SessionOk(db, s)
    ensures SessionOk(db, Decide(s, j))
  {
    var r := Prepare(s.seen, s.parts[j].item.postings);
    if r.Done? { DatingOk(db, s, j, r.value); }
  }

  lemma {:induction false} DateOk(db: Db, s: Session, j: nat, q: Postings)
    requires s.phase == Dating(j, q) && SessionOk(db, s)
    ensures SessionOk(db, Date(db, s, j, q))
  {
    ReadyStays(db, s, Date(db, s, j, q), j);
  }

  lemma {:induction false} NumberOk(db: Db, s: Session, j: nat, q: Postings, e: map<Key, Volumes>)
    requires s.phase == Numbering(j, q, e) && SessionOk(db, s)
    ensures SessionOk(db, Number(db, s, j, q, e))
  {
    var r := Number(db, s, j, q, e);
    assert View(db, r) == View(db, s);
    assert RunParts(db, r.parts, Clock(r.op), j) == Done(Ran(r.work, r.out));
    assert Ready(db, r, j);
  }

  // planning needs parts to plan for
  lemma {:induction false} PlannedOk(db: Db, s: Session, row: Option<nat>)
    requires Idle(s) && Writes(s.op) && Unacceptable(s.op).None?
    requires if s.op.OpRevert? then row == Some(s.op.id) && s.op.id in db.txs && db.txs[s.op.id].revertedAt.None?
             else row == None
    ensures SessionOk(db, Planned(db, s, row))
  {
  }

  lemma {:induction false} StartOk(db: Db, s: Session)
    requires SessionOk(db, s) && s.phase.Started?
    ensures SessionOk(db, Start(db, s))
  {
    if Unacceptable(s.op).None? && Found(db, s.op).None? && !s.op.OpRevert? { PlannedOk(db, s, None); }
  }

  lemma {:induction false} FindOk(db: Db, s: Session)
    requires SessionOk(db, s) && s.phase.Finding?
    ensures SessionOk(db, Find(db, s))
  {
    if s.op.id in db.txs && db.txs[s.op.id].revertedAt.None? { PlannedOk(db, s, Some(s.op.id)); }
  }

  // ---------------------------------------------------------------- the writing step

  lemma {:induction false} RunPartsEnd(db: Db, parts: seq<Part>, now: Time, n: nat)
    requires 0 < n <= |parts|
    ensures var r := RunParts(db, parts, now, n - 1);
            RunParts(db, parts, now, n) ==
            if r.Refused? then r
            else
              var a := RunPart(r.value.db, parts[n - 1], now);
              if a.Refused? then Refused(a.error) else Done(Ran(a.value.db, r.value.txs + [a.value.tx]))
  {
  }

  lemma {:induction false} SameCount(db: Db, parts: seq<Part>, now: Time, m: nat, n: nat)
    requires m == n <= |parts|
    ensures RunParts(db, parts, now, m) == RunParts(db, parts, now, n)
  {
  }

  lemma {:induction false} RunPartsLast(db: Db, parts: seq<Part>, now: Time, m: nat, n: nat)
    requires n == m + 1 && n <= |parts|
    ensures var r := RunParts(db, parts, now, m);
            && (n == 1 ==> r == Done(Ran(db, [])))
            && (r.Refused? ==> RunParts(db, parts, now, n) == r)
            && (r.Done? ==>
                  var a := RunPart(r.value.db, parts[m], now);
                  && (a.Refused? ==> RunParts(db, parts, now, n) == Refused(a.error))
                  && (a.Done? ==> RunParts(db, parts, now, n) == Done(Ran(a.value.db, r.value.txs + [a.value.tx]))))
  {
    RunPartsEnd(db, parts, now, n);
    SameCount(db, parts, now, n - 1, m);
  }

  lemma {:induction false} RunPartIsSteps(db: Db, part: Part, now: Time, seen: map<Key, Locked>, q: Postings,
                                          e: map<Key, Volumes>)
    requires seen == LockRead(db, Touched(part.item.postings)) && Prepare(seen, part.item.postings) == Done(q)
    requires e == EffectiveReads(db.moves, Touched(q), Stamp(part.item.timestamp, now))
    requires part.undone.Some? ==> part.undone.value in db.txs
    ensures var w := Write(db, part.item, q, Stamp(part.item.timestamp, now), VolumesOf(seen), e);
            var r := RunPart(db, part, now);
            if w.Refused? then r == Refused(w.error)
            else if Taken(db.logs, part.use) then r == Refused(KeyTaken(part.use.value.key))
            else (part.undone.Some? ==> part.undone.value in w.value.db.txs) &&
                 r == Done(Applied(Logged(w.value.db, part, w.value.tx), w.value.tx))
  {
    ApplyIsSteps(db, part.item, now, seen, q, e);
  }

  lemma {:induction false} PartKinds(db: Db, s: Session, j: nat)
    requires PlanOk(db, s) && j < |s.parts|
    ensures s.parts[j].undone.Some? <==> s.op.OpRevert?
    ensures s.op.OpRevert? ==> j == 0 && s.parts[0].undone == Some(s.op.id) && s.op.id in db.txs
    ensures s.parts[j].use.Some? <==> j == 0 && KeyOf(s.op) != ""
    ensures s.parts[j].use.Some? ==> s.parts[j].use.value.key == KeyOf(s.op)
  {
  }

  // the transaction being reversed is in its own view
  lemma {:induction false} UndoneInView(db: Db, s: Session, j: nat)
    requires Ready(db, s, j) && s.ledger && j < |s.parts|
    ensures s.parts[j].undone.Some? ==> s.parts[j].undone.value in s.work.txs
  {
    PartKinds(db, s, j);
  }

  lemma {:induction false} InsertRuns(db: Db, s: Session, j: nat, n: nat, q: Postings, e: map<Key, Volumes>)
    requires n == j + 1 && j < |s.parts| && Ready(db, s, j) && s.ledger
    requires Reads(db, s, j) && Decided(s, j, q) && Dated(db, s, j, q, e) && Written(s, j, q, e).Done?
    requires !Taken(s.work.logs, s.parts[j].use)
    ensures var w := Written(s, j, q, e).value;
            && (s.parts[j].undone.Some? ==> s.parts[j].undone.value in w.db.txs)
            && RunParts(db, s.parts, Clock(s.op), n) == Done(Ran(Logged(w.db, s.parts[j], w.tx), s.out + [w.tx]))
  {
    UndoneInView(db, s, j);
    RunPartIsSteps(s.work, s.parts[j], Clock(s.op), s.seen, q, e);
    RunPartsLast(db, s.parts, Clock(s.op), j, n);
  }

  // nothing of the session moved but its private writes and its place
  ghost predicate MovedOn(s: Session, r: Session, j: nat, w: Applied)
    requires j < |s.parts|
  {
    && r.op == s.op && r.parts == s.parts && r.ks == s.ks && r.created == s.created && r.held == s.held
    && r.row == s.row && r.ledger == s.ledger
    && r.phase == (if j + 1 == |s.parts| then Publishing else Reading(j + 1))
    && r.out == s.out + [w.tx] && (s.parts[j].undone.Some? ==> s.parts[j].undone.value in w.db.txs)
    && r.work == Logged(w.db, s.parts[j], w.tx)
  }

  lemma {:induction false} EnteredMoves(db: Db, s: Session, j: nat, w: Applied)
    requires j < |s.parts| && (s.parts[j].undone.Some? ==> s.parts[j].undone.value in w.db.txs)
             && !Taken(db.logs, s.parts[j].use)
    ensures MovedOn(s, Entered(db, s, j, Done(w)), j, w)
  {
  }

  lemma {:induction false} InsertReady(db: Db, s: Session, r: Session, j: nat, n: nat)
    requires n == j + 1 && Ready(db, s, j) && s.ledger && j < |s.parts| && Unclaimed(db, s.op)
    requires r.op == s.op && r.parts == s.parts && r.ks == s.ks && r.created == s.created && r.held == s.held
    requires r.row == s.row && r.ledger
    requires RunParts(db, s.parts, Clock(s.op), n) == Done(Ran(r.work, r.out))
    ensures Ready(db, r, n)
  {
    assert PlanOk(db, r);
  }

  lemma {:induction false} ReadyIsOk(db: Db, r: Session, n: nat)
    requires Ready(db, r, n) && r.ledger
    requires if n == |r.parts| then r.phase == Publishing else r.phase == Reading(n)
    ensures SessionOk(db, r)
  {
  }

  lemma {:induction false} MovedOnOk(db: Db, s: Session, r: Session, j: nat, n: nat, w: Applied)
    requires n == j + 1 && Ready(db, s, j) && s.ledger && j < |s.parts| && Unclaimed(db, s.op) && MovedOn(s, r, j, w)
    requires RunParts(db, s.parts, Clock(s.op), n) == Done(Ran(r.work, r.out))
    ensures SessionOk(db, r)
  {
    InsertReady(db, s, r, j, n);
    ReadyIsOk(db, r, n);
  }

  lemma {:induction false} EndedOk(db: Db, s: Session, j: nat, r: Outcome<Applied>)
    requires j < |s.parts| && (r.Refused? || Taken(db.logs, s.parts[j].use))
    ensures SessionOk(db, Entered(db, s, j, r))
  {
  }

  // its own view of the keys in use is the committed one when it is about to use its own
  lemma {:induction false} StillFree(db: Db, s: Session, j: nat)
    requires Ready(db, s, j) && s.ledger && j < |s.parts|
    ensures Taken(s.work.logs, s.parts[j].use) <==> Taken(db.logs, s.parts[j].use)
    ensures !Taken(db.logs, s.parts[j].use) ==> Unclaimed(db, s.op)
  {
    PartKinds(db, s, j);
  }

  lemma {:induction false} InsertedOk(db: Db, s: Session, j: nat, n: nat, q: Postings, e: map<Key, Volumes>)
    requires n == j + 1 && j < |s.parts| && Ready(db, s, j) && s.ledger
    requires Reads(db, s, j) && Decided(s, j, q) && Dated(db, s, j, q, e) && Written(s, j, q, e).Done?
    requires !Taken(db.logs, s.parts[j].use)
    ensures SessionOk(db, Entered(db, s, j, Written(s, j, q, e)))
  {
    var w := Written(s, j, q, e).value;
    StillFree(db, s, j);
    InsertRuns(db, s, j, n, q, e);
    EnteredMoves(db, s, j, w);
    MovedOnOk(db, s, Entered(db, s, j, Done(w)), j, n, w);
  }

  lemma {:induction false} InsertOk(db: Db, s: Session, j: nat, q: Postings, e: map<Key, Volumes>)
    requires s.phase == Writing(j, q, e) && SessionOk(db, s)
    ensures SessionOk(db, Insert(db, s, j, q, e))
  {
    var r := Written(s, j, q, e);
    if r.Done? && !Taken(db.logs, s.parts[j].use) { InsertedOk(db, s, j, j + 1, q, e); } else { EndedOk(db, s, j, r); }
  }

  predicate TakesRows(s: Session) { s.phase.Creating? || s.phase.Locking? || s.phase.Closing? }

  predicate Decides(s: Session) { s.phase.Reading? || s.phase.Deciding? || s.phase.Dating? || s.phase.Numbering? }

  lemma {:induction false} TakingOk(db: Db, s: Session)
    requires SessionOk(db, s) && TakesRows(s)
    ensures SessionOk(db, Advance(db, s))
  {
    match s.phase
    case Creating(n) => CreateOk(db, s, n);
    case Locking(n) => LockOk(db, s, n);
    case Closing => ReadClosedOk(db, s);
  }

  lemma {:induction false} DecidingOk(db: Db, s: Session)
    requires SessionOk(db, s) && Decides(s)
    ensures SessionOk(db, Advance(db, s))
  {
    match s.phase
    case Reading(j) => RereadOk(db, s, j);
    case Deciding(j) => DecideOk(db, s, j);
    case Dating(j, q) => DateOk(db, s, j, q);
    case Numbering(j, q, e) => NumberOk(db, s, j, q, e);
  }

  lemma {:induction false} EndingOk(db: Db, s: Session)
    requires SessionOk(db, s) && Active(s) && !TakesRows(s) && !Decides(s)
    ensures SessionOk(db, Advance(db, s))
  {
    match s.phase
    case Started => StartOk(db, s);
    case Finding => FindOk(db, s);
    case Writing(j, q, e) => InsertOk(db, s, j, q, e);
    case Publishing =>
  }

  /** A step of a session keeps everything it has read current and everything it has locked its own. */
  lemma {:induction false} AdvanceOk(db: Db, s: Session)
    requires SessionOk(db, s) && Active(s)
    ensures SessionOk(db, Advance(db, s))
  {
    if TakesRows(s) { TakingOk(db, s); } else if Decides(s) { DecidingOk(db, s); } else { EndingOk(db, s); }
  }
}

/** What a closed account can come to hold. A close waits only for the rows that held something when it asked,
    so a request that looked before the flag was set can still move one that held nothing; after the last such
    request has ended the account's rows stay as they are until it is reopened. */
module Stranding {
  import opened Ledger
  import opened History
  import opened Engine
  import opened Sweeps
  import opened Invariants
  import opened Runs
  import opened Permanence
  import opened Protocol
  import opened Sessions
  import opened Serial
  import opened Frames
  import opened Survival
  import opened Interleaving
  import opened Closure

  // what a row holds, nothing when it is not there
  function Content(db: Db, k: Key): int { RowVolumes(db.rows, k).Balance() }

  // what a stretch of the log moves onto a row, less what it moves off it
  function NetOf(logs: seq<Log>, k: Key): int { Totals(LogMovements(logs), k).Balance() }

  lemma {:induction false} NetConcat(a: seq<Log>, b: seq<Log>, k: Key)
    ensures NetOf(a + b, k) == NetOf(a, k) + NetOf(b, k)
  {
    LogMovementsConcat(a, b);
    TotalConcat(LogMovements(a), LogMovements(b), k, false);
    TotalConcat(LogMovements(a), LogMovements(b), k, true);
  }

  lemma {:induction false} ContentIsNet(db: Db, k: Key)
    requires RowsOk(db.rows, db.moves) && MovesOk(db.moves, db.logs)
    ensures Content(db, k) == NetOf(db.logs, k)
  {
    assert RowVolumes(db.rows, k) == Totals(Core(db.moves), k);
  }

  // what the log gained accounts for the difference
  lemma {:induction false} Accounted(a: Db, b: Db, k: Key, more: seq<Log>)
    requires RowsOk(a.rows, a.moves) && MovesOk(a.moves, a.logs) && RowsOk(b.rows, b.moves) && MovesOk(b.moves, b.logs)
    requires b.logs == a.logs + more
    ensures Content(b, k) == Content(a, k) + NetOf(more, k)
  {
    ContentIsNet(a, k);
    ContentIsNet(b, k);
    NetConcat(a.logs, more, k);
  }

  // ---------------------------------------------------------------- sessions that will not move the account

  // every row of the account holds the same on both
  ghost predicate AccountKept(db: Db, r: Db, a: Address) {
    forall k: Key | k.account == a :: RowVolumes(r.rows, k) == RowVolumes(db.rows, k)
  }

  // it has not looked yet, or it looked and saw the account closed, or it is about to look again
  ghost predicate Warned(s: Session, a: Address) {
    match s.phase
    case Deciding(_) => forall k | k in s.seen && k.account == a :: s.seen[k].closed
    case Dating(_, q) => forall k | k in Touched(q) :: k.account != a
    case Numbering(_, q, _) => forall k | k in Touched(q) :: k.account != a
    case Writing(_, q, _) => forall k | k in Touched(q) :: k.account != a
    case _ => true
  }

  // and nothing it has written is on the account
  ghost predicate Wary(db: Db, s: Session, a: Address) {
    Warned(s, a) && (s.ledger ==> AccountKept(db, s.work, a))
  }

  lemma {:induction false} EarlyLocksNothing(db: Db, s: Session)
    requires SessionOk(db, Cleared(s))
             && (s.phase.Started? || s.phase.Finding? || s.phase.Creating? || s.phase.Locking?)
    ensures !s.ledger
  {
  }

  lemma {:induction false} EarlyStaysWary(db: Db, s: Session, a: Address)
    requires (s.phase.Started? || s.phase.Finding? || s.phase.Creating? || s.phase.Locking?) && !s.ledger
    ensures Wary(db, Advance(db, s), a)
  {
  }

  lemma {:induction false} LookWarns(db: Db, shut: map<Address, Db>, s: Session, a: Address)
    requires (s.phase.Closing? || (s.phase.Reading? && s.phase.part < |s.parts|)) && a in shut && Wary(db, s, a)
    ensures Wary(db, Take(db, shut, s), a)
  {
  }

  lemma {:induction false} SeenIsTouched(db: Db, s: Session)
    requires SessionOk(db, Cleared(s)) && s.phase.Deciding?
    ensures s.phase.part < |s.parts| && s.seen.Keys == Touched(s.parts[s.phase.part].item.postings)
  {
    assert s.seen.Keys == Cleared(s).seen.Keys;
  }

  lemma {:induction false} DecideHeeds(s: Session, j: nat, a: Address)
    requires j < |s.parts| && s.seen.Keys == Touched(s.parts[j].item.postings)
    requires forall k | k in s.seen && k.account == a :: s.seen[k].closed
    ensures var r := Decide(s, j); Warned(r, a) && (r.ledger ==> s.ledger && r.work == s.work)
  {
    if Prepare(s.seen, s.parts[j].item.postings).Done? { PrepareGuarantees(s.seen, s.parts[j].item.postings); }
  }

  lemma {:induction false} NumberKeepsWary(db: Db, s: Session, j: nat, q: Postings, e: map<Key, Volumes>, a: Address)
    requires s.phase == Numbering(j, q, e) && Wary(db, s, a)
    ensures Wary(db, Number(db, s, j, q, e), a)
  {
  }

  lemma {:induction false} LogKeepsRows(db: Db, part: Part, tx: Tx)
    requires part.undone.Some? ==> part.undone.value in db.txs
    ensures Logged(db, part, tx).rows == db.rows
  {
  }

  // writing on other accounts
  lemma {:induction false} InstallKeeps(db: Db, tx: Tx, before: map<Key, Volumes>, effective: map<Key, Volumes>,
                                        a: Address)
    requires forall k | k in Touched(tx.postings) :: k.account != a
    ensures AccountKept(db, Installed(db, tx, before, effective), a)
  {
    InstalledRows(db, tx, before, effective);
    forall k: Key | k.account == a
      ensures RowVolumes(Installed(db, tx, before, effective).rows, k) == RowVolumes(db.rows, k) {
      assert SameRow(db.rows, Installed(db, tx, before, effective).rows, k);
    }
  }

  lemma {:induction false} WriteKeeps(s: Session, j: nat, q: Postings, e: map<Key, Volumes>, a: Address)
    requires j < |s.parts| && Written(s, j, q, e).Done? && forall k | k in Touched(q) :: k.account != a
    ensures AccountKept(s.work, Written(s, j, q, e).value.db, a)
  {
    var d := Stamp(s.parts[j].item.timestamp, Clock(s.op));
    WriteInstalls(s.work, s.parts[j].item, q, d, VolumesOf(s.seen), e);
    InstallKeeps(s.work, Written(s, j, q, e).value.tx, VolumesOf(s.seen), e, a);
  }

  lemma {:induction false} EnteredKeeps(db: Db, s: Session, j: nat, r: Outcome<Applied>, a: Address)
    requires j < |s.parts| && s.ledger && AccountKept(db, s.work, a)
    requires r.Done? ==> AccountKept(s.work, r.value.db, a)
    ensures Wary(db, Entered(db, s, j, r), a)
  {
    if r.Done? && (s.parts[j].undone.Some? ==> s.parts[j].undone.value in r.value.db.txs) {
      LogKeepsRows(r.value.db, s.parts[j], r.value.tx);
    }
  }

  lemma {:induction false} InsertStaysWary(db: Db, s: Session, j: nat, q: Postings, e: map<Key, Volumes>, a: Address)
    requires s.phase == Writing(j, q, e) && j < |s.parts| && s.ledger && Wary(db, s, a)
    ensures Wary(db, Advance(db, s), a)
  {
    if Written(s, j, q, e).Done? { WriteKeeps(s, j, q, e, a); }
    EnteredKeeps(db, s, j, Written(s, j, q, e), a);
    AdvanceInserts(db, s, j, q, e);
  }

  lemma {:induction false} WritesUnderLedger(db: Db, s: Session)
    requires SessionOk(db, Cleared(s)) && s.phase.Writing?
    ensures s.ledger && s.phase.part < |s.parts|
  {
  }

  lemma {:induction false} LateStaysWary(db: Db, s: Session, a: Address)
    requires SessionOk(db, Cleared(s)) && Active(s) && Wary(db, s, a)
    requires !s.phase.Started? && !s.phase.Finding? && !s.phase.Creating? && !s.phase.Locking?
             && !s.phase.Closing? && !s.phase.Reading?
    ensures Wary(db, Advance(db, s), a)
  {
    match s.phase
    case Deciding(j) =>
      SeenIsTouched(db, s);
      DecideHeeds(s, j, a);
    case Numbering(j, q, e) => NumberKeepsWary(db, s, j, q, e, a);
    case Writing(j, q, e) =>
      WritesUnderLedger(db, s);
      InsertStaysWary(db, s, j, q, e, a);
    case _ =>
  }

  lemma {:induction false} ReadingPlaced(db: Db, s: Session)
    requires SessionOk(db, Cleared(s)) && s.phase.Reading?
    ensures s.phase.part < |s.parts|
  {
  }

  /** While an account is closed, a session that will not move it takes no step after which it would. */
  lemma {:induction false} StepStaysWary(db: Db, shut: map<Address, Db>, s: Session, a: Address)
    requires SessionOk(db, Cleared(s)) && Active(s) && Wary(db, s, a) && a in shut
    ensures Wary(db, Take(db, shut, s), a)
  {
    if s.phase.Started? || s.phase.Finding? || s.phase.Creating? || s.phase.Locking? {
      EarlyLocksNothing(db, s);
      EarlyStaysWary(db, s, a);
    } else if s.phase.Closing? || s.phase.Reading? {
      if s.phase.Reading? { ReadingPlaced(db, s); }
      LookWarns(db, shut, s, a);
    } else {
      LateStaysWary(db, s, a);
    }
  }

  // ---------------------------------------------------------------- what each happening leaves of the rows

  lemma {:induction false} BriefKeepsVolumes(db: Db, op: Op, k: Key)
    requires Brief(op)
    ensures RowVolumes(Perform(db, op).db.rows, k) == RowVolumes(db.rows, k)
  {
    if SetsPolicy(op) { PolicySets(db, op); } else { EntryOnlyLogs(db, op); }
  }

  lemma {:induction false} PublishKeepsOthers(db: Db, s: Session, k: Key)
    requires Inv(db) && s.phase.Publishing? && SessionOk(db, s) && k !in s.held
    ensures RowVolumes(s.work.rows, k) == RowVolumes(db.rows, k)
  {
    PublishFrame(db, s);
    assert SameRow(db.rows, s.work.rows, k);
  }

  lemma {:induction false} PublishExtends(db: Db, s: Session)
    requires Inv(db) && s.phase.Publishing? && SessionOk(db, s) && !DryRun(s.op)
    ensures Extends(db, s.work)
  {
    PublishIsAtomic(db, s);
    StepExtends(db, s.op);
  }

  // whoever holds the row will not move it
  ghost predicate Spared(w: World, k: Key) {
    forall i | 0 <= i < |w.sessions| && k in w.sessions[i].held :: Wary(w.committed, w.sessions[i], k.account)
  }

  ghost predicate AllWary(w: World, a: Address) {
    forall i | 0 <= i < |w.sessions| :: Wary(w.committed, w.sessions[i], a)
  }

  lemma {:induction false} PublishLedger(db: Db, s: Session)
    requires SessionOk(db, Cleared(s)) && s.phase.Publishing?
    ensures s.ledger
  {
  }

  lemma {:induction false} MoveKeepsRow(w: System, i: nat, k: Key)
    requires Sound(w) && i < |w.world.sessions| && Spared(w.world, k)
    ensures RowVolumes(Onward(w, i).committed.rows, k) == RowVolumes(w.world.committed.rows, k)
  {
    var s := w.world.sessions[i];
    SoundSession(w, i);
    if Publishes(s) {
      if k in s.held { PublishLedger(w.world.committed, s); } else {
        PublishKeepsOthers(w.world.committed, Cleared(s), k);
      }
    }
  }

  lemma {:induction false} OneLedger(w: System, i: nat, j: nat)
    requires Sound(w) && i < |w.world.sessions| && j < |w.world.sessions| && i != j
             && w.world.sessions[i].phase.Publishing?
    ensures !w.world.sessions[j].ledger
  {
    SoundSession(w, i);
    PublishLedger(w.world.committed, w.world.sessions[i]);
    var c := AllCleared(w.world);
    assert ApartFrom(c.sessions, i) && c.sessions[j] == Cleared(w.world.sessions[j]);
    assert Apart(c.sessions[i], c.sessions[j]);
  }

  lemma {:induction false} PublishEnds(db: Db, shut: map<Address, Db>, s: Session)
    requires s.phase.Publishing?
    ensures Take(db, shut, s) == Ended(s, Answered(ReplyOf(s.op, s.out)))
  {
  }

  lemma {:induction false} MoveKeepsWary(w: System, i: nat, j: nat, a: Address)
    requires Sound(w) && i < |w.world.sessions| && Active(w.world.sessions[i]) && j < |w.world.sessions| && a in w.shut
    requires Wary(w.world.committed, w.world.sessions[j], a)
    ensures Wary(Onward(w, i).committed, Onward(w, i).sessions[j], a)
  {
    var s := w.world.sessions[i];
    if j != i {
      if Publishes(s) { OneLedger(w, i, j); }
    } else if Publishes(s) {
      PublishEnds(w.world.committed, w.shut, s);
    } else {
      SoundSession(w, i);
      StepStaysWary(w.world.committed, w.shut, s, a);
    }
  }

  lemma {:induction false} LateTakesNothing(db: Db, s: Session)
    requires SessionOk(db, Cleared(s)) && !s.phase.Creating? && !s.phase.Locking?
    ensures Advance(db, s).held <= s.held
  {
    match s.phase
    case Writing(j, q, e) =>
      WritesUnderLedger(db, s);
      AdvanceInserts(db, s, j, q, e);
      EntersTakeNothing(db, s, j, Written(s, j, q, e));
    case _ =>
  }

  // a row is taken only before the look
  lemma {:induction false} TakesEarly(db: Db, shut: map<Address, Db>, s: Session, k: Key)
    requires SessionOk(db, Cleared(s)) && k in Take(db, shut, s).held && k !in s.held
    ensures !s.ledger && (s.phase.Locking? || (s.phase.Creating? && k !in db.rows))
    ensures Wants(s, k) || s.phase.Creating?
  {
    assert Take(db, shut, s).held == Advance(db, s).held;
    if s.phase.Creating? || s.phase.Locking? { EarlyLocksNothing(db, s); } else { LateTakesNothing(db, s); }
  }

  lemma {:induction false} MoveSpares(w: System, i: nat, k: Key)
    requires Sound(w) && i < |w.world.sessions| && Active(w.world.sessions[i]) && k.account in w.shut
             && Spared(w.world, k)
    ensures Spared(Onward(w, i), k)
  {
    var r := Onward(w, i);
    forall j | 0 <= j < |r.sessions| && k in r.sessions[j].held ensures Wary(r.committed, r.sessions[j], k.account) {
      SoundSession(w, j);
      if k !in w.world.sessions[j].held { TakesEarly(w.world.committed, w.shut, w.world.sessions[j], k); }
      MoveKeepsWary(w, i, j, k.account);
    }
  }

  ghost predicate NobodyHolds(w: World, k: Key) { forall i | 0 <= i < |w.sessions| :: k !in w.sessions[i].held }

  // nobody takes a row that a close has locked
  lemma {:induction false} MoveLeavesFree(w: System, i: nat, k: Key)
    requires Sound(w) && i < |w.world.sessions| && !Wants(w.world.sessions[i], k)
    requires k in w.world.committed.rows && NobodyHolds(w.world, k)
    ensures NobodyHolds(Onward(w, i), k)
  {
    SoundSession(w, i);
    if k in Onward(w, i).sessions[i].held { TakesEarly(w.world.committed, w.shut, w.world.sessions[i], k); }
  }

  lemma {:induction false} ExtendsItself(db: Db)
    ensures Extends(db, db)
  {
  }

  lemma {:induction false} MoveExtends(w: System, i: nat)
    requires Sound(w) && i < |w.world.sessions|
    ensures Extends(w.world.committed, Onward(w, i).committed)
  {
    SoundSession(w, i);
    ExtendsItself(w.world.committed);
    if Publishes(w.world.sessions[i]) { PublishExtends(w.world.committed, Cleared(w.world.sessions[i])); }
  }

  lemma {:induction false} SeeingKeepsWary(db: Db, op: Op, s: Session, a: Address)
    requires Brief(op) && Wary(db, s, a)
    ensures Wary(Perform(db, op).db, Seeing(s, op), a)
  {
    forall k: Key | k.account == a && s.ledger
      ensures RowVolumes(Seeing(s, op).work.rows, k) == RowVolumes(Perform(db, op).db.rows, k) {
      BriefKeepsVolumes(db, op, k);
      BriefKeepsVolumes(s.work, op, k);
    }
  }

  // a loss, an arrival or a brief operation
  lemma {:induction false} OtherKeepsWary(w: World, e: Event, i: nat, a: Address)
    requires Possible(w, e) && !e.Moved? && i < |Happen(w, e).sessions|
    requires i < |w.sessions| ==> Wary(w.committed, w.sessions[i], a)
    ensures Wary(Happen(w, e).committed, Happen(w, e).sessions[i], a)
  {
    if e.Interjected? { SeeingKeepsWary(w.committed, e.op, w.sessions[i], a); }
  }

  lemma {:induction false} OtherTakesNothing(w: World, e: Event, i: nat, k: Key)
    requires Possible(w, e) && !e.Moved? && i < |Happen(w, e).sessions| && k in Happen(w, e).sessions[i].held
    ensures i < |w.sessions| && k in w.sessions[i].held
  {
  }

  lemma {:induction false} OtherKeepsRows(w: World, e: Event, k: Key)
    requires Possible(w, e) && !e.Moved?
    ensures RowVolumes(Happen(w, e).committed.rows, k) == RowVolumes(w.committed.rows, k)
  {
    if e.Interjected? { BriefKeepsVolumes(w.committed, e.op, k); }
  }

  lemma {:induction false} OtherExtends(w: World, e: Event)
    requires Inv(w.committed) && Possible(w, e) && !e.Moved?
    ensures Extends(w.committed, Happen(w, e).committed)
  {
    if e.Interjected? { StepExtends(w.committed, e.op); } else { ExtendsItself(w.committed); }
  }

  // what a happening among the sessions leaves as it was: rows nobody will move, rows a close has locked, and who
  // will not move an account
  ghost predicate Leaves(w: System, r: System) {
    && r.shut == w.shut && r.closers == w.closers && Extends(w.world.committed, r.world.committed)
    && (forall k | Spared(w.world, k) :: RowVolumes(r.world.committed.rows, k) == RowVolumes(w.world.committed.rows, k))
    && (forall k | Spared(w.world, k) && k.account in w.shut :: Spared(r.world, k))
    && (forall i, k | 0 <= i < |w.closers| && k in w.closers[i].held && k in w.world.committed.rows
                      && NobodyHolds(w.world, k) :: NobodyHolds(r.world, k))
    && forall a | a in w.shut && AllWary(w.world, a) :: AllWary(r.world, a)
  }

  lemma {:induction false} MoveLeaves(w: System, i: nat)
    requires Sound(w) && i < |w.world.sessions| && Active(w.world.sessions[i])
             && FreeOfClosers(w, w.world.sessions[i])
    ensures Leaves(w, w.(world := Onward(w, i)))
  {
    var r := Onward(w, i);
    MoveExtends(w, i);
    forall k | Spared(w.world, k) ensures RowVolumes(r.committed.rows, k) == RowVolumes(w.world.committed.rows, k) {
      MoveKeepsRow(w, i, k);
    }
    forall k | Spared(w.world, k) && k.account in w.shut ensures Spared(r, k) { MoveSpares(w, i, k); }
    forall c, k | 0 <= c < |w.closers| && k in w.closers[c].held && k in w.world.committed.rows
                  && NobodyHolds(w.world, k) ensures NobodyHolds(r, k) {
      MoveLeavesFree(w, i, k);
    }
    forall a | a in w.shut && AllWary(w.world, a) ensures AllWary(r, a) {
      forall j | 0 <= j < |r.sessions| ensures Wary(r.committed, r.sessions[j], a) { MoveKeepsWary(w, i, j, a); }
    }
  }

  lemma {:induction false} OtherSpares(w: World, e: Event, k: Key)
    requires Possible(w, e) && !e.Moved? && Spared(w, k)
    ensures Spared(Happen(w, e), k)
  {
    var r := Happen(w, e);
    forall i | 0 <= i < |r.sessions| && k in r.sessions[i].held ensures Wary(r.committed, r.sessions[i], k.account) {
      OtherTakesNothing(w, e, i, k);
      OtherKeepsWary(w, e, i, k.account);
    }
  }

  lemma {:induction false} OtherLeaves(w: System, e: Event)
    requires Inv(w.world.committed) && Possible(w.world, e) && !e.Moved?
    ensures Leaves(w, w.(world := Happen(w.world, e)))
  {
    var r := Happen(w.world, e);
    OtherExtends(w.world, e);
    forall k ensures RowVolumes(r.committed.rows, k) == RowVolumes(w.world.committed.rows, k) {
      OtherKeepsRows(w.world, e, k);
    }
    forall k | Spared(w.world, k) ensures Spared(r, k) { OtherSpares(w.world, e, k); }
    forall k | NobodyHolds(w.world, k) ensures NobodyHolds(r, k) {
      forall i | 0 <= i < |r.sessions| ensures k !in r.sessions[i].held {
        if k in r.sessions[i].held { OtherTakesNothing(w.world, e, i, k); }
      }
    }
    forall a | AllWary(w.world, a) ensures AllWary(r, a) {
      forall i | 0 <= i < |r.sessions| ensures Wary(r.committed, r.sessions[i], a) { OtherKeepsWary(w.world, e, i, a); }
    }
  }

  lemma {:induction false} OrdinaryLeaves(w: System, e: Event)
    requires Sound(w) && May(w, Ordinary(e))
    ensures Leaves(w, Occur(w, Ordinary(e)))
  {
    if e.Moved? { MoveLeaves(w, e.session); } else { OtherLeaves(w, e); }
  }

  // ---------------------------------------------------------------- what holds of every close

  ghost predicate Grown(asked: Db, db: Db) { Inv(asked) && Extends(asked, db) }

  // what held something when the close asked holds nothing now, and nobody will move it
  ghost predicate ShutOk(w: World, asked: Db, a: Address) {
    && Grown(asked, w.committed)
    && forall k | Owes(asked, a, k) :: Content(w.committed, k) == 0 && Spared(w, k)
  }

  // a row it has locked is nobody else's, and holds nothing unless the close has already failed
  ghost predicate Secured(w: World, c: Closer, k: Key) {
    k in w.committed.rows && NobodyHolds(w, k) && (!c.kept ==> Content(w.committed, k) == 0)
  }

  ghost predicate Hunting(w: World, c: Closer, n: nat) {
    && n <= |c.matched| && c.matched == SortedKeys(Owing(c.asked, c.account)) && Grown(c.asked, w.committed)
    && (forall k :: k in c.held <==> k in c.matched[..n])
    && forall k | k in c.held :: Secured(w, c, k)
  }

  ghost predicate CloserOk(w: World, c: Closer) {
    match c.phase
    case Asking => c.held == {} && !c.kept
    case Waiting(n) => Hunting(w, c, n)
    case Marking => Hunting(w, c, |c.matched|)
    case Finished(_) => c.held == {}
  }

  ghost predicate Tight(w: System) {
    && (forall a | a in w.shut :: ShutOk(w.world, w.shut[a], a))
    && forall i | 0 <= i < |w.closers| :: CloserOk(w.world, w.closers[i])
  }

  lemma {:induction false} GrownOn(asked: Db, db: Db, r: Db)
    requires Grown(asked, db) && Extends(db, r)
    ensures Grown(asked, r)
  {
    ExtendsTransitive(asked, db, r);
  }

  lemma {:induction false} KeepsShut(w: System, r: System, a: Address)
    requires Leaves(w, r) && a in w.shut && ShutOk(w.world, w.shut[a], a)
    ensures ShutOk(r.world, w.shut[a], a)
  {
    GrownOn(w.shut[a], w.world.committed, r.world.committed);
    forall k | Owes(w.shut[a], a, k) ensures Content(r.world.committed, k) == 0 && Spared(r.world, k) {
      assert Spared(w.world, k);
    }
  }

  lemma {:induction false} KeepsSecured(w: System, r: System, i: nat, k: Key)
    requires Leaves(w, r) && i < |w.closers| && k in w.closers[i].held && Secured(w.world, w.closers[i], k)
    ensures Secured(r.world, w.closers[i], k)
  {
    assert Spared(w.world, k);
  }

  lemma {:induction false} KeepsHunting(w: System, r: System, i: nat, n: nat)
    requires Leaves(w, r) && i < |w.closers| && Hunting(w.world, w.closers[i], n)
    ensures Hunting(r.world, w.closers[i], n)
  {
    GrownOn(w.closers[i].asked, w.world.committed, r.world.committed);
    forall k | k in w.closers[i].held ensures Secured(r.world, w.closers[i], k) { KeepsSecured(w, r, i, k); }
  }

  lemma {:induction false} KeepsCloser(w: System, r: System, i: nat)
    requires Leaves(w, r) && i < |w.closers| && CloserOk(w.world, w.closers[i])
    ensures CloserOk(r.world, w.closers[i])
  {
    var c := w.closers[i];
    if c.phase.Waiting? {
      KeepsHunting(w, r, i, c.phase.next);
    } else if c.phase.Marking? {
      KeepsHunting(w, r, i, |c.matched|);
    }
  }

  lemma {:induction false} KeepsTight(w: System, r: System)
    requires Leaves(w, r) && Tight(w)
    ensures Tight(r)
  {
    forall a | a in r.shut ensures ShutOk(r.world, r.shut[a], a) { KeepsShut(w, r, a); }
    forall i | 0 <= i < |r.closers| ensures CloserOk(r.world, r.closers[i]) { KeepsCloser(w, r, i); }
  }

  lemma {:induction false} Asks(w: World, c: Closer)
    requires Inv(w.committed) && c.phase.Asking? && CloserOk(w, c)
    ensures CloserOk(w, CloserStep(w.committed, c))
  {
    ExtendsItself(w.committed);
  }

  lemma {:induction false} MatchedOwes(c: Closer, k: Key)
    requires c.matched == SortedKeys(Owing(c.asked, c.account))
    ensures k in c.matched <==> Owes(c.asked, c.account, k)
  {
    SortedKeysAscend(Owing(c.asked, c.account));
  }

  // the row it has waited for is free, and looked at as it stands
  lemma {:induction false} WaitSecures(w: World, c: Closer, n: nat, k: Key)
    requires c.phase == Waiting(n) && n < |c.matched| && Hunting(w, c, n) && NobodyHolds(w, c.matched[n])
    requires k in c.held || k == c.matched[n]
    ensures Secured(w, CloserStep(w.committed, c), k)
  {
    if k in c.held { assert Secured(w, c, k); } else { MatchedOwes(c, k); }
  }

  lemma {:induction false} Waits(w: World, c: Closer, n: nat)
    requires c.phase == Waiting(n) && Hunting(w, c, n) && (n < |c.matched| ==> NobodyHolds(w, c.matched[n]))
    ensures CloserOk(w, CloserStep(w.committed, c))
  {
    if n < |c.matched| {
      var r := CloserStep(w.committed, c);
      TakeNext(c.matched, n);
      forall k | k in r.held ensures Secured(w, r, k) { WaitSecures(w, c, n, k); }
    }
  }

  lemma {:induction false} StepKeepsCloser(w: World, c: Closer)
    requires Inv(w.committed) && CloserOk(w, c)
    requires c.phase.Waiting? && c.phase.next < |c.matched| ==> NobodyHolds(w, c.matched[c.phase.next])
    ensures CloserOk(w, CloserStep(w.committed, c))
  {
    match c.phase
    case Asking => Asks(w, c);
    case Waiting(n) => Waits(w, c, n);
    case _ =>
  }

  lemma {:induction false} MarkShuts(w: World, c: Closer)
    requires c.phase.Marking? && CloserOk(w, c) && !c.kept
    ensures ShutOk(w, c.asked, c.account)
  {
    assert c.matched[..|c.matched|] == c.matched;
    forall k | Owes(c.asked, c.account, k) ensures Content(w.committed, k) == 0 && Spared(w, k) {
      MatchedOwes(c, k);
      assert Secured(w, c, k);
    }
  }

  lemma {:induction false} SteppedShut(w: System, c: Closer, a: Address)
    requires Tight(w) && CloserOk(w.world, c) && c.phase.Marking? && !c.kept && (a in w.shut || a == c.account)
    ensures ShutOk(w.world, w.shut[c.account := c.asked][a], a)
  {
    if a == c.account { MarkShuts(w.world, c); }
  }

  // the tables and the sessions as they were
  lemma {:induction false} SteppedTight(w: System, i: nat)
    requires Tight(w) && Inv(w.world.committed) && i < |w.closers| && FreeOfSessions(w, w.closers[i])
    ensures var c := w.closers[i];
            Tight(System(w.world, if c.phase.Marking? && !c.kept then w.shut[c.account := c.asked] else w.shut,
                         w.closers[i := CloserStep(w.world.committed, c)]))
  {
    var c := w.closers[i];
    StepKeepsCloser(w.world, c);
    if c.phase.Marking? && !c.kept {
      var shut := w.shut[c.account := c.asked];
      forall a | a in shut ensures ShutOk(w.world, shut[a], a) { SteppedShut(w, c, a); }
    }
  }

  lemma {:induction false} QuietTight(w: System, a: Address, i: nat)
    requires Tight(w)
    ensures Tight(w.(closers := w.closers + [Opening(a)])) && Tight(w.(shut := w.shut - {a}))
    ensures i < |w.closers| ==> Tight(w.(closers := w.closers[i := Finish(w.closers[i], false)]))
  {
  }

  lemma {:induction false} OccurTight(w: System, h: Happening)
    requires Sound(w) && Tight(w) && May(w, h)
    ensures Tight(Occur(w, h))
  {
    match h
    case Ordinary(e) =>
      OrdinaryLeaves(w, e);
      KeepsTight(w, Occur(w, h));
    case Stepped(i) => SteppedTight(w, i);
    case Asked(a) => QuietTight(w, a, 0);
    case Lost(i) => QuietTight(w, WORLD, i);
    case Reopened(a) => QuietTight(w, a, 0);
  }

  lemma {:induction false} CourseTight(w: System, hs: seq<Happening>)
    requires Sound(w) && Tight(w)
    ensures Sound(Course(w, hs)) && Tight(Course(w, hs))
  {
    CourseSound(w, hs);
    if hs != [] {
      var init := hs[..|hs| - 1];
      CourseTight(w, init);
      if May(Course(w, init), hs[|hs| - 1]) { OccurTight(Course(w, init), hs[|hs| - 1]); }
    }
  }

  // ---------------------------------------------------------------- the two results

  // the row holds something now just when it held nothing then, and the log since does not balance on it
  ghost predicate StrandedSince(asked: Db, now: Db, k: Key) {
    && asked.logs <= now.logs
    && (Content(now, k) != 0 <==> Content(asked, k) == 0 && NetOf(now.logs[|asked.logs|..], k) != 0)
  }

  lemma {:induction false} Balances(now: int, asked: int, net: int)
    requires now == asked + net && (asked != 0 ==> now == 0)
    ensures now != 0 <==> asked == 0 && net != 0
  {
  }

  ghost predicate Sums(asked: Db, now: Db, k: Key, more: seq<Log>) {
    && Content(now, k) == Content(asked, k) + NetOf(more, k)
    && (Content(asked, k) != 0 ==> Content(now, k) == 0)
  }

  lemma {:induction false} RowSince(asked: Db, now: Db, k: Key, more: seq<Log>)
    requires asked.logs <= now.logs && more == now.logs[|asked.logs|..] && Sums(asked, now, k, more)
    ensures StrandedSince(asked, now, k)
  {
    Balances(Content(now, k), Content(asked, k), NetOf(more, k));
  }

  lemma {:induction false} InvAccounts(db: Db)
    requires Inv(db)
    ensures RowsOk(db.rows, db.moves) && MovesOk(db.moves, db.logs)
  {
  }

  lemma {:induction false} ContentSince(asked: Db, now: Db, k: Key, more: seq<Log>)
    requires Inv(asked) && Inv(now) && now.logs == asked.logs + more
    requires Content(asked, k) != 0 ==> Content(now, k) == 0
    ensures Sums(asked, now, k, more)
  {
    InvAccounts(asked);
    InvAccounts(now);
    Accounted(asked, now, k, more);
  }

  lemma {:induction false} Gained(a: seq<Log>, b: seq<Log>) returns (more: seq<Log>)
    requires a <= b
    ensures b == a + more && more == b[|a|..]
  {
    more := b[|a|..];
  }

  // a row that held something when the close asked holds nothing
  lemma {:induction false} OnceHeld(w: World, asked: Db, k: Key)
    requires ShutOk(w, asked, k.account)
    ensures Inv(asked) && asked.logs <= w.committed.logs
    ensures Content(asked, k) != 0 ==> Content(w.committed, k) == 0
  {
    if Content(asked, k) != 0 { assert Owes(asked, k.account, k); }
  }

  lemma {:induction false} ShutRow(w: World, asked: Db, k: Key)
    requires Inv(w.committed) && ShutOk(w, asked, k.account)
    ensures StrandedSince(asked, w.committed, k)
  {
    OnceHeld(w, asked, k);
    var more := Gained(asked.logs, w.committed.logs);
    ContentSince(asked, w.committed, k, more);
    RowSince(asked, w.committed, k, more);
  }

  /** What is left in closed accounts, exactly. However closes, reopenings and everything else interleave, a row
      of a closed account holds something if and only if it held nothing when the close asked, and the log since
      then moves more onto it than off it, or less. A row that held something then holds nothing. */
  lemma {:induction false} StrandedExactly(start: Db, hs: seq<Happening>, k: Key)
    requires Inv(start) && NoneClosed(start) && k.account in Course(Begun(start), hs).shut
    ensures var w := Course(Begun(start), hs); StrandedSince(w.shut[k.account], w.world.committed, k)
  {
    BegunSound(start);
    CourseTight(Begun(start), hs);
    var w := Course(Begun(start), hs);
    ShutRow(w.world, w.shut[k.account], k);
  }

  lemma {:induction false} LeavesAccount(w: System, r: System, a: Address)
    requires Leaves(w, r) && AllWary(w.world, a)
    ensures AccountKept(w.world.committed, r.world.committed, a)
  {
    forall k: Key | k.account == a
      ensures RowVolumes(r.world.committed.rows, k) == RowVolumes(w.world.committed.rows, k) {
      assert Spared(w.world, k);
    }
  }

  lemma {:induction false} OccurSettled(w: System, h: Happening, a: Address)
    requires Sound(w) && May(w, h) && a in w.shut && AllWary(w.world, a) && h != Reopened(a)
    ensures var r := Occur(w, h);
            a in r.shut && AllWary(r.world, a) && AccountKept(w.world.committed, r.world.committed, a)
  {
    if h.Ordinary? {
      OrdinaryLeaves(w, h.event);
      LeavesAccount(w, Occur(w, h), a);
    }
  }

  /** Once every session that looked while the account was open has ended, nothing moves it: whatever arrives,
      commits, closes or is lost, until it is reopened every row of it holds what it held. */
  lemma {:induction false} SettledStays(w: System, hs: seq<Happening>, a: Address)
    requires Sound(w) && a in w.shut && AllWary(w.world, a) && Reopened(a) !in hs
    ensures var r := Course(w, hs);
            a in r.shut && AllWary(r.world, a) && AccountKept(w.world.committed, r.world.committed, a)
  {
    if hs != [] {
      var init, h := hs[..|hs| - 1], hs[|hs| - 1];
      assert h in hs && forall x | x in init :: x in hs;
      SettledStays(w, init, a);
      CourseSound(w, init);
      var p := Course(w, init);
      if May(p, h) { OccurSettled(p, h, a); }
    }
  }
}

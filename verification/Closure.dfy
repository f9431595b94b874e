/** Accounts closed and reopened between the steps of everything else. A session looks once at which of its
    accounts are closed and is refused if any is; a close asks which rows hold something, waits for each of
    those alone, and closes if none still does. Closing refuses, and never changes what is done. */
module Closure {
  import opened Ledger
  import opened Engine
  import opened Invariants
  import opened Runs
  import opened Protocol
  import opened Sessions
  import opened Frames
  import opened Survival
  import opened Interleaving
  import opened Answers

  // ---------------------------------------------------------------- one close

  // the rows of the account that hold something
  ghost function Owing(db: Db, a: Address): set<Key> { set k | k in db.rows && Owes(db, a, k) }

  datatype CloserPhase = Asking | Waiting(next: nat) | Marking | Finished(closed: bool)

  // the rows that matched when it asked, those it has locked, and whether one of them still held something
  datatype Closer = Closer(account: Address, phase: CloserPhase, matched: seq<Key>, held: set<Key>,
                           kept: bool, asked: Db)

  function Opening(a: Address): Closer { Closer(a, Asking, [], {}, false, EMPTY) }

  function Finish(c: Closer, closed: bool): Closer { c.(phase := Finished(closed), held := {}) }

  // select ... for update where input <> output: the rows that matched when it began, each rechecked once locked
  ghost function CloserStep(db: Db, c: Closer): Closer {
    match c.phase
    case Asking =>
      if c.account == WORLD then Finish(c, false)
      else c.(phase := Waiting(0), matched := SortedKeys(Owing(db, c.account)), asked := db)
    case Waiting(n) =>
      if n >= |c.matched| then c.(phase := Marking)
      else c.(phase := Waiting(n + 1), held := c.held + {c.matched[n]},
              kept := c.kept || Owes(db, c.account, c.matched[n]))
    case Marking => Finish(c, !c.kept)
    case Finished(_) => c
  }

  // so many steps of a close with nothing happening between them
  ghost function CloserRun(db: Db, c: Closer, n: nat): Closer {
    if n == 0 then c else CloserStep(db, CloserRun(db, c, n - 1))
  }

  lemma {:induction false} CloserRunLast(db: Db, c: Closer, m: nat, n: nat)
    requires n == m + 1
    ensures CloserRun(db, c, n) == CloserStep(db, CloserRun(db, c, m))
  {
  }

  // having asked, it locks one row after another, and every one still holds what it held
  lemma {:induction false} CloserWaits(db: Db, a: Address, m: nat, n: nat)
    requires a != WORLD && n == m + 1 && m <= |SortedKeys(Owing(db, a))|
    ensures var c := CloserRun(db, Opening(a), n);
            && c.account == a && c.phase == Waiting(m) && c.matched == SortedKeys(Owing(db, a))
            && (c.kept <==> m > 0)
  {
    CloserRunLast(db, Opening(a), m, n);
    if m > 0 {
      CloserWaits(db, a, m - 1, m);
      SortedKeysAscend(Owing(db, a));
      assert SortedKeys(Owing(db, a))[m - 1] in Owing(db, a);
    }
  }

  lemma {:induction false} CloserEnds(db: Db, c: Closer, n: nat)
    requires c.phase == Waiting(n) && n == |c.matched|
    ensures CloserStep(db, CloserStep(db, c)).phase == Finished(!c.kept)
  {
  }

  lemma {:induction false} CloserStaysRefused(db: Db, n: nat)
    requires n > 0
    ensures CloserRun(db, Opening(WORLD), n).phase == Finished(false)
  {
    if n > 1 { CloserStaysRefused(db, n - 1); }
  }

  lemma {:induction false} OwingNothing(db: Db, a: Address)
    ensures |SortedKeys(Owing(db, a))| == 0 <==> Empty(db, a)
  {
    SortedKeysAscend(Owing(db, a));
    var ks := SortedKeys(Owing(db, a));
    if |ks| > 0 { assert ks[0] in ks; }
    if !Empty(db, a) {
      var k :| k in db.rows && k.account == a && db.rows[k].volumes.Balance() != 0;
      assert k in Owing(db, a);
    }
  }

  /** With nothing happening between its steps a close goes through exactly when the whole operation does. */
  lemma {:induction false} UninterruptedClose(db: Db, a: Address, now: Time)
    ensures CloserRun(db, Opening(a), |SortedKeys(Owing(db, a))| + 3).phase ==
            Finished(Close(db, a, now).reply.Acknowledged?)
  {
    var n := |SortedKeys(Owing(db, a))|;
    if a == WORLD {
      CloserStaysRefused(db, n + 3);
    } else {
      CloserWaits(db, a, n, n + 1);
      CloserEnds(db, CloserRun(db, Opening(a), n + 1), n);
      CloserRunLast(db, Opening(a), n + 1, n + 2);
      CloserRunLast(db, Opening(a), n + 2, n + 3);
      OwingNothing(db, a);
    }
  }

  // ---------------------------------------------------------------- the system with closed accounts

  // the sessions over tables that carry no closed flag, the accounts that are closed, each with the tables
  // its close asked of, and the closes under way
  datatype System = System(world: World, shut: map<Address, Db>, closers: seq<Closer>)

  function Begun(start: Db): System { System(Opened(start), map[], []) }

  function Flag(seen: map<Key, Locked>, shut: map<Address, Db>): map<Key, Locked> {
    map k | k in seen :: seen[k].(closed := k.account in shut)
  }

  // a session's step, looking at closure where it looks
  ghost function Take(db: Db, shut: map<Address, Db>, s: Session): Session {
    var r := Advance(db, s);
    if s.phase.Closing? || s.phase.Reading? then r.(seen := Flag(r.seen, shut)) else r
  }

  // the rows a session's next step locks
  ghost predicate Wants(s: Session, k: Key) {
    match s.phase
    case Locking(n) => n < |s.ks| && s.ks[n] == k
    case Reading(j) => j < |s.parts| && k in Touched(s.parts[j].item.postings)
    case _ => false
  }

  datatype Happening =
    | Ordinary(event: Event)
    | Asked(account: Address)
    | Stepped(closer: nat)
    | Lost(closer: nat)
    | Reopened(account: Address)

  ghost predicate FreeOfClosers(w: System, s: Session) {
    forall i | 0 <= i < |w.closers| :: forall k | k in w.closers[i].held :: !Wants(s, k)
  }

  ghost predicate FreeOfSessions(w: System, c: Closer) {
    c.phase.Waiting? && c.phase.next < |c.matched| ==>
      && (forall i | 0 <= i < |w.world.sessions| :: c.matched[c.phase.next] !in w.world.sessions[i].held)
      && (forall i | 0 <= i < |w.closers| :: c.matched[c.phase.next] !in w.closers[i].held)
  }

  ghost predicate May(w: System, h: Happening) {
    match h
    case Ordinary(e) =>
      && Possible(w.world, e)
      && (e.Moved? ==> FreeOfClosers(w, w.world.sessions[e.session]))
      && (e.Interjected? && SetsPolicy(e.op) ==> forall i | 0 <= i < |w.closers| :: e.op.row !in w.closers[i].held)
    case Asked(_) => true
    case Stepped(i) => i < |w.closers| && FreeOfSessions(w, w.closers[i])
    case Lost(i) => i < |w.closers|
    case Reopened(_) => true
  }

  ghost function Onward(w: System, i: nat): World
    requires i < |w.world.sessions|
  {
    var s := w.world.sessions[i];
    var r := Proceed(w.world, i);
    r.(sessions := w.world.sessions[i := Take(w.world.committed, w.shut, s)])
  }

  ghost function Occur(w: System, h: Happening): System
    requires May(w, h)
  {
    match h
    case Ordinary(e) => w.(world := if e.Moved? then Onward(w, e.session) else Happen(w.world, e))
    case Asked(a) => w.(closers := w.closers + [Opening(a)])
    case Stepped(i) =>
      var c := w.closers[i];
      var r := CloserStep(w.world.committed, c);
      System(w.world, if c.phase.Marking? && !c.kept then w.shut[c.account := c.asked] else w.shut, w.closers[i := r])
    case Lost(i) => w.(closers := w.closers[i := Finish(w.closers[i], false)])
    case Reopened(a) => w.(shut := w.shut - {a})
  }

  // those that may not happen where they stand left out
  ghost function Course(w: System, hs: seq<Happening>): System {
    if hs == [] then w
    else
      var p := Course(w, hs[..|hs| - 1]);
      if May(p, hs[|hs| - 1]) then Occur(p, hs[|hs| - 1]) else p
  }

  // ---------------------------------------------------------------- the same without the flags

  function Unflag(seen: map<Key, Locked>): map<Key, Locked> { map k | k in seen :: seen[k].(closed := false) }

  // the session as it would be had every account been open
  function Cleared(s: Session): Session { s.(seen := Unflag(s.seen)) }

  function AllCleared(w: World): World {
    w.(sessions := seq(|w.sessions|, i requires 0 <= i < |w.sessions| => Cleared(w.sessions[i])))
  }

  ghost predicate NoneClosed(db: Db) { forall a {:trigger Closed(db, a)} :: !Closed(db, a) }

  lemma {:induction false} UnflagFlag(seen: map<Key, Locked>, shut: map<Address, Db>)
    ensures Unflag(Flag(seen, shut)) == Unflag(seen)
  {
  }

  lemma {:induction false} ClearedStart(db: Db, s: Session)
    requires s.phase.Started? || (s.phase.Finding? && s.op.OpRevert?)
    ensures Cleared(Advance(db, s)) == Advance(db, Cleared(s))
  {
  }

  lemma {:induction false} ClearedCreates(db: Db, s: Session, n: nat)
    ensures Cleared(Create(db, s, n)) == Create(db, Cleared(s), n)
  {
    assert Unflag(map[]) == map[];
  }

  lemma {:induction false} ClearedLocks(db: Db, s: Session, n: nat)
    ensures Cleared(Lock(db, s, n)) == Lock(db, Cleared(s), n)
  {
    if n < |s.ks| {
      var l := Locked(RowAt(db, s.ks[n]), false);
      assert Unflag(s.seen[s.ks[n] := l]) == Unflag(s.seen)[s.ks[n] := l];
    }
  }

  lemma {:induction false} ClearedRows(db: Db, s: Session)
    requires s.phase.Creating? || s.phase.Locking?
    ensures Cleared(Advance(db, s)) == Advance(db, Cleared(s))
  {
    ClearedCreates(db, s, s.phase.next);
    ClearedLocks(db, s, s.phase.next);
  }

  lemma {:induction false} ClearedLook(db: Db, shut: map<Address, Db>, s: Session)
    requires NoneClosed(db)
             && (s.phase.Closing? || (s.phase.Reading? && s.phase.part < |s.parts| && NoneClosed(View(db, s))))
    ensures Cleared(Take(db, shut, s)) == Advance(db, Cleared(s))
  {
    var r, t := Advance(db, s), Advance(db, Cleared(s));
    UnflagFlag(r.seen, shut);
    assert Unflag(r.seen) == t.seen;
  }

  lemma {:induction false} ClearedDates(db: Db, s: Session)
    requires s.phase.Dating? || s.phase.Numbering? || s.phase.Publishing?
    ensures Cleared(Advance(db, s)) == Advance(db, Cleared(s))
  {
  }

  // the volumes written from are the same whatever the flags
  lemma {:induction false} ClearedWritten(s: Session, j: nat, q: Postings, e: map<Key, Volumes>)
    requires j < |s.parts|
    ensures Written(Cleared(s), j, q, e) == Written(s, j, q, e)
  {
    assert VolumesOf(Unflag(s.seen)) == VolumesOf(s.seen);
  }

  lemma {:induction false} ClearedEntered(db: Db, s: Session, j: nat, r: Outcome<Applied>)
    requires j < |s.parts|
    ensures Cleared(Entered(db, s, j, r)) == Entered(db, Cleared(s), j, r)
  {
  }

  lemma {:induction false} ClearedInserts(db: Db, s: Session, j: nat, q: Postings, e: map<Key, Volumes>)
    requires j < |s.parts|
    ensures Cleared(Insert(db, s, j, q, e)) == Insert(db, Cleared(s), j, q, e)
  {
    ClearedWritten(s, j, q, e);
    ClearedEntered(db, s, j, Written(s, j, q, e));
  }

  lemma {:induction false} AdvanceInserts(db: Db, s: Session, j: nat, q: Postings, e: map<Key, Volumes>)
    requires s.phase == Writing(j, q, e)
    ensures Advance(db, s) == if j < |s.parts| then Insert(db, s, j, q, e) else s
  {
  }

  lemma {:induction false} ClearedWrites(db: Db, s: Session)
    requires s.phase.Writing?
    ensures Cleared(Advance(db, s)) == Advance(db, Cleared(s))
  {
    var j, q, e := s.phase.part, s.phase.postings, s.phase.effective;
    AdvanceInserts(db, s, j, q, e);
    AdvanceInserts(db, Cleared(s), j, q, e);
    if j < |s.parts| { ClearedInserts(db, s, j, q, e); }
  }

  // ---------------------------------------------------------------- what a flag does to a decision

  lemma {:induction false} UnflagResolves(p: Postings, seen: map<Key, Locked>)
    ensures Resolve(p, Unflag(seen)) == Resolve(p, seen)
  {
    if p != [] {
      UnflagResolves(p[..|p| - 1], seen);
      var r := Resolve(p[..|p| - 1], seen);
      if r.Done? { assert ResolveOne(p[|p| - 1], Unflag(seen), r.value) == ResolveOne(p[|p| - 1], seen, r.value); }
    }
  }

  lemma {:induction false} UnflagChecks(seen: map<Key, Locked>, us: seq<VolumeUpdate>)
    ensures FirstClosed(Unflag(seen), us).None?
    ensures FirstOutOfBounds(Unflag(seen), us) == FirstOutOfBounds(seen, us)
  {
    if us != [] { UnflagChecks(seen, us[1..]); }
  }

  // a flag refuses, or changes nothing
  lemma {:induction false} FlagsRefuse(seen: map<Key, Locked>, p: Postings)
    ensures var r := Prepare(seen, p); r == Prepare(Unflag(seen), p) || (r.Refused? && r.error.AccountClosed?)
  {
    UnflagResolves(p, seen);
    if Resolve(p, seen).Done? {
      var us := Updates(Resolve(p, seen).value);
      UnflagChecks(seen, us);
      CheckErrors(seen, us);
    }
  }

  // the session is refused for an account it saw closed
  ghost predicate Barred(s: Session) {
    && s.phase.Deciding? && s.phase.part < |s.parts|
    && var r := Prepare(s.seen, s.parts[s.phase.part].item.postings);
       r.Refused? && r.error.AccountClosed?
  }

  lemma {:induction false} ClearedDecides(db: Db, s: Session)
    requires s.phase.Deciding? && s.phase.part < |s.parts| && !Barred(s)
    ensures Cleared(Advance(db, s)) == Advance(db, Cleared(s))
  {
    FlagsRefuse(s.seen, s.parts[s.phase.part].item.postings);
  }

  lemma {:induction false} ViewOpen(db: Db, s: Session)
    requires Inv(db) && NoneClosed(db) && SessionOk(db, Cleared(s)) && s.phase.Reading?
    ensures s.phase.part < |s.parts| && NoneClosed(View(db, s))
  {
    if s.ledger {
      RunPartsFrame(db, Cleared(s), s.phase.part);
      forall a ensures !Closed(s.work, a) { assert Closed(s.work, a) == Closed(db, a); }
    }
  }

  lemma {:induction false} ClearedPlaced(db: Db, s: Session)
    requires SessionOk(db, Cleared(s)) && s.phase.Deciding?
    ensures s.phase.part < |s.parts|
  {
  }

  /** A session's step does what it would have done with every account open, unless it is refused for one
      it saw closed. */
  lemma {:induction false} StepClears(db: Db, shut: map<Address, Db>, s: Session)
    requires Inv(db) && NoneClosed(db) && SessionOk(db, Cleared(s)) && Active(s) && !Barred(s)
    ensures Cleared(Take(db, shut, s)) == Advance(db, Cleared(s))
  {
    match s.phase
    case Started => ClearedStart(db, s);
    case Finding => ClearedStart(db, s);
    case Creating(_) => ClearedRows(db, s);
    case Locking(_) => ClearedRows(db, s);
    case Closing => ClearedLook(db, shut, s);
    case Reading(_) =>
      ViewOpen(db, s);
      ClearedLook(db, shut, s);
    case Deciding(_) =>
      ClearedPlaced(db, s);
      ClearedDecides(db, s);
    case Writing(_, _, _) => ClearedWrites(db, s);
    case _ => ClearedDates(db, s);
  }

  lemma {:induction false} BarredEnds(db: Db, shut: map<Address, Db>, s: Session)
    requires Barred(s)
    ensures var e := Prepare(s.seen, s.parts[s.phase.part].item.postings).error;
            Take(db, shut, s) == Ended(s, Answered(RefusalOf(s.op, s.phase.part, e)))
  {
  }

  // ---------------------------------------------------------------- the system without the flags

  lemma {:induction false} ClearedWaits(db: Db, s: Session, t: Session)
    ensures WaitsFor(db, Cleared(s), Cleared(t)) == WaitsFor(db, s, t)
  {
  }

  lemma {:induction false} ClearedEnabled(w: World, i: nat)
    requires i < |w.sessions|
    ensures Enabled(AllCleared(w), i) == Enabled(w, i)
  {
    forall j | 0 <= j < |w.sessions|
      ensures WaitsFor(w.committed, Cleared(w.sessions[i]), Cleared(w.sessions[j])) ==
              WaitsFor(w.committed, w.sessions[i], w.sessions[j])
    {
      ClearedWaits(w.committed, w.sessions[i], w.sessions[j]);
    }
    var c := AllCleared(w);
    assert forall j | 0 <= j < |w.sessions| :: c.sessions[j] == Cleared(w.sessions[j]);
  }

  lemma {:induction false} ClearedSeeing(s: Session, op: Op)
    ensures Cleared(Seeing(s, op)) == Seeing(Cleared(s), op)
  {
  }

  lemma {:induction false} ClearedReplace(w: World, i: nat, r: Session)
    requires i < |w.sessions|
    ensures AllCleared(w.(sessions := w.sessions[i := r])).sessions == AllCleared(w).sessions[i := Cleared(r)]
  {
  }

  // what holds of the system: without its flags it is one of those interleaved before
  ghost predicate Sound(w: System) { Good(AllCleared(w.world)) && NoneClosed(w.world.committed) }

  lemma {:induction false} SoundSession(w: System, i: nat)
    requires Sound(w) && i < |w.world.sessions|
    ensures Inv(w.world.committed) && SessionOk(w.world.committed, Cleared(w.world.sessions[i]))
  {
    assert AllCleared(w.world).sessions[i] == Cleared(w.world.sessions[i]);
  }

  lemma {:induction false} MoveCleared(w: System, i: nat)
    requires Sound(w) && i < |w.world.sessions| && Enabled(w.world, i) && !Barred(w.world.sessions[i])
    ensures Enabled(AllCleared(w.world), i) && AllCleared(Onward(w, i)) == Proceed(AllCleared(w.world), i)
  {
    SoundSession(w, i);
    ClearedEnabled(w.world, i);
    StepClears(w.world.committed, w.shut, w.world.sessions[i]);
    ClearedReplace(w.world, i, Take(w.world.committed, w.shut, w.world.sessions[i]));
  }

  lemma {:induction false} MoveBarred(w: System, i: nat)
    requires i < |w.world.sessions| && Barred(w.world.sessions[i])
    ensures var c, s := AllCleared(w.world), w.world.sessions[i];
            var e := Prepare(s.seen, s.parts[s.phase.part].item.postings).error;
            AllCleared(Onward(w, i)) ==
            c.(sessions := c.sessions[i := Ended(c.sessions[i], Answered(RefusalOf(s.op, s.phase.part, e)))])
  {
    BarredEnds(w.world.committed, w.shut, w.world.sessions[i]);
    ClearedReplace(w.world, i, Take(w.world.committed, w.shut, w.world.sessions[i]));
  }

  lemma {:induction false} OtherCleared(w: World, e: Event)
    requires Possible(w, e) && !e.Moved?
    ensures Possible(AllCleared(w), e) && AllCleared(Happen(w, e)) == Happen(AllCleared(w), e)
  {
    var c := AllCleared(w);
    assert forall j | 0 <= j < |w.sessions| :: c.sessions[j] == Cleared(w.sessions[j]);
    match e
    case Abandoned(i) => ClearedReplace(w, i, Ended(w.sessions[i], Gone));
    case Arrived(op) => assert Cleared(Fresh(op)) == Fresh(op);
    case Interjected(op) =>
      forall i | 0 <= i < |w.sessions| ensures Cleared(Seeing(w.sessions[i], op)) == Seeing(c.sessions[i], op) {
        ClearedSeeing(w.sessions[i], op);
      }
  }

  // ---------------------------------------------------------------- closing refuses, and changes nothing

  lemma {:induction false} PublishKeepsOpen(db: Db, s: Session)
    requires Inv(db) && s.phase.Publishing? && SessionOk(db, s) && NoneClosed(db)
    ensures NoneClosed(s.work)
  {
    PublishFrame(db, s);
    forall a ensures !Closed(s.work, a) { assert Closed(s.work, a) == Closed(db, a); }
  }

  lemma {:induction false} BriefKeepsOpen(db: Db, op: Op)
    requires Brief(op) && NoneClosed(db)
    ensures NoneClosed(Perform(db, op).db)
  {
    if SetsPolicy(op) {
      PolicySets(db, op);
      PolicyFrame(db, op.row, PolicyRow(db.rows, op));
    } else {
      EntryOnlyLogs(db, op);
    }
    var r := Perform(db, op).db;
    forall a ensures !Closed(r, a) { assert Closed(r, a) == Closed(db, a); }
  }

  lemma {:induction false} MoveSound(w: System, i: nat)
    requires Sound(w) && May(w, Ordinary(Moved(i)))
    ensures Good(AllCleared(Onward(w, i))) && NoneClosed(Onward(w, i).committed)
  {
    var s := w.world.sessions[i];
    SoundSession(w, i);
    if Barred(s) {
      MoveBarred(w, i);
      var e := Prepare(s.seen, s.parts[s.phase.part].item.postings).error;
      EndGood(AllCleared(w.world), i, Answered(RefusalOf(s.op, s.phase.part, e)));
    } else {
      MoveCleared(w, i);
      MoveGood(AllCleared(w.world), i);
      if s.phase.Publishing? { PublishKeepsOpen(w.world.committed, Cleared(s)); }
    }
  }

  lemma {:induction false} OrdinarySound(w: System, e: Event)
    requires Sound(w) && May(w, Ordinary(e))
    ensures Sound(Occur(w, Ordinary(e)))
  {
    if e.Moved? {
      MoveSound(w, e.session);
    } else {
      OtherCleared(w.world, e);
      HappenGood(AllCleared(w.world), e);
      if e.Interjected? { BriefKeepsOpen(w.world.committed, e.op); }
    }
  }

  // r is w after more operations took effect, in a row
  lemma {:induction false} OrdinaryFollows(w: World, p: System, e: Event)
    requires Sound(p) && May(p, Ordinary(e)) && Follows(w, AllCleared(p.world))
    ensures Follows(w, AllCleared(Occur(p, Ordinary(e)).world))
  {
    var c := AllCleared(p.world);
    if e.Moved? && Barred(p.world.sessions[e.session]) {
      StillFollows(w, c, AllCleared(Onward(p, e.session)));
    } else if e.Moved? {
      MoveCleared(p, e.session);
      HappenFollows(w, c, e);
    } else {
      OtherCleared(p.world, e);
      HappenFollows(w, c, e);
    }
  }

  lemma {:induction false} OccurSound(w: World, p: System, h: Happening)
    requires Sound(p) && May(p, h) && Follows(w, AllCleared(p.world))
    ensures Sound(Occur(p, h)) && Follows(w, AllCleared(Occur(p, h).world))
  {
    if h.Ordinary? {
      OrdinarySound(p, h.event);
      OrdinaryFollows(w, p, h.event);
    }
  }

  lemma {:induction false} CourseSound(w: System, hs: seq<Happening>)
    requires Sound(w)
    ensures Sound(Course(w, hs)) && Follows(AllCleared(w.world), AllCleared(Course(w, hs).world))
  {
    if hs != [] {
      var p, h := Course(w, hs[..|hs| - 1]), hs[|hs| - 1];
      CourseSound(w, hs[..|hs| - 1]);
      if May(p, h) { OccurSound(AllCleared(w.world), p, h); }
    }
  }

  lemma {:induction false} BegunSound(start: Db)
    requires Inv(start) && NoneClosed(start)
    ensures Sound(Begun(start)) && AllCleared(Opened(start)) == Opened(start)
  {
    OpenedGood(start);
    assert AllCleared(Opened(start)).sessions == [];
  }

  /** Serialisability with closing. However accounts are closed and reopened between the steps of everything
      else, what is committed, the flags aside, is exactly what the operations that took effect commit one
      after another with every account open: closing refuses requests, and changes nothing of what is done. */
  lemma {:induction false} SerialisableWithClosing(start: Db, hs: seq<Happening>)
    requires Inv(start) && NoneClosed(start)
    ensures var w := Course(Begun(start), hs).world;
            w.committed == Run(start, w.history) && forall op | op in w.history :: Plays(op)
  {
    BegunSound(start);
    CourseSound(Begun(start), hs);
    var w := Course(Begun(start), hs).world;
    assert Since(Opened(start), AllCleared(w)) == w.history;
  }

  /** An answer is the operation's own with every account open, under the same condition as before, unless it
      is a refusal for an account the session saw closed. */
  lemma {:induction false} AnswerWithClosing(w: System, i: nat)
    requires Sound(w) && May(w, Ordinary(Moved(i))) && Onward(w, i).sessions[i].phase.Answered?
    ensures var s, reply := w.world.sessions[i], Onward(w, i).sessions[i].phase.reply;
            if Barred(s) then
              var e := Prepare(s.seen, s.parts[s.phase.part].item.postings).error;
              e.AccountClosed? && reply == RefusalOf(s.op, s.phase.part, e)
            else
              Perform(w.world.committed, s.op) == Engine.Step(Onward(w, i).committed, reply) <==>
                !Overtaken(w.world.committed, Cleared(s))
  {
    var s := w.world.sessions[i];
    if Barred(s) {
      BarredEnds(w.world.committed, w.shut, s);
    } else {
      MoveCleared(w, i);
      AnswerIsAtomic(AllCleared(w.world), i);
      ClearedReplace(w.world, i, Take(w.world.committed, w.shut, s));
    }
  }
}

/** All sessions together. Whatever the interleaving, with requests arriving and transactions lost
    at any step, what is committed is what some sequence of whole operations commits. */
module Interleaving {
  import opened Ledger
  import opened Engine
  import opened Invariants
  import opened Runs
  import opened Protocol
  import opened Sessions
  import opened Serial
  import opened Frames
  import opened Survival

  // ---------------------------------------------------------------- locks stay apart

  // every row a session holds is committed, or one it created itself
  lemma {:induction false} HeldExists(db: Db, t: Session, k: Key)
    requires SessionOk(db, t) && k in t.held
    ensures k in db.rows || k in t.created
  {
    if k !in t.created && !t.phase.Creating? {
      assert k in t.ks;
      var m :| 0 <= m < |t.ks| && t.ks[m] == k;
      assert Present(db, t, |t.ks|);
    }
  }

  lemma {:induction false} ApartSymmetric(s: Session, t: Session)
    requires Apart(s, t)
    ensures Apart(t, s)
  {
  }

  // a session that took no lock
  ghost predicate NoMore(s: Session, r: Session) {
    (forall k | k in r.held :: k in s.held) && (r.ledger ==> s.ledger) && (r.row.Some? ==> r.row == s.row)
  }

  lemma {:induction false} NoMoreApart(s: Session, r: Session, t: Session)
    requires Apart(s, t) && NoMore(s, r)
    ensures Apart(r, t)
  {
  }

  lemma {:induction false} ReadsTakeNothing(db: Db, s: Session, j: nat, q: Postings)
    requires j < |s.parts|
    ensures NoMore(s, ReadClosed(db, s)) && NoMore(s, Reread(db, s, j)) && NoMore(s, Decide(s, j))
            && NoMore(s, Date(db, s, j, q))
  {
  }

  lemma {:induction false} EntersTakeNothing(db: Db, s: Session, j: nat, r: Outcome<Applied>)
    requires j < |s.parts|
    ensures NoMore(s, Entered(db, s, j, r))
  {
  }

  lemma {:induction false} CreateApart(db: Db, s: Session, t: Session, n: nat)
    requires s.phase == Creating(n) && SessionOk(db, t) && Apart(s, t) && !WaitsFor(db, s, t)
    ensures Apart(Create(db, s, n), t)
  {
    if n < |s.ks| && s.ks[n] !in db.rows && s.ks[n] in t.held { HeldExists(db, t, s.ks[n]); }
  }

  lemma {:induction false} StartApart(db: Db, s: Session, t: Session)
    requires Apart(s, t) && s.row == None && s.held == {} && !s.ledger
    ensures Apart(Start(db, s), t)
    ensures s.op.OpRevert? && t.row != Some(s.op.id) ==> Apart(Find(db, s), t)
  {
  }

  lemma {:induction false} EntersApart(db: Db, s: Session, t: Session, j: nat, r: Outcome<Applied>)
    requires j < |s.parts| && Apart(s, t)
    ensures Apart(Entered(db, s, j, r), t)
  {
    EntersTakeNothing(db, s, j, r);
    NoMoreApart(s, Entered(db, s, j, r), t);
  }

  lemma {:induction false} LocksApart(db: Db, s: Session, t: Session)
    requires (s.phase.Locking? || s.phase.Numbering?) && Apart(s, t) && !WaitsFor(db, s, t)
    ensures Apart(Advance(db, s), t)
  {
  }

  lemma {:induction false} ReadsApart(db: Db, s: Session, t: Session)
    requires SessionOk(db, s) && (s.phase.Closing? || s.phase.Reading? || s.phase.Deciding? || s.phase.Dating?)
             && Apart(s, t)
    ensures Apart(Advance(db, s), t)
  {
    match s.phase
    case Closing =>
    case Reading(j) => ReadsTakeNothing(db, s, j, []);
    case Deciding(j) => ReadsTakeNothing(db, s, j, []);
    case Dating(j, q) => ReadsTakeNothing(db, s, j, q);
  }

  // a step acquires at most the one lock it would have waited for
  lemma {:induction false} AdvanceHolds(db: Db, s: Session, t: Session)
    requires SessionOk(db, s) && SessionOk(db, t) && Apart(s, t) && !WaitsFor(db, s, t)
    ensures Apart(Advance(db, s), t)
  {
    match s.phase
    case Started => StartApart(db, s, t);
    case Finding => StartApart(db, s, t);
    case Creating(n) => CreateApart(db, s, t, n);
    case Locking(_) => LocksApart(db, s, t);
    case Numbering(_, _, _) => LocksApart(db, s, t);
    case Writing(j, q, e) => EntersApart(db, s, t, j, Written(s, j, q, e));
    case Publishing =>
    case Answered(_) =>
    case Gone =>
    case _ => ReadsApart(db, s, t);
  }

  // ---------------------------------------------------------------- the system

  lemma {:induction false} OthersApart(sessions: seq<Session>, i: nat, r: Session)
    requires i < |sessions| && forall j | 0 <= j < |sessions| :: ApartFrom(sessions, j)
    requires forall j | 0 <= j < |sessions| && j != i :: Apart(r, sessions[j])
    ensures var s := sessions[i := r]; forall j | 0 <= j < |s| :: ApartFrom(s, j)
  {
    var s := sessions[i := r];
    forall j | 0 <= j < |s| ensures ApartFrom(s, j) {
      forall x | 0 <= x < |s| && x != j ensures Apart(s[j], s[x]) {
        assert ApartFrom(sessions, j);
        if x == i { ApartSymmetric(r, s[j]); }
      }
    }
  }

  lemma {:induction false} PublishFrame(db: Db, s: Session)
    requires Inv(db) && s.phase.Publishing? && SessionOk(db, s)
    ensures Inv(s.work) && FrameOf(db, s.work, s.held, Undone(s.op))
  {
    assert s.parts != [];
    RunPartsFrame(db, s, |s.parts|);
    PartKeysSorted(s);
    assert s.ks[..|s.ks|] == s.ks;
    FrameWidens(db, s.work, PartKeys(s.parts), s.held, Undone(s.op));
  }

  lemma {:induction false} PublishSpares(db: Db, s: Session, t: Session)
    requires Inv(db) && s.phase.Publishing? && SessionOk(db, s) && SessionOk(db, t) && Apart(s, t)
    ensures SessionOk(s.work, t)
  {
    PublishFrame(db, s);
    SessionSurvives(db, s.work, s.held, Undone(s.op), t);
  }

  lemma {:induction false} MoveApart(w: World, i: nat)
    requires Good(w) && i < |w.sessions| && Enabled(w, i)
    ensures var ss := Proceed(w, i).sessions; forall j | 0 <= j < |ss| :: ApartFrom(ss, j)
  {
    var s := w.sessions[i];
    forall j | 0 <= j < |w.sessions| && j != i ensures Apart(Advance(w.committed, s), w.sessions[j]) {
      assert ApartFrom(w.sessions, i);
      AdvanceHolds(w.committed, s, w.sessions[j]);
    }
    OthersApart(w.sessions, i, Advance(w.committed, s));
  }

  lemma {:induction false} MoveSessions(w: World, i: nat, j: nat)
    requires Good(w) && i < |w.sessions| && Enabled(w, i) && j < |w.sessions|
    ensures SessionOk(Proceed(w, i).committed, Proceed(w, i).sessions[j])
  {
    var s, t := w.sessions[i], w.sessions[j];
    if j == i {
      AdvanceOk(w.committed, s);
    } else if Publishes(s) {
      assert ApartFrom(w.sessions, i);
      PublishSpares(w.committed, s, t);
    }
  }

  lemma {:induction false} MoveGood(w: World, i: nat)
    requires Good(w) && i < |w.sessions| && Enabled(w, i)
    ensures Good(Proceed(w, i))
  {
    MoveApart(w, i);
    forall j | 0 <= j < |w.sessions| ensures SessionOk(Proceed(w, i).committed, Proceed(w, i).sessions[j]) {
      MoveSessions(w, i, j);
    }
    if Publishes(w.sessions[i]) { PublishFrame(w.committed, w.sessions[i]); }
  }

  // answered or gone, a session that has ended is in nobody's way
  lemma {:induction false} EndGood(w: World, i: nat, phase: Phase)
    requires Good(w) && i < |w.sessions| && (phase.Answered? || phase.Gone?)
    ensures Good(w.(sessions := w.sessions[i := Ended(w.sessions[i], phase)]))
  {
    var r := Ended(w.sessions[i], phase);
    assert ApartFrom(w.sessions, i);
    OthersApart(w.sessions, i, r);
  }

  lemma {:induction false} ArriveGood(w: World, op: Op)
    requires Good(w) && Writes(op)
    ensures Good(Arrive(w, op))
  {
    var r := Arrive(w, op);
    forall j | 0 <= j < |r.sessions| ensures ApartFrom(r.sessions, j) {
      assert j < |w.sessions| ==> ApartFrom(w.sessions, j);
    }
  }

  lemma {:induction false} InterjectGood(w: World, op: Op)
    requires Good(w) && Possible(w, Interjected(op))
    ensures Good(Interject(w, op))
  {
    var r := Interject(w, op);
    StepKeepsInv(w.committed, op);
    forall i | 0 <= i < |r.sessions| ensures SessionOk(r.committed, r.sessions[i]) {
      BriefSpares(w.committed, op, w.sessions[i]);
    }
    forall i | 0 <= i < |r.sessions| ensures ApartFrom(r.sessions, i) {
      assert ApartFrom(w.sessions, i);
      forall j | 0 <= j < |r.sessions| && j != i ensures Apart(r.sessions[i], r.sessions[j]) {
        assert Apart(w.sessions[i], w.sessions[j]);
      }
    }
  }

  lemma {:induction false} HappenGood(w: World, e: Event)
    requires Good(w) && Possible(w, e)
    ensures Good(Happen(w, e))
  {
    match e
    case Moved(i) => MoveGood(w, i);
    case Abandoned(i) => EndGood(w, i, Gone);
    case Arrived(op) => ArriveGood(w, op);
    case Interjected(op) => InterjectGood(w, op);
  }

  // ---------------------------------------------------------------- every interleaving is a sequence

  // a sequence of events, those that cannot happen where they stand left out
  ghost function Play(w: World, events: seq<Event>): World {
    if events == [] then w
    else
      var p := Play(w, events[..|events| - 1]);
      var e := events[|events| - 1];
      if Possible(p, e) then Happen(p, e) else p
  }

  function Opened(start: Db): World { World(start, [], []) }

  // what the operations published since some world amount to
  function Since(w: World, r: World): seq<Op>
    requires |w.history| <= |r.history|
  {
    r.history[|w.history|..]
  }

  // what a history is made of
  predicate Plays(op: Op) { Writes(op) || (Brief(op) && Sensible(op)) }

  // r is w after more operations took effect, one after another
  ghost predicate Follows(w: World, r: World) {
    && w.history <= r.history && r.committed == Run(w.committed, Since(w, r))
    && forall op | op in Since(w, r) :: Plays(op)
  }

  lemma {:induction false} RunSnoc(start: Db, ops: seq<Op>, op: Op)
    ensures Run(start, ops + [op]) == Perform(Run(start, ops), op).db
  {
    assert (ops + [op])[..|ops|] == ops;
  }

  lemma {:induction false} FollowsSnoc(w: World, p: World, r: World, op: Op)
    requires Follows(w, p) && Plays(op) && r.history == p.history + [op] && r.committed == Perform(p.committed, op).db
    ensures Follows(w, r)
  {
    RunSnoc(w.committed, Since(w, p), op);
    assert Since(w, r) == Since(w, p) + [op];
  }

  lemma {:induction false} PublishFollows(w: World, p: World, i: nat)
    requires Good(p) && i < |p.sessions| && Publishes(p.sessions[i]) && Follows(w, p)
    ensures Follows(w, Proceed(p, i))
  {
    PublishIsAtomic(p.committed, p.sessions[i]);
    FollowsSnoc(w, p, Proceed(p, i), p.sessions[i].op);
  }

  lemma {:induction false} StillFollows(w: World, p: World, r: World)
    requires Follows(w, p) && r.history == p.history && r.committed == p.committed
    ensures Follows(w, r)
  {
  }

  lemma {:induction false} HappenFollows(w: World, p: World, e: Event)
    requires Good(p) && Possible(p, e) && Follows(w, p)
    ensures Follows(w, Happen(p, e))
  {
    if e.Moved? && Publishes(p.sessions[e.session]) {
      PublishFollows(w, p, e.session);
    } else if e.Interjected? {
      FollowsSnoc(w, p, Interject(p, e.op), e.op);
    } else {
      StillFollows(w, p, Happen(p, e));
    }
  }

  lemma {:induction false} PlayFollows(w: World, events: seq<Event>)
    requires Good(w)
    ensures Good(Play(w, events)) && Follows(w, Play(w, events))
  {
    if events != [] {
      var init, e := events[..|events| - 1], events[|events| - 1];
      PlayFollows(w, init);
      var p := Play(w, init);
      if Possible(p, e) {
        HappenGood(p, e);
        HappenFollows(w, p, e);
      }
    }
  }

  lemma {:induction false} OpenedGood(start: Db)
    requires Inv(start)
    ensures Good(Opened(start))
  {
  }

  /** Serialisability. After any interleaving of the steps of any number of commits, batches and
      reversals, arriving, retried and lost at any point, with policies, transaction metadata and
      recoveries between them, what is committed is exactly what the operations that took effect commit
      one after another, in the order they did. */
  lemma {:induction false} Serialisable(start: Db, events: seq<Event>)
    requires Inv(start)
    ensures var w := Play(Opened(start), events);
            w.committed == Run(start, w.history) && forall op | op in w.history :: Plays(op)
  {
    OpenedGood(start);
    PlayFollows(Opened(start), events);
    var w := Play(Opened(start), events);
    assert Since(Opened(start), w) == w.history;
  }

  /** So every state an interleaving commits is one whole operations reach, with everything proved
      of those. */
  lemma {:induction false} InterleavedIsReachable(events: seq<Event>)
    ensures Reachable(Play(Opened(EMPTY), events).committed)
  {
    EmptyInv();
    Serialisable(EMPTY, events);
    var h := Play(Opened(EMPTY), events).history;
    assert forall op | op in h :: Sensible(op);
  }
}

/** Every session ends. A step of its own brings a session strictly closer to its answer and nothing
    another does takes it further away, so whatever order they step in they all finish. */
module Progress {
  import opened Ledger
  import opened Engine
  import opened Runs
  import opened Protocol
  import opened Sessions
  import opened Interleaving
  import opened Deadlock

  // 2 before it has looked its request up, 1 before it has found what to reverse, 0 once it has planned
  function Stage(s: Session): nat { if s.phase.Started? then 2 else if s.phase.Finding? then 1 else 0 }

  // its own steps still to come once it has planned: two passes over its rows, five steps a part, the end
  function Left(s: Session): int {
    var parts, ks := |s.parts|, |s.ks|;
    match s.phase
    case Creating(n) => (ks - n + 1) + (ks + 1) + 1 + 5 * parts + 1
    case Locking(n) => (ks - n + 1) + 1 + 5 * parts + 1
    case Closing => 1 + 5 * parts + 1
    case Reading(j) => 5 * (parts - j) + 1
    case Deciding(j) => 5 * (parts - j)
    case Dating(j, _) => 5 * (parts - j) - 1
    case Numbering(j, _, _) => 5 * (parts - j) - 2
    case Writing(j, _, _) => 5 * (parts - j) - 3
    case Publishing => 1
    case _ => 0
  }

  // where its phase says it is lies within its plan
  predicate Placed(s: Session) {
    match s.phase
    case Creating(n) => n <= |s.ks|
    case Locking(n) => n <= |s.ks|
    case Reading(j) => j < |s.parts|
    case Deciding(j) => j < |s.parts|
    case Dating(j, _) => j < |s.parts|
    case Numbering(j, _, _) => j < |s.parts|
    case Writing(j, _, _) => j < |s.parts|
    case Finding => s.op.OpRevert?
    case _ => true
  }

  lemma {:induction false} SessionPlaced(db: Db, s: Session)
    requires SessionOk(db, s)
    ensures Placed(s)
  {
  }

  lemma {:induction false} LeftNonnegative(s: Session)
    requires Placed(s)
    ensures Left(s) >= 0 && (Active(s) && Stage(s) == 0 ==> Left(s) > 0)
  {
  }

  // the same request, closer to its answer
  predicate Closer(r: Session, s: Session) {
    && r.op == s.op && !r.phase.Gone?
    && (Stage(r) < Stage(s) || (Stage(r) == Stage(s) == 0 && Left(r) < Left(s)))
  }

  lemma {:induction false} CreateCloser(db: Db, s: Session, n: nat)
    requires s.phase == Creating(n) && Placed(s)
    ensures Closer(Create(db, s, n), s)
  {
  }

  lemma {:induction false} LockCloser(db: Db, s: Session, n: nat)
    requires s.phase == Locking(n) && Placed(s)
    ensures Closer(Lock(db, s, n), s)
  {
  }

  lemma {:induction false} DecideCloser(s: Session, j: nat)
    requires s.phase == Deciding(j) && Placed(s)
    ensures Closer(Decide(s, j), s)
  {
  }

  lemma {:induction false} EnteredCloser(db: Db, s: Session, j: nat, q: Postings, e: map<Key, Volumes>,
                                         r: Outcome<Applied>)
    requires s.phase == Writing(j, q, e) && j < |s.parts|
    ensures Closer(Entered(db, s, j, r), s)
  {
  }

  lemma {:induction false} PlanningCloser(db: Db, s: Session)
    requires s.phase.Started? || (s.phase.Finding? && s.op.OpRevert?)
    ensures Closer(Advance(db, s), s)
  {
  }

  lemma {:induction false} ReadingCloser(db: Db, s: Session)
    requires Placed(s) && !s.phase.Deciding? && (s.phase.Closing? || Decides(s) || s.phase.Publishing?)
    ensures Closer(Advance(db, s), s)
  {
  }

  /** A session's own step brings it strictly closer. */
  lemma {:induction false} StepsCloser(db: Db, s: Session)
    requires Placed(s) && Active(s)
    ensures Closer(Advance(db, s), s)
  {
    match s.phase
    case Started => PlanningCloser(db, s);
    case Finding => PlanningCloser(db, s);
    case Creating(n) => CreateCloser(db, s, n);
    case Locking(n) => LockCloser(db, s, n);
    case Deciding(j) => DecideCloser(s, j);
    case Writing(j, q, e) => EnteredCloser(db, s, j, q, e, Written(s, j, q, e));
    case _ => ReadingCloser(db, s);
  }

  // ---------------------------------------------------------------- a bound on a session's own steps

  // how many of the events are steps the session took
  ghost function OwnSteps(w: World, events: seq<Event>, i: nat): nat {
    if events == [] then 0
    else
      var init, e := events[..|events| - 1], events[|events| - 1];
      OwnSteps(w, init, i) + if e == Moved(i) && Possible(Play(w, init), e) then 1 else 0
  }

  lemma {:induction false} PlacedLeft(w: World, i: nat)
    requires Good(w) && i < |w.sessions|
    ensures Placed(w.sessions[i]) && Left(w.sessions[i]) >= 0
  {
    SessionPlaced(w.committed, w.sessions[i]);
    LeftNonnegative(w.sessions[i]);
  }

  lemma {:induction false} SeeingSame(s: Session, op: Op)
    ensures Stage(Seeing(s, op)) == Stage(s) && Left(Seeing(s, op)) == Left(s)
  {
  }

  lemma {:induction false} HappenLeaves(w: World, e: Event, i: nat)
    requires Possible(w, e) && i < |w.sessions| && Placed(w.sessions[i])
    ensures i < |Happen(w, e).sessions|
    ensures var s, r := w.sessions[i], Happen(w, e).sessions[i];
            if e == Moved(i) then Closer(r, s) else Stage(r) <= Stage(s) && (Stage(s) == 0 ==> Left(r) <= Left(s))
  {
    LeftNonnegative(w.sessions[i]);
    if e == Moved(i) { StepsCloser(w.committed, w.sessions[i]); }
    if e.Interjected? { SeeingSame(w.sessions[i], e.op); }
  }

  /** Once it has planned, a session takes no more steps of its own than it has left, whatever others do
      in between. */
  lemma {:induction false} OwnStepsBounded(w: World, events: seq<Event>, i: nat)
    requires Good(w) && i < |w.sessions| && Stage(w.sessions[i]) == 0
    ensures var r := Play(w, events);
            i < |r.sessions| && Stage(r.sessions[i]) == 0
              && OwnSteps(w, events, i) + Left(r.sessions[i]) <= Left(w.sessions[i])
    ensures OwnSteps(w, events, i) <= Left(w.sessions[i])
  {
    if events == [] {
      PlacedLeft(w, i);
    } else {
      var init, e := events[..|events| - 1], events[|events| - 1];
      OwnStepsBounded(w, init, i);
      PlayFollows(w, init);
      var p := Play(w, init);
      if Possible(p, e) {
        HappenGood(p, e);
        PlacedLeft(p, i);
        HappenLeaves(p, e, i);
        PlacedLeft(Happen(p, e), i);
      }
    }
  }

  // ---------------------------------------------------------------- everyone finishes

  ghost function Stages(ss: seq<Session>): nat { if ss == [] then 0 else Stages(ss[..|ss| - 1]) + Stage(ss[|ss| - 1]) }

  ghost function Lefts(ss: seq<Session>): int { if ss == [] then 0 else Lefts(ss[..|ss| - 1]) + Left(ss[|ss| - 1]) }

  lemma {:induction false} SumsReplace(ss: seq<Session>, i: nat, r: Session)
    requires i < |ss|
    ensures Stages(ss[i := r]) == Stages(ss) - Stage(ss[i]) + Stage(r)
    ensures Lefts(ss[i := r]) == Lefts(ss) - Left(ss[i]) + Left(r)
  {
    var l := |ss| - 1;
    if i == l {
      assert ss[i := r][..l] == ss[..l];
    } else {
      assert ss[i := r][..l] == ss[..l][i := r];
      SumsReplace(ss[..l], i, r);
    }
  }

  lemma {:induction false} LeftsNonnegative(db: Db, ss: seq<Session>)
    requires forall i | 0 <= i < |ss| :: SessionOk(db, ss[i])
    ensures Lefts(ss) >= 0
  {
    if ss != [] {
      SessionPlaced(db, ss[|ss| - 1]);
      LeftNonnegative(ss[|ss| - 1]);
      LeftsNonnegative(db, ss[..|ss| - 1]);
    }
  }

  lemma {:induction false} PlayConcat(w: World, a: seq<Event>, b: seq<Event>)
    ensures Play(w, a + b) == Play(Play(w, a), b)
  {
    if b == [] {
      assert a + b == a;
    } else {
      assert (a + b)[..|a + b| - 1] == a + b[..|b| - 1];
      PlayConcat(w, a, b[..|b| - 1]);
    }
  }

  lemma {:induction false} PlayOne(w: World, e: Event)
    requires Possible(w, e)
    ensures Play(w, [e]) == Happen(w, e)
  {
    assert [e][..0] == [];
    assert Play(w, []) == w;
  }

  predicate AllAnswered(w: World) { forall i | 0 <= i < |w.sessions| :: !Active(w.sessions[i]) }

  lemma {:induction false} MoveDescends(w: World, i: nat)
    requires Good(w) && i < |w.sessions| && Enabled(w, i)
    ensures var r := Proceed(w, i).sessions;
            && 0 <= Lefts(w.sessions)
            && (Stages(r) < Stages(w.sessions) || (Stages(r) == Stages(w.sessions) && Lefts(r) < Lefts(w.sessions)))
  {
    LeftsNonnegative(w.committed, w.sessions);
    SessionPlaced(w.committed, w.sessions[i]);
    StepsCloser(w.committed, w.sessions[i]);
    SumsReplace(w.sessions, i, Advance(w.committed, w.sessions[i]));
  }

  /** Wherever a run of steps cannot be continued every session has been answered or is gone. */
  lemma {:induction false} StuckMeansDone(w: World)
    requires Good(w)
    ensures AllAnswered(w) <==> forall i: nat | i < |w.sessions| :: !Enabled(w, i)
  {
    if !AllAnswered(w) { SomeoneCanStep(w); }
  }

  /** From anywhere, stepping whoever can step brings every session to its end, and steps that count down
      this way cannot go on for ever. */
  lemma {:induction false} EveryoneFinishes(w: World) returns (events: seq<Event>)
    requires Good(w)
    ensures (forall e | e in events :: e.Moved?) && AllAnswered(Play(w, events))
    decreases Stages(w.sessions), Lefts(w.sessions)
  {
    if AllAnswered(w) {
      events := [];
    } else {
      SomeoneCanStep(w);
      var i: nat :| i < |w.sessions| && Enabled(w, i);
      MoveDescends(w, i);
      MoveGood(w, i);
      var rest := EveryoneFinishes(Proceed(w, i));
      PlayOne(w, Moved(i));
      PlayConcat(w, [Moved(i)], rest);
      events := [Moved(i)] + rest;
    }
  }
}

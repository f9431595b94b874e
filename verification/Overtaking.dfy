/** The same run step by step: the close asks while the conversion holds the row, waits for it, finds the row
    empty, and closes the account on the five euros. */
module Overtaking {
  import opened Ledger
  import opened Engine
  import opened Invariants
  import opened Runs
  import opened Funding
  import opened Protocol
  import opened Sessions
  import opened Serial
  import opened Frames
  import opened Interleaving
  import opened Answers
  import opened Progress
  import opened Races
  import opened Closure
  import opened Stranding
  import opened Exchange

  // ---------------------------------------------------------------- steps of a course

  lemma {:induction false} CourseConcat(w: System, a: seq<Happening>, b: seq<Happening>)
    ensures Course(w, a + b) == Course(Course(w, a), b)
  {
    if b == [] {
      assert a + b == a;
    } else {
      assert (a + b)[..|a + b| - 1] == a + b[..|b| - 1];
      CourseConcat(w, a, b[..|b| - 1]);
    }
  }

  lemma {:induction false} CourseThen(w: System, hs: seq<Happening>, h: Happening)
    requires May(Course(w, hs), h)
    ensures Course(w, hs + [h]) == Occur(Course(w, hs), h)
  {
    assert (hs + [h])[..|hs|] == hs;
  }

  // ---------------------------------------------------------------- while nothing is closed

  function Plain(events: seq<Event>): seq<Happening> {
    seq(|events|, i requires 0 <= i < |events| => Ordinary(events[i]))
  }

  lemma {:induction false} ClearedNotBarred(s: Session)
    requires Cleared(s) == s
    ensures !Barred(s)
  {
    if s.phase.Deciding? && s.phase.part < |s.parts| {
      var p := s.parts[s.phase.part].item.postings;
      assert Unflag(s.seen) == s.seen;
      ResolveErrors(p, s.seen);
      if Resolve(p, s.seen).Done? {
        UnflagChecks(s.seen, Updates(Resolve(p, s.seen).value));
        CheckErrors(s.seen, Updates(Resolve(p, s.seen).value));
      }
    }
  }

  lemma {:induction false} ClearedTwice(s: Session)
    ensures Cleared(Cleared(s)) == Cleared(s)
  {
  }

  lemma {:induction false} PlainLook(db: Db, s: Session)
    ensures Take(db, map[], s) ==
            if s.phase.Closing? || s.phase.Reading? then Cleared(Advance(db, s)) else Advance(db, s)
  {
    var seen := Advance(db, s).seen;
    assert Flag(seen, map[]) == Unflag(seen);
  }

  // with nothing closed a look sees nothing closed
  lemma {:induction false} PlainTake(db: Db, s: Session)
    requires Inv(db) && NoneClosed(db) && SessionOk(db, s) && Active(s) && Cleared(s) == s
    ensures Take(db, map[], s) == Advance(db, s) && Cleared(Take(db, map[], s)) == Take(db, map[], s)
  {
    ClearedNotBarred(s);
    StepClears(db, map[], s);
    PlainLook(db, s);
    ClearedTwice(Advance(db, s));
  }

  lemma {:induction false} PlainMove(w: World, i: nat)
    requires Good(w) && NoneClosed(w.committed) && AllCleared(w) == w && i < |w.sessions| && Enabled(w, i)
    ensures Onward(System(w, map[], []), i) == Proceed(w, i) && AllCleared(Proceed(w, i)) == Proceed(w, i)
  {
    assert Cleared(w.sessions[i]) == AllCleared(w).sessions[i];
    PlainTake(w.committed, w.sessions[i]);
    ClearedReplace(w, i, Advance(w.committed, w.sessions[i]));
  }

  lemma {:induction false} PlainStep(w: World, e: Event)
    requires Good(w) && NoneClosed(w.committed) && AllCleared(w) == w && Possible(w, e)
    ensures var s := System(w, map[], []);
            May(s, Ordinary(e)) && Occur(s, Ordinary(e)) == System(Happen(w, e), map[], [])
            && AllCleared(Happen(w, e)) == Happen(w, e)
  {
    if e.Moved? { PlainMove(w, e.session); } else { OtherCleared(w, e); }
  }

  lemma {:induction false} PlainSound(w: World)
    requires Good(w) && NoneClosed(w.committed) && AllCleared(w) == w
    ensures Sound(System(w, map[], []))
  {
  }

  // until the first close, a course is an interleaving as before
  lemma {:induction false} PlainCourse(w: World, events: seq<Event>)
    requires Good(w) && NoneClosed(w.committed) && AllCleared(w) == w
    ensures var p := Play(w, events);
            && Course(System(w, map[], []), Plain(events)) == System(p, map[], [])
            && Good(p) && NoneClosed(p.committed) && AllCleared(p) == p
  {
    if events != [] {
      var init, e := events[..|events| - 1], events[|events| - 1];
      PlainCourse(w, init);
      assert Plain(events)[..|events| - 1] == Plain(init);
      var p := Play(w, init);
      if Possible(p, e) {
        PlainSound(p);
        PlainStep(p, e);
        OrdinarySound(System(p, map[], []), e);
      }
    }
  }

  // ---------------------------------------------------------------- the conversion

  const CONVERT := OpCommit(CONVERSION, "", false, 1000)

  lemma {:induction false} ConversionCommits(db: Db, op: Op)
    requires HoldsTen(db) && op == CONVERT
    ensures Inv(db) && Perform(db, op).reply.Committed? && HoldsFive(Perform(db, op).db)
  {
    var tx, before, effective := ConversionLands(db, op.item, op.now);
    ConversionAcceptable(op.item.postings);
    CommitAlone(db, op.item, op.key, op.dryRun, op.now);
    LandedHoldsFive(db, tx, before, effective);
  }

  lemma {:induction false} TenIsNotFive(db: Db)
    requires HoldsTen(db)
    ensures !HoldsFive(db)
  {
    assert RowVolumes(db.rows, EUROS).Balance() == 0;
  }

  // about to answer, it is about to publish
  lemma {:induction false} ConversionPublishes(db: Db, s: Session, op: Op)
    requires HoldsTen(db) && op == CONVERT && SessionOk(db, s) && Active(s) && s.op == op
             && Advance(db, s).phase.Answered?
    ensures s.phase.Publishing? && HoldsFive(s.work)
  {
    ConversionCommits(db, op);
    if s.phase.Publishing? {
      PublishIsAtomic(db, s);
    } else {
      AdvanceAnswers(db, s);
      TenIsNotFive(db);
      assert false;
    }
  }

  lemma {:induction false} NothingClosed(db: Db)
    requires Unrestricted(db)
    ensures NoneClosed(db)
  {
  }

  lemma {:induction false} ArrivesAlone(db: Db, op: Op)
    requires Writes(op)
    ensures var w := Arrive(Opened(db), op);
            Alone(w, 0) && Active(w.sessions[0]) && Play(Opened(db), [Arrived(op)]) == w
  {
    PlayOne(Opened(db), Arrived(op));
  }

  // by its own steps a request gets to its answer
  lemma {:induction false} UpToAnswering(db: Db, op: Op) returns (events: seq<Event>, p: World)
    requires Writes(op)
    ensures p == Play(Opened(db), events) && p.committed == db && |p.sessions| == 1 && Alone(p, 0)
    ensures p.sessions[0].op == op && Active(p.sessions[0]) && Advance(db, p.sessions[0]).phase.Answered?
  {
    var w := Arrive(Opened(db), op);
    ArrivesAlone(db, op);
    var more := RunAlone(w, 0);
    p := Play(w, more);
    PlayConcat(Opened(db), [Arrived(op)], more);
    events := [Arrived(op)] + more;
  }

  lemma {:induction false} UpToPublishing(db: Db, op: Op) returns (events: seq<Event>, p: World)
    requires HoldsTen(db) && op == CONVERT
    ensures p == Play(Opened(db), events) && p.committed == db && |p.sessions| == 1 && Alone(p, 0)
    ensures p.sessions[0].op == op && p.sessions[0].phase.Publishing? && HoldsFive(p.sessions[0].work)
  {
    events, p := UpToAnswering(db, op);
    ConversionPublishes(db, p.sessions[0], op);
  }

  lemma {:induction false} DollarsTouched(p: Postings)
    requires p == CONVERSION.postings
    ensures DOLLARS in Touched(p)
  {
    assert p[0] == TAKEN && TAKEN.From() == DOLLARS;
    assert p[0] in p;
  }

  lemma {:induction false} HeldToTheEnd(db: Db, s: Session, item: Item, k: Key)
    requires SessionOk(db, s) && s.phase.Publishing? && s.op.OpCommit? && s.op.item == item
             && k in Touched(item.postings)
    ensures k in s.held
  {
    assert s.parts[0].item == item;
    PartIn(s.parts, 0);
    PartKeysSorted(s);
    assert s.ks[..|s.ks|] == s.ks;
  }

  // ---------------------------------------------------------------- the close

  lemma {:induction false} OneKey(ks: seq<Key>, k: Key)
    requires Ascending(ks) && forall x :: x in ks <==> x == k
    ensures ks == [k]
  {
    assert k in ks;
    if |ks| > 1 {
      assert ks[0] in ks && ks[1] in ks && KeyBefore(ks[0], ks[1]);
      KeyTotal(k, k);
    }
  }

  lemma {:induction false} OnlyDollars(db: Db)
    requires HoldsTen(db)
    ensures SortedKeys(Owing(db, PAYEE)) == [DOLLARS]
  {
    SortedKeysAscend(Owing(db, PAYEE));
    forall k ensures k in SortedKeys(Owing(db, PAYEE)) <==> k == DOLLARS { OwesIs(db, PAYEE, k); }
    OneKey(SortedKeys(Owing(db, PAYEE)), DOLLARS);
  }

  // a close as it goes: having asked of db, and then with so many rows locked
  function Watching(db: Db, phase: CloserPhase, held: set<Key>): Closer {
    Closer(PAYEE, phase, [DOLLARS], held, false, db)
  }

  lemma {:induction false} Looks(after: Db, c: Closer, k: Key)
    requires c.phase == Waiting(0) && c.matched == [k] && c.held == {} && !c.kept && !Owes(after, c.account, k)
    ensures CloserStep(after, c) == c.(phase := Waiting(1), held := {k})
  {
  }

  lemma {:induction false} Passes(after: Db, c: Closer)
    requires |c.matched| == 1 && !c.kept
    ensures c.phase == Waiting(1) ==> CloserStep(after, c) == c.(phase := Marking)
    ensures c.phase == Marking ==> CloserStep(after, c) == c.(phase := Finished(true), held := {})
  {
  }

  lemma {:induction false} FindsNothing(db: Db, after: Db)
    requires HoldsFive(after)
    ensures CloserStep(after, Watching(db, Waiting(0), {})) == Watching(db, Waiting(1), {DOLLARS})
    ensures CloserStep(after, Watching(db, Waiting(1), {DOLLARS})) == Watching(db, Marking, {DOLLARS})
    ensures CloserStep(after, Watching(db, Marking, {DOLLARS})) == Watching(db, Finished(true), {})
  {
    OwesIs(after, PAYEE, DOLLARS);
    Looks(after, Watching(db, Waiting(0), {}), DOLLARS);
    Passes(after, Watching(db, Waiting(1), {DOLLARS}));
    Passes(after, Watching(db, Marking, {DOLLARS}));
  }

  // it asks while the conversion holds the dollars, and cannot go on
  lemma {:induction false} AsksOfDollars(p: World, db: Db)
    requires HoldsTen(db) && p.committed == db && |p.sessions| == 1 && DOLLARS in p.sessions[0].held
    ensures var w := System(p, map[], [Opening(PAYEE)]);
            && May(w, Stepped(0)) && Occur(w, Stepped(0)) == System(p, map[], [Watching(db, Waiting(0), {})])
            && !May(Occur(w, Stepped(0)), Stepped(0))
  {
    OnlyDollars(db);
  }

  // alone with a session that holds nothing, a close goes on
  lemma {:induction false} GoesOn(p: World, shut: map<Address, Db>, c: Closer)
    requires |p.sessions| == 1 && p.sessions[0].held == {} && (c.phase == Waiting(0) ==> c.held == {})
             && (c.phase.Waiting? && c.phase.next > 0 ==> c.phase.next >= |c.matched|)
    ensures var w, marked := System(p, shut, [c]), c.phase.Marking? && !c.kept;
            && May(w, Stepped(0))
            && Occur(w, Stepped(0)) ==
               System(p, if marked then shut[c.account := c.asked] else shut, [CloserStep(p.committed, c)])
  {
  }

  lemma {:induction false} CourseThree(w: System, h: Happening)
    requires May(w, h) && May(Occur(w, h), h) && May(Occur(Occur(w, h), h), h)
    ensures Course(w, [h, h, h]) == Occur(Occur(Occur(w, h), h), h)
  {
    assert Course(w, []) == w;
    CourseThen(w, [], h);
    CourseThen(w, [h], h);
    CourseThen(w, [h, h], h);
    assert [] + [h] == [h] && [h] + [h] == [h, h] && [h, h] + [h] == [h, h, h];
  }

  // once the conversion has ended nothing is in its way
  lemma {:induction false} Closes(p: World, db: Db)
    requires HoldsFive(p.committed) && |p.sessions| == 1 && p.sessions[0].held == {}
    ensures Course(System(p, map[], [Watching(db, Waiting(0), {})]), [Stepped(0), Stepped(0), Stepped(0)]) ==
            System(p, map[PAYEE := db], [Watching(db, Finished(true), {})])
  {
    FindsNothing(db, p.committed);
    GoesOn(p, map[], Watching(db, Waiting(0), {}));
    GoesOn(p, map[], Watching(db, Waiting(1), {DOLLARS}));
    GoesOn(p, map[], Watching(db, Marking, {DOLLARS}));
    CourseThree(System(p, map[], [Watching(db, Waiting(0), {})]), Stepped(0));
  }

  lemma {:induction false} Publication(p: World, c: Closer)
    requires Alone(p, 0) && |p.sessions| == 1 && p.sessions[0].phase.Publishing? && !DryRun(p.sessions[0].op)
             && c.held == {}
    ensures var w := System(p, map[], [c]);
            && May(w, Ordinary(Moved(0)))
            && var r := Occur(w, Ordinary(Moved(0)));
            && r == System(r.world, map[], [c]) && r.world.committed == p.sessions[0].work && |r.world.sessions| == 1
            && r.world.sessions[0].held == {} && r.world.sessions[0].phase.Answered?
  {
    AloneEnabled(p, 0);
    PublishEnds(p.committed, map[], p.sessions[0]);
  }

  // the course up to where the conversion is about to be published
  lemma {:induction false} UpToPublication(db: Db, op: Op) returns (hs: seq<Happening>, p: World)
    requires HoldsTen(db) && op == CONVERT
    ensures Course(Begun(db), hs) == System(p, map[], []) && p.committed == db && Alone(p, 0) && |p.sessions| == 1
    ensures p.sessions[0].phase.Publishing? && p.sessions[0].op == op && HoldsFive(p.sessions[0].work)
  {
    var events;
    events, p := UpToPublishing(db, op);
    ReachableInv(db);
    NothingClosed(db);
    OpenedGood(db);
    BegunSound(db);
    PlainCourse(Opened(db), events);
    hs := Plain(events);
  }

  // and on to where the close is waiting
  lemma {:induction false} ThenAsks(w: System, hs: seq<Happening>, p: World, db: Db)
    requires Course(w, hs) == System(p, map[], []) && HoldsTen(db) && p.committed == db
             && |p.sessions| == 1 && DOLLARS in p.sessions[0].held
    ensures var r := Course(w, hs + [Asked(PAYEE)] + [Stepped(0)]);
            r == System(p, map[], [Watching(db, Waiting(0), {})]) && !May(r, Stepped(0))
  {
    CourseThen(w, hs, Asked(PAYEE));
    AsksOfDollars(p, db);
    CourseThen(w, hs + [Asked(PAYEE)], Stepped(0));
  }

  lemma {:induction false} DollarsHeld(db: Db, s: Session, item: Item)
    requires SessionOk(db, s) && s.phase.Publishing? && s.op.OpCommit? && s.op.item == item && item == CONVERSION
    ensures DOLLARS in s.held
  {
    DollarsTouched(item.postings);
    HeldToTheEnd(db, s, item, DOLLARS);
  }

  const REST := [Ordinary(Moved(0))] + [Stepped(0), Stepped(0), Stepped(0)]

  // closed, with the five euros in it
  ghost predicate ClosedOnFive(w: System) {
    && PAYEE in w.shut && Content(w.world.committed, EUROS) == 5
    && |w.closers| == 1 && w.closers[0].phase == Finished(true)
    && |w.world.sessions| == 1 && w.world.sessions[0].phase.Answered?
  }

  lemma {:induction false} ThenPublishes(w: System, p: World, db: Db) returns (r: World)
    requires w == System(p, map[], [Watching(db, Waiting(0), {})])
    requires Alone(p, 0) && |p.sessions| == 1 && p.sessions[0].phase.Publishing? && !DryRun(p.sessions[0].op)
    ensures Course(w, [Ordinary(Moved(0))]) == System(r, map[], [Watching(db, Waiting(0), {})])
    ensures r.committed == p.sessions[0].work && |r.sessions| == 1 && r.sessions[0].held == {}
            && r.sessions[0].phase.Answered?
  {
    Publication(p, Watching(db, Waiting(0), {}));
    assert Course(w, []) == w && [] + [Ordinary(Moved(0))] == [Ordinary(Moved(0))];
    CourseThen(w, [], Ordinary(Moved(0)));
    r := Occur(w, Ordinary(Moved(0))).world;
  }

  lemma {:induction false} ThenCloses(w: System, p: World, db: Db)
    requires w == System(p, map[], [Watching(db, Waiting(0), {})])
    requires Alone(p, 0) && |p.sessions| == 1 && p.sessions[0].phase.Publishing? && !DryRun(p.sessions[0].op)
             && HoldsFive(p.sessions[0].work)
    ensures ClosedOnFive(Course(w, REST))
  {
    var r := ThenPublishes(w, p, db);
    Closes(r, db);
    CourseConcat(w, [Ordinary(Moved(0))], [Stepped(0), Stepped(0), Stepped(0)]);
  }

  lemma {:induction false} TenOvertaken(db: Db) returns (waiting: seq<Happening>, rest: seq<Happening>)
    requires HoldsTen(db)
    ensures !May(Course(Begun(db), waiting), Stepped(0)) && ClosedOnFive(Course(Begun(db), waiting + rest))
  {
    var hs, p := UpToPublication(db, CONVERT);
    DollarsHeld(db, p.sessions[0], CONVERSION);
    ThenAsks(Begun(db), hs, p, db);
    waiting, rest := hs + [Asked(PAYEE)] + [Stepped(0)], REST;
    ThenCloses(Course(Begun(db), waiting), p, db);
    CourseConcat(Begun(db), waiting, rest);
  }

  lemma {:induction false} TenIsReached(start: Db, item: Item) returns (db: Db)
    requires start == EMPTY && item == DEPOSIT
    ensures HoldsTen(db)
  {
    DepositHolds(start, item, Stamp(item.timestamp, 1000));
    db := Commit(start, item, "", false, 1000).db;
  }

  /** It happens to a close that waits. The account holds ten dollars when the close asks, with a conversion of them
      about to be published; the close cannot go on until it is; then it finds the dollars gone, and the account
      is closed on the five euros it did not ask about. */
  lemma {:induction false} CloseIsOvertaken() returns (db: Db, waiting: seq<Happening>, rest: seq<Happening>)
    ensures HoldsTen(db) && !May(Course(Begun(db), waiting), Stepped(0))
            && ClosedOnFive(Course(Begun(db), waiting + rest))
  {
    db := TenIsReached(EMPTY, DEPOSIT);
    waiting, rest := TenOvertaken(db);
  }
}

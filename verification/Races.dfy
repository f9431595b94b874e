/** Two sessions of one keyed commit, run against each other from an empty ledger. */
module Races {
  import opened Ledger
  import opened Engine
  import opened Invariants
  import opened Runs
  import opened Funding
  import opened Protocol
  import opened Sessions
  import opened Serial
  import opened Interleaving
  import opened Answers
  import opened Progress

  // nobody else is in the way of session i
  ghost predicate Alone(w: World, i: nat) {
    && i < |w.sessions| && SessionOk(w.committed, w.sessions[i])
    && forall j | 0 <= j < |w.sessions| && j != i :: Idle(w.sessions[j])
  }

  lemma {:induction false} IdleBlocksNobody(db: Db, s: Session, t: Session)
    requires Idle(t)
    ensures !WaitsFor(db, s, t)
  {
  }

  lemma {:induction false} AloneEnabled(w: World, i: nat)
    requires Alone(w, i) && Active(w.sessions[i])
    ensures Enabled(w, i)
  {
    forall j | 0 <= j < |w.sessions| && j != i ensures !WaitsFor(w.committed, w.sessions[i], w.sessions[j]) {
      IdleBlocksNobody(w.committed, w.sessions[i], w.sessions[j]);
    }
  }

  // the same world but for the steps session i has taken
  ghost predicate Brought(w: World, p: World, i: nat) {
    && Alone(p, i) && i < |w.sessions| == |p.sessions| && p.committed == w.committed
    && (forall j | 0 <= j < |w.sessions| && j != i :: p.sessions[j] == w.sessions[j])
    && p.sessions[i].op == w.sessions[i].op && Stage(p.sessions[i]) <= Stage(w.sessions[i])
  }

  lemma {:induction false} PublishingAnswers(db: Db, s: Session)
    requires s.phase.Publishing?
    ensures Advance(db, s).phase.Answered?
  {
  }

  lemma {:induction false} StepBrings(w: World, i: nat)
    requires Alone(w, i) && Active(w.sessions[i]) && !Advance(w.committed, w.sessions[i]).phase.Answered?
    ensures Enabled(w, i) && Brought(w, Proceed(w, i), i) && Active(Proceed(w, i).sessions[i])
    ensures Closer(Proceed(w, i).sessions[i], w.sessions[i]) && Placed(w.sessions[i])
  {
    var s := w.sessions[i];
    AloneEnabled(w, i);
    AdvanceOk(w.committed, s);
    SessionPlaced(w.committed, s);
    StepsCloser(w.committed, s);
    if s.phase.Publishing? { PublishingAnswers(w.committed, s); }
  }

  /** A session nobody is in the way of gets to its answer by its own steps alone. */
  lemma {:induction false} RunAlone(w: World, i: nat) returns (events: seq<Event>)
    requires Alone(w, i) && Active(w.sessions[i])
    ensures var p := Play(w, events);
            Brought(w, p, i) && Active(p.sessions[i]) && Advance(p.committed, p.sessions[i]).phase.Answered?
    decreases Stage(w.sessions[i]), Left(w.sessions[i])
  {
    if Advance(w.committed, w.sessions[i]).phase.Answered? {
      events := [];
    } else {
      StepBrings(w, i);
      LeftNonnegative(w.sessions[i]);
      var rest := RunAlone(Proceed(w, i), i);
      PlayOne(w, Moved(i));
      PlayConcat(w, [Moved(i)], rest);
      events := [Moved(i)] + rest;
    }
  }

  // ---------------------------------------------------------------- the race

  // five units to an account, under a key and a reference
  function Deposit(now: Time): Item {
    Item([Posting(WORLD, Address("a"), Asset("USD"), Some(5), false)], now, "invoice", map[])
  }

  const KEYED := OpCommit(Deposit(1000), "key", false, 1000)

  lemma {:induction false} DepositFunds(now: Time)
    ensures Funds(Deposit(now).postings)
  {
  }

  lemma {:induction false} KeyedPlans(s: Session)
    requires s == Fresh(KEYED)
    ensures Advance(EMPTY, s) == Planned(EMPTY, s, None) && SessionOk(EMPTY, Planned(EMPTY, s, None))
            && Idle(Planned(EMPTY, s, None))
  {
    DepositFunds(1000);
    FundingWellFormed(Deposit(1000).postings);
    PlannedOk(EMPTY, s, None);
  }

  lemma {:induction false} PlayTwo(w: World, e: Event, f: Event)
    requires Possible(w, e) && Possible(Happen(w, e), f)
    ensures Play(w, [e] + [f]) == Happen(Happen(w, e), f)
  {
    PlayOne(w, e);
    PlayOne(Happen(w, e), f);
    PlayConcat(w, [e], [f]);
  }

  lemma {:induction false} BothArrive(s: Session)
    requires s == Fresh(KEYED)
    ensures Play(Opened(EMPTY), [Arrived(KEYED)] + [Arrived(KEYED)]) == World(EMPTY, [s, s], [])
  {
    PlayTwo(Opened(EMPTY), Arrived(KEYED), Arrived(KEYED));
  }

  lemma {:induction false} BothStart(s: Session, p: Session)
    requires s.phase.Started? && Idle(s) && p == Advance(EMPTY, s) && Idle(p)
    ensures Play(World(EMPTY, [s, s], []), [Moved(0)] + [Moved(1)]) == World(EMPTY, [p, p], [])
  {
    PlayTwo(World(EMPTY, [s, s], []), Moved(0), Moved(1));
  }

  // both have looked the key up and found nothing, and neither holds anything yet
  lemma {:induction false} BothPlanned() returns (events: seq<Event>, p: Session)
    ensures Play(Opened(EMPTY), events) == World(EMPTY, [p, p], [])
    ensures SessionOk(EMPTY, p) && Idle(p) && Active(p) && p.op == KEYED && Stage(p) == 0
  {
    var s := Fresh(KEYED);
    KeyedPlans(s);
    p := Planned(EMPTY, s, None);
    BothArrive(s);
    BothStart(s, p);
    PlayConcat(Opened(EMPTY), [Arrived(KEYED)] + [Arrived(KEYED)], [Moved(0)] + [Moved(1)]);
    events := [Arrived(KEYED)] + [Arrived(KEYED)] + ([Moved(0)] + [Moved(1)]);
  }

  lemma {:induction false} WinnerCommits() returns (tx: Tx)
    ensures var r := Perform(EMPTY, KEYED);
            && r.reply == Committed(tx) && r.db != EMPTY && Unrestricted(r.db) && ReferenceUsed(r.db, "invoice")
            && Found(r.db, KEYED) == Some(Committed(tx))
  {
    DepositFunds(1000);
    FundingWellFormed(Deposit(1000).postings);
    var item := Deposit(1000);
    var use := Use("key", CommitHash(item));
    FundingLands(EMPTY, item, use, 1000);
    tx := ApplyAndLog(EMPTY, item, use, 1000).value.tx;
    assert tx.id in Perform(EMPTY, KEYED).db.txs;
  }

  // the one in front answers, and commits, as if alone, and the one behind is as current as before
  lemma {:induction false} FrontWins(s: Session, t: Session, tx: Tx)
    requires SessionOk(EMPTY, s) && Active(s) && s.op == KEYED && Advance(EMPTY, s).phase.Answered?
    requires SessionOk(EMPTY, t) && Idle(t)
    requires Perform(EMPTY, KEYED).reply == Committed(tx) && Perform(EMPTY, KEYED).db != EMPTY
    ensures Publishes(s) && s.work == Perform(EMPTY, KEYED).db && Advance(EMPTY, s).phase == Answered(Committed(tx))
    ensures SessionOk(s.work, t)
  {
    if s.phase.Publishing? {
      PublishIsAtomic(EMPTY, s);
      EmptyInv();
      PublishSpares(EMPTY, s, t);
    } else {
      AdvanceAnswers(EMPTY, s);
      assert false;
    }
  }

  // the one behind, on what the winner committed
  lemma {:induction false} BackLoses(db: Db, s: Session, tx: Tx)
    requires SessionOk(db, s) && Active(s) && s.op == KEYED && !s.phase.Started? && Advance(db, s).phase.Answered?
    requires Unrestricted(db) && ReferenceUsed(db, "invoice") && Found(db, KEYED) == Some(Committed(tx))
    ensures Advance(db, s).phase == Answered(Rejected(DuplicateReference("invoice")))
            && Perform(db, KEYED).reply == Committed(tx)
  {
    DepositFunds(1000);
    FundingApplies(db, Deposit(1000), 1000);
    FundingWellFormed(Deposit(1000).postings);
    LoserAnswered(db, s);
    FoundIsAtomic(db, KEYED);
  }

  // one has won, and the other has only planned
  lemma {:induction false} Won() returns (events: seq<Event>, tx: Tx, w: World)
    ensures w == Play(Opened(EMPTY), events) && |w.sessions| == 2 && w.sessions[0].phase == Answered(Committed(tx))
    ensures Alone(w, 1) && Active(w.sessions[1]) && w.sessions[1].op == KEYED && Stage(w.sessions[1]) == 0
    ensures w.committed == Perform(EMPTY, KEYED).db && Perform(EMPTY, KEYED).reply == Committed(tx)
  {
    tx := WinnerCommits();
    var first, back := BothPlanned();
    var w1 := World(EMPTY, [back, back], []);
    var more := RunAlone(w1, 0);
    var w2 := Play(w1, more);
    PlayConcat(Opened(EMPTY), first, more);
    FrontWins(w2.sessions[0], w2.sessions[1], tx);
    AloneEnabled(w2, 0);
    PlayOne(w2, Moved(0));
    PlayConcat(Opened(EMPTY), first + more, [Moved(0)]);
    events := first + more + [Moved(0)];
    w := Proceed(w2, 0);
  }

  /** The loser is refused for the reference the winner has just used, though on its own it would now be
      answered with the winner's transaction. */
  lemma {:induction false} LoserIsRefused() returns (events: seq<Event>, tx: Tx)
    ensures var w := Play(Opened(EMPTY), events);
            && |w.sessions| == 2 && w.sessions[0].phase == Answered(Committed(tx)) && w.sessions[1].op == KEYED
            && Enabled(w, 1)
            && Proceed(w, 1).sessions[1].phase == Answered(Rejected(DuplicateReference("invoice")))
            && Perform(w.committed, KEYED).reply == Committed(tx)
  {
    var won, t, w := Won();
    var again := WinnerCommits();
    var more := RunAlone(w, 1);
    var p := Play(w, more);
    PlayConcat(Opened(EMPTY), won, more);
    BackLoses(p.committed, p.sessions[1], t);
    AloneEnabled(p, 1);
    events, tx := won + more, t;
  }
}

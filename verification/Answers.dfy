/** What a session is answered, against what its operation is answered on its own. */
module Answers {
  import opened Ledger
  import opened Engine
  import opened Runs
  import opened Protocol
  import opened Sessions
  import opened Serial

  lemma {:induction false} FoundIsAtomic(db: Db, op: Op)
    requires Writes(op) && Unacceptable(op).None? && Found(db, op).Some?
    ensures Perform(db, op) == Step(db, Found(db, op).value)
  {
  }

  lemma {:induction false} StartAnswers(db: Db, s: Session)
    requires s.phase.Started? && SessionOk(db, s) && Start(db, s).phase.Answered?
    ensures Perform(db, s.op) == Step(db, Start(db, s).phase.reply)
  {
    if Unacceptable(s.op).None? { FoundIsAtomic(db, s.op); }
  }

  lemma {:induction false} FindAnswers(db: Db, s: Session)
    requires s.phase.Finding? && SessionOk(db, s) && Find(db, s).phase.Answered?
    ensures Perform(db, s.op) == Step(db, Find(db, s).phase.reply)
  {
  }

  lemma {:induction false} DecideRefuses(db: Db, s: Session, j: nat)
    requires s.phase == Deciding(j) && SessionOk(db, s) && Found(db, s.op).None? && Decide(s, j).phase.Answered?
    ensures Perform(db, s.op) == Step(db, Decide(s, j).phase.reply)
  {
    var e := Prepare(s.seen, s.parts[j].item.postings).error;
    assert RunPart(View(db, s), s.parts[j], Clock(s.op)) == Refused(e);
    RefusalIsAtomic(db, s, j, e);
  }

  lemma {:induction false} WriteRefuses(db: Db, s: Session, j: nat, q: Postings, e: map<Key, Volumes>)
    requires s.phase == Writing(j, q, e) && SessionOk(db, s) && Found(db, s.op).None? && Written(s, j, q, e).Refused?
    ensures Perform(db, s.op) == Step(db, RefusalOf(s.op, j, Written(s, j, q, e).error))
  {
    UndoneInView(db, s, j);
    RunPartIsSteps(s.work, s.parts[j], Clock(s.op), s.seen, q, e);
    RefusalIsAtomic(db, s, j, Written(s, j, q, e).error);
  }

  // its key in use and nothing to be found under it
  lemma {:induction false} TakenRefuses(db: Db, s: Session, j: nat, q: Postings, e: map<Key, Volumes>)
    requires s.phase == Writing(j, q, e) && SessionOk(db, s) && Found(db, s.op).None? && Written(s, j, q, e).Done?
    requires Taken(db.logs, s.parts[j].use)
    ensures Perform(db, s.op) == Step(db, RefusalOf(s.op, j, KeyTaken(KeyOf(s.op))))
  {
    StillFree(db, s, j);
    UndoneInView(db, s, j);
    RunPartIsSteps(s.work, s.parts[j], Clock(s.op), s.seen, q, e);
    PartKinds(db, s, j);
    RefusalIsAtomic(db, s, j, KeyTaken(KeyOf(s.op)));
  }

  // about to be refused for what it read or wrote
  ghost predicate Refusing(s: Session) {
    match s.phase
    case Deciding(j) => j < |s.parts| && Prepare(s.seen, s.parts[j].item.postings).Refused?
    case Writing(j, q, e) => j < |s.parts| && Written(s, j, q, e).Refused?
    case _ => false
  }

  // refused though its key has an answer: another request claimed it while this one ran
  ghost predicate Overtaken(db: Db, s: Session) { Refusing(s) && Found(db, s.op).Some? }

  lemma {:induction false} ResolveErrors(p: Postings, before: map<Key, Locked>)
    ensures Resolve(p, before).Refused? ==> Resolve(p, before).error.UnboundedSweep?
  {
    if p != [] { ResolveErrors(p[..|p| - 1], before); }
  }

  lemma {:induction false} CheckErrors(before: map<Key, Locked>, us: seq<VolumeUpdate>)
    ensures FirstClosed(before, us).Some? ==> FirstClosed(before, us).value.AccountClosed?
    ensures FirstOutOfBounds(before, us).Some? ==>
              var e := FirstOutOfBounds(before, us).value; e.InsufficientFunds? || e.UnexpectedCredit?
  {
    if us != [] { CheckErrors(before, us[1..]); }
  }

  // no decision is refused the way a lookup refuses
  lemma {:induction false} DecisionErrors(before: map<Key, Locked>, p: Postings)
    ensures Prepare(before, p).Refused? ==> !Prepare(before, p).error.IdempotencyMismatch?
  {
    ResolveErrors(p, before);
    if Resolve(p, before).Done? { CheckErrors(before, Updates(Resolve(p, before).value)); }
  }

  lemma {:induction false} FoundDiffers(db: Db, op: Op, j: nat, e: Error)
    requires Found(db, op).Some? && !e.IdempotencyMismatch?
    ensures Found(db, op).value != RefusalOf(op, j, e)
  {
  }

  // an answer is the operation's own exactly when this holds
  ghost predicate Exact(db: Db, s: Session, reply: Reply) {
    && (Perform(db, s.op) == Step(db, reply) <==> !Overtaken(db, s))
    && (Overtaken(db, s) ==> reply.Rejected?)
  }

  lemma {:induction false} OvertakenDiffers(db: Db, s: Session, j: nat, e: Error)
    requires Writes(s.op) && Unacceptable(s.op).None? && Overtaken(db, s) && !e.IdempotencyMismatch?
    ensures Exact(db, s, RefusalOf(s.op, j, e))
  {
    FoundIsAtomic(db, s.op);
    FoundDiffers(db, s.op, j, e);
  }

  lemma {:induction false} WriteAnswers(db: Db, s: Session, j: nat, q: Postings, e: map<Key, Volumes>)
    requires s.phase == Writing(j, q, e) && SessionOk(db, s) && Insert(db, s, j, q, e).phase.Answered?
    ensures Exact(db, s, Insert(db, s, j, q, e).phase.reply)
  {
    var w := Written(s, j, q, e);
    if w.Refused? {
      if Found(db, s.op).None? { WriteRefuses(db, s, j, q, e); } else { OvertakenDiffers(db, s, j, w.error); }
    } else {
      InsertAnswersTaken(db, s, j, q, e);
      if Found(db, s.op).None? { TakenRefuses(db, s, j, q, e); } else { FoundIsAtomic(db, s.op); }
    }
  }

  // a write that went through is answered only for its key
  lemma {:induction false} InsertAnswersTaken(db: Db, s: Session, j: nat, q: Postings, e: map<Key, Volumes>)
    requires s.phase == Writing(j, q, e) && SessionOk(db, s) && Written(s, j, q, e).Done?
    requires Insert(db, s, j, q, e).phase.Answered?
    ensures Taken(db.logs, s.parts[j].use)
  {
    PartKinds(db, s, j);
    if !Taken(db.logs, s.parts[j].use) {
      StillFree(db, s, j);
      InsertRuns(db, s, j, j + 1, q, e);
      EnteredMoves(db, s, j, Written(s, j, q, e).value);
    }
  }

  // the steps that only take locks or read answer nothing
  predicate Silent(s: Session) {
    TakesRows(s) || (Decides(s) && !s.phase.Deciding?)
  }

  lemma {:induction false} SilentAnswersNothing(db: Db, s: Session)
    requires Silent(s)
    ensures !Advance(db, s).phase.Answered?
  {
  }

  lemma {:induction false} DecideAnswers(db: Db, s: Session, j: nat)
    requires s.phase == Deciding(j) && SessionOk(db, s) && Decide(s, j).phase.Answered?
    ensures Exact(db, s, Decide(s, j).phase.reply)
  {
    var p := s.parts[j].item.postings;
    DecisionErrors(s.seen, p);
    if Found(db, s.op).None? { DecideRefuses(db, s, j); } else { OvertakenDiffers(db, s, j, Prepare(s.seen, p).error); }
  }

  lemma {:induction false} AdvanceAnswers(db: Db, s: Session)
    requires SessionOk(db, s) && Active(s) && !s.phase.Publishing? && Advance(db, s).phase.Answered?
    ensures Exact(db, s, Advance(db, s).phase.reply)
  {
    if Silent(s) {
      SilentAnswersNothing(db, s);
    } else {
      match s.phase
      case Started => StartAnswers(db, s);
      case Finding => FindAnswers(db, s);
      case Deciding(j) => DecideAnswers(db, s, j);
      case Writing(j, q, e) => WriteAnswers(db, s, j, q, e);
    }
  }

  /** An answer a session gives, acceptance, replay or refusal, is the one its operation gives in one
      step on what is committed at that moment, and what is committed moves as that operation moves it,
      if and only if the session is not about to be refused while its key already has an answer. */
  lemma {:induction false} AnswerIsAtomic(w: World, i: nat)
    requires Good(w) && i < |w.sessions| && Enabled(w, i) && Proceed(w, i).sessions[i].phase.Answered?
    ensures var s, reply := w.sessions[i], Proceed(w, i).sessions[i].phase.reply;
            && (Perform(w.committed, s.op) == Step(Proceed(w, i).committed, reply) <==> !Overtaken(w.committed, s))
            && (Overtaken(w.committed, s) ==> reply.Rejected?)
  {
    var s, db := w.sessions[i], w.committed;
    assert SessionOk(db, s);
    if s.phase.Publishing? { PublishIsAtomic(db, s); } else { AdvanceAnswers(db, s); }
  }

  // ---------------------------------------------------------------- the loser of a race

  lemma {:induction false} NothingRunYet(db: Db, s: Session)
    requires Ready(db, s, 0) && s.ledger
    ensures s.work == db && s.out == []
  {
    assert RunParts(db, s.parts, Clock(s.op), 0) == Done(Ran(db, []));
  }

  // a commit that has planned, its key claimed since, is still at its one part
  lemma {:induction false} LoserAt(db: Db, s: Session)
    requires SessionOk(db, s) && s.op.OpCommit? && Found(db, s.op).Some?
    ensures !s.phase.Publishing?
    ensures s.phase.Deciding? ==>
              s.phase.part == 0 && s.parts == Parts(db.txs, s.op) && Ready(db, s, 0) && Reads(db, s, 0)
                && View(db, s) == db
    ensures s.phase.Writing? ==>
              && s.phase.part == 0 && s.parts == Parts(db.txs, s.op) && s.work == db && Reads(db, s, 0)
              && Decided(s, 0, s.phase.postings) && Dated(db, s, 0, s.phase.postings, s.phase.effective)
  {
    if s.ledger && (s.phase.Deciding? || s.phase.Writing?) { NothingRunYet(db, s); }
  }

  /** A commit overtaken under its own key is answered with what the winner committed exactly when it
      would itself have gone through on top of that, and otherwise with its own refusal. */
  lemma {:induction false} LoserAnswered(db: Db, s: Session)
    requires SessionOk(db, s) && Active(s) && s.op.OpCommit? && !s.phase.Started? && Found(db, s.op).Some?
    requires Advance(db, s).phase.Answered?
    ensures var own, reply := Apply(db, s.op.item, s.op.now), Advance(db, s).phase.reply;
            reply == if own.Refused? then Rejected(own.error) else Found(db, s.op).value
  {
    LoserAt(db, s);
    if Silent(s) {
      SilentAnswersNothing(db, s);
    } else if s.phase.Writing? {
      ApplyIsSteps(db, s.op.item, s.op.now, s.seen, s.phase.postings, s.phase.effective);
      if Written(s, 0, s.phase.postings, s.phase.effective).Done? {
        InsertAnswersTaken(db, s, 0, s.phase.postings, s.phase.effective);
      }
    }
  }
}

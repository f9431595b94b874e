/** Concurrent replays of one key: whoever gets through first decides, and everyone else is told so. */
module Retries {
  import opened Engine
  import opened Runs
  import opened Permanence
  import opened Idempotency
  import opened Protocol
  import opened Sessions
  import opened Interleaving
  import opened Answers

  // a session whose next step answers a keyed commit
  ghost predicate Replies(w: World, i: nat, key: string, item: Item, reply: Reply) {
    && i < |w.sessions| && Enabled(w, i)
    && w.sessions[i].op.OpCommit? && w.sessions[i].op.key == key && w.sessions[i].op.item == item
    && Proceed(w, i).sessions[i].phase == Answered(reply)
  }

  lemma {:induction false} AnsweredUses(w: World, i: nat, key: string, item: Item, tx: Tx)
    requires Good(w) && key != "" && Replies(w, i, key, item, Committed(tx)) && !w.sessions[i].op.dryRun
    ensures Used(Proceed(w, i).committed.logs, key, CommitHash(item), tx)
  {
    AnswerIsAtomic(w, i);
    AnsweredIsUsed(w.committed, item, key, w.sessions[i].op.now);
  }

  lemma {:induction false} UsedAnswers(w: World, j: nat, key: string, item: Item, first: Item, tx: Tx, reply: Reply)
    requires Good(w) && key != "" && Replies(w, j, key, item, reply)
             && Used(w.committed.logs, key, CommitHash(first), tx)
    ensures reply.Rejected? || (reply == Committed(tx) && item == first)
  {
    AnswerIsAtomic(w, j);
  }

  /** Whatever runs in between, lost replies, lost transactions, retries and races included: once a
      keyed commit has been answered with a transaction, every later answer to that key is the same
      transaction for the same inputs, or a refusal. */
  lemma {:induction false} RetriesAgree(w: World, i: nat, key: string, item: Item, tx: Tx,
                                        events: seq<Event>, j: nat, again: Item, reply: Reply)
    requires Good(w) && key != "" && Replies(w, i, key, item, Committed(tx)) && !w.sessions[i].op.dryRun
    requires Replies(Play(Proceed(w, i), events), j, key, again, reply)
    ensures reply.Rejected? || (reply == Committed(tx) && again == item)
  {
    var p := Proceed(w, i);
    MoveGood(w, i);
    AnsweredUses(w, i, key, item, tx);
    PlayFollows(p, events);
    var r := Play(p, events);
    assert forall op | op in Since(p, r) :: Sensible(op);
    RunExtends(p.committed, Since(p, r));
    UsedForever(p.committed.logs, r.committed.logs, key, CommitHash(item), tx);
    UsedAnswers(r, j, key, again, item, tx, reply);
  }
}

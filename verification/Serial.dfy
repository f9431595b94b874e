/** Every interleaving is a sequence: a session publishes exactly what its operation does on its
    own to what is committed when it publishes, and is answered accordingly. */
module Serial {
  import opened Ledger
  import opened Engine
  import opened Runs
  import opened Batches
  import opened Protocol
  import opened Sessions

  // ---------------------------------------------------------------- parts against whole operations

  lemma {:induction false} PartIsItem(db: Db, part: Part, now: Time)
    requires part.undone.None?
    ensures RunPart(db, part, now) == ApplyAndLog(db, part.item, part.use, now)
  {
  }

  // the same outcome, but for the index a batch wraps around a refusal
  ghost predicate SameRan(p: Outcome<Ran>, b: Outcome<Ran>) {
    if b.Done? then p == b else p.Refused?
  }

  lemma {:induction false} NextAlike(db: Db, parts: seq<Part>, items: seq<Item>, key: string, now: Time, m: nat, n: nat)
    requires n == m + 1 && n <= |items| == |parts|
    requires parts[m] == Part(Tagged(items[m], key, items), BatchUse(key, items, m), None)
    requires SameRan(RunParts(db, parts, now, m), RunItems(db, items, key, now, m))
    ensures SameRan(RunParts(db, parts, now, n), RunItems(db, items, key, now, n))
  {
    RunItemsLast(db, items, key, now, m, n);
    RunPartsLast(db, parts, now, m, n);
    var r := RunItems(db, items, key, now, m);
    if r.Done? { PartIsItem(r.value.db, parts[m], now); }
  }

  lemma {:induction false} PartsAreItems(db: Db, parts: seq<Part>, items: seq<Item>, key: string, now: Time, n: nat)
    requires n <= |items| == |parts|
    requires forall i | 0 <= i < |items| ::
               parts[i] == Part(Tagged(items[i], key, items), BatchUse(key, items, i), None)
    ensures SameRan(RunParts(db, parts, now, n), RunItems(db, items, key, now, n))
  {
    if n > 0 {
      var m := n - 1;
      PartsAreItems(db, parts, items, key, now, m);
      NextAlike(db, parts, items, key, now, m, n);
    }
  }

  lemma {:induction false} BatchParts(db: Db, s: Session, j: nat)
    requires PlanOk(db, s) && s.op.OpBatch? && j <= |s.parts|
    ensures |s.parts| == |s.op.items|
    ensures SameRan(RunParts(db, s.parts, s.op.now, j), RunItems(db, s.op.items, s.op.key, s.op.now, j))
  {
    PartsAreItems(db, s.parts, s.op.items, s.op.key, s.op.now, j);
  }

  // an unclaimed operation that is not refused outright, on its own
  lemma {:induction false} CommitAlone(db: Db, item: Item, key: string, dryRun: bool, now: Time)
    requires Malformed(item.postings).None? && (key == "" || FindKey(db.logs, key).None?)
    ensures var r := ApplyAndLog(db, item, Use(key, CommitHash(item)), now);
            Commit(db, item, key, dryRun, now) ==
            if r.Refused? then Step(db, Rejected(r.error))
              else Step(if dryRun then db else r.value.db, Committed(r.value.tx))
  {
  }

  lemma {:induction false} RevertAlone(db: Db, id: nat, at: bool, now: Time)
    requires id in db.txs && db.txs[id].revertedAt.None?
    ensures var r := RunPart(db, Part(RevertItem(db.txs[id], id, at, now), None, Some(id)), now);
            Revert(db, id, at, now) ==
            if r.Refused? then Step(db, Rejected(r.error)) else Step(r.value.db, RevertedBy(id, r.value.tx))
  {
    var part := Part(RevertItem(db.txs[id], id, at, now), None, Some(id));
    var r := Apply(db, part.item, now);
    if r.Done? { assert id in r.value.db.txs; }
  }

  // a request of one part, run to its end
  lemma {:induction false} OnePart(db: Db, parts: seq<Part>, now: Time, r: Ran)
    requires |parts| == 1 && RunParts(db, parts, now, 1) == Done(r)
    ensures |r.txs| == 1 && RunPart(db, parts[0], now) == Done(Applied(r.db, r.txs[0]))
  {
    assert RunParts(db, parts, now, 0) == Done(Ran(db, []));
    RunPartsLast(db, parts, now, 0, 1);
  }

  /** What a session publishes, and how it is answered, is what its operation does in one step to
      what is committed at that moment. */
  lemma {:induction false} PublishIsAtomic(db: Db, s: Session)
    requires s.phase.Publishing? && SessionOk(db, s)
    ensures Perform(db, s.op) == Step(if DryRun(s.op) then db else s.work, ReplyOf(s.op, s.out))
  {
    match s.op
    case OpCommit(item, key, dryRun, now) =>
      OnePart(db, s.parts, now, Ran(s.work, s.out));
      PartIsItem(db, s.parts[0], now);
      CommitAlone(db, item, key, dryRun, now);
    case OpBatch(items, key, dryRun, now) =>
      BatchParts(db, s, |s.parts|);
      BatchRuns(db, items, key, dryRun, now);
    case OpRevert(id, at, now) =>
      OnePart(db, s.parts, now, Ran(s.work, s.out));
      RevertAlone(db, id, at, now);
  }

  /** What a session is refused for, at whichever part, is what its operation is refused for in one
      step, unless its key now finds an answer. */
  lemma {:induction false} RefusalIsAtomic(db: Db, s: Session, j: nat, e: Error)
    requires Ready(db, s, j) && j < |s.parts| && Found(db, s.op).None?
    requires RunPart(View(db, s), s.parts[j], Clock(s.op)) == Refused(e)
    ensures Perform(db, s.op) == Step(db, RefusalOf(s.op, j, e))
  {
    match s.op
    case OpCommit(item, key, dryRun, now) =>
      PartIsItem(View(db, s), s.parts[j], now);
      CommitAlone(db, item, key, dryRun, now);
    case OpBatch(items, key, dryRun, now) =>
      BatchParts(db, s, j);
      BatchRuns(db, items, key, dryRun, now);
      PartIsItem(View(db, s), s.parts[j], now);
      ItemsStop(db, items, key, now, j, |items|, Ran(View(db, s), if s.ledger then s.out else []));
    case OpRevert(id, at, now) =>
      RevertAlone(db, id, at, now);
  }
}

/** A batch is its items, committed one after another, all or none. */
module Batches {
  import opened Ledger
  import opened Engine
  import opened Sweeps
  import opened Invariants
  import opened Runs
  import opened Permanence
  import opened Idempotency
  import opened Funding

  lemma {:induction false} LockingReadsSame(db: Db, ks: set<Key>, touched: set<Key>)
    ensures LockRead(Locking(db, ks), touched) == LockRead(db, touched)
  {
  }

  lemma {:induction false} LockingRow(rows: map<Key, Row>, ks: set<Key>, p: Postings, k: Key)
    requires k in rows.Keys + ks + Touched(p)
    ensures ApplyDeltas(Materialised(Materialised(rows, ks), Touched(p)), p)[k] ==
            Materialised(ApplyDeltas(Materialised(rows, Touched(p)), p), ks)[k]
  {
    if k !in Touched(p) {
      UntouchedDelta(p, k);
    }
  }

  lemma {:induction false} LockingRows(rows: map<Key, Row>, ks: set<Key>, p: Postings)
    ensures ApplyDeltas(Materialised(Materialised(rows, ks), Touched(p)), p) ==
            Materialised(ApplyDeltas(Materialised(rows, Touched(p)), p), ks)
  {
    var l := ApplyDeltas(Materialised(Materialised(rows, ks), Touched(p)), p);
    var r := Materialised(ApplyDeltas(Materialised(rows, Touched(p)), p), ks);
    assert l.Keys == r.Keys == rows.Keys + ks + Touched(p);
    forall k | k in l ensures l[k] == r[k] { LockingRow(rows, ks, p, k); }
  }

  lemma {:induction false} LockingInstalls(db: Db, ks: set<Key>, tx: Tx, before: map<Key, Volumes>,
                                          effective: map<Key, Volumes>)
    ensures Installed(Locking(db, ks), tx, before, effective) == Locking(Installed(db, tx, before, effective), ks)
  {
    LockingRows(db.rows, ks, tx.postings);
  }

  ghost predicate SameWrite(l: Outcome<Applied>, r: Outcome<Applied>, ks: set<Key>) {
    if r.Refused? then l == r else l == Done(Applied(Locking(r.value.db, ks), r.value.tx))
  }

  lemma {:induction false} LockingWrites(db: Db, ks: set<Key>, item: Item, q: Postings, d: Time,
                                         before: map<Key, Volumes>, effective: map<Key, Volumes>)
    ensures SameWrite(Write(Locking(db, ks), item, q, d, before, effective), Write(db, item, q, d, before, effective),
              ks)
  {
    var tx := Tx(db.lastTx + 1, q, d, item.reference, item.metadata, PostCommit(before, q));
    LockingInstalls(db, ks, tx, before, effective);
    WriteInstalls(db, item, q, d, before, effective);
    WriteInstalls(Locking(db, ks), item, q, d, before, effective);
  }

  // taking the locks up front changes nothing an item decides or writes
  lemma {:induction false} LockingApplies(db: Db, ks: set<Key>, item: Item, now: Time)
    ensures SameWrite(Apply(Locking(db, ks), item, now), Apply(db, item, now), ks)
  {
    var touched := Touched(item.postings);
    LockingReadsSame(db, ks, touched);
    var before := LockRead(db, touched);
    var p := Prepare(before, item.postings);
    if p.Done? {
      var d := Stamp(item.timestamp, now);
      LockingWrites(db, ks, item, p.value, d, VolumesOf(before), EffectiveReads(db.moves, Touched(p.value), d));
    }
  }

  lemma {:induction false} LockingLogs(db: Db, ks: set<Key>, item: Item, use: Option<KeyUse>, now: Time)
    ensures SameWrite(ApplyAndLog(Locking(db, ks), item, use, now), ApplyAndLog(db, item, use, now), ks)
  {
    LockingApplies(db, ks, item, now);
  }

  lemma {:induction false} LockingRuns(db: Db, ks: set<Key>, items: seq<Item>, key: string, now: Time, n: nat)
    requires n <= |items|
    ensures var l, r := RunItems(Locking(db, ks), items, key, now, n), RunItems(db, items, key, now, n);
            if r.Refused? then l == r else l == Done(Ran(Locking(r.value.db, ks), r.value.txs))
  {
    if n > 0 {
      var m := n - 1;
      LockingRuns(db, ks, items, key, now, m);
      RunItemsLast(db, items, key, now, m, n);
      RunItemsLast(Locking(db, ks), items, key, now, m, n);
      var r := RunItems(db, items, key, now, m);
      if r.Done? { LockingLogs(r.value.db, ks, Tagged(items[m], key, items), BatchUse(key, items, m), now); }
    }
  }

  lemma {:induction false} RunCovers(db: Db, items: seq<Item>, key: string, now: Time, n: nat, k: Key, i: nat)
    requires i < n <= |items| && k in Touched(items[i].postings) && RunItems(db, items, key, now, n).Done?
    ensures k in RunItems(db, items, key, now, n).value.db.rows
  {
    var m := n - 1;
    RunItemsLast(db, items, key, now, m, n);
    var r := RunItems(db, items, key, now, m).value.db;
    if i != m { RunCovers(db, items, key, now, m, k, i); }
    var item, use := Tagged(items[m], key, items), BatchUse(key, items, m);
    ItemCovers(r, item, use, now, k);
  }

  lemma {:induction false} ItemCovers(db: Db, item: Item, use: Option<KeyUse>, now: Time, k: Key)
    requires ApplyAndLog(db, item, use, now).Done?
    ensures k in db.rows || k in Touched(item.postings) ==> k in ApplyAndLog(db, item, use, now).value.db.rows
  {
    PrepareGuarantees(LockRead(db, Touched(item.postings)), item.postings);
  }

  lemma {:induction false} NothingLeftToLock(db: Db, items: seq<Item>, key: string, now: Time)
    requires RunItems(db, items, key, now, |items|).Done?
    ensures var r := RunItems(db, items, key, now, |items|).value.db; Locking(r, BatchTouched(items)) == r
  {
    var ks, rows := BatchTouched(items), RunItems(db, items, key, now, |items|).value.db.rows;
    forall k | k in ks ensures k in rows {
      var i :| 0 <= i < |items| && k in Touched(items[i].postings);
      RunCovers(db, items, key, now, |items|, k, i);
    }
    assert Materialised(rows, ks) == rows;
  }

  /** Locking everything first and then running the items ends in exactly the tables, the
      transactions and the refusal that running the items from the unlocked tables does. */
  lemma {:induction false} BatchIsSequence(db: Db, items: seq<Item>, key: string, now: Time)
    ensures RunItems(Locking(db, BatchTouched(items)), items, key, now, |items|) ==
              RunItems(db, items, key, now, |items|)
  {
    LockingRuns(db, BatchTouched(items), items, key, now, |items|);
    if RunItems(db, items, key, now, |items|).Done? { NothingLeftToLock(db, items, key, now); }
  }

  // ---------------------------------------------------------------- against single commits

  // the items as single commits
  ghost function Singles(items: seq<Item>, now: Time): (r: seq<Op>)
    ensures |r| == |items|
  {
    seq(|items|, i requires 0 <= i < |items| => OpCommit(items[i], "", false, now))
  }

  // the tables after the first i single commits
  ghost function SinglesRun(db: Db, items: seq<Item>, now: Time, i: nat): Db
    requires i <= |items|
  {
    Run(db, Singles(items, now)[..i])
  }

  ghost function Single(db: Db, item: Item, now: Time): Step { Commit(db, item, "", false, now) }

  lemma {:induction false} SinglesNext(db: Db, items: seq<Item>, now: Time, m: nat, n: nat)
    requires n == m + 1 && n <= |items|
    ensures SinglesRun(db, items, now, n) == Single(SinglesRun(db, items, now, m), items[m], now).db
  {
    var ops := Singles(items, now);
    assert ops[..n][..m] == ops[..m] && ops[..n][m] == OpCommit(items[m], "", false, now);
  }

  lemma {:induction false} ItemIsCommit(db: Db, items: seq<Item>, now: Time, i: nat)
    requires i < |items| && Malformed(items[i].postings).None?
    ensures var a := ApplyAndLog(db, Tagged(items[i], "", items), BatchUse("", items, i), now);
            Single(db, items[i], now) == if a.Done? then Step(a.value.db, Committed(a.value.tx))
              else Step(db, Rejected(a.error))
  {
  }

  // the m-th item goes through, as the m-th transaction, exactly when the m-th single commit does
  ghost predicate StepsAlike(db: Db, items: seq<Item>, now: Time, m: nat, n: nat)
    requires n == m + 1 && n <= |items|
  {
    var r, s := RunItems(db, items, "", now, m), RunItems(db, items, "", now, n);
    r.Done? ==>
      if s.Done? then
        |s.value.txs| == n && s.value.txs[..m] == r.value.txs &&
        Single(r.value.db, items[m], now) == Step(s.value.db, Committed(s.value.txs[m]))
      else
        s.error.BatchItemFailed? && s.error.index == m &&
        Single(r.value.db, items[m], now) == Step(r.value.db, Rejected(s.error.error))
  }

  lemma {:induction false} StepIsCommit(db: Db, items: seq<Item>, now: Time, m: nat, n: nat)
    requires n == m + 1 && n <= |items| && Malformed(items[m].postings).None?
    ensures StepsAlike(db, items, now, m, n)
  {
    RunItemsLast(db, items, "", now, m, n);
    var r := RunItems(db, items, "", now, m);
    if r.Done? { ItemIsCommit(r.value.db, items, now, m); }
  }

  lemma {:induction false} BatchIsRun(db: Db, items: seq<Item>, now: Time, n: nat)
    requires n <= |items| && (forall i | 0 <= i < |items| :: Malformed(items[i].postings).None?)
    requires RunItems(db, items, "", now, n).Done?
    ensures SinglesRun(db, items, now, n) == RunItems(db, items, "", now, n).value.db
  {
    if n > 0 {
      var m := n - 1;
      StepIsCommit(db, items, now, m, n);
      RunItemsLast(db, items, "", now, m, n);
      BatchIsRun(db, items, now, m);
      SinglesNext(db, items, now, m, n);
    }
  }

  // what the i-th single commit is answered, the ones before it having run
  ghost function SingleReply(db: Db, items: seq<Item>, now: Time, i: nat): Reply
    requires i < |items|
  {
    Single(SinglesRun(db, items, now, i), items[i], now).reply
  }

  lemma {:induction false} RepliesMatch(db: Db, items: seq<Item>, now: Time, n: nat, i: nat)
    requires i < n <= |items| && (forall j | 0 <= j < |items| :: Malformed(items[j].postings).None?)
    requires RunItems(db, items, "", now, n).Done?
    ensures SingleReply(db, items, now, i) == Committed(RunItems(db, items, "", now, n).value.txs[i])
  {
    var m := n - 1;
    RunItemsLast(db, items, "", now, m, n);
    StepIsCommit(db, items, now, m, n);
    if i != m {
      RepliesMatch(db, items, now, m, i);
    } else {
      BatchIsRun(db, items, now, i);
    }
  }

  // the item a refused batch names: it is refused, and everything before it goes through
  ghost predicate FailsAt(db: Db, items: seq<Item>, now: Time, i: nat, e: Error) {
    && i < |items| && e.BatchItemFailed? && e.index == i
    && SingleReply(db, items, now, i) == Rejected(e.error)
    && forall j | 0 <= j < i :: SingleReply(db, items, now, j).Committed?
  }

  lemma {:induction false} RefusalIsFirst(db: Db, items: seq<Item>, now: Time, n: nat) returns (i: nat)
    requires n <= |items| && (forall j | 0 <= j < |items| :: Malformed(items[j].postings).None?)
    requires RunItems(db, items, "", now, n).Refused?
    ensures i < n && FailsAt(db, items, now, i, RunItems(db, items, "", now, n).error)
  {
    var m := n - 1;
    RunItemsLast(db, items, "", now, m, n);
    if RunItems(db, items, "", now, m).Refused? {
      i := RefusalIsFirst(db, items, now, m);
    } else {
      i := m;
      StepIsCommit(db, items, now, m, n);
      BatchIsRun(db, items, now, i);
      forall j | 0 <= j < i ensures SingleReply(db, items, now, j).Committed? { RepliesMatch(db, items, now, i, j); }
    }
  }

  /** An unkeyed batch succeeds exactly when committing its items one after another would, with the
      same transactions and the same tables. Otherwise it leaves the tables as they were and refuses
      with the first item whose commit is refused, and why. */
  lemma {:induction false} BatchEqualsCommits(db: Db, items: seq<Item>, now: Time)
    requires MalformedBatch(items).None?
    ensures var b := Batch(db, items, "", false, now);
            if forall i | 0 <= i < |items| :: SingleReply(db, items, now, i).Committed? then
              && b.db == SinglesRun(db, items, now, |items|) && b.reply.CommittedAll? && |b.reply.txs| == |items|
              && forall i | 0 <= i < |items| :: SingleReply(db, items, now, i) == Committed(b.reply.txs[i])
            else
              b.db == db && b.reply.Rejected? && exists i: nat :: FailsAt(db, items, now, i, b.reply.error)
  {
    BatchIsSequence(db, items, "", now);
    var r := RunItems(db, items, "", now, |items|);
    if r.Done? {
      BatchIsRun(db, items, now, |items|);
      forall i | 0 <= i < |items| ensures SingleReply(db, items, now, i) == Committed(r.value.txs[i]) {
        RepliesMatch(db, items, now, |items|, i);
      }
    } else {
      var i := RefusalIsFirst(db, items, now, |items|);
    }
  }

  /** A batch that finds nothing under its key runs its items, the locks taken first making no difference. */
  lemma {:induction false} BatchRuns(db: Db, items: seq<Item>, key: string, dryRun: bool, now: Time)
    requires MalformedBatch(items).None? && FoundBatch(db, key, items).None?
    ensures var r := RunItems(db, items, key, now, |items|);
            Batch(db, items, key, dryRun, now) ==
            if r.Refused? then Step(db, Rejected(r.error))
              else Step(if dryRun then db else r.value.db, CommittedAll(r.value.txs))
  {
    BatchIsSequence(db, items, key, now);
  }

  // ---------------------------------------------------------------- what a batch leaves behind

  lemma {:induction false} ItemNumbers(db: Db, item: Item, use: Option<KeyUse>, now: Time)
    requires ApplyAndLog(db, item, use, now).Done?
    ensures var a := ApplyAndLog(db, item, use, now).value;
            && a.tx.id == db.lastTx + 1 == a.db.lastTx && a.db.lastLog == db.lastLog + 1 && |a.db.logs| == |db.logs| + 1
            && a.tx.metadata == item.metadata && a.tx.id in a.db.txs
            && a.db.txs[a.tx.id] == TxRow(a.tx, item.metadata, None)
  {
  }

  // ids, transaction and log, taken in order from the next one on
  ghost predicate NumberedOn(db: Db, r: Ran) {
    var n := |r.txs|;
    && r.db.lastTx == db.lastTx + n && r.db.lastLog == db.lastLog + n && |r.db.logs| == |db.logs| + n
    && (forall i | 0 <= i < n :: r.txs[i].id == db.lastTx + 1 + i)
  }

  /** The transactions of a batch carry contiguous ids, transaction and log, starting at the next. */
  lemma {:induction false} ContiguousIds(db: Db, items: seq<Item>, key: string, now: Time, n: nat)
    requires n <= |items| && RunItems(db, items, key, now, n).Done?
    ensures NumberedOn(db, RunItems(db, items, key, now, n).value)
  {
    if n > 0 {
      var m := n - 1;
      RunItemsLast(db, items, key, now, m, n);
      ContiguousIds(db, items, key, now, m);
      NextNumber(db, RunItems(db, items, key, now, m).value, Tagged(items[m], key, items), BatchUse(key, items, m),
          now);
    }
  }

  lemma {:induction false} NextNumber(db: Db, r: Ran, item: Item, use: Option<KeyUse>, now: Time)
    requires NumberedOn(db, r) && ApplyAndLog(r.db, item, use, now).Done?
    ensures var a := ApplyAndLog(r.db, item, use, now).value; NumberedOn(db, Ran(a.db, r.txs + [a.tx]))
  {
    ItemNumbers(r.db, item, use, now);
  }

  /** Once the batch holds its locks no item needs another row, even where a sweep was resolved. */
  lemma {:induction false} NoNewRows(db: Db, items: seq<Item>, key: string, now: Time, n: nat)
    requires n <= |items| && BatchTouched(items) <= db.rows.Keys && RunItems(db, items, key, now, n).Done?
    ensures RunItems(db, items, key, now, n).value.db.rows.Keys == db.rows.Keys
  {
    if n > 0 {
      var m := n - 1;
      RunItemsLast(db, items, key, now, m, n);
      NoNewRows(db, items, key, now, m);
      var r := RunItems(db, items, key, now, m).value.db;
      var item := Tagged(items[m], key, items);
      forall k | k in Touched(item.postings) ensures k in r.rows {
        assert items[m].postings == item.postings;
        assert k in BatchTouched(items);
      }
      ItemAddsNoRow(r, item, BatchUse(key, items, m), now);
    }
  }

  lemma {:induction false} ItemAddsNoRow(db: Db, item: Item, use: Option<KeyUse>, now: Time)
    requires Touched(item.postings) <= db.rows.Keys && ApplyAndLog(db, item, use, now).Done?
    ensures ApplyAndLog(db, item, use, now).value.db.rows.Keys == db.rows.Keys
  {
    PrepareGuarantees(LockRead(db, Touched(item.postings)), item.postings);
  }

  // ---------------------------------------------------------------- replaying a batch

  lemma {:induction false} ItemAddsRow(db: Db, item: Item, use: Option<KeyUse>, now: Time)
    requires ApplyAndLog(db, item, use, now).Done?
    ensures var a := ApplyAndLog(db, item, use, now).value;
            a.tx.id == db.lastTx + 1 == a.db.lastTx && a.db.txs == db.txs[a.tx.id := TxRow(a.tx, item.metadata, None)]
  {
  }

  ghost predicate AddedAt(base: nat, txs: map<nat, TxRow>, out: seq<Tx>, hash: RequestHash, i: nat)
    requires i < |out|
  {
    var id := base + 1 + i;
    out[i].id == id && id in txs && txs[id].tx == out[i] && TaggedWith(txs[id], hash)
  }

  // the rows a batch added: its own transactions, tagged, beside what was there
  ghost predicate AddedTagged(was: map<nat, TxRow>, base: nat, txs: map<nat, TxRow>, out: seq<Tx>, hash: RequestHash) {
    && (forall id | id in txs :: id in was || base < id <= base + |out|)
    && (forall id | id in was :: id in txs && txs[id] == was[id])
    && (forall i | 0 <= i < |out| :: AddedAt(base, txs, out, hash, i))
  }

  lemma {:induction false} AddedSnoc(was: map<nat, TxRow>, base: nat, txs: map<nat, TxRow>, out: seq<Tx>,
                                     hash: RequestHash, row: TxRow)
    requires AddedTagged(was, base, txs, out, hash) && row.tx.id == base + 1 + |out| && TaggedWith(row, hash)
    requires forall id | id in was :: id <= base
    ensures AddedTagged(was, base, txs[row.tx.id := row], out + [row.tx], hash)
  {
    var txs', out' := txs[row.tx.id := row], out + [row.tx];
    forall i | 0 <= i < |out'| ensures AddedAt(base, txs', out', hash, i) {
      assert i < |out| ==> AddedAt(base, txs, out, hash, i);
    }
  }

  lemma {:induction false} NextTagged(was: map<nat, TxRow>, base: nat, r: Ran, items: seq<Item>, key: string, now: Time,
                                      n: nat)
    requires key != "" && n < |items| && AddedTagged(was, base, r.db.txs, r.txs, BatchHash(items))
             && r.db.lastTx == base + |r.txs|
    requires forall id | id in was :: id <= base
    requires ApplyAndLog(r.db, Tagged(items[n], key, items), BatchUse(key, items, n), now).Done?
    ensures var a := ApplyAndLog(r.db, Tagged(items[n], key, items), BatchUse(key, items, n), now).value;
            AddedTagged(was, base, a.db.txs, r.txs + [a.tx], BatchHash(items))
  {
    var item := Tagged(items[n], key, items);
    ItemAddsRow(r.db, item, BatchUse(key, items, n), now);
    var tx := ApplyAndLog(r.db, item, BatchUse(key, items, n), now).value.tx;
    AddedSnoc(was, base, r.db.txs, r.txs, BatchHash(items), TxRow(tx, item.metadata, None));
  }

  lemma {:induction false} BatchTags(db: Db, items: seq<Item>, key: string, now: Time, n: nat)
    requires key != "" && n <= |items| && RunItems(db, items, key, now, n).Done?
    requires forall id | id in db.txs :: id <= db.lastTx
    ensures var r := RunItems(db, items, key, now, n).value;
            AddedTagged(db.txs, db.lastTx, r.db.txs, r.txs, BatchHash(items))
  {
    if n > 0 {
      var m := n - 1;
      RunItemsLast(db, items, key, now, m, n);
      BatchTags(db, items, key, now, m);
      ContiguousIds(db, items, key, now, m);
      NextTagged(db.txs, db.lastTx, RunItems(db, items, key, now, m).value, items, key, now, m);
    }
  }

  // the batch's own transactions are stored side by side
  lemma {:induction false} AddedAreMembers(was: map<nat, TxRow>, base: nat, db: Db, out: seq<Tx>, hash: RequestHash)
    requires AddedTagged(was, base, db.txs, out, hash)
    ensures Members(db, out)
  {
    forall i | 0 <= i < |out|
      ensures out[i].id == base + 1 + i && out[i].id in db.txs && db.txs[out[i].id].tx == out[i] {
      assert AddedAt(base, db.txs, out, hash, i);
    }
  }

  lemma {:induction false} OwnOrEarlier(was: map<nat, TxRow>, base: nat, db: Db, out: seq<Tx>, hash: RequestHash)
    requires AddedTagged(was, base, db.txs, out, hash) && Members(db, out) && forall id | id in was :: id <= base
    ensures TagsAre(db, hash, out) <==> forall id | id in was :: !TaggedWith(was[id], hash)
  {
    forall i | 0 <= i < |out| ensures out[i].id == base + 1 + i { assert AddedAt(base, db.txs, out, hash, i); }
    forall id | id in db.txs ensures TaggedWith(db.txs[id], hash) <==> id !in was || TaggedWith(was[id], hash) {
      if id !in was { assert AddedAt(base, db.txs, out, hash, id - base - 1); }
    }
    forall id | id in db.txs ensures id !in was <==> exists i | 0 <= i < |out| :: out[i].id == id {
      if id !in was { assert out[id - base - 1].id == id; }
    }
  }

  // ids never exceed the counter
  lemma {:induction false} IdsWithin(db: Db)
    requires Inv(db)
    ensures forall id | id in db.txs :: id <= db.lastTx
  {
    forall id | id in db.txs ensures id <= db.lastTx { assert Numbered(db.txs, db.lastTx, id); }
  }

  // the key was used by this batch
  ghost predicate UsedBy(logs: seq<Log>, key: string, items: seq<Item>) {
    FindKey(logs, key).Some? && FindKey(logs, key).value.use.value.hash == BatchHash(items)
  }

  lemma {:induction false} UsedByForever(a: seq<Log>, b: seq<Log>, key: string, items: seq<Item>)
    requires a <= b && UsedBy(a, key, items)
    ensures UsedBy(b, key, items)
  {
    FindKeyAppend(a, b[|a|..], key);
    assert b == a + b[|a|..];
  }

  lemma {:induction false} ItemAppends(db: Db, item: Item, use: Option<KeyUse>, now: Time)
    requires ApplyAndLog(db, item, use, now).Done?
    ensures var r := ApplyAndLog(db, item, use, now).value.db.logs;
            && |r| == |db.logs| + 1 && r[..|db.logs|] == db.logs && r[|db.logs|].use == use && !Taken(db.logs, use)
  {
  }

  // the first item carries the key, and every later one leaves it there
  lemma {:induction false} FirstItemUses(db: Db, items: seq<Item>, key: string, now: Time, n: nat)
    requires key != "" && 0 < n <= |items| && RunItems(db, items, key, now, n).Done?
    ensures UsedBy(RunItems(db, items, key, now, n).value.db.logs, key, items)
  {
    var m := n - 1;
    RunItemsLast(db, items, key, now, m, n);
    var r := RunItems(db, items, key, now, m).value.db;
    ItemAppends(r, Tagged(items[m], key, items), BatchUse(key, items, m), now);
    var logs := RunItems(db, items, key, now, n).value.db.logs;
    assert logs == r.logs + [logs[|r.logs|]];
    if m == 0 {
      FindKeyAppend(r.logs, [logs[|r.logs|]], key);
    } else {
      FirstItemUses(db, items, key, now, m);
      UsedByForever(r.logs, logs, key, items);
    }
  }

  // a key in use stops the batch at its first item
  lemma {:induction false} TakenStops(db: Db, items: seq<Item>, key: string, now: Time)
    requires key != "" && FindKey(db.logs, key).Some? && items != []
    ensures var r, a := RunItems(db, items, key, now, |items|), Apply(db, Tagged(items[0], key, items), now);
            r == Refused(BatchItemFailed(0, if a.Refused? then a.error else KeyTaken(key)))
  {
    assert RunItems(db, items, key, now, 0) == Done(Ran(db, []));
    ItemsStop(db, items, key, now, 0, |items|, Ran(db, []));
  }

  lemma {:induction false} BatchAdds(db: Db, items: seq<Item>, key: string, now: Time)
    requires Inv(db) && key != "" && MalformedBatch(items).None?
             && Batch(db, items, key, false, now).reply.CommittedAll?
    ensures var b := Batch(db, items, key, false, now);
            && AddedTagged(db.txs, db.lastTx, b.db.txs, b.reply.txs, BatchHash(items)) && |b.reply.txs| == |items|
            && UsedBy(b.db.logs, key, items) && Members(b.db, b.reply.txs)
  {
    BatchRuns(db, items, key, false, now);
    IdsWithin(db);
    BatchTags(db, items, key, now, |items|);
    FirstItemUses(db, items, key, now, |items|);
    var b := Batch(db, items, key, false, now);
    AddedAreMembers(db.txs, db.lastTx, b.db, b.reply.txs, BatchHash(items));
  }

  // what a later request under the key of a batch is answered
  ghost function ReplayReply(db: Db, items: seq<Item>, again: seq<Item>, key: string, now: Time): Reply
    requires again != []
  {
    var rows, a := TaggedRows(db, BatchHash(items), db.lastTx), Apply(db, Tagged(again[0], key, again), now);
    if again != items then Rejected(IdempotencyMismatch(key))
    else if rows != [] then ReplayedAll(rows)
    else Rejected(BatchItemFailed(0, if a.Refused? then a.error else KeyTaken(key)))
  }

  lemma {:induction false} UsedIsFound(db: Db, items: seq<Item>, again: seq<Item>, key: string)
    requires key != "" && UsedBy(db.logs, key, items)
    ensures var rows := TaggedRows(db, BatchHash(items), db.lastTx);
            FoundBatch(db, key, again) ==
            if again != items then Some(Rejected(IdempotencyMismatch(key))) else if rows == [] then None
              else Some(ReplayedAll(rows))
  {
    assert BatchHash(again) == BatchHash(items) <==> again == items;
  }

  lemma {:induction false} FoundAnswers(db: Db, items: seq<Item>, key: string, dryRun: bool, now: Time, reply: Reply)
    requires MalformedBatch(items).None? && FoundBatch(db, key, items) == Some(reply)
    ensures Batch(db, items, key, dryRun, now) == Step(db, reply)
  {
  }

  lemma {:induction false} UsedAnswers(db: Db, items: seq<Item>, again: seq<Item>, key: string, dryRun: bool, now: Time)
    requires key != "" && MalformedBatch(again).None? && UsedBy(db.logs, key, items)
    ensures Batch(db, again, key, dryRun, now) == Step(db, ReplayReply(db, items, again, key, now))
  {
    UsedIsFound(db, items, again, key);
    if FoundBatch(db, key, again).Some? {
      FoundAnswers(db, again, key, dryRun, now, FoundBatch(db, key, again).value);
    } else {
      BatchRuns(db, again, key, dryRun, now);
      TakenStops(db, again, key, now);
    }
  }

  /** Exactly once for batches: whatever ran since a keyed batch was answered, a later batch under the
      key changes nothing. Other items are refused. The same items are answered with the transactions
      that carry the tag as they now stand, or refused when every tag has been deleted. */
  lemma {:induction false} BatchExactlyOnce(db: Db, items: seq<Item>, key: string, now: Time, ops: seq<Op>,
                                            again: seq<Item>, dryRun: bool, later: Time)
    requires Inv(db) && key != "" && MalformedBatch(items).None? && MalformedBatch(again).None?
    requires Batch(db, items, key, false, now).reply.CommittedAll? && forall op | op in ops :: Sensible(op)
    ensures var since := Run(Batch(db, items, key, false, now).db, ops);
            Batch(since, again, key, dryRun, later) == Step(since, ReplayReply(since, items, again, key, later))
  {
    var b := Batch(db, items, key, false, now).db;
    BatchAdds(db, items, key, now);
    BatchKeepsInv(db, items, key, false, now);
    RunExtends(b, ops);
    UsedByForever(b.logs, Run(b, ops).logs, key, items);
    UsedAnswers(Run(b, ops), items, again, key, dryRun, later);
  }

  /** Replaying right after committing answers with the batch's own transactions exactly when no earlier
      transaction carries the tag. */
  lemma {:induction false} ReplayReturnsOwn(db: Db, items: seq<Item>, key: string, now: Time, dryRun: bool, later: Time)
    requires Inv(db) && key != "" && MalformedBatch(items).None?
             && Batch(db, items, key, false, now).reply.CommittedAll?
    ensures var b := Batch(db, items, key, false, now);
            && Members(b.db, b.reply.txs)
            && (Batch(b.db, items, key, dryRun, later) == Step(b.db, ReplayedAll(RowsOf(b.db, b.reply.txs))) <==>
                forall id | id in db.txs :: !TaggedWith(db.txs[id], BatchHash(items)))
  {
    var b := Batch(db, items, key, false, now);
    BatchAdds(db, items, key, now);
    BatchKeepsInv(db, items, key, false, now);
    BatchExactlyOnce(db, items, key, now, [], items, dryRun, later);
    assert Run(b.db, []) == b.db;
    IdsWithin(db);
    OwnOrEarlier(db.txs, db.lastTx, b.db, b.reply.txs, BatchHash(items));
    BatchReplayExact(b.db, BatchHash(items), b.reply.txs);
    assert |b.reply.txs| == |items| > 0;
  }

  /** So the same items under a second key are found together with the first: the replay of the
      second batch answers with more than its own transactions. */
  lemma {:induction false} TwoKeysOneTag(db: Db, items: seq<Item>, key: string, second: string, now: Time, later: Time)
    requires Inv(db) && key != "" && second != "" && MalformedBatch(items).None?
    requires Batch(db, items, key, false, now).reply.CommittedAll?
    requires Batch(Batch(db, items, key, false, now).db, items, second, false, later).reply.CommittedAll?
    ensures var c := Batch(Batch(db, items, key, false, now).db, items, second, false, later);
            && Members(c.db, c.reply.txs)
            && Batch(c.db, items, second, false, later) != Step(c.db, ReplayedAll(RowsOf(c.db, c.reply.txs)))
  {
    var b := Batch(db, items, key, false, now);
    BatchAdds(db, items, key, now);
    BatchKeepsInv(db, items, key, false, now);
    assert AddedAt(db.lastTx, b.db.txs, b.reply.txs, BatchHash(items), 0);
    ReplayReturnsOwn(b.db, items, second, later, false, later);
  }

  // a keyed batch of one deposit goes through, and leaves its key on the one entry it writes
  lemma {:induction false} DepositBatch(db: Db, item: Item, key: string, now: Time)
    requires Unrestricted(db) && Funds(item.postings) && item.reference == "" && key != ""
             && FindKey(db.logs, key).None?
    ensures MalformedBatch([item]).None?
    ensures var b := Batch(db, [item], key, false, now);
            && b.reply.CommittedAll? && Unrestricted(b.db) && |b.db.logs| == |db.logs| + 1
            && b.db.logs[..|db.logs|] == db.logs
            && b.db.logs[|db.logs|].use == Some(KeyUse(key, BatchHash([item])))
  {
    var items := [item];
    FundingWellFormed(item.postings);
    assert MalformedItem(items, 1).None?;
    BatchRuns(db, items, key, false, now);
    RunItemsLast(db, items, key, now, 0, 1);
    FundingLands(db, Tagged(item, key, items), BatchUse(key, items, 0), now);
  }

  // five units to an account
  const FIVE := Item([Posting(WORLD, Address("a"), Asset("USD"), Some(5), false)], 0, "", map[])

  lemma {:induction false} FiveFunds(item: Item)
    requires item == FIVE
    ensures Funds(item.postings) && item.reference == ""
  {
  }

  /** One deposit under two keys, from an empty ledger: both batches go through, and the second key is
      answered with both transactions. */
  lemma {:induction false} OneDepositTwoKeys(now: Time) returns (items: seq<Item>)
    ensures MalformedBatch(items).None?
    ensures var b := Batch(EMPTY, items, "first", false, now);
            var c := Batch(b.db, items, "second", false, now);
            && b.reply.CommittedAll? && c.reply.CommittedAll? && Members(c.db, c.reply.txs)
            && Batch(c.db, items, "second", false, now) != Step(c.db, ReplayedAll(RowsOf(c.db, c.reply.txs)))
  {
    var item := FIVE;
    items := [item];
    EmptyInv();
    FiveFunds(item);
    DepositBatch(EMPTY, item, "first", now);
    var b := Batch(EMPTY, items, "first", false, now);
    assert b.db.logs == [] + [b.db.logs[0]];
    FindKeyAppend([], [b.db.logs[0]], "second");
    DepositBatch(b.db, item, "second", now);
    TwoKeysOneTag(EMPTY, items, "first", "second", now, now);
  }

  lemma {:induction false} RunOne(db: Db, op: Op)
    ensures Run(db, [op]) == Perform(db, op).db
  {
    var ops := [op];
    assert ops[..0] == [] && Run(db, []) == db;
  }

  // once its only transaction has lost the tag, nothing carries it
  lemma {:induction false} Untagged(db: Db, id: nat, hash: RequestHash, n: nat)
    requires id in db.txs && forall x | x in db.txs :: x == id
    ensures TaggedRows(DeleteTxMetadata(db, id, BATCH_KEY).db, hash, n) == []
  {
    if n > 0 {
      Untagged(db, id, hash, n - 1);
      var txs := DeleteTxMetadata(db, id, BATCH_KEY).db.txs;
      assert n in txs ==> !TaggedWith(txs[n], hash);
    }
  }

  // deleting a tag leaves a ledger that still takes deposits
  lemma {:induction false} DeletingKeepsEasy(db: Db, id: nat)
    requires Unrestricted(db)
    ensures Unrestricted(DeleteTxMetadata(db, id, BATCH_KEY).db)
  {
  }

  // the one transaction a first keyed deposit leaves
  lemma {:induction false} FirstDeposit(start: Db, item: Item, key: string, now: Time)
    requires start == EMPTY && item == FIVE && key != ""
    ensures MalformedBatch([item]).None?
    ensures var b := Batch(start, [item], key, false, now);
            && b.reply.CommittedAll? && Unrestricted(b.db) && UsedBy(b.db.logs, key, [item])
            && 1 in b.db.txs && forall x | x in b.db.txs :: x == 1
  {
    EmptyInv();
    FiveFunds(item);
    DepositBatch(start, item, key, now);
    BatchAdds(start, [item], key, now);
    var b := Batch(start, [item], key, false, now);
    assert AddedAt(0, b.db.txs, b.reply.txs, BatchHash([item]), 0);
  }

  lemma {:induction false} UntaggedReply(db: Db, item: Item, key: string, now: Time)
    requires Unrestricted(db) && item == FIVE && TaggedRows(db, BatchHash([item]), db.lastTx) == []
    ensures ReplayReply(db, [item], [item], key, now) == Rejected(BatchItemFailed(0, KeyTaken(key)))
  {
    FiveFunds(item);
    FundingApplies(db, Tagged(item, key, [item]), now);
  }

  lemma {:induction false} DeletedThenReplayed(b: Db, item: Item, key: string, now: Time, since: Db)
    requires item == FIVE && key != "" && MalformedBatch([item]).None? && UsedBy(b.logs, key, [item])
    requires Unrestricted(b) && 1 in b.txs && forall x | x in b.txs :: x == 1
    requires since == DeleteTxMetadata(b, 1, BATCH_KEY).db
    ensures Batch(since, [item], key, false, now) == Step(since, Rejected(BatchItemFailed(0, KeyTaken(key))))
  {
    DeletingKeepsEasy(b, 1);
    Untagged(b, 1, BatchHash([item]), since.lastTx);
    UntaggedReply(since, item, key, now);
    UsedByForever(b.logs, since.logs, key, [item]);
    UsedAnswers(since, [item], [item], key, false, now);
  }

  /** A keyed deposit from an empty ledger, its tag then deleted as metadata: the same batch under the same
      key is refused for the key, though it was answered before. */
  lemma {:induction false} LostTagIsRefused(start: Db, item: Item, key: string, now: Time)
    requires start == EMPTY && item == FIVE && key != ""
    ensures MalformedBatch([item]).None?
    ensures var b := Batch(start, [item], key, false, now);
            var since := Run(b.db, [OpDeleteTxMetadata(1, BATCH_KEY)]);
            && b.reply.CommittedAll?
            && Batch(since, [item], key, false, now) == Step(since, Rejected(BatchItemFailed(0, KeyTaken(key))))
  {
    FirstDeposit(start, item, key, now);
    var b, op := Batch(start, [item], key, false, now).db, OpDeleteTxMetadata(1, BATCH_KEY);
    RunOne(b, op);
    DeletedThenReplayed(b, item, key, now, Perform(b, op).db);
  }
}

/** Batches from the outside: the items one after another on the rows locked for all of them, which answer is given
    and what is left, and what a used key finds. */
module Bulk {
  import opened Ledger
  import opened Engine
  import opened Invariants
  import opened Runs
  import opened Idempotency
  import opened Outcomes

  // ---------------------------------------------------------------- the items

  // every row an item touches is there; the new ones hold nothing, and may be negative only where world's
  ghost predicate LockedFor(db: Db, r: Db, items: seq<Item>) {
    && r == db.(rows := r.rows)
    && (forall k :: k in r.rows <==> k in db.rows || exists i | 0 <= i < |items| :: k in Touched(items[i].postings))
    && forall k | k in r.rows ::
         r.rows[k] == if k in db.rows then db.rows[k] else Row(Volumes(0, 0), k.account == WORLD, true)
  }

  lemma {:induction false} LocksFor(db: Db, items: seq<Item>)
    ensures LockedFor(db, Locking(db, BatchTouched(items)), items)
  {
  }

  // as recorded: under a key, with the digest of the whole batch
  function Marked(items: seq<Item>, key: string, i: nat): Item
    requires i < |items|
  {
    if key == "" then items[i]
    else
      var item := items[i];
      Item(item.postings, item.timestamp, item.reference, item.metadata["giro/batch" := Digest(BatchHash(items))])
  }

  // the first entry alone carries the key
  function EntryKey(items: seq<Item>, key: string, i: nat): Option<KeyUse> {
    if i == 0 then KeyEntry(key, BatchHash(items)) else None
  }

  lemma {:induction false} MarkedIs(items: seq<Item>, key: string, i: nat)
    requires i < |items|
    ensures Tagged(items[i], key, items) == Marked(items, key, i) && BatchUse(key, items, i) == EntryKey(items, key, i)
  {
  }

  // the i-th item takes the tables from a to b
  ghost predicate Went(a: Db, b: Db, items: seq<Item>, key: string, now: Time, i: nat, tx: Tx)
    requires i < |items|
  {
    && Comes(a, Marked(items, key, i), now, Done(tx)) && Landings.Moved(a, b, tx)
    && Stored(a, b, tx, EntryKey(items, key, i))
  }

  // the tables before, between and behind the first items
  ghost predicate Trail(start: Db, items: seq<Item>, key: string, now: Time, ds: seq<Db>, txs: seq<Tx>) {
    && |txs| <= |items| && |ds| == |txs| + 1 && ds[0] == start
    && forall i | 0 <= i < |txs| :: Went(ds[i], ds[i + 1], items, key, now, i, txs[i])
  }

  // the i-th item is refused: for itself, or for a key in use whose batch is not found
  ghost predicate Stops(a: Db, items: seq<Item>, key: string, now: Time, i: nat, e: Error)
    requires i < |items|
  {
    || Comes(a, Marked(items, key, i), now, Refused(e))
    || (i == 0 && InUse(a, key) && e == KeyTaken(key) && exists tx :: Comes(a, Marked(items, key, i), now, Done(tx)))
  }

  lemma {:induction false} TrailGrows(start: Db, items: seq<Item>, key: string, now: Time, ds: seq<Db>, txs: seq<Tx>,
                                      b: Db, tx: Tx)
    requires Trail(start, items, key, now, ds, txs) && |txs| < |items|
    requires Went(ds[|txs|], b, items, key, now, |txs|, tx)
    ensures Trail(start, items, key, now, ds + [b], txs + [tx])
  {
  }

  lemma {:induction false} ItemGoes(a: Db, items: seq<Item>, key: string, now: Time, i: nat)
    requires Inv(a) && i < |items| && Malformed(items[i].postings).None?
    requires ApplyAndLog(a, Marked(items, key, i), EntryKey(items, key, i), now).Done?
    ensures var r := ApplyAndLog(a, Marked(items, key, i), EntryKey(items, key, i), now).value;
            Went(a, r.db, items, key, now, i, r.tx)
  {
    var item, use := Marked(items, key, i), EntryKey(items, key, i);
    WellFormedIsAcceptable(items[i].postings);
    ItemLeaves(a, item, use, now);
    AppliedAs(a, item, now);
    LogsDone(a, item, use, now);
  }

  lemma {:induction false} ItemStops(a: Db, items: seq<Item>, key: string, now: Time, i: nat)
    requires Inv(a) && i < |items| && Malformed(items[i].postings).None?
    requires ApplyAndLog(a, Marked(items, key, i), EntryKey(items, key, i), now).Refused?
    ensures Stops(a, items, key, now, i, ApplyAndLog(a, Marked(items, key, i), EntryKey(items, key, i), now).error)
  {
    var item, use := Marked(items, key, i), EntryKey(items, key, i);
    WellFormedIsAcceptable(items[i].postings);
    AppliedAs(a, item, now);
    InUseIs(a, key);
    RefusedHow(a, item, use, now);
  }

  lemma {:induction false} RefusedHow(a: Db, item: Item, use: Option<KeyUse>, now: Time)
    requires ApplyAndLog(a, item, use, now).Refused?
    ensures var r, e := OfTx(Apply(a, item, now)), ApplyAndLog(a, item, use, now).error;
            if r.Refused? then r == Refused(e)
            else use.Some? && FindKey(a.logs, use.value.key).Some? && e == KeyTaken(use.value.key)
  {
  }

  ghost predicate WellFormedItems(items: seq<Item>) {
    forall i | 0 <= i < |items| :: Malformed(items[i].postings).None?
  }

  lemma {:induction false} NextRuns(start: Db, items: seq<Item>, key: string, now: Time, m: nat, n: nat, ran: Ran)
    requires n == m + 1 && n <= |items| && RunItems(start, items, key, now, m) == Done(ran)
    requires RunItems(start, items, key, now, n).Done?
    ensures var a := ApplyAndLog(ran.db, Marked(items, key, m), EntryKey(items, key, m), now);
            a.Done? && RunItems(start, items, key, now, n) == Done(Ran(a.value.db, ran.txs + [a.value.tx]))
  {
    RunItemsLast(start, items, key, now, m, n);
    MarkedIs(items, key, m);
  }

  lemma {:induction false} NextKeepsInv(a: Db, items: seq<Item>, key: string, now: Time, i: nat)
    requires Inv(a) && i < |items| && Malformed(items[i].postings).None?
    requires ApplyAndLog(a, Marked(items, key, i), EntryKey(items, key, i), now).Done?
    ensures Inv(ApplyAndLog(a, Marked(items, key, i), EntryKey(items, key, i), now).value.db)
  {
    ItemKeepsInv(a, Marked(items, key, i), EntryKey(items, key, i), now);
  }

  // the first n items went through, and these are the tables they left
  ghost predicate Walked(start: Db, items: seq<Item>, key: string, now: Time, n: nat, ds: seq<Db>, txs: seq<Tx>) {
    && Trail(start, items, key, now, ds, txs) && |txs| == n && Inv(ds[n])
    && RunItems(start, items, key, now, n) == Done(Ran(ds[n], txs))
  }

  lemma {:induction false} NextWalks(start: Db, items: seq<Item>, key: string, now: Time, m: nat, n: nat,
                                     ds: seq<Db>, txs: seq<Tx>)
      returns (b: Db, tx: Tx)
    requires n == m + 1 && n <= |items| && WellFormedItems(items) && Walked(start, items, key, now, m, ds, txs)
             && RunItems(start, items, key, now, n).Done?
    ensures Went(ds[m], b, items, key, now, m, tx) && Inv(b)
    ensures RunItems(start, items, key, now, n) == Done(Ran(b, txs + [tx]))
  {
    NextRuns(start, items, key, now, m, n, Ran(ds[m], txs));
    var r := ApplyAndLog(ds[m], Marked(items, key, m), EntryKey(items, key, m), now).value;
    ItemGoes(ds[m], items, key, now, m);
    NextKeepsInv(ds[m], items, key, now, m);
    b, tx := r.db, r.tx;
  }

  lemma {:induction false} WalkGrows(start: Db, items: seq<Item>, key: string, now: Time, m: nat, n: nat,
                                     ds: seq<Db>, txs: seq<Tx>, b: Db, tx: Tx)
    requires n == m + 1 && n <= |items| && Walked(start, items, key, now, m, ds, txs)
    requires Went(ds[m], b, items, key, now, m, tx) && Inv(b)
    requires RunItems(start, items, key, now, n) == Done(Ran(b, txs + [tx]))
    ensures Walked(start, items, key, now, n, ds + [b], txs + [tx])
  {
    TrailGrows(start, items, key, now, ds, txs, b, tx);
  }

  lemma {:induction false} NothingWalked(start: Db, items: seq<Item>, key: string, now: Time)
    requires Inv(start)
    ensures Walked(start, items, key, now, 0, [start], [])
  {
  }

  lemma {:induction false} DoneBefore(start: Db, items: seq<Item>, key: string, now: Time, m: nat, n: nat)
    requires n == m + 1 && n <= |items| && RunItems(start, items, key, now, n).Done?
    ensures RunItems(start, items, key, now, m).Done?
  {
    RunItemsLast(start, items, key, now, m, n);
  }

  lemma {:induction false} ItemsWalk(start: Db, items: seq<Item>, key: string, now: Time, n: nat)
      returns (ds: seq<Db>, txs: seq<Tx>)
    requires Inv(start) && WellFormedItems(items) && n <= |items| && RunItems(start, items, key, now, n).Done?
    ensures Walked(start, items, key, now, n, ds, txs)
  {
    if n == 0 {
      NothingWalked(start, items, key, now);
      ds, txs := [start], [];
    } else {
      var m := n - 1;
      DoneBefore(start, items, key, now, m, n);
      ds, txs := ItemsWalk(start, items, key, now, m);
      var b, tx := NextWalks(start, items, key, now, m, n, ds, txs);
      WalkGrows(start, items, key, now, m, n, ds, txs, b, tx);
      ds, txs := ds + [b], txs + [tx];
    }
  }

  // where a batch that is refused stopped
  lemma {:induction false} StoppedAt(start: Db, items: seq<Item>, key: string, now: Time, n: nat) returns (i: nat)
    requires n <= |items| && RunItems(start, items, key, now, n).Refused?
    ensures i < n && RunItems(start, items, key, now, i).Done?
    ensures var a := RunItems(start, items, key, now, i).value.db;
            var r := ApplyAndLog(a, Tagged(items[i], key, items), BatchUse(key, items, i), now);
            r.Refused? && RunItems(start, items, key, now, n) == Refused(BatchItemFailed(i, r.error))
  {
    var m := n - 1;
    RunItemsLast(start, items, key, now, m, n);
    if RunItems(start, items, key, now, m).Refused? { i := StoppedAt(start, items, key, now, m); } else { i := m; }
  }

  // what becomes of the items of a batch nothing was found for, and where the tables then stand
  ghost predicate Goes(db: Db, items: seq<Item>, key: string, now: Time, start: Db, ds: seq<Db>, txs: seq<Tx>,
                       reply: Reply) {
    && LockedFor(db, start, items) && Trail(start, items, key, now, ds, txs)
    && if |txs| == |items| then reply == CommittedAll(txs)
       else
         && reply.Rejected? && reply.error.BatchItemFailed? && reply.error.index == |txs|
         && Stops(ds[|txs|], items, key, now, |txs|, reply.error.error)
  }

  lemma {:induction false} AllGo(db: Db, items: seq<Item>, key: string, now: Time)
      returns (start: Db, ds: seq<Db>, txs: seq<Tx>)
    requires Inv(db) && WellFormedItems(items)
    requires RunItems(Locking(db, BatchTouched(items)), items, key, now, |items|).Done?
    ensures var r := RunItems(Locking(db, BatchTouched(items)), items, key, now, |items|).value;
            |txs| == |items| && Goes(db, items, key, now, start, ds, txs, CommittedAll(r.txs)) && r.db == ds[|items|]
  {
    start := Locking(db, BatchTouched(items));
    LocksFor(db, items);
    MaterialisedKeepsInv(db, BatchTouched(items));
    ds, txs := ItemsWalk(start, items, key, now, |items|);
  }

  lemma {:induction false} OneStops(db: Db, items: seq<Item>, key: string, now: Time)
      returns (start: Db, ds: seq<Db>, txs: seq<Tx>)
    requires Inv(db) && WellFormedItems(items)
    requires RunItems(Locking(db, BatchTouched(items)), items, key, now, |items|).Refused?
    ensures var e := RunItems(Locking(db, BatchTouched(items)), items, key, now, |items|).error;
            |txs| < |items| && Goes(db, items, key, now, start, ds, txs, Rejected(e))
  {
    start := Locking(db, BatchTouched(items));
    LocksFor(db, items);
    MaterialisedKeepsInv(db, BatchTouched(items));
    var i := StoppedAt(start, items, key, now, |items|);
    ds, txs := ItemsWalk(start, items, key, now, i);
    MarkedIs(items, key, i);
    ItemStops(ds[i], items, key, now, i);
  }

  lemma {:induction false} BatchIs(db: Db, items: seq<Item>, key: string, dryRun: bool, now: Time)
    requires MalformedBatch(items).None? && FoundBatch(db, key, items).None?
    ensures var r, s := RunItems(Locking(db, BatchTouched(items)), items, key, now, |items|),
                        Batch(db, items, key, dryRun, now);
            if r.Refused? then s == Step(db, Rejected(r.error))
            else s == Step(if dryRun then db else r.value.db, CommittedAll(r.value.txs))
  {
  }

  /** A batch nothing was found for runs its items one after another on the rows locked for all of them, each to what
      a request alone would come to there, marked with the batch. It answers with all of them and leaves the tables
      where the last of them did; or is refused at the first that is refused, for what that one is, and leaves
      nothing. A dry run answers the same and leaves nothing. */
  lemma {:induction false} BatchGoes(db: Db, items: seq<Item>, key: string, dryRun: bool, now: Time)
      returns (start: Db, ds: seq<Db>, txs: seq<Tx>)
    requires Inv(db) && MalformedBatch(items).None? && FoundBatch(db, key, items).None?
    ensures var s := Batch(db, items, key, dryRun, now);
            && Goes(db, items, key, now, start, ds, txs, s.reply)
            && s.db == if |txs| == |items| && !dryRun then ds[|items|] else db
  {
    BatchIs(db, items, key, dryRun, now);
    if RunItems(Locking(db, BatchTouched(items)), items, key, now, |items|).Done? {
      start, ds, txs := AllGo(db, items, key, now);
    } else {
      start, ds, txs := OneStops(db, items, key, now);
    }
  }

  // ---------------------------------------------------------------- a key that is used

  // the transactions up to an id that now carry the digest, each once, oldest first
  ghost predicate MarkedRows(db: Db, hash: RequestHash, rows: seq<TxRow>, upTo: nat) {
    && (forall i | 0 <= i < |rows| :: MarkedRow(db, hash, rows[i]) && rows[i].tx.id <= upTo)
    && (forall i, j | 0 <= i < j < |rows| :: rows[i].tx.id < rows[j].tx.id)
    && forall id | id in db.txs && id <= upTo && CarriesMark(db.txs[id], hash) :: db.txs[id] in rows
  }

  predicate CarriesMark(row: TxRow, hash: RequestHash) {
    "giro/batch" in row.metadata && row.metadata["giro/batch"] == Digest(hash)
  }

  predicate MarkedRow(db: Db, hash: RequestHash, row: TxRow) {
    row.tx.id in db.txs && db.txs[row.tx.id] == row && CarriesMark(row, hash)
  }

  lemma {:induction false} OneMoreMarked(db: Db, hash: RequestHash, rows: seq<TxRow>, m: nat, n: nat)
    requires n == m + 1 && MarkedRows(db, hash, rows, m) && (n in db.txs ==> db.txs[n].tx.id == n)
    ensures MarkedRows(db, hash, rows + TaggedAt(db.txs, hash, n), n)
  {
    var r := rows + TaggedAt(db.txs, hash, n);
    forall id | id in db.txs && id <= n && CarriesMark(db.txs[id], hash) ensures db.txs[id] in r {
      if id == n { assert r[|rows|] == db.txs[n]; }
    }
  }

  lemma {:induction false} RowsMarked(db: Db, hash: RequestHash, n: nat)
    requires forall id | id in db.txs :: Numbered(db.txs, db.lastTx, id)
    ensures MarkedRows(db, hash, TaggedRows(db, hash, n), n)
  {
    if n > 0 {
      RowsMarked(db, hash, n - 1);
      TaggedNext(db, hash, n - 1, n);
      assert n in db.txs ==> Numbered(db.txs, db.lastTx, n);
      OneMoreMarked(db, hash, TaggedRows(db, hash, n - 1), n - 1, n);
    } else {
      forall id | id in db.txs ensures id > 0 { assert Numbered(db.txs, db.lastTx, id); }
    }
  }

  ghost predicate AllMarked(db: Db, hash: RequestHash, rows: seq<TxRow>) {
    MarkedRows(db, hash, rows, db.lastTx) && forall id | id in db.txs :: id <= db.lastTx
  }

  // what the entry that uses the key answers: a mismatch, or the rows that carry the digest, if any does
  ghost predicate FoundFrom(db: Db, key: string, items: seq<Item>, l: Log, rows: seq<TxRow>, reply: Option<Reply>)
    requires l.use.Some?
  {
    if l.use.value.hash != BatchHash(items) then reply == Some(Rejected(IdempotencyMismatch(key)))
    else AllMarked(db, BatchHash(items), rows) && reply == if rows == [] then None else Some(ReplayedAll(rows))
  }

  // what a used key answers, before anything runs
  ghost predicate FoundAs(db: Db, key: string, items: seq<Item>, reply: Option<Reply>) {
    if !InUse(db, key) then reply == None
    else exists l, rows | l in db.logs :: Uses(l, key) && FoundFrom(db, key, items, l, rows, reply)
  }

  /** A batch under a key nothing uses finds nothing. Under a key other inputs used it is refused; and under its own
      it finds exactly the transactions that now carry its mark, oldest first, or nothing when none does. */
  lemma {:induction false} BatchFinds(db: Db, key: string, items: seq<Item>)
    requires Inv(db)
    ensures FoundAs(db, key, items, FoundBatch(db, key, items))
  {
    InUseIs(db, key);
    if InUse(db, key) {
      var l, rows := FindKey(db.logs, key).value, TaggedRows(db, BatchHash(items), db.lastTx);
      RowsMarked(db, BatchHash(items), db.lastTx);
      forall id | id in db.txs ensures id <= db.lastTx { assert Numbered(db.txs, db.lastTx, id); }
      assert AllMarked(db, BatchHash(items), rows);
      assert FoundFrom(db, key, items, l, rows, FoundBatch(db, key, items));
    }
  }

  lemma {:induction false} BatchElsewhere(db: Db, items: seq<Item>, key: string, dryRun: bool, now: Time)
    ensures var s := Batch(db, items, key, dryRun, now);
            && (MalformedBatch(items).Some? ==> s == Step(db, Rejected(MalformedBatch(items).value)))
            && (MalformedBatch(items).None? && FoundBatch(db, key, items).Some? ==>
                  s == Step(db, FoundBatch(db, key, items).value))
  {
  }
}

/** What a request has to be to be accepted, and what is recorded of one that was. */
module Requests {
  import opened Ledger
  import opened Engine
  import opened Sweeps
  import opened Invariants
  import opened Runs

  function PowerOfTwo(n: nat): int { if n == 0 then 1 else 2 * PowerOfTwo(n - 1) }

  lemma {:induction false} PowersMultiply(m: nat, n: nat)
    ensures PowerOfTwo(m + n) == PowerOfTwo(m) * PowerOfTwo(n)
  {
    if n > 0 {
      PowersMultiply(m, n - 1);
      assert PowerOfTwo(m) * (2 * PowerOfTwo(n - 1)) == 2 * (PowerOfTwo(m) * PowerOfTwo(n - 1));
    }
  }

  lemma {:induction false} OneThirdOfBits()
    ensures PowerOfTwo(111) == 0x8000000000000000000000000000
  {
    assert PowerOfTwo(9) == 512;
    PowersMultiply(9, 9);
    PowersMultiply(18, 18);
    PowersMultiply(36, 1);
    PowersMultiply(37, 37);
    PowersMultiply(74, 37);
  }

  /** An amount has at most 333 bits. */
  lemma {:induction false} LimitIs333Bits()
    ensures AMOUNT_LIMIT == PowerOfTwo(333)
  {
    OneThirdOfBits();
    PowersMultiply(111, 111);
    PowersMultiply(222, 111);
  }

  // what is wrong with an amount: nothing given or below zero, or more bits than fit
  predicate Missing(q: Posting) { if q.amount.None? then !q.upTo else q.amount.value < 0 }

  predicate TooLarge(q: Posting) { q.amount.Some? && q.amount.value >= AMOUNT_LIMIT }

  predicate WellFormed(q: Posting) { !Missing(q) && !TooLarge(q) }

  ghost predicate AllWellFormed(p: Postings) { p != [] && forall q | q in p :: WellFormed(q) }

  // the error names the first posting that is not well formed, and what is wrong with it
  ghost predicate NamesFirst(p: Postings, from: nat, e: Error) {
    && e.InvalidPosting? && from <= e.index < |p| && !WellFormed(p[e.index])
    && e.error == (if Missing(p[e.index]) then InvalidAmount else AmountTooLarge)
    && forall j | from <= j < e.index :: WellFormed(p[j])
  }

  /** Validation passes exactly when there are postings and each has an amount or is a ceiling, none
      negative and none of more than 333 bits; otherwise it names the first that fails, and why. */
  lemma {:induction false} AcceptedExactly(p: Postings)
    ensures Malformed(p).None? <==> AllWellFormed(p)
    ensures p == [] ==> Malformed(p) == Some(NoPostings)
    ensures p != [] && Malformed(p).Some? ==> NamesFirst(p, 0, Malformed(p).value)
  {
    InvalidExactly(p, 0);
    if Malformed(p).None? {
      forall q | q in p ensures WellFormed(q) { var j :| 0 <= j < |p| && p[j] == q; }
    } else if p != [] {
      assert p[Malformed(p).value.index] in p;
    }
  }

  lemma {:induction false} InvalidExactly(p: Postings, i: nat)
    requires i <= |p|
    ensures Invalid(p, i).None? <==> forall j | i <= j < |p| :: WellFormed(p[j])
    ensures Invalid(p, i).Some? ==> NamesFirst(p, i, Invalid(p, i).value)
    decreases |p| - i
  {
    if i < |p| { InvalidExactly(p, i + 1); }
  }

  // the error names the first item that is not well formed, and that item's own error
  ghost predicate NamesItem(items: seq<Item>, from: nat, e: Error) {
    && e.BatchItemFailed? && from <= e.index < |items| && !AllWellFormed(items[e.index].postings)
    && Some(e.error) == Malformed(items[e.index].postings)
    && forall j | from <= j < e.index :: AllWellFormed(items[j].postings)
  }

  lemma {:induction false} ItemsExactly(items: seq<Item>, i: nat)
    requires i <= |items|
    ensures MalformedItem(items, i).None? <==> forall j | i <= j < |items| :: AllWellFormed(items[j].postings)
    ensures MalformedItem(items, i).Some? ==> NamesItem(items, i, MalformedItem(items, i).value)
    decreases |items| - i
  {
    if i < |items| {
      AcceptedExactly(items[i].postings);
      ItemsExactly(items, i + 1);
    }
  }

  /** A batch passes validation exactly when it has between one and a hundred items and every item's postings are
      well formed; otherwise it is refused for having none, for having more, or for the first item that is not, with
      that item's own error. */
  lemma {:induction false} BatchAcceptedExactly(items: seq<Item>)
    ensures MalformedBatch(items).None? <==> 0 < |items| <= 100 && forall item | item in items ::
                AllWellFormed(item.postings)
    ensures items == [] ==> MalformedBatch(items) == Some(NoPostings)
    ensures |items| > 100 ==> MalformedBatch(items) == Some(BatchTooLarge)
    ensures 0 < |items| <= 100 && MalformedBatch(items).Some? ==> NamesItem(items, 0, MalformedBatch(items).value)
  {
    ItemsExactly(items, 0);
    if 0 < |items| <= 100 {
      if MalformedItem(items, 0).None? {
        forall item | item in items ensures AllWellFormed(item.postings) {
          var j :| 0 <= j < |items| && items[j] == item;
        }
      } else {
        assert items[MalformedItem(items, 0).value.index] in items;
      }
    }
  }

  /** The effective date recorded is the one asked for, or the clock's when none was, rounded down to
      the microsecond the database keeps. */
  lemma {:induction false} StampRoundsDown(timestamp: Time, now: Time)
    ensures var d, t := Stamp(timestamp, now), if timestamp == 0 then now else timestamp;
            d % 1000 == 0 && d <= t < d + 1000
  {
    var t := if timestamp == 0 then now else timestamp;
    assert t == 1000 * (t / 1000) + t % 1000;
  }

  // a posting as asked for, and as recorded
  predicate RecordedAs(asked: Posting, recorded: Posting) {
    && recorded.From() == asked.From() && recorded.To() == asked.To()
    && (!asked.upTo ==> recorded == asked)
    && (asked.upTo && asked.amount.Some? && asked.amount.value >= 0 ==> recorded.Moved() <= asked.amount.value)
  }

  // what one item becomes once it is recorded
  ghost predicate Records(db: Db, tx: Tx, item: Item, now: Time) {
    && tx.id == db.lastTx + 1 && tx.timestamp == Stamp(item.timestamp, now)
    && tx.reference == item.reference && tx.metadata == item.metadata
    && |tx.postings| == |item.postings|
    && forall i | 0 <= i < |item.postings| :: RecordedAs(item.postings[i], tx.postings[i])
  }

  lemma {:induction false} OneRecorded(q: Posting, before: map<Key, Locked>, out: Postings)
    ensures RecordedAs(q, ResolveOne(q, before, out))
  {
  }

  lemma {:induction false} ResolvedRecorded(p: Postings, before: map<Key, Locked>)
    requires Resolve(p, before).Done?
    ensures var out := Resolve(p, before).value; forall i | 0 <= i < |p| :: RecordedAs(p[i], out[i])
  {
    ResolveExact(p, before);
    var out := Resolve(p, before).value;
    forall i | 0 <= i < |p| ensures RecordedAs(p[i], out[i]) {
      assert ResolvedAt(p, before, out, i);
      OneRecorded(p[i], before, out[..i]);
    }
  }

  lemma {:induction false} AppliedTx(db: Db, item: Item, now: Time)
    requires Apply(db, item, now).Done?
    ensures var before, tx := LockRead(db, Touched(item.postings)), Apply(db, item, now).value.tx;
            && Resolve(item.postings, before).Done? && tx.postings == Resolve(item.postings, before).value
            && tx.id == db.lastTx + 1 && tx.timestamp == Stamp(item.timestamp, now)
            && tx.reference == item.reference && tx.metadata == item.metadata
  {
  }

  lemma {:induction false} ApplyRecords(db: Db, item: Item, now: Time)
    requires Apply(db, item, now).Done?
    ensures Records(db, Apply(db, item, now).value.tx, item, now)
  {
    AppliedTx(db, item, now);
    ResolvedRecorded(item.postings, LockRead(db, Touched(item.postings)));
  }

  /** A commit that goes through records the request as asked, under the next id: every fixed posting
      exactly, every ceiling as no more than itself, the reference, the metadata and the date; and a
      reference already used is refused whatever the postings. */
  lemma {:induction false} CommitRecords(db: Db, item: Item, now: Time)
    ensures var r := Commit(db, item, "", false, now);
            && (r.reply.Committed? ==> Records(db, r.reply.tx, item, now) && r.reply.tx.id in r.db.txs
                                       && r.db.txs[r.reply.tx.id] == TxRow(r.reply.tx, item.metadata, None))
            && (item.reference != "" && (exists id | id in db.txs :: db.txs[id].tx.reference == item.reference) ==>
                  r.reply.Rejected? && r.db == db)
  {
    if Apply(db, item, now).Done? { ApplyRecords(db, item, now); }
  }

  /** A reversal records the inverse postings under the next id, marked with what it undoes, dated now
      unless the original's effective date was asked for, and stamps the original with that date. */
  lemma {:induction false} ReversalRecords(db: Db, id: nat, at: bool, now: Time)
    requires Inv(db) && Revert(db, id, at, now).reply.RevertedBy?
    ensures var r := Revert(db, id, at, now);
            var tx := r.reply.tx;
            && tx.id == db.lastTx + 1 && tx.postings == Reversed(db.txs[id].tx.postings)
            && tx.metadata == map[REVERTS_KEY := TxRef(id)] && tx.reference == ""
            && tx.timestamp == Stamp(if at then db.txs[id].tx.timestamp else now, now)
            && r.db.txs[id] == db.txs[id].(revertedAt := Some(tx.timestamp))
  {
    RevertFits(db, id, at, now);
    assert Numbered(db.txs, db.lastTx, id);
    ApplyRecords(db, RevertItem(db.txs[id], id, at, now), now);
  }

  /** A metadata write is skipped exactly when merging it would change nothing. */
  lemma {:induction false} SkippedExactly(metadata: Metadata, m: Metadata)
    ensures Contains(metadata, m) <==> metadata + m == metadata
  {
    if metadata + m == metadata {
      forall k | k in m ensures k in metadata && metadata[k] == m[k] {
        assert k in metadata + m && (metadata + m)[k] == m[k];
      }
    }
  }
}

/** A close that waits for a conversion, and is overtaken all the same: the account held one currency when the
    close asked, and by the time the row is free it holds the other. */
module Exchange {
  import opened Ledger
  import opened History
  import opened Engine
  import opened Invariants
  import opened Runs
  import opened Funding
  import opened Bounds

  // ten dollars in, and a conversion of them into five euros
  const PAYEE := Address("a")
  const DOLLARS := Key(PAYEE, Asset("USD"))
  const EUROS := Key(PAYEE, Asset("EUR"))
  const TAKEN := Posting(PAYEE, WORLD, Asset("USD"), Some(10), false)
  const GIVEN := Posting(WORLD, PAYEE, Asset("EUR"), Some(5), false)
  const DEPOSIT := Item([Posting(WORLD, PAYEE, Asset("USD"), Some(10), false)], 1000, "", map[])
  const CONVERSION := Item([TAKEN, GIVEN], 1000, "", map[])

  lemma {:induction false} FlowOfOne(q: Posting, k: Key, out: bool)
    ensures Flow([q], k, out) == q.Adds(k, out)
  {
    assert [q][..0] == [];
  }

  lemma {:induction false} FlowOfTwo(q: Posting, r: Posting, k: Key, out: bool)
    ensures Flow([q, r], k, out) == q.Adds(k, out) + r.Adds(k, out)
  {
    assert [q, r][..1] == [q];
    FlowOfOne(q, k, out);
  }

  lemma {:induction false} DeltaOfOne(q: Posting, k: Key)
    ensures Delta([q], k) == Volumes(q.Adds(k, false), q.Adds(k, true))
  {
    FlowOfOne(q, k, false);
    FlowOfOne(q, k, true);
  }

  lemma {:induction false} DeltaOfTwo(q: Posting, r: Posting, k: Key)
    ensures Delta([q, r], k) == Volumes(q.Adds(k, false) + r.Adds(k, false), q.Adds(k, true) + r.Adds(k, true))
  {
    FlowOfTwo(q, r, k, false);
    FlowOfTwo(q, r, k, true);
  }

  // the ledger with the ten dollars in it
  ghost predicate HoldsTen(db: Db) {
    && Reachable(db) && Unrestricted(db) && RowVolumes(db.rows, DOLLARS).Balance() == 10
    && forall k: Key | k.account == PAYEE && k != DOLLARS :: RowVolumes(db.rows, k).Balance() == 0
  }

  lemma {:induction false} FirstRows(db: Db, p: Postings, d: Time, k: Key)
    requires RowsOk(db.rows, db.moves) && Core(db.moves) == Legs(p, 1, d)
    ensures RowVolumes(db.rows, k) == Delta(p, k)
  {
    LegsTotal(p, 1, d, k, false);
    LegsTotal(p, 1, d, k, true);
  }

  lemma {:induction false} DepositHolds(start: Db, item: Item, d: Time)
    requires start == EMPTY && item == DEPOSIT && d == Stamp(item.timestamp, 1000)
    ensures HoldsTen(Commit(start, item, "", false, 1000).db)
  {
    var db := Commit(start, item, "", false, 1000).db;
    FundingOpens(start, item, 1000, d);
    ReachableInv(db);
    forall k: Key
      ensures RowVolumes(db.rows, k) == Volumes(item.postings[0].Adds(k, false), item.postings[0].Adds(k, true)) {
      FirstRows(db, item.postings, d, k);
      DeltaOfOne(item.postings[0], k);
    }
    assert RowVolumes(db.rows, DOLLARS) == Volumes(10, 0);
  }

  // what the conversion makes of a row of the account
  lemma {:induction false} ConversionMoves(p: Postings, k: Key, v: Volumes)
    requires p == CONVERSION.postings && k.account == PAYEE
    ensures After(v, p, k).Balance() == v.Balance() + if k == DOLLARS then -10 else if k == EUROS then 5 else 0
  {
    DeltaOfTwo(TAKEN, GIVEN, k);
  }

  lemma {:induction false} TouchedByTwo(q: Posting, r: Posting, k: Key)
    requires k in Touched([q, r])
    ensures k.account in {q.source, q.destination, r.source, r.destination}
  {
  }

  lemma {:induction false} ConversionEnds(db: Db, p: Postings, k: Key, v: Volumes)
    requires HoldsTen(db) && p == CONVERSION.postings && k.account == PAYEE && v == RowVolumes(db.rows, k)
    ensures After(v, p, k).Balance() == if k == EUROS then 5 else 0
  {
    ConversionMoves(p, k, v);
  }

  lemma {:induction false} RowAtVolumes(db: Db, k: Key)
    ensures RowAt(db, k).volumes == RowVolumes(db.rows, k)
  {
  }

  lemma {:induction false} ConversionOverdrawsNobody(db: Db, p: Postings, k: Key)
    requires HoldsTen(db) && p == CONVERSION.postings && k in Touched(p) && k.account != WORLD
    ensures After(RowAt(db, k).volumes, p, k).Balance() >= 0
  {
    TouchedByTwo(TAKEN, GIVEN, k);
    RowAtVolumes(db, k);
    ConversionEnds(db, p, k, RowVolumes(db.rows, k));
  }

  lemma {:induction false} ConversionFixed(p: Postings)
    requires p == CONVERSION.postings
    ensures forall q | q in p :: q.amount.Some? && !q.upTo
  {
  }

  lemma {:induction false} ConversionDecides(db: Db, p: Postings)
    requires HoldsTen(db) && p == CONVERSION.postings
    ensures Prepare(LockRead(db, Touched(p)), p) == Done(p)
  {
    forall k | k in Touched(p) && k.account != WORLD ensures After(RowAt(db, k).volumes, p, k).Balance() >= 0 {
      ConversionOverdrawsNobody(db, p, k);
    }
    ConversionFixed(p);
    EasyDecides(db, p);
  }

  lemma {:induction false} DecidedApplies(db: Db, item: Item, now: Time)
    requires Prepare(LockRead(db, Touched(item.postings)), item.postings) == Done(item.postings) && item.reference == ""
    ensures ApplyAndLog(db, item, None, now).Done?
            && ApplyAndLog(db, item, None, now).value.tx.postings == item.postings
  {
    var seen, d := LockRead(db, Touched(item.postings)), Stamp(item.timestamp, now);
    ApplyIsSteps(db, item, now, seen, item.postings, EffectiveReads(db.moves, Touched(item.postings), d));
  }

  lemma {:induction false} ConversionAcceptable(p: Postings)
    requires p == CONVERSION.postings
    ensures Malformed(p).None?
  {
    if Malformed(p).Some? { FirstFails(p, 0); }
  }

  // the conversion lands, and every row of the account ends where it says
  lemma {:induction false} ConversionLands(db: Db, item: Item, now: Time)
      returns (tx: Tx, before: map<Key, Volumes>, effective: map<Key, Volumes>)
    requires HoldsTen(db) && item == CONVERSION
    ensures Inv(db) && Fits(db, tx, before, effective) && tx.postings == item.postings
    ensures ApplyAndLog(db, item, None, now) == Done(Applied(Landed(db, tx, before, effective, None, None), tx))
  {
    ReachableInv(db);
    ConversionDecides(db, item.postings);
    DecidedApplies(db, item, now);
    ConversionAcceptable(item.postings);
    WellFormedIsAcceptable(item.postings);
    ApplyAndLogLands(db, item, None, now);
    tx := ApplyAndLog(db, item, None, now).value.tx;
    before := VolumesOf(LockRead(db, Touched(item.postings)));
    effective := EffectiveReads(db.moves, Touched(item.postings), tx.timestamp);
  }

  // the five euros and nothing else
  ghost predicate HoldsFive(db: Db) {
    forall k: Key | k.account == PAYEE :: RowVolumes(db.rows, k).Balance() == if k == EUROS then 5 else 0
  }

  lemma {:induction false} LandedHoldsFive(db: Db, tx: Tx, before: map<Key, Volumes>, effective: map<Key, Volumes>)
    requires HoldsTen(db) && tx.postings == CONVERSION.postings && tx.id == db.lastTx + 1
    ensures HoldsFive(Landed(db, tx, before, effective, None, None))
  {
    var r := Landed(db, tx, before, effective, None, None);
    LandedFields(db, tx, before, effective, None, None);
    forall k: Key | k.account == PAYEE ensures RowVolumes(r.rows, k).Balance() == if k == EUROS then 5 else 0 {
      LandedRow(db.rows, tx.postings, k);
      ConversionEnds(db, tx.postings, k, RowVolumes(db.rows, k));
    }
  }

  lemma {:induction false} OwesIs(db: Db, a: Address, k: Key)
    ensures Owes(db, a, k) <==> k.account == a && RowVolumes(db.rows, k).Balance() != 0
  {
  }

  lemma {:induction false} CloseRefused(db: Db, a: Address, k: Key, now: Time)
    requires Owes(db, a, k) && a != WORLD
    ensures Close(db, a, now).reply == Rejected(AccountNotEmpty)
  {
  }

  lemma {:induction false} OwedOnce(db: Db, after: Db, k: Key)
    requires HoldsTen(db) && HoldsFive(after)
    ensures !(Owes(db, PAYEE, k) && Owes(after, PAYEE, k))
  {
    OwesIs(db, PAYEE, k);
    OwesIs(after, PAYEE, k);
  }

  lemma {:induction false} OwedNeverTwice(before: Db, after: Db, a: Address, now: Time, k: Key)
    requires a != WORLD && k.account == a && RowVolumes(after.rows, k).Balance() != 0
    requires forall x :: !(Owes(before, a, x) && Owes(after, a, x))
    ensures var r := CloseAround(before, after, a, now);
            r.reply.Acknowledged? && Stranded(r.db.rows, r.db.accounts, k)
  {
  }

  lemma {:induction false} CloseAcross(db: Db, after: Db, now: Time)
    requires HoldsTen(db) && HoldsFive(after)
    ensures var r := CloseAround(db, after, PAYEE, now);
            r.reply.Acknowledged? && Stranded(r.db.rows, r.db.accounts, EUROS)
  {
    forall k ensures !(Owes(db, PAYEE, k) && Owes(after, PAYEE, k)) { OwedOnce(db, after, k); }
    OwedNeverTwice(db, after, PAYEE, now, EUROS);
  }

  /** It happens to a close that waits. The account holds ten dollars, and a conversion in flight takes them and
      gives five euros. Neither before it nor after it could the account be closed; across it the close goes
      through, and the five euros are in a closed account. */
  lemma {:induction false} WaitedCloseStrands(db: Db, item: Item, now: Time)
      returns (tx: Tx, before: map<Key, Volumes>, effective: map<Key, Volumes>)
    requires HoldsTen(db) && item == CONVERSION
    ensures Fits(db, tx, before, effective) && tx.postings == item.postings
    ensures var after := Landed(db, tx, before, effective, None, None);
            && Close(db, PAYEE, now).reply == Rejected(AccountNotEmpty)
            && Close(after, PAYEE, now).reply == Rejected(AccountNotEmpty)
            && var r := CloseAround(db, after, PAYEE, now);
               r.reply.Acknowledged? && Stranded(r.db.rows, r.db.accounts, EUROS)
  {
    tx, before, effective := ConversionLands(db, item, now);
    var after := Landed(db, tx, before, effective, None, None);
    LandedHoldsFive(db, tx, before, effective);
    OwesIs(db, PAYEE, DOLLARS);
    OwesIs(after, PAYEE, EUROS);
    CloseRefused(db, PAYEE, DOLLARS, now);
    CloseRefused(after, PAYEE, EUROS, now);
    CloseAcross(db, after, now);
  }
}

/** Balance permissions and closure over whole runs: what a row outside its bounds, a closed
    account with something in it, or a bounded world account can mean. */
module Bounds {
  import opened Ledger
  import opened Engine
  import opened Sweeps
  import opened Invariants
  import opened Runs
  import opened Funding

  // ---------------------------------------------------------------- a row outside its bounds

  ghost predicate OutOfBounds(rows: map<Key, Row>, k: Key) { k in rows && !Within(rows[k]) }

  // a row outside its bounds was outside them before, holding the same
  ghost predicate NoNewBreach(a: map<Key, Row>, b: map<Key, Row>, k: Key) {
    OutOfBounds(b, k) ==> OutOfBounds(a, k) && a[k].volumes == b[k].volumes
  }

  predicate Narrows(op: Op, k: Key) {
    || (op.OpAllowNegative? && op.row == k && !op.allow)
    || (op.OpAllowPositive? && op.row == k && !op.allow)
  }

  lemma {:induction false} LandingBreachesNothing(db: Db, tx: Tx, before: map<Key, Volumes>,
                                          effective: map<Key, Volumes>, k: Key)
    requires var r := Installed(db, tx, before, effective);
             forall x | x in Touched(tx.postings) :: x in r.rows && Within(r.rows[x])
    ensures NoNewBreach(db.rows, Installed(db, tx, before, effective).rows, k)
  {
    if k !in Touched(tx.postings) {
      UntouchedDelta(tx.postings, k);
    }
  }

  lemma {:induction false} ItemBreachesNothing(db: Db, item: Item, use: Option<KeyUse>, now: Time, k: Key)
    requires Inv(db) && Malformed(item.postings).None? && ApplyAndLog(db, item, use, now).Done?
    ensures var r := ApplyAndLog(db, item, use, now).value.db;
            NoNewBreach(db.rows, r.rows, k) && (k in Touched(item.postings) ==> !OutOfBounds(r.rows, k))
  {
    WellFormedIsAcceptable(item.postings);
    ApplyAndLogLands(db, item, use, now);
    var a, ks := ApplyAndLog(db, item, use, now).value, Touched(item.postings);
    var before, effective := VolumesOf(LockRead(db, ks)), EffectiveReads(db.moves, ks, a.tx.timestamp);
    LandedFields(db, a.tx, before, effective, use, None);
    LandingBreachesNothing(db, a.tx, before, effective, k);
  }

  lemma {:induction false} ItemsBreachNothing(db: Db, items: seq<Item>, key: string, now: Time, n: nat, k: Key)
    requires Inv(db) && n <= |items|
    requires forall i | 0 <= i < |items| :: Malformed(items[i].postings).None?
    requires RunItems(db, items, key, now, n).Done?
    ensures var r := RunItems(db, items, key, now, n).value.db;
            NoNewBreach(db.rows, r.rows, k) && (k in BatchTouched(items[..n]) ==> !OutOfBounds(r.rows, k))
  {
    if n > 0 {
      var m := n - 1;
      RunItemsLast(db, items, key, now, m, n);
      RunItemsKeepsInv(db, items, key, now, m);
      ItemsBreachNothing(db, items, key, now, m, k);
      var r := RunItems(db, items, key, now, m).value.db;
      ItemBreachesNothing(r, Tagged(items[m], key, items), BatchUse(key, items, m), now, k);
      TouchedByPrefix(items, n, k);
    }
  }

  lemma {:induction false} TouchedByPrefix(items: seq<Item>, n: nat, k: Key)
    requires 0 < n <= |items|
    ensures k in BatchTouched(items[..n]) <==> k in BatchTouched(items[..n - 1]) || k in Touched(items[n - 1].postings)
  {
    assert forall i | 0 <= i < n - 1 :: items[..n][i] == items[..n - 1][i];
    assert items[..n][n - 1] == items[n - 1];
    if k in BatchTouched(items[..n]) {
      var i :| 0 <= i < n && k in Touched(items[..n][i].postings);
      assert i < n - 1 ==> k in Touched(items[..n - 1][i].postings);
    }
    if k in BatchTouched(items[..n - 1]) {
      var i :| 0 <= i < n - 1 && k in Touched(items[..n - 1][i].postings);
      assert k in Touched(items[..n][i].postings);
    }
    if k in Touched(items[n - 1].postings) { assert k in Touched(items[..n][n - 1].postings); }
  }

  // the rows an operation moves value through
  ghost function Moves(db: Db, op: Op): set<Key> {
    match op
    case OpCommit(item, _, _, _) => Touched(item.postings)
    case OpBatch(items, _, _, _) => BatchTouched(items)
    case OpRevert(id, _, _) => if id in db.txs then Touched(db.txs[id].tx.postings) else {}
    case _ => {}
  }

  lemma {:induction false} CommitBreachesNothing(db: Db, item: Item, key: string, dryRun: bool, now: Time, k: Key)
    requires Inv(db)
    ensures var r := Commit(db, item, key, dryRun, now).db;
            NoNewBreach(db.rows, r.rows, k) && (r != db && k in Touched(item.postings) ==> !OutOfBounds(r.rows, k))
  {
    if Malformed(item.postings).None? && (key == "" || FindKey(db.logs, key).None?) {
      var use := Use(key, CommitHash(item));
      if ApplyAndLog(db, item, use, now).Done? { ItemBreachesNothing(db, item, use, now, k); }
    }
  }

  lemma {:induction false} BatchBreachesNothing(db: Db, items: seq<Item>, key: string, dryRun: bool, now: Time, k: Key)
    requires Inv(db)
    ensures var r := Batch(db, items, key, dryRun, now).db;
            NoNewBreach(db.rows, r.rows, k) && (r != db && k in BatchTouched(items) ==> !OutOfBounds(r.rows, k))
  {
    BatchComesTo(db, items, key, dryRun, now);
    if BatchRan(db, items, key, now, Batch(db, items, key, dryRun, now).db) {
      var locked := Locking(db, BatchTouched(items));
      MaterialisedKeepsInv(db, BatchTouched(items));
      ItemsBreachNothing(locked, items, key, now, |items|, k);
      assert items[..|items|] == items;
      assert NoNewBreach(db.rows, locked.rows, k);
    }
  }

  lemma {:induction false} RevertBreachesNothing(db: Db, id: nat, at: bool, now: Time, k: Key)
    requires Inv(db)
    ensures var r := Revert(db, id, at, now).db;
            && NoNewBreach(db.rows, r.rows, k)
            && (r != db && id in db.txs && k in Touched(db.txs[id].tx.postings) ==> !OutOfBounds(r.rows, k))
  {
    if Revert(db, id, at, now).reply.RevertedBy? {
      RevertLands(db, id, at, now);
      var tx := Revert(db, id, at, now).reply.tx;
      var ks := Touched(tx.postings);
      var before, effective := VolumesOf(LockRead(db, ks)), EffectiveReads(db.moves, ks, tx.timestamp);
      ReversedTouches(db.txs[id].tx.postings);
      LandedFields(db, tx, before, effective, None, Some(id));
      LandingBreachesNothing(db, tx, before, effective, k);
    }
  }

  lemma {:induction false} SettingBreaches(db: Db, op: Op, k: Key)
    requires !op.OpCommit? && !op.OpBatch? && !op.OpRevert?
    ensures var r := Perform(db, op).db;
            if Narrows(op, k) then RowVolumes(r.rows, k) == RowVolumes(db.rows, k) else NoNewBreach(db.rows, r.rows, k)
  {
  }

  /** No commit, batch or reversal leaves a row it moved value through outside its bounds, and
      none pushes any other row out. */
  lemma {:induction false} StepBreaches(db: Db, op: Op, k: Key)
    requires Inv(db)
    ensures var r := Perform(db, op).db;
            && (if Narrows(op, k) then RowVolumes(r.rows, k) == RowVolumes(db.rows, k)
                else NoNewBreach(db.rows, r.rows, k))
            && (r != db && k in Moves(db, op) ==> !OutOfBounds(r.rows, k))
  {
    match op
    case OpCommit(item, key, dryRun, now) => CommitBreachesNothing(db, item, key, dryRun, now, k);
    case OpBatch(items, key, dryRun, now) => BatchBreachesNothing(db, items, key, dryRun, now, k);
    case OpRevert(id, at, now) => RevertBreachesNothing(db, id, at, now, k);
    case _ => SettingBreaches(db, op, k);
  }

  // narrowed at step n, and holding the same from there to the end
  ghost predicate NarrowedAt(db: Db, ops: seq<Op>, k: Key, n: nat) {
    n < |ops| && Narrows(ops[n], k) && RowVolumes(Run(db, ops[..n]).rows, k) == RowVolumes(Run(db, ops).rows, k)
  }

  lemma {:induction false} BreachAtLast(d: Db, op: Op, k: Key)
    requires Inv(d) && OutOfBounds(Perform(d, op).db.rows, k)
    ensures RowVolumes(Perform(d, op).db.rows, k) == RowVolumes(d.rows, k)
    ensures !Narrows(op, k) ==> OutOfBounds(d.rows, k)
  {
    StepBreaches(d, op, k);
  }

  /** A row a run leaves outside its bounds has not moved since its permission was
      narrowed: nothing the guard passes ends that way. */
  lemma {:induction false} BreachMeansNarrowed(db: Db, ops: seq<Op>, k: Key)
    requires Inv(db) && !OutOfBounds(db.rows, k) && forall op | op in ops :: Sensible(op)
    ensures OutOfBounds(Run(db, ops).rows, k) ==> exists n :: NarrowedAt(db, ops, k, n)
  {
    if ops != [] && OutOfBounds(Run(db, ops).rows, k) {
      var l := |ops| - 1;
      var init, op := ops[..l], ops[l];
      assert op in ops && forall o | o in init :: o in ops;
      var d := Run(db, init);
      RunKeepsInv(db, init);
      BreachAtLast(d, op, k);
      if Narrows(op, k) {
        assert NarrowedAt(db, ops, k, l);
      } else {
        BreachMeansNarrowed(db, init, k);
        var n: nat :| NarrowedAt(db, init, k, n);
        assert init[..n] == ops[..n];
        assert NarrowedAt(db, ops, k, n);
      }
    }
  }

  // below zero without leave to be, or above it
  predicate Breaks(r: Row) {
    || (!r.allowNegative && r.volumes.input < r.volumes.output)
    || (!r.allowPositive && r.volumes.input > r.volumes.output)
  }

  /** Finds every row out of bounds and no other, in lock order. */
  method VerifyBalancePermissions(rows: map<Key, Row>) returns (checked: nat, found: seq<Key>)
    ensures Ascending(found) && checked == |rows|
    ensures forall k :: k in found <==> k in rows && Breaks(rows[k])
    ensures forall k :: k in found <==> OutOfBounds(rows, k)
  {
    var ks := SortKeys(rows.Keys);
    SortedKeysAscend(rows.Keys);
    found := [];
    for i := 0 to |ks|
      invariant Ascending(found)
      invariant forall k :: k in found <==> k in ks[..i] && k in rows && Breaks(rows[k])
    {
      TakeNext(ks, i);
      assert ks[i] in ks;
      if Breaks(rows[ks[i]]) {
        AscendingNext(found, ks, i);
        found := found + [ks[i]];
      }
    }
    assert ks[..|ks|] == ks;
    checked := |rows|;
  }

  lemma {:induction false} AscendingNext(found: seq<Key>, ks: seq<Key>, i: nat)
    requires Ascending(found) && Ascending(ks) && i < |ks| && forall k | k in found :: k in ks[..i]
    ensures Ascending(found + [ks[i]])
  {
    forall j | 0 <= j < |found| ensures KeyBefore(found[j], ks[i]) {
      assert found[j] in found;
      var x :| 0 <= x < i && ks[x] == found[j];
    }
  }

  // ---------------------------------------------------------------- closure

  /** When closing is one step, every row of a closed account is at zero, in every reachable state. */
  lemma {:induction false} ClosedHoldsNothing(db: Db, k: Key)
    requires Reachable(db) && k in db.rows && Closed(db, k.account)
    ensures db.rows[k].volumes.Balance() == 0
  {
    ReachableInv(db);
  }

  /** A transaction naming a closed account, on either side, is refused whatever it would move. */
  lemma {:induction false} ClosedRefuses(db: Db, item: Item, now: Time, k: Key)
    requires k in Touched(item.postings) && Closed(db, k.account)
    ensures Apply(db, item, now).Refused?
  {
    var before := LockRead(db, Touched(item.postings));
    assert before[k].closed;
    if Prepare(before, item.postings).Done? { PrepareGuarantees(before, item.postings); }
  }

  predicate Stranded(rows: map<Key, Row>, accounts: map<Address, Account>, k: Key) {
    k in rows && ClosedIn(accounts, k.account) && rows[k].volumes.Balance() != 0
  }

  // a row the check selects
  function Holding(rows: map<Key, Row>, accounts: map<Address, Account>, k: Key): (b: bool)
    requires k in rows
    ensures b == Stranded(rows, accounts, k)
  {
    ClosedIn(accounts, k.account) && rows[k].volumes.input != rows[k].volumes.output
  }

  /** Finds exactly the rows of closed accounts that hold something, in order. */
  method VerifyClosedAccounts(rows: map<Key, Row>, accounts: map<Address, Account>) returns (found: seq<Key>)
    ensures Ascending(found)
    ensures forall k :: k in found <==>
              && k in rows && k.account in accounts && accounts[k.account].closed
              && rows[k].volumes.input != rows[k].volumes.output
    ensures found == [] <==> ClosedOk(rows, accounts)
  {
    var ks := SortKeys(rows.Keys);
    SortedKeysAscend(rows.Keys);
    found := [];
    for i := 0 to |ks|
      invariant Ascending(found)
      invariant forall k :: k in found <==> k in ks[..i] && Stranded(rows, accounts, k)
    {
      TakeNext(ks, i);
      assert ks[i] in ks;
      if Holding(rows, accounts, ks[i]) {
        AscendingNext(found, ks, i);
        found := found + [ks[i]];
      }
    }
    assert ks[..|ks|] == ks;
    NoneStranded(rows, accounts, found);
  }

  lemma {:induction false} NoneStranded(rows: map<Key, Row>, accounts: map<Address, Account>, found: seq<Key>)
    requires forall k :: k in found <==> Stranded(rows, accounts, k)
    ensures found == [] <==> ClosedOk(rows, accounts)
  {
    if found != [] { assert found[0] in found; }
    if !ClosedOk(rows, accounts) {
      var k :| k in rows && k.account in accounts && accounts[k.account].closed && rows[k].volumes.Balance() != 0;
      assert Stranded(rows, accounts, k);
    }
  }

  // ---------------------------------------------------------------- a close that was raced

  // where the account held nothing and the postings move more one way than the other
  ghost predicate Unsettles(rows: map<Key, Row>, a: Address, p: Postings, k: Key) {
    k.account == a && RowVolumes(rows, k).Balance() == 0 && Delta(p, k).Balance() != 0
  }

  // what is stranded in r is what the postings left on rows of a that held nothing in was
  ghost predicate StrandedBy(was: map<Key, Row>, r: Db, a: Address, p: Postings) {
    forall k :: Stranded(r.rows, r.accounts, k) <==> k in r.rows && Unsettles(was, a, p, k)
  }

  // every row that held something is brought to zero
  ghost predicate Drains(db: Db, a: Address, p: Postings) {
    forall k | Owes(db, a, k) :: After(db.rows[k].volumes, p, k).Balance() == 0
  }

  function Flagged(db: Db, a: Address, now: Time): Db {
    var account := if a in db.accounts then db.accounts[a].(closed := true) else Account(map[], now, true);
    db.(accounts := db.accounts[a := account])
  }

  // a close that asked on one state, and waited: each row that held something then looked at again as it is after
  ghost function CloseAround(before: Db, after: Db, a: Address, now: Time): Step {
    if a == WORLD then Step(after, Rejected(ClosureRefused))
    else if exists k :: Owes(before, a, k) && Owes(after, a, k) then Step(after, Rejected(AccountNotEmpty))
    else Step(Flagged(after, a, now), Acknowledged)
  }

  // one that waited for nothing is the whole close
  lemma {:induction false} CloseAroundNothing(db: Db, a: Address, now: Time)
    ensures CloseAround(db, db, a, now) == Close(db, a, now)
  {
    if !Empty(db, a) {
      var k :| k in db.rows && k.account == a && db.rows[k].volumes.Balance() != 0;
      assert Owes(db, a, k);
    }
  }

  lemma {:induction false} RacedBalance(v: Volumes, p: Postings, k: Key, d: Volumes)
    requires d == Delta(p, k)
    ensures After(v, p, k).Balance() == v.Balance() + d.Balance()
  {
  }

  lemma {:induction false} StrandedIs(rows: map<Key, Row>, accounts: map<Address, Account>, k: Key)
    ensures Stranded(rows, accounts, k) <==>
              k in rows && ClosedIn(accounts, k.account) && RowVolumes(rows, k).Balance() != 0
  {
  }

  lemma {:induction false} OwnRow(v: Volumes, w: Volumes, p: Postings, k: Key, d: Volumes)
    requires d == Delta(p, k) && w == After(v, p, k) && (v.Balance() != 0 ==> w.Balance() == 0)
    ensures w.Balance() != 0 <==> v.Balance() == 0 && d.Balance() != 0
  {
    RacedBalance(v, p, k, d);
  }

  lemma {:induction false} OtherRow(v: Volumes, p: Postings, k: Key)
    requires k !in Touched(p)
    ensures After(v, p, k) == v
  {
    UntouchedDelta(p, k);
  }

  // nothing on accounts closed before, and the rows of this one brought to zero
  ghost predicate Racing(db: Db, a: Address, p: Postings) {
    && ClosedOk(db.rows, db.accounts) && Drains(db, a, p)
    && forall x | x in Touched(p) :: !ClosedIn(db.accounts, x.account)
  }

  lemma {:induction false} RacingRow(db: Db, a: Address, p: Postings, k: Key, v: Volumes)
    requires Racing(db, a, p) && (k.account == a || ClosedIn(db.accounts, k.account)) && v == RowVolumes(db.rows, k)
    ensures if k.account == a then v.Balance() != 0 ==> After(v, p, k).Balance() == 0
            else v.Balance() == 0 && k !in Touched(p)
  {
    assert k.account == a && v.Balance() != 0 ==> Owes(db, a, k);
  }

  // what a row of a closed account holds once the transaction has landed
  lemma {:induction false} RacedRow(v: Volumes, w: Volumes, own: bool, p: Postings, k: Key, d: Volumes)
    requires w == After(v, p, k) && d == Delta(p, k)
    requires if own then v.Balance() != 0 ==> w.Balance() == 0 else v.Balance() == 0 && k !in Touched(p)
    ensures w.Balance() != 0 <==> own && v.Balance() == 0 && d.Balance() != 0
  {
    if own { OwnRow(v, w, p, k, d); } else { OtherRow(v, p, k); }
  }

  lemma {:induction false} RacedKey(db: Db, a: Address, r: Db, p: Postings, k: Key)
    requires Racing(db, a, p) && r.rows == ApplyDeltas(Materialised(db.rows, Touched(p)), p)
    requires ClosedIn(r.accounts, k.account) <==> k.account == a || ClosedIn(db.accounts, k.account)
    ensures Stranded(r.rows, r.accounts, k) <==> k in r.rows && Unsettles(db.rows, a, p, k)
  {
    StrandedIs(r.rows, r.accounts, k);
    if ClosedIn(r.accounts, k.account) {
      var v := RowVolumes(db.rows, k);
      LandedRow(db.rows, p, k);
      RacingRow(db, a, p, k, v);
      RacedRow(v, RowVolumes(r.rows, k), k.account == a, p, k, Delta(p, k));
    }
  }

  lemma {:induction false} RacedKeys(db: Db, a: Address, r: Db, p: Postings)
    requires Racing(db, a, p) && r.rows == ApplyDeltas(Materialised(db.rows, Touched(p)), p)
    requires forall x :: ClosedIn(r.accounts, x) <==> x == a || ClosedIn(db.accounts, x)
    ensures StrandedBy(db.rows, r, a, p)
  {
    forall k ensures Stranded(r.rows, r.accounts, k) <==> k in r.rows && Unsettles(db.rows, a, p, k) {
      RacedKey(db, a, r, p, k);
    }
  }

  lemma {:induction false} UpsertedShut(accounts: map<Address, Account>, used: set<Address>, at: Time, x: Address)
    ensures ClosedIn(Upserted(accounts, used, at), x) <==> ClosedIn(accounts, x)
  {
  }

  lemma {:induction false} FlaggedShuts(db: Db, a: Address, now: Time, x: Address)
    ensures ClosedIn(Flagged(db, a, now).accounts, x) <==> x == a || ClosedIn(db.accounts, x)
  {
  }

  // a row matched before and holding something after, in terms of the transaction between
  lemma {:induction false} OwesAfter(db: Db, after: Db, a: Address, p: Postings, k: Key)
    requires after.rows == ApplyDeltas(Materialised(db.rows, Touched(p)), p) && Owes(db, a, k)
    ensures Owes(after, a, k) <==> After(db.rows[k].volumes, p, k).Balance() != 0
  {
    LandedRow(db.rows, p, k);
  }

  lemma {:induction false} AcknowledgedIff(db: Db, after: Db, a: Address, p: Postings, now: Time)
    requires after.rows == ApplyDeltas(Materialised(db.rows, Touched(p)), p)
    ensures CloseAround(db, after, a, now).reply.Acknowledged? <==> a != WORLD && Drains(db, a, p)
  {
    forall k | Owes(db, a, k) ensures Owes(after, a, k) <==> After(db.rows[k].volumes, p, k).Balance() != 0 {
      OwesAfter(db, after, a, p, k);
    }
  }

  lemma {:induction false} AcknowledgedFlags(before: Db, after: Db, a: Address, now: Time)
    requires CloseAround(before, after, a, now).reply.Acknowledged?
    ensures CloseAround(before, after, a, now).db == Flagged(after, a, now)
  {
  }

  // marked once the transaction has landed
  lemma {:induction false} FlaggedAfter(db: Db, a: Address, now: Time, tx: Tx, after: Db)
    requires Racing(db, a, tx.postings)
    requires after.rows == ApplyDeltas(Materialised(db.rows, Touched(tx.postings)), tx.postings)
             && after.accounts == Upserted(db.accounts, Accounts(tx.postings), tx.timestamp)
    ensures StrandedBy(db.rows, Flagged(after, a, now), a, tx.postings)
  {
    var r := Flagged(after, a, now);
    forall x ensures ClosedIn(r.accounts, x) <==> x == a || ClosedIn(db.accounts, x) {
      UpsertedShut(db.accounts, Accounts(tx.postings), tx.timestamp, x);
      FlaggedShuts(after, a, now, x);
    }
    RacedKeys(db, a, r, tx.postings);
  }

  lemma {:induction false} FitsRaces(db: Db, a: Address, tx: Tx, before: map<Key, Volumes>,
                                     effective: map<Key, Volumes>)
    requires Inv(db) && Fits(db, tx, before, effective) && Drains(db, a, tx.postings)
    ensures Racing(db, a, tx.postings)
  {
  }

  /** A close that asked before a transaction landed, and marked after: it goes through exactly when the
      transaction brings every row of the account that held something to zero, and then what closed accounts
      hold is exactly what it left on rows of the account that held nothing. */
  lemma {:induction false} RacedClose(db: Db, a: Address, now: Time, tx: Tx, before: map<Key, Volumes>,
                                      effective: map<Key, Volumes>, use: Option<KeyUse>, undone: Option<nat>)
    requires Inv(db) && Fits(db, tx, before, effective) && UndoFits(db, tx, undone)
    ensures var r := CloseAround(db, Landed(db, tx, before, effective, use, undone), a, now);
            && (r.reply.Acknowledged? <==> a != WORLD && Drains(db, a, tx.postings))
            && (r.reply.Acknowledged? ==> StrandedBy(db.rows, r.db, a, tx.postings))
  {
    var after := Landed(db, tx, before, effective, use, undone);
    LandedFields(db, tx, before, effective, use, undone);
    AcknowledgedIff(db, after, a, tx.postings, now);
    if CloseAround(db, after, a, now).reply.Acknowledged? {
      AcknowledgedFlags(db, after, a, now);
      FitsRaces(db, a, tx, before, effective);
      FlaggedAfter(db, a, now, tx, after);
    }
  }

  /** A transaction that had looked at closure, and lands after an account that held nothing was closed: what
      closed accounts then hold is exactly what it left on rows of the account. */
  lemma {:induction false} OvertakenClose(db: Db, a: Address, now: Time, tx: Tx, before: map<Key, Volumes>,
                                          effective: map<Key, Volumes>, use: Option<KeyUse>, undone: Option<nat>)
    requires Inv(db) && Fits(db, tx, before, effective) && UndoFits(db, tx, undone)
    requires Close(db, a, now).reply.Acknowledged?
    ensures StrandedBy(db.rows, Landed(Close(db, a, now).db, tx, before, effective, use, undone), a, tx.postings)
  {
    var c, p := Close(db, a, now).db, tx.postings;
    LandedFields(c, tx, before, effective, use, undone);
    var r := Landed(c, tx, before, effective, use, undone);
    forall x ensures ClosedIn(r.accounts, x) <==> x == a || ClosedIn(db.accounts, x) {
      FlaggedShuts(db, a, now, x);
      UpsertedShut(c.accounts, Accounts(p), tx.timestamp, x);
    }
    RacedKeys(db, a, r, p);
  }

  // a deposit decided on an empty ledger
  lemma {:induction false} DepositFits(start: Db, item: Item, now: Time)
      returns (tx: Tx, before: map<Key, Volumes>, effective: map<Key, Volumes>)
    requires start == EMPTY && Funds(item.postings) && item.reference == ""
    ensures Inv(start) && Fits(start, tx, before, effective) && tx.postings == item.postings
  {
    EmptyInv();
    FundingWellFormed(item.postings);
    WellFormedIsAcceptable(item.postings);
    FundingLands(start, item, None, now);
    ApplyAndLogLands(start, item, None, now);
    tx := ApplyAndLog(start, item, None, now).value.tx;
    before := VolumesOf(LockRead(start, Touched(item.postings)));
    effective := EffectiveReads(start.moves, Touched(item.postings), tx.timestamp);
  }

  lemma {:induction false} LandsThere(db: Db, a: Address, now: Time, tx: Tx, before: map<Key, Volumes>,
                                      effective: map<Key, Volumes>, k: Key)
    requires Fits(db, tx, before, effective) && k in Touched(tx.postings)
    ensures k in Landed(Close(db, a, now).db, tx, before, effective, None, None).rows
  {
    LandedFields(Close(db, a, now).db, tx, before, effective, None, None);
  }

  lemma {:induction false} ReceiptUnsettles(rows: map<Key, Row>, p: Postings, k: Key)
    requires rows == map[] && (forall q | q in p :: q.source == WORLD && q.Acceptable()) && k.account != WORLD
             && Flow(p, k, false) > 0
    ensures k in Touched(p) && Unsettles(rows, k.account, p, k)
  {
    if k !in Touched(p) { UntouchedDelta(p, k); }
    NothingLeaves(p, k);
  }

  lemma {:induction false} StrandedThere(was: map<Key, Row>, r: Db, p: Postings, k: Key)
    requires StrandedBy(was, r, k.account, p) && k in r.rows && Unsettles(was, k.account, p, k)
    ensures Stranded(r.rows, r.accounts, k)
  {
  }

  /** It happens: an account nothing has touched is closed while a deposit to it is in flight. */
  lemma {:induction false} CloseCanStrand(start: Db, item: Item, now: Time, k: Key)
      returns (tx: Tx, before: map<Key, Volumes>, effective: map<Key, Volumes>)
    requires start == EMPTY && Funds(item.postings) && item.reference == "" && k.account != WORLD
             && Flow(item.postings, k, false) > 0
    ensures Fits(start, tx, before, effective) && Close(start, k.account, now).reply.Acknowledged?
    ensures var r := Landed(Close(start, k.account, now).db, tx, before, effective, None, None);
            Stranded(r.rows, r.accounts, k)
  {
    tx, before, effective := DepositFits(start, item, now);
    OvertakenClose(start, k.account, now, tx, before, effective, None, None);
    ReceiptUnsettles(start.rows, item.postings, k);
    LandsThere(start, k.account, now, tx, before, effective, k);
    var r := Landed(Close(start, k.account, now).db, tx, before, effective, None, None);
    StrandedThere(start.rows, r, tx.postings, k);
  }

  // ---------------------------------------------------------------- the world account

  // wherever world has a row it may go negative
  ghost predicate WorldOpen(rows: map<Key, Row>) {
    forall k | k in rows && k.account == WORLD :: rows[k].allowNegative
  }

  // asking that an untouched world row may be positive creates it without the permission to be negative
  ghost predicate ShutsWorld(db: Db, op: Op) {
    op.OpAllowPositive? && op.row.account == WORLD && op.allow && op.row !in db.rows
  }

  lemma {:induction false} LandingKeepsWorld(db: Db, tx: Tx, before: map<Key, Volumes>, effective: map<Key, Volumes>)
    requires WorldOpen(db.rows)
    ensures WorldOpen(Installed(db, tx, before, effective).rows)
  {
  }

  lemma {:induction false} ItemKeepsWorld(db: Db, item: Item, use: Option<KeyUse>, now: Time)
    requires Inv(db) && Malformed(item.postings).None? && ApplyAndLog(db, item, use, now).Done? && WorldOpen(db.rows)
    ensures WorldOpen(ApplyAndLog(db, item, use, now).value.db.rows)
  {
    WellFormedIsAcceptable(item.postings);
    ApplyAndLogLands(db, item, use, now);
    var a, ks := ApplyAndLog(db, item, use, now).value, Touched(item.postings);
    var before, effective := VolumesOf(LockRead(db, ks)), EffectiveReads(db.moves, ks, a.tx.timestamp);
    LandedFields(db, a.tx, before, effective, use, None);
    LandingKeepsWorld(db, a.tx, before, effective);
  }

  lemma {:induction false} ItemsKeepWorld(db: Db, items: seq<Item>, key: string, now: Time, n: nat)
    requires Inv(db) && n <= |items| && WorldOpen(db.rows)
    requires forall i | 0 <= i < |items| :: Malformed(items[i].postings).None?
    requires RunItems(db, items, key, now, n).Done?
    ensures WorldOpen(RunItems(db, items, key, now, n).value.db.rows)
  {
    if n > 0 {
      var m := n - 1;
      RunItemsLast(db, items, key, now, m, n);
      RunItemsKeepsInv(db, items, key, now, m);
      ItemsKeepWorld(db, items, key, now, m);
      var r := RunItems(db, items, key, now, m).value.db;
      ItemKeepsWorld(r, Tagged(items[m], key, items), BatchUse(key, items, m), now);
    }
  }

  lemma {:induction false} CommitKeepsWorld(db: Db, item: Item, key: string, dryRun: bool, now: Time)
    requires Inv(db) && WorldOpen(db.rows)
    ensures WorldOpen(Commit(db, item, key, dryRun, now).db.rows)
  {
    var use := Use(key, CommitHash(item));
    if Malformed(item.postings).None? && ApplyAndLog(db, item, use, now).Done? { ItemKeepsWorld(db, item, use, now); }
  }

  lemma {:induction false} BatchKeepsWorld(db: Db, items: seq<Item>, key: string, dryRun: bool, now: Time)
    requires Inv(db) && WorldOpen(db.rows)
    ensures WorldOpen(Batch(db, items, key, dryRun, now).db.rows)
  {
    BatchComesTo(db, items, key, dryRun, now);
    if BatchRan(db, items, key, now, Batch(db, items, key, dryRun, now).db) {
      MaterialisedKeepsInv(db, BatchTouched(items));
      ItemsKeepWorld(Locking(db, BatchTouched(items)), items, key, now, |items|);
    }
  }

  lemma {:induction false} RevertKeepsWorld(db: Db, id: nat, at: bool, now: Time)
    requires Inv(db) && WorldOpen(db.rows)
    ensures WorldOpen(Revert(db, id, at, now).db.rows)
  {
    if Revert(db, id, at, now).reply.RevertedBy? {
      RevertLands(db, id, at, now);
      var tx := Revert(db, id, at, now).reply.tx;
      var ks := Touched(tx.postings);
      var before, effective := VolumesOf(LockRead(db, ks)), EffectiveReads(db.moves, ks, tx.timestamp);
      LandedFields(db, tx, before, effective, None, Some(id));
      LandingKeepsWorld(db, tx, before, effective);
    }
  }

  lemma {:induction false} PolicyAndWorld(db: Db, op: Op)
    requires WorldOpen(db.rows) && (op.OpAllowNegative? || op.OpAllowPositive?)
    ensures WorldOpen(Perform(db, op).db.rows) <==> !ShutsWorld(db, op)
  {
    var k, rows := op.row, Perform(db, op).db.rows;
    assert k in rows || k.account == WORLD;
  }

  lemma {:induction false} RowsStay(db: Db, op: Op)
    requires !op.OpCommit? && !op.OpBatch? && !op.OpRevert? && !op.OpAllowNegative? && !op.OpAllowPositive?
    ensures Perform(db, op).db.rows == db.rows
  {
  }

  /** The promise that world may always go negative is kept by every operation but one, and that
      one breaks it exactly when the row does not exist yet. */
  lemma {:induction false} WorldStaysOpenUnlessShut(db: Db, op: Op)
    requires Inv(db) && WorldOpen(db.rows)
    ensures WorldOpen(Perform(db, op).db.rows) <==> !ShutsWorld(db, op)
  {
    match op
    case OpCommit(item, key, dryRun, now) => CommitKeepsWorld(db, item, key, dryRun, now);
    case OpBatch(items, key, dryRun, now) => BatchKeepsWorld(db, items, key, dryRun, now);
    case OpRevert(id, at, now) => RevertKeepsWorld(db, id, at, now);
    case OpAllowNegative(_, _) => PolicyAndWorld(db, op);
    case OpAllowPositive(_, _) => PolicyAndWorld(db, op);
    case _ => RowsStay(db, op);
  }

  // on an empty ledger: world told it may hold a positive balance is thereby told it may not hold a negative one
  lemma {:induction false} WorldCanBeShut(asset: Asset) returns (db: Db)
    ensures Reachable(db) && Key(WORLD, asset) in db.rows && !db.rows[Key(WORLD, asset)].allowNegative
  {
    var op := OpAllowPositive(Key(WORLD, asset), true);
    db := Perform(EMPTY, op).db;
    assert [op][..0] == [];
    assert Run(EMPTY, [op]) == db;
    assert forall o | o in [op] :: Sensible(o);
  }
}

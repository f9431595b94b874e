/** The tables of one ledger, updated in place. Each method is one statement, or one stretch of
    statements, of the engine, and is shown to do what the specification of the operation says. */
module Storage {
  import opened Ledger
  import opened History
  import opened Engine
  import opened Sweeps
  import opened Runs

  ghost function KeySet(ks: seq<Key>): set<Key> { set k | k in ks }

  // the rows a list of deltas names, in its order
  function Pairs(us: seq<VolumeUpdate>): (r: seq<Key>)
    ensures |r| == |us|
  {
    seq(|us|, i requires 0 <= i < |us| => us[i].key)
  }

  lemma {:induction false} PairsTouched(p: Postings)
    ensures Pairs(Updates(p)) == SortedKeys(Touched(p)) && KeySet(Pairs(Updates(p))) == Touched(p)
  {
    SortedKeysAscend(Touched(p));
    assert Pairs(Updates(p)) == SortedKeys(Touched(p));
  }

  lemma {:induction false} KeySetNext(ks: seq<Key>, i: nat)
    requires i < |ks|
    ensures KeySet(ks[..i + 1]) == KeySet(ks[..i]) + {ks[i]}
  {
    TakeNext(ks, i);
  }

  lemma {:induction false} KeySetAll(ks: seq<Key>)
    ensures KeySet(ks[..|ks|]) == KeySet(ks)
  {
    assert ks[..|ks|] == ks;
  }

  lemma {:induction false} NotBefore(ks: seq<Key>, i: nat)
    requires Ascending(ks) && i < |ks|
    ensures ks[i] !in ks[..i]
  {
    forall j | 0 <= j < i ensures ks[j] != ks[i] { KeyTotal(ks[j], ks[i]); }
  }

  // ---------------------------------------------------------------- what the final checks read

  method CheckClosed(before: map<Key, Locked>, us: seq<VolumeUpdate>) returns (e: Option<Error>)
    ensures e == FirstClosed(before, us)
  {
    assert us[0..] == us;
    for i := 0 to |us|
      invariant FirstClosed(before, us) == FirstClosed(before, us[i..])
    {
      assert us[i..][1..] == us[i + 1..];
      if us[i].key in before && before[us[i].key].closed { return Some(AccountClosed(us[i].key.account)); }
    }
    e := None;
  }

  method CheckBalances(before: map<Key, Locked>, us: seq<VolumeUpdate>) returns (e: Option<Error>)
    ensures e == FirstOutOfBounds(before, us)
  {
    assert us[0..] == us;
    for i := 0 to |us|
      invariant FirstOutOfBounds(before, us) == FirstOutOfBounds(before, us[i..])
    {
      assert us[i..][1..] == us[i + 1..];
      if us[i].key in before {
        var v, u := before[us[i].key].row, us[i];
        var input, output := v.volumes.input + u.input, v.volumes.output + u.output;
        if !v.allowNegative && input < output { return Some(InsufficientFunds(u.key, v.volumes.Balance(), u.output)); }
        if !v.allowPositive && input > output { return Some(UnexpectedCredit(u.key, input - output)); }
      }
    }
    e := None;
  }

  method HasUpTo(p: Postings) returns (r: bool)
    ensures r <==> exists q | q in p :: q.upTo
  {
    for i := 0 to |p|
      invariant forall j | 0 <= j < i :: !p[j].upTo
    {
      if p[i].upTo { return true; }
    }
    r := false;
  }

  method Validate(p: Postings) returns (e: Option<Error>)
    ensures e == Malformed(p)
  {
    if |p| == 0 { return Some(NoPostings); }
    for i := 0 to |p|
      invariant Malformed(p) == Invalid(p, i)
    {
      if PostingError(p[i]).Some? { return Some(InvalidPosting(i, PostingError(p[i]).value)); }
    }
    e := None;
  }

  /** Everything decided from the locked rows: sweeps only when there are any, then the deltas again,
      then closure, then the bounds. */
  method DecidePostings(before: map<Key, Locked>, p: Postings, us: seq<VolumeUpdate>)
      returns (r: Outcome<Postings>, updates: seq<VolumeUpdate>)
    requires FirstNil(p, 0).None? && us == Updates(p)
    ensures r == Prepare(before, p)
    ensures r.Done? ==> updates == Updates(r.value)
  {
    var q := p;
    updates := us;
    var sweeps := HasUpTo(p);
    if sweeps {
      var resolved, _ := ResolveUpTo(p, before);
      if resolved.Refused? { return Refused(resolved.error), us; }
      q := resolved.value;
      ResolvedNotNil(p, before);
      var again := VolumeUpdates(q);
      updates := again.updates;
    } else {
      NothingToResolve(p, before);
    }
    var closed := CheckClosed(before, updates);
    if closed.Some? { return Refused(closed.value), updates; }
    var bound := CheckBalances(before, updates);
    if bound.Some? { return Refused(bound.value), updates; }
    r := Done(q);
  }

  lemma {:induction false} ResolvedNotNil(p: Postings, before: map<Key, Locked>)
    requires FirstNil(p, 0).None? && Resolve(p, before).Done?
    ensures FirstNil(Resolve(p, before).value, 0).None?
  {
    ResolveExact(p, before);
    var out := Resolve(p, before).value;
    forall i | 0 <= i < |p| ensures out[i].amount.Some? || out[i].upTo { assert ResolvedAt(p, before, out, i); }
  }

  // the rows named so far moved by their deltas, the rest as they were
  ghost predicate PartlyApplied(was: map<Key, Row>, rows: map<Key, Row>, p: Postings, done: seq<Key>) {
    && rows.Keys == was.Keys
    && forall k | k in rows :: rows[k] == if k in done then was[k].(volumes := After(was[k].volumes, p, k)) else was[k]
  }

  lemma {:induction false} PartlyNext(was: map<Key, Row>, rows: map<Key, Row>, p: Postings, done: seq<Key>,
                                      u: VolumeUpdate)
    requires PartlyApplied(was, rows, p, done) && u.key in rows && u.key !in done && u == UpdateOf(p, u.key)
    ensures PartlyApplied(was, Bumped(rows, u), p, done + [u.key])
  {
  }

  // one row's counters moved by its delta
  function Bumped(rows: map<Key, Row>, u: VolumeUpdate): map<Key, Row>
    requires u.key in rows
  {
    var v := rows[u.key].volumes;
    rows[u.key := rows[u.key].(volumes := Volumes(v.input + u.input, v.output + u.output))]
  }

  lemma {:induction false} UpdateAt(p: Postings, i: nat)
    requires i < |Updates(p)|
    ensures var ks, u := Pairs(Updates(p)), Updates(p)[i];
            && u == UpdateOf(p, u.key) && u.key in Touched(p) && u.key !in ks[..i]
            && ks[..i + 1] == ks[..i] + [u.key]
  {
    var ks := Pairs(Updates(p));
    PairsTouched(p);
    SortedKeysAscend(Touched(p));
    NotBefore(ks, i);
    TakeNext(ks, i);
    assert ks[i] in ks;
  }

  lemma {:induction false} PartlyAll(was: map<Key, Row>, rows: map<Key, Row>, p: Postings, ks: seq<Key>)
    requires PartlyApplied(was, rows, p, ks) && KeySet(ks) == Touched(p)
    ensures rows == ApplyDeltas(was, p)
  {
    forall k | k in rows ensures rows[k] == ApplyDeltas(was, p)[k] {
      if k !in Touched(p) {
        assert k !in KeySet(ks);
        UntouchedDelta(p, k);
      }
    }
  }

  // ---------------------------------------------------------------- what a transaction records

  ghost predicate FrozenSoFar(r: map<Key, Volumes>, before: map<Key, Volumes>, p: Postings, done: seq<Key>) {
    r.Keys == KeySet(done) && forall k | k in r :: r[k] == After(At(before, k), p, k)
  }

  lemma {:induction false} FrozenNext(r: map<Key, Volumes>, before: map<Key, Volumes>, p: Postings, done: seq<Key>,
                                      k: Key, v: Volumes)
    requires FrozenSoFar(r, before, p, done) && v == After(At(before, k), p, k)
    ensures FrozenSoFar(r[k := v], before, p, done + [k])
  {
    assert forall x :: x in done + [k] <==> x in done || x == k;
  }

  lemma {:induction false} FrozenAll(r: map<Key, Volumes>, before: map<Key, Volumes>, p: Postings, done: seq<Key>)
    requires FrozenSoFar(r, before, p, done) && KeySet(done) == Touched(p)
    ensures r == PostCommit(before, p)
  {
  }

  // the rows read so far on a date
  ghost predicate ReadSoFar(r: map<Key, Volumes>, moves: seq<Move>, done: seq<Key>, at: Time) {
    r.Keys == KeySet(done) && forall k | k in r :: r[k] == EffectiveRead(moves, k, at)
  }

  lemma {:induction false} ReadNext(r: map<Key, Volumes>, moves: seq<Move>, done: seq<Key>, at: Time, k: Key,
                                    v: Volumes)
    requires ReadSoFar(r, moves, done, at) && v == EffectiveRead(moves, k, at)
    ensures ReadSoFar(r[k := v], moves, done + [k], at)
  {
    assert forall x :: x in done + [k] <==> x in done || x == k;
  }

  lemma {:induction false} ReadAll(r: map<Key, Volumes>, moves: seq<Move>, done: seq<Key>, at: Time, ks: set<Key>)
    requires ReadSoFar(r, moves, done, at) && KeySet(done) == ks
    ensures r == EffectiveReads(moves, ks, at)
  {
  }

  method PostCommitVolumes(before: map<Key, Locked>, us: seq<VolumeUpdate>, ghost p: Postings)
      returns (r: map<Key, Volumes>)
    requires us == Updates(p)
    ensures r == PostCommit(VolumesOf(before), p)
  {
    ghost var ks := Pairs(us);
    PairsTouched(p);
    r := map[];
    for i := 0 to |us|
      invariant FrozenSoFar(r, VolumesOf(before), p, ks[..i])
    {
      UpdateAt(p, i);
      var k := us[i].key;
      var v := if k in before then before[k].row.volumes else ZERO;
      var after := Volumes(v.input + us[i].input, v.output + us[i].output);
      FrozenNext(r, VolumesOf(before), p, ks[..i], k, after);
      r := r[k := after];
    }
    assert ks[..|us|] == ks;
    FrozenAll(r, VolumesOf(before), p, ks);
  }

  // the accounts of the deltas, each once where they arrive sorted
  method Addresses(us: seq<VolumeUpdate>, ghost p: Postings) returns (r: seq<Address>)
    requires us == Updates(p)
    ensures forall a :: a in r <==> a in Accounts(p)
  {
    r := [];
    for i := 0 to |us|
      invariant forall a :: a in r <==> exists j | 0 <= j < i :: us[j].key.account == a
    {
      if |r| == 0 || r[|r| - 1] != us[i].key.account { r := r + [us[i].key.account]; }
      assert us[i].key.account in r;
    }
    forall a ensures a in r <==> a in Accounts(p) { AccountsOf(p, a); }
  }

  lemma {:induction false} AccountsOf(p: Postings, a: Address)
    ensures a in Accounts(p) <==> exists j | 0 <= j < |Updates(p)| :: Updates(p)[j].key.account == a
  {
    var ks := SortedKeys(Touched(p));
    SortedKeysAscend(Touched(p));
    if a in Accounts(p) {
      var k :| k in Touched(p) && k.account == a;
      assert k in ks;
      var j :| 0 <= j < |ks| && ks[j] == k;
      assert Updates(p)[j].key == k;
    }
    forall j | 0 <= j < |ks| ensures Updates(p)[j].key in Touched(p) { assert ks[j] in ks; }
  }

  ghost function AddressSet(s: seq<Address>): set<Address> { set a | a in s }

  // an account already there keeps the earlier of its first usage and this
  function UpsertOne(accounts: map<Address, Account>, a: Address, at: Time): map<Address, Account> {
    accounts[a := if a in accounts then accounts[a].(firstUsage := Min(accounts[a].firstUsage, at))
                  else Account(map[], at, false)]
  }

  lemma {:induction false} UpsertNext(was: map<Address, Account>, s: seq<Address>, i: nat, at: Time)
    requires i < |s|
    ensures UpsertOne(Upserted(was, AddressSet(s[..i]), at), s[i], at) == Upserted(was, AddressSet(s[..i + 1]), at)
  {
    TakeNext(s, i);
    assert AddressSet(s[..i + 1]) == AddressSet(s[..i]) + {s[i]};
  }

  // the histories running alongside the rows as they are queued
  ghost predicate Follows(running: map<Key, Volumes>, before: map<Key, Volumes>, legs: seq<Movement>) {
    forall k {:trigger At(running, k)} :: At(running, k) == Accrued(At(before, k), legs, k)
  }

  lemma {:induction false} FollowsNext(running: map<Key, Volumes>, before: map<Key, Volumes>, legs: seq<Movement>,
                                       m: Movement)
    requires Follows(running, before, legs)
    ensures Follows(AddMove(running, m), before, legs + [m])
  {
    forall k ensures At(AddMove(running, m), k) == Accrued(At(before, k), legs + [m], k) {
      TotalSnoc(legs, m, k, false);
      TotalSnoc(legs, m, k, true);
    }
  }

  lemma {:induction false} NewMovesSnoc(legs: seq<Movement>, m: Movement, before: map<Key, Volumes>,
                                        effective: map<Key, Volumes>)
    ensures NewMoves(legs + [m], before, effective) == NewMoves(legs, before, effective) +
            [Move(m, Accrued(At(before, m.key), legs + [m], m.key), Accrued(At(effective, m.key), legs + [m], m.key))]
  {
    var all := legs + [m];
    forall t | 0 <= t < |legs| ensures NewMove(all, t, before, effective) == NewMove(legs, t, before, effective) {
      assert all[..t + 1] == legs[..t + 1];
    }
    assert all[..|legs| + 1] == all;
  }

  lemma {:induction false} LegsNext(p: Postings, i: nat, id: nat, d: Time)
    requires i < |p|
    ensures Legs(p[..i + 1], id, d) == Legs(p[..i], id, d) + [Sent(p[i], id, d)] + [Received(p[i], id, d)]
  {
    assert p[..i + 1][..i] == p[..i];
  }

  // one row's delta on a move of it dated strictly later
  function Bump(m: Move, u: VolumeUpdate, at: Time): Move {
    if m.movement.key == u.key && m.movement.date > at then
      m.(pcev := Volumes(m.pcev.input + u.input, m.pcev.output + u.output))
    else m
  }

  ghost predicate PartlyShifted(was: seq<Move>, now: seq<Move>, p: Postings, at: Time, done: seq<Key>) {
    |now| == |was| && forall j | 0 <= j < |was| ::
      now[j] == if was[j].movement.key in done then ShiftOne(was[j], p, at) else was[j]
  }

  lemma {:induction false} ShiftNext(was: seq<Move>, now: seq<Move>, next: seq<Move>, p: Postings, at: Time,
                                     done: seq<Key>, u: VolumeUpdate)
    requires PartlyShifted(was, now, p, at, done) && u.key !in done && u == UpdateOf(p, u.key)
    requires |next| == |now| && forall j | 0 <= j < |now| :: next[j] == Bump(now[j], u, at)
    ensures PartlyShifted(was, next, p, at, done + [u.key])
  {
  }

  // once every touched row is shifted, so is every row: the others have no delta
  lemma {:induction false} ShiftAll(was: seq<Move>, now: seq<Move>, p: Postings, at: Time, ks: seq<Key>)
    requires PartlyShifted(was, now, p, at, ks) && KeySet(ks) == Touched(p)
    ensures now == Shift(was, p, at)
  {
    forall j | 0 <= j < |was| ensures now[j] == ShiftOne(was[j], p, at) {
      var k := was[j].movement.key;
      if k !in Touched(p) {
        assert k !in KeySet(ks);
        UntouchedDelta(p, k);
      }
    }
  }

  // rows written on the date itself are not later than it
  lemma {:induction false} ShiftSplits(ms: seq<Move>, p: Postings, id: nat, d: Time, before: map<Key, Volumes>,
                                       effective: map<Key, Volumes>)
    ensures Shift(ms + NewMoves(Legs(p, id, d), before, effective), p, d) == Posted(ms, p, id, d, before, effective)
  {
  }

  lemma {:induction false} BatchTouchedNext(items: seq<Item>, i: nat)
    requires i < |items|
    ensures BatchTouched(items[..i + 1]) == BatchTouched(items[..i]) + Touched(items[i].postings)
  {
    var a, b := items[..i + 1], items[..i];
    forall k | k in BatchTouched(a) ensures k in BatchTouched(b) + Touched(items[i].postings) {
      var j :| 0 <= j < |a| && k in Touched(a[j].postings);
      assert j < i ==> b[j] == a[j];
    }
    forall k | k in BatchTouched(b) ensures k in BatchTouched(a) {
      var j :| 0 <= j < |b| && k in Touched(b[j].postings);
      assert a[j] == b[j];
    }
    assert a[i] == items[i];
  }

  lemma {:induction false} NextRan(db: Db, items: seq<Item>, key: string, now: Time, m: nat, n: nat, r: Ran, a: Applied)
    requires n == m + 1 && n <= |items| && RunItems(db, items, key, now, m) == Done(r)
    requires ApplyAndLog(r.db, Tagged(items[m], key, items), BatchUse(key, items, m), now) == Done(a)
    ensures RunItems(db, items, key, now, n) == Done(Ran(a.db, r.txs + [a.tx]))
  {
    RunItemsLast(db, items, key, now, m, n);
  }

  // well formed postings have an amount or are a ceiling
  lemma {:induction false} WellFormedNotNil(p: Postings)
    requires Malformed(p).None?
    ensures FirstNil(p, 0).None?
  {
    forall j | 0 <= j < |p| ensures p[j].amount.Some? || p[j].upTo { assert PostingError(p[j]).None?; }
  }

  // what reversing comes to once the inverse has been applied
  lemma {:induction false} RevertComesTo(db: Db, id: nat, at: bool, now: Time)
    requires id in db.txs && db.txs[id].revertedAt.None?
    ensures var a, s := Apply(db, RevertItem(db.txs[id], id, at, now), now), Revert(db, id, at, now);
            if a.Refused? then s == Step(db, Rejected(a.error))
            else
              id in a.value.db.txs &&
              s == Step(Appended(Stamped(a.value.db, id, a.value.tx.timestamp),
                                 RevertedTransaction, RevertData(id, a.value.tx), None),
                        RevertedBy(id, a.value.tx))
  {
    var a := Apply(db, RevertItem(db.txs[id], id, at, now), now);
    if a.Done? { assert id in a.value.db.txs; }
  }

  // table by table, what installing a transaction comes to
  lemma {:induction false} InstalledIs(db: Db, r: Db, t: Tx, before: map<Key, Volumes>, effective: map<Key, Volumes>)
    requires r.rows == ApplyDeltas(Materialised(db.rows, Touched(t.postings)), t.postings)
    requires r.accounts == Upserted(db.accounts, Accounts(t.postings), t.timestamp)
    requires r.txs == db.txs[t.id := TxRow(t, t.metadata, None)]
    requires r.moves == Posted(db.moves, t.postings, t.id, t.timestamp, before, effective)
    requires r.logs == db.logs && r.tip == db.tip && r.lastTx == db.lastTx + 1 && r.lastLog == db.lastLog + 1
    ensures r == Installed(db, t, before, effective)
  {
  }

  lemma {:induction false} ApplyInstalls(db: Db, item: Item, now: Time, before: map<Key, Locked>, q: Postings,
                                         effective: map<Key, Volumes>, t: Tx)
    requires before == LockRead(db, Touched(item.postings)) && Prepare(before, item.postings) == Done(q)
    requires effective == EffectiveReads(db.moves, Touched(q), Stamp(item.timestamp, now))
    requires t == Tx(db.lastTx + 1, q, Stamp(item.timestamp, now), item.reference, item.metadata,
               PostCommit(VolumesOf(before), q))
    ensures if item.reference != "" && ReferenceUsed(db, item.reference) then
              Apply(db, item, now) == Refused(DuplicateReference(item.reference))
            else Apply(db, item, now) == Done(Applied(Installed(db, t, VolumesOf(before), effective), t))
  {
    ApplyIsSteps(db, item, now, before, q, effective);
    WriteInstalls(db, item, q, Stamp(item.timestamp, now), VolumesOf(before), effective);
  }

  // ---------------------------------------------------------------- the tables

  class Store {
    var rows: map<Key, Row>
    var accounts: map<Address, Account>
    var txs: map<nat, TxRow>
    var moves: seq<Move>
    var logs: seq<Log>
    var lastTx: nat
    var lastLog: nat
    var tip: Hash

    function State(): Db
      reads this
    {
      Db(rows, accounts, txs, moves, logs, lastTx, lastLog, tip)
    }

    constructor ()
      ensures State() == EMPTY
    {
      rows, accounts, txs, moves, logs := map[], map[], map[], [], [];
      lastTx, lastLog, tip := 0, 0, Root;
    }

    // the transaction is undone: whatever it wrote disappears with it
    method Rollback(saved: Db)
      modifies this
      ensures State() == saved
    {
      rows, accounts, txs, moves, logs := saved.rows, saved.accounts, saved.txs, saved.moves, saved.logs;
      lastTx, lastLog, tip := saved.lastTx, saved.lastLog, saved.tip;
    }

    // -------------------------------------------------------------- locking

    method Materialise(ks: seq<Key>)
      modifies `rows
      ensures rows == Materialised(old(rows), KeySet(ks))
    {
      for i := 0 to |ks|
        invariant rows == Materialised(old(rows), KeySet(ks[..i]))
      {
        KeySetNext(ks, i);
        if ks[i] !in rows { rows := rows[ks[i] := DefaultRow(ks[i])]; }
      }
      KeySetAll(ks);
    }

    method ReadRows(ks: seq<Key>) returns (current: map<Key, Locked>)
      requires forall k | k in ks :: k in rows
      ensures current == map k | k in KeySet(ks) :: Locked(rows[k], false)
    {
      current := map[];
      for i := 0 to |ks|
        invariant current.Keys == KeySet(ks[..i])
        invariant forall k | k in current :: k in rows && current[k] == Locked(rows[k], false)
      {
        KeySetNext(ks, i);
        assert ks[i] in ks;
        current := current[ks[i] := Locked(rows[ks[i]], false)];
      }
      KeySetAll(ks);
    }

    // the accounts among them that are closed, in one read
    method ScanClosed(ks: seq<Key>) returns (closed: set<Address>)
      ensures forall a :: a in closed <==> (exists k | k in ks :: k.account == a) && Closed(State(), a)
    {
      closed := {};
      for i := 0 to |ks|
        invariant forall a :: a in closed <==> (exists k | k in ks[..i] :: k.account == a) && Closed(State(), a)
      {
        TakeNext(ks, i);
        if ks[i].account in accounts && accounts[ks[i].account].closed { closed := closed + {ks[i].account}; }
      }
      assert ks[..|ks|] == ks;
    }

    /** Missing rows are created, every row is read as it is locked, and closure is read last. */
    method LockVolumes(ks: seq<Key>) returns (current: map<Key, Locked>)
      modifies `rows
      ensures rows == Materialised(old(rows), KeySet(ks))
      ensures current == LockRead(old(State()), KeySet(ks))
    {
      Materialise(ks);
      var open := ReadRows(ks);
      var closed := ScanClosed(ks);
      current := map k | k in open :: open[k].(closed := k.account in closed);
    }

    // -------------------------------------------------------------- volumes

    method ApplyVolumes(us: seq<VolumeUpdate>, ghost p: Postings)
      requires us == Updates(p) && Touched(p) <= rows.Keys
      modifies `rows
      ensures rows == ApplyDeltas(old(rows), p)
    {
      ghost var ks := Pairs(us);
      PairsTouched(p);
      for i := 0 to |us|
        invariant PartlyApplied(old(rows), rows, p, ks[..i])
      {
        UpdateAt(p, i);
        PartlyNext(old(rows), rows, p, ks[..i], us[i]);
        rows := Bumped(rows, us[i]);
      }
      assert ks[..|us|] == ks;
      PartlyAll(old(rows), rows, p, ks);
    }

    // what each touched row held on a date, one look at the moves a row
    method EffectiveVolumesAt(us: seq<VolumeUpdate>, at: Time, ghost p: Postings) returns (r: map<Key, Volumes>)
      requires us == Updates(p)
      ensures r == EffectiveReads(moves, Touched(p), at)
    {
      var ks := Pairs(us);
      PairsTouched(p);
      r := map[];
      for i := 0 to |ks|
        invariant ReadSoFar(r, moves, ks[..i], at)
      {
        TakeNext(ks, i);
        var latest := Latest(moves, ks[i], at);
        var v := if latest.Some? then moves[latest.value].pcev else ZERO;
        ReadNext(r, moves, ks[..i], at, ks[i], v);
        r := r[ks[i] := v];
      }
      assert ks[..|ks|] == ks;
      ReadAll(r, moves, ks, at, Touched(p));
    }

    // -------------------------------------------------------------- numbering and rows

    method Allocate()
      modifies `lastTx, `lastLog
      ensures lastTx == old(lastTx) + 1 && lastLog == old(lastLog) + 1
    {
      lastTx, lastLog := lastTx + 1, lastLog + 1;
    }

    method AllocateLogId()
      modifies `lastLog
      ensures lastLog == old(lastLog) + 1
    {
      lastLog := lastLog + 1;
    }

    // a reference in use is caught here
    method InsertTransaction(t: Tx) returns (duplicate: bool)
      modifies `txs
      ensures duplicate <==> t.reference != "" && exists id | id in old(txs) ::
                old(txs)[id].tx.reference == t.reference
      ensures txs == if duplicate then old(txs) else old(txs)[t.id := TxRow(t, t.metadata, None)]
    {
      duplicate := t.reference != "" && ReferenceUsed(State(), t.reference);
      if !duplicate { txs := txs[t.id := TxRow(t, t.metadata, None)]; }
    }

    method UpsertAccounts(us: seq<VolumeUpdate>, at: Time, ghost p: Postings)
      requires us == Updates(p)
      modifies `accounts
      ensures accounts == Upserted(old(accounts), Accounts(p), at)
    {
      var addresses := Addresses(us, p);
      for i := 0 to |addresses|
        invariant accounts == Upserted(old(accounts), AddressSet(addresses[..i]), at)
      {
        UpsertNext(old(accounts), addresses, i, at);
        accounts := UpsertOne(accounts, addresses[i], at);
      }
      assert addresses[..|addresses|] == addresses;
      assert AddressSet(addresses) == Accounts(p);
    }

    // -------------------------------------------------------------- moves

    method InsertMove(m: Movement, running: map<Key, Volumes>, effective: map<Key, Volumes>,
                      ghost before: map<Key, Volumes>, ghost asOf: map<Key, Volumes>, ghost legs: seq<Movement>)
        returns (running': map<Key, Volumes>, effective': map<Key, Volumes>)
      requires Follows(running, before, legs) && Follows(effective, asOf, legs)
      modifies `moves
      ensures Follows(running', before, legs + [m]) && Follows(effective', asOf, legs + [m])
      ensures |moves| == |old(moves)| + 1 && moves == old(moves) + [moves[|moves| - 1]]
      ensures NewMoves(legs + [m], before, asOf) == NewMoves(legs, before, asOf) + [moves[|moves| - 1]]
    {
      FollowsNext(running, before, legs, m);
      FollowsNext(effective, asOf, legs, m);
      running' := AddMove(running, m);
      effective' := AddMove(effective, m);
      moves := moves + [Move(m, At(running', m.key), At(effective', m.key))];
      NewMovesSnoc(legs, m, before, asOf);
    }

    // one posting: its source's move, then its destination's
    method InsertBoth(q: Posting, id: nat, d: Time, running: map<Key, Volumes>, effective: map<Key, Volumes>,
                      ghost before: map<Key, Volumes>, ghost asOf: map<Key, Volumes>, ghost was: seq<Move>,
                          ghost legs: seq<Movement>)
        returns (running': map<Key, Volumes>, effective': map<Key, Volumes>)
      requires Follows(running, before, legs) && Follows(effective, asOf, legs)
               && moves == was + NewMoves(legs, before, asOf)
      modifies `moves
      ensures var next := legs + [Sent(q, id, d)] + [Received(q, id, d)];
              Follows(running', before, next) && Follows(effective', asOf, next)
                && moves == was + NewMoves(next, before, asOf)
    {
      running', effective' := InsertMove(Sent(q, id, d), running, effective, before, asOf, legs);
      ghost var first := moves[|moves| - 1];
      assert moves == was + NewMoves(legs + [Sent(q, id, d)], before, asOf);
      running', effective' := InsertMove(Received(q, id, d), running', effective', before, asOf,
          legs + [Sent(q, id, d)]);
      assert moves == was + NewMoves(legs + [Sent(q, id, d)] + [Received(q, id, d)], before, asOf);
    }

    method InsertMoves(t: Tx, before: map<Key, Volumes>, effective: map<Key, Volumes>)
      modifies `moves
      ensures moves == old(moves) + NewMoves(Legs(t.postings, t.id, t.timestamp), before, effective)
    {
      var running, asOf := before, effective;
      for i := 0 to |t.postings|
        invariant Follows(running, before, Legs(t.postings[..i], t.id, t.timestamp))
        invariant Follows(asOf, effective, Legs(t.postings[..i], t.id, t.timestamp))
        invariant moves == old(moves) + NewMoves(Legs(t.postings[..i], t.id, t.timestamp), before, effective)
      {
        LegsNext(t.postings, i, t.id, t.timestamp);
        running, asOf := InsertBoth(t.postings[i], t.id, t.timestamp, running, asOf, before, effective,
                                    old(moves), Legs(t.postings[..i], t.id, t.timestamp));
      }
      assert t.postings[..|t.postings|] == t.postings;
    }

    method ShiftRow(u: VolumeUpdate, at: Time)
      modifies `moves
      ensures |moves| == |old(moves)| && forall j | 0 <= j < |moves| :: moves[j] == Bump(old(moves)[j], u, at)
    {
      for i := 0 to |moves|
        invariant |moves| == |old(moves)|
        invariant forall j | 0 <= j < |moves| :: moves[j] == if j < i then Bump(old(moves)[j], u, at) else old(moves)[j]
      {
        var m := moves[i];
        if m.movement.key == u.key && m.movement.date > at {
          moves := moves[i := m.(pcev := Volumes(m.pcev.input + u.input, m.pcev.output + u.output))];
        }
      }
    }

    method ShiftLater(us: seq<VolumeUpdate>, at: Time, ghost p: Postings)
      requires us == Updates(p)
      modifies `moves
      ensures moves == Shift(old(moves), p, at)
    {
      ghost var ks := Pairs(us);
      PairsTouched(p);
      for i := 0 to |us|
        invariant PartlyShifted(old(moves), moves, p, at, ks[..i])
      {
        UpdateAt(p, i);
        ghost var was := moves;
        ShiftRow(us[i], at);
        ShiftNext(old(moves), was, moves, p, at, ks[..i], us[i]);
      }
      assert ks[..|us|] == ks;
      ShiftAll(old(moves), moves, p, at, ks);
    }

    /** The transaction's moves go in, then every move dated later is shifted. */
    method QueueMoves(t: Tx, before: map<Key, Volumes>, effective: map<Key, Volumes>, us: seq<VolumeUpdate>)
      requires us == Updates(t.postings)
      modifies `moves
      ensures moves == Posted(old(moves), t.postings, t.id, t.timestamp, before, effective)
    {
      InsertMoves(t, before, effective);
      ShiftLater(us, t.timestamp, t.postings);
      ShiftSplits(old(moves), t.postings, t.id, t.timestamp, before, effective);
    }

    // -------------------------------------------------------------- the log

    // the entry at an id already allocated, chained onto the tip it moves forward
    method InsertLog(id: nat, kind: LogKind, data: Data, use: Option<KeyUse>)
      requires use.Some? ==> FindKey(logs, use.value.key).None?
      modifies `logs, `tip
      ensures logs == old(logs) + [Log(id, kind, data, Chained(old(tip), data), use)] && tip == Chained(old(tip), data)
    {
      tip := Chained(tip, data);
      logs := logs + [Log(id, kind, data, tip, use)];
    }

    // -------------------------------------------------------------- one transaction

    // lock, decide, and add the deltas
    method LockAndDecide(p: Postings)
        returns (before: map<Key, Locked>, r: Outcome<Postings>, updates: seq<VolumeUpdate>)
      modifies `rows
      ensures before == LockRead(old(State()), Touched(p)) || r.Refused?
      ensures r == Prepare(LockRead(old(State()), Touched(p)), p)
      ensures r.Done? ==>
                && updates == Updates(r.value)
                && rows == ApplyDeltas(Materialised(old(rows), Touched(r.value)), r.value)
    {
      var u := VolumeUpdates(p);
      if u.NilAmount? { return map[], Refused(NilPosting(u.index)), []; }
      PairsTouched(p);
      before := LockVolumes(Pairs(u.updates));
      r, updates := DecidePostings(before, p, u.updates);
      if r.Refused? { return; }
      PrepareGuarantees(before, p);
      ApplyVolumes(updates, r.value);
    }

    // both ids, then the transaction, its accounts and its moves
    method RecordTransaction(item: Item, q: Postings, d: Time, before: map<Key, Locked>, effective: map<Key, Volumes>,
                             updates: seq<VolumeUpdate>)
        returns (duplicate: bool, t: Tx)
      requires updates == Updates(q)
      modifies `txs, `accounts, `moves, `lastTx, `lastLog
      ensures duplicate <==> item.reference != "" && ReferenceUsed(old(State()), item.reference)
      ensures t == Tx(old(lastTx) + 1, q, d, item.reference, item.metadata, PostCommit(VolumesOf(before), q))
      ensures !duplicate ==>
                && lastTx == old(lastTx) + 1 && lastLog == old(lastLog) + 1
                && txs == old(txs)[t.id := TxRow(t, t.metadata, None)]
                && accounts == Upserted(old(accounts), Accounts(q), d)
                && moves == Posted(old(moves), q, t.id, d, VolumesOf(before), effective)
    {
      Allocate();
      var frozen := PostCommitVolumes(before, updates, q);
      t := Tx(lastTx, q, d, item.reference, item.metadata, frozen);
      duplicate := InsertTransaction(t);
      if duplicate { return; }
      UpsertAccounts(updates, d, q);
      QueueMoves(t, VolumesOf(before), effective, updates);
    }

    // from the rows locked, decided and moved on, to everything written
    method FinishTransaction(ghost db: Db, item: Item, now: Time, before: map<Key, Locked>, q: Postings,
                             updates: seq<VolumeUpdate>)
        returns (r: Outcome<Tx>)
      requires rows == ApplyDeltas(Materialised(db.rows, Touched(q)), q) && accounts == db.accounts && txs == db.txs
               && moves == db.moves
      requires logs == db.logs && tip == db.tip && lastTx == db.lastTx && lastLog == db.lastLog
      requires before == LockRead(db, Touched(item.postings)) && Prepare(before, item.postings) == Done(q)
      requires updates == Updates(q)
      modifies `txs, `accounts, `moves, `lastTx, `lastLog
      ensures r.Refused? ==> Apply(db, item, now) == Refused(r.error)
      ensures r.Done? ==> Apply(db, item, now) == Done(Applied(State(), r.value))
    {
      var timestamp := Stamp(item.timestamp, now);
      var effective := EffectiveVolumesAt(updates, timestamp, q);
      var duplicate, t := RecordTransaction(item, q, timestamp, before, effective, updates);
      ApplyInstalls(db, item, now, before, q, effective, t);
      if duplicate { return Refused(DuplicateReference(item.reference)); }
      InstalledIs(db, State(), t, VolumesOf(before), effective);
      r := Done(t);
    }

    /** A commit up to its log entry. A refusal leaves the tables as far as
        it had got, to be rolled back. */
    method ApplyTransaction(item: Item, now: Time) returns (r: Outcome<Tx>)
      modifies this
      ensures logs == old(logs) && tip == old(tip)
      ensures r.Refused? ==> Apply(old(State()), item, now) == Refused(r.error)
      ensures r.Done? ==> Apply(old(State()), item, now) == Done(Applied(State(), r.value))
    {
      ghost var db := State();
      var before, decided, updates := LockAndDecide(item.postings);
      if decided.Refused? { return Refused(decided.error); }
      r := FinishTransaction(db, item, now, before, decided.value, updates);
    }

    // -------------------------------------------------------------- commit

    method FindByIdempotencyKey(key: string) returns (r: Option<Log>)
      ensures r == FindKey(logs, key)
    {
      assert logs[0..] == logs;
      for i := 0 to |logs|
        invariant FindKey(logs, key) == FindKey(logs[i..], key)
      {
        assert logs[i..][1..] == logs[i + 1..];
        if logs[i].use.Some? && logs[i].use.value.key == key { return Some(logs[i]); }
      }
      r := None;
    }

    // whether the entry's key is in use
    method InUse(use: Option<KeyUse>) returns (taken: bool)
      ensures taken <==> Taken(logs, use)
    {
      if use.None? { return false; }
      var found := FindByIdempotencyKey(use.value.key);
      taken := found.Some?;
    }

    // a transaction applied and its entry appended, last, in the same database transaction
    method ApplyAndAppend(item: Item, use: Option<KeyUse>, now: Time) returns (r: Outcome<Tx>)
      modifies this
      ensures r.Refused? ==> ApplyAndLog(old(State()), item, use, now) == Refused(r.error)
      ensures r.Done? ==> ApplyAndLog(old(State()), item, use, now) == Done(Applied(State(), r.value))
    {
      r := ApplyTransaction(item, now);
      if r.Refused? { return; }
      var taken := InUse(use);
      if taken { return Refused(KeyTaken(use.value.key)); }
      InsertLog(lastLog, NewTransaction, TxData(r.value), use);
    }

    method CommitOnce(item: Item, key: string, dryRun: bool, now: Time) returns (reply: Reply)
      requires Malformed(item.postings).None?
      modifies this
      ensures Step(State(), reply) == Commit(old(State()), item, key, dryRun, now)
    {
      var saved := State();
      if key != "" {
        var found := FindByIdempotencyKey(key);
        if found.Some? { return Replayed(found.value, key, CommitHash(item)); }
      }
      var r := ApplyAndAppend(item, Use(key, CommitHash(item)), now);
      if r.Refused? {
        Rollback(saved);
        return Rejected(r.error);
      }
      if dryRun { Rollback(saved); }
      reply := Committed(r.value);
    }

    // an attempt lost with its locks taken, its rows written, or its entry in: all it wrote is rolled back
    method LoseCommit(item: Item, key: string, now: Time)
      requires Malformed(item.postings).None?
      modifies this
      ensures State() == old(State())
    {
      var saved := State();
      if * {
        var _, _, _ := LockAndDecide(item.postings);
      } else if * {
        var _ := ApplyTransaction(item, now);
      } else {
        var _ := CommitOnce(item, key, false, now);
      }
      Rollback(saved);
    }

    /** The retry loop: the first attempts may be lost to contention, each rolled back whole. What is
        answered in the end is what one attempt on its own answers, unless every attempt was lost. */
    method CommitTransaction(item: Item, key: string, dryRun: bool, now: Time, lost: nat) returns (reply: Reply)
      modifies this
      ensures Malformed(item.postings).Some? || lost < 10 ==>
                Step(State(), reply) == Commit(old(State()), item, key, dryRun, now)
      ensures Malformed(item.postings).None? && lost >= 10 ==>
                State() == old(State()) && reply == Rejected(GaveUp)
    {
      var invalid := Validate(item.postings);
      if invalid.Some? { return Rejected(invalid.value); }
      for attempt := 0 to MAX_ATTEMPTS
        invariant State() == old(State()) && attempt <= lost
      {
        if attempt >= lost {
          reply := CommitOnce(item, key, dryRun, now);
          return;
        }
        LoseCommit(item, key, now);
      }
      reply := Rejected(GaveUp);
    }

    // -------------------------------------------------------------- batch

    // every row the batch touches, each once
    method BatchKeys(items: seq<Item>) returns (ks: seq<Key>)
      requires forall i | 0 <= i < |items| :: Malformed(items[i].postings).None?
      ensures Ascending(ks) && KeySet(ks) == BatchTouched(items)
    {
      var seen: set<Key> := {};
      for i := 0 to |items|
        invariant seen == BatchTouched(items[..i])
      {
        BatchTouchedNext(items, i);
        WellFormedNotNil(items[i].postings);
        PairsTouched(items[i].postings);
        var u := VolumeUpdates(items[i].postings);
        seen := seen + set k | k in Pairs(u.updates);
        assert (set k | k in Pairs(u.updates)) == KeySet(Pairs(u.updates));
      }
      assert items[..|items|] == items;
      ks := SortKeys(seen);
      SortedKeysAscend(seen);
      assert KeySet(ks) == seen;
    }

    method LockBatch(items: seq<Item>)
      requires forall i | 0 <= i < |items| :: Malformed(items[i].postings).None?
      modifies `rows
      ensures rows == Materialised(old(rows), BatchTouched(items))
    {
      var ks := BatchKeys(items);
      var _ := LockVolumes(ks);
    }

    // the members of a batch, by the tag they carry
    method FindTagged(hash: RequestHash) returns (r: seq<TxRow>)
      ensures r == TaggedRows(State(), hash, lastTx)
    {
      r := [];
      for id := 0 to lastTx
        invariant r == TaggedRows(State(), hash, id)
      {
        var next := id + 1;
        if next in txs && TaggedWith(txs[next], hash) { r := r + [txs[next]]; }
      }
    }

    // an unused key finds nothing, and neither does one whose members have all lost their tag
    method FindBatchByIdempotencyKey(key: string, items: seq<Item>) returns (reply: Option<Reply>)
      requires key != ""
      ensures reply == FoundBatch(State(), key, items)
    {
      var found := FindByIdempotencyKey(key);
      if found.None? { return None; }
      if found.value.use.value.hash != BatchHash(items) { return Some(Rejected(IdempotencyMismatch(key))); }
      var members := FindTagged(BatchHash(items));
      reply := if members == [] then None else Some(ReplayedAll(members));
    }

    // one item of a batch, on what the items before it left
    method ApplyItem(items: seq<Item>, key: string, now: Time, i: nat, ghost db: Db, ghost out: seq<Tx>)
        returns (a: Outcome<Tx>)
      requires i < |items| && RunItems(db, items, key, now, i) == Done(Ran(State(), out))
      modifies this
      ensures a.Refused? ==> RunItems(db, items, key, now, |items|) == Refused(BatchItemFailed(i, a.error))
      ensures a.Done? ==> RunItems(db, items, key, now, i + 1) == Done(Ran(State(), out + [a.value]))
    {
      ghost var was := Ran(State(), out);
      a := ApplyAndAppend(Tagged(items[i], key, items), BatchUse(key, items, i), now);
      if a.Refused? {
        ItemsStop(db, items, key, now, i, |items|, was);
      } else {
        NextRan(db, items, key, now, i, i + 1, was, Applied(State(), a.value));
      }
    }

    // the items, one after another, in one database transaction
    method ApplyItems(items: seq<Item>, key: string, now: Time) returns (r: Outcome<seq<Tx>>)
      modifies this
      ensures r.Refused? ==> RunItems(old(State()), items, key, now, |items|) == Refused(r.error)
      ensures r.Done? ==> RunItems(old(State()), items, key, now, |items|) == Done(Ran(State(), r.value))
    {
      ghost var db := State();
      var out: seq<Tx> := [];
      for i := 0 to |items|
        invariant RunItems(db, items, key, now, i) == Done(Ran(State(), out))
      {
        var a := ApplyItem(items, key, now, i, db, out);
        if a.Refused? { return Refused(BatchItemFailed(i, a.error)); }
        out := out + [a.value];
      }
      r := Done(out);
    }

    method CommitBatchOnce(items: seq<Item>, key: string, dryRun: bool, now: Time) returns (reply: Reply)
      requires MalformedBatch(items).None?
      modifies this
      ensures Step(State(), reply) == Batch(old(State()), items, key, dryRun, now)
    {
      var saved := State();
      if key != "" {
        var found := FindBatchByIdempotencyKey(key, items);
        if found.Some? { return found.value; }
      }
      LockBatch(items);
      var r := ApplyItems(items, key, now);
      if r.Refused? {
        Rollback(saved);
        return Rejected(r.error);
      }
      if dryRun { Rollback(saved); }
      reply := CommittedAll(r.value);
    }

    method ValidateBatch(items: seq<Item>) returns (e: Option<Error>)
      ensures e == MalformedBatch(items)
    {
      if |items| == 0 { return Some(NoPostings); }
      if |items| > MAX_BATCH_SIZE { return Some(BatchTooLarge); }
      for i := 0 to |items|
        invariant MalformedBatch(items) == MalformedItem(items, i)
      {
        var bad := Validate(items[i].postings);
        if bad.Some? { return Some(BatchItemFailed(i, bad.value)); }
      }
      e := None;
    }

    method LoseBatch(items: seq<Item>, key: string, now: Time)
      requires MalformedBatch(items).None?
      modifies this
      ensures State() == old(State())
    {
      var saved := State();
      if * {
        LockBatch(items);
      } else if * {
        LockBatch(items);
        var _ := ApplyItems(items, key, now);
      } else {
        var _ := CommitBatchOnce(items, key, false, now);
      }
      Rollback(saved);
    }

    /** All or none, with the same retry loop. */
    method CommitBatch(items: seq<Item>, key: string, dryRun: bool, now: Time, lost: nat) returns (reply: Reply)
      modifies this
      ensures MalformedBatch(items).Some? || lost < 10 ==>
                Step(State(), reply) == Batch(old(State()), items, key, dryRun, now)
      ensures MalformedBatch(items).None? && lost >= 10 ==>
                State() == old(State()) && reply == Rejected(GaveUp)
    {
      var invalid := ValidateBatch(items);
      if invalid.Some? { return Rejected(invalid.value); }
      for attempt := 0 to MAX_ATTEMPTS
        invariant State() == old(State()) && attempt <= lost
      {
        if attempt >= lost {
          reply := CommitBatchOnce(items, key, dryRun, now);
          return;
        }
        LoseBatch(items, key, now);
      }
      reply := Rejected(GaveUp);
    }

    // -------------------------------------------------------------- revert

    // the mark on the original, and the entry, in the transaction that reverses it
    method StampReversal(id: nat, reversal: Tx)
      requires id in txs
      modifies `txs, `logs, `tip
      ensures State() == Appended(Stamped(old(State()), id, reversal.timestamp), RevertedTransaction,
                RevertData(id, reversal), None)
    {
      txs := txs[id := txs[id].(revertedAt := Some(reversal.timestamp))];
      InsertLog(lastLog, RevertedTransaction, RevertData(id, reversal), None);
    }

    method RevertOnce(id: nat, atEffectiveDate: bool, now: Time) returns (reply: Reply)
      modifies this
      ensures Step(State(), reply) == Revert(old(State()), id, atEffectiveDate, now)
    {
      var saved := State();
      if id !in txs { return Rejected(NotFound); }
      var original := txs[id];
      if original.revertedAt.Some? { return Rejected(AlreadyReverted(id)); }
      RevertComesTo(saved, id, atEffectiveDate, now);
      var r := ApplyTransaction(RevertItem(original, id, atEffectiveDate, now), now);
      if r.Refused? {
        Rollback(saved);
        return Rejected(r.error);
      }
      StampReversal(id, r.value);
      reply := RevertedBy(id, r.value);
    }

    method LoseRevert(id: nat, atEffectiveDate: bool, now: Time)
      modifies this
      ensures State() == old(State())
    {
      var saved := State();
      if * {
        if id in txs { var _ := ApplyTransaction(RevertItem(txs[id], id, atEffectiveDate, now), now); }
      } else {
        var _ := RevertOnce(id, atEffectiveDate, now);
      }
      Rollback(saved);
    }

    method RevertTransaction(id: nat, atEffectiveDate: bool, now: Time, lost: nat) returns (reply: Reply)
      modifies this
      ensures lost < 10 ==> Step(State(), reply) == Revert(old(State()), id, atEffectiveDate, now)
      ensures lost >= 10 ==> State() == old(State()) && reply == Rejected(GaveUp)
    {
      for attempt := 0 to MAX_ATTEMPTS
        invariant State() == old(State()) && attempt <= lost
      {
        if attempt >= lost {
          reply := RevertOnce(id, atEffectiveDate, now);
          return;
        }
        LoseRevert(id, atEffectiveDate, now);
      }
      reply := Rejected(GaveUp);
    }

    // -------------------------------------------------------------- metadata

    // one more log id and one more entry, when something changed
    method AppendChange(kind: LogKind, data: Data)
      modifies `logs, `lastLog, `tip
      ensures State() == AppendedNext(old(State()), kind, data)
    {
      AllocateLogId();
      InsertLog(lastLog, kind, data, None);
    }

    method SetTransactionMetadata(id: nat, m: Metadata) returns (reply: Reply)
      modifies this
      ensures Step(State(), reply) == SetTxMetadata(old(State()), id, m)
    {
      if m == map[] { return Rejected(EmptyMetadata); }
      if id !in txs { return Rejected(NotFound); }
      if Contains(txs[id].metadata, m) { return Acknowledged; }
      txs := txs[id := txs[id].(metadata := txs[id].metadata + m)];
      AppendChange(SetMetadata, SetMetadataData(OnTransaction(id), m));
      reply := Acknowledged;
    }

    method DeleteTransactionMetadataKey(id: nat, key: string) returns (reply: Reply)
      modifies this
      ensures Step(State(), reply) == DeleteTxMetadata(old(State()), id, key)
    {
      if key == "" { return Rejected(EmptyMetadataKey); }
      if id !in txs { return Rejected(NotFound); }
      if key !in txs[id].metadata { return Acknowledged; }
      txs := txs[id := txs[id].(metadata := txs[id].metadata - {key})];
      AppendChange(DeleteMetadata, DeleteMetadataData(OnTransaction(id), key));
      reply := Acknowledged;
    }

    method SetAccountMetadata(a: Address, m: Metadata, now: Time) returns (reply: Reply)
      modifies this
      ensures Step(State(), reply) == Engine.SetAccountMetadata(old(State()), a, m, now)
    {
      if m == map[] { return Rejected(EmptyMetadata); }
      if a in accounts && Contains(accounts[a].metadata, m) { return Acknowledged; }
      if a in accounts {
        accounts := accounts[a := accounts[a].(metadata := accounts[a].metadata + m)];
      } else {
        accounts := accounts[a := Account(m, Stamp(now, now), false)];
      }
      AppendChange(SetMetadata, SetMetadataData(OnAccount(a), m));
      reply := Acknowledged;
    }

    method DeleteAccountMetadataKey(a: Address, key: string) returns (reply: Reply)
      modifies this
      ensures Step(State(), reply) == DeleteAccountMetadata(old(State()), a, key)
    {
      if key == "" { return Rejected(EmptyMetadataKey); }
      if a !in accounts { return Rejected(NotFound); }
      if key !in accounts[a].metadata { return Acknowledged; }
      accounts := accounts[a := accounts[a].(metadata := accounts[a].metadata - {key})];
      AppendChange(DeleteMetadata, DeleteMetadataData(OnAccount(a), key));
      reply := Acknowledged;
    }

    // -------------------------------------------------------------- policy, closure, recovery

    method SetAllowNegative(k: Key, allow: bool) returns (reply: Reply)
      modifies `rows
      ensures Step(State(), reply) == Engine.SetAllowNegative(old(State()), k, allow)
    {
      if k.account == WORLD && !allow { return Rejected(WorldMustAllowNegative); }
      if k in rows { rows := rows[k := rows[k].(allowNegative := allow)]; }
      else { rows := rows[k := Row(ZERO, allow, true)]; }
      reply := Acknowledged;
    }

    method SetAllowPositive(k: Key, allow: bool) returns (reply: Reply)
      modifies `rows
      ensures Step(State(), reply) == Engine.SetAllowPositive(old(State()), k, allow)
    {
      if k.account == WORLD && !allow { return Rejected(WorldMustAllowNegative); }
      if k in rows { rows := rows[k := rows[k].(allowPositive := allow)]; }
      else { rows := rows[k := Row(ZERO, false, allow)]; }
      reply := Acknowledged;
    }

    // the rows of an account that hold something
    method Held(a: Address) returns (held: set<Key>)
      ensures held == {} <==> Empty(State(), a)
    {
      held := set k | k in rows && k.account == a && rows[k].volumes.input != rows[k].volumes.output;
      assert forall k | k in rows && k.account == a && rows[k].volumes.Balance() != 0 :: k in held;
    }

    method CloseAccount(a: Address, now: Time) returns (reply: Reply)
      modifies `accounts
      ensures Step(State(), reply) == Close(old(State()), a, now)
    {
      if a == WORLD { return Rejected(ClosureRefused); }
      var held := Held(a);
      if held != {} { return Rejected(AccountNotEmpty); }
      accounts := accounts[a := if a in accounts then accounts[a].(closed := true) else Account(map[], now, true)];
      reply := Acknowledged;
    }

    method ReopenAccount(a: Address) returns (reply: Reply)
      modifies `accounts
      ensures Step(State(), reply) == Reopen(old(State()), a)
    {
      if !(a in accounts && accounts[a].closed) { return Rejected(NotClosed); }
      accounts := accounts[a := accounts[a].(closed := false)];
      reply := Acknowledged;
    }

    /** Advances both counters past the watermark and declares what was skipped. */
    method RecordRecovery(watermark: Tip, note: string)
      modifies `lastTx, `lastLog, `logs, `tip
      ensures State() == Engine.RecordRecovery(old(State()), watermark, note)
    {
      if lastLog >= watermark.logId && lastTx >= watermark.txId { return; }
      var data := RecoveryData(lastLog, watermark.logId, note);
      lastTx, lastLog := Max(lastTx, watermark.txId), Max(lastLog, watermark.logId) + 1;
      InsertLog(lastLog, Recovery, data, None);
    }

    // -------------------------------------------------------------- whole runs

    // any operation, none of its attempts lost
    method Do(op: Op) returns (reply: Reply)
      modifies this
      ensures Step(State(), reply) == Perform(old(State()), op)
    {
      match op {
        case OpCommit(item, key, dryRun, now) => reply := CommitTransaction(item, key, dryRun, now, 0);
        case OpBatch(items, key, dryRun, now) => reply := CommitBatch(items, key, dryRun, now, 0);
        case OpRevert(id, at, now) => reply := RevertTransaction(id, at, now, 0);
        case OpSetTxMetadata(id, m) => reply := SetTransactionMetadata(id, m);
        case OpDeleteTxMetadata(id, name) => reply := DeleteTransactionMetadataKey(id, name);
        case OpSetAccountMetadata(a, m, now) => reply := SetAccountMetadata(a, m, now);
        case OpDeleteAccountMetadata(a, name) => reply := DeleteAccountMetadataKey(a, name);
        case OpAllowNegative(k, allow) => reply := SetAllowNegative(k, allow);
        case OpAllowPositive(k, allow) => reply := SetAllowPositive(k, allow);
        case OpClose(a, now) => reply := CloseAccount(a, now);
        case OpReopen(a) => reply := ReopenAccount(a);
        case OpRecover(t, note) =>
          RecordRecovery(t, note);
          reply := Acknowledged;
      }
    }

    /** Operations one after another leave the tables where their run leaves them, so everything proved of
        reachable states is proved of these tables. */
    method DoAll(ops: seq<Op>)
      modifies this
      ensures State() == Run(old(State()), ops)
    {
      ghost var start := State();
      for i := 0 to |ops|
        invariant State() == Run(start, ops[..i])
      {
        assert ops[..i + 1][..i] == ops[..i];
        var _ := Do(ops[i]);
      }
      assert ops[..|ops|] == ops;
    }
  }

  /** A store opened empty and taken through any operations is in a reachable state. */
  method Serve(ops: seq<Op>) returns (s: Store)
    requires forall op | op in ops :: Sensible(op)
    ensures fresh(s) && Reachable(s.State())
  {
    s := new Store();
    s.DoAll(ops);
  }
}

/** What a transaction leaves in every table, in figures: the rows, the accounts, the moves with both their
    snapshots, what is read on any date afterwards, the transaction itself and its entry. */
module Landings {
  import opened Ledger
  import opened History
  import opened Engine
  import opened Invariants
  import opened Decisions

  // ---------------------------------------------------------------- rows

  // what had come into a row, or gone out of it
  function Counted(db: Db, k: Key, out: bool): int {
    if k in db.rows then (if out then db.rows[k].volumes.output else db.rows[k].volumes.input) else 0
  }

  // the touched rows gain what the postings move, new ones from nothing; every row keeps its bounds
  ghost predicate RowsMoved(db: Db, r: Db, q: Postings) {
    && (forall k :: k in r.rows <==> k in db.rows || k in Touched(q))
    && forall k | k in r.rows :: RowMoved(db, r.rows[k], q, k)
  }

  predicate RowMoved(db: Db, row: Row, q: Postings, k: Key) {
    && row.volumes.input == Counted(db, k, false) + Flow(q, k, false)
    && row.volumes.output == Counted(db, k, true) + Flow(q, k, true)
    && row.allowNegative == MayOwe(db, k) && row.allowPositive == MayHold(db, k)
  }

  lemma {:induction false} OneRowMoves(db: Db, q: Postings, k: Key)
    requires k in db.rows || k in Touched(q)
    ensures RowMoved(db, ApplyDeltas(Materialised(db.rows, Touched(q)), q)[k], q, k)
  {
  }

  lemma {:induction false} RowsMove(db: Db, r: Db, q: Postings)
    requires r.rows == ApplyDeltas(Materialised(db.rows, Touched(q)), q)
    ensures RowsMoved(db, r, q)
  {
    forall k | k in r.rows ensures RowMoved(db, r.rows[k], q, k) { OneRowMoves(db, q, k); }
  }

  // ---------------------------------------------------------------- accounts

  ghost predicate Used(q: Postings, a: Address) { exists k | k in Touched(q) :: k.account == a }

  // first used no later than before and no later than now, and exactly at one of the two
  predicate FirstUsed(was: Time, at: Time, first: Time) { first <= was && first <= at && (first == was || first == at) }

  // the used accounts exist; what was there keeps its metadata and its flag, and its first use unless used earlier
  ghost predicate AccountsUsed(db: Db, r: Db, q: Postings, at: Time) {
    && (forall a :: a in r.accounts <==> a in db.accounts || Used(q, a))
    && (forall a | a in db.accounts ::
          && r.accounts[a].metadata == db.accounts[a].metadata && r.accounts[a].closed == db.accounts[a].closed
          && if Used(q, a) then FirstUsed(db.accounts[a].firstUsage, at, r.accounts[a].firstUsage)
             else r.accounts[a].firstUsage == db.accounts[a].firstUsage)
    && (forall a | a in r.accounts && a !in db.accounts :: r.accounts[a] == Account(map[], at, false))
  }

  lemma {:induction false} UsedIs(q: Postings, a: Address)
    ensures a in Accounts(q) <==> Used(q, a)
  {
    if a in Accounts(q) { var k :| k in Touched(q) && k.account == a; }
  }

  lemma {:induction false} AccountsMove(db: Db, r: Db, q: Postings, at: Time)
    requires r.accounts == Upserted(db.accounts, Accounts(q), at)
    ensures AccountsUsed(db, r, q, at)
  {
    forall a ensures a in Accounts(q) <==> Used(q, a) { UsedIs(q, a); }
  }

  // ---------------------------------------------------------------- moves

  function Plus(v: Volumes, input: int, output: int): Volumes { Volumes(v.input + input, v.output + output) }

  // what a row held, and what it held at a date
  function HeldNow(db: Db, k: Key): Volumes { if k in db.rows then db.rows[k].volumes else Volumes(0, 0) }

  function HeldThen(db: Db, k: Key, d: Time): Volumes { HeldAsOf(Core(db.moves), k, d) }

  // an earlier move: its own record and first snapshot as they were, the second raised if it lies later
  predicate MoveKept(was: Move, m: Move, q: Postings, d: Time) {
    && m.movement == was.movement && m.pcv == was.pcv
    && m.pcev == if was.movement.date > d then
                   Plus(was.pcev, Flow(q, was.movement.key, false), Flow(q, was.movement.key, true))
                 else was.pcev
  }

  // the two moves of the j-th posting, each with what its row holds right after it, now and as of the date
  predicate MovesMade(db: Db, ms: seq<Move>, tx: Tx, j: nat)
    requires j < |tx.postings| && 2 * j + 1 < |ms|
  {
    var q, p, sent, got := tx.postings[j], tx.postings[..j], ms[2 * j], ms[2 * j + 1];
    var f, t, d := q.From(), q.To(), tx.timestamp;
    && sent.movement == Movement(tx.id, f, q.Moved(), true, d)
    && got.movement == Movement(tx.id, t, q.Moved(), false, d)
    && sent.pcv == Plus(HeldNow(db, f), Flow(p, f, false), Flow(p, f, true) + q.Moved())
    && sent.pcev == Plus(HeldThen(db, f, d), Flow(p, f, false), Flow(p, f, true) + q.Moved())
    && got.pcv == Plus(HeldNow(db, t), Flow(tx.postings[..j + 1], t, false), Flow(tx.postings[..j + 1], t, true))
    && got.pcev == Plus(HeldThen(db, t, d), Flow(tx.postings[..j + 1], t, false), Flow(tx.postings[..j + 1], t, true))
  }

  ghost predicate MovesPosted(db: Db, r: Db, tx: Tx) {
    && |r.moves| == |db.moves| + 2 * |tx.postings|
    && (forall i | 0 <= i < |db.moves| :: MoveKept(db.moves[i], r.moves[i], tx.postings, tx.timestamp))
    && forall j | 0 <= j < |tx.postings| :: MovesMade(db, r.moves[|db.moves|..], tx, j)
  }

  lemma {:induction false} LegsAt(p: Postings, id: nat, d: Time, j: nat)
    requires j < |p|
    ensures Legs(p, id, d)[..2 * j] == Legs(p[..j], id, d)
    ensures Legs(p, id, d)[2 * j] == Sent(p[j], id, d) && Legs(p, id, d)[2 * j + 1] == Received(p[j], id, d)
  {
    var l := |p| - 1;
    if j < l {
      assert p[..l][..j] == p[..j];
      LegsAt(p[..l], id, d, j);
    }
  }

  // what the first legs move through a row: the postings before, and then the source's side of this one
  lemma {:induction false} SentTotal(p: Postings, id: nat, d: Time, j: nat, k: Key, out: bool)
    requires j < |p|
    ensures Total(Legs(p, id, d)[..2 * j + 1], k, out) ==
            Flow(p[..j], k, out) + if p[j].From() == k && out then p[j].Moved() else 0
  {
    var legs := Legs(p, id, d);
    LegsAt(p, id, d, j);
    TakeNext(legs, 2 * j);
    TotalSnoc(legs[..2 * j], legs[2 * j], k, out);
    LegsTotal(p[..j], id, d, k, out);
  }

  lemma {:induction false} ReceivedTotal(p: Postings, id: nat, d: Time, j: nat, k: Key, out: bool)
    requires j < |p|
    ensures Total(Legs(p, id, d)[..2 * j + 2], k, out) == Flow(p[..j + 1], k, out)
  {
    if j + 1 < |p| {
      LegsAt(p, id, d, j + 1);
      LegsTotal(p[..j + 1], id, d, k, out);
    } else {
      assert p[..j + 1] == p && Legs(p, id, d)[..2 * j + 2] == Legs(p, id, d);
      LegsTotal(p, id, d, k, out);
    }
  }

  lemma {:induction false} AccruesTo(v: Volumes, ms: seq<Movement>, k: Key, input: int, output: int)
    requires Total(ms, k, false) == input && Total(ms, k, true) == output
    ensures Accrued(v, ms, k) == Plus(v, input, output)
  {
  }

  lemma {:induction false} PairMade(db: Db, ms: seq<Move>, tx: Tx, before: map<Key, Volumes>,
                                    effective: map<Key, Volumes>, j: nat)
    requires j < |tx.postings| && ms == NewMoves(Legs(tx.postings, tx.id, tx.timestamp), before, effective)
    requires forall k | k in Touched(tx.postings) ::
               At(before, k) == HeldNow(db, k) && At(effective, k) == HeldThen(db, k, tx.timestamp)
    ensures MovesMade(db, ms, tx, j)
  {
    var p, d := tx.postings, tx.timestamp;
    var legs, q := Legs(p, tx.id, d), p[j];
    var f, t := q.From(), q.To();
    FromTouched(p, j);
    LegsAt(p, tx.id, d, j);
    SentTotal(p, tx.id, d, j, f, false);
    SentTotal(p, tx.id, d, j, f, true);
    ReceivedTotal(p, tx.id, d, j, t, false);
    ReceivedTotal(p, tx.id, d, j, t, true);
    assert ms[2 * j] == NewMove(legs, 2 * j, before, effective);
    assert ms[2 * j + 1] == NewMove(legs, 2 * j + 1, before, effective);
    AccruesTo(HeldNow(db, f), legs[..2 * j + 1], f, Flow(p[..j], f, false), Flow(p[..j], f, true) + q.Moved());
    AccruesTo(HeldThen(db, f, d), legs[..2 * j + 1], f, Flow(p[..j], f, false), Flow(p[..j], f, true) + q.Moved());
    AccruesTo(HeldNow(db, t), legs[..2 * j + 2], t, Flow(p[..j + 1], t, false), Flow(p[..j + 1], t, true));
    AccruesTo(HeldThen(db, t, d), legs[..2 * j + 2], t, Flow(p[..j + 1], t, false), Flow(p[..j + 1], t, true));
  }

  lemma {:induction false} OneKept(m: Move, q: Postings, d: Time)
    ensures MoveKept(m, ShiftOne(m, q, d), q, d)
  {
  }

  lemma {:induction false} ReadsAre(db: Db, tx: Tx, before: map<Key, Volumes>, effective: map<Key, Volumes>, k: Key)
    requires RowsOk(db.rows, db.moves) && Fits(db, tx, before, effective) && k in Touched(tx.postings)
    ensures At(before, k) == HeldNow(db, k) && At(effective, k) == HeldThen(db, k, tx.timestamp)
  {
    assert RowVolumes(db.rows, k) == Totals(Core(db.moves), k);
  }

  lemma {:induction false} MovesMove(db: Db, r: Db, tx: Tx, before: map<Key, Volumes>, effective: map<Key, Volumes>)
    requires RowsOk(db.rows, db.moves) && Fits(db, tx, before, effective)
    requires r.moves == Posted(db.moves, tx.postings, tx.id, tx.timestamp, before, effective)
    ensures MovesPosted(db, r, tx)
  {
    var made := NewMoves(Legs(tx.postings, tx.id, tx.timestamp), before, effective);
    forall k | k in Touched(tx.postings)
      ensures At(before, k) == HeldNow(db, k) && At(effective, k) == HeldThen(db, k, tx.timestamp) {
      ReadsAre(db, tx, before, effective, k);
    }
    assert r.moves[|db.moves|..] == made;
    forall j | 0 <= j < |tx.postings| ensures MovesMade(db, r.moves[|db.moves|..], tx, j) {
      PairMade(db, made, tx, before, effective, j);
    }
    forall i | 0 <= i < |db.moves| ensures MoveKept(db.moves[i], r.moves[i], tx.postings, tx.timestamp) {
      OneKept(db.moves[i], tx.postings, tx.timestamp);
    }
  }

  // ---------------------------------------------------------------- what is read on a date

  // on and after its date a transaction shows in full, and before it not at all
  ghost predicate ReadsMoved(db: Db, r: Db, q: Postings, at: Time) {
    forall k, d {:trigger EffectiveRead(r.moves, k, d)} ::
      EffectiveRead(r.moves, k, d) ==
      if at <= d then Plus(EffectiveRead(db.moves, k, d), Flow(q, k, false), Flow(q, k, true))
      else EffectiveRead(db.moves, k, d)
  }

  lemma {:induction false} AsOfConcat(a: seq<Movement>, b: seq<Movement>, k: Key, d: Time, out: bool)
    ensures AsOf(a + b, k, d, out) == AsOf(a, k, d, out) + AsOf(b, k, d, out)
  {
    if b == [] {
      assert a + b == a;
    } else {
      assert (a + b)[..|a + b| - 1] == a + b[..|b| - 1];
      AsOfConcat(a, b[..|b| - 1], k, d, out);
    }
  }

  lemma {:induction false} AsOfOneDate(ms: seq<Movement>, k: Key, d: Time, out: bool, at: Time)
    requires forall m | m in ms :: m.date == at
    ensures AsOf(ms, k, d, out) == if at <= d then Total(ms, k, out) else 0
  {
    if ms != [] {
      assert ms[|ms| - 1] in ms && forall m | m in ms[..|ms| - 1] :: m in ms;
      AsOfOneDate(ms[..|ms| - 1], k, d, out, at);
    }
  }

  lemma {:induction false} AsOfLegs(ms: seq<Movement>, p: Postings, id: nat, at: Time, k: Key, d: Time, out: bool)
    ensures AsOf(ms + Legs(p, id, at), k, d, out) == AsOf(ms, k, d, out) + if at <= d then Flow(p, k, out) else 0
  {
    AsOfConcat(ms, Legs(p, id, at), k, d, out);
    AsOfOneDate(Legs(p, id, at), k, d, out, at);
    LegsTotal(p, id, at, k, out);
  }

  lemma {:induction false} OneReadMoves(ms: seq<Move>, rs: seq<Move>, p: Postings, id: nat, at: Time, k: Key, d: Time)
    requires PcevOk(ms) && PcevOk(rs) && Core(rs) == Core(ms) + Legs(p, id, at)
    ensures EffectiveRead(rs, k, d) ==
            if at <= d then Plus(EffectiveRead(ms, k, d), Flow(p, k, false), Flow(p, k, true))
            else EffectiveRead(ms, k, d)
  {
    FastReadExact(ms, k, d);
    FastReadExact(rs, k, d);
    AsOfLegs(Core(ms), p, id, at, k, d, false);
    AsOfLegs(Core(ms), p, id, at, k, d, true);
  }

  lemma {:induction false} ReadsMove(db: Db, r: Db, tx: Tx, before: map<Key, Volumes>, effective: map<Key, Volumes>)
    requires PcevOk(db.moves) && Fits(db, tx, before, effective)
    requires r.moves == Posted(db.moves, tx.postings, tx.id, tx.timestamp, before, effective)
    ensures ReadsMoved(db, r, tx.postings, tx.timestamp)
  {
    PostedCore(db.moves, tx.postings, tx.id, tx.timestamp, before, effective);
    PostedPcev(db.moves, tx.postings, tx.id, tx.timestamp, before, effective);
    forall k, d ensures EffectiveRead(r.moves, k, d) ==
                        if tx.timestamp <= d then
                          Plus(EffectiveRead(db.moves, k, d), Flow(tx.postings, k, false), Flow(tx.postings, k, true))
                        else EffectiveRead(db.moves, k, d) {
      OneReadMoves(db.moves, r.moves, tx.postings, tx.id, tx.timestamp, k, d);
    }
  }

  // ---------------------------------------------------------------- the transaction and its entry

  // the volumes frozen with it are what every touched row holds once it has run
  ghost predicate FrozenAs(db: Db, tx: Tx) {
    && tx.postCommit.Keys == Touched(tx.postings)
    && forall k | k in tx.postCommit ::
         tx.postCommit[k] == Plus(HeldNow(db, k), Flow(tx.postings, k, false), Flow(tx.postings, k, true))
  }

  // one entry more, under the next id, and both counters one further
  ghost predicate EntryAdded(db: Db, r: Db, tx: Tx, kind: LogKind, data: Data, use: Option<KeyUse>) {
    && tx.id == db.lastTx + 1 == r.lastTx && r.lastLog == db.lastLog + 1
    && r.tip == Chained(db.tip, data) && r.logs == db.logs + [Log(db.lastLog + 1, kind, data, r.tip, use)]
  }

  // everything a transaction leaves behind but the transactions table and the log
  ghost predicate Moved(db: Db, r: Db, tx: Tx) {
    && RowsMoved(db, r, tx.postings) && AccountsUsed(db, r, tx.postings, tx.timestamp) && MovesPosted(db, r, tx)
    && ReadsMoved(db, r, tx.postings, tx.timestamp) && FrozenAs(db, tx)
  }

  lemma {:induction false} Freezes(db: Db, tx: Tx, before: map<Key, Volumes>, effective: map<Key, Volumes>)
    requires RowsOk(db.rows, db.moves) && Fits(db, tx, before, effective)
    ensures FrozenAs(db, tx)
  {
    forall k | k in tx.postCommit
      ensures tx.postCommit[k] == Plus(HeldNow(db, k), Flow(tx.postings, k, false), Flow(tx.postings, k, true)) {
      ReadsAre(db, tx, before, effective, k);
    }
  }

  lemma {:induction false} LandingMoves(db: Db, tx: Tx, before: map<Key, Volumes>, effective: map<Key, Volumes>,
                                        use: Option<KeyUse>, undone: Option<nat>)
    requires Inv(db) && Fits(db, tx, before, effective) && UndoFits(db, tx, undone)
    ensures Moved(db, Landed(db, tx, before, effective, use, undone), tx)
  {
    var r := Landed(db, tx, before, effective, use, undone);
    LandedFields(db, tx, before, effective, use, undone);
    RowsMove(db, r, tx.postings);
    AccountsMove(db, r, tx.postings, tx.timestamp);
    MovesMove(db, r, tx, before, effective);
    ReadsMove(db, r, tx, before, effective);
    Freezes(db, tx, before, effective);
  }
}

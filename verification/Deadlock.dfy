/** Deadlock freedom. Whatever a session waits for is held by one that is further along: in a later
    group of phases, or in the same group at a greater row in lock order. */
module Deadlock {
  import opened Ledger
  import opened Engine
  import opened Protocol
  import opened Sessions
  import opened Survival

  // 0 starting or wanting a transaction row, 1 creating rows, 2 locking rows, 3 wanting the ledger, 4 past every lock
  function Group(s: Session): nat {
    match s.phase
    case Started => 0
    case Finding => 0
    case Creating(n) => if n < |s.ks| then 1 else 2
    case Locking(n) => if n < |s.ks| then 2 else 3
    case Closing => 3
    case Reading(_) => if s.ledger then 4 else 3
    case Deciding(_) => if s.ledger then 4 else 3
    case Dating(_, _) => if s.ledger then 4 else 3
    case Numbering(_, _, _) => if s.ledger then 4 else 3
    case _ => 4
  }

  // the next row in lock order, where there is one
  function Next(s: Session): Option<Key> {
    match s.phase
    case Creating(n) => if n < |s.ks| then Some(s.ks[n]) else None
    case Locking(n) => if n < |s.ks| then Some(s.ks[n]) else None
    case _ => None
  }

  // strictly further along
  predicate Behind(s: Session, t: Session) {
    || Group(s) < Group(t)
    || (Group(s) == Group(t) && Next(s).Some? && Next(t).Some? && KeyBefore(Next(s).value, Next(t).value))
  }

  lemma {:induction false} KeysBehind(ks: seq<Key>, n: nat, k: Key)
    requires Ascending(ks) && n < |ks| && k in ks[..n]
    ensures KeyBefore(k, ks[n])
  {
  }

  // a row not yet committed that t created: t is still creating rows past it, or is done creating
  lemma {:induction false} CreatorAhead(db: Db, s: Session, t: Session)
    requires SessionOk(db, s) && SessionOk(db, t) && s.phase.Creating? && WaitsFor(db, s, t)
    ensures Behind(s, t)
  {
    if t.phase.Creating? && t.phase.next < |t.ks| {
      PartKeysSorted(t);
      KeysBehind(t.ks, t.phase.next, s.ks[s.phase.next]);
    }
  }

  // a row t holds while s wants to lock it: s has seen it exist, so t did not merely create it
  lemma {:induction false} HolderAhead(db: Db, s: Session, t: Session)
    requires SessionOk(db, s) && SessionOk(db, t) && Apart(s, t) && s.phase.Locking? && WaitsFor(db, s, t)
    ensures Behind(s, t)
  {
    var n := s.phase.next;
    var k := s.ks[n];
    assert Present(db, s, |s.ks|);
    assert k in db.rows || k in s.created;
    assert k in s.created ==> k in s.held;
    assert k in t.created ==> k !in db.rows;
    if t.phase.Locking? && t.phase.next < |t.ks| {
      PartKeysSorted(t);
      KeysBehind(t.ks, t.phase.next, k);
    }
  }

  // what an item of a batch locks again it already holds, and nobody else does
  lemma {:induction false} RereadsOwn(db: Db, s: Session, t: Session, j: nat)
    requires s.phase == Reading(j) && SessionOk(db, s) && Apart(s, t)
    ensures forall k | k in Touched(s.parts[j].item.postings) :: k in s.held && k !in t.held
  {
    HeldCovers(db, s, j);
  }

  /** Waiting always looks ahead. */
  lemma {:induction false} WaitsAhead(db: Db, s: Session, t: Session)
    requires SessionOk(db, s) && SessionOk(db, t) && Apart(s, t) && WaitsFor(db, s, t)
    ensures Active(t) && Behind(s, t)
  {
    match s.phase
    case Creating(_) => CreatorAhead(db, s, t);
    case Locking(_) => HolderAhead(db, s, t);
    case Finding =>
    case Numbering(_, _, _) =>
    case Reading(j) => RereadsOwn(db, s, t, j);
    case _ =>
  }

  lemma {:induction false} BehindIsOrder(s: Session, t: Session, u: Session)
    ensures !Behind(s, s)
    ensures Behind(s, t) && Behind(t, u) ==> Behind(s, u)
  {
    if Next(s).Some? {
      KeyTotal(Next(s).value, Next(s).value);
      if Behind(s, t) && Behind(t, u) && Group(s) == Group(t) == Group(u) {
        KeyTransitive(Next(s).value, Next(t).value, Next(u).value);
      }
    }
  }

  // an active session among the first n that none of the others active among them is ahead of
  lemma {:induction false} Furthest(sessions: seq<Session>, n: nat) returns (i: nat)
    requires n <= |sessions| && exists j | 0 <= j < n :: Active(sessions[j])
    ensures i < n && Active(sessions[i])
    ensures forall j | 0 <= j < n && Active(sessions[j]) :: !Behind(sessions[i], sessions[j])
  {
    var l := n - 1;
    if exists j | 0 <= j < l :: Active(sessions[j]) {
      i := Furthest(sessions, l);
      if Active(sessions[l]) && Behind(sessions[i], sessions[l]) {
        forall j | 0 <= j < n && Active(sessions[j]) ensures !Behind(sessions[l], sessions[j]) {
          BehindIsOrder(sessions[i], sessions[l], sessions[j]);
          BehindIsOrder(sessions[l], sessions[l], sessions[l]);
        }
        i := l;
      } else {
        BehindIsOrder(sessions[i], sessions[i], sessions[i]);
      }
    } else {
      i := l;
      BehindIsOrder(sessions[l], sessions[l], sessions[l]);
    }
  }

  /** Deadlock freedom: wherever any mix of commits, batches and reversals has got to, if one of
      them is unfinished then one of them can take its next step. */
  lemma {:induction false} SomeoneCanStep(w: World)
    requires Good(w) && exists j | 0 <= j < |w.sessions| :: Active(w.sessions[j])
    ensures exists i: nat | i < |w.sessions| :: Enabled(w, i)
  {
    var i := Furthest(w.sessions, |w.sessions|);
    forall j | 0 <= j < |w.sessions| && j != i ensures !WaitsFor(w.committed, w.sessions[i], w.sessions[j]) {
      if WaitsFor(w.committed, w.sessions[i], w.sessions[j]) {
        assert ApartFrom(w.sessions, i);
        WaitsAhead(w.committed, w.sessions[i], w.sessions[j]);
      }
    }
    assert Enabled(w, i);
  }

  // a cycle of sessions each waiting for the next
  ghost predicate WaitChain(w: World, chain: seq<nat>) {
    && (forall a | 0 <= a < |chain| :: chain[a] < |w.sessions|)
    && forall a | 0 < a < |chain| ::
        chain[a - 1] != chain[a] && WaitsFor(w.committed, w.sessions[chain[a - 1]], w.sessions[chain[a]])
  }

  lemma {:induction false} ChainAhead(w: World, chain: seq<nat>, b: nat)
    requires Good(w) && WaitChain(w, chain) && 0 < b < |chain|
    ensures Behind(w.sessions[chain[0]], w.sessions[chain[b]])
  {
    var s, t, u := w.sessions[chain[0]], w.sessions[chain[b - 1]], w.sessions[chain[b]];
    assert ApartFrom(w.sessions, chain[b - 1]);
    WaitsAhead(w.committed, t, u);
    if b > 1 {
      ChainAhead(w, chain, b - 1);
      BehindIsOrder(s, t, u);
    }
  }

  /** No chain of waiting sessions ever comes back to where it began. */
  lemma {:induction false} NoWaitCycle(w: World, chain: seq<nat>)
    requires Good(w) && WaitChain(w, chain) && |chain| > 1
    ensures chain[0] != chain[|chain| - 1]
  {
    ChainAhead(w, chain, |chain| - 1);
    BehindIsOrder(w.sessions[chain[0]], w.sessions[chain[0]], w.sessions[chain[0]]);
  }

  /** Once a batch has locked its rows no item of it waits for a row again: each locks only rows the batch
      holds. And once it has the ledger it waits for nothing at all. */
  lemma {:induction false} LaterItemsNeverWait(db: Db, s: Session, t: Session)
    requires SessionOk(db, s) && Apart(s, t) && (s.phase.Reading? || s.ledger)
    ensures !WaitsFor(db, s, t)
    ensures s.phase.Reading? ==> forall k | k in Touched(s.parts[s.phase.part].item.postings) :: k in s.held
  {
    if s.phase.Reading? { RereadsOwn(db, s, t, s.phase.part); }
  }
}

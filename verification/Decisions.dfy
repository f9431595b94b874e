/** What a request is answered with, in figures: what each row may do and holds, what a sweep takes, which check
    fails first and what it reports. */
module Decisions {
  import opened Ledger
  import opened Engine
  import opened Sweeps

  // ---------------------------------------------------------------- a row before the transaction

  // a row nobody has touched holds nothing; world's may be negative, and any may be positive
  predicate MayOwe(db: Db, k: Key) { if k in db.rows then db.rows[k].allowNegative else k.account == WORLD }

  predicate MayHold(db: Db, k: Key) { k in db.rows ==> db.rows[k].allowPositive }

  function Holds(db: Db, k: Key): int {
    if k in db.rows then db.rows[k].volumes.input - db.rows[k].volumes.output else 0
  }

  predicate Shut(db: Db, k: Key) { k.account in db.accounts && db.accounts[k.account].closed }

  // what the postings bring a row, less what they take from it
  function Net(p: Postings, k: Key): int { Flow(p, k, false) - Flow(p, k, true) }

  // ---------------------------------------------------------------- what a sweep takes

  // as asked, or a figure: all there is, or the ceiling when that is less
  ghost predicate TakesOne(db: Db, asked: Posting, out: Postings, got: Posting) {
    && got.source == asked.source && got.destination == asked.destination && got.asset == asked.asset
    && if asked.upTo then
         && !got.upTo && got.amount.Some?
         && TakesWhatIsThere(asked.amount, Holds(db, asked.From()) + Net(out, asked.From()), got.amount.value)
       else got == asked
  }

  ghost predicate TakesAt(db: Db, p: Postings, q: Postings, i: nat)
    requires i < |p| == |q|
  {
    TakesOne(db, p[i], q[..i], q[i])
  }

  ghost predicate Takes(db: Db, p: Postings, q: Postings) {
    |q| == |p| && forall i | 0 <= i < |p| :: TakesAt(db, p, q, i)
  }

  lemma {:induction false} TakesOnce(db: Db, p: Postings, q: Postings, r: Postings, n: nat)
    requires Takes(db, p, q) && Takes(db, p, r) && n <= |p|
    ensures q[..n] == r[..n]
  {
    if n > 0 {
      var m := n - 1;
      TakesOnce(db, p, q, r, m);
      assert TakesAt(db, p, q, m) && TakesAt(db, p, r, m);
      TakeNext(q, m);
      TakeNext(r, m);
    }
  }

  /** The figures are determined by what was asked and what the rows held. */
  lemma {:induction false} TakesUnique(db: Db, p: Postings, q: Postings, r: Postings)
    requires Takes(db, p, q) && Takes(db, p, r)
    ensures q == r
  {
    TakesOnce(db, p, q, r, |p|);
    assert q[..|p|] == q && r[..|p|] == r;
  }

  lemma {:induction false} HeldIs(db: Db, ks: set<Key>, out: Postings, k: Key)
    requires k in ks
    ensures Held(LockRead(db, ks), out, k) == Holds(db, k) + Net(out, k)
  {
  }

  lemma {:induction false} FigureTakes(db: Db, asked: Posting, out: Postings, got: Posting, h: int, a: int)
    requires asked.upTo && got == asked.(amount := Some(a), upTo := false)
    requires h == Holds(db, asked.From()) + Net(out, asked.From()) && a == Swept(asked.amount, h)
    ensures TakesOne(db, asked, out, got)
  {
    SweptTakes(asked.amount, h, a);
  }

  lemma {:induction false} OneTakes(db: Db, ks: set<Key>, asked: Posting, out: Postings)
    requires asked.From() in ks
    ensures TakesOne(db, asked, out, ResolveOne(asked, LockRead(db, ks), out))
  {
    if asked.upTo {
      var before := LockRead(db, ks);
      var h := Held(before, out, asked.From());
      HeldIs(db, ks, out, asked.From());
      FigureTakes(db, asked, out, ResolveOne(asked, before, out), h, Swept(asked.amount, h));
    }
  }

  lemma {:induction false} FromTouched(p: Postings, i: nat)
    requires i < |p|
    ensures p[i].From() in Touched(p) && p[i].To() in Touched(p)
  {
    assert p[i] in p;
  }

  /** Resolving takes those figures. */
  lemma {:induction false} ResolveTakes(db: Db, p: Postings)
    requires Resolve(p, LockRead(db, Touched(p))).Done?
    ensures Takes(db, p, Resolve(p, LockRead(db, Touched(p))).value)
  {
    var before := LockRead(db, Touched(p));
    var out := Resolve(p, before).value;
    ResolveExact(p, before);
    forall i | 0 <= i < |p| ensures TakesAt(db, p, out, i) {
      FromTouched(p, i);
      assert ResolvedAt(p, before, out, i);
      OneTakes(db, Touched(p), p[i], out[..i]);
    }
  }

  lemma {:induction false} NetSnoc(out: Postings, q: Posting, k: Key)
    ensures Net(out + [q], k) == Net(out, k) + (if q.To() == k then q.Moved() else 0)
                                             - (if q.From() == k then q.Moved() else 0)
  {
    FlowSnoc(out, q, k, false);
    FlowSnoc(out, q, k, true);
  }

  /** A sweep without a ceiling empties its source: what held something ends holding exactly nothing. */
  lemma {:induction false} SweepEmpties(db: Db, p: Postings, q: Postings, i: nat)
    requires Takes(db, p, q) && i < |p| && p[i].upTo && p[i].amount.None? && p[i].source != p[i].destination
    requires Holds(db, p[i].From()) + Net(q[..i], p[i].From()) >= 0
    ensures Holds(db, p[i].From()) + Net(q[..i + 1], p[i].From()) == 0
  {
    assert TakesAt(db, p, q, i);
    TakeNext(q, i);
    NetSnoc(q[..i], q[i], p[i].From());
  }

  // ---------------------------------------------------------------- what is refused

  predicate Sweeping(db: Db, q: Posting) { q.upTo && MayOwe(db, q.From()) }

  // none of the first n
  ghost predicate NoneSweeping(db: Db, p: Postings, n: nat)
    requires n <= |p|
  {
    forall i | 0 <= i < n :: !Sweeping(db, p[i])
  }

  // the first sweep whose source may go negative
  ghost predicate SweepsFirst(db: Db, p: Postings, k: Key) {
    exists i | 0 <= i < |p| :: p[i].From() == k && Sweeping(db, p[i]) && NoneSweeping(db, p, i)
  }

  ghost predicate NoneShut(db: Db, p: Postings) { forall k | k in Touched(p) :: !Shut(db, k) }

  // the first row in lock order of an account that is closed
  ghost predicate ShutFirst(db: Db, p: Postings, k: Key) {
    k in Touched(p) && Shut(db, k) && forall x | x in Touched(p) && KeyBefore(x, k) :: !Shut(db, x)
  }

  predicate TooLow(db: Db, q: Postings, k: Key) { !MayOwe(db, k) && Holds(db, k) + Net(q, k) < 0 }

  predicate TooHigh(db: Db, q: Postings, k: Key) { !MayHold(db, k) && Holds(db, k) + Net(q, k) > 0 }

  // the first row in lock order that would end outside its bounds
  ghost predicate OutFirst(db: Db, q: Postings, k: Key) {
    && k in Touched(q) && (TooLow(db, q, k) || TooHigh(db, q, k))
    && forall x | x in Touched(q) && KeyBefore(x, k) :: !TooLow(db, q, x) && !TooHigh(db, q, x)
  }

  ghost predicate AllWithin(db: Db, q: Postings) {
    forall k | k in Touched(q) :: !TooLow(db, q, k) && !TooHigh(db, q, k)
  }

  // the figures taken, and nothing refused before the bounds are looked at
  ghost predicate Reaches(db: Db, p: Postings, q: Postings) {
    NoneSweeping(db, p, |p|) && Takes(db, p, q) && NoneShut(db, p)
  }

  // what the refusal of a row reports: what it held and what was asked of it, or what it would end holding
  function Report(db: Db, q: Postings, k: Key): Error {
    if TooLow(db, q, k) then InsufficientFunds(k, Holds(db, k), Flow(q, k, true))
    else UnexpectedCredit(k, Holds(db, k) + Net(q, k))
  }

  // what is decided: sweeps first, then closure, then the bounds on where every row ends
  ghost predicate DecidedAs(db: Db, p: Postings, r: Outcome<Postings>) {
    match r
    case Done(q) => Reaches(db, p, q) && AllWithin(db, q)
    case Refused(UnboundedSweep(k)) => SweepsFirst(db, p, k)
    case Refused(AccountClosed(a)) => NoneSweeping(db, p, |p|) && exists k: Key :: k.account == a && ShutFirst(db, p, k)
    case Refused(e) => exists q, k :: Reaches(db, p, q) && OutFirst(db, q, k) && e == Report(db, q, k)
  }

  // ---------------------------------------------------------------- the checks, in those figures

  lemma {:induction false} UnboundedIs(db: Db, ks: set<Key>, q: Posting)
    requires q.From() in ks
    ensures Unbounded(q, LockRead(db, ks)) <==> Sweeping(db, q)
  {
  }

  lemma {:induction false} SweepsFirstAt(db: Db, p: Postings, i: nat)
    requires i < |p| && Sweeping(db, p[i]) && NoneSweeping(db, p, i)
    ensures SweepsFirst(db, p, p[i].From())
  {
  }

  lemma {:induction false} PrefixSweeps(db: Db, p: Postings, k: Key)
    requires p != [] && SweepsFirst(db, p[..|p| - 1], k)
    ensures SweepsFirst(db, p, k)
  {
    var init := p[..|p| - 1];
    var i :| 0 <= i < |init| && init[i].From() == k && Sweeping(db, init[i]) && NoneSweeping(db, init, i);
    assert forall j | 0 <= j < i :: init[j] == p[j];
    SweepsFirstAt(db, p, i);
  }

  // resolution is refused for the first sweep of a source that may go negative, and for nothing else
  lemma {:induction false} ResolveRefuses(db: Db, ks: set<Key>, p: Postings)
    requires forall q | q in p :: q.From() in ks
    ensures var r := Resolve(p, LockRead(db, ks));
            if r.Refused? then r.error.UnboundedSweep? && SweepsFirst(db, p, r.error.key) else NoneSweeping(db, p, |p|)
  {
    if p != [] {
      var l := |p| - 1;
      assert p[l] in p && forall q | q in p[..l] :: q in p;
      ResolveRefuses(db, ks, p[..l]);
      UnboundedIs(db, ks, p[l]);
      if Resolve(p[..l], LockRead(db, ks)).Refused? {
        PrefixSweeps(db, p, Resolve(p[..l], LockRead(db, ks)).error.key);
      } else if Sweeping(db, p[l]) {
        SweepsFirstAt(db, p, l);
      } else {
        assert forall i | 0 <= i < l :: p[..l][i] == p[i];
      }
    }
  }

  // the rows of the updates, in lock order
  lemma {:induction false} UpdateKeys(q: Postings, i: nat)
    requires i < |Updates(q)|
    ensures var k := Updates(q)[i].key;
            && k in Touched(q) && Updates(q)[i] == UpdateOf(q, k)
            && forall x | x in Touched(q) && KeyBefore(x, k) :: exists j | 0 <= j < i :: Updates(q)[j] == UpdateOf(q, x)
  {
    var ks := SortedKeys(Touched(q));
    SortedKeysAscend(Touched(q));
    assert ks[i] in ks;
    forall x | x in Touched(q) && KeyBefore(x, ks[i])
      ensures exists j | 0 <= j < i :: Updates(q)[j] == UpdateOf(q, x) {
      EarlierKey(ks, i, x);
      var j :| 0 <= j < i && ks[j] == x;
      assert Updates(q)[j] == UpdateOf(q, x);
    }
  }

  lemma {:induction false} ClosedIs(db: Db, ks: set<Key>, k: Key)
    requires k in ks
    ensures LockRead(db, ks)[k].closed <==> Shut(db, k)
  {
  }

  lemma {:induction false} ClosedNames(db: Db, p: Postings, q: Postings)
    requires Touched(q) == Touched(p)
    ensures var r := FirstClosed(LockRead(db, Touched(p)), Updates(q));
            if r.None? then NoneShut(db, p)
            else r.value.AccountClosed? && exists k: Key :: k.account == r.value.account && ShutFirst(db, p, k)
  {
    var before, us := LockRead(db, Touched(p)), Updates(q);
    UpdatesKeys(q);
    ClosedExact(before, us);
    if FirstClosed(before, us).Some? {
      var i :| 0 <= i < |us| && before[us[i].key].closed
        && FirstClosed(before, us) == Some(AccountClosed(us[i].key.account))
        && forall j | 0 <= j < i :: !before[us[j].key].closed;
      UpdateKeys(q, i);
      ClosedIs(db, Touched(p), us[i].key);
      forall x | x in Touched(p) && KeyBefore(x, us[i].key) ensures !Shut(db, x) { ClosedIs(db, Touched(p), x); }
      assert ShutFirst(db, p, us[i].key);
    } else {
      forall k | k in Touched(p) ensures !Shut(db, k) {
        ClosedIs(db, Touched(p), k);
        UpdatesCover(q, k);
      }
    }
  }

  // what the bound check says of one row
  lemma {:induction false} BoundErrorIs(l: Locked, u: VolumeUpdate, held: int, net: int)
    requires held == l.row.volumes.input - l.row.volumes.output && net == u.input - u.output
    ensures var low, high := !l.row.allowNegative && held + net < 0, !l.row.allowPositive && held + net > 0;
            BoundError(l, u) == if low then Some(InsufficientFunds(u.key, held, u.output))
                                else if high then Some(UnexpectedCredit(u.key, held + net)) else None
  {
  }

  lemma {:induction false} RowBoundIs(db: Db, ks: set<Key>, q: Postings, k: Key)
    requires k in ks
    ensures BoundError(LockRead(db, ks)[k], UpdateOf(q, k)) ==
            if TooLow(db, q, k) || TooHigh(db, q, k) then Some(Report(db, q, k)) else None
  {
    BoundErrorIs(LockRead(db, ks)[k], UpdateOf(q, k), Holds(db, k), Net(q, k));
  }

  lemma {:induction false} RowWithinIs(db: Db, ks: set<Key>, q: Postings, k: Key)
    requires k in ks
    ensures WithinAfter(LockRead(db, ks)[k].row, Flow(q, k, false), Flow(q, k, true)) <==>
              !TooLow(db, q, k) && !TooHigh(db, q, k)
  {
    WithinIs(LockRead(db, ks)[k].row, UpdateOf(q, k), Holds(db, k), Net(q, k));
  }

  lemma {:induction false} WithinIs(r: Row, u: VolumeUpdate, held: int, net: int)
    requires held == r.volumes.input - r.volumes.output && net == u.input - u.output
    ensures WithinAfter(r, u.input, u.output) <==>
              !(!r.allowNegative && held + net < 0) && !(!r.allowPositive && held + net > 0)
  {
  }

  // the i-th row ends within its bounds
  ghost predicate FitsAt(before: map<Key, Locked>, us: seq<VolumeUpdate>, i: nat)
    requires i < |us| && us[i].key in before
  {
    WithinAfter(before[us[i].key].row, us[i].input, us[i].output)
  }

  lemma {:induction false} FitsIs(db: Db, q: Postings, i: nat)
    requires i < |Updates(q)|
    ensures var us := Updates(q);
            && us[i].key in Touched(q)
            && (FitsAt(LockRead(db, Touched(q)), us, i) <==> !TooLow(db, q, us[i].key) && !TooHigh(db, q, us[i].key))
  {
    UpdateKeys(q, i);
    RowWithinIs(db, Touched(q), q, Updates(q)[i].key);
  }

  lemma {:induction false} EarlierFits(db: Db, q: Postings, i: nat, x: Key)
    requires i < |Updates(q)| && x in Touched(q) && KeyBefore(x, Updates(q)[i].key)
    requires forall j | 0 <= j < i :: Updates(q)[j].key in Touched(q) && FitsAt(LockRead(db, Touched(q)), Updates(q), j)
    ensures !TooLow(db, q, x) && !TooHigh(db, q, x)
  {
    UpdateKeys(q, i);
    var j :| 0 <= j < i && Updates(q)[j] == UpdateOf(q, x);
    FitsIs(db, q, j);
  }

  lemma {:induction false} OutAtIs(db: Db, q: Postings, i: nat)
    requires i < |Updates(q)| && forall j | 0 <= j < |Updates(q)| :: Updates(q)[j].key in Touched(q)
    requires !FitsAt(LockRead(db, Touched(q)), Updates(q), i)
    requires forall j | 0 <= j < i :: FitsAt(LockRead(db, Touched(q)), Updates(q), j)
    ensures OutFirst(db, q, Updates(q)[i].key)
  {
    var k := Updates(q)[i].key;
    FitsIs(db, q, i);
    forall x | x in Touched(q) && KeyBefore(x, k) ensures !TooLow(db, q, x) && !TooHigh(db, q, x) {
      EarlierFits(db, q, i, x);
    }
  }

  lemma {:induction false} OutReports(db: Db, q: Postings, i: nat)
    requires i < |Updates(q)| && Updates(q)[i].key in Touched(q) && OutFirst(db, q, Updates(q)[i].key)
    ensures BoundError(LockRead(db, Touched(q))[Updates(q)[i].key], Updates(q)[i]) ==
            Some(Report(db, q, Updates(q)[i].key))
  {
    UpdateKeys(q, i);
    RowBoundIs(db, Touched(q), q, Updates(q)[i].key);
  }

  // the bound check finds the first row that would end outside its bounds, and reports it
  lemma {:induction false} BoundsName(db: Db, q: Postings)
    ensures var r := FirstOutOfBounds(LockRead(db, Touched(q)), Updates(q));
            if r.Some? then exists k :: OutFirst(db, q, k) && r.value == Report(db, q, k) else AllWithin(db, q)
  {
    var before, us := LockRead(db, Touched(q)), Updates(q);
    UpdatesKeys(q);
    BoundsExact(before, us);
    if FirstOutOfBounds(before, us).Some? {
      var i :| 0 <= i < |us| && !FitsAt(before, us, i) && (forall j | 0 <= j < i :: FitsAt(before, us, j))
        && FirstOutOfBounds(before, us) == BoundError(before[us[i].key], us[i]);
      OutAtIs(db, q, i);
      OutReports(db, q, i);
    } else {
      forall k | k in Touched(q) ensures !TooLow(db, q, k) && !TooHigh(db, q, k) { CoveredFits(db, q, k); }
    }
  }

  lemma {:induction false} CoveredFits(db: Db, q: Postings, k: Key)
    requires k in Touched(q) && forall j | 0 <= j < |Updates(q)| :: Updates(q)[j].key in Touched(q)
    requires forall j | 0 <= j < |Updates(q)| :: FitsAt(LockRead(db, Touched(q)), Updates(q), j)
    ensures !TooLow(db, q, k) && !TooHigh(db, q, k)
  {
    UpdatesCover(q, k);
    var j :| 0 <= j < |Updates(q)| && Updates(q)[j] == UpdateOf(q, k);
    FitsIs(db, q, j);
  }

  // ---------------------------------------------------------------- exactly

  lemma {:induction false} FirstOnce(db: Db, p: Postings, k: Key, x: Key)
    requires ShutFirst(db, p, k) && ShutFirst(db, p, x)
    ensures k == x
  {
    KeyTotal(k, x);
  }

  lemma {:induction false} OutOnce(db: Db, q: Postings, k: Key, x: Key)
    requires OutFirst(db, q, k) && OutFirst(db, q, x)
    ensures k == x
  {
    KeyTotal(k, x);
  }

  lemma {:induction false} SweepOnce(db: Db, p: Postings, k: Key, x: Key)
    requires SweepsFirst(db, p, k) && SweepsFirst(db, p, x)
    ensures k == x
  {
    var i :| 0 <= i < |p| && p[i].From() == k && Sweeping(db, p[i]) && NoneSweeping(db, p, i);
    var j :| 0 <= j < |p| && p[j].From() == x && Sweeping(db, p[j]) && NoneSweeping(db, p, j);
    assert i == j;
  }

  /** At most one decision is the one described. */
  lemma {:induction false} DecidedOnce(db: Db, p: Postings, r: Outcome<Postings>, s: Outcome<Postings>)
    requires DecidedAs(db, p, r) && DecidedAs(db, p, s)
    ensures r == s
  {
    if Bounded(r) && Bounded(s) {
      BoundedOnce(db, p, r, s);
    } else if r.Refused? && r.error.AccountClosed? && s.Refused? && s.error.AccountClosed? {
      var k: Key :| k.account == r.error.account && ShutFirst(db, p, k);
      var x: Key :| x.account == s.error.account && ShutFirst(db, p, x);
      FirstOnce(db, p, k, x);
    } else if r.Refused? && r.error.UnboundedSweep? && s.Refused? && s.error.UnboundedSweep? {
      SweepOnce(db, p, r.error.key, s.error.key);
    }
  }

  // decided once the bounds were looked at
  predicate Bounded(r: Outcome<Postings>) { r.Done? || r.error.InsufficientFunds? || r.error.UnexpectedCredit? }

  lemma {:induction false} BoundedOnce(db: Db, p: Postings, r: Outcome<Postings>, s: Outcome<Postings>)
    requires DecidedAs(db, p, r) && DecidedAs(db, p, s) && Bounded(r) && Bounded(s)
    ensures r == s
  {
    var q := Figures(db, p, r);
    var o := Figures(db, p, s);
    TakesUnique(db, p, q, o);
    if r.Refused? && s.Refused? {
      var k :| OutFirst(db, q, k) && r.error == Report(db, q, k);
      var x :| OutFirst(db, q, x) && s.error == Report(db, q, x);
      OutOnce(db, q, k, x);
    }
  }

  // the figures a bounded decision came to
  lemma {:induction false} Figures(db: Db, p: Postings, r: Outcome<Postings>) returns (q: Postings)
    requires DecidedAs(db, p, r) && Bounded(r)
    ensures Reaches(db, p, q)
    ensures if r.Done? then q == r.value && AllWithin(db, q)
            else exists k :: OutFirst(db, q, k) && r.error == Report(db, q, k)
  {
    if r.Done? {
      q := r.value;
    } else {
      q :| exists k :: Reaches(db, p, q) && OutFirst(db, q, k) && r.error == Report(db, q, k);
    }
  }

  lemma {:induction false} PreparedAs(db: Db, p: Postings)
    requires FirstNil(p, 0).None?
    ensures DecidedAs(db, p, Prepare(LockRead(db, Touched(p)), p))
  {
    var before := LockRead(db, Touched(p));
    forall q | q in p ensures q.From() in Touched(p) { }
    ResolveRefuses(db, Touched(p), p);
    if Resolve(p, before).Done? {
      var q := Resolve(p, before).value;
      SweepsResolved(p, before);
      ResolveTakes(db, p);
      ClosedNames(db, p, q);
      BoundsName(db, q);
    }
  }

  /** What is decided from the locked rows is exactly the decision described: the first sweep of a source that may
      go negative is refused; else the first closed account in lock order; else, on the figures taken, the first
      row in lock order that would end outside its bounds, with what it held and was asked, or would end holding;
      else those figures are it. */
  lemma {:induction false} DecisionExactly(db: Db, p: Postings, r: Outcome<Postings>)
    requires FirstNil(p, 0).None?
    ensures Prepare(LockRead(db, Touched(p)), p) == r <==> DecidedAs(db, p, r)
  {
    PreparedAs(db, p);
    if DecidedAs(db, p, r) { DecidedOnce(db, p, r, Prepare(LockRead(db, Touched(p)), p)); }
  }
}

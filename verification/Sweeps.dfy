/** Deciding a transaction from the rows it locked: ceilings resolved to what each source
    holds, then closure and the bounds checked on the final state. */
module Sweeps {
  import opened Ledger
  import opened Engine

  // ---------------------------------------------------------------- resolution

  // every posting of the result is what the rule gives after the results before it
  ghost predicate ResolvedFrom(p: Postings, before: map<Key, Locked>, out: Postings) {
    |out| == |p| && forall i | 0 <= i < |p| :: ResolvedAt(p, before, out, i)
  }

  ghost predicate ResolvedAt(p: Postings, before: map<Key, Locked>, out: Postings, i: nat)
    requires i < |p| == |out|
  {
    out[i] == ResolveOne(p[i], before, out[..i])
  }

  lemma {:induction false} ResolveExact(p: Postings, before: map<Key, Locked>)
    ensures Resolve(p, before).Refused? <==> exists i | 0 <= i < |p| :: Unbounded(p[i], before)
    ensures Resolve(p, before).Done? ==> ResolvedFrom(p, before, Resolve(p, before).value)
  {
    if p != [] {
      var l := |p| - 1;
      var r := Resolve(p[..l], before);
      ResolveExact(p[..l], before);
      if r.Refused? {
        var i :| 0 <= i < l && Unbounded(p[..l][i], before);
        assert Unbounded(p[i], before);
      } else if !Unbounded(p[l], before) {
        forall i | 0 <= i < |p| ensures !Unbounded(p[i], before) {
          assert i < l ==> p[..l][i] == p[i];
        }
        var out := r.value + [ResolveOne(p[l], before, r.value)];
        forall i | 0 <= i < |p| ensures ResolvedAt(p, before, out, i) {
          assert out[..i] == r.value[..i];
          assert i == l ==> r.value[..i] == r.value;
          assert i < l ==> ResolvedAt(p[..l], before, r.value, i);
        }
      }
    }
  }

  function NotNegative(n: int): int { if n < 0 then 0 else n }

  // all that is there, or the ceiling when that is less
  predicate TakesWhatIsThere(ceiling: Option<int>, there: int, taken: int) {
    && taken <= NotNegative(there) && (ceiling.Some? ==> taken <= ceiling.value)
    && (taken == NotNegative(there) || ceiling == Some(taken))
  }

  lemma {:induction false} SweptTakes(ceiling: Option<int>, there: int, taken: int)
    requires taken == Swept(ceiling, there)
    ensures TakesWhatIsThere(ceiling, there, taken)
  {
  }

  // what a row held, and what some postings have brought it since
  function There(before: map<Key, Locked>, out: Postings, k: Key): int {
    (if k in before then before[k].row.volumes.input - before[k].row.volumes.output else 0) + Delta(out, k).Balance()
  }

  // one posting asked for, and what it becomes after some others
  ghost predicate BecomesAt(p: Postings, before: map<Key, Locked>, out: Postings, i: nat)
    requires i < |p| == |out|
  {
    if p[i].upTo then
      && out[i] == p[i].(amount := out[i].amount, upTo := false) && out[i].amount.Some?
      && TakesWhatIsThere(p[i].amount, There(before, out[..i], p[i].From()), out[i].amount.value)
    else out[i] == p[i]
  }

  lemma {:induction false} OneBecomes(q: Posting, before: map<Key, Locked>, out: Postings, there: int, taken: int)
    requires q.upTo && there == Held(before, out, q.From()) && taken == Swept(q.amount, there)
    ensures ResolveOne(q, before, out) == q.(amount := Some(taken), upTo := false)
    ensures There(before, out, q.From()) == there && TakesWhatIsThere(q.amount, there, taken)
  {
    SweptTakes(q.amount, there, taken);
  }

  lemma {:induction false} BecomesIs(p: Postings, before: map<Key, Locked>, out: Postings, i: nat)
    requires i < |p| == |out| && ResolvedAt(p, before, out, i)
    ensures BecomesAt(p, before, out, i)
  {
    if p[i].upTo {
      var there := Held(before, out[..i], p[i].From());
      OneBecomes(p[i], before, out[..i], there, Swept(p[i].amount, there));
    }
  }

  /** A sweep is refused exactly when its source may go negative. Otherwise the rows named stay
      the same, fixed postings are untouched, and each ceiling becomes a figure: all its source holds after
      the postings before it, never less than nothing, or itself when that is less. */
  lemma {:induction false} SweepsResolved(p: Postings, before: map<Key, Locked>)
    ensures Resolve(p, before).Refused? <==> exists i | 0 <= i < |p| :: Unbounded(p[i], before)
    ensures Resolve(p, before).Done? ==>
              var out := Resolve(p, before).value;
              Touched(out) == Touched(p) && forall i | 0 <= i < |p| :: BecomesAt(p, before, out, i)
  {
    ResolveExact(p, before);
    if Resolve(p, before).Done? {
      var out := Resolve(p, before).value;
      forall i | 0 <= i < |p| ensures out[i] == ResolveOne(p[i], before, out[..i]) {
        assert ResolvedAt(p, before, out, i);
      }
      forall i | 0 <= i < |p| ensures BecomesAt(p, before, out, i) { BecomesIs(p, before, out, i); }
      SameEnds(p, out);
    }
  }

  lemma {:induction false} SameEnds(p: Postings, q: Postings)
    requires |q| == |p| && forall i | 0 <= i < |p| :: q[i].From() == p[i].From() && q[i].To() == p[i].To()
    ensures Touched(q) == Touched(p)
  {
    forall k | k in Touched(p) ensures k in Touched(q) {
      var i :| 0 <= i < |p| && (p[i].From() == k || p[i].To() == k);
      assert q[i] in q;
    }
    forall k | k in Touched(q) ensures k in Touched(p) {
      var i :| 0 <= i < |q| && (q[i].From() == k || q[i].To() == k);
      assert p[i] in p;
    }
  }

  lemma {:induction false} ResolveYieldsFigures(p: Postings, before: map<Key, Locked>)
    requires forall q | q in p :: q.Acceptable()
    requires Resolve(p, before).Done?
    ensures forall q | q in Resolve(p, before).value :: q.Resolved()
  {
    ResolveExact(p, before);
    var out := Resolve(p, before).value;
    forall i | 0 <= i < |out| ensures out[i].Resolved() { assert p[i] in p && ResolvedAt(p, before, out, i); }
  }

  // without a ceiling anywhere resolution is the identity, which is why the source may skip it
  lemma {:induction false} NothingToResolve(p: Postings, before: map<Key, Locked>)
    requires forall q | q in p :: !q.upTo
    ensures Resolve(p, before) == Done(p)
  {
    ResolveExact(p, before);
    assert forall i | 0 <= i < |p| :: p[i] in p;
    var out := Resolve(p, before).value;
    forall i | 0 <= i < |p| ensures out[i] == p[i] { assert ResolvedAt(p, before, out, i); }
    assert out == p;
  }

  lemma {:induction false} ResolvePrefixRefused(p: Postings, before: map<Key, Locked>, n: nat)
    requires n <= |p| && Resolve(p[..n], before).Refused?
    ensures Resolve(p, before) == Resolve(p[..n], before)
  {
    if n < |p| {
      assert p[..|p| - 1][..n] == p[..n];
      ResolvePrefixRefused(p[..|p| - 1], before, n);
    } else {
      assert p[..n] == p;
    }
  }

  lemma {:induction false} ResolveNext(p: Postings, before: map<Key, Locked>, i: nat, out: Postings)
    requires i < |p| && Resolve(p[..i], before) == Done(out)
    ensures Resolve(p[..i + 1], before) ==
            if Unbounded(p[i], before) then Refused(UnboundedSweep(p[i].From()))
              else Done(out + [ResolveOne(p[i], before, out)])
  {
    assert p[..i + 1][..i] == p[..i];
  }

  lemma {:induction false} HeldSnoc(before: map<Key, Locked>, out: Postings, q: Posting, k: Key)
    ensures Held(before, out + [q], k) == Held(before, out, k) + q.Adds(k, false) - q.Adds(k, true)
  {
    FlowSnoc(out, q, k, false);
    FlowSnoc(out, q, k, true);
  }

  function Running(running: map<Key, int>, k: Key): int { if k in running then running[k] else 0 }

  ghost predicate RunningIs(running: map<Key, int>, before: map<Key, Locked>, out: Postings) {
    forall k {:trigger Running(running, k)} :: Running(running, k) == Held(before, out, k)
  }

  function MoveRunning(running: map<Key, int>, q: Posting): (r: map<Key, int>)
    ensures forall k {:trigger Running(r, k)} ::
              Running(r, k) == Running(running, k) + q.Adds(k, false) - q.Adds(k, true)
  {
    var less := running[q.From() := Running(running, q.From()) - q.Moved()];
    less[q.To() := Running(less, q.To()) + q.Moved()]
  }

  lemma {:induction false} RunningMoves(running: map<Key, int>, before: map<Key, Locked>, out: Postings, q: Posting)
    requires RunningIs(running, before, out)
    ensures RunningIs(MoveRunning(running, q), before, out + [q])
  {
    forall k ensures Running(MoveRunning(running, q), k) == Held(before, out + [q], k) {
      HeldSnoc(before, out, q, k);
    }
  }

  /** The loop over a map of running balances computes the rule, and leaves every running balance
      at what the row held plus the recomputed deltas. */
  method ResolveUpTo(p: Postings, before: map<Key, Locked>) returns (r: Outcome<Postings>, running: map<Key, int>)
    ensures r == Resolve(p, before)
    ensures r.Done? ==> RunningIs(running, before, r.value)
    ensures r.Done? ==> forall i | 0 <= i < |p| :: BecomesAt(p, before, r.value, i)
  {
    running := map k | k in before :: before[k].row.volumes.Balance();
    var out: Postings := [];
    assert RunningIs(running, before, out);
    for i := 0 to |p|
      invariant Resolve(p[..i], before) == Done(out)
      invariant RunningIs(running, before, out)
    {
      ResolveNext(p, before, i, out);
      if p[i].upTo && p[i].From() in before && before[p[i].From()].row.allowNegative {
        ResolvePrefixRefused(p, before, i + 1);
        return Refused(UnboundedSweep(p[i].From())), running;
      }
      var q := Settle(p[i], running, before, out);
      RunningMoves(running, before, out, q);
      running := MoveRunning(running, q);
      out := out + [q];
    }
    assert p[..|p|] == p;
    SweepsResolved(p, before);
    r := Done(out);
  }

  // one posting, its ceiling replaced by what the running balance of its source allows
  method Settle(q: Posting, running: map<Key, int>, ghost before: map<Key, Locked>, ghost out: Postings)
      returns (r: Posting)
    requires RunningIs(running, before, out)
    ensures r == ResolveOne(q, before, out)
  {
    if !q.upTo { return q; }
    var available := Running(running, q.From());
    if available < 0 { available := 0; }
    if q.amount.Some? && q.amount.value < available { available := q.amount.value; }
    r := q.(amount := Some(available), upTo := false);
  }

  lemma {:induction false} SweepTakesWhatIsThere(before: map<Key, Locked>, init: Postings, ceiling: Posting, k: Key)
    requires ceiling.upTo && ceiling.Acceptable()
    requires Held(before, init, k) >= 0 && Held(before, init, ceiling.From()) >= 0
    ensures Held(before, init + [ResolveOne(ceiling, before, init)], k) >= 0
  {
    HeldSnoc(before, init, ResolveOne(ceiling, before, init), k);
  }

  /** A transaction of sweeps alone over rows that hold nothing negative overdraws nothing. */
  lemma {:induction false} SweepsNeverOverdraw(p: Postings, before: map<Key, Locked>, out: Postings, n: nat, k: Key)
    requires ResolvedFrom(p, before, out) && n <= |p|
    requires forall q | q in p :: q.upTo && q.Acceptable()
    requires forall x | x in before :: before[x].row.volumes.Balance() >= 0
    ensures Held(before, out[..n], k) >= 0
  {
    if n == 0 {
      assert out[..0] == [];
    } else {
      TakeNext(out, n - 1);
      assert p[n - 1] in p && ResolvedAt(p, before, out, n - 1);
      SweepsNeverOverdraw(p, before, out, n - 1, k);
      SweepsNeverOverdraw(p, before, out, n - 1, p[n - 1].From());
      SweepTakesWhatIsThere(before, out[..n - 1], p[n - 1], k);
    }
  }

  /** So it always passes the lower bound: whatever its rows are permitted, none ends below zero. */
  lemma {:induction false} SweepsPassLowerBound(p: Postings, before: map<Key, Locked>, k: Key)
    requires Resolve(p, before).Done? && k in before
    requires forall q | q in p :: q.upTo && q.Acceptable()
    requires forall x | x in before :: before[x].row.volumes.Balance() >= 0
    ensures After(before[k].row.volumes, Resolve(p, before).value, k).Balance() >= 0
  {
    var out := Resolve(p, before).value;
    ResolveExact(p, before);
    SweepsNeverOverdraw(p, before, out, |p|, k);
    assert out[..|p|] == out;
  }

  // ---------------------------------------------------------------- checks

  predicate Within(r: Row) {
    (r.allowNegative || r.volumes.input >= r.volumes.output) && (r.allowPositive || r.volumes.input <= r.volumes.output)
  }

  predicate WithinAfter(r: Row, addIn: int, addOut: int) {
    var input, output := r.volumes.input + addIn, r.volumes.output + addOut;
    (r.allowNegative || input >= output) && (r.allowPositive || input <= output)
  }

  /** The bound check passes exactly when every row it looked at ends within its own bounds, and
      otherwise reports the first in lock order that does not, with what it holds and what was asked. */
  lemma {:induction false} BoundsExact(before: map<Key, Locked>, us: seq<VolumeUpdate>)
    requires forall i | 0 <= i < |us| :: us[i].key in before
    ensures FirstOutOfBounds(before, us).None? <==> forall i | 0 <= i < |us| ::
              WithinAfter(before[us[i].key].row, us[i].input, us[i].output)
    ensures FirstOutOfBounds(before, us).Some? ==>
              exists i | 0 <= i < |us| ::
                && !WithinAfter(before[us[i].key].row, us[i].input, us[i].output)
                && (forall j | 0 <= j < i :: WithinAfter(before[us[j].key].row, us[j].input, us[j].output))
                && FirstOutOfBounds(before, us) == BoundError(before[us[i].key], us[i])
  {
    if us != [] {
      var rest := us[1..];
      assert BoundError(before[us[0].key], us[0]).None? <==>
               WithinAfter(before[us[0].key].row, us[0].input, us[0].output);
      assert forall i | 0 <= i < |rest| :: rest[i] == us[i + 1];
      BoundsExact(before, rest);
      if BoundError(before[us[0].key], us[0]).None? {
        if FirstOutOfBounds(before, rest).Some? {
          var i :| 0 <= i < |rest| && !WithinAfter(before[rest[i].key].row, rest[i].input, rest[i].output)
            && (forall j | 0 <= j < i :: WithinAfter(before[rest[j].key].row, rest[j].input, rest[j].output))
            && FirstOutOfBounds(before, rest) == BoundError(before[rest[i].key], rest[i]);
          assert us[i + 1] == rest[i];
          assert forall j | 0 < j < i + 1 :: us[j] == rest[j - 1];
        }
        assert forall i | 0 < i < |us| :: us[i] == rest[i - 1];
      }
    }
  }

  // passes exactly when no account is closed, and otherwise names the account of the first row whose is
  lemma {:induction false} ClosedExact(before: map<Key, Locked>, us: seq<VolumeUpdate>)
    requires forall i | 0 <= i < |us| :: us[i].key in before
    ensures FirstClosed(before, us).None? <==> forall i | 0 <= i < |us| :: !before[us[i].key].closed
    ensures FirstClosed(before, us).Some? ==>
              exists i | 0 <= i < |us| ::
                && before[us[i].key].closed && FirstClosed(before, us) == Some(AccountClosed(us[i].key.account))
                && forall j | 0 <= j < i :: !before[us[j].key].closed
  {
    if us != [] {
      var rest := us[1..];
      assert forall i | 0 <= i < |rest| :: rest[i] == us[i + 1];
      ClosedExact(before, rest);
      assert forall i | 0 < i < |us| :: us[i] == rest[i - 1];
      if !before[us[0].key].closed && FirstClosed(before, rest).Some? {
        var i :| 0 <= i < |rest| && before[rest[i].key].closed
          && FirstClosed(before, rest) == Some(AccountClosed(rest[i].key.account))
          && forall j | 0 <= j < i :: !before[rest[j].key].closed;
        assert us[i + 1] == rest[i];
      }
    }
  }

  lemma {:induction false} UpdatesCover(p: Postings, k: Key)
    requires k in Touched(p)
    ensures exists i | 0 <= i < |Updates(p)| :: Updates(p)[i] == UpdateOf(p, k)
  {
    var ks := SortedKeys(Touched(p));
    SortedKeysAscend(Touched(p));
    assert k in ks;
    var i :| 0 <= i < |ks| && ks[i] == k;
    assert Updates(p)[i] == UpdateOf(p, k);
  }

  lemma {:induction false} UpdatesKeys(p: Postings)
    ensures forall i | 0 <= i < |Updates(p)| :: Updates(p)[i].key in Touched(p)
  {
    var ks := SortedKeys(Touched(p));
    SortedKeysAscend(Touched(p));
    forall i | 0 <= i < |ks| ensures ks[i] in Touched(p) { assert ks[i] in ks; }
  }

  /** What a decided transaction guarantees: the same rows, figures for amounts, no closed
      account among them, and every row ending within its bounds. */
  lemma {:induction false} PrepareGuarantees(before: map<Key, Locked>, p: Postings)
    requires before.Keys == Touched(p) && Prepare(before, p).Done?
    ensures var q := Prepare(before, p).value;
            && q == Resolve(p, before).value && |q| == |p| && Touched(q) == Touched(p)
            && (forall k | k in Touched(p) ::
                  !before[k].closed && WithinAfter(before[k].row, Flow(q, k, false), Flow(q, k, true)))
  {
    var q := Prepare(before, p).value;
    SweepsResolved(p, before);
    forall k | k in Touched(p)
      ensures !before[k].closed && WithinAfter(before[k].row, Flow(q, k, false), Flow(q, k, true))
    {
      ChecksCover(before, q, k);
    }
  }

  // both checks look at every touched row
  lemma {:induction false} ChecksCover(before: map<Key, Locked>, q: Postings, k: Key)
    requires k in Touched(q) && Touched(q) == before.Keys
    requires FirstClosed(before, Updates(q)).None? && FirstOutOfBounds(before, Updates(q)).None?
    ensures !before[k].closed && WithinAfter(before[k].row, Flow(q, k, false), Flow(q, k, true))
  {
    var us := Updates(q);
    UpdatesKeys(q);
    ClosedExact(before, us);
    BoundsExact(before, us);
    UpdatesCover(q, k);
    var i :| 0 <= i < |us| && us[i] == UpdateOf(q, k);
    assert !before[us[i].key].closed && WithinAfter(before[us[i].key].row, us[i].input, us[i].output);
  }

  // ---------------------------------------------------------------- order and the checks

  // both sides swapped, in the original order
  function InPlace(p: Postings): (r: Postings)
    ensures |r| == |p|
  {
    seq(|p|, i requires 0 <= i < |p| => Inverse(p[i]))
  }

  lemma {:induction false} InPlaceFlow(p: Postings, k: Key, out: bool)
    ensures Flow(InPlace(p), k, out) == Flow(p, k, !out)
  {
    if p != [] {
      var l := |p| - 1;
      assert InPlace(p)[..l] == InPlace(p[..l]);
      InPlaceFlow(p[..l], k, out);
    }
  }

  lemma {:induction false} InPlaceTouches(p: Postings)
    ensures Touched(InPlace(p)) == Touched(p)
  {
    var r := InPlace(p);
    forall k | k in Touched(p) ensures k in Touched(r) {
      var i :| 0 <= i < |p| && (p[i].From() == k || p[i].To() == k);
      assert r[i] == Inverse(p[i]) && r[i] in r;
    }
    forall k | k in Touched(r) ensures k in Touched(p) {
      var i :| 0 <= i < |r| && (r[i].From() == k || r[i].To() == k);
      assert r[i] == Inverse(p[i]) && p[i] in p;
    }
  }

  lemma {:induction false} SameUpdates(p: Postings)
    ensures Updates(InPlace(p)) == Updates(Reversed(p))
  {
    InPlaceTouches(p);
    ReversedTouches(p);
    var ks := SortedKeys(Touched(p));
    forall i | 0 <= i < |ks| ensures UpdateOf(InPlace(p), ks[i]) == UpdateOf(Reversed(p), ks[i]) {
      InPlaceFlow(p, ks[i], false);
      InPlaceFlow(p, ks[i], true);
      ReversedFlow(p, ks[i], false);
      ReversedFlow(p, ks[i], true);
    }
  }

  lemma {:induction false} FixedDecide(before: map<Key, Locked>, p: Postings)
    requires forall q | q in p :: q.amount.Some? && !q.upTo
    ensures Prepare(before, p) ==
            if FirstClosed(before, Updates(p)).Some? then Refused(FirstClosed(before, Updates(p)).value)
            else if FirstOutOfBounds(before, Updates(p)).Some? then Refused(FirstOutOfBounds(before, Updates(p)).value)
            else Done(p)
  {
    NothingToResolve(p, before);
    assert forall i | 0 <= i < |p| :: p[i] in p;
  }

  /** The checks look at the final state only, so a reversal passes or fails alike whether or not the
      order of its postings is reversed too. */
  lemma {:induction false} OrderDoesNotDecide(before: map<Key, Locked>, p: Postings)
    requires forall q | q in p :: q.amount.Some?
    ensures var inOrder, reversed := Prepare(before, InPlace(p)), Prepare(before, Reversed(p));
            if reversed.Done? then inOrder.Done? else inOrder == reversed
  {
    SameUpdates(p);
    forall q | q in InPlace(p) ensures q.amount.Some? && !q.upTo {
      var i :| 0 <= i < |p| && InPlace(p)[i] == q;
      assert p[i] in p;
    }
    forall q | q in Reversed(p) ensures q.amount.Some? && !q.upTo {
      var i :| 0 <= i < |p| && Reversed(p)[i] == q;
      assert p[|p| - 1 - i] in p;
    }
    FixedDecide(before, InPlace(p));
    FixedDecide(before, Reversed(p));
  }
}

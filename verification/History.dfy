/** The moves table and the two running histories each row carries: pcv as of its insertion,
    never edited, and pcev as of its effective date, corrected when something is backdated. */
module History {
  import opened Ledger

  // the half of a posting one row describes; a row's seq is its index in the table
  datatype Movement = Movement(txId: nat, key: Key, amount: int, isSource: bool, date: Time) {
    function Adds(k: Key, out: bool): int { if key == k && isSource == out then amount else 0 }
  }

  datatype Move = Move(movement: Movement, pcv: Volumes, pcev: Volumes)

  function Core(ms: seq<Move>): (r: seq<Movement>)
    ensures |r| == |ms|
  {
    seq(|ms|, i requires 0 <= i < |ms| => ms[i].movement)
  }

  // ---------------------------------------------------------------- reference sums

  // everything that ever moved through one counter of a row
  function Total(ms: seq<Movement>, k: Key, out: bool): int {
    if ms == [] then 0 else Total(ms[..|ms| - 1], k, out) + ms[|ms| - 1].Adds(k, out)
  }

  // a row at index j sits before position (d, n) of effective order: by date, ties by seq
  predicate Precedes(m: Movement, j: nat, d: Time, n: nat) {
    m.date < d || (m.date == d && j < n)
  }

  // what moved before position (d, n) of effective order
  function Effective(ms: seq<Movement>, k: Key, d: Time, n: nat, out: bool): int {
    if ms == [] then 0
    else
      var l := |ms| - 1;
      Effective(ms[..l], k, d, n, out) + if Precedes(ms[l], l, d, n) then ms[l].Adds(k, out) else 0
  }

  // what moved at or before a date
  function AsOf(ms: seq<Movement>, k: Key, d: Time, out: bool): int {
    if ms == [] then 0
    else
      var l := |ms| - 1;
      AsOf(ms[..l], k, d, out) + if ms[l].date <= d then ms[l].Adds(k, out) else 0
  }

  function Totals(ms: seq<Movement>, k: Key): Volumes { Volumes(Total(ms, k, false), Total(ms, k, true)) }

  // what a row holds once further moves have run
  function Accrued(v: Volumes, ms: seq<Movement>, k: Key): Volumes {
    Volumes(v.input + Total(ms, k, false), v.output + Total(ms, k, true))
  }

  function HeldBefore(ms: seq<Movement>, k: Key, d: Time, n: nat): Volumes {
    Volumes(Effective(ms, k, d, n, false), Effective(ms, k, d, n, true))
  }

  function HeldAsOf(ms: seq<Movement>, k: Key, d: Time): Volumes {
    Volumes(AsOf(ms, k, d, false), AsOf(ms, k, d, true))
  }

  ghost predicate PcvAt(ms: seq<Move>, i: nat)
    requires i < |ms|
  {
    ms[i].pcv == Totals(Core(ms)[..i + 1], ms[i].movement.key)
  }

  ghost predicate PcvOk(ms: seq<Move>) { forall i | 0 <= i < |ms| :: PcvAt(ms, i) }

  ghost predicate PcevAt(ms: seq<Move>, i: nat)
    requires i < |ms|
  {
    ms[i].pcev == HeldBefore(Core(ms), ms[i].movement.key, ms[i].movement.date, i + 1)
  }

  ghost predicate PcevOk(ms: seq<Move>) { forall i | 0 <= i < |ms| :: PcevAt(ms, i) }

  lemma {:induction false} TotalSnoc(ms: seq<Movement>, m: Movement, k: Key, out: bool)
    ensures Total(ms + [m], k, out) == Total(ms, k, out) + m.Adds(k, out)
  {
    assert (ms + [m])[..|ms|] == ms;
  }

  lemma {:induction false} TotalConcat(a: seq<Movement>, b: seq<Movement>, k: Key, out: bool)
    ensures Total(a + b, k, out) == Total(a, k, out) + Total(b, k, out)
  {
    if b == [] {
      assert a + b == a;
    } else {
      assert (a + b)[..|a + b| - 1] == a + b[..|b| - 1];
      TotalConcat(a, b[..|b| - 1], k, out);
    }
  }

  lemma {:induction false} EffectiveSnoc(ms: seq<Movement>, m: Movement, k: Key, d: Time, n: nat, out: bool)
    ensures Effective(ms + [m], k, d, n, out) ==
            Effective(ms, k, d, n, out) + if Precedes(m, |ms|, d, n) then m.Adds(k, out) else 0
  {
    assert (ms + [m])[..|ms|] == ms;
  }

  lemma {:induction false} AsOfIsEffective(ms: seq<Movement>, k: Key, d: Time, n: nat, out: bool)
    requires |ms| <= n
    ensures AsOf(ms, k, d, out) == Effective(ms, k, d, n, out)
  {
    if ms != [] { AsOfIsEffective(ms[..|ms| - 1], k, d, n, out); }
  }

  // the sum only depends on which rows of the account are counted
  lemma {:induction false} EffectiveSame(ms: seq<Movement>, k: Key, d: Time, n: nat, d': Time, n': nat, out: bool)
    requires forall j | 0 <= j < |ms| && ms[j].key == k :: Precedes(ms[j], j, d, n) <==> Precedes(ms[j], j, d', n')
    ensures Effective(ms, k, d, n, out) == Effective(ms, k, d', n', out)
  {
    if ms != [] {
      var l := |ms| - 1;
      assert forall j | 0 <= j < l :: ms[..l][j] == ms[j];
      EffectiveSame(ms[..l], k, d, n, d', n', out);
    }
  }

  // rows appended behind ms, none of which counts
  lemma {:induction false} EffectiveAppendNone(ms: seq<Movement>, ns: seq<Movement>, k: Key, d: Time, n: nat, out: bool)
    requires forall j | 0 <= j < |ns| :: !Precedes(ns[j], |ms| + j, d, n)
    ensures Effective(ms + ns, k, d, n, out) == Effective(ms, k, d, n, out)
  {
    if ns == [] {
      assert ms + ns == ms;
    } else {
      var l := |ns| - 1;
      assert ms + ns == (ms + ns[..l]) + [ns[l]];
      EffectiveSnoc(ms + ns[..l], ns[l], k, d, n, out);
      EffectiveAppendNone(ms, ns[..l], k, d, n, out);
    }
  }

  // rows appended behind ms, all of which count
  lemma {:induction false} EffectiveAppendAll(ms: seq<Movement>, ns: seq<Movement>, k: Key, d: Time, n: nat, out: bool)
    requires forall j | 0 <= j < |ns| :: Precedes(ns[j], |ms| + j, d, n)
    ensures Effective(ms + ns, k, d, n, out) == Effective(ms, k, d, n, out) + Total(ns, k, out)
  {
    if ns == [] {
      assert ms + ns == ms;
    } else {
      var l := |ns| - 1;
      assert ms + ns == (ms + ns[..l]) + [ns[l]];
      EffectiveSnoc(ms + ns[..l], ns[l], k, d, n, out);
      EffectiveAppendAll(ms, ns[..l], k, d, n, out);
    }
  }

  // rows of the date asked about appended behind ms, up to the t-th
  lemma {:induction false} AsOfThenPrefix(ms: seq<Movement>, ns: seq<Movement>, k: Key, d: Time, t: nat, out: bool)
    requires forall j | 0 <= j < |ns| :: ns[j].date == d
    requires t <= |ns|
    ensures Effective(ms + ns, k, d, |ms| + t, out) == AsOf(ms, k, d, out) + Total(ns[..t], k, out)
  {
    var n := |ms| + t;
    assert ms + ns == (ms + ns[..t]) + ns[t..];
    EffectiveAppendNone(ms + ns[..t], ns[t..], k, d, n, out);
    EffectiveAppendAll(ms, ns[..t], k, d, n, out);
    AsOfIsEffective(ms, k, d, n, out);
  }

  // rows of other accounts do not count
  lemma {:induction false} AsOfAppendOthers(ms: seq<Movement>, ns: seq<Movement>, k: Key, d: Time, out: bool)
    requires forall j | 0 <= j < |ns| :: ns[j].key != k
    ensures AsOf(ms + ns, k, d, out) == AsOf(ms, k, d, out)
  {
    if ns == [] {
      assert ms + ns == ms;
    } else {
      assert (ms + ns)[..|ms + ns| - 1] == ms + ns[..|ns| - 1];
      AsOfAppendOthers(ms, ns[..|ns| - 1], k, d, out);
    }
  }

  // ---------------------------------------------------------------- the rows a transaction adds

  function Sent(q: Posting, id: nat, d: Time): Movement { Movement(id, q.From(), q.Moved(), true, d) }
  function Received(q: Posting, id: nat, d: Time): Movement { Movement(id, q.To(), q.Moved(), false, d) }

  // the rows a posting makes, its source's before its destination's
  function Legs(p: Postings, id: nat, d: Time): (r: seq<Movement>)
    ensures |r| == 2 * |p|
    ensures forall j | 0 <= j < |r| :: r[j].date == d && r[j].txId == id
  {
    if p == [] then []
    else Legs(p[..|p| - 1], id, d) + [Sent(p[|p| - 1], id, d)] + [Received(p[|p| - 1], id, d)]
  }

  lemma {:induction false} LegsTotal(p: Postings, id: nat, d: Time, k: Key, out: bool)
    ensures Total(Legs(p, id, d), k, out) == Flow(p, k, out)
  {
    if p != [] {
      var init, q := Legs(p[..|p| - 1], id, d), p[|p| - 1];
      LegsTotal(p[..|p| - 1], id, d, k, out);
      TotalSnoc(init, Sent(q, id, d), k, out);
      TotalSnoc(init + [Sent(q, id, d)], Received(q, id, d), k, out);
    }
  }

  lemma {:induction false} LegsKeys(p: Postings, id: nat, d: Time)
    ensures forall j | 0 <= j < 2 * |p| :: Legs(p, id, d)[j].key in Touched(p)
  {
    if p != [] {
      LegsKeys(p[..|p| - 1], id, d);
      TouchedAppend(p[..|p| - 1], p[|p| - 1]);
      assert p == p[..|p| - 1] + [p[|p| - 1]];
    }
  }

  // a row with what its account holds once it has moved, in either order
  function NewMove(legs: seq<Movement>, t: nat, before: map<Key, Volumes>, effective: map<Key, Volumes>): Move
    requires t < |legs|
  {
    var k := legs[t].key;
    Move(legs[t], Accrued(At(before, k), legs[..t + 1], k), Accrued(At(effective, k), legs[..t + 1], k))
  }

  function NewMoves(legs: seq<Movement>, before: map<Key, Volumes>, effective: map<Key, Volumes>): (r: seq<Move>)
    ensures |r| == |legs|
  {
    seq(|legs|, t requires 0 <= t < |legs| => NewMove(legs, t, before, effective))
  }

  // rows dated after a transaction gain its delta
  function ShiftOne(m: Move, p: Postings, d: Time): Move {
    if m.movement.date > d then m.(pcev := After(m.pcev, p, m.movement.key)) else m
  }

  function Shift(ms: seq<Move>, p: Postings, d: Time): (r: seq<Move>)
    ensures |r| == |ms| && forall i | 0 <= i < |ms| :: r[i] == ShiftOne(ms[i], p, d)
  {
    seq(|ms|, i requires 0 <= i < |ms| => ShiftOne(ms[i], p, d))
  }

  // the moves table after a transaction
  function Posted(ms: seq<Move>, p: Postings, id: nat, d: Time, before: map<Key, Volumes>,
                  effective: map<Key, Volumes>): seq<Move> {
    Shift(ms, p, d) + NewMoves(Legs(p, id, d), before, effective)
  }

  lemma {:induction false} PostedCore(ms: seq<Move>, p: Postings, id: nat, d: Time, before: map<Key, Volumes>,
                                      effective: map<Key, Volumes>)
    ensures Core(Posted(ms, p, id, d, before, effective)) == Core(ms) + Legs(p, id, d)
  {
  }

  // the volumes the commit locked: what each touched row holds now
  ghost predicate ReadNow(ms: seq<Move>, ks: set<Key>, before: map<Key, Volumes>) {
    forall k {:trigger At(before, k)} | k in ks :: At(before, k) == Totals(Core(ms), k)
  }

  // the snapshots the commit read: what each touched row held on the date
  ghost predicate ReadAsOf(ms: seq<Move>, ks: set<Key>, d: Time, effective: map<Key, Volumes>) {
    forall k {:trigger At(effective, k)} | k in ks :: At(effective, k) == HeldAsOf(Core(ms), k, d)
  }

  /** pcv: a row written from the locked volumes carries the total up to and including itself. */
  lemma {:induction false} PostedPcv(ms: seq<Move>, p: Postings, id: nat, d: Time, before: map<Key, Volumes>,
                                     effective: map<Key, Volumes>)
    requires PcvOk(ms) && ReadNow(ms, Touched(p), before)
    ensures PcvOk(Posted(ms, p, id, d, before, effective))
  {
    var r := Posted(ms, p, id, d, before, effective);
    var legs := Legs(p, id, d);
    PostedCore(ms, p, id, d, before, effective);
    LegsKeys(p, id, d);
    forall i | 0 <= i < |r| ensures PcvAt(r, i) {
      if i < |ms| {
        assert PcvAt(ms, i);
        assert Core(r)[..i + 1] == Core(ms)[..i + 1];
      } else {
        var t := i - |ms|;
        assert Core(r)[..i + 1] == Core(ms) + legs[..t + 1];
        assert r[i] == NewMove(legs, t, before, effective);
        TotalConcat(Core(ms), legs[..t + 1], legs[t].key, false);
        TotalConcat(Core(ms), legs[..t + 1], legs[t].key, true);
      }
    }
  }

  /** pcev: shifting what lies later and starting from the effective volumes as of the date
      keeps every row's snapshot equal to a replay in effective order, whatever the dates. */
  lemma {:induction false} PostedPcev(ms: seq<Move>, p: Postings, id: nat, d: Time, before: map<Key, Volumes>,
                                      effective: map<Key, Volumes>)
    requires PcevOk(ms) && ReadAsOf(ms, Touched(p), d, effective)
    ensures PcevOk(Posted(ms, p, id, d, before, effective))
  {
    forall i | 0 <= i < |Posted(ms, p, id, d, before, effective)|
      ensures PcevAt(Posted(ms, p, id, d, before, effective), i) {
      if i < |ms| {
        PostedPcevOld(ms, p, id, d, before, effective, i);
      } else {
        PostedPcevNew(ms, p, id, d, before, effective, i - |ms|);
      }
    }
  }

  lemma {:induction false} PostedPcevOld(ms: seq<Move>, p: Postings, id: nat, d: Time, before: map<Key, Volumes>,
                                         effective: map<Key, Volumes>, i: nat)
    requires i < |ms| && PcevAt(ms, i)
    ensures PcevAt(Posted(ms, p, id, d, before, effective), i)
  {
    var r, m := Posted(ms, p, id, d, before, effective), ms[i].movement;
    PostedCore(ms, p, id, d, before, effective);
    assert r[i] == ShiftOne(ms[i], p, d);
    LaterRowsGain(Core(ms), p, id, d, m.key, m.date, i + 1, false);
    LaterRowsGain(Core(ms), p, id, d, m.key, m.date, i + 1, true);
  }

  // a row already there is short by the delta exactly when it lies later than the new date
  lemma {:induction false} LaterRowsGain(ms: seq<Movement>, p: Postings, id: nat, d: Time, k: Key, at: Time, n: nat,
                                         out: bool)
    requires n <= |ms|
    ensures Effective(ms + Legs(p, id, d), k, at, n, out) ==
            Effective(ms, k, at, n, out) + if at > d then Flow(p, k, out) else 0
  {
    if at > d {
      EffectiveAppendAll(ms, Legs(p, id, d), k, at, n, out);
      LegsTotal(p, id, d, k, out);
    } else {
      EffectiveAppendNone(ms, Legs(p, id, d), k, at, n, out);
    }
  }

  lemma {:induction false} PostedPcevNew(ms: seq<Move>, p: Postings, id: nat, d: Time, before: map<Key, Volumes>,
                                         effective: map<Key, Volumes>, t: nat)
    requires t < 2 * |p| && ReadAsOf(ms, Touched(p), d, effective)
    ensures PcevAt(Posted(ms, p, id, d, before, effective), |ms| + t)
  {
    var r, legs := Posted(ms, p, id, d, before, effective), Legs(p, id, d);
    var k := legs[t].key;
    LegsKeys(p, id, d);
    PostedCore(ms, p, id, d, before, effective);
    assert r[|ms| + t] == NewMove(legs, t, before, effective);
    AsOfThenPrefix(Core(ms), legs, k, d, t + 1, false);
    AsOfThenPrefix(Core(ms), legs, k, d, t + 1, true);
  }

  // one move on a map of running volumes
  function AddMove(m: map<Key, Volumes>, mv: Movement): (r: map<Key, Volumes>)
    ensures forall k {:trigger At(r, k)} ::
              At(r, k) == Volumes(At(m, k).input + mv.Adds(k, false), At(m, k).output + mv.Adds(k, true))
  {
    if mv.isSource then AddTo(m, mv.key, 0, mv.amount) else AddTo(m, mv.key, mv.amount, 0)
  }

  // ---------------------------------------------------------------- the fast read

  // the last row of an account in effective order, up to a date
  function Latest(ms: seq<Move>, k: Key, d: Time): (r: Option<nat>)
    ensures r.Some? ==> r.value < |ms| && ms[r.value].movement.key == k && ms[r.value].movement.date <= d
    ensures r.Some? ==> forall j | 0 <= j < |ms| && ms[j].movement.key == k && ms[j].movement.date <= d ::
                          Precedes(ms[j].movement, j, ms[r.value].movement.date, r.value + 1)
    ensures r.None? ==> forall j | 0 <= j < |ms| && ms[j].movement.key == k :: d < ms[j].movement.date
  {
    if ms == [] then None
    else
      var l := |ms| - 1;
      var r := Latest(ms[..l], k, d);
      assert forall j | 0 <= j < l :: ms[..l][j] == ms[j];
      if ms[l].movement.key == k && ms[l].movement.date <= d
        && (r.None? || ms[r.value].movement.date <= ms[l].movement.date)
      then Some(l) else r
  }

  function EffectiveRead(ms: seq<Move>, k: Key, d: Time): Volumes {
    var r := Latest(ms, k, d);
    if r.Some? then ms[r.value].pcev else ZERO
  }

  /** What the last row up to a date carries is the sum of every row dated at or
      before it, so reading one row answers what summing them all does. */
  lemma {:induction false} FastReadExact(ms: seq<Move>, k: Key, d: Time)
    requires PcevOk(ms)
    ensures EffectiveRead(ms, k, d) == HeldAsOf(Core(ms), k, d)
  {
    var r := Latest(ms, k, d);
    forall out ensures AsOf(Core(ms), k, d, out) ==
                       if r.Some? then Effective(Core(ms), k, ms[r.value].movement.date, r.value + 1, out) else 0 {
      AsOfIsEffective(Core(ms), k, d, |ms|, out);
      if r.Some? {
        EffectiveSame(Core(ms), k, d, |ms|, ms[r.value].movement.date, r.value + 1, out);
      } else {
        NothingCounted(Core(ms), k, d, |ms|, out);
      }
    }
    assert r.Some? ==> PcevAt(ms, r.value);
  }

  lemma {:induction false} NothingCounted(ms: seq<Movement>, k: Key, d: Time, n: nat, out: bool)
    requires forall j | 0 <= j < |ms| && ms[j].key == k :: d < ms[j].date
    ensures Effective(ms, k, d, n, out) == 0
  {
    if ms != [] {
      assert forall j | 0 <= j < |ms| - 1 :: ms[..|ms| - 1][j] == ms[j];
      NothingCounted(ms[..|ms| - 1], k, d, n, out);
    }
  }

  // what is read for a row is left alone by whatever does not touch it
  lemma {:induction false} EffectiveReadFrame(ms: seq<Move>, p: Postings, id: nat, d: Time,
                                              before: map<Key, Volumes>, effective: map<Key, Volumes>, k: Key, at: Time)
    requires PcevOk(ms) && PcevOk(Posted(ms, p, id, d, before, effective))
    requires k !in Touched(p)
    ensures EffectiveRead(Posted(ms, p, id, d, before, effective), k, at) == EffectiveRead(ms, k, at)
  {
    var r, legs := Posted(ms, p, id, d, before, effective), Legs(p, id, d);
    FastReadExact(ms, k, at);
    FastReadExact(r, k, at);
    PostedCore(ms, p, id, d, before, effective);
    LegsKeys(p, id, d);
    AsOfAppendOthers(Core(ms), legs, k, at, false);
    AsOfAppendOthers(Core(ms), legs, k, at, true);
  }
}

/** The effective history read two ways: the slow walk that recomputes every snapshot from
    scratch, and the read that relies on the last row it comes to. */
module Effective {
  import opened Ledger
  import opened History

  // ---------------------------------------------------------------- effective order, row by row

  predicate RowBefore(ms: seq<Movement>, i: nat, j: nat)
    requires i < |ms| && j < |ms|
  {
    || KeyBefore(ms[i].key, ms[j].key)
    || (ms[i].key == ms[j].key && (ms[i].date < ms[j].date || (ms[i].date == ms[j].date && i < j)))
  }

  lemma {:induction false} RowTotal(ms: seq<Movement>, i: nat, j: nat)
    requires i < |ms| && j < |ms|
    ensures i == j || RowBefore(ms, i, j) || RowBefore(ms, j, i)
    ensures !(RowBefore(ms, i, j) && RowBefore(ms, j, i))
  {
    KeyTotal(ms[i].key, ms[j].key);
  }

  lemma {:induction false} RowTransitive(ms: seq<Movement>, i: nat, j: nat, k: nat)
    requires i < |ms| && j < |ms| && k < |ms| && RowBefore(ms, i, j) && RowBefore(ms, j, k)
    ensures RowBefore(ms, i, k)
  {
    if KeyBefore(ms[i].key, ms[j].key) && KeyBefore(ms[j].key, ms[k].key) {
      KeyTransitive(ms[i].key, ms[j].key, ms[k].key);
    }
  }

  ghost predicate Rows(ms: seq<Movement>, order: seq<nat>) { forall a | 0 <= a < |order| :: order[a] < |ms| }

  ghost predicate OrderedAt(ms: seq<Movement>, order: seq<nat>, b: nat)
    requires Rows(ms, order) && b < |order|
  {
    forall a | 0 <= a < b :: RowBefore(ms, order[a], order[b])
  }

  // the first n rows, each once, as the query returns them
  ghost predicate Listed(ms: seq<Movement>, order: seq<nat>, n: nat) {
    && Rows(ms, order) && |order| == n
    && (forall i | 0 <= i < n :: i in order)
    && (forall a | 0 <= a < |order| :: order[a] < n)
    && (forall b | 0 <= b < |order| :: OrderedAt(ms, order, b))
  }

  lemma {:induction false} Inserted(ms: seq<Movement>, order: seq<nat>, n: nat, x: nat)
    requires n < |ms| && Listed(ms, order, n) && x <= n
    requires forall a | 0 <= a < x :: RowBefore(ms, order[a], n)
    requires forall b | x <= b < n :: RowBefore(ms, n, order[b])
    ensures Listed(ms, order[..x] + [n] + order[x..], n + 1)
  {
    var r := order[..x] + [n] + order[x..];
    assert order == order[..x] + order[x..];
    assert forall i :: i in r <==> i in order || i == n;
    forall b | 0 <= b < |r| ensures OrderedAt(ms, r, b) {
      assert b < x ==> OrderedAt(ms, order, b);
      assert b > x ==> OrderedAt(ms, order, b - 1);
    }
  }

  method Insert(ms: seq<Movement>, order: seq<nat>, n: nat) returns (r: seq<nat>)
    requires n < |ms| && Listed(ms, order, n)
    ensures Listed(ms, r, n + 1)
  {
    var x := 0;
    while x < |order| && RowBefore(ms, order[x], n)
      invariant 0 <= x <= |order|
      invariant forall a | 0 <= a < x :: RowBefore(ms, order[a], n)
    {
      x := x + 1;
    }
    forall b | x <= b < n ensures RowBefore(ms, n, order[b]) {
      RowTotal(ms, order[x], n);
      if b > x {
        assert OrderedAt(ms, order, b);
        RowTransitive(ms, n, order[x], order[b]);
      }
    }
    Inserted(ms, order, n, x);
    r := order[..x] + [n] + order[x..];
  }

  method EffectiveOrder(ms: seq<Movement>) returns (order: seq<nat>)
    ensures Listed(ms, order, |ms|)
  {
    order := [];
    for n := 0 to |ms|
      invariant Listed(ms, order, n)
    {
      order := Insert(ms, order, n);
    }
  }

  // ---------------------------------------------------------------- the walk adds up what lies before

  function Walked(ms: seq<Movement>, order: seq<nat>, k: Key, out: bool): int
    requires Rows(ms, order)
  {
    if order == [] then 0 else Walked(ms, order[..|order| - 1], k, out) + ms[order[|order| - 1]].Adds(k, out)
  }

  lemma {:induction false} WalkedSnoc(ms: seq<Movement>, order: seq<nat>, i: nat, k: Key, out: bool)
    requires Rows(ms, order) && i < |ms|
    ensures Walked(ms, order + [i], k, out) == Walked(ms, order, k, out) + ms[i].Adds(k, out)
  {
    assert (order + [i])[..|order|] == order;
  }

  lemma {:induction false} WalkedWithout(ms: seq<Movement>, a: seq<nat>, i: nat, b: seq<nat>, k: Key, out: bool)
    requires Rows(ms, a) && Rows(ms, b) && i < |ms|
    ensures Walked(ms, a + [i] + b, k, out) == Walked(ms, a + b, k, out) + ms[i].Adds(k, out)
  {
    if b == [] {
      assert a + [i] + b == a + [i] && a + b == a;
      WalkedSnoc(ms, a, i, k, out);
    } else {
      var l := |b| - 1;
      WalkedWithout(ms, a, i, b[..l], k, out);
      assert a + [i] + b == (a + [i] + b[..l]) + [b[l]] && a + b == (a + b[..l]) + [b[l]];
      WalkedSnoc(ms, a + [i] + b[..l], b[l], k, out);
      WalkedSnoc(ms, a + b[..l], b[l], k, out);
    }
  }

  lemma {:induction false} WalkedPrefix(ms: seq<Movement>, l: nat, order: seq<nat>, k: Key, out: bool)
    requires l <= |ms| && Rows(ms[..l], order)
    ensures Walked(ms[..l], order, k, out) == Walked(ms, order, k, out)
  {
    if order != [] { WalkedPrefix(ms, l, order[..|order| - 1], k, out); }
  }

  ghost predicate Once(order: seq<nat>, b: nat)
    requires b < |order|
  {
    forall a | 0 <= a < b :: order[a] != order[b]
  }

  // the rows of one account in the list are those before position (d, n)
  ghost predicate Lists(ms: seq<Movement>, order: seq<nat>, k: Key, d: Time, n: nat) {
    && Rows(ms, order)
    && (forall b | 0 <= b < |order| :: Once(order, b))
    && (forall j | 0 <= j < |ms| && ms[j].key == k :: j in order <==> Precedes(ms[j], j, d, n))
  }

  lemma {:induction false} ListsDrop(ms: seq<Movement>, order: seq<nat>, k: Key, d: Time, n: nat, x: nat)
    requires ms != [] && Lists(ms, order, k, d, n) && x < |order| && order[x] == |ms| - 1
    ensures Lists(ms[..|ms| - 1], order[..x] + order[x + 1..], k, d, n)
  {
    var l := |ms| - 1;
    var r := order[..x] + order[x + 1..];
    assert order == order[..x] + [l] + order[x + 1..];
    forall b | 0 <= b < |r| ensures r[b] < l && Once(r, b) {
      var b' := if b < x then b else b + 1;
      assert r[b] == order[b'] && Once(order, b') && Once(order, x);
      forall a | 0 <= a < b ensures r[a] != r[b] { assert r[a] == order[if a < x then a else a + 1]; }
    }
    assert forall j | 0 <= j < l :: j in order <==> j in r;
  }

  lemma {:induction false} RowsNeedRows(ms: seq<Movement>, order: seq<nat>)
    requires Rows(ms, order)
    ensures order != [] ==> ms != []
  {
    if order != [] { assert order[0] < |ms|; }
  }

  lemma {:induction false} WalkedDrop(ms: seq<Movement>, order: seq<nat>, k: Key, x: nat, out: bool)
    requires ms != [] && Rows(ms, order) && x < |order| && order[x] == |ms| - 1
    requires Rows(ms[..|ms| - 1], order[..x] + order[x + 1..])
    ensures Walked(ms, order, k, out) ==
            Walked(ms[..|ms| - 1], order[..x] + order[x + 1..], k, out) + ms[|ms| - 1].Adds(k, out)
  {
    var l := |ms| - 1;
    assert order == order[..x] + [l] + order[x + 1..];
    WalkedWithout(ms, order[..x], l, order[x + 1..], k, out);
    WalkedPrefix(ms, l, order[..x] + order[x + 1..], k, out);
  }

  lemma {:induction false} ListsShort(ms: seq<Movement>, order: seq<nat>, k: Key, d: Time, n: nat)
    requires ms != [] && Lists(ms, order, k, d, n) && |ms| - 1 !in order
    ensures Lists(ms[..|ms| - 1], order, k, d, n)
  {
    assert forall b | 0 <= b < |order| :: order[b] in order;
  }

  /** Any duplicate-free listing of the rows before a position adds up to what the position holds. */
  lemma {:induction false} ListedSum(ms: seq<Movement>, order: seq<nat>, k: Key, d: Time, n: nat, out: bool)
    requires Lists(ms, order, k, d, n)
    ensures Walked(ms, order, k, out) == Effective(ms, k, d, n, out)
  {
    if ms == [] {
      RowsNeedRows(ms, order);
    } else {
      var l := |ms| - 1;
      if l in order {
        var x :| 0 <= x < |order| && order[x] == l;
        ListsDrop(ms, order, k, d, n, x);
        ListedSum(ms[..l], order[..x] + order[x + 1..], k, d, n, out);
        WalkedDrop(ms, order, k, x, out);
      } else {
        ListsShort(ms, order, k, d, n);
        ListedSum(ms[..l], order, k, d, n, out);
        WalkedPrefix(ms, l, order, k, out);
      }
    }
  }

  // up to and including the c-th row of the walk lies exactly what precedes the position after it
  lemma {:induction false} WalkReaches(ms: seq<Movement>, order: seq<nat>, c: nat)
    requires Listed(ms, order, |ms|) && c < |order|
    ensures Lists(ms, order[..c + 1], ms[order[c]].key, ms[order[c]].date, order[c] + 1)
  {
    var i, done := order[c], order[..c + 1];
    forall b | 0 <= b <= c ensures Once(done, b) {
      assert OrderedAt(ms, order, b);
      forall a | 0 <= a < b ensures order[a] != order[b] {
        RowTotal(ms, order[a], order[b]);
        KeyTotal(ms[order[b]].key, ms[order[b]].key);
      }
    }
    forall j | 0 <= j < |ms| && ms[j].key == ms[i].key ensures j in done <==> Precedes(ms[j], j, ms[i].date, i + 1) {
      KeyTotal(ms[i].key, ms[i].key);
      assert j in order;
      var a :| 0 <= a < |order| && order[a] == j;
      assert a <= c ==> done[a] == j;
      if a < c { assert OrderedAt(ms, order, c); }
      if a > c {
        assert OrderedAt(ms, order, a);
        RowTotal(ms, i, j);
        assert j !in done by { NotEarlier(ms, order, c, a); }
      }
    }
  }

  lemma {:induction false} NotEarlier(ms: seq<Movement>, order: seq<nat>, c: nat, a: nat)
    requires Listed(ms, order, |ms|) && c < a < |order|
    ensures order[a] !in order[..c + 1]
  {
    assert OrderedAt(ms, order, a);
    forall b | 0 <= b <= c ensures order[b] != order[a] {
      RowTotal(ms, order[b], order[a]);
      KeyTotal(ms[order[a]].key, ms[order[a]].key);
    }
  }

  // ---------------------------------------------------------------- the slow check

  datatype Verdict = Exact(checked: nat) | Wrong(checked: nat, row: nat, want: Volumes)

  ghost predicate RunningIs(running: map<Key, Volumes>, ms: seq<Movement>, order: seq<nat>)
    requires Rows(ms, order)
  {
    forall k {:trigger At(running, k)} ::
        At(running, k) == Volumes(Walked(ms, order, k, false), Walked(ms, order, k, true))
  }

  lemma {:induction false} RunningNext(running: map<Key, Volumes>, ms: seq<Movement>, order: seq<nat>, c: nat)
    requires Rows(ms, order) && c < |order| && RunningIs(running, ms, order[..c])
    ensures RunningIs(AddMove(running, ms[order[c]]), ms, order[..c + 1])
  {
    TakeNext(order, c);
    forall k ensures At(AddMove(running, ms[order[c]]), k) ==
                     Volumes(Walked(ms, order[..c + 1], k, false), Walked(ms, order[..c + 1], k, true)) {
      WalkedSnoc(ms, order[..c], order[c], k, false);
      WalkedSnoc(ms, order[..c], order[c], k, true);
    }
  }

  lemma {:induction false} RunningExact(running: map<Key, Volumes>, ms: seq<Movement>, order: seq<nat>, c: nat)
    requires Listed(ms, order, |ms|) && c < |order| && RunningIs(running, ms, order[..c + 1])
    ensures var m := ms[order[c]]; At(running, m.key) == HeldBefore(ms, m.key, m.date, order[c] + 1)
  {
    var m := ms[order[c]];
    WalkReaches(ms, order, c);
    ListedSum(ms, order[..c + 1], m.key, m.date, order[c] + 1, false);
    ListedSum(ms, order[..c + 1], m.key, m.date, order[c] + 1, true);
  }

  /** Accepts exactly the tables in which every snapshot equals a replay of what lies before it. */
  method VerifyEffectiveVolumes(moves: seq<Move>) returns (v: Verdict)
    ensures v.Exact? <==> PcevOk(moves)
    ensures v.Exact? ==> v.checked == |moves|
    ensures v.Wrong? ==> v.row < |moves| && !PcevAt(moves, v.row)
    ensures v.Wrong? ==> var m := moves[v.row].movement; v.want == HeldBefore(Core(moves), m.key, m.date, v.row + 1)
  {
    var order := EffectiveOrder(Core(moves));
    var running: map<Key, Volumes> := map[];
    var checked := 0;
    while checked < |order|
      invariant 0 <= checked <= |order|
      invariant RunningIs(running, Core(moves), order[..checked])
      invariant forall a | 0 <= a < checked :: PcevAt(moves, order[a])
    {
      var i := order[checked];
      RunningNext(running, Core(moves), order, checked);
      running := AddMove(running, moves[i].movement);
      RunningExact(running, Core(moves), order, checked);
      var want := At(running, moves[i].movement.key);
      if moves[i].pcev.input != want.input || moves[i].pcev.output != want.output {
        assert !PcevAt(moves, i);
        return Wrong(checked, i, want);
      }
      checked := checked + 1;
    }
    forall i | 0 <= i < |moves| ensures PcevAt(moves, i) { assert i in order; }
    v := Exact(checked);
  }

  // ---------------------------------------------------------------- the fast read

  // the latest row at or before the date, per asset, among the first i rows
  ghost predicate Found(first: map<Asset, nat>, moves: seq<Move>, address: Address, at: Time) {
    forall a {:trigger Key(address, a)} ::
      Latest(moves, Key(address, a), at) == if a in first then Some(first[a]) else None
  }

  lemma {:induction false} FoundNext(first: map<Asset, nat>, moves: seq<Move>, i: nat, address: Address, at: Time)
    requires i < |moves| && Found(first, moves[..i], address, at)
    ensures var m := moves[i].movement;
            var newer := m.key.account == address && m.date <= at
                         && (m.key.asset !in first
                             || (first[m.key.asset] < i && moves[first[m.key.asset]].movement.date <= m.date));
            Found(if newer then first[m.key.asset := i] else first, moves[..i + 1], address, at)
  {
    assert moves[..i + 1][..i] == moves[..i];
    var m := moves[i].movement;
    assert Latest(moves[..i], Key(address, m.key.asset), at).Some? ==> first[m.key.asset] < i;
  }

  /** One row an asset, the newest in effective order, its snapshot read and not recomputed: where
      the snapshots are exact that is what the account held on the date. */
  method GetEffectiveVolumesAt(moves: seq<Move>, address: Address, at: Time) returns (r: map<Asset, Volumes>)
    ensures forall a :: a in r <==> exists i | 0 <= i < |moves| ::
              moves[i].movement.key == Key(address, a) && moves[i].movement.date <= at
    ensures PcevOk(moves) ==> forall a | a in r :: r[a] == HeldAsOf(Core(moves), Key(address, a), at)
  {
    var first: map<Asset, nat> := map[];
    for i := 0 to |moves|
      invariant Found(first, moves[..i], address, at)
      invariant forall a | a in first :: first[a] < i
    {
      FoundNext(first, moves, i, address, at);
      var m := moves[i].movement;
      if m.key.account == address && m.date <= at
        && (m.key.asset !in first || moves[first[m.key.asset]].movement.date <= m.date) {
        first := first[m.key.asset := i];
      }
    }
    assert moves[..|moves|] == moves;
    r := map a | a in first :: moves[first[a]].pcev;
    forall a
      ensures a in r <==> exists i | 0 <= i < |moves| ::
                moves[i].movement.key == Key(address, a) && moves[i].movement.date <= at
    {
      assert Latest(moves, Key(address, a), at) == if a in first then Some(first[a]) else None;
    }
    if PcevOk(moves) {
      forall a | a in r ensures r[a] == HeldAsOf(Core(moves), Key(address, a), at) {
        assert Latest(moves, Key(address, a), at) == Some(first[a]);
        FastReadExact(moves, Key(address, a), at);
      }
    }
  }

  method GetBalancesAt(moves: seq<Move>, address: Address, at: Time) returns (r: map<Asset, int>)
    ensures forall a :: a in r <==> exists i | 0 <= i < |moves| ::
              moves[i].movement.key == Key(address, a) && moves[i].movement.date <= at
    ensures PcevOk(moves) ==> forall a | a in r ::
              r[a] == AsOf(Core(moves), Key(address, a), at, false) - AsOf(Core(moves), Key(address, a), at, true)
  {
    var volumes := GetEffectiveVolumesAt(moves, address, at);
    r := map a | a in volumes :: volumes[a].Balance();
  }
}

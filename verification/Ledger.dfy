/** The domain of the ledger: accounts and assets in lock order, postings, the volume
    deltas they cause, and their reversal. Amounts are mathematical integers, as they
    are in the source; a nil amount is `None`. */
module Ledger {

  datatype Option<+T> = None | Some(value: T)

  // named types, so that an account cannot be passed where an asset belongs
  datatype Address = Address(name: string)
  datatype Asset = Asset(name: string)
  // nanoseconds since the zero time, so that 0 is the time a caller did not give
  type Time = int

  const WORLD := Address("world")

  // a row of volumes: one account in one asset
  datatype Key = Key(account: Address, asset: Asset)

  datatype Volumes = Volumes(input: int, output: int) {
    function Balance(): int { input - output }
    function Swap(): Volumes { Volumes(output, input) }
  }

  // what a row that is not there counts as
  const ZERO := Volumes(0, 0)

  datatype Posting = Posting(source: Address, destination: Address, asset: Asset,
                             amount: Option<int>, upTo: bool) {
    function From(): Key { Key(source, asset) }
    function To(): Key { Key(destination, asset) }
    // what the posting contributes to the deltas: an UpTo posting without a ceiling counts nothing
    function Moved(): int { if amount.Some? then amount.value else 0 }
    // what the posting adds to one counter of a row: output if the row is its source, input if its destination
    function Adds(k: Key, out: bool): int { if (if out then From() else To()) == k then Moved() else 0 }
    // a figure rather than a ceiling, and never negative: what a committed posting looks like
    predicate Resolved() { !upTo && amount.Some? && amount.value >= 0 }
    // what Validate lets through
    predicate Acceptable() { (amount.None? ==> upTo) && (amount.Some? ==> amount.value >= 0) }
  }

  type Postings = seq<Posting>

  lemma {:induction false} TakeNext<T>(s: seq<T>, i: nat)
    requires i < |s|
    ensures s[..i + 1] == s[..i] + [s[i]]
  {
  }

  // ---------------------------------------------------------------- the lock order

  // cmp.Compare(a, b) < 0 on strings
  predicate Before(a: string, b: string) {
    if b == "" then false
    else if a == "" then true
    else if a[0] == b[0] then Before(a[1..], b[1..])
    else a[0] < b[0]
  }

  predicate KeyBefore(a: Key, b: Key) {
    Before(a.account.name, b.account.name) || (a.account == b.account && Before(a.asset.name, b.asset.name))
  }

  // the first n characters are the same, and there a ends or has the smaller character
  ghost predicate PartsAt(a: string, b: string, n: nat) {
    n <= |a| && n < |b| && a[..n] == b[..n] && (n == |a| || a[n] < b[n])
  }

  lemma {:induction false} PartsLater(a: string, b: string, n: nat)
    requires a != "" && b != "" && a[0] == b[0]
    ensures PartsAt(a[1..], b[1..], n) <==> PartsAt(a, b, n + 1)
  {
    if n < |a| && n < |b| { assert a[..n + 1] == [a[0]] + a[1..][..n] && b[..n + 1] == [b[0]] + b[1..][..n]; }
  }

  /** Names are compared character by character, and a name that ends first comes first. */
  lemma {:induction false} BeforeIsLexicographic(a: string, b: string)
    ensures Before(a, b) <==> exists n: nat :: PartsAt(a, b, n)
  {
    if a == "" || b == "" || a[0] != b[0] {
      assert Before(a, b) ==> PartsAt(a, b, 0);
      assert forall n: nat | n > 0 && n <= |a| && n <= |b| :: a[..n][0] == a[0] && b[..n][0] == b[0];
    } else {
      BeforeIsLexicographic(a[1..], b[1..]);
      forall n: nat ensures PartsAt(a[1..], b[1..], n) <==> PartsAt(a, b, n + 1) { PartsLater(a, b, n); }
      forall n: nat | PartsAt(a, b, n) ensures n > 0 && PartsAt(a[1..], b[1..], n - 1) { }
    }
  }

  /** Rows are locked by the account's name, and within an account by the asset's. */
  lemma {:induction false} KeyOrderIs(a: Key, b: Key)
    ensures KeyBefore(a, b) <==>
              || (exists n: nat :: PartsAt(a.account.name, b.account.name, n))
              || (a.account == b.account && exists n: nat :: PartsAt(a.asset.name, b.asset.name, n))
  {
    BeforeIsLexicographic(a.account.name, b.account.name);
    BeforeIsLexicographic(a.asset.name, b.asset.name);
  }

  lemma {:induction false} BeforeTotal(a: string, b: string)
    ensures a == b || Before(a, b) || Before(b, a)
    ensures !(Before(a, b) && Before(b, a)) && !Before(a, a)
  {
    if a != "" {
      BeforeTotal(a[1..], a[1..]);
      if b != "" && a[0] == b[0] {
        BeforeTotal(a[1..], b[1..]);
        assert a == [a[0]] + a[1..] && b == [b[0]] + b[1..];
      }
    }
  }

  lemma {:induction false} BeforeTransitive(a: string, b: string, c: string)
    requires Before(a, b) && Before(b, c)
    ensures Before(a, c)
  {
    if a != "" && a[0] == b[0] == c[0] {
      BeforeTransitive(a[1..], b[1..], c[1..]);
    }
  }

  /** The lock order is a strict total order on (account, asset). */
  lemma {:induction false} KeyTotal(a: Key, b: Key)
    ensures a == b || KeyBefore(a, b) || KeyBefore(b, a)
    ensures !(KeyBefore(a, b) && KeyBefore(b, a)) && !KeyBefore(a, a)
  {
    BeforeTotal(a.account.name, b.account.name);
    BeforeTotal(a.asset.name, b.asset.name);
    BeforeTotal(a.account.name, a.account.name);
    BeforeTotal(a.asset.name, a.asset.name);
  }

  lemma {:induction false} KeyTransitive(a: Key, b: Key, c: Key)
    requires KeyBefore(a, b) && KeyBefore(b, c)
    ensures KeyBefore(a, c)
  {
    if Before(a.account.name, b.account.name) && Before(b.account.name, c.account.name) {
      BeforeTransitive(a.account.name, b.account.name, c.account.name);
    } else if a.account == b.account == c.account {
      BeforeTransitive(a.asset.name, b.asset.name, c.asset.name);
    }
  }

  ghost predicate Ascending(ks: seq<Key>) {
    forall i, j | 0 <= i < j < |ks| :: KeyBefore(ks[i], ks[j])
  }

  ghost predicate Least(k: Key, s: set<Key>) {
    k in s && forall x | x in s && x != k :: KeyBefore(k, x)
  }

  lemma {:induction false} LeastExists(s: set<Key>) returns (k: Key)
    requires s != {}
    ensures Least(k, s)
  {
    k :| k in s;
    if s != {k} {
      var m := LeastExists(s - {k});
      KeyTotal(k, m);
      if KeyBefore(m, k) {
        forall x | x in s && x != m ensures KeyBefore(m, x) { if x != k { assert x in s - {k}; } }
        k := m;
      } else {
        forall x | x in s && x != k ensures KeyBefore(k, x) {
          if x != m { assert x in s - {k}; KeyTransitive(k, m, x); }
        }
      }
    }
  }

  // every key of a set once, in lock order
  ghost function SortedKeys(s: set<Key>): seq<Key>
    decreases |s|
  {
    if s == {} then []
    else
      assert exists k :: Least(k, s) by { var k := LeastExists(s); }
      var k :| Least(k, s);
      [k] + SortedKeys(s - {k})
  }

  lemma {:induction false} SortedKeysAscend(s: set<Key>)
    ensures Ascending(SortedKeys(s)) && forall k :: k in SortedKeys(s) <==> k in s
    decreases |s|
  {
    if s != {} {
      assert exists k :: Least(k, s) by { var k := LeastExists(s); }
      var least := SortedKeys(s)[0];
      assert Least(least, s) && SortedKeys(s) == [least] + SortedKeys(s - {least});
      SortedKeysAscend(s - {least});
      LeastFirst(least, s, SortedKeys(s - {least}));
    }
  }

  lemma {:induction false} SortedKeysCount(s: set<Key>)
    ensures |SortedKeys(s)| == |s|
    decreases |s|
  {
    if s != {} {
      assert exists k :: Least(k, s) by { var k := LeastExists(s); }
      var least := SortedKeys(s)[0];
      assert Least(least, s) && SortedKeys(s) == [least] + SortedKeys(s - {least});
      SortedKeysCount(s - {least});
    }
  }

  lemma {:induction false} LeastFirst(least: Key, s: set<Key>, rest: seq<Key>)
    requires Least(least, s) && Ascending(rest) && forall k :: k in rest <==> k in s - {least}
    ensures Ascending([least] + rest) && forall k :: k in [least] + rest <==> k in s
  {
    var ks := [least] + rest;
    forall j | 0 < j < |ks| ensures KeyBefore(least, ks[j]) { assert rest[j - 1] in rest; }
  }

  lemma {:induction false} AscendingUnique(a: seq<Key>, b: seq<Key>)
    requires Ascending(a) && Ascending(b) && forall k :: k in a <==> k in b
    ensures a == b
  {
    if a == [] {
      assert forall i | 0 <= i < |b| :: b[i] in b;
    } else {
      assert a[0] in b && b != [];
      assert b[0] in a;
      KeyTotal(a[0], b[0]);
      var i :| 0 <= i < |b| && b[i] == a[0];
      var j :| 0 <= j < |a| && a[j] == b[0];
      assert a[0] == b[0];
      forall k ensures k in a[1..] <==> k in b[1..] {
        KeyTotal(a[0], a[0]);
        assert k in a <==> k == a[0] || k in a[1..];
        assert k in b <==> k == b[0] || k in b[1..];
      }
      AscendingUnique(a[1..], b[1..]);
      assert a == [a[0]] + a[1..] && b == [b[0]] + b[1..];
    }
  }

  // what comes before a key in the order comes before it in the list
  lemma {:induction false} EarlierKey(keys: seq<Key>, n: nat, x: Key)
    requires Ascending(keys) && n < |keys| && x in keys && KeyBefore(x, keys[n])
    ensures exists i | 0 <= i < n :: keys[i] == x
  {
    var i :| 0 <= i < |keys| && keys[i] == x;
    KeyTotal(x, keys[n]);
  }

  // ---------------------------------------------------------------- volume deltas

  ghost function Touched(p: Postings): set<Key> {
    (set q | q in p :: q.From()) + (set q | q in p :: q.To())
  }

  // the sum of what the postings add to one counter of a row
  function Flow(p: Postings, k: Key, out: bool): int {
    if p == [] then 0 else Flow(p[..|p| - 1], k, out) + p[|p| - 1].Adds(k, out)
  }

  function Delta(p: Postings, k: Key): Volumes { Volumes(Flow(p, k, false), Flow(p, k, true)) }

  // what a row holds once the postings have run
  function After(v: Volumes, p: Postings, k: Key): Volumes {
    Volumes(v.input + Flow(p, k, false), v.output + Flow(p, k, true))
  }

  datatype VolumeUpdate = VolumeUpdate(key: Key, input: int, output: int)

  function UpdateOf(p: Postings, k: Key): VolumeUpdate { VolumeUpdate(k, Flow(p, k, false), Flow(p, k, true)) }

  /** The deltas of a transaction: one entry a touched row, in lock order, each the sum over the postings. */
  ghost function Updates(p: Postings): seq<VolumeUpdate> {
    var ks := SortedKeys(Touched(p));
    seq(|ks|, i requires 0 <= i < |ks| => UpdateOf(p, ks[i]))
  }

  lemma {:induction false} TouchedAppend(p: Postings, q: Posting)
    ensures Touched(p + [q]) == Touched(p) + {q.From(), q.To()}
  {
    assert forall x :: x in p + [q] <==> x in p || x == q;
  }

  lemma {:induction false} UntouchedFlow(p: Postings, k: Key, out: bool)
    requires k !in Touched(p)
    ensures Flow(p, k, out) == 0
  {
    if p != [] {
      var q := p[|p| - 1];
      assert p == p[..|p| - 1] + [q];
      TouchedAppend(p[..|p| - 1], q);
      UntouchedFlow(p[..|p| - 1], k, out);
    }
  }

  lemma {:induction false} UntouchedDelta(p: Postings, k: Key)
    requires k !in Touched(p)
    ensures Delta(p, k) == ZERO
  {
    UntouchedFlow(p, k, false);
    UntouchedFlow(p, k, true);
  }

  lemma {:induction false} FlowConcat(p: Postings, q: Postings, k: Key, out: bool)
    ensures Flow(p + q, k, out) == Flow(p, k, out) + Flow(q, k, out)
  {
    if q == [] {
      assert p + q == p;
    } else {
      assert (p + q)[..|p + q| - 1] == p + q[..|q| - 1];
      FlowConcat(p, q[..|q| - 1], k, out);
    }
  }

  lemma {:induction false} FlowSnoc(p: Postings, q: Posting, k: Key, out: bool)
    ensures Flow(p + [q], k, out) == Flow(p, k, out) + q.Adds(k, out)
  {
    assert (p + [q])[..|p|] == p;
  }

  /** What one posting makes of a row: its amount counts once as output of the source and once as input of the
      destination, in its own asset, and a sweep without a ceiling counts nothing. Sums over postings add up. */
  lemma {:induction false} FlowInFigures(q: Posting, r: Postings, p: Postings, k: Key)
    ensures var n := if q.amount.None? then 0 else q.amount.value;
            && Flow([q], k, true) == (if k.account == q.source && k.asset == q.asset then n else 0)
            && Flow([q], k, false) == (if k.account == q.destination && k.asset == q.asset then n else 0)
    ensures Flow(p + r, k, true) == Flow(p, k, true) + Flow(r, k, true)
    ensures Flow(p + r, k, false) == Flow(p, k, false) + Flow(r, k, false)
  {
    assert [q][..0] == [];
    FlowConcat(p, r, k, true);
    FlowConcat(p, r, k, false);
  }

  lemma {:induction false} FlowNonnegative(p: Postings, k: Key, out: bool)
    requires forall q | q in p :: q.Acceptable()
    ensures Flow(p, k, out) >= 0
  {
    if p != [] {
      assert p[|p| - 1] in p;
      FlowNonnegative(p[..|p| - 1], k, out);
    }
  }

  // the first posting whose amount is nil without being a sweep, as VolumeUpdates finds it
  function FirstNil(p: Postings, i: nat): (r: Option<nat>)
    ensures r.None? <==> forall j | i <= j < |p| :: p[j].amount.Some? || p[j].upTo
    ensures r.Some? ==> i <= r.value < |p| && p[r.value].amount.None? && !p[r.value].upTo
    ensures r.Some? ==> forall j | i <= j < r.value :: p[j].amount.Some? || p[j].upTo
    decreases |p| - i
  {
    if i >= |p| then None
    else if p[i].amount.None? && !p[i].upTo then Some(i)
    else FirstNil(p, i + 1)
  }

  ghost predicate Accumulated(index: map<Key, Volumes>, p: Postings) {
    index.Keys == Touched(p) && forall k {:trigger At(index, k)} :: At(index, k) == Delta(p, k)
  }

  // the entry for one row, created at zero if the postings have not named it before
  function At(index: map<Key, Volumes>, k: Key): Volumes {
    if k in index then index[k] else ZERO
  }

  function AddTo(index: map<Key, Volumes>, k: Key, input: int, output: int): (r: map<Key, Volumes>)
    ensures r.Keys == index.Keys + {k}
    ensures forall x {:trigger At(r, x)} ::
              At(r, x) == if x == k then Volumes(At(index, x).input + input, At(index, x).output + output)
                else At(index, x)
  {
    index[k := Volumes(At(index, k).input + input, At(index, k).output + output)]
  }

  // where source and destination are one row, both its counters move
  function Accumulate(index: map<Key, Volumes>, q: Posting): (r: map<Key, Volumes>)
    ensures r.Keys == index.Keys + {q.From(), q.To()}
    ensures forall k {:trigger At(r, k)} ::
              At(r, k) == Volumes(At(index, k).input + q.Adds(k, false), At(index, k).output + q.Adds(k, true))
  {
    AddTo(AddTo(index, q.From(), 0, q.Moved()), q.To(), q.Moved(), 0)
  }

  lemma {:induction false} AccumulateOne(index: map<Key, Volumes>, p: Postings, q: Posting)
    requires Accumulated(index, p)
    ensures Accumulated(Accumulate(index, q), p + [q])
  {
    var r := Accumulate(index, q);
    TouchedAppend(p, q);
    forall k ensures At(r, k) == Delta(p + [q], k) { FlowSnoc(p, q, k, false); FlowSnoc(p, q, k, true); }
  }

  lemma {:induction false} AccumulateNext(index: map<Key, Volumes>, p: Postings, i: nat)
    requires i < |p| && Accumulated(index, p[..i])
    ensures Accumulated(Accumulate(index, p[i]), p[..i + 1])
  {
    TakeNext(p, i);
    AccumulateOne(index, p[..i], p[i]);
  }

  datatype UpdatesResult = Deltas(updates: seq<VolumeUpdate>) | NilAmount(index: nat)

  /** Accumulates an entry per row in a map, then sorts the entries: a map has no order,
      and sorting gives everybody the same one. */
  method VolumeUpdates(p: Postings) returns (r: UpdatesResult)
    ensures FirstNil(p, 0).Some? ==> r == NilAmount(FirstNil(p, 0).value)
    ensures FirstNil(p, 0).None? ==> r == Deltas(Updates(p))
  {
    var index, failed := IndexPostings(p);
    if failed.Some? { return NilAmount(failed.value); }
    var updates := SortUpdates(index, p);
    return Deltas(updates);
  }

  method IndexPostings(p: Postings) returns (index: map<Key, Volumes>, failed: Option<nat>)
    ensures failed == FirstNil(p, 0)
    ensures failed.None? ==> Accumulated(index, p)
  {
    index := map[];
    for i := 0 to |p|
      invariant FirstNil(p, 0) == FirstNil(p, i)
      invariant Accumulated(index, p[..i])
    {
      if p[i].amount.None? && !p[i].upTo { return index, Some(i); }
      AccumulateNext(index, p, i);
      index := Accumulate(index, p[i]);
    }
    assert p[..|p|] == p;
    failed := None;
  }

  method SortUpdates(index: map<Key, Volumes>, ghost p: Postings) returns (us: seq<VolumeUpdate>)
    requires Accumulated(index, p)
    ensures us == Updates(p)
  {
    var sorted := SortKeys(index.Keys);
    us := [];
    for i := 0 to |sorted|
      invariant |us| == i
      invariant forall j | 0 <= j < i :: us[j] == UpdateOf(p, sorted[j])
    {
      us := us + [VolumeUpdate(sorted[i], At(index, sorted[i]).input, At(index, sorted[i]).output)];
    }
  }

  // insertion of one key into an ascending sequence
  method InsertKey(ks: seq<Key>, k: Key) returns (r: seq<Key>)
    requires Ascending(ks) && k !in ks
    ensures Ascending(r) && forall x :: x in r <==> x in ks || x == k
  {
    var i := 0;
    while i < |ks| && KeyBefore(ks[i], k)
      invariant 0 <= i <= |ks|
      invariant forall j | 0 <= j < i :: KeyBefore(ks[j], k)
    {
      i := i + 1;
    }
    if i < |ks| {
      KeyTotal(ks[i], k);
      forall j | i <= j < |ks| ensures KeyBefore(k, ks[j]) {
        if j > i { KeyTransitive(k, ks[i], ks[j]); }
      }
    }
    r := ks[..i] + [k] + ks[i..];
    assert forall x :: x in ks <==> x in ks[..i] || x in ks[i..];
  }

  method SortKeys(s: set<Key>) returns (ks: seq<Key>)
    ensures ks == SortedKeys(s)
  {
    ks := [];
    var rest := s;
    while rest != {}
      invariant Ascending(ks) && rest <= s
      invariant forall k :: k in ks <==> k in s - rest
      decreases |rest|
    {
      var k :| k in rest;
      ks := InsertKey(ks, k);
      rest := rest - {k};
    }
    SortedKeysAscend(s);
    AscendingUnique(ks, SortedKeys(s));
  }

  // ---------------------------------------------------------------- reversal

  function Inverse(q: Posting): Posting {
    Posting(q.destination, q.source, q.asset, q.amount, false)
  }

  // every posting the other way round, last first
  function Reversed(p: Postings): (r: Postings)
    ensures |r| == |p|
    ensures forall i | 0 <= i < |p| :: r[i] == Inverse(p[|p| - 1 - i])
  {
    if p == [] then [] else [Inverse(p[|p| - 1])] + Reversed(p[..|p| - 1])
  }

  datatype ReverseResult = Reversal(postings: Postings) | ReverseNil(index: nat)

  method Reverse(p: Postings) returns (r: ReverseResult)
    ensures (forall q | q in p :: q.amount.Some?) ==> r == Reversal(Reversed(p))
    ensures (exists q | q in p :: q.amount.None?) ==>
              r.ReverseNil? && r.index < |p| && p[r.index].amount.None? &&
              forall j | 0 <= j < r.index :: p[j].amount.Some?
  {
    if |p| == 0 { return Reversal([]); }
    var rev := new Posting[|p|](_ => p[0]);
    var i := 0;
    while i < |p|
      invariant 0 <= i <= |p|
      invariant forall j | 0 <= j < i :: p[j].amount.Some?
      invariant forall j | 0 <= j < i :: rev[|p| - 1 - j] == Inverse(p[j])
    {
      if p[i].amount.None? { return ReverseNil(i); }
      rev[|p| - 1 - i] := Inverse(p[i]);
      i := i + 1;
    }
    assert forall j | 0 <= j < |p| :: rev[j] == Inverse(p[|p| - 1 - j]);
    assert rev[..] == Reversed(p);
    return Reversal(rev[..]);
  }

  /** Reversal is an involution on postings whose amounts are figures. */
  lemma {:induction false} ReverseTwice(p: Postings)
    requires forall q | q in p :: !q.upTo
    ensures Reversed(Reversed(p)) == p
  {
    forall i | 0 <= i < |p| ensures Reversed(Reversed(p))[i] == p[i] {
      assert Reversed(p)[|p| - 1 - i] == Inverse(p[i]);
      assert p[i] in p;
    }
  }

  lemma {:induction false} ReversedConcat(p: Postings, q: Postings)
    ensures Reversed(p + q) == Reversed(q) + Reversed(p)
  {
    if q == [] {
      assert p + q == p;
    } else {
      assert (p + q)[..|p + q| - 1] == p + q[..|q| - 1];
      ReversedConcat(p, q[..|q| - 1]);
    }
  }

  lemma {:induction false} ReversedFlow(p: Postings, k: Key, out: bool)
    ensures Flow(Reversed(p), k, out) == Flow(p, k, !out)
  {
    if p != [] {
      var q, init := p[|p| - 1], p[..|p| - 1];
      ReversedFlow(init, k, out);
      FlowConcat([Inverse(q)], Reversed(init), k, out);
      FlowSnoc([], Inverse(q), k, out);
      assert [] + [Inverse(q)] == [Inverse(q)];
    }
  }

  /** The deltas of a reversal are the deltas of the original with input and output swapped. */
  lemma {:induction false} ReversedDelta(p: Postings, k: Key)
    ensures Delta(Reversed(p), k) == Delta(p, k).Swap()
  {
    ReversedFlow(p, k, false);
    ReversedFlow(p, k, true);
  }

  lemma {:induction false} ReversedTouches(p: Postings)
    ensures Touched(Reversed(p)) == Touched(p)
  {
    var r := Reversed(p);
    forall k | k in Touched(p) ensures k in Touched(r) {
      var i :| 0 <= i < |p| && (p[i].From() == k || p[i].To() == k);
      assert r[|p| - 1 - i] == Inverse(p[i]);
      assert r[|p| - 1 - i] in r;
    }
    forall k | k in Touched(r) ensures k in Touched(p) {
      var i :| 0 <= i < |r| && (r[i].From() == k || r[i].To() == k);
      assert r[i] == Inverse(p[|p| - 1 - i]);
      assert p[|p| - 1 - i] in p;
    }
  }

  /** Applying a reversal from the end state walks the balances of the original run
      backwards: after n reversing postings every balance is what it was after |p| - n. */
  lemma {:induction false} ReverseRetraces(p: Postings, k: Key, start: int, n: nat)
    requires n <= |p|
    ensures start + Delta(p, k).Balance() + Delta(Reversed(p)[..n], k).Balance()
         == start + Delta(p[..|p| - n], k).Balance()
  {
    var head, tail := p[..|p| - n], p[|p| - n..];
    assert p == head + tail;
    ReversedConcat(head, tail);
    assert Reversed(p)[..n] == Reversed(tail);
    ReversedDelta(tail, k);
    FlowConcat(head, tail, k, false);
    FlowConcat(head, tail, k, true);
  }
}

/** The hash chained log: the check that walks it, what a matching tip hash proves about two
    logs, and what it does not. */
module Chain {
  import opened Ledger
  import opened Engine

  function LastId(logs: seq<Log>): int { if logs == [] then 0 else logs[|logs| - 1].id }

  function LastHash(logs: seq<Log>): Hash { if logs == [] then Root else logs[|logs| - 1].hash }

  function DataOf(logs: seq<Log>): (r: seq<Data>)
    ensures |r| == |logs|
  {
    seq(|logs|, i requires 0 <= i < |logs| => logs[i].data)
  }

  datatype Gap = Gap(resumedFrom: int, skippedThrough: int)

  // the range an entry declares: bytes of another shape decode to zeros
  function DeclaredGap(l: Log): Option<Gap> {
    if l.kind != Recovery then None
    else if l.data.RecoveryData? then Some(Gap(l.data.resumedFrom, l.data.skippedThrough))
    else Some(Gap(0, 0))
  }

  // ids may be missing in exactly the range the entry behind them names
  ghost predicate EntryOk(logs: seq<Log>, i: nat)
    requires i < |logs|
  {
    && (logs[i].id == LastId(logs[..i]) + 1 || DeclaredGap(logs[i]) == Some(Gap(LastId(logs[..i]), logs[i].id - 1)))
    && logs[i].hash == Chained(LastHash(logs[..i]), logs[i].data)
  }

  ghost predicate ChainOk(logs: seq<Log>) { forall i | 0 <= i < |logs| :: EntryOk(logs, i) }

  // the primary key, in the order the rows are read
  ghost predicate IdsAscend(logs: seq<Log>) { forall i | 0 <= i < |logs| :: IdAbove(logs, i) }

  ghost predicate IdAbove(logs: seq<Log>, i: nat)
    requires i < |logs|
  {
    forall j | 0 <= j < i :: logs[j].id < logs[i].id
  }

  datatype Verdict = Sound(checked: nat) | BrokenAt(checked: nat)

  /** Accepts exactly the logs in which every entry is chained to the one before it and every
      gap is declared; otherwise names the first entry that is not. */
  method VerifyLog(logs: seq<Log>) returns (v: Verdict)
    ensures v.Sound? <==> ChainOk(logs)
    ensures v.Sound? ==> v.checked == |logs|
    ensures v.BrokenAt? ==> v.checked < |logs| && !EntryOk(logs, v.checked) && ChainOk(logs[..v.checked])
  {
    var previous, expected := Root, 1;
    var checked := 0;
    while checked < |logs|
      invariant 0 <= checked <= |logs|
      invariant previous == LastHash(logs[..checked]) && expected == LastId(logs[..checked]) + 1
      invariant forall i | 0 <= i < checked :: EntryOk(logs, i)
    {
      var l := logs[checked];
      if l.id != expected {
        var declared := DeclaredGap(l);
        if declared.None? || declared.value.resumedFrom != expected - 1 || declared.value.skippedThrough != l.id - 1 {
          PrefixOk(logs, checked);
          assert !EntryOk(logs, checked);
          return BrokenAt(checked);
        }
        expected := l.id;
      }
      if Chained(previous, l.data) != l.hash {
        PrefixOk(logs, checked);
        assert !EntryOk(logs, checked);
        return BrokenAt(checked);
      }
      previous := l.hash;
      expected := expected + 1;
      checked := checked + 1;
    }
    return Sound(checked);
  }

  lemma {:induction false} PrefixOk(logs: seq<Log>, n: nat)
    requires n <= |logs| && forall i | 0 <= i < n :: EntryOk(logs, i)
    ensures ChainOk(logs[..n])
  {
    forall i | 0 <= i < n ensures EntryOk(logs[..n], i) {
      assert EntryOk(logs, i);
      assert logs[..n][..i] == logs[..i];
    }
  }

  lemma {:induction false} ChainExtends(logs: seq<Log>, l: Log)
    requires ChainOk(logs)
    requires l.id == LastId(logs) + 1 || DeclaredGap(l) == Some(Gap(LastId(logs), l.id - 1))
    requires l.hash == Chained(LastHash(logs), l.data)
    ensures ChainOk(logs + [l]) && LastId(logs + [l]) == l.id && LastHash(logs + [l]) == l.hash
  {
    var r := logs + [l];
    forall i | 0 <= i < |r| ensures EntryOk(r, i) {
      assert r[..i] == logs[..i];
      assert logs[..|logs|] == logs;
      assert i < |logs| ==> EntryOk(logs, i);
    }
  }

  // what an entry follows, where nothing comes before it
  function IdBefore(logs: seq<Log>, i: nat): int
    requires i < |logs|
  {
    if i == 0 then 0 else logs[i - 1].id
  }

  function HashBefore(logs: seq<Log>, i: nat): Hash
    requires i < |logs|
  {
    if i == 0 then Root else logs[i - 1].hash
  }

  // a recovery whose payload names the last id before the gap and the last id in it
  predicate NamesGap(l: Log, before: int) {
    && l.kind == Recovery && l.data.RecoveryData?
    && l.data.resumedFrom == before && l.data.skippedThrough == l.id - 1
  }

  predicate Follows(logs: seq<Log>, i: nat)
    requires i < |logs|
  {
    && (logs[i].id == IdBefore(logs, i) + 1 || NamesGap(logs[i], IdBefore(logs, i)))
    && logs[i].hash == Chained(HashBefore(logs, i), logs[i].data)
  }

  lemma {:induction false} EntryFollows(logs: seq<Log>, i: nat)
    requires i < |logs|
    ensures EntryOk(logs, i) <==> Follows(logs, i)
  {
  }

  /** What the check accepts, entry by entry: the next id, or a recovery that names exactly the ids in between,
      and a hash over the hash before and the data. A recovery of another shape declares nothing. */
  lemma {:induction false} AcceptedExactly(logs: seq<Log>)
    ensures ChainOk(logs) <==> forall i | 0 <= i < |logs| :: Follows(logs, i)
  {
    forall i | 0 <= i < |logs| ensures EntryOk(logs, i) <==> Follows(logs, i) { EntryFollows(logs, i); }
  }

  /** Replacing the data or the hash of any entry but the last is found, whatever it is replaced with. */
  lemma {:induction false} ReplacedIsFound(logs: seq<Log>, i: nat, l: Log)
    requires ChainOk(logs) && i + 1 < |logs| && (l.data != logs[i].data || l.hash != logs[i].hash)
    ensures !ChainOk(logs[i := l])
  {
    var r := logs[i := l];
    AcceptedExactly(logs);
    AcceptedExactly(r);
    assert Follows(logs, i) && Follows(logs, i + 1);
    assert !Follows(r, i) || !Follows(r, i + 1);
  }

  /** So is taking out any entry but the last. */
  lemma {:induction false} RemovedIsFound(logs: seq<Log>, i: nat)
    requires ChainOk(logs) && i + 1 < |logs|
    ensures !ChainOk(logs[..i] + logs[i + 1..])
  {
    var r := logs[..i] + logs[i + 1..];
    AcceptedExactly(logs);
    AcceptedExactly(r);
    assert Follows(logs, i) && Follows(logs, i + 1) && r[i] == logs[i + 1];
    assert HashBefore(r, i) == HashBefore(logs, i);
    ChainedIsNew(HashBefore(logs, i), logs[i].data);
    assert !Follows(r, i);
  }

  lemma {:induction false} ChainedIsNew(h: Hash, data: Data)
    ensures Chained(h, data) != h
  {
    if h.Chained? { ChainedIsNew(h.previous, h.data); }
  }

  /** Two logs the check accepts, with the same hash at the head, carry the same data in the
      same order: rewriting any entry changes every hash after it. */
  lemma {:induction false} SameTipSameData(a: seq<Log>, b: seq<Log>)
    requires ChainOk(a) && ChainOk(b) && LastHash(a) == LastHash(b)
    ensures DataOf(a) == DataOf(b)
  {
    if a == [] || b == [] {
      assert a != [] ==> EntryOk(a, |a| - 1);
      assert b != [] ==> EntryOk(b, |b| - 1);
    } else {
      var m, n := |a| - 1, |b| - 1;
      assert EntryOk(a, m) && EntryOk(b, n);
      PrefixOk(a, m);
      PrefixOk(b, n);
      SameTipSameData(a[..m], b[..n]);
      assert DataOf(a) == DataOf(a[..m]) + [a[m].data];
      assert DataOf(b) == DataOf(b[..n]) + [b[n].data];
    }
  }

  /** What the hash does not say. It covers the data and not the type or the id, so two accepted
      logs with one tip can disagree on both: here the same recovery payload stands once behind
      the gap it declares and once at the next id, and the entry behind it under two types. */
  lemma {:induction false} TipDoesNotFixTypesOrIds() returns (a: seq<Log>, b: seq<Log>)
    ensures ChainOk(a) && ChainOk(b) && LastHash(a) == LastHash(b) && |a| == |b| == 2
    ensures a[0].id != b[0].id && a[1].kind != b[1].kind
  {
    var gap := RecoveryData(0, 5, "");
    var next := DeleteMetadataData(OnAccount(WORLD), "k");
    var h := Chained(Root, gap);
    var a0, a1 := Log(6, Recovery, gap, h, None), Log(7, DeleteMetadata, next, Chained(h, next), None);
    var b0, b1 := Log(1, Recovery, gap, h, None), Log(2, SetMetadata, next, Chained(h, next), None);
    a, b := [] + [a0] + [a1], [] + [b0] + [b1];
    ChainExtends([], a0);
    ChainExtends([] + [a0], a1);
    ChainExtends([], b0);
    ChainExtends([] + [b0], b1);
  }

  // ---------------------------------------------------------------- comparing against a recorded tip

  datatype TipCheck = Matches | Behind | Forked

  function FindId(logs: seq<Log>, id: int): (r: Option<nat>)
    ensures r.Some? ==> r.value < |logs| && logs[r.value].id == id
    ensures r.None? ==> forall i | 0 <= i < |logs| :: logs[i].id != id
  {
    if logs == [] then None
    else if logs[|logs| - 1].id == id then Some(|logs| - 1)
    else
      var r := FindId(logs[..|logs| - 1], id);
      assert forall i | 0 <= i < |logs| - 1 :: logs[..|logs| - 1][i] == logs[i];
      r
  }

  function CheckTip(logs: seq<Log>, expected: Tip): TipCheck {
    if expected.logId == 0 then Matches
    else
      var found := FindId(logs, expected.logId);
      if found.None? then Behind
      else if logs[found.value].hash != expected.hash then Forked
      else Matches
  }

  lemma {:induction false} IdsDiffer(logs: seq<Log>, i: nat, j: nat)
    requires IdsAscend(logs) && i < |logs| && j < |logs| && i != j
    ensures logs[i].id != logs[j].id
  {
    assert IdAbove(logs, i) && IdAbove(logs, j);
  }

  /** The comparison looks for the one entry with the recorded id: nothing recorded always matches, no such
      entry is behind, and one with another hash is forked. */
  lemma {:induction false} TipReads(logs: seq<Log>, t: Tip)
    requires IdsAscend(logs)
    ensures CheckTip(logs, t) == Matches <==>
              t.logId == 0 || exists l | l in logs :: l.id == t.logId && l.hash == t.hash
    ensures CheckTip(logs, t) == Behind <==> t.logId != 0 && forall l | l in logs :: l.id != t.logId
  {
    var found := FindId(logs, t.logId);
    if found.Some? {
      forall l | l in logs && l.id == t.logId ensures l == logs[found.value] {
        var j :| 0 <= j < |logs| && logs[j] == l;
        if j != found.value { IdsDiffer(logs, j, found.value); }
      }
    }
  }

  // the current log carries the recorded one's data as the prefix that ends at the recorded id
  ghost predicate Carries(current: seq<Log>, recorded: seq<Log>, n: nat) {
    n < |current| && current[n].id == LastId(recorded) && DataOf(current[..n + 1]) == DataOf(recorded)
  }

  /** On a log the chain check accepts, a passing comparison against the tip of a recorded log
      means exactly that the recorded history is the beginning of the current one. */
  lemma {:induction false} TipMatchesIffHistoryKept(current: seq<Log>, recorded: seq<Log>, t: Tip)
    requires ChainOk(current) && IdsAscend(current) && ChainOk(recorded) && recorded != []
    requires t.logId == LastId(recorded) && t.logId != 0 && t.hash == LastHash(recorded)
    ensures CheckTip(current, t).Matches? <==> exists n: nat :: Carries(current, recorded, n)
  {
    var found := FindId(current, t.logId);
    if found.Some? {
      var n := found.value;
      PrefixOk(current, n + 1);
      if current[n].hash == t.hash {
        SameTipSameData(current[..n + 1], recorded);
        assert Carries(current, recorded, n);
      }
      forall m: nat | Carries(current, recorded, m) ensures current[n].hash == t.hash {
        if m != n { IdsDiffer(current, m, n); }
        SameDataSameTip(current[..n + 1], recorded);
      }
    }
  }

  lemma {:induction false} SameDataSameTip(a: seq<Log>, b: seq<Log>)
    requires ChainOk(a) && ChainOk(b) && DataOf(a) == DataOf(b)
    ensures LastHash(a) == LastHash(b)
  {
    assert |a| == |DataOf(a)| == |b|;
    if a != [] {
      var m := |a| - 1;
      assert EntryOk(a, m) && EntryOk(b, m);
      assert a[m].data == DataOf(a)[m] && b[m].data == DataOf(b)[m];
      PrefixOk(a, m);
      PrefixOk(b, m);
      assert DataOf(a[..m]) == DataOf(a)[..m] && DataOf(b[..m]) == DataOf(b)[..m];
      SameDataSameTip(a[..m], b[..m]);
    }
  }

  /** A log cut short of the recorded id is reported as behind; one with a different history at
      that id is reported as forked. */
  lemma {:induction false} TruncatedIsBehindRewrittenIsForked(current: seq<Log>, recorded: seq<Log>, t: Tip)
    requires ChainOk(current) && IdsAscend(current) && ChainOk(recorded) && recorded != []
    requires t.logId == LastId(recorded) && t.logId != 0 && t.hash == LastHash(recorded)
    ensures CheckTip(current, t).Behind? <==> forall i | 0 <= i < |current| :: current[i].id != t.logId
    ensures CheckTip(current, t).Forked? <==>
            exists n: nat | n < |current| :: current[n].id == t.logId && DataOf(current[..n + 1]) != DataOf(recorded)
  {
    var found := FindId(current, t.logId);
    if found.Some? {
      var n := found.value;
      PrefixOk(current, n + 1);
      forall m: nat | m < |current| && m != n ensures current[m].id != t.logId { IdsDiffer(current, m, n); }
      if current[n].hash == t.hash {
        SameTipSameData(current[..n + 1], recorded);
      } else if DataOf(current[..n + 1]) == DataOf(recorded) {
        SameDataSameTip(current[..n + 1], recorded);
      }
    }
  }
}

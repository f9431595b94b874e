/** Walking a list page by page while rows land between requests. A row's position is its
    effective date and its seq, or its id alone where a list is ordered by one. */
module Pages {
  import opened Ledger
  import opened History
  import opened Engine
  import opened Chain
  import opened Invariants
  import opened Runs
  import opened Permanence
  import opened Funding

  datatype Position = Position(date: Time, rank: int)

  predicate Past(a: Position, b: Position) { a.date < b.date || (a.date == b.date && a.rank < b.rank) }

  // the rows a query matches, in the order it asks for
  ghost predicate InOrder(rows: seq<Position>) { forall j | 0 <= j < |rows| :: AllBefore(rows, j) }

  ghost predicate AllBefore(rows: seq<Position>, j: nat)
    requires j < |rows|
  {
    forall i | 0 <= i < j :: Past(rows[i], rows[j])
  }

  predicate Beyond(p: Position, after: Option<Position>) { after.Some? ==> Past(after.value, p) }

  // how many rows lie at or before the cursor
  function Skip(rows: seq<Position>, after: Option<Position>): (n: nat)
    ensures n <= |rows|
    ensures forall i | 0 <= i < n :: !Beyond(rows[i], after)
    ensures n < |rows| ==> Beyond(rows[n], after)
  {
    if rows == [] || Beyond(rows[0], after) then 0
    else
      var n := Skip(rows[1..], after);
      assert forall i | 0 < i < n + 1 :: rows[i] == rows[1..][i - 1];
      n + 1
  }

  function Rest(rows: seq<Position>, after: Option<Position>): seq<Position> { rows[Skip(rows, after)..] }

  datatype Page = Page(items: seq<Position>, next: Option<Position>)

  // what the query returns: rows beyond the cursor, in order, no more than count of them
  function Fetched(rows: seq<Position>, after: Option<Position>, count: nat): seq<Position> {
    var n := Skip(rows, after);
    if |rows| <= n + count then rows[n..] else rows[n..n + count]
  }

  /** One more row than asked for is fetched, to tell whether there are more. The page is
      the first rows beyond the cursor, and continues from its last row exactly when there are more. */
  method ListPage(rows: seq<Position>, after: Option<Position>, limit: nat) returns (p: Page)
    requires limit > 0
    ensures p == PageOf(rows, after, limit)
  {
    var fetched, items: seq<Position> := Fetched(rows, after, limit + 1), [];
    for i := 0 to |fetched|
      invariant items == fetched[..i]
    {
      items := items + [fetched[i]];
    }
    FinishIsPage(rows, after, limit);
    p := Finish(items, limit);
  }

  // no more than asked for, and a cursor when there was more
  function Finish(items: seq<Position>, limit: nat): Page
    requires limit > 0
  {
    if |items| <= limit then Page(items, None) else Page(items[..limit], Some(items[limit - 1]))
  }

  lemma {:induction false} FinishIsPage(rows: seq<Position>, after: Option<Position>, limit: nat)
    requires limit > 0
    ensures Finish(Fetched(rows, after, limit + 1), limit) == PageOf(rows, after, limit)
  {
    var n := Skip(rows, after);
    if |rows| > n + limit { assert Fetched(rows, after, limit + 1)[..limit] == rows[n..n + limit]; }
  }

  lemma {:induction false} SkipIs(rows: seq<Position>, after: Option<Position>, n: nat)
    requires n <= |rows| && (forall i | 0 <= i < n :: !Beyond(rows[i], after))
             && (n < |rows| ==> Beyond(rows[n], after))
    ensures Skip(rows, after) == n
  {
    var m := Skip(rows, after);
    if m < |rows| { assert Beyond(rows[m], after); }
    if n < |rows| { assert Beyond(rows[n], after); }
  }

  function PageOf(rows: seq<Position>, after: Option<Position>, limit: nat): Page
    requires limit > 0
  {
    var n := Skip(rows, after);
    if |rows| <= n + limit then Page(rows[n..], None) else Page(rows[n..n + limit], Some(rows[n + limit - 1]))
  }

  // ---------------------------------------------------------------- a walk

  // a request a page, each against the rows as they then are, until a page has no next
  ghost function Walk(tables: seq<seq<Position>>, after: Option<Position>, limit: nat): seq<Position>
    requires limit > 0
  {
    if tables == [] then []
    else
      var p := PageOf(tables[0], after, limit);
      p.items + if p.next.Some? then Walk(tables[1..], p.next, limit) else []
  }

  // the walk ends with the last of these tables
  ghost predicate Completes(tables: seq<seq<Position>>, after: Option<Position>, limit: nat)
    requires limit > 0
  {
    tables != [] &&
    var p := PageOf(tables[0], after, limit);
    if |tables| == 1 then p.next.None? else p.next.Some? && Completes(tables[1..], p.next, limit)
  }

  lemma {:induction false} PastTransitive(a: Position, b: Position, c: Position)
    requires Past(a, b) && Past(b, c)
    ensures Past(a, c)
  {
  }

  // in ordered rows what lies beyond a cursor is a suffix
  lemma {:induction false} RestExactly(rows: seq<Position>, after: Option<Position>)
    requires InOrder(rows)
    ensures InOrder(Rest(rows, after)) && forall x :: x in Rest(rows, after) <==> x in rows && Beyond(x, after)
  {
    var n := Skip(rows, after);
    forall j | n <= j < |rows| ensures Beyond(rows[j], after) {
      assert AllBefore(rows, j);
      if j > n && after.Some? { PastTransitive(after.value, rows[n], rows[j]); }
    }
    forall j | 0 <= j < |rows| - n ensures AllBefore(rows[n..], j) { assert AllBefore(rows, n + j); }
    assert rows == rows[..n] + rows[n..];
  }

  lemma {:induction false} PageItems(rows: seq<Position>, after: Option<Position>, limit: nat)
    requires limit > 0 && InOrder(rows)
    ensures var p := PageOf(rows, after, limit);
            && InOrder(p.items) && (forall x | x in p.items :: x in rows && Beyond(x, after))
            && (p.next.Some? ==> p.items != [] && p.next == Some(p.items[|p.items| - 1]))
            && (forall x | x in rows && Beyond(x, after) && x !in p.items :: p.next.Some? && Beyond(x, p.next))
  {
    var rest, p := Rest(rows, after), PageOf(rows, after, limit);
    RestExactly(rows, after);
    forall j | 0 <= j < |p.items| ensures AllBefore(p.items, j) { assert AllBefore(rest, j); }
    forall x | x in p.items ensures x in rest { }
    forall x | x in rest ensures x in p.items || (p.next.Some? && Beyond(x, p.next)) {
      var j :| 0 <= j < |rest| && rest[j] == x;
      if j < |p.items| {
        assert p.items[j] == x;
      } else {
        assert AllBefore(rest, j);
      }
    }
  }

  // the first page of the rows from the n-th on, where those are the rows later than the cursor, by date and rank
  ghost predicate PageFrom(rows: seq<Position>, after: Option<Position>, limit: nat, n: nat, p: Page)
    requires limit > 0
  {
    && n <= |rows|
    && (forall i | 0 <= i < n :: after.Some? && !LaterThan(rows[i], after.value))
    && (forall i | n <= i < |rows| :: after.Some? ==> LaterThan(rows[i], after.value))
    && if |rows| - n <= limit then p == Page(rows[n..], None)
       else p == Page(rows[n..n + limit], Some(rows[n + limit - 1]))
  }

  predicate LaterThan(a: Position, b: Position) { if a.date == b.date then a.rank > b.rank else a.date > b.date }

  /** What a page is: every row later than the cursor, if no more are left than were asked for; otherwise the first
      of them, as many as were asked for, with the last one as the next cursor. */
  lemma {:induction false} PageExactly(rows: seq<Position>, after: Option<Position>, limit: nat, p: Page)
    requires limit > 0 && InOrder(rows)
    ensures PageOf(rows, after, limit) == p <==> exists n: nat :: PageFrom(rows, after, limit, n, p)
  {
    var n := Skip(rows, after);
    forall i | n <= i < |rows| ensures Beyond(rows[i], after) {
      assert AllBefore(rows, i);
      if i > n && after.Some? { PastTransitive(after.value, rows[n], rows[i]); }
    }
    forall m: nat | PageFrom(rows, after, limit, m, p) ensures m == n { SkipIs(rows, after, m); }
    assert PageFrom(rows, after, limit, n, PageOf(rows, after, limit));
  }

  ghost predicate Grows(tables: seq<seq<Position>>, i: nat)
    requires i + 1 < |tables|
  {
    forall x | x in tables[i] :: x in tables[i + 1]
  }

  ghost predicate Growing(tables: seq<seq<Position>>) {
    (forall i | 0 <= i < |tables| :: InOrder(tables[i])) && forall i | 0 <= i < |tables| - 1 :: Grows(tables, i)
  }

  lemma {:induction false} GrowingTail(tables: seq<seq<Position>>)
    requires Growing(tables) && tables != []
    ensures Growing(tables[1..])
  {
    forall i | 0 <= i < |tables| - 2 ensures Grows(tables[1..], i) { assert Grows(tables, i + 1); }
  }

  lemma {:induction false} Survives(tables: seq<seq<Position>>, x: Position)
    requires Growing(tables) && tables != [] && x in tables[0]
    ensures x in tables[|tables| - 1]
  {
    if |tables| > 1 {
      assert Grows(tables, 0);
      GrowingTail(tables);
      Survives(tables[1..], x);
    }
  }

  lemma {:induction false} OrderedConcat(a: seq<Position>, b: seq<Position>)
    requires InOrder(a) && InOrder(b) && (a != [] ==> forall x | x in b :: Past(a[|a| - 1], x))
    ensures InOrder(a + b)
  {
    var r := a + b;
    forall j | 0 <= j < |r| ensures AllBefore(r, j) {
      if j < |a| {
        assert AllBefore(a, j);
      } else {
        assert AllBefore(b, j - |a|) && r[j] in b;
        forall i | 0 <= i < |a| ensures Past(a[i], r[j]) {
          assert AllBefore(a, |a| - 1);
          if i < |a| - 1 { PastTransitive(a[i], a[|a| - 1], r[j]); }
        }
      }
    }
  }

  lemma {:induction false} PageThenWalk(items: seq<Position>, w: seq<Position>, after: Option<Position>)
    requires InOrder(items) && InOrder(w) && items != []
    requires forall x | x in items :: Beyond(x, after)
    requires forall x | x in w :: Past(items[|items| - 1], x)
    ensures InOrder(items + w) && forall x | x in items + w :: Beyond(x, after)
  {
    OrderedConcat(items, w);
    assert items[|items| - 1] in items;
    forall x | x in w ensures Beyond(x, after) {
      if after.Some? { PastTransitive(after.value, items[|items| - 1], x); }
    }
  }

  // what a finished walk returns: in order, rows of the last table beyond the cursor, and all of the first table's
  ghost predicate Covers(w: seq<Position>, first: seq<Position>, last: seq<Position>, after: Option<Position>) {
    && InOrder(w)
    && (forall x | x in w :: x in last && Beyond(x, after))
    && (forall x | x in first && Beyond(x, after) :: x in w)
  }

  lemma {:induction false} PageCovers(first: seq<Position>, second: seq<Position>, last: seq<Position>,
                                      after: Option<Position>, limit: nat, w: seq<Position>)
    requires limit > 0 && InOrder(first) && PageOf(first, after, limit).next.Some?
    requires forall x | x in first :: x in second && x in last
    requires Covers(w, second, last, PageOf(first, after, limit).next)
    ensures Covers(PageOf(first, after, limit).items + w, first, last, after)
  {
    var p := PageOf(first, after, limit);
    PageItems(first, after, limit);
    assert forall x | x in w :: Past(p.items[|p.items| - 1], x);
    PageThenWalk(p.items, w, after);
  }

  /** However rows land between the requests, ahead of the walk or behind it, no row is returned twice
      or out of order, every row returned is in the table, and no row that was there when the walk began
      is skipped. */
  lemma {:induction false} WalkLosesNothing(tables: seq<seq<Position>>, after: Option<Position>, limit: nat)
    requires limit > 0 && Growing(tables) && Completes(tables, after, limit)
    ensures Covers(Walk(tables, after, limit), tables[0], tables[|tables| - 1], after)
  {
    var p := PageOf(tables[0], after, limit);
    if |tables| == 1 {
      PageItems(tables[0], after, limit);
      assert Walk(tables, after, limit) == p.items;
    } else {
      var w := Walk(tables[1..], p.next, limit);
      assert Grows(tables, 0);
      GrowingTail(tables);
      WalkLosesNothing(tables[1..], p.next, limit);
      forall x | x in tables[0] ensures x in tables[|tables| - 1] { Survives(tables, x); }
      PageCovers(tables[0], tables[1], tables[|tables| - 1], after, limit, w);
      assert Walk(tables, after, limit) == p.items + w;
    }
  }

  // the cursor of the first request made with x in the table, the last request's if it never is
  ghost function CursorWhenThere(tables: seq<seq<Position>>, after: Option<Position>, limit: nat, x: Position)
    : Option<Position>
    requires limit > 0
  {
    if |tables| <= 1 || x in tables[0] then after
    else CursorWhenThere(tables[1..], PageOf(tables[0], after, limit).next, limit, x)
  }

  /** A row is returned exactly when it lies beyond the cursor of the first request made after it
      landed: what lands behind the walk is passed over, and nothing else is. */
  lemma {:induction false} ReturnedExactly(tables: seq<seq<Position>>, after: Option<Position>, limit: nat, x: Position)
    requires limit > 0 && Growing(tables) && Completes(tables, after, limit) && x in tables[|tables| - 1]
    ensures x in Walk(tables, after, limit) <==> Beyond(x, CursorWhenThere(tables, after, limit, x))
  {
    WalkLosesNothing(tables, after, limit);
    if |tables| > 1 && x !in tables[0] {
      var p := PageOf(tables[0], after, limit);
      PageItems(tables[0], after, limit);
      GrowingTail(tables);
      ReturnedExactly(tables[1..], p.next, limit, x);
    }
  }

  ghost predicate AppendsTo(tables: seq<seq<Position>>, i: nat)
    requires i + 1 < |tables|
  {
    tables[i] <= tables[i + 1]
  }

  // every row that lands goes behind every row already there
  ghost predicate Appending(tables: seq<seq<Position>>) {
    (forall i | 0 <= i < |tables| :: InOrder(tables[i])) && forall i | 0 <= i < |tables| - 1 :: AppendsTo(tables, i)
  }

  lemma {:induction false} FirstIsPrefix(tables: seq<seq<Position>>)
    requires Appending(tables) && tables != []
    ensures tables[0] <= tables[|tables| - 1]
    ensures Appending(tables[1..])
  {
    forall i | 0 <= i < |tables| - 2 ensures AppendsTo(tables[1..], i) { assert AppendsTo(tables, i + 1); }
    if |tables| > 1 {
      assert AppendsTo(tables, 0);
      FirstIsPrefix(tables[1..]);
    }
  }

  // the cursor a page leaves at row n lies just past row n
  lemma {:induction false} CursorAt(rows: seq<Position>, n: nat)
    requires n < |rows| && InOrder(rows)
    ensures Skip(rows, Some(rows[n])) == n + 1
  {
    assert AllBefore(rows, n);
    forall i | 0 <= i < n + 1 ensures !Beyond(rows[i], Some(rows[n])) { }
    assert n + 1 < |rows| ==> AllBefore(rows, n + 1);
    SkipIs(rows, Some(rows[n]), n + 1);
  }

  lemma {:induction false} SkipOfPrefix(earlier: seq<Position>, later: seq<Position>, after: Option<Position>)
    requires earlier <= later && Skip(earlier, after) < |earlier|
    ensures Skip(later, after) == Skip(earlier, after)
  {
    var n := Skip(earlier, after);
    assert forall i | 0 <= i < |earlier| :: later[i] == earlier[i];
    SkipIs(later, after, n);
  }

  lemma {:induction false} SplitAt(earlier: seq<Position>, later: seq<Position>, n: nat, k: nat)
    requires earlier <= later && n < k <= |earlier|
    ensures later[n..] == earlier[n..k] + later[k..] && later[k - 1] == earlier[k - 1]
  {
  }

  // the page from an earlier table is the beginning of what a later one has beyond the cursor
  lemma {:induction false} PageThenRest(earlier: seq<Position>, later: seq<Position>, after: Option<Position>,
                                        limit: nat)
    requires limit > 0 && earlier <= later && InOrder(later) && PageOf(earlier, after, limit).next.Some?
    ensures var p := PageOf(earlier, after, limit); Rest(later, after) == p.items + Rest(later, p.next)
  {
    var n := Skip(earlier, after);
    var k := n + limit;
    SkipOfPrefix(earlier, later, after);
    CursorAt(later, k - 1);
    SplitAt(earlier, later, n, k);
  }

  /** Where rows are only ever appended, the pages concatenate to exactly the rows, in order. */
  lemma {:induction false} WalkIsEverything(tables: seq<seq<Position>>, after: Option<Position>, limit: nat)
    requires limit > 0 && Appending(tables) && Completes(tables, after, limit)
    ensures Walk(tables, after, limit) == Rest(tables[|tables| - 1], after)
  {
    if |tables| > 1 {
      var p := PageOf(tables[0], after, limit);
      FirstIsPrefix(tables);
      WalkIsEverything(tables[1..], p.next, limit);
      PageThenRest(tables[0], tables[|tables| - 1], after, limit);
    }
  }

  // ---------------------------------------------------------------- the log and statements

  function LogPositions(logs: seq<Log>): (r: seq<Position>)
    ensures |r| == |logs|
  {
    seq(|logs|, i requires 0 <= i < |logs| => Position(0, logs[i].id))
  }

  /** The log is such a list: whatever runs between two requests, entries only land behind. */
  lemma {:induction false} LogAppends(db: Db, ops: seq<Op>)
    requires Inv(db) && forall op | op in ops :: Sensible(op)
    ensures var a, b := LogPositions(db.logs), LogPositions(Run(db, ops).logs); InOrder(a) && InOrder(b) && a <= b
  {
    RunExtends(db, ops);
    IdsInOrder(db.logs);
    IdsInOrder(Run(db, ops).logs);
  }

  lemma {:induction false} IdsInOrder(logs: seq<Log>)
    requires IdsAscend(logs)
    ensures InOrder(LogPositions(logs))
  {
    forall j | 0 <= j < |logs| ensures AllBefore(LogPositions(logs), j) { assert IdAbove(logs, j); }
  }

  datatype MoveFilter = MoveFilter(address: Address, asset: Option<Asset>, from: Option<Time>, to: Option<Time>) {
    predicate Matches(m: Movement) {
      && m.key.account == address && (asset.Some? ==> m.key.asset == asset.value)
      && (from.Some? ==> m.date >= from.value) && (to.Some? ==> m.date <= to.value)
    }
  }

  // an account's statement: its matching moves by effective date, ties by arrival
  ghost predicate IsStatement(rows: seq<Position>, moves: seq<Move>, f: MoveFilter) {
    InOrder(rows) && forall p :: p in rows <==> IsListed(p, moves, f)
  }

  ghost predicate IsListed(p: Position, moves: seq<Move>, f: MoveFilter) {
    0 <= p.rank < |moves| && moves[p.rank].movement.date == p.date && f.Matches(moves[p.rank].movement)
  }

  /** A statement lists exactly the moves of the account, in the asset if one is named, dated no earlier than
      from and no later than to where those are given. */
  lemma {:induction false} StatementLists(rows: seq<Position>, moves: seq<Move>, f: MoveFilter, i: nat)
    requires IsStatement(rows, moves, f) && i < |moves|
    ensures var m := moves[i].movement;
            Position(m.date, i) in rows <==>
              && m.key.account == f.address
              && (f.asset == None || f.asset == Some(m.key.asset))
              && (f.from.None? || f.from.value <= m.date)
              && (f.to.None? || m.date <= f.to.value)
    ensures forall p | p in rows :: 0 <= p.rank < |moves| && p.date == moves[p.rank].movement.date
  {
    var p := Position(moves[i].movement.date, i);
    assert p in rows <==> IsListed(p, moves, f);
    forall x | x in rows ensures 0 <= x.rank < |moves| && x.date == moves[x.rank].movement.date {
      assert IsListed(x, moves, f);
    }
  }

  /** Whatever runs between two requests, every line of a statement stays on it where it was. */
  lemma {:induction false} StatementGrows(db: Db, ops: seq<Op>, f: MoveFilter, a: seq<Position>, b: seq<Position>)
    requires Inv(db) && forall op | op in ops :: Sensible(op)
    requires IsStatement(a, db.moves, f) && IsStatement(b, Run(db, ops).moves, f)
    ensures Growing([a, b]) && forall x | x in b && x !in a :: x.rank >= |db.moves|
  {
    RunExtends(db, ops);
    forall x | x in a ensures x in b { assert IsListed(x, db.moves, f); }
    forall x | x in b && x.rank < |db.moves| ensures x in a { assert IsListed(x, Run(db, ops).moves, f); }
    assert Grows([a, b], 0);
  }

  // ---------------------------------------------------------------- a line passed over

  // one unit to an account, and the moves it makes of it
  const UNIT := Posting(WORLD, Address("a"), Asset("USD"), Some(1), false)

  const OF_A := MoveFilter(Address("a"), None, None, None)

  // two postings of one date, then a third dated before them
  const FIRST := Item([UNIT, UNIT], 2000, "", map[])

  const BACKDATED := Item([UNIT], 1000, "", map[])

  lemma {:induction false} UnitsFund(n: nat)
    ensures Funds(if n == 1 then [UNIT] else [UNIT, UNIT])
  {
  }

  lemma {:induction false} UnitLegs(id: nat, d: Time)
    ensures Legs([UNIT], id, d) == [Sent(UNIT, id, d), Received(UNIT, id, d)]
    ensures Legs([UNIT, UNIT], id, d) ==
              [Sent(UNIT, id, d), Received(UNIT, id, d), Sent(UNIT, id, d), Received(UNIT, id, d)]
  {
    assert [UNIT][..0] == [] && [UNIT, UNIT][..1] == [UNIT];
  }

  // a table that alternates between what left world and what reached the account
  lemma {:induction false} Lines(moves: seq<Move>, p: Position)
    requires forall i | 0 <= i < |moves| :: moves[i].movement.key.account == if i % 2 == 0 then WORLD else Address("a")
    ensures IsListed(p, moves, OF_A) <==>
              0 <= p.rank < |moves| && p.rank % 2 == 1 && moves[p.rank].movement.date == p.date
  {
  }

  // the same walk over any two statements of this shape
  lemma {:induction false} PassedOver(missed: Position, x: Position, y: Position)
    requires Past(missed, x) && Past(x, y)
    ensures var tables := [[x, y], [missed, x, y]];
            && Growing(tables) && Completes(tables, None, 1)
            && missed in tables[1] && missed !in Walk(tables, None, 1)
  {
    var first, last := [x, y], [missed, x, y];
    var tables := [first, last];
    PastTransitive(missed, x, y);
    forall j | 0 <= j < 2 ensures AllBefore(first, j) { }
    forall j | 0 <= j < 3 ensures AllBefore(last, j) { }
    assert first[0] in last && first[1] in last;
    assert Grows(tables, 0);
    SkipIs(first, None, 0);
    assert PageOf(first, None, 1) == Page([x], Some(x));
    assert tables[1..] == [last];
    SkipIs(last, Some(x), 2);
    assert PageOf(last, Some(x), 1) == Page([y], None);
    assert Walk([last], Some(x), 1) == [y];
    assert Walk(tables, None, 1) == [x, y];
  }

  lemma {:induction false} FirstMoves(start: Db, item: Item)
    requires start == EMPTY && item == FIRST
    ensures var db := Commit(start, item, "", false, 2000).db;
            Reachable(db) && Unrestricted(db) && Core(db.moves) == Legs([UNIT, UNIT], 1, 2000)
  {
    UnitsFund(2);
    FundingOpens(start, item, 2000, 2000);
  }

  lemma {:induction false} BackdatedMoves(db: Db, item: Item, id: nat)
    requires Unrestricted(db) && item == BACKDATED && id == db.lastTx + 1
    ensures var r := Commit(db, item, "", false, 3000);
            r.reply.Committed? && Core(r.db.moves) == Core(db.moves) + Legs([UNIT], id, 1000)
  {
    UnitsFund(1);
    FundingCommits(db, item, 3000, id, 1000);
  }

  // the account's lines among four moves of one date, and among those and two more
  lemma {:induction false} TwoLines(moves: seq<Move>)
    requires Core(moves) == Legs([UNIT, UNIT], 1, 2000)
    ensures IsStatement([Position(2000, 1), Position(2000, 3)], moves, OF_A)
  {
    UnitLegs(1, 2000);
    assert |moves| == 4 && forall i | 0 <= i < 4 :: moves[i].movement == Core(moves)[i];
    var rows := [Position(2000, 1), Position(2000, 3)];
    forall p ensures p in rows <==> IsListed(p, moves, OF_A) { Lines(moves, p); }
    forall j | 0 <= j < 2 ensures AllBefore(rows, j) { }
  }

  lemma {:induction false} ThreeLines(moves: seq<Move>, id: nat)
    requires Core(moves) == Legs([UNIT, UNIT], 1, 2000) + Legs([UNIT], id, 1000)
    ensures IsStatement([Position(1000, 5), Position(2000, 1), Position(2000, 3)], moves, OF_A)
  {
    UnitLegs(1, 2000);
    UnitLegs(id, 1000);
    assert |moves| == 6 && forall i | 0 <= i < 6 :: moves[i].movement == Core(moves)[i];
    var rows := [Position(1000, 5), Position(2000, 1), Position(2000, 3)];
    forall p ensures p in rows <==> IsListed(p, moves, OF_A) { Lines(moves, p); }
    forall j | 0 <= j < 3 ensures AllBefore(rows, j) { }
  }

  /** A backdated move can land behind the cursor: after a page has ended on a line dated 2000, a commit
      dated 1000 goes through, and the walk under way never returns its line. */
  lemma {:induction false} BackdatedIsPassedOver()
      returns (db: Db, before: seq<Position>, after: seq<Position>, missed: Position)
    ensures Reachable(db) && Commit(db, BACKDATED, "", false, 3000).reply.Committed?
    ensures IsStatement(before, db.moves, OF_A)
            && IsStatement(after, Commit(db, BACKDATED, "", false, 3000).db.moves, OF_A)
    ensures Completes([before, after], None, 1) && missed in after && missed !in Walk([before, after], None, 1)
  {
    var start, item := EMPTY, FIRST;
    FirstMoves(start, item);
    db := Commit(start, item, "", false, 2000).db;
    BackdatedMoves(db, BACKDATED, db.lastTx + 1);
    missed := Position(1000, 5);
    before, after := [Position(2000, 1), Position(2000, 3)], [missed, Position(2000, 1), Position(2000, 3)];
    TwoLines(db.moves);
    ThreeLines(Commit(db, BACKDATED, "", false, 3000).db.moves, db.lastTx + 1);
    PassedOver(missed, Position(2000, 1), Position(2000, 3));
  }
}

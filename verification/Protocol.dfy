/** Commits, batches and reversals broken into the steps at which they interleave: rows created,
    rows locked one at a time and read as they are locked, the decision, the effective read taken
    before the ledger lock, the numbering under it, the writes, and the publication. A database
    transaction may be lost at any step. */
module Protocol {
  import opened Ledger
  import opened Engine
  import opened Invariants
  import opened Runs

  // ---------------------------------------------------------------- what a transaction sets out to do

  // one item of a request, with the key its entry will carry and the transaction it undoes
  datatype Part = Part(item: Item, use: Option<KeyUse>, undone: Option<nat>)

  predicate Writes(op: Op) { op.OpCommit? || op.OpBatch? || op.OpRevert? }

  function KeyOf(op: Op): string {
    match op
    case OpCommit(_, key, _, _) => key
    case OpBatch(_, key, _, _) => key
    case _ => ""
  }

  function DryRun(op: Op): bool {
    match op
    case OpCommit(_, _, dryRun, _) => dryRun
    case OpBatch(_, _, dryRun, _) => dryRun
    case _ => false
  }

  function Clock(op: Op): Time {
    match op
    case OpCommit(_, _, _, now) => now
    case OpBatch(_, _, _, now) => now
    case OpRevert(_, _, now) => now
    case _ => 0
  }

  // refused before any transaction is opened
  function Unacceptable(op: Op): Option<Error> {
    match op
    case OpCommit(item, _, _, _) => Malformed(item.postings)
    case OpBatch(items, _, _, _) => MalformedBatch(items)
    case _ => None
  }

  function Parts(txs: map<nat, TxRow>, op: Op): seq<Part> {
    match op
    case OpCommit(item, key, _, _) => [Part(item, Use(key, CommitHash(item)), None)]
    case OpBatch(items, key, _, _) =>
      seq(|items|, i requires 0 <= i < |items| => Part(Tagged(items[i], key, items), BatchUse(key, items, i), None))
    case OpRevert(id, at, now) => if id in txs then [Part(RevertItem(txs[id], id, at, now), None, Some(id))] else []
    case _ => []
  }

  ghost function PartKeys(parts: seq<Part>): set<Key> {
    set i, k | 0 <= i < |parts| && k in Touched(parts[i].item.postings) :: k
  }

  // one part applied and logged in one go
  ghost function RunPart(db: Db, part: Part, now: Time): Outcome<Applied> {
    var r := Apply(db, part.item, now);
    if r.Refused? then r
    else if part.undone.Some? && part.undone.value !in r.value.db.txs then Refused(NotFound)
    else if Taken(db.logs, part.use) then Refused(KeyTaken(part.use.value.key))
    else Done(Applied(Logged(r.value.db, part, r.value.tx), r.value.tx))
  }

  ghost function Logged(db: Db, part: Part, tx: Tx): Db
    requires part.undone.Some? ==> part.undone.value in db.txs
  {
    Appended(if part.undone.None? then db else Stamped(db, part.undone.value, tx.timestamp),
             UndoKind(part.undone), UndoData(part.undone, tx), part.use)
  }

  ghost function RunParts(db: Db, parts: seq<Part>, now: Time, n: nat): (r: Outcome<Ran>)
    requires n <= |parts|
    ensures r.Done? ==> |r.value.txs| == n
  {
    if n == 0 then Done(Ran(db, []))
    else
      var r := RunParts(db, parts, now, n - 1);
      if r.Refused? then r
      else
        var a := RunPart(r.value.db, parts[n - 1], now);
        if a.Refused? then Refused(a.error) else Done(Ran(a.value.db, r.value.txs + [a.value.tx]))
  }

  // ---------------------------------------------------------------- sessions

  datatype Phase =
    | Started
    | Finding                                   // wants the row of the transaction to reverse
    | Creating(next: nat)                       // materialising missing rows, in lock order
    | Locking(next: nat)                        // locking rows, in lock order
    | Closing                                   // reading which accounts are closed
    | Reading(part: nat)                        // re-reading rows already locked, for one item of a batch
    | Deciding(part: nat)
    | Dating(part: nat, postings: Postings)     // reading the effective volumes
    | Numbering(part: nat, postings: Postings, effective: map<Key, Volumes>)   // wants the ledger row
    | Writing(part: nat, postings: Postings, effective: map<Key, Volumes>)
    | Publishing
    | Answered(reply: Reply)
    | Gone

  // one database transaction: its locks, what it has read, and its private writes
  datatype Session = Session(op: Op, phase: Phase, parts: seq<Part>, ks: seq<Key>,
                             created: set<Key>, held: set<Key>, row: Option<nat>, ledger: bool,
                             seen: map<Key, Locked>, work: Db, out: seq<Tx>)

  function Fresh(op: Op): Session {
    Session(op, Started, [], [], {}, {}, None, false, map[], EMPTY, [])
  }

  // finished either way: every lock released
  function Ended(s: Session, phase: Phase): Session {
    s.(phase := phase, created := {}, held := {}, row := None, ledger := false)
  }

  datatype World = World(committed: Db, sessions: seq<Session>, history: seq<Op>)

  // its own writes over what is committed
  function View(db: Db, s: Session): Db { if s.ledger then s.work else db }

  // what looking a request's key up answers it with, when it answers at all
  ghost function Found(db: Db, op: Op): Option<Reply> {
    match op
    case OpCommit(item, key, _, _) =>
      var l := FindKey(db.logs, key);
      if key == "" || l.None? then None else Some(Replayed(l.value, key, CommitHash(item)))
    case OpBatch(items, key, _, _) => FoundBatch(db, key, items)
    case _ => None
  }

  function RefusalOf(op: Op, part: nat, e: Error): Reply {
    Rejected(if op.OpBatch? then BatchItemFailed(part, e) else e)
  }

  function ReplyOf(op: Op, out: seq<Tx>): Reply {
    match op
    case OpBatch(_, _, _, _) => CommittedAll(out)
    case OpRevert(id, _, _) => if |out| == 1 then RevertedBy(id, out[0]) else Acknowledged
    case _ => if |out| == 1 then Committed(out[0]) else Acknowledged
  }

  ghost function Planned(db: Db, s: Session, row: Option<nat>): Session {
    var parts := Parts(db.txs, s.op);
    s.(phase := Creating(0), parts := parts, ks := SortedKeys(PartKeys(parts)), row := row)
  }

  // ---------------------------------------------------------------- one step of one session

  ghost function Start(db: Db, s: Session): Session {
    if Unacceptable(s.op).Some? then Ended(s, Answered(Rejected(Unacceptable(s.op).value)))
    else if Found(db, s.op).Some? then Ended(s, Answered(Found(db, s.op).value))
    else if s.op.OpRevert? then s.(phase := Finding)
    else Planned(db, s, None)
  }

  ghost function Find(db: Db, s: Session): Session
    requires s.op.OpRevert?
  {
    if s.op.id !in db.txs then Ended(s, Answered(Rejected(NotFound)))
    else if db.txs[s.op.id].revertedAt.Some? then Ended(s, Answered(Rejected(AlreadyReverted(s.op.id))))
    else Planned(db, s, Some(s.op.id))
  }

  // insert ... on conflict do nothing
  function Create(db: Db, s: Session, n: nat): Session {
    if n >= |s.ks| then s.(phase := Locking(0), seen := map[])
    else if s.ks[n] in db.rows then s.(phase := Creating(n + 1))
    else s.(phase := Creating(n + 1), created := s.created + {s.ks[n]}, held := s.held + {s.ks[n]})
  }

  // select ... for update, which reads each row as it stands once the lock is granted
  function Lock(db: Db, s: Session, n: nat): Session {
    if n >= |s.ks| then s.(phase := Closing)
    else s.(phase := Locking(n + 1), held := s.held + {s.ks[n]},
        seen := s.seen[s.ks[n] := Locked(RowAt(db, s.ks[n]), false)])
  }

  function ReadClosed(db: Db, s: Session): Session {
    s.(phase := if s.op.OpBatch? then Reading(0) else Deciding(0),
       seen := map k | k in s.seen :: s.seen[k].(closed := Closed(db, k.account)))
  }

  ghost function Reread(db: Db, s: Session, j: nat): Session
    requires j < |s.parts|
  {
    s.(phase := Deciding(j), seen := LockRead(View(db, s), Touched(s.parts[j].item.postings)))
  }

  ghost function Decide(s: Session, j: nat): Session
    requires j < |s.parts|
  {
    var r := Prepare(s.seen, s.parts[j].item.postings);
    if r.Refused? then Ended(s, Answered(RefusalOf(s.op, j, r.error))) else s.(phase := Dating(j, r.value))
  }

  ghost function Date(db: Db, s: Session, j: nat, q: Postings): Session
    requires j < |s.parts|
  {
    var d := Stamp(s.parts[j].item.timestamp, Clock(s.op));
    s.(phase := Numbering(j, q, EffectiveReads(View(db, s).moves, Touched(q), d)))
  }

  function Number(db: Db, s: Session, j: nat, q: Postings, e: map<Key, Volumes>): Session {
    s.(phase := Writing(j, q, e), ledger := true, work := View(db, s), out := if s.ledger then s.out else [])
  }

  // the transaction, its accounts and its moves
  ghost function Written(s: Session, j: nat, q: Postings, e: map<Key, Volumes>): Outcome<Applied>
    requires j < |s.parts|
  {
    Write(s.work, s.parts[j].item, q, Stamp(s.parts[j].item.timestamp, Clock(s.op)), VolumesOf(s.seen), e)
  }

  // then the entry; a key taken meanwhile is caught by its unique index, and looked up again
  ghost function Entered(db: Db, s: Session, j: nat, r: Outcome<Applied>): Session
    requires j < |s.parts|
  {
    var part := s.parts[j];
    if r.Refused? then Ended(s, Answered(RefusalOf(s.op, j, r.error)))
    else if Taken(db.logs, part.use) then
      var found := Found(db, s.op);
      Ended(s, Answered(if found.Some? then found.value else RefusalOf(s.op, j, KeyTaken(KeyOf(s.op)))))
    else if part.undone.Some? && part.undone.value !in r.value.db.txs then Ended(s, Answered(Rejected(NotFound)))
    else s.(phase := if j + 1 == |s.parts| then Publishing else Reading(j + 1),
            work := Logged(r.value.db, part, r.value.tx), out := s.out + [r.value.tx])
  }

  ghost function Insert(db: Db, s: Session, j: nat, q: Postings, e: map<Key, Volumes>): Session
    requires j < |s.parts|
  {
    Entered(db, s, j, Written(s, j, q, e))
  }

  ghost function Advance(db: Db, s: Session): Session {
    match s.phase
    case Started => Start(db, s)
    case Finding => if s.op.OpRevert? then Find(db, s) else s
    case Creating(n) => Create(db, s, n)
    case Locking(n) => Lock(db, s, n)
    case Closing => ReadClosed(db, s)
    case Reading(j) => if j < |s.parts| then Reread(db, s, j) else s
    case Deciding(j) => if j < |s.parts| then Decide(s, j) else s
    case Dating(j, q) => if j < |s.parts| then Date(db, s, j, q) else s
    case Numbering(j, q, e) => Number(db, s, j, q, e)
    case Writing(j, q, e) => if j < |s.parts| then Insert(db, s, j, q, e) else s
    case Publishing => Ended(s, Answered(ReplyOf(s.op, s.out)))
    case _ => s
  }

  // ---------------------------------------------------------------- who waits for whom

  predicate Active(s: Session) { !s.phase.Answered? && !s.phase.Gone? }

  // the lock the next step of s needs is held by t
  ghost predicate WaitsFor(db: Db, s: Session, t: Session) {
    match s.phase
    case Reading(j) => j < |s.parts| && exists k | k in Touched(s.parts[j].item.postings) :: k in t.held
    case Finding => s.op.OpRevert? && t.row == Some(s.op.id)
    case Creating(n) => n < |s.ks| && s.ks[n] !in db.rows && s.ks[n] in t.created
    case Locking(n) => n < |s.ks| && s.ks[n] in t.held
    case Numbering(_, _, _) => !s.ledger && t.ledger
    case _ => false
  }

  ghost predicate Enabled(w: World, i: nat)
    requires i < |w.sessions|
  {
    && Active(w.sessions[i])
    && forall j | 0 <= j < |w.sessions| && j != i :: !WaitsFor(w.committed, w.sessions[i], w.sessions[j])
  }

  // ---------------------------------------------------------------- the steps of the system

  predicate Publishes(s: Session) { s.phase.Publishing? && !DryRun(s.op) }

  ghost function Proceed(w: World, i: nat): World
    requires i < |w.sessions|
  {
    var s := w.sessions[i];
    World(if Publishes(s) then s.work else w.committed,
          w.sessions[i := Advance(w.committed, s)],
          if Publishes(s) then w.history + [s.op] else w.history)
  }

  // a deadlock victim, a broken connection, a cancelled request: rolled back wherever it was
  function Abandon(w: World, i: nat): World
    requires i < |w.sessions|
  {
    w.(sessions := w.sessions[i := Ended(w.sessions[i], Gone)])
  }

  // a request, or the retry of one
  function Arrive(w: World, op: Op): World { w.(sessions := w.sessions + [Fresh(op)]) }

  // operations of one statement, or of one lock and one entry: whole steps, taken between the steps of others
  predicate Brief(op: Op) {
    || op.OpSetTxMetadata? || op.OpDeleteTxMetadata? || op.OpSetAccountMetadata? || op.OpDeleteAccountMetadata?
    || op.OpAllowNegative? || op.OpAllowPositive? || op.OpRecover?
  }

  predicate SetsPolicy(op: Op) { op.OpAllowNegative? || op.OpAllowPositive? }

  // a lock the operation needs is held by t
  predicate Blocks(t: Session, op: Op) {
    match op
    case OpSetTxMetadata(id, _) => t.row == Some(id) || t.ledger
    case OpDeleteTxMetadata(id, _) => t.row == Some(id) || t.ledger
    case OpSetAccountMetadata(_, _, _) => t.ledger
    case OpDeleteAccountMetadata(_, _) => t.ledger
    case OpAllowNegative(k, _) => k in t.held
    case OpAllowPositive(k, _) => k in t.held
    case OpRecover(_, _) => t.ledger
    case _ => true
  }

  // a policy shows through to whoever holds the ledger, whose own writes are on other rows
  ghost function Seeing(s: Session, op: Op): Session {
    if s.ledger && SetsPolicy(op) then s.(work := Perform(s.work, op).db) else s
  }

  ghost function Interject(w: World, op: Op): World {
    World(Perform(w.committed, op).db,
          seq(|w.sessions|, i requires 0 <= i < |w.sessions| => Seeing(w.sessions[i], op)),
          w.history + [op])
  }

  datatype Event = Moved(session: nat) | Abandoned(session: nat) | Arrived(op: Op) | Interjected(op: Op)

  ghost predicate Possible(w: World, e: Event) {
    match e
    case Moved(i) => i < |w.sessions| && Enabled(w, i)
    case Abandoned(i) => i < |w.sessions| && Active(w.sessions[i])
    case Arrived(op) => Writes(op)
    case Interjected(op) => Brief(op) && Sensible(op) && forall i | 0 <= i < |w.sessions| :: !Blocks(w.sessions[i], op)
  }

  ghost function Happen(w: World, e: Event): World
    requires Possible(w, e)
  {
    match e
    case Moved(i) => Proceed(w, i)
    case Abandoned(i) => Abandon(w, i)
    case Arrived(op) => Arrive(w, op)
    case Interjected(op) => Interject(w, op)
  }
}

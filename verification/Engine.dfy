/** The tables of one ledger as a value, and what each operation of the engine does to them
    when nothing runs beside it. Every operation is one database transaction: it either
    yields the next tables or a refusal that leaves them as they were. */
module Engine {
  import opened Ledger
  import opened History

  // ---------------------------------------------------------------- tables

  datatype MetaValue = Text(text: string) | TxRef(id: nat) | Digest(hash: RequestHash)
  type Metadata = map<string, MetaValue>

  // one request to move value; its hash is over all of it
  datatype Item = Item(postings: Postings, timestamp: Time, reference: string, metadata: Metadata)

  // the digest of a request, free of collisions: it is the request
  datatype RequestHash = CommitHash(item: Item) | BatchHash(items: seq<Item>)

  datatype Tx = Tx(id: nat, postings: Postings, timestamp: Time, reference: string,
                   metadata: Metadata, postCommit: map<Key, Volumes>)

  // what the transaction recorded, beside the two columns that may change
  datatype TxRow = TxRow(tx: Tx, metadata: Metadata, revertedAt: Option<Time>)

  datatype Target = OnTransaction(id: nat) | OnAccount(address: Address)

  datatype Data =
    | TxData(tx: Tx)
    | RevertData(reverted: nat, tx: Tx)
    | SetMetadataData(target: Target, metadata: Metadata)
    | DeleteMetadataData(target: Target, key: string)
    | RecoveryData(resumedFrom: int, skippedThrough: int, note: string)

  datatype LogKind = NewTransaction | RevertedTransaction | SetMetadata | DeleteMetadata | Recovery

  // chained over the hash before it and the data, and over nothing more
  datatype Hash = Root | Chained(previous: Hash, data: Data)

  datatype KeyUse = KeyUse(key: string, hash: RequestHash)

  datatype Log = Log(id: nat, kind: LogKind, data: Data, hash: Hash, use: Option<KeyUse>)

  datatype Row = Row(volumes: Volumes, allowNegative: bool, allowPositive: bool)

  datatype Account = Account(metadata: Metadata, firstUsage: Time, closed: bool)

  datatype Db = Db(rows: map<Key, Row>, accounts: map<Address, Account>, txs: map<nat, TxRow>,
                   moves: seq<Move>, logs: seq<Log>, lastTx: nat, lastLog: nat, tip: Hash)

  const EMPTY := Db(map[], map[], map[], [], [], 0, 0, Root)

  datatype Error =
    | NoPostings | EmptyMetadata | EmptyMetadataKey | BatchTooLarge
    | InvalidPosting(index: nat, error: Error) | InvalidAmount | AmountTooLarge | NilPosting(index: nat)
    | InsufficientFunds(key: Key, available: int, requested: int)
    | UnexpectedCredit(key: Key, balance: int)
    | UnboundedSweep(key: Key)
    | AccountClosed(account: Address)
    | DuplicateReference(reference: string)
    | IdempotencyMismatch(ikey: string)
    | KeyTaken(ikey: string)
    | NotFound | AlreadyReverted(id: nat)
    | WorldMustAllowNegative | ClosureRefused | AccountNotEmpty | NotClosed
    | BatchItemFailed(index: nat, error: Error)
    | GaveUp

  datatype Outcome<+T> = Done(value: T) | Refused(error: Error)

  const MAX_BATCH_SIZE := 100
  const MAX_ATTEMPTS := 10
  // 333 bits
  const AMOUNT_LIMIT := 0x200000000000000000000000000000000000000000000000000000000000000000000000000000000000

  const REVERTS_KEY := "giro/reverts"
  const BATCH_KEY := "giro/batch"

  // ---------------------------------------------------------------- what the locks return

  datatype Locked = Locked(row: Row, closed: bool)

  // a row of world starts out unbounded below
  function DefaultRow(k: Key): Row { Row(ZERO, k.account == WORLD, true) }

  function RowAt(db: Db, k: Key): Row { if k in db.rows then db.rows[k] else DefaultRow(k) }

  predicate ClosedIn(accounts: map<Address, Account>, a: Address) { a in accounts && accounts[a].closed }

  predicate Closed(db: Db, a: Address) { ClosedIn(db.accounts, a) }

  function LockedAt(db: Db, k: Key): Locked { Locked(RowAt(db, k), Closed(db, k.account)) }

  function LockRead(db: Db, ks: set<Key>): map<Key, Locked> { map k | k in ks :: LockedAt(db, k) }

  function Materialised(rows: map<Key, Row>, ks: set<Key>): map<Key, Row> {
    map k | k in rows.Keys + ks :: if k in rows then rows[k] else DefaultRow(k)
  }

  function VolumesOf(before: map<Key, Locked>): map<Key, Volumes> { map k | k in before :: before[k].row.volumes }

  // ---------------------------------------------------------------- sweeps

  // what a row holds after some resolved postings have run from the locked state
  function Held(before: map<Key, Locked>, out: Postings, k: Key): int {
    (if k in before then before[k].row.volumes.Balance() else 0) + Flow(out, k, false) - Flow(out, k, true)
  }

  // a ceiling against what is there: never below nothing, and no ceiling means everything
  function Swept(ceiling: Option<int>, held: int): int {
    var available := if held < 0 then 0 else held;
    if ceiling.Some? && ceiling.value < available then ceiling.value else available
  }

  function ResolveOne(q: Posting, before: map<Key, Locked>, out: Postings): Posting {
    if q.upTo then q.(amount := Some(Swept(q.amount, Held(before, out, q.From()))), upTo := false) else q
  }

  predicate Unbounded(q: Posting, before: map<Key, Locked>) {
    q.upTo && q.From() in before && before[q.From()].row.allowNegative
  }

  // each ceiling is resolved on what the postings before it, resolved, have left its source
  function Resolve(p: Postings, before: map<Key, Locked>): (r: Outcome<Postings>)
    ensures r.Done? ==> |r.value| == |p|
  {
    if p == [] then Done([])
    else
      var q := p[|p| - 1];
      var r := Resolve(p[..|p| - 1], before);
      if r.Refused? then r
      else if Unbounded(q, before) then Refused(UnboundedSweep(q.From()))
      else Done(r.value + [ResolveOne(q, before, r.value)])
  }

  // ---------------------------------------------------------------- checks

  function FirstClosed(before: map<Key, Locked>, us: seq<VolumeUpdate>): Option<Error> {
    if us == [] then None
    else if us[0].key in before && before[us[0].key].closed then Some(AccountClosed(us[0].key.account))
    else FirstClosed(before, us[1..])
  }

  function BoundError(l: Locked, u: VolumeUpdate): Option<Error> {
    var input, output := l.row.volumes.input + u.input, l.row.volumes.output + u.output;
    if !l.row.allowNegative && input < output then
      Some(InsufficientFunds(u.key, l.row.volumes.Balance(), u.output))
    else if !l.row.allowPositive && input > output then
      Some(UnexpectedCredit(u.key, input - output))
    else None
  }

  function FirstOutOfBounds(before: map<Key, Locked>, us: seq<VolumeUpdate>): Option<Error> {
    if us == [] then None
    else if us[0].key in before && BoundError(before[us[0].key], us[0]).Some? then BoundError(before[us[0].key], us[0])
    else FirstOutOfBounds(before, us[1..])
  }

  // everything decided from the locked rows: the sweeps resolved, then closure, then the bounds
  ghost function Prepare(before: map<Key, Locked>, p: Postings): Outcome<Postings> {
    if FirstNil(p, 0).Some? then Refused(NilPosting(FirstNil(p, 0).value))
    else
      var r := Resolve(p, before);
      if r.Refused? then r
      else if FirstClosed(before, Updates(r.value)).Some? then Refused(FirstClosed(before, Updates(r.value)).value)
      else if FirstOutOfBounds(before, Updates(r.value)).Some? then
          Refused(FirstOutOfBounds(before, Updates(r.value)).value)
      else r
  }

  // ---------------------------------------------------------------- writes

  // zero means now, and timestamptz keeps microseconds
  function Stamp(timestamp: Time, now: Time): Time {
    var t := if timestamp == 0 then now else timestamp;
    t - t % 1000
  }

  // deltas are added to what is there
  function ApplyDeltas(rows: map<Key, Row>, p: Postings): map<Key, Row> {
    map k | k in rows :: rows[k].(volumes := After(rows[k].volumes, p, k))
  }

  function Min(a: int, b: int): int { if a <= b then a else b }

  function Upserted(accounts: map<Address, Account>, used: set<Address>, at: Time): map<Address, Account> {
    map a | a in accounts.Keys + used ::
      if a !in accounts then Account(map[], at, false)
      else if a in used then accounts[a].(firstUsage := Min(accounts[a].firstUsage, at))
      else accounts[a]
  }

  ghost function Accounts(p: Postings): set<Address> { set k | k in Touched(p) :: k.account }

  function EffectiveReads(ms: seq<Move>, ks: set<Key>, d: Time): map<Key, Volumes> {
    map k | k in ks :: EffectiveRead(ms, k, d)
  }

  // where every touched row ends, kept with the transaction
  ghost function PostCommit(before: map<Key, Volumes>, p: Postings): map<Key, Volumes> {
    map k | k in Touched(p) :: After(At(before, k), p, k)
  }

  predicate ReferenceUsed(db: Db, reference: string) {
    exists id | id in db.txs :: db.txs[id].tx.reference == reference
  }

  // both ids allocated, the rows, the transaction, its accounts and its moves written
  ghost function Installed(db: Db, tx: Tx, before: map<Key, Volumes>, effective: map<Key, Volumes>): Db {
    db.(rows := ApplyDeltas(Materialised(db.rows, Touched(tx.postings)), tx.postings),
        lastTx := db.lastTx + 1,
        lastLog := db.lastLog + 1,
        txs := db.txs[tx.id := TxRow(tx, tx.metadata, None)],
        accounts := Upserted(db.accounts, Accounts(tx.postings), tx.timestamp),
        moves := Posted(db.moves, tx.postings, tx.id, tx.timestamp, before, effective))
  }

  datatype Applied = Applied(db: Db, tx: Tx)

  // from the postings that were decided and the volumes that were read, to the written tables
  ghost function Write(db: Db, item: Item, q: Postings, d: Time, before: map<Key, Volumes>,
                       effective: map<Key, Volumes>): Outcome<Applied> {
    if item.reference != "" && ReferenceUsed(db, item.reference) then Refused(DuplicateReference(item.reference))
    else
      var tx := Tx(db.lastTx + 1, q, d, item.reference, item.metadata, PostCommit(before, q));
      Done(Applied(Installed(db, tx, before, effective), tx))
  }

  /** A commit up to its log entry: lock, resolve, check, read
      the effective volumes, allocate, write. */
  ghost function Apply(db: Db, item: Item, now: Time): Outcome<Applied> {
    var before := LockRead(db, Touched(item.postings));
    var r := Prepare(before, item.postings);
    if r.Refused? then Refused(r.error)
    else
      var d := Stamp(item.timestamp, now);
      Write(db, item, r.value, d, VolumesOf(before), EffectiveReads(db.moves, Touched(r.value), d))
  }

  // the entry at the id already allocated, chained onto the tip
  function Appended(db: Db, kind: LogKind, data: Data, use: Option<KeyUse>): Db {
    var hash := Chained(db.tip, data);
    db.(logs := db.logs + [Log(db.lastLog, kind, data, hash, use)], tip := hash)
  }

  function AppendedNext(db: Db, kind: LogKind, data: Data): Db {
    Appended(db.(lastLog := db.lastLog + 1), kind, data, None)
  }

  // ---------------------------------------------------------------- commit

  datatype Reply =
    | Committed(tx: Tx)
    | CommittedAll(txs: seq<Tx>)
    | ReplayedAll(rows: seq<TxRow>)
    | RevertedBy(original: nat, tx: Tx)
    | Rejected(error: Error)
    | Acknowledged

  datatype Step = Step(db: Db, reply: Reply)

  function PostingError(q: Posting): Option<Error> {
    if q.amount.None? && !q.upTo then Some(InvalidAmount)
    else if q.amount.Some? && q.amount.value < 0 then Some(InvalidAmount)
    else if q.amount.Some? && q.amount.value >= AMOUNT_LIMIT then Some(AmountTooLarge)
    else None
  }

  function Invalid(p: Postings, i: nat): (r: Option<Error>)
    ensures r.None? ==> forall j | i <= j < |p| :: PostingError(p[j]).None?
    decreases |p| - i
  {
    if i >= |p| then None
    else if PostingError(p[i]).Some? then Some(InvalidPosting(i, PostingError(p[i]).value))
    else Invalid(p, i + 1)
  }

  function Malformed(p: Postings): Option<Error> {
    if p == [] then Some(NoPostings) else Invalid(p, 0)
  }

  function FindKey(logs: seq<Log>, key: string): (r: Option<Log>)
    ensures r.Some? ==> r.value in logs && r.value.use.Some? && r.value.use.value.key == key
    ensures r.None? ==> forall l | l in logs && l.use.Some? :: l.use.value.key != key
  {
    if logs == [] then None
    else if logs[0].use.Some? && logs[0].use.value.key == key then Some(logs[0])
    else FindKey(logs[1..], key)
  }

  const NO_TX := Tx(0, [], 0, "", map[], map[])

  // what the stored bytes decode to when read as a transaction: fields of other shapes are dropped
  function AsTx(data: Data): Tx { if data.TxData? then data.tx else NO_TX }

  function Use(key: string, hash: RequestHash): Option<KeyUse> { if key == "" then None else Some(KeyUse(key, hash)) }

  predicate Taken(logs: seq<Log>, use: Option<KeyUse>) { use.Some? && FindKey(logs, use.value.key).Some? }

  function Replayed(log: Log, key: string, hash: RequestHash): Reply
    requires log.use.Some?
  {
    if log.use.value.hash != hash then Rejected(IdempotencyMismatch(key)) else Committed(AsTx(log.data))
  }

  // a key in use is caught as the entry goes in
  ghost function ApplyAndLog(db: Db, item: Item, use: Option<KeyUse>, now: Time): Outcome<Applied> {
    var r := Apply(db, item, now);
    if r.Refused? then r
    else if Taken(db.logs, use) then Refused(KeyTaken(use.value.key))
    else Done(Applied(Appended(r.value.db, NewTransaction, TxData(r.value.tx), use), r.value.tx))
  }

  ghost function Commit(db: Db, item: Item, key: string, dryRun: bool, now: Time): Step {
    if Malformed(item.postings).Some? then Step(db, Rejected(Malformed(item.postings).value))
    else if key != "" && FindKey(db.logs, key).Some? then
      Step(db, Replayed(FindKey(db.logs, key).value, key, CommitHash(item)))
    else
      var r := ApplyAndLog(db, item, Use(key, CommitHash(item)), now);
      if r.Refused? then Step(db, Rejected(r.error))
      else Step(if dryRun then db else r.value.db, Committed(r.value.tx))
  }

  // ---------------------------------------------------------------- batch

  function MalformedItem(items: seq<Item>, i: nat): (r: Option<Error>)
    ensures r.None? ==> forall j | i <= j < |items| :: Malformed(items[j].postings).None?
    decreases |items| - i
  {
    if i >= |items| then None
    else if Malformed(items[i].postings).Some? then Some(BatchItemFailed(i, Malformed(items[i].postings).value))
    else MalformedItem(items, i + 1)
  }

  function MalformedBatch(items: seq<Item>): Option<Error> {
    if items == [] then Some(NoPostings)
    else if |items| > MAX_BATCH_SIZE then Some(BatchTooLarge)
    else MalformedItem(items, 0)
  }

  ghost function BatchTouched(items: seq<Item>): set<Key> {
    set i, k | 0 <= i < |items| && k in Touched(items[i].postings) :: k
  }

  // a keyed batch marks each of its items with the hash of them all
  function Tagged(item: Item, key: string, items: seq<Item>): Item {
    if key == "" then item else item.(metadata := item.metadata[BATCH_KEY := Digest(BatchHash(items))])
  }

  // only the first item carries the key
  function BatchUse(key: string, items: seq<Item>, i: nat): Option<KeyUse> {
    if i == 0 then Use(key, BatchHash(items)) else None
  }

  datatype Ran = Ran(db: Db, txs: seq<Tx>)

  // the first n items of a batch, one after another from the given tables
  ghost function RunItems(db: Db, items: seq<Item>, key: string, now: Time, n: nat): (r: Outcome<Ran>)
    requires n <= |items|
    ensures r.Done? ==> |r.value.txs| == n
  {
    if n == 0 then Done(Ran(db, []))
    else
      var r := RunItems(db, items, key, now, n - 1);
      if r.Refused? then r
      else
        var a := ApplyAndLog(r.value.db, Tagged(items[n - 1], key, items), BatchUse(key, items, n - 1), now);
        if a.Refused? then Refused(BatchItemFailed(n - 1, a.error))
        else Done(Ran(a.value.db, r.value.txs + [a.value.tx]))
  }

  // the members of a batch found again by their tag, oldest first, as they now stand
  ghost function TaggedRows(db: Db, hash: RequestHash, upTo: nat): seq<TxRow> {
    if upTo == 0 then [] else TaggedRows(db, hash, upTo - 1) + TaggedAt(db.txs, hash, upTo)
  }

  predicate TaggedWith(row: TxRow, hash: RequestHash) {
    BATCH_KEY in row.metadata && row.metadata[BATCH_KEY] == Digest(hash)
  }

  function TaggedAt(txs: map<nat, TxRow>, hash: RequestHash, id: nat): seq<TxRow> {
    if id in txs && TaggedWith(txs[id], hash) then [txs[id]] else []
  }

  // what a used key is answered with; a key whose members have all lost their tag looks unused
  ghost function FoundBatch(db: Db, key: string, items: seq<Item>): Option<Reply> {
    if key == "" || FindKey(db.logs, key).None? then None
    else if FindKey(db.logs, key).value.use.value.hash != BatchHash(items) then Some(Rejected(IdempotencyMismatch(key)))
    else
      var rows := TaggedRows(db, BatchHash(items), db.lastTx);
      if rows == [] then None else Some(ReplayedAll(rows))
  }

  function Locking(db: Db, ks: set<Key>): Db { db.(rows := Materialised(db.rows, ks)) }

  /** All or none: every row the batch needs is created and locked first, then the items run. */
  ghost function Batch(db: Db, items: seq<Item>, key: string, dryRun: bool, now: Time): Step {
    if MalformedBatch(items).Some? then Step(db, Rejected(MalformedBatch(items).value))
    else if FoundBatch(db, key, items).Some? then Step(db, FoundBatch(db, key, items).value)
    else
      var r := RunItems(Locking(db, BatchTouched(items)), items, key, now, |items|);
      if r.Refused? then Step(db, Rejected(r.error))
      else Step(if dryRun then db else r.value.db, CommittedAll(r.value.txs))
  }

  // ---------------------------------------------------------------- revert

  function RevertItem(row: TxRow, id: nat, atEffectiveDate: bool, now: Time): Item {
    Item(Reversed(row.tx.postings), if atEffectiveDate then row.tx.timestamp else now, "",
        map[REVERTS_KEY := TxRef(id)])
  }

  function Stamped(db: Db, id: nat, at: Time): Db
    requires id in db.txs
  {
    db.(txs := db.txs[id := db.txs[id].(revertedAt := Some(at))])
  }

  ghost function Revert(db: Db, id: nat, atEffectiveDate: bool, now: Time): Step {
    if id !in db.txs then Step(db, Rejected(NotFound))
    else if db.txs[id].revertedAt.Some? then Step(db, Rejected(AlreadyReverted(id)))
    else
      var r := Apply(db, RevertItem(db.txs[id], id, atEffectiveDate, now), now);
      if r.Refused? then Step(db, Rejected(r.error))
      else
        var tx := r.value.tx;
        Step(Appended(Stamped(r.value.db, id, tx.timestamp), RevertedTransaction, RevertData(id, tx), None),
            RevertedBy(id, tx))
  }

  // ---------------------------------------------------------------- metadata

  // metadata @> m
  predicate Contains(metadata: Metadata, m: Metadata) {
    forall k | k in m :: k in metadata && metadata[k] == m[k]
  }

  function SetTxMetadata(db: Db, id: nat, m: Metadata): Step {
    if m == map[] then Step(db, Rejected(EmptyMetadata))
    else if id !in db.txs then Step(db, Rejected(NotFound))
    else if Contains(db.txs[id].metadata, m) then Step(db, Acknowledged)
    else
      var row := db.txs[id];
      Step(AppendedNext(db.(txs := db.txs[id := row.(metadata := row.metadata + m)]),
                        SetMetadata, SetMetadataData(OnTransaction(id), m)), Acknowledged)
  }

  function DeleteTxMetadata(db: Db, id: nat, key: string): Step {
    if key == "" then Step(db, Rejected(EmptyMetadataKey))
    else if id !in db.txs then Step(db, Rejected(NotFound))
    else if key !in db.txs[id].metadata then Step(db, Acknowledged)
    else
      var row := db.txs[id];
      Step(AppendedNext(db.(txs := db.txs[id := row.(metadata := row.metadata - {key})]),
                        DeleteMetadata, DeleteMetadataData(OnTransaction(id), key)), Acknowledged)
  }

  // an account nothing has used is created to be tagged
  function SetAccountMetadata(db: Db, a: Address, m: Metadata, now: Time): Step {
    if m == map[] then Step(db, Rejected(EmptyMetadata))
    else if a in db.accounts && Contains(db.accounts[a].metadata, m) then Step(db, Acknowledged)
    else
      var account := if a in db.accounts then db.accounts[a].(metadata := db.accounts[a].metadata + m)
                     else Account(m, Stamp(now, now), false);
      Step(AppendedNext(db.(accounts := db.accounts[a := account]),
                        SetMetadata, SetMetadataData(OnAccount(a), m)), Acknowledged)
  }

  function DeleteAccountMetadata(db: Db, a: Address, key: string): Step {
    if key == "" then Step(db, Rejected(EmptyMetadataKey))
    else if a !in db.accounts then Step(db, Rejected(NotFound))
    else if key !in db.accounts[a].metadata then Step(db, Acknowledged)
    else
      var account := db.accounts[a];
      Step(AppendedNext(db.(accounts := db.accounts[a := account.(metadata := account.metadata - {key})]),
                        DeleteMetadata, DeleteMetadataData(OnAccount(a), key)), Acknowledged)
  }

  // ---------------------------------------------------------------- policy and closure

  function SetAllowNegative(db: Db, k: Key, allow: bool): Step {
    if k.account == WORLD && !allow then Step(db, Rejected(WorldMustAllowNegative))
    else
      var row := if k in db.rows then db.rows[k].(allowNegative := allow) else Row(ZERO, allow, true);
      Step(db.(rows := db.rows[k := row]), Acknowledged)
  }

  // inserting a row here leaves allow_negative at the column's default, for world too
  function SetAllowPositive(db: Db, k: Key, allow: bool): Step {
    if k.account == WORLD && !allow then Step(db, Rejected(WorldMustAllowNegative))
    else
      var row := if k in db.rows then db.rows[k].(allowPositive := allow) else Row(ZERO, false, allow);
      Step(db.(rows := db.rows[k := row]), Acknowledged)
  }

  predicate Empty(db: Db, a: Address) {
    forall k | k in db.rows && k.account == a :: db.rows[k].volumes.Balance() == 0
  }

  // a row that stands in the way of closing
  predicate Owes(db: Db, a: Address, k: Key) { k in db.rows && k.account == a && db.rows[k].volumes.Balance() != 0 }

  function Close(db: Db, a: Address, now: Time): Step {
    if a == WORLD then Step(db, Rejected(ClosureRefused))
    else if !Empty(db, a) then Step(db, Rejected(AccountNotEmpty))
    else
      var account := if a in db.accounts then db.accounts[a].(closed := true) else Account(map[], now, true);
      Step(db.(accounts := db.accounts[a := account]), Acknowledged)
  }

  function Reopen(db: Db, a: Address): Step {
    if !Closed(db, a) then Step(db, Rejected(NotClosed))
    else Step(db.(accounts := db.accounts[a := db.accounts[a].(closed := false)]), Acknowledged)
  }

  // ---------------------------------------------------------------- recovery

  // where a log had got to when somebody noted it down
  datatype Tip = Tip(txId: int, logId: int, hash: Hash)

  function ChainTip(db: Db): Tip { Tip(db.lastTx, db.lastLog, db.tip) }

  predicate PastTip(db: Db, t: Tip) { db.lastLog >= t.logId && db.lastTx >= t.txId }

  function Max(a: int, b: int): int { if a > b then a else b }

  function RecordRecovery(db: Db, watermark: Tip, note: string): Db {
    if PastTip(db, watermark) then db
    else
      Appended(db.(lastTx := Max(db.lastTx, watermark.txId), lastLog := Max(db.lastLog, watermark.logId) + 1),
               Recovery, RecoveryData(db.lastLog, watermark.logId, note), None)
  }
}

# giro's commit engine in Dafny

giro is a double-entry ledger over PostgreSQL. One commit takes sorted row locks, resolves sweeps and
checks bounds against the rows it locked, adds relative volume deltas, reads a backdating snapshot,
takes its ids under a second lock, writes two moves a posting, shifts the moves a backdated transaction
lands before, and appends one entry to a hash chained log. The same facts then live in four places: the
log, the stored volumes, the insertion-order history on each move (`pcv`) and the effective-date history
on each move (`pcev`). This project models that engine and proves that they agree in every reachable
state, under interleaving, backdating, reversals, batches, retries and restores. A second, smaller part
models currency conversion.

`dafny verify dfyconfig.toml` checks everything.

## How it is laid out

- `Ledger` the domain: lock order, postings, volume deltas, reversal. `History` the moves and their two
  running histories. `Engine` the tables of one ledger as a value, and what each operation does to them
  when nothing runs beside it: the specification everything else is measured against.
- `Storage` the engine in its own form: a class whose methods update the tables in place, loop by loop,
  each shown to do what `Engine` says (`Step(State(), reply) == Commit(old(State()), ...)`), and any
  sequence of them to be a run (`Store.DoAll`).
- `Chain` the log check and tips, `Tips` what one tip fixes. `Sweeps` ceilings and bounds. `Invariants` and
  `Runs` what every operation keeps, and so what holds after every run. `Permanence` what no run takes back.
- `Projection`, `Effective`, `Agreement` the checkers and the agreement of the histories.
  `Requests`, `Idempotency`, `Reversals`, `Bounds`, `Restore`, `Batches`, `Tags` the promises over runs.
  `Funding` what the concrete runs are built on.
- What each operation answers and leaves, said of the request and the tables before it and not through `Engine`:
  `Decisions` what the locked rows decide, `Landings` what a transaction leaves in every table, `Outcomes`
  commits and reversals, `Bulk` batches, `Settings` metadata, policies, closures and recoveries, `References`
  that a reference names one transaction, `Checks` which tables a verify run accepts.
- `Protocol` commits, batches and reversals broken into the steps at which they interleave, with policies,
  metadata and recoveries between the steps. `Sessions`, `Frames`, `Survival`, `Serial`,
  `Interleaving` show that every interleaving is a sequence; `Answers` which answers are the operation's
  own, and `Races` one that is not; `Retries` what that means for one key raced by many; `Deadlock` that
  someone can always step, and `Progress` that everyone gets to an end.
- `Closure` adds closes, a step at a time, and reopenings to those interleavings; `Stranding` what a closed
  account can come to hold; `Exchange` and `Overtaking` one that comes to hold something.
- `Pages` walking a list page by page while rows land. `Conversion` converting between assets at a stated
  rate.

Every proof about the engine is stated over all inputs, all runs (`Runs.Reachable`: any mixture of
commits, sweeps, batches, reversals, metadata writes, policy changes, closures and recoveries from an
empty ledger) or all interleavings (`Interleaving.Play`: any sequence of steps, arrivals, losses and brief
operations; `Closure.Course`: those with closes and reopenings among them).

## What is taken as given

- One table row is a map entry or a sequence element, and a row's `seq` is its index: the moves of a
  ledger are inserted under its ledgers row lock, so the sequence ascends with publication.
- The schema's defaults and unique indexes (`migrations/20260831073056_init_schema.sql:130-136`,
  `:217-228`, `migrations/20260903113456_allow_negative_accounts.sql:31`,
  `migrations/20260904060304_accounts_bounded_above.sql:24`) are how `Engine` decides a duplicate
  reference, a used key and the flags of a new row.
- A hash is a free constructor: the chain hash of the previous hash and the data, the idempotency hash
  of the request itself. JSON, base64 and SHA-256 are not modelled; equal hashes mean equal inputs.
- A time is an integer count of nanoseconds since the zero time. The clock is a parameter of each
  operation. Amounts are unbounded integers, as `big.Int` is.
- A recovery watermark is a position some ledger was in, so its transaction id does not exceed its log
  id (`Restore.TipIsWatermark` proves that of every tip).

## Where the code and its documentation part ways

The model follows the code. Each point below that is a property is stated as a lemma.

- The chain hash covers an entry's data and neither its type nor its id, so two accepted logs with one
  tip can differ in both (`Chain.TipDoesNotFixTypesOrIds`). They carry the same ids exactly when they skip
  at the same entries, and the types of a log typed by its data exactly when the other is too
  (`Tips.IdsAgree`, `Tips.TypesAgree`). Of ledgers the engine wrote a tip fixes every entry and every table
  the entries project onto (`Tips.TipFixesLedger`).
- Resuming from a tip's text uses the log id for the transaction id (`cmd/giro/recover.go:150-154`).
  `RecordRecovery` is documented as a no-op on a ledger already past the watermark; from text it is one
  exactly when both counters have reached the log id, and otherwise a ledger that lost nothing gains an
  entry that declares no gap (`Restore.ResumeFromText`, `Restore.ResumeWithNothingLost`).
- World is documented as always permitted to go negative. Allowing it a positive balance before its row
  exists creates the row without that permission; no other operation takes it away
  (`Bounds.WorldStaysOpenUnlessShut`, `Bounds.WorldCanBeShut`).
- A batch is found again by the hash of its items and not by its key, so a replay answers with its own
  transactions exactly when nothing else carries the tag (`Idempotency.BatchReplayExact`,
  `Batches.TwoKeysOneTag`, and `Batches.OneDepositTwoKeys` from an empty ledger). When every tag has been
  deleted as metadata the key looks unused, and the replay is refused (`Batches.BatchExactlyOnce`, and
  `Batches.LostTagIsRefused` from an empty ledger).
- A keyed request that loses a race can be refused (a duplicate reference, insufficient funds) before it
  reaches the index that would have answered it with the winner's result. An answer is the operation's own
  if and only if the session is not about to be refused while its key has an answer
  (`Answers.AnswerIsAtomic`); an overtaken commit is told the winner's result exactly when it would itself go
  through on top of it (`Answers.LoserAnswered`); `Races.LoserIsRefused` is a run in which it is not.
- `Reverse` says that keeping the order of the postings would make a reversal fail its balance check. The
  check looks at the final state only and decides alike in either order (`Sweeps.OrderDoesNotDecide`); what
  the reversed order gives is the retraced path (`Ledger.ReverseRetraces`).
- A statement is paged by (effective date, seq), where keyset paging is argued for on an append-only table
  (`storage/page.go:23-32`). A backdated move that lands behind the cursor is passed over; a line is
  returned exactly when it lies beyond the cursor of the first request made after it landed
  (`Pages.ReturnedExactly`, `Pages.BackdatedIsPassedOver`).
- The default tolerance of one unit is said to allow for truncation. One conversion needs none. A bundle at
  one rate is accepted exactly when the whole units its dust adds up to, what each conversion truncates taken
  together, are within the tolerance (`Conversion.BundleAgreesExactly`): k - 1 always does and for every k some
  bundle needs it (`Conversion.BoundIsReached`), so the default covers any two, and three honest ones can
  exceed it (`Conversion.DefaultToleranceCoversTwo`, `Conversion.ThreeCanExceedIt`).
- Closing is said to stop a commit already in flight, by locking the balances it reads
  (`storage/closure.go:47-56`, `:136-138`). It locks, and looks at again, the rows that held something when it
  asked and no others, so a request that had looked before the flag was set can still move the rest. However
  everything interleaves, a row of a closed account holds something if and only if it held nothing when the
  close asked and the log since then does not balance on it (`Stranding.StrandedExactly`; for one transaction
  `Bounds.RacedClose` and `Bounds.OvertakenClose`). It happens to an account nothing has touched
  (`Bounds.CloseCanStrand`), and to a close that waits: ten dollars held, a conversion into five euros in
  flight, and the account is closed on the euros (`Exchange.WaitedCloseStrands`, and as a run
  `Overtaking.CloseIsOvertaken`). Once the last such request has ended nothing moves the account until it is
  reopened (`Stranding.SettledStays`).

## Model

| member | source | states |
|---|---|---|
| Ledger.KeyTotal | ledger/volumes.go:108-116 | the lock order is total and strict: any two rows are ordered one way and never both |
| Ledger.KeyTransitive | ledger/volumes.go:108-116 | the lock order is transitive |
| Ledger.KeyOrderIs | ledger/volumes.go:108-116 | the order is by account name and then by asset name, each compared character by character with the shorter first |
| Ledger.FlowInFigures | ledger/volumes.go:62-99 | one posting counts its amount once out of its source and once into its destination, in its own asset, and nothing anywhere else; a sweep without a ceiling counts nothing; postings add up |
| Ledger.VolumeUpdates | ledger/volumes.go:56-117 | one entry a touched row, in lock order, each the exact sum over the postings; the first nil amount is reported instead |
| Ledger.IndexPostings | ledger/volumes.go:62-99 | the accumulated map holds exactly the touched rows with their exact deltas |
| Ledger.SortKeys | ledger/volumes.go:108-116 | sorting the entries gives the one ascending sequence of those rows, whatever order the map gave |
| Ledger.Reverse | ledger/posting.go:130-144 | the array filled by index is the reversal; the first nil amount is reported instead |
| Ledger.ReverseTwice | ledger/posting.go:113-144 | reversing twice gives the postings back |
| Ledger.ReversedDelta | ledger/posting.go:113-144 | a reversal's deltas are the original's with input and output swapped, for every row |
| Ledger.ReverseRetraces | ledger/posting.go:113-117 | run from the end state, a reversal passes through the original's balances in exactly the opposite order |
| History.PostedPcv | storage/moves.go:38-65 | if every move's insertion-order snapshot is a total, it still is after a transaction writes its own from the volumes it locked |
| History.PostedPcev | storage/moves.go:79-141 | if every move's effective snapshot is a replay in (date, seq) order, it still is after a transaction of any date, ties included, shifts the later moves and writes its own |
| History.FastReadExact | storage/effective.go:22-52 | what the last move up to a date carries is the sum of every move dated at or before it |
| History.EffectiveReadFrame | storage/commit.go:337-352 | a transaction changes nothing that will be read, at any date, for a row it does not touch |
| Sweeps.SweepsResolved | storage/commit.go:481-528 | a sweep is refused exactly when some source may go negative; otherwise the rows are the same, fixed postings are untouched, and each sweep becomes a figure: what its source then holds or nothing if that is below zero, or its ceiling when that is less |
| Sweeps.ResolveUpTo | storage/commit.go:481-528 | the loop over running balances computes that resolution, each sweep in figures, and ends with every running balance equal to the balance before plus the recomputed deltas |
| Sweeps.SweepsNeverOverdraw | storage/commit.go:465-480 | a transaction of sweeps alone over rows holding nothing negative holds nothing negative after any prefix of its postings |
| Sweeps.SweepsPassLowerBound | storage/commit.go:408-424 | so such a transaction never ends any row below zero |
| Sweeps.BoundsExact | storage/commit.go:408-435 | the bound check passes exactly when every row it looked at ends within its own bounds, and otherwise reports the first in lock order with what it holds and was asked |
| Sweeps.PrepareGuarantees | storage/commit.go:279-325 | a decided transaction touches the same rows it locked, names no closed account and ends every row within bounds |
| Sweeps.OrderDoesNotDecide | ledger/posting.go:113-117 | a reversal passes or fails the checks alike whether or not its postings' order is reversed too |
| Decisions.ResolveTakes | storage/commit.go:481-528 | resolved against the stored rows, a sweep takes all its source has left after the postings before it, or the ceiling when that is less, and everything else is as asked; `Decisions.TakesUnique` that this fixes every figure |
| Decisions.SweepEmpties | storage/commit.go:512-521 | a sweep without a ceiling, to another account, leaves a source that held zero or more at exactly zero |
| Decisions.DecisionExactly | storage/commit.go:279-325 | an outcome is the decision on the locked rows if and only if it is the one described: the first sweep of a source that may go negative is refused, else the first closed account in lock order, else the first row in lock order that would end out of bounds, with what it held and was asked for or what it would hold, else the figures taken |
| Requests.AcceptedExactly | ledger/posting.go:89-111 | validation passes exactly when there are postings and each has an amount or is a ceiling, none negative and none of more than 333 bits; otherwise it names the first that fails, with its own error |
| Requests.LimitIs333Bits | ledger/posting.go:36-41 | the limit on an amount is two to the 333 |
| Requests.BatchAcceptedExactly | storage/bulk.go:28-66 | a batch is accepted exactly when it has between one and a hundred items and each of them would be; otherwise it is refused for having none, for having more, or for its first bad item with its index and its own error |
| Requests.StampRoundsDown | storage/commit.go:325-335 | the recorded date is the one given, or the clock's, rounded down to the microsecond |
| Requests.CommitRecords | storage/commit.go:359-370 | a commit records the request under the next id: fixed postings exactly, ceilings as no more than themselves, reference, metadata and date; a used reference is refused |
| Requests.ReversalRecords | storage/revert.go:68-101 | a reversal records the inverse postings under the next id, marked with what it undoes and dated as asked, and stamps the original with its date |
| Requests.SkippedExactly | storage/metadata.go:136-141 | a metadata write is skipped exactly when merging would change nothing |
| Outcomes.CommitAnsweredExactly | storage/commit.go:207-266 | a commit is given an answer if and only if the request earns it: its own faults, what the entry under its key says, the decision, a reference some transaction already carries, reversed or not, or a record whose every figure is determined |
| Outcomes.CommitLeaves | storage/commit.go:279-395 | a commit that goes through leaves its transaction as answered, one entry under its key, and every row, account and move as the figures say; any other, and a dry run, changes nothing |
| Outcomes.RevertAnsweredExactly | storage/revert.go:55-112 | a reversal is given an answer if and only if it earns it: not found, already stamped, or what a request to move everything back, dated now or as the original, comes to |
| Outcomes.RevertLeaves | storage/revert.go:68-107 | a reversal that goes through leaves the rows, accounts and moves as the figures say, itself stored, the original stamped with its date and nothing else of it changed, and one entry; any other changes nothing |
| Landings.LandingMoves | storage/commit.go:325-395 | in figures: each touched row gains its flows and keeps its bounds, each used account is first used at the earlier of two dates, the moves in place shift only in their effective snapshot and only when later, two new moves a posting carry both snapshots, a read on any date changes by the flows exactly when the date is not before the transaction's, and the frozen volumes are where the rows end |
| References.ReferenceNamesOne | storage/rows.go:71-74 | in every reachable state two transactions with one reference are one transaction, whether or not it was reversed |
| References.InterleavedNamesOne | storage/rows.go:19-38 | and in every state an interleaving commits |
| Settings.TxMetadataSet | storage/metadata.go:30-49 | refused for nothing to set or nobody to set it on; otherwise every key asked for holds what was asked for, nothing else anywhere changes, and one entry carrying the request is appended if and only if the metadata changed |
| Settings.TxMetadataDeleted | storage/metadata.go:51-69 | refused for an empty key or an unknown transaction; otherwise the key is gone and nothing else is, with one entry if and only if it was there |
| Settings.AccountMetadataSet | storage/metadata.go:76-114 | the same for an account, which is created when nothing has used it |
| Settings.AccountMetadataDeleted | storage/metadata.go:116-134 | the same for one key of an account |
| Settings.NegativeAllowed | storage/policy.go:47-68 | the row may or may not go negative as asked, a row that was not there holds nothing and may be positive, and nothing else changes; world is not bounded |
| Settings.PositiveAllowed | storage/policy.go:78-100 | the same for being positive; a row that was not there, world's too, may not go negative |
| Settings.CloseCloses | storage/closure.go:36-93 | world is refused, and an account with a row that does not balance; any other is closed, with its metadata, its first use and everything else as it was |
| Settings.ReopenOpens | storage/closure.go:104-119 | a closed account is open afterwards, with everything else as it was; any other is refused and nothing changes |
| Settings.ReopenedAsBefore | storage/closure.go:95-119 | after closing and reopening, every commit is answered as it would have been had neither happened |
| Settings.ReopenedIsUnflagged | storage/closure.go:95-119 | and after reopening any closed account, as if the flag had never been set |
| Settings.RecoveryRecords | storage/recovery.go:203-263 | nothing past the watermark in both counters; otherwise each counter stands at the further of the two, and one entry takes the next id and declares where the log was and what is skipped |
| Settings.TipIsTheEnd | storage/recovery.go:97-118 | the tip reported is the last entry's id and hash and the last transaction id given out |
| Storage.CheckClosed | storage/commit.go:558-565 | reports the first closed account in lock order, if any |
| Storage.CheckBalances | storage/commit.go:408-435 | reports the first row out of bounds in lock order, if any |
| Storage.Validate | ledger/posting.go:89-111 | reports the first unacceptable posting, if any, or that there are none |
| Storage.DecidePostings | storage/commit.go:305-319 | resolving only when something is a sweep, and recomputing the deltas, decides what the specification decides |
| Storage.PostCommitVolumes | storage/commit.go:452-462 | the frozen volumes are exactly the final state of every touched row |
| Storage.Store.LockVolumes | storage/volumes.go:75-232 | missing rows are created and no others; the answer is every requested row as it stood, with whether its account is closed |
| Storage.Store.ApplyVolumes | storage/volumes.go:256-281 | adding the deltas row by row moves every touched row by its sum and no other row |
| Storage.Store.EffectiveVolumesAt | storage/moves.go:79-122 | the snapshot read for every touched row on the date, nothing when there is none |
| Storage.Store.InsertTransaction | storage/rows.go:40-79 | refuses exactly a reference already used, and otherwise stores the one row |
| Storage.Store.UpsertAccounts | storage/rows.go:92-117 | every used account exists, first used at its earliest date; the others are untouched |
| Storage.Store.InsertMoves | storage/moves.go:38-63 | the running maps give each new move the volumes immediately after it in both orders |
| Storage.Store.ShiftLater | storage/moves.go:131-141 | one update a touched row shifts exactly the strictly later moves by the transaction's delta |
| Storage.Store.QueueMoves | storage/moves.go:38-141 | inserting and then shifting gives the moves table of the specification |
| Storage.Store.InsertLog | storage/log.go:92-115 | one entry behind the log, chained onto the tip it moves |
| Storage.Store.ApplyTransaction | storage/commit.go:279-395 | everything but the log entry, equal to applying in one step; a refusal is the specification's |
| Storage.Store.CommitOnce | storage/commit.go:207-266 | one attempt: the tables and the answer are those of the commit specification, replay, refusal and dry run included |
| Storage.Store.CommitTransaction | storage/commit.go:56-114 | attempts lost to contention leave nothing behind; what is answered is one attempt's answer, or giving up after ten with the tables untouched |
| Storage.Store.LockBatch | storage/bulk.go:161-189 | every row any item touches exists afterwards and no other is created |
| Storage.Store.FindBatchByIdempotencyKey | storage/bulk.go:238-280 | a mismatch for other items; the rows that carry the tag as they now stand; nothing when the key is unused or no row carries the tag |
| Storage.Store.ApplyItems | storage/bulk.go:107-142 | the items applied one after another, refusing with the index of the first refused |
| Storage.Store.CommitBatchOnce | storage/bulk.go:85-157 | the tables and the answer are those of the batch specification; a refusal leaves no trace |
| Storage.Store.CommitBatch | storage/bulk.go:45-83 | the same under the retry loop |
| Storage.Store.RevertOnce | storage/revert.go:55-112 | the tables and the answer are those of the reversal specification |
| Storage.Store.RevertTransaction | storage/revert.go:38-53 | the same under the retry loop |
| Storage.Store.SetTransactionMetadata | storage/metadata.go:30-49 | merges and appends one entry, or changes nothing when nothing would change |
| Storage.Store.DeleteTransactionMetadataKey | storage/metadata.go:51-69 | removes and appends one entry, or changes nothing when the key is absent |
| Storage.Store.SetAccountMetadata | storage/metadata.go:76-114 | the same for an account, creating it when it does not exist |
| Storage.Store.DeleteAccountMetadataKey | storage/metadata.go:116-134 | the same for one key of an account |
| Storage.Store.SetAllowNegative | storage/policy.go:47-68 | sets the lower bound of one row, creating it at the defaults, and refuses to bound world |
| Storage.Store.SetAllowPositive | storage/policy.go:78-100 | sets the upper bound of one row, creating it at the defaults, and refuses to bound world |
| Storage.Store.CloseAccount | storage/closure.go:36-93 | closes exactly an account, world excepted, that holds nothing in any asset |
| Storage.Store.ReopenAccount | storage/closure.go:104-119 | reopens exactly a closed account |
| Storage.Store.Do | storage/verify_runs.go:76-124 | any operation takes the tables and answers as its step of a run does |
| Storage.Store.DoAll | storage/verify_runs.go:76-124 | any sequence of operations leaves the tables where its run leaves them |
| Storage.Serve | storage/verify_runs.go:76-124 | a store opened empty and taken through any operations is in a reachable state |
| Storage.Store.RecordRecovery | storage/recovery.go:203-263 | nothing when both counters are past the watermark; otherwise both advance and one entry declares the range |
| Chain.VerifyLog | storage/log.go:121-172 | accepts exactly the logs where every entry is chained to the one before and every gap is declared for exactly its range, and names the first entry that is not |
| Chain.AcceptedExactly | storage/log.go:121-189 | a log is accepted if and only if every entry takes the next id, or is a recovery that names the last id before the gap and the last in it, and hashes the entry before and its own data |
| Chain.ReplacedIsFound | storage/log.go:117-172 | replacing the data or the hash of any entry but the last, whatever with, is found |
| Chain.RemovedIsFound | storage/log.go:117-172 | taking out any entry but the last is found |
| Chain.TipReads | storage/recovery.go:147-180 | nothing recorded matches, no entry with the recorded id is behind, one with another hash is forked |
| Chain.SameTipSameData | ledger/log.go:89-101 | two accepted logs with one tip hash carry the same data in the same order |
| Chain.TipDoesNotFixTypesOrIds | ledger/log.go:89-101 | two accepted logs with one tip hash that differ in an id and in a type |
| Tips.IdsAgree | ledger/log.go:89-101 | two accepted logs with one tip carry the same ids exactly when they skip at the same entries |
| Tips.TypesAgree | ledger/log.go:89-101 | where one is typed by its data, they carry the same types exactly when the other is too |
| Tips.TipFixesLedger | storage/recovery.go:111-180 | two ledgers reached by any runs, with one tip hash, have the same entries with ids and types, transactions with metadata and reversal stamps, moves with both histories, volumes and account metadata |
| Chain.TipMatchesIffHistoryKept | storage/recovery.go:153-180 | on an accepted log a tip check passes exactly when the recorded history is the beginning of the current one |
| Tips.TipMatchesIffLogKept | storage/recovery.go:153-180 | between two ledgers reached by any runs a tip check passes exactly when the recorded log, ids and types included, is the beginning of the current one |
| Chain.TruncatedIsBehindRewrittenIsForked | storage/recovery.go:111-180 | it reports behind exactly when the recorded entry is missing, and forked exactly when it carries another history |
| Invariants.LandKeepsInv | storage/commit.go:354-395 | a transaction that read current rows and snapshots keeps every invariant when it lands, as a commit or as a reversal |
| Invariants.ApplyFits | storage/commit.go:279-395 | applying in one step reads exactly what landing needs, and leaves every touched row within bounds |
| Runs.StepKeepsInv | storage/verify_runs.go:76-124 | each of the twelve operations keeps every invariant |
| Runs.ReachableInv | storage/verify_runs.go:76-124 | every invariant holds after every run from an empty ledger |
| Permanence.RunExtends | storage/log.go:86-115 | whatever runs, entries, transactions, reversal stamps and insertion-order snapshots stay as written, and new ids exceed all ids issued |
| Permanence.VolumesOnlyGrow | ledger/volumes.go:10-17 | both counters of every row only ever increase |
| Projection.ReplayLog | storage/verify.go:119-166 | replaying gives exactly the volumes the log's movements add up to, a row for each key moved, and exactly the transactions it carries, or the first entry that carries none |
| Projection.VerifyTransactionsMatchLog | storage/verify.go:195-222 | every stored id logged, and as many stored as logged, is equality of the two sets; otherwise the lowest stored id never logged, or a count that differs |
| Projection.VerifyProjection | storage/verify.go:52-113 | accepts exactly the tables whose volumes are the replay's, up to rows holding nothing, with the replay's transactions; a mismatch names a row that disagrees |
| Projection.LogIsTheSourceOfTruth | storage/verify.go:38-51 | after every run the tables are what that check accepts |
| Checks.ProjectedExactly | storage/verify.go:52-117 | beside a ledger's own log the check accepts exactly the tables that hold what the ledger holds row for row, have every row that has moved, and list the same transactions |
| Effective.EffectiveOrder | storage/effective.go:110-115 | every move once, by account, asset, date and seq |
| Effective.ListedSum | storage/effective.go:101-108 | any duplicate-free listing of what precedes a position adds up to what the position holds |
| Effective.VerifyEffectiveVolumes | storage/effective.go:109-154 | accepts exactly the tables in which every effective snapshot is a replay; otherwise names a move that is not, with what it should hold |
| Checks.SnapshotsExactly | storage/effective.go:109-152 | beside a ledger's own moves the check accepts exactly the snapshots the ledger holds |
| Effective.GetEffectiveVolumesAt | storage/effective.go:55-85 | answers for exactly the assets with a move by the date; where snapshots are exact, with the sum of every such move |
| Effective.GetBalancesAt | storage/effective.go:22-52 | the same as balances |
| Agreement.FourHistoriesAgree | storage/moves.go:17-37 | after every run a row's volumes are the log's total, the `pcv` of its last move by seq, and the `pcev` of its last move by (date, seq) |
| Agreement.PostCommitMatchesLastMove | storage/commit.go:452-462 | the volumes frozen on a transaction are those its own last move of each row carries |
| Agreement.Conservation | storage/verify_runs.go:181-190 | after every run the balances of an asset sum to exactly zero |
| Checks.DriftAdds | storage/verify_runs.go:191-223 | what the check sums for an asset is each of its rows once, what came in less what went out |
| Agreement.VerifyConservation | storage/verify_runs.go:191-223 | names exactly the assets whose rows do not sum to zero, with the drift |
| Agreement.EffectiveCacheIsReplay | storage/moves.go:131-141 | after every run, for any arrival order and dates, each effective snapshot is the sum of the moves at or before it, and the read by date is the sum up to the date |
| Agreement.MetadataIsDerivable | storage/metadata.go:15-28 | after every run, folding the log gives the current metadata of every transaction and account |
| Agreement.EveryCheckAccepts | storage/verify_runs.go:76-90 | every consistency check of the verify run accepts every reachable state |
| Idempotency.ExactlyOnce | storage/commit.go:222-260 | once a keyed commit was answered, whatever ran since, the same inputs are answered with the same transaction, other inputs are refused, and nothing changes |
| Idempotency.OneEntryPerKey | storage/rows.go:19-38 | at most one log entry carries a key |
| Idempotency.BatchReplayExact | storage/bulk.go:238-280 | what is found is exactly the given transactions, as they now stand, if and only if exactly those carry the tag |
| Reversals.OneReversalEach | storage/revert.go:55-107 | at most one entry reverses a transaction, and it is stamped exactly when one does |
| Reversals.NeverTwice | storage/revert.go:55-66 | after a reversal was answered, whatever ran since, reversing again is refused and changes nothing |
| Reversals.PairLeavesNoTrace | storage/revert.go:31-37 | whatever was committed in between, every balance is what it would be had neither entry of the pair been logged |
| Bounds.StepBreaches | storage/commit.go:397-407 | no operation leaves a row it moved value through out of bounds, and none but a narrowing of that row's policy puts a row out of bounds |
| Bounds.BreachMeansNarrowed | storage/policy.go:119-138 | a row out of bounds at the end of a run has held the same volumes since its policy was narrowed |
| Bounds.VerifyBalancePermissions | storage/policy.go:139-175 | finds exactly the rows out of bounds, in lock order |
| Bounds.ClosedHoldsNothing | storage/closure.go:22-35 | with closing as one step, a closed account holds zero in every asset after every run |
| Bounds.ClosedRefuses | storage/commit.go:550-565 | a transaction naming a closed account on either side is refused |
| Bounds.RacedClose | storage/closure.go:47-93 | a close that asks before a transaction lands and marks after it goes through if and only if the transaction brings every row that held something to zero, and then closed accounts hold something on exactly the account's rows that held nothing and that it moves more one way than the other |
| Bounds.OvertakenClose | storage/closure.go:133-143 | a transaction that lands after an account holding nothing was closed leaves something in closed accounts on exactly the account's rows it moves more one way than the other |
| Bounds.CloseCanStrand | storage/closure.go:47-56 | an untouched account closed while a deposit to it is in flight ends up closed and holding it |
| Exchange.WaitedCloseStrands | storage/closure.go:47-93 | ten dollars held and a conversion into five euros landing in between: closing is refused before it and after it, and goes through across it with the euros in the account |
| Bounds.VerifyClosedAccounts | storage/closure.go:160-194 | finds exactly the rows of closed accounts that hold something |
| Bounds.WorldStaysOpenUnlessShut | storage/policy.go:78-100 | an operation keeps world permitted to go negative if and only if it is not the one that allows an untouched world row a positive balance |
| Bounds.WorldCanBeShut | storage/policy.go:70-100 | a reachable ledger whose world row may not go negative |
| Restore.RestoreSafety | storage/recovery.go:182-263 | after any reset to an earlier state and a recovery with a watermark taken before it, no later entry or transaction takes an id at or below the watermark, lost transactions stay lost, the log check accepts, and recording again changes nothing |
| Restore.TipIsWatermark | cmd/giro/recover.go:150-154 | the last transaction id never exceeds the last log id |
| Restore.ResumeFromText | cmd/giro/recover.go:124-178 | resuming from a tip's text leaves the log alone if and only if both counters have reached the log id, and otherwise appends one entry with no gap |
| Restore.ResumeWithNothingLost | cmd/giro/recover.go:124-178 | a reachable ledger that lost nothing and still gains an entry from its own tip's text |
| Batches.BatchIsSequence | storage/bulk.go:99-106 | taking every lock first and then running the items ends in exactly the tables, transactions and refusal of running them without |
| Bulk.BatchGoes | storage/bulk.go:85-157 | a batch nothing was found for runs its items one after another, each marked and each to what a request alone would come to there; it answers with all of them and leaves where the last stood, or is refused at the first that is refused, for what that is, and leaves nothing; a dry run answers the same |
| Bulk.BatchFinds | storage/bulk.go:238-280 | a key nothing uses finds nothing; other items are a mismatch; its own find exactly the transactions that carry the mark, each once, oldest first, or nothing when none does |
| Batches.BatchEqualsCommits | storage/bulk.go:36-44 | an unkeyed batch succeeds exactly when committing its items one by one would, with the same transactions and tables; otherwise nothing changes and the first refused item is named |
| Batches.ContiguousIds | storage/bulk.go:107-142 | a batch takes contiguous transaction and log ids from the next one on |
| Batches.NoNewRows | storage/bulk.go:99-106 | after the batch is locked no item, sweeps included, needs another row |
| Batches.BatchExactlyOnce | storage/bulk.go:238-280 | whatever ran since a keyed batch was answered, a later batch under the key changes nothing: other items are a mismatch, the same items get the rows that carry the tag, or a refusal at the first item when none does |
| Batches.ReplayReturnsOwn | storage/bulk.go:202-211 | a replay right after committing is answered with the batch's own transactions exactly when no earlier transaction carries the tag |
| Batches.TwoKeysOneTag | storage/bulk.go:213-280 | the same items under a second key are answered with more than the second batch's own transactions |
| Batches.OneDepositTwoKeys | storage/bulk.go:213-280 | one deposit under two keys from an empty ledger: both batches go through and the second key is answered with both |
| Batches.LostTagIsRefused | storage/bulk.go:238-280 | one keyed deposit from an empty ledger whose tag is then deleted: the same batch under the key is refused for the key |
| Tags.KeyOnlyTags | storage/bulk.go:107-142 | a keyed batch does what the same batch without a key does, the same refusal or the same tables and log data, but for the tag on each member, the key and the hashes |
| Sessions.AdvanceOk | storage/commit.go:279-395 | every step of a session keeps what it has read current, its locks its own, and its private view equal to the parts it has run |
| Frames.LandedFrame | storage/commit.go:337-352 | landing a transaction leaves alone every row it does not touch, every read of those rows at any date, every closure and every other transaction |
| Frames.RunPartsFrame | storage/bulk.go:107-142 | a whole request keeps every invariant and leaves alone everything outside the rows it locked |
| Serial.PublishIsAtomic | storage/commit.go:207-266 | what a session publishes, and its answer, is its operation done in one step to what is committed at that moment |
| Serial.RefusalIsAtomic | storage/bulk.go:118-127 | what a session is refused for, at any item, is its operation's own refusal, unless its key now finds an answer |
| Survival.SessionSurvives | storage/commit.go:337-352 | another's publication leaves everything a session holds, has read and has decided as current as before, including the effective read taken before the ledger lock |
| Survival.BriefSpares | storage/policy.go:40-111 | so do policies on rows it does not hold, and metadata and recoveries under their locks |
| Interleaving.Serialisable | storage/commit.go:207-395 | after any interleaving of any requests, lost at any step, with policies, metadata and recoveries between the steps, what is committed is exactly the operations that took effect run one after another in the order they did |
| Interleaving.InterleavedIsReachable | storage/commit.go:207-395 | so every interleaved state is a reachable state |
| Answers.AnswerIsAtomic | storage/rows.go:19-38 | an answer is its operation's own on what is committed then, if and only if the session is not about to be refused while its key already has an answer |
| Answers.LoserAnswered | storage/commit.go:243-248 | a commit overtaken under its key is answered with the winner's result exactly when it would itself go through on top of it, and with its own refusal otherwise |
| Closure.UninterruptedClose | storage/closure.go:36-93 | with nothing happening between its steps a close goes through exactly when the whole operation does |
| Closure.StepClears | storage/commit.go:550-565 | a flag seen at the look changes what a session does only by refusing it |
| Closure.SerialisableWithClosing | storage/closure.go:36-119 | however closes and reopenings interleave with everything else, what is committed, the flags aside, is exactly the operations that took effect run one after another |
| Closure.AnswerWithClosing | storage/commit.go:550-565 | an answer is the refusal for the account seen closed, or its operation's own under the condition of `Answers.AnswerIsAtomic` |
| Stranding.StrandedExactly | storage/closure.go:133-150 | after any interleaving a row of a closed account holds something if and only if it held nothing when the close asked and the log since does not balance on it |
| Stranding.StepStaysWary | storage/commit.go:550-565 | while an account is closed a session that has not looked, or saw it closed, takes no step after which it would move it |
| Stranding.SettledStays | storage/closure.go:133-150 | once every session is one of those, whatever happens leaves every row of the account as it is until it is reopened |
| Overtaking.CloseIsOvertaken | storage/closure.go:47-93 | a run in which a close waits for a conversion, finds the row it asked about empty, and closes the account on what the conversion paid in |
| Races.LoserIsRefused | storage/rows.go:71-74 | two sessions of one keyed commit from an empty ledger, the loser refused for the reference the winner used |
| Retries.RetriesAgree | storage/commit.go:222-260 | under any interleaving, races, losses and retries included, every later answer to an answered key is the same transaction for the same inputs, or a refusal |
| Deadlock.WaitsAhead | storage/volumes.go:114-127 | whoever holds what a session waits for is strictly further along in (phase, row) |
| Deadlock.SomeoneCanStep | storage/bulk.go:99-106 | wherever any mix of commits, batches and reversals has got to, if one is unfinished one can step |
| Deadlock.NoWaitCycle | ledger/volumes.go:45-54 | no chain of waiting sessions returns to where it began |
| Progress.StepsCloser | storage/commit.go:279-395 | every step of its own brings a session strictly closer to its answer |
| Progress.OwnStepsBounded | storage/commit.go:279-395 | once planned, a session takes no more steps of its own than two passes over its rows and five a part, whatever others do |
| Progress.StuckMeansDone | storage/bulk.go:99-106 | a run of steps can no longer be continued exactly when every session is answered or gone |
| Progress.EveryoneFinishes | storage/bulk.go:99-106 | from anywhere, stepping whoever can step brings every session to its end |
| Deadlock.LaterItemsNeverWait | storage/bulk.go:99-106 | no item of a locked batch waits: the rows it locks again are already its own, and once it holds the ledger it waits for nothing |
| Pages.ListPage | storage/statement.go:65-153 | one page: the first rows beyond the cursor, with a next cursor exactly when more remain, told by fetching one row more |
| Pages.PageExactly | storage/statement.go:80-153 | a page is every row later than the cursor when no more are left than were asked for, and otherwise the first of them, as many as asked for, with the last as the next cursor |
| Pages.StatementLists | storage/statement.go:80-95 | a statement lists exactly the moves of the account, in the asset if one is named, from the first date to the last, both included |
| Pages.WalkLosesNothing | storage/page.go:23-32 | however rows land between requests, a finished walk repeats nothing, keeps the order, and skips nothing that was there when it began |
| Pages.ReturnedExactly | storage/statement.go:55-95 | a row is returned exactly when it lies beyond the cursor of the first request made after it landed |
| Pages.WalkIsEverything | storage/page.go:23-32 | where rows are only appended the pages concatenate to exactly the rows, in order |
| Pages.LogAppends | storage/read.go:334-378 | the log is such a list over every run |
| Pages.StatementGrows | storage/statement.go:55-95 | over every run a line of a statement stays on it in its place, and a new line has a later seq |
| Pages.BackdatedIsPassedOver | storage/statement.go:55-95 | a reachable ledger, its statement before and after a backdated commit, and the line the walk between them never returns |
| Conversion.Receives | fx/conversion.go:103-138 | the loop of tenfold steps and one truncating division gives the floor of amount times rate times 10^(to - from), exact exactly when that is an integer; every error in the source's order |
| Conversion.ReceiptExactly | fx/conversion.go:103-138 | in whole numbers: the receipt is the number of times the denominator goes into amount times numerator, tens to the difference in places on the one side or the other, and exact when nothing is left; each error for its own cause, in order |
| Conversion.SplittingLoses | fx/conversion.go:84-102 | splitting an amount into k conversions never yields more than the whole and loses at most k - 1 units |
| Conversion.BuildPostings | fx/conversion.go:145-161 | the two sides with the computed amount, refusing one asset, any error of the amount, and nothing received |
| Conversion.BuiltExactly | fx/conversion.go:145-161 | the seller pays the amount in the asset sold, the buyer gets what is received in the other; refused for one asset on both sides, for what the receipt is refused for, and when nothing whole is received |
| Conversion.StatedReads | fx/conversion.go:163-177 | the rate and both assets stand under their keys and everything else recorded is kept |
| Conversion.Check | fx/conversion.go:182-219 | accepts exactly the transactions that state no rate or moved, to within the tolerance, what the rate they state says; else says which: an asset unnamed, nothing moved, the error of the receipt, or both figures |
| Conversion.MovedInAdds | fx/conversion.go:194-202 | what moved in an asset is the amounts of its postings added up |
| Conversion.OwnAgrees | fx/conversion.go:163-219 | a conversion's own postings and metadata are accepted with no tolerance |
| Conversion.SplittingLosesDust | fx/conversion.go:84-102 | what splitting loses is exactly the whole units in the dust the pieces leave |
| Conversion.BundleAgreesExactly | fx/conversion.go:182-219 | conversions at one rate in one transaction are accepted if and only if the whole units their dust adds up to are within the tolerance |
| Conversion.BundleAgrees | fx/conversion.go:182-219 | so k of them always are at tolerance k - 1 |
| Conversion.BoundIsReached | fx/verify.go:14-21 | for every k a bundle of k that is accepted exactly at tolerances of at least k - 1 |
| Conversion.DefaultToleranceCoversTwo | fx/verify.go:14-21 | the default tolerance accepts a bundle if and only if its dust is less than two units, and so any two |
| Conversion.ThreeCanExceedIt | fx/verify.go:14-21 | three honest conversions in one transaction that the default tolerance refuses |

## Left out

- Account metadata, closes and reopenings interleave with everything else, but deadlock freedom is claimed for
  commits, batches and reversals only: account metadata takes the accounts row and then the ledgers row, where
  a commit takes them the other way round.
- Closure.SerialisableWithClosing: the flags stand beside the tables, so an accounts row that exists only
  because its account was closed is not among the tables it speaks of.
- Deadlock.SomeoneCanStep: one lock order serves creating rows and locking them, where the source sorts in
  Go for the first and by the database's collation for the second. Creating and locking are different
  phases, and no wait crosses them backwards. The accounts rows a commit upserts are written under the
  ledger lock and are not locks of their own.
- SQL, connections, contexts, timers and backoff: tables are maps and sequences, a row lock is ownership, and
  a read is of what is committed plus the transaction's own writes.
- The triggers that restate the rules in the database: what they would refuse is proved never to be written
  (volumes and counters that fall, a row left out of bounds, an asset that does not sum to zero).
- Address, asset name, metadata size and registry validation, rate text parsing, the missing ledger: each is a
  single branch before the engine. The scales asset names carry are a parameter of `Conversion`.
- A batch reads the clock once an item; here one reading serves the whole batch.
- Log dates, insertion dates and `updated_at`, which nothing modelled here reads.
- Page limits, cursor text and its rejection, the filters of a transaction list, stale balance reports,
  `AllowsNegative` and `Policy`: reads with no effect on the properties above.
- `recon/`, `migrate/`, `obs/`, HTTP and command line printing.
- How many attempts of a retry loop are lost is a parameter, and where each is lost is left open.

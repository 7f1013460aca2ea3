# eventic: the versioned document store, verified

This project models eventic's store as a transactional state machine and proves
what its documentation promises of it. The model follows the Python code; where
code and documentation differ, it follows the code and says so below.

The main results, hardest first:

- **Whole-run agreement** (`RunAgreement`). From an empty store, after any run of
  batches (accepted, refused, replayed), claims, deliveries, settlements, crashes,
  redrives, rebuilds, clock ticks and reopenings, each aggregate's log is exactly
  revisions 0..n; the windowed read, the row's own read, the fold of the whole
  log, the head row and the committed document agree; the reported history only
  grows, in non-decreasing commit time; stored rows never change.
- **A commit refines a plain history** (`Agreement`). On agreeing tables a commit
  does exactly what can be decided from the sequence of committed revisions:
  replay, one precise error, or append. A well-formed next commit is refused
  exactly when its patch would hide a change from Python `==`.
- **Recovery** (`Recovery`, `HeadRepair`, `Admin`). The chunked streaming fold is
  "group the log by key and fold" for every chunk size. A rebuild from arbitrary
  heads gives exactly the heads commit would have kept; verify counts exactly the
  aggregates whose head is missing or has another digest. On any log, however damaged
  (`DamagedLogs`), both are characterized row by row and aggregate by aggregate.
- **Delivery** (`RunDelivery`, `RunRetry`, `RunLosses`, `Outbox`). No intent is lost or
  resurrected in any run; while workers settle within their leases no two hold the
  same intent; among any other commits, workers, rebuilds and reopenings, an intent
  whose handler always fails is delivered at most max(1, max_attempts) times, and is
  dead exactly when it has been delivered that often and settled; with workers that
  crash, outlive their leases and settle late, every claim so lost allows one more.
- **Races** (`Race`, `RaceHeads`). Writers on one aggregate at the granularity of
  their SQL statements. Racing for one revision, with any contents: exactly one row in
  every interleaving, and `RevisionConflict` for every writer whose content, metadata
  included, differs to Python; none gets stuck. Any mix of requests on any revisions:
  the log represents a growing history at every point, and it is known exactly which
  step lowers a head.
- **Envelopes** (`Envelopes`, `RunEnvelopes`). Read, plan, commit: the envelope
  dispatched inline is the one any later worker rebuilds from the log.
- **Pure companions** (`Evolution`, `Secrets`, `Paging`, `Retry`).

Six promises are false of the code as stated; each has an input and the exact
condition:

- The delta codec does not round-trip exactly: Python `==` calls 1, 1.0 and True
  equal, so the codec drops such a change (`HiddenChangeWitness`). It is exact if
  and only if no change is hidden (`CodecExactIffNoHiddenChange`), and the
  post-insert check turns every such loss into `EncodingError`
  (`ValidCommitRefusedIffHidden`, `PlannedWriteSucceeds`).
- "Replay only when every durable field matches" (invariant I7): metadata is
  compared with Python `==`, so {"n": true} is taken for a replay of {"n": 1}
  (`ReplayIgnoresHiddenMetadata`). What a replay accepts is `ReplayedIffRestates`:
  exact payload bytes, kind and versions, and Python-equal metadata.
- "The head must never move backwards" (sql/store.py lines 238-241): the repair is
  decided from the head that was read, and a head that did not exist was not locked.
  `StaleReplayLowersHead` is an interleaving of a create, the same create re-sent and
  a change, after which the head is back at revision 0 with revision 1 in the log. In
  every interleaving of planned requests on an aggregate, a step lowers the head if
  and only if it replays a revision below it for a writer that had read no head
  (`HeadFallsIffStaleReplay`); so for an aggregate that existed before, never
  (`ExistingAggregateStaysAgreed`). A rebuild restores the head.
- `eventic verify` is said to "compare rebuilt heads to live heads" (docs/OPERATIONS.md
  line 12). It compares their digest columns: a head with any other content and the
  right digest passes (`VerifyMissesHeadContents`), and so does an orphan head
  (`VerifyMissesOrphans`). It is clean if and only if every logged aggregate in scope
  has a head with its last revision's digest (`VerifyCleanIffUndamaged`).
- `contains_secret` promises "any field anywhere in the model graph". It enters
  unions, Annotated, list, set, tuple, dict and models only. `Sequence[SecretStr]` is
  missed (`UnwalkedGenericHidesSecret`), and so is a secret behind a type alias, a
  NewType, a TypedDict or a dataclass (`NamedTypeHidesSecret`). `SearchIsExact`
  states what it finds; `SearchIsTotalIffEntered` states for which vocabularies of
  annotations the promise holds: if and only if they have no other origin whose
  arguments are types (`Literal[...]` has values, and is harmless) and no named type
  that is not a model.
- The codec's header (encodings/delta.py lines 3-6) promises a checkpoint whenever a
  stream switches into delta; the next revision is stored as a patch
  (`SwitchIntoDeltaWritesNoCheckpoint`). Whatever was configured before, a revision
  is stored as a patch if and only if delta is configured now, the aggregate exists
  and the revision is no multiple of `every` (`NewRowFits`). Reads do not need one:
  the grid keeps a full row within reach (`ReopenKeepsSoundness`).

## Reading the model

- JSON is a datatype with two equalities: `==`, which canonical bytes and digests
  see, and `PyEq`, Python's, which is equality up to the kind of a number
  (`PyEqIffSameNorm`). Canonical bytes, digests, `revision_id` and intent ids
  are injective constructors. Bytes that are not canonical and digests of nothing
  can also be supplied.
- The four tables are maps keyed by their unique columns. `SqlStore`, `SqlAdmin`,
  `OutboxWorker` and `Batch` are classes with one method per operation; every method
  is proved equal to a specification function on table values (`Transact`, `Decoded`,
  `SettleAll`, `RebuiltHeads`, `Drained`, ...), and the theorems are about those.
- `History` maps each aggregate to its sequence of committed revisions: what a user
  believes is stored. `Agrees` says the tables represent it.
- `Grid` records, per stream, the `every` it was last opened with as delta.
  Reopening must use a multiple of it, since smaller windows cannot reach the older
  checkpoints; snapshot and delta may alternate.
- `World` adds open worker sessions and ghost bookkeeping; `Event` and `Possible`
  say what may happen next; `Reaches` is any finite run.

## Model

| member | source | states |
|---|---|---|
| RunAgreement.EveryRunIsSound | src/eventic/sql/store.py:185-381 | in every reachable world log, heads and reported history agree |
| RunAgreement.EveryRunReadsBack | src/eventic/sql/store.py:441-513 | every reported revision of every reachable world reads back by each route with its digest, metadata, versions and time; any other number reads as nothing, or is misuse if negative; the head is the last one; history pages give all of it; verify is clean; rebuild changes nothing |
| RunAgreement.RevisionReadsBack | src/eventic/sql/store.py:610-698 | in a sound world the windowed read, the row's own read and the full fold all give the reported document |
| RunAgreement.EveryReadAnswers | src/eventic/sql/store.py:441-484 | in a sound world reading any number answers: UsageError if negative, the reported revision if there is one, and nothing beyond the last |
| RunAgreement.WorldReadsBack | src/eventic/sql/admin.py:169-275 | in a sound world history pages concatenate to everything reported, verify reports nothing and a rebuild is the identity |
| RunAgreement.RunKeepsSoundness | src/eventic/sql/store.py:185-381 | agreement is kept along any run from any agreeing world |
| RunAgreement.BatchKeepsAgreement | src/eventic/sql/store.py:185-211 | a committed batch leaves the tables representing the history extended by what it reports, chained writes included |
| RunAgreement.ReopenKeepsSoundness | src/eventic/sql/store.py:607-651 | reopening with snapshot or with a multiple of the earlier window keeps every old revision decodable |
| RunAgreement.CoarserGrid | src/eventic/sql/store.py:613-625 | rows written on a grid are on every multiple of it |
| RunAgreement.RunContinues | docs/INVARIANTS.md:9 | reported revisions stay in place, unchanged, along any run |
| RunAgreement.EveryRunIsChronological | docs/INVARIANTS.md:19 | committed_at is non-decreasing in revision order and never in the future, under a monotone clock |
| RunDelivery.RowsAreImmutable | docs/INVARIANTS.md:9 | no event of any run changes or removes a stored log row |
| RunLedger.EveryRunKeepsLedger | src/eventic/sql/store.py:362-371 | along any run the first fingerprint of a schema version stays and no revision is committed without one |
| Agreement.CommitOneFollowsHistory | src/eventic/sql/store.py:213-381 | a commit on agreeing tables replays without effect, fails with exactly the error the history decides, or appends and agrees with the extended history |
| Agreement.AppendFollowsHistory | src/eventic/sql/store.py:279-381 | the append branch: each error condition, and otherwise the new tables and intents |
| Agreement.DecisionFollowsHistory | src/eventic/sql/store.py:219-277 | replay, refusal or append is decided from head and row as the history decides it |
| Agreement.ValidCommitRefusedIffHidden | src/eventic/sql/store.py:312-321 | a well-formed next commit is refused with EncodingError exactly when its bytes are not canonical or its patch hides a change |
| Agreement.RefusedByConstraintsIff | src/eventic/sql/tables.py:53-59 | a correctly based request is a StoreError when its schema version is below 1, its stream is empty or its kind does not fit the revision; if its bytes read back, also exactly when an intent has an empty queue or repeats a pair; every other one commits |
| Agreement.InsertsIffInsertable | src/eventic/sql/tables.py:91-93 | intents are inserted exactly when no queue is empty and no pair is present already or asked for twice, and then they are what is new |
| Agreement.ReadBackIsRequestIffReproducible | src/eventic/sql/store.py:312-321 | the byte comparison after the insert succeeds exactly on reproducible requests |
| Agreement.NewRowFits | src/eventic/sql/store.py:279-310 | the inserted row carries the request's columns, and is a patch over the last document exactly when delta is configured, the aggregate exists and the revision is no multiple of every |
| Agreement.AppendDecodes | src/eventic/sql/store.py:279-314 | the appended row decodes through the configured encoding to its full document or its patch over the previous document |
| Agreement.ReadsAgree | src/eventic/sql/store.py:610-698 | both read paths and the full fold return the committed document of every revision |
| Agreement.TablesAt | src/eventic/sql/store.py:221-236 | what the commit's two reads return on agreeing tables |
| Commits.BatchEqualsSequentialOrNothing | src/eventic/sql/store.py:185-211 | a batch succeeds exactly when within capacity and every one-by-one commit would; then state and ordered results are the same; otherwise nothing changes and the error is UsageError over capacity, else that of the first commit that fails |
| Commits.OneResultEach | src/eventic/sql/store.py:193-211 | one result per request, in order, naming its target revision and the transaction's clock |
| LogReads.ConfiguredReadIsFullFold | src/eventic/sql/store.py:610-625 | the configured windowed read never fails on a gridded log and equals the fold of all rows |
| LogReads.RowReadIsFullFold | src/eventic/sql/store.py:627-651 | the read by the row's own window does too |
| LogReads.RowReadWindow | src/eventic/sql/store.py:627-651 | a stream not configured as delta is read by the row itself: nothing there is NotFound, a full row is its document, a patch decodes exactly the logged rows of as many revisions back as it records, twenty if none |
| LogReads.ReadSucceedsIffFullRowInWindow | src/eventic/sql/store.py:613-625 | for any window size the read is the full fold exactly when a full row lies in its window, and UndecodableRevision otherwise |
| LogReads.ConfiguredReadWindow | src/eventic/sql/store.py:613-625 | a configured read of a checkpoint decodes exactly that row, and of any other revision exactly the logged rows of every revisions back, never before revision 0 |
| LogReads.ConfiguredReadIsBounded | src/eventic/sql/store.py:613-625 | a configured read looks at no more than every + 1 rows |
| LogReads.DecodeWindow | src/eventic/sql/store.py:653-698 | the checkpoint search and patch loop computes what chasing recorded bases from the last row gives, errors included |
| LogReads.DecodesIffChained | src/eventic/sql/store.py:653-698 | a window of any rows decodes exactly if it ends at the revision asked for, in patches each based on the row before, back to a full row; it is then the fold of its rows, and otherwise NotFound or UndecodableRevision |
| LogReads.BreakPropagates | src/eventic/sql/store.py:688-695 | a broken base chain before a run of patches breaks the whole window |
| LogReads.NoCheckpointFails | src/eventic/sql/store.py:668-678 | a window of patches alone is undecodable |
| LogReads.GridExtends | src/eventic/sql/store.py:279-290 | what commit appends keeps the log on its grid |
| DeltaEncoding.DecodeInPlace | src/eventic/encodings/delta.py:54-72 | popping tombstones and setting keys in loops is the patch applied to the base |
| JsonValues.PyEqIffSameNorm | src/eventic/encodings/delta.py:38-43 | Python equality of two trees holds if and only if they are the same once every number, at any depth, is replaced by its real value |
| JsonValues.NumbersCompareByValue | src/eventic/encodings/delta.py:38-43 | True equals 1 and 1.0, -0.0 equals 0, and otherwise numbers equal by value only |
| JsonValues.PyEqIsEqualityWithoutNumbers | src/eventic/planning.py:117-129 | without numbers Python equality is equality, and no number equals anything but a number |
| JsonValues.DocEqIffSameNorm | src/eventic/sql/store.py:383-390 | metadata compare equal if and only if they have the same keys and values up to the kind of their numbers |
| DeltaEncoding.ChangedKeysByNorm | src/eventic/planning.py:117-129 | a key is changed if and only if it is on one side alone or its two values differ beyond the kind of their numbers |
| DeltaEncoding.CodecAgreesUpToPythonEquality | src/eventic/encodings/delta.py:29-72 | decode of encode has the same keys and Python-equal values |
| DeltaEncoding.CodecExactIffNoHiddenChange | src/eventic/encodings/delta.py:29-72 | it is byte-exact if and only if no change is hidden by Python equality |
| DeltaEncoding.PatchTouchesChangedKeys | src/eventic/planning.py:117-129 | a patch sets exactly the new keys and those whose value differs beyond the kind of its numbers, to their new values, removes exactly the missing ones, and leaves every other key of the base |
| DeltaEncoding.HiddenChangeWitness | src/eventic/encodings/delta.py:38-43 | replacing 1 by True is lost by the codec |
| Replays.ReplayIsMonotone | src/eventic/sql/store.py:236-250 | re-sent in any order, committed requests add no row and no intent and leave each head at the maximum, with that row's content |
| Replays.ReplayRestoresTips | src/eventic/sql/store.py:392-419 | replaying every tip restores full agreement |
| Counterexamples.ReplayIgnoresHiddenMetadata | docs/INVARIANTS.md:15 | two commits whose metadata differ as 1 and true: the second is reported replayed and its metadata dropped |
| Counterexamples.SwitchIntoDeltaWritesNoCheckpoint | src/eventic/encodings/delta.py:3-6 | a run that switches a stream into delta and stores the next revision as a patch |
| Counterexamples.LateSettlementBreaksExclusion | src/eventic/sql/statements.py:117-146 | a run in which a late settlement lets two workers hold the same intent |
| Counterexamples.CrashesExceedTheBound | src/eventic/sql/dialect.py:172-175 | a run of claims whose workers crash, after which the intent has more attempts than max_attempts and is not dead |
| Replays.ReplayedIffRestates | src/eventic/sql/store.py:383-390 | a planned request is replayed exactly when it names a committed revision with its exact bytes, kind and versions and Python-equal metadata |
| Store.SqlStore.Commit | src/eventic/sql/store.py:185-211 | the new tables and the result are those of the transaction function; after an error the tables are the old ones |
| Store.SqlStore.CommitOne | src/eventic/sql/store.py:213-381 | the step-by-step code has the effect of the commit function |
| Store.SqlStore.Append | src/eventic/sql/store.py:279-381 | insert, read back, compare, head, intents, fingerprint have the effect of the append function |
| Store.SqlStore.StageIntents | src/eventic/sql/store.py:341-360 | one insert per intent in order; an empty queue or a repeated pair is a StoreError |
| Store.SqlStore.DecodeLogRevision | src/eventic/sql/store.py:610-651 | reads what the decode function gives |
| Store.SqlStore.Revision | src/eventic/sql/store.py:441-484 | exact-revision read: absent, error, or the stored revision |
| Store.SqlStore.History | src/eventic/sql/store.py:486-513 | one history page |
| Store.SqlStore.Search | src/eventic/sql/store.py:515-549 | one search page |
| Store.SqlStore.Claim | src/eventic/sql/store.py:553-593 | leases exactly a selection allowed by the claim rule and returns it with bumped attempts |
| Store.SqlStore.Settle | src/eventic/sql/store.py:595-605 | one statement per settlement, in order |
| Paging.HistoryPagesConcatenate | src/eventic/sql/statements.py:63-73 | history pages of any size concatenate to all revisions after the start, in order, and the scan ends |
| Paging.HistoryPageIsSlice | src/eventic/sql/store.py:486-513 | a page is the next slice of the history, with a cursor exactly when it is full |
| Paging.SearchIdsIncrease | src/eventic/sql/statements.py:149-162 | ids over all pages of a search strictly increase, whatever commits come between pages |
| Paging.CompletedSearchIsGapFree | src/eventic/sql/statements.py:149-162 | a completed search returns exactly once every head that matched at each page read, and nothing that did not match when its page was read |
| Paging.SearchPageReturnsTips | src/eventic/sql/store.py:515-549 | a search page holds the last revisions of the first limit matching aggregates after the cursor, in id order, each handed up in full, and a cursor exactly when it is full |
| Paging.HeadReadsTip | src/eventic/sql/store.py:706-720 | a head read hands up the last committed revision in every column but the kind, which is exact if and only if that revision is a change |
| Paging.RowReadsBack | src/eventic/sql/store.py:722-738 | a committed revision is handed up with every column |
| Ordering.NextPage | src/eventic/sql/statements.py:183-201 | keyset paging after the last element of a prefix gives the next elements of the sorted set |
| Ordering.SelectPage | src/eventic/sql/statements.py:149-162 | WHERE key > cursor ORDER BY key LIMIT n |
| Recovery.StreamLog | src/eventic/sql/admin.py:63-102 | the chunked nested loop terminates and emits the group-and-fold of the scan, for every chunk size |
| Recovery.EmitsEachAggregateOnce | src/eventic/sql/admin.py:63-102 | each aggregate in scope is emitted once, in key order, with the fold of all its rows |
| Recovery.SelectLogChunk | src/eventic/sql/statements.py:183-201 | the next chunk of the ordered log, empty only at its end |
| Recovery.AccumulateInto | src/eventic/sql/admin.py:46-60 | clearing and updating the dictionary in place is one step of the fold |
| HeadRepair.RebuildIsExact | src/eventic/sql/admin.py:169-221 | from arbitrary heads a rebuild gives the heads commit would have kept, touches no other stream, and reports every aggregate, every orphan and no mismatch |
| DamagedLogs.RebuildOnAnyLog | src/eventic/sql/admin.py:169-221 | on any log, damaged or not, and from any heads: another stream's heads are untouched; in the stream, or everywhere, an aggregate has the head of its last row with the fold of its rows if that has the row's digest, and no head otherwise |
| DamagedLogs.RebuildReportOnAnyLog | src/eventic/sql/admin.py:169-221 | on any log the report counts the aggregates in scope whose fold has, or has not, the digest of their last row, and the heads in scope that have no row |
| DamagedLogs.RebuildOfStream | src/eventic/sql/statements.py:183-201 | rebuilding one stream of a good log gives exactly its aggregates their tips, drops and counts its orphans, and leaves every head of every other stream |
| HeadRepair.RebuildIsIdempotent | src/eventic/sql/admin.py:169-221 | rebuilding twice is rebuilding once |
| HeadRepair.RebuildRestoresAgreement | src/eventic/sql/admin.py:169-221 | a rebuild of all streams restores agreement |
| HeadRepair.RebuildKeepsAgreement | src/eventic/sql/admin.py:169-221 | where tables agree a rebuild changes nothing |
| HeadRepair.VerifyCountsDamage | src/eventic/sql/admin.py:223-275 | with a good log and arbitrary heads verify checks every row and counts exactly the aggregates whose head is missing or has another digest |
| DamagedLogs.VerifyOnAnyLog | src/eventic/sql/admin.py:223-275 | on any log and heads verify checks every row in scope and counts the rows that do not decode by their own window or decode to another digest, plus the aggregates whose head is missing or lacks the digest of the fold of their rows |
| HeadRepair.VerifyCleanIffUndamaged | docs/OPERATIONS.md:12 | verify is clean if and only if no aggregate in scope is so damaged |
| HeadRepair.VerifyMissesOrphans | src/eventic/sql/admin.py:257-268 | a head without log rows does not change the report |
| HeadRepair.VerifyMissesHeadContents | src/eventic/sql/admin.py:267-268 | replacing a head by any other with the same digest does not change the report |
| HeadRepair.AgreeingVerifiesClean | src/eventic/sql/admin.py:223-275 | agreeing tables have no mismatch |
| HeadRepair.SelectLatest | src/eventic/sql/statements.py:76-85 | the greatest logged revision of an aggregate |
| Admin.SqlAdmin.RebuildHeads | src/eventic/sql/admin.py:169-221 | the loop over emits writes the rebuilt heads and report, independent of chunk |
| Admin.SqlAdmin.Verify | src/eventic/sql/admin.py:223-275 | the chunked loops compute the verify report, independent of chunk |
| Admin.SqlAdmin.CountBadHeads | src/eventic/sql/admin.py:257-268 | counts the emits whose head is missing or differs |
| Admin.DecodeOwn | src/eventic/sql/admin.py:343-381 | decoding one row by its own window |
| Outbox.SelectClaim | src/eventic/sql/dialect.py:163-198 | earliest claimable rows first, up to the limit, none of a claimable earlier row left out |
| Outbox.ClaimTakesWhatIsReady | src/eventic/sql/dialect.py:163-198 | a claim takes only rows of its queue that are pending and due or whose lease has run out, leases and counts each, leaves none such while it has room, and prefers none that became available later |
| Outbox.RedriveRevives | src/eventic/sql/admin.py:316-340 | a redrive makes each dead intent of the subscription pending, untried, free of error and due at once, hence ready to be claimed, and touches no other |
| Outbox.SettleRemoves | src/eventic/sql/statements.py:117-146 | settling removes exactly the present intents reported delivered and creates none |
| Outbox.SettleFrame | src/eventic/sql/statements.py:117-146 | settling touches only the intents it names |
| RunDelivery.EveryRunConserves | src/eventic/worker.py:58-111 | in every run the created intents split exactly into present rows and rows removed by a delivered settlement, delivered only after the handler returned; leased exactly when leased_until is set; attempts are claims since creation or redrive |
| RunDelivery.CreatedAtMostOnce | src/eventic/sql/store.py:341-360 | a commit creates only (subscription, revision) pairs never created before |
| RunDelivery.InsertAddsFresh | src/eventic/sql/store.py:341-360 | staging adds exactly the requested intents, all new, each pending, untried and due at once on its own queue |
| RunDelivery.EveryTimelyRunExcludes | src/eventic/sql/dialect.py:163-198 | while workers settle within their leases, no two hold an unexpired lease on one intent, and the row names the holder's lease |
| RunDelivery.LateRetryFreesHeldIntent | src/eventic/sql/statements.py:125-135 | without that assumption a late retry makes a held intent claimable |
| Worker.DrainState.Deliver | src/eventic/worker.py:92-192 | appends one settlement and counts it once |
| Worker.OutboxWorker.DrainOnce | src/eventic/worker.py:58-69 | one claim, one settlement per claimed intent in order, one settle; the report counts the delivered, retried and dead-lettered settlements, which add up to the claimed |
| Worker.DrainSettles | src/eventic/worker.py:58-69 | a drain applies to a claimed intent its own settlement and no other |
| Worker.DrainOutcomes | src/eventic/worker.py:92-111 | after a drain an intent is gone exactly when it was claimed under a known subscription and its handler returned; under an unknown one it is dead with that on record; unclaimed it is untouched |
| Worker.DrainStep | src/eventic/worker.py:144-192 | the failing intent after one drain: one attempt more, and pending until its backoff's time or dead with the handler's error, all else as before |
| RunRetry.EveryRunBoundsFailingIntent | src/eventic/worker.py:144-192 | in every run, among any other events, a created intent whose handler always fails and whose workers always settle in time is present, delivered and claimed at most max(1, max_attempts) times; dead, pending and leased are each characterized exactly by the deliveries made and whether a worker holds it |
| RunRetry.StepBound | src/eventic/worker.py:58-111 | what every event keeps: absent and unheld, pending below the limit, dead at the limit, or held by one session with the row's attempts, lease and due settlement |
| RunLosses.EveryRunChargesLosses | src/eventic/worker.py:144-192 | in every run without redrives, whatever workers do, an always failing intent stays present and is claimed at most max(1, max_attempts) times plus once for every claim of it lost to a crash or an expired lease |
| RunLosses.StepCharged | src/eventic/sql/dialect.py:167-176 | what every event keeps: attempts made, plus those that can still come without a further loss, are covered by the limit and the losses |
| Worker.FailingIntentIsBounded | src/eventic/retry.py:28-38 | over drains alone, an always failing intent is never delivered more than max(1, max_attempts) times and is dead exactly when delivered that often |
| Worker.FailingIntentLimit | src/eventic/subscription.py:20-26 | the same with the limits spelled out: the policy's own max_attempts, at least one, and twelve tries spaced 1, 2, 4, ... seconds, at most an hour, where there is no policy |
| Worker.FailingIntentDies | src/eventic/retry.py:28-38 | over drains alone that claim it while pending, it is delivered exactly min(k, max(1, max_attempts)) times in k drains |
| Retry.DelaysGrowToCap | src/eventic/retry.py:28-38 | delays are non-decreasing and at most cap |
| Retry.RetriesBackOff | src/eventic/retry.py:28-38 | the first retry waits the base and each further one the factor times as long as the one before, both up to the cap; at max_attempts the intent dies |
| Retry.RetryIsDueLater | src/eventic/retry.py:28-38 | a retry is due between now and now + cap, and only below max_attempts |
| Race.OneWinner | src/eventic/sql/store.py:197-208 | when all racing writers have run, in any interleaving and whatever they write, exactly one row was appended; every other writer left nothing and got RevisionConflict, or was told of a replay, which only a writer of the winner's content can be |
| Race.DifferentContentsConflict | src/eventic/sql/store.py:251-257 | where contents differ pairwise, in payload, metadata, kind or versions, every loser gets RevisionConflict |
| RaceHeads.EveryInterleavingIsSteady | src/eventic/sql/store.py:213-381 | at every point of every interleaving, of any planned requests on an aggregate, the log represents a history extending the first, other heads stay at their tips, this head is the projection of one of its revisions, and one writer at most holds the lock |
| RaceHeads.HeadFallsIffStaleReplay | src/eventic/sql/store.py:236-250 | a step lowers the head if and only if it replays a revision below it for a writer that read no head, and it lowers it to that revision |
| RaceHeads.ExistingAggregateStaysAgreed | src/eventic/sql/store.py:221-250 | on an aggregate that existed before, log and head agree at every point of every interleaving |
| RaceHeads.StepSteady | src/eventic/sql/store.py:221-381 | what every step of such an interleaving keeps |
| RaceHeads.CommitSteady | src/eventic/sql/store.py:292-381 | a commit step fails without effect or extends the history by its own revision |
| Counterexamples.StaleReplayLowersHead | src/eventic/sql/store.py:236-250 | an interleaving in which a re-sent create takes the head from revision 1 back to 0 |
| Race.SoloRuns | src/eventic/sql/store.py:213-381 | a writer that appends undisturbed goes through the split steps to the atomic commit's tables and result |
| Race.LocksAreExclusive | src/eventic/sql/statements.py:31-38 | in no interleaving do two writers hold the head row |
| Race.RaceInvariant | src/eventic/sql/store.py:221-277 | at every point of every interleaving the race is untouched, or decided by one writer with all others lost or about to be |
| Race.LoserLoses | src/eventic/sql/store.py:221-257 | a loser that reaches its insert loses and changes nothing |
| Race.SoloIsAtomic | src/eventic/sql/store.py:213-381 | a writer running alone through the split steps is the atomic commit |
| Race.RaceNeverStuck | src/eventic/sql/statements.py:31-38 | whatever the requests, no interleaving is stuck while a writer is unfinished |
| Race.RaceIsBounded | src/eventic/sql/store.py:213-381 | no interleaving exceeds four steps per writer |
| RunEnvelopes.ReadPlanCommitRebuild | src/eventic/runtime.py:63-97 | get the tip, through the head row or by revision, plan a change on it, commit: it is accepted, and in every later world the rebuilt envelope is the one dispatched inline, with the planned state and metadata, the next revision and the keys that differ from what was read; the commit adds exactly one pending intent, due at once, for each outbox subscription to changes of the stream, on its queue, and the schema version's fingerprint if there was none |
| RunEnvelopes.CreateCommitRebuild | src/eventic/runtime.py:52-61 | a planned create of a new aggregate is accepted, and in every later world the rebuilt envelope is the one dispatched inline, with all keys changed; intents and fingerprint likewise, for the subscriptions to creates |
| RunEnvelopes.GetIsTipRead | src/eventic/runtime.py:81-97 | getting through the head row and through the last revision give the same state |
| RunEnvelopes.ReadBaseCommits | src/eventic/planning.py:60-103 | with idempotent adapters a tip planned at the declared versions reads to a base, and a change planned on it is accepted |
| RunEnvelopes.EnvelopesAgree | src/eventic/worker.py:113-142 | for a non-replayed request on the genuinely stored previous revision, the envelope rebuilt in any later world equals the inline one in every field |
| RunEnvelopes.DurableIsInline | src/eventic/runtime.py:136-176 | the same at any world whose history has the revision |
| RunEnvelopes.ReadBaseIsPrevious | src/eventic/runtime.py:81-97 | a base read at the declared versions is canonically what is stored |
| RunEnvelopes.PlannedEnvelopeExists | src/eventic/runtime.py:148-176 | with idempotent adapters the inline envelope exists and carries the request's identity, and the planned state, metadata and changed keys |
| RunEnvelopes.PlannedWriteSucceeds | src/eventic/planning.py:32-85 | in every reachable world a planned create or change of the last revision commits, unless its patch hides a change, and then it is EncodingError |
| Envelopes.Reconstruct | src/eventic/worker.py:113-142 | the worker's rebuild through the store's reads, errors included |
| Envelopes.RebuildOnAnyLog | src/eventic/worker.py:113-142 | an absent row cannot be delivered, and a revision whose predecessor is absent counts all its keys as changed |
| Envelopes.HydrateAppliesSteps | src/eventic/hydration.py:21-51 | a stored revision of any versions hydrates exactly if neither is newer than declared and its payload and metadata, each taken through its own steps, validate; it carries those values and its own place, time and digest |
| Envelopes.ValidServes | src/eventic/stream.py:61-66 | declarations valid as constructed upcast every stored version from 1 on to an end |
| Envelopes.Batch.CommitAll | src/eventic/runtime.py:206-214 | one transaction for all entries, of whatever streams; nothing is sent if it fails; otherwise envelopes in order |
| Envelopes.SendAll | src/eventic/runtime.py:210-214 | one envelope per entry in order, up to the first entry that does not hydrate or whose inline handlers raise |
| Envelopes.DispatchInline | src/eventic/dispatch.py:22-39 | every matching inline handler runs even after one raised; the call raises exactly if one did and failures are not only logged |
| Envelopes.ReachedExactly | src/eventic/dispatch.py:22-30 | a handler runs inline exactly if it subscribes to the stream and the kind, inline |
| Envelopes.ReachedInOrder | src/eventic/dispatch.py:22-30 | inline handlers run in declaration order, each once |
| Envelopes.RaisesExactly | src/eventic/dispatch.py:22-39 | dispatch raises exactly if failures are loud and some such handler raised |
| Envelopes.ReachedOrOwed | src/eventic/subscription.py:39-48 | every matching subscription is reached inline or owed an intent, and no more are served than there are |
| Planning.IntentsFor | src/eventic/planning.py:137-153 | the loop collects the intents owed |
| Planning.OwedExactly | src/eventic/planning.py:137-153 | an intent is owed exactly for each matching outbox subscription |
| Planning.OwedOnce | src/eventic/app.py:114-118 | distinct subscription ids owe distinct intents |
| Planning.CreatePlanOwes | src/eventic/planning.py:32-57 | a planned create carries exactly one intent request per outbox subscription to creates of its stream, with its id and queue, for revision 0 |
| Planning.ChangePlanOwes | src/eventic/planning.py:60-85 | a planned change likewise, for the revision after its base |
| Planning.CreatePlanIsAdmissible | src/eventic/planning.py:32-57 | a planned create carries its payload's digest, intents for its own revision, and meets the table constraints |
| Planning.ChangePlanIsAdmissible | src/eventic/planning.py:60-85 | a planned change does too, meeting the constraints exactly for a non-negative base |
| Planning.OwedIntentsInsert | src/eventic/sql/tables.py:93 | owed intents of a new revision violate no constraint |
| Evolution.ValidateChain | src/eventic/evolution.py:26-50 | accepts exactly the complete chains |
| Evolution.Upcast | src/eventic/evolution.py:53-70 | on every chain where the loop ends it returns what following the chain gives, raising at a gap |
| Evolution.ValidatedChainIsTotal | src/eventic/stream.py:61-66 | a chain validated from 1 covers every stored version: the loop ends without raising after n - v turns |
| Evolution.UpcastComposes | src/eventic/evolution.py:53-70 | v to n is v to m, then m to n |
| Evolution.StepwiseIffValidated | src/eventic/evolution.py:26-70 | the loop visits every version from..target once exactly when the chain is complete |
| Evolution.UnvalidatedLoopNeverEnds | src/eventic/evolution.py:61-70 | without validation a self-targeting upcaster makes the loop run forever |
| Evolution.UpcastStored | src/eventic/hydration.py:54-76 | refuse newer, pass current, upcast older, through the loop |
| Evolution.UpcastTreeIsTheLoop | src/eventic/hydration.py:54-76 | a tree that is not newer comes out as the upcast loop leaves it at whatever turn it is found over; a newer one is refused |
| Evolution.UpcastTreeAppliesSteps | src/eventic/hydration.py:54-76 | over a complete chain an older tree comes out with the steps between the versions applied in order |
| Evolution.ChainUpcasts | src/eventic/evolution.py:26-70 | on a complete chain the loop ends and applies steps from..target-1 in order |
| Evolution.EndsIffLoopEnds | src/eventic/evolution.py:61-70 | the condition under which upcasting is modelled is exactly that its loop ends |
| Evolution.UpcastTreeComposes | src/eventic/hydration.py:54-76 | only newer trees are refused, and reading through an intermediate version changes nothing |
| Secrets.SearchIsExact | src/eventic/canonical.py:35-83 | the search terminates on any graph and is true exactly when a SecretStr is declared on the model or reachable through the walked constructors |
| Secrets.WalkIsSound | src/eventic/canonical.py:61-68 | a success names a path of models, avoiding those seen, to a secret field |
| Secrets.WalkIsComplete | src/eventic/canonical.py:61-68 | every such path is found although models are not revisited |
| Secrets.SearchIsSound | src/eventic/canonical.py:35-44 | a model is accused only of a SecretStr below it, or of one it declares without its being a field |
| Secrets.SearchIsTotalIffEntered | src/eventic/canonical.py:35-44 | the search answers for every field anywhere, on all graphs of a vocabulary, if and only if it has no origin with type arguments but list, set, tuple and dict and no named type that is not a model |
| Secrets.EnteredSearchIsTotal | src/eventic/canonical.py:35-44 | below a model that keeps to what the walk enters, the search answers for every field anywhere |
| Secrets.NamedTypeHidesSecret | src/eventic/canonical.py:71-83 | a secret behind a type alias is missed |
| Secrets.UnwalkedGenericHidesSecret | src/eventic/canonical.py:81-83 | a SecretStr in any other generic, such as Sequence, is missed |
| Secrets.GenericSecretFoundIff | src/eventic/canonical.py:81-83 | a field that is a generic of SecretStr is found exactly for list, set, tuple and dict |

## Left out

- SQLAlchemy, drivers, pools, isolation settings, migrations, the CLI and error messages: only each transaction's row effects, constraints and error class are kept.
- PostgreSQL's JSONB normalization: documents are stored as given.
- Hand-made physical payloads that are not a document or a patch, and the ValueError paths they lead to: log rows are typed. A patch's tombstone list is a set.
- pydantic, json, sha256 and uuid5: adapters are functions with the idempotence hypothesis where needed; digests, revision ids and intent ids are injective constructors.
- `plan_change` merging fields into the base and validating the result: plans take the validated new state.
- `verify` of a canonical round trip at planning time and the JSON pointer it reports.
- The database clock and the workers' wall clock: one monotone clock, over reals.
- Text collation: keys are ordered by code points; aggregate ids are naturals.
- JSON path filters of `search`: an arbitrary predicate on the state.
- `list_intents`, `check`, `build_exclude_map`, error redaction, capability objects other than max_batch, the `dead_letter` flag, which nothing reads.
- Reopening with a window that is not a multiple of the earlier ones can make old rows unreadable (`LogReads.ReadSucceedsIffFullRowInWindow` says which); such reopenings are not in the runs.
- Head rows carry no kind: a head read hands up "change" for revision 0 too, as in the code.
- The emit callback of the streaming fold is modelled as the list of its calls; what handlers do is an outcome given from outside.
- The worker's loop takes "rebuilt and handled" as one outcome per intent; the rebuild itself is `Envelopes.Reconstruct`.
- Concurrency other than of commits on one aggregate: elsewhere each transaction is one atomic step.
- In `Race` a constraint that one request alone violates is checked at its insert, and its other errors at its commit; batches do not race.
- An upcast whose loop does not end: the source does not return, and Evolution and Envelopes say nothing of it. Declarations valid as constructed end on every version that planning stores (`Envelopes.ValidServes`).
- Typed extras (`__pydantic_extra__`): they are not fields of a model, and `contains_secret` does not look at them.
- Envelopes of replays (the result carries the new clock reading) and across a schema bump (the worker diffs the raw previous document).
- Worker.FailingIntentIsBounded: over one drain after another on an unchanging log; `RunRetry.EveryRunBoundsFailingIntent` is the statement over whole runs.
- Worker.FailingIntentDies: likewise over drains alone.
- RunRetry.EveryRunBoundsFailingIntent: assumes that sessions holding the intent neither crash nor outlive their lease, and that it is not redriven; `RunLosses.EveryRunChargesLosses` is the bound without the first two, and `Counterexamples.CrashesExceedTheBound` shows that it cannot be the same.
- "Dead is final" is not claimed: a late settlement can revive a dead row; see `Counterexamples.LateSettlementBreaksExclusion` for what a late settlement does.
- DeltaEncoding.DecodeInPlace: patches are typed, so the ValueError paths of a malformed physical payload are outside.
- Recovery.AccumulateInto: likewise; the ValueError that the source swallows for a malformed patch cannot arise.
- Worker.DrainState.Deliver: the outcome of rebuilding the envelope and running the handler is a parameter; the rebuild is `Envelopes.Reconstruct`.

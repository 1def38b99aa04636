# Verification of electrodb-migrations

A Dafny 4.11 model of the parts of `electrodb-migrations` on which data safety rests, with proofs. `dafny verify
dfyconfig.toml` checks the whole project. Four components are modelled.

**Data flows over one table** (`TableWrites`, `PhysicalTable`, `BatchWrite`, `BatchFlush`, `Migrations`, `Audit`, `ScanFlows`,
`TypeTable`, `Strategies`, `Outcomes`, `CustomReruns`, `FinalizeAmidWrites`). A DynamoDB table is a map from primary keys to records.
`BatchWriteItem` applies any part of a batch in any order and hands back the rest; a scan page ends anywhere; both choices are
made by assign-such-that, so every contract holds for every throttling and paging. What an operation is to leave at each key is
one function, `Migrations.Target`; every flow is proved to reach it on a normal return (`Reaches`) and to leave every key
untouched or as planned when it stops midway (`PartWay`). `Outcomes` says what that is in terms of the table and the user's code
alone; `Migrations.UserStops` and `Migrations.SchemaStops` say when user code or a schema stops an operation, and the table
remembers whether DynamoDB refused anything: a flow fails for one of these causes only (`Orchestrators.HasCause`).

**The lock protocol** (`LockRows`, `LockHistories`, `Preconditions`, `CaseOneSoundness`, `FailedRows`, `GuardCache`,
`GuardWindow`, `HoldTimes`, `Heartbeat`). Each state-mutation verb is one atomic guarded step. `LockHistories` proves safety for
any verbs, with any arguments, by anyone, in any order; `GuardWindow` adds the clock, the wait after acquiring and the guarded
processes' caches, and `HoldTimes` says in that system how long a run keeps its lock.

**The orchestrators** (`Orchestrators`, `LoadPending`, `ChainUnwind`, `RollbackRetry`, `RollbackOrder`): apply, batch, finalize and
rollback as sequences of verbs and flows, the unwinding of a batch head first, a failed rollback run again, and what one apply
keeps from being rolled back.

**Shapes** (`NamedLists`, `CanonicalJson`, `Canonicalizer`, `Projection`, `Drift`, `DriftLaws`, `DriftPatches`, `DriftListed`,
`Renames`, `LiteralTokens`, `LiteralValues`, `ObjectLiteral`, `LiteralText`, `FrozenPrinter`, `FrozenEmitter`, `FrozenReadBack`,
`FrozenLaws`, `FrozenExact`): drift classification, canonical form, and the frozen-source printer with a reader that takes its
output back. `Levenshtein` is the edit distance behind the entity-name suggestion.

## Assumptions

- One clock that never runs backwards; lock-row reads are linearizable; run ids are fresh where `GuardWindow` says so. A verb's
  own time stamp may be older than the instant it commits.
- Records of two versions of an entity never share a key, and a record's key is determined by its composite attributes
  (`Migrations.Placed`). `up` and `down` are pure and keep the domain key (`Migrations.WellFormed`), which makes `up` map
  distinct records to distinct keys. Nothing else writes the entity while a flow runs, except in
  `FinalizeAmidWrites`: finalize does not gate. A resolver is a function of its arguments; where a contract names the outcome of
  `custom`, the resolver answers with a record of the domain key its arguments have (`Migrations.ResolverKeepsKey`; every
  resolver that answers with a half of the row or with `down` of v2 does, `Migrations.PickingKeepsKey`).
- A scan page evaluates the next keys after the cursor in key order, keeps those stamped with entity and version, and returns no
  cursor only at the end. What `BatchWriteItem` does not return as unprocessed, it applied.
- A patch of a row that does not exist is refused (`src/runner/apply-flow.ts:120-126` relies on it). Nothing in `src` creates
  the lock row; histories may start with or without one.
- Times are integers; the source compares ISO-8601 strings of one fixed form. Strings are compared by character.

## Where a property has a condition

- `extractDomainKey` is injective on values without `&`; for unrestricted values it is injective exactly when the composite has
  at most one attribute (`Migrations.DomainKeyInjectiveIff`, with the colliding records in `Migrations.ClashCollides`).
- `quote` escapes `\` and `'` but no line terminators: a quoted string reads back exactly when it has none
  (`LiteralText.QuoteReadsExactly`).
- The guard window needs TTL + read latency <= wait and latency < wait, and that is exact (`GuardWindow.GuardWindowExact`). The
  configuration check TTL < wait is the case of instant reads.
- `clear` after a release commits exactly when nothing else is listed in flight (`LockHistories.ClearAfterRelease`); after a
  takeover the dead run's id is, and it is refused (`LockHistories.TakeoverKeepsInFlight`).
- A run is displaced only when its last stamp on the lock is older than the stale threshold, and then it can be
  (`HoldTimes.NotDisplaced`, `HoldTimes.TakeoverExactlyWhenStale`); heartbeats that arrive at most gap apart and lag late keep
  the lock when gap + lag <= threshold (`HoldTimes.HeartbeatGapsKeepTheLock`).
- The case-1 judgement on applied migrations stays right, now and wherever a history may lead, exactly when no step was a forced
  clear, or a finalize run taking over a stale lock, with an applied migration in the release set
  (`CaseOneSoundness.CaseOneSoundExactly`; both happen: `ForcedClearBreaksIt`, `FinalizeTakeoverBreaksIt`).
- Re-running an interrupted `custom` rollback converges exactly when the resolver, asked about each row with its own answer as
  v1, gives that answer again (`CustomReruns.CustomConvergesExactly`; one that does not: `CustomReruns.CustomNeedNotConverge`).
  The other operations always converge (`Migrations.Converges`).
- A case-1 rollback that failed midway is case 1 again exactly when the row says `failed`; on an applied row it is case 2
  (`RollbackRetry.RetriedCase`), and then the strategy asked for finishes what case 1 began only under the condition of
  `RollbackRetry.RetryConvergesExactly`. A projected retry drops the v1 originals whose v2 was already deleted.
- The lifecycle rule judges every `failed` row case 1. On a row patched to `failed` that is wrong, the application having run on
  the new version, exactly when the row said `finalized`, or `applied` with the migration no longer in the release set
  (`FailedRows.FailedJudgedRightlyExactly`; it takes a finalize run to patch `finalized` under its own lock).
- The printed literal reads back exactly when all names are property names as they stand and all strings have one line
  (`FrozenExact.ReadBackExactly`, with a failing name in `FrozenExact.HyphenatedNameFails`).
- A finished finalize leaves no v1 record except those the application wrote after the reap had come past their key
  (`FinalizeAmidWrites.ReapLeaves`).
- `onAbort` may fire after `stop` was called: exactly when the work in flight was one failure short and fails
  (`Heartbeat.AbortAfterStop`).

## Where code and documentation differ

The model follows the code.

- `src/safety/batch-write-retry.ts:80` reports exhaustion after `maxAttempts` attempts; the loop sends `maxAttempts` + 1 times.
- `src/runner/apply-batch.ts:65-77` argues that nothing can take the lock over between two migrations of a batch because release
  is not open to a stale takeover; a rollback-mode acquire is admitted from release (`src/state-mutations/acquire.ts:100-102`).
- `src/safety/heartbeat-scheduler.ts:27` says `onAbort` is called once when the scheduler aborts; it may also be called after
  `stop`.
- `src/scaffold/frozen-snapshot.ts:47-48` promises parseable source; that needs names that are property names unquoted and strings
  without line terminators.
- `src/rollback/orchestrator.ts:48-49` tells operators to re-run a failed rollback because it is idempotent. Within one case it is
  (but for `custom`); an applied migration whose case-1 rollback failed is retried as case 2.

## Model

| member | source | states |
|---|---|---|
| BatchWrite.WithBatchWriteRetry | src/safety/batch-write-retry.ts:52-84 | on a normal return the applied requests are the input as a multiset and written = scanned; on exhaustion the unprocessed count is what is still pending, after exactly 1 + maxAttempts sends; never more sends than that |
| BatchWrite.FlushInChunks | src/runner/batch-flush.ts:47-70 | the same conservation across chunks of 25; a chunk that fails ends the flush with part of the requests applied; at most six sends a chunk |
| TableWrites.OrderIrrelevant | src/safety/batch-write-retry.ts:66-76 | with one request per key the final table does not depend on throttling or retry order |
| TableWrites.PartOfRequests | src/safety/batch-write-retry.ts:66-76 | a part of such requests leaves every key as before or as after the whole |
| PhysicalTable.Table.BatchWriteItem | src/runner/batch-flush.ts:50-62 | the store contract: unprocessed requests come back, the others were applied, or the send throws after applying some |
| PhysicalTable.Table.Scan | src/runner/scan-pipeline.ts:56-62 | the scan contract: the stamped records of the next keys after the cursor, in key order, and a null cursor only at the end |
| BatchFlush.BatchFlushV2 | src/runner/batch-flush.ts:31-71 | all records are marshalled before any send: one outside the schema rejects the page and nothing was sent; on success all puts are in place, otherwise every key is untouched or as put |
| BatchFlush.BatchFlushRollback | src/rollback/batch-flush-rollback.ts:127-195 | mixed puts and deletes: on success the applied requests are the list as a multiset; it is rejected exactly when a put or a v2 delete is outside its schema, and then nothing was sent |
| BatchFlush.MarshalPuts | src/rollback/batch-flush-rollback.ts:68-74 | one record outside the schema rejects the whole list |
| BatchFlush.MarshalV2Deletes | src/rollback/batch-flush-rollback.ts:83-122 | v2 delete keys come out of put marshalling, so the v2 schema check applies to them |
| Migrations.DomainKeyInjective | src/rollback/identity-stamp.ts:76-86 | without `&` in the values, equal domain keys mean equal composite values, whatever the attribute names |
| Migrations.DomainKeyInjectiveIff | src/rollback/identity-stamp.ts:76-86 | for unrestricted values the key is injective exactly when the composite has at most one attribute |
| Migrations.ClashCollides | src/rollback/identity-stamp.ts:76-86 | for any longer composite, two records with different composite values and one domain key |
| Migrations.ReachesOne | src/rollback/orchestrator.ts:43-51 | the outcome of a complete run is one table |
| Migrations.Converges | src/rollback/orchestrator.ts:43-51 | any subset of the planned writes followed by a complete re-run ends where one uninterrupted run ends (apply, finalize, case 1, projected, fill-only, snapshot) |
| Migrations.InterruptedAgain | src/runner/apply-flow.ts:110-115 | a re-run that is itself interrupted is still part-way of the first run, so any number of interruptions converge |
| Migrations.PickingKeepsKey | src/rollback/strategies/custom.ts:100-115 | a resolver that answers with what it is given, or with `down` of v2, keeps the domain key |
| CustomReruns.CustomConvergesExactly | src/rollback/strategies/custom.ts:165-209 | every re-run of an interrupted custom rollback passes and ends as one uninterrupted run exactly when every row settles: the resolver, asked with its own answer as v1, gives it again |
| CustomReruns.RerunCustom | src/rollback/strategies/custom.ts:140-221 | the executor on a part-way table: where rows settle only a refused write stops it, and it ends as one uninterrupted run |
| CustomReruns.CustomInterruptedAgain | src/rollback/strategies/custom.ts:140-221 | and so for any number of interruptions |
| CustomReruns.CustomNeedNotConverge | src/rollback/strategies/custom.ts:165-209 | a resolver that keeps every key and passes every row, and whose re-runs do not converge on any table with a v2 record |
| Migrations.PlacedStays | src/rollback/identity-stamp.ts:76-86 | no operation, finished or not, puts a record under another record's key, in any version of any migration |
| Migrations.ApplyThenFinalize | src/runner/finalize-flow.ts:61-95 | apply then finalize leaves no v1 record, v2 is exactly the image of `up`, nothing else changes |
| Migrations.LifecycleRoundTrip | src/rollback/strategies/projected.ts:81-116 | if `down` undoes `up`, a case-3 projected rollback rebuilds exactly the v1 records whose `up` was not null |
| Migrations.CaseOneUndoesApply | src/rollback/case-1-flow.ts:105-127 | case 1 after an apply, finished or interrupted anywhere, gives back the table from before |
| ScanFlows.TransformPage | src/runner/apply-flow.ts:164-180 | the inner loop: collects what `up` returns, counts every record, throws exactly when `up` throws on some record of the page |
| ScanFlows.WorkShrinks | src/runner/scan-pipeline.ts:56-62 | keys ahead plus stamped keys ahead shrink with every page although apply inserts ahead of its own cursor: the scan terminates |
| ScanFlows.PageAdvances | src/runner/scan-pipeline.ts:56-62 | a page continues the list of stamped keys where the last one ended: none skipped, none repeated |
| ScanFlows.ApplyPage | src/runner/apply-flow.ts:164-190 | one page of apply, under its own writes |
| ScanFlows.ApplyScan | src/runner/apply-flow.ts:164-192 | yields each v1 record exactly once in key order while v2 items are inserted ahead of and behind the cursor; reaches the apply target with balanced counts; part-way on any failure, which has a throwing `up`, an image outside the v2 schema or a refused write for its cause |
| ScanFlows.MovedAreMapped | src/runner/apply-flow.ts:164-192 | the counts of an apply run in numbers of keys: scanned the v1 records, moved those `up` maps, skipped the rest |
| ScanFlows.DeletePage | src/runner/finalize-flow.ts:62-83 | the reap of one page, and what is gone when a delete fails |
| ScanFlows.FinalizeScan | src/runner/finalize-flow.ts:61-86 | visits each v1 record exactly once while deleting behind the cursor; afterwards no v1 record is left and nothing else changed, if nobody else writes; only a refused delete stops it |
| FinalizeAmidWrites.ReapLeaves | src/runner/finalize-flow.ts:52-83 | with application writes anywhere in between: what a finished reap leaves at a key since the application last wrote it; a v1 record is gone exactly when the reap had not come past it by then, everything else stays |
| FinalizeAmidWrites.UnwrittenV1Gone | src/runner/finalize-flow.ts:61-86 | a key the application does not write ends as finalize is to leave it |
| FinalizeAmidWrites.ReapBalanced | src/runner/finalize-flow.ts:62-86 | deletes counted as skipped included, the count check never fails |
| FinalizeAmidWrites.WriteBehindStays | src/runner/finalize-flow.ts:52-61 | from any table, a finished finalize with a v1 record the application inserted after the last page was read |
| ScanFlows.RollbackCase1 | src/rollback/case-1-flow.ts:105-130 | visits and deletes each v2 record exactly once; `down` is not called; deleted = scanned; rejected only for a v2 record outside its schema, otherwise only a refused write stops it |
| TypeTable.IndexV1 | src/rollback/type-table.ts:115-129 | phase 1 over any paging: the index holds exactly the v1 records, in scan order |
| TypeTable.StreamV2 | src/rollback/type-table.ts:131-152 | phase 2: one A or B row per v2 key, by membership in v1 |
| TypeTable.EmitC | src/rollback/type-table.ts:154-159 | phase 3: a C row for every v1 key no v2 record was seen for |
| TypeTable.ClassifyTypeTable | src/rollback/type-table.ts:110-160 | the generator yields exactly the rows of the type table, in order, for every paging |
| TypeTable.RowsInOrder | src/rollback/type-table.ts:110-160 | rows that have a v2 record come first, in the scan order of v2, then the others in that of v1 |
| TypeTable.RowsPartition | src/rollback/type-table.ts:110-160 | every domain key of v1 or v2 has exactly one row, typed by which versions hold it |
| Strategies.StrategyReaches | src/rollback/strategies/projected.ts:74-118 | executing what the rows ask for gives the strategy's table: v1 the down image of v2, or v1 plus fills, or v2 restricted to v1's keys, or the resolver's answers |
| Strategies.RejectsExactly | src/rollback/batch-flush-rollback.ts:68-122 | the lists a strategy flushes are within the schemas exactly when, over the table, no `down` image it puts and no v2 record it deletes is outside its own |
| Strategies.StopsExactly | src/rollback/strategies/projected.ts:84-89 | some row stops a strategy exactly when user code stops it at some domain key, said over the table: `down` throws on the v2 record (fill-only: where v1 has none), or the resolver throws or answers outside the v1 schema |
| Outcomes.ProjectedLeaves | src/rollback/strategies/projected.ts:81-116 | v1 is what `down` makes of v2; a key without v2 loses its v1 record, one whose `down` answers nothing keeps it |
| Outcomes.FillOnlyLeaves | src/rollback/strategies/fill-only.ts:53-97 | no v1 record is touched; a key without one gets what `down` makes of its v2 record |
| Outcomes.SnapshotLeaves | src/rollback/strategies/snapshot.ts:148-246 | a v2 record stays exactly where v1 has one |
| Outcomes.CustomLeaves | src/rollback/strategies/custom.ts:140-221 | v1 is what the resolver answers, asked with the kind and the halves the key has; the answer nothing takes it away |
| Outcomes.TouchesOnly | src/rollback/orchestrator.ts:235-263 | each operation changes keys of one version of its own entity only |
| Outcomes.KeyIsJoined | src/rollback/identity-stamp.ts:76-86 | the domain key is `name=value` for each composite attribute, in order, joined with `&` |
| Strategies.StrategyCountsBalanced | src/rollback/audit.ts:64-71 | no strategy can fail the final count check |
| Strategies.RequestsConsistent | src/rollback/batch-flush-rollback.ts:127-140 | a strategy never asks twice for one key |
| Strategies.ExecuteProjected | src/rollback/strategies/projected.ts:74-118 | the projected strategy: target reached, or part-way; it ends in the throw of user code exactly when `down` throws on some v2 record of the table, with one failed and nothing written; in a schema rejection exactly when otherwise some `down` image is outside the v1 schema; in a write failure only if a write was refused; moved and deleted count the puts and deletes applied |
| Strategies.ExecuteFillOnly | src/rollback/strategies/fill-only.ts:53-97 | fill-only: only v2-only keys are filled, everything else stays; it ends in the throw of user code exactly when `down` throws on a v2 record without a v1 one, in a schema rejection exactly when otherwise such an image is outside the v1 schema; moved counts the puts applied |
| Strategies.ExecuteSnapshot | src/rollback/strategies/snapshot.ts:148-246 | confirmed: v1 kept, v2 restricted to v1's keys, deleted counts the deletes applied, rejected exactly when a v2-only record is outside the v2 schema; declined: no write, everything counted skipped |
| Strategies.ExecuteCustom | src/rollback/strategies/custom.ts:140-221 | v1 becomes what the resolver answered per key; it ends in the throw of user code exactly when the resolver is missing, throws, or answers outside the v1 schema for some key of the table, and then nothing was written; otherwise only a refused write keeps it from its end |
| Strategies.WalkCustom | src/rollback/strategies/custom.ts:165-209 | dispatch of the resolver's answers: put, delete of the mirror, skip for type B, fail |
| LockRows.Store.Acquire | src/state-mutations/acquire.ts:74-177 | the conditional acquire: no lock state, free, stale, or for a rollback also release and failed; puts the run row; keeps other in-flight ids |
| LockRows.Store.AppendInFlight | src/state-mutations/append-in-flight.ts:24-32 | names the next migration and lists it in flight, only for the run that holds the lock |
| LockRows.Store.TransitionReleaseToApply | src/runner/transition-release-to-apply.ts:42-54 | release back to apply for the named migration of the holding run |
| LockRows.Store.TransitionToReleaseMode | src/state-mutations/transition.ts:54-95 | lock, migration and run row move together or not at all |
| LockRows.Store.MarkFailed | src/state-mutations/mark-failed.ts:37-76 | lock and run row fail together, only for the holding run |
| LockRows.Store.Heartbeat | src/state-mutations/heartbeat.ts:37-47 | refreshes the heartbeat of the holding run in an active state |
| LockRows.Store.Clear | src/state-mutations/clear.ts:37-65 | release to free, refused while anything is in flight |
| LockRows.Store.ClearFinalizeMode | src/state-mutations/clear-finalize.ts:32-51 | finalize to free, dropping in-flight and release ids |
| LockRows.Store.UnlockRead | src/state-mutations/unlock.ts:42-66 | what `unlock` goes for, by the state it read: nothing on an idle lock, markFailed of the lock's migration on an active one, the forced clear on a parked one |
| LockRows.Store.Unlock | src/state-mutations/unlock.ts:42-78 | by the rows: an idle lock and a lock of another run are left alone, the latter refused; under an active lock of the run, lock and run row are failed and the lock's migration goes from in flight to failed; a parked one is freed with its release, in-flight and failed ids kept |
| LockRows.Store.ForcedClear | src/state-mutations/unlock.ts:64-74 | the forced clear keeps release and in-flight ids |
| LockHistories.AlwaysCoherent | src/state-mutations/transition.ts:58-84 | in every history the lock is free exactly when no run is named; otherwise that run's row exists, completed under release, failed under failed |
| LockHistories.HolderCanFail | src/state-mutations/mark-failed.ts:41-65 | hence a holder's markFailed always commits |
| LockHistories.Fenced | src/state-mutations/mark-failed.ts:52-63 | once the lock stops naming a run, no lock-row verb it still sends changes any row, and its run row never changes again |
| LockHistories.UnfencedTouchOneRow | src/runner/apply-flow.ts:86-90 | row puts and status patches are not fenced: a displaced run can still change the row of the migration it names, and nothing else |
| HoldTimes.NotDisplaced | src/state-mutations/acquire.ts:74-105 | in every interleaving, as long as the last acquire, heartbeat or resume stamp of a run is at most the stale threshold behind the clock, the run keeps its lock and state until a verb in its own name ends the hold, and no acquire by anyone commits |
| HoldTimes.HeartbeatGapsKeepTheLock | src/lock/heartbeat.ts:24-28 | the same from the heartbeat schedule: gap between arrivals + lag of a stamp <= stale threshold |
| HoldTimes.TakeoverExactlyWhenStale | src/state-mutations/acquire.ts:74-105 | a new run can take the lock over, in any mode, exactly when that last stamp is older than the threshold |
| HoldTimes.HeartbeatIsLastStamp | src/state-mutations/heartbeat.ts:37-47 | the heartbeat on the row of a held lock is the stamp of the holder's last committed acquire, heartbeat or resume |
| LockHistories.ClearAfterRelease | src/state-mutations/clear.ts:42-52 | clear after release commits exactly when nothing but the released migration was in flight |
| LockHistories.TakeoverKeepsInFlight | src/state-mutations/acquire.ts:125 | after a takeover the dead run's migration is still in flight, and the new run's clear is refused |
| Preconditions.CheckPreconditions | src/rollback/preconditions.ts:95-228 | exactly when each refusal and each case is returned |
| Preconditions.DecisionLaw | src/rollback/preconditions.ts:95-228 | what a decision means for the rows: an accepted migration is the newest in force of its entity; past the release window no entity it reads has moved on in force; finalized refuses snapshot and fill-only |
| CaseOneSoundness.CaseOneSound | src/rollback/lifecycle-case.ts:31-63 | without a forced clear or a finalize takeover while an applied migration is in the release set, an applied migration is judged case 1 only if the lock has been gating at every instant since its release transition |
| CaseOneSoundness.CaseOneSoundExactly | src/rollback/lifecycle-case.ts:31-63 | the judgement is right in every harmless continuation from every state of a history exactly when the history has no such step |
| CaseOneSoundness.HarmlessMeansTight | src/rollback/lifecycle-case.ts:31-63 | no such step exactly when in no state of the history calls are admitted while an applied migration is in the release set |
| CaseOneSoundness.LeakMisleads | src/state-mutations/unlock.ts:67-72 | any state that admits calls with an applied migration in the release set leads, by an apply run for another migration, from an idle or a stale lock, to a wrong judgement |
| FailedRows.FailedJudgedRightlyExactly | src/rollback/lifecycle-case.ts:31-35 | a row patched to `failed`, and failed since, is judged case 1, and the application has run on the new version exactly when the row said `finalized`, or `applied` out of the release set |
| FailedRows.RowTells | src/cli/commands/unlock.ts:98-102 | of a migration that is not failed, the row and the release set tell whether the application has run on the new version in its current cycle |
| CaseOneSoundness.ReleasedMeansGuarded | src/state-mutations/transition.ts:61-67 | the invariant behind it, over whole histories |
| CaseOneSoundness.ForcedClearBreaksIt | src/state-mutations/unlock.ts:67-72 | a history with a forced clear in which the judgement is wrong |
| CaseOneSoundness.FinalizeTakeoverBreaksIt | src/state-mutations/acquire.ts:99-104 | a history with a finalize takeover in which the judgement is wrong |
| GuardCache.LockStateCache.Get | src/guard/cache.ts:119-149 | a cached answer was the true state less than the TTL plus its fetch's duration ago; callers share a fetch; without reset at most one is in flight |
| GuardCache.LockStateCache.Resolve | src/guard/cache.ts:129-148 | the value goes to every waiter and into the cache, stamped after the read |
| GuardCache.LockStateCache.Reject | src/guard/cache.ts:141-146 | a failed fetch yields no value and leaves nothing pending |
| GuardCache.RetryAfterFailure | src/guard/cache.ts:99-103 | the caller after a failed fetch starts a new one |
| GuardCache.ResetAllowsTwo | src/guard/cache.ts:150-157 | with reset two fetches can be in flight |
| GuardCache.GuardLaw | src/guard/wrap.ts:99-120 | the guard fails closed, decides writes alike in both modes, lets every read through in writes-only mode, and otherwise admits on an unset, free or finalize state only |
| GuardCache.BeginCall | src/guard/wrap.ts:99-120 | one call up to its fetch: bypassed calls and writes-only reads do not consult the cache; on a live entry the verdict is that of a true recent state |
| GuardCache.EndCall | src/guard/cache.ts:129-148 | a call whose fetch failed is rejected, otherwise it is forwarded exactly on unset, free and finalize |
| GuardWindow.SettledCallStays | src/guard/cache.ts:129-148 | while a run may write, neither the arrival nor the loss of a read lets a waiting call through, but for a read command in writes-only mode |
| GuardWindow.GuardHolds | src/runner/apply-flow.ts:51-67 | in every interleaving, whenever a run may write in apply or rollback, no process lets a guarded call through, whatever it can get for an answer: a live cached value, a read still due, the row as it is, or a failed read; one wait covers the whole batch |
| GuardWindow.InvAlways | src/guard/wrap.ts:99-120 | the invariant behind it, for every reachable state |
| GuardWindow.GuardWindowExact | src/config/invariants.ts:63-71 | TTL + latency <= wait and latency < wait is exactly when the guard holds in all runs |
| GuardWindow.LateReadGetsIn | src/guard/cache.ts:129-133 | a run in which a late read is still live when writing starts |
| GuardWindow.SlowReadGetsIn | src/guard/cache.ts:129-133 | a run in which a read is still under way when writing starts |
| GuardWindow.ConfigCheckForInstantReads | src/config/invariants.ts:63-71 | with instant reads the configuration check suffices |
| GuardWindow.ConfigCheckForSlowReads | src/config/invariants.ts:63-71 | with slower reads an accepted configuration is safe exactly when the latency fits the headroom |
| Heartbeat.Scheduler.Tick | src/safety/heartbeat-scheduler.ts:39-42 | a tick starts work unless stopped |
| Heartbeat.Scheduler.Settle | src/safety/heartbeat-scheduler.ts:42-57 | success resets the count and rearms; the failure that reaches the maximum stops and aborts |
| Heartbeat.AlwaysSound | src/safety/heartbeat-scheduler.ts:32-74 | the invariant over every order of timer, settle and stop events |
| Heartbeat.OneAtATime | src/safety/heartbeat-scheduler.ts:39-58 | at most one work is in flight, and an unstopped chain never dies |
| Heartbeat.AbortsExactlyAtThreshold | src/safety/heartbeat-scheduler.ts:45-51 | onAbort fires at most once, at the failure that completes exactly the threshold of consecutive failures |
| Heartbeat.NoneStartsAfter | src/safety/heartbeat-scheduler.ts:65-72 | no work starts after stop or abort |
| Heartbeat.AbortAfterStop | src/safety/heartbeat-scheduler.ts:45-51 | after stop, onAbort still fires exactly when the work in flight completes the series |
| Heartbeat.AbortAfterStopHappens | src/safety/heartbeat-scheduler.ts:65-72 | a run with the default of two in which it does |
| Orchestrators.AcquireLock | src/lock/acquire.ts:43-56 | conditional write and read-back: it succeeds exactly when there is a lock row, no run is at work under it with a beat at most the stale threshold old, and it is not parked, unless for a rollback; a refusal changes nothing |
| Orchestrators.ApplyFlowScanWrite | src/runner/apply-flow.ts:117-202 | row put pending, table to the apply target, rows handed over to release with the counts of what `up` mapped; on a throw the row stays pending |
| Orchestrators.ApplyFlow | src/runner/apply-flow.ts:51-100 | acquire to release, or lock failed and row failed; kept out exactly by a live holder or a parked lock, and then nothing changes; the row describes the migration; it gets done only if `up` throws on no v1 record and makes nothing outside the v2 schema, and otherwise fails for one of these causes or a refused write |
| Orchestrators.SelectPending | src/runner/apply-batch.ts:81-125 | which migrations a batch applies, and exactly when a named one is refused |
| Orchestrators.NextMigration | src/runner/apply-batch.ts:149-184 | one turn of the batch loop under the held lock; a failure leaves the row pending and the lock failed |
| Orchestrators.ApplyBatch | src/runner/apply-batch.ts:79-188 | all migrations applied in order under one run and the lock parked with all their ids, or a prefix applied, the next part-way and the lock failed, for a cause in that migration or a refused write; kept out exactly when there is something to apply and the lock is held |
| Orchestrators.FinalizeFlow | src/runner/finalize-flow.ts:39-111 | reap, row finalized, lock free; otherwise lock failed, and only when the row is missing or a delete was refused; kept out exactly by a live holder or a parked lock; the run row is left running |
| Orchestrators.ExecuteStrategy | src/rollback/orchestrator.ts:235-263 | dispatch to the strategy asked for |
| Orchestrators.Rollback | src/rollback/orchestrator.ts:160-317 | refused exactly as the preconditions decide, kept out exactly by a live holder, and then nothing changes; case 1 whatever the strategy, else the strategy's target; the row reverted with the strategy asked for and counts of what was applied, or lock failed; user code stops it exactly when it throws on some key of the table, before any write; beyond that it fails only for a record outside its schema or a refused write; the count check never fails |
| LoadPending.LoadPendingMigrations | src/runner/load-pending.ts:136-154 | the migrations on disk without a row or with a pending one, ordered by entity and starting version, ties as found |
| LoadPending.SequenceFacts | src/runner/load-pending.ts:145-151 | the list is ascending and a permutation of the pending ones |
| LoadPending.NextIsOldest | src/runner/load-pending.ts:172-177 | the next pending migration of an entity is the one from its oldest version |
| RollbackOrder.NewerKeepsOlder | src/rollback/preconditions.ts:119-143 | after a newer migration of the entity is applied, an older one is refused, with any strategy, and nothing changes |
| RollbackOrder.ReadEntityMovesOn | src/rollback/preconditions.ts:179-225 | once an entity a released migration reads has been migrated on, the reader's rollback is refused |
| ChainUnwind.BatchThenUnwind | src/runner/apply-batch.ts:129-185 | a batch of chained migrations rolled back head first before any release: every rollback is accepted as case 1 and acquires from release, and unless DynamoDB refuses a write the final table is the initial one, other entities included |
| ChainUnwind.UnwindChain | src/rollback/case-1-flow.ts:105-127 | the unwinding, migration by migration; if it stops, the table is part-way of one case-1 rollback |
| ChainUnwind.HeadJudgedCaseOne | src/rollback/preconditions.ts:119-143 | the last migration not yet reverted is always accepted as case 1 |
| ChainUnwind.HeadUndone | src/rollback/case-1-flow.ts:105-127 | case 1 of the head gives back the table from before the head |
| ChainUnwind.BatchLeavesChain | src/runner/apply-batch.ts:129-185 | after the batch the whole chain is in the release window |
| RollbackRetry.RetriedCase | src/rollback/lifecycle-case.ts:31-45 | after a failed case-1 rollback the migration is judged case 1 again exactly when its row says `failed` |
| RollbackRetry.RollbackTwice | src/rollback/orchestrator.ts:160-317 | a failed case-1 rollback and its retry: the retry always acquires; on a failed row it completes case 1, on an applied row it runs the strategy on what is left |
| RollbackRetry.RetryConvergesExactly | src/rollback/orchestrator.ts:43-51 | the retry as case 2 ends where case 1 was to end exactly under a condition on each key of the table it starts on, for each strategy |
| RollbackRetry.ProjectedRetry | src/rollback/strategies/projected.ts:81-116 | a projected retry keeps a v1 key exactly where v2 survived the first run |
| RollbackRetry.ProjectedRetryExact | src/rollback/strategies/projected.ts:81-116 | it gives v1 what a projected rollback from the start would exactly when that leaves nothing where v2 was deleted |
| RollbackRetry.OtherRetriesKeepV1 | src/rollback/strategies/fill-only.ts:53-97 | fill-only and snapshot retries keep every v1 original |
| NamedLists.LessExactly | src/snapshot/canonical.ts:14-25 | names are ordered by the first difference, a proper prefix first |
| CanonicalJson.CanonicalExact | src/snapshot/canonical.ts:14-25 | two values have one canonical form exactly when they differ in the order of names only |
| Canonicalizer.Canonicalize | src/snapshot/canonical.ts:14-25 | the recursive loop over sorted names computes the canonical form |
| Drift.CompareAttribute | src/drift/classify.ts:310-322 | lists exactly the allowlisted fields that are not deeply equal |
| Drift.CompareIndex | src/drift/classify.ts:329-341 | the same over the dotted index fields |
| Drift.FindKeyRename | src/drift/classify.ts:364-389 | the rename heuristic |
| Drift.Partition | src/drift/classify.ts:188-203 | added, removed and common names, sorted |
| Drift.ClassifyDrift | src/drift/classify.ts:140-159 | the ordered list: greenfield, removal, or the seven sections of the diff, as `DriftListed.ListExact` determines it |
| DriftListed.ListedExactly | src/drift/classify.ts:140-287 | which records are in the list, field by field: an added attribute with its type, its required flag and the same flag as warning, a removed one with its type, an added index with its pk and sk composites, a removed entity with name and service, the changes and renames |
| DriftListed.ListExact | src/drift/classify.ts:130-139 | the list is the one list of those records in order of kind, then name |
| DriftListed.InOrder | src/drift/classify.ts:130-139 | strictly ascending by kind and name |
| DriftLaws.DriftExact | src/drift/classify.ts:184-287 | with equal entity and service there is no drift exactly when the projections have one canonical form |
| DriftLaws.AttributeChangesExact | src/drift/classify.ts:310-322 | the attribute allowlist covers the attribute: no change listed exactly when one canonical form |
| DriftLaws.IndexChangesExact | src/drift/classify.ts:329-356 | the fourteen dotted fields cover the index, absent sort keys included |
| DriftLaws.DriftSwap | src/drift/classify.ts:184-287 | swapping the arguments swaps added with removed and reads every change and rename backwards |
| DriftLaws.NullIsEmpty | src/drift/classify.ts:163-182 | a null previous projection gives the list of an empty one |
| DriftPatches.ListIsPatch | src/drift/classify.ts:222-287 | over the list: the changed record, or rename, under each common name takes the old entry to the new one; a common name without one has one canonical form in both; changes name common names only |
| DriftPatches.RenameIsItsChange | src/drift/classify.ts:258-287 | a rename record stands for one change that patches the index |
| DriftLaws.RenameIsOneName | src/drift/classify.ts:364-389 | a rename is one name replaced in one composite |
| Renames.RenameExactly | src/drift/classify.ts:364-389 | a key is reported renamed exactly when replacing one name of that composite makes the old index the new one |
| LiteralText.QuoteReadsExactly | src/scaffold/frozen-snapshot.ts:226-228 | a quoted string reads back exactly when it has no line terminator |
| LiteralText.FlatReads | src/scaffold/frozen-snapshot.ts:159-175 | every one-line value and inline object reads back as itself |
| FrozenEmitter.RenderFrozenEntitySource | src/scaffold/frozen-snapshot.ts:61-88 | the emitters push exactly the lines the printer is specified by |
| FrozenEmitter.EmitAttributeBody | src/scaffold/frozen-snapshot.ts:118-153 | the same for an attribute body at any nesting level |
| FrozenEmitter.InlineAttributeText | src/scaffold/frozen-snapshot.ts:159-175 | the same for the one-line form |
| FrozenPrinter.LayoutExactly | src/scaffold/frozen-snapshot.ts:101-112 | an attribute is on one line exactly when nothing is nested in it and the line has at most 80 characters |
| FrozenReadBack.OneEntryReads | src/scaffold/frozen-snapshot.ts:101-112 | an attribute entry reads as its property whichever layout is chosen |
| FrozenLaws.ReadBack | src/scaffold/frozen-snapshot.ts:61-88 | reading the literal of a rendered source gives the identity, version and shape it was printed from |
| FrozenExact.ReadBackExactly | src/scaffold/frozen-snapshot.ts:47-88 | it does exactly when all names are property names unquoted, that is identifier names or decimal integers, and all strings have one line |
| FrozenExact.ReadIsReadable | src/scaffold/frozen-snapshot.ts:226-228 | no text whatever reads as a value with another kind of name or string |
| FrozenExact.HyphenatedNameFails | src/scaffold/frozen-snapshot.ts:101-112 | an attribute name that keeps the source from reading back |
| FrozenLaws.RenderExact | src/scaffold/frozen-snapshot.ts:10-19 | for one entity, two sources are the same text exactly when version and canonical form are the same: insertion order does not show |
| Levenshtein.TwoRow | src/cli/commands/create.ts:47-64 | the two-row loop computes the recursive edit distance |
| Levenshtein.ShortestScript | src/cli/commands/create.ts:41-46 | that distance is the length of a shortest edit script |
| Levenshtein.Triangle | src/cli/commands/create.ts:41-46 | it satisfies the triangle inequality |
| Levenshtein.Symmetric | src/cli/commands/create.ts:41-46 | it is symmetric |
| Levenshtein.ZeroOnlyOnEqual | src/cli/commands/create.ts:41-46 | it is zero only between equal strings |

## Left out

- Interleaving inside an orchestrator: `Orchestrators` and `ChainUnwind` run one runner at a time; interleavings are the subject of `LockHistories`, `CaseOneSoundness` and `GuardWindow`, where data writes are a state in which a run may write.
- Heartbeats inside the orchestrators: they only refresh a time stamp; their machine is in `Heartbeat`, their verb in `LockRows`, and the abort's `markFailed` is covered by `LockHistories.HolderCanFail` and `LockHistories.Fenced`.
- ScanFlows.DeletePage: a delete that fails because the item is gone counts as failed here; the source counts some such errors as skipped, by the name of an SDK error.
- BatchFlush.BatchFlushRollback: DynamoDB rejects a batch that names one key twice; the model applies such a batch in some order. It can only arise when a resolver answers with another key's record.
- Strategies.ExecuteCustom: the outcome is stated for resolvers that answer with a record of the domain key their arguments have; counts and aborts for every resolver.
- ScanFlows.FinalizeScan: application writes during the reap are in `FinalizeAmidWrites`, as steps, not in this loop; there no bound on them is assumed and so no end of the scan is promised. `Orchestrators.FinalizeFlow` runs without them.
- Generator laziness: the classifier is run to its end before a strategy starts. The strategies write only after consuming it, so the tables agree; after a throw of user code the scanned count may differ.
- Run ids of an acquire are not checked for reuse by the code; `GuardWindow` assumes them fresh, the other histories do not.
- `checkPreconditions` reads the migration rows and the lock row one after the other; here both come from one state.
- Backoff delays and retry callbacks: timing only.
- `JSON.stringify` and SHA-256: canonical forms are compared as values; numbers in a projection are natural numbers, printed in decimal.
- ObjectLiteral.FieldText: the reader rejects escapes other than `\\` and `\'`, quoted property names, numeric ones other than decimal integers up to 2^53 - 1, and `__proto__`. The characters of identifiers beyond ASCII are two sets left open (`LiteralTokens.UNICODE_START`, `LiteralTokens.UNICODE_CONTINUE`): what is proved holds for the Unicode tables whatever they are.
- FrozenPrinter.HEADER: the comment and import lines before the literal are constants; nothing is proved about them.
- FrozenLaws.ReadBack: reads the literal, not the line `export const <entity> = new Entity(` before it, which also needs an entity name that is an identifier.
- `FrozenPrinter` measures the 80-column limit and `NamedLists` orders strings by character; JavaScript counts UTF-16 code units.
- The walkers that project an ElectroDB model object to the allowlist, and `serializeCause`: field-by-field copies.
- The timestamps, holder names and error maps written beside the modelled fields of the migration and run rows.
- The `ctx` that `up` and `down` receive and its freshness check, and the number of `reads` blockers reported: `up` and `down` are functions of the record.
- `_migrations.status` patches by the unlock command: in `LockHistories` as arbitrary patches.
- AWS SDK, ElectroDB, configuration loading, snapshot files, command-line interface, prompts and history formatting.

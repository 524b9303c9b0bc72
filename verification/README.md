# Verification of the sluice write-behind protocol

Sluice is a write-behind buffer. Writes land in a Redis journal and are acknowledged; one goroutine per band
drains them into a datastore; what fails for good goes to a dead-letter queue (DLQ). This project models the
state the guarantees rest on and proves them for every interleaving, every input and every run.

`dafny verify dfyconfig.toml` checks everything.

## What is modelled

| file | contents |
|---|---|
| `Redis.dfy` | one key's share of Redis (payload hash, dirty and DLQ scores, index queue score) and the six Lua scripts as functions on it |
| `Journal.dfy` | the journal as a mutable object; each script body command by command; pipelines that retry after NOSCRIPT |
| `World.dfy` | one key seen by writers, flusher, readers, DLQ processor and degraded writers at once; one event per atomic step |
| `Core.dfy` | what every event keeps true whatever races there are, and exactly when a degraded write can be overtaken |
| `Invariant.dfy` | what every event keeps true in a clean run |
| `Protocol.dfy` | runs over all keys, and the theorems about every reachable state |
| `Races.dfy` | degraded writes, DLQ upserts and late flushes over whole runs: when a write is overtaken, when the record goes back, and how a key recovers |
| `Limits.dfy` | concrete runs in which a plausible claim is false of the code |
| `Engine.dfy` | one flush cycle: drain, write contract, BulkWrite, the fate of every record |
| `Dlq.dfy` | the DLQ strategies, their rounds, and the loop over a band |
| `Refinement.dfy` | a flush and a DLQ round are, key by key, steps of the protocol, so the theorems apply to them |
| `Batcher.dfy` | pipelined writes, and the channel, buffer and stop protocol |
| `Index.dfy` | secondary indexes, pruning and Query against a scan |
| `LocalJournal.dfy`, `Subscriber.dfy` | the sharded L1 cache against a recency list, and the replayable stream that feeds it |
| `Sink.dfy`, `Postgres.dfy`, `DynamoDb.dfy` | what a sink owes the flush engine, and two sinks that keep it |
| `Bands.dfy`, `Optional.dfy` | FNV-1a band hashing, ordered reads of a sorted set; stock datatypes |

How the protocol's events (`World.dfy`) correspond to the code:

| event | code |
|---|---|
| `Plain`, `Dedup` | the write script (`internal/shield/types.go:187`), the dedup write script (`internal/shield/types.go:312`) |
| `Drain`, `SinkApply`, `Resolve` | `internal/shield/shield.go:497`, `internal/engine/engine.go:280`, `internal/engine/engine.go:284-330` |
| `RunCommit`, `RunDeadLetter`, `Abandon` | `internal/shield/types.go:208`, `internal/shield/types.go:232`, an early return of `flushBand` or a crash |
| `SourceRead`, `RunHydrate`, `Refresh` | `sluice.go:417`, `internal/shield/types.go:277`, `internal/shield/types.go:251` |
| `DlqDrain`, `DlqApply`, `DlqDelete`, `DlqPurge` | `internal/shield/shield.go:686`, `internal/dlq/dlq.go:196`, `internal/shield/shield.go:765`, `internal/shield/shield.go:755` |
| `Probe`, `DirectWrite` | `sluice.go:1137`, `sluice.go:1154` |
| `Expire` | Redis removes a payload hash whose TTL has run out |

The history variables of `World` (accepted writes, which of them the journal and the store hold) are read by no
script. The flags in `Hazards` record that something happened at least once in a run. `Clean` means that none of
three races has happened: a degraded write while a write accepted since its probe was pending (`overtook`), a DLQ
deletion of a dirty key's hash or of a rewritten and unstored payload (`clobbered`; on a dirty key it restarts the
sequence, so it counts even if the store has the payload already), a DLQ upsert of an older write than the store holds
or of a later one than a batch that the sink may still apply (`misfired`). Theorems take only the flags they need;
`Races.dfy` characterises the races themselves by what happened in the run, without flags, and shows that a later write
that is flushed undisturbed restores all promises. `Limits.dfy` has a run for every flag:
`WriteAfterProbeOvertakes` (`overtook`), `RewriteDuringDlqUpsertIsLost` (`clobbered`), `StaleDlqUpsertGoesBack`
(`misfired`), `LateHydrationLies` (`late`), `DegradedWriteIsHiddenByJournal` (`hidden`), `DlqUpsertOutrunsJournal`
(`outran`), `RefilledDeadLetterOverwrites` (`revived`), `EmptyPayloadIsLost` (`empty`), `PlainWriteFoolsDedup`
(`mixed`). No step is forbidden: all schedules, crashes and retries are in the model.

## Assumptions

- One flusher per band (`internal/engine/engine.go:182-204`) and one DLQ processor at a time.
- Distinct correlation keys name distinct records, and a sink applies nothing after BulkWrite has returned. On a
  top-level error any subset of the batch may have been applied.
- A script, and a pipelined read such as `ReadJournal` or the HMGETs of a drain, is one atomic step per key.
- The content hash has no collisions. Time is in whole milliseconds and never runs backwards.
- Index keys are tuples; their printed form is injective only when fields hold no ':'.

## Findings

Where the code and its documentation disagree, or an obvious claim is false, the model follows the code.

- `Cache.Put` rejects equal versions, although its inner comment and the changelog say that equal versions apply
  (`internal/localjournal/localjournal.go:182-189`): `Subscriber.EqualVersionsCommuteIff`.
- An empty payload is acknowledged and then lost (`internal/shield/shield.go:551`): `Limits.EmptyPayloadIsLost`.
- `CommitDLQKeys` deletes a rewritten, dirty payload, and with it the sequence, so a batch in flight can commit a
  payload it never flushed, exactly when as many writes have followed as its sequence says:
  `Limits.DlqDeleteLosesLatestIff`, `Limits.SequenceRestartsAfterDlqDelete`, `Limits.RestartedSequenceMatchesIff`.
- A DLQ upsert moves the record back, exactly when a later write was the last one stored since its drain:
  `Limits.StaleDlqUpsertGoesBack`, `Races.UpsertGoesBackIff`.
- A degraded write can be overtaken, exactly when something older that shows another payload is pending or on its way:
  `Limits.WriteAfterProbeOvertakes`, `Core.DegradedWriteIsOvertakenIff`.
- A plain write leaves an old content hash that a later dedup write trusts: `Limits.PlainWriteFoolsDedup`.
- A degraded write is hidden by the journal's older entry, exactly when there is a different one:
  `Limits.DegradedWriteIsHiddenByJournal`, `Races.DegradedWriteIsReadIff`. With content dedup, a rewrite of that entry is
  then skipped for good: `Limits.DedupAfterDegradedWriteIsKeptIff`.
- An old record hydrated into the hash of a key that is still listed in the DLQ is replayed from there:
  `Limits.RefilledDeadLetterOverwrites`, `Limits.HydrationRevivesIff`.
- `StartBatcher` after `StopBatcher` strands the next writer: `Batcher.RestartStrands`.
- A field that turns from a number into a string keeps its range member: `Index.UpdateIsExactIff`.
- A foreign key in a sink's errors can be dead-lettered: `Engine.ForeignKeyIsDeadLetteredIff`.
- An Upsert round in which the contract accepts nothing, or a usable reply names everything, is drained again, for
  ever: `Dlq.UpsertRoundIsStuckIff`. (A reply that cannot be used ends the loop with an error.)
- A key mutator that stays inside the batch loses acknowledged records: `Dlq.ReinsertedPayloadSurvivesIff`.
- Conflict values that contain the separator, or that differ but print alike (the number 1 and the text 1, the text
  <nil> and an absent column), make two PostgreSQL rows look like duplicates, and one is refused for good:
  `Postgres.SeparatorMakesFalseDuplicates`, `Postgres.PrintAlikeMakesFalseDuplicates`.
- In DynamoDB a partition key that contains the separator does the same: `DynamoDb.SeparatorMakesFalseDuplicates`.
- A DynamoDB item whose key prints differently from its marshalled form is, when unprocessed, reported under another
  model's key if one prints like that, and is then lost: `DynamoDb.AttributionIsExactIff`,
  `DynamoDb.SingleAnswerIsHonestIff`, `DynamoDb.UnfaithfulKeyIsMisreported`.

## Model

| member | source | states |
|---|---|---|
| Protocol.NoAcceptedWriteIsLost | internal/engine/engine.go:216-348 | in every reachable state the latest accepted non-empty payload is dirty and persistent in the journal, or in the journal and dead-lettered, or in the store, or was given up on purpose |
| Protocol.NoAcknowledgedWriteIsLost | internal/shield/types.go:187-260 | the same for the last acknowledgement, including those the dedup script gives to skipped writes, unless a plain write left a foreign hash or a degraded write went behind another journal entry |
| Protocol.UnflushedNeverExpires | internal/shield/types.go:172-192 | unless the DLQ processor deleted a hash it should have kept, a dirty key has a payload without a TTL, so no expiry step is possible at any time; in a clean run it is the latest |
| Protocol.SequenceCheckIsSound | internal/shield/types.go:208-241 | unless the DLQ processor deleted a hash it should have kept, equality of the stored and the drained sequence means that the visible payload is the drained one; in a clean run it is the latest, and at commit the store holds it |
| Protocol.StoreNeverGoesBack | internal/engine/engine.go:216-348 | between any two states of a clean run the record moves only to later writes; Races.UpsertGoesBackIff and Races.FlushGoesBackIff say exactly when it does otherwise |
| Protocol.HydrationNeverLies | internal/shield/types.go:262-291 | a hydration whose key kept its payload writes the current record, and one that is skipped returns an entry at least as new as the record |
| Protocol.FreshReadNeverGoesBack | sluice.go:473-521 | a fresh read that starts after an accepted write returns that write or a later one, whatever flushes, failures, DLQ upserts, degraded writes, expiries and timely hydrations happen between its journal read and its Source read |
| Races.NothingOlderIsPendingAfterProbe | internal/shield/shield.go:1082-1108 | once the probe finds nothing pending, nothing that could still reach the store stems from a write before it, as long as no unflushed payload is deleted and no dead letter refilled |
| Races.DegradedWriteIsNeverOvertaken | sluice.go:1134-1164 | if nothing showing another payload was pending or on its way, the record is from then on the degraded write or a later one, whatever flushes, DLQ upserts and other degraded writes interleave, as long as no unflushed payload is deleted and no dead letter refilled |
| Races.ProbeRulesOutOlder | sluice.go:1134-1148 | a probe that finds nothing establishes that condition, if no write is accepted before the degraded write |
| Core.DegradedWriteIsOvertakenIff | sluice.go:1134-1164 | some continuation makes the record an older one with another payload if and only if, at the degraded write, such a payload is dirty, dead-lettered, with the sink or in the DLQ processor's hands |
| Core.StepKeepsHarmless | internal/shield/shield.go:1082-1108 | no event brings an older, different payload back into reach of the store |
| Races.DegradedWriteIsReadIff | sluice.go:481-521 | a fresh read returns a degraded write if and only if the journal showed nothing or that payload; otherwise every fresh read returns the older entry until a journal write, an expiry or a DLQ deletion |
| Races.PromptUpsertOutrunsNothing | internal/dlq/dlq.go:166-239 | unless the key's payload expired or was deleted since it was drained, a fresh read right after a DLQ upsert returns the upserted write or a later one |
| Races.UpsertGoesBackIff | internal/dlq/dlq.go:166-239 | a DLQ upsert moves the record back if and only if the last thing to write it since the drain was a later write |
| Races.FlushGoesBackIff | internal/engine/engine.go:224-280 | the sink moves the record back if and only if the last thing to write it since the batch was drained was a later write |
| Races.PromisesAreRestored | internal/engine/engine.go:216-348 | from any state that satisfies the invariant but for the flags, and until the next race, the latest accepted write is dirty, dead-lettered, stored or given up on purpose |
| Races.FlushRestores | internal/engine/engine.go:216-348 | whatever races there were, a write flushed undisturbed leads to such a state |
| Protocol.CoalescingPreservesMeaning | internal/engine/engine.go:206-348 | when no key is dirty or dead-lettered, the store equals applying all accepted writes one by one in journal order |
| Protocol.ReachableInv | internal/shield/types.go:172-335 | every reachable state satisfies the invariant for every key, and each key's history is its part of the log |
| Protocol.ReachableSound | internal/shield/types.go:172-335 | every reachable state satisfies what Core proves, whatever races there were |
| World.PossibleSteps | internal/engine/engine.go:182-348 | which steps of which goroutine are possible in which state, event by event |
| Invariant.StepKeepsInv | internal/shield/types.go:172-335 | each event of each goroutine keeps the whole invariant |
| Invariant.StepAdvances | internal/engine/engine.go:359-396 | each event only extends the history and, in a clean run, moves the record only to later writes |
| Core.StepKeepsOnlyNewerPending | internal/shield/shield.go:1082-1108 | no event brings a write from before a probe back into anything that can reach the store, as long as no unflushed payload was deleted and it refills no dead letter |
| Core.StepKeepsSound | internal/shield/types.go:172-335 | each event keeps the bookkeeping true, and, while no unflushed payload was deleted, dirty keys persistent and the sequence check sound |
| Redis.RefreshesOnlyExtend | internal/shield/types.go:243-291 | extendTTL, a skipped dedup write and a skipped hydration change nothing but a TTL, which they never shorten and never give to a persistent payload |
| Redis.WriteOutcome | internal/shield/types.go:187-192 | a write puts payload and time into the hash, counts the sequence up by one, removes the TTL and makes the key dirty at that time; hash, failure note, DLQ entry and index queue stay |
| Redis.DedupOutcome | internal/shield/types.go:312-335 | other content is written together with its hash; the same content changes no field, no membership and no queue |
| Redis.CommitOutcome | internal/shield/types.go:208-221 | a changed sequence changes nothing; a matching one clears the dirty entry, keeps every field, and with a positive TTL gives the hash exactly that long, and the index queue the given time if the key is indexed |
| Redis.DeadLetterOutcome | internal/shield/types.go:232-241 | a changed sequence changes nothing; a matching one moves the key to the DLQ at the failure time, keeps every field, notes reason and time, and gives the hash seven days |
| Redis.RefreshOutcome | internal/shield/types.go:251-291 | in all three refreshes a life shorter than the TTL becomes the TTL and any other stays; only extendTTL tells the index queue, if the key is indexed |
| Redis.HydrateOutcome | internal/shield/types.go:277-291 | a missing payload is filled with the given time and TTL, the content hash dropped, the sequence kept, and the key not made dirty |
| Core.CommittedEntryLivesExactly | internal/shield/types.go:213-220 | after a commit an expiry step is possible exactly once the post-flush TTL is over |
| Core.DeadLetterLivesExactly | internal/shield/types.go:237-240 | after a dead-lettering, exactly once seven days are over |
| Redis.SkippedDuplicateIsStoredIff | internal/shield/types.go:321-328 | a skipped duplicate is in the journal if and only if the stored hash describes the stored payload |
| Redis.PlainWriteKeepsHashHonestIff | internal/shield/types.go:187-192 | after a plain write every duplicate the dedup script skips is stored if and only if there was no hash or the write rewrote the same content |
| Limits.EmptyPayloadIsLost | internal/shield/shield.go:549-554 | on any key, an acknowledged empty payload ends up neither in the journal, nor queued, nor in the store |
| Limits.DlqDeleteLosesLatestIff | internal/shield/shield.go:765-784 | the deletion after a DLQ upsert loses the latest write if and only if, just before, the journal held it and the store held something else; it takes a dirty key or a journal that holds another write than the one drained |
| Limits.RewriteDuringDlqUpsertIsLost | internal/dlq/dlq.go:166-239 | a run in which a rewrite during a DLQ upsert is acknowledged and gone |
| Limits.SequenceRestartsAfterDlqDelete | internal/shield/types.go:189 | a run in which the restarted sequence lets a batch commit a payload it never flushed, and gives it a TTL |
| Limits.RestartedSequenceMatchesIff | internal/shield/types.go:187-221 | on a deleted hash, a batch drained at sequence s commits what was written since if and only if there were exactly s writes |
| Limits.StaleDlqUpsertGoesBack | internal/dlq/dlq.go:196-234 | a flush between DLQ drain and DLQ upsert is undone by the upsert; Races.UpsertGoesBackIff gives the exact condition |
| Limits.LateHydrationLies | internal/shield/types.go:277-291 | a hydration slower than the post-flush TTL puts an older record into the journal |
| Limits.DegradedWriteIsHiddenByJournal | sluice.go:1148-1163 | a run in which a degraded write is stored but readers keep seeing the older journal entry; Races.DegradedWriteIsReadIff gives the exact condition |
| Limits.HydrationRevivesIff | internal/shield/types.go:277-291 | a hydration brings a write from before a probe back into reach of the store if and only if it fills a visible payload from before the probe into a key listed in the DLQ |
| Limits.DeadLetterExpires | internal/shield/types.go:237-240 | a run to a key whose dead letter has expired after a degraded write, with an older hydration still under way |
| Limits.RefilledDeadLetterOverwrites | internal/shield/shield.go:720-760 | that hydration, a DLQ drain and an upsert then overwrite the degraded write with the older record |
| Limits.DlqUpsertIsReadIff | internal/dlq/dlq.go:166-239 | after a DLQ upsert a fresh read returns the new record if and only if the journal shows nothing or just that payload |
| Limits.DlqUpsertOutrunsJournal | internal/shield/types.go:277-291 | a dead letter that expired and was refilled between drain and upsert leaves a journal that is older than the store, and hydrations return it |
| Limits.DedupAfterDegradedWriteIsLost | internal/shield/types.go:321-328 | a run in which a dedup write after a degraded write is acknowledged, skipped and never stored |
| Limits.DedupAfterDegradedWriteIsKeptIff | internal/shield/types.go:321-328 | after a degraded write of d on a key with nothing pending, a dedup write of q is dirty or stored if and only if the stored hash is not q's or q is d |
| Limits.WriteAfterProbeOvertakes | sluice.go:1134-1164 | a write accepted between probe and degraded write, and still pending, overtakes it; Core.DegradedWriteIsOvertakenIff gives the exact condition |
| Limits.PlainWriteFoolsDedup | internal/shield/types.go:187-192 | a run dedup, plain, dedup in which the last acknowledged payload is nowhere |
| Limits.DeadLetterExpiryGoesBack | internal/shield/types.go:237-240 | a dead-lettered write whose TTL runs out is read as if it had never been accepted |
| Journal.Journal.AtomicWrite | internal/shield/types.go:187-192 | HSET, HINCRBY, PERSIST and ZADD together make the Written slot and touch no other key |
| Journal.Journal.AtomicDedupWrite | internal/shield/types.go:312-335 | the branches of the dedup script give the DedupWrite slot; the reply says whether it wrote |
| Journal.Journal.CommitFlushed | internal/shield/types.go:208-221 | the conditional commit: nothing on a changed sequence, otherwise clean, with a TTL only when positive, and the index queue re-scored when indexed |
| Journal.Journal.DeadLetterIfUnchanged | internal/shield/types.go:232-241 | the conditional move to the DLQ, creating the hash when it had gone missing |
| Journal.Journal.ExtendTTL | internal/shield/types.go:251-260 | the extend-only TTL refresh |
| Journal.Journal.HydrateJournal | internal/shield/hydrate.go:21-27 | fills only a journal miss; the payload returned is the Source's if written, else the journal's own |
| Journal.Journal.CommitDLQKeys | internal/shield/shield.go:765-784 | every listed key loses its hash and its DLQ entry, unconditionally, and no other key changes |
| Journal.Journal.EvalShaPipelined | internal/shield/shield.go:1183-1202 | when the reload works, each key ends as if each of its calls had run once, however much of the first execution had run |
| Journal.ScriptsAreIdempotent | internal/shield/types.go:208-260 | on a frozen clock, running commit, dead-letter or TTL extension twice is running it once |
| Journal.ExtendCallOutcome | internal/shield/shield.go:1007-1023 | the TTL refresh of a pipeline lengthens a shorter life to the TTL, tells the index queue, and changes nothing else |
| Journal.AfterSomeIsOneRun | internal/shield/shield.go:1183-1202 | any part of a pipeline leaves a key as it was or as one run of its call leaves it |
| Journal.RetryIsHarmless | internal/shield/shield.go:1183-1202 | running a whole pipeline after any part of it had run gives the state of one clean run |
| Journal.PipelineOrderIsIrrelevant | internal/shield/shield.go:1183-1202 | calls on distinct keys commute: any listing of the same calls gives the same slots |
| Engine.EachRecordMeetsOneFate | internal/engine/engine.go:239-348 | whatever the reply, each drained record is offered for commit, dead-lettered or left dirty, exactly one of them, and no other key changes, unless a usable reply calls a key permanently failed that it was given no model of |
| Engine.UnusableReplyCommitsNothing | internal/engine/engine.go:284-301 | after a top-level error or an unattributed one, a whole flush leaves the slot of every model and of every key outside the batch untouched, and dead-letters exactly the records that never reached the sink |
| Engine.TransientFailureIsRetried | internal/engine/engine.go:303-330 | a model whose errors are all transient, or unclassified with a code other than 11000, keeps its whole slot |
| Engine.PermanentFailureIsDeadLettered | internal/engine/engine.go:334-342 | a model with an error that is permanent, or unclassified with code 11000, is moved to the DLQ as permanent_sink_error if its sequence still matches |
| Engine.UnnamedModelIsCommitted | internal/engine/engine.go:325-332 | a model that no error names is committed, if its sequence still matches, and lives for its TTL |
| Engine.RewrittenKeyIsLeftAlone | internal/engine/engine.go:350-396 | a model rewritten since the drain keeps its whole slot, whatever the reply |
| Engine.UnsentRecordIsDeadLettered | internal/engine/engine.go:239-274 | a record without a payload, or refused by the write contract, is moved to the DLQ with its reason if its sequence still matches |
| Engine.MissingStaysMissing | internal/engine/engine.go:233-243 | a record without a payload stays dead-lettered as missing, whatever the sink says of its key |
| Engine.CommitOffersAreApplied | internal/engine/engine.go:317-332 | with an honest sink, success by elimination commits only applied records |
| Engine.ForeignKeyIsDeadLetteredIff | internal/engine/engine.go:334-342 | a key outside the batch is dead-lettered if and only if a permanent error names it and its stored sequence is empty |
| Engine.DrainBand | internal/shield/shield.go:497-585 | the band's oldest dirty keys, each once, with what their hashes hold, and all of them if fewer than the limit; no side effects |
| Engine.ApplyContract | internal/engine/engine.go:239-272 | violations are dead-lettered at once, missing payloads collected, all other records become models once each |
| Engine.PartitionResult | internal/engine/engine.go:303-330 | success is exactly the models no error names; permanent is exactly the keys a permanent error names |
| Engine.CommitAll | internal/engine/engine.go:359-396 | exactly the successful records are offered for commit with their own drained sequence and TTL |
| Engine.DeadLetterAll | internal/engine/engine.go:334-342 | exactly the permanent keys are offered for dead-lettering with their own drained sequence |
| Engine.FlushBand | internal/engine/engine.go:216-348 | a whole cycle leaves every key with the slot that EachRecordMeetsOneFate speaks of |
| Refinement.FlushIsProtocolSteps | internal/engine/engine.go:216-348 | whatever happened to a key since the drain and whatever the reply, a flush does to it what the protocol's resolve, commit, dead-letter or abandon steps do; a usable reply that is honest about the batch makes these steps legal |
| Refinement.DlqRoundIsAStep | internal/dlq/dlq.go:147-268 | a DLQ round does to each of its keys what one protocol step does |
| Refinement.DlqDrainIsAStep | internal/shield/shield.go:686-760 | on each key of its window DrainDLQ does what one protocol step does: a key with a payload yields the record the protocol holds for replay, one without is purged and yields none |
| Dlq.DrainDLQ | internal/shield/shield.go:686-760 | the oldest dead letters of the band, in order; those without a payload, and only those, are dropped from the queue |
| Dlq.HandleIgnore | internal/dlq/dlq.go:147-164 | every record of the batch is deleted and counted as processed and succeeded |
| Dlq.HandleUpsert | internal/dlq/dlq.go:166-239 | exactly the accepted records no error names are deleted; Processed stays Succeeded + Failed if and only if every error names a record of the batch; Succeeded grows by the records deleted; an unusable reply deletes nothing |
| Dlq.HandleReInsert | internal/dlq/dlq.go:241-268 | each record is written under its new key, and exactly the acknowledged ones are deleted under their old key; Succeeded grows by the acknowledged writes, Failed by the others, Processed by all |
| Dlq.LeavesDlqIff | internal/dlq/dlq.go:147-268 | a key leaves the DLQ in a round if and only if ignored, reported error-free, or acknowledged under its new key |
| Dlq.ReInsertLeavesIff | internal/dlq/dlq.go:241-268 | a re-inserted record leaves the DLQ if and only if its write was acknowledged |
| Dlq.FailedReInsertKeepsRecord | internal/dlq/dlq.go:246-255 | a record whose write failed keeps its whole slot, unless another one is written onto its key |
| Dlq.AckedReInsertIsJournaled | internal/dlq/dlq.go:244-257 | the payload of an acknowledged re-insert is dirty and persistent under its new key, if no later record and no key of the batch collides with it |
| Dlq.UpsertedRecordIsDeletedIff | internal/dlq/dlq.go:166-239 | an upserted record is deleted if and only if the contract accepted it, BulkWrite returned, every error has a key, and none names it; any other keeps its whole slot |
| Dlq.IgnoredRecordIsDeleted | internal/dlq/dlq.go:147-164 | an ignored record loses its hash and its DLQ entry |
| Dlq.OtherKeysAreLeftAlone | internal/dlq/dlq.go:147-268 | keys outside the batch and outside the new keys keep their slots |
| Dlq.UpsertedRecordIsApplied | internal/dlq/dlq.go:211-234 | with an honest sink, a record that leaves in an Upsert round was applied |
| Dlq.UpsertRoundIsStuckIff | internal/dlq/dlq.go:119-145 | after an Upsert round that did not end the loop, the next drain returns the same batch again if and only if the contract accepted nothing or a usable reply names every accepted record |
| Dlq.TakingOutShrinks | internal/dlq/dlq.go:119-145 | a round that succeeds for a record shrinks the band's queue |
| Dlq.Iterate | internal/dlq/dlq.go:119-145 | one iteration: the slots, the queue, the counters and whether the loop goes on, as its drain and its round determine them |
| Dlq.ReinsertedPayloadSurvivesIff | internal/dlq/dlq.go:241-268 | a re-journaled payload is still there after its round if and only if its new key is not deleted in that round |
| Dlq.SameKeyIsLost | internal/dlq/dlq.go:241-268 | with a mutator that keeps the key every acknowledged record stays dirty without a payload |
| Dlq.ProcessBand | internal/dlq/dlq.go:119-145 | over a whole band a key is gone from the DLQ exactly when some iteration removed it; counters stay balanced if errors stay in their batch; Upsert drains a batch again exactly when nothing succeeded; under any strategy a loop whose non-empty iterations each take somebody out ends by itself within one round more than there are dead letters, and under Ignore every loop does; it ends with an empty queue or on a full window of expired payloads |
| Batcher.PipelineWrites | internal/shield/shield.go:183-235 | each entry gets the result of its own reply: nil if and only if its script ran, at once or in its own retry after a reload that worked; a broken reply and a failed reload are errors; no script runs twice |
| Batcher.StepsDeliver | internal/shield/shield.go:962-999 | a tick and the end of the drain deliver the whole buffer, a received entry delivers it once it is full, each entry its own result: nil exactly if its reply says that the script ran |
| Batcher.SendersComeAndGo | internal/shield/shield.go:157-173 | a sender enters while the batcher runs and leaves by handing over into a channel with room or by giving up; the stop waits for all senders, and the batcher then drains |
| Batcher.StrandsNobody | internal/shield/shield.go:157-173 | in every interleaving an entry handed over waits or has exactly one result, nil only if its script ran; after the exit all are answered and nobody can enqueue |
| Batcher.SomebodyCanMove | internal/shield/shield.go:941-1001 | while an entry or a sender waits, the batcher can move; StopBatcher's lock is free when no sender is inside |
| Batcher.DrainingTerminates | internal/shield/shield.go:985-998 | after the stop is seen each drain step shortens the channel and nothing lengthens it |
| Batcher.RestartStrands | internal/shield/shield.go:922-954 | a start after a stop leads to an entry in the channel with no batcher to take it |
| Index.QueueIndexUpdate | internal/shield/index.go:73-121 | the new membership of a key in every set and sorted set, its idxv record, and nothing of any other key |
| Index.UpdateIsExactIff | internal/shield/index.go:95-106 | an update leaves the key in exactly the indexes its fields name if and only if no field turned from a number into a string |
| Index.MoveIsExactIff | internal/shield/index.go:73-121 | the same for the whole namespace |
| Index.ExactIsUnique | internal/shield/bulk.go:14-36 | exact tables are determined by what was indexed, whichever sequence of updates led to them |
| Index.Indexes.UpdateIndexes | internal/shield/shield.go:266-277 | keeps the indexes exact if and only if the field kinds are kept |
| Index.Indexes.BulkUpdateIndexes | internal/shield/bulk.go:16-36 | reading all old values first and updating then equals indexing distinct keys one by one, and stays exact if and only if every item keeps its field kinds |
| Index.Indexes.PruneIndexMembers | internal/shield/index.go:146-175 | exactly the listed keys lose all their index entries |
| Index.Indexes.PruneExpiredIndexes | internal/shield/index.go:188-224 | only due keys without a payload lose their entries; the others are re-scored to their real expiry or dropped from the queue |
| Index.WaitingOutcome | internal/shield/index.go:191-193 | an entry is due as soon as its time has come |
| Index.Indexes.QueryBand | internal/shield/index.go:236-301 | the matches are the scan of the band, each once; afterwards no key with the queried texts is indexed without a payload, and no live key has lost anything |
| Index.FitsOutcome | internal/shield/index.go:282-293 | bounds are inclusive, a bounded field must hold a number, and a compared one the very text |
| Index.RecordOutcome | internal/shield/index.go:78-93 | texts go to equality sets, numbers to range scores, anything else is ignored |
| Index.Indexes.Query | sluice.go:769-797 | the results are the scan of all live payloads, each once, for any band count; without an equality filter it is refused |
| Index.PruningKeepsAnswers | internal/shield/index.go:298-300 | a prune changes the answer of no later query, whatever was indexed since; keys may come back to life if they are indexed again |
| Bands.BandForKey | internal/shield/shield.go:798-802 | every key has exactly one band |
| Bands.FnvVectors | internal/shield/shield.go:798-802 | the hash gives the published FNV-1a values, and a key its band |
| Bands.RangeByScore | internal/shield/shield.go:500-502 | the lowest members first, each once, all of them if fewer than the limit |
| Bands.ListingIsUnique | internal/shield/shield.go:500-502 | by score and then by member a sorted set has one listing, and a shorter one begins a longer one |
| Bands.LessIsBytewise | internal/shield/shield.go:500-502 | members of one score are ordered by their first different byte, a prefix first |
| LocalJournal.Cache.constructor | internal/localjournal/localjournal.go:65-91 | an empty cache of 256 shards with the capacity spread evenly, rounded up |
| LocalJournal.Cache.Get | internal/localjournal/localjournal.go:132-167 | a hit returns the resident entry and puts it in front of its shard's recency list; the list after a miss or an expiry; other shards untouched |
| LocalJournal.GetOutcome | internal/localjournal/localjournal.go:142-161 | a hit moves its entry to the front, an expired entry goes, and the others keep their order |
| LocalJournal.HitOutlivesInsertion | internal/localjournal/localjournal.go:158-216 | an entry that has just been hit outlives the next insertion into a full shard; the last of the others goes |
| LocalJournal.UpdateOutcome | internal/localjournal/localjournal.go:181-196 | a strictly newer version moves its entry to the front, any other is ignored |
| LocalJournal.InsertOutcome | internal/localjournal/localjournal.go:198-216 | an insertion goes to the front, and the last entry of a full list goes |
| LocalJournal.Cache.Put | internal/localjournal/localjournal.go:173-220 | the shard's recency list after the version gate, replacement, insertion and eviction |
| LocalJournal.Cache.Invalidate | internal/localjournal/localjournal.go:224-235 | the key is gone and no other key changes |
| LocalJournal.Cache.Len | internal/localjournal/localjournal.go:113-122 | the number of entries, at most 256 times the shard capacity and below MaxEntries + 256 |
| LocalJournal.PutKeepsVersions | internal/localjournal/localjournal.go:173-220 | no resident version is lowered, the inserted entry is in front, and at most the least recently used entry is evicted, never the inserted one |
| LocalJournal.CapPerShard | internal/localjournal/localjournal.go:78-83 | the shard capacities add up to at least MaxEntries and less than MaxEntries + 256 |
| LocalJournal.ShardFor | internal/localjournal/localjournal.go:102-109 | the inline FNV-1a loop selects the key's hash shard |
| LocalJournal.Evict | internal/localjournal/localjournal.go:207-216 | exactly the least recently used overflow goes, and is counted |
| Subscriber.Subscriber.Apply | internal/broadcast/subscriber.go:142-177 | a carried payload passes Put's gate, any other upsert or seed invalidates its key, all other messages change nothing |
| Subscriber.AppliedOutcome | internal/broadcast/subscriber.go:142-177 | what becomes of a key, by the fields of the message: nothing, a Put that only a strictly newer timestamp passes, or its removal |
| Subscriber.Subscriber.ApplyBatch | internal/broadcast/subscriber.go:131-137 | for any messages in either mode: while nothing is evicted, the cache is their fold, and the cursor is the last one's |
| Subscriber.PayloadsAreFoldedByVersion | internal/broadcast/subscriber.go:159-169 | in payload mode a stream of payloads is folded by version alone |
| Subscriber.InvalidationRemovesIff | internal/broadcast/subscriber.go:171-173 | in invalidation mode exactly the keys addressed by some message are gone |
| Subscriber.NewestIsHighest | internal/broadcast/subscriber.go:142-177 | the fold holds the highest version said by the cache or the stream |
| Subscriber.ConvergenceIsOrderFree | internal/broadcast/subscriber.go:130-177 | streams with the same messages in any order and number leave the same payloads |
| Subscriber.ReplayChangesNothing | internal/broadcast/subscriber.go:95-137 | replaying any part of a stream already folded in changes nothing |
| Subscriber.EqualVersionsCommuteIff | internal/localjournal/localjournal.go:182-189 | two messages of one version commute if and only if their payloads agree or something as new is resident |
| Sink.CheckAttribution | sink/sink.go:35-45 | passes if and only if no error has an empty key |
| Sink.PermanentByClassAndCode | sink/sink.go:20-30 | a key is reported as failed for good if and only if an error naming it is permanent, or unclassified with code 11000 |
| Sink.AccountingIsHonest | sink/sink.go:32-45 | a sink that reports each model it did not do, once, is honest; it reports no foreign key, and a model asked for once is done or reported, never both |
| Sink.AccountingIsHonestAboutMore | sink/sink.go:32-45 | the sink is as honest when a call of unknown outcome has done more than it knows |
| Postgres.Validate | sink/postgres/postgres.go:88-156 | each model goes to exactly one of refused, upserts and raw updates; each refusal has its reason; the accepted rows share columns and have pairwise different conflict keys |
| Postgres.ClassByState | sink/postgres/postgres.go:172-174 | a failure is for good if and only if PostgreSQL reported 23xxx, 42P01, 42703 or 21000 |
| Postgres.BatchHasDistinctTuples | sink/postgres/postgres.go:144-155 | the database takes no two rows of one statement for one, as long as equal conflict values print alike |
| Postgres.KeyIsSharedIff | sink/postgres/postgres.go:144-155 | when no conflict value prints the separator, two rows share a conflict key if and only if all their conflict values print alike |
| Postgres.DuplicateCheckIsExact | sink/postgres/postgres.go:144-155 | if, besides, equal prints are equal values, they share it if and only if the database would take them for one |
| Postgres.PrintAlikeMakesFalseDuplicates | sink/postgres/postgres.go:144-155 | different values that print alike, and an absent column and the text it prints as, share a conflict key |
| Postgres.PrintUnlikeHidesDuplicates | sink/postgres/postgres.go:144-155 | values equal to the database that print differently do not |
| Postgres.SeparatorMakesFalseDuplicates | sink/postgres/postgres.go:144-155 | two rows with different conflict values and one conflict key |
| Postgres.BuildValues | sink/postgres/postgres.go:256-271 | row i, column j is placeholder i*m+j+1, bound to that row's value of that column |
| Postgres.RunEach | sink/postgres/postgres.go:305-339 | one statement per model in order; each model is executed or reported with the class its failure deserves |
| Postgres.WriteRows | sink/postgres/postgres.go:206-240 | one insert; after a permanent error of it one statement per row, in order, and otherwise no further statement; a transient error is reported for every row |
| Postgres.BulkWrite | sink/postgres/postgres.go:83-241 | against any database and without a top-level error, every model was executed or is reported exactly once under its own key; every report stems from a refusal or a failed statement, and a permanent one from a statement of the model's own |
| DynamoDb.Validate | sink/dynamodb/dynamodb.go:104-180 | the request and the refusals, with the checks in their order |
| DynamoDb.EntersRequestIff | sink/dynamodb/dynamodb.go:110-180 | a model enters the request if and only if it is complete, marshals, and no earlier complete model has its key string |
| DynamoDb.RefusedForGood | sink/dynamodb/dynamodb.go:110-175 | every refusal is permanent and names a model that did not enter the request |
| DynamoDb.ReachesOutcome | sink/dynamodb/dynamodb.go:111-153 | a model is complete if it is no UpdateMany and its item has the key attributes of the table |
| DynamoDb.ValidOrRefused | sink/dynamodb/dynamodb.go:104-180 | every model is in the request or refused, once |
| DynamoDb.RequestHasDistinctStrings | sink/dynamodb/dynamodb.go:155-164 | the request's key strings are pairwise different |
| DynamoDb.FaithfulIsReceivable | sink/dynamodb/dynamodb.go:155-190 | if the key attributes print as they are marshalled, the service receives the request if and only if it has at most 25 items; otherwise it answers with a ValidationException |
| DynamoDb.KeyStrIsExactIff | sink/dynamodb/dynamodb.go:141-153 | as long as partition keys do not print the separator, two models share a key string if and only if their key attributes print alike |
| DynamoDb.SeparatorMakesFalseDuplicates | sink/dynamodb/dynamodb.go:141-164 | two different items with one key string, of which the second is refused for good |
| DynamoDb.FindCorrelationKey | sink/dynamodb/dynamodb.go:299-329 | the key of the first model whose printed key attributes equal the item's marshalled ones, empty if none does |
| DynamoDb.FaithfulOutcome | sink/dynamodb/dynamodb.go:303-325 | strings and numbers are compared as text, and no other type matches |
| DynamoDb.AttributionIsExactIff | sink/dynamodb/dynamodb.go:299-329 | an unprocessed item is traced to its own model if and only if its key attributes print as they are marshalled; otherwise to another model if and only if one prints as it is marshalled, and to nothing, a safe abort, if none does |
| DynamoDb.AnswerIsHonestIff | sink/dynamodb/dynamodb.go:215-238 | an answer with unprocessed items is honest about what was stored if and only if each such item's own key is traced to by one of them |
| DynamoDb.SingleAnswerIsHonestIff | sink/dynamodb/dynamodb.go:215-238 | with a single unprocessed item, if and only if its key attributes print as they are marshalled |
| DynamoDb.RequestIsAlwaysHonestIff | sink/dynamodb/dynamodb.go:215-238 | before the call: every answer to a request is reported honestly if and only if no model prints as an item is marshalled that prints differently |
| DynamoDb.UnfaithfulKeyIsMisreported | sink/dynamodb/dynamodb.go:299-329 | a request the service receives, with different primary keys, in which an unprocessed item is traced to another model's key, so that the result is not honest |
| DynamoDb.FallbackPutItems | sink/dynamodb/dynamodb.go:243-271 | each model is put and counted or reported, once; the errors are exactly the cancelled puts as transient and the other failed ones as permanent |
| DynamoDb.BulkWrite | sink/dynamodb/dynamodb.go:99-239 | UpsertedCount plus errors is the number of models; with faithful key attributes each model is stored or reported exactly once under its own key; a top-level error exactly on an unknown failure or an untraceable item |

## Left out

- Real clients, timeouts, TLS and reconnects: their outcomes are parameters or nondeterministic events.
- Several pods flushing one band: a second flusher defeats the sequence check, so one flusher is assumed.
- The index registry and `SweepIndexBand`, `RegisterExistingIndexes`, hot markers, and TTLs of index keys.
- A write between the liveness check of a prune and the prune itself, which the code calls best-effort: check and prune are one step here.
- Index.Indexes.BulkUpdateIndexes: a batch that lists a key twice; both updates then start from the same old values.
- NaN scores: range scores are real numbers.
- Index.Indexes.Query: each key's payload is read at its own time, but index updates by others between two bands of one query are not interleaved.
- Index.Indexes.QueryBand: index updates by others between the SINTER and the chunks of one band.
- Batcher.StrandsNobody: guarantees after the exit exclude a start after a stop, which `Batcher.RestartStrands` shows to fail.
- Batcher.RestartStrands: a start while the old batcher is still draining, with two batchers at a time for a while.
- Batcher.PipelineWrites: failures of the broadcast XADD, which do not affect a write's result.
- Journal.RetryIsHarmless: hydration pipelines; their state is equally unharmed but a retried reply reports "skipped" for what the first execution wrote.
- Protocol.NoAcknowledgedWriteIsLost: writes that took effect but returned an error are not told apart; every write is acknowledged, and Protocol.NoAcceptedWriteIsLost covers what took effect.
- Protocol.FreshReadNeverGoesBack: needs a key of which nothing unstored was given up by the DLQ, and no late hydration, hidden degraded write or empty payload; `Limits.dfy` has a run for each.
- Races.NothingOlderIsPendingAfterProbe: excludes a hydration into a key listed in the DLQ; `Limits.HydrationRevivesIff` and `Limits.RefilledDeadLetterOverwrites` show exactly when and how it would fail.
- Protocol.HydrationNeverLies: for a skipped hydration, excludes late hydrations, hidden degraded writes and DLQ upserts that outran the journal; `Limits.dfy` has a run for each.
- Protocol.CoalescingPreservesMeaning: needs clean runs in which nothing was discarded by the DLQ.
- Engine.FlushBand: failing commit or dead-letter pipelines are modelled in `World.dfy` (as `Abandon`) and in `Journal.EvalShaPipelined`, not again here.
- Dlq.HandleReInsert: a failing `CommitDLQKeys` (all three strategies return its error and leave the counters as they are).
- Dlq.ProcessBand: under Upsert and ReInsert the loop need not end by itself; it is bounded by the context, as in the code.
- The text of the ON CONFLICT clause, and what a raw update does to the table.
- Postgres.KeyIsSharedIff: values that print the separator, for which it is false.
- Postgres.BulkWrite: a statement that ended in an unknown error counts as not executed although it may have been; its models are reported, which is honest either way (`Sink.AccountingIsHonestAboutMore`).
- DynamoDb.FallbackPutItems: an item that marshals in the first pass is taken to marshal again, so the marshal error of the second pass cannot occur.
- DynamoDb.BulkWrite: a cancelled call counts as storing nothing although it may have stored items; all of them are reported, which is honest either way. A request of more than 25 items, which the code does not split, is one answered with a ValidationException.
- Subscriber.Subscriber.ApplyBatch: XREAD errors and backoff; trimmed streams, whose lost messages heal by TTL.
- LocalJournal.Cache.Put: locking; each operation holds its shard's lock throughout and is one step.
- The 64-bit range of the sequence counter and of timestamps: numbers are unbounded.
- `sink/docdb`, sources, metrics, builder plumbing, OnFlush callbacks, the migration script and the unused legacy paths.

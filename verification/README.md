# memora's replication and crash-safety protocols

This project models the parts of memora that must not lose, repeat or invent a write, and proves what
each of them promises:

- the replicator that copies a local SQLite primary to Cloudflare D1: triggers and outbox, batches, marker,
  epoch preflight, sends that fail half-way, acks, pruning, reconciles, halts and compare runs; its log mode;
  the nightly compare; the statements it may send, their texts and the checker in front of them (`Rows`,
  `FloatCompare`, `Identifiers` to `ReplicatorHistory`, `DrainedValues`, `Convergence`, `OwnWriteAlarm`, `GuardedBatches`,
  `CompareRuns`, `ForeignWrites`, `ForeignWindows`, `SyncStore`, `NightlyCompare`, `ReplicaLog` to
  `ReplayRebuilds`, `StatementGrammar`, `StatementText`, `BuiltStatements`, `LoggedRows`);
- the write-ahead intent journal in front of direct D1 writes (`IntentRecords`, `IntentJournal`, `JournalSafety`);
- the fenced owners: the absorb's idempotency claim, the embedding rebuild lease, the copy's write-ahead
  attempts, the readiness refresh (`IdempotencyClaims`, `AbsorbOnce`, `VectorKinds`, `RebuildLease`,
  `EmbeddingResponse`, `CopyOnce`, `LinkPlan`, `Readiness`);
- the local store's reader-writer lock and its transactions (`StoreLock`, `StoreWrite`);
- the restore of chosen conflict groups from a snapshot (`Restore`, `RestoreGroups`, `RestoreConflicts`).

Protocols are state machines: a run is any list of events, so every interleaving, crash point and failure the
events allow is covered. Objects whose fields the source updates are classes whose methods are proved equal to
the machine's step, or carry the protocol's promise themselves; there, what other threads or processes do
between two atomic steps is an arbitrary schedule.

Assumptions, stated once:

- D1 has one writer, except where a foreign writer is the subject. A failed request never lands after the
  reconcile that follows it. An operator accepts an epoch read from D1, never one ahead of it. No
  writer but D1's own triggers touches the epoch row.
- Local foreign keys hold, and a local embedding row without a writer token is already cleared, as the local
  triggers leave it.
- A crash in log mode falls between the log's fsync and the cursor update.
- A crash image of a file is every byte up to its last successful fsync and any prefix of what follows; a
  rename whose directory sync failed may be undone by a power loss.
- JSON encodings read back and hold no raw newline (section 7 of RFC 8259). SHA-256 is injective, UUIDs are fresh.
- Column affinity makes the triggers' `IS NOT` the exact inequality of values; the delete guard's `0.01 * total`
  is taken as an exact rational.
- An action's memory_id never changes.

Places where the code does less than it, or its comments, say; each has a lemma with a concrete witness and one
with the exact condition:

- the reconcile compares numbers as floats: an integer's update can be acked that D1 never got
  (`DrainedValues.UpdateCanBeLost`) exactly where the comparison does not tell the integer from every other one
  (`FloatCompare.FloatTellsApart`), and nowhere else (`DrainedValues.DrainedIsExact`);
- a foreign write is caught by the next preflight only if nothing is out when it lands: no send, none unresolved, and
  no relaxed preflight ahead. Otherwise the next ack takes D1's epoch over: in the middle of a send that does not
  fail (`ForeignWindows.WriteDuringSendIsMissed`), or with a send unresolved, be it one that failed before anything
  left (`ForeignWindows.FailureHidesForeignWrite`). `ForeignWrites.ForeignWriteCaughtExactly` and
  `ForeignWrites.WriteAfterPostEpoch` say which it is in every reachable state, `ForeignWrites.TurnsExactly` what
  later turns one into the other;
- a relaxed preflight, meant for one attempt, stays relaxed for later batches when a reconcile acks instead of a send
  (`ForeignWindows.RelaxedOutlivesItsAttempt`, `ForeignWrites.RelaxedLastsExactly`);
- a store whose send failed, whose row changed before the reconcile and whose process died before the resend halts
  on its own write as on a foreign one: no run of the replicator alone drains it again
  (`OwnWriteAlarm.OwnWriteStopsStore`, and `Convergence.DrainsExactly` for exactly when one does);
- the statement builder's identifier test lets one trailing newline through, the checker does not
  (`BuiltStatements.BuilderPassesWhatCheckerRefuses`, `BuiltStatements.BuiltStatementsAccepted`);
- a symmetric link from a row to itself is planned as a paired call that writes the edge twice
  (`LinkPlan.SelfLinkWrittenTwice`, `LinkPlan.NothingTwice`);
- a drain of deferred closes can find the list emptied between its look and its pop, and raises
  (`StoreLock.DrainCanFindNothing`, `StoreLock.ReleaseCanRaise`, `StoreLock.RaisesExactly`);
- a readiness pass retired before it submitted its probes puts them into the next generation's table, whose own
  pass then serves their verdicts (`Readiness.RetiredProbeIsServed`, `Readiness.ServedVerdict`).

## Model

| member | source | states |
|---|---|---|
| Rows.SameRowExact | memora/replicator.py:515-526 | where every integer fits a double, the reconcile's row comparison is exactly the nightly compare's |
| Rows.SameValueAcceptsDistinctIntegers | memora/replicator.py:515-518 | two different integers at 2^53 that the float comparison takes for equal |
| FloatCompare.FloatTellsApart | memora/replicator.py:515-518 | the float comparison tells an integer from every other one, also within 64 bits, if and only if it is below 2^53 in size, or below 2^54 and twice an odd number |
| FloatCompare.ToldIsExact | memora/replicator.py:515-518 | a value it tells apart is accepted only for a value the compare calls equal |
| FloatCompare.ToldExactly | memora/replicator.py:515-518 | and a value is accepted only for values the compare calls equal if and only if it is one of those, or a real that is no integer, or no number |
| Identifiers.BuilderIdentExact | memora/replicator.py:52 | the builder's identifier test is the strict one exactly for texts without a newline |
| Statements.BuildMakesRowEqual | memora/replicator.py:75-100 | whatever D1 holds, a present row's statements succeed once its parent is there, make D1's row the local row, and touch no other key |
| Statements.BuildRemovesRow | memora/replicator.py:85-88 | an absent row's DELETE always succeeds and removes the key with exactly its cascade children |
| Statements.BuildIdempotent | memora/replicator.py:75-100 | sending the same statements again changes no row, the embedding triggers included |
| Statements.EmbeddingUpsertLosesProvenance | memora/schema.py:394-419 | an UPSERT over an existing embedding keeps the row if and only if it changes the writer token or the row is already the cleared one |
| Statements.ExecKeepsFk | memora/schema.py:432-443 | no single statement leaves an orphan child |
| Outbox.TriggersRecordEveryChange | memora/schema.py:697-728 | a write changes a replicated row if and only if it enqueues that key, under a new seq |
| Outbox.ApplyKeepsStore | memora/schema.py:624-632 | every accepted local write keeps the seqs ascending, the outbox keys replicable and the foreign keys |
| Batches.ReadBatch | memora/replicator.py:211-252 | the imperative read of a range is the ordered coalesced batch of its rows and their parents |
| Batches.LatestPerKey | memora/replicator.py:218-226 | one pass with a dictionary leaves each key's latest outbox row, in seq order |
| Batches.AddParents | memora/replicator.py:255-277 | the loop that adds missing foreign-key parents computes the specified records |
| Batches.CoalesceCovers | memora/replicator.py:218-226 | every enqueued key of the range is in the batch under its latest seq |
| Batches.OrderInOrder | memora/replicator.py:238-251 | parent upserts first, then the other tables, then parent deletes, by seq within a phase |
| Batches.OrderMembers | memora/replicator.py:238-251 | ordering loses and adds no record |
| ForeignKeyOrder.BatchNeverRejected | memora/replicator.py:211-277 | from consistent local and D1 rows every prefix of a batch's statements is accepted and leaves no orphan, however the range was cut |
| ReplicatorSafety.StepKeepsInv | memora/replicator.py:740-851 | the replication invariant survives every step: partial sends, crashes, reconciles, halts, acks, prunes |
| ReplicatorSafety.DifferenceIsPending | memora/replicator.py:740-851 | in every reachable state a replicated key whose D1 row differs has an outbox row past the acks |
| ReplicatorSafety.DrainedEqualsD1 | memora/replicator.py:804-817 | a drained store equals D1 on all seven tables but the excluded meta keys |
| DrainedValues.DrainedIsExact | memora/replicator.py:515-526 | a drained row whose values the comparison tells apart, and whose columns both sides have, is D1's row as the nightly compare reads both |
| DrainedValues.UpdateCanBeLost | memora/replicator.py:830-851 | for every other integer there is a run from a fresh seed, with no foreign writer, that acks its update while D1 keeps another integer, of 64 bits if it is, and the outbox holds nothing past the ack |
| Convergence.ReachableConverges | memora/replicator.py:740-851 | from every reachable state between attempts, whatever failed before, the replicator alone, failing nowhere, reconciles, sends and acks until nothing is pending and D1 equals the store; only the delete guard can stop it, and only over a row deleted here |
| Convergence.DrainsExactly | memora/replicator.py:740-851 | with no delete pending, some run of its own drains such a store if and only if there is nothing to send or D1's epoch is the expected one, a marker stands, or the preflight is relaxed |
| Convergence.RefusedBatchStartsOver | memora/replicator.py:468-487 | a batch D1 refuses as a whole starts over from its first statement, over whatever was applied, and is still on its way there |
| OwnWriteAlarm.OwnWriteStopsStore | memora/replicator.py:757-767 | a run from a fresh seed without a foreign writer, a resume or a delete after which no run of the replicator alone ever drains the store: D1's epoch moved by its own write and the relaxed preflight died with the process |
| GuardedBatches.GuardExact | memora/replicator.py:349-360 | the guard trips if and only if some table has more than 50 keys deleted, or more than one in a hundred of its rows, counted as sets |
| GuardedBatches.OutgoingWasGuarded | memora/replicator.py:632-651 | in every reachable state, foreign writers included, a batch prepared, marked or being sent was within those bounds when assembled, or an operator's resume had allowed exactly its attempt with no ack since |
| GuardedBatches.GuardHaltWasDue | memora/replicator.py:632-651 | a store halted by the guard had a whole batch with that attempt past the bounds, and not allowed |
| GuardedBatches.GuardDecidesEveryBatch | memora/replicator.py:632-651 | at any assembly of any run the batch goes on if and only if it is within the bounds or its very attempt is allowed; otherwise the store halts on that attempt |
| ReplicatorHistory.RecordableRunFindsItsRows | memora/replicator.py:1041-1143 | a compare run that may still be recorded finds every outbox row written since it began |
| ReplicatorHistory.UnackedRowsAreKept | memora/replicator.py:804-817 | no unacked and no uncompared row is ever pruned, and the compared seq never passes the acked one |
| ReplicatorHistory.PrunedExactly | memora/replicator.py:804-817 | a row leaves the outbox exactly by an ack that finds it acked, compared, a day old and older than every compare begun within the day |
| ReplicatorHistory.CursorsOnlyGrow | memora/replicator.py:804-817 | the acked and the compared seq only grow |
| CompareRuns.RunsExactly | memora/replicator.py:1041-1143 | a registered run stays, with its start, until its own abort or record, or another's begin once it is over a day old; only a begin adds one |
| CompareRuns.ConsumedIsLargestHead | memora/replicator.py:1120-1128 | in every reachable state the compared seq is the largest head of a clean report recorded so far, or 0 |
| CompareRuns.UncomparedRowsAreKept | memora/replicator.py:804-817 | so an outbox row past every such head is never pruned, whatever has been acked |
| ReplicatorHistory.CountedChangeMovesEpoch | memora/schema.py:373-391 | a statement that changes a memories or embeddings row moves D1's epoch |
| ReplicatorHistory.ForeignWriteHalts | memora/replicator.py:740-760 | in any reachable state with nothing out, after a foreign write to those tables nothing is sent and nothing acked, D1 changes by foreign writes alone and the preflight halts, until an operator resumes or the process fails between a marker and its preflight; ForeignWriteCaughtExactly has the other states |
| ReplicatorHistory.UnrelaxedPreflightHalts | memora/replicator.py:757-767 | in any reachable state at all, after such a write every unrelaxed preflight halts until an ack or an operator sets the expected epoch |
| ReplicatorHistory.RunKeepsEpochOk | memora/replicator.py:804-817 | over every run, foreign writers included, the expected epoch is set and never ahead of D1's |
| ForeignWrites.RunShape | memora/replicator.py:740-851 | in every reachable state, foreign writers included, a marker stands from the mark to the ack, only an idle process is halted, and every epoch compared with is one D1 has had |
| ForeignWrites.ForeignWriteCaughtExactly | memora/replicator.py:740-851 | after a foreign write in any reachable state, until the next ack or resume and over any failures and crashes: with nothing out every preflight halts and no ack is to come; with something out none halts for it and the next ack takes it over |
| ForeignWrites.WriteAfterPostEpoch | memora/replicator.py:770-775 | a write after an ack's epoch is read is left by that ack to be caught, if and only if the preflight is not relaxed; a failure before the ack leaves it to the next one |
| ForeignWrites.TurnsExactly | memora/replicator.py:740-851 | caught becomes taken over exactly by a failure between the marker and an unrelaxed preflight, and the other way exactly by a process death with a relaxed preflight and no marker |
| ForeignWrites.RelaxedLastsExactly | memora/replicator.py:774 | a relaxed preflight ends exactly with the end of a send or with the process |
| ForeignWindows.WriteDuringSendIsMissed | memora/replicator.py:757-775 | a run from a fresh seed without any failure in which a foreign write lands inside a send and its ack takes the epoch over |
| ForeignWindows.FailureHidesForeignWrite | memora/replicator.py:830-845 | a run in which a failure between the marker and the preflight lets the reconcile ack after a foreign write and take its epoch over, unresumed |
| ForeignWindows.RelaxedOutlivesItsAttempt | memora/replicator.py:843-846 | a run without a foreign writer, crash or resume that ends acked, with no marker, and with the next preflight still relaxed |
| ReplicatorHistory.HaltedSendsNothing | memora/replicator.py:993-1026 | a halted store sends and acks nothing until it is resumed the way its halt demands |
| SyncStore.SyncTables.Enqueue | memora/schema.py:624-632 | rows are appended under the next seqs |
| SyncStore.SyncTables.MarkInflight | memora/replicator.py:751-757 | the marker is the only change |
| SyncStore.SyncTables.ClearMarker | memora/replicator.py:841-850 | clearing the marker is the only change |
| SyncStore.SyncTables.Ack | memora/replicator.py:804-817 | the ack moves the cursor and the epoch, clears the marker and the one-time allowance, and drops exactly the rows acked, compared, a day old and older than every compare still running |
| SyncStore.SyncTables.HaltStore | memora/replicator.py:599-603 | a halt records its reason and nothing else |
| SyncStore.SyncTables.ResumeStore | memora/replicator.py:993-1026 | a resume succeeds exactly when the halt's own demand is met, and otherwise changes nothing |
| SyncStore.SyncTables.BeginCompare | memora/replicator.py:1041-1054 | a run is registered at its start time, runs over a day old are dropped and no other |
| SyncStore.SyncTables.AbortCompare | memora/replicator.py:1057-1064 | only that run is dropped |
| SyncStore.SyncTables.RecordCompare | memora/replicator.py:1075-1143 | a report is recorded exactly when its run is at most half a day old and, if clean, its head is acked; a clean one makes the compared seq the larger of itself and the head |
| NightlyCompare.CompareSides | memora/compare.py:112-152 | the nested loops report exactly the keys on one side only, the keys with a column whose values differ once a missing one reads NULL and an integral real as an integer, the excluded ones, the columns of one side only, and the vectors D1 lacks |
| NightlyCompare.NightlyReportsNoFalseDifference | memora/compare.py:271-280 | snapshot at H, acks at H, D1 read table by table while writes go on, K read last: every key outside K is the same in both |
| NightlyCompare.CleanOutsideK | memora/compare.py:112-152 | rows that agree under the reconcile's comparison, with values it tells apart and NULL in D1's further columns, give a report without a difference or a missing vector |
| NightlyCompare.CleanMeansEqual | memora/compare.py:112-152 | and a report without a difference means the same columns, the same keys outside K, and the same whole row under each |
| NightlyCompare.NightlyReportIsClean | memora/compare.py:271-280 | so the nightly report, K excluded, has no key on one side only, no changed row and no missing vector, for every run |
| ReplicaLog.AppendLog | memora/replicator.py:375-405 | the loops append one line per statement, record by record |
| ReplicaLog.IterLog | memora/replicator.py:408-430 | one pass with the ids seen keeps the first line of each id |
| ReplicaLog.DedupExact | memora/replicator.py:408-430 | deduplication keeps every id and no id twice |
| ReplicaLog.ReplayByKey | memora/shadow_night.py:222-226 | with foreign keys off the replay acts on each key by its own lines alone |
| ReplicaLogSafety.StepKeepsInv | memora/replicator.py:670-680 | the log invariant survives every step, a range appended again after a crash included |
| ReplayRebuilds.LogRebuildsStore | memora/shadow_night.py:217-241 | over every run, replaying the log behind the cursor into the seed never fails; for every key with nothing past the cursor it has the row exactly when the store does, with every local column and its exact value, and the very same row where that has every schema column and the seed's has no other |
| ReplayRebuilds.LogHasEveryKey | memora/shadow_night.py:206-216 | every key enqueued up to the cursor is in the replayed lines, under a seq no older |
| StatementGrammar.ParseUpsertExact | memora/replicator.py:123-126 | printing and parsing an UPSERT undo each other, for every text |
| StatementGrammar.ParseInsertExact | memora/replicator.py:127 | the same for the INSERT shape |
| StatementGrammar.ParseWhereExact | memora/replicator.py:128-129 | the same for the DELETE and the read-back |
| StatementText.CheckExact | memora/replicator.py:136-170 | the checker accepts a text under a shape if and only if the text spells an allowed statement of that shape |
| StatementText.OneShape | memora/replicator.py:143-169 | no text has two shapes, so the order of the tests is immaterial |
| StatementText.AcceptedWriteNamesKey | memora/replicator.py:136-170 | every accepted write names one replicated table and its whole primary key, and an UPSERT sets every other column to its own new value |
| BuiltStatements.AcceptedIsOneStatement | memora/replicator.py:136-170 | an accepted text has no semicolon and no newline |
| BuiltStatements.BuiltStatementsAccepted | memora/replicator.py:75-170 | a built statement is accepted as its own shape if and only if its columns are strict identifiers, listed once, and an UPSERT has one outside the key |
| BuiltStatements.BuilderPassesWhatCheckerRefuses | memora/replicator.py:52-93 | a column name ending in a newline that the builder passes and the checker refuses |
| BuiltStatements.KeyTextAccepted | memora/replicator.py:161-169 | every table's DELETE and read-back by primary key are accepted |
| LoggedRows.ReadsBackBuiltRow | memora/replicator.py:287-315 | of the builder's own statement for a whole row the reader returns exactly that row, and nothing exactly when the text has no shape |
| LoggedRows.OnlyBuiltRows | memora/replicator.py:287-315 | whatever the reader accepts is the builder's statement for the row it returns: table, key, every column, text and values |
| IntentRecords.Replay | memora/intent_journal.py:147-165 | the walk over the lines computes the specified open set, next id or offset of a malformed line |
| IntentRecords.FrameReplays | memora/intent_journal.py:147-185 | complete lines and a torn one replay to the complete records |
| IntentRecords.CutFrame | memora/intent_journal.py:147-174 | any cut of such a file is such a file again, with every line that ends at or before the cut |
| IntentRecords.RefusesExactly | memora/intent_journal.py:155-163 | a file is refused if and only if some complete line is no valid record |
| IntentRecords.CompactionReplays | memora/intent_journal.py:322-354 | a compacted journal replays to exactly the open set, in order, and the next id |
| IntentJournal.Journal.Open | memora/intent_journal.py:115-174 | start-up replays, drops a torn tail durably, and stays refused exactly after a malformed line, a failed truncation or a failed directory sync |
| IntentJournal.Journal.AppendIntent | memora/intent_journal.py:209-236 | an id is returned exactly on a usable journal with no fault: the old next one, its intent open and in the synced bytes, every other intent as it was |
| IntentJournal.Journal.Resolve | memora/intent_journal.py:238-264 | recorded exactly when it was open and written, then it alone leaves the open set; otherwise the open set stays |
| IntentJournal.Journal.Abandon | memora/intent_journal.py:266-285 | an unsent intent leaves the open set, and is closed on disk when the journal can take it |
| IntentJournal.Journal.Repair | memora/intent_journal.py:287-299 | the file is cut to its last complete line, or the journal is broken |
| IntentJournal.Journal.FsyncTick | memora/intent_journal.py:301-310 | a successful lazy fsync makes every byte durable; a failed one repairs |
| IntentJournal.Journal.Compact | memora/intent_journal.py:322-355 | the loop writes the meta line and one line per open intent; a failure after the rename breaks the journal |
| JournalSafety.StepKeepsInv | memora/intent_journal.py:209-355 | every crash image of every reachable journal keeps the outstanding requests |
| JournalSafety.EveryCrashKeepsUnknown | memora/intent_journal.py:147-185 | after any history, any crash image of the file, or of the one an unsynced rename replaced, replays without refusal and holds every request sent without a known outcome, as it was sent |
| JournalSafety.NoIdSentTwice | memora/backends.py:1840-1881 | no id is ever given to two sent requests, across restarts and failed fsyncs that kept a line |
| JournalSafety.LiveOpenSetIsComplete | memora/intent_journal.py:189-195 | a live journal's open set never misses an outstanding request |
| JournalSafety.UnknownExactly | memora/backends.py:1840-1881 | a request counts as unknown from its send until its outcome is known, and only a re-checked intent of a live client is sent |
| JournalSafety.RequestGoesOut | memora/backends.py:1840-1881 | on a usable journal a request that is appended, re-checked and sent goes out under a new id, its intent in the synced bytes before |
| JournalSafety.OutcomeCloses | memora/intent_journal.py:238-264 | once its outcome is known and recorded it is open no more, in memory or after a restart |
| JournalSafety.FaultFreeReplayIsExact | memora/intent_journal.py:176-185 | while nothing fails, a restart finds exactly the process's open set and next id |
| IdempotencyClaims.Idempotency.TakeClaim | memora/api_absorb.py:71-113 | one claim transaction: a free, failed or expired key is taken with a new fence, a done or live claim is left untouched |
| IdempotencyClaims.Idempotency.Complete | memora/api_absorb.py:55-68 | the fenced completion takes effect exactly for the claim's holder |
| IdempotencyClaims.Idempotency.CompletedBody | memora/api_absorb.py:129-136 | a stored body is returned exactly for a done row |
| IdempotencyClaims.Idempotency.MarkFailed | memora/api_absorb.py:137-147 | a done row is never marked failed |
| AbsorbOnce.StepKeepsInv | memora/api_absorb.py:71-195 | claims, completions, failures, deaths and takeovers keep the protocol's invariant |
| AbsorbOnce.EffectsCommitOnce | memora/api_absorb.py:150-195 | at most one transaction with effects ever commits for a key, and it is the one whose done row the key has |
| AbsorbOnce.DoneStays | memora/api_absorb.py:121-147 | a done row is never left or overwritten, and its key commits nothing more |
| AbsorbOnce.RepliesAgree | memora/api_absorb.py:92-97 | every success ever given for a key carries the one stored body, a replay of the same request gets it, a different request gets the conflict |
| AbsorbOnce.LostClaimCommitsNothing | memora/api_absorb.py:55-68 | a runner that lost its claim commits nothing, ever after |
| AbsorbOnce.HolderCommits | memora/api_absorb.py:55-68 | the claim's holder commits, first for its key, and reads its own body back after a lost acknowledgement |
| AbsorbOnce.OpenKeyCompletes | memora/api_absorb.py:71-195 | a key that is free, failed or expired is taken over by a runner of the same request, whose commit answers its own body and leaves the done row |
| AbsorbOnce.KeyIsNeverStuck | memora/api_absorb.py:71-113 | after any history, ten minutes on, a request that its key's stored digest does not refuse and no done row answers goes through |
| AbsorbOnce.RecordedFailureFreesKey | memora/api_absorb.py:137-147 | a failure that was recorded frees the key at once, one that was not leaves it to the lease |
| AbsorbOnce.LiveClaimTurnsAway | memora/api_absorb.py:97-113 | while a claim is live every other runner of its key is turned away with the reason and changes nothing |
| AbsorbOnce.LostAcknowledgement | memora/api_absorb.py:150-195 | after a lost acknowledgement the runner reads its claim and answers the stored body, or raises |
| VectorKinds.DenseExact | memora/embeddings.py:1093-1105 | a vector is dense of dimension n exactly when its keys are the decimals 0 to n-1 |
| VectorKinds.EmptyExact | memora/embeddings.py:1093-1105 | a vector is of the empty kind exactly when it has no key |
| VectorKinds.SparseExact | memora/embeddings.py:1093-1105 | it is sparse exactly when it has keys and they are not 0 to n-1 for any n |
| VectorKinds.DecimalExact | memora/embeddings.py:1096-1101 | those keys are the digits of the number, no leading zero |
| VectorKinds.UniformExact | memora/embeddings.py:1655-1660 | vectors are uniform if and only if, leaving out the empty ones, all have the keys 0 to n-1 for one n or none has such keys |
| RebuildLease.NeverRegained | memora/embeddings.py:752-773 | a lost token is never regained: what the others leave mine was mine throughout, with nothing written meanwhile |
| RebuildLease.FreshLeaseIsKept | memora/embeddings.py:707-730 | a heartbeat that no stealer's own clock makes older than the lease time protects the lease |
| RebuildLease.LostExactly | memora/embeddings.py:707-730 | another process's statement takes the lease away if and only if it is a steal of what it saw there whose own clock puts the heartbeat over 300 seconds back |
| RebuildLease.DimensionCertifies | memora/embeddings.py:1639-1652 | the certified dimension is that of every vector that has one |
| RebuildLease.PlanExact | memora/embeddings.py:1583-1682 | but for its heartbeats that plan is the two stamps, every vector in order, the model with the certified dimension and the repairs, once each |
| RebuildLease.RenewedOften | memora/embeddings.py:1603-1682 | it begins and ends with a heartbeat and never has more writes in a row without one than a chunk, or 20 |
| RebuildLease.RebuildStore.Acquire | memora/embeddings.py:707-733 | a token is returned exactly when the lease was free and is still the inserted value, or was garbage or over 300 seconds old by the one clock read and is still the value seen; it then holds the lease |
| RebuildLease.RebuildStore.Heartbeat | memora/embeddings.py:755-773 | a heartbeat succeeds exactly when no other has taken the lease by its read and by its write, and then renews it to its own clock |
| RebuildLease.RebuildStore.PutChunks | memora/embeddings.py:1603-1628 | the chunk loop writes every row's vector in order, two heartbeats ahead of each chunk, or the lease is lost |
| RebuildLease.RebuildStore.RebuildAll | memora/embeddings.py:1583-1682 | a rebuild that returns normally held the lease from acquisition to release: between them the history is exactly its own plan, heartbeats included, and the dimension it publishes is the one of every vector's keys; it refuses as non-uniform only when no dimension, nor none, fits them all |
| EmbeddingResponse.FromListExact | memora/embeddings.py:281-293 | a vector read from a list is dense, of the list's length, with its values in order |
| EmbeddingResponse.Parse | memora/embeddings.py:296-357 | a response is accepted if and only if its indices cover the inputs once each with finite vectors of one dimension, and every input gets its own vector |
| CopyOnce.Copy.CreateMissing | memora/copy_memories.py:445-517 | it refuses exactly for a recorded row the first look lists twice, or misses though done or sent, and creates nothing then; a create leaves only for a row never sent before; a normal return means every row has exactly one copy and is counted as created or reconciled |
| CopyOnce.Copy.Create | memora/copy_memories.py:487-516 | point by point: the attempt is saved before the request leaves, and it is settled only on an answer, or a later look, that its marker confirms |
| CopyOnce.Copy.AwaitMarker | memora/copy_memories.py:421-436 | it returns none exactly when every one of its polls + 1 looks lists no marker, and a found marker is the row's only one |
| CopyOnce.Copy.Runs | memora/copy_memories.py:445-517 | over any number of runs, deaths and late completions no row is sent twice and the destination holds at most one copy of each |
| CopyOnce.MarkersExact | memora/copy_memories.py:421-436 | a row's markers are its landed requests, at most one when none was sent twice |
| LinkPlan.CollectEdges | memora/copy_memories.py:223-233 | the loops collect exactly the stored edges with both ends selected, and count the edges out of the selection and the scores to be made one |
| LinkPlan.Classify | memora/copy_memories.py:234-253 | the pass lists each edge of each kind once |
| LinkPlan.AnalyseLinks | memora/copy_memories.py:208-254 | the planned calls produce exactly the stored selected edges minus the unrepresentable ones, none twice if and only if no selected row has a symmetric link to itself |
| LinkPlan.LosslessCover | memora/storage.py:4036-4086 | each representable edge is produced exactly once, a symmetric self-loop exactly twice |
| LinkPlan.NothingTwice | memora/copy_memories.py:238-246 | no edge is produced twice if and only if no selected row has a symmetric link to itself |
| LinkPlan.SelfLinkWrittenTwice | memora/copy_memories.py:238-246 | one row related to itself, whose every plan writes its one edge twice |
| Readiness.SlotBelongsToLivePass | memora/health.py:338-385 | an occupied slot belongs to an unfinished pass of this generation, no generation has two passes in flight, and the snapshot is this generation's |
| Readiness.RetiredPassIsInert | memora/health.py:496-519 | nothing a retired pass does, ever after, changes the snapshot or a later owner's slot |
| Readiness.SubmissionStaysFresh | memora/health.py:278-296 | submitting probes keeps older generations out of the table if and only if the pass is current or starts none |
| Readiness.RunKeepsFresh | memora/health.py:496-519 | runs without a late submission keep every probe in the table of the current generation |
| Readiness.ServedVerdict | memora/health.py:278-353 | every verdict served, in every reachable state, is of an ended probe of its own store, and another generation's if and only if the pass that published it met that probe running when it submitted |
| Readiness.SubmitsOnce | memora/health.py:286-296 | that submission is the pass's only one |
| Readiness.ServedIsFresh | memora/health.py:278-353 | without a late submission everything ever served is of probes its own generation started |
| Readiness.RetiredProbeIsServed | memora/health.py:278-316 | a run in which a new generation publishes the verdict of a retired pass's probe |
| Readiness.Refresher.TryClaim | memora/health.py:375-382 | the claim takes a free slot for a stale snapshot and nothing else |
| Readiness.Refresher.SubmitProbes | memora/health.py:286-296 | the loop starts a probe for each name whose last one is not still running |
| Readiness.Refresher.PublishBuilt | memora/health.py:347-353 | only the owner of the current generation publishes |
| Readiness.Refresher.Release | memora/health.py:354-361 | only the owner of the current generation frees the slot |
| Readiness.Refresher.Retire | memora/health.py:496-519 | an invalidation ends the generation, its slot, its table and its snapshot |
| Readiness.SlotIsGivenBack | memora/health.py:347-385 | however a current pass ends it frees the slot, and only a publication changes what is served |
| Readiness.ServedForTenSeconds | memora/health.py:375-382 | a free slot is claimed again exactly when the snapshot is over ten seconds old or there is none |
| StoreLock.NoReaderBesideWriter | memora/backends.py:246-395 | never a reader beside an exclusive holder, no reader waiting to be one, and open_writers counts the connections opened and not closed |
| StoreLock.HoldsCounted | memora/backends.py:270-300 | over any run a thread's holds are those it took less those given back, and it is a reader exactly while that is more than none |
| StoreLock.NoNewReaderBesideWaiter | memora/backends.py:276-286 | while a thread waits for the exclusive side no other becomes a reader |
| StoreLock.ChangesOnlyUnderExclusive | memora/backends.py:879-886 | the count and the connections change only in the hands of the exclusive holder |
| StoreLock.ReadSeesNoWriterChange | memora/backends.py:1096-1170 | from a read's opening until as many holds of its thread are given back as it has taken since, no in-process writer is opened or closed, deferred closes included |
| StoreLock.ImmutableReadSeesNoWriter | memora/backends.py:1129-1146 | a read opened immutable has no open writer beside it until then |
| StoreLock.OthersRely | memora/backends.py:246-395 | what a thread may rely on while any others run |
| StoreLock.DrainCanFindNothing | memora/backends.py:370-393 | a reachable state and a schedule in which a drain raises: it saw a connection and its pop finds none |
| StoreLock.ReleaseCanRaise | memora/backends.py:288-300 | a reachable state and a schedule in which giving a read back raises |
| StoreLock.ListConserved | memora/backends.py:340-368 | over any run the deferred list is first in, first out and loses nothing but by pops under the exclusive side |
| StoreLock.RaisesExactly | memora/backends.py:376-393 | a round raises if and only if it saw a connection, took the exclusive side, and the others had popped all it saw and all handed over since |
| StoreLock.RaisingNeedsAnotherHolder | memora/backends.py:376-393 | it never raises when no other thread has the exclusive side between its look and its take |
| StoreLock.OnlyADrainMakesItRaise | memora/backends.py:370-395 | a whole drain raises only if another thread drains meanwhile |
| StoreLock.AloneDrainsAll | memora/backends.py:376-393 | alone and with the lock free, a drain empties the list, closes every connection on it and does not raise |
| StoreLock.Lock.AcquireShared | memora/backends.py:270-286 | exactly one more hold, taken beside no exclusive holder and no waiting one unless re-entered; given up only while held back |
| StoreLock.Lock.EnterExclusive | memora/backends.py:314-334 | re-entered exactly by its holder, refused exactly to a reader, taken with the deferred list empty, or given up while the lock is not free |
| StoreLock.Lock.OpenWriter | memora/backends.py:1061-1094 | a new connection is opened and counted under the exclusive side, which is left as it was found; none only to a reader or while the lock is not free |
| StoreLock.Lock.CloseWriter | memora/backends.py:867-886 | a connection is closed and uncounted only under the exclusive side; not closed only for a reader, a lock not free or a close that fails |
| StoreLock.Lock.CloseFromGc | memora/backends.py:353-368 | closed now under the exclusive side, or handed over last in the list because others had or awaited the lock; it raises only if a close fails or the drain after it raises |
| StoreLock.Lock.DrainDeferred | memora/backends.py:370-395 | the new world, the turns taken and whether it raises are the specified drain's: which closes ran, one exclusive section each, and why it stopped |
| StoreLock.Lock.DrainOne | memora/backends.py:376-393 | one look, take, pop, close and release are the specified round |
| StoreLock.Lock.ReleaseShared | memora/backends.py:288-300 | the hold is given back and the deferred connections are drained, raising exactly when that drain does |
| StoreLock.Lock.OpenReader | memora/backends.py:1096-1170 | immutable only with no open writer, no sidecars and no live primary; not opened only for what is on disk, an open writer, a live primary or a lock held back |
| StoreWrite.AllOrNone | memora/backends.py:637-703 | the store ends with every write of the outermost block or none; callbacks run exactly on commit; depth and stacks are restored; and it commits if and only if no exception left it and no rollback happened inside |
| StoreWrite.InsideAll | memora/backends.py:819-860 | inside a block nothing is committed or rolled back, however the code nests and catches |
| StoreWrite.AlwaysRestored | memora/backends.py:682-691 | whatever the code and however it ends, depth and stacks come back |
| StoreWrite.CaughtRollbackStillAborts | memora/backends.py:833-840 | a rollback() that is caught still aborts the whole block |
| StoreWrite.PendingIsDropped | memora/backends.py:833-860 | outside a block a rollback, or a `with conn:` left by an exception, leaves the store as it was |
| StoreWrite.PendingIsKept | memora/backends.py:819-860 | and a commit, or a `with conn:` that ends, adds all that was pending, in order |
| StoreWrite.WriterConnection.Commit | memora/backends.py:819-831 | an inner commit is deferred |
| StoreWrite.WriterConnection.Rollback | memora/backends.py:833-840 | an inner rollback poisons the transaction and raises |
| StoreWrite.WriterConnection.Exit | memora/backends.py:848-860 | `with conn:` inside a block neither commits nor rolls back |
| StoreWrite.WriterConnection.Finish | memora/backends.py:669-699 | the outermost exit: roll back, refuse a poisoned transaction, or commit and run the callbacks |
| StoreWrite.WriterConnection.Do | memora/backends.py:637-703 | a caller's code, field by field, is the specified run |
| Restore.UpsRun | memora/local_primary.py:1432-1455 | a group's writes, parents first, are all accepted and write exactly the snapshot's rows |
| Restore.DelsRun | memora/local_primary.py:1432-1455 | a group's deletes, children first, remove exactly their keys, no cascade |
| Restore.StatementOrder | memora/local_primary.py:1400-1401 | upserts go in the foreign-key order of the seven tables, deletes in its reverse, each changed key once |
| Restore.ActionGroups | memora/local_primary.py:1201-1211 | an action of a memory is in the group of that memory, with its row and its children |
| Restore.LoneActionGroup | memora/local_primary.py:1201-1211 | an action of no memory is a group of its own |
| RestoreGroups.GroupRestored | memora/local_primary.py:1570-1589 | a group whose D1 rows match the preimage becomes exactly the snapshot's, every other group is as it was |
| RestoreGroups.EveryPrefixConsistent | memora/local_primary.py:1432-1455 | no prefix of a group's statements leaves a child without its memory |
| RestoreGroups.Target.ApplyGroup | memora/local_primary.py:1570-1589 | applied exactly when the preimage matches, and then never halting |
| RestoreGroups.Target.RestoreApply | memora/local_primary.py:1570-1589 | over all chosen groups: each is the snapshot's or, if it had changed, untouched; nothing else moves |
| RestoreConflicts.BuildConflicts | memora/local_primary.py:1255-1283 | the recorded groups are exactly complete groups that differ, each once, and cover every difference |
| RestoreConflicts.ConflictsApply | memora/local_primary.py:1255-1283 | recorded groups meet what the apply step needs, and D1 as compared matches each preimage |
| RestoreConflicts.ConflictsChosen | memora/local_primary.py:1537-1543 | any selection of the recorded groups is what the apply loop demands: sound, of distinct ids, sharing no key, each matching its preimage on D1 as compared |
| RestoreGroups.GroupByKey | memora/local_primary.py:1201-1211 | every row but an action shows its group in its key |

## Left out

- Transport, HTTP and process control: D1 requests, R2, launchd and the routes are outside; D1 is its rows, its epoch counter, its triggers and its cascade.
- `write_gate.py`, `sql_classify.py`, `shadow.py` and, but for the two edges memory_link writes, `storage.py` are not part of this model.
- The outbox's op column, the log's day files and attempt ids, error counters, the write probe, metrics, backoff and the loop's timing.
- `is_added_parent` and `log_compare`: the extra keys of the log are not classified, and the second replay, in append order, is not modelled.
- `_stable_compare` and `_record`: the nightly bookkeeping around the compare.
- The shadow probe, the barrier compare's drain wait and `_previous_night_keys`: they only decide when a compare runs.
- ReplicatorHistory.ForeignWriteHalts: covers the writes that land with nothing out, because the code does not catch the others; ForeignWrites.ForeignWriteCaughtExactly covers every reachable state.
- Foreign writes to the other five tables: the epoch does not count them, so no preflight sees them.
- Outbox.TriggersRecordEveryChange: an embedding row that a local trigger clears is enqueued again under the same key; here it is enqueued once.
- ReplayRebuilds.LogRebuildsStore: a row without some schema column may keep there, in the replay, what an older line left, because an UPSERT merges; rows read with SELECT * have every column.
- Statements.BuildMakesRowEqual: D1 columns the local table does not have keep their values.
- A local write of several rows is several writes here; the transaction around them only removes interleavings.
- JournalSafety.EveryCrashKeepsUnknown: the journal's path and lock are taken as its own, so the inode check is not modelled.
- RebuildLease.RebuildStore.RebuildAll: statements commit one by one, as on D1; the stamp's audit contents, and ordinary unfenced vector writes beside a rebuild, are not part of it.
- Rounding of stored vectors, fingerprints' texts and the other compatibility rules of `embeddings.py`.
- LinkPlan.Classify: the order inside the plan's lists is not modelled.
- CopyOnce.Copy.CreateMissing: provided markers and attempt records are not removed by hand, as the tool itself demands.
- StoreLock.Lock.DrainDeferred: promptness and fairness of deferred closes are not claimed, and a failed close is only logged.
- StoreWrite.AllOrNone: one connection; a block on another store inside it, a failing rollback and writes through raw transaction SQL are not modelled.
- Readiness: payload ages and staleness flags, the executor's own queue, and the periodic task.
- Restore.UpsRun: rows are whole and settled; a snapshot of an older schema, whose rows lack columns, ends in the code's halt and is not modelled. Dangling references and the delete guard of a restore are left out too.
- The CLI, tokens and admin auth, config audit, data-volume checks, hierarchy, read ledger, graph viewer and chunker.

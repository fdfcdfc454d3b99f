# Frust kernel: verified models

Dafny models of the parts of the Frust kernel whose guarantees hold only over whole runs, and proofs of
those guarantees. `dafny verify dfyconfig.toml` checks everything.

## What is modelled

- **Rollups** (`Rollup`, `RollupLaws`, `RollupRuns`). The Tier-2 worker: feed decoding, signed exact
  contributions, and the transaction that posts deltas and moves the cursor. Runs interleave source
  transactions with the worker's statements, crashes and resets; the maintained table always equals the
  one recomputed from the documents held at the cursor.
- **Undo** (`TextPatch`, `TextPatchLaws`, `TextPatchPrinter`, `Json`, `JsonUndo`, `Rfc6902`,
  `JsonUndoLaws`, `UndoEdits`). The strict text-diff interpreter and the undo-operation interpreter,
  against what diffs and JSON patches mean by themselves. Hunk offsets are in the original source's
  coordinates, as the code reads them.
- **Counters** (`Counter`). The Tier-1 EVENT, one mutation at a time, against its backfill.
- **Jobs** (`JobQueue`, `Fairness`, `FairnessLaws`, `Resident`). The leased queue under any number of
  workers, the fair claim order, the token bucket, and the resident worker's drain.
- **Money** (`Rationals`, `Decimal`). The exact decimal and the rational it denotes.
- **Caches** (`Generations`). Generation-tagged caches with readers and writers statement by statement.
- **Writes** (`Contract`, `WritePath`, `Lifecycle`). The broker's update path, concurrent updates of one
  record, and the docstatus lattice with its hooks and triggers.
- **Printers** (`Surql`, `SurqlReader`, `SurqlLaws`, `SurqlFilters`, `Utf8`, `Text`, `Tar`, `TarLaws`).
  SurrealQL text and USTAR bundles, each with a reader that undoes it.
- **Fixtures** (`Fixtures`, `FixtureRuns`). Planning, applying, orphaning and re-adopting app-owned rows,
  sequentially and with any number of apps at once.
- `Wrappers` and `Collections` hold what the others share.

Code that the kernel writes with loops over mutable state is a method or a class whose contract equates
its result, or its new state, with a function of the old one; the laws are lemmas about those functions.
Protocols are state machines over atomic database statements: a run is a sequence of states, each
following from the last by one enabled step. The database is assumed to execute one statement
atomically, to commit BEGIN/COMMIT whole or not at all, and to serve feed entries in versionstamp order.

## What the proofs found

- `drain` stops at a batch that decodes to no change. A thousand table definitions before a document
  leave the document behind (`RollupRuns.DrainMisses`); otherwise it catches up
  (`RollupRuns.DrainCatchesUp` says exactly when).
- `backfill_counter` groups by key but addresses rows by the key's string cast, so it is exact precisely
  when keys in use have casts of their own (`Counters.BackfillExact`). The one type the schema gives each
  field sees to that (`Counters.TypedBackfillExact`): the EVENT and the backfill agree without condition.
- The comparison of decimals clips when it rescales; the precise condition is `Decimals.ClipsOnto`, and
  where it holds unequal amounts compare equal (`Decimals.CmpNumeric`, and `Decimals.CmpClips` for two).
- The text form of a decimal parses back except for the mantissa `i128::MIN` (`Decimals.PrintParse`).
- Array indices with a plus sign or leading zeros, removals of what is absent, replacements of absent
  members and additions past the end are carried out where RFC 6902 refuses them
  (`JsonUndoLaws.LaxExactly`, `JsonUndoLaws.LaxCases`).
- A duration without a unit is printed as an integer, and empty conjunctions and disjunctions alike as
  `()` (`SurqlFilters.DurationAmbiguous`, `SurqlFilters.EmptyAmbiguous`). `SurqlLaws.ValueReads` and
  `SurqlFilters.RenderReads` say exactly which values and filters read back.
- A text change at a path without a slash is taken for the document (`JsonUndoLaws.ChangeAtRoot`).
- The on_submit edge is read before validate runs, so a validate hook that sets docstatus itself passes
  it by (`Lifecycle.EdgeBypassed`); `Lifecycle.EdgesConsulted` and `Lifecycle.CreateEdgesConsulted` say
  exactly when a committed edge was put to its hook.
- The comparison that keeps echoes out of a write also drops reformatting (`WritePath.ReformattingLost`).
- Between the deletion of a session and the bump a lookup can still be served it, as the code's own
  comment says (`Generations.RevocationRace`); once the bump has returned it cannot.
- A job without a tenant is never claimed by the resident worker: its group is read as the worker's own
  tenant, whose query does not select it. `Residents.Resident.Tick` leaves every such eligible job as it
  was; its other guarantees are about stamped jobs.

## Model

Paths are relative to the repository root.

| member | source | states |
|---|---|---|
| `TextPatch.DecodeLine` | frust-kernel/kernel/src/aggregates.rs:47-62 | the byte loop over `%` escapes decodes a line exactly as the recursive reading of it does, strict UTF-8 and bad escapes included |
| `TextPatchPrinter.DecodeMeans` | frust-kernel/kernel/src/aggregates.rs:47-62 | a line decodes to a text if and only if its bytes with the escapes undone are exactly that text's UTF-8 |
| `Utf8.Utf8Strict` | frust-kernel/kernel/src/aggregates.rs:61 | bytes decode to a text if and only if they are its own encoding: no overlong, truncated or surrogate form is accepted |
| `TextPatch.DmpUnpatch` | frust-kernel/kernel/src/aggregates.rs:45-111 | the loop over hunk headers and hunk lines, with its consumed position and output buffer, is the recursive interpreter on every source and every patch text, errors included |
| `TextPatchLaws.UnpatchMeans` | frust-kernel/kernel/src/aggregates.rs:45-111 | the undo answers a text if and only if the patch spells hunks whose context and deleted text sit at their source offsets with unchanged runs between them, and the answer is those runs and the context with the inserted text in place |
| `TextPatchPrinter.DecodeEncode` | frust-kernel/kernel/src/aggregates.rs:47-62 | percent-encoding any text, whichever plain characters are spared, decodes to the same text |
| `TextPatchPrinter.HeaderRead` | frust-kernel/kernel/src/aggregates.rs:68-83 | a printed header (1-based start, or the position itself when the length is 0, length left out when 1) is read back as its source offset, whatever follows the plus sign |
| `TextPatchPrinter.ParsePrinted` | frust-kernel/kernel/src/aggregates.rs:67-107 | every list of hunks is read back from its printed text |
| `TextPatchPrinter.PrintedPatchApplies` | frust-kernel/kernel/src/aggregates.rs:45-111 | any hunk list placed in source coordinates, printed, takes the text it describes to its target |
| `JsonUndo.UndoOp` | frust-kernel/kernel/src/aggregates.rs:118-200 | walking down the parents, editing the last container and carrying the edit up is the recursive edit at the path, for every document and operation, errors included |
| `JsonUndo.ApplyUndo` | frust-kernel/kernel/src/aggregates.rs:116-203 | the operations are applied in order to a copy of the current document, stopping at the first error |
| `JsonUndoLaws.TokenAgrees` | frust-kernel/kernel/src/aggregates.rs:127-131 | replacing `~1` and then `~0` everywhere reads a well-formed token as section 4 of RFC 6901 does |
| `JsonUndoLaws.UndoIsRfc` | frust-kernel/kernel/src/aggregates.rs:116-203 | every list of add, remove and replace operations applicable under section 4 of RFC 6902 takes the kernel to the RFC's document |
| `JsonUndoLaws.UndoRestores` | frust-kernel/kernel/src/aggregates.rs:116-203 | the inverse list of any applicable edit list, written as JSON, takes the edited document back to the one before |
| `JsonUndoLaws.UndoMeans` | frust-kernel/kernel/src/aggregates.rs:116-203 | undo lists mixing text changes with document operations lead to the document they mean, each text change being the replacement of the text it points at by that text with the diff taken back |
| `UndoEdits.EditsUndone` | frust-kernel/kernel/src/aggregates.rs:113-203 | for any list of edits, document operations and text changes mixed, the list of their undo operations written as JSON restores the document |
| `UndoEdits.PrintedRetext` | frust-kernel/kernel/src/aggregates.rs:113-115 | a text with a printed diff back to the text it replaces is such an edit, whatever hunks the diff has |
| `JsonUndoLaws.LaxExactly` | frust-kernel/kernel/src/aggregates.rs:133-198 | the kernel carries out every operation the RFC does, with its result, and of the others exactly those whose path enters an array by an index with a plus sign or leading zeros or ends in a lax step |
| `JsonUndoLaws.LaxLeaf` | frust-kernel/kernel/src/aggregates.rs:161-198 | the lax last steps, exactly: removing or replacing an absent member, removing at `-` or past the end, adding past the end, and an index with a plus sign or leading zeros |
| `JsonUndoLaws.LaxCases` | frust-kernel/kernel/src/aggregates.rs:161-198 | what each lax last step does: a removal changes nothing, a replacement inserts the member, an addition appends, a misspelt index stands for the plain one |
| `JsonUndoLaws.ChangeAtRoot` | frust-kernel/kernel/src/aggregates.rs:127-135 | a path has no tokens if and only if it has no slash, and then any operation's value, a diff included, becomes the document |
| `Rfc6902.PointerRoundTrip` | frust-kernel/kernel/src/aggregates.rs:127-131 | a printed JSON pointer reads back as its tokens |
| `Rfc6902.InverseAllUndoes` | frust-kernel/kernel/src/aggregates.rs:113-115 | the inverse of an applicable edit list is applicable to the result and undoes it |
| `Rollups.DecodeFeed` | frust-kernel/kernel/src/aggregates.rs:206-230 | the loops over entries and changes give the decoded changes in feed order and the last versionstamp, or the first error |
| `Rollups.Contribute` | frust-kernel/kernel/src/aggregates.rs:317-339 | the loop over lines accumulates quantity and amount per item as the recursive definition does |
| `Rollups.AddShares` | frust-kernel/kernel/src/aggregates.rs:433-441 | folding a document's shares into the accumulator, key by key and field by field, signed |
| `Rollups.Fold` | frust-kernel/kernel/src/aggregates.rs:424-444 | the fold over changes: each before-document subtracted, then each after-document added |
| `Rollups.RollupWorker.Tick` | frust-kernel/kernel/src/aggregates.rs:408-465 | a tick commits the posted deltas together with the new cursor, or nothing at all |
| `Rollups.RollupWorker.Posted` | frust-kernel/kernel/src/aggregates.rs:445-460 | one UPSERT per folded key in any order posts every delta once and leaves other rows alone |
| `Rollups.RollupWorker.Drain` | frust-kernel/kernel/src/aggregates.rs:497-506 | the drain loop terminates and is the recursive drain over what is pending |
| `Rollups.RollupWorker.RecomputeFromSource` | frust-kernel/kernel/src/aggregates.rs:479-495 | recompute empties the table and the cursor and drains the whole feed |
| `RollupLaws.ContributionExact` | frust-kernel/kernel/src/aggregates.rs:293-339 | a handler's shares are the exact sums over the document's lines (or the customer's group total and count) |
| `RollupLaws.ChangesFolded` | frust-kernel/kernel/src/aggregates.rs:424-444 | the signed fold moves every column by the exact net share of the changes, whatever the order of keys |
| `RollupLaws.TickAdds` | frust-kernel/kernel/src/aggregates.rs:408-465 | a committed tick moves every column by the net share of the changes it decoded |
| `RollupRuns.WireDecodes` | frust-kernel/kernel/src/aggregates.rs:212-227 | each change as the feed prints it decodes to the documents before and after the mutation |
| `RollupRuns.EditsAreLegal` | frust-kernel/kernel/src/aggregates.rs:113-116 | any edit RFC 6902 can apply, with its inverse list as the undo, is a legal feed update |
| `RollupRuns.TextEditsAreLegal` | frust-kernel/kernel/src/aggregates.rs:113-116 | so is any list of edits mixing document operations with text changes |
| `RollupRuns.SegmentDecodes` | frust-kernel/kernel/src/aggregates.rs:206-230 | any stretch of the feed decodes to exactly the changes of its transactions and the last one's versionstamp |
| `RollupRuns.TotalsDiffer` | frust-kernel/kernel/src/aggregates.rs:232-248 | the changes between two points of the log account for the difference of the recomputed sums there |
| `RollupRuns.TickKeeps` | frust-kernel/kernel/src/aggregates.rs:408-465 | committing any batch that starts at the cursor keeps the table equal to the one recomputed from the documents held at the cursor |
| `RollupRuns.StepKeeps` | frust-kernel/kernel/src/aggregates.rs:408-465 | every step of the pipeline (source write, cursor read, fetch, commit, crash, reset) keeps the invariant |
| `RollupRuns.AlwaysMaintained` | frust-kernel/kernel/src/aggregates.rs:375-507 | in every reachable state each column is the sum of the shares of the documents the source held at the cursor's versionstamp; a crash before COMMIT never double-counts |
| `RollupRuns.RecomputeAgrees` | frust-kernel/kernel/src/aggregates.rs:467-495 | two runs over one log that stand on the same versionstamp agree, however often either was reset |
| `RollupRuns.DrainCatchesUp` | frust-kernel/kernel/src/aggregates.rs:497-506 | a drain that no error stops has caught up if and only if no full batch of table definitions is followed by more entries |
| `RollupRuns.RecomputeCatchesUp` | frust-kernel/kernel/src/aggregates.rs:479-506 | unless it stalls so, recompute on a complete feed leaves the sums over every document the source holds |
| `RollupRuns.DrainMisses` | frust-kernel/kernel/src/aggregates.rs:497-506 | a concrete feed, a thousand table definitions and then a document, on which the drain stops early |
| `Counters.TallyCounts` | frust-kernel/kernel/src/sync.rs:202-207 | the tally of column n is the number of counted documents, and every column is zero where there are none |
| `Counters.EventAdds` | frust-kernel/kernel/src/sync.rs:208-236 | one EVENT moves every column of every row by the difference of the two contributions |
| `Counters.WritesExact` | frust-kernel/kernel/src/sync.rs:202-236 | over any sequence of creates, edits, key moves, submits, cancels and deletes every column stays the sum over the counted documents of its key |
| `Counters.BackfillExact` | frust-kernel/kernel/src/sync.rs:259-285 | whatever order the groups come in, backfilled rows are exact if and only if no two keys in use have the same string cast |
| `Counters.CollisionLoses` | frust-kernel/kernel/src/sync.rs:276-282 | the condition of BackfillExact is needed: were two keys of one cast in use, the row would count only one of the groups |
| `Counters.OneTypeApart` | frust-kernel/kernel/src/sync.rs:276-282 | keys of one field type have string casts of their own |
| `Counters.TypedBackfillExact` | frust-kernel/kernel/src/sync.rs:259-285 | with the one type the schema gives a key field, backfilled rows are exact whatever order the groups come in |
| `Counters.EventMatchesBackfill` | frust-kernel/kernel/src/sync.rs:208-285 | while casts are apart the EVENT's rows equal a backfill's on every key, n is the number of counted documents, and the EVENT's other rows are zero |
| `Counters.EventMatchesTypedBackfill` | frust-kernel/kernel/src/sync.rs:208-285 | over any writes whose keys have the field's one type the EVENT's rows equal a backfill's on every key, with no further condition |
| `Counters.CounterTable.Commit` | frust-kernel/kernel/src/sync.rs:223-231 | a write fires the EVENT in place and keeps the rows exact |
| `Counters.CounterTable.Refill` | frust-kernel/kernel/src/sync.rs:259-285 | the loop of UPSERTs after the DELETE gives the backfilled rows and returns how many there are |
| `Counters.CounterTable.Moved` | frust-kernel/kernel/src/sync.rs:217-222 | the SET list, n and then metric by metric, moves exactly the named columns |
| `Decimals.PrintParse` | frust-kernel/kernel/src/decimal.rs:209-222 | the plain text parses back to the same mantissa and scale if and only if the mantissa is not `i128::MIN`, and is refused there |
| `Decimals.AddExact` | frust-kernel/kernel/src/decimal.rs:115-130 | addition is exact on the denoted rationals if and only if nothing saturates |
| `Decimals.NegValue` | frust-kernel/kernel/src/decimal.rs:132-135 | negation is the numeric negation and undoes itself |
| `Decimals.CmpNumeric` | frust-kernel/kernel/src/decimal.rs:269-274 | comparison is the numeric order across scales if and only if rescaling does not clip one operand onto the other; where it clips the answer is Equal |
| `Decimals.CmpClips` | frust-kernel/kernel/src/decimal.rs:269-274 | two concrete unequal amounts that compare equal |
| `Decimals.MulExact` | frust-kernel/kernel/src/decimal.rs:143-147 | multiplication is exact, and refused if and only if the product has no `i128` mantissa |
| `Decimals.RoundsToUnique` | frust-kernel/kernel/src/decimal.rs:236-261 | each rounding mode names one integer for each real |
| `Decimals.ApplyRoundingExact` | frust-kernel/kernel/src/decimal.rs:239-261 | with an `i128` divisor neither doubling the remainder nor the carry overflows, and the answer is the exact quotient rounded under the mode |
| `Decimals.DivRoundExact` | frust-kernel/kernel/src/decimal.rs:156-181 | a division that answers Ok is the exact rational quotient rounded to the scale; it refuses a zero divisor, operands that do not scale and unrepresentable results, and nothing else |
| `Decimals.DivRoundSymmetric` | frust-kernel/kernel/src/decimal.rs:156-181 | negating either operand keeps every refusal and negates every answer, under every mode |
| `Decimals.RoundExact` | frust-kernel/kernel/src/decimal.rs:186-202 | dropping up to 38 decimals is the exact value rounded under the mode |
| `Decimals.RoundSymmetric` | frust-kernel/kernel/src/decimal.rs:186-202 | rounding is symmetric in sign if and only if widening does not saturate |
| `Decimals.RoundWidens` | frust-kernel/kernel/src/decimal.rs:186-202 | widening keeps the value if and only if the mantissa still fits |
| `Decimals.RoundError` | frust-kernel/kernel/src/decimal.rs:186-202 | one rounding is off by at most half a unit (less than a unit for Down) |
| `Decimals.SumRoundedError` | frust-kernel/kernel/src/decimal.rs:124-202 | n rounded lines, summed without saturation, stay within n half-units of the exact sum (n units for Down) |
| `JobQueue.Queue.TryClaimFrom` | frust-kernel/kernel/src/worker.rs:207-240 | the conditional UPDATE claims exactly when its predicate holds, with a fresh token, the lease and one more attempt |
| `JobQueue.Queue.TryClaim` | frust-kernel/kernel/src/worker.rs:195-205 | a claim succeeds exactly on an eligible job, within five attempts, and owns it |
| `JobQueue.Queue.RenewLease` | frust-kernel/kernel/src/worker.rs:244-258 | only the owning claim extends its lease |
| `JobQueue.Queue.Settle` | frust-kernel/kernel/src/worker.rs:459-522 | a completion or requeue is applied exactly when its claim still owns the row |
| `JobQueue.Queue.ReapExhausted` | frust-kernel/kernel/src/worker.rs:263-288 | exactly the exhausted queued or expired jobs become dead |
| `JobRuns.AttemptsBounded` | frust-kernel/kernel/src/worker.rs:92-130 | in every run a job's attempts are its successful claims, five at most, and every queued job is claimable |
| `JobRuns.NothingStranded` | frust-kernel/kernel/src/worker.rs:92-112 | a job not finished for good can be claimed, or reaped, or has a running lease still to expire |
| `JobRuns.TerminalStays` | frust-kernel/kernel/src/worker.rs:132-162 | done, denied and dead rows never change again |
| `JobRuns.AcceptedOnce` | frust-kernel/kernel/src/worker.rs:459-522 | however late or often completions come, a token has at most one accepted |
| `JobRuns.OnlyLatest` | frust-kernel/kernel/src/worker.rs:132-140 | a completion, requeue or renewal gets through only for the job's latest claim, still open, with its attempt number |
| `JobRuns.RetryBudget` | frust-kernel/kernel/src/worker.rs:142-162 | an accepted retry of the fifth attempt is terminal, an earlier one leaves a claimable job |
| `JobRuns.ClaimExcludes` | frust-kernel/kernel/src/worker.rs:114-130 | a claimed job is neither claimable nor reapable again until 300 seconds later, and then one of the two |
| `JobRuns.OneOwner` | frust-kernel/kernel/src/worker.rs:92-140 | while a claim's lease runs nobody else can claim the job or pass its fence |
| `TokenBuckets.TakeValid` | frust-kernel/kernel/src/fairness.rs:58-73 | tokens stay within [0, burst], and an admitted call is paid for |
| `TokenBuckets.RateBound` | frust-kernel/kernel/src/fairness.rs:51-73 | any calls in any window admit at most burst + rate * elapsed |
| `TokenBuckets.HintExact` | frust-kernel/kernel/src/fairness.rs:58-73 | after a refusal the next call succeeds if and only if it comes no earlier than the hint and the burst holds a whole token |
| `TokenBuckets.VerbDoor.AdmitVerb` | frust-kernel/kernel/src/fairness.rs:111-132 | only this tenant's bucket changes, and waiting the hint in milliseconds is enough when the burst is at least 1 |
| `FairRounds.WorkerDoor.Grouped` | frust-kernel/kernel/src/fairness.rs:149-156 | grouping gives the tenants in order of first appearance, each with its jobs in queue order |
| `FairRounds.WorkerDoor.Interleave` | frust-kernel/kernel/src/fairness.rs:161-179 | the passes over the tenants take everybody's next job until a pass moves nobody |
| `FairRounds.WorkerDoor.FairRound` | frust-kernel/kernel/src/fairness.rs:149-179 | the order is the rotated round-robin, and the counter moves exactly when there are several tenants |
| `FairLaws.FairShare` | frust-kernel/kernel/src/fairness.rs:142-179 | each tenant is given exactly its first min(cap, queued) jobs in queue order |
| `FairLaws.BoundedWait` | frust-kernel/kernel/src/fairness.rs:142-179 | a tenant's k-th job (from 0) comes before slot (k+1)*T, behind exactly k of its own |
| `FairLaws.Head` | frust-kernel/kernel/src/fairness.rs:136-160 | with caps above zero the round starts with the tenant the counter points at |
| `FairLaws.HeadsOnce` | frust-kernel/kernel/src/fairness.rs:136-160 | over T consecutive rounds on one tenant list each tenant heads exactly one |
| `Residents.Resident.HeadsOf` | frust-kernel/kernel/src/worker.rs:327-333 | a tenant's heads are its oldest eligible jobs, ten at most, oldest first |
| `Residents.Resident.ListHeads` | frust-kernel/kernel/src/worker.rs:302-346 | if nothing is listed, no job stamped with a tenant was eligible when the scan began, even with more than 32 tenants |
| `Residents.Resident.ClaimNext` | frust-kernel/kernel/src/worker.rs:302-355 | nothing claimed means nothing stamped was eligible; a claimed job is the oldest its tenant had |
| `Residents.Resident.Tick` | frust-kernel/kernel/src/worker.rs:600-607 | the loop terminates because every claim costs an attempt, ends with nothing stamped eligible at its last scan, and leaves eligible jobs without a tenant as they were |
| `Generations.Registry.Handle` | frust-kernel/kernel/src/tenant_gen.rs:50-55 | a handle once resolved is shared and never replaced |
| `Generations.Registry.ForTenant` | frust-kernel/kernel/src/tenant_gen.rs:58-60 | a tenant's session and meta counters are distinct |
| `Generations.Registry.Invalidate` | frust-kernel/kernel/src/tenant_gen.rs:64-73 | a bump moves its own counter by one and no other tenant's or kind's |
| `Generations.LookupsFresh` | frust-kernel/kernel/src/broker.rs:344-362 | a lookup returns what some version of the rows says, no older than any write whose invalidation had returned when it started, whatever slow readers insert |
| `Generations.LookupSeesWrite` | frust-kernel/kernel/src/broker.rs:344-362 | a lookup that starts after a write's bump has returned answers from that write's version or a later one, for every key |
| `Generations.RevokedStaysOut` | frust-kernel/kernel/src/rest.rs:474-489 | a key absent from every version since a revoking write is refused by every lookup that starts after its bump |
| `Generations.BumpsConfined` | frust-kernel/kernel/src/tenant_gen.rs:62-73 | a bump leaves every other tenant's and kind's generation, cache and rows as they were |
| `Generations.RevocationRace` | frust-kernel/kernel/src/rest.rs:438-455 | a concrete run in which a lookup between the deletion and the bump is still served the revoked session |
| `Generations.StepKeeps` | frust-kernel/kernel/src/hooks.rs:372-397 | every step of loading, looking up, reading, inserting, writing and bumping keeps each cached entry backed by a version its generation promises |
| `WritePath.SameAmount` | frust-kernel/kernel/src/broker.rs:239-253 | two values that read as numbers are the same if and only if they denote the same amount or the comparison clips one onto the other |
| `WritePath.BuildShown` | frust-kernel/kernel/src/broker.rs:860-869 | the merge loop gives the hook the baseline with the caller's fields over it and the injected id |
| `WritePath.ShownIs` | frust-kernel/kernel/src/broker.rs:856-869 | the hook sees every field as the caller last wrote it, or else as the record holds it, and always an id |
| `WritePath.Shrink` | frust-kernel/kernel/src/broker.rs:912-944 | the three retains keep exactly the entries the single rule keeps, in order |
| `WritePath.ShrunkHolds` | frust-kernel/kernel/src/broker.rs:912-944 | an entry is persisted if and only if the hook returned it, it is a declared or engine field other than the id, and the caller wrote it or the hook changed it |
| `WritePath.EchoNeverWidens` | frust-kernel/kernel/src/broker.rs:925-944 | the write stays within the caller's fields if and only if the hook echoes every other field up to the same value |
| `WritePath.ReformattingLost` | frust-kernel/kernel/src/broker.rs:239-253 | a hook that rewrites the text 7 as 007 changes nothing |
| `ConcurrentWrites.NoLostUpdate` | frust-kernel/kernel/src/broker.rs:856-957 | in every interleaving of baseline reads and MERGEs with disjoint touched fields, each written field holds its writer's value and every other field what it held |
| `Lifecycle.TriggersOnce` | frust-kernel/kernel/src/broker.rs:1006-1025 | in any sequence of requests Submit and Cancel each fire at most once per incarnation |
| `Lifecycle.LatticeExact` | frust-kernel/kernel/src/sync.rs:134-143 | an update commits exactly when docstatus is below 2 and stays or rises by one and no edge hook rejects; a deletion exactly at 0 |
| `Lifecycle.EdgesConsulted` | frust-kernel/kernel/src/broker.rs:898-910 | a committed change of docstatus was put to exactly the hook of its edge if and only if the document shown to the edge hooks already had the stored docstatus; an update that keeps docstatus consulted nobody exactly when the shown document did not move it to 1 or 2 |
| `Lifecycle.CreateEdgesConsulted` | frust-kernel/kernel/src/broker.rs:898-910 | the same for a document created at a docstatus, whose edge is read from 0 |
| `Lifecycle.EdgeBypassed` | frust-kernel/kernel/src/broker.rs:898-912 | a validate hook that moves docstatus itself passes by the submit hook |
| `Surql.RenderObject` | frust-kernel/kernel/src/surql.rs:77-87 | pushing one part per entry renders the object literal |
| `Surql.BuildPath` | frust-kernel/kernel/src/surql.rs:90-118 | appending segment by segment renders the path |
| `SurqlLaws.QuotedReads` | frust-kernel/kernel/src/surql.rs:13-15 | an escaped string reads back unchanged up to its closing quote, whatever follows |
| `SurqlLaws.ValueReads` | frust-kernel/kernel/src/surql.rs:21-88 | a renderable value, nested literals and record keys included, reads back unchanged if and only if every duration in it starts with a digit and has a unit |
| `SurqlFilters.SegmentsRead` | frust-kernel/kernel/src/surql.rs:90-118 | a rendered path reads back as its segments, link hops as fields |
| `SurqlFilters.RenderReads` | frust-kernel/kernel/src/surql.rs:120-145 | the text of a renderable filter reads back whole as its normal form if and only if it has no empty list and every duration has a unit |
| `SurqlFilters.NormMeans` | frust-kernel/kernel/src/surql.rs:157-163 | the normal form has the same truth for every reading of the comparisons and the same range comparisons |
| `SurqlFilters.SameMeaning` | frust-kernel/kernel/src/surql.rs:120-163 | a filter read back from its text means what was meant |
| `SurqlFilters.DurationAmbiguous` | frust-kernel/kernel/src/surql.rs:55-62 | a duration shares its text with another value if and only if it is the numeral of an integer, and then with that integer only; a duration with a unit never does |
| `SurqlFilters.EmptyAmbiguous` | frust-kernel/kernel/src/surql.rs:122-129 | an empty conjunction and an empty disjunction have one text, which does not read back |
| `Tar.WriteOctal` | frust-kernel/app-sdk/src/lib.rs:478-488 | writing into the slice fills exactly that field with zero-padded octal digits and a NUL, or refuses |
| `Tar.BuildHeader` | frust-kernel/app-sdk/src/lib.rs:453-470 | the header filled in place, summed byte by byte, is the specified header |
| `Tar.WriteTar` | frust-kernel/app-sdk/src/lib.rs:443-476 | the loop writes the blocks of the files in order and the trailer, or stops at the first unusable entry |
| `Tar.ChecksumFits` | frust-kernel/app-sdk/src/lib.rs:466-468 | a header's byte sum always prints in six octal digits, filling its field exactly |
| `Tar.TarEntryNames` | frust-kernel/app-sdk/src/lib.rs:635-653 | the offset loop gives the names of the entries read from the front |
| `TarLaws.HeaderLayout` | frust-kernel/app-sdk/src/lib.rs:453-465 | every ustar field at its offset |
| `TarLaws.ChecksumRight` | frust-kernel/app-sdk/src/lib.rs:466-468 | the stored octal checksum is the byte sum with the checksum field as spaces |
| `TarLaws.WholeBlocks` | frust-kernel/app-sdk/src/lib.rs:470-475 | the output is a multiple of 512 bytes long |
| `TarLaws.ArchiveSucceeds` | frust-kernel/app-sdk/src/lib.rs:444-459 | writing succeeds exactly on ASCII paths of at most 100 bytes and sizes of at most eleven octal digits |
| `TarLaws.ArchiveReads` | frust-kernel/app-sdk/src/lib.rs:443-476 | the archive reads back as its files in order with their bytes, and with their names if and only if no name has a NUL |
| `Fixtures.BuildId` | frust-kernel/kernel/src/rest.rs:1235-1245 | the buffer loop gives the hex of both parts around an underscore |
| `Fixtures.IdsDistinct` | frust-kernel/kernel/src/rest.rs:1235-1245 | distinct (doctype, key) pairs never share a provenance id |
| `Fixtures.Tenant.PlanFixtures` | frust-kernel/kernel/src/rest.rs:2073-2183 | the planning loop sorts the fixtures into refusals, rows and overwrites |
| `Fixtures.Tenant.ApplyFixtures` | frust-kernel/kernel/src/rest.rs:2224-2352 | the apply loop claims, writes and records fixture by fixture; a foreign owner stops it with the store as the fixtures before left it |
| `Fixtures.StopsAtForeign` | frust-kernel/kernel/src/rest.rs:2224-2250 | applying stops exactly before the first fixture whose owner is foreign by then, all earlier ones applied |
| `Fixtures.Tenant.OrphanRemovedFixtures` | frust-kernel/kernel/src/rest.rs:2354-2375 | the loop over the previous manifest is the fold that orphans each fixture the next one does not declare |
| `Fixtures.OrphanRemovedIs` | frust-kernel/kernel/src/rest.rs:2354-2375 | per record: exactly the provenance of fixtures no longer declared becomes inactive; owners, shipped states and rows stay |
| `Fixtures.QuietPlanIsSafe` | frust-kernel/kernel/src/rest.rs:2073-2183 | a plan needs no acknowledgement if and only if every row it would write is absent and unclaimed or in the state this app shipped |
| `Fixtures.PlannedApplies` | frust-kernel/kernel/src/rest.rs:2224-2250 | a plan that is not refused applies to the end when nobody else is at work |
| `Fixtures.AppliedRow` | frust-kernel/kernel/src/rest.rs:2289-2325 | besides the engine's columns a row just applied has exactly the fixture's values |
| `Fixtures.AppliedEngineColumns` | frust-kernel/kernel/src/rest.rs:2289-2325 | status and docstatus come from the fixture, else from the state shipped before, else from the row as it was |
| `Fixtures.ReplanQuiet` | frust-kernel/kernel/src/rest.rs:2073-2352 | planning a validated manifest right after applying it finds only its own up-to-date rows and no overwrite |
| `Fixtures.ReAdoptQuiet` | frust-kernel/kernel/src/rest.rs:2377-2385 | after an uninstall the same manifest re-adopts every row without overwriting |
| `FixtureRuns.OwnerForGood` | frust-kernel/kernel/src/rest.rs:2224-2385 | in any interleaving of installs, updates and uninstalls, statement by statement, a claimed provenance never changes owner |
| `FixtureRuns.OthersRefused` | frust-kernel/kernel/src/rest.rs:2085-2107 | any other app past the claim does not exist, and any other app that plans the row is refused |

## Left out

- Rollups.Plus: outside the `i128` envelope the code saturates, or overflows where scales differ by more than 38; the model's fold stops there instead, so the run theorems are about folds that stay inside.
- RollupRuns.AlwaysMaintained: one worker per rollup, as the kernel runs it; two workers on one rollup would both post a batch.
- Rollups.GroupOf: the customer's group is a fixed map; the memoised database lookup and its errors are not modelled.
- Rollups.Contribute: items come in order of first appearance, not sorted; keys of different rows never interact.
- Rollups.RollupWorker.Drain: the feed does not grow during the method; growth between statements is in `RollupRuns`.
- Rollups.RollupWorker.Tick: the lag gauge, the `k` column and `updated_at` are not modelled; a decimal posted to a column is read as the number it denotes.
- JsonUndo.UndoOp: the mutable reference down the document is a list of visited containers that carry the edit up; aliasing is not modelled.
- Json.Value: numbers are kept as text; floating-point parsing and printing are not modelled.
- Rfc6902.Apply: removing the whole document has no result document and is left aside, and so are array indices beyond memory.
- Counters.Key: a key column whose field was retyped while old rows remain is outside the schema and outside `Counters.Typed`.
- Counters.GroupSum: a group's sum counts a missing metric field as zero, as the EVENT does.
- Decimals.Decimal: the scale is unbounded; its `u32` width is not modelled.
- JobQueue.Queue: tokens are numbers from a supply that never repeats; the text of a token, and a worker with an empty name, whose claims fail to decode, are not modelled.
- JobQueue.Queue.Settle: job effects, the re-derived authority and telemetry are outside; a run may end in any way.
- TokenBuckets.Bucket: time and tokens are real numbers; a limited policy has a positive rate and a burst of at least zero.
- FairRounds.WorkerDoor: the round counter does not wrap.
- Generations.Counter: the counter does not wrap at 64 bits; time to live is a miss that may happen at any moment.
- Generations.Store: each cache holds opaque values by key; what is loaded for a document type, a rule or a script is not modelled.
- WritePath.SameValue: floating-point values are left out, and scales more than 38 apart count as different where the code overflows.
- ConcurrentWrites.Merge: top-level fields are atomic; the database's deep merge of objects and its normalisation of stored decimals are not modelled.
- WritePath: permissions, before_insert, nested writes and naming are not modelled; a hook is any function from documents to documents.
- Lifecycle.Handle: one document and sequential requests; with a stale baseline a trigger can repeat.
- Surql.RenderValue: `Value::Float` is left out; the reader takes as a duration any run of digits and unit letters that starts with a digit and has a unit.
- Tar.WriteTar: what was written before an error is discarded, as the caller does with its temporary file.
- Fixtures.PlanOf: unknown doctypes, undeclared fields and values that do not render are refused before and are not modelled; a shipped row is stored as a value rather than as JSON text.
- FixtureRuns.AfterRead: reading a row is one statement; the query before it for whether the table exists is not modelled.
- Fixtures.Manifest: versions, schema migration, extension casualties and acknowledgement are not modelled.
- Boot locks, sign-in, HTTP, WebSocket subscriptions, mail delivery, tenancy configuration, recovery, manifest validation beyond fixtures, the Desk and the wasm hosts are not part of this model.

# skodun: a verified model of its protocols and planners

skodun is a review pipeline: it admits reviews under a capacity, reviews pushes in the background, plans batches,
walks chains of reviewers, packs context, and gates pushes on what was reviewed. This project models the parts
whose correctness is an argument about every run or every input, and proves those arguments in Dafny 4.11.
`dafny verify dfyconfig.toml` checks the whole project.

| files | what they model |
|---|---|
| `Admission`, `AdmissionLaws`, `Capacity` | the fair admission queue: one table of rows behind atomic store calls, any number of processes polling, reclaiming and dying in between, and the foreground path that nests a repository ticket in a machine ticket |
| `Ticks`, `Budgets` | clock ticks and the exact measure of spans; the supervisor of one execution with its queue, provider-wait, review and total budgets |
| `Reservations`, `Worker`, `Signals` | the background review protocol: reservations that supersede each other, the worker that reviews and settles one of them against every interleaving of the others, and the guard on who may be signalled |
| `ShellWords`, `Hooks` | shell quoting and the pre-push hook installer |
| `Batching`, `BatchingLaws`, `Planner` | the batch planner: sections, hunks with repeated headers, greedy packing |
| `Chain`, `Ceilings` | the chain executor against an adversary that picks every attempt's result, and the runtime ceilings that must cover it |
| `ContextPack`, `ContextPackLaws`, `Permutations` | the context packer under its byte envelope, and why the order of its arguments does not matter |
| `Evidence` | the union-find that counts the requests behind copied observations |
| `Fallbacks` | validation of the fallback graph |
| `Followups`, `FollowupStore` | follow-up bindings and their reuse across continuation generations |
| `BudgetStore` | execution-fenced snapshot and layer writes |
| `Records`, `LegacyImport`, `Gate` | trust of review records, the archive import, and the gate that reads what it stored |
| `Seqs` | lists of lists, shared by the others |

Code that changes state step by step is modelled by classes and loops (`Capacity.Store`, `Budgets.BudgetState`,
`Worker.Process`, `Hooks.HookDir`, `Evidence.Requests`, `FollowupStore.Store`, `BudgetStore.Connection`,
`LegacyImport.Store`, `Gate.EventLog`), each method against a specification function or a stated new state; what
the code promises is then proved of the specification. Shared tables are modelled as a log of committed calls, and
the safety laws are statements about every log.

## Where the code and its documentation differ

Each of these is kept as the code has it. A lemma names a concrete case, and another says exactly when the
documented promise does hold.

- Foreground admission with the legacy lock is not strictly first in, first out: the decision and the forced
  admission are two steps (`AdmissionLaws.DualHoldOvertakes`, `AdmissionLaws.ForceFairExactly`,
  `AdmissionLaws.DecidedForceIsFair`).
- `acquire` can return a ticket that an age reclaim has already rejected (`Capacity.AgeReclaimLosesSlot`,
  `Capacity.StartedExactly`).
- A budget that has finished can still change what it reports: queue stays and launches are still accepted, and a
  stay or a wait that outlived the finish can be closed. Active review time then falls, and clamps to zero fire
  (`Budgets.LateQueueExit`, `Budgets.LateEvents`); `Budgets.BudgetState.AtEnd`, `Budgets.BudgetState.EndQueue`,
  `Budgets.BudgetState.EndProviderWait` and `Budgets.BudgetState.Drive` say exactly when, and by how much. A poll
  that fails after the finish still writes a reason (`Budgets.BudgetState.Latch`).
- A late worker can rewrite a superseded record, through the unconditional demotion, after its own store call
  failed (`Worker.LateWorker` is such a run; `Reservations.SupersededExactly` and `Worker.Process.Run` say exactly
  when).
- The worker can end in an exception: the last read of its cancellation path is outside every handler
  (`Worker.Process.RecordCancellation` and `Worker.Process.Run` say exactly when).
- An unreadable backup hook is lost to a forced install over an empty hook (`Hooks.UnreadableBackupIsLost`,
  `Hooks.BackupLostExactly`).
- Outside a request no provider wait is reserved, so a configured wait above 60 seconds per chain entry outlives the
  ceilings (`Ceilings.UnreservedWaitOutlives`, `Ceilings.CoveredWithoutRequest`, `Ceilings.LockCoveredWithoutRequest`,
  over the runs of `Chain.LongestRun`).
- A demoted record that the store refuses counts as a demotion but not as a review
  (`LegacyImport.DemotedButNotImported`, `LegacyImport.DemotionsAreReviewsExactly`).
- Importing an archive twice restamps records that bring no completion time (`LegacyImport.SecondImportExactly`).
- Importing the ledger again dismisses once more what a person reopened in between
  (`LegacyImport.ReimportUndoesReopen`, `LegacyImport.ReimportKeepsDecisionExactly`).

## Model

| member | source | states |
|---|---|---|
| Admission.DecideAdmitExactly | src/skodun/capacity.py:313-330 | the rule admits a waiter exactly when it heads the queue of its class and scope by (queued_at, insertion order) and the holders are under the offered capacity |
| Admission.FirstQueuedIsHead | src/skodun/capacity.py:325-330 | the row that sorting by the key puts first is a queued row no queued peer precedes, and there is none exactly when nobody waits |
| Admission.FloorExactly | src/skodun/store.py:4968-5015 | the capacity a shared class is held to is the least of the offer and of the limits its current holders declared |
| Admission.ReclaimedAt | src/skodun/store.py:4896-4966 | a reclaim touches exactly the active rows of its class and scope whose process is gone, exited or reused, or that are past the age limit, and only by rejecting them |
| AdmissionLaws.RowHistory | src/skodun/store.py:4782-5130 | over any stretch of any history of store calls a row keeps its identity, a terminal row never changes again, and no row is queued twice |
| AdmissionLaws.LimitsHold | src/skodun/capacity.py:9-17 | in every legal history no holder of a shared class ever has more company in its scope than the limit it declared |
| AdmissionLaws.HoldersWithinOffers | src/skodun/capacity.py:313-330 | in every legal history the holders of a class and scope never exceed the largest capacity ever offered to it |
| AdmissionLaws.Fifo | src/skodun/capacity.py:313-330 | of two rows that were both admitted by the rule, the one with the smaller key that was enqueued before the other was admitted was admitted first |
| AdmissionLaws.HeadPersists | src/skodun/capacity.py:325-330 | while insertions are stamped in order, a row that heads the queue keeps heading it until it leaves it |
| AdmissionLaws.ForceFairExactly | src/skodun/store.py:5016-5056 | a forced admission overtakes nobody, in any continuation, exactly when the row is still the queue head at the moment it is forced |
| AdmissionLaws.DecidedForceIsFair | src/skodun/capacity.py:815-911 | the dual-hold path from its decision to the forced admission: a row the rule decided for that is still queued when forced overtakes nobody, as long as nothing was stamped before it in between |
| AdmissionLaws.DualHoldOvertakes | src/skodun/store.py:5016-5056 | a concrete run in which a forced row is admitted before a waiter that precedes it |
| Capacity.Store.CapacityTryAdmit | src/skodun/store.py:4968-5015 | one atomic call: the table becomes what the decision function says of it, a refusal changes nothing, and a row already past the queue is returned as it is |
| Capacity.Store.CapacityForceAdmit | src/skodun/store.py:5016-5056 | one atomic call: a queued foreground row is admitted only when its scope has no other holder |
| Capacity.Store.CapacityMarkStarted | src/skodun/store.py:5058-5090 | starts a row unless it is terminal, and returns the status that stands |
| Capacity.Store.CapacityFinish | src/skodun/store.py:5092-5130 | the first terminal status stands; a second finish changes nothing |
| Capacity.Store.CapacityReclaimStale | src/skodun/store.py:4896-4966 | the loop over peers leaves exactly the reclaimed table |
| Capacity.ForeignStep | src/skodun/capacity.py:9-17 | whatever another process does, a live process keeps its row, or loses it only as a holder reclaimed by age |
| Capacity.MachineRowStable | src/skodun/capacity.py:371-405 | a live process keeps its machine-wide row against every step of the others, age reclaim included |
| Capacity.AttemptForced | src/skodun/capacity.py:815-911 | decide, yield, take the lock, force: the ticket keeps waiting, or ends with its row terminal, or runs |
| Capacity.Acquire | src/skodun/capacity.py:640-739 | however a polling attempt ends, its row is running, or lost to an age reclaim, or terminal; other rows of the process survive; it polls on only before its deadline, is undecided only if killed, sleeps exactly the slices of its refused polls, and alone in the table is granted as soon as there is room |
| Capacity.SleepBounded | src/skodun/capacity.py:725-734 | however the clock runs, the pauses of one attempt add up to no more than the wait that was asked for |
| Capacity.AcquireForFg | src/skodun/capacity.py:758-911 | it returns only with both tickets held and linked, the machine row running and the repository row running unless an age reclaim took it; every exceptional end leaves both rows terminal |
| Capacity.FinishTicket | src/skodun/capacity.py:493-526 | finishing a ticket also finishes the machine ticket it holds, and both rows are terminal afterwards |
| Capacity.UnderWayKeeps | src/skodun/capacity.py:758-812 | from the return of a foreground admission on, whatever others do, the machine row stays running, and the repository row too while nobody reclaims by age |
| Capacity.ForegroundReviewsFit | src/skodun/capacity.py:758-812 | reviews under way over all repositories never outnumber the largest machine capacity anyone offered, and while nobody reclaims by age each still holds its repository slot |
| Capacity.LiveLosesByAge | src/skodun/capacity.py:371-405 | of a live process observed truthfully, only an age reclaim can take an admitted row, and never a machine row |
| Capacity.StartedExactly | src/skodun/capacity.py:482-490 | an admitted row becomes running exactly when no reclaim between its admission and its start observed its process as gone or the row as past the age limit |
| Capacity.AgeReclaimLosesSlot | src/skodun/capacity.py:395-404 | a concrete run in which an admitted live row is rejected by age before it starts |
| Ticks.Reading | src/skodun/budgets.py:295-303 | a stopwatch over overlapping spans reads the measure of their union, never their sum, and its running part is never negative |
| Ticks.MeterOpen | src/skodun/budgets.py:167-178 | opening a span starts the stopwatch only when nothing was open |
| Ticks.MeterClose | src/skodun/budgets.py:187-198 | closing a span banks the run only when nothing stays open |
| Budgets.BudgetState.Exact | src/skodun/budgets.py:295-310 | read no earlier than the latest call, as every reading before the finish is: queue and provider readings are the measures of the union of their spans, active review time is the unqueued time since the first launch, and no clamp to zero fires |
| Budgets.BudgetState.AtEnd | src/skodun/budgets.py:312-339 | what a finished execution reports at its end: queue time is its exact measure plus what stays closed since overran the end, active review time is its exact measure less that overrun, down to zero, and a clamp fires exactly for a stay opened after the end, a first launch after it, or an overrun longer than that review time |
| Budgets.BudgetState.ForegroundAtEnd | src/skodun/budgets.py:305-309 | the subtraction of the queue time at the launch goes below zero exactly when the launch fell into a stay that is still open, after the end and after the stay began |
| Budgets.LateQueueExit | src/skodun/budgets.py:159-165 | a concrete run: leaving the queue after the finish lifts the reported queue time to 4, drives the argument of the clamp on active review time to -2 and drops that time from 1 to 0 |
| Budgets.LateEvents | src/skodun/budgets.py:295-310 | a concrete run: a stay and a first launch after the finish make the arguments of the other clamps -2, -4 and -2 |
| Budgets.BudgetState.FreezesWhileQueued | src/skodun/budgets.py:299-303 | active review time stands still while the execution is queued |
| Budgets.BudgetState.StartQueue | src/skodun/budgets.py:149-157 | a stay is opened only when none is open; nothing else moves, and what is reported at the end stays what it was |
| Budgets.BudgetState.EndQueue | src/skodun/budgets.py:159-165 | closes exactly the open stay; after a finish the reported review time loses what the reported queue time gains, down to zero: queue time stays as it was exactly when that stay does not outlive the finish, and review time exactly then, or when the launch was not before the end, or when there was none left to lose |
| Budgets.BudgetState.StartProviderWait | src/skodun/budgets.py:167-185 | a wait is granted exactly when the execution is not over and fewer than two waits are open, under a new token |
| Budgets.BudgetState.EndProviderWait | src/skodun/budgets.py:187-202 | ends the named wait, or the only one; refused exactly when there is no such wait; after a finish the reported wait time stays as it was exactly when the last wait does not outlive the finish |
| Budgets.BudgetState.ProviderStarted | src/skodun/budgets.py:204-209 | only the first launch starts the review clock, and one after the finish changes no reported review time |
| Budgets.BudgetState.Finish | src/skodun/budgets.py:285-289 | only the first finish sets the end, and what is reported then are the exact measures at that tick |
| Budgets.BudgetState.Latch | src/skodun/budgets.py:239-264 | the second critical section of a poll: a reason is written once, in the order cancelled, total, queue, review; a failing poll still writes its reason over an undecided end |
| Budgets.BudgetState.IsSet | src/skodun/budgets.py:231-264 | a poll alone decides an undecided execution by its measured history and never one that ended |
| Budgets.BudgetState.LeaveQueue | src/skodun/budgets.py:366-377 | leaving the queue at the very tick its budget runs out is recorded as queue exhaustion |
| Budgets.BudgetState.Drive | src/skodun/budgets.py:88-303 | over any run of calls by any number of handles, cancellations and marks included, at any nondecreasing clock: what is decided, ended or launched stays so, a cancellation through any handle is heard by the next poll of any other, every reading at the present is still the exact measure, and what a finished execution reports is off by exactly the overruns of the stays that the run closed after the end |
| Budgets.ProviderAllowance.Remaining | src/skodun/budgets.py:69-71 | what is left of a pass allowance is the allowance minus the exact measure of all waiting so far |
| Budgets.ProviderAllowance.End | src/skodun/budgets.py:74-86 | a wait spends exactly its length |
| Reservations.AlwaysSafe | src/skodun/store.py:4155-4247 | in every history of committed calls at most one row per repository and branch is running, it is the newest, and nothing running or superseded is trusted |
| Reservations.RowHistory | src/skodun/dispatch.py:13-24 | over any stretch of any history a row keeps its identity, never runs again once over, and never regains trust it lost |
| Reservations.NewestWins | src/skodun/store.py:4195-4240 | a row still running when a newer push of its branch is reserved is superseded by that very row, and is neither trusted nor reviewed ever after |
| Reservations.SupersededExactly | src/skodun/store.py:4049-4064 | over any stretch of any history a superseded row stays as it is exactly as long as nobody demotes it unconditionally, and is failed otherwise |
| Reservations.LateDemotionOverwrites | src/skodun/dispatch.py:1213-1230 | a concrete log in which an unconditional demotion rewrites a row superseded before it |
| Reservations.SuppressionIsCertified | src/skodun/store.py:4249-4323 | a skipped push changes nothing and names a finished, trustworthy review of the same diff and base |
| Reservations.RefusedMeansOver | src/skodun/dispatch.py:1089-1111 | attaching the pid of a freshly spawned worker is refused exactly when the reservation is over |
| Worker.ForeignStep | src/skodun/dispatch.py:1135-1167 | no other process can make my record trusted, bring it back to running or change it once superseded |
| Worker.Process.FinalizeMine | src/skodun/store.py:4346-4451 | the conditional finalize publishes the answer, or finds the reservation over and changes nothing |
| Worker.Process.IsSet | src/skodun/request_cancel.py:143-162 | a known signal is latched before any persistence and is never turned into "not cancelled" |
| Worker.Process.Demote | src/skodun/dispatch.py:1213-1230 | a demotion reported as done leaves the record over and untrusted; only a store fault makes it fail |
| Worker.Process.RecordCancellation | src/skodun/dispatch.py:1406-1457 | a cancelled review never becomes trusted; with a store that does not fail its reservation is over; and there is no outcome at all exactly when its last read fails |
| Worker.Process.Complete | src/skodun/dispatch.py:1233-1265 | a code of 0 for a latched cancellation leaves no trusted record |
| Worker.Process.PostCommit | src/skodun/dispatch.py:1366-1385 | a token set before the check after the commit is latched by it |
| Worker.Process.Run | src/skodun/dispatch.py:1135-1210 | a code of 0 whose token was set before the post-commit check leaves no trusted record; an exception leaves exactly when a cancellation is being recorded and its last read fails; once superseded, the record is changed exactly by an unconditional demotion of this worker, which takes a store fault; without faults an orderly end leaves no reservation in flight; left alone it publishes exactly its answer |
| Worker.LateWorker | src/skodun/dispatch.py:1213-1230 | a concrete run of the whole worker that rewrites its superseded record: signalled at once, one store call fails, and a newer push commits just before its unconditional demotion |
| Signals.ArgvNamesRecord | src/skodun/dispatch.py:840-857 | a process line names a record exactly when some occurrence of flag and value ends as a word |
| Signals.NamesExactly | src/skodun/dispatch.py:840-857 | the records any line names are exactly the words behind its flags, however often the flag appears |
| Signals.NamesOnlyItself | src/skodun/dispatch.py:784-837 | a worker line names its own record, never one whose id extends or begins it, and another exactly when some other place in the line spells the flag in front of that id |
| Signals.SignalSuperseded | src/skodun/dispatch.py:860-886 | exactly the confirmed workers of retired rows are signalled, each once and in order |
| ShellWords.Unquote | src/skodun/dispatch.py:1550-1573 | the unquoting loop returns exactly the word a shell reads from quoted runs and escaped quotes, and refuses exactly what is no such word |
| ShellWords.UnquoteQuoted | src/skodun/dispatch.py:1538-1548 | unquoting a quoted string gives back every string |
| ShellWords.CutRunRefused | src/skodun/dispatch.py:1550-1573 | a quoted string cut before its closing quote is never read as a word |
| Hooks.RecoveredExactly | src/skodun/dispatch.py:1639-1656 | a chain target on one line is recovered exactly from the installed shim; any other is recognised as unreadable |
| Hooks.HookDir.InstallHooks | src/skodun/dispatch.py:1693-1753 | an install refuses exactly in its three cases and then changes nothing; otherwise hook and backup become what the installer promises |
| Hooks.InstallKeeps | src/skodun/dispatch.py:1693-1753 | no install loses a non-empty, readable, unmarked hook text |
| Hooks.InstallKeepsChain | src/skodun/dispatch.py:1721-1739 | no install drops or changes a recorded chain; one that cannot be read makes it refuse |
| Hooks.ForcedInstallChains | src/skodun/dispatch.py:1745-1753 | a forced install keeps the foreign hook beside and records where |
| Hooks.BackupIsForever | src/skodun/dispatch.py:1745-1753 | a backed-up text survives any sequence of installs and third-party writes of the hook |
| Hooks.MovedAsideForever | src/skodun/dispatch.py:1745-1753 | every readable hook text that a forced install moved aside stays beside through any sequence of installs and third-party writes |
| Hooks.BackupLostExactly | src/skodun/dispatch.py:1745-1750 | byte for byte a backup is replaced exactly when a forced install moves aside a different foreign hook that reads the same |
| Hooks.UnreadableBackupIsLost | src/skodun/dispatch.py:1756-1763 | a concrete case: an unreadable backup reads as empty and is replaced by an empty hook |
| Batching.SplitLinesRoundTrip | src/skodun/batching.py:206-228 | cutting bytes into lines and joining them again gives the bytes back, and no line is empty |
| Batching.Sections | src/skodun/batching.py:206-228 | the section loop cuts in front of every file marker and nowhere else |
| Batching.CutUnique | src/skodun/batching.py:206-228 | there is only one way to cut lines in front of every marker |
| Batching.CutHunks | src/skodun/batching.py:231-264 | the hunk loop separates the lines in front of the first hunk marker from hunks that each hold exactly one |
| Batching.Units | src/skodun/batching.py:231-264 | a section over budget with hunks becomes one unit per hunk behind its own header copy; any other section stays whole |
| Planner.Split | src/skodun/batching.py:267-329 | the whole planner, loops included, yields the greedy grouping of the units of the diff at the clamped budget |
| BatchingLaws.FewestBatches | src/skodun/batching.py:282-329 | no order-preserving grouping of the same units within the same limits uses fewer batches than the planner |
| BatchingLaws.GreedyStaysAhead | src/skodun/batching.py:282-329 | after any number of batches, greedy packing has placed at least as many units as any other grouping |
| BatchingLaws.OnlyGreedy | src/skodun/batching.py:282-329 | order, the size limit and never closing a group that could take the next unit determine the batches: the planner is deterministic |
| BatchingLaws.GroupsAreGreedy | src/skodun/batching.py:282-329 | the batches hold the units in order, and no batch could have taken the first unit of the next |
| BatchingLaws.TruncatedExactly | src/skodun/batching.py:282-329 | a batch is flagged as truncated exactly when it exceeds the budget, exactly when it is one oversized unit |
| BatchingLaws.PlanErases | src/skodun/batching.py:231-264 | dropping repeated header copies from the plan gives back the input lines in order |
| BatchingLaws.HunkInOneBatch | src/skodun/batching.py:231-329 | each hunk with its body lies in exactly one batch |
| BatchingLaws.SplitUnitShape | src/skodun/batching.py:231-264 | each unit of a divided section is that section header followed by one of its hunks |
| BatchingLaws.FittingSectionsRoundTrip | src/skodun/batching.py:267-329 | when every section fits, the batches concatenate to the diff |
| BatchingLaws.SmallDiffIsOneBatch | src/skodun/batching.py:267-329 | a diff within budget is one batch holding exactly its bytes |
| BatchingLaws.NoBatchIffEmpty | src/skodun/batching.py:267-329 | a diff has no batch exactly when it is empty |
| Chain.RunChain | src/skodun/chain.py:447-884 | whatever the attempts return, the outcome is sound for the slots as they turned out, every slot queued for is a terminal row, and the time is exactly that of the launches and of the waits, which share one allowance |
| Chain.LaunchesInTime | src/skodun/chain.py:675-870 | if no launch outlives a cap, the launches of a sound outcome, one lost to an exception included, take no longer than every launch the chain may make |
| Chain.Entry | src/skodun/chain.py:552-872 | one entry: the checks before admission, the slot, the retries; its slot is a row of the admission table and is terminal on every exit, exceptions and age reclaims included |
| Chain.Attempt | src/skodun/chain.py:664-870 | one pass through the retry loop adds one truthful row, and retries only within the two budgets |
| Chain.PollForSlot | src/skodun/chain.py:416-437 | polling for a slot sleeps no longer than the wait it is given, ends in a running ticket or in a terminal row, and is granted at once when there is room |
| Chain.AwaitSlot | src/skodun/chain.py:541-550 | a wait for a slot spends exactly the time slept, out of what is left of the pass allowance |
| Chain.OutcomeIsDetermined | src/skodun/chain.py:447-884 | the promise is complete: two sound outcomes of the same attempts are equal |
| Chain.RowsNumbered | src/skodun/chain.py:535-540 | rows are numbered 1, 2, 3 without gaps across the chain, and each says what its attempt did |
| Chain.PassedOver | src/skodun/chain.py:480-490 | an entry is passed over only when its last row says the provider could not serve, and no entry is jumped |
| Chain.GoodAnswerEndsChain | src/skodun/chain.py:847-870 | a sound answer is the last row of the chain |
| Chain.LongestRun | src/skodun/chain.py:552-872 | for every chain shape and allowance a run of the executor that makes every launch it may, each at full length, behind the longest wait that is still granted: spoken timeouts, then degraded answers, then silence |
| Ceilings.ChainFitsPass | src/skodun/budget.py:72-81 | on a clock of any resolution a sound outcome with launches of at most twice the timeout, and its waits, fit the bound of one pass |
| Ceilings.LongestPass | src/skodun/budget.py:72-81 | the longest pass is a run of the executor, and takes exactly as long as the theorems below say |
| Ceilings.RunsFitExactly | src/skodun/budget.py:99-137 | a ceiling covers any number of longest passes on every clock exactly when it covers as many bounds |
| Ceilings.ReviewCovered | src/skodun/budget.py:99-114 | a batched review and its integration pass fit the record ceiling plus the reserved waits |
| Ceilings.LockCovered | src/skodun/budget.py:116-137 | two further passes fit the lock ceiling plus the reserved waits |
| Ceilings.CoveredWithoutRequest | src/skodun/budgets.py:393-406 | outside a request nothing is reserved, and the record ceiling covers the longest runs of all its passes exactly when the wait fits the grace of the chain |
| Ceilings.LockCoveredWithoutRequest | src/skodun/budget.py:116-137 | outside a request, for any number of batches, the lock ceiling covers the longest runs of the review and two further passes exactly when their waits fit the launches of the other passes and the grace |
| Ceilings.UnreservedWaitOutlives | src/skodun/budgets.py:393-406 | a concrete wait of 61 seconds: at two ticks a second the longest run outlives the ceiling outside a request |
| Ceilings.ReserveIsTight | src/skodun/budgets.py:393-406 | for chains of one entry whose wait outgrows the grace, one second less in reserve would fail some longest run |
| ContextPack.Pack | src/skodun/contextpack.py:365-597 | the packing loops compute the pack and its body |
| ContextPack.FillGreedily | src/skodun/contextpack.py:531-566 | each candidate is taken whole or not at all, in order, while it fits |
| ContextPack.TrimToFit | src/skodun/contextpack.py:568-588 | trailing sections are dropped until the growing header fits, and the loop ends |
| ContextPack.HeaderLength | src/skodun/contextpack.py:323-362 | permuting the entries of the omission header does not change its length, in either encoding |
| ContextPack.OrderedForgets | src/skodun/contextpack.py:513-529 | the selection order depends on which files there are, not on the order they were named in |
| ContextPackLaws.Partition | src/skodun/contextpack.py:475-597 | included and omitted paths together are the distinct input paths, each once, and every section is the whole file of its path |
| ContextPackLaws.BodyShape | src/skodun/contextpack.py:568-597 | the body fits the headroom; it is the header listing exactly the omissions followed by the sections, and the header is dropped only when no section is left |
| ContextPackLaws.ReasonsAreTrue | src/skodun/contextpack.py:488-566 | every omission carries the reason that applied to it: refused early, unreadable or binary at its turn, and over the headroom exactly for want of any, because it did not fit at its turn beside what was taken before, or because the header no longer fitted with it as the last section |
| ContextPackLaws.EnoughRoomTakesAll | src/skodun/contextpack.py:531-566 | with room for all of them every readable candidate is taken |
| ContextPackLaws.OrderOfFilesForgotten | src/skodun/contextpack.py:475-597 | naming the files in another order or twice changes neither what is included nor the body length |
| Evidence.Requests.RequestRoot | src/skodun/operational_targets.py:70-74 | the climb to the root ends because a parent is never greater than its child |
| Evidence.Requests.JoinRequests | src/skodun/operational_targets.py:75-77 | joining makes the two trees one under the smaller root |
| Evidence.JoinedRoots | src/skodun/operational_targets.py:75-77 | after a join, roots are what they were except in the two trees, where they are the smaller of the two |
| Evidence.Gather | src/skodun/operational_targets.py:181-191 | the loop leaves the forest of the observations and each attempt as one sample in its own cohort; duplicates are the observations beyond the distinct attempts, and conflicts those whose signature is not that of the first one of their attempt |
| Evidence.ReadAgrees | src/skodun/operational_targets.py:181-191 | that forest holds exactly the requests seen, joins what shares an attempt and nothing else |
| Evidence.SameRootIffConnected | src/skodun/operational_targets.py:181-191 | two requests have the same root exactly when a chain of shared attempts connects them |
| Evidence.RootIsLeast | src/skodun/operational_targets.py:69-77 | the root is the least request of its component |
| Evidence.ArrivalOrderForgotten | src/skodun/operational_targets.py:69-77 | neither the order in which observations arrive nor how often one is copied changes any root |
| Evidence.RequestCount | src/skodun/operational_targets.py:200-202 | the count is the number of distinct roots of the samples |
| Evidence.CountsComponents | src/skodun/operational_targets.py:200-202 | that number is the number of connected components the samples touch, whichever member stands for each |
| Evidence.BucketHolds | src/skodun/operational_targets.py:188 | a size cohort is the power of two that holds the bytes and is less than twice them |
| Fallbacks.ValidateFallbacks | src/skodun/config.py:855-903 | validation ends, and accepts exactly the tables whose lists are self-free, duplicate-free, at most three long, of existing enabled entries, and whose whole graph has no cycle |
| Fallbacks.CheckList | src/skodun/config.py:873-892 | one list alone is accepted exactly when it is well formed |
| Fallbacks.Walk | src/skodun/config.py:894-899 | a walk that finds nothing leaves no way back to its path; one that finds something shows a way back |
| Fallbacks.RankedIsAcyclic | src/skodun/config.py:894-903 | shared fallbacks are no cycle: any graph that can be ranked passes |
| Followups.ReuseIsInvisible | src/skodun/followups.py:32-42 | the reuse annotation changes neither semantic identity nor usability |
| FollowupStore.Store.Bind | src/skodun/followup_store.py:82-147 | a binding is accepted exactly when the call is entitled, the binding is still true of the generation, and it is the first with no claim live or the same again; a first one promotes the candidate exactly when it is equal, scheduled and every provider known |
| FollowupStore.Store.Execute | src/skodun/followup_store.py:149-155 | a follow-up is completed exactly when its claim holds, it is bound and scheduled, its inputs still stand, and it has no result yet |
| FollowupStore.Store.Fork | src/skodun/store.py:3602-3692 | a fork is refused for want of ownership, an expired or trusted source, another plan or a claim in flight; else it returns the child that exists; else it is refused exactly when a candidate no longer matches its source; a new child copies usable evidence and leaves follow-ups blank beside their candidates |
| FollowupStore.Store.Drive | src/skodun/followup_store.py:82-172 | over any run of calls a bound row keeps its binding for good |
| FollowupStore.Store.ReusedEqualsExecuted | src/skodun/followup_store.py:122-133 | whatever a generation holds as the output of a follow-up, some real execution produced it from an equal binding |
| FollowupStore.BothReused | src/skodun/followup_store.py:157-172 | when nothing upstream, no decision and no prompt changed, both follow-ups are reused |
| FollowupStore.ReusedForever | src/skodun/followup_store.py:82-172 | through any number of continuations both follow-ups keep their bindings and semantic outputs |
| BudgetStore.Connection.Write | src/skodun/budget_store.py:131-147 | inside a transaction or not, the tables are those before the call unless it applied, and the enclosing transaction can still be rolled back |
| BudgetStore.Connection.Save | src/skodun/budget_store.py:158-173 | a snapshot is written exactly by the latest owner and never back in time |
| BudgetStore.Connection.Record | src/skodun/budget_store.py:175-216 | a layer is written exactly for a linked admission of its class and scope, live if new, and never reassigned |
| BudgetStore.OnlyLatestOwnerWrites | src/skodun/budget_store.py:150-156 | in every history the fence passes exactly the current owner token with the latest execution of the request |
| BudgetStore.OldExecutionIsFenced | src/skodun/budget_store.py:150-156 | once a newer execution exists no write in the name of an older one has any effect |
| BudgetStore.SnapshotHistory | src/skodun/budget_store.py:158-173 | the time of a snapshot never goes back, and the row freezes once a newer execution exists |
| BudgetStore.LayerHistory | src/skodun/budget_store.py:197-215 | a layer keeps its request, execution, class and scope for good, its time never goes back, and it freezes likewise |
| LegacyImport.ImportRow | src/skodun/legacy_import.py:369-436 | the axes read off the summary and again off the merged record give exactly the stored record and its fate |
| LegacyImport.TrustedExactly | src/skodun/legacy_import.py:369-436 | a record is stored as trustworthy exactly when the summary, its artifact and both together are clean |
| LegacyImport.TrustedIsSound | src/skodun/legacy_import.py:284-366 | such a record is a valid artifact of the same diff and hides no finding the summary counted |
| LegacyImport.Store.ImportIndex | src/skodun/legacy_import.py:369-461 | the index loop leaves the last accepted record of each id, and counts every line |
| LegacyImport.Store.ImportLedger | src/skodun/legacy_import.py:464-526 | exactly the keyed, auditable, accepted dismissals are appended, in order |
| LegacyImport.EveryLineOnce | src/skodun/legacy_import.py:118-167 | every non-blank line of both files is counted exactly once among the outcomes |
| LegacyImport.DemotionsAreReviewsExactly | src/skodun/legacy_import.py:133-140 | the demotion counters are a part of the reviews counter exactly when the store takes every demoted record |
| LegacyImport.DemotedButNotImported | src/skodun/legacy_import.py:441-457 | a demoted record that the store refuses is counted as demoted and as no review |
| LegacyImport.SecondImportExactly | src/skodun/legacy_import.py:529-550 | a second import leaves the review table as it was exactly when every record that brings no completion time of its own is stored in the same second both times, each line at its own second |
| LegacyImport.ReimportKeepsDecisionExactly | src/skodun/legacy_import.py:532-541 | what the gate sees of a finding is kept by importing the ledger again exactly when no imported dismissal meets a finding that is open by then |
| LegacyImport.ReimportUndoesReopen | src/skodun/legacy_import.py:532-541 | a concrete case: a finding reopened between two imports is dismissed again |
| LegacyImport.SecondLedgerImportIsQuiet | src/skodun/legacy_import.py:532-541 | with nothing decided in between, importing the ledger again changes no effective decision |
| Gate.Decide | src/skodun/gate.py:92-165 | the gate passes exactly an empty diff, or content that a certifying record covers with every finding triaged; it answers 1 exactly for such a record with one open |
| Gate.EventLog.RunGate | src/skodun/gate.py:168-217 | zero is answered only after it was recorded as a pass or a skip; a decision that cannot be recorded, and anything unexpected, is 2 |
| Gate.ImportedNeverTrips | src/skodun/gate.py:118-144 | a record that an import stored as trustworthy, selected by its diff, is turned away exactly when the base moved |
| Gate.DemotedIsNotSelected | src/skodun/gate.py:112-117 | a record that an import demoted is never stored as trustworthy |

## Left out

- Processes, signals, `ps`, git, file descriptors and symbolic links: they appear as the adversary's choices, as parameters or not at all.
- SQLite, schema migrations, JSON text and digests: tables are maps and lists behind atomic calls, and digests are compared by the values they stand for.
- Capacity: the release-retry thread and sqlite error retries; the position and wait-time notes shown while polling; `stale_sec` and the calendar arithmetic behind an age, which are one observation per reclaim.
- Capacity.Acquire: the failure of linking a fresh ticket to its request, which rejects the ticket at once.
- Capacity.AcquireForFg: reading capacities from the environment and their range check; one out of range has been replaced by the default before the calls modelled here.
- Capacity.ForegroundReviewsFit: counts the reviews whose processes are live and still hold their tickets; a dead holder's row stands until a peer reclaims it.
- Budgets: publishing callbacks, UTC formatting, wait deadlines and the polling `wait` helper; clock readings are integers.
- Budgets.BudgetState.LeaveQueue: the poll and the close that leave the queue happen at one clock instant, and the ticket that is finished when either of them raises is not modelled.
- Reservations: reviews of other modes in the same table; the newest match of a suppression is the newest row, where the code orders by a timestamp of whole seconds; the context rules of deduplication are one flag.
- Reservations.SuppressionIsCertified: the full artifact validation at suppression time is the trust of the stored row.
- Worker: lineage annotation and its one retry, orchestration consumption, cancellation audit text, and the machine ticket, whose protocol is `Capacity`.
- Reservations.LateDemotionOverwrites: a log of the table alone; the worker behind it is `Worker.LateWorker`.
- Signals: white space beyond the ASCII range; the process line itself is an input.
- Hooks: the comment text of the shim, file modes, and undecodable bytes; a file is its text and whether it can be read.
- Batching: file names in unit labels come from an opaque function of the section.
- Chain: what is printed and recorded besides the attempt rows (usage, cost, capacity timing, provider cooldowns); an adapter's verdict on a missing binary counts as unavailable.
- Chain.RunChain: time passes in launches and in pauses between two polls only, and a process that is killed while it waits has no exit to speak of.
- Chain: the other tickets of the review, which are the caller's, and the failure of the store call that releases a slot.
- Ceilings.LongestPass: the longest wait that is still granted is one tick short of the allowance, which is why the theorems about longest runs speak of every clock.
- ContextPack: probing and loading are fixed functions of a path; the binary heuristic and the decoding of file bytes are their results.
- Evidence: field validation, time windows and percentiles; only admitted observations are modelled, with request ids ordered as numbers.
- Fallbacks: names are numbers, and only acceptance is modelled, not the wording of each refusal.
- Followups: the publication check; a running checkpoint is one that has no payload yet.
- FollowupStore.Store.Bind: ownership, the state of the orchestration, the identity of the pass and a live claim are facts of the call, not tables of their own.
- FollowupStore.Store.Execute: leases and fences of a claim are one fact, that the claim still holds.
- FollowupStore.Store.Fork: ownership, expiry, trust of the source, the plan, in-flight claims and an existing child are facts of the call, and which of them a refusal names is not modelled.
- BudgetStore: the validators of snapshot fields; a snapshot is its content and its time.
- LegacyImport: reading of JSON lines, the audit floor on reasons, and the telemetry fields derived at the store; whether the store takes a record is a function of that record.
- LegacyImport.SecondImportExactly: compares the records themselves; both imports meet a store that takes the same records, and the second of each line is given from outside.
- Gate: resolving the base and capturing the diff; their results are the facts of the decision.
- Configuration loading, the command line, doctor, schedules, routing, delivery, readiness and telemetry: plumbing or field-by-field checks that would only add easy members.
- The checklist, delivery, fingerprint, continuation and refuter-policy rules: true properties exist, but they are easier than the ones above.

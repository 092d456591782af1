# Verified model of the gateway's stores and protocols

This project models the parts of the gateway in which rows change under rules that
span several requests, and proves those rules for every run. Dafny 4.11 checks it:
`dafny verify dfyconfig.toml`.

* **History.** A page of history is merged from the hot database and the cold archive
  (`HistoryMerge`, over the order of keys in `Ordering`). Old outbox events are exported
  in resumed batches (`HistoryExport`) and archived batches are removed from the hot
  database (`HistoryOffload`).
* **Coordination of agents.** Path and pattern reservations (`Globs`, `Reservations`),
  leases with fencing tokens and write checks (`Leases`), conflicts between recorded
  changes (`Conflicts`), handoffs (`Handoffs`), and the service that carries them out
  (`CoordinationService`).
* **Chat contexts.** Short codes with lazy expiry, quarantine and reuse (`ChatAliases`,
  `ChatAliasLaws`), bindings to conversations (`ChatBindings`), runs (`ChatRuns`), what
  users can rely on (`ChatTheorems`), and the service (`ChatContextService`).
* **Autonomy.** Approval requests, votes, one-use permits, receipts, commands, policies
  and pause/kill controls (`Autonomy`, `AutonomyLaws`, `AutonomyTheorems`,
  `AutonomyLifecycles`), the service (`AutonomyService`), the list of reviewers
  (`Reviewers`), and bounded recovery loops whose attempts take two commits
  (`Recovery`, `RecoveryService`).

Each operation is given as a function of the tables, in the order of the program's own
checks. Invariants and theorems are proved about these functions and about all finite
sequences of them. Classes hold the tables as fields; their methods contain the
program's loops and branches and are proved to have exactly the effect and the answer
of the functions. A transaction is one step, except where the program commits several
times by rows it read before (recovery) or checks first and compares and sets later
(claims): there the parts are separate steps that other steps may come between.

## Where the code does less than one might expect

Each of these is proved; where an expectation holds in some cases only, so is the exact condition.

* A path and a pattern that share a path can go unreported
  (`Reservations.PathGlobOverlapSoundUnlessMissed`).
* Fencing tokens presented with a write are moved into range before they are compared
  (`Leases.TokenComparedAfterClamping`).
* The agent that accepts a handoff chooses what it is compared with
  (`Handoffs.BlockedUntilComparedWithNothing`).
* Closing a context is not final while it has an active alias
  (`ChatTheorems.ClosedIsFinalExactly`).
* A claim whose checks are done goes through although controls were enabled meanwhile,
  but not after a pause, kill or policy update (`AutonomyTheorems.ClaimInFlightExactly`,
  `AutonomyTheorems.EnablingSlipsBetween`).
* A recovery loop that is over, even one that was cancelled, comes back as paused or
  waiting when a worker read it before, since a cycle writes by the copies it made at
  its start (`Recovery.OverIsFinalExactly`, `Recovery.CancelledLoopIsPlannedAgain`).
* A batch without attempts is never recognised as offloaded
  (`HistoryOffload.RerunConvergesExactly`).

## Model

| member | source | states |
|---|---|---|
| `HistoryMerge.SortNewestFirst` | services/gateway-api/gateway_api/cold_history.py:250-256 | Sorting by timestamp and id, newest first: the result lists exactly the mapping's items in strict key order, and fails exactly for an unreadable timestamp |
| `HistoryMerge.MergeHistoryPages` | services/gateway-api/gateway_api/cold_history.py:231-259 | The page is cut at the limit from the listing of all surviving items, a hot copy displacing a cold one with the same id; more is reported if that listing is longer or either store said so; each error has its cause |
| `HistoryMerge.MergedPageIsPageOfUnion` | services/gateway-api/gateway_api/cold_history.py:231-259 | If both stores answer with their own first rows and true has-more flags, and copies of a row agree on the timestamp, the merged page is the first page of the two stores taken as one, flag included |
| `HistoryMerge.UnionExists` | services/gateway-api/gateway_api/cold_history.py:239-249 | Any two such stores have one listing of their union, with the hot copy of a row that is in both |
| `HistoryMerge.UnionIsUnique` | services/gateway-api/gateway_api/cold_history.py:239-249 | And only one: two listings of the union of the same stores are equal |
| `HistoryMerge.PageOrderIs` | services/gateway-api/gateway_api/cold_history.py:250-256 | On a page newer rows come first, and of rows with one timestamp the one whose id is later in dictionary order |
| `HistoryMerge.DifferentStampsMislead` | services/gateway-api/gateway_api/cold_history.py:216-228 | A cold copy with a newer timestamp than the hot one can make the merged page differ from the page of the union, shown on two stores: the agreement above cannot be dropped |
| `HistoryMerge.CursorCutsUnion` | services/gateway-api/gateway_api/cold_history.py:145-172 | A cursor leaves of the union exactly the union of what it leaves of each store |
| `HistoryMerge.AnswersFromRow` | services/gateway-api/gateway_api/routers/registry.py:148-167 | A query with the key of a shown row as cursor is answered with the rows of the union that follow it |
| `HistoryMerge.WalkVisitsEveryRowOnce` | services/gateway-api/gateway_api/routers/registry.py:1140-1169 | Walking on from the last row shown, a client sees the rows of the union in order, none twice and none left out, is told there is more exactly while there is, and ends after at most as many pages as rows |
| `HistoryExport.ExportBatch` | scripts/export_outbox_history_batch.py:176-226 | One run copies the oldest eligible events after the resume key, up to the limit, then their attempts chunk by chunk, and returns the key of the last event |
| `HistoryExport.CopyAttempts` | scripts/export_outbox_history_batch.py:204-226 | The chunk loop collects the attempts of one chunk of ids after the other, leaving no id out |
| `HistoryExport.ChunksFindTheSame` | scripts/export_outbox_history_batch.py:144-146 | Attempts found chunk by chunk are, with multiplicity, the attempts found for all ids at once, whatever the chunk size |
| `HistoryExport.AfterIsRest` | scripts/export_outbox_history_batch.py:181-190 | Filtering by created_at and id after the last exported event leaves exactly the events that follow it in the listing |
| `HistoryExport.SeriesPartitions` | scripts/export_outbox_history_batch.py:176-226 | Runs resumed one after the other cut the finished events from before the given time into batches: oldest first and by id within one timestamp, none twice; every batch has exactly the attempts of its own events, with multiplicity; a short batch means all of them are exported, and there is at most one more run than events |
| `HistoryOffload.HotStore.DeleteAttempts` | scripts/delete_outbox_history_batch.py:284-292 | Deleting chunk by chunk removes exactly the attempts of the given events, and the chunk counts add up to their number |
| `HistoryOffload.HotStore.DeleteEvents` | scripts/delete_outbox_history_batch.py:284-292 | The same for the events themselves |
| `HistoryOffload.HotStore.CompareEvents` | scripts/delete_outbox_history_batch.py:419-425 | Going through the archived events finds the first that is locked or no longer equal to its archived copy |
| `HistoryOffload.HotStore.ValidateAndOffload` | scripts/delete_outbox_history_batch.py:346-500 | A run answers as the checks in their order say and changes the tables only if all of them pass and it does not crash before its commit; then batch and audit change together |
| `HistoryOffload.NoDifferenceExactly` | scripts/delete_outbox_history_batch.py:419-425 | The comparison passes if and only if every archived event is hot, unlocked and equal |
| `HistoryOffload.VerdictExactly` | scripts/delete_outbox_history_batch.py:346-446 | What each passing answer means: a dry run passes if and only if the batch is hot, free, equal to its archived copy and undisturbed; a run that may delete needs evidence and no earlier audit too; offloaded means that nothing is hot and exactly one audit says of the batch what its binding does, with neither count zero |
| `HistoryOffload.DryRunChangesNothing` | scripts/delete_outbox_history_batch.py:436-446 | Without the order to delete, or without evidence for it, a run leaves the database as it was |
| `HistoryOffload.AllOrNothing` | scripts/delete_outbox_history_batch.py:346-515 | Over any sequence of archiving further batches, of runs on any of them, with crashes, and of edits and additions by other programs, each archived batch is either wholly hot without an audit, or wholly gone, attempts included, with exactly one audit carrying its figures |
| `HistoryOffload.NothingIsLost` | scripts/delete_outbox_history_batch.py:419-491 | Over any such sequence without edits every event and attempt that was hot still is, unchanged, or is in the archive of the end with equal content, and no batch leaves the archive |
| `HistoryOffload.MatchingBatchIsOffloaded` | scripts/delete_outbox_history_batch.py:400-500 | A hot batch that equals its archived copy, with its original audits present and no realtime reference, is taken out by the first run that does not crash |
| `HistoryOffload.GoneStaysGone` | scripts/delete_outbox_history_batch.py:346-515 | A batch that has been taken out stays out, with its one audit, over any such sequence |
| `HistoryOffload.RerunConvergesExactly` | scripts/delete_outbox_history_batch.py:268-281 | Once a batch is gone, a run on it after any further steps reports it as offloaded if and only if the batch has at least one attempt, because a count of zero in the audit reads as minus one; original audits present and no realtime reference |
| `Globs.MatchIsCut` | services/gateway-api/gateway_api/agent_coordination.py:156-161 | A pattern matches a text if and only if the text can be cut into a part for the first construct, anything for a star and one accepted character otherwise, and a match of the rest |
| `Globs.TokensOfOne` | services/gateway-api/gateway_api/agent_coordination.py:156-161 | How a star, a question mark and a plain character at the start of a pattern are read |
| `Globs.TokensOfClass` | services/gateway-api/gateway_api/agent_coordination.py:156-161 | How a bracket class is read |
| `Globs.TokensOfNegatedClass` | services/gateway-api/gateway_api/agent_coordination.py:156-161 | How a negated bracket class is read |
| `Globs.ClassHolds` | services/gateway-api/gateway_api/agent_coordination.py:156-161 | A class without a hyphen holds exactly its characters, and a range in it those between its ends |
| `Globs.AcceptsExactly` | services/gateway-api/gateway_api/agent_coordination.py:156-161 | Which character a plain character, a question mark, a class and a negated class accept |
| `Globs.FixedPrefixIs` | services/gateway-api/gateway_api/agent_coordination.py:115-122 | The fixed prefix is the last directory that ends before the first wildcard, and the whole of a pattern without one |
| `Globs.MatchesStartWithFixedPrefix` | services/gateway-api/gateway_api/agent_coordination.py:115-122 | Every path that a pattern matches starts with the pattern's fixed prefix |
| `Globs.ReachesIsExact` | services/gateway-api/gateway_api/agent_coordination.py:156-162 | For every pattern and start there is a normalised path with that start that the pattern matches if and only if the pattern can be read that far and then to the end along the components of a path |
| `Reservations.CoversWhatIsInside` | services/gateway-api/gateway_api/agent_coordination.py:156-165 | A path reservation covers its path and, if it is recursive, exactly the normalised paths inside it as well |
| `Reservations.OverlapSymmetric` | services/gateway-api/gateway_api/agent_coordination.py:168-194 | The overlap test does not depend on the order of the two reservations |
| `Reservations.PathOverlapIsExact` | services/gateway-api/gateway_api/agent_coordination.py:173-176 | On two path reservations the test says yes if and only if some string is covered by both, and, when they are normalised, if and only if some normalised path is |
| `Reservations.ApartIsFree` | services/gateway-api/gateway_api/agent_coordination.py:177-194 | Patterns whose fixed prefixes part are not reported, nor is a path beside the fixed prefix of a pattern that does not match it |
| `Reservations.GlobOverlapIsSound` | services/gateway-api/gateway_api/agent_coordination.py:190-194 | Two patterns that match a common string, hence a common path, are always reported as overlapping |
| `Reservations.PathGlobOverlapSoundUnlessMissed` | services/gateway-api/gateway_api/agent_coordination.py:177-187 | A path and a pattern that share a normalised path are reported if and only if they are not in the case that the code misses: the path is recursive, the pattern does not match its text, the pattern has no fixed prefix or the path is "." and the prefix comparisons with "." and "./" fail, and the pattern can match a path below it |
| `Reservations.NothingMissedUnderFixedPrefix` | services/gateway-api/gateway_api/agent_coordination.py:177-187 | With a non-empty fixed prefix and a path other than "." no common path is missed |
| `Reservations.MissedCollisions` | services/gateway-api/gateway_api/agent_coordination.py:181-187 | Concrete collisions that the test does not see: path a against *.b, and path "." against a/* |
| `Leases.RunKeepsInv` | services/gateway-api/gateway_api/agent_coordination.py:399-721 | In every reachable state any two active leases of a room are both readers or have disjoint reservations and different branches and worktrees, and no token is used twice in a room |
| `Leases.EndedLeaseStaysEnded` | services/gateway-api/gateway_api/agent_coordination.py:399-721 | No lease disappears or changes hands, reservations or token, and one that has ended never changes again |
| `Leases.TokensIncrease` | services/gateway-api/gateway_api/agent_coordination.py:529-537 | A lease that appears in a run has a higher token than every lease its room had before |
| `Leases.ActiveLeasesShareNoPath` | services/gateway-api/gateway_api/agent_coordination.py:502-528 | Two active leases of a room that are not both readers never cover the same normalised path, unless a path and a pattern of theirs are in the missed case |
| `Leases.AcquiredAsRequested` | services/gateway-api/gateway_api/agent_coordination.py:421-591 | A successful acquisition adds one active lease as requested, reservations, origin, branch, worktree and base included, for 30 to 3600 seconds, with the highest token of the room, and changes no other lease except for overdue ones |
| `Leases.AcquiredExactly` | services/gateway-api/gateway_api/agent_coordination.py:421-560 | An acquisition under a known key changes nothing; any other is granted if and only if room, holder, context, reservations and work item are in order and every active lease of the room with time left is a reader as it is or is disjoint from it in paths, branch and worktree |
| `Leases.RenewedExactly` | services/gateway-api/gateway_api/agent_coordination.py:616-666 | Renewal succeeds if and only if the lease is active, not overdue, and holder and token are its own; it then ends as long from now as was asked, cut to between 30 and 3600 seconds |
| `Leases.ReleasedExactly` | services/gateway-api/gateway_api/agent_coordination.py:668-721 | A release ends an active lease if and only if it presents the token and comes from the holder which leaves it released, or, forced, from another who coordinates the room or has the capability, which leaves it revoked; nothing else changes |
| `Leases.LeaseEndsOnlyBy` | services/gateway-api/gateway_api/agent_coordination.py:399-721 | Over any run, an active lease has ended if and only if a step that looks for overdue leases came after its time, or a release presented its token and came from its holder or, forced, from a coordinator of its room |
| `Leases.WriteAdmittedExactly` | services/gateway-api/gateway_api/agent_coordination.py:765-861 | A write is let through under a lease if and only if the lease is an active, unexpired writer's lease covering the path and the request presents its id, holder, room, token, branch, worktree and base, and one of the two preconditions |
| `Leases.UnguardedPassesExactly` | services/gateway-api/gateway_api/agent_coordination.py:783-801 | A write passes without a lease if and only if it presents nothing of one and no active, unexpired writer's lease covers the path; with something presented an uncovered path is refused, and a covered path is refused when nothing is presented |
| `Leases.CoveredThroughWorktree` | services/gateway-api/gateway_api/agent_coordination.py:723-763 | A lease covers a write if and only if it is an active writer's lease for the place and the path is that of a file in its worktree which a reservation covers |
| `Leases.TokenComparedAfterClamping` | services/gateway-api/gateway_api/agent_coordination.py:80-87 | Because numbers are clamped, a write with another number than the token of its lease is let through exactly when it would be with the token and the token is 1 and the number below it, or the token is the highest possible and the number above it |
| `Leases.EndedLeaseRefusedForever` | services/gateway-api/gateway_api/agent_coordination.py:765-861 | After a lease has ended, no write is let through under it in any later state, whatever is presented |
| `Leases.OverdueLeaseRefused` | services/gateway-api/gateway_api/agent_coordination.py:399-419 | An overdue lease is refused for writing and cannot be renewed back to life |
| `Conflicts.OverlapIsSharedLine` | services/gateway-api/gateway_api/agent_coordination.py:913-920 | Comparing the ends of ranges finds exactly the lines that both changes touch |
| `Conflicts.HunkCoversLines` | services/gateway-api/gateway_api/agent_coordination.py:906-910 | Which lines a hunk stands for, and how missing and zero starts and counts are read |
| `Conflicts.LogicalPathIs` | services/gateway-api/gateway_api/agent_coordination.py:923-934 | A change inside a worktree is to the file as seen from its root, any other to its path |
| `Conflicts.ReasonExactly` | services/gateway-api/gateway_api/agent_coordination.py:936-1013 | For each of the five reasons exactly which pairs are reported for it, and which reasons are hard |
| `Conflicts.HardExactlyWhenColliding` | services/gateway-api/gateway_api/agent_coordination.py:986-1010 | A pair is reported as a hard conflict if and only if both change the same file of one namespace and evidence is incomplete, a line is shared, or the candidate's precondition is stale |
| `Conflicts.SafeExactlyWhenNothingCollides` | services/gateway-api/gateway_api/agent_coordination.py:941-1040 | A report is safe if and only if no candidate collides with any change it is compared with |
| `Conflicts.DetectConflicts` | services/gateway-api/gateway_api/agent_coordination.py:977-1040 | The double loop with its set of seen pairs reports exactly the findings of all pairs, and counts them |
| `Conflicts.Classify` | services/gateway-api/gateway_api/agent_coordination.py:982-1013 | The branches for one pair give the specified reason |
| `Handoffs.ReplayKeepsSound` | services/gateway-api/gateway_api/agent_coordination.py:1078-1306 | In every reachable state each barrier is bound to the lease, holder, room, token and changes it was created with, and an accepted one rests on an ended lease and on a comparison without collision |
| `Handoffs.CreatedExactly` | services/gateway-api/gateway_api/agent_coordination.py:1078-1181 | A handoff is created exactly by an agent of the room that holds the active lease under its current token, to an agent of the room, for changes recorded in the room under lease and token; it is as asked for, open and without evidence |
| `Handoffs.ReadyExactly` | services/gateway-api/gateway_api/agent_coordination.py:1183-1242 | Its source, and nobody else, can mark a handoff ready at any time until it is accepted |
| `Handoffs.ComparedByDefault` | services/gateway-api/gateway_api/agent_coordination.py:953-967 | By default a handoff is compared with exactly those changes of its room that have fewer than 2000 newer ones in the room and are not handed over |
| `Handoffs.AcceptedExactlyWhen` | services/gateway-api/gateway_api/agent_coordination.py:1244-1306 | A ready handoff is accepted if and only if the right agent asks, the source lease has ended, the changes asked for exist in the room and none collides; a collision, and only that, blocks it |
| `Handoffs.BlockedUntilComparedWithNothing` | services/gateway-api/gateway_api/agent_coordination.py:1244-1284 | A blocked handoff can be marked ready again and is then accepted against an empty list of comparisons |
| `Handoffs.AcceptedForever` | services/gateway-api/gateway_api/agent_coordination.py:1244-1306 | An accepted barrier and its evidence never change, its evidence stays true, its source lease stays ended, and no write is let through under it |
| `CoordinationService.Coordination.ExpireStaleLeases` | services/gateway-api/gateway_api/agent_coordination.py:399-419 | The loop marks exactly the active leases that are overdue and counts them |
| `CoordinationService.Coordination.AcquireLease` | services/gateway-api/gateway_api/agent_coordination.py:421-591 | Tables and answer after an acquisition, with its key lookup, conflict scan and token search, are those of the specified step, errors in their order |
| `CoordinationService.Coordination.AnyConflict` | services/gateway-api/gateway_api/agent_coordination.py:502-528 | The scan of active leases finds a conflict if and only if some lease blocks the request |
| `CoordinationService.Coordination.HighestToken` | services/gateway-api/gateway_api/agent_coordination.py:529-536 | The search gives the highest token of the room, 0 if there is none |
| `CoordinationService.Coordination.RenewLease` | services/gateway-api/gateway_api/agent_coordination.py:616-666 | Tables and answer after a renewal |
| `CoordinationService.Coordination.ReleaseLease` | services/gateway-api/gateway_api/agent_coordination.py:668-721 | Tables and answer after a release |
| `CoordinationService.Coordination.CoveringLeases` | services/gateway-api/gateway_api/agent_coordination.py:723-763 | After expiry the result is exactly the set of active writer leases whose reservations cover the path seen from their worktree |
| `CoordinationService.Coordination.ValidateWriteContext` | services/gateway-api/gateway_api/agent_coordination.py:765-861 | The answer to a write request, errors in their order |
| `CoordinationService.Coordination.FindChanges` | services/gateway-api/gateway_api/agent_coordination.py:863-888 | The changes with the given ids, once each in the order of first mention, or an error if one is not in the room |
| `CoordinationService.Coordination.NewestOthers` | services/gateway-api/gateway_api/agent_coordination.py:953-967 | By default the newest 2000 changes of the room, less the candidates, are compared with |
| `CoordinationService.Coordination.CreateHandoff` | services/gateway-api/gateway_api/agent_coordination.py:1078-1181 | Tables and answer after creating a handoff |
| `CoordinationService.Coordination.MarkHandoffReady` | services/gateway-api/gateway_api/agent_coordination.py:1183-1242 | Tables and answer after marking a handoff ready |
| `CoordinationService.Coordination.AcceptHandoff` | services/gateway-api/gateway_api/agent_coordination.py:1244-1306 | Tables and answer after accepting; an unsafe report is recorded before the request fails |
| `ChatAliasLaws.LastStatusUnaffected` | services/gateway-api/gateway_api/chat_context.py:740-762 | Log entries about other aliases do not change what the log tells about one |
| `ChatAliasLaws.AllocateWorks` | services/gateway-api/gateway_api/chat_context.py:546-614 | Allocation keeps the invariant and, when it succeeds, the new alias is its context's only active one, for a whole time to live |
| `ChatAliasLaws.ResolveServes` | services/gateway-api/gateway_api/chat_context.py:125-170 | Resolving keeps the invariant; a lease it grants is on an active alias with more than the threshold and at most the time to live left, and its context is in use |
| `ChatAliasLaws.RefreshServes` | services/gateway-api/gateway_api/chat_context.py:172-287 | The same for refreshing, through renewal, reactivation or rotation |
| `ChatAliasLaws.EnsureServes` | services/gateway-api/gateway_api/chat_context.py:497-544 | The same for the lease of a context found by other means |
| `ChatAliasLaws.CreateServes` | services/gateway-api/gateway_api/chat_context.py:429-495 | The same for creating a context or repeating its creation with the same nonce |
| `ChatRuns.EmptyStoreIsGood` | services/gateway-api/gateway_api/chat_context.py:125-738 | A store without contexts and aliases satisfies the invariant of runs |
| `ChatRuns.RunKeepsGood` | services/gateway-api/gateway_api/chat_context.py:125-738 | Over any run with a clock that does not go back, rollbacks and outside closing and revoking included, the invariant holds and nothing that was fixed changes: one live alias per code, one active per context, generations without gaps, codes, expiries, bindings |
| `ChatTheorems.LeasedCodeIsOutOfQuarantine` | services/gateway-api/gateway_api/chat_context.py:225-267 | Whenever a code is leased, every other alias with it, of any owner, is revoked, or released and expired at least the quarantine time before |
| `ChatTheorems.CodeNamesOneContext` | services/gateway-api/gateway_api/chat_context.py:125-287 | Two successful uses of a code by its owner, resolving or refreshing, however far apart, give leases on the same context |
| `ChatTheorems.GenerationsAreExactly` | services/gateway-api/gateway_api/chat_context.py:578-601 | The aliases of a context carry exactly the generations from 1 to its counter, once each |
| `ChatTheorems.ReconcilingTwiceIsOnce` | services/gateway-api/gateway_api/chat_context.py:647-699 | Bringing an alias up to date at one time and again later is, for statuses, times, context and log, the same as doing it once at the later time |
| `ChatTheorems.ReconciledStatusIsRight` | services/gateway-api/gateway_api/chat_context.py:647-699 | After reconciliation the stored status is the one the clock asks for |
| `ChatTheorems.ResolveSucceedsExactly` | services/gateway-api/gateway_api/chat_context.py:125-170 | A code resolves if and only if its alias is active with time left on the clock and its context is open, however stale the rows are |
| `ChatTheorems.ResolveFailsExactly` | services/gateway-api/gateway_api/chat_context.py:125-170 | Why a code does not resolve: never the owner's, or a closed context that no overdue alias reopens, or a lease that has run out |
| `ChatTheorems.LazyExpiryIsInvisible` | services/gateway-api/gateway_api/chat_context.py:621-699 | Reconciling any row earlier changes neither whether a code resolves nor the lease it gives |
| `ChatTheorems.AllocationTakesFirstFree` | services/gateway-api/gateway_api/chat_context.py:546-619 | Allocation gives the first code drawn that the owner has never had and to which nobody's claim is alive on the clock, as the context's next generation for a whole time to live, and fails if and only if there is none |
| `ChatTheorems.OldCodeComesBackExactly` | services/gateway-api/gateway_api/chat_context.py:172-287 | What a refresh of a known code of an open context answers: the lease of the alias in force, prolonged; without one, the old code for a whole lease if and only if it is the newest, unreplaced and not revoked and nobody else's claim to it is alive; otherwise the first free code drawn, as a rotation to the next generation, or exhaustion if and only if none is free |
| `ChatTheorems.RotationIsNoted` | services/gateway-api/gateway_api/chat_context.py:269-287 | A refresh that gives out a new code answers with it as rotated, notes it on the old alias unless one is noted there already, and logs the rotation last |
| `ChatTheorems.EnsuredExactly` | services/gateway-api/gateway_api/chat_context.py:497-544 | What a request for a context's lease answers: refusal for a closed one; the alias in force, prolonged if little time is left; else the latest alias revived or replaced; and a first alias for a context without any |
| `ChatTheorems.CreationNamesContext` | services/gateway-api/gateway_api/chat_context.py:429-495 | A creation that succeeds names a context of this owner made with this nonce: the known one if there is one, otherwise a new one, and it adds no other |
| `ChatTheorems.RepeatedCreationIsSame` | services/gateway-api/gateway_api/chat_context.py:445-495 | Repeating a creation with its nonce, however much later and after whatever run, adds no context, and if it succeeds it names the context of the first |
| `ChatTheorems.OverdueAliasReopens` | services/gateway-api/gateway_api/chat_context.py:656-664 | Resolving the code of an overdue alias makes its context dormant even if it was closed |
| `ChatTheorems.ClosedIsFinalExactly` | services/gateway-api/gateway_api/chat_context.py:656-664 | A closed context stays closed in every future if and only if it has no active alias |
| `ChatTheorems.BoundForEver` | services/gateway-api/gateway_api/chat_context.py:289-407 | After a bind, resolving that conversation gives that context in every later state, or says it is closed, also when the key version changes |
| `ChatTheorems.LogTellsEveryStatus` | services/gateway-api/gateway_api/chat_context.py:603-611 | In every reachable state the last status-changing log entry of each generation is the stored status of its alias |
| `ChatTheorems.AliasesOnlyAdvance` | services/gateway-api/gateway_api/chat_context.py:701-738 | Along a run an alias keeps context, owner, code and generation, its expiry never moves back, and revocation is final |
| `ChatTheorems.LeaseTimesNeedValidConfig` | services/gateway-api/gateway_api/config.py:258-267 | A first lease has more than the threshold left if and only if the configuration is one that start-up accepts |
| `ChatBindings.BindKeepsOneToOne` | services/gateway-api/gateway_api/chat_context.py:305-346 | Binding keeps conversations and contexts of an owner one to one, given digests that do not collide under one key |
| `ChatBindings.BindSucceedsExactly` | services/gateway-api/gateway_api/chat_context.py:289-366 | Which binds succeed: the context is open and already bound to this conversation, or neither is bound and no stored digest is equal; otherwise the error says whether the context is closed or there is a conflict |
| `ChatBindings.BindAnswersExactly` | services/gateway-api/gateway_api/chat_context.py:324-366 | A bound context answers with the key version it was bound with and stores and logs nothing new; another one gets the digest made with the configured version and one log entry, and nothing else changes |
| `ChatBindings.NeverAmbiguous` | services/gateway-api/gateway_api/chat_context.py:396-399 | The ambiguity error cannot occur while bindings are one to one |
| `ChatContextService.ChatContexts.ReconcileAlias` | services/gateway-api/gateway_api/chat_context.py:647-699 | Tables after bringing one alias up to date |
| `ChatContextService.ChatContexts.RenewAlias` | services/gateway-api/gateway_api/chat_context.py:701-738 | Tables after a renewal |
| `ChatContextService.ChatContexts.ReconcileCodeReservations` | services/gateway-api/gateway_api/chat_context.py:621-645 | The loop over live rows with a code amounts to reconciling its one holder |
| `ChatContextService.ChatContexts.AllocateAlias` | services/gateway-api/gateway_api/chat_context.py:546-619 | The loop over drawn codes leaves the tables of the specified allocation and tells whether it succeeded |
| `ChatContextService.ChatContexts.ResolveAlias` | services/gateway-api/gateway_api/chat_context.py:125-170 | Tables and answer of a resolution |
| `ChatContextService.ChatContexts.RefreshAlias` | services/gateway-api/gateway_api/chat_context.py:172-287 | Tables and answer of a refresh |
| `ChatContextService.ChatContexts.ReviveAlias` | services/gateway-api/gateway_api/chat_context.py:225-287 | Tables and answer of its second half: reactivation or rotation |
| `ChatContextService.ChatContexts.EnsureContextAlias` | services/gateway-api/gateway_api/chat_context.py:497-544 | Tables and answer when a context's lease is asked for |
| `ChatContextService.ChatContexts.CreateContextFor` | services/gateway-api/gateway_api/chat_context.py:429-495 | Tables and answer of a creation, with the lookup by nonce |
| `ChatContextService.ChatContexts.BindConversation` | services/gateway-api/gateway_api/chat_context.py:289-366 | Tables and answer of a bind, with its scan of stored digests |
| `ChatContextService.ChatContexts.FindConversation` | services/gateway-api/gateway_api/chat_context.py:368-407 | The scan of stored digests answers as specified |
| `ChatContextService.ChatContexts.ResolveConversationLease` | services/gateway-api/gateway_api/chat_context.py:409-427 | Tables and answer when a conversation's lease is asked for |
| `AutonomyLaws.RunKeepsInv` | services/gateway-api/gateway_api/agent_autonomy.py:1457-2237 | In every reachable state statuses of requests follow from their votes, a request is under its policy's rule for the class of action as long as the policy's generation has not changed, permits are for approved requests, each request has one permit and each permit one receipt, use counts are right, privileged commands that are completed or failed have a receipt of that outcome, and recovery loops run under a policy of their owner and room |
| `AutonomyLaws.RunGrows` | services/gateway-api/gateway_api/agent_autonomy.py:685-2237 | Nothing decided is undone: votes, receipts, finished commands, used permits and generations only grow, and a policy changes only together with its generation |
| `AutonomyLaws.AskedAsRequested` | services/gateway-api/gateway_api/agent_autonomy.py:1495-1560 | A new request is for the command as it is, in the policy's room, of an allowed class, tool and profile, under the rule that the policy has for this class, and runs out with its time to live; it is approved at once exactly if the rule wants no vote |
| `AutonomyLifecycles.AskedExactly` | services/gateway-api/gateway_api/agent_autonomy.py:1470-1560 | When a request for approval is taken: never under a key already used, which changes nothing; otherwise if and only if policy, command and executor are the owner's and in one room, nothing stops the policy, the executor is the target, the command is not over, class, tool and profile are allowed and the time to live is in range |
| `AutonomyTheorems.StatusFollowsVotes` | services/gateway-api/gateway_api/agent_autonomy.py:1797-1898 | A request is rejected if and only if somebody has voted against it; approved means that as many different people as its rule wants have voted for it, an administrator among them if required, and not the proposer if disallowed; while it is pending or lapsed the votes are not enough |
| `AutonomyTheorems.CompletedOnlyWhenAuthorised` | services/gateway-api/gateway_api/agent_collaboration.py:909-964 | After any run a completed privileged command has a succeeded receipt of its target, whose permit is used up after exactly one claim, for a well-approved request for this very command, and as long as its policy has not been updated the policy allows it under this very rule |
| `AutonomyTheorems.NoSecondPermitOrReceipt` | services/gateway-api/gateway_api/agent_autonomy.py:1944-2221 | No request has two permits and no permit two receipts |
| `AutonomyTheorems.ClaimedAtMostOnce` | services/gateway-api/gateway_api/agent_autonomy.py:2064-2085 | However checks and compare-and-set of several claims interleave, the claims of a permit are counted by its use count and are at most one |
| `AutonomyTheorems.StaleForEver` | services/gateway-api/gateway_api/agent_autonomy.py:2042-2060 | A permit whose policy or control generations are outdated never passes the checks of a claim again |
| `AutonomyTheorems.NoClaimAfterFencing` | services/gateway-api/gateway_api/agent_autonomy.py:685-1098 | After a policy update, or any change of a control in its four scopes, enabling included, no claim on the permit passes its checks, ever |
| `AutonomyTheorems.UpdatedPolicyEndsRequest` | services/gateway-api/gateway_api/agent_autonomy.py:1900-1917 | After an update of its policy a request can neither get a permit nor have its permit claimed |
| `AutonomyTheorems.WithdrawalBeatsClaimInFlight` | services/gateway-api/gateway_api/agent_autonomy.py:908-937 | A pause, kill or policy update between the checks and the compare-and-set of a claim makes the claim fail in every continuation |
| `AutonomyTheorems.ClaimInFlightExactly` | services/gateway-api/gateway_api/agent_autonomy.py:2064-2085 | Over any run, a claim whose checks are done goes through at the end if and only if no step was a pause, kill or policy update that fences its permit, outdated or revoked it, or made the claim already; if any step fenced the permit, it is stale by then |
| `AutonomyTheorems.EnablingSlipsBetween` | services/gateway-api/gateway_api/agent_autonomy.py:1035-1062 | Among steps that fence the permit of a claim whose checks are done, whatever they are and however many, exactly those that enable a control let the claim go through; the permit claimed is then stale |
| `AutonomyTheorems.ClaimPassesExactly` | services/gateway-api/gateway_api/agent_autonomy.py:2026-2060 | The checks of a claim pass if and only if the executor claims its issued permit in time, the command is accepted, nothing stops the policy, and neither the policy nor a control in its scopes has changed since the permit was issued |
| `AutonomyTheorems.ClaimsNeedEnabled` | services/gateway-api/gateway_api/agent_autonomy.py:2026-2063 | What passing the checks means: a well-approved request that its policy allows as it is now, under its rule for the class, in time, for the command as it is and its target |
| `AutonomyTheorems.PermitGrantedExactly` | services/gateway-api/gateway_api/agent_autonomy.py:1919-2019 | A permit is given out or a running one handed back if and only if the request is the owner's and approved, its policy is unchanged and nothing stops it, and, for a new one, time to live and request are in time |
| `AutonomyTheorems.PermitAsGranted` | services/gateway-api/gateway_api/agent_autonomy.py:1978-2019 | A new permit is for the request and its executor, unclaimed, not stale, and ends with its time to live or with the request, whichever is first |
| `AutonomyTheorems.UpdateTakenExactly` | services/gateway-api/gateway_api/agent_autonomy.py:685-720 | When a policy update is taken: the owner's policy, the version it names, and not all classes taken away |
| `AutonomyTheorems.UpdateTakesEffect` | services/gateway-api/gateway_api/agent_autonomy.py:720-799 | An update changes exactly the fields it gives, each to the value given, and counts generation and version up by one |
| `AutonomyTheorems.UpdateRevokes` | services/gateway-api/gateway_api/agent_autonomy.py:770-799 | An update revokes exactly the running permits under the policy |
| `AutonomyLifecycles.VoteTakenExactly` | services/gateway-api/gateway_api/agent_autonomy.py:1797-1836 | A vote is taken if and only if the request is open and in time, the voter is its owner, an administrator or has a first grant that lets it approve, is not shut out as proposer, and has not voted otherwise |
| `AutonomyLifecycles.VoteCounts` | services/gateway-api/gateway_api/agent_autonomy.py:1838-1898 | A first vote is kept with whether an administrator cast it; a rejection turns the request down, an approval with which the votes are enough approves it and is noted on its command; nothing else changes |
| `AutonomyLifecycles.CommandMovesExactly` | services/gateway-api/gateway_api/agent_collaboration.py:689-998 | The life of a command over every step of the system: only its target acknowledges, accepts, rejects and ends it, only its issuer cancels it, and only from the statuses that allow it; every move that is due takes place |
| `AutonomyLifecycles.PermitMovesExactly` | services/gateway-api/gateway_api/agent_autonomy.py:908-2261 | The life of a permit over every step of the system: who and what claims, uses up, outdates and revokes it, and from which statuses; every move that is due takes place |
| `AutonomyLifecycles.OwnClaimIsHandedBack` | services/gateway-api/gateway_api/agent_autonomy.py:2034-2041 | Once a claim has gone through, repeating it is answered with the permit if and only if it comes from the permit's owner and executor in time, and no other claim passes; a permit that is not claimed is never handed back so |
| `AutonomyLifecycles.ReceiptTakenExactly` | services/gateway-api/gateway_api/agent_autonomy.py:2107-2237 | A receipt is taken if and only if it comes from the executor with the current token for a permit that was claimed and is not used up, under a new key; it says what the permit was for and the outcome, and uses the permit up |
| `AutonomyLifecycles.LapseExactly` | services/gateway-api/gateway_api/agent_autonomy.py:1752-1795 | Listing requests lapses exactly the open ones whose time is over |
| `AutonomyTheorems.StopStops` | services/gateway-api/gateway_api/agent_autonomy.py:967-1062 | After a pause or kill exactly the running permits in scope are revoked and exactly the unfinished loops in scope are paused by a pause and cancelled by a kill, their generation counted up, and nothing else changes |
| `AutonomyTheorems.ControlTakesEffect` | services/gateway-api/gateway_api/agent_autonomy.py:1000-1034 | A control is in force from when it is written until it expires, a scope without one is enabled, and writing one changes the state of no other |
| `AutonomyTheorems.ControlWrittenExactly` | services/gateway-api/gateway_api/agent_autonomy.py:980-999 | A control is written by administrators only, and on a room or policy only if its owner has it; the error says which of the two failed |
| `AutonomyTheorems.ReachIsScope` | services/gateway-api/gateway_api/agent_autonomy.py:908-937 | The filters of the revocation reach exactly the running permits that the control's scope concerns |
| `AutonomyService.Approvals.ControlSnapshot` | services/gateway-api/gateway_api/agent_autonomy.py:819-871 | The loop with its early stop finds the worst unexpired state of the four controls, and all generations unless one kills |
| `AutonomyService.Approvals.RevokePermitsOf` | services/gateway-api/gateway_api/agent_autonomy.py:908-937 | The loop revokes exactly the permits its filters select and counts them |
| `AutonomyService.Approvals.StopLoopsOf` | services/gateway-api/gateway_api/agent_autonomy.py:939-965 | The loop stops exactly the recovery loops its filters select and counts them |
| `AutonomyService.Approvals.StopEveryone` | services/gateway-api/gateway_api/agent_autonomy.py:1038-1062 | Working owner by owner stops everyone's permits and loops, and the counts add up to the rows changed |
| `AutonomyService.Approvals.ChangeControl` | services/gateway-api/gateway_api/agent_autonomy.py:967-1098 | Tables and evidence after a control change |
| `AutonomyService.Approvals.ChangePolicy` | services/gateway-api/gateway_api/agent_autonomy.py:685-799 | Tables and answer after a policy update |
| `AutonomyService.Approvals.RequestApproval` | services/gateway-api/gateway_api/agent_autonomy.py:1457-1620 | Tables and answer of an approval request, errors in their order |
| `AutonomyService.Approvals.Tally` | services/gateway-api/gateway_api/agent_autonomy.py:1838-1856 | Going once through the votes finds whether one rejects, how many different people approve, and whether an administrator does |
| `AutonomyService.Approvals.CastVoteOn` | services/gateway-api/gateway_api/agent_autonomy.py:1797-1898 | Tables and answer of a vote, errors in their order |
| `AutonomyService.Approvals.GrantPermit` | services/gateway-api/gateway_api/agent_autonomy.py:1919-2019 | Tables and answer of a permit request; a running permit is handed back |
| `AutonomyService.Approvals.BeginClaim` | services/gateway-api/gateway_api/agent_autonomy.py:2026-2063 | The checks of a claim and the ticket they give; a permit already claimed by this agent is handed back |
| `AutonomyService.Approvals.FinishClaim` | services/gateway-api/gateway_api/agent_autonomy.py:2064-2085 | The compare-and-set of a claim |
| `AutonomyService.Approvals.WriteReceipt` | services/gateway-api/gateway_api/agent_autonomy.py:2107-2237 | Tables and answer of a receipt |
| `AutonomyService.Approvals.Accept` | services/gateway-api/gateway_api/agent_collaboration.py:855-876 | Tables and answer of accepting a command |
| `AutonomyService.Approvals.Complete` | services/gateway-api/gateway_api/agent_collaboration.py:909-964 | Tables and answer of completing a command, with the search for its one receipt |
| `Reviewers.ReviewersAreVoters` | services/gateway-api/gateway_api/affine_approval_projection.py:141-158 | The reviewers of a pending request that has not run out are exactly the users whose new vote, either way, would be admitted |
| `Reviewers.EligibleReviewers` | services/gateway-api/gateway_api/affine_approval_projection.py:161-206 | The list holds reviewers only, in order and none twice, leaves one out only when it is cut at the maximum, and says so exactly then |
| `Recovery.CommandsWithinLimit` | services/gateway-api/gateway_api/agent_autonomy.py:2431-2542 | However workers crash and overlap, a loop never issues more different commands than its maximum of attempts, and its attempt count never exceeds it |
| `Recovery.RepeatedAttemptReusesCommand` | services/gateway-api/gateway_api/agent_collaboration.py:700-707 | After a crash between the two commits, whoever repeats the attempt in any later state finds the command already issued and issues no other |
| `Recovery.BackoffGrowsUpToMaximum` | services/gateway-api/gateway_api/agent_autonomy.py:2580-2584 | The wait never gets shorter with the number of attempts, is at least the smaller of base and maximum, and never exceeds the maximum |
| `Recovery.BackoffDoublesUpToMaximum` | services/gateway-api/gateway_api/agent_autonomy.py:2580-2584 | The first wait is the base and every further one twice the one before, up to the maximum |
| `Recovery.LoopStarts` | services/gateway-api/gateway_api/agent_autonomy.py:2356-2391 | A new loop is planned, with no attempt made and at least one to make |
| `Recovery.TakenUpWhenDue` | services/gateway-api/gateway_api/agent_autonomy.py:2457-2468 | A cycle copies, as they are, planned loops of its policy whose time has come, and changes none by reading |
| `Recovery.WorkerActsByCopy` | services/gateway-api/gateway_api/agent_autonomy.py:2470-2541 | What a worker makes of its next loop by the copy alone: paused for another policy generation, ended without attempts left, else a command under the next number and then waiting |
| `Recovery.OutcomeIsTaken` | services/gateway-api/gateway_api/agent_autonomy.py:2554-2590 | An outcome is taken exactly for a waiting or paused loop and its last command if one is named; the status after each outcome, and when a failed loop is planned again |
| `Recovery.WaitIsKept` | services/gateway-api/gateway_api/agent_autonomy.py:2457-2468 | Over any run after a failed attempt no worker takes the loop up before its wait is over, under a maximum wait that is not lowered and unless a worker held the loop already |
| `Recovery.WaitEnds` | services/gateway-api/gateway_api/agent_autonomy.py:2457-2468 | From the end of the wait on, an idle worker that reads the due loops can take the loop up |
| `Recovery.OverIsFinalExactly` | services/gateway-api/gateway_api/agent_autonomy.py:2457-2541 | A loop that has succeeded, run out or been cancelled stays over in every future if and only if no worker holds a copy of it, read while it was planned, from which it will pause it or try it: the cycle writes by its copies and never looks at the status again |
| `Recovery.CancelledLoopIsPlannedAgain` | services/gateway-api/gateway_api/agent_autonomy.py:2470-2478 | A concrete run: a cycle reads a loop of an older policy generation, a kill cancels it, the cycle pauses it, and a reported failure plans it again |
| `RecoveryService.RecoveryWorker.RunCycle` | services/gateway-api/gateway_api/agent_autonomy.py:2431-2542 | One cycle that nobody comes between: every due loop is paused, ended or tried exactly once and no other loop changes; the keys issued are those before and one for each loop tried, its attempt number with the command found or the new one; sent and paused are counted |
| `RecoveryService.UndisturbedAttempt` | services/gateway-api/gateway_api/agent_autonomy.py:2470-2541 | What a worker does by a copy that is still right is what an attempt on the loop itself would do, command, number and status |
| `RecoveryService.RecoveryWorker.ReadLoops` | services/gateway-api/gateway_api/agent_autonomy.py:2457-2468 | Workers after the query: this one holds a copy of each loop it found |
| `RecoveryService.RecoveryWorker.SetAside` | services/gateway-api/gateway_api/agent_autonomy.py:2470-2484 | Tables after pausing a loop of an older policy generation or ending one without attempts left, by the copy |
| `RecoveryService.RecoveryWorker.Send` | services/gateway-api/gateway_api/agent_autonomy.py:2485-2517 | Tables after the first commit of an attempt: the command with the attempt's key, new only if there is none |
| `RecoveryService.RecoveryWorker.Conclude` | services/gateway-api/gateway_api/agent_autonomy.py:2518-2541 | Tables after the second commit, which writes what differs from the copy over whatever the loop has become |
| `RecoveryService.RecoveryWorker.RecordOutcome` | services/gateway-api/gateway_api/agent_autonomy.py:2544-2612 | Tables after the report of an outcome |

## Left out

- One clock reading serves a whole request. Where the program reads the clock twice in one request the readings may differ slightly.
- Requests are atomic steps, so the program's branches for violated unique indexes do not occur, except for equal digests of different keys in a bind. Coordination and chat contexts lock the rows they write; agent_autonomy.py locks none (next line).
- AutonomyTheorems.CompletedOnlyWhenAuthorised: holds for requests that are not interleaved inside, as do the other results on approvals, permits, receipts and controls. agent_autonomy.py takes no row locks, so votes, receipts and stops can overlap between read and write there, and a permit used up by a receipt can end as revoked when a kill commits in between. Only the claim is taken apart, since it is a compare-and-set.
- RecoveryService.RecoveryWorker.Send: does not model the branch in which the insert of a command fails because another worker has inserted it since the query. The session is then rolled back, and the copies of the loops are read again (agent_collaboration.py:759-768).
- HistoryOffload.AllOrNothing: a batch that shares an event with an archived one is not archived in the model. Two export series over the same hot rows could produce one; a run then finds the batch partly offloaded and refuses.
- Reading and normalising of inputs: lengths, text, secret-like keys, path normalisation, removal of repeated reservations, and numeric bounds other than times to live. Paths and reservations are taken as already normalised; for a path with blanks around a component a second normalisation can differ from the first, and nothing is said about that.
- Globs.Tokens: in a pattern, a bracket class whose first range is empty and is followed by an exclamation mark is read by the standard library in a way the model does not follow.
- Ids, owners, codes, commits and hashes are numbers of which only equality matters, except in history listings, where ids are strings in their order. Hashes of command payloads are the payloads; conversation digests are a function without collisions under one key. Fresh ids are new.
- Lease and handoff tables are those of one owner, as every query of that service is. Integrations of changes (agent_coordination.py:1308-1480) repeat the pattern of handoffs.
- Recording of file changes, closing of contexts and revoking of aliases happen in other code; they are steps of the environment.
- Who may see which rows over HTTP, payload serialisers, event and outbox emission other than the chat-context log, telemetry, and the AFFiNE notification contents.
- Commands approved and accepted inside the MCP federation broker, and the `running` status of commands.
- Agents, rooms, messages, inboxes and work items (agent_collaboration.py:243-687, 998-1262) and assignment (agent_autonomy.py:1100-1443): no two-way relation of agents and items and no complete paging of the inbox holds there, since a claim does not ask for a free agent, a finished item can be reopened, and the inbox pages by time what it sorts by priority.
- Listing operations of the approval service are steps of the runs (`LapseApprovals`, `OutdatePermits`, `DeliverCommand`) without a method of their own; so are acknowledging, rejecting and cancelling commands.
- Which recovery loops are due, and in which order, is an input of a cycle. Keys of recovery commands are used by recovery only.
- Archive files, encryption, transport and the check of receipts: a receipt means that the archive holds the batch as in the file. Evidence files are not written. Revisions of program and schema are taken to agree.

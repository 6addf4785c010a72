# Verified model of the study-room reservation site

The site lets students reserve places in a study room for two study periods a day, and lets
administrators run it from a web console and from buttons on Discord messages. This project models
the parts of it that are hard to get right, because several parties act at once, because a program
can be cut off half-way, or because text goes out and comes back: the fence around Discord
operations, the locked and retried transactions, the three-second acknowledgement, the permission
verifier, signed custom identifiers, history scans, reservation decisions, keyset pagination,
sanctions, the online index runner, field chunking, calendar dates, the in-memory store's lock and
the delivery of closed lists.

Each file is one module. Where the program changes something step by step, the module has a class
whose methods do the same in place, and their contracts tie the new state to a function of the old
one; lemmas then speak about these functions over every run. Where parties interleave, the module has
a state machine whose steps are the program's atomic pieces, and a run is any sequence of them. What a
single step does is stated once more in record fields and literals, next to the definition, by lemmas
with names such as `...Does`, `...Are` and `...Answers`; the table has those that carry a requirement.

## What the proofs say about the code

Most requirements hold as the code stands. These hold only under a condition, and the condition is
proved to be the exact one wherever the statement says "exactly when":

- The fence: after a drain check has seen zero, no mutation from before the fence commits any more
  exactly when every mutation commits within its claim's lease of 120 seconds. A worker claims twenty
  jobs at once and runs them one after the other, so that a late one can outlive the lease and be taken
  over by a second worker, which gives the job up; the drain check then does not see the first one,
  whose transaction can still commit. `OperationsFence.TakeoverBreaksTheFence` is such a run.
- Deadlock freedom: the locks are taken in sorted order of their keys, but what is locked is a 64-bit hash
  of the key. For any set of keys in use, no run gets stuck exactly when the hash keeps equal locks together
  in the order of these keys; it is enough that no two keys in use collide. Otherwise two transactions can
  get stuck until the database aborts one of them (`LockOrder.InterleavedHashDeadlocks`).
- Capacity: the same locks do not keep a slot within its capacity at a snapshot level that does not
  validate its reads, because the snapshot is older than the locks. The code uses the serializable
  level, at which they do.
- Acknowledgement: "rejected" is final in every interleaving exactly when the job row found at the start
  is closed or another command's; or when it is absent or only staged, no worker takes the job before the
  answer, and no other delivery of the interaction is going on. A worker that takes the job between
  activation and settlement makes the settlement answer "abandoned" for a job that may be retried
  (`AckHandshake.EarlyWorkerRevivesRejected`), and so does a redelivery whose job already waits for a
  retry (`AckHandshake.DuplicateOfAWaitingJob`).
- Closed lists: the list reaches the channel at most once and once more for every explicit retry exactly
  when no post that is judged failed has arrived all the same and no exception of the save after a
  successful post is classified as a failed post. The code does classify one so, if it is not a time-out
  or a TypeError; the list is then sent again (`ClosedListDelivery.ALostSaveRepeatsTheList`).
- Permission verifier: an approved channel is hidden from every ordinary set of roles exactly when the
  everyone role has no ADMINISTRATOR, which the verifier does not look at.
- Custom identifiers: the parser accepts epochs with leading zeros, which the builder never prints.
- Bookable dates: the routes ask only for the shape of a date, and the check compares texts. A text that is
  no date can be booked, such as 2026-06-31 on the Monday before (`CivilDates.TheThirtyFirstOfJune`).
  Everything that can be booked is a date exactly when no day after today can be booked, or tomorrow and
  the Friday of the week are in the same month.
- Sanctions: a student is active exactly when no sanction is, except while exactly one of the two expiry
  jobs has had an effect; both together put it right.
- Retention scan: while the boundary message is in the channel, nothing at or past it is asked to be
  deleted, exactly when the cursor the scan starts from is safe: the channel is unknown, or the scan is
  incomplete and at its page cap, or its matches are all newer than the boundary and, unless its pages
  are used up, its place is newer too or no message with the nonce is older than its place. A cursor
  inherited from remote verification can be unsafe
  (`RetentionScan.InheritedCursorDeletesPastTheBoundary`). A scan that nothing disturbs settles
  its row exactly when one of the messages in front of the boundary carries the nonce and fewer than a
  thousand are in front (`RetentionOutcome.UndisturbedScanSettlesIff`).
- Pagination of reservations: a page whose last row has an unknown period ends the list. All rows of a
  fixed table are returned exactly when their number is at most (k / 50 + 1) * 50 for k rows with a
  known period, and the database's condition and the in-memory filter differ on exactly the rows with an
  unknown period.
- Field chunks: joined again, the chunks are the lines exactly when no line is longer than 1024.

Assumptions that appear as parameters or in the state machines: message authentication codes and
digests are arbitrary functions (a code has 22 base64url characters); strings are ordered by code
unit; +09:00 is fixed; a send or a delete either succeeds, fails or has an unknown effect; identifiers
of Discord messages grow; two updates of a delivery record never share a time stamp. Exceptions of the
database are steps of the acknowledgement, the fenced disable, the operation transaction and the closed
lists; elsewhere a write takes effect or does not.

## Model

| member | source | states |
|---|---|---|
| OperationsFence.FenceHoldsIffMutationsBeatTheLease | src/lib/discord-disable-pending.ts:99-127 | over all interleavings of workers, disables, drain checks and re-enables: once a drain check has seen zero, no mutation of a job rendered before the fence commits, exactly when the time between claim and commit is bounded by less than the lease |
| OperationsFence.TakeoverBreaksTheFence | src/lib/prisma-discord-interaction-job-store.ts:364-371 | with mutations as slow as the lease there is a run in which a job from before the fence commits after a zero drain |
| OperationsFence.SealedEverAfter | src/lib/discord-reservation-operation-transaction.ts:48-70 | once every transaction open for an old job has outlived its lease, that stays so, also after re-enabling, although the control row is read without a lock before the commit |
| OperationsFence.EpochsOnlyGrow | scripts/operational-rollout-smoke.ts:159-187 | the control epoch never goes down in any run |
| OperationsFence.OperationsComeBack | src/lib/discord-disable-pending.ts:129-145 | from any state of any run: after a re-enabling that takes effect, a job rendered at the new epoch can be claimed by an idle worker, its mutation committed and the job finished |
| OperationsFence.ControlChanges | scripts/operational-rollout-smoke.ts:159-187 | what disabling, re-enabling and the pending flag do to the control row, and that nothing else changes it |
| OperationsFence.ZeroDrainSeals | scripts/operational-rollout-smoke.ts:159-187 | when a drain check counts no active old job, every transaction still open for one has outlived its lease |
| OperationsFence.DrainIsZeroIff | scripts/operational-rollout-smoke.ts:173-175 | a drain check can return 0 exactly if every job that is being processed was rendered at the fence or later |
| OperationsFence.ClaimsAre | src/lib/prisma-discord-interaction-job-store.ts:226-291 | a batch can be claimed exactly if it has at most twenty claims, each its own job of the epoch the worker read, which waits or whose last claim is two minutes old |
| OperationsFence.DispatchAnswers | src/lib/prisma-discord-interaction-job-store.ts:344-362 | a claim gets to its transaction exactly if operations are enabled at the epoch its job was rendered at, the row names the claim and there is an application; otherwise it ends as stale |
| OperationsFence.TransactionAnswers | src/lib/discord-reservation-operation-transaction.ts:48-70 | the second look goes by the control row alone, and a transaction that is rolled back looks again |
| OperationsFence.FinishingDoes | src/lib/prisma-discord-interaction-job-store.ts:373-386 | while the row names the claim its job takes the status and the next claim starts; otherwise no row changes and the batch ends |
| OperationsFence.ClaimJobsAt | src/lib/prisma-discord-interaction-job-store.ts:226-291 | claiming a batch gives every claimed job exactly its own claim and leaves all other jobs alone |
| DisablePending.OperationsControl.BeginDisable | scripts/operational-rollout-smoke.ts:159-187 | raising the fence disables operations at the next epoch, returns that epoch and leaves the pending flag |
| DisablePending.OperationsControl.Reenable | src/lib/discord-disable-pending.ts:129-145 | operations are enabled at the next epoch and with the pending flag cleared, and only when no remote cleanup is pending or it was acknowledged; otherwise nothing changes |
| DisablePending.MessageLedger.ProcessClaim | src/lib/discord-disable-pending.ts:157-185 | a claim whose message was edited and whose completion was accepted becomes inert; one whose reservation is missing, whose edit failed or whose completion was lost is released; an exception leaves it claimed; no other message changes |
| DisablePending.MessageLedger.DisableAll | src/lib/discord-disable-pending.ts:60-89 | only live messages change, and the counts agree with the messages; when nothing is reported left over, exactly the messages that were live have become inert; something is left over only after a failure or the last batch |
| DisablePending.FencedDisable | src/lib/discord-disable-pending.ts:91-127 | the epoch is raised once and operations stay disabled; cleanup runs only after a drain check of zero with no exception before it; the reported maximum is that of the checks made; the pending flag ends lowered only when nothing was in flight and every live message has become inert, and it ends raised after a timeout or an exception of a check, the cleanup or the save, unless raising it throws as well |
| JobRunner.JobStore.RunClaims | src/lib/discord-interaction-job-runner.ts:72-145 | the loop finishes the claims one by one up to the first that was lost, counting what it did |
| JobRunner.OnlyCurrentClaimsFinish | src/lib/prisma-discord-interaction-job-store.ts:373-386 | a job is finished exactly when its row still says PROCESSING under the claim; otherwise the run stops and changes nothing more |
| JobRunner.JobsEnd | src/lib/discord-interaction-job-runner.ts:80-143 | the end status of every verdict: retryable failures are retried up to the seventh attempt and abandoned from the eighth on |
| JobRunner.RetryDelays | src/lib/discord-interaction-job-runner.ts:147-150 | a failed attempt is repeated after 1, 2, 5, 15, 30 and then always 60 minutes |
| JobRunner.UndisturbedBatchIsFinished | src/lib/discord-interaction-job-runner.ts:80-143 | a batch nobody disturbs is finished to its end, each job with the status of its own verdict |
| JobRunner.CountsAddUp | src/lib/discord-interaction-job-runner.ts:79-144 | the four outcome counts add up to the claims that were finished |
| JobRunner.GivenUpAtTheEighthFailure | src/lib/discord-interaction-job-runner.ts:115-128 | a job that always fails retryably is retried seven times and abandoned at the eighth attempt |
| JobRunner.RetriesAreBounded | src/lib/prisma-discord-interaction-job-store.ts:252-271 | with claims cut off in between: a job waits for a retry only after one to seven attempts, for the delay of its last one |
| LockOrder.NeverStuckIffContiguous | src/lib/db-context.ts:177-184 | for any set of keys in use and any number of transactions with such keys, every reachable state with an unfinished transaction lets one advance, exactly when the hash keeps equal locks together in the order of the keys in use |
| LockOrder.InjectiveIsContiguous | src/lib/db-context.ts:182 | a hash under which no two of the keys in use collide meets that condition |
| LockOrder.RunsEnd | src/lib/db-context.ts:177-184 | no run takes more steps than there are locks to take and transactions to end, and where it stops all have ended or one can go on |
| LockOrder.RunKeepsMutualExclusion | src/lib/db-context.ts:177-184 | two transactions never hold the same lock at once |
| LockOrder.InterleavedHashDeadlocks | src/lib/db-context.ts:177-184 | two transactions whose keys the hash interleaves reach a state in which neither can take its next lock, which only the database's deadlock detector ends |
| LockOrder.LockSession.AcquireDatabaseMutationLocks | src/lib/db-context.ts:177-184 | takes exactly the given keys, each once, in ascending order |
| BookingCapacity.NeverOverbooksIff | src/lib/admin-reservation-create-service.ts:57-119 | in every interleaving of creates, cancels and no-shows the confirmed rows of a slot stay within its capacity, exactly at the levels that see the latest rows or refuse to commit when the slot has got a row since |
| BookingCapacity.CapacityAlways | src/lib/db-context.ts:129-143 | the same as an invariant of each state of each run, with locks and retries |
| BookingCapacity.EffectsHappenOnce | src/lib/admin-reservation-create-service.ts:72-100 | no student ever has two rows for a slot, and each call has inserted exactly one row when it says so and none otherwise, across its attempts |
| BookingCapacity.LocksAreExclusive | src/lib/db-context.ts:177-184 | no two transactions hold the lock of one period or of one student at once |
| BookingCapacity.OwnRowAnswers | src/lib/admin-reservation-create-service.ts:78-87 | a confirmed row of the student in the slot makes the call a duplicate, one that was cancelled or missed refuses it, and without one it goes on |
| BookingCapacity.CountAnswers | src/lib/admin-reservation-create-service.ts:88-91 | the slot is full exactly when the confirmed rows that are seen are no fewer than its places |
| BookingCapacity.CommitAnswers | src/lib/admin-reservation-create-service.ts:92-119 | a commit is refused by validation, fails on the unique index, or inserts one confirmed row of the student and the slot |
| BookingCapacity.ConflictAnswers | src/lib/db-context.ts:145-160 | a conflict starts the call again from its beginning, twice; the third one ends it |
| BookingCapacity.RowsLeaveConfirmed | src/lib/admin-reservation-operations.ts:76-90 | no step changes another row, and a confirmed row only leaves by its own cancellation or no-show |
| BookingCapacity.RepeatableReadOverbooks | src/lib/db-context.ts:55-64 | with snapshots and no validation two students get the one place |
| BookingCapacity.RetrySerializable | src/lib/db-context.ts:145-160 | at most three attempts; the first one that does not end in a conflict decides, and only three conflicts exhaust it |
| AckHandshake.AcknowledgedMeansPending | src/lib/discord-interaction-handler.ts:102-151 | "acknowledged" is answered only after the store has seen this command's job pending, and the job is never abandoned for the deadline |
| AckHandshake.RejectedIsFinalIff | src/lib/prisma-discord-interaction-job-store.ts:67-175 | for every row the store may hold at the start: a rejected command never becomes runnable later, exactly when that row is closed or another command's, or it is absent or only staged, workers leave the job alone until the answer, and no other delivery overlaps |
| AckHandshake.EarlyWorkerRevivesRejected | src/lib/discord-interaction-handler.ts:112-119 | a run in which a worker is faster than the settlement and the rejected command becomes due again |
| AckHandshake.DuplicateOfAWaitingJob | src/lib/prisma-discord-interaction-job-store.ts:96-110 | a redelivered interaction whose job waits for a retry finds a duplicate, is told that the job was abandoned and is rejected, and the job is still due |
| AckHandshake.RejectedWhileOpen | src/lib/discord-interaction-handler.ts:121-128 | a redelivery that is no longer authorised is rejected while the job of the first delivery is or becomes due |
| AckHandshake.OtherDeliveryOpensTheJob | src/lib/prisma-discord-interaction-job-store.ts:113-140 | one delivery is rejected and an overlapping one stages and activates the same job after that |
| AckHandshake.SettledAtMostOnce | src/lib/discord-interaction-handler.ts:112-119 | each call of the store is an entry of its own: whatever branches ask to settle and whenever, there is at most one, and there is one exactly when a branch has asked with a staged identity |
| AckHandshake.StagingDoes | src/lib/prisma-discord-interaction-job-store.ts:67-112 | staging adds a row only where there is none, closed at once when it is late, and tells a redelivery from another command |
| AckHandshake.ActivatingDoes | src/lib/prisma-discord-interaction-job-store.ts:113-140 | activation acknowledges the command's staged row in time, and answers pending exactly when the row is then acknowledged and pending |
| AckHandshake.SettlingDoes | src/lib/prisma-discord-interaction-job-store.ts:142-175 | settling gives up the command's row that is only staged, and answers pending exactly when it is acknowledged and pending |
| AckHandshake.SettlingShares | src/lib/discord-interaction-handler.ts:112-119 | pipeline and deadline share one call: whoever asks first makes it, the other waits for it or takes its answer |
| AckHandshake.Acknowledgement.StartSettlement | src/lib/discord-interaction-handler.ts:115-117 | the memo: only the first request makes a new call of the store |
| AckHandshake.NothingStartsAfterTheDeadline | src/lib/discord-interaction-handler.ts:121-146 | after the deadline no staging and no activation is started that was not started before |
| AckHandshake.Acknowledgement.SettleFromPipeline | src/lib/discord-interaction-handler.ts:112-119 | the pipeline's request to settle rejects without a staged identity, and otherwise joins a settlement that is under way |
| AckHandshake.Acknowledgement.ResumeAfterStage | src/lib/discord-interaction-handler.ts:130-134 | a conflict rejects, a timeout settles, and only otherwise activation is started |
| AckHandshake.Acknowledgement.DeadlineElapsed | src/lib/discord-interaction-handler.ts:141-146 | the deadline marks the time as over and settles |
| PermissionVerifier.ComputeOverwrites | scripts/verify-discord-setup.ts:73-95 | the loop over overwrites grants a permission exactly when the member's own first overwrite allows it, or says nothing of it and a held role's allows it, or none of these denies it and the first one of everyone allows it or leaves it as it was |
| PermissionVerifier.PermissionsDecide | scripts/verify-discord-setup.ts:97-113 | everything for the owner and for whoever gets ADMINISTRATOR from everyone or a role; for others the permissions of everyone and their roles, after the overwrites of the category and then of the channel |
| PermissionVerifier.DecimalsAreRead | scripts/verify-discord-setup.ts:33 | a printed number is a decimal mask and is read back as that number |
| PermissionVerifier.SameBitsSameNumber | scripts/verify-discord-setup.ts:69-71 | a mask's number is determined by the set of its bits, so that testing bits decides everything about a mask |
| PermissionVerifier.OperatorsOnBits | scripts/verify-discord-setup.ts:69-95 | "or", "and" and "and not" on numbers are union, intersection and difference of their bits, and a mask passes the test for another one exactly when it has all of its bits |
| PermissionVerifier.ConstantsAreBits | scripts/verify-discord-setup.ts:14-22 | each named permission is the number with just its bit |
| PermissionVerifier.VerifyDiscordSetup | scripts/verify-discord-setup.ts:115-195 | reports exactly the issues that hold of the snapshot, and approves exactly when there are none; a malformed snapshot, down to a mask that is no decimal number, has that one issue |
| PermissionVerifier.MalformedIs | scripts/verify-discord-setup.ts:115-137 | when a snapshot is malformed, by its category, its identifiers, its masks and the roles it names, and which of these is blamed |
| PermissionVerifier.LeakedRolesAre | scripts/verify-discord-setup.ts:154-162 | a role is reported exactly when it is neither the administrators' nor the bot's, makes nobody an administrator and lets its holder see the channel |
| PermissionVerifier.LeakedMembersAre | scripts/verify-discord-setup.ts:169-184 | a member with an overwrite is reported exactly when neither bot, owner nor an administrator of either kind, and sees the channel |
| PermissionVerifier.ApprovedHidesFromRoleSets | scripts/verify-discord-setup.ts:154-162 | an approved channel is hidden from holders of any set of ordinary roles, of any size, although roles are examined one at a time |
| PermissionVerifier.ApprovedHidesIffEveryoneIsNoAdministrator | scripts/verify-discord-setup.ts:97-113 | for an approved channel that is the same as the everyone role not being an administrator |
| PermissionVerifier.ApprovedChannelIsPrivate | scripts/verify-discord-setup.ts:163-184 | every member who is not the owner, the bot or a holder of an administrative role is kept out, also with an overwrite of their own |
| Encodings.Base64UrlRoundTrip | src/lib/discord-interaction-contracts.ts:146-149 | unpadded base64url as in sections 5 and 3.2 of RFC 4648 loses nothing |
| Encodings.AlphabetIs | src/lib/discord-interaction-contracts.ts:146-149 | the 64 symbols in the order of table 2 of RFC 4648 |
| Encodings.GroupsAreNumbers | src/lib/discord-interaction-contracts.ts:146-149 | three bytes and their four symbols are the same 24-bit number, and what is left over is padded with zeros, as in section 4 of RFC 4648 |
| Encodings.Base36RoundTrip | src/lib/discord-interaction-contracts.ts:150 | numbers survive base 36 and are printed without leading zeros |
| Encodings.OnlyCanonicalBase36Reprints | src/lib/discord-interaction-contracts.ts:169-181 | a base-36 text is printed again as it was exactly when it has no leading zero |
| CustomIds.ReservationIdRoundTrip | src/lib/discord-interaction-contracts.ts:135-181 | parsing a printed identifier gives back action, epoch, reservation and source, for every input the builder accepts |
| CustomIds.AcceptedInputs | src/lib/discord-interaction-contracts.ts:135-154 | the builder accepts exactly a safe epoch, identifiers of 1 to 191 plain characters and a secret whose parts fit a hundred characters together |
| CustomIds.ReservationIdsAreDistinct | src/lib/discord-interaction-contracts.ts:135-154 | different controls never print the same identifier |
| CustomIds.AcceptedReservationIdIsPrinted | src/lib/discord-interaction-contracts.ts:169-181 | an accepted identifier is what the builder prints for its content exactly when its epoch has no leading zero |
| CustomIds.BoardIdRoundTrip | src/lib/discord-admin-custom-ids.ts:41-69 | the same round trip for operations-board identifiers |
| CustomIds.AcceptedBoardIdIsPrinted | src/lib/discord-admin-custom-ids.ts:55-69 | an accepted board identifier is reprinted exactly when its revision has no leading zero |
| CustomIds.ReasonIdsAreExactlyThePrinted | src/lib/discord-admin-custom-ids.ts:8-26 | for reason dialogs the parser accepts exactly what the builder prints |
| CustomIds.AcceptedInteractions | src/lib/discord-admin-custom-ids.ts:8-26 | a reason dialog can be made exactly for interaction identifiers of 17 to 20 digits |
| RemoteVerification.VerificationLedger.VerifyRemoteMessage | src/lib/discord-reservation-reconciliation.ts:54-134 | one call reads one page, stores how far it got, and reports not found exactly when the row is gone, conflict when the lookup or the save is refused, bound exactly when it has bound the message, and otherwise the stored status |
| RemoteVerification.CompleteFindsAllCarriers | src/lib/discord-reservation-reconciliation.ts:84-116 | over any calls with failing pages and lost saves: a complete search has matched exactly the messages with the nonce, each once, and binds exactly when there is one |
| RemoteVerification.CompleteAfterEnoughPages | src/lib/discord-reservation-reconciliation.ts:91-101 | with page size p over n messages the search is complete after a successful page exactly from page n / p + 1 on |
| RemoteVerification.EnoughCallsEnd | src/lib/discord-reservation-reconciliation.ts:54-134 | n / p + 1 calls that go well end the search through n messages with pages of p |
| RemoteVerification.OtherCallsKeepTheirPlace | src/lib/discord-reservation-reconciliation.ts:117-134 | refused calls and lost saves change nothing, and a failed page keeps matches and place |
| RetentionScan.Cleanup.RetainCandidate | src/lib/maintenance-service.ts:278-298 | one call on a local, known or unknown candidate changes channel, row and cursor as its kind demands, wherever it is cut off |
| RetentionScan.Cleanup.DeleteMatchesAndReduce | src/lib/maintenance-service.ts:391-422 | deletes the matches in order up to the first failure, and writes the tombstone only after the last |
| RetentionScan.TombstonesLeaveNothingBehind | src/lib/maintenance-service.ts:300-389 | over any run with failures, cut-offs and other people's messages: only messages with the nonce are ever asked to be deleted, no scan gets past ten pages, and under a tombstone no newer message with the nonce is left |
| RetentionScan.BoundaryHoldsIffCursorIsSafe | src/lib/maintenance-service.ts:314-389 | for every cursor, channel and run with the boundary message in the channel: nothing at or past it is asked to be deleted, exactly when the cursor passes a check on its matches, its place and its page count |
| RetentionScan.InheritedCursorDeletesPastTheBoundary | src/lib/maintenance-service.ts:314-326 | a cursor left by remote verification with which a message past the boundary is deleted |
| RetentionScan.RemoteVerificationLeavesASoundCursor | src/lib/discord-reservation-reconciliation.ts:84-105 | such a cursor is otherwise a sound place to go on from, as long as it has read at most ten pages |
| RetentionScan.OnlyACompleteScanDeletes | src/lib/maintenance-service.ts:365-376 | a call deletes only the matches of a complete scan, and its row becomes a tombstone exactly when every deletion and the write succeed |
| RetentionScan.SuccessMeansSettled | src/lib/maintenance-service.ts:278-298 | a call reports success exactly when it has settled the row |
| RetentionScan.KnownMessageIsGone | src/lib/maintenance-service.ts:290-294 | for a known message only that one is deleted, and it is gone once the row is a tombstone |
| RetentionOutcome.UndisturbedScanSettlesIff | src/lib/maintenance-service.ts:300-374 | with f messages in front of the boundary, n undisturbed calls make the row a tombstone exactly if f is less than a hundred times n and than a thousand and one of the f carries the nonce; then exactly the carriers among them are gone, and otherwise the channel is as it was |
| RetentionOutcome.UndisturbedScanAnswers | src/lib/maintenance-service.ts:315-374 | which of partial, page cap, zero match and success each of these calls answers |
| RetentionOutcome.DeletionStopsAtTheFirstFailure | src/lib/maintenance-service.ts:401-413 | what comes before the first failed deletion is gone, that one may be, and nothing after it is asked for |
| RetentionOutcome.FailedDeletionIsKept | src/lib/maintenance-service.ts:403-413 | a failed deletion leaves the row live and keeps the matches with the error, unless that is lost too |
| RetentionOutcome.FailedPageIsKept | src/lib/maintenance-service.ts:376-385 | a page that cannot be read costs no page and no match, but the scan is not complete any more |
| RetentionOutcome.MissingLookupIsKept | src/lib/maintenance-service.ts:305-313 | the same for a call without configuration, channel or boundary |
| RetentionOutcome.LocalAndKnownRowsSettle | src/lib/maintenance-service.ts:283-294 | a local row goes with one write; a known message becomes a tombstone with one match, or the row stays live with its error |
| ReservationDecisions.Database.ProcessInTransaction | src/lib/discord-reservation-operation-transaction.ts:34-100 | the checks, the guarded updates and the receipt as they are written one after the other, as one function of the rows |
| ReservationDecisions.Database.ProcessOperation | src/lib/discord-reservation-operation-transaction.ts:146-158 | the rows and the answer are those of that function, and an exception anywhere takes back every write of the transaction |
| ReservationDecisions.WhoMayOperate | src/lib/discord-reservation-operation-transaction.ts:54-76 | nothing changes and nothing fresh is answered except for a current administrator with the command's student number, a command and job of this application, the right student, the enabled epoch and the message as it is |
| ReservationDecisions.Refusals | src/lib/discord-reservation-operation-transaction.ts:54-76 | the answer to every other command, by the first thing that is not in order; a stored receipt is answered before the actor is looked at |
| ReservationDecisions.LateCommandsAnswer | src/lib/discord-reservation-operation-transaction.ts:76-100 | a command whose reservation or decision is no longer open: accept and reject report what has become of it, the others are stale and leave a receipt |
| ReservationDecisions.NoShowsAreChecked | src/lib/discord-reservation-operation-transaction.ts:131-144 | a no-show that the rules forbid changes nothing and says why |
| ReservationDecisions.EachStepDecides | src/lib/discord-reservation-operation-transaction.ts:71-100 | in each step of any run with web cancels, no-shows, sanctions and cleanups: a status only leaves CONFIRMED; a decision goes only from none to accepted, cancelled or disabled and from accepted to cancelled or no-show, or is retired |
| ReservationDecisions.OthersDo | src/lib/admin-no-show-operations.ts:138-172 | what web cancellations, web no-shows, bans and the cleanups do to reservations, messages and receipts |
| ReservationDecisions.DecisionsOnlyMoveForward | src/lib/discord-reservation-operation-transaction.ts:71-100 | over any stretch of any run: statuses that have left CONFIRMED stay as they are, decisions never come back, and cancelled or no-show is true of the reservation, in messages and in stored receipts |
| ReservationDecisions.WhoDecides | src/lib/discord-reservation-operation-transaction.ts:55-70 | a decision is only taken by a current administrator on a confirmed reservation, through the message it was rendered on, at the enabled epoch, from exactly the decision its command needs, and is what the command is answered |
| ReservationDecisions.UpToDateCommandsTakeEffect | src/lib/discord-reservation-operation-transaction.ts:76-144 | a first, up-to-date command whose decision is open always takes effect: on exactly its own message and reservation (a no-show also on the cancellable ones), and with a receipt |
| ReservationDecisions.AnswersAreTrue | src/lib/discord-reservation-operation-transaction.ts:160-168 | a fresh answer is true when the transaction ends: accepted means a confirmed reservation whose message says accepted, stale that the command's decision is not open, cancelled and no-show what they say; a replayed one is still true; a refusal changes nothing |
| ReservationDecisions.RedeliveryReplays | src/lib/discord-reservation-operation-transaction.ts:60-61 | an interaction with a receipt gets the stored answer again, changes nothing, and the answer is still true |
| ReservationDecisions.ReceiptsAreWrittenOnce | src/lib/prisma-discord-reservation-message-interactions.ts:41-54 | a stored receipt never changes until it expires |
| ReservationDecisions.DecidesAtMostOnce | src/lib/prisma-discord-reservation-message-interactions.ts:41-54 | an interaction decides at most once, however often it is delivered, while its receipt is kept |
| KeysetPagination.WhereAgreesIffKnown | src/lib/admin-reservations.ts:136-165 | for all three lists the query's condition keeps the row that the in-memory filter keeps exactly when its period is known |
| KeysetPagination.DatabaseServesTheSamePage | src/app/api/admin/reservations/route.ts:92-103 | with known periods the database serves exactly the page, the cursor and the total that the in-memory code computes |
| KeysetPagination.FollowingReturnsEveryLastingRowOnce | src/lib/admin-reservations.ts:209-229 | while rows come and go between pages, every row that is there all the time is returned exactly once |
| KeysetPagination.NoRowTwice | src/lib/admin-users.ts:126-153 | no row is returned twice, and the rows come in order, whatever happens between pages |
| KeysetPagination.FollowingAFixedTable | src/lib/admin-reservations.ts:217-229 | on a fixed table the pages are a prefix of the sorted list, and all of it exactly when the two counts of rows say so |
| KeysetPagination.SortSorts | src/lib/admin-audit-actions.ts:121-125 | sorting puts the rows of each list in their order and keeps every one |
| KeysetPagination.OneOrder | src/lib/admin-users.ts:126-130 | there is only one such list |
| KeysetPagination.OrderIs | src/lib/admin-users.ts:126-130 | the orders in fields: time and identifier for users, reversed for audit entries, and the period first for reservations |
| KeysetPagination.PagesAreFifty | src/lib/admin-reservations.ts:209-229 | a page has the first fifty rows left and leads on exactly when more are left and its last row has a known period |
| Sanctions.Record.Apply | src/lib/admin-user-sanction-service.ts:24-95 | applying a sanction is refused, idempotent, or replaces the active sanction and, for a ban, cancels what can be cancelled |
| Sanctions.Record.Remove | src/lib/admin-user-sanction-service.ts:97-142 | a release that matches the status revokes every active sanction |
| Sanctions.Record.NoShowBan | src/lib/admin-no-show-operations.ts:97-232 | a no-show of a closed period bans, cancels what can be cancelled and replaces the active sanction |
| Sanctions.ApplyingDoes | src/lib/admin-cancellable-reservations.ts:13-31 | refused, idempotent or a replacement; a ban cancels exactly the confirmed reservations of later dates and those of today whose period is not over, and counts them |
| Sanctions.MarkingDoes | src/lib/admin-no-show-operations.ts:97-232 | a no-show is marked exactly for a confirmed reservation of a slot with a stored setting that has closed, bans without an end and cancels what else is ahead |
| Sanctions.CreatingDoes | src/lib/admin-reservation-create-service.ts:65-102 | a reservation is made exactly for a student who may book, on a bookable date, in an enabled slot between its opening and closing minutes, where the student has none and there is a place |
| Sanctions.ReleasingDoes | src/lib/admin-user-sanction-service.ts:111-118 | which release ends which status, and that every sanction is then over |
| Sanctions.ExpiringDoes | src/lib/prisma-maintenance-store.ts:89-160 | the two expiry jobs end exactly the restrictions and the sanctions whose time has come |
| Sanctions.BannedStudentsHoldNothing | src/lib/admin-cancellable-reservations.ts:13-31 | over any run, with request times out of order: at most one active sanction, status and sanctions agree, and a banned student holds no confirmed reservation that could still be cancelled |
| Sanctions.ActiveIffUnsanctioned | src/lib/maintenance-service.ts:143-144 | over any run with the two expiry jobs: a student is active exactly when no sanction is, except when exactly one of the jobs has had an effect since an administrator last changed either, and the jobs have at most two effects in between |
| Sanctions.BothJobsSettle | src/lib/maintenance-service.ts:143-144 | the two jobs together, in either order, leave status and sanctions in agreement |
| Sanctions.OnlyAReleaseLiftsABan | src/lib/admin-user-sanction-service.ts:111-118 | nothing but a release of bans or of everything ends a ban |
| Sanctions.HowReservationsChange | src/lib/admin-reservation-create-service.ts:67-102 | reservations appear only for unrestricted students in an open period, become no-shows only after a period is over, and are cancelled only by their own cancellation or, while they still can be, by a ban |
| Sanctions.BansCancelWhatTheyCan | src/lib/admin-user-sanction-service.ts:152-158 | a new ban leaves no reservation confirmed that could still be cancelled |
| Sanctions.CancellableFades | src/lib/period-window.ts:9-23 | what cannot be cancelled any more never becomes cancellable again |
| OnlineIndexes.Database.PlaceIndex | scripts/apply-online-admin-search-indexes.ts:178-191 | one round touches only its own index, never a valid one, and succeeds without faults exactly when the index is missing, invalid or already right; a name taken elsewhere and a valid index of another definition fail with their own codes |
| OnlineIndexes.Database.ApplyIndexes | scripts/apply-online-admin-search-indexes.ts:141-219 | cut off at any statement, APPLIED implies that every index is valid, ready and as defined, valid indexes stay untouched and recoverable states stay recoverable; run to its end it succeeds exactly from these; a ledger of another checksum ends the run with nothing changed |
| OnlineIndexes.Database.RunAgainAndAgain | scripts/apply-online-admin-search-indexes.ts:169-175 | over any number of runs the checksum of a ledger never changes, and a ledger of another checksum keeps everything as it is |
| OnlineIndexes.Database.RecoverAfterCrashes | scripts/apply-online-admin-search-indexes.ts:141-219 | after any number of interrupted runs one uninterrupted run puts every index in place |
| FieldChunks.ChunkApplicantLines | src/lib/discord-notifications.ts:226-244 | every chunk is at most 1024 long, and for non-empty lines the loop arrives at the greedy split |
| FieldChunks.NoSplitUsesFewer | src/lib/discord-notifications.ts:226-244 | no other way of splitting the lines in order into chunks that fit uses fewer chunks |
| FieldChunks.NothingIsLostIffNoLineIsTooLong | src/lib/discord-notifications.ts:239-243 | the chunks, joined again, are the lines exactly when no line is longer than 1024 |
| FieldChunks.ChunksAreAsShortAsLines | src/lib/discord-notifications.ts:226-238 | chunks stay within 900, or any larger limit, exactly when the lines do |
| FieldChunks.GroupsSplit | src/lib/discord-notifications.ts:230-238 | the greedy split keeps every line, in order, and every chunk fits |
| MemoryStoreMutex.MemoryReservationStore.Acquire | src/lib/memory-reservation-store.ts:133-148 | the lock is granted at once or the task joins the end of the queue |
| MemoryStoreMutex.MemoryReservationStore.Release | src/lib/memory-reservation-store.ts:150-157 | the lock goes to the first in the queue, or becomes free |
| MemoryStoreMutex.MemoryReservationStore.Reserve | src/lib/memory-reservation-store.ts:82-118 | finding, counting and creating amount to one booking |
| MemoryStoreMutex.BookingGives | src/lib/reservation-service.ts:149-170 | a request gets a place exactly when its user has none in the slot and fewer than the capacity are taken |
| MemoryStoreMutex.InterleavingsAreSerial | src/lib/memory-reservation-store.ts:70-80 | however transactions interleave, the list is the one of running them one after the other in the order of arrival, so nothing is overbooked or booked or numbered twice |
| MemoryStoreMutex.InvAlways | src/lib/memory-reservation-store.ts:133-157 | in every state at most one task holds the lock, also between hand-over and resumption, the waiting tasks are exactly the queue, and grants follow arrivals |
| MemoryStoreMutex.NeverStuck | src/lib/memory-reservation-store.ts:70-80 | while a transaction has not finished, some transaction can go on |
| MemoryStoreMutex.AllFinishedMeansFree | src/lib/memory-reservation-store.ts:150-157 | when all have finished the lock is free and nobody was left waiting |
| CivilDates.DayNumberCounts | src/lib/date.ts:12-16 | the closed form of the Gregorian calendar counts the days one by one, over month and leap-year ends |
| CivilDates.DatesAreNumbers | src/lib/date.ts:12-16 | dates and day numbers determine each other and have the same order |
| CivilDates.KstDayIs | src/lib/date.ts:12-16 | a day in the zone has the instants of its 24 hours, nine hours before those in UTC |
| CivilDates.WrittenOrderIsCalendarOrder | src/lib/advance-reservation-policy.ts:39-44 | dates of four-digit years compare as strings the way they do in the calendar, and texts that only have the shape of a date by their year, month and day |
| CivilDates.AddDays | src/lib/date.ts:12-16 | by way of an instant and its UTC date, a date is moved by exactly that many calendar days |
| CivilDates.WeekdayFromNoon | src/lib/advance-reservation-policy.ts:46-48 | the weekday of the instant of noon is the weekday of the date |
| CivilDates.GetAdvanceReservationPolicy | src/lib/advance-reservation-policy.ts:16-29 | the policy computed by adding days to today by way of instants is the one stated by day numbers |
| CivilDates.BookableTexts | src/lib/advance-reservation-policy.ts:31-44 | a text of the shape the routes ask for can be booked exactly when it is today or, from Monday to Thursday, comes between tomorrow and that week's Friday by year, month and day |
| CivilDates.BookableDates | src/lib/advance-reservation-policy.ts:16-44 | a date can be booked exactly when it is today or, from Monday to Thursday, a later day up to that week's Friday |
| CivilDates.TheThirtyFirstOfJune | src/lib/advance-reservation-policy.ts:39-44 | on Monday, 29 June 2026, the text 2026-06-31 can be booked although it is no date |
| CivilDates.OnlyDatesAreBookableIff | src/app/api/reservations/route.ts:26-30 | everything of that shape that can be booked is a date exactly when no day after today can be booked, or tomorrow and the last day that can be are in the same month |
| CivilDates.DateRange | src/lib/admin-statistics.ts:113-119 | the range ends and lists each day from first to last once |
| ClosedListDelivery.NotificationRepository.ClaimDelivery | src/lib/prisma-notification-repository.ts:72-104 | only a missing, pending or failed delivery can be claimed, forced or not |
| ClosedListDelivery.NotificationRepository.SaveDelivery | src/lib/prisma-notification-repository.ts:180-203 | a result is saved only while the record still carries the claim's stamp |
| ClosedListDelivery.NotificationRepository.DeliverClaimedPeriod | src/lib/closed-period-notification-service.ts:133-176 | post and first save share one place for exceptions: an exception of either is classified and saved as the outcome under the same claim, and an exception of that save goes to the caller |
| ClosedListDelivery.NotificationRepository.SendClosedPeriod | src/lib/closed-period-notification-service.ts:210-243 | an undisturbed call goes on exactly when the period is enabled and over and the delivery is missing, pending or, unless manual, failed; otherwise it changes nothing and says why |
| ClosedListDelivery.StepsDeliver | src/lib/closed-period-notification-service.ts:133-176 | a claimed call that nothing disturbs leaves the record by its steps in the run as it does by the method, however its post and its saves end |
| ClosedListDelivery.UpdatesTake | src/lib/prisma-notification-repository.ts:72-178 | which deliveries each guarded update takes and what it makes of them |
| ClosedListDelivery.DeliveriesEnd | src/lib/closed-period-notification-service.ts:133-176 | how a call with the current claim ends for every outcome of the post and of the saves |
| ClosedListDelivery.PossibleEndings | src/lib/discord-notifications.ts:159-184 | which outcomes of posts and saves are possible in a run |
| ClosedListDelivery.ReachesTheChannelOnce | src/lib/closed-period-notification-service.ts:133-176 | however calls overlap, are cut off and throw, the list reaches the channel at most once, and once more for every explicit retry and every time that an arrived list is recorded as failed; what is recorded as sent has arrived or was confirmed |
| ClosedListDelivery.OnceUnlessRetriedIff | src/lib/discord-notifications.ts:159-184 | never twice without an explicit retry, in any run, exactly when posts judged failed never arrive and no exception of the save after a successful post counts as a failed post |
| ClosedListDelivery.ALostSaveRepeatsTheList | src/lib/closed-period-notification-service.ts:145-172 | the save after the post throws, the error is recorded as a failure, and the next automatic call posts the list again |
| ClosedListDelivery.AnArrivedFailureRepeatsTheList | src/lib/discord-notifications.ts:170-177 | the same after an error status for a message that was accepted |
| ClosedListDelivery.SentAndAbandonedStay | src/lib/prisma-notification-repository.ts:106-178 | a sent or abandoned record never changes again |
| ClosedListDelivery.WaysOut | src/lib/closed-period-notification-service.ts:178-244 | the only steps that leave each state; an unknown delivery only by retry or resolution |
| ClosedListDelivery.SavedOnlyUnderTheCurrentClaim | src/lib/prisma-notification-repository.ts:180-203 | a saving call is the one and only holder of the current claim |
| ClosedListDelivery.ACutOffClaimNeedsARetry | src/lib/prisma-notification-repository.ts:226-240 | after a claim is cut off nothing is claimed again until an explicit retry |

## Left out

- React components, HTTP routes, cron setup and command registration: user interface and wiring.
- Discord's own behaviour, HTTP clients and webhook posting: their results are parameters of the steps.
- HMAC, SHA-256 and signature checks: arbitrary functions.
- The smoke scripts: only the fence runtime of operational-rollout-smoke.ts is modelled.
- Zod schemas, environment parsing, labels, embeds and audit payloads: formatting.
- Prisma and SQL syntax: tables are maps and conditions are predicates; the catalog query and matchesManifest of the index runner are one comparison of definitions.
- The extension, role and connection checks before the index runner's first write: they end the run and change nothing.
- drainExpiryBatches and the batch totals of the retention cleanup: counting loops.
- The older processDiscordReservationDecision path, which production does not use.
- Message revisions, sync states and outbox fields of reservation messages: only the decision, the source and the epoch of a message matter to the decisions modelled.
- Search text, status and category filters of the lists: a table is the list of rows that pass them.
- Counts and rates of the statistics page: sums over the ranges that are modelled.
- The anonymising of departed users, which bans without a sanction: it is not among the modelled operations.
- The in-memory notification repository of the tests, which would let a forced or racing claim leave SENT or UNKNOWN: the model follows the repository used in production.
- Reservations made by students themselves: they take the same locks and checks as an administrator's create.
- CivilDates.AddDays: does not model years outside 1000 to 9999, whose printed form has another length.
- CivilDates.DateRange: does not model ranges up to 9999-12-31, after which the next date cannot be read back.
- CivilDates.BookableTexts: does not model texts without the shape of a date, which the pattern of the routes rejects, and instants before the year 1000 or in the last week of 9999.
- FieldChunks.ChunkApplicantLines: for empty lines only the length of the chunks is stated, because applicant lines are never empty.
- AckHandshake.SettledAtMostOnce: does not model other deliveries' own closures, only what they ask of the store.
- The expiry of job rows between two deliveries: an expired row is an absent one at the start.
- The serializable level: only the refusal of a commit after a new row in its slot is relied on; any other commit may be refused as well.
- The clean-up of a batch in which one claim throws goes on in the background: the model lets it end before the exception is seen.
- RetentionScan.Cleanup.RetainCandidate: messages that others post or remove while a call runs are modelled as posted or removed before or after it.

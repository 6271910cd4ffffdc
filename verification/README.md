# A verified model of GPTQueue's protocols

GPTQueue keeps agents' messages, claims, sessions and names in Redis, and lets
several processes work on them at once: each acts by scripts that Redis takes
one at a time, and any process may stop between two of them. This project
models those protocols in Dafny and proves what they keep through
interleavings, crashes, expiries, faults and lost replies. `dafny verify dfyconfig.toml` checks all of it.

| file | models |
|---|---|
| `Registry.dfy` | the registry and the two side hashes that let failed registrations undo exactly their own write |
| `Identity.dfy` | session records, leases and membership; adoption, operator continuity, wrapper claims, unregistration |
| `Rename.dfy`, `RenameRaces.dfy` | `register` under a new name, with its rollback, every call able to fail before or after its effect; then any number of registrations call by call, among everything else that happens to sessions and registry |
| `Claims.dfy`, `TaskClaimStore.dfy`, `Mailboxes.dfy`, `Receives.dfy` | durable claims: the Lua scripts as functions, the same scripts in place, and all mailboxes with migration; the receives under way |
| `IsoTime.dfy` | the calendar arithmetic of claim renewal |
| `Activation.dfy`, `Dispatcher.dfy` | the activation record, one reconcile pass and the three adapters; then any number of dispatchers step by step |
| `WebSocket.dfy`, `ByteStrings.dfy` | the RFC 6455 frame encoder, the incremental reader and the request map |
| `History.dfy` | the incremental transcript reader |
| `CustodyModel.dfy`, `CustodyStore.dfy`, `CustodyRaces.dfy` | the custody state machine, its store, and its clients interleaved |
| `SessionOwner.dfy` | single-flight backends with cancellation, close and disposal |
| `Installer.dfy` | the manifest-first installer under crashes and errors |

The shape is the same throughout. Each script, turn or effect is a function
from state to state. A class carries out the same steps in place, as the
program does, and each of its methods is proved to perform exactly that
function. What each function answers, and when, is stated in the terms of its
caller; invariants, refinements and round trips are then proved about the
functions, over whole runs. A crash is a client that takes no further step; an
expiry is a step that may come at any time.

Hashes and operation ids are injective, tokens and session ids fresh, and times
integer milliseconds. What a JSON text says is a parameter.

## Where the code does not do what is said of it

Each item is a lemma with the case in which it happens, and where a condition
separates the cases, the exact condition.

- Undo of a registration (`SameMillisecondUndoRemovesOtherWrite`,
  `UndoHitsOtherWriteIffSameValue`): provisional values carry only a
  millisecond, so the undo of one attempt removes another's entry written in
  the same millisecond.
- The WebSocket reader takes a 16-bit length of 127, which every frame of 127
  bytes has, for the 64-bit form, and fails the connection
  (`MessageOf127BytesFails`, `ReaderIsRfcDecoderIff`).
- Renewal "extends" a claim (README.md:94): it sets the expiry to now plus the
  ttl, which is earlier than before for a short ttl (`RenewalCanShorten`,
  `RenewalGrants`).
- A renewal whose claim has used up its lifetime is promised an error of its
  own (src/core/task-claim-store.ts:425-426). Among consistent keys it never
  comes: no expiry passes the end of the lifetime, so the claim has expired
  first (`RenewalNeverMeetsSpentBudget`).
- A message popped by a receive is in no list until the receive ends. Any
  receive that throws, dies or loses a reply before that, be it only because
  recording the depth fails (src/core/mailbox-store.ts:158-163), loses its
  message, decodable or not (`NothingIsMissingIffEveryReceiveEnds`,
  `UnendedReceiveLosesMessage`). And one that parks a payload after its
  mailbox moved parks it under the old name (`HandIsParkedUnderTheOldName`).
- A rename restarts the recovery count of every message it moves, because
  counters stay with the name (`RenameRestartsTheCount`). README.md:82-90
  bounds recoveries per message; they are bounded per message and name
  (`Mailboxes.RecoveryIsBounded`).
- A registration that fails inside session creation undoes neither a registry
  write nor a session whose reply alone was lost
  (`LostRepliesLeaveEntryOrSession`, `FailedRenameRestoresEntryIff`,
  `FailedRenameLeavesSessionIff`).
- `register` accepts an empty new name, for which a close finds no session to
  close: a failed rename to it leaves its session behind even with every call
  heard (`HeardRollbackLeavesNothing`).
- "Every message is still under the old name" when a rename fails
  (src/mcp-server/redis-client.ts:261): not when the transfer happened and only its
  reply was lost (`FailedRenameKeepsTheOldName`).
- Native submission is at most once per operation only while no stale
  dispatcher sends: the send is not fenced
  (`UnfencedSendCanRepeat`, `UnfencedSendRepeatsOperation`,
  `AcceptedTwiceIffOvertaken`).
- A late forfeiture can end a newer, live hold, because the tag alone is
  compared: from every state in which a client pauses before forfeiting
  (`PausedForfeitureCanEndLiveHold`, `LateForfeitureEndsLiveHold`). To compare
  the whole record would be enough (`HoldOutlastsItsLeaseIff`,
  `HoldsEndLawfully`).
- "Domain failures never throw" (src/core/custody-store.ts:12): a release
  whose hand-off lacks the optional hazards list does
  (`AdmissionCrashesExactlyWithoutHazards`). The release tool's schema fills in
  an empty list (src/mcp-server/tools/custody-release.ts:38-41), so only other
  callers of the store can send one.
- The store accepts a claim of an empty worktree path and finds it corrupt on
  every later read (`EmptyPathIsClaimedThenCorrupt`, `WrittenRecordsReadBack`).
  The claim tool asks for at least one character
  (src/mcp-server/tools/custody-claim.ts), so only other callers of the store
  can get there.
- A transcript read that comes before its first line is complete fails its
  reader for good (`EarlyReadPoisons`).
- An interrupt between replacing a target and noting it makes the installer's
  recovery forget that target's original
  (`InterruptedWriteLosesOriginalIff`); and a rollback of a completed
  installation that dies half-way is refused from then on
  (`AppliedRollbackRerunsIffUnchanged`).
- Pings count against the size of a message being assembled
  (`FragmentedMessageReassembles`).
- An adoption inside a close leaves a stale membership until the next prune
  (`CloseLeavesStaleMemberIff`).

## Model

| member | source | states |
|---|---|---|
| Registry.RunKeepsInv | src/core/session-store.ts:65-112 | the bookkeeping invariant of the three hashes holds through any interleaving of writes, undos, publications and retirements |
| Registry.RegistryIsInFlightOrCompleted | src/core/session-store.ts:47-112 | in every run a name shows the value of an attempt in flight or abandoned, or exactly its last completed value; with none in flight and none abandoned, the latter |
| Registry.AbandonedEntryStaysUntilOverwritten | src/core/session-store.ts:179-201 | the entry of an attempt abandoned after its write shows exactly until the name is written, published or retired again |
| Registry.AbandonedWriteLeavesProvisionalEntry | src/core/session-store.ts:185-201 | a write whose reply is lost leaves the provisional value where the last completed one was |
| Registry.UndoneAttemptHealsAbandonedEntry | src/core/session-store.ts:57-104 | the next attempt on that name to be undone brings the last completed value back |
| Registry.UndoRestoresLastCompleted | src/core/session-store.ts:88-104 | an undo puts back the last completed value of its own name if its value is still there, and touches nothing else |
| Registry.UndoSparesLaterWrites | src/core/session-store.ts:80-104 | after any later write, publication or retirement of the name an undo changes no registry entry |
| Registry.PublicationSettlesTheName | src/core/session-store.ts:107-112 | after a publication the value shows and no earlier attempt can be undone over it; a retirement leaves the bookkeeping; no other name is touched by either |
| Registry.OverwrittenStaysOverwritten | src/core/session-store.ts:57-112 | a provisional value once replaced never comes back unless written again |
| Registry.FailedAttemptsLeaveNoTrace | src/core/session-store.ts:47-104 | any number of overlapping failed registrations leaves the entry, and no bookkeeping, as before |
| Registry.UndoneAttemptMightNeverHaveBeen | src/core/session-store.ts:57-104 | a write undone at the end of any history leaves the registry that history alone would have left or, where that history leaves an earlier attempt on top, the last completed value |
| Registry.UndoHitsOtherWriteIffSameValue | src/core/session-store.ts:80-104 | the premise of distinct values is exact: an undo removes another attempt's live entry iff both wrote the same string |
| Registry.SameMillisecondUndoRemovesOtherWrite | src/core/session-store.ts:179-184 | two registrations of one name in one millisecond are such a pair |
| Registry.RegistryStore.WriteProvisionalValue | src/core/session-store.ts:65-79 | the script in place: registry, pending and restore become the specified hashes |
| Registry.RegistryStore.UndoRegistryWrite | src/core/session-store.ts:88-104 | the script in place, and its answer says whether the value was still there |
| Registry.RegistryStore.PublishRegistration | src/core/session-store.ts:107-112 | the script in place |
| Registry.RegistryStore.RetireName | src/mcp-server/redis-client.ts:292 | HDEL of the entry leaves the side hashes alone |
| Identity.LeasedSessionBelongsToItsAgent | src/core/session-store.ts:25-45 | in every reachable state a leased session has a record, and a recorded one is a member of exactly its record's agent, with close in three steps among refresh, prune, create, adoption, unregistration and expiry |
| Identity.DeadSessionNeverReturns | src/core/session-store.ts:25-33 | a session whose record is gone never gets a record or a lease again |
| Identity.RunKeepsInv | src/core/session-store.ts:25-45 | the session invariant holds through any interleaving |
| Identity.PruneRemovesExactlyTheExpired | src/core/session-store.ts:36-45 | pruning removes exactly the leaseless members of that agent and nobody else's session |
| Identity.CloseLeavesStaleMemberIff | src/core/session-store.ts:282-302 | close leaves a stale membership iff the record changed agent between its read and its delete; the next prune clears it |
| Identity.AdoptionDuringCloseLeavesStaleMember | src/mcp-server/redis-client.ts:159-161 | an adoption inside a close is such a case, from every state that admits it |
| Identity.LiveLeaseSignalIsExact | src/core/occupancy-guard.ts:33-36 | the lease signal holds iff some live session is recorded for the agent |
| Identity.AdoptionHappensIff | src/mcp-server/redis-client.ts:141-170 | over every reachable state, an adoption changes anything iff the mapping stands, both agents are registered, the adopter's live session is the quiet source's only one and the target shows no sign of life, live sessions included |
| Identity.ContinuityHappensIff | src/core/mailbox-continuity.ts:60-81 | a plan is applied iff mapping, target and source are still what it was made on, both show no sign of life, and the source has no queue and nothing outbound |
| Identity.ContinuityAnswers | src/core/mailbox-continuity.ts:45-81 | idempotent iff it stood applied at the reads, a mismatch iff the reads differ from the plan, else applied or refused as the script decides |
| Identity.AcquireSucceedsIff | src/experimental-wrapper/identity-claim.ts:6-26 | a wrapper gets the claim iff nobody has it, no live session or heartbeat shows, and the name is unregistered if it must be fresh; then nothing but the claim changes |
| Identity.ExclusiveUnregisterIff | src/experimental-wrapper/identity-claim.ts:50-80 | the claim holder retires the name iff its session is the only one, closes just that session if not, and nobody else does anything |
| Identity.UnregisterRetires | src/mcp-server/redis-client.ts:367-395 | entry, claims, mailbox and heartbeat of the name and the caller's session of it are gone, and nothing of any other name or session |
| Identity.RefreshAndCreateMakeLive | src/core/session-store.ts:25-33 | refreshing makes exactly a recorded session live, creating a new one so, and both leave every other alone |
| Identity.AdoptionTransfersExactlyTheIdentity | src/mcp-server/redis-client.ts:141-170 | success means the target was idle and the session the source's only one; then it is the target's only live session, the target's rollback state and the source's entry and heartbeat are gone, the audit says so, and no queue, claim or mapping has changed |
| Identity.AdopterExcludesOthers | src/mcp-server/redis-client.ts:151 | in every run, while the adopter's lease lives and it is not itself adopted onwards, nobody adopts, continues onto or wraps the target |
| Identity.WrapperClaimExcludes | src/experimental-wrapper/identity-claim.ts:6-33 | a wrapper claim keeps every adopter out and ends only by its own token's release |
| Identity.ExclusiveUnregisterSparesOthers | src/experimental-wrapper/identity-claim.ts:50-73 | a wrapper retires the name only as claim holder and sole member, and never touches another session |
| Identity.ContinuityRedirectsOnly | src/core/mailbox-continuity.ts:45-81 | an applied plan changes the mapping and the audit only, on an idle target and a quiet source; applying it again changes nothing |
| Identity.SessionStore.RefreshLease | src/core/session-store.ts:25-33 | the script in place: renews and re-adds only a recorded session |
| Identity.SessionStore.PruneExpired | src/core/session-store.ts:36-45 | the loop over the members ends in the specified sessions and counts what it removed |
| Identity.SessionStore.CreateSession | src/core/session-store.ts:135-180 | prune, then record, lease and membership together |
| Identity.SessionStore.CloseSession | src/core/session-store.ts:282-302 | record, lease and every membership of the session are gone; the timer stops only for this session |
| Identity.RedisClient.AdoptIdentity | src/mcp-server/redis-client.ts:120-185 | the client takes the new name and beats under it iff the script answers 1; else nothing changes |
| Rename.FailedRenameKeepsTheOldName | src/mcp-server/redis-client.ts:239-296 | failure before the transfer is reported keeps client, old session and mailboxes (but for one recovery and what others did), exactly unless the transfer happened and its reply was lost |
| Rename.FailedRenameRestoresEntryIff | src/mcp-server/redis-client.ts:230-290 | whatever call fails, the new name is left with the provisional entry iff the reply of its write was lost, or the undo never reached Redis and nobody published; otherwise it shows what it did, its last completed value, or what was published; no other entry changes |
| Rename.FailedRenameLeavesSessionIff | src/mcp-server/redis-client.ts:230-290 | whatever call fails, the new session, its lease and its membership are left iff the reply of their creation was lost, the deleting call was not made or not reached, or the new name is empty |
| Rename.HeardRollbackLeavesNothing | src/mcp-server/redis-client.ts:263-290 | with every call of the rollback heard no provisional entry is left, and the new session only if its name is empty |
| Rename.LostRepliesLeaveEntryOrSession | src/core/session-store.ts:150-201 | from every state, losing the reply of the write leaves the entry, and losing that of the creation leaves the session |
| Rename.OldSessionSurvivesCreation | src/core/session-store.ts:135-207 | creating the new session, failed or not, leaves the old one recorded and leased |
| Rename.CreationAdds | src/core/session-store.ts:146-201 | when creation leaves the new session, and that it leaves nothing of it otherwise |
| Rename.CloseRemoves | src/core/session-store.ts:282-302 | what a close whose calls may fail removes of a session, and exactly what it leaves |
| Rename.SuccessfulRenameMovesTheMailbox | src/mcp-server/redis-client.ts:252-262 | the whole inbox moves in order, the dead letters up to the bound, and no claim of the old name remains anywhere |
| Rename.SuccessfulRenameSwitchesIdentity | src/mcp-server/redis-client.ts:292-321 | once the transfer is reported complete the new session is live, published if that call reaches Redis, and the old one closed and retired if those calls were heard |
| Rename.RedisClient.Reregister | src/mcp-server/redis-client.ts:204-327 | the method with its rollback performs exactly the specified transition under every assignment of faults |
| Rename.RenameSucceedsIff | src/mcp-server/redis-client.ts:204-323 | a rename gets past its transfer iff creation, recovery and transfer are heard, recovery is not blocked with an expired claim to recover, and no claim of the old name is left; it succeeds iff the publication is heard too, under a name that is not empty |
| Rename.MailboxMovesIff | src/mcp-server/redis-client.ts:246-262 | whatever it reports, the old name's mailbox is moved iff it may be and the transfer reaches Redis, however much there is to move; otherwise no payload changes name |
| Rename.RecoveryRefusedIff | src/mcp-server/redis-client.ts:255-256 | recovery is refused iff it is blocked and some claim has expired |
| RenameRaces.EntryAmongOthers | src/mcp-server/redis-client.ts:204-323 | over every run of any number of registrations and renames, call by call, among adoptions, unregistrations, publications and retirements: a name shows its last completed value, or that of a registration under way, or of one that lost the reply of its write or could not reach Redis to undo or publish it; with none of these, exactly its last completed value |
| RenameRaces.SessionAmongOthers | src/mcp-server/redis-client.ts:230-290 | over every such run, with expiries, prunes, closes and adoptions too: a registration that failed before its transfer leaves its session only in the named cases, and a membership only in those or where somebody else took the session up |
| RenameRaces.LiveSessionAmongOthers | src/mcp-server/redis-client.ts:213-221 | over every such run a live session stays live and its agent's unless it expires or somebody closes or adopts that very session |
| RenameRaces.FailingRenameTouchesNobody | src/mcp-server/redis-client.ts:239-290 | and a rename that fails before its transfer is none of those |
| RenameRaces.RolledBackRenameMightNeverHaveBeen | src/core/session-store.ts:57-104 | whatever everybody does between a rename's provisional write and its undo, the registry ends as their scripts alone would have left it, or with the last completed value where those leave an attempt on top |
| RenameRaces.RunKeepsRegInv | src/core/session-store.ts:47-112 | what each registration has written and not settled is known through any interleaving |
| RenameRaces.RunKeepsSessionInv | src/core/session-store.ts:135-207 | what each registration has made of its session is known through any interleaving |
| RenameRaces.LoneRenameIsRegister | src/mcp-server/redis-client.ts:204-323 | the calls of a rename that nobody interrupts add up to Rename.Register under every assignment of faults: same hashes, same sessions, same end |
| RenameRaces.StepsReachTheRegistry | src/mcp-server/redis-client.ts:141-170 | an adoption moves the entry from source to target, an unregistration removes it, and no other step on sessions touches the registry |
| Claims.StepKeepsInv | src/core/task-claim-store.ts:206-482 | every script keeps: hash and index agree, expiries within the budget, counters and dead letters bounded, payloads conserved; other actors' claims untouched |
| Claims.RecoverLeavesOnlyUnexpired | src/mcp-server/lua/claims-recover.lua:52-142 | recovery takes exactly the claims with expiry before now, or, refused, changes nothing |
| Claims.DueIsExactlyTheExpired | src/mcp-server/lua/claims-recover.lua:51-56 | the front of the index that recovery takes is exactly the expired part |
| Claims.OutstandingClaimsUnderCeiling | src/mcp-server/lua/claims-batch-claim.lua:37-47 | under a fixed ceiling outstanding claims never exceed it, in any run |
| Claims.RecoverySplits | src/mcp-server/lua/claims-recover.lua:112-141 | recovery of a claim sends exactly the tasks within budget back to the inbox and the others to the dead letters, and the counters say how often |
| Claims.EveryTaskReturnsOrIsQuarantined | src/mcp-server/lua/claims-recover.lua:112-141 | every task of the claim does one or the other, once |
| Claims.FirstSplits | src/mcp-server/lua/claims-recover.lua:112-141 | the same over all the claims a recovery takes: what reaches the inbox and the dead letters is what is tallied |
| Claims.RenewalCanShorten | src/mcp-server/lua/claims-renew.lua:117-136 | a renewal after which the claim expires earlier |
| Claims.BatchClaimKeepsInv | src/mcp-server/lua/claims-batch-claim.lua:31-67 | the pop alone, at whatever state it meets, keeps the invariant |
| Claims.BatchHandsOutTheHead | src/mcp-server/lua/claims-batch-claim.lua:31-67 | the pop alone hands out the head of the inbox it meets, in order, up to the batch, or says why not |
| Claims.ClaimAnswers | src/core/task-claim-store.ts:309-383 | invalid iff the request is, corrupt iff recovery is refused, at the limit iff the outstanding claims reach it, empty iff the recovered inbox is, and otherwise the batch or all there is |
| Claims.PopKeepsInv | src/core/mailbox-store.ts:131-141 | the pop keeps the invariant: the payload, decodable or not, is in the hand of a numbered receive |
| Claims.ReturnKeepsInv | src/core/mailbox-store.ts:156-168 | returning it, after the depth is recorded, keeps the invariant |
| Claims.ParkKeepsInv | src/core/mailbox-store.ts:144-154 | and so does parking what cannot be decoded, a transaction of its own |
| Claims.RenewalGrants | src/mcp-server/lua/claims-renew.lua:101-136 | renewal never revives an expired claim or passes the budget; it moves the expiry forward iff now plus ttl is not before the old expiry |
| Claims.RenewalGrantedIff | src/mcp-server/lua/claims-renew.lua:88-136 | a renewal is granted iff the arguments are valid, the caller owns the claim, and it has neither expired nor used up its lifetime; then it lasts the ttl from now, or to the end of its lifetime if that is first, and nothing else of it changes; otherwise the answer names the first thing wrong |
| Claims.RenewalNeverMeetsSpentBudget | src/mcp-server/lua/claims-renew.lua:129-132 | among consistent keys the budget is never exceeded before the claim has expired; and the index holds the new expiry and the others |
| Claims.AcknowledgeKeepsInv | src/mcp-server/lua/claims-ack.lua:24-60 | acknowledgement keeps the invariant |
| Claims.RenewKeepsInv | src/mcp-server/lua/claims-renew.lua:85-136 | renewal keeps hash, index and budget in step |
| Claims.RequeueKeepsInv | src/mcp-server/lua/claims-requeue.lua:1-29 | requeue moves one dead letter to the inbox and keeps the invariant |
| Claims.PurgeKeepsInv | src/mcp-server/lua/claims-purge.lua:1-69 | unregistration accounts for every payload it deletes |
| Claims.PurgeLeavesNothing | src/mcp-server/lua/claims-purge.lua:1-69 | no payload, no claim of the actor and no counter of a claimed or dead-lettered task is left, and nothing of anybody else goes |
| Claims.SendKeepsInv | src/mcp-server/lua/bounded-push.lua:1-15 | a bounded push keeps the invariant |
| Claims.SendAppendsBelowBound | src/mcp-server/lua/bounded-push.lua:1-15 | a send is accepted iff the inbox is below the bound, and goes to its end |
| Claims.ReceiveTakesTheOldest | src/core/mailbox-store.ts:131-168 | a receive pops the oldest payload and returns it, or parks it before all dead letters |
| Claims.DeadLettersKeepTheNewest | src/core/mailbox-store.ts:147-152 | new dead letters go first, and beyond the bound the oldest are cut off |
| Claims.ClaimHandsOutTheHead | src/mcp-server/lua/claims-batch-claim.lua:31-67 | undisturbed, a claim hands out the head of the recovered inbox in order, up to the batch, under its caller and expiry, and leaves no expired claim |
| Claims.AcknowledgeSettlesTheBatch | src/mcp-server/lua/claims-ack.lua:24-60 | only the owning session ends a claim; its tasks are settled and exactly their ids start afresh |
| Claims.RecoveryKeepsOrder | src/mcp-server/lua/claims-recover.lua:112-141 | while budgets last, tasks return to the end of the inbox in their order |
| Claims.RequeueRedrivesTheNewest | src/mcp-server/lua/claims-requeue.lua:1-29 | the newest dead letter with the id goes to the end of the inbox with a fresh budget; without one nothing changes |
| TaskClaimStore.ActorKeys.RecoverExpired | src/mcp-server/lua/claims-recover.lua:51-142 | the script in place, claim by claim and task by task |
| TaskClaimStore.ActorKeys.ClaimTasks | src/core/task-claim-store.ts:309-383 | validation, recovery and batch pop in place, the pop at whatever other clients have made of the keys in between |
| TaskClaimStore.ActorKeys.Receive | src/core/mailbox-store.ts:131-168 | pop, then return or park the payload, in place; failing after the pop leaves any payload in no list |
| TaskClaimStore.ActorKeys.PopBatch | src/mcp-server/lua/claims-batch-claim.lua:31-67 | the LPOP loop in place |
| TaskClaimStore.ActorKeys.Acknowledge | src/mcp-server/lua/claims-ack.lua:24-60 | the script in place, counters cleared task by task |
| TaskClaimStore.ActorKeys.RenewClaim | src/mcp-server/lua/claims-renew.lua:85-136 | the script in place |
| TaskClaimStore.ActorKeys.RequeueDead | src/mcp-server/lua/claims-requeue.lua:1-29 | the search loop and the move in place |
| TaskClaimStore.ActorKeys.Quarantine | src/mcp-server/lua/claims-recover.lua:129-132 | push and trim of the dead-letter list in place |
| Mailboxes.MigrationMovesAllOrNothing | src/mcp-server/lua/migrate-messages.lua:1-80 | refused iff the source has a claim, then nothing changes; else the whole inbox in order and the dead letters up to the bound |
| Mailboxes.MessagesAreConserved | src/core/mailbox-store.ts:271-303 | over every run of any actors, migrations included, all that was ever sent to any mailbox is in an inbox, claim or dead-letter queue, or trimmed, acknowledged, received or purged, or in the hand of a receive under way: summed over all mailboxes, with nothing dropped or doubled |
| Mailboxes.NothingIsMissingIffEveryReceiveEnds | src/core/mailbox-store.ts:131-168 | over every run, all that was sent is in a list, trimmed, acknowledged, received or purged iff every receive that popped a payload went on to return or park it |
| Mailboxes.UnderWayIff | src/core/mailbox-store.ts:140-168 | over every run, a receive has a payload in hand iff it popped and has neither returned nor parked |
| Mailboxes.UnendedReceiveLosesMessage | src/core/mailbox-store.ts:156-168 | any message at all, sent and popped by a receive that does not end, is nowhere |
| Mailboxes.RunBalances | src/mcp-server/lua/migrate-messages.lua:1-80 | over every run, what has moved out of the mailboxes is what has moved into them |
| Mailboxes.StoreStepKeepsInv | src/mcp-server/lua/migrate-messages.lua:1-80 | no actor's script and no migration breaks any mailbox's own books or bounds |
| Mailboxes.RecoveryIsBounded | src/mcp-server/lua/claims-recover.lua:112-141 | over every run of all mailboxes, under one name the counter accounts for returns and quarantines: at most RECOVER_CAP returns before a quarantine, each bringing it one step closer |
| Mailboxes.RecoveryIsBoundedOverAllNames | src/mcp-server/lua/claims-recover.lua:112-141 | over n names at most RECOVER_CAP returns for each name and each quarantine |
| Mailboxes.RenameRestartsTheCount | src/mcp-server/lua/migrate-messages.lua:1-80 | a task that recovery would quarantine before a transfer goes back to the inbox after it |
| Mailboxes.HandIsParkedUnderTheOldName | src/core/mailbox-store.ts:144-154 | what any receive has in hand at a migration is parked under the old name |
| IsoTime.InstantRoundTrip | src/mcp-server/lua/claims-renew.lua:51-86 | formatting any millisecond gives a valid timestamp that reads back as the same millisecond |
| IsoTime.StampRoundTrip | src/mcp-server/lua/claims-renew.lua:51-86 | every valid timestamp is written back as read |
| IsoTime.CivilFromDaysIsValid | src/mcp-server/lua/claims-renew.lua:64-84 | every day number has a valid Gregorian date that counts back to it |
| IsoTime.CivilDaysRoundTrip | src/mcp-server/lua/claims-renew.lua:40-49 | the date of a date's day is that date |
| IsoTime.InstantsKeepOrder | src/mcp-server/lua/claims-renew.lua:51-62 | an earlier timestamp has the smaller number of milliseconds |
| IsoTime.EpochIsZero | src/mcp-server/lua/claims-renew.lua:40-49 | the epoch is millisecond zero: with order and round trips, no other numbering is possible |
| IsoTime.DaysKeepOrder | src/mcp-server/lua/claims-renew.lua:40-49 | an earlier date has the smaller number of days |
| Activation.InboxDispatcher.ReconcileOnce | src/registered-shell/inbox-dispatcher.ts:44-115 | an owner's pass leaves exactly the specified record and submission; a deferral doubles the backoff up to the maximum and any other answer clears it; a non-owner changes nothing and stops |
| Activation.InboxDispatcher.PutOff | src/registered-shell/inbox-dispatcher.ts:75-77 | the next call is put off by the new backoff after busy or unavailable, and by nothing otherwise |
| Activation.PassSubmitsIff | src/registered-shell/inbox-dispatcher.ts:52-73 | a pass submits iff it comes as far as the adapter with a record that is pending: the first attempt on new messages, or one reset or renewed |
| Activation.AnswerDecidesNextPass | src/registered-shell/inbox-dispatcher.ts:52-111 | over the same messages the next pass submits the same operation again iff the call was a submission that left nothing at the host, and the next attempt iff the turn had ended with attempts left; after the end of the last attempt none is made unless an uncovered message is there |
| Activation.CallLeaves | src/registered-shell/inbox-dispatcher.ts:78-111 | the record a call leaves, its state the last answer |
| Activation.ActivationAttemptsTerminate | src/registered-shell/inbox-dispatcher.ts:51-92 | while the same messages stay queued, whatever the passes meet and the adapter answers: only the first maximum attempts are ever submitted, the record is exhausted iff that many calls answered that their turn ended, and then exactly those were submitted, all different |
| Activation.ExhaustedUntilNewWorkOrEmptied | src/registered-shell/inbox-dispatcher.ts:51-60 | an exhausted record survives a pass iff one of its messages is pending and no other |
| Activation.AttemptsStayInRange | src/registered-shell/inbox-dispatcher.ts:39-42 | attempt stays in 1..maximum whatever the passes meet |
| Activation.ActivationStore.Attach | src/registered-shell/activation-store.ts:32-38 | only without a live owner |
| Activation.ActivationStore.Save | src/registered-shell/activation-store.ts:61-68 | writes or deletes the record only as the present owner |
| Activation.ActivationStore.Refresh | src/registered-shell/activation-store.ts:40-46 | says whether this is still the owner |
| Activation.ActivationStore.Detach | src/registered-shell/activation-store.ts:70-77 | releases only its own ownership |
| Activation.OpenCodeKeepsContract | src/registered-shell/opencode-runtime.ts:113-160 | a recovery or a shown prompt is never sent again; busy and unavailable leave nothing behind |
| Activation.CodexKeepsContract | src/registered-shell/codex-runtime.ts:52-86 | the same contract, with its refusal and seen map |
| Activation.PiKeepsContract | src/registered-shell/pi-runtime.ts:26-63 | the same contract, counting what the adapter remembers sending |
| Activation.OpenCodeTellsTheHost | src/registered-shell/opencode-runtime.ts:110-158 | completed iff the history shows the operation and the session is idle; started or queued iff it is shown and the session is not idle, or has just been handed over; sent, busy and unavailable each iff |
| Activation.CodexTellsTheHost | src/registered-shell/codex-runtime.ts:52-86 | completed iff the first matching turn has finished; started iff it has not, or has just been started; sent, refused, busy, unavailable and thrown each iff |
| Activation.PiTellsTheHost | src/registered-shell/pi-runtime.ts:23-63 | completed iff there is a completion entry or, failing one, a first activation entry marked completed; queued iff that entry is not so marked, or the operation is remembered or has just been sent; sent and unavailable each iff |
| Activation.FirstActivationIsTheFirst | src/registered-shell/pi-runtime.ts:35-41 | the loop over the entries answers by the first activation entry |
| Activation.ShownTurnIsFirstMatch | src/registered-shell/codex-runtime.ts:57-68 | the turn loop finds a turn iff one matches |
| Dispatcher.CallsAreWrittenAhead | src/registered-shell/inbox-dispatcher.ts:66-74 | over every run of any dispatchers: each non-recovery call follows its own durable mark, a second call in a life only after a durable reset, and a life sends at most one prompt |
| Dispatcher.MarkIsDurableWriteByOwner | src/registered-shell/inbox-dispatcher.ts:66-68 | a mark is the present owner's stored "submitting" record |
| Dispatcher.ResetIsDurableWriteByOwner | src/registered-shell/inbox-dispatcher.ts:93-105 | a reset is the present owner's stored "pending" after busy or unavailable |
| Dispatcher.RunKeepsInv | src/registered-shell/inbox-dispatcher.ts:44-115 | the protocol invariant through owner and record expiry, crashes and restarts |
| Dispatcher.EachOperationAcceptedOnce | src/registered-shell/inbox-dispatcher.ts:71-74 | with a host that keeps the adapters' premise each operation is accepted at most once, if no sender was overtaken |
| Dispatcher.OwnedSendsAreAcceptedOnce | src/registered-shell/activation-store.ts:40-46 | sending while still owner suffices |
| Dispatcher.AcceptedTwiceIffOvertaken | src/registered-shell/inbox-dispatcher.ts:71-74 | the premise is exact: at an eager host nothing is accepted twice iff no sender was overtaken |
| Dispatcher.UnfencedSendRepeatsOperation | src/registered-shell/inbox-dispatcher.ts:54-74 | a run in which the unfenced send of a stale dispatcher repeats an operation |
| Dispatcher.UnfencedSendCanRepeat | src/registered-shell/inbox-dispatcher.ts:54-74 | from every state in which a call has missed a first-attempt operation and not sent it, some run accepts it twice: only the fence helps |
| Dispatcher.LonePassIsReconcile | src/registered-shell/inbox-dispatcher.ts:44-115 | the steps of an undisturbed pass, with the adapter's look, recall and send among them, add up to the one-pass specification for every exchange within the adapters' contract |
| Dispatcher.FurtherAttemptsWaitForTheLast | src/registered-shell/inbox-dispatcher.ts:85-92 | over every run of any dispatchers with crashes and expiries, nobody marks, makes or sends the call of a further attempt before the attempt it follows has ended at the host |
| Dispatcher.OnlyTheseLog | src/registered-shell/inbox-dispatcher.ts:66-72 | no other step logs anything but a reset |
| Dispatcher.OwnerChangesBy | src/registered-shell/activation-store.ts:32-77 | a dispatcher becomes owner iff it attaches to an inbox without one, and stops being it only by detaching or expiry |
| Dispatcher.RecordChangesBy | src/registered-shell/activation-store.ts:61-68 | the stored record changes only by the hand of its owner, or expires |
| Dispatcher.AnswerIsConfirmedIff | src/registered-shell/inbox-dispatcher.ts:74 | an answer counts iff the dispatcher is still owner once it has it |
| Dispatcher.AdapterExchangesAreFair | src/registered-shell/inbox-dispatcher.ts:71-73 | every answer of the three adapters is such an exchange |
| WebSocket.Frame | src/registered-shell/codex-socket.ts:21-32 | the frame built in place is the client frame of section 5.2 of RFC 6455; only too long a payload is refused |
| WebSocket.ClientFrameRoundTrip | src/registered-shell/codex-socket.ts:21-32 | decoding a client frame by sections 5.2 and 5.3 of RFC 6455 returns opcode and payload, for every mask and all three length forms |
| WebSocket.XorIsBitwise | src/registered-shell/codex-socket.ts:30 | the masking exclusive-or is bit by bit |
| WebSocket.MaskedTwice | src/registered-shell/codex-socket.ts:30 | masking twice is the identity |
| WebSocket.ChunkingIsIrrelevant | src/registered-shell/codex-socket.ts:117-155 | any split of a stream has the effect of feeding it at once: messages, pongs, failure or close |
| WebSocket.ReaderIsOneShotDecoder | src/registered-shell/codex-socket.ts:117-155 | and that effect is the one-shot decoder of the whole stream, cut by the header scan as the code has it |
| WebSocket.ScanIsRfcIff | src/registered-shell/codex-socket.ts:124-131 | the header scan is that of section 5.2 of RFC 6455 iff the 16-bit length is not 127; there the reader waits, then throws |
| WebSocket.ReaderIsRfcDecoderIff | src/registered-shell/codex-socket.ts:117-155 | at every moment of a stream, in any chunks, the reader has the effect the standard gives the bytes so far iff the open connection never comes to a 16-bit length of 127 |
| WebSocket.MessageOf127BytesFails | src/registered-shell/codex-socket.ts:126-130 | every message of 127 bytes in one frame fails the connection, where the standard reads on |
| WebSocket.FragmentedMessageReassembles | src/registered-shell/codex-socket.ts:117-146 | text and continuation frames with pings between, in any chunks, deliver the message whole exactly when the size rule, which counts pings against a message in assembly, allows it and no part is of 127 bytes |
| WebSocket.HeaderIsRefusedIff | src/registered-shell/codex-socket.ts:119-131 | a header is refused iff a reserved bit or the mask bit is set or a 64-bit length passes the bound; else it says what its bits say |
| WebSocket.FrameOutcome | src/registered-shell/codex-socket.ts:132-154 | what each whole frame does: fails the connection iff one of the named reasons holds, closes it iff a close frame, answers a ping, ignores a pong, keeps a part, and with the last part delivers the message and settles exactly the request it answers |
| WebSocket.RequestIsIssued | src/registered-shell/codex-socket.ts:162-176 | an id is issued once: pending on an open connection that can frame the request, settled at once otherwise |
| WebSocket.RequestIsAborted | src/registered-shell/codex-socket.ts:165-175 | a cancellation settles its own request if pending, and nothing else |
| WebSocket.RequestsSettleAtMostOnce | src/registered-shell/codex-socket.ts:162-174 | every issued id is pending or settled, never both; a settlement is final and answered by a message |
| WebSocket.CodexSocketClient.Read | src/registered-shell/codex-socket.ts:117-155 | the loop over buffer and fragments performs the specified transition and says whether it threw |
| WebSocket.CodexSocketClient.Handle | src/registered-shell/codex-socket.ts:136-154 | one complete frame, in place |
| WebSocket.CodexSocketClient.ReadHeader | src/registered-shell/codex-socket.ts:119-130 | the header, when enough bytes are there |
| WebSocket.CodexSocketClient.OnData | src/registered-shell/codex-socket.ts:76-78 | a reader exception fails the connection |
| WebSocket.CodexSocketClient.SendRequest | src/registered-shell/codex-socket.ts:162-174 | a new id becomes pending with its frame, or is rejected at once: dead socket, or a request too long to frame |
| WebSocket.CodexSocketClient.Abort | src/registered-shell/codex-socket.ts:166-168 | a cancelled request is settled once |
| WebSocket.CodexSocketClient.FailWith | src/registered-shell/codex-socket.ts:50-59 | failing clears the reader and rejects everything pending |
| History.BlocksAreBatch | src/registered-shell/codex-history.ts:68-83 | however the bytes are cut the reader holds the fold of the complete lines and the partial line; it fails iff that fold fails or an unfinished record passes the limit at a block boundary |
| History.ReadsAreBatch | src/registered-shell/codex-history.ts:58-88 | after any sequence of reads of a growing file the same holds, and the reader is healthy iff besides the first read already saw the complete identifying record |
| History.EarlyReadPoisons | src/registered-shell/codex-history.ts:83-87 | a read before the identifying line is complete fails this reader for good, though a later reader reads the same file |
| History.BatchIsBounded | src/registered-shell/codex-history.ts:18-56 | at most 256 turns of at most 128 items, ids distinct |
| History.EventUpdatesOnlyItsTurn | src/registered-shell/codex-history.ts:31-55 | an event updates its own turn as its kind says and no other, but for the oldest of 256 making room |
| History.LineOutcome | src/registered-shell/codex-history.ts:20-32 | which lines are errors and which change what is shown, both iff: the first record with a payload must identify the thread, and no event may name another one |
| History.TurnsKeepTheirPlaces | src/registered-shell/codex-history.ts:53-54 | a known turn keeps its place, a new one goes last, and beyond the bound the oldest goes |
| History.ItemReplacesOnlyItsOwn | src/registered-shell/codex-history.ts:38-50 | a completed item goes last in place of an earlier one with its id; every other stays but for the oldest beyond the bound |
| History.ItemIsShownAs | src/registered-shell/codex-history.ts:43-48 | what of an item is shown, by its kind |
| History.TextsAreJoined | src/registered-shell/codex-history.ts:41-43 | texts are joined in order, and nothing that is no text |
| History.RecordedPromptIsShown | src/registered-shell/codex-history.ts:113-119 | a recorded prompt is found again under its turn |
| History.LinesInPieces | src/registered-shell/codex-history.ts:73-78 | the lines of a concatenation are those of its parts, the partial line carried over |
| History.RolloutHistory.Read | src/registered-shell/codex-history.ts:58-88 | a successful read returns the batch projection of what has been read; with sound content it fails only if the identifying record is not in; a failed open does not poison the reader |
| History.RolloutHistory.ReadBlock | src/registered-shell/codex-history.ts:68-81 | one block, short reads included |
| History.RolloutHistory.DrainPending | src/registered-shell/codex-history.ts:73-78 | the line loop in place |
| CustodyModel.AdmitsExactlyCompleteHandoffs | src/core/custody-model.ts:180-262 | admission accepts exactly the complete hand-offs and reads back what was written |
| CustodyModel.AdmissionCrashesExactlyWithoutHazards | src/core/custody-model.ts:143-148 | admission raises iff the input is otherwise complete and has no hazards list |
| CustodyModel.TransitionFollowsEdges | src/core/custody-model.ts:276-432 | a successful transition follows the edges of custody, keeps the worktree and well-formedness; expiry only past the lease |
| CustodyModel.TransitionSucceedsIff | src/core/custody-model.ts:276-432 | which events each record allows, what is wrong with the others, and that a hold is forfeited iff it is past its lease |
| CustodyModel.RefusalNamesTheFirstProblem | src/core/custody-model.ts:180-262 | a refused hand-off is answered with the first check that fails |
| CustodyStore.WrittenRecordsReadBack | src/core/custody-store.ts:117-133 | every stored record is readable again, unless its path is empty |
| CustodyStore.EmptyPathIsClaimedThenCorrupt | src/core/custody-store.ts:121 | a claim of an empty path succeeds and every later operation finds the store corrupt |
| CustodyStore.ClaimOfHold | src/core/custody-store.ts:153-265 | up to its lease a hold is refused to every claim; past it, it goes to a valid custodian with an inventory by takeover, and is forfeited with the reason answered otherwise |
| CustodyStore.ClaimOfVacant | src/core/custody-store.ts:153-265 | a forfeited record asks for an inventory, any other vacant record or none for a valid custodian only; the mode says which |
| CustodyStore.ReleaseOf | src/core/custody-store.ts:272-332 | only the session that holds it, and within its lease, releases a record, and leaves it vacant with the hand-off |
| CustodyStore.StatusOf | src/core/custody-store.ts:338-386 | status shows the record, forfeited first if held past its lease |
| CustodyStore.LastWordNamesTheObstacle | src/core/custody-store.ts:248-262 | after two lost races the answer names what the last read found |
| CustodyStore.ReadableNowIsReadable | src/core/custody-store.ts:103-107 | the stored hand-off check is completeness |
| CustodyStore.CustodyStore.Perform | src/core/custody-store.ts:172-262 | the retry loop of two attempts: alone it is the atomic operation; among others a success was really written, and any other answer is what the operation alone gives on what was last read, or after two lost races the last word |
| CustodyStore.CustodyStore.PerformClaim | src/core/custody-store.ts:153-265 | claim, with the clock it needs |
| CustodyStore.CustodyStore.PerformRelease | src/core/custody-store.ts:272-332 | release, with admission first |
| CustodyStore.CustodyStore.PerformStatus | src/core/custody-store.ts:338-351 | status of one path |
| CustodyStore.CustodyStore.LazyExpire | src/core/custody-store.ts:362-386 | forfeits exactly an expired hold |
| CustodyStore.CustodyStore.ConditionalSet | src/mcp-server/lua/custody-conditional-set.lua:19-44 | writes iff tag and, where asked, session match |
| CustodyRaces.AloneKeepsHoldIff | src/core/custody-store.ts:153-332 | an operation alone keeps a hold iff its clock is not past the lease and it is not its session's release |
| CustodyRaces.HoldLastsToItsLease | src/core/custody-store.ts:362-383 | in milliseconds: a hold with lease l outlasts an operation alone at t iff t is at most l and it is not its session's release, however the hold was gained |
| CustodyRaces.UninterruptedIsAlone | src/core/custody-store.ts:153-351 | a client that nobody interrupts does what its operation does alone, from whatever state |
| CustodyRaces.LostRaceIsRunAgainOnce | src/core/custody-store.ts:172-262 | a lost race is run again once, from the read; after two the client reads once more |
| CustodyRaces.HoldOutlastsItsLease | src/core/custody-store.ts:361-386 | with operations that do not interleave no hold ends before its lease or its session's release |
| CustodyRaces.EveryWriteIsLegal | src/core/custody-store.ts:153-332 | in every interleaving a claim never replaces a hold, a hold ends only by its session's release or a forfeiture, and a forfeited record is held again only by takeover with an inventory |
| CustodyRaces.WritesLandOnWhatWasReadOrTwoLater | src/mcp-server/lua/custody-conditional-set.lua:27-44 | a write lands on the record it was decided on, or at least two writes later |
| CustodyRaces.EarlyForfeitureIsTwoWritesLater | src/mcp-server/lua/custody-conditional-set.lua:27-44 | a forfeiture ends a live hold only after at least two writes since its read |
| CustodyRaces.HoldOutlastsItsLeaseIff | src/core/custody-store.ts:361-386 | among any clients whose clocks are within the lease and who are not its release, a hold outlasts every interleaving iff every forfeiting write lands on the record its client read |
| CustodyRaces.HoldsEndLawfully | src/core/custody-store.ts:361-386 | in every run whose forfeiting writes do that, no hold ends but past its lease or by its own session |
| CustodyRaces.PausedForfeitureCanEndLiveHold | src/core/custody-store.ts:376-383 | from every reachable state with a client between reading an expired hold and forfeiting it, some continuation makes that write end a live hold |
| CustodyRaces.LateForfeitureEndsLiveHold | src/core/custody-store.ts:376-383 | and a run in which it does |
| CustodyRaces.RunKeepsInv | src/core/custody-store.ts:153-435 | what every client knows of the cell since its read holds through any interleaving |
| SessionOwner.OneLiveBackendPerSession | src/registered-shell/opencode-sessions.ts:94-172 | in every run the entries in service are exactly those in the table, one per session |
| SessionOwner.GetAnswersByEntryInService | src/registered-shell/opencode-sessions.ts:99-107 | in every run an owner not disposed joins the entry in service iff it was made for the same identity, refuses iff for another directory, and creates iff there is none |
| SessionOwner.GetRefuses | src/registered-shell/opencode-sessions.ts:97-98 | an identity is refused iff blank, too long or not absolute, and any other iff the owner is disposed |
| SessionOwner.CallersShareTheirBackend | src/registered-shell/opencode-sessions.ts:99-107 | over every run a caller's entry is for its own identity for ever, and while it is in service everybody who asks for that identity gets it and nobody under another directory gets any |
| SessionOwner.EntryStays | src/registered-shell/opencode-sessions.ts:166-171 | an entry keeps its identity, and once out of service stays out |
| SessionOwner.EntryMovesBy | src/registered-shell/opencode-sessions.ts:110-163 | a creation is opened iff the factory delivers and nobody has cancelled it, is closed at once if somebody has, and fails with the factory; an open backend is closed by the first who asks |
| SessionOwner.CallMovesBy | src/registered-shell/opencode-sessions.ts:180-193 | a close asks the handle once the creation has settled with one, returns if it has settled without, and else returns when the backend is closed |
| SessionOwner.CloseAnswers | src/registered-shell/opencode-sessions.ts:175-179 | a close has something to do iff the session is in service, for that directory if one is given; it cancels exactly that entry |
| SessionOwner.DisposalAsksEveryone | src/registered-shell/opencode-sessions.ts:197-203 | a first disposal cancels exactly the entries in service and waits for each, oldest first |
| SessionOwner.EveryBackendIsClosedOnce | src/registered-shell/opencode-sessions.ts:112-156 | a backend is closed at most once, and exactly once when its entry is closed |
| SessionOwner.FinishedDisposalLeavesNothing | src/registered-shell/opencode-sessions.ts:197-211 | a finished disposal leaves no entry in service, an empty table and every created backend told to close |
| SessionOwner.CloseTerminates | src/registered-shell/opencode-sessions.ts:175-194 | a close returns within six awaited turns, whatever the factory and the backend answer |
| SessionOwner.NoTurnSetsBack | src/registered-shell/opencode-sessions.ts:175-211 | no turn of anybody sets a waiting close back |
| SessionOwner.RunKeepsInv | src/registered-shell/opencode-sessions.ts:94-211 | the owner's invariant through any interleaving |
| SessionOwner.OpenCodeSessionOwner.GetOrCreate | src/registered-shell/opencode-sessions.ts:94-172 | joins, refuses or creates as specified |
| SessionOwner.OpenCodeSessionOwner.OnFactorySettled | src/registered-shell/opencode-sessions.ts:111-163 | the settled creation, cancelled or not |
| SessionOwner.OpenCodeSessionOwner.OnBackendClosed | src/registered-shell/opencode-sessions.ts:140-156 | the entry leaves the table |
| SessionOwner.OpenCodeSessionOwner.CloseHandle | src/registered-shell/opencode-sessions.ts:140-152 | the first close closes, later ones share it |
| SessionOwner.OpenCodeSessionOwner.CallTool | src/registered-shell/opencode-sessions.ts:131-139 | a call is forwarded only to an open backend that is in the table |
| SessionOwner.OpenCodeSessionOwner.Close | src/registered-shell/opencode-sessions.ts:175-180 | close up to its first await |
| SessionOwner.OpenCodeSessionOwner.OnCreationSettled | src/registered-shell/opencode-sessions.ts:180-194 | close after its first await, and its answer |
| SessionOwner.OpenCodeSessionOwner.Dispose | src/registered-shell/opencode-sessions.ts:197-203 | the loop closes every session in the table, oldest first |
| Installer.ApplyCanAlwaysBeUndone | scripts/install-shell-registration.py:131-174 | from wherever an apply stops rollback restores existence, content and mode of every file; without a manifest nothing has changed |
| Installer.ApplySucceedsIff | scripts/install-shell-registration.py:131-158 | an apply succeeds iff there is no manifest, every target is as planned, and nothing happens around any effect; then every target is installed and nothing else has changed |
| Installer.FailedApplyCleansUp | scripts/install-shell-registration.py:151-158 | an error anywhere, with an undisturbed recovery, leaves everything as it was |
| Installer.ForeignTargetsAreLeftAlone | scripts/install-shell-registration.py:144-158 | a target no longer as planned stops the apply, one not as installed stops recovery, and neither is touched |
| Installer.RollbackRestores | scripts/install-shell-registration.py:160-174 | rolling back any mixture of installed and original targets restores all of them |
| Installer.RefusedRollbackChangesNothing | scripts/install-shell-registration.py:164-170 | rollback goes ahead iff every target is installed or, before completion, original; else nothing changes |
| Installer.PreparedRollbackCanBeRerun | scripts/install-shell-registration.py:160-174 | a rollback of a prepared manifest stopped anywhere can be run again and restores everything |
| Installer.AppliedRollbackRerunsIffUnchanged | scripts/install-shell-registration.py:166-170 | one of an applied manifest can be run again iff each target restored so far was installed unchanged |
| Installer.InterruptedWriteLosesOriginalIff | scripts/install-shell-registration.py:144-158 | an interrupt right after a target is replaced loses its original iff it differed from what is installed |
| Installer.Script.ApplyChanges | scripts/install-shell-registration.py:131-158 | the loop with its except branch performs the specified transition under every schedule |
| Installer.Script.UndoApplied | scripts/install-shell-registration.py:151-158 | the recovery loop, backwards |
| Installer.Script.RollBack | scripts/install-shell-registration.py:160-174 | check all, restore all, keep the receipt |

## Left out

- Connections, blocking pops, stream waits, reconnects, timers and the command retries of the Redis client: only the atomic effect of each script is modelled.
- HTTP, stdio and MCP plumbing, the PTY wrapper, hooks, lifecycle logging and process handling: thin wrappers with little state to prove anything about.
- Presence classification, wake leases, actor directory, launch lists and readiness: finite tables or one-branch predicates that would add only easy members.
- Parsing of JSON, TOML and zod schemas, hashing, UUIDs and path resolution: parameters or injective constructors.
- WebSocket handshake, connection set-up and the content of JSON-RPC messages beyond the request id: the model starts at frame bytes.
- Claims whose stored JSON is corrupt, and `get`, `activeClaimFor` and dead-letter listing: the store's own writers never produce the former, and the latter only read.
- Idempotent sends and the 24-hour record behind them; the recovery counter's expiry is a step of its own.
- Mailboxes.RecoveryIsBounded: assumes, like the documentation, that the counter does not expire meanwhile; expiry, acknowledgement, requeue and unregistration are the resets it names.
- Claims.RecoverLeavesOnlyUnexpired: which destination key has the wrong type, and hence the refusal, is a parameter.
- Activation.InboxDispatcher.ReconcileOnce: recovery of expired claims at the start of a pass and the trace events are not modelled; a corrupt stored record reads as absent, as after its expiry.
- Dispatcher.UnfencedSendCanRepeat: speaks of first attempts, whose operation a re-created record has at once; a later attempt's operation comes up again only after as many ended turns.
- Dispatcher.EachOperationAcceptedOnce: assumes a host whose history is complete and which accepts nothing that a read has missed; a transcript reader that keeps 256 turns only approximates that.
- Dispatcher.FurtherAttemptsWaitForTheLast: assumes of the adapters' answers what Activation's three TellsTheHost lemmas prove, that completed is said only of a shown operation whose turn is over.
- The Codex and Pi adapters forget operations after 1024 of them; what an adapter remembers is a parameter of its contract.
- Identity.AdopterExcludesOthers: a session that is itself adopted onwards frees the name.
- Identity.ContinuityRedirectsOnly: fingerprints are the values themselves, and the reads before the script are of one earlier state.
- Rename.FailedRenameKeepsTheOldName: other clients act on the mailboxes between recovery and transfer; RenameRaces lets everybody act on registry and sessions between any two calls, but there the outcome of the transfer is a choice and the mailboxes are left to Mailboxes.
- RenameRaces.EntryAmongOthers: the entries that an adoption finds are left open, and the value it stores is any completed one.
- Renames by a client whose own name is empty: its calls fail as an unregistered one's do (src/mcp-server/redis-client.ts:109-115).
- Heartbeats and mailbox metadata in a rename: best-effort keys that nothing proved here depends on.
- Custody listing of all paths: it treats each path as status does, on an older read.
- A stored custody value that is JSON but fails the read schema and yet matches a compare-and-set: only an outside writer can put it there.
- CustodyRaces.AloneKeepsHoldIff: takes non-negative lease lengths; with a negative one a takeover could write the very record it replaces.
- SessionOwner.OpenCodeSessionOwner.GetOrCreate: blank means spaces, tabs and line ends, and length counts characters.
- The error texts that closes and disposals aggregate: only success or failure is modelled.
- Installer: temporary files, created directories and the lock; edits by others during an apply or a rollback.
- Installer.ApplyCanAlwaysBeUndone: errors come before their effect; interrupts right after one are the subject of InterruptedWriteLosesOriginalIff.
- IsoTime.InstantRoundTrip: works on date and clock fields; padding to digits and matching them is not modelled.

# Verified model of Auto Browser's approval, job and retention machinery

This project models the parts of Auto Browser's controller in which a mistake would be hardest to see, and
proves what they promise. `dafny verify dfyconfig.toml` checks all of it.

## What is modelled

**The approval protocol** (`ApprovalModel`, `ApprovalStartup`, `ApprovalProtocol`, `ApprovalInvariant`,
`ApprovalTheorems`, `ApprovalDecisions`, `ApprovalClaims`, `ApprovalEndings`, `ApprovalHistory`, `ApprovalClock`,
`ApprovalClasses`). An approval is claimed, and written as executed, before its action runs; the hold is shared by
nested layers and child tasks, marked at the first effect, given back by some endings, and an operator may reject or
un-reject it meanwhile.
Each record is in two stores, the file store and SQLite, which a crash or a failed write can leave disagreeing
and a start reconciles. `ApprovalProtocol` is a state machine whose steps are the store's operations cut at every
write, the steps of holds and blocks that interleave freely with them, crashes, and starts with SQLite up, down
or failing part of the way. Persistent state is the two maps and the clock; a crash drops the claims, the holds,
the tasks' contexts and the write under way. `ApprovalClasses` has the same operations as methods on the source's
objects, each proved to change the fields by the same pure functions the steps apply.

**The job queue and the cron service** (`AgentJobs`, `AgentJobRuns`, `AgentJobQueues`, `CronRuns`). The job status
machine over restarts; and the composition of a cron trigger, the worker that takes its job, and operators who
cancel, with the slot and the finish callback that must close each run's session once. The service's and the
queue's methods are proved to be steps of those runs.

**Six smaller parts**: the witness bundle verifier (`WitnessBundle`), the retention sweep (`RetentionSweep`, with
`Sorting`), the number layout of the approval queue (`JsNumber`), the WebSocket frame reader and writer
(`WebSocketStreams`), the audit log's listing, appending and trimming (`AuditListing`), and the MCP session table's
eviction (`McpSessions`).

## What is assumed

- One controller process. A file replacement and a SQLite upsert each land whole or not at all.
- Store operations hold the store lock from their first read to their last write; between two writes, holds,
  blocks and tasks may do anything, and the process may die.
- Ids are fresh. Exceptions are compared by identity.
- A claim written to the file store alone is stamped past SQLite's rejection of its record, if SQLite holds one.
  Nothing else is asked of the clock. The condition is exact: `ClaimSurvivesExactly`, `BrokenClaimActsTwice`.
- The witness hash is injective on a previous hash and a canonical payload; whether a signature verifies is an
  uninterpreted predicate.
- The audit log's validator is a parameter; `ListingAgrees` assumes of it only that a line it accepts is the
  encoding of the event it returns, and `NewestIsListedFirst` that it reads that encoding back.

## What turned out otherwise than one might expect

- The at-most-once promise rests on that condition on claims, because a claim is stamped with the bare clock,
  while decisions and give-backs are stamped later than the record they change. Where one claim fails it, the
  action can start twice.
- "At most one run per cron job" holds of open sessions and of slots. Of jobs it holds exactly until a trigger
  fails, takes its job back and releases the run: the job may then outlive its slot (`LiveJobHoldsItsSlot`,
  `WithdrawnJobMayOutliveItsSlot`).
- A cancel that finds no task records the job as interrupted whatever its record has become meanwhile, discarded
  included; it is never completed or failed by then (`CancelledJobNeverCompletes`).
- Withdrawing a rejection commutes with the end of the block, but not with the give-back after it: an approve
  that comes once the give-back is written is a decision of its own (`OrderMattersExactly`).
- `WebSocketStream.write` writes a frame a server can read exactly for under 126 bytes (`WrittenIsRead`).
- The audit listing's shortcut is exact on the logs whose lines show the fields a filter can ask for unescaped,
  as every written line does; a line edited by hand may not (`ShortcutIsExactOn`, `EditedLineIsMissed`).
- A rejection an operator is told is deferred is applied if the block was still running or waiting to be given
  back; one accepted between the store's answer and the release of the hold never is (`AppliedOnlyIfStillOpen`).

## Model

| member | source | states |
|---|---|---|
| `ApprovalTheorems.OneEffectPerActionApproval` | controller/app/approval_execution.py:107-139 | In every run of creates, decisions, claims, effects, give-backs, failed writes, crashes between the two writes, restarts with SQLite up or down, and a clock that may go back, no two `effect_started` calls succeed under one action approval, if each claim written to the file store alone is stamped past SQLite's rejection of its record, where SQLite holds one |
| `ApprovalTheorems.SpentForEver` | controller/app/approvals.py:179-239 | Under the same condition on claims, once an action has started under an approval every later process shows its record as executed, whichever store it runs on |
| `ApprovalInvariant.StepKeepsInv` | controller/app/approvals.py:689-724 | Every step keeps the protocol's invariant (a claim, if it outlasts SQLite's rejection): effects counted at most once, records with an effect or an open block spent wherever a start could read them, claims, holds and contexts consistent with each other and with the write under the lock |
| `ApprovalTheorems.RunKeepsInv` | controller/app/approvals.py:179-239 | The invariant holds in every state of every run that starts on empty stores and whose claims outlast SQLite's rejections |
| `ApprovalTheorems.EffectIsCounted` | controller/app/approval_execution.py:138-139 | The history counts each successful `effect_started` under each approval the task carries, so the headline speaks of every start |
| `ApprovalTheorems.StepFollows` | controller/app/approval_execution.py:107-150 | Within a process no step takes back an effect or wakes an inactive hold, and none starts an effect under an inactive one |
| `ApprovalClock.ClaimSurvivesExactly` | controller/app/approvals.py:553-555 | A claim made on the file store alone is what the next full start with SQLite shows exactly if its stamp, the bare clock, is past the one of SQLite's rejection; otherwise that start shows the rejection |
| `ApprovalClock.BrokenClaimActsTwice` | controller/app/approvals.py:232-239 | From any state that keeps the invariant, a claim that fails that condition, by a task that carried no hold, can lead to a second start of its action: a crash, a start with SQLite that brings the rejection back, an operator's new approve, a new claim |
| `ApprovalClock.StoppedClockActsTwice` | controller/app/approvals.py:553-555 | Such a claim happens: with the clock standing still, an approval rejected through SQLite and approved on the file store alone starts its action twice |
| `ApprovalClaims.InactiveHoldNeverActs` | controller/app/approval_execution.py:107-139 | From the moment a hold is inactive, for the rest of the process, no task carrying it (child or nested layer) starts an effect and its effect flag never changes |
| `ApprovalClaims.GivenBackHoldHasNoEffect` | controller/app/approval_execution.py:417-433 | A record is being given back only under a hold that had no effect and never will |
| `ApprovalClaims.WaitingRejectionStopsTheAction` | controller/app/approvals.py:622-625 | A waiting rejection and a started effect never coexist; until it is withdrawn, no later effect starts under that hold |
| `ApprovalClaims.OnlyAWithdrawalClears` | controller/app/approvals.py:622-631 | Only an operator's approve takes a waiting rejection off its hold: no agent's decision, no refusal, no ending and no release does |
| `ApprovalClaims.AgentLeavesTheClaim` | controller/app/approvals.py:614-632 | An agent's decision on a claimed approval, approve or reject, changes nothing in the whole state |
| `ApprovalClaims.OperatorRejectWaits` | controller/app/approvals.py:622-625 | An operator's reject of a claim that may give back and has no effect waits on its hold with that operator's comment, and changes nothing else of it |
| `ApprovalClaims.WaitingRejectionIsGivenBack` | controller/app/approval_execution.py:442-457 | A block that returns, raises or is cancelled while a rejection waits goes to its give-back, and the store then begins to write it |
| `ApprovalClaims.LandedGiveBackAppliesTheRejection` | controller/app/approvals.py:436-448 | When that write lands the record shows rejected, with that operator's comment, decided by an operator |
| `ApprovalEndings.ClosedAsEnded` | controller/app/approval_execution.py:417-463 | Whatever happens between the end of a block and the store's answer, with a give-back that is not reported as failed the record then shows the rejection waiting on the hold, and with none approved if the ending gives back by itself, executed if not |
| `ApprovalEndings.RejectionIsAppliedInTheEnd` | controller/app/approvals.py:425-449 | A rejection accepted at one point of a run and changed by no later decision is what the record shows, with that comment and decided by an operator, once the block has ended other than killed and the store has answered it without a failed write |
| `ApprovalEndings.AppliedOnlyIfStillOpen` | controller/app/approvals.py:612-625 | Only a rejection accepted while the block ran or waited to be given back is ever written; one accepted after the store's answer stays on the hold |
| `ApprovalEndings.AnsweredBlockIsNotWritten` | controller/app/approval_execution.py:428-435 | Once the store has answered a block, nothing is written for its hold again within the process |
| `ApprovalEndings.WithdrawalLeavesTheEnding` | controller/app/approvals.py:622-631 | Over any run: a rejection withdrawn before or after the end of the block, and no later decision, leaves the record, once the store has answered without a failed write, approved if the ending gives back by itself and executed if not |
| `ApprovalClaims.OrderMattersExactly` | controller/app/approvals.py:633-659 | After the give-back has been written an approve is a decision of its own: it leaves the record approved, which is what an earlier one would have left exactly when the ending gives back by itself |
| `ApprovalClaims.LateApproveFindsTheRejection` | controller/app/approvals.py:442-448 | What such a late approve finds is the rejection, applied, on a record it may decide |
| `ApprovalEndings.ReplyTellsHowItEnds` | controller/app/approvals.py:627-631 | Over any run: on a claim whose block has ended, and with no later decision and no failed write, the reply `withdrawn_spent` is given exactly when the record stays executed, and `withdrawn_after_refusal` exactly when it returns to approved |
| `ApprovalHistory.ReplyTellsWhetherRefused` | controller/app/approvals.py:627-631 | Over any run from the claim on: while the block still runs, an approve that withdraws a rejection is answered `withdrawn_after_refusal` exactly when the action has been refused under the hold by then, before an effect or for a waiting rejection, and `withdrawn` otherwise |
| `ApprovalHistory.ClaimEndsAsItWent` | controller/app/approval_execution.py:334-354 | Over any run from the claim to the store's answer, with no rejection waiting and no failed write: the record is approved again exactly if the block may give back, no action started under the hold, and the block was cancelled or raised the very exception of the last refusal recorded under it; a return, another exception or a kill leaves it executed |
| `ApprovalHistory.HoldTellsItsRun` | controller/app/approval_execution.py:107-150 | From its claim on, a hold's refusal is the last one recorded by a task that carried it, active and with no effect; its effect is that an action started under it; its stop is that one was refused for a rejection that waited |
| `ApprovalHistory.ClaimIsCarried` | controller/app/approvals.py:384-396 | A claim whose write has landed is its hold, the claiming task carries it, and whatever else any task carries is untouched |
| `ApprovalHistory.ChildActsUnderTheSame` | controller/app/approval_execution.py:107-139 | A task acts under exactly the approvals that the task which made it would act under at that moment |
| `ApprovalHistory.KilledBlockGivesNothingBack` | controller/app/approval_execution.py:428-463 | A block killed by anything it does not catch is released with its record untouched, a waiting rejection or not |
| `ApprovalHistory.ReleasedLeavesNothing` | controller/app/approvals.py:409-423 | A released block leaves an inactive hold, no claim of its own, and nothing its task carries |
| `ApprovalClaims.WithdrawnSpentStaysSpent` | controller/app/approvals.py:627-629 | After `withdrawn_spent`, with no later decision on that claim, the record never changes again within the process |
| `ApprovalClaims.WithdrawnSpentDooms` | controller/app/approvals.py:627-629 | The reply does leave the state the previous row starts from |
| `ApprovalClaims.WriteStepsAreOneWrite` | controller/app/approvals.py:689-724 | The write's separate steps (file, SQLite, putting the file back), run without interruption, are the one write the classes are proved against |
| `ApprovalDecisions.AgentNeverOverrules` | controller/app/approvals.py:633-643 | While an operator's rejection of the same session, kind and bound fields stands (in controller scope, of the same requester), no step shows an agent's approve; and a record an agent decides, either way, was pending |
| `ApprovalClasses.WhoMayNotDecide` | controller/app/approvals.py:633-645 | Exactly who may not decide a record that is not executed, over its fields: an agent, if it is decided, or to approve what was rejected by anybody but an agent with the same scope, kind and fields (in controller scope, the same requester); anybody, to approve one that is no longer whole |
| `ApprovalHistory.RunIsTraced` | controller/app/approvals.py:603-660 | In every run, every record stored or being written asks what it was created to ask, and a decided one carries the comment, the decider and the expiry of a decision some step of the run made on it: an approve for approved and executed ones, a reject, or an operator's reject of the claim, for rejected ones |
| `ApprovalHistory.ApprovalExpires` | controller/app/approvals.py:552-552 | Over any run, an approved record can be claimed, by a task that does not hold it, exactly until the decision that approved it is as old as that decision allowed; a give-back does not extend it |
| `ApprovalHistory.ApproveIsStamped` | controller/app/approvals.py:648-655 | An approve is stamped at the clock, or a microsecond past the record where the clock has not moved past it, and expires its time to live after that stamp |
| `ApprovalClasses.DecidedRecordIsDecision` | controller/app/approvals.py:646-657 | Field by field, what a decision makes of a record |
| `ApprovalClasses.GivenBackRecordIsGiveBack` | controller/app/approvals.py:436-449 | Field by field, what a give-back makes of a record: later than it, no longer executed, with the decision and the expiry it had, or the operator's reject and no expiry |
| `ApprovalDecisions.RunKeepsGood` | controller/app/approvals.py:603-660 | In every state of every run, what is being written is what was decided: a decision its decider may take, or a give-back that applies exactly what waits on its hold |
| `ApprovalDecisions.OnlyWritesShow` | controller/app/approvals.py:689-709 | Within a process only the write to the primary store changes what is shown |
| `ApprovalDecisions.FinalNeverChanges` | controller/app/approvals.py:612-632 | An executed record with no claim, or whose claim has an effect or may not give back, never changes again within the process |
| `ApprovalStartup.StartKeepsFinalDecisions` | controller/app/approvals.py:179-239 | For any two stores and any partial failures, a start that succeeds never shows a record SQLite held as executed with another status, nor one SQLite held as rejected unless the file's record is strictly later |
| `ApprovalStartup.FullCatchUpAgrees` | controller/app/approvals.py:202-230 | With no write failure both stores then agree on every id the file store holds, and SQLite keeps its other records |
| `ApprovalStartup.FullStartShows` | controller/app/approvals.py:202-239 | With no write failure the start shows SQLite's record exactly where it is executed and the file's is not, or rejected where the file's has another status and is not strictly later; everywhere else it shows the file's |
| `ApprovalStartup.SecondStartChangesNothing` | controller/app/approvals.py:202-230 | A second start then has nothing to repair and nothing to copy |
| `ApprovalStartup.RefusesExactlyWhenBothFail` | controller/app/approvals.py:213-230 | The start refuses exactly when some repair and some copy both failed |
| `ApprovalStartup.RepairedFileIsTrustworthy` | controller/app/approvals.py:197-199 | With the file store repaired, a later start that cannot open SQLite still finds every spend of SQLite's, whether or not a copy failed |
| `ApprovalStartup.FailedWriteIsUndone` | controller/app/approvals.py:689-724 | A write reported as failed leaves what the primary shows as it was, and, unless putting the file back failed too, leaves a catch-up nothing to do for that record |
| `ApprovalStartup.DoneWriteIsShown` | controller/app/approvals.py:689-709 | A write reported as done is in the file store and is what is shown |
| `ApprovalStartup.WriteIsDoneExactly` | controller/app/approvals.py:689-709 | A write is reported as done iff the file store's half lands, and SQLite's while SQLite is primary |
| `ApprovalClasses.EffectStarted` | controller/app/approval_execution.py:107-139 | Over the holds the task carries, in order: succeeds iff each is active, has no rejection waiting and, for an action, no effect, and then marks every one; else marks no effect, names the first that refuses and which of the three it failed, and sets only its `stopped` |
| `ApprovalClasses.RefusedBeforeEffect` | controller/app/approval_execution.py:142-150 | Records the refusal on exactly the live holds with no effect |
| `ApprovalClasses.ApprovalStore.Write` | controller/app/approvals.py:689-709 | For each combination of failing halves, the two stores and the outcome are those of one `WriteOutcome` |
| `ApprovalClasses.ApprovalStore.PutTheFileBack` | controller/app/approvals.py:711-724 | The file returns to the record SQLite still holds, none: removed; or stays when that fails as well |
| `ApprovalClasses.ApprovalStore.PutOnClaim` | controller/app/approvals.py:614-632 | Over the claim's fields: an agent's decision, or one on a claim that may not give back or has an effect, is a conflict and changes nothing; an operator's reject waits and is deferred; their approve clears what waits and is answered spent, after refusal or withdrawn by whether the hold is active, stopped, refused or gives back by itself, and is a conflict if nothing waits |
| `ApprovalClasses.ApprovalStore.Decide` | controller/app/approvals.py:603-660 | An executed record changes only its claim, and for an agent nothing at all: its decision is a conflict; any other record is written iff the decider may take the decision and the write lands, and then shows that decision field by field; every other record and claim is untouched |
| `ApprovalClasses.ApprovalStore.ClaimExecution` | controller/app/approvals.py:364-396 | A task that already carries the live hold claims nothing; a record that is not approved, or whose expiry is not after now, is refused; else a hold is made, and carried, iff the executed record was written, which alone of its fields changes status, update and execution time; a refusal changes nothing |
| `ApprovalClasses.ApprovalStore.RevokeExecution` | controller/app/approvals.py:409-413 | The hold stops counting; the claim goes only if it is this hold's |
| `ApprovalClasses.ApprovalStore.ReleaseExecution` | controller/app/approvals.py:415-423 | The hold is revoked and leaves its owner's context, if it is the one there |
| `ApprovalClasses.ApprovalStore.GiveBack` | controller/app/approvals.py:425-449 | Nothing is written when only a withdrawn reject made the ending give back, or the record is gone; else the record goes back to approved, or to rejected with the waiting decision |
| `ApprovalClasses.ApprovalStore.EndExecution` | controller/app/approval_execution.py:417-463 | The record is given back iff the hold may give back and has no effect, the block was cancelled, or raised the recorded refusal, or ended other than killed with a rejection waiting, the record is there and the write lands; it then shows approved as it was, or the rejection; in every case the hold is inactive, no longer a claim, and out of its owner's context |
| `ApprovalClasses.ApprovalStore.RepairTheFile` | controller/app/approvals.py:203-223 | The first loop: exactly the records whose final decision the file would undo are repaired, but for the writes that fail, and exactly the others that differ are left to copy |
| `ApprovalClasses.ApprovalStore.CopyAll` | controller/app/approvals.py:224-230 | The second loop copies into SQLite up to the first write that fails |
| `ApprovalClasses.ApprovalStore.CatchSqliteUp` | controller/app/approvals.py:179-230 | The stores after both loops are the catch-up of the stores before, with what landed |
| `ApprovalClasses.ApprovalStore.Startup` | controller/app/approvals.py:157-177 | SQLite is primary iff it opens and every copy lands; the start is refused iff a repair and a copy both fail; otherwise the file store is; the stores are the catch-up with what landed |
| `AgentJobRuns.StartedAtMostOnce` | controller/app/agent_jobs.py:170-177 | Over any run of the queue (restarts, duplicate entries, cancels, withdrawals, discards, late writes) no job id is started twice |
| `AgentJobRuns.NeverQueuedAgain` | controller/app/agent_jobs.py:131-257 | No step returns a record to queued once it has left it, a restart included |
| `AgentJobRuns.OnlyAStartRuns` | controller/app/agent_jobs.py:170-177 | Only a successful `start_queued` makes a record running, late writes aside |
| `AgentJobRuns.CancelledJobNeverCompletes` | controller/app/agent_jobs.py:186-235 | Over any run, restarts included: a running job that is asked to cancel ends cancelled or interrupted, and may then be discarded; whatever its worker reports it never completes, fails or runs again, late writes of it aside |
| `AgentJobRuns.OutcomeStays` | controller/app/agent_jobs.py:186-257 | What a job has completed or failed as stays, over cancels, withdrawals and restarts, until it is discarded, late writes aside |
| `AgentJobRuns.RestartEndsWhatRan` | controller/app/agent_jobs.py:131-142 | A restart leaves nothing running or cancelling: what ran is interrupted, what was being cancelled is cancelled, every other record is as it was |
| `AgentJobs.AgentJobStore.StartQueued` | controller/app/agent_jobs.py:170-177 | Answers with the record and writes running only if it is queued; else changes nothing |
| `AgentJobs.AgentJobStore.Finish` | controller/app/agent_jobs.py:186-204 | A job asked to cancel ends cancelled, a cancelled or discarded one stays so, any other takes the reported end |
| `AgentJobs.AgentJobStore.FinishCancelled` | controller/app/agent_jobs.py:206-217 | Cancelled by a user, else interrupted, whatever the record was |
| `AgentJobs.AgentJobStore.RequestCancel` | controller/app/agent_jobs.py:219-235 | Queued becomes cancelled, running cancelling; asked again it is unchanged; anything else is refused |
| `AgentJobs.AgentJobStore.InterruptQueued` | controller/app/agent_jobs.py:237-245 | Only a queued record becomes interrupted |
| `AgentJobs.AgentJobStore.Discard` | controller/app/agent_jobs.py:247-257 | Refused while running or cancelling; otherwise discarded, once |
| `AgentJobs.AgentJobStore.MarkRunningInterrupted` | controller/app/agent_jobs.py:131-142 | At a restart every record under way is ended, running as interrupted and cancelling as cancelled, and no other changes |
| `AgentJobQueues.AgentJobQueue.PutOnQueue` | controller/app/agent_jobs.py:500-509 | The job and its callback are both there, or the queue is full, neither is and the record has failed; for a cron run's job this is the run's step, or two |
| `AgentJobQueues.AgentJobQueue.RunFinishCallback` | controller/app/agent_jobs.py:301-310 | The callback runs at most once, forgotten before it runs, and releases only the run its slot still hosts |
| `AgentJobQueues.AgentJobQueue.ProcessInner` | controller/app/agent_jobs.py:573-578 | A job starts iff its record is queued, and its end is recorded |
| `AgentJobQueues.AgentJobQueue.ProcessJob` | controller/app/agent_jobs.py:555-565 | Whatever became of the job its callback has run and is forgotten; for a cron run's job these are the task's steps of the run, the release of the run among them |
| `AgentJobQueues.AgentJobQueue.ProcessNext` | controller/app/agent_jobs.py:526-565 | A worker's turn takes the oldest job and leaves no mark of it; for a cron run's job it is the run's steps from taken to ended |
| `AgentJobQueues.AgentJobQueue.Withdraw` | controller/app/agent_jobs.py:448-468 | A queued record is interrupted; a task is stopped iff the record is under way, the task exists and it is not in its finish callback |
| `AgentJobQueues.AgentJobQueue.TakeBack` | controller/app/agent_jobs.py:512-522 | A job taken back loses its callback however it was found, and its run is left to its trigger to release: these are the run's withdrawal steps |
| `CronRuns.StepKeepsInv` | controller/app/cron_service.py:341-458 | Every step of triggers, workers, cancels and withdrawals keeps the invariant of slots, sessions and callbacks |
| `CronRuns.SessionClosedExactlyOnce` | controller/app/cron_service.py:432-458 | Every session made for a run is closed at most once, and exactly once by the time its trigger and its job are over: success, failure, cancel while queued, full queue, audit failure, withdrawal mid-run |
| `CronRuns.OneOpenSessionPerCronJob` | controller/app/cron_service.py:355-394 | At most one run of a cron job has an open session, and the slot hosts it |
| `CronRuns.SlotFreedOnlyByItsOwnClose` | controller/app/cron_service.py:443-445 | A step takes a slot from a run only by closing that run's session: a release never clears a newer run's slot |
| `CronRuns.NoTaskIsLost` | controller/app/agent_jobs.py:422-467 | No job's task is cancelled before its first step, which would skip its finish callback: not by a withdrawal, nor by an operator's cancel, which looks for the task after its request is written |
| `CronRuns.LostTaskNeverRunsItsCallback` | controller/app/agent_jobs.py:555-565 | What that rules out: cancelled before its first step, a task is lost for good, and no step runs its callback, which only its trigger's withdrawal takes away |
| `CronRuns.LiveJobHoldsItsSlot` | controller/app/cron_service.py:352-376 | A queued or running job's run has lost its slot, so that another fire may start, exactly if its trigger failed, took the job back and has released the run |
| `CronRuns.OneLiveJobPerCronJob` | controller/app/cron_service.py:352-376 | Of two jobs of one cron job queued or running at once, it is the older whose trigger took it back and released its run |
| `CronRuns.WithdrawnJobMayOutliveItsSlot` | controller/app/agent_jobs.py:467-468 | That case is reachable: a withdrawn job still running when the five-second wait ends loses its slot, and the next fire starts beside it |
| `CronRuns.CronService.ClaimSlot` | controller/app/cron_service.py:355-376 | A trigger gets the slot iff a fire is possible in the runs the service stands for, and the runs then have fired |
| `CronRuns.CronService.SessionMade` | controller/app/cron_service.py:393-394 | The runs take the step in which that run's session opens, the slot and the count of closes still agreeing with them |
| `CronRuns.CronService.SessionNotMade` | controller/app/cron_service.py:390-392 | The runs take the step in which that run ends without a session, its slot free again |
| `CronRuns.CronService.ReleaseRun` | controller/app/cron_service.py:432-458 | Called by a trigger or a finish callback, it is that step of the runs: only for the run the slot hosts does it free the slot and close the session, and `closed` lists each session as often as its run counts |
| `CronRuns.ClosedAtMostOnce` | controller/app/cron_service.py:432-458 | So the sessions the service closed are all different |
| `WitnessBundle.VerifyBundle` | scripts/verify_witness_bundle.py:156-215 | Accepts exactly the non-empty bundles whose key, links, signature pattern, signatures, head, count and export fields all pass; its counts then add up to the receipts, unsigned ones first, at least one signed unless unsigned bundles are allowed |
| `WitnessBundle.CheckChain` | scripts/verify_witness_bundle.py:120-153 | The early-breaking loop reports no fault iff the whole chain passes; its counts cover exactly the receipts before the first fault |
| `WitnessBundle.CheckKey` | scripts/verify_witness_bundle.py:107-117 | No failure iff the bundled key is base64, is the key the bundle names and the key expected |
| `WitnessBundle.SameHeadSameChain` | scripts/verify_witness_bundle.py:80-85 | Under an injective hash, two chains whose links hold and whose last hashes are equal have the same length and the same hashed content everywhere |
| `WitnessBundle.TamperedBundleIsRejected` | scripts/verify_witness_bundle.py:120-133 | So any edit, insertion, deletion or reordering of an accepted bundle that keeps its head is rejected |
| `WitnessBundle.TruncationMovesTheHead` | scripts/verify_witness_bundle.py:196-197 | Dropping receipts off the end keeps the links but not the head, which a verifier told the head notices |
| `WitnessBundle.AcceptedIsVouchedFor` | scripts/verify_witness_bundle.py:107-215 | An accepted bundle with an expected key: each hash is the digest of the previous one and its content, the last receipt and every one from the first signed on verify under the public key with that id, the claimed head and count are right, and the chain ends at the expected head |
| `WitnessBundle.RecordedIsAccepted` | controller/app/witness.py:446-472 | Whatever the recorder appended, signed from wherever on, its export is accepted by a reader who expects its key and head or neither; where nothing was signed, exactly by one who allows that |
| `RetentionSweep.CleanupRoot` | controller/app/maintenance.py:229-299 | Whatever fails and wherever it is stopped: what is gone was a file or directory older than the cutoff, unprotected and not .gitkeep; the tree stays a tree (no directory with something in it goes); the counters equal what left; each faulty entry is counted once. With no fault and no stop, an entry goes iff it and everything below it may go |
| `RetentionSweep.GoneIsDoomed` | controller/app/maintenance.py:256-299 | Faults or not, an entry that went had nothing below it that may stay |
| `RetentionSweep.WhatGoesMayGo` | controller/app/maintenance.py:188-218 | Whatever fails: what goes, and everything that was below it, is a file or a directory, not .gitkeep, last changed longer ago than the retention, and in no protected root |
| `RetentionSweep.WhatStaysIsKeptFor` | controller/app/maintenance.py:229-299 | With no fault and no stop, for everything that stays there is an entry, itself or below it, of another kind, recent, a .gitkeep, or in a protected root |
| `RetentionSweep.AllExpendableIsEmptied` | controller/app/maintenance.py:256-299 | A tree whose entries may all go is emptied, nested directories included, and the counters are its counts and total size |
| `RetentionSweep.FirstPass` | controller/app/maintenance.py:256-266 | Directories are judged before any file is unlinked, so each by the time it had before the sweep; expendable files go and expendable directories are marked |
| `RetentionSweep.SecondPass` | controller/app/maintenance.py:278-299 | Only marked directories go; deepest first, so one whose contents all may go is empty when its turn comes |
| `RetentionSweep.DoomedIsEmpty` | controller/app/maintenance.py:278-278 | Judged after everything deeper, a directory whose contents may all go holds nothing |
| `RetentionSweep.SweepEntry` | controller/app/maintenance.py:188-218 | The verdict on one entry, exactly: protected root, recent, stale directory, stale file, or a fault; each counted as it is, and only a deletion changes the tree |
| `RetentionSweep.ListEntries` | controller/app/maintenance.py:246-255 | The listing holds each entry once with its kind, and all of them unless one faults or the sweep is stopped |
| `RetentionSweep.ListDirectories` | controller/app/maintenance.py:268-277 | The second listing holds each directory left, once |
| `RetentionSweep.RemoveIfStale` | controller/app/maintenance.py:282-298 | One directory of the second pass goes iff it is marked, resolves, is unprotected, is removable and is empty; it is then counted |
| `RetentionSweep.ProtectedMatch` | controller/app/maintenance.py:301-314 | Finds the first protected root that holds the path, iff one does |
| `RetentionSweep.EntryError` | controller/app/maintenance.py:220-227 | An entry that fails in both passes is counted once |
| `JsNumber.ReadsBack` | controller/app/approval_display.py:274-299 | For every double, the printed text reads back as exactly sign, digits and exponent (zeros as 0, NaN and the infinities as themselves) |
| `JsNumber.DistinctPrintDifferently` | controller/app/approval_display.py:274-299 | Distinct doubles print differently, the two zeros aside |
| `JsNumber.ShownIsTheOnlyText` | controller/app/approval_display.py:274-299 | For every double the text is canonical (no needless zero, point or exponent, a sign and no leading zero in the exponent, an exponent exactly below 1e-6 or from 1e21 up), and is the only canonical text that reads as that double |
| `JsNumber.LayoutReadsBack` | controller/app/approval_display.py:288-298 | Each of the four layouts reads back as digits times ten to the exponent, and only the last writes an exponent |
| `JsNumber.ExponentExactlyOutside` | controller/app/approval_display.py:276-280 | An exponent is written exactly when the size is below 1e-6 or from 1e21 up |
| `JsNumber.SameValueSameDigits` | controller/app/approval_display.py:287-287 | Normalised digits and exponent are given by the value they spell |
| `WebSocketStreams.WebSocketStream.Raw` | scripts/check_vnc_exposure.py:149-156 | Returns the next bytes of what is unread and leaves the rest, whatever the chunks; fails iff there are not enough, losing none |
| `WebSocketStreams.WebSocketStream.ReadFrame` | scripts/check_vnc_exposure.py:160-167 | Reads exactly the first whole frame, 7-, 16- or 64-bit length |
| `WebSocketStreams.WebSocketStream.Read` | scripts/check_vnc_exposure.py:158-173 | What is returned or raised, and both buffers after it, depend only on the data in hand and the unread bytes, not on how the network cut them |
| `WebSocketStreams.ReadsAreSlices` | scripts/check_vnc_exposure.py:158-173 | Successive reads of any sequence of server frames without a close return consecutive slices of the concatenated data payloads |
| `WebSocketStreams.FilledFromFrames` | scripts/check_vnc_exposure.py:158-173 | A read the frames' data reaches takes whole frames until it has enough, and leaves the others unread |
| `WebSocketStreams.WhatAFrameDoes` | scripts/check_vnc_exposure.py:158-173 | What one frame does to a read, for each of the sixteen opcodes: 0 and 2 bring their payload, 8 ends the stream with the reason after two bytes of status, every other is passed over |
| `WebSocketStreams.ReadPastTheEnd` | scripts/check_vnc_exposure.py:152-170 | A read past the data raises, with the server's reason after a close frame, else for the end of the connection; the data read stays in hand |
| `WebSocketStreams.FirstOfEncoded` | scripts/check_vnc_exposure.py:160-166 | A frame encoded as section 5.2 of RFC 6455 says is read back, whatever follows it |
| `WebSocketStreams.FirstByteCountsMost` | scripts/check_vnc_exposure.py:163-166 | A frame's length is read most significant byte first |
| `WebSocketStreams.WebSocketStream.Write` | scripts/check_vnc_exposure.py:175-178 | Sends the masked frame; of 256 bytes and over raises and sends nothing |
| `WebSocketStreams.MaskedBitByBit` | scripts/check_vnc_exposure.py:177-178 | Every bit sent is the payload's, flipped where the key's byte, taken in turn, has a bit set |
| `WebSocketStreams.WrittenIsRead` | scripts/check_vnc_exposure.py:175-178 | A server unmasking as section 5.3 of RFC 6455 says reads the written bytes back as one whole data frame iff there are fewer than 126 |
| `AuditListing.FileAuditStore.ListEvents` | controller/app/audit.py:117-163 | The newest-first, early-stopping scan returns the first `limit` matches, newest first, of the lines that hold every needle |
| `AuditListing.ListingIsWhatWasAsked` | controller/app/audit.py:130-163 | Every event listed was read from a line and has each value the filter gives, an empty one giving none; with room for all, every such event is listed; never more than the limit |
| `AuditListing.ShortcutIsExactOn` | controller/app/audit.py:130-138 | The listings of a log agree with plain filtering, for every filter and limit, exactly if each of its lines shows the session, event type and operator id of its event unescaped, where those are values the shortcut looks for |
| `AuditListing.ShortcutAgreesExactly` | controller/app/audit.py:130-138 | For one filter, looking only into the lines that hold every needle drops no match iff no matching line lacks one |
| `AuditListing.EditedLineIsMissed` | controller/app/audit.py:137-138 | A whole event line, as the log writes it but for a session id somebody wrote as an escape, is listed by plain filtering and missed by the shortcut |
| `AuditListing.ListingAgrees` | controller/app/audit.py:117-163 | On a log of written lines, torn ones among them, the listing is that of parsing every line, filtering and reversing |
| `AuditListing.LineHoldsField` | controller/app/audit.py:68-75 | A value found verbatim is a substring of the JSON line of every event with a field that has it |
| `AuditListing.VerbatimIsUnescaped` | controller/app/audit.py:68-75 | Such a value is its own JSON string escape |
| `AuditListing.EscapedReadsBack` | controller/app/audit.py:93-95 | A JSON reader (section 7 of RFC 8259) reads back every value as it was written, quotes, backslashes and control characters included |
| `AuditListing.EncodedIsOneLine` | controller/app/audit.py:93-95 | Whatever its fields hold, an event takes one line |
| `AuditListing.ExampleLine` | controller/app/models.py:672-682 | The line of one event in full: the keys, their order, null for what is missing |
| `AuditListing.StrippedIsTheMiddle` | controller/app/audit.py:136-138 | A stripped line is its middle: all of it but the space at both ends |
| `AuditListing.FileAuditStore.AppendEvent` | controller/app/audit.py:93-99 | The event becomes the last line, or, on a log whose last line was torn, the rest of that line; no other line changes, and every so many writes the log is trimmed |
| `AuditListing.FileAuditStore.TrimLocked` | controller/app/audit.py:173-181 | Past the cap, the lines are the newest of those not blank |
| `AuditListing.TrimDropsOnlyTheOldest` | controller/app/audit.py:173-181 | What is listed after a trim is the beginning of what was listed before it; past the cap exactly the cap's number of lines stay, the last of those not blank; within it nothing changes |
| `AuditListing.NewestIsListedFirst` | controller/app/audit.py:93-163 | An event just appended is the first listed under any filter it passes, trimmed or not |
| `McpSessions.McpTransport.EvictStaleSessions` | controller/app/mcp_transport.py:711-724 | What goes is exactly: each operator's sessions with its cap's worth of its own used more recently, then of the rest those with the table's cap's worth more recent |
| `McpSessions.EvictionSettles` | controller/app/mcp_transport.py:711-724 | After every eviction no operator has over 100 sessions and the table at most 500 |
| `McpSessions.SettledStays` | controller/app/mcp_transport.py:726-729 | A table within its caps is left as it is, so the second eviction of an initialize changes nothing |
| `McpSessions.OwnerCapped` | controller/app/mcp_transport.py:715-721 | The first stage leaves each operator the smaller of what it had and its cap |
| `McpSessions.NewestStays` | controller/app/mcp_transport.py:561-565 | The most recently used session stays |
| `McpSessions.MoreRecentlyUsedStays` | controller/app/mcp_transport.py:711-724 | Of two sessions of one operator, by their own last use (their creation where never used), the earlier never outlives the later; nor does it where the later one's operator is within its cap or it has none |
| `McpSessions.BusySessionStays` | controller/app/mcp_transport.py:712-724 | A session used after every other's use and creation survives the next initialize, whenever it was created |
| `McpSessions.UsedBeforeIsNotLater` | controller/app/mcp_transport.py:796-797 | The order of an eviction is that of last use, of creation for a session never used, and of the ids between equals |
| `McpSessions.TextOrderIsByCharacter` | controller/app/mcp_transport.py:796-797 | Stamps and ids are compared at the first character in which they differ, a beginning of a text before the text |
| `McpSessions.FloodTakesOnlyItsOwn` | controller/app/mcp_transport.py:561-565 | However many sessions one operator has and initializes, nobody else loses one, if every other operator is within its cap and everybody else's sessions and one cap's worth fit in the table |
| `McpSessions.LargeFloodTakesOthers` | controller/app/mcp_transport.py:722-724 | If they do not fit, a hundred newer sessions of one operator take somebody else's |
| `McpSessions.McpTransport.LeastRecentlyUsed` | controller/app/mcp_transport.py:796-797 | The listing holds every session once, and none before one used earlier: by last use, by creation where never used, then by id |
| `McpSessions.McpTransport.Initialize` | controller/app/mcp_transport.py:555-566 | The new session takes its place, then the table is brought within its caps |
| `McpSessions.SessionOrder` | controller/app/mcp_transport.py:796-797 | That order is total: any two sessions compare, it is transitive, and equals have one id |

## Left out

- ApprovalTheorems.OneEffectPerActionApproval: does not cover several workers sharing a store, restored backups, or records written by older versions, which the catch-up's own comment excludes as well.
- ApprovalEndings.RejectionIsAppliedInTheEnd: supposes a give-back whose write is not reported as failed; where it is, the record stays executed and the source only audits the rejection as not applied.
- ApprovalEndings.WithdrawalLeavesTheEnding: the same, and within one process; a crash leaves the record executed.
- ApprovalClaims.OrderMattersExactly: takes the block's end, the give-back and the late approve without other steps between them and without a failed write.
- ApprovalClaims.WithdrawnSpentStaysSpent: speaks of one process, as the reply does; over restarts `SpentForEver` covers records under which an action started.
- ApprovalDecisions.FinalNeverChanges: speaks of one process, for the same reason.
- ApprovalClasses.EffectStarted: takes the carried holds as a sequence in context order; in `ApprovalProtocol` any hold that does not permit the effect may be the one that refuses.
- Approval receipts, notes, audit entries, webhooks, the reuse of a pending approval, kept arguments and sensitive texts: bookkeeping around the state machine. Whether an approval still has what it was asked with is a parameter of a decision.
- The asyncio runtime: await points are step boundaries, and a write its caller cannot interrupt is a write whose steps run on after the caller was cancelled.
- Unreadable records and listings that fail part of the way: a listing that fails counts as SQLite not opening.
- AgentJobRuns.CancelledJobNeverCompletes: leaves out writes that land late, after the caller of their thread was cancelled, and the write of a record that a full queue refused; either may put a status over another.
- AgentJobRuns.OutcomeStays: the same.
- CronRuns.SessionClosedExactlyOnce: counts calls of `close_session`; that call may itself fail or be cancelled, and the source then logs it and goes on.
- CronRuns.NoTaskIsLost: leaves shutdown out, which cancels workers and tasks alike; a cancel's five-second wait for the task changes nothing and is no step.
- AgentJobQueues.AgentJobQueue.ProcessNext: is a worker's turn with nothing in between; `CronRuns` interleaves its steps with operators' cancels and withdrawals.
- The schedule, webhook keys, ownership and the stored cron jobs: one-branch checks and file handling.
- WitnessBundle.SameHeadSameChain: takes the hash of a previous hash and a payload as injective; base64, JSON canonicalisation, SHA-256 and Ed25519 are not modelled.
- Witness failure messages and notes: text only.
- RetentionSweep.CleanupRoot: nothing but the sweep changes the tree while it runs, so a file written between the passes, and a link whose target the same sweep removes, are not modelled; times are integers.
- JsNumber.ReadsBack: starts from the shortest digits; that Python's repr finds them, and rounding an integer to the nearest double, are not modelled.
- The handshake, host and origin checks, and the rest of the exposure check: plumbing around the stream.
- AuditListing.ListingAgrees: takes the text split at newlines; a carriage return inside a line, which no written line holds, also ends a line for the source.
- The SQLite audit store: its filter is SQL's own.
- McpSessions.FloodTakesOnlyItsOwn: asks that every other operator is within its cap, as every initialize leaves it; in a table just loaded from a file another operator may be over its own, and the first initialize brings that one down too.
- Request handling, resources and tools of the MCP transport, the HTTP routes, the browser, sandboxes, providers, dashboard and configuration: no property of this kind.

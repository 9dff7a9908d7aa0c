# Verified model of the send and search core

The repository answers two kinds of request: it searches several providers at
once, and it sends one message through Gmail or Slack after a person has
confirmed its exact content. Sending must not happen twice, although the
workers that do it may die between any two steps, answers may be lost after
the provider has accepted the message, and operators may step in at any time.
This project models that core in Dafny and proves what it keeps.

## What is modelled

**The send protocol as one state machine.** `SendRows` and `JobRows` are the
rows of `sends` and `jobs` with every UPDATE that touches them, guards
included. `SendHandler` is the handler one commit or provider call at a time.
`SendSystem` puts any number of sends, jobs, workers, sweepers and operators
together: a step is one commit, one provider call, a crash, a lost lock, an
exception or a clock tick, and a run is any sequence of enabled steps.
`SendInvariant` and `SystemInvariant` carry the inductive invariant;
`SendSafety` states the guarantees over all runs, `SendContents` traces each
message to the read of the draft it carries, `SendHistory` and `JobHistory` read
every column of the rows off the run, `Deliveries` and `SendVerdicts` say what a
handler leaves behind and why, and `JobProgress` bounds the automatic work.
`SendScenarios`, `FailedSends` and `ForcedSends`, with the columns' invariant in
`RowShape`, show what the code does not promise, and exactly when it does.

**The same code as programs.** `SendPrograms` writes `_execute`, `run_send`,
`reconcile_send` and `_finalize_failure` as imperative methods in which every
other process may act at each `await`; each statement is a step of the machine,
so the guarantees over runs hold of this code. `JobQueue` does the same for the
job table, `OperatorWork` for the operator's two endpoints, `SendGate` for
`claim_send` and `send_draft` racing on one idempotency key, and
`SearchPrograms` for the adapter-run handler.

**The claim statement.** `JobTable` gives the batch claim its specification
(top rows in order, first of each partition) and proves that it keeps the
table's CHECKs and unique indexes.

**The probes.** `Probes` relates the Slack, Gmail and in-memory verdicts to what
was posted, and says for which page sizes Slack's ABSENT can be trusted.

**Smaller cores.** `Merge` (round-robin merge), `Base64`, `Cursors` and `Paging`
(keyset paging), `ShiftRegister`, `Crc32`, `Crc32Standard` and `ApiKeys` (checked
API keys), `Utf8`, `ErrorText` and `Digest` (text limits and the confirmation payload),
`SearchRuns` (closing a search).

## What is assumed

- A provider call is atomic: nothing lands after the call has returned, failed
  or been cancelled. Nobody deletes messages or drafts at the provider.
- Idempotency keys are globally new.
- A handler starts early enough for its deadline (120 s for a send, 30 s for an
  adapter run) to fall inside its lease (300 s, 90 s), and a finish that still
  matches `claimed_by` lands inside the lease (packages/core/config.py:33-47). So
  two claims of one run never write at the same time. `claimed_by` names a
  process, so it cannot tell two claims of one process apart.
- Single SQL statements are atomic, with the unique indexes as conditions of
  the steps that would break them. Some sequences of statements count as one step
  as well. The operator's two endpoints do: read, update and booking. Two calls
  that read before either writes are outside: the UPDATE of a retry has no state
  guard and may meet a row that has moved on, and the second of two forced resends
  books a second job (packages/core/send/service.py:455-485, 575-623). So does what
  a sweep does to one orphan after its reconciler has answered; the code commits it
  with the rest of the batch (packages/core/jobs/runtime.py:280-337). And so does
  the transaction that replaces a run's results: `search_results` has no unique
  index, and two such transactions at once would leave the rows of both.
- Slack returns every post later than `oldest` on a page shorter than the
  probe's limit, and its clock lags ours by less than 60 seconds. A Gmail draft
  lookup says whether the draft exists, and sending consumes the draft.

## Where the code and a first reading of it differ

- `failed_permanent` does not mean that nothing went out: an accepted call whose
  answer is lost and classified as permanent ends there. The row rules a message
  out exactly when it counts no dispatch attempt
  (`ForcedSends.NothingWentOutExactly`); without a forced resend of the send that is
  when it shows no dispatch (`FailedSends.FailedPermanentIsUnsentExactly`).
- A draft can be edited between the claim and the dispatch, and the edited
  content goes out (`SendScenarios.EditedDraftGoesOut`): a message is as confirmed
  exactly when the read it carries was (`SendContents.SentAsConfirmedExactly`).
- An operator's retry can leave its send in flight with no job that will ever
  run. Unlike `forced_resend`, it trusts the newest job whatever its state: a
  waiting job comes out of it only as `OperatorWork.RetrySchedulesExactly` says.
  When the newest job is running, its worker may be past the send already, because
  the handler commits the failure before the queue does
  (`OperatorWork.RetryInWindowStrands`), or may have died and left it to a sweep
  (`OperatorWork.RetryMayStrand`). What is left then depends on how the claim or the
  sweep ends (`OperatorWork.SettledClaimStrandsExactly`,
  `OperatorWork.SweepStrandsExactly`). Nothing automatic moves a stranded send
  again (`OperatorWork.StrandedForGood`).
- `finished_at` does not mean that no source will change again: a run waiting
  for its retry is `failed`, so a sibling closes the search
  (`SearchRuns.FinishedMayRunAgain`). It means so exactly when every run's job is
  over, or at its ceiling with its last claim past its search
  (`SearchRuns.StampFinalExactly`).
- Key parsing also accepts a key followed by one line feed, because `$` does
  (`ApiKeys.ParseExactly`).
- The merge shows the order of its input exactly when two different rows of one
  source tie on score and id inside the cap (`Merge.OrderInvisibleExactly`).

## Model

| member | source | states |
|---|---|---|
| SendSafety.AtMostOnce | packages/core/send/handler.py:83-172 | Over every run, the messages accepted for a send are at most one plus the forced resends; through Gmail at most one whatever anybody does. |
| SendSafety.CallsBounded | packages/core/send/handler.py:195-264 | Provider calls for one send are at most 4 + 3 per operator retry + 4 per forced resend, whatever the attempt ceiling is. |
| SendSafety.OutcomesTruthful | packages/core/send/handler.py:309-341 | A delivered row with a provider's id names a message in the ledger (the only one, without forced resends); `failed_transient` and a null `dispatched_at` mean the ledger is empty, without forced resends. |
| SendSafety.EvidenceBeforeCall | packages/core/send/handler.py:124-148 | Whenever a provider call can be made, the dispatch is already committed (unless a resend was forced after that), and Gmail is asked only for the recorded draft. |
| SendSafety.EvidenceKept | packages/core/send/handler.py:272-306 | Over any stretch of a run the ledger only grows, a recorded draft id never changes, and `dispatched_at` is cleared only by a forced resend. |
| SendSafety.NeverRedispatchedUnasked | packages/core/send/handler.py:97-110 | A send with `dispatched_at` set is dispatched again only after the same claim asked the provider and was told ABSENT. |
| SendSafety.RequeuedOnlyWhenSafe | packages/core/send/handler.py:175-187 | A sweep returns a send's job to `ready` only after its own reconciliation found no dispatch, recorded an ABSENT, or recorded an inconclusive probe with probes left. |
| SendSafety.OneHandlerPerSend | packages/core/jobs/queue.py:173-216 | In every reachable state the table's indexes hold; at most one live worker handles a send; no reconciler whose sweep holds its job is on a send that a live worker is on; and two such reconcilers are never on one send. |
| SendSafety.LateFinishIsInert | packages/core/jobs/queue.py:283-318 | A finish changes the job table only when the row still carries that very claim: running, with its worker, its attempt and its lease. |
| SendContents.SentAsConfirmedExactly | packages/core/send/handler.py:111-148 | Every message was accepted by one call and carries the draft as one earlier Prepare step read it: the calling claim's own, or, from a Gmail draft, the one that created it. So it is as confirmed exactly when that read saw the confirmed content. |
| SendContents.ConfirmedContentGoesOut | packages/core/send/handler.py:111-123 | A message carries the confirmed content when nobody edited the draft before the read for that message, whatever is edited later. |
| SendContents.AllTraced | packages/core/send/gmail.py:61-93 | In every reachable state, what a worker is about to hand over, what a provider's draft holds and what went out were each read from the draft by a step of the run. |
| SendHistory.RowIsItsHistory | packages/core/send/handler.py:267-427 | In every run each column of a send's row says what the run did: dispatches counted, probes counted since the budget was reset, the first dispatch since the last forced resend, the draft of the first dispatch, the last error noted, the state in which the last step that ended or reopened the send left it, and what recorded its delivery and when. |
| Deliveries.ReceiptIsRecorded | packages/core/send/handler.py:144-172 | A worker that got its receipt and returned has recorded the delivery: a send it found in flight is delivered under the id of that receipt, from that instant and for good, and in any case is not in flight until an operator reopens it. |
| Deliveries.ReturnedIsDealt | packages/core/send/handler.py:83-172 | A handler that returns leaves its send out of flight, unless a person forced another dispatch in the meantime. |
| Deliveries.DeliveredOnEveryChannel | packages/core/send/handler.py:144-153 | On Gmail, Slack and the in-memory channel some run ends with one message in the ledger and the row delivered under its id. |
| SendVerdicts.ConclusionsRest | packages/core/send/handler.py:195-264 | In every reachable state what a handler or a reconciler is about to do rests on what it last found: adopting on the very id the provider gave, preparing and calling on a row without a dispatch or a denial, `failed_transient` on the same grounds, parking on three unclear probes, a used-up budget, a missing draft or a message without a name, and a sweep's requeue on a clear finding or fewer than three unclear probes. |
| SendVerdicts.EndsAsItFailed | packages/core/send/handler.py:430-482 | A handler returns exactly when nothing went wrong in it, and otherwise raises the class of the last thing that did. |
| SendVerdicts.EndedIsDealt | packages/core/send/handler.py:175-187 | A reconciler that reports a send as settled, and a handler that ends, leave it out of flight or waiting for a forced dispatch, unless the handler noted a transient error below its ceiling or could not learn what became of an earlier dispatch. |
| SendVerdicts.GoodFailureTidies | packages/core/send/handler.py:470-482 | A handler that fails for good after a call from a draft asks for that very draft to be discarded before it ends, and if it is answered the draft is gone; one that ends without asking had called from no draft. |
| JobHistory.JobIsItsHistory | packages/core/jobs/queue.py:173-330 | In every run a job's row says how often it was claimed, when first, when and by whom last, and what its last event (claim, end, delay, requeue, parking, resumption) made of its state, lease and end. |
| JobHistory.StepWrites | packages/core/jobs/queue.py:275-498 | Each step writes to a job's row exactly the columns of the event it is for that job, with the delays, instants, ceilings and errors that belong to it. |
| JobHistory.DeadlineInsideLease | packages/core/config.py:33-47 | A handler that begins has 120 seconds for a send and 30 for a run, inside its claim's lease. |
| SendSafety.TalliesCount | packages/core/send/handler.py:413-427 | The counters beside a send count the calls, the accepted ones, operator retries and forced resends of the run itself. |
| SystemInvariant.ReachableInv | packages/core/migrations/versions/0002_core_schema.py:190-200 | The global invariant, with the CHECKs and unique indexes, holds in every state any run reaches. |
| SystemInvariant.StepKeeps | packages/core/jobs/runtime.py:195-337 | Every step, of API, worker, sweeper, operator or environment, keeps the global invariant. |
| SystemInvariant.LiveWorkersExclusive | packages/core/migrations/versions/0002_core_schema.py:243-247 | Two live workers with running jobs of one partition are the same worker. |
| SendInvariant.WorkerStepKeepsCell | packages/core/send/handler.py:83-172 | A live worker's statement keeps the invariant of its send: ledger, counters, draft token, row CHECKs. |
| SendInvariant.WorkerStepKeepsPoint | packages/core/send/handler.py:430-482 | The statement leaves the worker knowing what its next one needs: that a reconcile was paid for, that nothing went out in this era. |
| SendInvariant.SweeperStepKeeps | packages/core/send/handler.py:195-264 | A reconciler's statement keeps the invariant and everything workers and other reconcilers know, even after it lost its lock. |
| SendInvariant.OperatorKeeps | packages/core/send/service.py:418-629 | An operator may act between any two statements of a worker without breaking what anybody knows. |
| SendInvariant.MessagesBounded | packages/core/send/gmail.py:61-93 | The invariant bounds the ledger by one message per era, and by one through Gmail. |
| SendInvariant.RowTruthful | packages/core/send/handler.py:309-410 | The invariant makes the row's terminal states true of the ledger. |
| FailedSends.FailedPermanentIsUnsentExactly | packages/core/send/handler.py:430-482 | For any number of sends and any row that a run without a forced resend of its send leaves `failed_permanent`: over such runs it is certain that nothing went out exactly when the row's `dispatched_at` is null. For every such row with a dispatch, another such run ends with the same row and a message out; exactly the same when it was dispatched more than one lease after the clock began, and with the dispatch moved later by the clock otherwise. |
| FailedSends.GoesOut | packages/core/send/handler.py:366-410 | Any number of dispatches, any number of probes on the row (at least one after a redispatch), any error class but transient, with or without a Gmail draft, at any instant after one lease: a run ends with that `failed_permanent` row and one message in the ledger. |
| ForcedSends.NothingWentOutExactly | packages/core/send/handler.py:272-306 | For any row that any run leaves `failed_permanent`, forced resends included: it is certain over all runs that nothing went out exactly when the row counts no dispatch attempt. For every such row with attempts, some run ends with it and a message out (a dispatch on the row as above). |
| ForcedSends.GoesOutCleared | packages/core/send/service.py:575-592 | A run ends with any such row without a `dispatched_at` and a message out: the resend was forced while the call was being made. |
| ForcedSends.GoesOutBefore | packages/core/send/service.py:575-592 | A run ends with any such row of two or more dispatches, the last refused, and the message of an earlier one out. |
| RowShape.AllShapely | packages/core/send/handler.py:267-410 | In every reachable state a `failed_permanent` row has an error that is not transient, a delivery time means delivered, the attempts are zero exactly while nothing was ever dispatched, and, without a forced resend, a redispatched `failed_permanent` row was probed; a live worker between loading a row and recording its failure is on a row that has not failed. |
| SendScenarios.FailedPermanentMayHaveGoneOut | packages/core/send/handler.py:453-482 | A run ends with a `failed_permanent` row and a message in the ledger. |
| SendScenarios.EditedDraftGoesOut | packages/core/send/service.py:180-234 | A run sends content that nobody confirmed, by an edit between claim and dispatch. |
| JobProgress.AutomaticWorkTerminates | packages/core/jobs/queue.py:328-392 | Without API steps, at most 2·Σ(attempts left) + running job transitions can follow any reachable state. |
| JobProgress.AutomaticStepUsesWork | packages/core/jobs/queue.py:425-458 | Every automatic step leaves the job table alone or strictly lowers that measure. |
| JobTable.ClaimTakesPartitionLeaders | packages/core/jobs/queue.py:173-216 | At most `limit` rows are claimed; a claimed row is the first of its partition among all rows the claim could see; each of the top rows is claimed or another row of its partition is; something is claimed when anything can be. |
| JobTable.CandidatesAreTopRows | packages/core/jobs/queue.py:173-216 | The candidate stage is exactly the first `limit` eligible rows by (priority desc, run_at, id). |
| JobTable.CandidatesInOrder | packages/core/jobs/queue.py:184-190 | Column by column: the higher priority first, then the one due earlier, then the older; and every eligible row left out by the limit comes later in that order. |
| JobTable.ClaimKeepsTable | packages/core/migrations/versions/0002_core_schema.py:228-254 | The claim statement keeps both CHECKs and both unique indexes, and changes only the picked rows. |
| JobTable.EnqueueKeepsTable | packages/core/jobs/queue.py:126-170 | An insert that skips conflicting dedupe keys keeps the table's constraints. |
| JobTable.LatestJob | packages/core/send/service.py:471-476 | The job an operator action resumes is the send's newest. |
| JobQueue.Queue.Enqueue | packages/core/jobs/queue.py:126-170 | The table gains exactly the new row, ready and unclaimed with the columns given, or nothing when a ready or running row has the dedupe key. |
| JobQueue.Queue.Claim | packages/core/jobs/queue.py:219-270 | At most `limit` rows come out running, leased to this worker (a send for the send lease, a run for the other) with one more attempt, never above their ceiling; every other row is as it was; the rows are the leaders of their partitions and each top candidate's partition has one. |
| JobQueue.Queue.Succeed | packages/core/jobs/queue.py:283-318 | Compare-and-swap: applied exactly when the row is running under this worker. |
| JobQueue.Queue.Fail | packages/core/jobs/queue.py:328-392 | The retry ladder: ready below the ceiling, parked at it, failed for other classes; applied exactly when the row is still owned; and a row put back can be claimed exactly from the end of its delay on, if its partition is free. |
| JobQueue.Queue.Move | packages/core/jobs/queue.py:445-487 | Requeue, park and resolve change one row if it is running and report that; a row that is not running is left alone, which is reported too. |
| JobQueue.Queue.OperatorRetry | packages/core/jobs/queue.py:496-515 | A parked or failed job resumes with its attempts kept and a ceiling above them; any other row is untouched and reported; resuming raises, changing nothing, exactly when a live row has the dedupe key. |
| JobQueue.Queue.Sweep | packages/core/jobs/runtime.py:258-337 | Each orphan selected meets exactly the fate its policy and its reconciler give it, no other row changes, and the report counts the orphans by the state they are in afterwards: ready, parked, succeeded, and the sends a reconciler answered for. |
| JobQueue.Queue.Decide | packages/core/jobs/runtime.py:285-330 | The branches of the sweep route an orphan as `Route` says and count a reconciler only when it answered. |
| JobQueue.Queue.SettleAll | packages/core/jobs/runtime.py:280-337 | The loop leaves the table in which every orphan met its fate, and a report that counts them by the state they are in. |
| JobQueue.Stale | packages/core/jobs/queue.py:399-442 | The selection is distinct expired rows, oldest leases first, at most `limit`. |
| JobQueue.FatesPartition | packages/core/jobs/runtime.py:105-123 | The three fates partition the orphans. |
| JobQueue.DisposalMeaning | packages/core/jobs/recovery.py:25-35 | A disposed orphan keeps its attempts and stops running; it is ready again exactly when retrying is read-only and below the ceiling, or its reconciler said so. |
| JobQueue.SweptEach | packages/core/jobs/runtime.py:280-337 | After a sweep each orphan is its own disposal and every other row is unchanged. |
| SendPrograms.Deployment.RunSend | packages/core/send/handler.py:83-172 | Under any interference `run_send` takes only steps of the machine, ends as its job will settle, leaves a send it returns from out of flight unless a resend was forced, and no send exceeds its message bound. |
| SendPrograms.Deployment.Execute | packages/core/jobs/runtime.py:195-255 | A claimed send is handled under its deadline and then finished by its own claim; reported complete, its job has succeeded. |
| SendPrograms.Deployment.RecordEnd | packages/core/jobs/runtime.py:222-255 | The report is completed exactly when the handler returned and its claim still owns the row, lost when it returned too late, and otherwise the rung of the failure ladder; an owned row ends in the state the report names, and no other row changes. |
| SendPrograms.Deployment.ReconcileSend | packages/core/send/handler.py:195-264 | The verdict returned is the one the caller's next program point acts on. |
| SendPrograms.Deployment.AskProvider | packages/core/send/handler.py:222-264 | Probe, then adopt, clear, ask again or park, each recorded before the verdict is returned. |
| SendPrograms.Deployment.GiveUp | packages/core/send/handler.py:457-463 | At the ceiling the send is reconciled before it may be called failed, and the transient error is raised again. |
| SendPrograms.Deployment.FinalizeFailure | packages/core/send/handler.py:430-482 | The failure ladder ends by raising the error's own class again. |
| SendPrograms.Deployment.Dispatch | packages/core/send/handler.py:97-123 | Loading, reconciling when there is evidence, then transmitting, ends at the point where the job settles. |
| SendPrograms.Deployment.Transmit | packages/core/send/handler.py:124-148 | Prepare, commit the evidence, and only then call. |
| SendPrograms.Deployment.CallProvider | packages/core/send/handler.py:144-172 | The call, and delivery or the failure ladder after it; when it returns, its own call was accepted and its last statement recorded the delivery under that id, unless it found the send ended. |
| SendPrograms.Deployment.MarkDelivered | packages/core/send/handler.py:309-341 | After a receipt the row shows the delivery under its id, or had been ended by somebody else. |
| OperatorWork.OperatorRetry | packages/core/send/service.py:418-489 | Replies by the row's state and refuses an uncertain send; a failed one takes exactly the machine's retry step. |
| OperatorWork.ResolveSend | packages/core/send/service.py:510-629 | Refuses unknown resolutions and sends not in doubt; otherwise takes exactly the attesting or the resending step. |
| OperatorWork.ResendSchedules | packages/core/send/service.py:593-623 | A forced resend always leaves its send with a job that a claim can take, ready and below its ceiling, and with `dispatched_at` cleared. |
| OperatorWork.RetrySchedulesExactly | packages/core/send/service.py:455-485 | A retry leaves its send with a job that a claim can take exactly when there was one, or the newest job is parked or failed, or there never was one. A running job is not counted. |
| OperatorWork.WorkerOnFailedSend | packages/core/send/handler.py:465-482 | A live worker on a send that shows failed has yet to load its row, and will then handle the retried send, or has done with it: it is discarding the draft after an error that is not transient, or has settled. |
| OperatorWork.SettledClaimStrandsExactly | packages/core/jobs/runtime.py:208-249 | When a settled claim is all a send has, its finish leaves a job that a claim can take exactly when it ends in a transient error below its ceiling; a send in flight is stranded exactly when not. |
| OperatorWork.SweepStrandsExactly | packages/core/jobs/runtime.py:311-335 | When a sweep's decided orphan is all a send has, its end leaves such a job exactly when the verdict is safe to dispatch and the job is below its ceiling; a send in flight is stranded exactly when not. |
| OperatorWork.RetryInWindowStrands | packages/core/send/service.py:455-485 | A run without a crash or a sweep in which the retry falls between the handler's record of the failure and the queue's: one job is running, and when its claim finishes the send is stranded. |
| OperatorWork.RetryMayStrand | packages/core/send/service.py:455-485 | A run ends with a send in flight, no job running or claimable for it and nobody on it. |
| OperatorWork.StrandedForGood | packages/core/jobs/queue.py:173-216 | From any state with a send in flight, no job of it running or below its ceiling, and nobody on it, no worker, sweeper, crash or clock tick changes the send. |
| SendGate.OneWinnerOneJob | packages/core/send/claim.py:87-134 | For any number of racing calls, each committed row has exactly one winner and one initial job; every other reply is that row, or a refusal on different content. |
| SendGate.ReachableInv | packages/core/send/service.py:281-357 | The gate's invariant holds after any interleaving of calls, edits, failures and erasures. |
| SendGate.RepliesJustified | packages/core/send/service.py:305-357 | A call gets a new row only for the content it confirmed, when that was the draft as it read it and it found no row; it is refused as changed only when it found no row and read other content; it is replayed or refused for another body only when it was shown such a row; and it gives up only after three inserts. |
| SendGate.Api.ClaimSend | packages/core/send/claim.py:87-134 | The bounded insert-or-read loop ends where the machine's call is. |
| SendGate.Api.SendDraft | packages/core/send/service.py:281-373 | Whatever happens meanwhile, the reply is the machine's and is justified by what the call read over its history, and winners equal jobs. |
| SendGate.Api.Decide | packages/core/send/service.py:305-373 | The checks before the claim refuse, replay or claim as the machine's call does. |
| Probes.SlackAbsentIsUnsent | packages/core/send/slack.py:90-201 | On a page that is not full, with bounded skew, ABSENT means nothing was posted at or after the first dispatch. |
| Probes.AbsentTrustworthyExactly | packages/core/send/slack.py:55-97 | ABSENT can be believed for every channel exactly when the page is shorter than 100. |
| Probes.SlackVerdictMeaning | packages/core/send/slack.py:101-160 | ABSENT and FOUND mean the key is on no post, or on the reported post, of the page. |
| Probes.GmailVerdictMeaning | packages/core/send/gmail.py:95-133 | Gmail denies exactly when the recorded draft is still there, says found, without a name, exactly when it is gone, and is unclear exactly without a draft or an answer. |
| Probes.FakeVerdictMeaning | packages/core/send/providers.py:283-302 | The in-memory client names the first message it took, denies exactly when it took none, and is unclear exactly when told to be. |
| Probes.FirstMatch | packages/core/send/slack.py:120-160 | The match found carries the key, and one is found exactly when a post does. |
| Merge.EachSourceInOrder | packages/core/adapters/merge.py:118-148 | The merge gives up exactly each source's `cap` best rows, by (score desc, id), in that order. |
| Merge.SourceRowsInOrder | packages/core/adapters/merge.py:132-133 | Of one source the merge gives the higher score first, and of one score the id that comes first. |
| Merge.CapHolds | packages/core/adapters/merge.py:118-133 | No source gives more rows than the cap, ten by default. |
| Merge.EveryPrefixFair | packages/core/adapters/merge.py:134-148 | In every prefix, no source with rows left is more than one row behind another, and the one ahead has the stronger row at that place. |
| Merge.StrongestRowLeads | packages/core/adapters/merge.py:121-129 | The first row has the highest score; of the rows with that score it has the source that comes first, and of that source the id that comes first. |
| Merge.InputOrderInvisible | packages/core/adapters/merge.py:126-129 | Any permutation of the input gives the same merge, if different rows of one source that tie on (score, id) all lie beyond the cap. |
| Merge.OrderInvisibleExactly | packages/core/adapters/merge.py:126-133 | For every input and cap: all permutations of the input merge alike exactly when no two rows of one source that differ in anything (rank, title or any other part of the result) tie on (score, id) at a place inside the cap. |
| Merge.Merge | packages/core/adapters/merge.py:118-148 | Bucketing, sorting, cutting and the popping loop compute the specified merge. |
| Merge.Drain | packages/core/adapters/merge.py:136-147 | The while loop ends with exactly the rounds that were left. |
| Merge.HandOver | packages/core/adapters/merge.py:140-147 | One pass appends the sorted heads and pops each source once. |
| Merge.SortAndCut | packages/core/adapters/merge.py:130-133 | Every bucket becomes its source's best rows. |
| Merge.Bucket | packages/core/adapters/merge.py:130-132 | The buckets are the sources in order of first appearance, each with its rows in input order. |
| Ordering.SortSorts | packages/core/adapters/merge.py:132-145 | The sort is ordered by (score desc, name) and a permutation of its input. |
| Ordering.KeyLeMeans | packages/core/adapters/merge.py:132-145 | The sort key's order is the higher score first and then the name that comes first: the one with the smaller character where they part, or the one that ends there. |
| Ordering.SortPermute | packages/core/adapters/merge.py:126-133 | With distinct keys the sorted result does not depend on the input order. |
| ApiKeys.ParseExactly | packages/core/security/api_keys.py:36-86 | A text is accepted exactly when it is a well-formed key with its checksum, or such a key and one line feed; the id returned is the key's. |
| ApiKeys.MintParses | packages/core/security/api_keys.py:60-71 | Every minted key gives back its own id. |
| ApiKeys.DamageRefused | packages/core/security/api_keys.py:74-86 | A key changed within four neighbouring characters, all in its body or all in its checksum, is refused. |
| ApiKeys.WrongCharacterRefused | packages/core/security/api_keys.py:74-86 | A key with any one character replaced is refused. |
| ApiKeys.TranspositionRefused | packages/core/security/api_keys.py:74-86 | A key with two different neighbours swapped anywhere is refused, also across the start of the checksum. |
| ApiKeys.BoundarySwapRefused | packages/core/security/api_keys.py:74-86 | So is the swap of the last character of the body and the first of the checksum, which changes both sides of the comparison. |
| ApiKeys.HexInjective | packages/core/security/api_keys.py:97-98 | The eight hexadecimal digits determine the checksum. |
| ApiKeys.ChecksumIsStandard | packages/core/security/api_keys.py:97-98 | The checksum of a text is eight lower-case hexadecimal digits that read, most significant first, as the standard CRC-32 of its characters' codes. |
| Crc32.WindowChangesCrc | packages/core/security/api_keys.py:97-98 | Texts of any length that differ within four neighbouring bytes only have different CRC-32s. |
| Crc32.LastByteShowsLow | packages/core/security/api_keys.py:97-98 | Texts that differ in the last byte only have CRC-32s that differ in the low 28 bits. |
| Crc32.RegisterLawful | packages/core/security/api_keys.py:97-98 | The CRC-32 update is injective in the state, and four bytes from one state can be told from any other four. |
| Crc32Standard.CrcIsStandard | packages/core/security/api_keys.py:97-98 | For every text the checksum is the standard CRC-32: long division by 0x04C11DB7, leading bit first, over reversed bytes, complemented at both ends and read in reverse. |
| Crc32Standard.CheckValue | packages/core/security/api_keys.py:97-98 | The checksum of the ASCII digits 1 to 9 is 0xCBF43926. |
| ShiftRegister.WindowShows | packages/core/security/api_keys.py:97-98 | The same for any linear shift register with those laws. |
| ShiftRegister.FourBytes | packages/core/security/api_keys.py:97-98 | Feeding four bytes one by one is adding them at their four places and shifting them through. |
| ShiftRegister.FoldInjective | packages/core/security/api_keys.py:97-98 | States that differ before a text differ after it. |
| Base64.RoundTrip | apps/api/paging.py:45-62 | Unpadded base64url comes back through the lenient decoder, for every byte string. |
| Base64.EncodeShape | packages/core/security/api_keys.py:56-57 | n bytes give (4n + 2) / 3 symbols of the URL alphabet. |
| Base64.GroupsAreBits | apps/api/paging.py:45-47 | Three bytes and their four symbols are the same 24 bits, the leading ones first; a shorter last group is filled up with zeros and its empty symbols left out. |
| Base64.TestVectors | packages/core/security/api_keys.py:56-57 | A test vector of RFC 4648, section 10, and one for the two symbols of the URL alphabet. |
| Base64.ScanOrdinary | apps/api/paging.py:58-59 | The decoder reads the ordinary alphabet as it reads the URL one. |
| Cursors.RoundTrip | apps/api/paging.py:45-62 | Every cursor comes back from its text. |
| Cursors.IsoRoundTrip | apps/api/paging.py:50-60 | A stamp comes back from its ISO text, with and without a fraction. |
| Cursors.IdRoundTrip | apps/api/paging.py:50-60 | A row id comes back from its hyphenated text. |
| Cursors.IsoText | apps/api/paging.py:45-47 | A stamp's text is date, `T`, time, a fraction where there is one, and the offset, with their separators. |
| Cursors.HyphensAt | apps/api/paging.py:45-47 | An id's text has its hyphens after 8, 12, 16 and 20 digits. |
| Cursors.BarBetween | apps/api/paging.py:45-47 | A cursor's text is the stamp, a bar and the id. |
| Cursors.DigitsAreLower | apps/api/paging.py:45-47 | Digits above nine are lower-case letters. |
| Cursors.NeverEmpty | apps/api/routes_v1.py:980 | No cursor's text is the empty one, which the route takes for none. |
| Cursors.InstantOrders | packages/core/send/service.py:676-703 | Stamps compare as their fields do, most significant first. |
| Paging.WalkReadsListing | packages/core/send/service.py:662-703 | After n requests the reader holds exactly the first n·limit rows that lay ahead, in order and once each, whatever was added above; and knows of no next page exactly when those are all. |
| Paging.WalkFromTheTop | apps/api/paging.py:65-86 | Enough requests from the first page read the whole listing of that moment and end. |
| Paging.NullCursorAtEnd | apps/api/paging.py:65-86 | A page has no cursor exactly when nothing lies beyond it; otherwise the cursor leads to exactly the rest. |
| Paging.CursorsSound | apps/api/paging.py:45-62 | The cursor codec has the round trip the walk needs. |
| Paging.NewerMeans | packages/core/send/service.py:676-703 | The listing's order is by creation time, field by field, and at one instant by id, the larger first. |
| Paging.AddedAboveInvisible | apps/api/paging.py:6-11 | Rows added above a position do not change what lies below it. |
| Paging.WalkStaysSane | packages/core/send/service.py:676-703 | While rows appear and disappear anywhere between requests, a walk still reads in strictly descending order, repeats nothing, and misses no row that was there at every request, once it has passed its place. |
| Digest.HashedTellsContents | packages/core/send/digest.py:24-52 | Two contents hash the same bytes exactly when they are equal, a missing subject counting as an empty one. |
| Digest.ReadsPayload | packages/core/send/digest.py:45-51 | A reader inverts the length-prefixed payload, for every list of byte strings. |
| Digest.PayloadFields | packages/core/send/digest.py:45-51 | A reader finds the UTF-8 of the channel, the recipient, the resolved name, the subject or nothing, and the body, in this order. |
| Digest.PayloadExample | packages/core/send/digest.py:45-51 | The bytes `2:hi0:` for the parts `hi` and the empty one. |
| Utf8.DecodePrefix | packages/core/jobs/queue.py:529-538 | The first n bytes of an encoding decode to exactly the code points that fit into them whole. |
| Utf8.RoundTrip | packages/core/send/digest.py:45-51 | Encodable text comes back from its UTF-8. |
| Utf8.HeadIsEncoding | packages/core/jobs/queue.py:529-538 | What the decoder takes for a code point is that code point's own encoding: no longer than it need be, no surrogate, nothing beyond the last. |
| Utf8.EncodeRefusesSurrogates | packages/core/send/digest.py:45-51 | Encoding fails exactly on text with a code point from U+D800 to U+DFFF. |
| ErrorText.CappedIsLongestPrefix | packages/core/jobs/queue.py:529-538 | The capped text is the prefix of k code points exactly when k is the most that fit the limit. |
| ErrorText.CappedFits | packages/core/jobs/queue.py:529-538 | What is stored fits into 16 KiB, and text that fits is stored whole. |
| ErrorText.CappedFailsOnSurrogates | packages/core/jobs/queue.py:529-538 | It raises exactly on text with a surrogate. |
| SearchRuns.LastCloserFinishes | packages/core/adapters/orchestrator.py:289-323 | Once every run has ended and been followed by its own closing step, in any interleaving, the search is finished. |
| SearchRuns.StampedOnceWhenQuiet | packages/core/adapters/orchestrator.py:302-323 | `finished_at` is stamped once, by a closing step, when no run is pending or running. |
| SearchRuns.OutstandingWasRestarted | packages/core/jobs/handlers.py:108-144 | A run outstanding in a finished search was started again after the stamp, and its status not written since. |
| SearchRuns.StampFinalExactly | packages/core/adapters/orchestrator.py:289-323 | In any reachable state: no continuation changes the status, the count or the rows of any run exactly when every run's job is over, or at its ceiling with its last claim past its search, so that none can be started and none is being searched. |
| SearchRuns.ReopensExactly | packages/core/jobs/handlers.py:108-170 | With no run outstanding, some continuation makes one outstanding again exactly when some continuation changes a source at all. |
| SearchRuns.FinalForGood | packages/core/adapters/orchestrator.py:289-323 | From such a state on, every continuation stays such a state, and no run's status, count or rows change. |
| SearchRuns.FinishedMayRunAgain | packages/core/jobs/handlers.py:137-170 | A run of the system ends finished and quiet and may yet make a run outstanding again: its sibling closed the search while it waited for its retry. |
| SearchRuns.CountIsStoredRows | packages/core/adapters/orchestrator.py:226-286 | A run's stored rows are its last success's, once each however often it was rerun, and `result_count` is their number; that success is one transaction, between whose statements no other claim of the run commits. |
| SearchRuns.StatusIsLastWrite | packages/core/jobs/handlers.py:108-170 | A run's status is what its last commit recorded: pending before any, running, done, `needs_reconnect` exactly for an expired grant, failed for any other error. |
| SearchRuns.KeptIsNormalized | packages/core/adapters/orchestrator.py:212-220 | What could be normalized is kept, in order, and nothing else. |
| SearchRuns.FailureClosesExactly | packages/core/jobs/handlers.py:137-170 | A failed claim closes the search exactly when its job will not be tried again (a transient error below the ceiling is), and its job then waits or is over accordingly. |
| SearchRuns.SuccessEndsJob | packages/core/jobs/handlers.py:54-105 | A claim that succeeds and closes leaves its job over. |
| SearchRuns.WaitingIsClaimable | packages/core/jobs/runtime.py:280-297 | No run's job waits at its attempt ceiling. |
| SearchRuns.NoWriterBetween | packages/core/adapters/orchestrator.py:226-286 | A claim that is in time at two moments is the only one of its run that commits anything in between. |
| SearchPrograms.Deployment.RunAdapter | packages/core/jobs/handlers.py:54-105 | A handler that gets through has recorded how its search ended, with the status that belongs to it, and has closed the search behind itself unless the error may pass and its job is below its ceiling. |
| SearchPrograms.Deployment.StoreResults | packages/core/adapters/orchestrator.py:210-286 | Normalizing, deleting, inserting and the status update, one transaction inside the claim's lease, have that effect on the rows and the run. |
| SearchPrograms.Deployment.CloseIfComplete | packages/core/adapters/orchestrator.py:289-323 | The conditional update stamps exactly when no run is outstanding. |

## Left out

- HTTP clients, OAuth, token encryption, redaction, web framework wiring, the console: input and output, foreign cryptography, display.
- Classification of exceptions and backoff delays: any class and any delay.
- Eventual settlement of `in_flight` sends: the code does not give it. A sweep can requeue a send at its attempt ceiling, where no claim takes it, and an inconclusive probe or a deadline at the ceiling parks the job with the send unsettled.
- Fencing between two claims of one process: covered by the lease assumption only.
- Slack beyond one history page: the probe does not read further pages.
- The text of error details, notes and timestamps other than those the protocol reads.
- A draft deleted between claim and dispatch is modelled as the exception it raises.
- The batch loop and counters of `run_once`, the inline loop and the ledger file of the in-memory provider: bookkeeping around the modelled steps.
- `recency_weight` and `blended_score`: floating-point formulas; a score is any real number here, so no NaN and no rounding.
- Merge.Merge: a negative cap, which Python reads as "all but the last", is outside the parameter's type here; no caller passes one.
- ApiKeys.MintParses: hashing of the minted key and its display form are not modelled.
- Cursors.RoundTrip: the decoder here accepts the text forms the encoder writes; Python also accepts other ISO and UUID spellings, which no cursor of ours has, and knows the length of each month.
- Paging.WalkReadsListing: is about rows added above only (`Paging.WalkStaysSane` allows any change); the extra columns of a row are not modelled.
- Digest.HashedTellsContents: SHA-256 itself is not modelled; the statement is about the bytes it hashes.
- SearchRuns.LastCloserFinishes: says nothing of a run whose handlers all died before closing; such a search stays open until its job is handled again.
- SearchPrograms.Deployment.RunAdapter: the adapter, its deadline and the connection bookkeeping are any answer, any exception or no return.
- OperatorWork.ResolveSend: the audit row in `send_resolutions` and the reply's payload are not modelled.
- JobQueue.Queue.Sweep: reconcilers answer one job at a time and are given as a function; their own steps are those of `SendSystem`.

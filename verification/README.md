# PetAd: verified model of the event ledger, the adoption and custody workflow, and replay

PetAd lets users adopt pets or take them into temporary custody against a deposit held in
escrow. Every change of an adoption, a custody, an escrow or a user's trust score is meant to
leave an event, and administrators can replay an aggregate's events and write the result back.
This project models that core in Dafny and proves what it guarantees.

* **The event ledger** (`Ledger`, `LedgerScheduling`, `LedgerService`): any number of
  interleaved transactions that begin, take the advisory lock of a hashed aggregate id, read the
  highest committed sequence number, insert, and commit or abort. The hash is an arbitrary
  function, so lock keys may collide. Proved: sequence numbers per aggregate are exactly 1..n;
  concurrent runs refine an atomic sequential ledger; steps under different keys commute; nothing
  deadlocks and all work can finish; the gap check is exact on arbitrary stored values.
* **The workflow** (`Workflow`, `Services`, `WorkflowInvariant` to `WorkflowWitnesses`): pets,
  adoptions, custodies, escrows, users and the event log as one database. `Services` holds the
  calls in imperative form; each is proved equal to a function in `Workflow`, which keeps the
  difference between writes that wait for the end of a call's transaction and writes that go
  through the root client at once. Proved over every run, without conditions: references and escrow
  ownership, deposits backed by escrows, custody closings all or nothing, at most one open adoption
  per pet, exact custody histories, scores within bounds and chained, a bound on status changes,
  and a balance of custody money that accounts for every payment made twice. What needs care by
  callers is stated per row as a promise, with the exact condition under which a run keeps it, and
  with concrete runs that break it. `WorkflowAnswers` says of each call when it succeeds, how it
  fails otherwise and what it leaves.
* **Replay** (`Reducers`, `ReplayService`, `ReplayAnswers`, `ReplayTheorems`, `Lifecycle`,
  `StrictProxy`): the replay service, the merging replay of the events service, the stand-alone
  reducers and the read-only proxy.
* **Derived views** (`Availability`, `Paging`).

Identifiers come from one counter, so that no two rows of any tables share one. Amounts are whole
hundredths, as the `Decimal(12, 2)` columns store them. Trust scores are real numbers. Foreign keys
are modelled: inserting a row or event that refers to a missing user fails. A run is any sequence
of calls of the adoption, custody and escrow services and of `updateTrustScore`, with any
arguments, and of changes made elsewhere (registering users and pets, activating a custody, tying a
free escrow to an adoption, funding an escrow), one after the other. Four promises about single
rows do not survive every run, and `WorkflowPromises` proves for each that a run keeps it in all
its states if and only if no step does the one thing that breaks it:

* an adoption's status and its events: an update of its status by an actor who is no user;
* a custody's status and its escrow: a release or refund of that escrow by anyone but the custody
  service;
* an escrow's status and its events: a release that throws after it was logged, while the escrow is
  not released;
* a user's score and the custodies that earned it: a direct change of that score.

Where the code falls short of what its comments and names suggest, the model follows the code and
states exactly when the promise holds:

* In every reachable state a call that throws changes nothing, with two exceptions: a status update
  that cannot log its event, and the release of an escrow whose adoption is not funded. Completing
  an adoption over HTTP passes no actor at all; that event is logged without one.
* A closing of a custody, taken in an arbitrary state, is torn exactly when its deposit cannot be
  settled; in reachable states that never happens.
* The escrow service never looks at an escrow's status. Any escrow is settled at most once exactly
  when each settling call finds it held; an adoption's escrow is released at most once, but may be
  refunded before, and then the money leaves twice.
* The deposit handling passed to `cancelCustody` is recorded but has no effect: deposits are
  always refunded.
* Repeating an applied replay finds nothing more, except for users: the score events the code
  writes carry deltas, replay adds them to a row that already contains them, and so a user replay
  agrees with the row exactly when the deltas sum to (almost) zero and otherwise adds them again
  each time.
* A custody's replay disagrees with its row exactly while it is active, an adoption's exactly when
  its last status change logged no event. Any escrow's disagrees exactly when its log ends in a
  release that was not done; a live replay then marks money as released that never was. The
  stand-alone custody reducer agrees exactly on active and cancelled custodies.
* `verifyAvailability` always replays a pet to AVAILABLE, because adoptions and custodies log
  under their own identifiers.
* The read-only proxy protects exactly against writes reached under one of its listed names.

## Model

| member | source | states |
|---|---|---|
| Ledger.LatestSequenceIsHighest | src/events/event-ledger.service.ts:63-73 | the descending first-row query yields the highest stored number of the aggregate, or nothing exactly when it has no row |
| Ledger.StepKeepsInv | src/events/event-ledger.service.ts:57-91 | every step of every transaction keeps numbering, the lock table, and the truth of what each transaction has read |
| Ledger.OneHolderPerAggregate | src/events/event-ledger.service.ts:58-60 | two transactions holding the lock for one aggregate are the same transaction |
| Ledger.SequencesAreGapless | src/events/event-ledger.service.ts:51-92 | after any interleaving with aborts and colliding lock keys an aggregate's committed numbers are 1..n in commit order |
| Ledger.PeekNeverAboveLaterAllocation | src/events/event-ledger.service.ts:21-49 | a number from getNextSequenceNumber is never above one a later commit of that aggregate stores |
| Ledger.CommitHandsOut | src/events/event-ledger.service.ts:28-92 | a committed peek was handed one more than its aggregate's rows at its commit, a committed append the number of the row it added |
| Ledger.AbortLeavesRows | src/events/event-ledger.service.ts:57-91 | an unfinished transaction can abort at any point, which frees its lock and leaves the committed rows alone |
| Ledger.RunRefinesSequentialLedger | src/events/event-ledger.service.ts:57-91 | a concurrent run leaves the rows that atomic appends in commit order leave |
| Ledger.StreamDependsOnOwnWriters | src/events/event-ledger.service.ts:24-26 | an aggregate's stream is its own writers' drafts in commit order, numbered from one |
| LedgerScheduling.StepRespectsEquivalence | src/events/event-ledger.service.ts:57-91 | states with the same transactions, locks and per-aggregate streams allow the same steps and stay so |
| LedgerScheduling.IndependentStepsCommute | src/events/event-ledger.service.ts:24-26 | steps under different lock keys commute up to the interleaving of streams |
| LedgerScheduling.SwapInSchedule | src/events/event-ledger.service.ts:24-26 | swapping two such steps anywhere in a schedule keeps it valid and changes no stream |
| LedgerScheduling.SchedulesAreBounded | src/events/event-ledger.service.ts:57-91 | without new transactions a schedule is no longer than the work it uses up |
| LedgerScheduling.SomeTransactionCanMove | src/events/event-ledger.service.ts:57-60 | no deadlock: while one transaction is unfinished some transaction has its next step enabled |
| LedgerScheduling.AllCanFinish | src/events/event-ledger.service.ts:57-91 | from any reachable state some abort-free schedule finishes every transaction |
| LedgerService.FindGaps | src/events/event-ledger.service.ts:112-129 | on any stored values the report is increasing and holds exactly the missing numbers from 1 to the highest, as many as the highest minus the distinct ones stored |
| LedgerService.ReportOfRows | src/events/event-ledger.service.ts:98-130 | on any rows a correct report about an aggregate is increasing and holds exactly the numbers from one up that none of its rows stores although one stores a higher one |
| LedgerService.ReachableLedgerHasNoGaps | src/events/event-ledger.service.ts:94-130 | in every reachable ledger the only correct gap report is the empty one |
| LedgerService.EventLedgerService.AppendEvent | src/events/event-ledger.service.ts:54-92 | a call on its own is one atomic append under the next number |
| LedgerService.EventLedgerService.GetNextSequenceNumber | src/events/event-ledger.service.ts:28-49 | returns one more than the length of the aggregate's stream |
| LedgerService.EventLedgerService.DetectGaps | src/events/event-ledger.service.ts:98-130 | returns that report of the stored rows, and an empty one in a numbered ledger |
| LedgerService.CallIsASchedule | src/events/event-ledger.service.ts:57-91 | begin, lock, read, insert and commit in a row are that atomic append |
| AdoptionStateMachine.TransitionsClimb | src/adoption/services/adoption-state-machine.service.ts:9-30 | transitions raise the rank, and the open statuses are exactly those that can be left |
| AdoptionStateMachine.TransitionsAre | src/adoption/services/adoption-state-machine.service.ts:9-17 | an adoption goes on one stage at a time, may be rejected until approved and cancelled from then on until completed, and nothing else |
| CustodyStateMachine.TransitionsClimb | src/custody/services/custody-state-machine.service.ts:9-33 | transitions raise the rank and never reach COMPLETED, and only PENDING and ACTIVE can be left |
| CustodyStateMachine.TransitionsAre | src/custody/services/custody-state-machine.service.ts:9-20 | a custody is activated once, returned or violated only while active, cancelled while pending or active, and nothing else |
| Services.EventsService.LogEvent | src/events/events.service.ts:128-154 | appends the event, or throws on a missing actor and changes nothing |
| Services.UsersService.UpdateTrustScore | src/users/users.service.ts:67-100 | writes the clamped score and logs the change, or throws for an unknown user |
| Services.EscrowService.CreateEscrow | src/escrow/escrow.service.ts:15-31 | adds a new escrow under a fresh identifier, tied to nothing and without an event |
| Services.EscrowService.ReleaseEscrow | src/escrow/escrow.service.ts:33-93 | does to the database what Workflow.ReleaseEscrow says, its early event included |
| Services.EscrowService.RefundEscrow | src/escrow/escrow.service.ts:95-123 | does to the database what Workflow.RefundEscrow says |
| Services.AdoptionService.RequestAdoption | src/adoption/adoption.service.ts:45-104 | does to the database what Workflow.RequestAdoption says |
| Services.AdoptionService.UpdateAdoptionStatus | src/adoption/adoption.service.ts:111-183 | writes the row for good, then logs, without a transaction |
| Services.AdoptionService.ApproveAdoption | src/adoption/adoption.service.ts:194-287 | approves with its event, or leaves everything as it was |
| Services.AdoptionService.RejectAdoption | src/adoption/adoption.service.ts:298-392 | rejects without an event |
| Services.CustodyService.CreateCustody | src/custody/custody.service.ts:29-186 | does to the database what Workflow.CreateCustody says |
| Services.CustodyService.ReturnCustody | src/custody/custody.service.ts:188-235 | does to the database what closing by return says, partial failures included |
| Services.CustodyService.ViolationCustody | src/custody/custody.service.ts:237-284 | the same for a violation |
| Services.CustodyService.CancelCustody | src/custody/custody.service.ts:286-355 | the same for a cancellation |
| WorkflowAnswers.RequestAnswers | src/adoption/adoption.service.ts:45-83 | a request goes through iff the pet has an owner, all its adoptions are over and the adopter is a user, and fails with exactly these errors otherwise |
| WorkflowAnswers.RequestLeaves | src/adoption/adoption.service.ts:74-101 | a request that goes through adds one requested row, with the owner of the time, and its event |
| WorkflowAnswers.UpdateAnswers | src/adoption/adoption.service.ts:111-150 | a status update goes through iff its transition is allowed and, if it is an approval or a completion, its actor is missing or a user |
| WorkflowAnswers.UpdateLeaves | src/adoption/adoption.service.ts:124-150 | it sets the status and logs approvals and completions, with pet and adopter of the row |
| WorkflowAnswers.ApproveAnswers | src/adoption/adoption.service.ts:194-264 | an approval goes through iff the adoption is pending and the admin is missing or a user |
| WorkflowAnswers.ApproveLeaves | src/adoption/adoption.service.ts:225-264 | an approval leaves what the status update to APPROVED leaves |
| WorkflowAnswers.RejectAnswers | src/adoption/adoption.service.ts:298-334 | a rejection goes through iff the adoption is requested or pending, and sets the status alone |
| WorkflowAnswers.CreateAnswers | src/custody/custody.service.ts:29-101 | a custody is created iff all adoptions of the pet are rejected or cancelled, no custody of it is active, start and duration are allowed and the holder is a user, and fails with exactly these errors otherwise |
| WorkflowAnswers.CreateLeaves | src/custody/custody.service.ts:108-154 | it adds a pending custody with its deposit, an escrow of that amount if there is one, and one event |
| WorkflowAnswers.CloseAnswers | src/custody/custody.service.ts:188-305 | in a consistent state returns and violations go through iff the custody is active, cancellations iff it is pending or active |
| WorkflowAnswers.CloseLeaves | src/custody/custody.service.ts:205-347 | they set the status that goes with them and log it first, a cancellation with its deposit handling, RETURNED by default, and once more for the pet |
| WorkflowAnswers.CloseScores | src/custody/custody.service.ts:231-280 | a return changes the holder's score by 5, a violation by -15, a cancellation not at all |
| WorkflowAnswers.ScoreAnswers | src/users/users.service.ts:67-100 | a score becomes the sum, or the bound of 0..100 the sum lies beyond, and the event reports both and the change |
| WorkflowAnswers.RefundAnswers | src/escrow/escrow.service.ts:95-123 | a refund goes through iff the escrow exists, keeps its amount and logs it |
| WorkflowAnswers.ReleaseAnswers | src/escrow/escrow.service.ts:33-69 | in a consistent state a release goes through iff the escrow exists and no adoption that has it is not funded |
| WorkflowAnswers.FreeReleaseLeaves | src/escrow/escrow.service.ts:44-59 | without an adoption it sets the status and logs the amount, and nothing else |
| WorkflowAnswers.TiedReleaseLeaves | src/escrow/escrow.service.ts:61-93 | with a funded one it also completes it and makes the adopter the pet's owner |
| WorkflowRuns.StepKeepsInv | src/custody/custody.service.ts:29-355 | every step, whoever takes it and whether or not its call throws, keeps the whole workflow invariant |
| WorkflowRuns.Reachable | src/custody/custody.service.ts:29-355 | the invariant holds after every run from the empty database |
| WorkflowClosing.ClosingIsAllOrNothing | src/custody/custody.service.ts:188-355 | with references intact and no escrow belonging to two rows, as in every reachable state, a closing either throws at a guard and changes nothing or does everything |
| WorkflowClosing.ClosingTearsExactlyWhen | src/custody/custody.service.ts:205-231 | in any state a closing past its guards throws half-done exactly when the deposit cannot settle, and throws clean exactly when the holder is missing |
| WorkflowClosing.ClosingKeepsInv | src/custody/custody.service.ts:188-355 | a completed closing keeps rows, histories, scores and books consistent |
| WorkflowPromises.TrailsFollowTransitions | src/adoption/adoption.service.ts:22-26 | a status history grows by exactly the event the transition logs, or stays |
| WorkflowEffects.StepOnAdoption | src/adoption/adoption.service.ts:45-392 | a step leaves an adoption and its history alone or takes one allowed transition, whose event the history grows by iff it has one and the step is no torn update |
| WorkflowEffects.StepOnEscrow | src/escrow/escrow.service.ts:15-123 | a step settles an escrow and logs it, logs a release without doing it, or leaves its history alone and at most funds it |
| WorkflowEffects.StepOnCustody | src/custody/custody.service.ts:29-355 | a step leaves a custody alone, activates it or closes it the way it says; a new one is pending under a new escrow, if any |
| WorkflowPromises.HistoryStep | src/adoption/adoption.service.ts:111-150 | an adoption's events keep fitting its status through a step iff the step is no update of it that cannot log its event |
| WorkflowPromises.SettlementStep | src/escrow/escrow.service.ts:33-123 | a custody's escrow keeps fitting its status through a step iff the step does not settle it from outside the custody service |
| WorkflowPromises.RecordStep | src/escrow/escrow.service.ts:44-69 | any escrow's events keep replaying to its status through a step iff the step is no release of it that is logged and not done while it is not released |
| WorkflowPromises.EarningsStep | src/users/users.service.ts:67-100 | a score stays what its custodies earned through a step iff the step does not change it directly |
| WorkflowPromises.PromiseKeptExactlyWhen | src/custody/custody.service.ts:188-355 | each of the four is kept in all states of a run iff every step of the run heeds it |
| WorkflowTheorems.ThrowsChangeStateExactlyWhen | src/escrow/escrow.service.ts:33-93 | in reachable states a throwing call changes something iff it is a status update that cannot log its event or a release whose adoption is not funded |
| WorkflowTheorems.ReleaseTearsExactlyWhen | src/escrow/escrow.service.ts:44-69 | in any state a release throws with its event already logged exactly when the escrow's adoption cannot be completed |
| WorkflowTheorems.ReachableClosings | src/custody/custody.service.ts:286-351 | closings in reachable states throw only at the guard, change nothing then, and settle the escrow whatever the deposit handling |
| WorkflowTheorems.AtMostOneOpenAdoption | src/adoption/adoption.service.ts:57-83 | no reachable state has two open adoptions of one pet |
| WorkflowTheorems.CustodyHistoryMatches | src/custody/custody.service.ts:143-154 | the types of the events on every custody are exactly those its status stands for |
| WorkflowTheorems.AdoptionHistoryMatches | src/adoption/adoption.service.ts:89-150 | so are those on an adoption in runs whose updates of it can log their events, and in all states of a run only then |
| WorkflowTheorems.UpdateKeepsHistoryExactlyWhen | src/adoption/adoption.service.ts:124-150 | an accepted status update keeps row and history in step iff its status logs no event or its actor is missing or exists |
| WorkflowTheorems.ScoreIsLastReported | src/users/users.service.ts:67-100 | whatever deltas anyone applies, a score is within 0..100 and equal to the last reported one, and the score events form a chain |
| WorkflowTheorems.ScoreIsHistory | src/custody/custody.service.ts:231-280 | a score is the clamped fold of +5 per return and -15 per violation in runs without direct changes of it, and in all states of a run only then |
| WorkflowSettlements.DepositsHaveEscrows | src/custody/custody.service.ts:108-140 | in every reachable state a custody has an escrow iff it has a deposit, of the same amount, and is never completed |
| WorkflowSettlements.EscrowFollowsCustody | src/custody/custody.service.ts:199-351 | the escrow is unsettled iff the custody is pending or active, released iff returned, refunded iff violated or cancelled, with one settlement event at most, in runs that leave it to the custody service, and in all states of a run only then |
| WorkflowSettlements.OutcomeRecordedOnce | src/custody/custody.service.ts:212-330 | the log records a custody's outcome exactly once it has one |
| WorkflowSettlements.EscrowServiceNeverRefuses | src/escrow/escrow.service.ts:33-123 | the escrow service settles a custody's escrow again whenever asked, with the exact statuses for which that still matches |
| WorkflowSettlements.SettledOnceExactlyWhenHeld | src/escrow/escrow.service.ts:44-111 | a run settles an escrow, of a custody or an adoption, at most once iff each settling call finds it held |
| WorkflowSettlements.AdoptionEscrowSettlesExactlyWhen | src/escrow/escrow.service.ts:61-111 | an adoption's escrow can be released iff the adoption is funded, and refunded any time, settled before or not |
| WorkflowSettlements.AdoptionEscrowReleasedOnce | src/escrow/escrow.service.ts:61-89 | an adoption's escrow is released at most once in any run, never again once the adoption is over |
| WorkflowMoney.SurplusStep | src/escrow/escrow.service.ts:44-111 | a step changes the balance of custody money by exactly what it pays out of a settled escrow |
| WorkflowMoney.DepositsAreConserved | src/custody/custody.service.ts:114-154 | over every run, deposits logged are the deposits on the rows, and with what was paid a second time they equal money held plus released plus refunded |
| WorkflowMoney.CustodyServiceConserves | src/custody/custody.service.ts:199-351 | left to the custody service, nothing is paid twice, and deposits equal money held plus released plus refunded |
| WorkflowLifecycles.StatusChangesAreBounded | src/adoption/services/adoption-state-machine.service.ts:9-17 | a run ending with N adoptions and M custodies made at most 4N + 2M status changes |
| WorkflowLifecycles.FinalStatusesStay | src/custody/services/custody-state-machine.service.ts:9-20 | statuses without transitions never change again |
| WorkflowWitnesses.UpdateCanTear | src/adoption/adoption.service.ts:124-150 | a run from the empty database whose next update leaves an approved row without its event |
| WorkflowWitnesses.ReleaseCanTear | src/escrow/escrow.service.ts:44-69 | a run after which a release throws with its event logged |
| WorkflowWitnesses.RefundedAdoptionCanComplete | src/escrow/escrow.service.ts:61-111 | a run after which an adoption's escrow is refunded and then released |
| WorkflowWitnesses.DepositCanBePaidTwice | src/escrow/escrow.service.ts:33-123 | a run after which a custody's deposit is released from outside and refunded by its cancellation |
| WorkflowWitnesses.ScoreCanBeShifted | src/users/users.service.ts:67-100 | a run after which a score is not what custodies earned |
| Reducers.PrefixReplay | src/admin/services/event-replay.service.ts:208-226 | k + 1 events take one reducer step from k events, and k at or past the end is the full replay |
| Reducers.UserClosedForm | src/admin/services/event-replay.service.ts:99-116 | a user replay is the last absolute score plus the deltas after it, or the baseline plus all deltas |
| Reducers.ReportedScoreReplays | src/admin/services/event-replay.service.ts:99-116 | the last score event with a `trustScore` number decides, and the `delta` numbers of score events after it are added |
| Reducers.UnreportedScoreReplays | src/admin/services/event-replay.service.ts:99-116 | without such an event all `delta` numbers are added to the baseline |
| Reducers.LastNamedReplays | src/admin/services/event-replay.service.ts:50-97 | an adoption, custody or escrow replays to the status its last status-naming event names, or to nothing |
| Reducers.RegistrationReplays | src/admin/services/event-replay.service.ts:118-128 | a pet replays to registered iff some event registers it |
| Reducers.ReplayOfKind | src/admin/services/event-replay.service.ts:50-137 | a replay only ever holds its aggregate's own field, with a value of its sort |
| Reducers.ReplayByTypes | src/admin/services/event-replay.service.ts:50-97 | other than a user's, a replay depends on nothing but the types of the events |
| ReplayService.DiffFinds | src/admin/services/event-replay.service.ts:376-396 | no discrepancy is reported iff every replayed field equals the current one, numbers within the tolerance |
| ReplayService.EventReplayService.DiffRecords | src/admin/services/event-replay.service.ts:376-396 | the loop computes those discrepancies in order |
| ReplayService.EventReplayService.ReplayEvents | src/admin/services/event-replay.service.ts:222-226 | the reduction is the fold of the reducer |
| ReplayService.EventReplayService.Apply | src/admin/services/event-replay.service.ts:319-369 | writes the replayed field into the aggregate's row and nothing else |
| ReplayService.EventReplayService.ReplayAggregate | src/admin/services/event-replay.service.ts:166-309 | leaves the state and gives the response of AggregateReplay |
| ReplayService.CallIsReplay | src/admin/services/event-replay.service.ts:166-309 | with a client that has the functions asked for, a call is the replay, through the proxy when dry and directly when live, and a dry run changes no table but the application log |
| ReplayService.ProxyStopsCorrections | src/admin/services/event-replay.service.ts:172-177 | whatever client and options, even live ones, a call through the proxy throws or changes no table but the application log |
| ReplayService.OneAuditRowPerCall | src/admin/services/event-replay.service.ts:236-299 | each answered call leaves one audit row, marked applied iff a table was written |
| ReplayService.AppliedIsWritten | src/admin/services/event-replay.service.ts:245-266 | after an applied replay the row is the replayed record and has changed |
| ReplayAnswers.AdoptionReplayAnswers | src/admin/services/event-replay.service.ts:166-309 | a replay of an adoption writes the replayed status iff it is live, the row exists and differs; response, discrepancy and audit row say exactly that, and no other table changes |
| ReplayAnswers.CustodyReplayAnswers | src/admin/services/event-replay.service.ts:166-309 | the same for a custody |
| ReplayAnswers.EscrowReplayAnswers | src/admin/services/event-replay.service.ts:166-309 | the same for an escrow |
| ReplayAnswers.UserReplayAnswers | src/admin/services/event-replay.service.ts:166-330 | the same for a user's score, replayed from the row and compared up to a billionth |
| ReplayAnswers.PetReplayAnswers | src/admin/services/event-replay.service.ts:166-309 | a pet's replay reports a registration whose pet is gone and never writes |
| ReplayAnswers.NothingToReplay | src/admin/services/event-replay.service.ts:180-195 | without events and without a given type there is no answer and no change |
| ReplayTheorems.LiveReplayConverges | src/admin/services/event-replay.service.ts:166-309 | repeating an applied replay finds nothing and writes nothing iff it is not a user's or its events hold an absolute score |
| ReplayTheorems.CustodyLogReplays | src/admin/services/event-replay.service.ts:63-76 | in every reachable state a custody replays to its status, with ACTIVE as PENDING |
| ReplayTheorems.AdoptionLogReplays | src/admin/services/event-replay.service.ts:50-61 | after any run an adoption replays to the last of REQUESTED, APPROVED, COMPLETED it went through iff its last status change with an event logged it |
| ReplayTheorems.EscrowLogReplays | src/admin/services/event-replay.service.ts:78-91 | after any run a custody's escrow replays to its settled status, or to nothing while unsettled |
| ReplayTheorems.EscrowLogReplaysExactlyWhen | src/admin/services/event-replay.service.ts:78-91 | after any run so does any escrow iff its log does not end in a release that was not done, and then it replays to RELEASED |
| ReplayTheorems.EscrowLogFollowsCustody | src/custody/custody.service.ts:199-351 | left to the custody service, a custody's escrow replays to the status its custody decides |
| ReplayTheorems.CustodyReplayReportsExactlyWhen | src/admin/services/event-replay.service.ts:222-229 | in every reachable state a whole replay of a custody reports a discrepancy iff it is active |
| ReplayTheorems.AdoptionReplayReportsExactlyWhen | src/admin/services/event-replay.service.ts:222-229 | after any run a whole replay of an adoption reports a discrepancy iff its last status change logged no event |
| ReplayTheorems.EscrowReplayReportsExactlyWhen | src/admin/services/event-replay.service.ts:222-266 | after any run one of an escrow does so, and is applied when live, iff its log ends in a release that was not done; it then writes RELEASED |
| ReplayTheorems.ReplayCanReleaseUnpaid | src/admin/services/event-replay.service.ts:245-266 | a run without any settlement after which a live replay marks an escrow as released |
| ReplayTheorems.UserReplayDoubles | src/admin/services/event-replay.service.ts:317-330 | in every reachable state a whole user replay is the row plus all logged deltas, and agrees with the row iff these sum to less than the tolerance |
| ReplayTheorems.UserReplayCanDouble | src/admin/services/event-replay.service.ts:99-116 | after a run with one returned custody the row is 55 and its replay 60 |
| ReplayTheorems.UserReplayNeverSettles | src/admin/services/event-replay.service.ts:166-309 | n live replays of a user whose events hold deltas only leave the baseline plus n times the deltas, each of them applied |
| Lifecycle.MergeKeepsLastWord | src/events/events.service.ts:45-58 | the merged state gives each key its value in the last event that speaks about it, else its initial one |
| Lifecycle.LastWordIs | src/events/events.service.ts:50-57 | the last event that speaks decides, a mapped status before a payload's |
| Lifecycle.LastPayloadMerges | src/events/events.service.ts:38-58 | a key other than the status has its value in the last object payload that carries it |
| Lifecycle.UncarriedKeyStays | src/events/events.service.ts:38-58 | a key that no object payload carries keeps its initial value |
| Lifecycle.StatusAfter | src/events/events.service.ts:45-125 | the status after an event is what its type stands for, whatever its payload says, else a changed pet status, else the payload's, else the one before |
| Lifecycle.RichStatusFollowsReplay | src/events/adoption.reducer.ts:64-132 | over schema event types the rich reducer's status is what the replay service replays from the same events, or the initial one |
| Lifecycle.RichFieldsKeepLastWord | src/events/adoption.reducer.ts:64-132 | every field of the rich state has what the last event that tells about it tells, or its initial value |
| Lifecycle.RichFieldReadsPayload | src/events/adoption.reducer.ts:64-132 | a rich field has the first string under its keys in the last event of the type it listens to |
| Lifecycle.FirstStringIsTaken | src/events/adoption.reducer.ts:34-46 | keys are tried in order, and the first that holds a string is taken |
| Lifecycle.RichKeys | src/events/adoption.reducer.ts:68-126 | which payload keys fill which field of the rich state on which event |
| Lifecycle.RichStandIns | src/events/adoption.reducer.ts:68-126 | without an object payload the event's actor, hash or time fills its field, and the others stay |
| Lifecycle.MergedStatusFollowsReplay | src/events/events.service.ts:60-71 | without payload statuses the merging replay gives what the replay service replays from the same events, but calls a request PENDING |
| StrictProxy.ProxyBlocksExactlyWriteVerbs | src/admin/services/strict-prisma.proxy.ts:35-56 | at any depth chains without a write verb pass unchanged and chains with one run nothing |
| StrictProxy.ModelCall | src/admin/services/strict-prisma.proxy.ts:10-56 | a call on a model runs its function, and through the proxy nothing for the ten write verbs and the same function otherwise |
| StrictProxy.DryRunNeverWritesExactlyWhenNamed | src/admin/services/strict-prisma.proxy.ts:10-21 | nothing writes through the proxy iff every writing function is reached under a listed name |
| Availability.TableViewsAgree | src/pets/pets.service.ts:101-122 | the joined flag of the list equals getPetAvailability in every state |
| Availability.CustodyNeedsAvailablePet | src/custody/custody.service.ts:44-101 | creation goes through iff pet exists and is available, start and duration are allowed and the user exists |
| Availability.RejectionFreesPet | src/adoption/adoption.service.ts:289-334 | after a rejection the pet is available iff it has no completed adoption and no active custody |
| Availability.PetAvailabilityReducer | src/events/reducers/pet-availability.reducer.ts:25-73 | the loop returns what the last determining event says, else AVAILABLE |
| Availability.CustodyReducer | src/events/reducers/custody.reducer.ts:24-53 | the loop returns what the last determining event says, else PENDING |
| Availability.LastDeterminesOnce | src/events/reducers/pet-availability.reducer.ts:19-20 | "last determining event, else default" fixes the result |
| Availability.VerificationSeesOnlyAvailable | src/pets/pets.service.ts:172-209 | in reachable states pet events replay to AVAILABLE, so a match is reported iff the tables say available |
| Availability.MatchesExactlyWhen | src/pets/pets.service.ts:205-209 | a match is reported iff the tables say available exactly when the events leave the pet available or pending |
| Availability.PetEventsDetermine | src/events/reducers/pet-availability.reducer.ts:30-70 | exactly which event types determine which availability |
| Availability.CustodyEventsDetermine | src/events/reducers/custody.reducer.ts:28-50 | exactly which event types determine which custody status |
| Availability.CustodyReducerAgreesExactlyWhen | src/events/reducers/custody.reducer.ts:27-50 | on the workflow's events the stand-alone reducer gives the row's status iff it is ACTIVE or CANCELLED |
| Paging.PaginationMeta.constructor | src/common/dto/paginated-response.dto.ts:32-39 | totalPages is the least number of pages that holds all items, and a next page is announced iff items remain |
| Paging.PagesPartition | src/pets/pets.service.ts:92-126 | pages 1..totalPages joined are the list, all but the last full, the last not empty, nothing beyond |

## Left out

- HTTP controllers, validation, authentication, documents, e-mail queues and logging: wiring and
  I/O. Enqueued notifications have no effect on the modelled state.
- Storage faults and races between a guard and the write after it: workflow calls run one after the
  other, and a statement fails only for the reasons in `Workflow.Failure`.
- Deleting users and pets (and the cascades that follow), updating profiles and pets: rows are
  never removed in a run.
- Dates: "start date not in the past" is a parameter, and end dates, notes and human-readable
  messages are not kept. Log order stands for `createdAt` order.
- Ledger rows that `EventsService.logEvent` writes into the same streams: the schema lists no
  sequence column, so the intended integer column is modelled and streams written only through the
  ledger service are claimed about.
- `EventsService.appendEvent` and its mirrored pet event: the mirrored type is not in the schema's
  enumeration.
- `EventsService.logEvent` called by others than the services of a run: who writes events at will
  can make any history say anything.
- Looking up an adoption by its escrow uses the unique column; the model searches identifiers
  downwards from the last one given out.
- Live replay as a step of a workflow run: it writes statuses and scores without state machine and
  clamp, so it is modelled on arbitrary states instead.
- Aggregate type detection is modelled, but the theorems about what replays report name the
  aggregate type they speak about.
- A missing adopter or custody holder is refused by a required column and changes nothing, like an
  unknown one; only actors of events can be absent.
- Property lookups on JavaScript prototypes (an event type called `constructor`), symbols and
  values returned from calls in the proxy.

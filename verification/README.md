# Verification of the SMS platform's core

A Dafny model of how the platform accepts, dispatches and settles text messages, and proofs of
what it promises. `dafny verify dfyconfig.toml` checks the whole project.

## What is modelled

**The message delivery protocol** is one transition system. Its state (`DeliveryState.Db`) is the
messages with their attempts and published events, the per-SIM daily recipient ledger, the SIM
counters, the pacing windows of SIMs and devices, the assignments of devices, and the log of jobs
handed to devices. Each database transaction is one step (`DeliveryProtocol.Step`): accept,
dispatch with its hand-off, acknowledgement, send result, delivery report, lease sweep, deadline
sweep, cancel, device assignment. A run is any sequence of steps with any arguments, so devices may
replay, reorder and delay reports as they like. `MessageJob` says what each step does to one message,
`RecipientAllowance`, `SimPacing` and `SimProfileSelector` what it does to the other tables.

The same steps are written a second time the way the services do them: `Database.Tables` is a class
whose fields are the tables, `SmsDispatcher`, `SmsResultService`, `GatewayAssignment` and
`SmsService.CancelBy` update it statement by statement, with the loops of the code, and each method is
proved to come to the step that specifies it.

What each step comes to is proved on the columns alone, apart from the functions the steps are made of:
`RoutingRules` and `DispatchOutcomes` say whose SIMs a dispatch may use, which one it takes and how long a message
waits for it, `ReportOutcomes` what a report or a lapsed lease makes of a message, `EndingOutcomes` which messages a
deadline, a cancellation or a released device ends, and `SendOutcomes` what acceptance answers and writes.

On top of the steps stand the theorems: an invariant over all tables (`ProtocolInvariant`, read out in
`DeliveryTheorems`), what holds over whole runs (`DeliveryRuns`, `BoundAttained`, `EndingsAnnounced`,
`PacingRuns`, `ReportOrder`), how slots are filled (`SequentialFill`, `FetchLimit`), the recipient cap over every
run (`RecipientCap`, `CapExceeded`) and with transactions interleaved statement by statement (`AllowanceLocking`,
a state machine of its own with row locks, visibility and commit), and when a slot stays taken for nothing
(`LeakedSlots`, `LeakCauses`). `SoleDispatch` and `SampleFleet` serve the concrete runs.

**Acceptance** (`SmsAcceptance`, `RequestedRoute`, `BulkAcceptance`, `BulkLaws`, and imperatively
`SmsService`, `BulkSend`): single sends, batches and bulk requests with their memo tables, idempotency
keys and two-pass retry, while other requests commit between a check and the insert that relies on it.
`AcceptedRows` shows that written rows enter the protocol as accept steps.

**Two small cores**: `MessageEncoder` with the alphabet of 3GPP TS 23.038 (`GsmAlphabet`) and the parts a
body needs (`MessageParts`), and `AmountParser`.

## Where the code does not do what one would expect

- The comment at app/enums/sms_status.ts:24 says results for terminal messages are ignored. The code
  moves failed, cancelled and expired messages to sent on a late success, and the model follows the
  code. What never reverts is `wasSent`, see `DeliveryRuns.SentStaysSent`.
- A device may report `DELIVERY_FAILED` as a send failure (app/services/sms/sms_result_service.ts:696).
  The message then counts as sent although nothing was, and `delivered` can be published without `sent`:
  `PublishedEvents.ClaimedVerdictBreaksLifecycle`. Every other code is safe: `FailureKeepsTruthIff`.
- The deadline sweep re-checks less than it selected (app/services/sms/sms_result_service.ts:222 and 208),
  and `cancel` writes without a lock (app/services/sms/sms_service.ts:693). The steps take both as atomic.
  `StaleWrites` says exactly which interleaved change breaks a message. For the sweep: it was sent. For the
  cancel: something was published about it, because it was sent or because it ended, and then the tenant is
  told of two endings.
- A dispatch that finds a message expired, or without a body, ends it without telling the tenant
  (app/services/sms/sms_dispatcher.ts:434-468). No other ending is silent: `EndingsAnnounced`.
- A `sent` result and a delivery report commute, but for the SIM's daily counter around midnight, and
  only when the report was already known and the result is what counts the send: `ReportsCommute`.
- The candidate query fetches 50 rows. With more eligible SIMs than that the sequential strategy can miss
  the first in fleet order, and even one that holds the number: `SequentialFill.PlanTargetsFirstIff`,
  `QueryFindsAHolderIff`, and runs that lead to such a dispatch in `FetchLimit.SlotOpensPastFirst`.
- The comment at app/services/sms/recipient_allowance.ts:87-91 says that after a late result a SIM may be one
  past its cap. Each such row puts it one further (`RecipientCap.OwnCapIsKept`), and there may be any number of
  them: `CapExceeded.CapIsExceededByAny`.
- A slot can stay taken although nothing was sent on it and nothing is in flight on it: `cancel` of an assigned
  message (app/services/sms/sms_service.ts:693-706) hands nothing back, and the check at
  app/services/sms/recipient_allowance.ts:131-138 does not ask for the day, so a message of yesterday keeps
  today's slot. `LeakedSlots.LeakedIff` says exactly when; `LeakCauses` has a run for either cause.
- The bulk memo key joins names with a pipe. A name that contains one can share a key with another request
  and get its answer, for instance a device code typed with a pipe after it, which
  app/utils/device_code.ts:32-38 drops when it reads the code: `RequestedRoute.AdmittedMemoIsSoundIff`,
  `RouteMemoIsSoundIff`, `TypedPipeIsConfused`.
- In `GSM7_EXTENDED` (app/services/sms/message_encoder.ts:13) the backslash escapes the bracket, so the
  set has no backslash; form feed is missing too. Texts with either travel as UCS-2: `EncodingIsGsm7Iff`.
- Segment counts let an escape sequence straddle two parts, which section 9.2.3.24.1 of 3GPP TS 23.040
  does not. The count is a lower bound, and exact if and only if filling part after part takes no more:
  `MessageParts.ChargeIsExactIff`, `EscapeMayNeedAnotherPart`.

## What the environment decides

Which due message a claim locks (any of them: rows locked by other workers are skipped), which SIMs are
usable (ready, funded, in an active device connected to this process), the order of the query's rows, how
the preference order arranges the shortlist (it is not transitive, so any arrangement), the draws behind
delays, and whether a socket takes a job, are parameters of the dispatch step (`DeliveryProtocol.Choice`),
constrained by `IsChoice` to what the query and the shortlist can produce. The operator's calendar is any
function from instants to days. Phone normalisation, body fingerprints, lower-casing, the reading of typed
device codes and the body retention policy are any functions (`Directory`, `Client`, `Devices`), and so is what
a validator lets through where that matters (`Validator`); uids are given per entry. What other requests
commit is a parameter of the acceptance methods, and the clock readings and draws of a sweep, one per row, of
the sweeps.

## Model

| member | source | states |
|---|---|---|
| `DeliveryTheorems.LedgerConservation` | app/services/sms/recipient_allowance.ts:80-140 | in every reachable state `messages_sent` of a (SIM, day, number), read as zero when the row is absent, is the number of SENT attempts made on that SIM, started that day, for messages to that number |
| `DeliveryTheorems.SlotProtection` | app/services/sms/recipient_allowance.ts:116-140 | in every reachable state a message in flight has its ledger row, and no release made for another message, of any slot, removes it |
| `DeliveryTheorems.InFlightBound` | app/services/sms/sim_profile_selector.ts:402-454 | in every reachable state no SIM has more messages assigned or sending than its device's `maxInFlight` |
| `DeliveryTheorems.AttemptHistory` | app/services/sms/sms_dispatcher.ts:294-353 | in every reachable state attempts are numbered exactly 1..attempts, use pairwise different SIMs, never exceed the maximum; only the last can be live; an in-flight message agrees with it; a queued message has attempts left |
| `DispatchOutcomes.AttemptsFollowTheRules` | app/services/sms/sim_profile_selector.ts:336-396 | every SIM a dispatch gives a message to is usable, its device in the pool or the message's own tenant's and named by it, with the device, operator and slot asked for, today's counted sends below its quota, new to the message, free, with a message to spare, and with the number or room for it |
| `RoutingRules.EligibleIffSuits` | app/services/sms/sim_profile_selector.ts:336-399 | and conversely: a usable SIM is eligible if and only if its columns meet those rules |
| `RoutingRules.SuitsMeans` | app/services/sms/sim_profile_selector.ts:354-384 | those rules, column by column; a positive quota is above today's counted sends |
| `DispatchOutcomes.OnlyDueMessagesAreRouted` | app/services/sms/sms_dispatcher.ts:74-141 | a dispatch routes a message only while it is queued, due, within its deadline and has a body; past its deadline it expires, without a body it fails, and else nothing changes |
| `DispatchOutcomes.NoneSuits` | app/services/sms/sms_dispatcher.ts:178-184 | with no SIM that suits the message it waits four to six seconds, shown as no gateway, and nothing else changes |
| `DispatchOutcomes.AllowanceIsUsedUp` | app/services/sms/sms_dispatcher.ts:186-194 | with fetched SIMs none of which holds the number or may take it, it waits 300 seconds, shown as allowance used up |
| `DispatchOutcomes.AllAreBusy` | app/services/sms/sms_dispatcher.ts:196-198 | with SIMs considered but none open, it waits until the first of them is free, and keeps only the reason of a failed attempt |
| `DispatchOutcomes.OpenIsGivenTheMessage` | app/services/sms/sms_dispatcher.ts:294-432 | with an open SIM, an open one is given the message: message, attempt, slot, windows of 60 seconds over the rate, and hand-off, column by column; or, without a socket, everything is taken back and the message waits four to six seconds |
| `RoutingRules.PlanWaitsForTheFirstFree` | app/services/sms/sim_profile_selector.ts:242-255 | a plan that waits, waits from now while no SIM considered with a message to spare is free, until one is; five seconds when none has a message to spare |
| `RoutingRules.PlanTriesTheFree` | app/services/sms/sim_profile_selector.ts:134-164 | a plan tries exactly the SIMs considered that are free with a message to spare, whenever there is one |
| `RoutingRules.PlanGivesUpIff` | app/services/sms/sim_profile_selector.ts:140-152 | a plan is unavailable if and only if nothing was fetched, and exhausted if and only if something was and none of it holds the number or may take it |
| `RoutingRules.CandidateColumns` | app/services/sms/sim_profile_selector.ts:404-452 | what a fetched row says of its SIM: whether it holds the number, may take it under its own, its operator's or the general cap, is free now, and from when it will be |
| `ReportOutcomes.FailureComesTo` | app/services/sms/sms_result_service.ts:414-443 | a failure of the attempt that holds the message fails it at once with that code if it is one of ten, as exhausted if no attempts are left, with one `sms.failed`; else it is queued with the code and a wait around 5, 30 or 120 seconds; a missing or unknown code counts as a generic failure |
| `ReportOutcomes.LateFailureComesTo` | app/services/sms/sms_result_service.ts:450-483 | a failure by a device that no longer has the message closes its own attempt, if open, and nothing else |
| `ReportOutcomes.LeaseComesTo` | app/services/sms/sms_result_service.ts:160-199 | a lease that ran out in flight times its attempt out and fails or requeues the message like a failure; any other message is left alone |
| `ReportOutcomes.FirstSuccessComesTo` | app/services/sms/sms_result_service.ts:250-361 | the first success of a message: its columns take the SIM and moment of that attempt, a newer attempt is called off and its slot given back, one `sms.sent` is published, the slot of the attempt's day and today's quota each count one |
| `ReportOutcomes.AnotherSuccessComesTo` | app/services/sms/sms_result_service.ts:250-270 | a further success leaves the message alone, and counts an attempt that was not on record as sent |
| `ReportOutcomes.DeliveryComesTo` | app/services/sms/sms_result_service.ts:98-151 | a delivery report is the success it implies and then its own verdict with one event; what is known already changes nothing |
| `ReportOutcomes.AcknowledgementComesTo` | app/services/sms/sms_result_service.ts:45-60 | an acknowledgement by the device that has the message gives it 300 seconds; any other changes nothing |
| `ReportOutcomes.StrangersAreIgnored` | app/services/sms/sms_result_service.ts:586-615 | a device that made no attempt at a message changes nothing by reporting on it |
| `EndingOutcomes.ReassignmentComesTo` | app/services/gateway/gateway_assignment.ts:128-214 | when a device is assigned, a message changes if and only if the device was its tenant's and is not any more, it names the device, and it has not been given out; it then fails as released, without body, with one event |
| `EndingOutcomes.DeadlineComesTo` | app/services/sms/sms_result_service.ts:204-240 | the deadline sweep ends a message if and only if it was not given out and its deadline has passed |
| `EndingOutcomes.CancellationComesTo` | app/services/sms/sms_service.ts:688-727 | a cancellation ends a message if and only if it is the tenant's own and no device has acknowledged it; body and slot stay |
| `SendOutcomes.UnsendableIsRefused` | app/services/sms/sms_service.ts:131-133 | a number that is none is refused first, then a text beyond ten parts, whatever the key |
| `SendOutcomes.UsedKeyIsAnswered` | app/services/sms/sms_service.ts:138-142 | under a used key nothing is written, and the answer is the first message if number and text are its own, and a conflict otherwise |
| `SendOutcomes.LostRaceIsAnswered` | app/services/sms/sms_service.ts:184-193 | the same for a key taken between check and insert, unless operator or route are refused |
| `SendOutcomes.BulkEntryIsAnswered` | app/services/sms/sms_service.ts:476-521 | the same for an entry of a bulk request that is not refused by itself, and no row is written under its key |
| `SendOutcomes.RepeatIsRefusedIff` | app/services/sms/sms_service.ts:340-350 | an entry of a bulk request is refused as a repetition if and only if it could be sent and an earlier entry that was taken has its number and text |
| `SendOutcomes.FreshSendComesTo` | app/services/sms/sms_service.ts:145-177 | under a free key an unknown operator is refused, then a route; else one row is written with the columns the request and the tenant's settings decide |
| `SendOutcomes.EntryKeyComesTo` | app/services/sms/sms_service.ts:257 | the key of an entry is the request's, a colon and its position in decimal |
| `SendOutcomes.RouteComesTo` | app/services/sms/requested_route.ts:30-99 | exactly when and with which code a route is refused, and what it is granted as |
| `ProtocolInvariant.StepKeepsInv` | app/services/sms/sms_result_service.ts:45-240 | every transaction of the protocol, with any arguments, keeps all four of those statements together |
| `ProtocolInvariant.ReachableIsSound` | app/services/sms/sms_dispatcher.ts:52-141 | every run from the empty platform leads to a state where they hold |
| `ProtocolInvariant.ReleaseSparesOthers` | app/services/sms/recipient_allowance.ts:116-140 | handing a slot back keeps the row of every other message in flight |
| `ProtocolInvariant.SuccessKeepsInv` | app/services/sms/sms_result_service.ts:250-412 | a success, current or late, with the attempt it calls off, keeps the invariant: the ledger gains exactly the attempt sent |
| `ProtocolInvariant.DispatchKeepsInv` | app/services/sms/sms_dispatcher.ts:74-141 | a dispatch keeps it on every branch, a failed hand-off included |
| `ProtocolInvariant.AssignDeviceKeepsInv` | app/services/gateway/gateway_assignment.ts:128-214 | releasing a device and failing what it strands keeps it |
| `ProtocolInvariant.WalkClaims` | app/services/sms/sms_dispatcher.ts:205-231 | the walk over a shortlist ends at one of its SIMs with that SIM's slot in the ledger and every other row as it was, or leaves the ledger alone |
| `DeliveryRuns.StepMovesForward` | app/services/sms/sms_result_service.ts:250-575 | every step moves every message one way only: attempts stay, settled attempts stay settled, events are only appended, a sent message stays sent, and any status change lowers one rank |
| `DeliveryRuns.SentStaysSent` | app/services/sms/sms_result_service.ts:332-338 | once an attempt is SENT, in every continuation the message counts as sent, that attempt stays SENT, the message is never queued or in flight again, and no attempt is added |
| `DeliveryRuns.BoundedLifecycle` | app/services/sms/sms_result_service.ts:506-575 | from acceptance on, a message changes status at most 3 * maxAttempts + 3 times in any run, a dispatch with a failed hand-off counting as none |
| `BoundAttained.BoundIsAttained` | app/services/sms/sms_result_service.ts:506-575 | the bound is attained for every number of attempts: some run with a clock that does not go back changes the status of a reachable message exactly 3 * maxAttempts + 3 times and delivers it |
| `DeliveryRuns.ReplayedResultIsAbsorbed` | app/services/sms/sms_result_service.ts:71-87 | a send result repeated by the same device at any later point of any run changes nothing; for a failure, until that device gets a newer attempt at the message |
| `DeliveryRuns.ReplayedReportIsAbsorbed` | app/services/sms/sms_result_service.ts:98-151 | a delivery report repeated by the same device at any later point of any run changes nothing |
| `DeliveryRuns.PublishedEventsFollowLifecycle` | app/services/sms/sms_result_service.ts:98-151 | in every run whose devices do not claim the network's verdict as a send failure, the events of a message follow (failed, expired or cancelled)? then (sent failed? delivered?)? |
| `DeliveryRuns.StepKeepsTruth` | app/services/sms/sms_result_service.ts:414-443 | each such step keeps the published events in agreement with the message's status and attempts |
| `EndingsAnnounced.OnlyDispatchEndsSilently` | app/services/sms/sms_dispatcher.ts:434-468 | in every step from any state, a message that ends has an event published for it, unless the step is its dispatch and finds it expired or without a body: exactly those endings are silent |
| `EndingsAnnounced.EndedMessagesWereAnnounced` | app/services/sms/sms_result_service.ts:204-240 | in every run without claimed verdicts a cancelled message has published exactly that, an expired one that or nothing, an unsent failed one exactly that or, without a body, nothing, and one waiting or in flight nothing |
| `PublishedEvents.LifecycleMeans` | app/services/sms/sms_result_service.ts:323 | that pattern means: sent and delivered at most once each, delivered last and never without an earlier sent, four events at most |
| `PublishedEvents.FailureKeepsTruthIff` | app/services/sms/sms_result_service.ts:696-701 | applying a failure reported by a device keeps events truthful if and only if its code is not DELIVERY_FAILED |
| `PublishedEvents.ClaimedVerdictBreaksLifecycle` | app/services/sms/sms_result_service.ts:696-701 | counterexample: reported as a send failure, DELIVERY_FAILED makes an unsent message count as sent, and a delivery report then publishes `delivered` without `sent` |
| `MessageLaws.RequeueUndoesAssign` | app/services/sms/sms_dispatcher.ts:391-432 | a failed hand-off leaves the message and its attempts as before the assignment, but for the wait and the cleared error |
| `MessageLaws.EnsureSentIsLawful` | app/services/sms/sms_result_service.ts:250-324 | a success by any attempt, over any status, keeps the message's invariant and moves it forward |
| `MessageLaws.RetryOrFailIsLawful` | app/services/sms/sms_result_service.ts:506-575 | a retry or a final failure does as well |
| `ReportOrder.ReportsCommute` | app/services/sms/sms_result_service.ts:89-151 | from any reachable state, `sent` then the delivery report, or the two the other way round, leave the same messages, attempts, events, ledger and pacing; the SIM counters too, except exactly when only the result counts the send and the two arrive on different operator days |
| `PacingRuns.NoMinuteExceedsRates` | app/services/sms/sim_profile_selector.ts:179-240 | in every run with a clock that does not go back, in any half-open 60 second window a SIM hands off at most its smsPerMinute and a rated device at most its own, over all its SIMs |
| `PacingRuns.WalkTakes` | app/services/sms/sms_dispatcher.ts:205-231 | however many candidates a walk loses, availability ends as if only the reservation it kept had been made |
| `PacingRuns.SpacedLogKeepsRate` | app/services/sms/sim_profile_selector.ts:183 | instants at least 60 / rate apart put at most rate of them in any minute |
| `SimPacing.ReserveOutcomes` | app/services/sms/sim_profile_selector.ts:179-240 | a reservation is granted exactly when SIM and rated device are free; refused, or undone, it leaves everyone's availability as it was |
| `SequentialFill.SlotsOpenInFleetOrder` | app/services/sms/sim_profile_selector.ts:154-159 | whatever the size of the fleet, under the sequential strategy a dispatch opens a slot only on an eligible SIM with room, and every eligible SIM before it in fleet order is full, or was not fetched while more than 50 were eligible |
| `SequentialFill.HolderKeepsTheNumber` | app/services/sms/sim_profile_selector.ts:144-149 | whatever the size of the fleet, a dispatch opens a slot for a number only if no row it fetched holds it; while some eligible SIM does, that takes at least 50 eligible SIMs that do not |
| `SequentialFill.FetchedFirstIsPlanned` | app/services/sms/sim_profile_selector.ts:134-164 | while no eligible SIM holds the number: if the first eligible SIM with room was fetched, the sequential plan is to try it or wait for it, and if not, no plan offers it |
| `SequentialFill.PlanTargetsFirstIff` | app/services/sms/sim_profile_selector.ts:154-159 | so, while none holds it, the sequential plan is for that SIM whatever the query returns, if and only if at most 50 SIMs are eligible; with more, some fetch gives plans that do not offer it |
| `SequentialFill.FreeFirstIsOfferedIff` | app/services/sms/sim_profile_selector.ts:154-159 | and while that SIM is also free, every plan offers it if and only if at most 50 are eligible |
| `SequentialFill.QueryFindsAHolderIff` | app/services/sms/sim_profile_selector.ts:144-149 | whatever the query returns, it has a holder of the number, if and only if fewer than 50 eligible SIMs do not hold it |
| `FetchLimit.SlotOpensPastFirst` | app/services/sms/sim_profile_selector.ts:399 | counterexample for every fleet size beyond 50: some run leads to a dispatch that opens a slot on the second SIM although the first has room, and another to one although the first holds the number |
| `SimProfileSelector.SequentialPlanIgnoresRowOrder` | app/services/sms/sim_profile_selector.ts:134-164 | when no SIM holds the number, the sequential plan is the same whatever order the rows come in |
| `SimProfileSelector.FillOrderIsTotal` | app/services/sms/sim_profile_selector.ts:461-465 | fleet order is a total order that tells any two SIMs of a fleet apart |
| `SimProfileSelector.FetchSeesAllIff` | app/services/sms/sim_profile_selector.ts:399 | the query is sure to return a given eligible SIM if and only if at most 50 are eligible |
| `SimProfileSelector.FetchSeesSomeIff` | app/services/sms/sim_profile_selector.ts:399 | the query is sure to return some SIM of a wanted kind if and only if fewer than 50 others are eligible |
| `SimProfileSelector.FirstInFleetOrder` | app/services/sms/sim_profile_selector.ts:160 | the target is one of the candidates and none comes before it |
| `AllowanceLocking.LockedInterleavingsKeepCap` | app/services/sms/recipient_allowance.ts:33-102 | with transactions interleaved statement by statement and the SIM row locked from `reserve` on, distinct recipients on a capped SIM-day, not counting rows `recordSent` re-created after a release, never exceed the limit, whether or not the quota count locks too |
| `AllowanceLocking.CapNeedsTheLock` | app/services/sms/sim_profile_selector.ts:171-178 | the cap holds in all interleavings if and only if `reserve` holds the SIM row's lock to the end of the transaction, whatever the quota count does |
| `AllowanceLocking.ExactCountsNeedBothLocks` | app/services/sms/sms_result_service.ts:346-361 | the count a worker took is still true when it inserts, re-created rows included, in all interleavings if and only if both `reserve` and the quota count hold the lock |
| `RecipientCap.RunsKeepCap` | app/services/sms/recipient_allowance.ts:33-73 | in every run of the protocol, the distinct numbers a SIM has on a day, apart from rows that a report re-created, are at most the limit in force throughout |
| `RecipientCap.OwnCapIsKept` | app/services/sms/recipient_allowance.ts:80-102 | in every run a SIM with a cap of its own has no more numbers on a day than its cap and the re-created rows together |
| `RecipientCap.RecreatedWereSent` | app/services/sms/recipient_allowance.ts:80-102 | a re-created row stays for the rest of the run, and a message was sent on it |
| `CapExceeded.CapIsExceededByAny` | app/services/sms/recipient_allowance.ts:86-92 | for every n some run leaves a SIM that may take one number a day with n of them |
| `LeakedSlots.StepLeaksIff` | app/services/sms/recipient_allowance.ts:116-140 | in every step from a sound state, a row that carries nothing and nobody needs stays so unless a dispatch takes it or a success is reported on it; any other row becomes one exactly when its last message is cancelled, or its hand-back is refused for another message to that number on that SIM |
| `LeakedSlots.LeakedIff` | app/services/sms/sms_service.ts:693-706 | after any run, a row carries nothing and nobody is in flight on it, if and only if some step abandoned it so and none redeemed it since |
| `LeakCauses.KeptForSomeDayIff` | app/services/sms/recipient_allowance.ts:131-138 | a hand-back is refused exactly when another message is in flight on that SIM to that number, on the slot's day or any other |
| `LeakCauses.AbandonedForAnotherDay` | app/services/sms/recipient_allowance.ts:131-138 | a row is abandoned only by a cancel of an assigned message, or for a message in flight on the same SIM and number on another day |
| `LeakCauses.OneDayLeaksNothing` | app/services/sms/recipient_allowance.ts:116-140 | in every run whose dispatches fall on one operator day and which cancels nothing a device has, every unused row has a message in flight on it |
| `LeakCauses.CancelUsesUpTheCap` | app/services/sms/sms_service.ts:693-706 | counterexample: after a dispatch and a cancel nothing was sent or is in flight, and the SIM is full |
| `LeakCauses.YesterdayKeepsTodaysSlot` | app/services/sms/recipient_allowance.ts:131-138 | counterexample: a failed message's slot of today stays because yesterday's message to the number is still in flight there |
| `AllowanceLocking.RowsHaveOneWriter` | app/services/sms/recipient_allowance.ts:57-71 | in every interleaving, a row one transaction has written is written by no other until it ends |
| `AllowanceLocking.AloneIsClaim` | app/services/sms/recipient_allowance.ts:33-73 | a dispatching transaction with nothing else under way leaves the rows of the protocol's claim |
| `AllowanceLocking.AloneIsRecordSent` | app/services/sms/recipient_allowance.ts:80-102 | a reporting one leaves those of its count |
| `AllowanceLocking.RaceBreaksCap` | app/services/sms/sim_profile_selector.ts:171-178 | counterexample without the lock: two workers see the last slot free and both take it |
| `RecipientAllowance.ReleaseKeepsCounts` | app/services/sms/recipient_allowance.ts:116-140 | a release changes no `messages_sent`, whatever row it removes |
| `LedgerCounts.ReplacingShiftsCount` | app/services/sms/recipient_allowance.ts:80-102 | replacing one message shifts the count of sent attempts on a slot by exactly that message's own change |
| `StaleWrites.DeadlineRecheckIsSoundIff` | app/services/sms/sms_result_service.ts:215-235 | expiring whatever is not terminal when the row lock is taken keeps the message sound if and only if it is not SENT by then |
| `StaleWrites.LeaseRecheckIsEnough` | app/services/sms/sms_result_service.ts:176-178 | what the lease sweep re-checks under the lock is, for every sound message, all its query asked for |
| `StaleWrites.UnlockedCancelIsSoundIff` | app/services/sms/sms_service.ts:693-706 | a cancel written over a row that moved on keeps message and events sound if and only if nothing was published about it by then: it is still waiting or in flight, or a dispatch ended it in silence; the row alone breaks exactly when it had been sent |
| `StaleWrites.CancelAfterFailureAnnouncesTwice` | app/services/sms/sms_service.ts:693-724 | counterexample without any send: the cancel reads the message in flight, the last attempt fails, and the tenant is told of both endings |
| `StaleWrites.CancelAfterSweepAnnouncesTwice` | app/services/sms/sms_service.ts:693-724 | the same for every waiting message the deadline sweep ends first |
| `RetryPolicy.JitterStaysNearBase` | app/services/sms/retry_policy.ts:61-64 | a wait is within a quarter of its base, rounding aside, and never below one second |
| `RetryPolicy.WaitsAreWithinAQuarterIff` | app/services/sms/retry_policy.ts:61-64 | the whole seconds some draw gives are exactly those within a quarter of the base, rounding halves up |
| `RetryPolicy.BackoffGrows` | app/services/sms/retry_policy.ts:26-47 | a later step of the retry ladder waits longer than an earlier one, whatever is drawn |
| `SmsDispatcher.WalkShortlist` | app/services/sms/sms_dispatcher.ts:205-231 | the loop reserves, claims and gives back row by row, and ends as the walk specifies: the SIM taken with its rows, or none |
| `SmsDispatcher.PickRouteFor` | app/services/sms/sms_dispatcher.ts:143-243 | the route or the wait, and the rows left behind, are those the protocol step specifies |
| `SmsDispatcher.DeferMessage` | app/services/sms/sms_dispatcher.ts:253-292 | the new wait and the reason shown, a stale reason cleared and a failed attempt's kept |
| `SmsDispatcher.AssignMessage` | app/services/sms/sms_dispatcher.ts:294-353 | the message and its new attempt row |
| `SmsDispatcher.RequeueUndeliveredBy` | app/services/sms/sms_dispatcher.ts:391-432 | slot, message, attempt and reservation are all handed back |
| `SmsDispatcher.DispatchMessage` | app/services/sms/sms_dispatcher.ts:74-141 | the whole new state is the protocol's dispatch step; exactly a dispatched message adds one hand-off |
| `SmsDispatcher.DispatchBatch` | app/services/sms/sms_dispatcher.ts:52-72 | a batch is a run of dispatch steps, one per message counted, stopped by the limit or an idle turn; it counts exactly the jobs devices were handed, the messages that expired and those that failed for want of a body |
| `SmsResultService.LockOwnedMessage` | app/services/sms/sms_result_service.ts:586-615 | a report is about the latest attempt its device made, and is current exactly when that attempt holds the message |
| `SmsResultService.Acknowledge` | app/services/sms/sms_result_service.ts:45-60 | the new state is the protocol's acknowledgement step |
| `SmsResultService.HandleResult` | app/services/sms/sms_result_service.ts:71-87 | the new state is the protocol's result step, for success, current failure and late failure |
| `SmsResultService.HandleDelivered` | app/services/sms/sms_result_service.ts:98-151 | the new state is the protocol's delivery report step |
| `SmsResultService.EnsureSentBy` | app/services/sms/sms_result_service.ts:250-324 | messages, ledger and counters after a success: counted once per attempt, an overtaken attempt called off |
| `SmsResultService.SupersedeCurrentAttempt` | app/services/sms/sms_result_service.ts:372-412 | the overtaken attempt is failed as superseded and its slot handed back, and nothing else |
| `SmsResultService.CountSend` | app/services/sms/sms_result_service.ts:346-361 | quota and ledger each gain one, on today and on the attempt's own day |
| `SmsResultService.RetryOrFailWith` | app/services/sms/sms_result_service.ts:506-575 | slot handed back, then queued again or failed, as decided |
| `SmsResultService.ApplyFailureTo` | app/services/sms/sms_result_service.ts:414-443 | attempt failed, then retried or given up |
| `SmsResultService.ApplyLateFailureTo` | app/services/sms/sms_result_service.ts:450-483 | a late failure changes only an attempt that was not settled |
| `SmsResultService.SweepExpiredLeases` | app/services/sms/sms_result_service.ts:160-199 | a sweep, with a clock reading and a draw for each row and the code's own re-check, is a run of lease steps, whatever became of the rows since they were selected; no row keeps a lease that ran out by its turn, only rows of the sweep changed, and it returns how many did |
| `SmsResultService.SweepExpiredMessages` | app/services/sms/sms_result_service.ts:204-240 | a sweep, with a clock reading for each row and the code's own re-check, is a run of deadline steps; afterwards every selected row has ended, no other message changed, and it returns how many did |
| `SmsResultService.ReturnedLedgerIgnoresAttempt` | app/services/sms/sms_result_service.ts:506-530 | closing the attempt first does not change which slot is handed back, or whether it is |
| `Database.Tables.ClaimSlot` | app/services/sms/recipient_allowance.ts:33-73 | held, full or taken; a row is added exactly when taken |
| `Database.Tables.RecordSentOn` | app/services/sms/recipient_allowance.ts:80-102 | the slot's count grows by one, the row created if absent |
| `Database.Tables.ReleaseSlot` | app/services/sms/recipient_allowance.ts:116-140 | the row goes exactly when it carried nothing and no other message to that number is in flight on that SIM; no other row goes, and no count changes |
| `Database.Tables.CountQuota` | app/services/sms/sms_result_service.ts:672-689 | the sends counted for the SIM today grow by one, those of any other day read as none, and no other SIM is touched |
| `Database.Tables.ReserveSim` | app/services/sms/sim_profile_selector.ts:179-219 | both windows taken, or neither |
| `Database.Tables.ReleaseSim` | app/services/sms/sim_profile_selector.ts:228-240 | whatever windows a reservation was granted on, and whenever, releasing it restores everyone's availability from that moment on |
| `GatewayAssignment.AssignGatewayTo` | app/services/gateway/gateway_assignment.ts:128-171 | the new assignment, and the stranded messages of a tenant that lost the device failed |
| `GatewayAssignment.FailStrandedRows` | app/services/gateway/gateway_assignment.ts:188-214 | every waiting message of that tenant that names the device, and no other, is failed |
| `SmsService.CancelBy` | app/services/sms/sms_service.ts:688-727 | the new state is the protocol's cancel step; refused as not found or forbidden exactly when it should be |
| `RequestedRoute.ResolvedRoutesAreAllowed` | app/services/sms/requested_route.ts:30-99 | a granted route is on a pool device or the tenant's own, the tenant's own if named by code, on a slot it has, and names the slot asked for |
| `RequestedRoute.EqualKeysResolveEqually` | app/services/sms/sms_service.ts:371-382 | two requests with one key that have the same names, or are refused alike, resolve alike |
| `RequestedRoute.ResolveAlikeIff` | app/services/sms/sms_service.ts:371-382 | two requests with one key resolve alike, whatever devices are on record, if and only if they have the same names, or name two devices each, or one each that is unknown: a uid with a pipe, or what is no device code |
| `RequestedRoute.AdmittedMemoIsSoundIff` | app/services/sms/sms_service.ts:371-382 | whatever a validator lets through: a request may rely on the memo, with anything admitted in the same call and any devices on record, if and only if every admitted reading of its joined names at another pipe is such a pair with it |
| `RequestedRoute.RouteMemoIsSoundIff` | app/services/sms/sms_service.ts:371-382 | when nothing is refused beforehand that comes to `MemoSafe`, of the request alone: with two names, neither the uid begins nor the device ends with a pipe; with one, it has no pipe, except one at the outer end of a name that is no device code |
| `RequestedRoute.PipesConfuseRoutes` | app/services/sms/sms_service.ts:375 | counterexample for every other request: an admitted one with the same key, and devices with uids as the platform issues them, with which the two resolve differently |
| `RequestedRoute.LongReadingsAreRefused` | app/validators/sms.ts:22-54 | with the lengths the request validator admits, two names whose only pipe begins the uid are safe, though not `MemoSafe`, if and only if together they are too long for a device's name |
| `RequestedRoute.TypedPipeIsConfused` | app/services/sms/sms_service.ts:375 | the plainest case, with names of admitted length: a device code typed with a pipe after it resolves, and shares its key with a uid that does not |
| `SmsAcceptance.SendOnceUnderAKey` | app/services/sms/sms_service.ts:133-142 | a send keeps the unique index, and repeated under its key with the same number and text, whatever came in between, writes nothing and returns the first message |
| `SmsAcceptance.EntryKeysAreInjective` | app/services/sms/sms_service.ts:257 | derived keys of different positions, or of different request keys, are different |
| `SmsAcceptance.RowFitsIff` | app/services/sms/sms_service.ts:178-195 | a row fits the unique index exactly when its key is not taken |
| `AcceptedRows.WrittenRowsAreQueued` | app/services/sms/sms_service.ts:151-177 | whatever rows acceptance writes, the platform goes from a reachable state to a reachable one with one new queued message per row, with its tenant, number, operator, device, slot, attempts allowed and deadline, and no other message changed |
| `SmsService.SendMessage` | app/services/sms/sms_service.ts:125-233 | with other requests committing between check and insert, a send behaves as if it ran at one moment: before them when it writes nothing, after them when it tries to |
| `SmsService.SendBatch` | app/services/sms/sms_service.ts:243-283 | with other requests committing during every entry, the loop sends entry by entry, each at one moment of its own |
| `SmsService.AloneIsBatch` | app/services/sms/sms_service.ts:243-283 | with no other commits that is the batch specified by single sends |
| `SmsService.BatchEntryIsSentOnce` | app/services/sms/sms_service.ts:257 | a keyed entry that was accepted, sent again later while anything else commits, writes nothing and returns the first message |
| `SmsService.Chunked` | app/services/sms/sms_service.ts:799-805 | the pieces joined are the list; every piece is full but the last, none empty |
| `SmsService.InsertBulk` | app/services/sms/sms_service.ts:528-604 | all rows are written, exactly when they fit the unique index, or none |
| `BulkAcceptance.SafeRoutesMayUseMemo` | app/services/sms/sms_service.ts:371-382 | entries may use the route memo when no name has a pipe, and when a validator admits all of them and each is safe among what it admits |
| `BulkAcceptance.MemosAgreeWithLookups` | app/services/sms/sms_service.ts:352-390 | for entries that may use the route memo, operator and route memos give what direct lookups give |
| `BulkAcceptance.BulkJudgesEachEntry` | app/services/sms/sms_service.ts:316-412 | each entry is judged as `send` would judge it alone, except that a repetition of an entry already taken is refused |
| `BulkLaws.BatchFollowsJudgements` | app/services/sms/sms_service.ts:243-283 | with unused keys a batch writes the row of every fit entry and answers each by its own judgement |
| `BulkLaws.BulkDiffersOnlyOnRepeats` | app/services/sms/sms_service.ts:298-469 | with unused keys, an entry is answered differently by bulk and batch exactly when bulk refuses it as DUPLICATE_RECIPIENT, which is exactly when an earlier entry was taken with the same number and text |
| `BulkLaws.BulkMatchesBatchIff` | app/services/sms/sms_service.ts:298-469 | with unused keys and entries that may use the route memo, bulk writes the same rows and answers the same as batch if and only if the request repeats no sendable entry |
| `BulkLaws.RepeatsAreRefusedIff` | app/services/sms/sms_service.ts:340-350 | bulk refuses some entry as a repetition if and only if the request repeats a sendable entry |
| `BulkLaws.BulkReplayIsAbsorbed` | app/services/sms/sms_service.ts:412-521 | a keyed request sent again, whatever was written in between and with fresh uids, inserts no row, returns the first call's message for every entry it accepted, and refuses the others alike |
| `BulkLaws.BulkKeepsKeysUnique` | app/services/sms/sms_service.ts:528-604 | on its own, a bulk request never violates the unique index |
| `BulkSend.Validate` | app/services/sms/sms_service.ts:316-412 | the validating loop refuses and keeps entries as specified, and reports exactly the refusals |
| `BulkSend.JudgeEntry` | app/services/sms/sms_service.ts:317-410 | one turn of that loop, its three maps included |
| `BulkSend.ResolveBulkReplays` | app/services/sms/sms_service.ts:476-521 | entries whose key is used get their replay or conflict, the others are returned in order, and no other result is touched |
| `BulkSend.WritePass` | app/services/sms/sms_service.ts:420-448 | a pass that succeeds writes what the request comes to after the rival commits; one that fails writes nothing, and a rival row holds one of its keys |
| `BulkSend.SendBulk` | app/services/sms/sms_service.ts:298-469 | the call behaves as if it ran at one moment after what was committed before its insert, gives every index its result, needs at most two passes, and crashes only if a rival takes a key during the second as well |
| `BulkSend.CommitDidNotMatter` | app/services/sms/sms_service.ts:414-448 | if the insert succeeds, what rivals committed since the check changes no answer and no row |
| `BulkSend.ConflictIsWithOthers` | app/services/sms/sms_service.ts:444-447 | if it fails, a rival's row holds the key of one of the entries |
| `MessageEncoder.CountSeptets` | app/services/sms/message_encoder.ts:35-47 | the loop over characters counts septets, or finds the text outside the alphabet |
| `MessageEncoder.EncodeMessage` | app/services/sms/message_encoder.ts:56-88 | the result is the specified encoding, length, segments and remaining room |
| `MessageEncoder.AppendingNeverLowersSegments` | app/services/sms/message_encoder.ts:56-88 | appending any text never lowers the segment count, even across the switch to UCS-2 |
| `MessageEncoder.SegmentsAreLeast` | app/services/sms/message_encoder.ts:70-88 | one segment up to 160 septets or 70 code units, and beyond that the least number of parts of 153 or 67 that holds the length |
| `MessageEncoder.RemainingIsExact` | app/services/sms/message_encoder.ts:70-88 | a text appended without changing the encoding keeps the segment count if and only if its length is at most `remaining` |
| `MessageEncoder.LengthIsMeasured` | app/services/sms/message_encoder.ts:56-88 | the length is that of the septets that spell the text, or of its code units, and with the remaining room it fills the parts |
| `MessageEncoder.EncodingIsGsm7Iff` | app/services/sms/message_encoder.ts:6-16 | a text travels as GSM-7 if and only if the alphabet of section 6.2.1 of 3GPP TS 23.038 spells it and it has no backslash and no form feed |
| `MessageEncoder.SpelledTextsAreCounted` | app/services/sms/message_encoder.ts:35-47 | the septets counted are exactly those that spell the text |
| `MessageParts.NoCutBeatsTheCount` | app/services/sms/message_encoder.ts:83-88 | a long GSM-7 body cannot be cut, between characters, into fewer parts than are charged |
| `MessageParts.GreedyPartsAreLeast` | app/services/sms/message_encoder.ts:83-88 | a GSM-7 body can be cut between characters into at most k parts if and only if filling each part as far as it goes takes no more than k |
| `MessageParts.ChargeIsExactIff` | app/services/sms/message_encoder.ts:83-88 | a long GSM-7 body can be cut into exactly the parts charged if and only if that filling takes no more than are charged; it never takes fewer, nor more than if every part lost one septet |
| `MessageParts.PlainTextFillsTheCount` | app/services/sms/message_encoder.ts:83-88 | without extended characters it can be cut into exactly that many |
| `MessageParts.EscapeMayNeedAnotherPart` | app/services/sms/message_encoder.ts:83-88 | counterexample with one: a body charged as two parts that fits no two |
| `GsmAlphabet.DefaultAlphabetIsABijection` | app/services/sms/message_encoder.ts:6-8 | positions other than the escape and characters of the default alphabet match one to one |
| `AmountParser.ParsingUndoesPrinting` | app/services/ussd/ussd_parsers.ts:46-70 | a whole number in groups of three, separated by any mix of spaces, dots and commas, parses to 100 times itself |
| `AmountParser.ParsingReadsHundredths` | app/services/ussd/ussd_parsers.ts:46-70 | a final dot or comma and two digits add exactly those hundredths |
| `AmountParser.ParsingReadsSigns` | app/services/ussd/ussd_parsers.ts:46-70 | a leading minus negates either |
| `AmountParser.OnlyAmountsParse` | app/services/ussd/ussd_parsers.ts:46-53 | whatever parses has a digit and nothing but digits, dots, commas, white space and a minus |
| `AmountParser.UnsignedReadsAllDigits` | app/services/ussd/ussd_parsers.ts:46-70 | any unsigned amount is worth its digits read as one number, in hundredths when exactly two digits follow the last point and in whole units otherwise; none when nothing stands before that point |
| `AmountParser.MinusNegates` | app/services/ussd/ussd_parsers.ts:46-70 | a leading minus negates whatever text follows, unless that starts with a minus |

## Left out

- Two clock readings within one dispatch: each transaction reads the clock once.
- The window between a dispatch's commit and a failed hand-off's `requeueUndelivered`, which writes from memory without locking the row again: the two are one step, so nothing happens in between.
- Spacing of reservations at microsecond precision: pacing is over real seconds.
- SmsResultService.SweepExpiredMessages: takes each row as it was selected, or ended, when its transaction comes; `StaleWrites.DeadlineRecheckIsSoundIff` says when that matters.
- SmsService.CancelBy: takes reading and saving as one step; `StaleWrites.UnlockedCancelIsSoundIff` says when that matters.
- Priority and age order among due messages: a dispatch may be of any due message.
- The preference order `compare` itself, with success rates and on-net routing: the shortlist is any arrangement of the right candidates.
- `sentAt`, `deliveredAt`, `failedAt`, `queuedAt`, `providerMessageId`, error texts and timeline rows: no transition reads them.
- The content of `dispatchBody` after acceptance: the protocol keeps whether there is one.
- Webhook delivery, its dedupe keys and the job queue: a published event is an entry of the message's trace.
- Deleting SIMs, devices, tenants or messages, and changing limits, rates or operators during a run.
- Device readiness, balances, connections and offline cut-offs: the set of usable SIMs at each dispatch.
- WebSocket framing, timers, LISTEN/NOTIFY, HTTP controllers, validators, authentication, audit records, logging.
- USSD sessions and the rest of the USSD parsers: they choose the text the amount parser gets.
- SQL rows that violate uid uniqueness: uids are assumed fresh; only idempotency keys can collide.
- Length limits of columns, such as 128 characters for an idempotency key with its index appended.
- Trimming of `to` before normalisation: the number is taken as already trimmed, as the request validator leaves it.
- The content key of bulk as one string: number and fingerprint are a pair.
- JavaScript number precision: lengths, counts and amounts are unbounded integers, and an amount of zero has no sign.
- AllowanceLocking.LockedInterleavingsKeepCap: takes a transaction's statements alone, not what they are run for; it goes on to the next SIM when one is full or its device taken, and committed rows are visible to every statement. Postgres's waiting is a statement that changes nothing until it can run. `RecipientCap` has the cap for the protocol's own steps, each atomic.
- BulkLaws.BulkMatchesBatchIff: assumes that entries with one key in the route memo may share an answer, which `ResolveAlikeIff` shows to be needed, and that the derived keys are unused, because a batch answers a replay before it looks at operator and route and a bulk request after.
- MessageParts.ChargeIsExactIff: surrogate pairs split between UCS-2 parts are not treated.

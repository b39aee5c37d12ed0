# QueueFlow verification model

A Dafny 4.11 model of QueueFlow's queue: the ticket table with its status machine, append-only event
log and service interactions; call-next with skipped row locks; the no-show sweep; idempotent replay;
the signage board and its event stream. `dafny verify dfyconfig.toml` checks everything.

## How it is organised

| file | what it holds |
|---|---|
| Fsm.dfy | the transition table, the event types, the database trigger |
| Tickets.dfy | rows, logs, interactions; `Effect`, what each request writes once it holds the row lock; invariants that survive every interleaving |
| SerialRows.dfy | the stronger row invariants that hold when requests run alone |
| Queueing.dfy | the selection of call-next; draining a queue |
| Interleaving.dfy, ConcurrentSafety.dfy | READ COMMITTED transactions as steps (unlocked read, locked write through the trigger, commit, abort; call-next in one step; number read and insert apart) and what every run keeps |
| Serial.dfy, SerialSafety.dfy, Fairness.dfy, Idempotency.dfy, Numbering.dfy | requests and jobs one at a time, as steps between database states, and theorems over whole runs |
| Outcomes.dfy | what every request and job answers and writes, column by column, stated without the functions that compute it |
| Stores.dfy | the repository, service and worker methods in place, each proved to make exactly the step of its request |
| Refinement.dfy | every serial run is an interleaved run; what stale reads can do in the others |
| Boards.dfy | the signage queries, and which changes of the table they show |
| Signage.dfy, EventStream.dfy | commit-then-publish against subscribe-then-snapshot; the stream as text, read back as the WHATWG HTML Standard, section 9.2.6 (Interpreting an event stream), says |

Conventions. A ticket's id is its position in the table, which never loses a row. One clock serves the
application and the database, never runs backwards, and stands still within a serial request. The body
hash is an arbitrary function; no theorem assumes it injective. Ties on (priority, created_at) are left
open, as PostgreSQL leaves them. A header's value arrives without spaces around it. An abort releases
locks and forgets pending rows.

## What turned out false, and when it holds

- Number allocation is documented as atomic (backend/app/repositories/ticket_repo.py:87, docs/performance.md).
  It is a plain read: `Numbering.TwoCreationsRace` gives two tickets one number. Without moves between
  locations `Numbering.DuplicateIffMaximumMoved` and, over whole runs, `Numbering.DistinctIffNoInsertMoved` say
  exactly when; `Numbering.SameMaximumNoDuplicate` holds with them.
- A number should be unique at its location (docs/data-model.md). A transfer carries its number along, and
  needs no race: `Numbering.TransferIntoTakenNumber`; exactly when: `Numbering.DistinctIffNoneEntersTaken`.
- A retried keyed request should take effect once. A key longer than its 255-character column, and a key
  whose record has expired and is not cleaned up yet, answers no attempt and fails every save, after the
  effect is committed: `Idempotency.OverlongKeyCreatesTwice`, `Idempotency.OverlongKeyCallsTwice`,
  `Idempotency.CreationRetriedAfterADay`, `Idempotency.CallNextRetriedAfterADay`. Exactly when:
  `Idempotency.CreationRetryIff`, `Idempotency.CallNextRetryIff`, `Idempotency.RetryIff`.
- The board should follow every change. The sweep publishes nothing, a transfer to another location
  publishes only there, and a request whose record cannot be saved publishes nothing:
  `Signage.SweepLeavesBoardStale`, `Signage.TransferAwayLeavesBoardStale`, `Signage.FailedSaveLeavesBoardStale`;
  exactly when: `Signage.CommitShownIff`.
- `from_status` should be the previous status. Under interleaving it is the status read:
  `Refinement.TwoCancellations`; exactly when: `Refinement.HistoryFaithfulIffAllFresh`.
- The sweep should take only CALLED tickets. A stale one also takes a re-queued WAITING ticket:
  `Refinement.SweepTakesRequeuedTicket`, `Refinement.StaleSweepPassesIff`. A ticket its query found is no
  longer stuck exactly when it was rewritten since: `Refinement.SweptWronglyIffRewritten`.
- A `Last-Event-ID` made of digits should resume. `isdigit` accepts superscripts that `int` rejects, and
  Python 3.11 converts no more than 4300 digits, either way: `EventStream.ResumeFailsIff`,
  `EventStream.ResumeAfterPrinted`, `EventStream.NinesSendNothing`.

Where documentation and code differ the model follows the code: a heartbeat carries an id
(docs/adr/0003-sse-vs-websocket.md shows a bare comment); a ticket on hold can be canceled
(the diagram of docs/data-model.md has no such arrow); the idempotency record is saved by a second
commit after the effect (docs/architecture.md draws one transaction).

## Model

| member | source | states |
|---|---|---|
| `Fsm.Transition` | backend/app/state_machine/ticket_fsm.py:96-113 | a permitted transition returns its target and never leaves a terminal status or stays put; a refused one names both ends |
| `Fsm.EventTypeFor` | backend/app/state_machine/ticket_fsm.py:77-122 | whatever the pair, listed or falling back, the event is named after the status entered |
| `Fsm.TriggerIsTable` | backend/migrations/versions/0003_db_state_machine_and_immutable_events.py:27-64 | the trigger accepts exactly the stutters and the edges of the Python table |
| `Fsm.TableIsDiagram` | backend/app/state_machine/ticket_fsm.py:40-72 | the table has the documented arrows and one more, HOLD to CANCELED |
| `Tickets.Closed` | backend/app/services/ticket_service.py:250-254 | closing a ticket's interactions leaves none open and keeps their number |
| `Tickets.NewRowSound` | backend/app/services/ticket_service.py:65-86 | a ticket stored as WAITING with a CREATED event satisfies every history and interaction invariant |
| `Tickets.EffectSound` | backend/app/repositories/ticket_repo.py:134-165 | a write decided on any stale read and passed by the trigger on the live row keeps history, call and interaction invariants, only appends to the log, and never leaves a terminal status |
| `Tickets.FreshReadPasses` | backend/migrations/versions/0003_db_state_machine_and_immutable_events.py:27-72 | a check made on the live status is never overruled by the trigger |
| `SerialRows.EffectOrderly` | backend/app/repositories/ticket_repo.py:142-165 | a request that runs alone keeps event counts, true previous statuses, ordered stamps that match the log, interactions matching the calling counter, and the arrival balance |
| `SerialRows.NewRowOrderly` | backend/app/services/ticket_service.py:65-86 | a new ticket satisfies all serial invariants |
| `Queueing.SelectNext` | backend/app/repositories/ticket_repo.py:31-39 | the scan returns an unlocked ticket WAITING at the location, for the service asked for if one is, before which no such ticket comes by (priority, created_at), and none only if every one is locked |
| `Queueing.CallRunRemoves` | backend/app/repositories/ticket_repo.py:30-60 | repeated call-nexts take exactly the called tickets out of the queue, one each, touch no other row, and cannot outnumber the queue |
| `Queueing.CallRunInOrder` | backend/app/repositories/ticket_repo.py:37-38 | they take matching tickets in queue order and none twice |
| `Queueing.Drain` | backend/app/repositories/ticket_repo.py:30-60 | from any table, calling until null ends |
| `Queueing.DrainingSorts` | backend/app/repositories/ticket_repo.py:30-60 | calling until null enumerates the matching tickets, each once, in order of (priority, created_at) |
| `Queueing.DrainIsTheSortedList` | backend/app/repositories/ticket_repo.py:30-60 | without ties the result is the one sorted list of the matching tickets |
| `Interleaving.StepKeepsInv` | backend/app/repositories/ticket_repo.py:30-60 | every read, write, claim, commit and abort keeps rows sound, locks exclusive, and pending rows computed from the rows as committed now |
| `Interleaving.CommitSparesOthers` | backend/app/repositories/ticket_repo.py:134-165 | a commit does not touch a row another open transaction has pending |
| `Interleaving.RunKeepsInv` | backend/app/repositories/ticket_repo.py:109-132 | so does any run, which also only grows logs and keeps terminal statuses |
| `Interleaving.OnlyCommitsShow` | backend/app/db/session.py:35-61 | only a commit changes the table; a step moves no transaction but its own; commit and abort end it |
| `Interleaving.CommitOutcome` | backend/app/db/session.py:35-61 | a commit replaces exactly the rows its transaction wrote, or adds one row after the others |
| `Interleaving.WriteOutcome` | backend/migrations/versions/0003_db_state_machine_and_immutable_events.py:27-72 | a write the trigger refuses ends the transaction with nothing of it left; an accepted one adds its row and forgets nothing read or written |
| `ConcurrentSafety.StateMachineSafety` | backend/migrations/versions/0003_db_state_machine_and_immutable_events.py:27-87 | in every interleaving each ticket's history is a walk in the state machine replaying to its status, CREATED and TRANSFERRED are never committed, logs only grow, terminal statuses are final |
| `ConcurrentSafety.NoDoubleCall` | backend/app/repositories/ticket_repo.py:28-60 | no two open transactions hold one ticket; between two calls it was re-queued; calls number at most 1 + transfers |
| `ConcurrentSafety.InteractionsAccounted` | backend/app/services/ticket_service.py:184-255 | one interaction per IN_SERVICE event, all closed once COMPLETED, none before, an open one while IN_SERVICE |
| `ConcurrentSafety.CallTakesFree` | backend/app/repositories/ticket_repo.py:31-39 | a call-next takes a free ticket and only that one stops being free; it returns null only when none is free |
| `ConcurrentSafety.OverlappingCallsConserveWork` | backend/app/repositories/ticket_repo.py:95-120 | overlapping call-nexts return distinct tickets, and the k-th returns one exactly if at least k were free |
| `Numbering.MaxBounds` | backend/app/repositories/ticket_repo.py:86-93 | no number at the location exceeds the maximum, so the next number is new there |
| `Numbering.MaxReached` | backend/app/repositories/ticket_repo.py:86-93 | the maximum is a number in use |
| `Numbering.SerialNumbersInOrder` | backend/app/services/ticket_service.py:64-74 | through both creation paths and without cross-location transfers, the n-th ticket created at a location has number n |
| `Numbering.TransferIntoTakenNumber` | backend/app/services/ticket_service.py:299-307 | without any race: a transfer takes number 1 to a location that has its own number 1 |
| `Numbering.DistinctIffNoneEntersTaken` | backend/app/services/ticket_service.py:299-307 | in any serial run numbers stay distinct at every location exactly if no transfer takes a ticket into another location where its number is in use |
| `Numbering.SameMaximumNoDuplicate` | backend/app/repositories/ticket_repo.py:86-93 | in every interleaving, transfers included: an insert whose number reading the maximum again would give duplicates nothing |
| `Numbering.DuplicateIffMaximumMoved` | backend/app/api/v1/kiosk.py:59-78 | in every interleaving without moves to another location: an insert duplicates a number exactly when reading the maximum again would give another number |
| `Numbering.DistinctIffNoInsertMoved` | backend/app/repositories/ticket_repo.py:86-93 | in any interleaved run without moves to another location numbers are distinct at every location exactly if no creation inserted a number after the maximum it read was raised |
| `Numbering.TwoCreationsRace` | backend/app/repositories/ticket_repo.py:86-93 | two number reads before either insert give one number to two tickets |
| `Serial.StepChange` | backend/app/services/ticket_service.py:107-320 | every step changes the ticket table in one of four ways: not at all, one insert, one permitted rewrite, or the sweep |
| `Serial.StepKeys` | backend/app/repositories/ticket_repo.py:185-206 | every step keeps the records, cleans them, or adds one whose key had none |
| `Serial.StepKeepsValid` | backend/migrations/versions/0001_initial_schema.py:228 | every step keeps all rows orderly and no (tenant, key) with two records |
| `Serial.CleanedKeeps` | backend/app/workers/tasks.py:106-111 | cleanup keeps exactly the records not expired before now |
| `SerialSafety.SerialHistories` | backend/app/services/ticket_service.py:107-318 | with k transfers a ticket has 1+4k events WAITING, 2+4k CALLED, 3+4k IN_SERVICE, 4+4k HOLD or COMPLETED, never over 5+4k; replay, previous statuses, event times, stamps and visits agree |
| `SerialSafety.DurationsNonNegative` | backend/app/repositories/analytics_repo.py:41-66 | the wait and service durations the KPI queries average are never negative, old stamps of transferred tickets included |
| `Outcomes.CreateOutcome` | backend/app/services/ticket_service.py:45-105 | a record answers with its ticket; else a missing service or location changes nothing; else one row is added, every column given, numbered one above the location's largest, then record and publication |
| `Outcomes.KioskOutcome` | backend/app/api/v1/kiosk.py:36-96 | the same with the location's tenant and priority 5; an unknown location is not found |
| `Outcomes.CallNextOutcome` | backend/app/api/v1/counters.py:55-120 | unknown counter 404, another tenant's 403, a record answers with its ticket or a conflict; else null exactly when no ticket is WAITING there for the service asked for; else a first such ticket, every column and its event given, no other row, then record and publication |
| `Outcomes.TicketOutcome` | backend/app/services/ticket_service.py:107-320 | hold, cancel, no-show, start, complete, transfer: 404, 403, 409 and missing targets each with its cause and no change; otherwise every column, event and interaction of the ticket given, no other row changed, then record and publication |
| `Outcomes.AcceptedIff` | backend/app/services/ticket_service.py:107-320 | which requests, keyed or not, take effect unless a record answers: exactly those on the tenant's own ticket in an accepting status, a transfer only into an existing service and location; the others change nothing; the ticket's location is published once, or not at all if the key is stored or too long to store |
| `Outcomes.SweepIsExact` | backend/app/workers/tasks.py:135-154 | a sweep turns exactly the tickets CALLED over five minutes ago into NO_SHOW, one event each, and changes nothing else |
| `Outcomes.CleanupOutcome` | backend/app/workers/tasks.py:106-111 | cleanup deletes exactly the records that expired before now, and changes nothing else |
| `Outcomes.CleanupFreesKeys` | backend/app/workers/tasks.py:106-111 | after a cleanup a key that had a record can be saved again exactly if that record had expired before |
| `SerialSafety.TransferRequeues` | backend/app/services/ticket_service.py:299-318 | a transferred ticket matches its new queue and keeps its order relative to every other ticket, which is untouched |
| `SerialSafety.ArrivalGoesToTheBack` | backend/app/services/ticket_service.py:64-74 | a new ticket joins the queue asked for behind every ticket of the same or better priority; the kiosk's priority is 5 |
| `SerialSafety.WaitingCountConserved` | backend/app/repositories/ticket_repo.py:237-241 | a location's waiting count is arrivals minus departures in the logs of the tickets there |
| `SerialSafety.CalledAtMostFifteenMinutes` | backend/app/workers/celery_app.py:39-43 | in any run a ticket still CALLED was called at most five minutes before the last sweep, so not over fifteen minutes ago while that sweep is at most ten minutes old |
| `Fairness.CallTakesOneAhead` | backend/app/repositories/ticket_repo.py:32-38 | an unfiltered call-next that leaves a ticket waiting takes one that was ahead of it |
| `Fairness.StepAhead` | backend/app/repositories/ticket_repo.py:32-38 | no other step lengthens the line ahead of a waiting ticket, except a better arrival or transfer in, by one |
| `Fairness.BoundedOvertaking` | backend/app/repositories/ticket_repo.py:32-38 | with r tickets ahead, a ticket has stopped waiting within r + 1 + (tickets that came in ahead) unfiltered call-nexts |
| `Fairness.ArrivalOvertakesIff` | backend/app/repositories/ticket_repo.py:37 | a later arrival comes in ahead exactly with strictly better priority, or the same priority at the same clock instant |
| `Idempotency.LookupIff` | backend/app/repositories/ticket_repo.py:173-183 | lookup finds a record exactly when it is stored and unexpired |
| `Idempotency.LiveRecordAnswers` | backend/app/services/ticket_service.py:54-62 | while a record lives, a request bearing its key changes nothing and gets the recorded ticket, or a conflict if a compared body differs |
| `Idempotency.ReplayIsStable` | backend/app/api/v1/counters.py:69-90 | the same after any serial run of any requests and jobs |
| `Idempotency.RetryWithinADay` | backend/app/services/ticket_service.py:158-207 | a keyed request retried within 24 hours returns the same ticket and does nothing, whatever ran in between |
| `Idempotency.EffectiveIff` | backend/app/api/v1/counters.py:69-110 | a keyed request takes effect exactly if lookup finds no record and what it acts on or names is there; its save fails, and nothing is published, exactly if the key has over 255 characters or a record |
| `Idempotency.RetryIff` | backend/app/repositories/ticket_repo.py:173-206 | any keyed request sent again within a day, any run in between: both take effect exactly if the key is too long or has an expired record at first, and both times lookup finds none and what the request acts on or names is there |
| `Idempotency.ExpiredStaysInvisible` | backend/app/repositories/ticket_repo.py:173-206 | until cleanup runs, whatever else does, an expired record stays and lookup finds none for its key |
| `Idempotency.UnsavableStaysInvisible` | backend/app/models/idempotency_key.py:19 | a key over 255 characters is never found and never saved, whatever runs, cleanups included |
| `Idempotency.CreationRetryIff` | backend/app/services/ticket_service.py:54-101 | a keyed creation, staff or kiosk, sent again within a day before any cleanup creates two tickets exactly if its service and location exist and its key is too long or an expired record of it was stored; neither is published |
| `Idempotency.CallNextRetryIff` | backend/app/api/v1/counters.py:69-110 | a keyed call-next sent twice in a row calls two tickets exactly if its key is too long or an expired record of it is stored, and at least two match; neither is published |
| `Idempotency.TicketRetrySafe` | backend/app/services/ticket_service.py:158-255 | a keyed start or completion sent twice in a row takes effect at most once, whatever is stored |
| `Idempotency.OverlongKeyCreatesTwice` | backend/migrations/versions/0001_initial_schema.py:220 | a creation sent twice with a key of 256 characters or more, to whatever valid database, leaves two more tickets, none announced |
| `Idempotency.OverlongKeyCallsTwice` | backend/migrations/versions/0001_initial_schema.py:220 | a call-next sent twice with such a key calls two tickets, none announced |
| `Idempotency.CreationRetriedAfterADay` | backend/app/api/v1/kiosk.py:36-96 | from any valid database without records: a keyed creation and two more a day later leave three tickets, one announced |
| `Idempotency.CallNextRetriedAfterADay` | backend/app/api/v1/counters.py:69-120 | from the empty database: a keyed call-next and two more a day later call three tickets, one announced |
| `Idempotency.CleanupInvisible` | backend/app/workers/tasks.py:106-111 | inserting cleanups anywhere in a serial run whose saves succeed changes no response, row, publication or later lookup |
| `Stores.Store.NextNumber` | backend/app/repositories/ticket_repo.py:86-93 | one more than the location's maximum, zero if it has no ticket |
| `Stores.Store.GetIdempotencyKey` | backend/app/repositories/ticket_repo.py:173-183 | the unexpired record of (tenant, key), if any |
| `Stores.Store.SaveIdempotencyKey` | backend/app/repositories/ticket_repo.py:185-206 | adds a record for 24 hours, or nothing when the key has over 255 characters or a record, expired or not |
| `Stores.Store.CallNextTicket` | backend/app/repositories/ticket_repo.py:95-132 | claims a next ticket and rewrites only its row |
| `Stores.Store.TransitionStatus` | backend/app/repositories/ticket_repo.py:134-165 | refuses an illegal transition without change; otherwise sets the status, the start stamp on IN_SERVICE, the end stamp on the three terminal statuses, no other column, and appends one event from the previous status |
| `Stores.Store.ReplayCheck` | backend/app/services/ticket_service.py:54-62 | the replay decision before a keyed request acts |
| `Stores.Store.SaveAndPublish` | backend/app/services/ticket_service.py:91-105 | the record is saved, then the ticket's location is published; a failing save leaves the effect and skips publication |
| `Stores.Store.CreateTicket` | backend/app/services/ticket_service.py:45-105 | makes the creation step; a missing service or location changes nothing |
| `Stores.Store.KioskCreateTicket` | backend/app/api/v1/kiosk.py:36-96 | makes the kiosk step, tenant taken from the location |
| `Stores.Store.CallNext` | backend/app/api/v1/counters.py:35-120 | makes a call-next step: counter and tenant checks, replay, claim, record, publication |
| `Stores.Store.HoldTicket` | backend/app/services/ticket_service.py:107-119 | makes the hold step |
| `Stores.Store.CancelTicket` | backend/app/services/ticket_service.py:121-135 | makes the cancellation step |
| `Stores.Store.ReportNoShow` | backend/app/services/ticket_service.py:137-149 | makes the no-show step |
| `Stores.Store.StartService` | backend/app/services/ticket_service.py:151-210 | makes the start step, opening an interaction at the assigned counter |
| `Stores.Store.CompleteTicket` | backend/app/services/ticket_service.py:212-272 | makes the completion step, closing every open interaction |
| `Stores.Store.TransferTicket` | backend/app/services/ticket_service.py:278-320 | makes the transfer step: TRANSFERRED, then WAITING at the target with no counter, or all rolled back if the target is missing |
| `Stores.Store.StuckTickets` | backend/app/workers/tasks.py:137-142 | lists each ticket CALLED over five minutes ago once |
| `Stores.Store.AutoNoShowCalledTickets` | backend/app/workers/tasks.py:125-154 | makes the sweep step |
| `Stores.Store.CleanupIdempotencyKeys` | backend/app/workers/tasks.py:100-111 | makes the cleanup step: exactly the records not expired before now stay |
| `Refinement.RequestRuns` | backend/app/repositories/ticket_repo.py:134-165 | a request that runs alone is a read, write and commit of the interleaved system |
| `Refinement.SerialRunIsInterleaved` | backend/app/db/session.py:35-61 | every serial run is reproduced by an interleaved run with the same table |
| `Refinement.FaithfulIffFresh` | backend/app/repositories/ticket_repo.py:142-160 | a write leaves the recorded previous statuses true exactly when the status it read is still the live one |
| `Refinement.HistoryFaithfulIffAllFresh` | backend/app/repositories/ticket_repo.py:142-160 | in any interleaved run all previous statuses recorded for a ticket are true exactly if every committed request on it had read the status it replaced |
| `Refinement.TwoCancellations` | backend/app/repositories/ticket_repo.py:142-160 | two cancellations that both read WAITING both succeed, and the second logs a false previous status |
| `Refinement.StaleSweepPassesIff` | backend/app/workers/tasks.py:137-154 | a stale sweep's write passes the trigger exactly on CALLED, WAITING or NO_SHOW tickets |
| `Refinement.SweptWronglyIffRewritten` | backend/app/workers/tasks.py:135-154 | whatever runs between a sweep's query and its writes, a ticket the query found is stuck no longer exactly if it was rewritten since, given that no call-next of the run read its clock over five minutes before the sweep |
| `Refinement.SweepCommitsAllItFound` | backend/app/workers/tasks.py:144-154 | whatever runs meanwhile, a sweep that comes to its commit marks every ticket its query found NO_SHOW, each CALLED, WAITING or NO_SHOW until then, and no other |
| `Refinement.RefusedSweepMarksNone` | backend/app/workers/tasks.py:144-158 | a sweep one of whose writes the trigger refuses marks nothing and never commits |
| `Refinement.SweepTakesRequeuedTicket` | backend/app/workers/tasks.py:137-154 | a ticket served and transferred while the sweep runs ends NO_SHOW in its new queue |
| `Boards.NewestFirstSorts` | backend/app/repositories/ticket_repo.py:216-236 | each list on the board is its matching tickets, latest call first |
| `Boards.BoardSays` | backend/app/repositories/ticket_repo.py:209-241 | the board lists the five latest called tickets in service and the ten latest called, each once, with their own number, counter, service and time, and counts the waiting ones |
| `Boards.NewestFirstWithout` | backend/app/repositories/ticket_repo.py:216-236 | taking tickets away and sorting by latest call commute |
| `Boards.LimitWithout` | backend/app/repositories/ticket_repo.py:216-236 | taking tickets away leaves the first n of a list alone exactly if none of them is taken |
| `Boards.BoardKeptIff` | backend/app/repositories/ticket_repo.py:216-241 | when tickets leave, the board is unchanged exactly if none was waiting, among the five latest being served or among the ten latest called |
| `Boards.OneChangeShows` | backend/app/repositories/ticket_repo.py:216-241 | when one ticket changes, the board does exactly if the ticket is shown before or after and contributes something else |
| `Signage.CommitChangesBoardIff` | backend/app/services/ticket_service.py:317-337 | a commit changes a location's board exactly if it changes a ticket shown there before or after |
| `Signage.SignageConverges` | backend/app/services/signage_service.py:67-96 | once the stream has read its messages and nothing awaits saving or publication, the board equals the location's current lists and count, with queries run at different moments |
| `Signage.CommitShownIff` | backend/app/services/ticket_service.py:91-105 | from a settled board, a commit is followed by a settled one exactly if its request publishes there and its record can be saved, or it changes no ticket shown there before or after |
| `Signage.SweepLeavesBoardStale` | backend/app/workers/tasks.py:144-154 | a sweep of the only called ticket leaves the board showing it as called |
| `Signage.TransferAwayLeavesBoardStale` | backend/app/services/ticket_service.py:299-319 | a ticket in service transferred to another location publishes there, and the old board goes on serving it |
| `Signage.FailedSaveLeavesBoardStale` | backend/app/api/v1/counters.py:95-120 | a call-next whose record cannot be saved leaves the board counting its ticket as waiting |
| `Signage.SaveOutcome` | backend/app/repositories/ticket_repo.py:185-206 | a save settles its own request only: it stores the key and owes a publication, or fails and owes none |
| `Signage.PublishesAsServed` | backend/app/services/ticket_service.py:317-339 | the locations a transaction publishes to here are those the serial step publishes to, if its save succeeds |
| `Signage.SavedAsServed` | backend/app/repositories/ticket_repo.py:185-206 | a save succeeds here exactly when it does in the serial step |
| `EventStream.PrintableIff` | backend/app/services/signage_service.py:72-76 | a number can be printed exactly if it is below ten to the 4300th |
| `EventStream.ResumeAfterPrinted` | backend/app/services/signage_service.py:70 | resuming from a number in decimal continues after it exactly if it could have been printed, and raises otherwise |
| `EventStream.ResumeFailsIff` | backend/app/services/signage_service.py:70 | resuming raises exactly on a header of digits with a superscript among them or longer than 4300 |
| `EventStream.ResumeIff` | backend/app/services/signage_service.py:70 | resuming gives zero without a header or on one not all digits, and n exactly on at most 4300 digits that are n in decimal after any zeros |
| `EventStream.NinesSendNothing` | backend/app/services/signage_service.py:70-84 | 4300 nines resume, but no id is left to print and nothing is sent; one nine more does not resume |
| `EventStream.PrintItems` | backend/app/services/signage_service.py:72-100 | the generator's loop prints the items with consecutive ids, and raises exactly when they outnumber the printable ids left, after sending those before |
| `EventStream.SseStream` | backend/app/services/signage_service.py:50-100 | the stream starts after the resumed id; it raises exactly if resuming does or its last id would have more than 4300 digits |
| `EventStream.StreamRoundTrip` | backend/app/services/signage_service.py:72-100 | reading a complete output back gives exactly the non-empty payloads in order with their ids; heartbeats only move the id |
| `EventStream.CutStream` | backend/app/services/signage_service.py:78-100 | a connection cut at any character delivers exactly the blocks that arrived whole and leaves the last id at the last of them |
| `EventStream.IdsIncreaseAcrossReconnects` | backend/app/services/signage_service.py:62-100 | across any number of reconnects, cut anywhere or ended by an unprintable id, the ids one client sees strictly increase |

## Left out

- Authentication, roles, row-level security, rate limits, audit log: only the actor's tenant is an input.
- Notes, channel, actor, `updated_at`, event payloads and interaction outcomes: stored and passed through, never branched on.
- Foreign keys other than a ticket's service and location: a missing channel or tenant would only add an error answer that changes nothing. Status strings outside the nine cannot be written past the check constraint.
- The frontend, administration, AI suggestions, analytics percentiles and time series.
- Clock skew between application and database: one clock. Times passing within a serial request: one instant.
- Timestamps under interleaving: a request reads its clock before it waits for the lock, so `occurred_at` order is stated for serial runs only.
- Idempotency across crashes and races between the two commits: stated for serial runs where both commits happen.
- Statement-level effects inside one locked write, deadlock detection and isolation other than READ COMMITTED: a request's statements after it holds the lock are one step.
- SQLAlchemy's identity map on the long-lived stream session, Redis delivery failures other than a swallowed publish, heartbeat timing, and the average wait and snapshot time on the board.
- Order among equal `called_at` values on the board: table order is used, PostgreSQL leaves it open.
- Header characters beyond Latin-1: a header cannot carry them.
- The sweep's returned count and log lines; the 32-bit width of the number column.
- SweptWronglyIffRewritten: excludes a call-next that read its clock over five minutes before the sweep's and runs after its query, because clock readings are not ordered between transactions.
- DistinctIffNoInsertMoved: excludes transfers to another location, as DuplicateIffMaximumMoved does.
- SignageConverges: covers no lost publication, no failed save and no unpublished commit that changes a shown ticket, because the code then leaves the board stale; CommitShownIff says exactly when.
- SerialNumbersInOrder: excludes transfers to another location, because a moved ticket keeps its old number; DistinctIffNoneEntersTaken says what the others keep.
- DuplicateIffMaximumMoved: excludes interleavings with transfers to another location, because a moved ticket can raise the maximum without taking the number; SameMaximumNoDuplicate keeps the half that survives.
- CreationRetryIff: excludes a cleanup between the two attempts unless the key is too long, because it may take the expired record; RetryIff covers it.
- SerialHistories: states true previous statuses and stamp order for serial runs only; HistoryFaithfulIffAllFresh says which interleaved runs keep the former.
- CalledAtMostFifteenMinutes: the fifteen minutes need the ten-minute schedule met and each sweep to succeed, which no code here enforces.

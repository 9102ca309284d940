# A verified model of the demand-aggregation marketplace

Customers ask for an item, sellers make offers on the pooled demand, an admin decides the
offers, and an approval lets one seller reach the customers behind one request. Four services
hold the state and tell each other about it: request-service (Go), offer-service (Python),
admin-service (Go) and notification-service (Python). Events travel through a transactional
outbox in each producer, a relay, a broker and a deduplicating consumer.

The Dafny files model that state and every step that changes it, failures included, and prove
what the system promises over all runs.

| file | content |
|---|---|
| `Base.dfy` | shared vocabulary |
| `Inbox.dfy` | notification-service: wire schema, table constraints, `record_event`, `_handle`, `mark_read` |
| `Outbox.dfy` | `Enqueue`, the two-attempt publisher, the relay's drain loop against a one-walk reference, progress |
| `Relaying.dfy`, `Consuming.dfy` | the two halves of the notification path as step machines |
| `Delivery.dfy` | both halves composed: nothing lost, exactly once in effect, relays exclude each other |
| `Blocking.dfy`, `Recovery.dfy` | once nothing fails any more every schedule settles, and exactly which rows stay pending behind one that makes its relay raise |
| `EndToEnd.dfy` | from the service that writes an event to the inbox of the user it is for |
| `Links.dfy` | `Relay.Drain` and `InboxStore.Handle` as runs of the step machines |
| `Demand.dfy`, `DemandEffects.dfy` | request-service's operations run alone, and what they mean |
| `DemandTx.dfy` | the same operations as interleaved transactions, statement by statement: the database of a serial run, and its answers but for one |
| `JoinedEvents.dfy`, `Text.dfy` | the events those operations write, and that the inbox takes them |
| `Offers.dfy`, `OfferService.dfy` | the offer life cycle, with handlers split at the unlocked read and as uninterrupted steps; the handlers' answers, events and reports |
| `OfferCounts.dfy` | best-effort reports of live-offer counts to request-service |
| `Contact.dfy` | decisions across three services, offer-service's handlers split at their unlocked reads, and the contact permission they give |
| `ContactRuns.dfy` | runs of it: an undisturbed decision, one whose reply is lost, and one that a handler in mid-flight undoes |
| `Admin.dfy` | admin-service's `Decide`, `Revoke` and lookups one call at a time, and their link to `Contact` |
| `Migration.dfy` | the repair in offer-service's migration 0003 |
| `Sarif.dfy` | the script that merges Trivy reports |

Two styles appear side by side. A class with methods is the imperative code of one service,
proved against a specification function. A `State`/`Step`/`Enabled`/`Apply` machine is the
same code cut at every point where another process, a crash or the network can come in
between; a legal run of it is any behaviour those pieces allow together.

Terms used below: an outbox row *carries* something when it decodes to at least one
notification; an event is *accounted for* when it is applied, queued, delivered and not yet
acknowledged, or dead-lettered; an offer is *live* when PENDING or APPROVED; a run
of the decision protocol is *calm* when no handler in mid-flight would write an offer differently
at the moment its PATCH is written.

## What turned out not to hold

* A create that finds its item carried reads the request and then, in a second statement and with
  no lock on the row, whether the caller is on it. What it hands over is the row of the first
  read, and that answer may be the serial one at no moment (`DemandTx.LeaveBetweenReads`: the
  caller's own leave commits in between). `DemandTx.HandedOverExactly` says at which moments it is;
  every other answer is the serial one (`DemandTx.Linearizable`).
* A decided offer has a committed decision only if some call that was told yes also committed
  (`Contact.DecidedOfferHasDecisionIff`). A lost reply leaves the offer decided and no decision
  (`ContactRuns.LostReplyOrphans`), and nothing later repairs it (`Contact.OrphansStayOrphans`).
* A committed approval and a revocation are final only if no handler in mid-flight would write the
  offer differently when its PATCH is written. `ContactRuns.StaleCancelReopens` is a run in which a
  stale cancellation undoes an approval and a second approval grants a revoked contact again; what
  holds without the condition is stated without it (`Contact.DecisionsSafe`,
  `Contact.ContactsTraceBack`).
* A decided offer is not always frozen: the handlers check and write without holding the row.
  `Offers.OverlapUndoesApproval` is a run in which a cancellation overwrites an approval.
  `Offers.FrozenIff` is the exact condition, in any state and over all continuations: no handler
  between its read and its write would write the offer differently and can still get its write
  past the index. `Offers.DecidedOffersFrozen` and `Offers.OffersOverRuns` are the guarantees for
  runs without overlap.
* Count reports carry no version, so an old one delivered late wins
  (`OfferCounts.LateReportOverwrites`). `OfferCounts.TotalsDrift` says exactly how far off the
  total is: by the offers that entered the live set less those that left it since the count that
  was applied last.
* offer-service's relay takes `list` of the payload and has no branch that gives a row up. A null,
  a number or a boolean in the payload column makes it raise, and the row blocks the queue: a
  queue clears exactly when no pending row raises (`Outbox.ClearsIff`), and what does get through
  before it is `Outbox.RaisingRowBlocksQueue`. A second replica reaches past the row exactly while
  another holds it (`Blocking.OvertakesIff`, `Recovery.SecondReplicaOvertakes`). Any other payload that is no list of notifications
  is sent as it stands and dead-lettered. The Go relays retire what they cannot decode and never
  raise.
* The index of migration 0003 can be built exactly when no seller had two APPROVED offers on
  one request (`Migration.IndexBuildsIff`).
* A NEW_OFFER event to more than 500 admins is one the inbox refuses
  (`OfferService.AnnouncementDeliverableIff`).
* The SARIF script's comment says the tool's name is kept from the first run; the code fixes
  it to "Trivy" before any run is read, and the model follows the code (`Sarif.DriverOf`).

## Model

| member | source | states |
|---|---|---|
| Inbox.TrimSpec | notification-service/app/schemas.py:36-42 | stripping keeps the longest stretch that neither starts nor ends with a strippable character, and nothing exactly when all are strippable |
| Inbox.TitleRefusedIff | notification-service/app/schemas.py:33-42 | of a title in an otherwise good notification: refused exactly when empty, over 200 characters or all white space |
| Inbox.NoteAcceptedIff | notification-service/app/schemas.py:29-42 | exactly which notifications the schema accepts, field by field |
| Inbox.AcceptedNoteIs | notification-service/app/schemas.py:29-42 | an accepted one keeps user and type, has its channel or IN_APP, and title and message from first to last visible character |
| Inbox.EnvelopeAcceptedIff | notification-service/app/schemas.py:55-68 | an envelope is accepted exactly with a source of 1 to 64 characters and 1 to 500 notifications, each acceptable |
| Inbox.BuildStores | notification-service/app/service.py:44-70 | an in-app notification is stored SENT with the time, any other PENDING without |
| Inbox.AcceptNotesEach | notification-service/app/schemas.py:55-68 | an accepted list is accepted entry by entry, in order, none dropped |
| Inbox.AcceptedNotePassesChecks | notification-service/app/models.py:110-128 | a notification the schema accepts builds a row that satisfies every CHECK, `sent_at` against status included; the narrower database trim removes nothing more |
| Inbox.AcceptedEnvelopePassesChecks | notification-service/app/service.py:114-118 | so for an accepted envelope no CHECK can fail, and the only constraint left is the event id |
| Inbox.InboxStore.RecordEvent | notification-service/app/service.py:98-122 | rows and processed-event key are written together or not at all, one row per notification in order, in-app ones SENT now and others PENDING; DuplicateEvent exactly when the id was there already; a failure after the commit leaves the event applied |
| Inbox.InboxStore.Handle | notification-service/app/events.py:92-124 | an acknowledged message's event is applied; a malformed one is dead-lettered and changes nothing; whatever changes is the whole event, once |
| Inbox.InboxStore.MarkRead | notification-service/app/service.py:152-175 | found exactly for the owner's row; only SENT becomes READ; no other row changes; the checks still hold |
| Outbox.Publisher.PublishEvent | request-service/internal/events/publisher.go:93-152 | an empty list succeeds and sends nothing; otherwise success exactly when the first attempt succeeds, or was made and failed and the second succeeds, and the queue grows by one copy per attempt that succeeded or failed after the broker took it |
| Outbox.WalkStep | request-service/internal/events/outbox.go:123-129 | the SELECT's batch and the reference walk meet the same rows in the same order |
| Outbox.Relay.RelayRow | request-service/internal/events/outbox.go:158-186 | one turn of the loop, for each kind of payload: what is sent under which id and source, how the row is marked, whether the loop goes on and what it counts; no other row changes |
| Outbox.Relay.RelayBatch | offer-service/app/events.py:233-258 | the loop over the batch computes the reference walk, wherever a statement fails, with each producer's own treatment of payloads that are no list of notifications |
| Outbox.Relay.Drain | request-service/internal/events/outbox.go:116-192 | a committed drain is the reference walk over the table; a failed one leaves the table alone while what was published stays published, and never more than the walk publishes |
| Outbox.DrainSettlesPrefix | request-service/internal/events/outbox.go:158-192 | a drain settles exactly a prefix of the eligible rows, bumps attempts on the row that stopped it, and touches nothing behind it |
| Outbox.DrainMarksRows | request-service/internal/events/outbox.go:194-222 | every row a drain changes was eligible and keeps its event; it is published without an error, retired with one because it cannot be decoded, or still pending with one, and only the row that stopped the drain is the last |
| Outbox.HealthyDrainsClear | offer-service/app/events.py:214-261 | with a healthy broker n pending rows are cleared by k drains exactly when k is at least n/100 rounded up |
| Outbox.ClearsIff | offer-service/app/events.py:233-250 | with a healthy broker k drains leave nothing pending exactly when k is at least n/100 rounded up and no pending row makes the relay raise, which in the Go relays none does |
| Outbox.RaisingRowBlocksQueue | offer-service/app/events.py:235-250 | the rows before the first that raises go, 100 at a time; it stays pending and nothing behind it is published or changed, however many drains run |
| Relaying.RowsPersist | request-service/internal/events/outbox.go:194-222 | every step only adds rows, keeps their event, and never changes a published row |
| Relaying.CommitKeepsOthers | request-service/internal/events/outbox.go:113-129 | committing one drain leaves every other open drain the rows it read |
| Relaying.LoopNeverStuck | request-service/internal/events/outbox.go:158-190 | an open drain can always take its next turn or commit |
| Relaying.InvStep | request-service/internal/events/outbox.go:116-192 | every step keeps: row locks exclusive, drains' marks consistent with their rows, retired rows with an error, rows that raise unpublished |
| Consuming.AccountedStays | notification-service/app/events.py:92-124 | no step of broker or consumer, fault or not, loses track of an event: only an applied one is acknowledged |
| Consuming.InvStep | notification-service/app/service.py:98-122 | every step keeps: open transactions hold different free keys, and the inbox is exactly the promised notifications of the processed events |
| Delivery.NoEventLost | request-service/internal/events/outbox.go:24-45 | in every reachable state each committed event is unpublished, applied, queued, in a consumer's hands or dead-lettered, a row its relay cannot decode is pending or retired with its error, and one it raises on is pending |
| Delivery.ExactlyOnce | notification-service/app/service.py:98-122 | over all interleavings the rows the inbox holds of an event id are the notifications its outbox row was committed with, accepted, each once and in order, if `processed_event` has the id, and none otherwise |
| Delivery.InAppIsSent | notification-service/app/service.py:53-58 | in every reachable state every in-app notification is SENT or READ with its time, and every other PENDING without |
| Delivery.RelaysExcludeEachOther | request-service/internal/events/outbox.go:113-129 | no outbox row is in two open drains, and none that is committed as published is in any |
| Delivery.PublishedIsFinal | request-service/internal/events/outbox.go:123-129 | a row committed as published never changes again |
| Delivery.PublishedOnceCommitted | request-service/internal/events/outbox.go:34-40 | and no later step of any run selects or publishes it |
| Recovery.HealthyRunsAreBounded | offer-service/app/events.py:199-261 | every step that is neither a failure nor new input decreases a measure, so runs of such steps are bounded |
| Recovery.EveryScheduleSettles | request-service/internal/events/outbox.go:87-109 | from every reachable state every schedule without failures ends within that bound, and where no healthy step is left nothing is open or on its way, every published event is applied or dead-lettered, and a pending row has a raising one at or before it in its outbox |
| Blocking.OvertakesIff | offer-service/app/events.py:220-229 | a SELECT whose batch holds a row leaves out a raising row before it exactly when another drain has that one locked |
| Recovery.BlockedRowsStay | offer-service/app/events.py:235-250 | a pending row at or behind one that raises, and in no open drain, stays pending in every run, failures and new input included, in which no drain takes it while another holds the raising row |
| Recovery.SecondReplicaOvertakes | offer-service/app/events.py:220-229 | and while another holds it, a drain that starts with the row behind it gets that row published |
| Recovery.AlwaysRecoverable | request-service/internal/events/outbox.go:52-58 | from every reachable state there is a continuation with no failure in it, its drains taking the SELECT's batches and its only extraordinary steps replays of dead letters, after which every published event is applied or, if the schema refuses it, dead-lettered; of the pending rows no drain holds exactly the blocked ones are left |
| Links.DrainIsARun | request-service/internal/events/outbox.go:116-192 | an undisturbed drain, however its publishes go, is a legal run that leaves the table and the broker as the reference walk of `Relay.Drain` does |
| Links.HandleIsARun | notification-service/app/events.py:92-124 | an undisturbed `Handle`, whatever fault strikes, is a legal run that leaves inbox, processed events and message as its specification says |
| EndToEnd.EventArrives | notification-service/app/service.py:98-122 | once everything is at rest an acceptable event that is not blocked is in the inbox: its notifications, once, in order |
| EndToEnd.EnqueuedNeverBlocked | offer-service/app/events.py:148-166 | nothing is ever blocked in a run whose rows all come from `Enqueue` |
| EndToEnd.ArrivalsAreTold | request-service/internal/requests/service.go:205-214 | the REQUEST_JOINED events are those of the committed creates and joins in their order, and once at rest the user who made each has exactly one notification of it |
| EndToEnd.SellerIsTold | admin-service/internal/admin/service.go:266-301 | the seller has exactly one notification of each event a decision wrote |
| EndToEnd.AdminsAreTold | offer-service/app/service.py:116-131 | each of up to 500 admins has exactly one notification of a new offer |
| Demand.FindSpec | request-service/internal/store/requests.sql.go:97-137 | the lookup by item finds a request carrying the item, or there is none |
| Demand.SerialKeepsDbOk | request-service/internal/store/requests.sql.go:480-509 | every operation keeps totals and status derived from the rows, and one request per item |
| Demand.EnsureAnswersTheItem | request-service/internal/requests/service.go:240-289 | find-or-create answers with a stored request for the item, new and INACTIVE without an owner exactly when none was there; only a blank name nobody carries is refused |
| Demand.CreateRefusedIff | request-service/internal/requests/service.go:155-219 | a create is refused when the item is carried, with that request unless the caller is on it, or when the table rejects name or quantity; otherwise the creator is its one participant |
| Demand.TotalsFit | request-service/internal/store/requests.sql.go:489-494 | customers <= quantity <= customers * (2^31 - 1) < 2^63, and both are zero together |
| Demand.RowOpsKeepOffers | request-service/internal/requests/service.go:470-507 | participant operations change no offer total |
| Demand.RequestService.CreateRequest | request-service/internal/requests/service.go:155-219 | the transaction as written is the serial operation; a new request, its creator as the one participant, and the event to the acting user are written out field by field |
| Demand.RequestService.EnsureForItem | request-service/internal/requests/service.go:240-289 | likewise, with nobody on the request and no event |
| Demand.RequestService.MutateRequest | request-service/internal/requests/service.go:470-507 | likewise for join, update, leave and the offer count: totals from the rows, and an event for a join alone |
| DemandEffects.RowOpRefusedIff | request-service/internal/requests/service.go:398-463 | a row operation is refused exactly for the stated reason (a quantity or count the table rejects, twice on, not on), in the order the database finds it, and a refusal changes nothing |
| DemandEffects.MissingRequest | request-service/internal/requests/service.go:302-332 | a row operation is told RequestNotFound exactly when the request is not there, and then nothing changes |
| DemandEffects.RowOpEffect | request-service/internal/requests/service.go:470-507 | one that goes through changes what its own customer wants and the sum by exactly that, nobody else's entry and no other request |
| DemandEffects.LeaveUndoesJoin | request-service/internal/requests/service.go:450-463 | leaving right after joining restores the request, totals and status included; only the event stays |
| DemandTx.CommitIsSerial | request-service/internal/requests/service.go:518-530 | at its commit a transaction does what the operation alone would do on the committed state |
| DemandTx.InsertLeavesOthers | request-service/internal/store/requests.sql.go:439-450 | the name lock, for any hash with collisions, keeps a committed insert from invalidating what another open transaction has read |
| DemandTx.RowCommitLeavesOthers | request-service/internal/store/requests.sql.go:452-478 | the row lock does the same for operations on existing requests |
| DemandTx.Linearizable | request-service/internal/requests/service.go:518-530 | every interleaving leaves the database of its finished operations run one after the other and gave their answers, except for the request handed to a refused create |
| DemandTx.HandedOverExactly | request-service/internal/requests/service.go:337-350 | that answer is the row as the create found it, the caller not on it at the check; of the moments from look-up to answer it is the serial answer at exactly those at which the row is the same and the caller is not on it |
| DemandTx.CreateRefusedOverRuns | request-service/internal/requests/service.go:168-174 | over all runs a create that finds its item carried is told AlreadyParticipant exactly when the caller is on the request at the check, and otherwise handed the request as found |
| DemandTx.LeaveBetweenReads | request-service/internal/requests/service.go:337-350 | from any quiet state with a request whose one participant is the caller, a run whose answer is the serial one neither before nor after |
| DemandTx.OneCreateReachesIt | request-service/internal/requests/service.go:155-219 | such a state is reached by one create |
| DemandTx.DemandAlwaysDerived | request-service/internal/store/requests.sql.go:480-509 | in every committed state totals are count and sum of the participants, status is INACTIVE exactly when nobody wants or sells, and the totals fit |
| DemandTx.ItemsNeverSplit | request-service/internal/requests/service.go:155-174 | under any interleaving two requests never share an item key |
| DemandTx.EnsureAlwaysAnswersTheItem | request-service/internal/requests/service.go:240-289 | whatever else runs, every find-or-create that answered did so with the asked-for key, or refused a blank name |
| DemandTx.OneEventPerArrival | request-service/internal/requests/service.go:205-214 | over any run the outbox holds one REQUEST_JOINED row per committed create and join, in commit order: to the acting user, with their quantity, the request's name and the count and sum of its participants after that commit |
| JoinedEvents.JoinedDeliverable | request-service/internal/requests/service.go:418-428 | the inbox takes the event of a create or join whose item name is at most 200 long |
| JoinedEvents.JoinsReachTheInbox | request-service/internal/requests/dto.go:165-181 | so over any interleaving of operations with names the handlers let through every event ever written is acceptable |
| Offers.OneLivePerSellerAndRequest | offer-service/app/models.py:139-148 | in all runs, racing handlers included: at most one live offer per seller and request, and parties never change |
| Offers.DecidedOffersFrozen | offer-service/app/service.py:280-306 | without overlapping handlers on one offer, an offer that left PENDING keeps status, terms and picture |
| Offers.OverlapUndoesApproval | offer-service/app/service.py:266-306 | a run in which a cancellation that read before an approval was written overwrites it |
| Offers.LandedRow | offer-service/app/service.py:209-293 | what each handler's write leaves: an update in each column the value given if it differs from the one read and else the value now stored, a cancellation and a decision the status alone, a new offer as given and PENDING, and no other row |
| Offers.FrozenIff | offer-service/app/service.py:209-306 | in any state with handlers in mid-flight, a decided offer is the same at the end of every run exactly when no handler both would write it differently, an update only the columns it read otherwise, and is not held off for good by the index |
| Offers.ApprovedFrozenIff | offer-service/app/service.py:280-306 | for an APPROVED offer: exactly when no handler in mid-flight would write it differently |
| Offers.AtomicHandler | offer-service/app/service.py:59-145 | an uninterrupted handler keeps the index satisfied, the parties, and every offer that is not PENDING |
| Offers.OffersOverRuns | offer-service/app/service.py:209-306 | the same over all runs of uninterrupted handlers |
| Offers.CountAfter | offer-service/app/service.py:166-178 | a new offer adds one to its request's live count, a cancellation or rejection takes one, an approval or update none, and no other request's count moves |
| OfferService.OfferDesk.CreateOffer | offer-service/app/service.py:59-145 | refused with the standing live offer exactly when there is one; otherwise exactly the given offer, PENDING, and one event naming every admin are written together |
| OfferService.OfferDesk.UpdateOffer | offer-service/app/service.py:209-234 | each refusal exactly for its own reason; otherwise the given terms, the given picture or else the old one, and nothing else changed |
| OfferService.OfferDesk.CancelOffer | offer-service/app/service.py:266-277 | only the owner's PENDING offer, its status alone to CANCELLED, no other row |
| OfferService.OfferDesk.SetStatus | offer-service/app/service.py:280-293 | only a PENDING offer, its status alone to the verdict, no other row |
| OfferService.OfferDesk.SubmitRoute | offer-service/app/routers/offers.py:94-134 | accepted exactly when the seller had no live offer there, and then the reported count is one more than before |
| OfferService.OfferDesk.CancelRoute | offer-service/app/routers/offers.py:285-296 | a cancellation reports one less than before, a refusal nothing |
| OfferService.OfferDesk.StatusRoute | offer-service/app/routers/internal.py:52-71 | an approval reports the count it found, a rejection one less |
| OfferService.AnnouncementDeliverableIff | offer-service/app/service.py:116-131 | the inbox takes a NEW_OFFER event exactly when it names between 1 and 500 admins |
| OfferCounts.TotalsDrift | offer-service/app/routers/offers.py:126-130 | in every run, reports lost, repeated or delayed, the stored total is off from the live count by exactly the offers that entered less those that left the live set since the count applied last; it is right exactly when the two are equal |
| OfferCounts.TallyCounts | offer-service/app/routers/internal.py:60-70 | what entered are the new offers of the run on that request, what left its cancelled and rejected ones |
| OfferCounts.CountsConverge | request-service/internal/requests/service.go:302-332 | if the last report applied was counted after the last change of the live set, the total is the live count and the status is right |
| OfferCounts.OneReportRepairs | offer-service/app/service.py:166-178 | after any run, the next route that counts and gets its report through makes the total right |
| OfferCounts.LateReportOverwrites | offer-service/app/routers/offers.py:285-296 | a run of two routes, a cancellation and another seller's offer, whose reports arrive in the wrong order and leave a request with one live offer showing none |
| OfferCounts.DeliverIsSetOfferCount | request-service/internal/requests/service.go:302-332 | applying a report is the service's own operation |
| Contact.DecisionsSafe | admin-service/internal/admin/service.go:187-246 | in every run each offer has at most one committed decision, by a call that was told yes, and the access rows under an approval are one per participant read, in their order; in every calm run the decision equals the offer's status |
| Contact.DecidedOfferHasDecisionIff | admin-service/internal/admin/service.go:221-237 | in every calm run a decided offer has its decision exactly when a call that was told yes about it committed |
| Contact.OrphansStayOrphans | admin-service/internal/admin/service.go:412-424 | an offer whose yeses all went to calls that died, with no PATCH on it in mid-flight, stays decided without decision or grant for good |
| ContactRuns.LostReplyOrphans | admin-service/internal/admin/service.go:221-237 | from any state with an undecided PENDING offer a lost reply leads there: a rejection without a record, or an approval without a grant |
| ContactRuns.StaleCancelReopens | offer-service/app/service.py:266-306 | a run in which a cancellation that read before an approval undoes it and a second approval shows the seller a revoked contact again |
| Contact.CheckAgreesWithList | admin-service/internal/store/admin.sql.go:15-22 | the yes-or-no check agrees with the contact list, about one request and about any |
| Contact.ContactsAre | admin-service/internal/store/admin.sql.go:171-178 | the list has one entry for each row of that seller and request that is granted and unexpired, and no other, in their order |
| Contact.NoContactTwice | admin-service/internal/admin/service.go:372-391 | in every calm run no contact is listed twice |
| Contact.OneRowPerTriple | admin-service/internal/admin/service.go:206-217 | over all calm runs one contact-access row per seller, customer and request |
| Contact.RevocationIsFinal | admin-service/internal/admin/service.go:328-347 | after a revocation no later step of a calm run makes that triple effective again |
| Contact.CustomersWereParticipants | admin-service/internal/admin/service.go:166-185 | the customers an approval grants are the participants its request had at a moment of the run |
| Contact.ContactsTraceBack | admin-service/internal/admin/service.go:354-392 | in every run every contact shown traces back to a committed approval of that seller's own offer on that request, to a row still granted, and to a moment when the participants were the list the approval read; in a calm run the offer is still APPROVED |
| Admin.AdminService.Decide | admin-service/internal/admin/service.go:139-259 | recorded exactly when every condition holds; then one decision, one grant per customer in order, written out field by field, and the events, and otherwise nothing; each refusal exactly for its own reason |
| Admin.DecideIsARun | admin-service/internal/admin/service.go:187-246 | an undisturbed `Decide` writes what a legal run of the protocol in `Contact` writes |
| Admin.AdminService.Revoke | admin-service/internal/admin/service.go:328-347 | not found, already revoked, or exactly that row revoked |
| Admin.AdminService.ContactsForRequest | admin-service/internal/admin/service.go:354-392 | one card for each row of that seller and request that is granted and unexpired, in their order, each with its own phone; one failed lookup shows nothing; nobody without a grant is looked up |
| Admin.AdminService.HasContactAccess | admin-service/internal/admin/service.go:397-407 | yes exactly when some row is effective, the nil request asking about any |
| Admin.VerdictDeliverableIff | admin-service/internal/admin/service.go:266-288 | the inbox takes the verdict's event exactly when the reason is at most 1962 (approval) or 1939 characters, which the handler's limit of 1000 is well under |
| Admin.AccessNoteDeliverable | admin-service/internal/admin/service.go:291-300 | and always the event about contact access |
| Admin.DecisionEvents | admin-service/internal/admin/service.go:233-237 | a decision adds no event when the seller's user is unknown, one for a rejection, two for an approval that granted something, all to the seller and all acceptable to the inbox |
| Admin.VerdictSays | admin-service/internal/admin/service.go:266-283 | type, title and message of the verdict's notification, the reason at its end |
| Admin.AccessSays | admin-service/internal/admin/service.go:293-300 | and of the one about contact access |
| Text.DecimalReadsBack | admin-service/internal/admin/service.go:297-299 | the digits printed read back as the number |
| Migration.KeepIsFirst | offer-service/migrations/versions/0003_one_live_offer_per_seller.py:48-54 | the subselect yields the pair's first live offer in its order, or nothing when it has none |
| Migration.RepairCancelsIff | offer-service/migrations/versions/0003_one_live_offer_per_seller.py:44-54 | exactly the PENDING offers with a live one before them are cancelled; every other row is untouched |
| Migration.RepairLeavesOne | offer-service/migrations/versions/0003_one_live_offer_per_seller.py:43-55 | a pair with a live offer and at most one APPROVED keeps exactly one: the APPROVED one, else the newest |
| Migration.IndexBuildsIff | offer-service/migrations/versions/0003_one_live_offer_per_seller.py:57-63 | the index can be built exactly when no pair has two APPROVED offers |
| Migration.RepairIsIdempotent | offer-service/migrations/versions/0003_one_live_offer_per_seller.py:43-55 | running the repair again changes nothing |
| Migration.OfferTable.Upgrade | offer-service/migrations/versions/0003_one_live_offer_per_seller.py:35-63 | repairs and builds the index, or fails on two APPROVED offers of one pair and leaves the table as it was |
| Sarif.LabelRoundTrip | scripts/merge-trivy-sarif.py:40-47 | the workflow's file names give the image name back, whatever directory and image |
| Sarif.LabelOfOthers | scripts/merge-trivy-sarif.py:40-47 | other file names lose the short prefix, or keep their name |
| Sarif.LabellingIsSafe | scripts/merge-trivy-sarif.py:84-91 | a labelled text names its image, ends in the text as it was, and labelling twice is labelling once |
| Sarif.AddRulesKeepsFirst | scripts/merge-trivy-sarif.py:76-77 | merged ids are distinct, cover every id that occurs, and each rule is the first with its id |
| Sarif.AddRulesKeepsOrder | scripts/merge-trivy-sarif.py:95-96 | in the order the ids first occur |
| Sarif.RulesMergeInBatches | scripts/merge-trivy-sarif.py:76-77 | merging in batches keeps the same rules in the same order as merging at once |
| Sarif.MergeResults | scripts/merge-trivy-sarif.py:79-93 | the results of one run are appended in order, each with its rule id, message and properties as they were but for the label and the image, its index dropped |
| Sarif.Renumber | scripts/merge-trivy-sarif.py:98-101 | a result gets an index exactly when its rule is listed, the index points at that rule, and nothing else of it changes |
| Sarif.Merge | scripts/merge-trivy-sarif.py:50-112 | the results are the input's own, one for one by report, run and position, each labelled and otherwise as it was; one rule per id that occurs; and a result has an index exactly when some report has a rule with its id, which the rule it points at has (section 3.27.6 of SARIF 2.1.0) |

## Left out

- Frontend, HTTP routing, JWT and API-key checks, body decoding, configuration: plumbing without a hard invariant.
- auth-service, customer-service and seller-service: one-table updates and library calls; what they answer is a parameter here.
- AMQP connections, dialling and topology: the broker is a bag of messages with redelivery and a dead-letter bag.
- The ranking of similar item names and the inside of `request_item_key` and `hashtext`: arbitrary functions here, their SQL is not part of this model.
- Item and offer pictures beyond "kept unless replaced", paging, list endpoints and timestamps. `created_at` is an abstract order; `occurredAt` and the AMQP message id are not modelled, because only the body's event id is used for dedupe.
- The wording of offer-service's NEW_OFFER message: a parameter.
- A publish that reports success is taken to have reached the queue. The Go channel uses no confirms, so the code itself cannot know.
- Unique keys, CHECKs and row locks are taken as the database's word: rules of the tables, checked at each write. A waiting insert or lock is a step that is not enabled yet.
- The three producers' outboxes are one table keyed by event id, each row with its producer. For safety `Relaying.BeginDrain` may take any unlocked unpublished rows of one producer, which covers what SKIP LOCKED returns while other transactions come and go; in `Recovery` it takes the oldest 100.
- What is no list of notifications for Go's decoder is taken to be none for the consumer's schema either. The two differ in details (unknown fields) that no producer writes.
- Consuming.InvStep: the origin of a notification row is bookkeeping of the model, not a column; the HTTP create and bulk-create paths add rows without one.
- Recovery.EveryScheduleSettles: a drain whose first row raises only counts an attempt on it and is not counted as a step, since the relay polls such a row for ever.
- Recovery.AlwaysRecoverable: dead letters come back only by an operator's replay.
- Offers.OneLivePerSellerAndRequest: claims uniqueness only. The loser of a race fails at the flush, outside the `try`, so the 409 with the existing offer is not claimed for it.
- Offers.DecidedOffersFrozen: no overlap is sufficient, not necessary; the exact condition is `Offers.FrozenIff`.
- Offers.FrozenIff: a picture counts as one column, and `updated_at` is not modelled.
- Contact.DecisionsSafe: that the decision equals the offer's status is proved for calm runs only, in which no handler in mid-flight would write an offer differently when its PATCH is written; nothing in the code guarantees that.
- Contact.RevocationIsFinal: for calm runs, and of lookups that read the grants after the revocation. One that read them before can still answer with the phone number.
- OfferCounts.TotalsDrift: takes each offer-service handler's change as one atomic step.
- Contact.ContactsTraceBack: grants never expire, because `Decide` always writes a null expiry; the expiry test itself is modelled.
- Admin.AdminService.ContactsForRequest: rows granted in one transaction share their `granted_at`, so their order in the answer is the order of insertion here and unspecified in the database.
- Admin.AdminService.Revoke: access rows are named by position in the table rather than by UUID.
- Admin.VerdictDeliverableIff: a reason counts in characters; the handler's own limit counts bytes, which is stricter.
- Demand.RequestService.CreateRequest: description, category and picture of a request are not modelled.
- Sarif.Merge: reports are well-formed SARIF (a rule without an id makes the script fail), and reading and writing files is left out.
- Outbox.HealthyDrainsClear: one replica draining at a time and nothing enqueued meanwhile.

# Scarcity router: a verified model of its state machines

This project models, in Dafny, the in-process state machines and transformations at the heart of the
scarcity router gateway, and proves what they promise. Every file is one module.

- `ResponseStream` models the Responses stream encoder as an object that numbers events, beside a client that knows
  nothing but those events; `Transport` follows what a client has been told when calls are refused and the transport
  goes on. `History` models the decoder that groups a flat item list into chat messages.
- `Continuation` models the registry of suspended client-tool turns and its records as objects, lock region by lock
  region; `ContinuationProtocol` composes those regions with the threads of the coordinator into one state machine
  over every interleaving and every clock, `Delivery` shows that its threads can always get on and that what they
  deliver is recorded, and `Remembrance` follows over its runs how long a resolved token is answered with a conflict.
- `Concurrency` models the two-phase execution slots as objects and as a state machine carried across rebuilds.
- `Identifiers`, `Sources` and `Projections` model adoption and retirement of discovered models, the derived
  resource ids, and the two projections made from what is adopted.
- `Journal` models the durable producer journal, its retention, epochs and cursor replay; `Publication` models the
  failure-atomic publication of a worker's report over shared heap objects, on top of it, and `Cut` tells resource by
  resource what such a report puts in force and when it can be applied.
- `Limits`, `Pins`, `Bindings`, `Simulation` and `Audit` model effective limits, pinned references, retained request
  bindings, what-if capacity and the bounded audit trail.

A method is proved against a specification given by functions of its inputs or of the earlier state; the main results
are lemmas over all inputs or all runs, or methods that drive an object through any sequence of calls.
Instants are integers. Storage failures, clocks, random tokens, failing callbacks of other components and anything
else from outside are parameters.

Where the code and its documentation differ, the model follows the code:

- `gateway_continuation.py:363-376` promises the explicit conflict for any replay after expiry. The reaper leaves no
  tombstone for a record that was still waiting (`gateway_continuation.py:462-463`), so its owner's replay is
  answered as unknown: `Remembrance.UnclaimedIsForgotten` is such a run. The ring also forgets, as the same docstring
  says, once 256 newer tombstones have come: `Remembrance.ConflictLastsOneRing` is a run that reaches that point.
  `Remembrance.ReplayAfterRemoval` shows, over every run, that these two are the only ways to lose the conflict.
- The identifier grammar is documented as at most 64 characters of a fixed alphabet. The validator's pattern ends in
  `$` and is matched from the start, so it also accepts one final line feed (`gateway_validation.py:18-37`).
  `Identifiers.GrammarIff` derives the difference from how the pattern matches, `Identifiers.IdsFit` and
  `Identifiers.LaneIdsFit` say exactly what it means for derived ids, of the source's part and of the model's, and
  `Identifiers.FeedGetsNoId` and `Identifiers.SourceFeedGetsNoId` are an accepted slug and source id without one.

A pin is constructed with any safe effort (`routing_core.py:899-905`), but its reference is read back only with a
policy effort (`gateway_coordinator.py:255-301`): `Pins.UnknownEffortIsNotReadBack` is one that is refused.

Slots are carried across rebuilds while both limits are unchanged, so a limit that is changed and changed back starts
from fresh counters (`gateway_coordinator.py:656-677`): `Concurrency.ChangingBackForgets` shows it.
`Concurrency.WithinLimitIff` says for which rebuilds the total stays within the limit in force, and
`Concurrency.InFlightBound` gives the bound that always holds and that `Concurrency.InFlightBoundIsTight` reaches.

A call of the encoder that raises returns none of the events it has numbered. A refused first call loses the opening
of the response that way, and only a refused finish can lose the announcement of an item
(`gateway_responses.py:501-572`): `Transport.Drive` says exactly for which calls the opening is returned and which later
deltas name an item the client was never told of, and `Transport.AnnouncementLost` and `Transport.ConflictHides` are
such runs.

A plan-managed source adopts on unverified observations (`execution_sources.py:338-352`), which do not touch the
retirement history: `Sources.AdoptedAndRetired` is a run after which its model is adopted and retired at once, and
`Sources.RetiredApartIff` says exactly which observations do that.

## Model

| member | source | states |
|---|---|---|
| ResponseStream.NumbersAreGapFree | scarcity_router/gateway_responses.py:442-449 | In every stream a client can fold, the event numbers are exactly 0, 1, 2, … . |
| ResponseStream.NothingFollowsTheEnd | scarcity_router/gateway_responses.py:593-606 | At most one terminal event is in a stream, and it is the last event. |
| ResponseStream.ItemsComeFromEvents | scarcity_router/gateway_responses.py:464-486 | Every item a client holds was announced by one event, and an item still open has had no done event. |
| ResponseStream.DeltasHitOpenItems | scarcity_router/gateway_responses.py:488-499 | A text or arguments delta names an item announced before it and not done before it. |
| ResponseStream.ItemsCloseOnce | scarcity_router/gateway_responses.py:575-590 | In a stream whose items are all closed each has exactly one done event, and just before it its text and part done events with its full text, or for a completed call its arguments done event; no other closing events name it. |
| ResponseStream.RenderableIff | scarcity_router/gateway_responses.py:338-364 | Which outcomes can be rendered, by their calls: none only where the choice asks for none or the answer was cut short; some only where it did not stop, each declared and as the choice demands, distinct and within the count. |
| ResponseStream.ResponsePayload | scarcity_router/gateway_responses.py:338-364 | The final payload is refused exactly when the outcome fails the role, call, choice or finish checks; otherwise its output is the caller's own list object, not a copy. |
| ResponseStream.ResponsesStreamEvents.constructor | scarcity_router/gateway_responses.py:422-437 | A new encoder has emitted nothing and spent nothing. |
| ResponseStream.ResponsesStreamEvents.Emit | scarcity_router/gateway_responses.py:442-449 | Numbers one event with the next number; what the client holds afterwards is the fold of the whole history. |
| ResponseStream.ResponsesStreamEvents.Begin | scarcity_router/gateway_responses.py:451-456 | The first call emits exactly the created event, numbered 0, and the in-progress event, numbered 1; later calls nothing. |
| ResponseStream.ResponsesStreamEvents.Reserve | scarcity_router/gateway_responses.py:458-462 | The budget is charged even when refused, and refused exactly beyond the character or reservation bound. |
| ResponseStream.ResponsesStreamEvents.Part | scarcity_router/gateway_responses.py:464-486 | The one item of a kind, opened at the end of the output on first use and announced before its part. |
| ResponseStream.ResponsesStreamEvents.Delta | scarcity_router/gateway_responses.py:488-499 | A text delta is refused exactly when the budget does not cover it; otherwise the client's text of that kind grows by exactly this piece. |
| ResponseStream.ResponsesStreamEvents.Tool | scarcity_router/gateway_responses.py:511-530 | A complete call is taken exactly when it is allowed, new, within the bounds and affordable, and becomes one item with one arguments delta. |
| ResponseStream.ResponsesStreamEvents.Push | scarcity_router/gateway_responses.py:501-540 | A chunk is accepted exactly in the states and under the checks listed; the first accepted one returns the opening of the response; what is returned brings the chunk: its whole text, or its call announced with its arguments; a refused chunk changes no accepted text, call, item or finish marker. |
| ResponseStream.ResponsesStreamEvents.CatchUp | scarcity_router/gateway_responses.py:553-563 | A final text is reached exactly when what was observed is its prefix and the rest is affordable; the rest is sent and counted, an empty final text opens its part. |
| ResponseStream.ResponsesStreamEvents.Send | scarcity_router/gateway_responses.py:562-563 | The missing text is cut into pieces of at most the delta bound whose concatenation is the final text, and their number is the one charged. |
| ResponseStream.ResponsesStreamEvents.PushCalls | scarcity_router/gateway_responses.py:565-568 | The outcome's calls that were not streamed are appended in order; for an outcome that passes the final checks only the budget can refuse them. |
| ResponseStream.ResponsesStreamEvents.Reconcile | scarcity_router/gateway_responses.py:550-568 | Only an outcome that extends what was observed is reconciled, and then texts and calls are exactly the outcome's. |
| ResponseStream.ResponsesStreamEvents.FillTexts | scarcity_router/gateway_responses.py:569-571 | After the joined texts are written into the items, the encoder's list is what the client holds. |
| ResponseStream.ResponsesStreamEvents.CloseItems | scarcity_router/gateway_responses.py:575-590 | Closing sets every item's status in place; the client's items stay equal to the live list, and no group of closing events is left unfinished. |
| ResponseStream.ResponsesStreamEvents.Conclude | scarcity_router/gateway_responses.py:572-600 | The terminal event carries the live output list with the statuses set after the response was built. |
| ResponseStream.ResponsesStreamEvents.Finish | scarcity_router/gateway_responses.py:542-600 | Finishing succeeds exactly when nothing conflicts and the missing output is affordable; then the client's items equal the terminal output in order, texts, calls and statuses, every item of it is closed exactly once, and a finish that comes first returns the opening of the response. |
| ResponseStream.ResponsesStreamEvents.Fail | scarcity_router/gateway_responses.py:602-606 | An error event ends a stream that has not ended, and nothing follows it. |
| ResponseStream.Stream | scarcity_router/gateway_responses.py:464-600 | For any chunks and any outcome: the stream is taken exactly when each chunk is taken where it comes and the outcome extends what was streamed, passes the final checks and is affordable; then it begins with the created and in-progress events, closes every item exactly once with its full text or arguments, and a client rebuilds exactly the output those determine. |
| ResponseStream.OutputIsDetermined | scarcity_router/gateway_responses.py:542-600 | The specified output leaves no freedom in order, identity, text, calls or status. |
| ResponseStream.CutsDoNotMatter | scarcity_router/gateway_responses.py:553-571 | However the adapter cuts the same deltas, the final output is the same. |
| ResponseStream.UnstreamedOutputIsPlain | scarcity_router/gateway_responses.py:368-384 | Streaming nothing before the end gives exactly the output list of the response that is not streamed. |
| ResponseStream.SendOpens | scarcity_router/gateway_responses.py:488-499 | Sending a final text opens the item of its kind exactly if there is text to send and its first piece is affordable. |
| ResponseStream.ReachIs | scarcity_router/gateway_responses.py:553-563 | What catching up with one text does to the records: when it succeeds, what it spends, whether it opens the item, and that it touches nothing else. |
| ResponseStream.ConcludedOpens | scarcity_router/gateway_responses.py:542-563 | A finish, refused or not, opens the item of a kind exactly when the outcome matches, has a final text of a kind without an item, the reasoning before it is reached and the first piece is affordable. |
| Transport.Call | scarcity_router/gateway_responses.py:501-606 | One call of any kind, refused or not, changes the encoder's records exactly as the step function says; only a call that is not refused returns what it numbered. |
| Transport.OpenedBy | scarcity_router/gateway_responses.py:501-606 | No call takes an item away; a refused call opens one exactly if it is a finish that opens it. |
| Transport.OpenIsAnnounced | scarcity_router/gateway_responses.py:464-486 | A kind has an item exactly if the numbered history announces one, and it announces it once. |
| Transport.TextDeltaFollows | scarcity_router/gateway_responses.py:488-499 | A returned text delta follows the announcement of its item exactly if that announcement was returned at all. |
| Transport.Drive | scarcity_router/gateway_responses.py:442-606 | Over any sequence of calls, with any of them refused: numbers strictly increase, one terminal event at most and nothing after it, characters within the bound, no gap while nothing was refused, and everything is drawn in order from a history a client could fold. The opening of the response is returned exactly if the first call that starts it is not refused. Every returned delta names an item not done yet, an arguments delta always one announced before; a text delta exactly unless an earlier refused finish had opened the item of its kind. |
| Transport.AnnouncementLost | scarcity_router/gateway_responses.py:542-572 | A run that meets the exception: an outcome that only the final response refuses has opened its text item, and the next accepted chunk returns a delta for it. |
| Transport.ConflictHides | scarcity_router/gateway_responses.py:553-561 | Another: final reasoning is sent before a text that conflicts refuses the finish, and a reasoning chunk is accepted afterwards. |
| History.Messages | scarcity_router/gateway_responses.py:80-144 | An item list is decoded exactly when it is a complete history, and flattening the grouped messages gives the list back; plain text becomes one user message. |
| History.ItemMessages | scarcity_router/gateway_responses.py:87-144 | The loop over the items, with its running sets of calls and answers, computes that decoding. |
| History.Place | scarcity_router/gateway_responses.py:104-135 | One accepted item is added to the grouped conversation, calls joining an open assistant message. |
| History.RunningChecksAreComplete | scarcity_router/gateway_responses.py:94-143 | The running checks accept exactly the lists in which every call has its one answer in place and no identity repeats. |
| History.GroupingIsUnique | scarcity_router/gateway_responses.py:119-131 | Two grouped conversations with the same flat list are equal, so the grouping is forced. |
| History.SendableIff | scarcity_router/gateway_responses.py:80-144 | A flat conversation written as items is accepted exactly if it has 1 to 1024 entries within the documented roles and sizes and its calls and answers pair up one to one, each answer in place. |
| History.SendAndReceive | scarcity_router/gateway_responses.py:80-144 | A grouped conversation written as items and decoded again is the same conversation, exactly whenever it can be sent. |
| History.EveryCallAnsweredOnce | scarcity_router/gateway_responses.py:104-143 | In an accepted history every call has exactly one answer, after it and before any later plain message. |
| Continuation.PendingContinuation.ClaimTransition | scarcity_router/gateway_continuation.py:273-285 | The single waiting-to-resuming transition; a late claim marks the record expired instead. |
| Continuation.PendingContinuation.MarkExpired | scarcity_router/gateway_continuation.py:292-301 | Marks the record expired and tells whether it was waiting. |
| Continuation.PendingContinuation.RestoreWaiting | scarcity_router/gateway_continuation.py:303-308 | Only a record being resumed returns to waiting. |
| Continuation.ContinuationRegistry.Register | scarcity_router/gateway_continuation.py:336-354 | Registers a record unless the bound is reached or the token is taken; nothing else changes. |
| Continuation.ContinuationRegistry.Detect | scarcity_router/gateway_continuation.py:358-361 | The live record of a token, if any. |
| Continuation.ContinuationRegistry.WasTerminalFor | scarcity_router/gateway_continuation.py:363-376 | Whether the ring holds this token for this client. |
| Continuation.ContinuationRegistry.Claim | scarcity_router/gateway_continuation.py:378-408 | The verdict and the new table of one claim; a late claim removes, remembers and cancels the record once. |
| Continuation.ContinuationRegistry.ReleaseUnclaimed | scarcity_router/gateway_continuation.py:410-414 | Returns a registered record being resumed to waiting and changes nothing else. |
| Continuation.ContinuationRegistry.Close | scarcity_router/gateway_continuation.py:416-445 | Removes the record, remembers the token with its client or with none, and cancels only if this removal found the record. |
| Continuation.ContinuationRegistry.RemoveDue | scarcity_router/gateway_continuation.py:458-474 | The reaper's lock region: exactly the records past their deadline go, and exactly those being resumed leave a tombstone. |
| Continuation.ContinuationRegistry.ExpireDue | scarcity_router/gateway_continuation.py:449-479 | Every record past its deadline is removed, expired and cancelled once; every other record is untouched. |
| Continuation.RingAppend | scarcity_router/gateway_continuation.py:347-349 | The bounded ring keeps the newest entries, whether trimmed at each append or at the end. |
| Continuation.TombstonesStep | scarcity_router/gateway_continuation.py:459-473 | One more expired record adds a tombstone exactly when it was not waiting. |
| ContinuationProtocol.Tally | scarcity_router/gateway_continuation.py:273-308 | For every admissible history of a token: deliveries plus pending entitlements equal claims, claims exceed releases by at most one, removals and cancellations are at most one. |
| ContinuationProtocol.RemovalIsFinal | scarcity_router/gateway_continuation.py:416-479 | After its removal a token is never claimed, released, registered or removed again. |
| ContinuationProtocol.ClaimsAreSeparated | scarcity_router/gateway_continuation.py:378-414 | Between two successful claims of a token there is a release. |
| ContinuationProtocol.DeliveryFollowsClaim | scarcity_router/gateway_coordinator.py:1273-1336 | A thread delivers only after its own claim. |
| ContinuationProtocol.DoKeeps | scarcity_router/gateway_continuation.py:336-479 | Every atomic step of every thread keeps the invariant tying table, histories, threads and tombstones. |
| ContinuationProtocol.RunKeeps | scarcity_router/gateway_coordinator.py:1273-1412 | The invariant holds after every interleaving of dispatches, claims, checks, deliveries, closes, releases, reaping and cancellations. |
| ContinuationProtocol.ExactlyOnce | scarcity_router/gateway_continuation.py:336-479 | In every run: registered records are only waiting or resuming, each registration is removed at most once and exactly when it is gone, its cancellation runs at most once and only after, deliveries never exceed claims. That deliveries happen is what `Delivery` states. |
| ContinuationProtocol.DeliveredOnce | scarcity_router/gateway_coordinator.py:1273-1412 | As no gateway thread releases, a token is claimed at most once and at most one result is delivered for it; exactly when one is, `Delivery.DeliveredExactlyOnce` states. |
| Delivery.StepsAreRecorded | scarcity_router/gateway_continuation.py:336-479 | Every step adds to each token's history exactly the act it stands for, and to no other token's; only a suspension makes a new token. |
| Delivery.DeliverIsRecorded | scarcity_router/gateway_coordinator.py:1273-1336 | In every run a thread that claimed a token has delivered its result exactly if it took the step that delivers, and has not while it is checking or about to deliver. |
| Delivery.EveryDeliverDelivers | scarcity_router/gateway_coordinator.py:1326-1336 | Every step that delivers is recorded for the one token its thread had claimed. |
| Delivery.ClaimsOneToken | scarcity_router/gateway_coordinator.py:1273-1308 | A thread claims at most one token in its life. |
| Delivery.DeliveredExactlyOnce | scarcity_router/gateway_coordinator.py:1273-1412 | Without releases a token's result is delivered exactly once if the thread that claimed it took the step that delivers, and never otherwise. |
| Delivery.CanClaim | scarcity_router/gateway_continuation.py:378-408 | The owner's request for a waiting record in time becomes a thread that checks its result under the record's deadline. |
| Delivery.CanDeliver | scarcity_router/gateway_coordinator.py:1308-1336 | Whatever other threads did meanwhile, a result checked in time can be delivered, and the delivery is the next act of its token. |
| Delivery.ResultIsDelivered | scarcity_router/gateway_coordinator.py:1273-1336 | In every reachable state the owner of a waiting record in time gets its result delivered: claim, check and delivery can each be taken, and deliveries grow by exactly one. |
| Delivery.CanSuspend | scarcity_router/gateway_continuation.py:336-354 | A turn suspends under a fresh token exactly while there is room, under its own client and deadline. |
| Delivery.CanFinish | scarcity_router/gateway_coordinator.py:1326-1412 | A thread that has not ended can end in any terminal way, and its token is registered no more. |
| Delivery.CanReleaseAndCancel | scarcity_router/gateway_continuation.py:410-445 | A held token that is released is waiting again, and an owed cancellation can run once. |
| Delivery.CanReap | scarcity_router/gateway_continuation.py:449-479 | The reaper can always run and removes exactly the records past their deadline. |
| ContinuationProtocol.NoRoundExtendsATurn | scarcity_router/gateway_coordinator.py:1300-1308 | In every run each continuation carries the deadline its first dispatch fixed, and every delivery was checked before it. |
| ContinuationProtocol.RemovalOwesCancellation | scarcity_router/gateway_coordinator.py:1507-1516 | A step that removes a record owes exactly one cancellation unless it closes the backend as completed or lost, and the token is remembered for its client at once except by the reaper. |
| ContinuationProtocol.NothingStaysHeld | scarcity_router/gateway_coordinator.py:1326-1364 | When no thread is between a claim and its close, every registered record is waiting. |
| ContinuationProtocol.NeverOrdinary | scarcity_router/gateway_coordinator.py:1098-1126 | A tool result for a token this gateway issued is never fed to a fresh completion; any other text is. |
| ContinuationProtocol.ForeignTokensLookUnknown | scarcity_router/gateway_coordinator.py:1264-1267 | To any client but the owner, an existing, a gone and a never issued token are answered alike. |
| ContinuationProtocol.OwnersAnswer | scarcity_router/gateway_continuation.py:386-401 | The owner resumes exactly a waiting record in time, is told it is late exactly when it is waiting past the deadline, and unknown exactly when it is gone and not remembered. |
| Remembrance.RingOfTrail | scarcity_router/gateway_continuation.py:347-349 | In every run the ring holds the newest of all the tombstones ever appended. |
| Remembrance.RingHasNewest | scarcity_router/gateway_continuation.py:371-376 | A tombstone is still in the ring exactly when fewer newer ones have come than the ring can hold. |
| Remembrance.TrailAfterRemoval | scarcity_router/gateway_continuation.py:386-479 | In every run a removed token stays gone, and its removal appended its client's tombstone exactly unless the reaper found it waiting. |
| Remembrance.GoneWasRemoved | scarcity_router/gateway_continuation.py:416-479 | A token that is gone was removed by exactly one action of the run. |
| Remembrance.ReplayAfterRemoval | scarcity_router/gateway_continuation.py:363-376 | In every run and however much later, the owner of a gone token gets the conflict exactly when its removal was not a reap of a waiting record and fewer tombstones have been appended since its own than the ring can hold; otherwise it is unknown. |
| Remembrance.ReplayAfterReap | scarcity_router/gateway_continuation.py:459-473 | With at most as many pending records as the ring holds, a reap never displaces what it appends: right after it the owner gets the conflict exactly if the record was being resumed. |
| Remembrance.UnclaimedIsForgotten | scarcity_router/gateway_continuation.py:462-463 | A run in which the documented conflict is not given: an unclaimed turn is reaped at its deadline and its owner's replay is unknown at every clock. |
| Remembrance.ConflictLastsOneRing | scarcity_router/gateway_continuation.py:371-376 | A run for each number of later turns: the conflict for a reaped token is given while fewer than 256 have completed since, and never from then on. |
| Concurrency.BoundedSemaphore.Release | scarcity_router/gateway_coordinator.py:2753-2755 | A bounded semaphore refuses to be released above its limit. |
| Concurrency.Reservation.Acquire | scarcity_router/gateway_coordinator.py:2710-2743 | Both slots or none: which refusal, and a refusal leaves semaphore and counters as they were. |
| Concurrency.Reservation.Release | scarcity_router/gateway_coordinator.py:2745-2756 | Gives back what is held exactly once; the semaphore is never over-released and zero counters are dropped. |
| Concurrency.AcquireAndRelease | scarcity_router/gateway_coordinator.py:2686-2756 | Acquiring and releasing, granted or not, restores the shared state; a second release does nothing. |
| Concurrency.EnterThenLeave | scarcity_router/gateway_coordinator.py:2737-2752 | Leaving undoes entering, and no zero counter is ever stored. |
| Concurrency.DoKeeps | scarcity_router/gateway_coordinator.py:2710-2756 | Every atomic step of acquire, release and rebuild keeps the accounting. |
| Concurrency.Accounted | scarcity_router/gateway_coordinator.py:656-677 | In every reachable state permits taken are the threads past the global step, each counter is that client's running threads and within its limit, zero counters are absent and nothing was over-released. |
| Concurrency.EveryThreadMoves | scarcity_router/gateway_coordinator.py:2710-2756 | In every reachable state the next step of every thread can be taken: a request is admitted exactly while fewer permits are held and fewer of its client's requests execute than the limits, and what is held can be returned. |
| Concurrency.CanDrain | scarcity_router/gateway_coordinator.py:2745-2756 | From every reachable state everything held can be given back without a rebuild, and then every cell is free and every counter gone. |
| Concurrency.NobodyIsLockedOut | scarcity_router/gateway_coordinator.py:2686-2756 | Whatever happened before, a later request of any client can come to execute under any limits above zero. |
| Concurrency.InFlightBound | scarcity_router/gateway_coordinator.py:656-677 | Across any rebuilds, the permits held stay within the sum of the limits that were put in force. |
| Concurrency.InFlightBoundIsTight | scarcity_router/gateway_coordinator.py:656-677 | For any starting limits and any rebuilds, some run with exactly those rebuilds holds as many permits as all the limits ever in force together, each by a request that executes. |
| Concurrency.WithinLimitIff | scarcity_router/gateway_coordinator.py:659-677 | Every run with given rebuilds stays within the limit in force exactly if each of them keeps both limits. |
| Concurrency.UnchangedLimitsHold | scarcity_router/gateway_coordinator.py:659-671 | Rebuilds that keep the limits can never raise the total above the limit, nor a client's above its own. |
| Concurrency.ChangingBackForgets | scarcity_router/gateway_coordinator.py:672-677 | A limit changed and changed back starts afresh: two requests can run under a limit of one. |
| Identifiers.GrammarIff | scarcity_router/gateway_validation.py:18-37 | Matching the pattern from the start, up to where its end anchor matches, accepts exactly the documented identifiers and, beyond them, those with one line feed after them. |
| Identifiers.FeedGetsNoId | scarcity_router/model_inventory.py:84-117 | A slug the validator accepts and no bound refuses that yields no id with any policy effort: one that ends in a line feed. |
| Identifiers.ResourceIdsAreInjective | scarcity_router/model_inventory.py:93-117 | Two derived resources never share an id. |
| Identifiers.OwnerIsReadBack | scarcity_router/execution_sources.py:550-561 | A derived id leads back to the source it was built for. |
| Identifiers.IdsFit | scarcity_router/model_inventory.py:84-117 | A validated source id and slug yield an id with a policy effort exactly if neither ends in a line feed. |
| Identifiers.LengthsFit | scarcity_router/model_inventory.py:84-117 | Documented parts of any length yield an id exactly within the source's bound of 20, the slug's of 40 and the total of 64; slugs of up to 35 always fit. |
| Identifiers.LaneIdsFit | scarcity_router/model_inventory.py:84-117 | Without an effort they yield an id exactly if the slug has no colon and the source id does not end in a line feed; the slug's is let through. |
| Identifiers.SourceFeedGetsNoId | scarcity_router/server_config.py:408-421 | A source id the configuration accepts under which no model has an id, with or without an effort: one that ends in a line feed. |
| Identifiers.PartitionIs | scarcity_router/execution_sources.py:700-704 | Splitting at the first separator inverts joining and fails exactly where there is none. |
| Sources.SourceState.AdoptReported | scarcity_router/execution_sources.py:295-370 | The loop over the reported models: adoption and one decision each, refused at the first model whose ids do not fit. |
| Sources.SourceState.CountMisses | scarcity_router/execution_sources.py:376-389 | Each adopted slug the observation lacks accrues a miss, the third retires it; they retire in sorted order into the bounded history. |
| Sources.SourceState.Decide | scarcity_router/execution_sources.py:275-395 | One observation does to every slug exactly what that slug's own little machine says, each decision carrying the policy's reason; a refused report has only adopted a prefix. |
| Sources.ReasonsAre | scarcity_router/execution_sources.py:275-360 | For each reason a model is not adopted, the exact configuration, sign-in state, slug and efforts that get it. |
| Sources.RoutedUnder | scarcity_router/execution_sources.py:338-370 | A routable model is listed under its own resource id: the lane's, or the one of its alphabetically first advertised policy effort. |
| Sources.AdoptsIff | scarcity_router/execution_sources.py:275-395 | What one observation adopts, from the configuration's fields: adoption switched on, no legacy tracks, the slug allowed, and the model offered as its kind demands. |
| Sources.OnlyPermitted | scarcity_router/execution_sources.py:275-395 | After any run whatever is tracked is on the administrator's allow-list with adoption switched on and no tracks, and was offered by an observation. |
| Sources.SourceState.Receive | scarcity_router/execution_sources.py:254-273 | A report is heeded exactly from the granted source, worker and kind and the adapter id these make. |
| Sources.SourceState.Sync | scarcity_router/execution_sources.py:228-246 | A source keeps its history only while its worker and kind stay the same. |
| Sources.ListingAt | scarcity_router/execution_sources.py:295-370 | There is one decision per reported model, in order, with its slug and efforts, and it is the one the policy gives. |
| Sources.PolicyEffortsAre | scarcity_router/execution_sources.py:350-352 | The sorted policy efforts are exactly the advertised ones that the policy knows. |
| Sources.AuthenticatedStep | scarcity_router/execution_sources.py:371-394 | Adoption, miss counting and reset together act on each slug as its own machine. |
| Sources.OnlyAuthenticatedCount | scarcity_router/execution_sources.py:338-343 | For a physical-model source unauthenticated observations change nothing. |
| Sources.TrackIs | scarcity_router/execution_sources.py:371-394 | Over authenticated observations, a slug's machine and its history agree. |
| Sources.AdoptedIff | scarcity_router/execution_sources.py:275-395 | After any run a slug is adopted exactly if it is permitted and some authenticated observation offered it and three authenticated misses in a row never followed; its miss count is the observations since it was last listed, its efforts the latest adopted. |
| Sources.RetireKeeps | scarcity_router/execution_sources.py:380-386 | The retirement history is a bounded set that forgets its oldest entries. |
| Sources.RetiredApartIff | scarcity_router/execution_sources.py:371-394 | Where no slug is adopted and retired at once, one observation makes a slug both exactly if the slug is retired and the observation, unverified, adopts the plan-managed model. |
| Sources.AdoptedAndRetired | scarcity_router/execution_sources.py:275-395 | Any plan-managed source whose model may be adopted comes to hold it as adopted and retired at once, after five reports. |
| Sources.Follow | scarcity_router/execution_sources.py:254-395 | The object fed any run of reports from any workers holds exactly what the history says, and every slug it has adopted is permitted by its configuration and was offered by an accepted report; it holds a slug as adopted and retired at once only if some observation adopted the plan-managed model unverified, so a physical-model source never does. |
| Projections.WalkGrants | scarcity_router/execution_sources.py:409-445 | The registrations' walk over sources, adopted slugs and sorted efforts meets every grant in force exactly once. |
| Projections.WalkEntries | scarcity_router/execution_sources.py:484-525 | The catalog's own walk, over the efforts in their advertised order, meets exactly the same grants, once each. |
| Projections.SameLanes | scarcity_router/execution_sources.py:445-513 | Sorted or as advertised, an adopted model has the same variants in both walks. |
| Projections.DerivedRegistrations | scarcity_router/execution_sources.py:399-467 | Exactly one registration per grant in force, each under its own resource id. |
| Projections.RegisteredIff | scarcity_router/execution_sources.py:399-467 | Exactly what is registered, from the configuration's fields: provider, model, effort, pool and id of each permitted, adopted model of a source that has reported. |
| Projections.Gather | scarcity_router/execution_sources.py:478-525 | The dictionaries filled on the walk hold each identity's scopes, resources and first binding. |
| Projections.DerivedCatalogEntries | scarcity_router/execution_sources.py:469-548 | One entry for each granted identity the base lacks, with its resources, its own bindings, and a shared binding exactly when all its sources declare the same scopes. |
| Projections.ProjectionsAgree | scarcity_router/execution_sources.py:399-548 | Every registration has exactly one added entry unless the base has one, and an added entry binds exactly the registrations with its identity. |
| Projections.AdoptedFits | scarcity_router/execution_sources.py:350-360 | Whatever a source has adopted, the ids its resources need are safe identifiers. |
| Publication.SourceBook.DeepCopy | scarcity_router/control_api.py:713 | A deep copy has new cells with the same contents. |
| Publication.SourceBook.SyncConfiguration | scarcity_router/execution_sources.py:228-246 | Configured sources keep their cells, in place; others get new ones or go. |
| Publication.SourceBook.ApplyInventory | scarcity_router/execution_sources.py:254-273 | An inventory is adopted source by source and in place; it fails exactly where something outside fails within it. |
| Publication.ResourceRegistry.ApplyWorkerReport | scarcity_router/resource_state.py:1832-1866 | A report is applied whole, exactly if it is valid and everything in it is registered, or changes nothing. |
| Publication.ControlPlane.PublishProducerChange | scarcity_router/control_api.py:870-884 | The current state is journalled exactly when it differs from the last published key; when that succeeds, and how the producer stands afterwards. |
| Publication.ControlPlane.Rebuild | scarcity_router/control_api.py:2901-2980 | Recomputes registrations, retained and applied observations from configuration and sources into new objects. |
| Publication.ControlPlane.ApplySourceInventory | scarcity_router/control_api.py:650-679 | A nested inventory write never touches the journal and restores the publication depth; it succeeds exactly if each source is granted as reported and nothing outside fails, and then the state is the specified one. |
| Publication.ControlPlane.ApplyWorkerReport | scarcity_router/control_api.py:684-700 | The report's observations reach the live registry and the retained table, exactly if it is owned, valid and registered, or neither. |
| Publication.ControlPlane.Stage | scarcity_router/control_api.py:716-759 | The attempt succeeds exactly if the report is applicable and its state can be published; it then computes exactly the state the report asks for and the report it accepted, journals nothing but that state, and nothing when it fails. |
| Publication.ControlPlane.RolledBack | scarcity_router/control_api.py:760-765 | Restoring the references restores the contents, as the originals were never written. |
| Publication.ControlPlane.ApplyCombined | scarcity_router/control_api.py:702-767 | It succeeds exactly if the state before can be published, the report is applicable to it and the state after can be published. Whatever fails, every shared object and reference is as before and at most the earlier state was journalled; otherwise the whole cut is in force and is what the journal last tells, and the accepted report is returned. |
| Cut.ApplicableIff | scarcity_router/control_api.py:702-759 | When a report can be applied, from its inputs alone: it is valid, everything it speaks of is configured for its worker, each source is reported once and as configured, nothing outside fails, and without inventories its configured resources are registered already. |
| Cut.AllSourcesOnceIs | scarcity_router/control_api.py:716-732 | The check over all inventories of a report accepts exactly those that speak of each source at most once and as it is configured. |
| Cut.CutIs | scarcity_router/control_api.py:702-767 | The state after a report with inventories, resource by resource: registered is what is configured and what is adopted; observed is the last the report tells of a trusted resource, or else what was known of one that stayed adopted and that no inventory contradicted. |
| Cut.PlainCutIs | scarcity_router/control_api.py:702-767 | A report without inventories adopts and forgets nothing; it changes exactly the observations it tells of, except of derived resources that are not registered. |
| Cut.AllInventories | scarcity_router/control_api.py:650-679 | Over any inventories one after the other: what is adopted, registered and still remembered, in terms of the first state and of what the inventories list and contradict. |
| Journal.TrimmedIsLongest | scarcity_router/server_store.py:1252-1261 | What trimming keeps is the longest suffix within the count and byte bounds. |
| Journal.TrimmedGrows | scarcity_router/server_store.py:1252-1261 | Trimming at each append keeps what trimming everything ever appended would. |
| Journal.ProducerStore.StartEpoch | scarcity_router/server_store.py:1216-1234 | A new epoch starts at the current position and keeps what is retained. |
| Journal.ProducerStore.CheckPosition | scarcity_router/server_store.py:1273-1281 | A position is current exactly in the current epoch at the current sequence. |
| Journal.ProducerStore.Append | scarcity_router/server_store.py:1236-1271 | One event is appended and history trimmed, or nothing changes; refused exactly when too large, superseded or unavailable. |
| Journal.ProducerStore.Read | scarcity_router/server_store.py:1283-1323 | A retained range is returned exactly as appended; each reason is given exactly in its case and a history gap never. |
| Journal.Producer.constructor | scarcity_router/control_api.py:565-567 | A producer starts at its epoch's first position with the current key. |
| Journal.Producer.PublishChange | scarcity_router/control_api.py:870-884 | Appends exactly when the key changed, keeps the last key current, and after any failure publishes nothing again; it succeeds exactly if the producer stands unfaulted on a journal of its own and the document can be read, documented and, where it is new, written. |
| Journal.Producer.Replay | scarcity_router/control_api.py:912-935 | A poll is answered exactly if its cursor is well formed, the publication before it succeeds and, for a known schema, its position is well formed and can be read; the answer is from one cut: the journal past the cursor, or a restart exactly when the cursor cannot be followed. |
| Journal.Consume | scarcity_router/control_api.py:912-935 | A consumer that keeps following its cursor holds exactly the journal from where it last started: nothing skipped, nothing repeated, nothing left after an answered poll, and a new start exactly where the events after its cursor were no longer retained. Which of its polls are answered is determined by the health of each, and every one that is brings it to the end of the journal. |
| Journal.ChainGrows | scarcity_router/control_api.py:876-879 | Consecutive events of an epoch always differ in key. |
| Journal.HandedChanges | scarcity_router/control_api.py:876-879 | What a consumer is handed never repeats a key from one event to the next. |
| Limits.EffectiveCeilingIs | scarcity_router/gateway_coordinator.py:470-483 | Known exactly if some capability is, and then the greatest number no known input and no allowance exceeds. |
| Limits.RouteDetail | scarcity_router/gateway_coordinator.py:566-617 | A route reports the weakest of the variants it binds, unknown if any is. |
| Limits.ExposedLogicalModels | scarcity_router/gateway_coordinator.py:486-644 | Exactly the models served under one provider are listed, each once, with its routes and their strongest known ceiling. |
| Limits.ProvidersAre | scarcity_router/gateway_coordinator.py:522-541 | A model's providers are exactly those with a catalog entry for it and a permitted resource that serves it. |
| Limits.AdvertisedIff | scarcity_router/gateway_coordinator.py:545-640 | What a model advertises, from the catalog, the resources and the clock alone: a number of tokens is within the headline exactly if some permitted route takes it for every variant it serves, within the allowance and, in the runtime inventory, inside its evidence's window. |
| Limits.RouteContextIff | scarcity_router/gateway_coordinator.py:566-617 | The same for one route's own context. |
| Limits.HeadlineIsSound | scarcity_router/gateway_coordinator.py:545-640 | A request within the advertised context passes admission, and some permitted route passes the per-route check for every variant it binds. |
| Limits.NothingAboveTheAllowance | scarcity_router/gateway_coordinator.py:470-483 | No advertised number exceeds the administrator's allowance. |
| Limits.UnknownStaysUnknown | scarcity_router/gateway_coordinator.py:584-603 | A route's context is known exactly when every variant it binds has a known input, and in the runtime inventory only while the route's own evidence holds. |
| Limits.HardContextOf | scarcity_router/gateway_coordinator.py:451-467 | The hard limit of a variant is that of its own entry. |
| Pins.PrintedPinsParse | scarcity_router/gateway_coordinator.py:1700-1707 | A printed pin is read back if its effort is a policy effort or absent and refused otherwise, so the self-check of a selection cannot fail for the former. |
| Pins.UnknownEffortIsNotReadBack | scarcity_router/gateway_coordinator.py:1700-1707 | A pin that can be constructed and printed and whose reference is refused. |
| Pins.ParsedPinsPrint | scarcity_router/gateway_coordinator.py:255-301 | Printing what was parsed gives the same text. |
| Pins.ReferencesAreThePrinted | scarcity_router/gateway_coordinator.py:255-301 | A text is a reference exactly if it is the print of a valid pin. |
| Bindings.ReadBack | scarcity_router/routing_core.py:1092-1157 | Writing a binding as a dictionary and reading it back gives the binding. |
| Bindings.MergeBinding | scarcity_router/executable_contract.py:36-52 | The loop over the retained dictionary computes the field-wise merge, refused exactly where a retained demand would be weakened or the two model readings meet. |
| Bindings.MergeIsTheJoin | scarcity_router/executable_contract.py:36-52 | Where defined, the merge is the weakest binding at least as demanding as both. |
| Bindings.MergeIsDefinedIff | scarcity_router/executable_contract.py:36-52 | It is undefined only where the retained output ceiling is not met or no binding meets both demands. |
| Bindings.MergeIsIdempotent | scarcity_router/executable_contract.py:36-52 | Merging a binding with itself changes nothing. |
| Bindings.MergeCommutes | scarcity_router/executable_contract.py:36-52 | Merges that are defined both ways are equal, which is exactly when the output ceilings are. |
| Bindings.DominationIsAnOrder | scarcity_router/executable_contract.py:36-52 | Being at least as demanding is a partial order. |
| Bindings.DemandsReachTheRequest | scarcity_router/executable_contract.py:107-127 | What was demanded at selection and what the route added hold of the bound request, which names the selected target and carries the selection's task. |
| Bindings.BindsExactly | scarcity_router/executable_contract.py:107-127 | Requirements bind exactly if the request repeats their target, the first catalog entry of the target and their schema agree on the effort, an alias's profile is the one they were made under, the request states an output ceiling within theirs and some binding meets both demands. |
| Bindings.ReadableBinds | scarcity_router/executable_contract.py:63-90 | For requirements that can be read back from a client the schema alone decides which kind of catalog they bind to, and only a reviewed entry's effort can refuse them. |
| Bindings.RepeatingIsAccepted | scarcity_router/executable_contract.py:107-127 | A request that repeats the selection is accepted unchanged. |
| Simulation.FindMatches | scarcity_router/control_api.py:1589-1601 | The nested scan finds every window an override names, once each. |
| Simulation.Simulate | scarcity_router/control_api.py:1561-1623 | Accepted exactly if each override names one known window and no two the same; then exactly those windows are overridden. |
| Simulation.SimulateInTwoOrders | scarcity_router/control_api.py:1587-1623 | Two orders of the same overrides give the same snapshot or are both refused. |
| Simulation.OneWindowEach | scarcity_router/control_api.py:1603-1622 | Each override changes its own window, used plus remaining stay 100, and no other fact changes. |
| Simulation.CanBeOverriddenIff | scarcity_router/control_api.py:1589-1612 | A window can be overridden exactly if both its percentages are known and some provider offers it, of a visible, fresh and healthy resource bound to its scope, and no other window like it. |
| Audit.TrailIsBounded | scarcity_router/gateway_audit.py:340-376 | In any order of end times both bounds hold and the newest record is kept. |
| Audit.TrailIsTheLongestSuffix | scarcity_router/gateway_audit.py:362-376 | With non-decreasing end times the trail is the longest suffix of everything appended that fits both bounds. |
| Audit.BoundedAuditTrail.Append | scarcity_router/gateway_audit.py:362-367 | One append keeps the trail what the whole history says. |
| Audit.BoundedAuditTrail.Prune | scarcity_router/gateway_audit.py:369-376 | Exactly the records older than the bound before the newest are dropped. |

## Left out

- Responses: field-level parsing of input items beyond the checks that decide acceptance, UTF-8 checks, obfuscation padding, usage payloads, creation times and JSON encoding. An item those field checks refuse is one constructor.
- Continuation: fingerprints and the shape validation of a continuation request, which happen before the claim and change no state; capability and authority rechecks, which only lead to a close.
- Continuation.ContinuationRegistry.RemoveDue: visits the records in some order, where the source follows dictionary order; the order shows only in the order of the tombstones.
- ContinuationProtocol.DeliveredOnce: assumes runs without a release, as no gateway thread calls the release operation. Tokens are assumed fresh at registration and cancel callbacks do not raise.
- ContinuationProtocol: the terminal mark set on a record after its removal, which no later step reads.
- Sources: the dictionary of sources is modelled one source at a time; the per-source view for the interface and context evidence of sources are left out.
- Publication.SourceBook.ApplyInventory: an authenticated observation only adds the models it lists; adoption policy, misses and retirement are those of `Sources`.
- Publication.ResourceRegistry.ApplyWorkerReport: the checks on each observation of a report are one flag.
- Publication.ControlPlane.PublishProducerChange: the key tells the state of the shared objects; freshness and connectivity, which the source's key derives from the clock and the live connections (`control_api.py:790-800`), are left out, so that time alone makes no event here.
- Publication.ControlPlane.Rebuild: rebuilds registrations and observations; whether composing the rest fails is a flag.
- Projections: both projections are modelled on values read from the registry of sources, and the orders of their results, sorted in the source, are not.
- Publication: provider adapters, compatibility cells, key directories and the fields of an application other than its registry are left out, as is the sampling of worker connectivity.
- Journal: cursor digests and the waiting for new events; payloads carry their size instead of their bytes.
- Limits: the rules for output limits at routing, effort listings and ambiguous logical names; the order of models and routes in a listing.
- Pins: the resolution of aliases and logical models.
- Bindings: the contents of task requirements and of profile expansions, which are replaced or compared as a whole and are digests here.
- Simulation: the reading of visible resources and scope bindings from the route document, which are inputs.
- Audit: the conversion between instants and their text.
- HTTP, TLS, sockets, the command line, the web interface, sessions, hashing and files.
- Routing, selection and scoring, worker connections and market-intelligence evidence.

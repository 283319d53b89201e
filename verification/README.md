# Verified model of the Valkey GLIDE Go client core

A Dafny model of the parts of the Go client that hold state, race or compute: how a request and its answer find each
other, scoped connections, cluster slots, the command wire format, the pub/sub queue, the `tracestate` recogniser,
response conversion, the order of scored results, the monitor pipeline and the pool's acquire loop.
`dafny verify dfyconfig.toml` checks everything.

**Requests.** A client command, a scope command and a scope acquisition each register an ID in one sharded registry and
wait on a channel of capacity one. The core's callback, the cancelled caller and `Close` race for the ID.
`ClaimMachine` is the transition system of their atomic steps (24 of them; locks are held across steps), `ClaimInvariant`
the invariant that every step keeps, `ClaimTheorems` what follows for every reachable state, `ClaimOutcomes` the runs
that bring an answer or a cancellation to the caller, and `ClaimProgress` that nothing is ever stuck. `Registry` and `BaseClient` are the same code as objects, one locked section per method, and
`ClaimRefinement` proves that these objects carry out steps of the machine.
The machine makes the following assumptions about the core: it answers a request at most once; a call it refuses gets
no callback; an acquisition is never answered with a nil success; and an ID is not handed out again while a call or a
callback still knows it (fewer than a word size of IDs are issued meanwhile: 2^64, or 2^32 where
`uintptr` has 32 bits).

**Slots.** `Slot` is `slotForKey` with its loops. `SlotAlgebra` reads words as polynomials over GF(2) (`Gf2`) and proves
that the loop is division by x^16 + x^12 + x^5 + 1. The tag rule is that of the sections "Key distribution model" and
"Hash tags" of the Valkey Cluster Specification.

**Trace state.** `TraceStateGrammar` holds the derivation trees of section 3.3 of W3C Trace Context; `TraceState` is the
recogniser. The code trims every member, so it also accepts whitespace before the first and after the last member, where
the list grammar has none: it recognises a header field value (whitespace, list, whitespace). `ListIffTight` says exactly
when an accepted value is a bare list.

**Queues.** `PubSubQueue` and `PubSubHandler` are the message queue object, `PubSubRuns` all interleavings of its
operations with the receiving ends of its channels. `MonitorRuns` and `Monitor` do the same for the monitor client
without a callback; each method of the object is a step of the runs.

**Responses.** `Responses` is the parse of a response tree to an untyped value, `Converters` the typed converter chains,
`SortedSet` the order of member-score pairs, and `ScoredResponse` the handler that puts the three together. A score is
a real, an infinity or NaN. What a response means (`Denotes`), which values have a type (`OfType`) and what ascending
order is (`Ascends`) are defined without the code that is proved against them.

**Pool.** `Pool` is the acquire loop, with the pool's answers, the context and the clock as inputs.

## Model

| member | source | states |
|---|---|---|
| ClaimInvariant.NextKeeps | go/base_client.go:210-282 | each of the 24 atomic steps keeps the invariant: every request has exactly one claimant, every response one holder, every payload is the answer the core gave to this request or the closing error of its closed client, and the pending sets, the mutexes and the registry agree |
| ClaimInvariant.RunKeeps | go/callbacks.go:40-134 | so does every interleaving of any number of requests, clients, cancellations and closes |
| ClaimTheorems.ResponseInExactlyOnePlace | go/callbacks.go:110-117 | in every reachable state a response exists in exactly one place (callback, one channel, caller, late goroutine, returned, freed) if and only if the core has produced it, and it is freed at most once |
| ClaimTheorems.NoCrossDelivery | go/callbacks.go:63-73 | whatever channel, caller or late goroutine has a response or a scope, it is the one of its own request, although IDs are reused |
| ClaimTheorems.PayloadIsMeant | go/callbacks.go:110-134 | in every reachable state the payload in a channel, with a caller, returned or with a late goroutine is exactly the answer the core gave to that request, also when it is an error or nil, or it is the closing error and the request a command of a closed client |
| ClaimTheorems.ReturnsTheAnswer | go/base_client.go:402-431 | a call that was not cancelled, refused or failed by Close has returned exactly the answer of the core: as the result, parsed, or as the granted scope |
| ClaimTheorems.ClaimedAndSentAtMostOnce | go/callbacks.go:40-73 | over a whole run a request is claimed at most once, and exactly when it has left the registry; its channel is sent to no more often than it was claimed |
| ClaimTheorems.SendsNeverBlock | go/base_client.go:232-239 | a callback or a Close that has claimed a request always finds room in its channel, so the sends made with the client mutex held never block |
| ClaimTheorems.CloseFailsOnlyItsOwn | go/base_client.go:232-239 | an ID that Close takes out of the registry belongs to a command of the client being closed |
| ClaimTheorems.AfterClose | go/base_client.go:210-229 | after Close the pending set is empty, an ID still registered belongs to a caller between untracking and claiming, and everybody who still waits has a payload in the channel or on its way |
| ClaimTheorems.ClosedForever | go/base_client.go:210-229 | however a run goes on, a closed client stays closed and no request begins on it |
| ClaimTheorems.ScopeAccountedFor | go/isolated_scope.go:290-348 | in every reachable state a granted scope is still on its way in its unread response, or held by exactly one unreleased IsolatedScope, its requester's, or released exactly once; its response is freed only after the scope was read |
| ClaimProgress.RestScopes | go/isolated_scope.go:290-348 | at rest no grant is left unread: it is held by exactly one unreleased IsolatedScope, its requester's, or was released exactly once, also when it came after or together with the cancellation; its response was freed exactly once |
| ClaimTheorems.OnlyGrantsAreReleased | go/isolated_scope.go:106-111 | only scopes that the core granted to an acquisition are released |
| ClaimTheorems.ScopeReadBeforeFree | go/isolated_scope.go:339-348 | whoever is about to read a scope out of a response finds the response not freed and the scope not released |
| ClaimOutcomes.AnsweredCallReturns | go/base_client.go:402-431 | from every reachable state a call of any kind that begins, is accepted and is answered returns that answer by its own steps |
| ClaimOutcomes.CancelledCallReturns | go/base_client.go:266-282 | from every reachable state a waiting caller that is cancelled returns the cancellation by its own steps, and leaves behind a discarder exactly when its ID was already claimed, or the late goroutine of an acquisition |
| ClaimOutcomes.CloseScopeReleasesOnce | go/isolated_scope.go:106-111 | closing a scope releases it, and closing it again changes nothing |
| ClaimProgress.QuiescentIffAtRest | go/base_client.go:259-282 | no step of the protocol is possible exactly when every mutex is free and every call has returned or waits for an answer the core still owes |
| ClaimProgress.RestLeavesNothing | go/base_client.go:259-282 | at rest every channel is empty, every produced response was returned to its caller or freed exactly once, and every registered ID belongs to an unanswered call |
| ClaimProgress.RestAfterClose | go/base_client.go:210-239 | at rest every command of a closed client has returned, its ID is free and no goroutine is left behind |
| ClaimProgress.InternalRunsEnd | go/isolated_scope.go:148-179 | without new calls, answers or cancellations the protocol makes a bounded number of steps, in any order |
| ClaimProgress.ComesToRest | go/base_client.go:259-282 | from every reachable state steps of the protocol alone lead to a state of rest |
| ClaimProgress.MutexMoves | go/base_client.go:243-247 | whoever holds a client's mutex, a submission or Close, can make the next step of its own |
| ClaimProgress.RequestMoves | go/isolated_scope.go:290-348 | a call, callback or late goroutine of a request that is not at rest can make the next step of its own once the mutexes are free |
| Registry.AttemptsBounded | go/callbacks.go:40-59 | consecutive truncated counter values that are all taken cannot outnumber the taken IDs, by pigeonhole |
| Registry.RequestRegistry.Register | go/callbacks.go:40-59 | hands out the first non-zero unused value of the wrapping counter, within (live IDs + 2) tries, and adds exactly that entry to the flat map |
| Registry.RequestRegistry.InsertIfAbsent | go/callbacks.go:47-58 | on the flat map the shard insert is insert-if-absent |
| Registry.RequestRegistry.Take | go/callbacks.go:63-73 | on the flat map the shard delete removes the ID and returns what it was mapped to |
| BaseClient.ClaimAndSend | go/callbacks.go:127-134 | sends exactly when the ID was registered, into the channel it was registered with, and leaves every other registered channel empty and unshared |
| BaseClient.Deliver | go/callbacks.go:110-117 | a callback delivers into the claimed channel and touches no other, or frees the response exactly when the request was already claimed |
| BaseClient.Client.BeginRequest | go/base_client.go:243-247 | registers the channel under a new ID and tracks that ID as pending |
| BaseClient.Client.RemovePendingRequest | go/base_client.go:250-256 | untracks the ID, and does nothing on the nil map of a closed client |
| BaseClient.Client.CancelWait | go/base_client.go:266-282 | a cancelled caller leaves a discarder behind exactly when somebody else had already claimed its ID |
| BaseClient.Client.FailPendingRequests | go/base_client.go:232-239 | every pending request that is still registered gets exactly one closing error, no other channel gets anything, and no send finds a full channel |
| BaseClient.Client.Close | go/base_client.go:210-229 | the first Close fails the pending requests, later ones change nothing |
| ClaimRefinement.Callback | go/callbacks.go:110-134 | when registry and channels show a reachable state of the protocol, the callback's code carries out the protocol's take and, if it claims, its send, and frees exactly when the protocol does |
| ClaimRefinement.CancelWait | go/base_client.go:266-282 | the cancelled caller's code carries out the protocol's untrack and take, and leaves a discarder exactly when the protocol has one |
| ClaimRefinement.Close | go/base_client.go:210-239 | Close carries out the protocol's close steps over all pending IDs, with the same result in every order, and no step on a closed client |
| ClaimRefinement.BeginRequest | go/base_client.go:243-247 | beginning a command carries out the protocol's begin step exactly when no unfinished call still knows the ID, which is what the protocol assumes of the counter |
| ClaimRefinement.CloseReaches | go/base_client.go:210-239 | the state Close leads to is reachable again |
| ClaimRefinement.CallbackReaches | go/callbacks.go:110-134 | so is the state a callback leads to |
| ClaimRefinement.CancelReaches | go/base_client.go:266-282 | and the state a cancellation leads to |
| Slot.HashedPart | go/isolated_scope.go:433-451 | the two scans find the declaratively defined hash tag, or keep the whole key when there is no non-empty one |
| Slot.SlotForKey | go/isolated_scope.go:432-465 | the slot is the CRC of the hashed part modulo 16384 |
| Slot.HashedIdempotent | go/isolated_scope.go:433-451 | selecting the tag of a tag changes nothing |
| Slot.SameTagSameSlot | go/isolated_scope.go:433-451 | keys with the same non-empty tag share a slot, whatever surrounds the tag |
| SlotAlgebra.CrcIsTheRemainder | go/isolated_scope.go:453-464 | for every key length the loop's result is the one and only remainder of key(x) x^16 modulo x^16 + x^12 + x^5 + 1 over GF(2) |
| SlotAlgebra.SameNumberSameCrc | go/isolated_scope.go:453-464 | the CRC depends only on the number the key spells |
| SlotAlgebra.LeadingZerosIgnored | go/isolated_scope.go:453-464 | leading zero bytes do not change the CRC |
| SlotAlgebra.CrcIsLinear | go/isolated_scope.go:453-464 | on keys of equal length the CRC of the xor is the xor of the CRCs |
| SlotAlgebra.StepIsBijective | go/isolated_scope.go:456-462 | one turn of the inner loop is a bijection of the 16-bit words |
| SlotAlgebra.EveryCrcFromOnePair | go/isolated_scope.go:453-464 | after any prefix each 16-bit CRC comes from exactly one pair of appended bytes |
| SlotAlgebra.EverySlotFromFourPairs | go/isolated_scope.go:432-465 | after any prefix without an opening brace each slot comes from exactly four byte pairs |
| TraceState.IsValidTraceState | go/opentelemetry.go:672-703 | returns true exactly for the texts of derivation trees with at most 32 members and pairwise distinct keys, with optional whitespace around |
| TraceState.ScanMembers | go/opentelemetry.go:683-702 | the loop with its set of keys accepts exactly the pieces that are blank or well-formed entries with pairwise distinct keys |
| TraceState.AcceptsIffHeader | go/opentelemetry.go:672-703 | splitting, trimming and cutting accepts exactly the header values of the grammar, in both directions |
| TraceState.ListIffTight | go/opentelemetry.go:672-703 | a value is a bare list of the grammar exactly when it is accepted and has no whitespace outside its first and last entry |
| TraceState.LeadingSpaceAccepted | go/opentelemetry.go:684-689 | a leading space before an entry is accepted although no bare list has one |
| TraceState.IsValidKey | go/opentelemetry.go:705-711 | true exactly for simple keys and tenant@system keys of the grammar |
| TraceState.IsValidKeyPart | go/opentelemetry.go:725-738 | true exactly for a non-empty part within the length limit whose first and other characters are allowed |
| TraceState.IsKeyChar | go/opentelemetry.go:740-751 | true exactly for the key characters of the grammar |
| TraceState.IsValidValue | go/opentelemetry.go:753-764 | true exactly for 1 to 256 printable characters without comma or equals sign, not ending in a space |
| WireFormat.Serialize | go/isolated_scope.go:131-146 | writes the encoding, and as many bytes as it computed beforehand |
| WireFormat.HeadLayout | go/isolated_scope.go:131-146 | where the encoding has the name, and the lengths of the name and of the argument list in little-endian order |
| WireFormat.ArgLayout | go/isolated_scope.go:131-146 | where the encoding has each argument and its little-endian length |
| WireFormat.DecodeEncoded | glide-core/src/scope.rs:68-103 | what the core decodes from the encoding, whatever follows it, is the command that was encoded |
| WireFormat.DecodeIffEncoded | glide-core/src/scope.rs:68-103 | for any bytes at all: the core decodes them to a command exactly when the name is UTF-8, every length is below 2^32 and the bytes begin with the encoding of that command |
| WireFormat.RoundTripIffInRange | glide-core/src/scope.rs:68-103 | the core decodes the encoding to the same command exactly when the name is UTF-8 and every length is below 2^32 |
| WireFormat.EncodingsArePrefixFree | go/isolated_scope.go:131-146 | for lengths below 2^32 no encoding is a prefix of another command's |
| WireFormat.LongCommandsCollide | go/isolated_scope.go:131-146 | beyond 2^32 two different commands have the same encoding |
| PubSubHandler.PubSubMessageQueue.Push | go/pubsub_message_handler.go:95-125 | the longest waiter gets the message and the other waiters nothing, or else it is queued and every registered signal channel is offered one token per registration, into its buffer or to an owner parked on an unbuffered channel |
| PubSubHandler.PubSubMessageQueue.Pop | go/pubsub_message_handler.go:127-138 | takes the oldest queued message and leaves the others, nil exactly when there is none |
| PubSubHandler.PubSubMessageQueue.WaitForMessage | go/pubsub_message_handler.go:140-157 | returns a new channel that holds the oldest queued message, or waits at the end of the line |
| PubSubHandler.PubSubMessageQueue.RegisterSignalChannel | go/pubsub_message_handler.go:159-171 | appends one registration of the channel and offers it a token exactly when messages are already queued |
| PubSubHandler.PubSubMessageQueue.UnregisterSignalChannel | go/pubsub_message_handler.go:173-186 | removes exactly the first registration of the channel and keeps all others in order; changes nothing when there is none; messages and waiters stay |
| PubSubQueue.OffersAre | go/pubsub_message_handler.go:116-124 | any number of offers fills a buffer up to its capacity and no further, and wakes an owner parked on an unbuffered channel |
| PubSubRuns.NextKeeps | go/pubsub_message_handler.go:95-186 | every operation of the queue and every move of a channel's owner keeps the log balance, the line of waiters and the tokens |
| PubSubRuns.StepsFollowTheQueue | go/pubsub_message_handler.go:95-186 | every step of a run changes the queue by the operation it is named after, and logs exactly the pushes and the waiting calls |
| PubSubRuns.RegistrationsExact | go/pubsub_message_handler.go:159-186 | registering adds one registration of that channel, unregistering removes one if there is one, and no other step changes the registrations of any channel |
| PubSubRuns.DeliveredInPushOrder | go/pubsub_message_handler.go:95-157 | in every run the messages pushed are the messages handed out, in order, followed by those queued; messages and waiters are never both present |
| PubSubRuns.WaitersFirstComeFirstServed | go/pubsub_message_handler.go:95-157 | the served calls are exactly the first ones made, in order; each has exactly one message, the one handed to it, and the others have none |
| PubSubRuns.PushNeverBlocks | go/pubsub_message_handler.go:99-105 | the send that Push makes with the lock held always finds room |
| PubSubRuns.QueuedMeansSignalled | go/pubsub_message_handler.go:107-171 | in every run, while messages are queued, every registered channel with a buffer has a token in it or its owner is draining, also while the owner is away |
| PubSubRuns.PushWakesParked | go/pubsub_message_handler.go:107-125 | in every reachable state a Push without waiters reaches the parked owner of every registered channel, buffered or not |
| PubSubRuns.TokensWithinCapacity | go/pubsub_message_handler.go:116-124 | in every run no signal channel ever holds more tokens than its capacity |
| PubSubRuns.NoLostWakeupIffBuffered | go/pubsub_message_handler.go:107-171 | a registered channel's owner, who drains the queue after each token, is never parked while messages are queued, in any run, if and only if the channel has a buffer |
| PubSubRuns.OfferAllIsOffers | go/pubsub_message_handler.go:116-124 | the runs signal each channel exactly as the object's loop does, once per registration |
| PubSubRuns.LostWakeup | go/pubsub_message_handler.go:117-124 | the run in which an unbuffered channel loses its wake-up |
| MonitorRuns.NextKeeps | go/monitor_client.go:85-130 | every step of server, dispatcher, callers and Close keeps the line balance, the channel bound and the reasons to wait |
| MonitorRuns.LinesConserved | go/monitor_client.go:85-130 | in every run the accepted lines are taken, queued, in hand and in the channel, in this order; the channel never exceeds 512 |
| MonitorRuns.HandedIsTaken | go/monitor_client.go:178-208 | over every run the lines handed to callers, each at the moment its call returns, are the lines that left the queue, in order and each once |
| MonitorRuns.AcceptedIffRoom | go/monitor_client.go:85-88 | a line of the server is accepted exactly when fewer than 512 lines wait, and no other step accepts one |
| MonitorRuns.DispatcherDrains | go/monitor_client.go:105-130 | from any state steps of the running dispatcher alone bring its line in hand and then all lines of the channel to the queue, in order, losing none |
| MonitorRuns.ParkedOnlyWithReason | go/monitor_client.go:178-193 | a parked caller has an empty queue, and Close has not yet made its broadcast |
| MonitorRuns.ReturnsAreJustified | go/monitor_client.go:178-193 | a call fails only on a closed client, and returns only accepted lines |
| MonitorRuns.NobodyWaitsAfterClose | go/monitor_client.go:211-227 | once the closing Close has returned, in every continuation nobody is or becomes parked, queued lines can still be taken and calls fail exactly when none is left |
| MonitorRuns.CloseCanFinish | go/monitor_client.go:211-227 | from any point of Close at most five steps of dispatcher and closer finish it |
| Monitor.MonitorClient.MonitorCallback | go/monitor_client.go:85-88 | the line is appended to the channel unless 512 lines are waiting, and this is the run's server step |
| Monitor.MonitorClient.DispatcherReceive | go/monitor_client.go:111-114 | is the run's receive step: the oldest line of the channel is in hand |
| Monitor.MonitorClient.DispatcherEnqueue | go/monitor_client.go:115-120 | is the run's enqueue step: the line in hand becomes the newest of the queue and every parked caller is woken |
| Monitor.MonitorClient.Perform | go/monitor_client.go:105-227 | the object carries out every step of the runs exactly when it is possible, and otherwise does nothing |
| Monitor.MonitorClient.TryGetMonitorMessage | go/monitor_client.go:196-208 | takes the oldest queued line off the queue and returns it, none exactly when the queue is empty, which then stays as it is; this is the run's try step |
| Monitor.MonitorClient.GetPass | go/monitor_client.go:178-193 | with the lock held the call is the run's get step: it takes the oldest line, fails or parks |
| Monitor.MonitorClient.GetMonitorMessage | go/monitor_client.go:178-193 | the whole call with its wait loop, whatever other goroutines do during the waits: it returns the line it took last, fails only closed and empty, stays parked only if nobody woke it and then nothing is queued and Close has not finished; it does not wait when a line is queued |
| Responses.ParseOkIffSound | go/response_handlers.go:142-179 | parsing succeeds exactly on responses of known types without missing strings, and gives containers of untyped values all the way down (which value it gives is ParseIffDenotes) |
| Responses.ParseIffDenotes | go/response_handlers.go:142-226 | parsing gives a value exactly when the response denotes it, a relation that does not mention the parser: scalars as sent, sets by membership, arrays element by element in order, maps with exactly the keys sent and the value of the last occurrence |
| Responses.ItemsDenote | go/response_handlers.go:192-206 | the array loop keeps length and order, and each element is what its response denotes |
| Responses.FailureHasReason | go/response_handlers.go:142-226 | a panic comes only from a missing string, and an error only from a part of unknown type or an error part without text |
| ScoredResponse.HandleResponse | go/response_handlers.go:1669-1717 | from the response tree to the ordered entries: succeeds exactly on a sound map whose last pair for every key has a double, gives exactly those keys with exactly those doubles, in ascending order of score and member (descending in reverse) if no score is NaN; panics only where a string or an element pointer is missing |
| Converters.Convert | go/response_handlers.go:258-342 | for every chain conversion succeeds exactly on values of the declared shape, gives the typed value, and panics only where something else than a container meets a converter |
| Converters.ConvertArray | go/response_handlers.go:315-339 | the array loop succeeds exactly when every element converts, and keeps length and order |
| Converters.ConvertMap | go/response_handlers.go:269-295 | the map loop succeeds exactly when every value converts, in any iteration order, and keeps the key set |
| Converters.ConvertElement | go/response_handlers.go:270-294 | one element converts exactly when it has the element shape; a nil from the next converter becomes the zero value |
| Converters.AssertionIffOfType | go/response_handlers.go:258-342 | the type assertion of the code succeeds exactly on the values of the type, as defined type by type |
| Converters.ZeroHoldsNothing | go/response_handlers.go:283-287 | the zero value of a type has that type, or is nil for an interface, and has no contents |
| Converters.TypedKeepsContents | go/response_handlers.go:252-342 | forgetting the types of the result gives back the input, and in a well-typed chain everything in the result has its declared type |
| Converters.TypedInjective | go/response_handlers.go:252-342 | a well-typed chain never converts two responses to the same value |
| Converters.ContentsKeptIffLossless | go/response_handlers.go:283-287 | a chain gives back every response it accepts exactly when it never turns a null into a zero value that is not nil |
| Converters.WellTypedIsLossless | go/response_handlers.go:252-342 | every well-typed chain is such a chain |
| Converters.PanicsOnlyOffShape | go/response_handlers.go:270-313 | a value that can make the code panic does not have the declared shape |
| SortedSet.HandleSortedSetWithScores | go/response_handlers.go:1694-1716 | the result lists each entry of the map once; without NaN each entry has a smaller score than every later one, or the same score and a member that is a proper prefix or has the smaller byte where they first differ, the other way round in reverse; it is the one and only ranking, so it does not depend on iteration order or sorting algorithm |
| SortedSet.LessIff | go/response_handlers.go:1700-1706 | the comparison of the code is that order, which is defined without it, for all scores that are not NaN |
| SortedSet.RankingAscends | go/response_handlers.go:1700-1714 | every inversion-free listing without NaN is in that order, in both directions |
| SortedSet.RankingUnique | go/response_handlers.go:1700-1714 | two inversion-free listings of the same map without NaN are equal |
| SortedSet.ReverseIsReversal | go/response_handlers.go:1707-1714 | the reverse output is the exact reversal of the forward output |
| SortedSet.DeterminedIffComparable | go/response_handlers.go:1700-1714 | the entries alone settle the order exactly when no score is NaN or there is at most one entry |
| Pool.AcquireWithTimeout | go/client_pool.go:192-230 | says which answer ends the loop in which way; at least one attempt unless closed or cancelled at once, at most 8 + timeout/50ms; the sleeps are 1, 2, 4, 8, 16, 32 and then 50 ms, each cut to the time remaining, in total at most the timeout; exhaustion only after a failed attempt at or past the deadline, and without delays after exactly the computed number of attempts |
| Pool.AcquireLoop | go/client_pool.go:200-229 | the same for the loop on an open pool: the sleeps follow the plan, all earlier attempts missed, and the last answer decides the outcome |
| Pool.KeptBounds | go/client_pool.go:200-229 | sleeps that follow the plan never exceed the timeout in total and are at most 7 + timeout/50ms, whatever delays come between; without delays both are exact |
| Pool.SleepsBound | go/client_pool.go:216-228 | doubling from 1ms to a cap of 50ms uses up a timeout in at most 7 + timeout/50ms sleeps |
| Pool.SleepsMonotone | go/client_pool.go:211-228 | less time remaining never needs more sleeps |

## Left out

- The command methods of `base_client.go`, `glide_client.go` and `glide_cluster_client.go`: they only build argument lists.
- The Rust core, the FFI calls, protobuf and pointer layout: the core is a nondeterministic party of the machine; of its code only the scope command decoder is modelled.
- What happens to a response after it has been returned to the caller of the protocol.
- Registry.RequestRegistry.Register: needs a free non-zero ID, because the loop of the source does not end without one; the bound on tries assumes that no other goroutine interferes.
- Interleavings inside `registerRequest`: `Registry` is sequential; the claim machine interleaves whole locked sections.
- The parsing of a scope command's response to text (`parseScopeResponse`) and the plumbing of `ScopedConnection`.
- `normalizeSpanContext`, span creation, sampling and OpenTelemetry configuration.
- Pub/sub and monitor callbacks: user code.
- SortedSet.SortEntries: `sort.Slice` is represented by an insertion sort on values, not by the library's in-place algorithm; without NaN the result is unique, so the choice is immaterial.
- SortedSet.HandleSortedSetWithScores: with a NaN score promises the entries but not where they stand, because `sort.Slice` promises no order for an inconsistent comparison.
- ScoredResponse.HandleResponse: promises no order with a NaN score, for the same reason.
- Rounding of floating-point numbers: scores are only compared, never computed with.
- The message texts of errors, and in a failing map conversion which of several failing entries is reported.
- Deciding the sort direction from the command's arguments, and the handlers for other response shapes.
- Pool.AcquireWithTimeout: overflow of a 64-bit duration or time is not modelled.
- `ClientPool.GetClient`, pool metrics, connection setup and configuration.

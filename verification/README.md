# Verified model of the WebSocket-ADNL bridge

The bridge lets WebSocket clients use the ADNL, overlay and liteserver interfaces of TON. This project
models the parts of it whose correctness spans many functions or many goroutines, and proves what they
keep over every run and every interleaving.

**Peers, overlays and queries** (`Lifecycle`, `LifecycleSteps`, `LifecycleRuns`, `PeerTable`,
`Interference`, `Bridge`, `Slices`). A connected peer with its owner, overlays, query handler and
outstanding queries is spread over seven maps of the bridge and two lists of each client. `Lifecycle` is
the state with every step that edits it; `LifecycleRuns` proves what whole runs keep; `PeerTable` proves
that the flat maps are always the flattening of one table and that every step is one edit of it. `Bridge`
is the imperative form: the classes with the source's fields and one method per handler. Between two
sections of a handler `Others` runs an arbitrary script of the steps that need no lifecycle lock; each
method is proved to act as a legal serial run of steps (`Explains`) whose own steps are named. The overlay
maps are neither read nor written by any of those steps, so a gap beside a section that edits only them
is left to the next call of `Others`: whatever happens there may as well happen then.

**The trace coordinator** (`TraceMachine`, `TraceSafety`, `TraceOutcome`, `TraceBounds`, `TraceFailures`,
`TraceResolver`, `Sums`). The coordinator, its resolvers, the semaphore, the channel of 64, the wait group
and the waiter behind `doneCh` as a state machine; each action is one step of one goroutine. Two properties
do not hold unconditionally: `trace_complete` can be sent over a live resolver, and the cancel path can
close the channel under one, which may then send on it. `TraceFailures` gives the runs and the exact
conditions, twice: for a state of the coordinator (the wait group at zero or the waiter fired, and somebody
live or a child in the channel), and for a whole trace before it starts (how deep it may go, and whether
there are a root message, a permit and a child at all). A third concerns one resolver: a search that fails
is not made again while the account is quiet; `ResolvedExactly` says when the message is found.

**Admission** (`Admission`, `Decimal`): in-flight slots, the subscription counter with its rollback, the
subscription table, and the configuration rule that keeps `subscribe.unsubscribe` reachable.

**Loops over the chain** (`AccountHistory`, `BlockFollowing`, `ConfigStream`): finding a transaction by
LT, watching for the transaction of an external message, following the masterchain, reading a block's
transactions in pages, and the stream of configuration changes. The liteserver's answers and the moments
at which a connection drops are scripts given to the methods; an exhausted script is a deadline or a
cancelled context.

**Values** (`StackValues`, `OutActions`, `Decimal`): TVM stack values to JSON and back, and the list of
actions that a run leaves.

## Assumptions

- The library calls a disconnect callback asynchronously after `Close`, so it never runs inside a section
  of the bridge (wsbridge/peer_lifecycle_test.go:95-109).
- A peer registered for a key has that key's id. A closed peer answers no ping; a later endpoint may give it
  again, as long as it is not announced then.
- The gateway does not announce again a connection object that the bridge has detached.
  `ReannouncedBreaksQueries` shows that the query invariant fails without this.
- A client's exit waits for the handlers of its own requests (wsbridge/bridge.go:360-363), which is why
  `Spares` keeps the exit of the calling client out of the gaps of a handler.
- Identifiers (peer, overlay and query ids, hashes) are compared for equality only and are numbered.
- The subscription counter and the sequence numbers do not wrap around; the subscription limit fits its
  32-bit conversion.
- Against the liteserver: the pages of an account's history are contiguous and end where they were asked
  to; `LookupBlock` returns the block that was asked for. For `PaginationIsExact` and `FollowingIsExact`
  also: the pages of a block continue at the cursor and their flag is truthful.

## Model

| member | source | states |
|---|---|---|
| Bridge.WSBridge.InstallPeer | wsbridge/adnl.go:79-110 | the new registry and the outcome in every case: a live entry is never replaced, another client's ownership is refused, a missing key is added with all three entries, a closed peer is not added |
| Bridge.WSBridge.DetachPeerLocked | wsbridge/adnl.go:185-262 | removal happens exactly if the expected generation was installed; with other goroutines between its sections it still acts as one atomic detach, and the second generation check cannot fail |
| Bridge.WSBridge.ReleaseResources | wsbridge/adnl.go:194-245 | overlays of the peer leave both maps, queries of the generation are dropped, only the owner's lists are filtered, whatever else happens in between |
| Bridge.WSBridge.TakeOverlaysOf | wsbridge/adnl.go:194-202 | deleting while iterating takes out exactly the overlays mapped to the peer |
| Bridge.WSBridge.DropQueriesOf | wsbridge/adnl.go:216-222 | deleting while iterating leaves exactly the queries of other generations |
| Bridge.WSBridge.DropFromOwner | wsbridge/adnl.go:224-245 | the owner loses the peer and its overlays; no other client's list changes |
| Bridge.WSBridge.ClaimPeer | wsbridge/adnl.go:374-380 | installing with an owner and appending to the list act as one atomic claim; a failed one changes nothing |
| Bridge.WSBridge.ClaimExisting | wsbridge/adnl.go:311-349 | the reply for each case of an installed peer; success means the client owns it and lists it; the second install cannot fail |
| Bridge.WSBridge.TryAttempt | wsbridge/adnl.go:359-373 | a connection that does not answer the ping is gone afterwards and the client's lists are as before |
| Bridge.WSBridge.InstallOrRollBack | wsbridge/adnl.go:374-380 | ownership fails exactly if another generation took the id or the connection closed; then nothing of the attempt is left |
| Bridge.WSBridge.Connect | wsbridge/adnl.go:308-387 | the reply in each case; success ends in one claim of the installed generation; failure detaches at most ownerless entries of this id and leaves everything with an owner as it was |
| Bridge.WSBridge.ConnectByADNL | wsbridge/adnl.go:408-511 | the same over a list of endpoints: no live address is reported exactly if no endpoint gives a connection that answers its ping; on success the connection is that of the lowest such endpoint; earlier ones leave nothing behind |
| Bridge.WSBridge.TryEndpoints | wsbridge/adnl.go:474-504 | an endpoint whose ping fails is skipped: the outcome is that of the lowest endpoint with a connection that answers, and no live address exactly if there is none |
| Bridge.WSBridge.DisconnectCallback | wsbridge/adnl.go:164-182 | notifies exactly if its own generation was installed; otherwise changes nothing |
| Bridge.WSBridge.Disconnect | wsbridge/adnl.go:620-645 | succeeds exactly for the client's own peers, which are then gone; a listed peer is always installed and the generation cannot change |
| Bridge.WSBridge.SetQueryHandler | wsbridge/adnl.go:772-836 | stores a closure for the installed generation exactly if the client owns the peer |
| Bridge.WSBridge.OnQuery | wsbridge/adnl.go:807-818 | a closure, however old, files a query exactly if its generation is still installed |
| Bridge.WSBridge.AnswerLookup | wsbridge/adnl.go:873-888 | drops an expired query, refuses another client's, finds the rest |
| Bridge.WSBridge.AnswerFinish | wsbridge/adnl.go:907-911 | removes the query only if it is still the entry that was looked up |
| Bridge.WSBridge.Sweep | wsbridge/bridge.go:234-241 | deleting while iterating leaves exactly the queries that have not expired |
| Bridge.WSBridge.OverlayJoin | wsbridge/overlay.go:74-195 | joins exactly under the limit, for an own peer, and if the overlay is new and attaches or is the client's own on that peer |
| Bridge.WSBridge.OverlayLeave | wsbridge/overlay.go:220-256 | leaves exactly the client's own overlays; a listed overlay is always found |
| Bridge.WSBridge.OverlaySetQueryHandler | wsbridge/overlay.go:652-729 | installs a closure exactly for an own overlay on the named peer |
| Bridge.WSBridge.TakePeers | wsbridge/bridge.go:338-341 | the exit copies and clears the client's peer list before it has the lifecycle lock |
| Bridge.WSBridge.ReleasePeers | wsbridge/bridge.go:342-355 | detaches only peers that were on the list, and afterwards nothing refers to the client, whatever happened since the copy |
| Bridge.WSBridge.ReleaseOverlayList | wsbridge/bridge.go:314-334 | closes exactly the overlays that were still listed |
| Bridge.WsClient.DropPeer | wsbridge/adnl.go:230-236 | the list, filtered in its own array, loses exactly the peer |
| Bridge.WsClient.DropOverlays | wsbridge/adnl.go:237-243 | the list, filtered in its own array, loses exactly the removed overlays |
| Bridge.WsClient.OwnsPeer | wsbridge/adnl.go:55-64 | true exactly for listed peers |
| Bridge.WsClient.OwnsOverlay | wsbridge/overlay.go:26-35 | true exactly for listed overlays |
| Bridge.WsClient.AddClientPeer | wsbridge/adnl.go:66-75 | appends a peer unless it is listed |
| Bridge.WsClient.CutOverlay | wsbridge/overlay.go:241-247 | cutting out the first occurrence removes the overlay, the list having no duplicates |
| Slices.FilterInPlace | wsbridge/adnl.go:230-243 | filtering over the list's own array gives the filtered list: the writer never overtakes the reader |
| Slices.ReverseInPlace | wsbridge/lite.go:623-625 | swapping from both ends reverses the array |
| LifecycleSteps.StepKeepsValid | wsbridge/adnl.go:185-262 | every step keeps the tables in agreement: equal key sets, sound owners, overlays, queries and duplicate-free lists within the limits |
| LifecycleRuns.RunKeepsValid | wsbridge/bridge.go:126-139 | the same over every run, with gateway inserts, sweeps, answers and exits anywhere |
| LifecycleRuns.WithinLimits | wsbridge/overlay.go:74-195 | from a fresh bridge no client's lists ever exceed MaxPeers and MaxOverlays |
| LifecycleRuns.QueriesBelong | wsbridge/adnl.go:807-818 | every pending query belongs to the generation installed under its peer id and to that generation's owner |
| LifecycleRuns.OwnerNeverChanges | wsbridge/adnl.go:84-96 | a generation that has an owner keeps it for as long as it is installed, over any run |
| LifecycleRuns.LateCallbackHarmless | wsbridge/adnl.go:164-192 | the disconnect callback of a detached generation changes nothing, however late it comes |
| LifecycleRuns.AnswerGoesToOwner | wsbridge/adnl.go:883-896 | if the generation is still installed at the second look of an answer, the client that answers is its owner |
| LifecycleRuns.ReannouncedBreaksQueries | wsbridge/adnl.go:98-108 | announcing a detached connection again would break the ownership of queries |
| LifecycleRuns.ExitLeavesNoTrace | wsbridge/bridge.go:312-355 | once the peer cleanup of an exit has ended no table refers to the client, for ever, and the overlay cleanup finds an empty list |
| LifecycleRuns.ExitOwnsIffSameGeneration | wsbridge/bridge.go:337-354 | a copied id is still the client's, when the lock comes, exactly if the generation is the one from the time of the copy |
| LifecycleRuns.ExitMayDetachAnother | wsbridge/bridge.go:338-349 | a run from a fresh bridge in which the exit of one client detaches the connection of another |
| PeerTable.PeersFlattenAbs | wsbridge/bridge.go:126-131 | the peer, wrapper, owner and handler maps are the flattening of one table |
| PeerTable.OverlaysFlattenAbs | wsbridge/bridge.go:133-140 | the two overlay maps are the flattening of that table |
| PeerTable.QueriesFlattenAbs | wsbridge/bridge.go:136-149 | the pending queries are the flattening of that table |
| PeerTable.ListsFlattenAbs | wsbridge/bridge.go:102-103 | the client lists are read off that table, up to the early clearing at exit |
| PeerTable.FlatteningUnique | wsbridge/bridge.go:126-139 | the maps flatten no other table |
| PeerTable.StepRefines | wsbridge/adnl.go:185-262 | every step on the flat maps is one edit of the table; detaching a peer is removing one key |
| Interference.InstalledStays | wsbridge/adnl.go:79-110 | writers without the lifecycle lock never replace or remove an installed generation or its owner |
| Interference.InsertsAreUnowned | wsbridge/adnl.go:79-110 | whatever they add has no owner |
| Interference.DetachIsAtomic | wsbridge/adnl.go:185-262 | the sections of a detach with other steps between them equal a serial run with one detach |
| Interference.ClaimIsAtomic | wsbridge/adnl.go:374-380 | the same for a claim |
| Interference.OverlayStepIsAtomic | wsbridge/overlay.go:143-194 | the same for joining and leaving an overlay |
| Interference.DetachesKeepOwned | wsbridge/adnl.go:368-379 | an error path that only detaches ownerless entries leaves every owned peer, its overlays and its handler untouched |
| Interference.LeavingGainsNothing | wsbridge/bridge.go:357-363 | a client whose exit has begun gains no peer in any run |
| TraceSafety.RunInv | wsbridge/trace.go:171-258 | the invariant of the trace machine over every run |
| TraceOutcome.CompletionAccurate | wsbridge/trace.go:225-254 | trace_complete without a late child: no live resolver, an empty channel, the messages spawned are exactly the root's and the children of every delivered match above the depth limit, each with its one outcome, and exact numbers in the event |
| TraceOutcome.TimelyCompletion | wsbridge/trace.go:203-258 | the same for every run that never takes the child arm between the wait group's zero and the done arm; such a run never sends on a closed channel |
| TraceOutcome.TraceConservation | wsbridge/trace.go:177-223 | in every reachable state: depths in range, one attempt per finished resolver, exact counts of timeouts and spawns, running resolvers within the semaphore, and every message found by a match in exactly one place: spawned, in the channel, still with its finder, or dropped by a cancel |
| TraceSafety.DiscoveredAlong | wsbridge/trace.go:380-385 | the messages found are the children of the delivered matches above the depth limit along the run |
| TraceOutcome.CancelClosesAfterSenders | wsbridge/trace.go:205-215 | the cancel path closes the channel only when every sender has returned, unless a child was taken late |
| TraceFailures.PrematureExactly | wsbridge/trace.go:217-254 | from any reachable selecting state the coordinator alone can announce completion over a live resolver exactly if the wait group is at zero or the waiter has fired, and somebody is live or a child is in the channel |
| TraceFailures.CloseOverLiveExactly | wsbridge/trace.go:205-223 | a cancel can close the channel under a live resolver, without any resolver moving, exactly in the same states |
| TraceFailures.PrematurePossibleExactly | wsbridge/trace.go:168-258 | some run of a trace announces completion over a live resolver exactly if there are a root message, a permit, a child and a depth limit of at least 2 |
| TraceFailures.CloseOverLivePossibleExactly | wsbridge/trace.go:168-258 | some run of a trace closes the channel under a live resolver exactly under the same condition |
| TraceFailures.CrashPossibleExactly | wsbridge/trace.go:168-258 | some run of a trace sends on the closed channel exactly if moreover the depth limit is at least 3 |
| TraceFailures.PrematureRun | wsbridge/trace.go:217-254 | such a run from the start, for any root messages |
| TraceFailures.ClosingRun | wsbridge/trace.go:205-223 | a run from the start that closes the channel under a live resolver |
| TraceFailures.CrashingRun | wsbridge/trace.go:205-223 | a run from the start in which a resolver sends on the closed channel |
| TraceBounds.Progress | wsbridge/trace.go:182-258 | until the coordinator returns some step other than a cancel is enabled, in spite of the full channel and the full semaphore |
| TraceBounds.NoPermitsNoProgress | wsbridge/trace.go:172-186 | with no permits a trace with a message never ends, not even by a cancel; a loaded configuration has permits (config.go:286-288 replaces zero), only a BridgeConfig built by hand can have none |
| TraceBounds.TraceTerminates | wsbridge/trace.go:203-258 | every run is finite, with a bound from the depth and the fan-out |
| TraceBounds.CanFinish | wsbridge/trace.go:203-258 | from every reachable state the trace can go on to its end without a cancel; unless one was under way, that end is a completion and nothing is sent on a closed channel |
| TraceBounds.SpawnBound | wsbridge/trace.go:177-223 | at most initial times 1 + B + ... + B^(maxDepth-1) resolvers |
| TraceResolver.ExtractInternalOutMsgs | wsbridge/trace.go:392-431 | the followable messages in order, at the given depth |
| TraceResolver.PendingExact | wsbridge/trace.go:402-428 | a message is extracted exactly if it is internal with an address, a body and a cell form |
| TraceResolver.ClampDepth | wsbridge/trace.go:79-85 | the request clamped to the limit, at least 1 for a validated configuration |
| TraceResolver.ResolveMessage | wsbridge/trace.go:262-358 | one resolver makes one attempt at an event, as the step of the machine says; it reports the first search that hits, and then sends exactly the followable messages of that transaction, in order and one level deeper, if the event was delivered above the depth limit |
| TraceResolver.ReportMatch | wsbridge/trace.go:368-387 | one trace_tx, and the children only if it was delivered above the depth limit |
| TraceResolver.ResolvedReports | wsbridge/trace.go:298-357 | the scan reported is the first search's if it hits, else that of the first turn whose search does |
| TraceResolver.PendingSelects | wsbridge/trace.go:402-428 | what is extracted are the internal messages with an address, a body and a cell form, all of them and in order |
| TraceResolver.ResolvedExactly | wsbridge/trace.go:298-357 | the message is found exactly if the first search hits, or one in a turn before the deadline whose LT has moved since the last read |
| TraceResolver.FoundOnceProcessed | wsbridge/trace.go:283-357 | with reliable searches the message is found if the account is read, at the first look or before the deadline, after processing it; and only then, unless a search runs ahead of its read |
| TraceResolver.FailedFirstSearchIsFinal | wsbridge/trace.go:298-349 | a failed first search is not repeated while the account is quiet, whatever later searches would find |
| TraceResolver.FailedSearchIsFinal | wsbridge/trace.go:347-356 | the same for a search that fails in a later turn |
| Admission.AcceptedExactly | config.go:313-379 | a configuration is accepted exactly if every bound holds, those of a namespace only while it is on |
| Admission.AdmissionIsBounded | wsbridge/subscribe.go:23-28 | admitted subscriptions never exceed the limit; the counter is those plus the ones rolling back; slots are the handlers that hold one |
| Admission.DeferredDeleteIsOwn | wsbridge/subscribe.go:60-65 | a handler's deferred delete removes exactly its own entry and cancels its context |
| Admission.RegisteredIsListed | wsbridge/subscribe.go:55-59 | a registered subscription is listed under its identifier until its context is cancelled |
| Admission.RegisterReplacesNothing | wsbridge/subscribe.go:55-59 | a new entry replaces none, whatever other handlers do between taking the number and entering it |
| Admission.HeadroomExactly | wsbridge/bridge.go:411-417 | slots held by subscriptions alone always leave one free exactly if the in-flight limit exceeds the subscription limit |
| Admission.ValidatedHeadroom | config.go:349-364 | a configuration accepted with subscriptions enabled has that headroom, and one rejected for headroom has not |
| Admission.UnsubscribeGetsThrough | wsbridge/subscribe.go:722-745 | in such a state an unsubscribe gets a slot; the registered subscription with that identifier ends with its context cancelled and its entry taken out, and no other is touched |
| AccountHistory.GetTransaction | wsbridge/lite.go:1075-1100 | finds an LT exactly if it is among the transactions that the answers cover; otherwise reports an error exactly if an answer was one |
| AccountHistory.ServedInFull | wsbridge/lite.go:1079-1098 | a server that answers with non-empty pages is read to the start of the chain, so the LT is found exactly if it is on the chain |
| AccountHistory.FailsExactly | wsbridge/lite.go:1079-1084 | the walk ends in an error exactly if, after non-empty pages that did not reach the start of the chain, an answer is an error or missing |
| AccountHistory.EmptyPageHides | wsbridge/lite.go:1091-1093 | an empty page hides the rest |
| AccountHistory.CursorFalls | wsbridge/lite.go:1094-1097 | the LT to continue from strictly decreases |
| AccountHistory.Accepts | wsbridge/lite.go:1469-1483 | the checks accept exactly an external message with the same body and, if asked for, the same state init |
| AccountHistory.ScanHistory | wsbridge/lite.go:1454-1488 | the scan by LT and hash is the scan by position, down to the known transactions |
| AccountHistory.WaitForExternalMessage | wsbridge/lite.go:1434-1495 | the watch by LT and hash is the watch by position; what it reports matches the message |
| AccountHistory.WatchSound | wsbridge/lite.go:1469-1483 | a confirmed transaction matches and was on the chain at the block reported with it |
| AccountHistory.WatchComplete | wsbridge/lite.go:1436-1490 | while the watch goes on no transaction between the first and the current snapshot matches, unless a scan was cut short |
| AccountHistory.CoversUnlessCutShort | wsbridge/lite.go:1455-1488 | a finished scan covers the whole gap exactly if no empty page cut it short |
| AccountHistory.WatchFinds | wsbridge/lite.go:1454-1488 | once the account is read after a match and the pages arrive, the watch has confirmed, whatever block, account or list errors came before, unless the deadline fell into an earlier scan |
| AccountHistory.InterruptedByDeadline | wsbridge/lite.go:1436-1459 | nothing but the deadline inside a scan ends the watch without a confirmation |
| AccountHistory.ResentWhileQuiet | wsbridge/lite.go:1447-1452 | the message is sent again in exactly the rounds in which the account has not moved |
| AccountHistory.EmptyPageSkips | wsbridge/lite.go:1485-1489 | an empty page skips a gap for good |
| BlockFollowing.CollectBlockTransactions | wsbridge/subscribe.go:440-470 | the loop over pages with its error cases, for any replies |
| BlockFollowing.CollectOutcome | wsbridge/subscribe.go:454-468 | a complete page ends the collection, an incomplete one that is empty or ends at the cursor is an error, any other moves the cursor |
| BlockFollowing.PaginationIsExact | wsbridge/subscribe.go:440-470 | against an honest server the whole list in order or a failed request; the guards never fire; as many replies as transactions and one more are enough |
| BlockFollowing.SubscribeBlocks | wsbridge/subscribe.go:151-203 | the events are start+1, start+2, ... each with its own shards, as many as there were good turns or as could be sent |
| BlockFollowing.SubscribeNewTransactions | wsbridge/subscribe.go:365-430 | a turn sends nothing until its block has been read whole; the events are those of the blocks so read, cut off only where the connection dropped |
| BlockFollowing.FollowingIsExact | wsbridge/subscribe.go:365-430 | against an honest server these are the transactions of every block and its shard tops from start+1 on, each block whole, once and in order |
| BlockFollowing.StreamContains | wsbridge/subscribe.go:383-426 | every transaction of a block read, its own and those of each shard top, is an event that names its block |
| BlockFollowing.ReadableCounts | wsbridge/subscribe.go:162-178 | the good turns are those with a tip, a block and its shards |
| BlockFollowing.GoodTurn | wsbridge/subscribe.go:374-406 | enough answers without an error, for the block and for each shard top, read it whole at once |
| ConfigStream.FillCache | wsbridge/subscribe.go:522-529 | the cache starts as the watched part of the first configuration |
| ConfigStream.CompareAll | wsbridge/subscribe.go:561-583 | the events of one block, cut off only where the connection dropped |
| ConfigStream.SubscribeConfigChanges | wsbridge/subscribe.go:537-584 | the events of all blocks that could be read, in order, cut off only where the connection dropped |
| ConfigStream.StreamTelescopes | wsbridge/subscribe.go:537-584 | the events telescope, carry values read at their blocks, and replay to the last configuration read, with skipped blocks and repeated ids |
| ConfigStream.SentTelescopes | wsbridge/subscribe.go:573-583 | the events really sent telescope and carry values as read, wherever the connection dropped, and replay to the last configuration if it did not |
| ConfigStream.EventsChain | wsbridge/subscribe.go:568-582 | per parameter each event's old value is the previous event's new value and differs from its own |
| ConfigStream.OneChangePerBlock | wsbridge/subscribe.go:561-583 | two events of a parameter with the same new value have another one between them |
| StackValues.SerializeStackValue | wsbridge/helpers.go:145-177 | the JSON form of every kind of value, tuples item by item |
| StackValues.SerializeStack | wsbridge/helpers.go:137-143 | the list in order |
| StackValues.SerializeTuple | wsbridge/helpers.go:179-192 | the items in order |
| StackValues.ConvertRunMethodParam | wsbridge/lite.go:165-215 | a number must be a safe integer, a string decimal, an object a cell or a slice whose text decodes; an array fails at its first item that does |
| StackValues.RoundTripExactly | wsbridge/lite.go:165-215 | printing and converting back gives the same value exactly for nulls, integers of any size and nested tuples of such |
| StackValues.NumberAsString | wsbridge/lite.go:169-179 | a number means the same as its decimal string, and is accepted exactly up to 2^53 |
| Decimal.ParseAccepts | wsbridge/lite.go:174-178 | exactly the strings of digits with an optional sign are decimal |
| Decimal.ParseOfToString | wsbridge/helpers.go:147-151 | reading the decimal text of an integer gives the integer |
| OutActions.ParseOutActions | wsbridge/lite.go:572-627 | the entries as met from the newest, reversed |
| OutActions.ParsedInSendOrder | wsbridge/lite.go:569-627 | one entry per action in send order; what cannot be read hides only the actions before it |
| OutActions.EveryListIsPushed | wsbridge/lite.go:574-590 | every list is some actions on a terminator or an unreadable cell |

## Left out

- WebSocket upgrade, ping pump, deadlines, JSON decoding and encoding, logging: I/O. Of a send only its success is kept.
- The library's ADNL, DHT, broadcast, TVM, cell and proof code: its results are parameters.
- The handlers of jettons, NFTs, wallets, DNS, payments, DHT and most of the lite namespace: one call each, they would only add easy members.
- Parsing and validation of request parameters before the first section of a handler; origin, key and namespace checks.
- The set of connected clients and MaxClients: the clients are fixed and each goes through its phases once.
- The event broadcast for ownerless peers, and peers and overlays being closed after they left the maps.
- subscribe.accountState, subscribe.transactions and subscribe.multiAccount: one comparison or a forwarded channel.
- applyDefaults, migrateV1, durations and loading of the configuration: constants and I/O. Only the bounds of Validate that other parts rely on are used.
- At most one Answer per query when two answers race, total_txs as a number of events, and chain-wide delivery of shard transactions: the code does not give them.
- Bridge.WsClient.DropPeer: a list is a sequence between operations and is laid out in an array only while it is filtered; that other slices might share that array is not modelled.
- Bridge.WSBridge.ReleaseOverlayList: is proved on its own; that it finds nothing to close is ExitLeavesNoTrace.
- TraceResolver.ResolveMessage: time is the length of the list of polls; retries are turns of the loop, not steps of the machine, so TraceTerminates counts a message's polling as one step that its timeout ends.
- TraceBounds.TraceTerminates: the bound on internal messages per transaction is a parameter of the model.
- TraceFailures.PrematureRun: the panic that the wait group itself may raise when it is reused before its waiter returned is not part of this model.
- Admission.ValidatedHeadroom: says nothing for a configuration with subscriptions disabled, where lite.sendAndWatch still holds slots but unsubscribe is not served either.
- AccountHistory.WatchSound: does not say that the confirmed transaction is newer than the first snapshot; the page that reaches the snapshot may also hold older ones.
- BlockFollowing.SubscribeNewTransactions: a block that fails is asked for again by the next turn; the pauses between turns are not modelled.

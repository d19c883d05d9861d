# Codex app server: a verified model

A Dafny model of three parts of the Codex app server and its tools, with
proofs of what they promise.

**The connection and subscription protocol.** `AppServer.dfy` describes the
server as steps of concurrent tasks: client connections, the processor loop,
listener tasks and the outbound router, joined by queues. A step is what a
task does between two points at which it may be suspended, and a history
records what was accepted, copied, joined, taken and written. The router is
allowed to take an envelope while control events wait, since it looks at its
queues one after the other while the processor keeps running.
`AppServerMaps.dfy` proves that the maps of both loops agree up to the
messages in flight, `AppServerTrust.dfy` the invariant about who may be
written to, and `AppServerSafety.dfy` the promises that follow for every run,
with two runs that show what is not promised; `AppServerOrder.dfy` says
exactly when those two can happen. `AppServerAdmission.dfy` says whom the
processor serves and how it answers, and `AppServerProgress.dfy` what can
always still happen: clients are heard, and messages reach those they are for.
`OutboundRouter.dfy` is the routing of one envelope in place, and what it has
to do with the steps. `Subscriptions.dfy`
is the thread state manager on values, with its invariant over all runs;
`ThreadState.dfy` has the classes that the program updates, proved to do the
same. `ServerRequests.dfy` is the callback table of server requests, and
`TurnEvents.dfy` and `TurnHandlers.dfy` are what a thread remembers between
the events of a turn, in one state object; `TurnOutcomes.dfy` tells from the
history what is said when, and with which outcome; `TurnRollbacks.dfy` adds how the
handler of a rollback works, and `TurnObjects.dfy` has the objects of all
threads, with those that tasks still hold after their thread was archived.

**The schema and TypeScript transformers.** `TsScanner.dfy` has the bracket
and quote scanner, the splitter and the search for the top-level brace pair;
`TsFilters.dfy` the two filters for experimental parts that use them,
`TsNames.dfy` how properties are written and which are dropped,
`TsGenerated.dfy` the filters on the texts of the generator, `TsNesting.dfy`
well-nested texts, and `TsUnopened.dfy` a text on which one of the filters is
not idempotent.
`JsonValues.dfy` has JSON documents, `SchemaAnnotate.dfy` and
`SchemaAnnotator.dfy` the annotator as a function and as its loops,
`SchemaNames.dfy` the names it gives, `SchemaCanonical.dfy` the canonicalizer
and `SchemaOrder.dfy` the order it puts things in (with `Ordering.dfy` for
sorting and `JsonText.dfy` for the injective serialization that breaks ties),
`SchemaRefs.dfy` and `SchemaSurvivors.dfy` references and what moving and
annotating does to them, `SchemaBundle.dfy`, `SchemaPieces.dfy`,
`SchemaBundleClosed.dfy`, `SchemaBundleExact.dfy` and `SchemaPlaces.dfy` the
bundle, what goes where in it, and the resolution of its references (section 4 of RFC 6901), and
`SchemaPrune.dfy` the pruning of experimental methods.

**Searching and paging.** `SeekSequence.dfy` finds the lines of a patch,
`SeekLevels.dfy` says what its passes take for equal,
`LoadedThreads.dfy` pages through loaded threads by the last identifier, and
`ThreadListing.dfy` is the refill loop over a source of stored threads.

`Text.dfy` and `Wrappers.dfy` hold strings and `Option`. Loops and state that
the program changes in place are methods and classes, each proved equal to a
function; the properties are proved about the functions. JSON trees are owned
in Rust, so changing one in place is a new value here. JSON objects keep the
order of their entries, as `serde_json` does with the feature
`preserve_order`; `tui/Cargo.toml` enables it, and so a build of the workspace
has it; a build without it, in which entries are sorted by key, is not part of
this model. `dafny verify dfyconfig.toml` verifies everything.

Where the code and its own comments differ, the model follows the code:
`seek_sequence` never falls back to `start` for patterns meant for the end of
the file (`SeekSequence.FallbackIsMissing` says exactly when that matters).
Further observations are proved with a concrete input or run, and with the
exact condition under which they arise: a broadcast may reach a client before
the response to its `initialize`; an opt-out counts from when the router takes
a message, not from when it writes it; pruning can turn a kept variant into an
experimental one; the refill loop notices a repeated cursor only if it repeats
at once; a failed rollback submission that is noticed too late answers its
request a second time; taking a property out of a type's body may move the
place where its closing brace is found; a variant's title that is no text is
lost, with what it refers to; and a definition that stays at the root of the
schema bundle keeps its reference to one that went to a namespace.

## Model

| member | source | states |
|---|---|---|
| `AppServerMaps.MapsAgreeModuloQueues` | sheri-ml/codex-rs/app-server/src/lib.rs:372-497 | In every reachable state a connection in the router's map, with the queued control events applied, is held by the processor; a held one missing there has its close in flight, in the event queue, in `pending_closed_connections`, among the router's latest disconnections, or under way in the processor |
| `AppServerMaps.QuietMapsAreEqual` | sheri-ml/codex-rs/app-server/src/lib.rs:372-497 | With all queues empty and both loops idle the two maps have the same connections |
| `AppServerMaps.HeldConnectionsAreTargets` | sheri-ml/codex-rs/app-server/src/transport.rs:464-502 | A held connection that is not leaving and did not opt out is a target of every message addressed to it, and of every broadcast once it is initialized, when the router takes it with no control event waiting |
| `AppServerMaps.EffectiveRemove` | sheri-ml/codex-rs/app-server/src/transport.rs:484-513 | Dropping a connection in the middle of a route changes the effective map by that connection at most |
| `AppServerMaps.StepAgrees` | sheri-ml/codex-rs/app-server/src/lib.rs:372-575 | Each single step of clients, processor, tasks and router keeps the agreement of the maps |
| `AppServerSafety.WritesFollowInitialize` | sheri-ml/codex-rs/app-server/src/transport.rs:464-515 | Every notification or server request written to a connection, broadcast or thread-scoped, follows the acceptance of its `initialize`; a thread-scoped one also follows the connection's joining of that very thread, so an empty subscriber list never becomes a broadcast |
| `AppServerSafety.InitializedOnce` | sheri-ml/codex-rs/app-server/src/message_processor.rs:244-317 | `initialize` is accepted at most once per connection |
| `AppServerSafety.SubscribersAreInitialized` | sheri-ml/codex-rs/app-server/src/codex_message_processor.rs:5657-5681 | In every state between two steps a subscribed connection is held by the processor and initialized |
| `AppServerSafety.ManagerStaysConsistent` | sheri-ml/codex-rs/app-server/src/codex_message_processor.rs:2677-2700 | The thread state manager's invariant holds throughout every run of the server |
| `AppServerSafety.OptOutIsRespected` | sheri-ml/codex-rs/app-server/src/transport.rs:443-462 | Once an initialized connection's opt-out set has been copied, no notification it excludes is written to it that the router took off its queue afterwards |
| `AppServerSafety.OptOutIsFixed` | sheri-ml/codex-rs/app-server/src/lib.rs:514-522 | The opt-out set copied for an initialized connection never changes |
| `AppServerSafety.BroadcastMayPrecedeResponse` | sheri-ml/codex-rs/app-server/src/message_processor.rs:311-314 | A run in which a waiting broadcast reaches a client before the response to its `initialize` |
| `AppServerSafety.OptOutMayComeTooLate` | sheri-ml/codex-rs/app-server/src/transport.rs:481-488 | A run in which a notification taken before the opt-out set was copied is written after it |
| `AppServerOrder.ResponseFirstIff` | sheri-ml/codex-rs/app-server/src/message_processor.rs:311-314 | For a connection in the router's map, when the response to `initialize` is sent: in every run that follows, nothing but replies is written to the connection before the router has taken that response and moved on, exactly if no broadcast waits in the queue that the connection's opt-out leaves through before or after it is copied |
| `AppServerOrder.ResponseComesFirst` | sheri-ml/codex-rs/app-server/src/lib.rs:514-529 | The half of it that is a promise: no such broadcast, no overtaking, whatever steps follow |
| `AppServerOrder.BroadcastComesFirst` | sheri-ml/codex-rs/app-server/src/lib.rs:372-447 | The half that is a run: any such broadcast can be written while the response still waits |
| `AppServerOrder.LateWriteIff` | sheri-ml/codex-rs/app-server/src/transport.rs:481-512 | When the opt-out set of an initialized connection is copied, a notification it excludes can still be written in some run exactly if the router is writing it to that connection at that moment |
| `AppServerOrder.WrittenBeforeTaking` | sheri-ml/codex-rs/app-server/src/transport.rs:443-462 | Every excluded notification written after the copy is written before the router takes its next envelope |
| `AppServerTrust.RunKeepsTrust` | sheri-ml/codex-rs/app-server/src/lib.rs:449-575 | The invariant behind these promises holds after every run: sessions and cells match what was accepted, introductions are unique, subscribers and senders have joined, mail is addressed rightly, and what is being routed is due |
| `AppServerTrust.ProceedKeepsTrust` | sheri-ml/codex-rs/app-server/src/lib.rs:457-529 | Every suspension point of the processor loop keeps that invariant |
| `AppServerTrust.TakeEventKeepsTrust` | sheri-ml/codex-rs/app-server/src/lib.rs:457-541 | So does taking an event; whom it admits is what `AppServerAdmission.RequestIsAdmittedIff` says |
| `AppServerTrust.TakeKeepsTrust` | sheri-ml/codex-rs/app-server/src/transport.rs:464-502 | So does taking an envelope, whose targets are fixed at that moment |
| `AppServerTrust.DeliverKeepsTrust` | sheri-ml/codex-rs/app-server/src/transport.rs:503-512 | So does each write of a route, also when the writer is gone |
| `AppServerTrust.SnapshotKeepsTrust` | sheri-ml/codex-rs/app-server/src/codex_message_processor.rs:5740-5766 | A listener task's list of subscribers, also of a thread already removed, holds only connections that joined the thread |
| `AppServerAdmission.RequestIsAdmittedIff` | sheri-ml/codex-rs/app-server/src/message_processor.rs:318-342 | For every reachable state in which the processor is about to take a request of a held connection, and whatever the other tasks do meanwhile: a handler may serve the connection, and no other, exactly if an `initialize` of it was accepted before and, for an experimental request, asked for those; the processor queues an error for it exactly if not; afterwards its opt-out set is copied |
| `AppServerAdmission.FirstInitialize` | sheri-ml/codex-rs/app-server/src/message_processor.rs:256-316 | The first `initialize` with a valid name: a response is queued, then the connection is accepted for processor and router, then its opt-out set is copied, and its experimental capability is as asked for |
| `AppServerAdmission.OtherInitialize` | sheri-ml/codex-rs/app-server/src/message_processor.rs:247-299 | Any other is answered with an error and accepts nobody; a bad name's opt-out set still counts, a repeated one's does not |
| `AppServerAdmission.MalformedIsRejected` | sheri-ml/codex-rs/app-server/src/message_processor.rs:223-239 | A request that cannot be read is answered with an error |
| `AppServerAdmission.NothingToAnswer` | sheri-ml/codex-rs/app-server/src/lib.rs:500-537 | Other messages, and those of connections no longer held, only leave the queue |
| `AppServerAdmission.CapabilityStays` | sheri-ml/codex-rs/app-server/src/message_processor.rs:271-276 | What an accepted connection asked for does not change while it is held |
| `AppServerAdmission.OpeningIntroduces` | sheri-ml/codex-rs/app-server/src/lib.rs:457-484 | A new connection is announced to the router with a fresh cell and then held, not initialized |
| `AppServerAdmission.ClosingForgets` | sheri-ml/codex-rs/app-server/src/lib.rs:486-498 | A closed connection is retracted from the router, leaves every thread while the subscriptions of others stay, and is then no longer held |
| `AppServerAdmission.NewThreadsAreAttached` | sheri-ml/codex-rs/app-server/src/lib.rs:544-562 | When the processor has gone through the connections for a new thread that is found each time, every held connection that was accepted is subscribed to it |
| `AppServerProgress.ClientsAreHeard` | sheri-ml/codex-rs/app-server/src/lib.rs:449-541 | From every reachable state: what a client's step, or the report of a dead writer, tells the processor can come to be the event it takes next |
| `AppServerProgress.QueuedCanBeWritten` | sheri-ml/codex-rs/app-server/src/transport.rs:464-502 | Every envelope in the queue can be written to each connection in the router's map that it is for and that does not opt out of it |
| `AppServerProgress.RepliesArrive` | sheri-ml/codex-rs/app-server/src/outgoing_message.rs:232-266 | So can every response and error sent to such a connection |
| `AppServerProgress.BroadcastsArrive` | sheri-ml/codex-rs/app-server/src/outgoing_message.rs:268-290 | And every broadcast to each initialized one that does not opt out of it |
| `AppServerProgress.SubscribersAreReached` | sheri-ml/codex-rs/app-server/src/outgoing_message.rs:84-91 | And every message for the subscribers of a thread to each of them |
| `AppServerProgress.SubscribersAreSentTo` | sheri-ml/codex-rs/app-server/src/outgoing_message.rs:84-91 | Such a message can be queued once for each subscriber its sender saw, in order, and for nobody if there was none |
| `AppServerProgress.RemovedThreadIsStillHeard` | sheri-ml/codex-rs/app-server/src/codex_message_processor.rs:5740-5766 | A listener task can go on sending to the subscribers of a thread that was removed |
| `AppServerProgress.DeadWriterIsReported` | sheri-ml/codex-rs/app-server/src/lib.rs:409-420 | A connection whose writer turns out to be gone leaves the map, and its close can be told to the processor |
| `OutboundRouter.Connections.Route` | sheri-ml/codex-rs/app-server/src/transport.rs:464-515 | Routing writes the message once to exactly the targets that still have a receiver, removes and reports exactly those that have none, each once, and touches no other |
| `OutboundRouter.StepsRouteEnvelope` | sheri-ml/codex-rs/app-server/src/transport.rs:464-515 | The steps of the protocol model (take, then one delivery per target) leave the connections, reports and writes that routing the envelope in place does, if the map holds the connections of the state |
| `OutboundRouter.HeldConnectionsAreReached` | sheri-ml/codex-rs/app-server/src/transport.rs:464-515 | So the message is written to it, once, if it still has a receiver, and otherwise the connection is dropped and reported |
| `Subscriptions.RunKeepsInv` | sheri-ml/codex-rs/app-server/src/thread_state.rs:93-220 | After every run of the manager's operations: a connection lists a thread exactly when the thread lists it, every explicit subscription's pair is listed, no list is empty; each spawned task's cancel signal was sent at most once and is unsent exactly when one thread in the map holds it; a thread has a task exactly when it has a subscriber |
| `Subscriptions.RemovedConnectionIsForgotten` | sheri-ml/codex-rs/app-server/src/thread_state.rs:204-220 | After every run a connection without a list is mentioned nowhere, so the early return leaves nothing behind; removing any connection erases it and leaves all others as they were |
| `Subscriptions.ExplicitRemovalDecides` | sheri-ml/codex-rs/app-server/src/thread_state.rs:105-142 | Removing an explicit subscription unsubscribes the connection exactly when it has no other explicit one for that thread |
| `Subscriptions.ExplicitRemovalDropsAttachment` | sheri-ml/codex-rs/app-server/src/thread_state.rs:109-133 | So an automatically attached connection is lost with its explicit subscription |
| `Subscriptions.RemoveListenerSubscribers` | sheri-ml/codex-rs/app-server/src/thread_state.rs:105-142 | Which pairs `remove_listener` affects: only the removed one |
| `Subscriptions.RemoveConnectionSubscribers` | sheri-ml/codex-rs/app-server/src/thread_state.rs:204-220 | `remove_connection` leaves the subscriptions of other connections |
| `Subscriptions.EnsureTaskConserves` | sheri-ml/codex-rs/app-server/src/codex_message_processor.rs:5683-5697 | Starting a task keeps the conservation of tokens: one holder, or one signal |
| `Subscriptions.RemoveConnectionConserves` | sheri-ml/codex-rs/app-server/src/thread_state.rs:204-220 | So does removing a connection |
| `Subscriptions.ReplacementSignals` | sheri-ml/codex-rs/app-server/src/thread_state.rs:45-54 | Starting a task signals the token of the one it replaces, exactly if it replaces one, and no other |
| `Subscriptions.RemovalSignals` | sheri-ml/codex-rs/app-server/src/thread_state.rs:204-220 | Removing a connection signals exactly the tokens of the threads that it alone subscribed to |
| `Subscriptions.LeaveOneMore` | sheri-ml/codex-rs/app-server/src/thread_state.rs:211-219 | Leaving threads one at a time, in any order, adds up to leaving them all |
| `Subscriptions.ListenerIsAdded` | sheri-ml/codex-rs/app-server/src/thread_state.rs:156-181 | Adding a listener records the subscription, subscribes this pair and no other, makes the thread listen to the conversation, and sets raw events as asked |
| `Subscriptions.ConnectionIsAttached` | sheri-ml/codex-rs/app-server/src/thread_state.rs:183-202 | Attaching a connection records no subscription, subscribes this pair and no other, and only ever switches raw events on |
| `Subscriptions.ThreadIsRemoved` | sheri-ml/codex-rs/app-server/src/thread_state.rs:144-154 | Removing a thread removes it, its subscriptions and its entries on all lists, and nothing else |
| `ThreadStates.ThreadState.SetListener` | sheri-ml/codex-rs/app-server/src/thread_state.rs:45-54 | Replaces the listener and signals the previous token |
| `ThreadStates.ThreadState.ClearListener` | sheri-ml/codex-rs/app-server/src/thread_state.rs:56-61 | Signals and forgets the token |
| `ThreadStates.ThreadStateManager.StateOf` | sheri-ml/codex-rs/app-server/src/thread_state.rs:98-103 | Returns the thread's own state object, made if missing |
| `ThreadStates.ThreadStateManager.SetListener` | sheri-ml/codex-rs/app-server/src/thread_state.rs:156-181 | Records the explicit subscription and subscribes the connection on both sides; the last caller decides about raw events; the contents are those of `Subscriptions.SetListener`, and likewise for the methods below |
| `ThreadStates.ThreadStateManager.EnsureConnectionSubscribed` | sheri-ml/codex-rs/app-server/src/thread_state.rs:183-202 | Subscribes the connection on both sides; raw events are switched on, never off; nothing else changes |
| `ThreadStates.ThreadStateManager.EnsureListenerTaskRunning` | sheri-ml/codex-rs/app-server/src/codex_message_processor.rs:5683-5697 | Unless the conversation is being listened to, a new token replaces the old one, which is signalled |
| `ThreadStates.ThreadStateManager.RemoveListener` | sheri-ml/codex-rs/app-server/src/thread_state.rs:105-142 | Removes the subscription and tells whether there was one; the connection leaves the thread unless another explicit subscription keeps it, and the last one to leave signals the task |
| `ThreadStates.ThreadStateManager.RemoveThreadState` | sheri-ml/codex-rs/app-server/src/thread_state.rs:144-154 | Signals the thread's task and erases the thread from all three maps |
| `ThreadStates.ThreadStateManager.RemoveConnection` | sheri-ml/codex-rs/app-server/src/thread_state.rs:204-220 | Erases the connection from all three maps, by a loop over its threads in any order, and signals the tasks that lose their last subscriber |
| `ServerRequests.TableTellsFates` | sheri-ml/codex-rs/app-server/src/outgoing_message.rs:137-230 | After every sequence of acts of all tasks the callback table is what the fate of each request, told from the history alone, says: identifiers are issued once, a request is in the table exactly while it waits, and its waiter got exactly the one answer of its fate |
| `ServerRequests.FirstAnswerIsTheOnlyOne` | sheri-ml/codex-rs/app-server/src/outgoing_message.rs:187-222 | The first answer to a waiting request is the only one its waiter ever gets, whoever else answers |
| `ServerRequests.FinalFatesStay` | sheri-ml/codex-rs/app-server/src/outgoing_message.rs:187-230 | Answered, cancelled and dropped requests stay so |
| `ServerRequests.IdentifiersAreFresh` | sheri-ml/codex-rs/app-server/src/outgoing_message.rs:142 | Identifiers are never reused |
| `ServerRequests.OutgoingMessageSender.SendRequest` | sheri-ml/codex-rs/app-server/src/outgoing_message.rs:137-185 | A fresh identifier and waiter; the envelopes go out in order until the queue closes; the waiter stays in the table exactly if all did |
| `ServerRequests.OutgoingMessageSender.SendRequestToSubscribers` | sheri-ml/codex-rs/app-server/src/outgoing_message.rs:71-82 | Without subscribers nobody is asked, no identifier is spent and the waiter stays unanswered; with some, the waiter is registered under the identifier they are sent, if all were |
| `ServerRequests.OutgoingMessageSender.SenderTellsFates` | sheri-ml/codex-rs/app-server/src/outgoing_message.rs:137-230 | The sender's own table, as its methods leave it, holds exactly the requests that the history of its acts leaves pending |
| `ServerRequests.OutgoingMessageSender.Notify` | sheri-ml/codex-rs/app-server/src/outgoing_message.rs:187-222 | Exactly the waiter of that identifier is answered and leaves the table |
| `ServerRequests.OutgoingMessageSender.CancelRequest` | sheri-ml/codex-rs/app-server/src/outgoing_message.rs:224-230 | Takes the waiter out and says whether there was one |
| `TurnEvents.AnnouncedWhenBegun` | sheri-ml/codex-rs/app-server/src/bespoke_event_handling.rs:153-175 | A file change is announced exactly when it is begun while not running |
| `TurnEvents.AnnouncedOnceBetweenClearings` | sheri-ml/codex-rs/app-server/src/bespoke_event_handling.rs:868-889 | Between two announcements of an item something ended it |
| `TurnEvents.DeltaFollowsItem` | sheri-ml/codex-rs/app-server/src/bespoke_event_handling.rs:949-977 | Output goes to the file change exactly while the item was begun and not ended since, and to a command otherwise |
| `TurnEvents.TurnFailsWithLastError` | sheri-ml/codex-rs/app-server/src/bespoke_event_handling.rs:1318-1332 | A completing turn has failed exactly when an error was recorded since the previous turn end, and carries the last one |
| `TurnEvents.LastErrorIsKept` | sheri-ml/codex-rs/app-server/src/bespoke_event_handling.rs:701-740 | The error kept is the last one recorded since the previous turn end; failed rollbacks are not recorded |
| `TurnEvents.AnsweredByAborts` | sheri-ml/codex-rs/app-server/src/bespoke_event_handling.rs:1043-1063 | Of one state object: the interrupts answered are exactly those asked for before its last abort, in order |
| `TurnEvents.InterruptsAreConserved` | sheri-ml/codex-rs/app-server/src/bespoke_event_handling.rs:1043-1063 | In every history of one state object the interrupts asked for are those answered followed by those waiting, in order |
| `TurnEvents.RollbackAccounts` | sheri-ml/codex-rs/app-server/src/codex_message_processor.rs:2326-2382 | In every history of one state object: rollbacks asked for, and those refused once more because the failed submission was noticed too late, add up to those answered, pending, and dropped by such a failure of another |
| `TurnEvents.RollbacksAreConserved` | sheri-ml/codex-rs/app-server/src/codex_message_processor.rs:2371-2381 | So each request is answered once or pending exactly when the late failures are as many as the dropped requests |
| `TurnEvents.LateFailureAnswersTwice` | sheri-ml/codex-rs/app-server/src/codex_message_processor.rs:2371-2381 | A history in which a rollback is answered twice |
| `TurnRollbacks.AnsweredTwiceIff` | sheri-ml/codex-rs/app-server/src/codex_message_processor.rs:2326-2382 | With requests handled one after the other: a rollback asked for once is answered twice exactly if something settles it between its asking and its failed submission; otherwise it is answered once, or pending |
| `TurnRollbacks.NothingLost` | sheri-ml/codex-rs/app-server/src/codex_message_processor.rs:2371-2381 | And no request is ever dropped because another one could not be submitted |
| `TurnObjects.ObjectsRunAlone` | sheri-ml/codex-rs/app-server/src/thread_state.rs:98-103 | Over all threads, archived ones too, each state object is in the state, and was said the things, of its own history, so that the results on one object hold of each |
| `TurnObjects.InputsReachTheirObject` | sheri-ml/codex-rs/app-server/src/thread_state.rs:98-103 | A request works on the object that its thread has in the manager then, made if there was none, and an event on the one its task holds, and on no other |
| `TurnObjects.LetGoForGood` | sheri-ml/codex-rs/app-server/src/thread_state.rs:144-147 | An object that the manager let go of gets no more requests; the tasks that hold it go on working on it |
| `TurnObjects.ArchivingLetsGo` | sheri-ml/codex-rs/app-server/src/thread_state.rs:144-147 | Archiving lets the thread's object go, changes it not and answers nothing |
| `TurnObjects.WaitingInterrupts` | sheri-ml/codex-rs/app-server/src/bespoke_event_handling.rs:1043-1063 | What events alone do to waiting interrupts: an abort answers them all, in order; nothing else answers any |
| `TurnObjects.ArchivedInterrupts` | sheri-ml/codex-rs/app-server/src/bespoke_event_handling.rs:1043-1063 | After archiving, whatever happens, the interrupts waiting on the thread's object are answered exactly if a task that still holds the object handles an abort on it, and wait there otherwise |
| `TurnObjects.ArchivedRollback` | sheri-ml/codex-rs/app-server/src/bespoke_event_handling.rs:1067-1126 | After archiving, the pending rollback is answered, once, exactly if its object still sees it settled |
| `TurnOutcomes.SaidIffCalledFor` | sheri-ml/codex-rs/app-server/src/bespoke_event_handling.rs:125-1372 | For every history of a state object: each message, with its outcome, is said at an input exactly if the history before calls for it there; a rollback is reported done exactly if it was carried out while it was pending, and failed exactly if the core failed, it could not be loaded, it was refused, or it could not be submitted; likewise for items, turns, errors, output and interrupts |
| `TurnOutcomes.SaidOnce` | sheri-ml/codex-rs/app-server/src/bespoke_event_handling.rs:125-1372 | And how often, and in which order, at that input |
| `TurnOutcomes.PendingWaits` | sheri-ml/codex-rs/app-server/src/codex_message_processor.rs:2326-2369 | A rollback is pending exactly if it was asked for while none was under way and nothing has ended it since |
| `TurnOutcomes.PendingInterruptWaits` | sheri-ml/codex-rs/app-server/src/bespoke_event_handling.rs:1043-1063 | An interrupt is waiting exactly if no abort was reported since it was asked for |
| `TurnHandlers.TurnState.OnApprovalRequest` | sheri-ml/codex-rs/app-server/src/bespoke_event_handling.rs:125-200 | Under V2 marks the item and announces it if it was not marked; then asks for approval: state and messages are those of `TurnEvents.Handle`, as for the methods below |
| `TurnHandlers.TurnState.OnApprovalResponse` | sheri-ml/codex-rs/app-server/src/bespoke_event_handling.rs:1661-1709 | A decline or failure unmarks and completes the item; an acceptance leaves it to the end of the patch |
| `TurnHandlers.TurnState.OnPatchBegin` | sheri-ml/codex-rs/app-server/src/bespoke_event_handling.rs:863-890 | Marks the item, and announces it if it was not marked |
| `TurnHandlers.TurnState.OnPatchEnd` | sheri-ml/codex-rs/app-server/src/bespoke_event_handling.rs:891-908 | Unmarks and completes the item |
| `TurnHandlers.TurnState.OnOutputDelta` | sheri-ml/codex-rs/app-server/src/bespoke_event_handling.rs:940-978 | Routes output by the mark, and changes nothing |
| `TurnHandlers.TurnState.OnError` | sheri-ml/codex-rs/app-server/src/bespoke_event_handling.rs:701-740 | A failed rollback fails the pending request; any other error is recorded and reported: state and messages are those of `TurnEvents.Handle`, whose outcomes `TurnOutcomes.SaidIffCalledFor` fixes |
| `TurnHandlers.TurnState.OnThreadRolledBack` | sheri-ml/codex-rs/app-server/src/bespoke_event_handling.rs:1067-1126 | Takes the pending rollback, if any, and answers it |
| `TurnHandlers.TurnState.HandleTurnComplete` | sheri-ml/codex-rs/app-server/src/bespoke_event_handling.rs:1318-1332 | Clears marks and error, and reports the turn failed with that error, or completed |
| `TurnHandlers.TurnState.HandleTurnInterrupted` | sheri-ml/codex-rs/app-server/src/bespoke_event_handling.rs:1334-1350 | Clears marks and error, and reports the turn interrupted |
| `TurnHandlers.TurnState.AnswerInterrupts` | sheri-ml/codex-rs/app-server/src/bespoke_event_handling.rs:1043-1063 | Answers all pending interrupts in the order of asking, and leaves none |
| `TurnHandlers.TurnState.OnInterruptRequest` | sheri-ml/codex-rs/app-server/src/codex_message_processor.rs:5557-5585 | Queues the interrupt behind the others |
| `TurnHandlers.TurnState.OnRollbackRequest` | sheri-ml/codex-rs/app-server/src/codex_message_processor.rs:2326-2369 | Becomes the pending rollback, or is refused if it is for no turns or another one is pending |
| `TurnHandlers.TurnState.OnRollbackNotSubmitted` | sheri-ml/codex-rs/app-server/src/codex_message_processor.rs:2371-2381 | Nothing is pending any more, and the request is refused |
| `TsScanner.ScanState.Observe` | sheri-ml/codex-rs/app-server-protocol/src/export.rs:783-818 | Updates the scanner in place as `Step` defines |
| `TsScanner.SplitTopLevelMulti` | sheri-ml/codex-rs/app-server-protocol/src/export.rs:654-673 | Computes the split at top-level delimiters |
| `TsScanner.SplitIsWellSplit` | sheri-ml/codex-rs/app-server-protocol/src/export.rs:654-673 | Whatever the text, every part but the last returns the scanner to its initial state and contains no cut |
| `TsScanner.SplitCoversText` | sheri-ml/codex-rs/app-server-protocol/src/export.rs:654-673 | Nothing is lost: the text is a sequence of uncut pieces with delimiters between them, and the parts are what trimming leaves of the pieces |
| `TsScanner.OnlyPieces` | sheri-ml/codex-rs/app-server-protocol/src/export.rs:654-673 | There is no other way to cut it into such pieces |
| `TsScanner.JoinThenSplit` | sheri-ml/codex-rs/app-server-protocol/src/export.rs:654-673 | A list of parts survives joining and splitting exactly when it is one that splitting can yield |
| `TsScanner.SplitKeepJoinSplit` | sheri-ml/codex-rs/app-server-protocol/src/export.rs:231-240 | Split any text, keep any parts in order, join and split again: exactly the kept parts come back |
| `TsScanner.FindTopLevelBraceSpan` | sheri-ml/codex-rs/app-server-protocol/src/export.rs:631-648 | Computes the brace pair |
| `TsScanner.BraceSpanMeaning` | sheri-ml/codex-rs/app-server-protocol/src/export.rs:631-648 | The search finds a pair exactly when it is the last top-level opening brace before the first closing brace back at top level |
| `TsScanner.FoundAgainIff` | sheri-ml/codex-rs/app-server-protocol/src/export.rs:279-301 | For any new body between the braces: the same opening brace is found, and the closing one right after the body, exactly if the scan of the body meets no other brace that counts and its closing brace closes |
| `TsScanner.FoundAgain` | sheri-ml/codex-rs/app-server-protocol/src/export.rs:279-301 | In particular for a balanced body that closes no brace it did not open |
| `TsFilters.FilterClientRequestTs` | sheri-ml/codex-rs/app-server-protocol/src/export.rs:215-240 | Computes the filtered union, as it is before unused imports are pruned |
| `TsFilters.UnionFilterReparses` | sheri-ml/codex-rs/app-server-protocol/src/export.rs:215-240 | For every file with a type alias, the filtered text, its imports not yet pruned, re-parses to the same prefix and suffix and exactly the kept arms, none experimental, and filtering twice is filtering once |
| `TsFilters.TypeBodyBraceSpan` | sheri-ml/codex-rs/app-server-protocol/src/export.rs:614-629 | Computes the span of the type's body |
| `TsFilters.FilterExperimentalFieldsInTsFile` | sheri-ml/codex-rs/app-server-protocol/src/export.rs:279-301 | Computes the filtered text, as it is before unused imports are pruned |
| `TsFilters.FieldFilterReparses` | sheri-ml/codex-rs/app-server-protocol/src/export.rs:279-301 | For every text with a body: the output re-parses to exactly the surviving properties, and has the same opening brace and its closing brace right after the new body exactly if the scan of the new body stays inside |
| `TsFilters.BalancedFieldsStayInside` | sheri-ml/codex-rs/app-server-protocol/src/export.rs:279-301 | It does if the old body closes no brace it did not open |
| `TsFilters.FieldFilterIdempotent` | sheri-ml/codex-rs/app-server-protocol/src/export.rs:279-301 | No experimental property is left in the new body; and if the scan stays inside, filtering again changes nothing |
| `TsFilters.FieldFilterFixedIff` | sheri-ml/codex-rs/app-server-protocol/src/export.rs:279-301 | The filter leaves a text alone, its own output for one, exactly if it has no body or its body is a list of trimmed properties, none experimental, with a comma and a blank between them |
| `TsGenerated.GeneratedArmIsKeptIff` | sheri-ml/codex-rs/app-server-protocol/src/export.rs:675-690 | An arm `{ "method": "m", … }`, with any complete text behind the method, is kept exactly if m is not listed |
| `TsGenerated.ClientRequestFiltered` | sheri-ml/codex-rs/app-server-protocol/src/export.rs:215-240 | So a union of such arms is filtered to exactly those whose method is empty or not listed, in order, between the text up to the first equals sign and that from the last semicolon on |
| `TsGenerated.ArmWithoutMethodIsKept` | sheri-ml/codex-rs/app-server-protocol/src/export.rs:675-690 | An arm none of whose properties is called `method` is kept |
| `TsGenerated.GeneratedTypeFiltered` | sheri-ml/codex-rs/app-server-protocol/src/export.rs:279-301 | A generated type or interface with a list of named properties is filtered to exactly those whose name is not listed, in order, and nothing outside its braces changes |
| `TsNames.ArmIsDroppedIff` | sheri-ml/codex-rs/app-server-protocol/src/export.rs:675-690 | Of any text: an arm is dropped exactly if, between its top-level braces and cut at top-level commas, the first property called `method` has a string literal of a listed method for its value |
| `TsNames.FieldIsDroppedIff` | sheri-ml/codex-rs/app-server-protocol/src/export.rs:286-293 | Of any text: a property is dropped exactly if, behind white space and block comments, it is written with a listed name |
| `TsNames.NameMeaning` | sheri-ml/codex-rs/app-server-protocol/src/export.rs:711-745 | A name is read exactly if it is written: in quotes or bare and perhaps marked optional, then a colon |
| `TsNames.MethodMeaning` | sheri-ml/codex-rs/app-server-protocol/src/export.rs:675-690 | Which method a list of properties says |
| `TsNames.LiteralIff` | sheri-ml/codex-rs/app-server-protocol/src/export.rs:747-770 | A string literal is read exactly as it is written, escapes left as they are |
| `TsNames.IdentCharIs` | sheri-ml/codex-rs/app-server-protocol/src/export.rs:772-774 | Bare names are made of ASCII letters, digits and the underscore |
| `Text.WhiteIs` | sheri-ml/codex-rs/app-server-protocol/src/export.rs:654-673 | What trimming takes for white space: the characters with that Unicode property |
| `TsNesting.NestsPass` | sheri-ml/codex-rs/app-server-protocol/src/export.rs:783-818 | The scanner passes over every text nested from characters, literals with escapes, and the four kinds of brackets, and is then where it was |
| `TsNesting.NestsAreComplete` | sheri-ml/codex-rs/app-server-protocol/src/export.rs:279-301 | So every such text may stand where the filters' theorems ask for a complete one |
| `TsNesting.CutAtTopLevel` | sheri-ml/codex-rs/app-server-protocol/src/export.rs:654-673 | Such a text is cut exactly at the delimiters that stand by themselves at top level, never in literals or brackets |
| `TsUnopened.UnopenedBraceChangesAgain` | sheri-ml/codex-rs/app-server-protocol/src/export.rs:279-301 | A text on whose new body the scan does not stay inside, and that filtering twice changes twice |
| `SchemaAnnotate.AnnotateTwice` | sheri-ml/codex-rs/app-server-protocol/src/export.rs:1117-1239 | Annotating every document under any first and any second base equals annotating it once, exactly when the first annotation had a base or the second has none |
| `SchemaAnnotate.FixedIffSettled` | sheri-ml/codex-rs/app-server-protocol/src/export.rs:1117-1239 | Annotation leaves a document alone exactly when it is in the described normal form |
| `SchemaAnnotate.BaseNeeded` | sheri-ml/codex-rs/app-server-protocol/src/export.rs:1196-1211 | A document that shows the condition is needed |
| `SchemaAnnotate.NewTitlesAreUnique` | sheri-ml/codex-rs/app-server-protocol/src/export.rs:1184-1222 | Old titles stay, a title is given exactly when a name can be derived, and a new title differs from the final titles of all siblings, after the recursion too |
| `SchemaNames.NameIs` | sheri-ml/codex-rs/app-server-protocol/src/export.rs:1065-1101 | A variant's derived name: from the method its properties are limited to, with `Request`, `Notification` or the base behind it, or else from the type, or else from the only property, or else from the only required one; and none exactly if it has none of these |
| `SchemaNames.PascalOfWords` | sheri-ml/codex-rs/app-server-protocol/src/export.rs:1248-1266 | Of words with underscores and hyphens between them a name is made of the words with capitals |
| `SchemaNames.UpperIs` | sheri-ml/codex-rs/app-server-protocol/src/export.rs:1257-1259 | Capitals are those of the ASCII letters |
| `SchemaNames.VariantIsTitled` | sheri-ml/codex-rs/app-server-protocol/src/export.rs:1184-1222 | In an annotated document a variant of `oneOf` or `anyOf` without a title gets the derived name, or that name with the first number from 2 on that no title of the list and none given before has |
| `SchemaNames.DiscriminatorIsTitled` | sheri-ml/codex-rs/app-server-protocol/src/export.rs:1224-1239 | In a titled object a property `type`, `method`, `mode`, `status`, `role` or `reason` that is limited to a literal and has no title gets the object's title with its own name behind it; every other keeps the title it has |
| `SchemaNames.OwnNamesForDefinitions` | sheri-ml/codex-rs/app-server-protocol/src/export.rs:1144-1182 | Definitions are annotated each under its own name, plain members under the one they are in |
| `SchemaAnnotate.FreshTitleMeaning` | sheri-ml/codex-rs/app-server-protocol/src/export.rs:1200-1205 | The title chosen is the first candidate not seen |
| `SchemaAnnotate.CandidateInjective` | sheri-ml/codex-rs/app-server-protocol/src/export.rs:1200-1205 | Different suffixes give different candidates |
| `SchemaAnnotator.ChooseTitle` | sheri-ml/codex-rs/app-server-protocol/src/export.rs:1200-1205 | The suffix search ends, by counting the seen titles, and finds that candidate |
| `SchemaAnnotator.SetDiscriminatorTitles` | sheri-ml/codex-rs/app-server-protocol/src/export.rs:1226-1239 | Computes the titled properties |
| `SchemaAnnotator.AnnotateVariantList` | sheri-ml/codex-rs/app-server-protocol/src/export.rs:1184-1222 | Computes the annotated variants |
| `SchemaAnnotator.AnnotateObjectInPlace` | sheri-ml/codex-rs/app-server-protocol/src/export.rs:1129-1182 | Computes the annotated object, visiting the entries in the program's order |
| `SchemaAnnotator.AnnotateSchema` | sheri-ml/codex-rs/app-server-protocol/src/export.rs:1117-1127 | Computes the annotated document |
| `SchemaCanonical.SameCanonicalForm` | sheri-ml/codex-rs/app-server-protocol/src/schema_fixtures.rs:94-169 | Two documents have the same canonical form exactly when they differ only by the order of object keys and by permutations of arrays all of whose elements have a sort key; which elements have one is what the next four rows say |
| `SchemaOrder.OrderIsForgotten` | sheri-ml/codex-rs/app-server-protocol/src/schema_fixtures.rs:121-141 | If each element of an array is null, a boolean, a number, a string, or an object whose `$ref` or `title` is text, every array of the same elements has the same canonical form |
| `SchemaOrder.OtherArraysKeepOrder` | sheri-ml/codex-rs/app-server-protocol/src/schema_fixtures.rs:115-120 | An array with any other element keeps its order, each element canonicalized in its place |
| `SchemaOrder.SortedArray` | sheri-ml/codex-rs/app-server-protocol/src/schema_fixtures.rs:121-169 | A sorted array holds the canonical elements with booleans first, then numbers, nulls, objects with a reference, strings and titled objects, each kind in the order of its text, then of the serialized text |
| `SchemaOrder.ReferencesInOrder` | sheri-ml/codex-rs/app-server-protocol/src/schema_fixtures.rs:158-161 | Objects with a text reference come in the order of the reference, whatever their titles |
| `SchemaOrder.ObjectsInKeyOrder` | sheri-ml/codex-rs/app-server-protocol/src/schema_fixtures.rs:142-149 | The entries of a canonical object are the object's own, their values canonicalized, in the order of their keys |
| `SchemaOrder.StringLeIff` | sheri-ml/codex-rs/app-server-protocol/src/schema_fixtures.rs:131 | One string comes before another if it is a beginning of it or smaller where they first differ |
| `SchemaCanonical.CanonicalTwice` | sheri-ml/codex-rs/app-server-protocol/src/schema_fixtures.rs:94-150 | Canonicalizing twice is canonicalizing once |
| `SchemaCanonical.CanonicalIsEquivalent` | sheri-ml/codex-rs/app-server-protocol/src/schema_fixtures.rs:94-150 | The canonical form is one of the equivalent documents |
| `SchemaCanonical.CanonicalizeJson` | sheri-ml/codex-rs/app-server-protocol/src/schema_fixtures.rs:94-150 | Computes the canonical form |
| `JsonText.TextInjective` | sheri-ml/codex-rs/app-server-protocol/src/schema_fixtures.rs:122 | Compact serialization is injective |
| `JsonText.EscapedStandsFor` | sheri-ml/codex-rs/app-server-protocol/src/schema_fixtures.rs:122 | Every escape that is written stands for its character, as section 7 of RFC 8259 has it |
| `SchemaRefs.MovingTwice` | sheri-ml/codex-rs/app-server-protocol/src/export.rs:1005-1027 | Moving references into a namespace twice is the same as once |
| `SchemaRefs.FixedIffInPlace` | sheri-ml/codex-rs/app-server-protocol/src/export.rs:1005-1027 | Moving leaves a document alone exactly when all its definition references are in the namespace |
| `SchemaRefs.MovedRefers` | sheri-ml/codex-rs/app-server-protocol/src/export.rs:1005-1027 | The references of a moved document are exactly the moved references of the document |
| `SchemaSurvivors.AnnotateRefersIff` | sheri-ml/codex-rs/app-server-protocol/src/export.rs:1117-1239 | For every document: after annotation it refers to exactly what it referred to outside of titles that are no text and that a derived title is written over |
| `SchemaSurvivors.AnnotateRefers` | sheri-ml/codex-rs/app-server-protocol/src/export.rs:879 | So annotating a definition makes no references |
| `SchemaSurvivors.AnnotateKeeps` | sheri-ml/codex-rs/app-server-protocol/src/export.rs:1184-1222 | And loses none, if variants of unions have text for titles or none |
| `SchemaSurvivors.OtherTitleIsLost` | sheri-ml/codex-rs/app-server-protocol/src/export.rs:1206-1211 | A document that loses one |
| `SchemaSurvivors.AnnotateRewritten` | sheri-ml/codex-rs/app-server-protocol/src/export.rs:879-890 | Rewriting references and annotating commute, so rewriting those of a definition again after annotating it changes nothing |
| `SchemaBundle.BuildSchemaBundle` | sheri-ml/codex-rs/app-server-protocol/src/export.rs:839-926 | Computes the bundle, or the failure |
| `SchemaBundle.CollectNamespacedTypes` | sheri-ml/codex-rs/app-server-protocol/src/export.rs:1029-1049 | Computes the map of claimed names |
| `SchemaBundle.FirstClaimWins` | sheri-ml/codex-rs/app-server-protocol/src/export.rs:1029-1049 | A name is in the map exactly if a schema in a namespace claims it, by its own name, a definition or a `$defs` entry, and belongs to the namespace of the first that does |
| `SchemaBundle.BundleOne` | sheri-ml/codex-rs/app-server-protocol/src/export.rs:851-911 | Computes what one schema adds |
| `SchemaPieces.BundleIsPieces` | sheri-ml/codex-rs/app-server-protocol/src/export.rs:851-911 | The loops over schemas and definitions place one piece after the other: each definition that is kept here, then the rest of its schema |
| `SchemaPieces.PlacedShape` | sheri-ml/codex-rs/app-server-protocol/src/export.rs:928-944 | If no root name is that of a namespace, no insertion fails, and every place at the root and in the namespaces holds the piece put there last |
| `SchemaBundleExact.BundleClosedIff` | sheri-ml/codex-rs/app-server-protocol/src/export.rs:839-944 | For schemas with and without namespaces: the bundle is built, and every definition reference in it resolves exactly if, for each definition that goes in and is not replaced by a later one, what it refers to is put in its schema's namespace or at the root by some schema, and likewise for each schema outside its definitions, where names of definitions that it left to a namespace are looked for in that one |
| `SchemaBundleClosed.ClosedIffProvided` | sheri-ml/codex-rs/app-server-protocol/src/export.rs:839-944 | The same in terms of the pieces that the loops insert |
| `SchemaBundleClosed.UnprovidedDangles` | sheri-ml/codex-rs/app-server-protocol/src/export.rs:867-904 | A lasting piece that refers to what is not there leaves a reference in the bundle that resolves to nothing |
| `SchemaBundleClosed.LandingResolves` | sheri-ml/codex-rs/app-server-protocol/src/export.rs:867-904 | Where each reference of each piece leads, and when that is something |
| `SchemaBundleClosed.MixedBundleIsClosed` | sheri-ml/codex-rs/app-server-protocol/src/export.rs:872-904 | Closed under conditions on the schemas: each refers to its own kept definitions (or, at the root, to root schemas), definitions that stay at the root refer to none that a namespace claims, and every claimed definition is defined in the claiming namespace under the very name |
| `SchemaBundleClosed.PutUnderItsName` | sheri-ml/codex-rs/app-server-protocol/src/export.rs:872-911 | Every schema that is not ignored is found under its name in its namespace or at the root, and so is every definition of it that is kept there |
| `SchemaPlaces.TargetIs` | sheri-ml/codex-rs/app-server-protocol/src/export.rs:880-885 | Where a definition is meant to go: to the namespace of its schema, or, from a schema without one and not of version 1, to the one that its name belongs to |
| `SchemaPlaces.BelongsIff` | sheri-ml/codex-rs/app-server-protocol/src/export.rs:1051-1063 | A name belongs to the namespace that claims it, or else to the one that claims it without the number at its end |
| `SchemaPlaces.RootDefinitionIsFound` | sheri-ml/codex-rs/app-server-protocol/src/export.rs:872-899 | A definition of a schema without namespace that is of version 1, or whose name belongs to none, is in the bundle at the root, annotated under its name if nothing replaces it |
| `SchemaPlaces.NamespacedDefinitionIsFound` | sheri-ml/codex-rs/app-server-protocol/src/export.rs:886-911 | Every schema of a namespace and each definition of it is found there |
| `SchemaPlaces.SpecialIsNotTaken` | sheri-ml/codex-rs/app-server-protocol/src/export.rs:840-847 | The five special definitions and the ignored one are in the bundle only as schemas of that name |
| `SchemaPlaces.NamedPathsMove` | sheri-ml/codex-rs/app-server-protocol/src/export.rs:1274-1302 | The reference to a definition left to a namespace, and every path inside it, lead into the namespace |
| `SchemaPlaces.OtherPathsStay` | sheri-ml/codex-rs/app-server-protocol/src/export.rs:1274-1302 | Every other reference stays |
| `SchemaPlaces.PathsMove` | sheri-ml/codex-rs/app-server-protocol/src/export.rs:1005-1027 | In a schema of a namespace every path to a definition leads into the namespace |
| `SchemaBundleClosed.BundleIsClosed` | sheri-ml/codex-rs/app-server-protocol/src/export.rs:839-944 | In particular closed if all schemas are in namespaces and refer to their own kept definitions |
| `SchemaBundleClosed.PlacedFrom` | sheri-ml/codex-rs/app-server-protocol/src/export.rs:863-904 | Every definition reference of a placed piece comes from one the piece had |
| `SchemaBundleClosed.PlacedKeeps` | sheri-ml/codex-rs/app-server-protocol/src/export.rs:863-904 | And every one it had is there, moved to where it leads |
| `SchemaBundleClosed.MixedBundleMayDangle` | sheri-ml/codex-rs/app-server-protocol/src/export.rs:867-904 | A bundle of a schema without and one with a namespace in which a reference leads nowhere, by `UnprovidedDangles` |
| `SchemaPrune.RetainItems` | sheri-ml/codex-rs/app-server-protocol/src/export.rs:415-416 | Computes the items that stay |
| `SchemaPrune.PruneExperimentalMethods` | sheri-ml/codex-rs/app-server-protocol/src/export.rs:404-411 | Computes the document pruned by the names of the list that are not empty |
| `SchemaPrune.PruneInner` | sheri-ml/codex-rs/app-server-protocol/src/export.rs:413-428 | Computes the pruned document |
| `SchemaPrune.EmptyMethodStays` | sheri-ml/codex-rs/app-server-protocol/src/export.rs:405-409 | A variant with an empty method name stays, whatever the list has |
| `SchemaPrune.ListedVariantGoes` | sheri-ml/codex-rs/app-server-protocol/src/export.rs:404-453 | A variant is experimental exactly if its method property is an object limited, by a text `const` or else by an `enum` of one value, to a name of the list that is not empty |
| `SchemaPrune.PrunedIsClean` | sheri-ml/codex-rs/app-server-protocol/src/export.rs:413-453 | Pruning leaves no experimental variant in any array exactly if no kept item's method `enum` lists one experimental method and otherwise only what pruning drops |
| `SchemaPrune.PruneTwice` | sheri-ml/codex-rs/app-server-protocol/src/export.rs:413-428 | And exactly then pruning twice is the same as once |
| `SchemaPrune.LatentBecomesExperimental` | sheri-ml/codex-rs/app-server-protocol/src/export.rs:430-453 | Which kept items turn into experimental variants |
| `SchemaPrune.PruningKeepsOrder` | sheri-ml/codex-rs/app-server-protocol/src/export.rs:416 | All other array elements stay, in order |
| `SchemaPrune.PruningPlainSchemas` | sheri-ml/codex-rs/app-server-protocol/src/export.rs:413-453 | If `enum` arrays hold no objects, pruning leaves nothing experimental and is idempotent |
| `SchemaPrune.LatentVariantStays` | sheri-ml/codex-rs/app-server-protocol/src/export.rs:415-419 | A document for which it is neither |
| `SeekSequence.Seek` | sheri-ml/codex-rs/apply-patch/src/seek_sequence.rs:12-110 | Computes the best match from where the search starts, with the special cases for empty and too long patterns |
| `SeekSequence.Pass` | sheri-ml/codex-rs/apply-patch/src/seek_sequence.rs:41-52 | One pass computes the first match of its level |
| `SeekSequence.BestMatchMeaning` | sheri-ml/codex-rs/apply-patch/src/seek_sequence.rs:34-107 | The index found is the least at the strictest of the four levels that has a match in the window and lies in the file; nothing is found exactly when the most lenient level has no match there |
| `SeekSequence.MoreLenient` | sheri-ml/codex-rs/apply-patch/src/seek_sequence.rs:34-107 | Each level matches wherever a stricter one does |
| `SeekLevels.SeenIff` | sheri-ml/codex-rs/apply-patch/src/seek_sequence.rs:34-107 | What the four passes take for equal: equal lines; lines equal up to white space at the end; up to white space around; and up to the shapes of dashes, quotes and spaces as well |
| `SeekLevels.MatchesIff` | sheri-ml/codex-rs/apply-patch/src/seek_sequence.rs:34-107 | A pass matches at a line exactly if each line of the pattern is alike, in that sense, to the one in its place |
| `SeekSequence.FallbackIsMissing` | sheri-ml/codex-rs/apply-patch/src/seek_sequence.rs:4-6 | The documented fallback to `start` is kept exactly unless a pattern for the end of the file does not match there but matches from `start` on |
| `SeekSequence.FoundBeforeStart` | sheri-ml/codex-rs/apply-patch/src/seek_sequence.rs:29-33 | An index below `start` is returned exactly for a pattern for the end of the file that matches there, when the end comes before `start` |
| `SeekSequence.NoFallback` | sheri-ml/codex-rs/apply-patch/src/seek_sequence.rs:29-33 | Lines for which the fallback is missing |
| `LoadedThreads.LoadedList` | sheri-ml/codex-rs/app-server/src/codex_message_processor.rs:2488-2545 | Computes the page, by sorting and binary search |
| `LoadedThreads.BinarySearch` | sheri-ml/codex-rs/app-server/src/codex_message_processor.rs:2527-2530 | Finds the identifier or the place where it belongs |
| `LoadedThreads.PageMeaning` | sheri-ml/codex-rs/app-server/src/codex_message_processor.rs:2511-2538 | A page holds the next identifiers after the cursor in order, no more than the limit, and what it leaves comes after its own cursor |
| `LoadedThreads.PageIsFull` | sheri-ml/codex-rs/app-server/src/codex_message_processor.rs:2535-2538 | It holds as many as are asked for, at least one, or all that remain, and has a cursor exactly if more remain |
| `LoadedThreads.RefusedIff` | sheri-ml/codex-rs/app-server/src/codex_message_processor.rs:2502-2526 | The request is refused exactly if its cursor cannot be read and there is any thread |
| `LoadedThreads.BrowsingIsComplete` | sheri-ml/codex-rs/app-server/src/codex_message_processor.rs:2488-2545 | Over any sequence of visits with changing threads and limits: identifiers come in increasing order, none twice, and every thread present at each visit that the client has come past was returned, even if the cursor's own thread has gone |
| `ThreadListing.ListThreads` | sheri-ml/codex-rs/app-server/src/codex_message_processor.rs:3465-3597 | For a source that serves a list with advancing cursors the refill loop ends, and returns the filtered next stretch of the list, full unless the list is at its end, or a failure, exactly if a page it came to could not be fetched |
| `ThreadListing.HowItEnds` | sheri-ml/codex-rs/app-server/src/codex_message_processor.rs:3465-3597 | Over any source: the loop fails exactly if it comes to a page that cannot be fetched; it never returns more than was asked for, and a cursor only if it returns as many |
| `ThreadListing.PageSizeIs` | sheri-ml/codex-rs/app-server/src/codex_message_processor.rs:3508-3509 | A page is asked for with what is missing, a hundred at most |
| `ThreadListing.FilterPage` | sheri-ml/codex-rs/app-server/src/codex_message_processor.rs:3544-3567 | Computes the filtered page |
| `ThreadListing.FollowingListsAll` | sheri-ml/codex-rs/app-server/src/codex_message_processor.rs:3571-3596 | Following the cursors with any page sizes returns the filtered list, each thread once and in order, in boundedly many requests |
| `ThreadListing.FollowedToTheEnd` | sheri-ml/codex-rs/app-server/src/codex_message_processor.rs:3581-3593 | Without a further cursor everything has been returned |
| `ThreadListing.EndlessIffCyclic` | sheri-ml/codex-rs/app-server/src/codex_message_processor.rs:3465-3597 | Over any source with finitely many cursors the refill loop goes on for ever exactly if, within a bound given by the cursors and the summaries asked for, it comes to a cursor from which two or more pages of which nothing is kept lead back to it |
| `ThreadListing.AlternatingNeverEnds` | sheri-ml/codex-rs/app-server/src/codex_message_processor.rs:3583-3588 | With two cursors that lead to each other and nothing kept, the loop runs for ever |

## Left out

- Sockets, WebSocket frames, stdio, tokio scheduling and the parsing of messages: client behaviour is any sequence of steps, and a writer may be gone at any time.
- The shutdown of the loops (closed channels, the last connection leaving) and lock poisoning: every run of the model is a prefix without them.
- The bounds of the control, outgoing and writer queues, which only delay steps; the bound of the event queue is modelled.
- That pending closes are delivered: they are retried only after another router event, so nothing is promised about when.
- The wrap-around of the 64-bit counters for connections, server requests and tokens.
- The order of messages that different tasks send at the same time within a turn: an input of `TurnEvents` is one stretch under the lock together with what its handler sends.
- `FilterClientRequestTs`: the text before `prune_unused_type_imports`, which takes import lines out of the prefix.
- `UnionFilterReparses`: likewise about the text before imports are pruned.
- `FilterExperimentalFieldsInTsFile`: likewise the text before imports are pruned.
- `ListThreads`: requires a source that serves some list with advancing cursors; without that the loop need not end, as `EndlessIffCyclic` says.
- `BundleClosedIff`: for schemas that are objects, definition references to names without `/`, `~` and `%`, root names that are not those of namespaces, and definitions of a schema that have different names.
- `ClosedIffProvided`: under the first two of these.
- `to_pascal_case` on characters outside ASCII, whose upper case may be several characters.
- Unused imports (`prune_unused_type_imports`), headers, index files, formatting and all reading and writing of files.
- Removing experimental fields and type definitions from JSON schemas, which only deletes entries by name.
- The overload response's queue and the client's request identifiers: replies and errors may be sent to any connection at any time.
- How requests are handled otherwise (configuration, skills, accounts, MCP, feedback), which translates fields or forwards results.
- The stores behind the paging requests, the conversations behind the listener tasks and the parsing of cursors: parameters with a stated contract.
- The command line, the test client, fuzzy search and model servers.

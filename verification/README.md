# The SHV client, modelled and verified

A Dafny model of the core of an SHV (Silicon Heaven) RPC client library: the client event loop with its three
mutually dependent tables, the connection task it runs beside, the caller-side API, request routing and method
tables of mounted nodes, and the wait/notify protocol of the test driver. `dafny verify dfyconfig.toml` checks
all of it.

## How the model is built

The client loop is a state machine on values (`Client.dfy`): one action per arm of the loop's `select!`, plus
what callers do through the command channel. A disabled action leaves the state as it is, so every sequence of
actions is a run, and every statement about `After(lib, run)` holds for all interleavings. `ClientLoop.Loop` is
the same loop on mutable tables; each of its methods is proved to do exactly one step of the state machine, and
`RunLoop` carries that over whole runs. The connection task (`Connection.dfy`) and the test driver
(`Mocking.dfy`) are built the same way. `ClientSystem.dfy` joins the client and the connection task by their two
FIFO channels.

The state keeps histories that no branch reads: the frames written to each response or notification channel,
the messages handed to the connection, the subscription requests made since the last clear, the calls whose
sender was dropped without a final frame. A notification channel is named by its subscription id, a response
channel by the position of the call among all calls issued. A queued message carries an `Origin` for the same
purpose.

Taken from outside the modelled files, and therefore parameters (`Wire.Library`): whether a resource identifier
is well formed, glob matching of SHV 3, the decoding of `dir`/`ls` parameters, the mount table, and whether a
response can be prepared for a request without id. `new_request` gives increasing ids; channels are unbounded
FIFO queues; `to_frame` and `prepare_response` succeed on well-formed messages. `find_longest_path_prefix` and
`children_on_path` are defined as the repository's tests describe them, for normalised paths.

| file | contents |
|---|---|
| `Basics`, `Wire` | options, channel logs; messages, frames, resource identifiers |
| `Paths` | paths as text and as components, the SHV 2 path match |
| `RpcCalls`, `Subscriptions` | the tables: operations and the invariants each operation keeps |
| `Client`, `ClientSafety` | the state machine and its invariant over every run |
| `StepTheorems`, `HistoryTheorems` | what single steps do, and that the histories are what the actions of the run say |
| `CallTheorems`, `ChannelTheorems`, `SubscriptionTheorems`, `BrokerTheorems`, `QueueTheorems` | what holds on every run |
| `ClientLoop` | the loop on mutable tables, refining the state machine |
| `Connection`, `ClientSystem` | the connection task, and both sides together |
| `WireTheorems`, `DeliveryTheorems` | what reaches the wire, and what reaches the client |
| `ClientApi` | what a caller makes of a channel |
| `ClientNode` | routing, `dir`/`ls`, method tables, access checks |
| `Mocking` | the test driver |

## Where the code does not do what one might expect

Each of these is proved, with the exact condition where there is one.

- Handling an Unsubscribe before the API version is known panics the loop, although the `expect` at
  `src/client.rs:433` claims the version is known by then. `EarlySubscriberPanics` is a run in which that happens,
  and `RunPanicsExactly` says that nothing else makes a run panic.
- The heartbeat can die: `HeartbeatAliveExactly` says it does exactly when the client takes a heartbeat without
  knowing the API version and there is no other token, that is, the timer is not armed, no other heartbeat and no
  ping is queued, and no request is on its way to the connection. `HeartbeatDiesDuringCheck` is a run in which
  that happens: the version check has sent its request and is still waiting for the answer when the heartbeat
  interval is over.
- A channel of an RPC call can close without a final frame: exactly when the connection is lost while the call
  is pending, or the loop ends while the call is queued or pending, or a request without id cannot be answered
  (`UnansweredExactly`). The caller then gets ConnectionClosed.
- A timer left over from a finished call ends a later call exactly when that call has the same request id
  (`StaleTimerExactly`, `ReusedIdsBreakTimers`); with ids from `new_request` it never does.
- The early return of the `dir` table normalisation differs from the general construction exactly when `dir` or
  `ls` occurs again after the first two entries (`ShortcutAgreesExactly`, `ShortcutKeepsSecondDir`).
- Under SHV 2 a subscription to all signals and one to a signal named "" are the same on the wire
  (`KeysCollideExactly`), so ending one ends the other at the broker. `BrokerHoldsTheTableExactly` says broker and
  table agree exactly as long as that does not happen, and `EmptySignalConfusesBroker` that there is a run in which
  it does, if the library accepts the empty signal name.
- Any response to a subscribe request confirms the subscription, error responses included
  (`FirstResponseConfirms` has no condition on what the response says). So a subscription to an RI the broker has
  refused succeeds at once while the refused one is in the table (`JoiningARefusedSubscription`).
- A subscription handled while disconnected is recorded and its request dropped (`OfflineSubscriptionIsLost`). After
  the reconnect the broker does not know of it, and as nothing times out, `subscribe` waits for an answer until the
  connection is lost again (`UnansweredSubscriptionWaits`). `ConnectionMatchesExactly` says when a connection is
  free of this.

## Model

| member | source | states |
|---|---|---|
| SubscriptionTheorems.SubscriberSees | src/client.rs:387-439 | On every run a notification channel is empty or holds one response and then exactly the signals that arrived between confirmation and removal and concern its RI, each once, in arrival order; under SHV 2 that is by signal name and path components, under SHV 3 by the glob |
| SubscriptionTheorems.SignalIsDelivered | src/client.rs:641-654 | In any reachable running state a well-formed signal with a path adds exactly its frame to the channel of a confirmed subscription if and only if it concerns the RI; one without a path, or not well formed, changes nothing |
| SubscriptionTheorems.ConfirmedPeriodExists | src/client.rs:94-132 | A subscription is confirmed during one unbroken stretch of a run at most, under one RI, whatever order swap_remove leaves the vector in |
| SubscriptionTheorems.ConfirmedStays | src/client.rs:505-514 | A confirmed subscription stays confirmed with its RI until, and only until, its Unsubscribe is handled or the connection is lost |
| SubscriptionTheorems.GoneStays | src/clientapi.rs:31-37 | A subscription that has left the table never comes back, as ids are not used twice |
| SubscriptionTheorems.Bookkeeping | src/client.rs:387-439 | On every run: subscription ids are distinct, outstanding requests are injective, an entry is unconfirmed exactly while its request is unanswered, a non-empty table implies a known version; and, with ids from new_request, outstanding requests are disjoint from pending calls |
| SubscriptionTheorems.RequestsAlternateAndReplay | src/client.rs:94-132 | Since the last clear the requests for each RI alternate starting with Subscribe, and replaying all of them from nothing gives exactly the RIs in the table |
| SubscriptionTheorems.FirstResponseConfirms | src/client.rs:603-629 | The first response to an outstanding subscribe request becomes the first frame of its subscriber and confirms it, unless it was removed or the connection lost in between |
| SubscriptionTheorems.SubscribeRequestsAreRegistered | src/client.rs:387-397 | Every subscribe request queued or handled was made by an earlier step of the run, for a new RI and a subscription that step entered in the table |
| SubscriptionTheorems.HandedOverSubscribeGetsAnswer | src/client.rs:387-398 | For every subscribe request handed to the connection in use, the first response after the step that made it is the first frame of its subscriber and confirms it, unless the subscription was removed or the connection lost since |
| SubscriptionTheorems.PanicsExactly | src/client.rs:432-433 | In a reachable state a step panics exactly when it handles an Unsubscribe with the version unknown |
| SubscriptionTheorems.RunPanicsExactly | src/client.rs:432-433 | A run ends in a panic if and only if one of its steps handles an Unsubscribe with the version unknown |
| SubscriptionTheorems.IdsNeverCollide | src/client.rs:111 | The assertion on duplicate subscription ids never fires on any run |
| SubscriptionTheorems.VersionStaysKnown | src/client.rs:525-535 | Once known, the API version is known for the rest of every run |
| SubscriptionTheorems.NoPanic | src/client.rs:387-439 | A run in which every Subscribe is handled after the version is known never panics |
| SubscriptionTheorems.EarlySubscriberPanics | src/client.rs:422-433 | Subscribing and dropping the subscriber before the version is known panics |
| BrokerTheorems.BrokerHoldsTheTableExactly | src/client.rs:387-439 | From any state with a connection on, within that connection and one version: in every state what was handed over plus what is queued makes a broker that reads it hold exactly the subscriptions in the table, if and only if that is so in the first state and no step unsubscribes an RI while the table holds another that looks the same on the wire |
| BrokerTheorems.ConnectionMatchesExactly | src/client.rs:475-518 | Over a whole connection that is so in every state if and only if the subscription messages queued when Connected is taken make up the table of that moment, and no step unsubscribes an alias |
| BrokerTheorems.OfflineSubscriptionIsLost | src/client.rs:337-345 | A run in which they do not: a subscription handled while disconnected is in the table after the reconnect, with nothing queued and nothing sent |
| BrokerTheorems.MatchesAfterStep | src/client.rs:94-132 | On a connection, one step from a state in which broker and table match keeps it so if and only if it does not unsubscribe an alias |
| BrokerTheorems.BrokerHoldsTheTable | src/client.rs:94-132 | Under SHV 3 always, and under SHV 2 when the table names no empty signal and no Subscribe handled asks for one, broker and table match throughout if and only if they match at first |
| BrokerTheorems.CleanConnectionMatches | src/client.rs:94-132 | So they match throughout when the table is empty at first and no subscription message is left over |
| BrokerTheorems.BrokerHoldsReplayExactly | src/client.rs:59-83 | Along any log of requests a broker that reads the messages holds the replayed RIs after every one of them, if and only if no Unsubscribe is made for an RI that has an alias among those held |
| BrokerTheorems.UnambiguousKeysDiffer | src/client.rs:101-105 | RIs as the table keeps them differ on the wire whenever they differ, the empty signal name under SHV 2 aside |
| BrokerTheorems.EmptySignalConfusesBroker | src/client.rs:72 | If the library accepts the signal named "": a run within one connection that starts clean, in which broker and table match until the last step unsubscribes an alias, and differ after it |
| Subscriptions.RequestReadsBack | src/client.rs:59-83 | A broker reads back from a subscription request the kind and the subscription it was made for, in both versions |
| Subscriptions.KeysCollideExactly | src/client.rs:72-73 | Two accepted RIs look the same on the wire exactly when equal or, under SHV 2, one names all signals and the other the empty signal |
| Subscriptions.FanOutLog | src/client.rs:645-650 | The loop over the table, which swap_remove may have reordered, sends the frame once to each confirmed matching subscription and to nobody else |
| Subscriptions.SwapRemoveEntries | src/client.rs:129 | swap_remove leaves exactly the other entries, ids still distinct |
| Subscriptions.RisAfterRemove | src/client.rs:129-131 | The set of RIs loses the removed one exactly when no other entry holds it |
| Subscriptions.GoodAfterAddNew | src/client.rs:112-117 | A first subscription to an RI keeps the bookkeeping, the alternation and the replay of requests |
| Subscriptions.GoodAfterJoin | src/client.rs:399-413 | So does a further subscription to an RI already held |
| Subscriptions.GoodAfterRemove | src/client.rs:121-132 | So does a removal, of a known id or an unknown one |
| Subscriptions.GoodAfterConfirm | src/client.rs:625-629 | So does the answer to an outstanding request, whether or not its entry is still there |
| Subscriptions.Table.Add | src/client.rs:94-118 | Invalid parameters change nothing; otherwise an unconfirmed entry is appended, and a request made exactly when no entry held the RI |
| Subscriptions.Table.Remove | src/client.rs:121-132 | The last entry takes the removed one's place; an unsubscribe request is made exactly when the RI is orphaned; an unknown id changes nothing |
| Subscriptions.Table.Holds | src/client.rs:112 | Found if and only if some entry has the RI |
| Subscriptions.Table.Find | src/client.rs:122 | The first entry with the id, if any |
| Subscriptions.Table.SetConfirmed | src/client.rs:408-412 | Exactly the first entry with the id becomes confirmed |
| Subscriptions.Table.Clear | src/client.rs:90-92 | The table is empty |
| Paths.MatchIsComponentPrefix | src/client.rs:38-42 | For all strings, the SHV 2 text match holds exactly when the components of the subscribed path are a list prefix of those of the signal path |
| Paths.MatchIsPartialOrder | src/client.rs:38-42 | The path match is reflexive, antisymmetric and transitive |
| Paths.JoinSplit | src/client.rs:38-42 | Splitting a path loses nothing: joining its components gives it back |
| ChannelTheorems.CallChannels | src/client.rs:324-386 | On every run a response channel carries delays of its own request, then at most one final frame; while it is open there are delays only, while the call is queued nothing |
| ChannelTheorems.UnansweredExactly | src/client.rs:440-523 | A channel that is no longer open holds a final frame, or delays only; the second if and only if the connection was lost while the call was pending, or the loop ended while it was queued or pending, or its request had no id and could not be answered |
| ChannelTheorems.DisconnectLeavesCallUnanswered | src/client.rs:505-514 | A run that shows it: a call registered, handed over and cut off by Disconnected, its channel closed and empty |
| ChannelTheorems.SubscriptionUnansweredExactly | src/client.rs:432-523 | On every run a notification channel is closed without a single frame if and only if the connection was lost or its Unsubscribe handled while its request was unanswered, or the loop ended while it was queued or unanswered |
| ChannelTheorems.UnansweredSubscriptionWaits | src/clientapi.rs:378-382 | As long as there is no answer, no disconnect and no Unsubscribe, the channel of an asked subscription stays open and empty: no timer ends the wait |
| ChannelTheorems.FreshCallsAreDroppedByEndsOnly | src/client.rs:505-514 | With ids from new_request only the loss of the connection and the end of the loop leave a call unanswered |
| CallTheorems.CallsAndTimersAlwaysPair | src/client.rs:353-378 | On every run each pending call has one live timer of its own, and every other live timer has a closed update channel |
| CallTheorems.EveryPendingCallCanTimeOut | src/client.rs:324-332 | In every reachable running state each pending call has a timer that can fire, and that ends it with the timeout error as its last frame |
| CallTheorems.StaleTimersChangeNothing | src/client.rs:324-332 | With fresh ids a timer whose call is gone changes nothing when it fires |
| CallTheorems.ReusedIdsBreakTimers | src/client.rs:376-380 | With a reused id it can end another call |
| CallTheorems.DelayRestartsTimer | src/client.rs:607-614 | A delay keeps the call pending and leaves its timer one more update to restart on |
| CallTheorems.CallStaysPending | src/client.rs:603-619 | Whatever else happens, an unanswered call stays pending and its channel gets exactly the delays for its id, in order |
| CallTheorems.FirstResponseReachesCaller | src/client.rs:603-624 | The first final response to a registered request goes to its caller after all delays that came before, unless the call timed out or the connection was lost |
| CallTheorems.ResponsesGoToOwnersOnly | src/client.rs:603-629 | A response reaches at most one channel, and only that of the call or subscription its id belongs to |
| CallTheorems.RegistrationPrecedesWire | src/client.rs:373-385 | Every call request queued or handled for sending was registered by an earlier step of the run |
| CallTheorems.HandedOverCallGetsAnswer | src/client.rs:373-385 | For every call request handed to the connection in use, the first final response after its registration goes to its caller, after exactly the delays before it, unless the call timed out or the connection was lost since |
| SubscriptionTheorems.NoIdIsShared | src/clientapi.rs:168-189 | With ids from new_request no two calls share an id, and no call has that of a subscription request, answered or not |
| RpcCalls.StaleTimerExactly | src/client.rs:325-326 | A stale timer does nothing if and only if its request id is not pending again |
| RpcCalls.CallsAndTimersPairUp | src/client.rs:353-380 | Coupled tables give each call its own timer, and a timer is open exactly while its own call is pending |
| RpcCalls.GoodAfterRegister | src/client.rs:353-385 | Registering a call, also over one with the same id, leaves every call accounted for: the older one ends with the cancellation error |
| RpcCalls.GoodAfterRefuse | src/client.rs:347-353 | A request without id is never pending; it is refused or dropped |
| RpcCalls.GoodAfterDeliver | src/client.rs:607-624 | A response leaves every call accounted for, a delay its call pending, anything else its call finished |
| RpcCalls.GoodAfterExpire | src/client.rs:324-332 | So does a timer that fires |
| RpcCalls.GoodAfterClear | src/client.rs:513-514 | After a disconnect nothing is pending, and exactly the calls that were are abandoned |
| ClientSafety.InvAlways | src/client.rs:322-546 | All tables, queues and logs agree in every state of every run |
| QueueTheorems.MessagesKeepIssueOrder | src/client.rs:337-386 | On every run the call requests handled for sending, then those queued for it, then those of unhandled calls, are exactly the requests of the calls the run makes, in that order, although each goes through the queue twice; and the application's messages, handled and then queued, are exactly those it posts in the run |
| QueueTheorems.EachConnectionKeepsIssueOrder | src/client.rs:337-345 | The call requests handed to any one connection are in the order the run makes the calls, and the application's own messages in the order it posts them |
| HistoryTheorems.CommandsAreHandledInOrder | src/client.rs:333-446 | On every run the callers' commands that were handled, then those queued, are exactly the ones the callers posted, in that order |
| HistoryTheorems.HistoriesAreTheRun | src/clientapi.rs:168-189 | The recorded messages and requests are those of the enabled actions of the run, each call with its path, method and parameter under a new id |
| HistoryTheorems.SubscribersAreTheRun | src/clientapi.rs:31-79 | Subscription ids are given out in turn, and a subscriber is dropped at most once |
| HistoryTheorems.EventsAreAnnounced | src/client.rs:470-543 | On every run the client events are, in order, one for each failed connection, disconnect and version result taken, and the version is the latest one found |
| QueueTheorems.DrainSendsEverythingInOrder | src/client.rs:333-446 | Handling queued commands with no outside input ends with an empty queue unless the loop ends; each call with id and each message is sent once, each Subscribe and Unsubscribe sends at most one, in order |
| QueueTheorems.CommandLosesWeight | src/client.rs:381-396 | Handling a command, including what the loop posts to itself, lowers the weight of the queue |
| QueueTheorems.CommandKeepsOrder | src/client.rs:333-446 | Handling a command lets no call request overtake another, nor a direct message another |
| QueueTheorems.HandedOverToThisConnection | src/client.rs:475-476 | What counts as handed over went to the connection in use |
| ClientLoop.Loop.OnSubscribe | src/client.rs:387-431 | In place, with the table's own add and set-confirmed steps, a subscription is refused, joined or requested exactly as the state machine has it |
| ClientLoop.Loop.OnSignal | src/client.rs:641-654 | The loop over the table in place is the fan-out |
| ClientSafety.SubscribedIdIsNew | src/client.rs:111 | The id in a Subscribe command about to be handled is not in the table |
| ClientLoop.RunLoop | src/client.rs:322-546 | On every run the loop on mutable tables is in the state machine's state |
| Connection.EventStreamInLanguage | src/connection.rs:92-128 | Whatever happens, the events sent are whole sessions (a failure, or Connected, frames and heartbeats, Disconnected) and then possibly one still open |
| DeliveryTheorems.TaskStage | src/connection.rs:92-128 | The task is connecting, online or ended as its inputs say: a lost or failed connection is tried again if reconnecting is configured and is the end otherwise |
| DeliveryTheorems.FramesAreForwarded | src/connection.rs:254-291 | The frames among the events of a run are, in order and each once, those received while online, with one error response in place of each response that could not be received |
| DeliveryTheorems.FailuresAreAnnounced | src/connection.rs:144-186 | Each failed attempt is announced once, as a network error or a failed login |
| DeliveryTheorems.MessagesAreWritten | src/connection.rs:231-305 | What is written is, in order, each message from the client that arrived while online, and one error response for each request that could not be received, to the connection then on |
| DeliveryTheorems.HeartbeatTimerStep | src/connection.rs:211-247 | While online the heartbeat timer runs from the login, and again from each request or error response written, until it elapses |
| DeliveryTheorems.FramesReachTheClient | src/connection.rs:254-260 | On every run of both sides the frames the client has taken, then those queued for it, are the first of those that arrived, and all of them while it runs |
| Connection.FollowedIffInLanguage | src/connection.rs:92-128 | The two-state automaton accepts a sequence of events if and only if it is in that language |
| Connection.ConnectionTask.Handle | src/connection.rs:107-310 | One turn of the task in place has the state and events the specification gives it |
| Connection.ConnectionTask.HandleReceiveError | src/connection.rs:261-305 | Likewise for each kind of receive error: answered, forwarded, ignored or fatal |
| Connection.RunConnectionTask | src/connection.rs:92-128 | The events of a whole run are those of the specification and in the language |
| ClientSystem.FramesOnlyWhileConnected | src/client.rs:455-504 | The client never takes a frame or heartbeat without holding a command sender |
| ClientSystem.TerminationIsNotMistaken | src/connection.rs:248-252 | A served connection finds its command channel closed only after the client has ended |
| ClientSystem.AlwaysSynced | src/connection.rs:204-208 | Events on their way always lead from the client's view of the connection to the task's |
| ClientSystem.ClientRunOf | src/client.rs:238-241 | The client's part of any run of both is a run of the client, so all results on those hold here |
| ClientSystem.HeartbeatNeverDies | src/connection.rs:211-247 | While the version is known whenever a heartbeat is taken, every reachable state of a served connection has the timer armed, a heartbeat queued, a ping queued, or a request on its way to the connection |
| ClientSystem.HeartbeatAliveExactly | src/connection.rs:211-247 | Along any run of both sides that is so in every state if and only if no move takes a heartbeat without a known version as the last of these tokens |
| ClientSystem.HeartbeatDiesDuringCheck | src/client.rs:475-503 | There is a run that loses the last token while the version check's ls request is all that was ever written, its call still pending before and after |
| WireTheorems.WrittenInOrder | src/connection.rs:231-246 | On every run of both sides, what is written to a connection for the client is the first part of what the client sent over it, message by message; call requests are in issue order and were registered before, direct messages are in the order posted |
| WireTheorems.ConnectionTellsTheTableExactly | src/connection.rs:204-252 | For the time the client uses one connection, in runs of both sides: broker and table match in every state if and only if what is queued when the connection is taken makes up the table and no move unsubscribes an alias |
| WireTheorems.WrittenTellsTheTable | src/connection.rs:231-246 | Under those conditions the subscription messages written to the connection are, in every state, the first ones of those that make a broker hold the table; once all that was handed over is written and none is queued, the broker holds the table |
| ClientApi.CallRpcMethod | src/clientapi.rs:255-341 | Progress is notified for exactly the delays before the deciding frame, in order; the result is what that frame says; ConnectionClosed exactly when there is no such frame, the command channel was closed, or the send failed |
| ClientApi.NothingIsLost | src/clientapi.rs:312-341 | For any call on any run, once its channel is closed: it holds delays only if some step let go of it unanswered, and else its last frame is the deciding one |
| ClientApi.SubscribeSucceedsExactly | src/clientapi.rs:350-391 | On every run subscribe returns a subscriber if and only if its Subscribe was handled while another subscription held the RI, or the answer to its own request was a success; that step confirms it |
| ClientApi.SubscribeClosedExactly | src/clientapi.rs:378-382 | Once the channel is closed, subscribe fails with ConnectionClosed if and only if some step cut the subscription off unanswered |
| ClientApi.SubscribeDecided | src/clientapi.rs:378-388 | What subscribe returns for each first frame: success, the error it carries, InvalidMessage for a delay or an unparsable one, ConnectionClosed for none |
| SubscriptionTheorems.JoiningARefusedSubscription | src/client.rs:399-413 | There is a run after which the only entry is a subscription whose channel holds the broker's refusal, and the Subscribe handled next, to the same RI, joins it and succeeds at once |
| ClientApi.V2Exactly | src/client.rs:298-315 | SHV 2 is detected exactly when a node "clients" comes before any node "client" |
| ClientNode.RouteExactly | src/client.rs:569-602 | Every parsed request is answered locally, dispatched, or rejected, by conditions on the mounts alone; dir and ls declined locally always have a mount |
| StepTheorems.RequestStep | src/client.rs:569-602 | A request that does not parse changes nothing; one without access level is answered InvalidRequest; one for which there is neither a mount nor a local answer is answered MethodNotFound, once |
| StepTheorems.RequestIsDispatched | src/client.rs:576-579 | Any other request not answered locally becomes exactly one task for the longest mount above its path, with the rest of the path, and nothing is posted |
| StepTheorems.DirIsAnsweredHere | src/clientnode.rs:77-82 | A local dir is answered once with the description of dir and ls in the form asked for, and no task is made |
| StepTheorems.LsIsAnsweredHere | src/clientnode.rs:88-92 | A local ls is answered once with exactly the next components of the mounts below, each once, or with the membership asked for |
| StepTheorems.StrayResponseStep | src/client.rs:603-640 | A response that cannot be parsed is reported back with its id as a ParseError; one without an id, or with one nobody waits for, changes nothing |
| StepTheorems.SubscribeStep | src/client.rs:387-431 | In a reachable state a Subscribe is refused while the version is unknown or when the library rejects what would be entered, confirmed at once if the RI is held, and else entered unconfirmed with one request for it |
| StepTheorems.ReusedIdCancels | src/client.rs:373-385 | A call whose request id is pending ends the earlier call with an InternalError as its last frame and takes its place |
| StepTheorems.HeartbeatStep | src/client.rs:489-504 | A heartbeat posts one ping, to .broker/app or .app as the version has it, and nothing while it is unknown |
| StepTheorems.DisconnectStep | src/client.rs:505-518 | A disconnect forgets every call, timer, subscription and request, and writes into no channel |
| StepTheorems.TimerSteps | src/client.rs:358-372 | A timer that sees an update consumes it and sleeps on; one that sees its channel closed goes; neither changes anything else |
| StepTheorems.OtherFrameStep | src/client.rs:569-655 | A frame that is no request, response or signal changes nothing |
| StepTheorems.ComponentsOfText | src/clientnode.rs:59-62 | The components routing works on are the text between the slashes, and joined give the path back |
| ClientNode.DispatchIsLongestMount | src/client.rs:576-579 | A dispatched request goes to an existing mount, the longest one above the path, with exactly the rest of the path |
| ClientNode.LocalLs | src/clientnode.rs:48-114 | A local ls lists exactly the next components of mounts below the path, without repetition, and the Exists form agrees |
| ClientNode.LongestMount | src/clientnode.rs:770-783 | The longest prefix of the path in the mount table, or none |
| ClientNode.LongestMountAgreesWithTests | src/clientnode.rs:770-783 | It gives what the repository's test expects on its normalised paths |
| ClientNode.NextComponents | src/clientnode.rs:795-902 | Exactly the components that follow the path in mounts below it, each once |
| ClientNode.NextAgreesWithRootedTest | src/clientnode.rs:795-841 | It lists what the repository's test expects, in that order |
| ClientNode.NextAgreesWithRootlessTest | src/clientnode.rs:844-902 | It lists what the repository's test expects, in that order |
| ClientNode.AllMethodsNormalises | src/clientnode.rs:338-361 | The table starts with dir and ls, keeps the others in order, looks every name up to the same entry, and normalising again changes nothing |
| ClientNode.DynamicDirReplies | src/clientnode.rs:337-367 | A resolved dir from a caller of sufficient level is answered with dir and ls first, as the application has them or by default, and all its other entries in order, Full or Brief as asked; the Exists form gives the first entry of that name in this list, or false; any other caller is refused |
| ClientNode.ShortcutAgreesExactly | src/clientnode.rs:346-350 | The early return equals the general construction exactly when dir and ls do not occur again after the first two entries |
| ClientNode.ShortcutKeepsSecondDir | src/clientnode.rs:346-350 | A table on which the two differ |
| ClientNode.AdvertisedAccessIsEnforced | src/clientnode.rs:362-393 | A dynamic node refuses a call exactly according to the access level, and the presence, of the first entry of that name in its own dir reply |
| ClientNode.StaticDirAgreesWithDispatch | src/clientnode.rs:279-303 | A static node's dir reports a name exactly when calling it at the node's own path passes the name lookup |
| ClientNode.StaticReplies | src/clientnode.rs:279-303 | At its own path a static node answers dir with dir, ls and its methods in order, and ls with the empty list or false, to any caller of Browse level; it has no other path |
| ClientNode.StaticHandlerRunsExactly | src/clientnode.rs:477-511 | Application code runs exactly for a name other than dir and ls, at the node's own path, whose first entry asks for no more than the request's level |
| ClientNode.DynamicHandlerRunsExactly | src/clientnode.rs:327-398 | Application code of a dynamic node runs exactly for an ls or a method it resolved, from a caller whose level suffices for the entry; a method without an entry and an unresolved request are unknown methods |
| ClientNode.Lookup | src/clientnode.rs:329-334 | Found exactly when some entry has the name |
| Mocking.NoLostWakeUp | src/mocking.rs:94-112 | Whatever the interleaving, a sleeping awaiter with a matching message pending has been notified or is about to be |
| Mocking.NotifiedAwaiterFinds | src/mocking.rs:98-110 | When it looks again and a match is still pending, it takes one |
| Mocking.MessagesAreConserved | src/mocking.rs:192-208 | What the producer pushed is what is pending and what was taken, as multisets |
| Mocking.EarliestIsTaken | src/mocking.rs:103 | Whoever takes a message takes the match that arrived first among those pending |
| Mocking.AwaiterMoves | src/mocking.rs:98-111 | Each step of an awaiter takes it round its loop as written, and others can only notify it |
| Mocking.TestApp.PushMessage | src/mocking.rs:204-206 | The message is pending, last; the notification is due; the invariant holds |
| Mocking.TestApp.NotifyAll | src/mocking.rs:207 | Every listener is notified; the invariant holds |
| Mocking.TestApp.CheckAndRemove | src/mocking.rs:101-108 | A message is found exactly when one matches; it is the first match, and the others keep their order |

## Left out

- Connecting, TLS, login and the frame reader and writer: input and output; connect, login, receive and writer
  failures are inputs of the connection task.
- Real time: timers fire, restart and close in any order the channel states allow; no duration is stated, and the
  per-call `timeout` is not modelled. The pause before reconnecting is no step of its own.
- The random choice inside `select!`: every order of steps is a run.
- Overflow of the client event broadcast, logging, error texts and `Display`.
- RI syntax, SHV 3 glob matching, value encoding and frame parsing: abstract, see above. `Paths` and `ClientNode`
  speak about normalised paths; a path such as "/" is not modelled on the mount side.
- HandleVersion: the version check is any result that arrives some time after `Connected`, not the answer to a
  modelled call; every behaviour of the real check is among these.
- Request and subscription ids are unbounded; the wrap-around of the `u64` counter is not modelled.
- User ids, caller ids and other metadata a response copies from its request.
- Dropped receivers: a log is what was sent, whether or not anybody still listens.
- The state after termination or a panic stays as it is. Commands posted to a loop that has ended have no effect,
  and the channels it held are closed (`ChannelTheorems.Open`).
- LongestMountAgreesWithTests: leaves out the test's last assertion, on the path "/", which is not normalised.
- ConnectionMatchesExactly: speaks of one connection at a time; what a broker keeps from an earlier connection is not
  modelled, it starts each one with nothing.
- Application handler bodies, what a dynamic node's `ls` handler returns, and sending their responses.
- Awaiters in the test driver that time out are not followed further; the source panics there.
- `src/runtime.rs`, `src/lib.rs`, `src/appnodes.rs`, `src/macros.rs` and the call builders: thin wrappers that would
  only add easy members.

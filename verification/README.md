# CloudBridge: a verified model

CloudBridge connects an app to an agent behind a firewall. A signalling server introduces
the two, a relay server joins their connections, and shells are carried over the relayed
connection in frames. A STUN server tells clients their public addresses. This project
models these parts in Dafny and proves what they keep.

`dafny verify dfyconfig.toml` checks everything.

**Relay rendezvous** (`RelayTable`, `RelayModel`, `RelayControl`, `RelayStarts`, `RelayBytes`,
`RelayFlow`, `RelayOwn`, `RelayQuiet`, `RelayOverlap`). Every connection runs one handler. Each
region it executes under a lock is one step, and so is each read and each write of a copy;
steps of all handlers interleave freely. The theorems speak of every run from the empty
server, and what they ask, they ask of the session they are about. `RelayServer`,
`RelayHandler` and `RelayCopy` hold the objects and the code; their methods are proved equal to
the table operations the steps use, and `RelayAdmission`, `RelayCopy` and `RelayWhole` show the
code to be a run. `RelayClient` adds the client's end. `LockOrder` is about the two kinds of mutex
themselves. `RelaySteps` says of each step what it changes and when it is possible.

Three things one would like are false, and `RelayOverlap` has the runs that show it: two
overlapping handlers can both start a relay, the second clean-up can then delete a successor
session, and two relays can mix up the order of a client's bytes.
`RelayStarts.FirstArrivalStartsIff` says exactly when the first arrival starts a relay as well as
the second, `RelayOwn.DropFindsOwnIff` exactly when a clean-up deletes the session that ended,
and `RelayFlow` proves the order for every session that has not been relayed by both its peers.
`RelayQuiet` is about sessions whose handlers do not overlap.

A fourth concerns the client. It reads its acknowledgement through a buffer that is thrown away,
and with it go the forwarded bytes the buffer has taken. `RelayClient.FirstFrameLost` is such a run,
`RelayClient.ReaderDeliversIff` says exactly which reads are safe, and `RelayClient.ShellToShell`
is the end-to-end theorem for a client that has lost nothing.

**Signalling registry** (`SignalTables`, `SignalModel`, `SignalSafety`, `SignalDevices`,
`SignalRemoval`, `SignalHandlers`). The hub's and the session manager's maps are one state;
a step is one locked operation of a connected client's handler, or a step of a connection's
life. The main theorem is that nothing reachable refers to a client whose sessions were
removed, so that only a route to a device can ever meet a closed channel; `SignalDevices` says
exactly which registrations make that happen. `SignalHub`, `SignalSessions` and `SignalServer`
are the objects and the handlers, method by method equal to the table operations, and
`SignalSteps` says of each operation what it changes.

**Framed transport** (`Bytes`, `Streams`, `Frames`, `FrameIO`, `Transport`, `Proxy`,
`DartFrames`). The codec, its Go and Dart decoders, readers that split their data in any way
and writers that break at any byte, and the two loops of `ProxyDataFrames`, up to the
end-to-end theorem, which `RelayClient.ShellToShell` carries through the relay, and `Misread`,
what is read when the first bytes are missing.

**Handshake** (`Handshake`) and **STUN** (`Stun`): exact acceptance domains and round trips.

Where the code and its comments or documentation part, the model follows the code:

- `internal/signal/handler.go:170` means to route a response back to the app that asked. A
  refusing response is not, because no responder is recorded
  (`SignalHandlers.RejectReachesInitiatorIff`).
- `internal/relay/server.go:197` cleans up an empty session. The session is never empty there
  (`RelayStarts.CleanUpDeletesNothing`).
- `docs/protocol.md:88` lists a message type `transport_ready`. The handler has no case for it
  and answers `unknown_type`.
- `SessionClosed` (`internal/signal/session.go:28`) is not a final status
  (`SignalHandlers.ClosedIsNotFinal`).
- The send loop of `ProxyDataFrames` drops the bytes of a read that reports the end along with
  them (`Proxy.NothingDroppedIff`); a relay's copy does not (`RelayCopy.Copy`).

## Model

| member | source | states |
|---|---|---|
| `RelayControl.RunKeepsControl` | internal/relay/server.go:144-229 | In every state of every interleaving: at most `MaxSessions` sessions (none when it is not positive), each key names a session with that identifier, at most two distinct peers a session, a handler holds the slot its program counter says, and a session without peers has a handler about to join it |
| `RelayControl.StepKeepsControl` | internal/relay/server.go:169-225 | Each locked region, acknowledgement, copy step and shutdown keeps the control invariant from any state that has it, reachable or not |
| `RelaySteps.FindIff` | internal/relay/server.go:169-189 | A handler is refused if and only if its identifier is unlisted and the table holds `MaxSessions` sessions or more; then nothing changes but that it is closed. Otherwise it is to join the listed session, or a new one without peers, bytes or closing that is now listed under its identifier |
| `RelaySteps.JoinIff` | internal/relay/session.go:24-35 | A join succeeds if and only if fewer than two slots are taken; the connection then has the next one, and no other session changes. A refused connection is closed |
| `RelaySteps.EndSessionCloses` | internal/relay/session.go:68-82 | The end of a relay marks its session closed and closes exactly its peers, or nobody if it was closed before; no other session or connection changes |
| `RelaySteps.ShutDownCloses` | internal/relay/server.go:88-103 | A shutdown, always possible, empties the table, marks closed exactly the sessions that were in it, and closes exactly the peers of those that were not closed before |
| `RelaySteps.HandlersCanStep` | internal/relay/server.go:169-223 | No handler is ever held up but by the network: in every state its next region is enabled, and an acknowledgement can be taken in any part |
| `RelaySteps.CopiesCanStep` | internal/relay/server.go:241-261 | A copy can read any amount that is there, write any part of what it holds or none, and end whenever it holds nothing or has failed |
| `RelayStarts.RunKeepsSlots` | internal/relay/session.go:24-35 | Between any two moments of a run every session keeps its identifier and its filled slots in place: slots are never overwritten and the peer count only grows |
| `RelayStarts.OneSlotOnly` | internal/relay/server.go:191-204 | A connection occupies at most one slot of at most one session, the one its own handler holds and whose identifier it asked for |
| `RelayStarts.SecondArrivalStarts` | internal/relay/server.go:206-225 | The connection in the second slot never ends up waiting: once its acknowledgement succeeds its count is two and it starts a relay |
| `RelayStarts.FirstArrivalStartsIff` | internal/relay/server.go:206-229 | The connection in the first slot starts a relay if and only if the step that filled the second slot comes earlier in the run than its count |
| `RelayStarts.AtMostTwoStarts` | internal/relay/server.go:213-225 | The handlers that have started a relay of a session are among its peers, so there are at most two |
| `RelayStarts.RelaysSeeTwoPeers` | internal/relay/server.go:232-236 | Every relay finds exactly two distinct peers, its own connection among them; the early exit is never taken |
| `RelayStarts.CleanUpDeletesNothing` | internal/relay/server.go:192-203 | A join is refused only by a session with two peers, so the clean-up of an "empty" session never changes the table |
| `RelayStarts.EmptySessionIsJoined` | internal/relay/server.go:169-192 | For a listed session without peers there is a handler whose next step is enabled and gives it its first peer |
| `RelayBytes.RunConserves` | internal/relay/server.go:241-261 | In every reachable state, for every session, the bytes forwarded to its two peers are the counter plus what unfinished copies have written and not yet counted, with one relay or two |
| `RelayBytes.CounterIsTotal` | internal/relay/session.go:57-65 | Once no copy of a session is running its counter is exactly the number of bytes forwarded to both peers, whether one relay was started or two |
| `RelayFlow.ForwardedIsPrefix` | internal/relay/server.go:241-261 | In every run, shutdown or not, and whatever happens to other sessions: unless both peers of a session have started a relay of it, what was forwarded to each is a prefix of what the other sent |
| `RelayFlow.RunKeepsFlow` | internal/relay/server.go:241-261 | Likewise for the whole account of such a session: what was forwarded, followed by what a running copy has read and not written, is what was read, and nothing is read before the relay |
| `RelayFlow.AllDelivered` | internal/relay/server.go:241-261 | Likewise: a running copy that has read all its source sent, and holds nothing unwritten, has delivered all of it |
| `RelayOwn.StagesStay` | internal/relay/server.go:214-225 | No step takes back that a handler has started a relay, or has ended one: whether a session has been relayed by both its peers can be read off the state |
| `RelayOwn.ListedIff` | internal/relay/server.go:169-225 | In every run a session is still listed under its identifier if and only if, since it was made, there was no shutdown and no clean-up after any relay of a session with that identifier |
| `RelayOwn.DropFindsOwnIff` | internal/relay/server.go:217-225 | The clean-up after a relay deletes the entry of the very session that ended if and only if there was no such step before |
| `RelayOwn.DropFindsOwn` | internal/relay/server.go:217-225 | So it does whenever the server was not shut down and no session of that identifier has been relayed by both its peers |
| `RelayQuiet.ApartIff` | internal/relay/server.go:191-229 | For a session with two peers: the first is waiting if and only if its count came before the second's join, that is, the two handlers did not overlap there |
| `RelayQuiet.ExactlyOneRelay` | internal/relay/server.go:206-229 | For such a session, whatever else the run does, at most the second peer relays; it does once its acknowledgement succeeds, and nobody else ever does |
| `RelayQuiet.AcksComeFirst` | internal/relay/server.go:206-225 | For such a session nothing is forwarded to either peer before both have their whole acknowledgement |
| `RelayQuiet.ClientIsSent` | internal/relay/server.go:206-261 | A client of such a session that has been sent five bytes has been sent the positive acknowledgement, and what is sent to it after that is a prefix of what the other client sent |
| `RelayClient.ClientReads` | internal/relay/client.go:11-35 | A client of such a session that reads its acknowledgement when all of it has arrived, with any reads, finds itself accepted; the bytes its throw-away buffer swallows then, followed by those it can read ever after, are a prefix of what the other client sent |
| `RelayClient.ShellToShell` | internal/agent/tunnel.go:151-209 | Through the relay of such a session: if that buffer swallowed nothing and the far client sends one shell's frames mixed with other streams, this client at every moment reads a prefix of those frames and demultiplexes a prefix of that shell's bytes |
| `RelayClient.AloneLosesNothing` | internal/relay/handshake.go:139-156 | A first arrival that reads its acknowledgement before the second has joined swallows nothing, whatever its reads |
| `RelayClient.FirstFrameLost` | internal/relay/handshake.go:139-156 | A run without overlap from the start in which the second arrival's one long read swallows the other client's first frame, and the shell is given 2 of the 1, 2 that were sent: the theorem without its condition is false |
| `RelayClient.ReaderDeliversIff` | internal/relay/handshake.go:139-156 | A client's reads are safe for all sources, streams, mixtures, cuts and amounts forwarded by then if and only if they stop where the acknowledgement ends |
| `RelayClient.AckThenReceive` | internal/agent/tunnel.go:187-209 | The acknowledgement read through the buffer and then the receiving loop on the bare connection: the shell gets the payloads of the frames in what the buffer left, and the buffer takes exactly what `Lost` says |
| `Misread.DeliversIff` | internal/tunnel/relay.go:66-78 | With the first bytes of a wire of frames missing: every shell's bytes are delivered as a prefix, for all sources, streams, mixtures and cuts, if and only if no byte is missing |
| `Misread.Misreading` | internal/tunnel/relay.go:66-78 | For every number of missing bytes there are frames, none of stream 1, in whose remains a reader finds a byte of stream 1 |
| `RelayOverlap.BothStart` | internal/relay/server.go:191-225 | A concrete run in which both handlers join before either counts, and both start a relay: "exactly one relay" is false without the no-overlap hypothesis |
| `RelayOverlap.SuccessorDeleted` | internal/relay/server.go:217-225 | The same run continued: the second clean-up deletes a successor session under the same identifier while a handler is about to join it |
| `RelayOverlap.SecondCleanUpMisses` | internal/relay/server.go:217-225 | Always, when two relays of a session end, the clean-up that comes second does not find that session |
| `RelayOverlap.TwoRelaysReorder` | internal/relay/server.go:241-261 | From any state in which two handlers relay the same open connections, with two bytes to read, the run can go on to write these two in the wrong order |
| `RelayOverlap.OrderLost` | internal/relay/server.go:241-261 | A concrete run from the start in which one client sends 1, 2 and the other is sent 2, 1: the prefix property does need that the session is relayed once |
| `RelayServer.Session.AddPeer` | internal/relay/session.go:24-35 | Appends to the slots if fewer than two are filled; else refuses and changes nothing |
| `RelayServer.Session.GetPeers` | internal/relay/session.go:45-55 | Returns the filled, non-nil slots in order |
| `RelayServer.NonNilAll` | internal/relay/session.go:45-55 | When no slot is nil these are the slots themselves, in order |
| `RelayServer.Session.Close` | internal/relay/session.go:68-82 | Each peer is closed if the session was not closed before, and is as it was if it had been |
| `RelayServer.Server.ClosingKeys` | internal/relay/session.go:68-82 | Among the clients, the connections closing a session closes are those the transition system closes with it |
| `RelayServer.Server.Find` | internal/relay/server.go:169-189 | Returns nothing if and only if the identifier is unlisted and the map holds `MaxSessions` entries or more; else the listed session, or a fresh empty one that is then listed. The map and session objects are what the transition system's `Find` step gives |
| `RelayServer.Server.Join` | internal/relay/session.go:24-35 | Likewise for a join |
| `RelayServer.Server.CleanUp` | internal/relay/server.go:198-202 | The identifier is deleted if and only if the session has no peers; the table is that of the transition system |
| `RelayServer.Server.EndSession` | internal/relay/server.go:263-264 | Likewise for closing a session at the end of its relay; of all clients exactly those the transition system's step closes are closed: its peers, or none if it was closed before |
| `RelayServer.Server.AddBytes` | internal/relay/session.go:57-60 | Likewise for the counter |
| `RelayServer.Server.Drop` | internal/relay/server.go:221-223 | Likewise for the deletion after a relay |
| `RelayServer.Server.Close` | internal/relay/server.go:88-103 | The loop over the map, in any order, empties it and closes every listed session and no other; of all clients exactly those the transition system's shutdown closes are closed |
| `RelayHandler.HandleConnection` | internal/relay/server.go:144-229 | Uninterrupted, the handler turns the table into what `Admit` gives, refuses for want of room if and only if the handshake is valid, its identifier unlisted and the map full, writes exactly the acknowledgement its ending calls for as far as the client takes it, leaves the connection open only when it waits or relays, and leaves on it what follows the handshake but the bytes its throw-away reader took |
| `RelayHandler.AdmitCases` | internal/relay/server.go:169-229 | Exactly when a handler ends how: no room, session full, acknowledgement lost, relaying (one peer before it), waiting (none); and what the table then is: unchanged, or with the connection in the next slot of the listed or a new session and nothing else changed |
| `RelayHandler.RepliesSay` | internal/relay/server.go:173-211 | What the client decodes its reply to: accepted if and only if its connection has a slot, and else the reason in the words of the code |
| `RelayHandler.Enter` | internal/relay/server.go:169-229 | The part after the handshake: find, join, clean-up, acknowledge, count |
| `RelayHandler.Seat` | internal/relay/server.go:169-204 | The part up to the join, with both refusals |
| `RelayAdmission.AdmitIsRun` | internal/relay/server.go:169-229 | What `Admit` says is what the transition system does when the handler takes its steps in turn, from any state; the connection is then open if and only if it waits or relays, and has been sent as much of the acknowledgement as its client took |
| `RelayCopy.Copy` | internal/relay/server.go:242-261 | One direction: all bytes of the source are written, however its reads fall, up to where the target breaks, and the count returned is what was written |
| `RelayCopy.Forward` | internal/relay/server.go:242-250 | One goroutine of the relay: the bytes written are added to the session's counter, and the target is closed |
| `RelayCopy.CopyIsRun` | internal/relay/server.go:242-261 | From any state between a write and a read, an uninterrupted copy with any reads is a run of read, write and finish steps: the target gets what `Copy` writes, the counter grows by it, the target is closed |
| `RelayWhole.RelayIsRun` | internal/relay/server.go:217-265 | A whole relay of two connected peers: the snapshot, any interleaving of the two copies' turns that reads everything, both finishes, the closing and the clean-up are a run; each peer is sent all that was unread of the other, the counter grows by both, both are closed and the entry is gone |
| `RelayWhole.Interleaved` | internal/relay/server.go:238-263 | Any interleaving of turns moves, in each direction, exactly the bytes of that direction's turns, in order |
| `LockOrder.ProgramsOrdered` | internal/relay/server.go:88-229 | The lock operations of every ending of a handler (no room, refused, acknowledgement failed, waiting, relaying), of the session count and of the shutdown take `s.mu` before a session's mutex |
| `LockOrder.NoDeadlock` | internal/relay/server.go:144-229 | In every reachable state of any number of goroutines, if one has lock operations left then one can make its next |
| `SignalSafety.RunKeepsInv` | internal/signal/server.go:135-162 | Over every interleaving of handlers' operations and connections' steps, the hub's and the session manager's tables keep their invariants |
| `SignalSafety.TableNamesLiveClients` | internal/signal/session.go:169-180 | In every reachable state each session in the table names only connected clients with open channels, and is listed for each of them: none refers to a client whose sessions were removed |
| `SignalSafety.PeerIsConnected` | internal/signal/session.go:149-166 | No lookup of a peer finds a client whose sessions were removed |
| `SignalSafety.PanicIff` | internal/signal/hub.go:147-182 | Of all the handlers' operations only a route to a device can send on a closed channel, and it does if and only if the device is still listed for a client that has left |
| `SignalSafety.DepartureAfterLookup` | internal/signal/session.go:196-222 | If the peer a lookup found left before the send, the send would meet its closed channel: that lookup and send are one step is needed |
| `SignalSafety.WriterSeesDelivered` | internal/signal/server.go:191-206 | In every reachable state what a client's writer has taken, followed by what waits in its queue, is exactly the sequence of messages delivered to it; at most 256 wait |
| `SignalSteps.OfferIs` | internal/signal/hub.go:156-162 | A send is delivered if and only if the channel is open and holds fewer than 256 messages, dropped if it is full, a panic if it is closed; delivered messages go last, and nothing else changes |
| `SignalSteps.TakeIs` | internal/signal/server.go:195-206 | The writer takes the first message, leaves all the others in order, and changes nothing else |
| `SignalSteps.WriterCanStep` | internal/signal/server.go:195-206 | It can always do so while messages wait, also after the client has left |
| `SignalSteps.RegisterClientIs` | internal/signal/hub.go:51-56 | A new client is found under its identifier with an open, empty channel and no device; all others are as they were |
| `SignalSteps.UnregisterClientIs` | internal/signal/hub.go:59-74 | The client is not found any more, its channel is closed with what it holds, an agent's own device is gone; nothing else changes |
| `SignalSteps.RegisterDeviceIs` | internal/signal/hub.go:79-101 | After any registration the device has the name, platform, version and key given, was seen now, and has its first registration time, or now if it was unlisted; it is listed for the client alone, and of other clients only its former owner loses its name |
| `SignalSteps.HeartbeatIs` | internal/signal/hub.go:104-111 | A heartbeat sets when a listed device was seen last; nothing else, and nothing for an unlisted one |
| `SignalSteps.RouteToClientIs` | internal/signal/hub.go:166-182 | In every reachable state a message by client identifier is offered to the client found under it, which is open, or to nobody if none is |
| `SignalSafety.WriterSeesSubsequence` | internal/signal/server.go:191-206 | What the writer took, with what still waits, is an in-order subsequence of the sends attempted |
| `SignalDevices.NothingPanics` | internal/signal/hub.go:59-101 | When every agent, each time it registers, gives a non-empty name and has no other at that moment, no run ever sends on a closed channel, and every listed device belongs to an open client that has it as its own |
| `SignalDevices.OneNameIsAllowed` | internal/signal/hub.go:79-101 | One non-empty device name per connection, as the agent has it, is such a run |
| `SignalDevices.RegisterKeepsTidyIff` | internal/signal/hub.go:79-101 | A registration keeps that correspondence if and only if the name is not empty and the client has no other name yet |
| `SignalDevices.StrayDeviceIff` | internal/signal/hub.go:59-101 | After one registration and the client's departure, some route panics if and only if the registration broke that rule |
| `SignalDevices.StrayRunPanics` | internal/signal/hub.go:147-163 | Every reachable state in which such a registration is possible is continued by a run that panics: the unconditional safety claim is false |
| `SignalDevices.LiveClientOwnsItsDevice` | internal/signal/hub.go:33-39 | In every reachable state both device tables have the same keys, and a connected client with a device name is the one listed under it |
| `SignalDevices.UnregisterSparesOthers` | internal/signal/hub.go:59-74 | A client that leaves, late or displaced, removes no device listed for another |
| `SignalDevices.UnregisterKeepsTidy` | internal/signal/hub.go:59-74 | Under the one-name rule it removes exactly the devices listed for it |
| `SignalDevices.RegisteredTimeIsStable` | internal/signal/hub.go:83-98 | While a device stays listed its registration time survives every step, a new registration included, and only a registration changes its data |
| `SignalDevices.HeartbeatRefreshesOwnDevice` | internal/signal/hub.go:104-111 | A heartbeat refreshes the client's own device, which is listed for it, and changes nothing else |
| `SignalRemoval.RemovesAtLeastScan` | internal/signal/session.go:169-180 | In every reachable state, whatever was requested before, removal through the client's list leaves nothing a scan of the table for that client would remove |
| `SignalRemoval.RemovesExactlyScanIff` | internal/signal/session.go:169-180 | In every reachable state the two agree if and only if each identifier listed for the client that is still in the table names there a session that involves the client |
| `SignalRemoval.RemovesExactlyScan` | internal/signal/session.go:169-180 | When no session identifier is reused and no session is accepted twice, they agree |
| `SignalRemoval.SecondAcceptRemovesMore` | internal/signal/session.go:74-93 | A session accepted by two clients in turn is removed with the first though a scan would leave it |
| `SignalRemoval.ReusedIdRemovesMore` | internal/signal/session.go:47-71 | A new session under a used identifier is removed with the old one's client though a scan would leave it |
| `SignalSteps.RemovalIs` | internal/signal/session.go:169-180 | Removing a client's sessions closes exactly those listed for it, takes exactly their identifiers out of the table, and forgets its list and no other |
| `SignalSteps.CreateIs` | internal/signal/session.go:47-71 | A new session is pending, without responder, listed under its identifier and last for its initiator; every other session, list and entry is as it was |
| `SignalSteps.AcceptIs` | internal/signal/session.go:74-93 | Accepting a listed session sets its responder and status and lists it last for the responder; nothing else, and nothing for an unlisted one |
| `SignalSteps.StatusIs` | internal/signal/session.go:96-108 | Rejecting or closing sets the status of a listed session; nothing else, and nothing for an unlisted one |
| `SignalHandlers.ForwardReachesOnlyPeer` | internal/signal/handler.go:182-248 | A forwarded message changes nothing in hub or session manager but the queue of the session's other endpoint, which is connected; with no such endpoint it changes nothing |
| `SignalHandlers.AcrossIsAnother` | internal/signal/session.go:149-166 | With endpoints of distinct identifiers that endpoint is unique and is not the sender |
| `SignalHandlers.AcceptReachesInitiator` | internal/signal/handler.go:152-180 | An accepting response to a known session makes the sender its responder and reaches its initiator; if the initiator's queue is full the sender is sent `route_failed` |
| `SignalHandlers.RejectReachesInitiatorIff` | internal/signal/handler.go:152-180 | A refusing response marks the session and reaches its initiator only when the sender had accepted it before and the queue has room; otherwise only the sender hears of it. The handler means to route it back; the code does not |
| `SignalHandlers.ResponseIsMarkThenRoute` | internal/signal/handler.go:164-179 | In general the response is routed across the session as marked, and the sender is told when it cannot be |
| `SignalHandlers.RequestReachesAgentIff` | internal/signal/handler.go:122-150 | A request always creates a session for its sender; it is pending and the agent has the request if and only if the device is listed and its agent has room; otherwise it is refused and the sender told `device_offline` |
| `SignalHandlers.RegisterIsAnswered` | internal/signal/handler.go:59-96 | A registration is acknowledged with the token for its device; an agent's is recorded, an app's changes nothing else |
| `SignalHandlers.HeartbeatIsAnswered` | internal/signal/handler.go:98-120 | A heartbeat refreshes the sender's listed device and is answered with the time |
| `SignalHandlers.DisconnectIsForwarded` | internal/signal/handler.go:250-266 | A disconnect is sent across the session, and the session is closed |
| `SignalHandlers.ErrorsAreAnswered` | internal/signal/handler.go:25-57 | A message that cannot be understood changes nothing but that its sender gets the error code: `invalid_message`, `unknown_type`, or that of its type |
| `SignalHandlers.ClosedIsNotFinal` | internal/signal/session.go:126-138 | A disconnect closes the session but keeps it listed, and a later acceptance makes it accepted again |
| `SignalHandlers.HandlerIsRun` | internal/signal/handler.go:25-57 | The operations of any handler, made without interruption after any run, continue that run and give `Handle` |
| `SignalHandlers.ServedIsRun` | internal/signal/server.go:134-162 | So does the whole life of a connection: register, messages, remove sessions, unregister |
| `SignalHub.Hub.RegisterClient` | internal/signal/hub.go:51-56 | The hub's maps and client objects after the call are what the table operation gives |
| `SignalHub.Hub.UnregisterClient` | internal/signal/hub.go:59-74 | Likewise: the client and its own device leave the maps and its channel is closed |
| `SignalHub.Hub.RegisterDevice` | internal/signal/hub.go:79-101 | Likewise: the old owner loses its name, the first registration time is kept, the new client owns the device |
| `SignalHub.Hub.UpdateHeartbeat` | internal/signal/hub.go:104-111 | Likewise for a heartbeat |
| `SignalHub.Hub.RouteToDevice` | internal/signal/hub.go:147-163 | Likewise, with the outcome of the send that does not wait |
| `SignalHub.Hub.RouteToClient` | internal/signal/hub.go:166-182 | Likewise |
| `SignalHub.Hub.Receive` | internal/signal/server.go:195-206 | The writer gets the first message and all the others stay, in order; an empty closed channel gives none |
| `SignalHub.Client.Offer` | internal/signal/hub.go:156-162 | Delivered if there is room, dropped if not, a panic if the channel is closed; the queue is unchanged unless delivered |
| `SignalSessions.SessionManager.CreateSession` | internal/signal/session.go:47-71 | The maps and session objects after the call are what the table operation gives |
| `SignalSessions.SessionManager.AcceptSession` | internal/signal/session.go:74-93 | Likewise; the session returned is the one in the map, or none |
| `SignalSessions.SessionManager.RejectSession` | internal/signal/session.go:96-108 | Likewise |
| `SignalSessions.SessionManager.CloseSession` | internal/signal/session.go:126-138 | Likewise |
| `SignalSessions.SessionManager.GetPeer` | internal/signal/session.go:149-166 | The client object returned is the endpoint the tables name, and one the hub knows |
| `SignalSessions.SessionManager.RemoveClientSessions` | internal/signal/session.go:169-180 | The deletion loop closes exactly the listed sessions and removes exactly their identifiers and the client's list |
| `SignalSessions.SessionManager.RouteToPeer` | internal/signal/session.go:196-222 | The lookup and the send together are the transition system's operation |
| `SignalServer.Handler.HandleRegister` | internal/signal/handler.go:59-96 | The handler's calls leave both tables as `Handle` says: only an agent's device is registered, and everyone is acknowledged |
| `SignalServer.Handler.HandleHeartbeat` | internal/signal/handler.go:98-120 | Likewise |
| `SignalServer.Handler.HandleConnectRequest` | internal/signal/handler.go:122-150 | Likewise: create, route, and on failure reject and report |
| `SignalServer.Handler.HandleConnectResponse` | internal/signal/handler.go:152-180 | Likewise: mark, route, and on failure report |
| `SignalServer.Handler.HandleForward` | internal/signal/handler.go:182-248 | Likewise, for the four forwarding handlers |
| `SignalServer.Handler.HandleDisconnect` | internal/signal/handler.go:250-266 | Likewise: route, then close |
| `SignalServer.Handler.HandleMessage` | internal/signal/handler.go:25-57 | The dispatch, with the error replies to messages that do not parse |
| `SignalServer.Handler.HandleWebSocket` | internal/signal/server.go:135-162 | Sessions are removed before the client is unregistered, and the tables end as `Served` says |
| `Frames.DecodeEncode` | internal/protocol/frame.go:59-94 | Decoding an encoded frame gives it back, whatever follows it on the stream, and consumes exactly it |
| `Frames.EncodeLayout` | internal/protocol/frame.go:59-71 | For every frame: the stream identifier, type, payload length and payload stand at bytes 0, 2, 3 and 7, the numbers big-endian |
| `Frames.AcceptedLayout` | internal/protocol/frame.go:109-135 | Exactly which bytes are accepted, and the value of each field read, in terms of the numbers the bytes stand for |
| `Frames.ReadFromOutcomes` | internal/protocol/frame.go:109-135 | Which error `ReadFrom` gives when, and what it leaves on the stream |
| `Frames.UnmarshalOutcomes` | internal/protocol/frame.go:74-94 | Which error `UnmarshalBinary` gives when: truncation comes before size |
| `Bytes.U16IsBigEndian` | internal/protocol/frame.go:65-80 | What is put are the digits of the number, and what is got is the number the bytes stand for, the most significant first |
| `Bytes.U32IsBigEndian` | internal/protocol/frame.go:67-83 | Likewise for the four bytes of a length |
| `Frames.EncodeDecode` | internal/protocol/frame.go:59-94 | Every accepted input starts with the encoding of the frame read from it |
| `Frames.PrefixFree` | internal/protocol/frame.go:59-71 | Two streams that agree start with the same frame: no encoding is a prefix of another |
| `Frames.StrictPrefixRejected` | internal/protocol/frame.go:109-135 | A frame cut short anywhere never decodes |
| `Frames.DecodersAgree` | internal/protocol/frame.go:74-135 | `UnmarshalBinary`, with 32-bit or 64-bit `int`, and `ReadFrom` accept the same inputs, with the same frame and the same length |
| `Frames.WidthsDifferIff` | internal/protocol/frame.go:79-91 | The two widths of `int` give different errors if and only if the header size plus the length field passes 2^31 - 1 |
| `Frames.ReadAllEncodeAll` | internal/protocol/frame.go:109-135 | Repeated `ReadFrom` on a concatenation of any frames gives exactly these and carries on with what follows |
| `Frames.ReadAllLossless` | internal/protocol/frame.go:109-135 | On any bytes, the frames read and the bytes left re-encode to the input, and the rest does not start with a frame |
| `Frames.ReadAllMonotone` | internal/protocol/frame.go:109-135 | The frames of a stream cut short are a prefix of those of the stream |
| `FrameIO.Frame.MarshalBinary` | internal/protocol/frame.go:59-71 | Refuses exactly oversized payloads; identifier, type, length and payload stand where they belong, big-endian, in a new array that shares nothing with the payload |
| `FrameIO.Frame.UnmarshalBinary` | internal/protocol/frame.go:74-94 | Succeeds exactly on the acceptance domain; says which error comes first and what a refused frame leaves in the receiver |
| `FrameIO.Frame.WriteTo` | internal/protocol/frame.go:98-105 | Writes the encoding, or the part of it the writer takes, or nothing when the frame is refused |
| `FrameIO.ReadFrame` | internal/protocol/frame.go:109-135 | Takes exactly one frame off the stream, for every way in which the reader splits its data |
| `Streams.ReadFull` | internal/protocol/frame.go:110-126 | What is delivered depends on the bytes to come only, never on how the reader splits them |
| `DartFrames.EncodeFrame` | app/lib/core/protocol/frame.dart:52-72 | The Dart encoder writes Go's encoding of the fields cut to 16 and 8 bits, with length and payload where they belong |
| `DartFrames.DartRoundTripIff` | app/lib/core/protocol/frame.dart:52-97 | A Dart frame comes back unchanged if and only if its stream identifier and type fit 16 and 8 bits |
| `DartFrames.DartAgreesWithGo` | app/lib/core/protocol/frame.dart:75-126 | `decode` and `tryReadFrame` accept what Go accepts, with the same frame and length; `tryReadFrame` throws exactly on a complete frame that is too large |
| `DartFrames.TryReadStable` | app/lib/core/protocol/frame.dart:105-126 | Any answer but "need more" stays the same on every extension of the buffer |
| `DartFrames.ChunkInvariance` | app/lib/core/protocol/frame.dart:105-126 | For every byte stream and every chunking, decoding while keeping the unconsumed tail gives what decoding the whole stream gives |
| `DartFrames.IncrementalRoundTrip` | app/lib/core/protocol/frame.dart:105-126 | On a stream of valid frames it gives exactly those frames and nothing left over |
| `DartFrames.DrainIsReadAll` | app/lib/core/protocol/frame.dart:105-126 | The app's incremental decoding reads the frames Go's repeated `ReadFrom` reads |
| `Transport.RelayTransport.WriteFrame` | internal/tunnel/relay.go:81-95 | Puts the frame at the start of the input on the wire byte for byte, and nothing when there is none |
| `Transport.RelayTransport.ReadFrame` | internal/tunnel/relay.go:66-78 | Returns the encoding of exactly the next frame |
| `Transport.RelayTransport.WriteFrames` | internal/tunnel/relay.go:81-95 | Calls made in the order in which they take the lock leave on a connection with room exactly what `WireAfterAll` says |
| `Transport.WireIsFrames` | internal/tunnel/relay.go:81-95 | And that, for any calls in any order, is a concatenation of whole frames in that order, of which the peer reads exactly these |
| `Proxy.SendLoop` | internal/agent/tunnel.go:157-184 | One buffer serves every turn; the wire gets the frames of all chunks read, up to where it breaks, and every frame handed over still holds its own chunk at the end |
| `Proxy.RecvLoop` | internal/agent/tunnel.go:187-209 | The shell gets exactly the payloads of this stream's DATA frames, in order, up to where it breaks |
| `Proxy.DemuxEach` | internal/agent/tunnel.go:202-206 | Frame by frame: a DATA frame of the stream gives its payload, a frame of any other stream or type gives nothing |
| `Proxy.MergeIff` | internal/agent/tunnel.go:151-209 | A mixture is any sequence whose frames can be marked as the ones or the others, each in their order |
| `Proxy.EndToEnd` | internal/agent/tunnel.go:151-209 | For any source, any splitting of its reads and any mixing with other frames, the far shell gets the source except the bytes of the read that reported the end |
| `Proxy.NothingDroppedIff` | internal/agent/tunnel.go:160-165 | The whole of every source is sent if and only if the reader never reports the end together with bytes |
| `Proxy.ChunksAndDropped` | internal/agent/tunnel.go:160-183 | What is framed and what is dropped make up the source |
| `Proxy.CutWirePrefix` | internal/agent/tunnel.go:187-209 | When the wire is cut anywhere, what has been written is a prefix of the source |
| `Handshake.HelloRoundTripIff` | internal/relay/handshake.go:44-113 | Reading back a written handshake gives it if and only if the identifier has 1 to 256 bytes and the type is 1 or 2; otherwise the length error comes first |
| `Handshake.HelloAcceptance` | internal/relay/handshake.go:62-113 | A byte stream is accepted if and only if it starts with the encoding of a valid handshake, and that is the one read |
| `Handshake.AckRoundTrip` | internal/relay/handshake.go:116-174 | An acknowledgement is read back whatever follows; an error message comes back cut to 65535 bytes |
| `Handshake.AckAcceptance` | internal/relay/handshake.go:139-174 | A client is told "accepted" if and only if the stream starts with the five bytes of the positive acknowledgement |
| `Handshake.HelloLayout` | internal/relay/handshake.go:44-59 | Where each field of a handshake stands, with its literal bytes, the length big-endian |
| `Handshake.HelloOutcomes` | internal/relay/handshake.go:62-113 | For every byte sequence, which error is found first or which handshake is read |
| `Handshake.AckLayout` | internal/relay/handshake.go:116-136 | The literal bytes of both acknowledgements; a reason of more than 65535 bytes is cut |
| `Handshake.AckOutcomes` | internal/relay/handshake.go:139-174 | For every byte sequence, what is read: a zero status accepts, any other gives the reason; and which error comes first |
| `Handshake.FullRead` | internal/relay/handshake.go:139-141 | A read nothing cuts short takes up to 4096 bytes, and all but five of them are lost |
| `Handshake.WriteHandshake` | internal/relay/handshake.go:44-59 | Writes the encoding as far as the connection takes it; refuses exactly identifiers of more than 65535 bytes |
| `Handshake.WriteHandshakeAck` | internal/relay/handshake.go:116-136 | Writes the acknowledgement as far as the connection takes it |
| `Handshake.ReadHandshake` | internal/relay/handshake.go:62-113 | The result depends on the bytes only, not on read boundaries; handshake, bytes lost in the throw-away buffer and bytes left make up the input |
| `Handshake.ReadHandshakeAck` | internal/relay/handshake.go:139-174 | Likewise; and how many bytes a positive acknowledgement's reader takes beyond it is `Swallowed`, a function of how many there are and how the reads fall |
| `Handshake.SwallowsNothingIff` | internal/relay/handshake.go:139-156 | It takes none, however many there are, if and only if its reads stop where the acknowledgement ends; and never any when there are none |
| `Stun.HandleMessage` | internal/stun/server.go:125-160 | Answers exactly the datagrams whose header has type 0x0001, the magic cookie and a length the datagram covers; the answer is the one `Answers` lays out byte by byte for the sender, from which a client by RFC 5389 recovers its own transaction, address and port; says exactly which error is reported when |
| `Stun.BuildBindingResponse` | internal/stun/server.go:163-226 | Byte by byte: a well-formed response (section 6 of RFC 5389) with family 1 and four bytes for an IPv4 address, bare or mapped into IPv6, and family 2 and sixteen for any other, from which sections 15 and 15.2 recover it |
| `Stun.ReportedIs` | internal/stun/server.go:164-168 | Which addresses are reported as IPv4: those of four bytes, and those of sixteen that begin with ten zeros and two 0xFF; all others are reported as they are |
| `Stun.ResponseAnswers` | internal/stun/server.go:200-226 | The literal bytes of the response: type, length, cookie, transaction, attribute, family, port and address combined with their masks |
| `Stun.ResponseReadsBack` | internal/stun/server.go:163-226 | For every transaction, every 4- or 16-byte address and every port, reading the response back gives them; the length field matches and is a multiple of four |
| `Stun.XorAddressBytes` | internal/stun/server.go:171-198 | The XOR loops compute the address combined with cookie and transaction |

## Left out

- RelayServer.Server.Find: the handler that calls it is one sequential thread; that regions of different handlers do not overlap inside a lock is the meaning of the mutexes, and `RelayModel` is where they interleave.
- RelayFlow.ForwardedIsPrefix: asks that the session has not been relayed by both its peers; `RelayOverlap.TwoRelaysReorder` is what can happen otherwise. A write is one step: two writes to one connection do not mix their bytes.
- RelayBytes.CounterIsTotal: the counter is unbounded, so the wrap-around of a 64-bit counter after 2^63 bytes is not modelled.
- RelayQuiet.ClientIsSent: refusing acknowledgements are not part of the byte stream of the transition system; `RelayHandler.Enter` has them.
- RelayCopy.Copy: the buffer is the one `io.Copy` makes; the system-call shortcuts the library may take instead are not modelled.
- RelayHandler.HandleConnection: the texts of handshake errors are a parameter, and the deadline for the handshake is not modelled.
- SignalSafety.PanicIff: `RouteToPeer` looks up under the lock and sends outside it; lookup and send are one step here. `SignalSafety.DepartureAfterLookup` says what happens otherwise.
- SignalSafety.TableNamesLiveClients: each locked operation of a handler is one step; the handler's reads of its own client's fields belong to the step that uses them.
- SignalRemoval.RemovesExactlyScan: both sides compare clients by identifier, as the code does. Identifiers have a resolution of one second (`internal/signal/server.go:222-224`), so two clients may share one.
- SignalHandlers.AcceptReachesInitiator: needs that initiator and sender have different identifiers.
- SignalServer.Handler.HandleWebSocket: one connection without interference; the interleaving of many is in `SignalModel`. Pings, deadlines and read limits are not modelled, and a panic is an outcome after which the handler stops.
- Handshake.ReadHandshake: the server's reader is thrown away too. A connection's `input` in `RelayModel` is what that reader left, and the bytes it took are a result of `RelayHandler.HandleConnection`; that there are none needs a client that sends nothing before it has its acknowledgement.
- RelayClient.ClientReads: the acknowledgement is read at one moment of the run, from what has arrived by then; bytes in transit count as not yet arrived.
- Streams.ReadFull: a reader that returns no bytes and no error forever is excluded, as is a writer that takes part of its data without an error.
- Stun.HandleMessage: the port is given as 16 bits; `net.UDPAddr` keeps it in an `int`.
- Transport.RelayTransport.ReadFrame: opening the connection (dialling, TLS, the client's side of the handshake in sequence) is reduced to setting the field.
- DartFrames.EncodeFrame: the payload of a decoded Dart frame is a view of the buffer; views are values here.
- RelayCopy.Forward: no one method starts the two goroutines and waits for them; `RelayWhole.RelayIsRun` composes their steps.
- Sockets, TLS, HTTP, the WebSocket upgrade and JSON: messages are a datatype, and one that does not parse is a case of it.
- `_processBuffer` in the app, which takes the buffered bytes twice, and the rest of the app's connection code.
- Termination of `ProxyDataFrames`: only its two loops are modelled, not the wait for both nor the error channel that is never closed.
- `ReadWriteCloser` in `internal/tunnel/tunnel.go`, quotas (stored, never enforced), the REST interface, the shell itself, reconnection, random identifiers, logging and string forms.
- Wall-clock time: registration and heartbeat times are parameters.

# synq: verified model

A Dafny 4.11 model of synq, which shares the clipboard and the scroll wheel between hosts, and proofs about it.
`dafny verify dfyconfig.toml` checks everything.

The model covers, in the order of the files:

- `Active`, `Protocol`, `Convergence`, `SplitBrain`, `Handover`: the active-peer protocol. One scroll source keeps a logical clock
  and the peer that currently gets its scroll events. Destinations ask it to activate or deactivate them. The source
  answers the requester and tells the other destinations by independent calls that may be lost, repeated or reordered.
  `Active` holds the handlers as classes proved against value functions; `Protocol` puts those functions into a step
  relation over the source with its log, any number of destinations and a bag of calls in flight.
- `Pipeline`: captured scroll events on their way through the bounded queues, the dispatcher and the reconnecting peer
  connections to the wire. `Routing` joins it to the protocol: the dispatcher reads the state the protocol writes.
- `Monitor`: the receiver threads of a source, one for each configured device that is plugged in.
- `ScrollMath`, `InputEvents`, `Focus`, `Scroll`: a destination's side. Unit conversion, the bytes of the virtual
  device, the blur machine that decides whether a received event is injected, and the filter on the local device.
  `Race` takes its sends apart into their two reads. `Device` puts the threads together: what any interleaving of these threads leaves on the one virtual device.
- `RateLimit`: the windowed error limiter. `KeyStore`: the double-checked cache of derived key boxes.
  `Clipboard`: clipboard echo suppression between hosts.
- `HostMerge`, `Addresses`: the interactive host-adding loop and its merge, address completion and the host-info line.

Handlers are atomic steps: the runtime has one thread (`src/main.rs:42`) and no handler awaits between reading and
writing the state it changes. The hosts are assumed to reach each other at the addresses they are configured with.

## Findings

Places where a natural reading of the code is false of it. Each comes with a concrete input that shows it and with the
exact condition under which the reading is right.

- The reply to a host's own request is applied without comparing clocks (`src/transport/active.rs:182-184,214-216`).
  In a run without any loss two destinations can end up both believing they are active, with nothing in flight and
  neither of them willing to send another activation (`SplitBrain.BothActive`). Agreement on every single clock value
  still holds (`Protocol.Agreement`), and `Convergence.ConvergesIff` says exactly when a destination ends up where the
  source is. The host that has lost such a split is cut off: events follow the source's log, so it gets none, its
  sender never runs and never asks to be deactivated, and it stays as it is until a request of another host is granted
  (`Routing.CutOff`, `Routing.SplitStrands`). If that request is made while no other is outstanding, it repairs the
  split (`SplitBrain.NextGrantRepairs`).
- A starting source sends its resets beside its first calls (`src/daemon/daemon.rs:41-60`). One that comes late makes a
  destination forget what it has been told: with requests made one at a time and nothing lost, in the end nobody may
  know the active host, not even that host itself (`SplitBrain.LateResetsWipeAll`). A destination is in step if and only
  if the last entry came to it after its last reset (`Convergence.StartupConvergesIff`), so certainly if its reset has
  come before the last request is handled (`Convergence.DrainedConverges`).
- A destination that missed a restart of the source ignores the new run's calls up to the clock it still holds. It may
  stay out of step, and active, however carefully requests are made (`SplitBrain.StaleHostStaysOut`). Made one at a
  time, they bring it back if and only if it asks itself, or more of them are granted than its clock says, or it happens
  to hold what the source holds (`Convergence.RestartConvergesIff`); that its own reply is applied without comparing
  clocks is what lets it rejoin by asking.
- Echo suppression depends on notifications being taken within 1000 ms of the latest remote set. That is the exact
  condition (`Clipboard.NoEchoIff`), and every batch too many is a notification taken late (`Clipboard.BatchesBalance`);
  if notifications are always late, one copy travels to and fro for ever (`Clipboard.SlowNotificationsPingPong`).
- The staleness test of the scroll sender subtracts two unsigned times that different threads write. A scroll of the
  user between the two reads can get a received event suppressed that would be injected both just before that scroll
  and just after it (`Race.SendDuringAScrollIsSuppressed`). The test of a send is that of an atomic one if and only if
  no scroll between its reads is newer than its clock reading, or the last scroll was stale when it read the clock
  (`Race.SplitTestIsAtomicIff`); a trace of such sends only is a trace of atomic sends (`Race.AtomicOrder`), which is
  what `Focus` speaks of.
- No remainder is carried between scroll events: a slow scroll of any length can produce no click
  (`ScrollMath.SlowScrollLosesEveryClick`). `ScrollMath.ClicksLostIff` and `ScrollMath.UnitsLostIff` say exactly what is
  lost and when nothing is.
- Reversing negates a value only inside the i32 range (`ScrollMath.ReverseNegatesIff`,
  `ScrollMath.ReverseFailsWhenCutOff`).
- `ensure_port` completes an unclosed leading bracket again and again (`Addresses.EnsurePortIdempotentIff`,
  `Addresses.UnclosedBracketGrows`, `Addresses.LoopbackGrowsASecondPort`).
- Typed hosts are not checked for repeated keys (`HostMerge.DistinctKeysIff`,
  `HostMerge.TypingTwoAddressesRepeatsAKey`).
- The device monitor tells devices apart by name: with two of one name plugged in, the second is not read, and
  unplugging it stops the first (`Monitor.AllReadIff`, `Monitor.SecondMouseStopsTheFirst`).

## Model

| member | source | states |
|---|---|---|
| Active.ActiveState.Set | src/transport/active.rs:68-73 | takes over exactly the given peer and clock; the host flag is set iff the peer is this host |
| Active.ActiveState.Increment | src/transport/active.rs:75-81 | advances the clock by one as a wrapping u64, makes the peer active, sets the host flag iff it is this host, returns the new clock |
| Active.ActiveState.Reset | src/transport/active.rs:92-96 | back to no peer, clock 0, not active |
| Active.ActiveState.BeginRequest | src/transport/active.rs:147-180 | with a source configured, an activation goes out unless this host is known to be active, a deactivation unless another one is; case by case for each state of the active peer |
| Active.ActiveState.FinishRequest | src/transport/active.rs:182-226 | a reply is applied whatever its clock; an error changes nothing |
| Active.TransportServer.ActivateRequest | src/transport/server.rs:104-165 | refuses non-sources, unknown peers and non-destinations without any change; otherwise appends one entry, answers with it and spawns its calls |
| Active.TransportServer.ActiveStateCall | src/transport/server.rs:167-202 | clock 0 resets, a clock not above the held one is ignored, anything else is taken over |
| Active.TransportServer.SendResets | src/daemon/daemon.rs:41-60 | a starting source spawns one clock-0 call for each scroll destination |
| Active.EntryClockIsZeroIffWrapped | src/transport/active.rs:75-81 | an entry gets the reset clock 0 iff the u64 counter wraps |
| Active.BroadcastCount | src/transport/server.rs:145-159 | a call is spawned at most once, and iff it carries the entry to a configured destination other than the new peer |
| Active.ResetsAreResets | src/daemon/daemon.rs:43-59 | a start-up call goes exactly once to each configured destination and to nobody else, with clock 0 and the source's key |
| Active.DeliveryCoverage | src/transport/server.rs:130-164 | an activation reaches each destination exactly once, by reply or by call; a deactivation reaches each once by call and the requester again by reply; nobody else is told |
| Active.GrantIsEligible | src/transport/server.rs:114-134 | whoever becomes active is the source or a configured scroll destination, and an activation activates its requester |
| Active.GrantIff | src/transport/server.rs:108-134 | a request is granted iff the host is a scroll source and the requester a configured scroll destination; each refusal has exactly its own cause, and the grant names the requester or, for a deactivation, the source |
| Active.HandleAllIsMax | src/transport/server.rs:182-193 | after any arrivals of log entries a host holds the one with the greatest clock it has seen |
| Active.LastWriterWins | src/transport/server.rs:182-193 | order and repetition of the arrivals do not change the outcome |
| Protocol.CoreInvStep | src/transport/server.rs:104-165 | every step keeps the source at the last log entry and every call and reply in flight a reset or a log entry; the log only grows |
| Protocol.InvStep | src/transport/active.rs:139-230 | every step keeps each destination in agreement with the log and each pending reply newer than its request |
| Protocol.Agreement | src/transport/active.rs:68-96 | in every reachable state, under loss, duplication, reordering, late resets, abandoned calls and restarts of destinations, each destination holds nothing or exactly the log entry at its clock |
| Protocol.SameClockSamePeer | src/transport/active.rs:68-96 | two destinations at one clock name the same peer and at most one of them is active |
| Protocol.RepliesAdvance | src/transport/active.rs:147-229 | a reply's clock is above the clock held when its request was sent |
| Protocol.OnlyOvertakenRepliesRegress | src/transport/active.rs:182-184 | a clock falls only by a reset, a restart, or a reply older than a broadcast that came while the destination was waiting for that reply |
| Protocol.RestartRecovery | src/transport/server.rs:173-193 | after the source restarts a destination keeps its old state until the first reset, reply or broadcast above its clock, and agrees with the new log from then on |
| Protocol.StartupSendsResets | src/daemon/daemon.rs:41-60 | the start-up calls produce the starting state of the restart and start-up results |
| Protocol.AsksIff | src/transport/active.rs:164-180 | an idle destination can ask for activation iff it does not take itself for the active host, for deactivation iff it takes nobody else for it |
| Convergence.TrackedStep | src/transport/server.rs:145-193 | every step that loses nothing for a destination keeps the newest entry held by it, on its way to it, already passed over by it, or forgotten by it for an older reply or a reset |
| Convergence.ConvergesIff | src/transport/active.rs:182-216 | in any run that loses nothing for one destination, whatever happens to others, from a state with nothing in flight for it but resets of a source that has only started: once nothing is in flight for it, it is where the source is iff something decisive came and no older reply or reset came after the last entry, or nothing decisive came and it knew already |
| Convergence.ConvergesFromRestIff | src/transport/active.rs:182-216 | if it begins with an entry of the log or nothing: iff it was not overtaken, and some request was granted or it was there to begin with |
| Convergence.SerialisedConvergesIff | src/transport/active.rs:182-216 | if requests are made one at a time: iff something decisive came and the last entry, if it came, came after the last reset, or nothing decisive came and it knew already |
| Convergence.RestartConvergesIff | src/transport/server.rs:173-193 | after a restart of the source with its resets in flight, delivered or lost, requests one at a time: where a reset came, iff nothing was granted or the last entry came after the last reset; where none came, iff it asked itself, or more requests were granted than the clock it still holds, or it knew already |
| Convergence.StartupConvergesIff | src/daemon/daemon.rs:41-60 | from the start of the program with all resets in flight, requests one at a time: iff nothing was granted or the last entry came to it after its last reset |
| Convergence.DrainedConverges | src/daemon/daemon.rs:41-60 | a destination whose reset comes before the last request is handled ends where the source is |
| Convergence.SerialisedConverges | src/transport/active.rs:182-216 | if requests are made one at a time, a destination that holds an entry of the current log or nothing, with no reset on its way, is brought to the source's state by one granted request |
| SplitBrain.SplitRun | src/transport/active.rs:164-195 | for any two destinations the eight steps of the split are a run of the protocol without loss |
| SplitBrain.BothActive | src/transport/active.rs:164-195 | that run starts cold over a correct configuration and ends with nothing in flight, both destinations active, and no activation that either would still send |
| SplitBrain.NextGrantRepairs | src/transport/active.rs:182-216 | after the split one granted request, made while no other is outstanding, brings each of the hosts to the source's state if nothing for it is lost |
| SplitBrain.StaleHostStaysOut | src/transport/server.rs:182-193 | for every clock a host may still hold after missing a restart there is a serialised lossless run that ends with nothing in flight and that host out of step and active |
| SplitBrain.LateResetsWipeAll | src/daemon/daemon.rs:41-60 | a serialised lossless run from the start of the program at the end of which neither host knows the one the source has made active |
| Handover.PassesToTheAsker | src/transport/active.rs:162-226 | from rest with everybody in step on an active host, another host asks and is answered, and in the end it alone is active and everybody knows |
| Handover.PassesBackToTheSource | src/transport/server.rs:130-164 | from there the active host asks to be deactivated, and in the end nobody is active and everybody names the source |
| Focus.FocusInvHolds | src/scroll/sender.rs:131-146 | the blur timestamp is 0 iff no run of stale sends is in progress, and otherwise the time its first send came |
| Focus.SuppressedIff | src/scroll/sender.rs:131-146 | a send is suppressed iff it ends a run of stale sends that began more than 50 ms earlier |
| Focus.GraceAfterFreshSend | src/scroll/sender.rs:134-146 | no send within 50 ms after one that was not stale is suppressed |
| Focus.TimestampsAreSound | src/scroll/sender.rs:131-146 | over time-ordered traces no subtraction goes below zero and a recorded blur is never the sentinel 0 |
| Race.SplitTestIsAtomicIff | src/scroll/sender.rs:131-134 | the test of a send is that of an atomic send with its clock reading, somewhere among the stores, iff no store between its reads is newer than the reading or the last scroll was stale before |
| Race.DiffersFromBothIff | src/scroll/sender.rs:131-134 | exactly when it differs both from the test of a send at the moment of the reading and from that of a send at the moment of the decision |
| Race.SendDuringAScrollIsSuppressed | src/scroll/sender.rs:131-141 | a reachable trace in which a send is suppressed that is injected both just before and just after the scroll between its reads |
| Race.AtomicOrder | src/scroll/sender.rs:131-146 | a trace with none of these sends has the verdicts of a time-ordered trace of atomic sends with the same scrolls and clock readings |
| ScrollMath.OneEvent | src/scroll/sender.rs:48-63 | one conversion rounds toward zero by less than a unit and less than 120 units |
| ScrollMath.ScrollTotals | src/scroll/sender.rs:48-63 | over n events in one direction the hi-res total is short of the exact total by less than n units and the clicks by at most 119 n |
| ScrollMath.ClicksLostIff | src/scroll/sender.rs:61-63 | over events in one direction the clicks fall short by the rests of the single events: they are what the hi-res total is worth iff the rests stay below 120, nothing is lost iff every event is whole clicks, and there is no click iff every event is less than one |
| ScrollMath.UnitsLostIff | src/scroll/sender.rs:48-49 | over events in one direction the hi-res total falls short by the fractions of the single events: it is the exact total rounded down iff they stay below 1, and nothing is lost iff every event is whole units |
| ScrollMath.SlowScrollLosesEveryClick | src/scroll/sender.rs:61-63 | the click bound is attained for every n |
| ScrollMath.ReverseNegatesIff | src/daemon/scroll.rs:32-36 | reversing negates the emitted value iff it is inside the i32 range |
| ScrollMath.ReverseFailsWhenCutOff | src/daemon/scroll.rs:32-36 | -2^28 becomes the least i32 value, and reversed the greatest |
| ScrollMath.ScaledTotals | src/daemon/scroll.rs:32-36 | the exact total a source sends is the exact total it captures times its modifier, with the other sign if it reverses |
| InputEvents.DecodeEncode | src/scroll/event.rs:9-17 | a record's bytes decode to the record |
| InputEvents.EncodeDecode | src/scroll/event.rs:9-17 | any 24 bytes are the bytes of the record they decode to |
| InputEvents.Layout | src/scroll/event.rs:9-17 | where each field of a record stands, byte by byte, and how -1 is written |
| InputEvents.WheelBytesIff | src/scroll/blocker.rs:75-82 | a record is a wheel event iff its bytes say type 2 and code 6, 8, 11 or 12 |
| Scroll.Pack | src/scroll/sender.rs:65-129 | the used part of the 120-byte buffer is the encoding of the intended events, for all inputs |
| Scroll.PackedRoundTrip | src/scroll/sender.rs:65-129 | decoding it gives back exactly those events, at most five |
| Scroll.IntendedIs | src/scroll/sender.rs:65-129 | the events of one send carry its time, come in a fixed order and end with a report; each of the four wheel events is there iff its value is not zero |
| Scroll.ClickImpliesHiRes | src/scroll/sender.rs:61-129 | a click event never comes without the hi-res event of its axis, in the same direction and at least 120 times as large |
| Scroll.ScrollSender.Send | src/scroll/sender.rs:37-149 | injects the packed events iff the blur machine says so and updates only the blur time; a send that is stale by 120 ms and more than 50 ms after the recorded blur asks an active host's queue for one deactivation, if fewer than 32 requests wait, and every other send leaves the queue alone |
| Scroll.ScrollBlocker.ProcessEvent | src/scroll/blocker.rs:65-99 | swallows a record and stamps the scroll time iff bytes 16 to 19 say a relative event with code 6, 8, 11 or 12; otherwise writes its 24 bytes unchanged and stamps nothing; offers an activation iff the host is not active and fewer than 32 requests wait |
| Scroll.ScrollBlocker.Run | src/scroll/blocker.rs:101-106 | the loop writes the passed records in order and ends with the time of the last wheel event |
| Scroll.Transport.NextRequest | src/transport/active.rs:139-180 | the request loop takes the oldest request; it passes an activation on iff this host is not known to be active, a deactivation iff no other host is, and skips it otherwise |
| Scroll.BlockerFilters | src/scroll/blocker.rs:73-89 | the blocker's output, decoded, is its input with the wheel events taken out; events of every other type and code come through complete and in order |
| Device.Interleave | src/daemon/scroll.rs:79-123 | any interleaving of the calls of the blocker threads and the sender thread on one device leaves the timestamps, the bytes and the requests the trace says |
| Device.RunScrollInject | src/daemon/scroll.rs:71-86 | the drain loop sends the received events in order, each by the timestamps the ones before have left, and queues what each asks for |
| Device.DeviceTotals | src/scroll/sender.rs:48-148 | a reader that decodes these bytes gets exactly the intended events of the sends that are not suppressed and the local records that are no wheel events, in order; so each axis adds up to the totals over exactly the unsuppressed scrolls, and everything else survives in order |
| Device.LocalEventsSurvive | src/scroll/blocker.rs:75-89 | for every type and code but the four of the wheel and the report, what the device shows is exactly what the local devices sent, in order |
| Device.SendAsksIff | src/scroll/sender.rs:131-141 | a send asks for deactivation iff its host is active and it ends a run of stale sends that began more than 50 ms earlier |
| Device.RequestsOfTrace | src/scroll/blocker.rs:91-96 | over any trace an active host's queue gets one deactivation for each suppressed send, an inactive one's one activation for each local record, and nothing else, as far as 32 fit |
| Pipeline.ScrollTransport.SendScroll | src/transport/transport.rs:147-153 | a full main queue drops the newest event, and only then |
| Pipeline.ScrollTransport.DispatchNext | src/transport/scroll.rs:79-103 | takes the oldest event and offers it to exactly the peers whose key is active, or drops it |
| Pipeline.Route | src/transport/scroll.rs:95-101 | the loop over the peers offers the event to exactly those with the active key |
| Pipeline.PeerConnection.TrySend | src/transport/scroll.rs:97-99 | a full peer queue refuses the event |
| Pipeline.PeerConnection.Receive | src/transport/scroll.rs:166-184 | a connection takes the oldest event of its own queue |
| Pipeline.PeerConnection.Forward | src/transport/scroll.rs:186-189 | the held event moves to the stream channel, or goes down with the call and everything in its channel |
| Pipeline.PeerConnection.CallEnds | src/transport/scroll.rs:172-174 | a call that ends takes its stream channel with it and leaves the peer queue alone |
| Pipeline.Conservation | src/transport/scroll.rs:79-193 | at every moment each captured event is accounted for once: queued, held, sent, lost with a connection, or one of the named drops |
| Pipeline.CaptureIs | src/transport/transport.rs:147-153 | a main queue of fewer than 32 events takes the new one at its end, a full one refuses it |
| Pipeline.DispatchIs | src/transport/scroll.rs:81-101 | the oldest event goes to the end of the queue of the peer with the active key if fewer than 32 wait there; no other peer changes, and it is counted as dropped only for its cause |
| Pipeline.NamedDrops | src/transport/scroll.rs:91-101 | over every run each drop counter is the number of steps that meet exactly its cause |
| Pipeline.CanDrain | src/transport/scroll.rs:143-193 | from every state a peer's connection task can go on until all that waits for the peer is on the wire in order |
| Pipeline.OrderAndRouting | src/transport/scroll.rs:79-193 | each wire carries captured events in capture order, no event reaches two peers, none is both sent and lost |
| Pipeline.RoutedWhileActive | src/transport/scroll.rs:91-101 | an event on its way to a peer was dispatched while that peer was active |
| Pipeline.LossBound | src/transport/scroll.rs:143-193 | a broken connection loses its stream channel and held event, at most 33, and nothing of the peer queue |
| Routing.RoutedByTheLog | src/transport/scroll.rs:91-101 | whatever is on its way to a peer, or was lost on it, was dispatched while the newest entry of the source's log named that peer |
| Routing.CutOff | src/scroll/sender.rs:137-141 | a host that believes it is active while the source does not gets no event, injects none and sends no request, whatever its threads do, until a request of another host is granted |
| Routing.SplitStrands | src/transport/active.rs:164-195 | the host that lost the split is in that position |
| Monitor.ReceiverMonitor.OnAdded | src/daemon/monitor.rs:107-147 | starts one receiver for a configured pointer device whose name is not in the map, and changes nothing else |
| Monitor.ReceiverMonitor.OnRemoved | src/daemon/monitor.rs:148-160 | cancels the receiver of that name and only that one |
| Monitor.ReceiverMonitor.Run | src/daemon/monitor.rs:61-164 | the loop keeps the threads that run exactly those in its map |
| Monitor.ReceiverMonitor.Shutdown | src/daemon/monitor.rs:166-168 | after the loop every receiver it ever started is cancelled |
| Monitor.LiveArePlugged | src/daemon/monitor.rs:106-163 | whatever is read is plugged in, under the name it is read by |
| Monitor.AllReadIff | src/daemon/monitor.rs:116-160 | every configured device that is plugged in is read at every moment iff none is plugged in beside another one of its name |
| Monitor.SecondMouseStopsTheFirst | src/daemon/monitor.rs:116-160 | plugging in and out a second mouse of one name leaves the first one unread |
| RateLimit.Limiter.Error | src/errors/tracing.rs:29-55 | changes only the state of the error's kind, as the window rule says |
| RateLimit.AtMostNine | src/errors/tracing.rs:29-46 | any half-open 60 s interval holds at most 9 logged errors of a kind, whatever other kinds do |
| RateLimit.NineIsAttained | src/errors/tracing.rs:29-46 | 9 is attained |
| RateLimit.WindowBounds | src/errors/tracing.rs:22-43 | the first window of a kind logs at most 4 errors, a later one at most 5 |
| RateLimit.DroppedOnlyWhenBusy | src/errors/tracing.rs:39-45 | an error is dropped only if at least 4 of its kind were logged in the 60 s before |
| RateLimit.KindsAreIndependent | src/errors/tracing.rs:48-55 | leaving out all other kinds changes no decision about a kind |
| KeyStore.Store.GetBox | src/crypto/store.rs:23-46 | returns the derived box, or nothing and no change for an undecodable key |
| KeyStore.Store.Remove | src/crypto/store.rs:49-54 | removes exactly that key and says whether it was there |
| KeyStore.Store.Clear | src/crypto/store.rs:57-63 | empties the cache |
| KeyStore.CacheIsTransparent | src/crypto/store.rs:23-46 | under every interleaving of the two sections of all calls with removals, each answer equals direct derivation and no undecodable key is cached |
| KeyStore.SameBoxIff | src/crypto/store.rs:23-63 | two callers of a key got the same allocation iff the key was neither removed nor cleared between their answers |
| Clipboard.ClipboardHost.OnChange | src/daemon/clipboard.rs:39-67 | less than 1000 ms after a set, or without readable text, nothing is queued; otherwise one message for each clipboard destination, to its address, in list order, and none for anybody else, as far as 16 fit |
| Clipboard.ClipboardHost.OnMessage | src/transport/server.rs:84-243 | a message stores the time and sets the clipboard iff the host is a destination, the sender is a configured clipboard source, and it decrypts |
| Clipboard.BatchIs | src/daemon/clipboard.rs:57-66 | what a copy sends: exactly one message to each peer marked as a clipboard destination, in list order |
| Clipboard.AcceptsIff | src/transport/server.rs:84-225 | a message is accepted iff this host is a clipboard destination and the first peer with the sender's key a clipboard source |
| Clipboard.OutsideSends | src/daemon/clipboard.rs:39-66 | in every run a notification taken 1000 ms or more after the latest set puts these messages into the network, and no other step puts any |
| Clipboard.OnlyToDestinations | src/daemon/clipboard.rs:57-66 | in every run each message on its way was sent by a host with its key that has a clipboard destination at its address |
| Clipboard.BatchesBalance | src/daemon/clipboard.rs:39-67 | in every run, at every host, batches sent, copies still to be noticed and copies swallowed by the window are together the copies made plus the remote sets noticed late |
| Clipboard.TrafficBound | src/daemon/clipboard.rs:39-67 | in every run messages are at most copies and late notifications times destinations, and batches at each host at most its own |
| Clipboard.NoEchoIff | src/daemon/clipboard.rs:39-43 | in a run every batch answers a copy of the host's own user iff every notification of a remote set is taken before 1000 ms have passed since the latest store there |
| Clipboard.NoPingPong | src/daemon/clipboard.rs:39-67 | then, in particular if each is taken within 1000 ms of its own store, no host sends more batches than its user made copies, and messages are at most copies times destinations |
| Clipboard.SlowNotificationsPingPong | src/daemon/clipboard.rs:39-67 | without that promptness two hosts can exchange any number of messages after one copy |
| HostMerge.AddHosts | src/configure/configure.rs:234-373 | the loop with its mutable set and list computes the fold the lemmas below speak of |
| HostMerge.PromptPeerSettings | src/configure/configure.rs:375-403 | each answer goes to the setting it was asked for, a scroll source is not made a scroll destination, and address, key and unasked settings stay |
| HostMerge.PromptedKeyIs | src/configure/configure.rs:331-350 | the key prompt yields the first valid line that comes before any empty one |
| HostMerge.AddedAre | src/configure/configure.rs:242-372 | exactly which inputs add a peer, in order: announced hosts that are new by address and key, valid, not the own one and confirmed; typed ones that are new by address and have a valid key other than the own one; each with its answers |
| HostMerge.AddedPeersAreSound | src/configure/configure.rs:242-372 | for any discoveries and typed lines the added peers have valid keys, never the own key, and distinct addresses |
| HostMerge.DistinctKeysIff | src/configure/configure.rs:302-370 | added keys are distinct iff no accepted typed line repeats the key of an earlier added peer |
| HostMerge.TypingTwoAddressesRepeatsAKey | src/configure/configure.rs:302-370 | typing two addresses of one host adds its key twice |
| HostMerge.Merge | src/configure/configure.rs:171-188 | the merge loop keeps the confirmed old peers that no new one replaces, in order, followed by the new ones |
| HostMerge.KeptAre | src/configure/configure.rs:172-186 | exactly the configured peers that share neither address nor key with a new one and that the user keeps, in order, each with its answers |
| HostMerge.MergedPeersAreSound | src/configure/configure.rs:171-188 | no kept peer shares an address or key with a new one; addresses stay distinct, and keys too if the added ones are |
| Addresses.BindPortOfCompleted | src/config/config.rs:42-50 | the port read from a completed address is the default iff the address had none |
| Addresses.CompletedIs | src/configure/utils.rs:20-33 | what becomes of each shape of address: no colon, one, several, brackets closed before a port, other brackets |
| Addresses.ParsePrinted | src/config/config.rs:42-50 | a printed number is read as a port iff it fits into 16 bits |
| Addresses.EnsurePortIdempotentIff | src/configure/utils.rs:20-33 | completing twice is completing once iff the address is not an unclosed leading bracket |
| Addresses.UnclosedBracketGrows | src/configure/utils.rs:20-26 | an unclosed leading bracket gets a port more with every completion |
| Addresses.LoopbackGrowsASecondPort | src/configure/utils.rs:20-26 | `[::1` becomes `[::1:80` and then `[::1:80:80` |
| Addresses.HostInfoRoundTripIff | src/broadcast/broadcast.rs:181-197 | both receivers read a formatted host-info message back iff neither field is empty or contains white space |
| Addresses.OtherLines | src/broadcast/broadcast.rs:181-192 | a line without the prefix word, or with fewer than two words after it, is rejected |

## Left out

- Protocol.Agreement: for fewer than 2^64 accepted requests in one run of the source, as are the other results that
  speak of a log; beyond that the u64 clock wraps to the reset value (`Active.EntryClockIsZeroIffWrapped`).
- Convergence.ConvergesIff: for runs in which no call or reply for the destination is lost, it does not restart, and no
  activation of its own is handled after it has given up waiting: what it has not been told it learns with the next
  request.
- Focus.SuppressedIff: each send is one atomic step; `Race.AtomicOrder` carries it over to sends with two reads. A
  blocker's reading of the clock and its store are one step there too, and the results of `Race` hold for clocks at
  least 120 ms short of 2^64.
- Routing.CutOff: events and deactivations that wait in the host's queues when it is stranded are taken to be processed
  first.
- Monitor.AllReadIff: a device keeps its name and path while it is plugged in. A receiver thread that ends by itself
  after a read error stays in the map in the program; here receivers run until they are cancelled.
- Scroll.ScrollSender.Send: writes to the virtual device do not fail, and deltas are real numbers, so rounding, NaN and
  infinities of f64 are not modelled; the saturation of the cast is. Records are little-endian.
- Addresses.HostInfoRoundTripIff: the 2048-byte limit of the UDP receive buffer and UTF-8 are not modelled.
- Pipeline.Conservation: the queues of a source with at least one configured scroll destination; without any, the main
  channel is closed from the start. Cancellation at shutdown is not modelled.
- Authentication of active-state calls, several sources, and a host that is its own peer: the program does not
  claim anything about them.
- gRPC, sockets, name resolution, libinput, uinput set-up, X11 and the operating system's clipboard: represented by
  steps that send, deliver, lose, set or notify.
- Key decoding, box derivation and encryption: parameters of the key store; nothing is claimed about their strength.
- The queue between the gRPC scroll handler and the injector (`src/transport/server.rs:37-80`), which holds 32 events
  and drops the newest when full: it is a step of `Routing`, and `Device.RunScrollInject` starts from what it hands
  over.
- Command line, prompts as user interface, configuration files, logging format and signals.

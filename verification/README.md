# Verified model of goxot

goxot carries X.25 over TCP (XOT, RFC 1613). This project models the parts of it where state,
interleaving and byte layout meet, and proves what they keep:

- the session manager of tun-gateway, as a class over three maps and a round-robin cursor
  (`SessionManager`), against a specification of the three indexes as a value (`SessionTable`);
- the concurrent protocol around it (`TunGateway`): the TUN reader, one reader and one deferred
  cleanup per connection, the dialing goroutines and the signal handler, as a transition system
  whose steps are the code's own critical sections, loads and stores, TUN writes and connection
  sends, interleaved freely (`TunGatewaySafety`, with runs from the start in `TunGatewayRuns`);
  and the same handlers run without interference, as methods over the session manager object
  (`TunHandlers`);
- the tun-loopback relay: its slot table as a value with its critical sections interleaved
  (`LoopTable`), also in the program order of its readers (`LoopRaces`), its handlers as functions
  over the whole relay (`LoopRelay`), and the objects that change in place (`LoopManager`,
  `LoopHandlers`);
- the round-robin LCI allocator that both programs contain (`RoundRobin`);
- the bidirectional call relay of xot-gateway and xot-server over every interleaving
  (`CallRelay`), and one of its directions as the loop it is (`RelayLoop`);
- the codecs: packet headers (`Wire`), call requests (`CallRequest`), the second encoder in
  x25_ping (`PingEncoder`), facility lists (`Facilities`), DATA packets (`DataPacket`), XOT
  framing (`Framing`), TUN frames (`TunFrames`); longest-prefix routing (`Routing`) and the
  configuration checks the others rely on (`Config`).

Connections are opaque handles. A session ID is the tuple (LciA, ConnB, LciB); every session the
programs create has a nil A-side connection, so it is not a field. Bytes are the integers 0 to
255. A goroutine's reads, timers, dial results, map iteration orders and write failures are
nondeterministic choices. The kernel's own X.25 machine may emit any frame; the loopback theorems
add the documented partition, that the kernel picks the LCIs of its own calls outside the relay
range, as a hypothesis wherever they need it.

## What the code does not do

Five properties one might expect fail. Each has the exact condition under which it holds, and an
input or a run from the start on which it does not.

- A facility list that re-encodes to more than 255 bytes overflows its one-byte length:
  `InjectFacilities` changes only the facilities if and only if the list fits
  (`Facilities.InjectionIff`, `Config.ConfiguredInjectionIff`). One class D override of 254 bytes,
  which every check accepts, is enough (`Facilities.InjectionOverflows`).
- x25_ping writes wrong digits for some upper-case hex addresses
  (`PingEncoder.PingRoundTripIff`); "1A" arrives as "fa" (`PingEncoder.PingMangles`). Lower-case
  addresses of up to 15 digits always survive.
- `AddSession` overwrites. The three indexes stay in bijection if and only if no accepted
  addition clashes with a session of another identity (`SessionTable.RunExactIff`,
  `TunGatewaySafety.RunStaysExactIff`). Two kernel calls on one LCI that are dialed at the same
  time clash (`TunGatewayRuns.ClashHappens`).
- The guard of `cleanupConn` and its write are separate steps. What the guard saw stays true, in
  that the LCI leads to the session or to nobody, if and only if no step in between hands the LCI
  out (`TunGatewaySafety.GuardHoldsIff`). In the ordinary order of events, hand-over, reuse of the
  LCI by the kernel, addition of the new call, the CLEAR reaches the new call
  (`TunGatewayRuns.StaleClearHappens`; `TunGatewayRuns.StaleClearInOtherOrder` gets there with a
  second dialer already waiting). A cleanup whose snapshot comes after the hand-over writes no
  CLEAR for the session at all (`TunGatewaySafety.NoClearAfterHandOver`).
- The loopback rollback after a failed write is unguarded. As an operation it keeps the table
  consistent if and only if its endpoints are free or held by a call with the same endpoints
  (`LoopTable.RemoveIff`), and it removes no call but its own if and only if each endpoint is free
  or still its own (`LoopTable.RemoveSparesIff`). Each node has one reader, which is busy with the
  call until it is rolled back; with that order and the LCI partition, a run stays consistent if
  and only if no call is rolled back while another one, recorded since under the same relay LCI,
  is live (`LoopRaces.OrderedRunConsistentIff`). Such a call comes from another node and is always
  torn in half, its kernel slot left and its relay slot gone (`LoopRaces.ReassignedIsTorn`). Three
  nodes are enough (`LoopRaces.RollbackRaceHappens`).

## Model

| member | source | states |
|---|---|---|
| `RoundRobin.PickIsNearestFree` | src/session.go:149-173 | allocation fails exactly when every LCI of the range is in use, and otherwise takes the free LCI cyclically nearest to the cursor |
| `RoundRobin.FreeLciIsChosen` | src/cmd/tun-loopback/main.go:64-77 | fairness: an LCI that stays free is handed out within its distance from the cursor plus one allocations, whatever else is allocated and freed |
| `RoundRobin.NoReuseWhileOtherFree` | src/session.go:149-173 | no LCI is handed out twice while another one stays free throughout |
| `SessionTable.IndexedIffRegistered` | src/session.go:46-57 | under the weak invariant a session is reachable through any index exactly when it is registered under its ID |
| `SessionTable.PutKeepsWeak` | src/session.go:119-130 | recording a session keeps every entry under its own key with its session registered, even when it overwrites |
| `SessionTable.RemoveKeepsWeak` | src/session.go:199-217 | the guarded removal takes a session out of every index and no other session out of registration |
| `SessionTable.RemoveByBKeepsWeak` | src/session.go:177-196 | the removal by connection and LCI, with its unguarded A-side deletion, keeps the weak invariant and unregisters exactly that session |
| `SessionTable.RemoveByBIsRemove` | src/session.go:177-196 | that removal equals the guarded one exactly when the A-side LCI does not lead to somebody else |
| `SessionTable.PutExactIff` | src/session.go:119-130 | adding keeps the bijection exactly when neither key leads to a session of another identity |
| `SessionTable.AllocateKeepsExact` | src/session.go:135-174 | allocation uses an A-side LCI nobody holds and keeps the bijection |
| `SessionTable.ExactIsBijection` | src/session.go:46-57 | in an exact table registration, A-side LCIs and (connection, LCI) pairs name the same sessions one to one, and there are as many A-side LCIs as sessions |
| `SessionTable.RunKeepsWeak` | src/session.go:96-275 | every run of manager operations keeps the weak invariant |
| `SessionTable.RunExactIff` | src/session.go:96-275 | a run keeps the bijection throughout exactly when no accepted addition clashes when it is made |
| `SessionTable.TranslationInverse` | src/cmd/tun-gateway/main.go:255-271 | a frame from (conn, b) reaches the kernel under LciA, and what the kernel sends on LciA goes back to conn under b, with the GFI and everything behind the header untouched |
| `SessionManager.SessionManager.constructor` | src/session.go:59-80 | each bound is clamped into 1 to 4095 on its own side, and an empty result becomes the whole range |
| `SessionManager.SessionManager.AllocateTunLCI` | src/session.go:83-93 | the lowest LCI of the range that no session holds, or none exactly when all are held |
| `SessionManager.SessionManager.AddSession` | src/session.go:96-132 | the first failed check decides the error and changes nothing; otherwise all three maps change as specified |
| `SessionManager.SessionManager.NextFree` | src/session.go:149-173 | the scan in 16-bit arithmetic takes the LCI the ring picks; nothing overflows |
| `SessionManager.SessionManager.AllocateAndAddTunSession` | src/session.go:135-174 | an existing session is returned unchanged; exhaustion changes nothing; otherwise a new P1 session with the negotiated GFI is indexed and the cursor moves past its LCI |
| `SessionManager.SessionManager.RemoveByBConnLCI` | src/session.go:177-196 | the maps change as specified and no connection keeps an empty inner map |
| `SessionManager.SessionManager.RemoveSession` | src/session.go:199-217 | afterwards no index leads to the session |
| `SessionManager.SessionManager.GetByALCI` | src/session.go:220-224 | the answer sits under its own key and is registered |
| `SessionManager.SessionManager.GetByBConnLCI` | src/session.go:227-234 | the answer belongs to that connection and LCI and is registered |
| `SessionManager.SessionManager.GetSessionsForConn` | src/session.go:237-248 | exactly the sessions of the connection, each once |
| `SessionManager.SessionManager.GetAllSessions` | src/session.go:251-260 | exactly the registered sessions, each once |
| `SessionManager.SessionManager.RemoveAllSessions` | src/session.go:263-275 | empties all indexes in one step and returns exactly the sessions that were registered, each once |
| `TunGatewaySafety.HandedOverIsGone` | src/cmd/tun-gateway/main.go:398-414 | in every interleaving, once the reader has sent a kernel clear on a session's connection no index leads to the session, then or later |
| `TunGatewaySafety.NoClearAfterHandOver` | src/cmd/tun-gateway/main.go:57-71 | a cleanup CLEAR for a handed-over session comes from a snapshot taken before the hand-over; a later cleanup writes none |
| `TunGatewaySafety.EachSweptClearedOnce` | src/cmd/tun-gateway/main.go:73-83 | whenever no sweep is under way, the sessions ever swept and the sessions cleared by sweeps agree with multiplicity one |
| `TunGatewaySafety.NeverClearedTwice` | src/cmd/tun-gateway/main.go:73-83 | even with the reader's and the signal handler's sweeps overlapping, no session gets two sweep CLEARs |
| `TunGatewaySafety.ClearsNameTheirSession` | src/cmd/tun-gateway/main.go:57-83 | every CLEAR ever sent for a session carries the LCI of the side it goes to: the peer's for sweeps and hand-overs, the kernel's for cleanups |
| `TunGatewaySafety.RestartConfirmAfterSweep` | src/cmd/tun-gateway/main.go:316-349 | before a RESTART_CONFIRM on an operational link the reader saw a non-empty table and swept it, doing nothing but answer this one request from then to the confirm |
| `TunGatewaySafety.RunStaysExactIff` | src/cmd/tun-gateway/main.go:451-461 | a run of the whole gateway keeps the indexes in bijection exactly when no dialer adds a session on keys another one holds |
| `TunGatewaySafety.GuardHoldsIff` | src/cmd/tun-gateway/main.go:62-69 | after a guard that passed, the LCI leads to the session or to nobody up to any later point exactly when no accepted addition and no allocation hands it out before |
| `TunGatewaySafety.CleanupClearHitsOwn` | src/cmd/tun-gateway/main.go:62-69 | so a cleanup CLEAR hits nobody else unless its LCI was handed out between guard and write |
| `TunGatewayRuns.StaleClearHappens` | src/cmd/tun-gateway/main.go:62-69 | for every interceptable call on LCI 1: a run from the start, in the ordinary order of events, that ends with the stale CLEAR on the new call's LCI |
| `TunGatewayRuns.StaleClearInOtherOrder` | src/cmd/tun-gateway/main.go:62-69 | a run from the start that ends the same way, with the second dialer waiting before the first session is added and adding its own between the removal and the cleanup's write |
| `TunGatewayRuns.ClashHappens` | src/cmd/tun-gateway/main.go:451-461 | for every interceptable call on LCI 1: a run from the start in which a second dialer's addition overwrites the first session's LCI entry, so that it stays registered but is no longer found |
| `TunGatewayRuns.SomeCallsOnOne` | src/cmd/tun-gateway/main.go:363-378 | a call request that parses, and the two sessions its dialers make: these runs exist |
| `TunHandlers.Gateway.CloseAllSessions` | src/cmd/tun-gateway/main.go:73-83 | one CLEAR_REQUEST per registered session on its own connection and LCI, and empty indexes |
| `TunHandlers.Gateway.CleanupConn` | src/cmd/tun-gateway/main.go:57-71 | takes out exactly the connection's sessions; under the bijection the kernel gets one CLEAR for each that is past P1, and the bijection is kept |
| `TunHandlers.Gateway.PassDown` | src/cmd/tun-gateway/main.go:381-416 | a kernel clear leaves the session in no index, is confirmed if it is a request, and reaches the peer under the peer's LCI; states move to P4 or P5 |
| `TunHandlers.Gateway.Downlink` | src/cmd/tun-gateway/main.go:381-429 | dispatch by A-side LCI: for a session what PassDown does, confirmation and state included; without one the CLEAR for an unknown LCI and its three exceptions |
| `TunHandlers.Gateway.UplinkClear` | src/cmd/tun-gateway/main.go:219-237 | a peer's clear reaches the kernel under LciA; only a confirm removes the session |
| `TunHandlers.Gateway.Uplink` | src/cmd/tun-gateway/main.go:208-271 | a packet is written under the LciA of its session, found or allocated; a CALL_REQUEST always gets a fresh one; the peer is refused on a link that is down or a full range; the bijection is kept |
| `LoopTable.AddIff` | src/cmd/tun-loopback/main.go:125-129 | recording a call keeps the table consistent exactly when its endpoints differ and are free or held by a call with the same endpoints |
| `LoopTable.RemoveIff` | src/cmd/tun-loopback/main.go:132-136 | removing a call, live or not, keeps the table consistent exactly when each of its endpoints is free or held by a call with the same endpoints |
| `LoopTable.RemoveSparesIff` | src/cmd/tun-loopback/main.go:414-420 | it removes no other call exactly when each endpoint is free or still its own |
| `LoopTable.RecordedOwnsEndsIff` | src/cmd/tun-loopback/main.go:385-420 | over any interleaving after a call is recorded, its endpoints stay free or its own exactly as long as no other call is recorded on one of them |
| `LoopTable.LiveRemovable` | src/cmd/tun-loopback/main.go:476-484 | removing a live call is always safe and touches no other |
| `LoopTable.RemoveNodeExact` | src/cmd/tun-loopback/main.go:144-163 | tearing a node down removes exactly the calls touching it |
| `LoopTable.PeerInvolution` | src/cmd/tun-loopback/main.go:444-450 | LCI translation over live endpoints is an involution without fixed points, hence injective, self-calls included |
| `LoopTable.ReplyReturns` | src/cmd/tun-loopback/main.go:444-454 | a packet leaving x arrives under y's LCI, a reply from y comes back to x under x's LCI, and only the 12 LCI bits change |
| `LoopTable.SectionIff` | src/cmd/tun-loopback/main.go:385-420 | each critical section keeps the table consistent exactly when the slot it allocates is free and what it rolls back has not been reassigned |
| `LoopTable.RunConsistentIff` | src/cmd/tun-loopback/main.go:385-484 | over any interleaving of sections: consistent throughout exactly when every section was safe |
| `LoopTable.PartitionedRunConsistent` | src/cmd/tun-loopback/README.md:96-98 | given the documented LCI partition, every interleaving keeps the table consistent as long as no call is rolled back after another one was recorded on one of its endpoints |
| `LoopTable.RollbackTearsNewOwner` | src/cmd/tun-loopback/main.go:414-420 | rolling a call back after its LCI was reassigned leaves the new call half in the table with its LCI unreserved |
| `LoopRaces.OrderedRunConsistentIff` | src/cmd/tun-loopback/main.go:385-420 | with each reader's sections in program order and the LCI partition: consistent throughout exactly when no call is rolled back while another one, recorded since under the same relay LCI, is live |
| `LoopRaces.ReassignedIsTorn` | src/cmd/tun-loopback/main.go:414-420 | and where one is, the other call keeps its kernel slot and loses its relay slot and its reservation |
| `LoopRaces.RollbackRaceHappens` | src/cmd/tun-loopback/main.go:414-420 | a run of three nodes from the empty table, in program order and inside the partition, that is consistent until its last section, the rollback, tears a live call |
| `LoopRaces.LateRollbackHarmless` | src/cmd/tun-loopback/main.go:414-420 | that the other call is still live matters: a run in which the LCI was reassigned before the rollback, and nothing goes wrong |
| `LoopRelay.ClearedIsRemoveNode` | src/cmd/tun-loopback/main.go:144-163 | removing the listed calls one by one, in any order, removes the node exactly |
| `LoopRelay.ClearTargets` | src/cmd/tun-loopback/main.go:492-505 | a teardown clears one endpoint per call: distinct endpoints, each the peer of one on the node, and not on the node unless the call is a self-call |
| `LoopRelay.ClearsSent` | src/cmd/tun-loopback/main.go:492-511 | what a teardown hands to each node is one CLEAR_REQUEST per cleared endpoint on it, under that endpoint's LCI, after everything sent before |
| `LoopRelay.EndsAtOnce` | src/cmd/tun-loopback/main.go:492-505 | no LCI of a node is cleared twice, and the cleared ones are exactly the other ends of the removed calls |
| `LoopRelay.TeardownClearsOnce` | src/cmd/tun-loopback/main.go:492-511 | the three together: every node gets one CLEAR_REQUEST for each live call it has with the node that went down, and nothing else |
| `LoopRelay.RunKeepsLinksUp` | src/cmd/tun-loopback/main.go:266-352 | in runs of whole handlers the table stays consistent and every live call has both its nodes' links operational |
| `LoopRelay.PacketsOnlyToOperational` | src/cmd/tun-loopback/main.go:284-330 | apart from RESTART_CONFIRM no packet is handed to a node whose link was not operational when its cause arrived |
| `LoopRelay.AcceptedCallConnects` | src/cmd/tun-loopback/main.go:379-414 | an accepted call ties its LCI to an LCI that was free on the destination, both ways, and disturbs no other endpoint than the stale call's |
| `LoopRelay.PacketReachesPeer` | src/cmd/tun-loopback/main.go:426-488 | a packet goes to its peer endpoint alone, changed only in its LCI; a CLEAR_CONFIRM ends exactly that call and nothing else ends any |
| `LoopManager.Manager.constructor` | src/cmd/tun-loopback/main.go:109-117 | an empty table over the slot grid |
| `LoopManager.Manager.Get` | src/cmd/tun-loopback/main.go:120-122 | the slot holds what the table says |
| `LoopManager.Manager.Add` | src/cmd/tun-loopback/main.go:125-129 | both slots and the reservation change together |
| `LoopManager.Manager.Remove` | src/cmd/tun-loopback/main.go:132-136 | both slots and the reservation go together, unguarded |
| `LoopManager.Manager.RemoveAllForNode` | src/cmd/tun-loopback/main.go:144-163 | returns the calls touching the node, each once although it sits in two slots, and leaves every other call intact |
| `LoopHandlers.TunNode.AllocRelayLCI` | src/cmd/tun-loopback/main.go:64-77 | the 16-bit scan takes the LCI the ring picks; the cursor moves only on success |
| `LoopHandlers.Relay.constructor` | src/cmd/tun-loopback/main.go:199-232 | one node per route, each sent a Connect and waiting for it, with an empty table |
| `LoopHandlers.Relay.ClearAllForNode` | src/cmd/tun-loopback/main.go:492-505 | removes the node's calls and sends one CLEAR to each one's other end |
| `LoopHandlers.Relay.HandleRestart` | src/cmd/tun-loopback/main.go:337-352 | clears calls only on an operational link, confirms, and makes the link operational |
| `LoopHandlers.Relay.DecideCall` | src/cmd/tun-loopback/main.go:357-383 | the refusal causes: unparsable, no route, destination link not operational |
| `LoopHandlers.Relay.RecordCall` | src/cmd/tun-loopback/main.go:385-403 | evict the stale call, allocate on the destination, record: one critical section |
| `LoopHandlers.Relay.HandleCallRequest` | src/cmd/tun-loopback/main.go:357-421 | does what the relay specification allows, including the rollback on a failed write |
| `LoopHandlers.Relay.ForwardPacket` | src/cmd/tun-loopback/main.go:426-488 | does what the relay specification says, rewriting the header in place |
| `LoopHandlers.Relay.HandleFrame` | src/cmd/tun-loopback/main.go:270-331 | one pass of the reader loop is exactly one allowed step of the relay |
| `Wire.RewriteLci` | src/cmd/tun-loopback/main.go:453-454 | the in-place header rewrite sets exactly the LCI bits |
| `CallRelay.EachDirectionHandsOnExactly` | src/cmd/xot-gateway/main.go:290-405 | in every interleaving each direction has handed on, in order, the packets of its LCI up to and including the first clear; swallowed are, from the remote only, exactly the INTERRUPT_CONFIRMs of the call that met the in-flight flag up |
| `CallRelay.FlagWasSeen` | src/cmd/xot-gateway/main.go:329-333 | the flag recorded with each remote packet is the one in force at the step of the run that processed it |
| `CallRelay.KeepaliveCredit` | src/cmd/xot-gateway/main.go:407-446 | probe-flag sets minus swallowed INTERRUPT_CONFIRMs is one while the flag is up and zero otherwise; probes match sets up to the one being sent; none precedes a CALL_CONNECTED from the remote |
| `CallRelay.UnansweredProbeCloses` | src/cmd/xot-gateway/main.go:424-433 | a due tick that finds the flag up sends nothing in the rest of the run and only closes the relay |
| `CallRelay.QuitClosesOnce` | src/cmd/xot-gateway/main.go:266-273 | the quit channel is closed at most once, and exactly when quit has fired |
| `CallRelay.InternalStepsDescend` | src/cmd/xot-gateway/main.go:448-464 | every step of the relay's own goroutines descends in a rank that, once both connections are closed, only a tick can raise |
| `CallRelay.NeverStuck` | src/cmd/xot-gateway/main.go:266-282 | before quit or stop a direction is reading or can step, or the waiter can; afterwards a step is possible until all goroutines have exited |
| `CallRelay.OwnStepsBounded` | src/cmd/xot-gateway/main.go:290-464 | over every schedule and between any two points of a run, the relay's goroutines take no more steps than the rank at the first point plus three for each read packet and due tick and one for each oversized read in between |
| `CallRelay.IdleIsFinished` | src/cmd/xot-gateway/main.go:448-464 | after quit or stop all goroutines have exited exactly when none can step |
| `CallRelay.EveryScheduleDrains` | src/cmd/xot-gateway/main.go:448-464 | left to themselves after quit or stop, in whatever order they run, they exit within a number of steps fixed by the program points |
| `CallRelay.RunDrains` | src/cmd/xot-gateway/main.go:448-464 | and possible steps lead there from any point of a run after quit or stop |
| `RelayLoop.EndingIsClear` | src/cmd/xot-server/main.go:317-336 | the loop returns on a clear exactly when it handed one on, as its last packet |
| `RelayLoop.QuitLatch.CloseRelay` | src/cmd/xot-server/main.go:263-270 | closes once |
| `RelayLoop.RelayDirection` | src/cmd/xot-server/main.go:288-393 | the loop sends what a direction hands on, then the CLEAR for an oversized packet on the source connection, and closes the relay on errors and confirms only |
| `Wire.RelabelFrame` | src/cmd/tun-gateway/main.go:269-270 | the rewrite sets the 12 LCI bits and leaves the GFI, the type and the rest alone |
| `Wire.RelabelUndo` | src/cmd/tun-gateway/main.go:269-270 | rewriting there and back restores every bit |
| `Wire.SerializeParsed` | src/x25.go:83-98 | serializing a parsed packet reproduces it |
| `Wire.ParseSerialized` | src/x25.go:326-333 | a packet survives the wire exactly when its GFI fits 4 bits and its LCI 12 |
| `CallRequest.UnpackPacked` | src/x25.go:190-208 | packed nibbles unpack to themselves |
| `CallRequest.CallRoundTrip` | src/x25.go:276-323 | for all hex addresses of up to 15 digits, facilities and user data: the packed call request parses back, with digits in lower case |
| `CallRequest.LowerCaseRoundTrip` | src/x25.go:276-323 | lower-case addresses, all that a parser delivers, come back unchanged |
| `CallRequest.ReencodeAddresses` | src/x25.go:386-415 | re-encoding a parsed address block is the identity up to the pad nibble |
| `CallRequest.Decode` | src/x25.go:391-408 | the decoding closure reads the given nibbles, stopping at the end of the data |
| `CallRequest.ParseCallPacket` | src/x25.go:370-497 | both call parsers, error cases included |
| `CallRequest.EncodeInto` | src/x25.go:282-306 | or-ing digits into a zeroed buffer from any nibble on writes exactly those nibbles |
| `CallRequest.EncodeAddresses` | src/x25.go:279-309 | the two addresses together fill the block with their packed digits |
| `CallRequest.EncodeBCD` | src/x25.go:190-208 | packs one address so that it decodes back |
| `PingEncoder.PingPackIff` | src/cmd/x25_ping/main.go:70-112 | x25_ping's block is the packed one exactly when no upper-case digit stands in a low half behind a digit other than e or f |
| `PingEncoder.PingRoundTripIff` | src/cmd/x25_ping/main.go:70-112 | its call request carries what it was given exactly when every length fits its field and the addresses are of that kind; facilities and user data survive whenever the lengths fit |
| `PingEncoder.PingMangles` | src/cmd/x25_ping/main.go:70-112 | the concrete address that does not survive |
| `PingEncoder.WriteNibbles` | src/cmd/x25_ping/main.go:77-97 | the closure with its moving nibble index fills the block |
| `PingEncoder.BuildCallRequest` | src/cmd/x25_ping/main.go:70-112 | the packet it builds from addresses of any length, with lengths truncated to their fields |
| `Facilities.AnyOrderDecodes` | src/x25.go:265-274 | re-encoding the facility map in any iteration order gives a list that stands for it |
| `Facilities.OverrideOrderIrrelevant` | src/x25.go:252-263 | the order in which configured overrides arrive does not matter while two spellings of a code agree |
| `Facilities.InjectionIff` | src/x25.go:212-323 | with overrides of class length in classes A to C: only the facilities change, to the old ones overridden by the new ones, exactly when the list fits its length byte |
| `Facilities.InjectionOverflows` | src/x25.go:312-318 | a call request and a valid override whose list does not fit, and what arrives instead |
| `Facilities.ReadFacilities` | src/x25.go:222-250 | the parse loop: the last value of a repeated code wins and a truncated entry ends the list |
| `Facilities.ApplyOverrides` | src/x25.go:252-263 | undecodable overrides are skipped |
| `Facilities.WriteFacilities` | src/x25.go:265-274 | every entry of the map is written once, in some order, and the list stands for the map |
| `Facilities.X25Packet.InjectFacilities` | src/x25.go:212-323 | the payload becomes the specified one for some iteration order; on a parse error nothing changes |
| `DataPacket.DataReadsBack` | src/x25.go:556-579 | a DATA packet reads back with its sequence numbers reduced to the modulus, M bit and data, and never looks like a control packet |
| `DataPacket.CreateData` | src/x25.go:556-579 | the buffer holds that packet |
| `Framing.StreamRoundTripIff` | src/xot.go:91-205 | for any list of packets: repeated reads of the concatenated sends return the list exactly when each is at most the maximum packet size and at most the buffer |
| `Framing.MessageRoundTripIff` | src/xot.go:134-205 | the same for one message of a packet connection, read into the pooled buffer |
| `Framing.Connection.SendXot` | src/xot.go:91-130 | appends what the round trips read, by one write or two; a packet of 65536 bytes or more goes out under its wrapped length, cut to it in a single write |
| `Framing.Connection.ReadXotInto` | src/xot.go:134-205 | one read from a stream: its result, what is left, and for an oversized packet cut short the stale bytes of the buffer |
| `Framing.Connection.ReadOneMessage` | src/xot.go:134-205 | one read from a packet connection |
| `TunFrames.ForeignFramesSkipped` | src/tun/tun.go:212-231 | reading returns exactly the frames written, in order, whatever foreign or short frames lie between |
| `TunFrames.TunDevice.ReadFrame` | src/tun/tun.go:212-231 | the skip loop returns the next recognised frame |
| `TunFrames.TunDevice.WriteFrameInto` | src/tun/tun.go:247-264 | success means one whole encoded frame reached the device; a failed or short write reports an error and leaves at most a part of it |
| `Routing.RouteUnique` | src/config.go:375-398 | at most one answer is the first entry with the longest matching prefix |
| `Routing.FindServer` | src/config.go:375-398 | the server loop finds it, malformed prefixes skipped |
| `Routing.FindNode` | src/cmd/tun-loopback/main.go:514-524 | the node loop finds it |
| `Config.ClampRange` | src/config.go:114-139 | defaults for zero bounds, then clamping, then the default range unless the start is below the end; so the range always has two usable LCIs |
| `Config.ValidateDestinations` | src/config.go:417-458 | keeps exactly the acceptable overrides and the destinations that have any |
| `Config.OversizedValueSpills` | src/config.go:417-458 | the class D value that validation lets through, one over 255 bytes, always makes the rewritten list too long |
| `Config.ConfiguredInjectionIff` | src/config.go:417-458 | for every validated destination the injection theorem needs only the 255-byte limit of the list |

## Left out

- TUN set-up, ioctls, routes, inotify, signals and process exit: foreign calls. In `GetServer` everything after the prefix choice: DNS, regular expressions, local addresses.
- JSON loading, address strings, expvar counters, logs, traces and text formatting; buffer pools, TCP options, real time. A tick is an event that may come at any moment.
- The dashboard, the stress test, tun-listener and the probe loop of x25_ping: sockets and timing.
- TunGateway.Next: connection frames shorter than the two LCI bytes are excluded; the code would index past their end when it rewrites their header. Closing a connection shows only as its reader failing, which may happen at any time.
- TunHandlers.Gateway.Downlink: one kernel frame without interference; the interleaved steps are those of `TunGateway`. The interception of a CALL_REQUEST by `forwardToGateway` is in `TunGateway` only.
- LoopRelay.Allowed: a one-byte packet is excluded while its node has a call on LCI 0, where the code indexes past its end; otherwise it is dropped as in the code.
- LoopRelay.RunKeepsLinksUp: handlers run one at a time, as stated; interleaved critical sections are the subject of `LoopTable`, where link states are not modelled.
- LoopManager.Manager: the lock-free slot loads are plain reads, since each handler there runs alone.
- CallRelay.EachDirectionHandsOnExactly: counts a packet as handed on when it is passed to `SendXot`, whether or not the connection still accepts it.
- CallRelay.RunDrains: assumes the runtime schedules an enabled goroutine; blocking sends are not modelled.
- Framing.Connection.SendXot: on a packet connection, a length that is over the maximum packet size after wrapping is excluded; there the code slices past the end of its pooled buffer.
- Config.ClampRange: the tun-loopback clamp (src/config.go:147-167) is the same code on other fields.
- PingEncoder.BuildCallRequest: its arguments come from flags; only the packet is modelled.

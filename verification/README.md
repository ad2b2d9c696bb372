# SecureTunnel: a verified model

SecureTunnel carries IP packets between a client and a server: a virtual network interface on each side, an inner
session that numbers and seals packets, and a QUIC stream that carries sealed packets as length-prefixed frames.
On Windows the client also edits the forwarding table so that traffic reaches the tunnel. This project models those
four layers in Dafny 4.11 and proves what they keep over whole runs. `dafny verify dfyconfig.toml` checks it.

- `Bytes`, `Framing`, `SendGate`: big-endian integers; framing and reassembly of the byte stream; the gate through which
  concurrent senders share the stream (`src/quic_secure_transport.cpp`).
- `InnerFrame`, `InnerSession`, `HexKeys`: the development and the AES-GCM frame formats, the send counter, the receive
  mark, key decoding (`src/inner_session.cpp`). AES-GCM is a pair of functions; what is needed of it is the predicate
  `Aead.Ideal`, which a lemma shows to be satisfiable.
- `SessionStates`, `Engine`, `TunnelEngine`, `EngineAnswers`, `EngineTrace`, `EngineRoutes`, `EngineWorld`,
  `EngineRecovery`, `EngineReplay`: the session state machine and the tunnel engine (`src/session.cpp`, `src/tunnel_engine.cpp`). The
  engine's three collaborators are a table of functions over an arbitrary state type, as the C++ interfaces are tables
  of virtual functions, so its theorems hold for all devices. A history of calls is kept beside the state and read by
  an independent monitor.
- `DevelopmentLink`: the development adapters and two engines joined by them (`src/development_adapters.cpp`).
- `Ipv4`, `NetConfig`, `RouteRestoration`, `TextLists`, `ListEntries`, `SmartRoutes`, `Wintun`, `WintunRuns`,
  `RouteWorker`: masks, the route configurator over a forwarding table, list files, smart routing, the Wintun interface
  alone and under an engine, and the refresh worker (`src/windows_net_config.cpp`, `src/smart_route_manager.cpp`,
  `src/wintun_virtual_interface.cpp`). Address notation is a pair of functions whose laws, `Inet.Lawful` and `Plain`, a
  lemma shows to be satisfiable.

Functions specify; classes and methods with loops implement them where the source updates state, and are proved equal to
them; lemmas state what the functions guarantee. Threads (`SendGate`, `RouteWorker`) are state machines whose theorems
hold for every list of atomic steps. What the surroundings answer (system calls, network, name resolution, files) is a
parameter that theorems quantify over.

Where a promise is not true of the code, the exact condition is proved instead:

- Reassembly does not depend on how the stream was split if and only if no byte follows the first illegal length header
  (`Framing.ChunkIndependentIff`).
- A reset for the next client empties the queue of frames and keeps the reassembly buffer. The next stream, if it runs
  into no illegal header, arrives unchanged if and only if nothing was left over there (`Framing.NextClient`, with clients
  that are not heard at all in `Framing.NextClientUnheard`).
- The bytes that leave are whole accepted frames in order unless a sender gave up waiting for a completion while bytes of
  its buffer remained to be read (`SendGate.GateSafety`). The buffer dies with the call, so the bytes read next are sure
  to be right if and only if no outstanding send is in that case (`SendGate.NextBytesSoundIff`, with a run that gets
  there in `SendGate.TimeoutSpoils`).
- The wait in `stop` of the smart route manager is bounded by the routes of the list entry the worker is in, and by no
  number beforehand: the stop flag is not tested between the addresses of a domain (`RouteWorker.StopIsBounded`,
  `RouteWorker.NoUniformBound`).
- Two applications of routing are always separated by a clearing if and only if the engine is a client
  (`EngineRoutes.SeparatedIffClient`). A valid server configuration has routing off (`src/config.cpp:67-76`), and then
  no run of either role touches the host (`WintunRuns.RoutingOffTouchesNothing`).
- An engine can be started again after a stop if and only if it was not stopped in mid-handshake
  (`EngineRecovery.RestartIff`): the settling step at `src/tunnel_engine.cpp:302-305` has no case for that state. A server
  stopped while it waits for a client therefore stays there through any starts, stops and resets
  (`EngineRecovery.StoppedWhileWaiting`), and through relays too if its transport opens no channel once closed
  (`EngineRecovery.StoppedForGood`).
- Clearing takes back every applied row if and only if no row is stranded. A row is stranded when its record is
  overwritten (`RouteRestoration.BypassStrandsIff`, with a run in `RouteRestoration.SecondBypassLeaks`) or when the system
  refuses its deletion, whose answer the code discards (`RouteRestoration.RefusedRowStays`). Clearing restores the initial
  table if and only if the stranded rows are the applied ones that had been there before
  (`RouteRestoration.RestorationIff`).
- The endpoint's traffic stays out of the tunnel if and only if the tunnel had no host route for the endpoint and none of
  the routes applied after the bypass gives it one (`RouteRestoration.EndpointAvoidsTunnelIff`). A list target that is the
  endpoint itself does (`RouteRestoration.ListedEndpointLoops`).
- After a pass over the lists an address goes to the tunnel if and only if a listed entry that contains it, the host route
  of a listed domain that resolves to it, or an earlier tunnel row has a prefix at least as long as every row of another
  interface that matches it (`SmartRoutes.ListCoverage`); being listed is enough only over default routes
  (`SmartRoutes.ListCoverageOverDefaults`).
- Each payload is delivered at most once if frames arrive as they were sealed (`InnerSession.ReplayDelivers`). Neither
  format protects the number in the header (`InnerFrame.HeaderNumberIsFree`): of frames under any header numbers those
  are accepted whose number exceeds the mark and all numbers before it (`InnerSession.RelabelledFilter`), so two arrivals
  of one sealed frame are both delivered if and only if that holds of each (`InnerSession.DeliveredTwiceIff`).
  Comparing header and nonce would exclude it.
- An engine keeps its inner session across resets, so all payloads of a peer that starts over are delivered if and only
  if the mark was still zero; otherwise as many are refused as the mark says (`InnerSession.FreshPeerIsDelayed`), each at
  the cost of an open error and the rest of a batch (`EngineReplay.FreshPeerCostsErrors`).
- Sequence numbers increase if and only if fewer than 2^64 were consumed (`InnerSession.CounterAndNonces`).

## Model

| member | source | states |
|---|---|---|
| Bytes.WriteU64 | src/inner_session.cpp:48-52 | the shifting loop appends exactly the eight base-256 digits of the number, most significant first |
| Bytes.ReadU64 | src/inner_session.cpp:59-65 | the accumulating loop yields the number that the eight octets denote |
| Bytes.ValueOfBigEndian | src/inner_session.cpp:48-71 | reading inverts writing for every number that fits the width |
| Bytes.BigEndianOfValue | src/inner_session.cpp:48-71 | writing inverts reading for every octet string |
| Framing.FillSendBuffer | src/quic_secure_transport.cpp:654-660 | the filled buffer is the four-octet length followed by the payload |
| Framing.StreamChannel.Append | src/quic_secure_transport.cpp:103-136 | one receive event queues exactly the frames that cutting the buffered and new bytes yields and keeps exactly the residue; frames have 1 to 65536 bytes, at most 65539 bytes stay |
| Framing.StreamChannel.TryReceive | src/quic_secure_transport.cpp:697-717 | frames leave in order; an empty queue gives an empty payload, a closed channel nothing |
| Framing.StreamChannel.ResetForNextClient | src/quic_secure_transport.cpp:735-738 | the queue is emptied and the reassembly buffer kept, as NextClient assumes |
| Framing.DrainBounds | src/quic_secure_transport.cpp:114-135 | for arbitrary bytes every frame has 1 to 65536 bytes and the residue at most 65539 |
| Framing.DrainAppend | src/quic_secure_transport.cpp:103-136 | cutting early and cutting again with more bytes is cutting once, up to an illegal header |
| Framing.DrainConserves | src/quic_secure_transport.cpp:114-135 | no byte is lost or invented: frames with their headers and the residue, or the illegal header and what follows it, make up the input |
| Framing.DrainWire | src/quic_secure_transport.cpp:103-136 | cutting inverts framing, whatever bytes follow |
| Framing.FeedBroken | src/quic_secure_transport.cpp:114-123 | with an illegal header, the frames before it are delivered, the rest of the completing event is lost, and later events are cut as a fresh stream |
| Framing.BreakingPoint | src/quic_secure_transport.cpp:114-123 | the completing event is the one before which the received bytes were legal and after which they are not |
| Framing.SameFramesBeforeBadHeader | src/quic_secure_transport.cpp:103-136 | two splittings of a stream agree on all frames before the first illegal header, and wholly if there is none |
| Framing.ChunkIndependentIff | src/quic_secure_transport.cpp:114-123 | a stream is received alike under all splittings iff no byte follows its first illegal header |
| Framing.PrefixOfWire | src/quic_secure_transport.cpp:103-136 | any initial part of a framed stream in any chunks yields an initial part of the payloads and keeps the rest |
| Framing.NextClient | src/quic_secure_transport.cpp:735-740 | behind left-over bytes of its predecessor a client's stream, if no illegal header arises, loses no byte but arrives unchanged iff nothing was left over; nothing is delivered if the left-over header waits for more than the whole stream |
| Framing.NextClientSwallowed | src/quic_secure_transport.cpp:735-740 | a left-over header that waits for exactly the first k frames swallows them into one frame that nobody sent |
| Framing.NextClientUnheard | src/quic_secure_transport.cpp:735-740 | behind a left-over header for 65536 bytes no stream of fewer bytes delivers anything |
| SendGate.GateSafety | src/quic_secure_transport.cpp:654-694 | over every interleaving of senders, partial reads by the library, completions, failures and timeouts: at most one send outstanding, flag false exactly when one is while the mutex is free, a caller told success has a completed send, the buffer of an outstanding send exists iff its sender has not given up; and unless one gave up with bytes unread, any receiver cuts the accepted payloads out of the wire in order |
| SendGate.NextBytesSoundIff | src/quic_secure_transport.cpp:670-691 | what the library reads next are the right bytes, whatever it is, iff the outstanding send is not one whose sender gave up with bytes unread |
| SendGate.TimeoutSpoils | src/quic_secure_transport.cpp:685-691 | a run in which a completion timeout leaves an outstanding send without its buffer |
| SendGate.FlagStep | src/quic_secure_transport.cpp:195-198 | each step, the unlocked completion callback included, keeps the agreement between flag and outstanding send |
| SendGate.CompletionOpens | src/quic_secure_transport.cpp:195-198 | once its bytes are read, the completion of the outstanding send makes the flag true and leaves nothing in flight |
| SendGate.WaitEnds | src/quic_secure_transport.cpp:685-693 | with the mutex free a waiting sender leaves: confirmed if the flag is true, unconfirmed on a timeout, without its buffer in both cases |
| SendGate.GateAnswers | src/quic_secure_transport.cpp:662-668 | with the mutex free a sender at the gate passes if the flag is true and gives up on a timeout if not |
| SendGate.RefusalReopens | src/quic_secure_transport.cpp:676-683 | a refused hand-over reopens the flag and frees the mutex with nothing sent |
| SendGate.CallDelivers | src/quic_secure_transport.cpp:654-694 | with a free gate an undisturbed call appends its frame to the wire, is told success and leaves the gate free |
| SendGate.AlwaysDeliverable | src/quic_secure_transport.cpp:654-694 | no deadlock: from every reachable state some schedule delivers and confirms the legal payload of any idle sender |
| InnerFrame.DevelopmentFaithful | src/inner_session.cpp:79-127 | every payload of at most 2048 bytes under every number prints to a frame the framing layer takes and that parses back to both |
| InnerFrame.EncryptedFaithful | src/inner_session.cpp:188-326 | the same for the encrypted layout, given a cipher that decrypts what it encrypted |
| InnerFrame.DevParserAgainstPrinter | src/inner_session.cpp:96-127 | for arbitrary bytes, the development parser accepts a frame as a number and payload iff their canonical encoding is a prefix of it |
| InnerFrame.AeadParserAgainstPrinter | src/inner_session.cpp:249-326 | for arbitrary bytes, the encrypted parser accepts a frame as a number and payload iff version, sizes and header number are right and the cipher opens the rest to a text that begins with the payload's encoding |
| InnerFrame.HeaderNumberIsFree | src/inner_session.cpp:268-300 | under every ideal cipher a sealed frame with any number put into its header parses to the same payload under that number; header and nonce agree iff the number is the sealed one |
| InnerFrame.DevelopmentHeaderIsFree | src/inner_session.cpp:79-127 | the same of the development format |
| InnerSession.DevelopmentInnerSession.SealInto | src/inner_session.cpp:79-94 | the new counter and the vector are those of sealing; a rejected payload changes neither |
| InnerSession.DevelopmentInnerSession.OpenInto | src/inner_session.cpp:96-127 | the new mark and the vector are those of opening; a rejection changes neither, an acceptance raises the mark |
| InnerSession.BcryptInnerSession.SealInto | src/inner_session.cpp:188-247 | the same for the encrypted session; a failed encryption has consumed its number |
| InnerSession.BcryptInnerSession.OpenInto | src/inner_session.cpp:249-326 | the same for the encrypted session, with its key and buffer checks |
| InnerSession.SessionAnswers | src/inner_session.cpp:79-127 | a ready session seals exactly payloads of at most 2048 bytes, under the number after the last, and opens exactly frames that parse to a number above the mark; a refusal leaves it unchanged |
| InnerSession.EndToEnd | src/inner_session.cpp:79-127 | for every faithful format: sealing fewer than 2^64 payloads with a fresh session, framing, any chunking of any part of the stream, reassembling and opening with a fresh peer yields the payloads in order, all of them for the whole stream |
| InnerSession.ReplayFilter | src/inner_session.cpp:249-273 | under loss, repetition and reordering a frame is accepted iff its number exceeds all delivered before it, and then yields its payload |
| InnerSession.ReplayDelivers | src/inner_session.cpp:96-127 | the delivered payloads are those of an increasing list of distinct sealed positions |
| InnerSession.AcceptedIncrease | src/inner_session.cpp:109-122 | against arbitrary bytes the accepted numbers strictly increase above the initial mark |
| InnerSession.RelabelledFilter | src/inner_session.cpp:268-324 | of sealed frames in any order under any header numbers, a session with any mark accepts the i-th iff its header number exceeds the mark and all header numbers before it, and then delivers the payload it was sealed with |
| InnerSession.DeliveredTwiceIff | src/inner_session.cpp:268-324 | two arrivals of one sealed frame are both delivered iff each header number is such a maximum, so never under the numbers they were sealed with |
| InnerSession.DeliveredTwice | src/inner_session.cpp:268-324 | a sealed frame followed by itself under any larger number is delivered twice by a fresh session |
| InnerSession.FreshPeerIsDelayed | src/inner_session.cpp:268-273 | of the frames of a fresh peer, a session with mark m delivers exactly those after the first m |
| InnerSession.CounterAndNonces | src/inner_session.cpp:188-230 | over any attempts, rejected and failed ones included, numbers increase iff fewer than 2^64 were consumed and the 12-byte nonces differ iff at most 2^64 were, as section 8 of NIST SP 800-38D requires |
| HexKeys.DecodeHexKey | src/inner_session.cpp:32-46 | accepts exactly 64 hexadecimal digits and yields the octets they spell |
| HexKeys.DecodeHexBuffer | src/quic_secure_transport.cpp:78-93 | accepts any even length that fits and yields the octets spelled, other characters counting as zero |
| HexKeys.HexRoundTrip | src/inner_session.cpp:19-46 | a printed key spells itself, and a string spells at most one key, so the decoders agree where both accept |
| HexKeys.CaseInsensitive | src/inner_session.cpp:19-30 | a string and its upper-case form spell the same octets, and one is hexadecimal iff the other is |
| HexKeys.DigitsAre | src/inner_session.cpp:19-30 | the digits are exactly the twenty-two hexadecimal characters |
| SessionStates.Session.TransitionTo | src/session.cpp:17-36 | moves along the allowed transitions only, counting entries to established |
| SessionStates.Session.ResetToHandshaking | src/session.cpp:38-52 | from every state ends in handshaking without a new epoch |
| SessionStates.MovesAre | src/session.cpp:17-36 | the eleven allowed moves: the life cycle, the ways back to rest, and failure from everywhere but rest |
| SessionStates.EpochCountsEntries | src/session.cpp:17-36 | over any attempts the epoch counts the entries to established, each directly after handshaking |
| TunnelEngines.TunnelEngine.StartEngine | src/tunnel_engine.cpp:28-90 | the object's start has exactly the outcome, session, statistics and order of calls that StartAnswer, ClientRoutesAreSafe, Conservation and ClientEpoch are proved of |
| TunnelEngines.TunnelEngine.EnsureSessionReady | src/tunnel_engine.cpp:92-114 | a waiting server opens the channel, applies routing and becomes established or failed as ServerLoopMoves and SeparatedIffClient say |
| TunnelEngines.TunnelEngine.ForwardOutbound | src/tunnel_engine.cpp:116-140 | the object's outbound step is the one whose answer RelayAnswer ties to the devices, whose packets and errors Conservation balances and whose frame OutboundSends predicts |
| TunnelEngines.TunnelEngine.ForwardInboundBatch | src/tunnel_engine.cpp:142-174 | the loop makes the turns that RelayInbound counts, and returns the number forwarded |
| TunnelEngines.TunnelEngine.Relay | src/tunnel_engine.cpp:180-201 | the object's relay is the one that RelayAnswer, RelayInbound, Conservation, RunKeeps and Lockstep are proved of |
| TunnelEngines.TunnelEngine.RunDataPlane | src/tunnel_engine.cpp:203-260 | the loop makes as many passes as the deadline allows, with stop requests arriving before or during a pass: the passes of ServerLoopMoves, ServerRecovers and ClientLoop |
| TunnelEngines.TunnelEngine.ResetServerSession | src/tunnel_engine.cpp:266-280 | resets a server's transport and session, as ServerRecovers and FailedRecovers need, and leaves a client alone |
| TunnelEngines.TunnelEngine.StopEngine | src/tunnel_engine.cpp:282-306 | clears routing before it closes the transport and then the interface, as StopCloses and ClientRoutesAreSafe say, and settles the session as RestartIff says |
| EngineAnswers.StartAnswer | src/tunnel_engine.cpp:28-90 | a start succeeds iff every call it makes answers yes; then the stop flag is cleared, a server waits and a client is established in a new epoch; a start that fails leaves the flag alone and the session failed if it began; an inner session exists afterwards iff there was one or it could be created, and then the statistics are zeroed |
| EngineAnswers.RelayAnswer | src/tunnel_engine.cpp:116-140 | a relay of an established node answers yes iff it has an inner session and what the interface offers, if anything, is sealed and taken by the transport; otherwise it counts one seal or transport error and makes no inbound call |
| EngineAnswers.TurnAnswer | src/tunnel_engine.cpp:142-174 | a turn of the inbound loop forwards iff a frame was waiting, opened to a packet, and the interface took it; each failure is counted under its own kind |
| EngineAnswers.RelayInbound | src/tunnel_engine.cpp:142-201 | after a successful outbound half turns are made until one forwards nothing or as many have as the batch allows, one at least |
| EngineAnswers.StopCloses | src/tunnel_engine.cpp:282-306 | a stop leaves the routes cleared, the transport closed and the interface closed, in this order, and no pass is made until a start succeeds |
| EngineTrace.Conservation | src/tunnel_engine.cpp:116-201 | every run of either role on any devices: packets read and frames received since the statistics were zeroed equal forwarded plus errors, byte counters equal the sizes forwarded, data moves only while established, the epoch counts the entries |
| EngineRoutes.ClientRoutesAreSafe | src/tunnel_engine.cpp:45-90 | every client run on any devices: routing is applied only over a completed handshake and open channel, cleared before the engine closes the transport, never applied twice without a clearing, and not applied while stopped |
| EngineRoutes.SeparatedIffClient | src/tunnel_engine.cpp:92-114 | that separation holds for all devices and runs iff the role is client; the server's run applies routing successfully, is reset, and applies it again |
| EngineWorld.RunKeeps | src/tunnel_engine.cpp:28-306 | any description of the devices as bare, idle or live that they honour call by call is honoured by every run: an inner session is created on bare devices only, and a stop leaves them idle |
| EngineRecovery.ServerLoop | src/tunnel_engine.cpp:203-260 | a server that started is at every loop head handshaking, established or failed |
| EngineRecovery.ServerPass | src/tunnel_engine.cpp:210-249 | one pass takes a server from a loop head to a loop head and goes on unless a stop was requested |
| EngineRecovery.ServerRecovers | src/tunnel_engine.cpp:233-249 | an established server whose devices do not forward resets the transport of the world the relay left, handshakes again in the same epoch and goes on; if they do it stays established; a stop request by then ends the loop instead |
| EngineRecovery.FailedRecovers | src/tunnel_engine.cpp:222-231 | a failed server is reset in one pass unless a stop was requested |
| EngineRecovery.ServerLoopMoves | src/tunnel_engine.cpp:203-260 | between any two heads of its loop a server moves as the answers of its devices tell: established to handshaking exactly if they did not forward, handshaking to established, failed or handshaking by channel, routing and forwarding, failed to handshaking |
| EngineRecovery.ClientPass | src/tunnel_engine.cpp:233-249 | a pass of an established client goes on iff the devices forward; after one in which they do not the session is failed unless a stop was requested by then |
| EngineRecovery.ClientLoop | src/tunnel_engine.cpp:203-260 | the client's loop ends with a failed session iff some pass is the first in which the devices do not forward and no stop was requested until then; otherwise the session stays established |
| EngineRecovery.ClientEpoch | src/tunnel_engine.cpp:82-90 | a client gains an epoch exactly by a start that succeeds |
| EngineRecovery.RestartIff | src/tunnel_engine.cpp:282-306 | a stopped engine can connect again iff it was not stopped while connecting or handshaking |
| EngineRecovery.StoppedWhileWaiting | src/tunnel_engine.cpp:282-306 | a server stopped while it waits for a client stays handshaking through any starts, stops and resets, and none of those starts succeeds |
| EngineRecovery.StoppedForGood | src/tunnel_engine.cpp:282-306 | if its transport opens no channel once closed, such a server stays handshaking in every run, relays and data-plane loops included |
| EngineReplay.StoppedOnLink | src/development_adapters.cpp:85-91 | the development transport is of that kind |
| EngineReplay.StopClosesEnd | src/development_adapters.cpp:68-71 | a stop closes an end's interface and empties its slot, disconnects its transport, and touches neither its session nor the peer nor the queues |
| EngineReplay.AcceptedAcrossResets | src/tunnel_engine.cpp:34-39 | every run of either role on any interface and transport, with the session given or created by start: across failures, resets and restarts the accepted numbers strictly increase, and a frame bearing one of them is refused, because start creates a session only where none exists |
| EngineReplay.AcceptedOnLink | src/tunnel_engine.cpp:266-280 | the same for an end of the development link from a new link on |
| EngineReplay.RefusedEndsBatch | src/tunnel_engine.cpp:156-160 | a frame the session refuses costs one open error and ends the batch, whatever its size |
| EngineReplay.FreshPeerCostsErrors | src/tunnel_engine.cpp:142-174 | an end that kept its session meets a peer that starts over: until the mark is reached, each batch of any size takes one frame, counts one open error and delivers nothing |
| EngineReplay.FreshPeerIsHeard | src/tunnel_engine.cpp:142-174 | the first payload of that peer to be delivered is the one after as many as the mark says |
| DevelopmentLink.DevelopmentVirtualInterface.ReadPacket | src/development_adapters.cpp:47-55 | reading empties the slot of an open interface; placed in a link, it is the read that Lockstep is proved of |
| DevelopmentLink.DevelopmentVirtualInterface.WritePacket | src/development_adapters.cpp:57-66 | writing a non-empty packet to an open interface overwrites the slot; placed in a link, it is the write of Lockstep |
| DevelopmentLink.DevelopmentSecureTransport.SendPayload | src/development_adapters.cpp:93-107 | what a connected end sends joins the end of its peer's inbox and leaves its own alone; placed in a link, it is the send of Lockstep |
| DevelopmentLink.DevelopmentSecureTransport.TryReceivePayload | src/development_adapters.cpp:109-125 | payloads leave the own inbox in order, an empty inbox gives an empty payload, an unconnected end nothing; placed in a link, it is the receive of Lockstep |
| DevelopmentLink.OutboundSends | src/tunnel_engine.cpp:116-140 | an end with a packet in its slot seals it under the next number and appends the frame to the peer's queue |
| DevelopmentLink.InboundTakes | src/tunnel_engine.cpp:142-174 | one acceptable frame waiting is opened into the slot, whatever the batch size |
| DevelopmentLink.Lockstep | tests/relay_benchmark_tests.cpp:56-84 | from a fresh link, after any number of rounds below 2^64 with any packets of 1 to 2048 bytes and any batch sizes: all relays succeed without error, the four counters are n, n, n-1 and n-2, and the server's slot holds the last packet |
| Ipv4.MaskedValue | src/smart_route_manager.cpp:121-125 | the bitwise mask rounds an address down to a multiple of 2^(32-p) |
| Ipv4.MaskedTwice | src/windows_net_config.cpp:432-436 | masking in the parser and again in the configurator is masking once |
| Ipv4.BlockIsInterval | src/smart_route_manager.cpp:121-125 | an address is in a block iff it lies between the network address and the next block |
| Ipv4.NetworkIsLeast | src/smart_route_manager.cpp:121-125 | the network address is the least address of its block and belongs to it |
| Ipv4.SameRowIffSameBlock | src/windows_net_config.cpp:426-436 | two entries give the same destination and prefix iff they name the same set of addresses |
| NetConfig.SelectGateway | src/windows_net_config.cpp:305-323 | the scan with its four skips finds the row that BestIsFirstLeast characterises |
| NetConfig.BestIsFirstLeast | src/windows_net_config.cpp:305-323 | the best row is the first of the eligible non-tunnel default rows with the least metric, and missing only if none is eligible |
| NetConfig.WindowsNetConfigurator.ApplyEndpointBypassRoute | src/windows_net_config.cpp:267-372 | record and table after every branch are those that BypassStrandsIff and EndpointAvoidsTunnelIff are proved of |
| NetConfig.WindowsNetConfigurator.ApplyGlobalDefaultRoute | src/windows_net_config.cpp:374-406 | record and table after every branch are those that DefaultStrandsIff is proved of |
| NetConfig.WindowsNetConfigurator.ApplyPrefixRoute | src/windows_net_config.cpp:408-474 | the duplicate scan leaves a recorded key alone; record and table are those that PrefixAccounted and PassRefinesSet are proved of |
| NetConfig.WindowsNetConfigurator.ClearClientRoutes | src/windows_net_config.cpp:476-524 | deletes exactly the recorded rows the system allows to delete, strands the others, and forgets all |
| RouteRestoration.BypassAnswer | src/windows_net_config.cpp:267-349 | a bypass is answered yes for a local endpoint, and else iff the endpoint resolves, another interface has a default route with a gateway, and the system takes the row; a refusal changes nothing |
| RouteRestoration.DefaultAnswer | src/windows_net_config.cpp:374-406 | a default route is answered yes iff LUID and gateway are good and the system takes it, and then it is in the table; a refusal changes nothing |
| RouteRestoration.PrefixAnswer | src/windows_net_config.cpp:408-474 | a selective route is answered yes iff it is recorded already or the system takes it, and then its row is in the table; a refusal changes nothing |
| RouteRestoration.BypassStrandsIff | src/windows_net_config.cpp:344-372 | a bypass application strands nothing iff it does not overwrite the record of another row that nothing else records |
| RouteRestoration.DefaultStrandsIff | src/windows_net_config.cpp:392-406 | the same for the default route |
| RouteRestoration.PrefixAccounted | src/windows_net_config.cpp:444-474 | a selective application keeps the account and strands nothing |
| RouteRestoration.ClearRestores | src/windows_net_config.cpp:476-524 | clearing leaves the initial table without the applied rows, plus the rows stranded before and exactly the recorded rows whose deletion is refused |
| RouteRestoration.RefusedRowStays | src/windows_net_config.cpp:482-518 | a recorded row is still there after a clearing and a second one iff its deletion was refused the first time |
| RouteRestoration.Restoration | src/windows_net_config.cpp:344-524 | a run that applies bypass and default once between clears strands only rows whose deletion was refused; without refusals clearing leaves the initial table minus the applied rows, and the initial table itself iff none had been there |
| RouteRestoration.RestorationIff | src/windows_net_config.cpp:344-524 | after any run, refused deletions included: recorded rows are in the table, and clearing leaves the initial table minus the applied rows plus exactly the stranded ones, so all is taken back iff none is stranded, and the initial table is restored iff the stranded rows are the applied ones that had been there |
| RouteRestoration.SecondBypassLeaks | src/windows_net_config.cpp:351-352 | two bypass applications with different gateways leave a row behind |
| RouteRestoration.HostRoutesAfter | src/windows_net_config.cpp:408-474 | default and selective applications change the host routes for an address by exactly those they make the system take, duplicates included |
| RouteRestoration.EndpointAvoidsTunnelIff | src/windows_net_config.cpp:305-349 | after the bypass and any default and selective routes: no longest match for the endpoint is a tunnel row iff the tunnel had no host route for it and none applied gives it one; the bypass row via the chosen gateway is the only one iff every host route that was there or is applied is that row |
| RouteRestoration.ListedEndpointLoops | src/windows_net_config.cpp:408-474 | a bypass followed by a list target equal to the endpoint makes a tunnel row a longest match for the endpoint |
| TextLists.TrimCopy | src/smart_route_manager.cpp:19-29 | the two loops strip leading and trailing space |
| TextLists.TrimTight | src/smart_route_manager.cpp:19-29 | trimming leaves both ends tight, invents nothing and keeps tight text |
| TextLists.LoadListFile | src/smart_route_manager.cpp:43-70 | the loop collects the entries that LoadReads describes; a missing file gives none |
| ListEntries.LinesJoin | src/smart_route_manager.cpp:54-55 | joined by newlines, the lines read are the text without its final newline: no line is lost, an unterminated last one included |
| ListEntries.LoadReads | src/smart_route_manager.cpp:43-70 | the entries are exactly the intervals of the text that start and end with text, hold no newline and no comment sign, and have only space between them and the ends of their line or a comment, in the order of the text |
| ListEntries.NoEntryIff | src/smart_route_manager.cpp:56-67 | a line contributes nothing iff the text before its first comment sign is all space |
| TextLists.LoadIsIdempotent | src/smart_route_manager.cpp:43-70 | entries are trimmed, non-empty and free of comments, and writing them one per line and loading again gives the same list |
| TextLists.ParseCidrPrefix | src/smart_route_manager.cpp:90-135 | the masked network address and prefix of an entry, or nothing |
| TextLists.CidrRoundTrip | src/smart_route_manager.cpp:90-135 | every address and prefix length written in CIDR notation parses back to itself and to its network address |
| TextLists.AddressAlone | src/smart_route_manager.cpp:90-135 | an address without a slash is a block of one |
| TextLists.CidrOutOfRange | src/smart_route_manager.cpp:103-107 | a prefix length above 32 is refused |
| ListEntries.CidrWithSpaces | src/smart_route_manager.cpp:94-112 | space around an entry and around its slash makes no difference |
| TextLists.StoiReads | src/smart_route_manager.cpp:102-112 | the number is read behind space and a sign, what follows it is ignored, and one that does not fit an int is an error |
| SmartRoutes.SmartRouteManager.Start | src/smart_route_manager.cpp:150-185 | starts, applying the listed targets once and leaving a worker running, iff the lists load and are not both empty; an empty path keeps the list of an earlier start, a missing file empties it and skips what follows |
| SmartRoutes.LoadsBoth | src/smart_route_manager.cpp:160-178 | the first file fills the domains and the second the CIDR blocks, an empty path keeps the previous list, and the lists can be used iff neither file is missing and one has an entry |
| SmartRoutes.SmartRouteManager.ApplyRoutesOnce | src/smart_route_manager.cpp:212-239 | a pass applies the parsable CIDR entries, then the resolved addresses, in order, up to the entry at which a stop request is noticed; only a complete pass updates the count |
| SmartRoutes.NoticedEntries | src/smart_route_manager.cpp:224-236 | what a pass handles before it notices a stop request are the first so many entries, CIDR blocks before domains |
| SmartRoutes.PassRefinesSet | src/smart_route_manager.cpp:212-239 | a pass keeps the list free of duplicates and adds exactly the keys whose rows the system took |
| SmartRoutes.PassIsIdempotent | src/smart_route_manager.cpp:199-210 | repeating a pass with the same answers changes neither record nor table |
| SmartRoutes.RefreshesRefineSet | src/smart_route_manager.cpp:238-238 | over any passes the count is the number of distinct keys successfully applied |
| SmartRoutes.ListCoverage | src/smart_route_manager.cpp:212-307 | whatever the system and name resolution answer, after a pass over both lists a longest match for an address is a tunnel row iff a CIDR entry that parses, contains it and is taken, a taken host route of a domain that resolves to it, or an earlier tunnel row has a prefix at least as long as every matching row of another interface |
| SmartRoutes.ListCoverageOverDefaults | src/smart_route_manager.cpp:212-307 | if the other interfaces have only default routes for the address: iff it lies in a listed block whose row is taken, a listed domain resolves to it and its host route is taken, or it matched a tunnel row before |
| Wintun.WintunVirtualInterface.ClearClientRoutes | src/wintun_virtual_interface.cpp:48-57 | stops the worker, and clears the configurator iff routes were applied, whichever deletions are refused |
| Wintun.WintunVirtualInterface.ApplyClientRouting | src/wintun_virtual_interface.cpp:63-115 | the state after every branch, rollbacks of partial failures included, is the one that PolicyAnswer, PolicyRoutes and PolicyMakesLive are proved of |
| Wintun.PolicyAnswer | src/wintun_virtual_interface.cpp:63-115 | a policy is applied iff routing is off, or the adapter is open, the endpoint needs no bypass or gets one, and the default route is taken or the lists can be used |
| Wintun.PolicyLists | src/wintun_virtual_interface.cpp:98-111 | options, lists and worker of the smart route manager change exactly when it is started, and as its start says |
| Wintun.PolicyRoutes | src/wintun_virtual_interface.cpp:90-111 | after a successful application a longest match for an address is a tunnel row iff a row the mode asks for (the default route, or the entries and resolved domains of the loaded lists) or an earlier tunnel row is at least as long as every matching row of another interface, the new bypass included |
| Wintun.PolicyCovers | src/wintun_virtual_interface.cpp:84-111 | the table changes by the bypass row and by exactly the tunnel rows the mode asks for; in global mode the tunnel's default route is in it |
| Wintun.GlobalTakesAll | src/wintun_virtual_interface.cpp:90-97 | in global mode over default routes every address but the endpoint goes to the tunnel |
| Wintun.PolicyMakesLive | src/wintun_virtual_interface.cpp:63-115 | applying the policy to an interface without routes keeps the account and strands only rows whose deletion a rollback was refused, and a failure leaves nothing recorded |
| WintunRuns.ClientRunRestores | src/wintun_virtual_interface.cpp:48-131 | every client engine run, whatever the surroundings answer and whichever deletions they refuse: recorded rows are in the table; without the flag nothing is recorded and no worker runs; with it the endpoint's bypass row is in the table, in global mode the tunnel's default route, and an address goes to the tunnel iff a row asked for since the application, by the start and any refreshes, or one there before, is as long as any matching row of another interface; after a stop the table is the initial one minus the rows applied plus stranded rows, all of them once refused |
| WintunRuns.ClientStopRestores | src/wintun_virtual_interface.cpp:48-131 | without refusals, a run that ends with a stop leaves the initial table minus the rows applied, and the initial table itself iff none had been there |
| WintunRuns.StopClosesAdapter | src/wintun_virtual_interface.cpp:48-131 | a run of either role that ends with a stop ends with the adapter closed |
| WintunRuns.RefreshSendsAgain | src/smart_route_manager.cpp:199-239 | after a complete pass of the worker the tunnel rows are those there before and those of the lists by the present answers |
| WintunRuns.StartApplies | src/wintun_virtual_interface.cpp:63-115 | a fresh client with routing on, in surroundings that answer yes, starts with its routes applied |
| WintunRuns.RoutingOffTouchesNothing | src/wintun_virtual_interface.cpp:66-70 | with routing off, the only valid configuration of a server, no run of either role touches the host |
| RouteWorker.ListIsExclusive | src/smart_route_manager.cpp:187-286 | in every interleaving there is no worker while the owner reads or changes the list of selective routes |
| RouteWorker.ClearedUntilNextStart | src/wintun_virtual_interface.cpp:48-57 | after clearing, no step of any thread adds to the list before the next start |
| RouteWorker.StopIsBounded | src/smart_route_manager.cpp:187-286 | while the owner waits in stop, the worker takes at most as many steps and adds at most as many routes as are left of the list entry it is in, both bounds are reached, and the owner can join iff no step is left |
| RouteWorker.StopIsProgress | src/smart_route_manager.cpp:187-210 | until then the worker can take a step, and every step brings it nearer its end |
| RouteWorker.NoUniformBound | src/smart_route_manager.cpp:258-286 | a stop request can find the worker in an entry with any number of routes to come |
| RouteWorker.FailedStartLeavesNothing | src/wintun_virtual_interface.cpp:105-109 | a start whose lists cannot be used ends with an empty list and no worker |
| RouteWorker.SleepsInterval | src/smart_route_manager.cpp:199-209 | without a stop request the worker sleeps exactly as many seconds as the interval says before a pass |

## Left out

- QUIC registration, listener, connection and stream handles, `connect`, `close` and `reset_for_next_client` of the QUIC transport: calls into MsQuic; a reset is one abstract call of the engine's devices.
- Sends that the library cancels when a stream is shut down: a completed send has been read to its end.
- Weak memory: the steps of `SendGate` and `RouteWorker` are sequentially consistent.
- AES-GCM, Wintun, IP Helper, name resolution, `InetPtonA` and `InetNtopA`: functions or answers with stated laws.
- The interface address and DNS (`apply_ipv4`, `apply_dns` and their inverses): they touch no recorded route.
- Row metrics beyond the gateway scan: rows with equal prefix lengths are longest matches together.
- Width of the statistics and epoch counters: unbounded here, 64 bits in the source; sequence numbers do wrap.
- Clock, sleeps and deadlines: the data-plane loop makes any number of passes.
- A stop called by a signal handler in the middle of another engine call.
- Engines built without an interface or a transport: they never start.
- The development transport after one end has closed: its peer keeps a pointer to an erased link.
- `create_inner_session`: which session a key selects.
- Error texts; the inner sessions' error kinds are kept.
- Exceptions thrown while clearing routes.
- `PacketBufferPool`, `MsQuicApi`, configuration checks, console, command lines, Linux TUN I/O, scripts and examples: easy members, or I/O and packaging.

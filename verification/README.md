# WABridge: a Dafny model of its session transport

WABridge connects an Android phone and a Windows PC. This project models the parts of it that
decide whether two such peers understand each other and shut down cleanly, and proves what those
parts promise.

- **Framed session transport.** Envelopes become big-endian frames; a stream pushes them through
  reads and writes that move any number of bytes; a peer exchanges hellos and then runs a receive
  loop; a coordinator accepts connections on one thread while other threads send and stop.
  `Bytes`, `Protocol`, `Framing`, `TlsStream`, `Heartbeats`, `SessionPeer` and `SecureCoordinator` are
  the code as one thread sees it, in classes. `CoordinatorRuns` takes the same methods apart into
  atomic steps (lock, one SSL call, unlock, publish, clear); `CoordinatorInvariant`, `CoordinatorWires` and
  `CoordinatorSafety` prove what every step keeps, `CoordinatorTheorems`, `CoordinatorAcks` and
  `CoordinatorRestart` what follows for every interleaving, `CoordinatorProgress` and
  `CoordinatorServing` what a call comes to when nothing gets in between. `HelloExchange` is the
  hello exchange of two ends over FIFO pipes.
- **Discovery record cache.** `DiscoveryCache` is the in-place vector with a ghost log of all calls
  made on it; `DiscoveryProperties` relates entries and ready endpoints to that log.
- **Session lifecycle.** `Session` and `SessionKotlin` are the two implementations of one state
  machine, `SessionManager` the locked Android manager with its stop latch, both as a class and as
  atomic moves of overlapping calls.
- **Typed codecs, dispatch and endpoints.** `Messages`, `File`, `Clipboard`, `Audio`, `Input` and
  `Display` are the nested codecs, `Delivery` composes them with frame, stream, router and
  dispatcher. `KotlinCodecs`, `KotlinClient` and `PythonEnvelope` are the decoders written again in
  other languages. `Endpoint` is the endpoint parser against a grammar.

TLS is a reliable FIFO byte pipe. A script, universally quantified in every statement, decides for
each SSL call whether it moves bytes, asks to be called again, or fails; a script that runs out
fails. A failed call of the pipe is recorded by the flag `broken`. Time is counted in nanoseconds,
strings are byte sequences.

`dafny verify dfyconfig.toml` checks the project.

## Main results

Every one of these holds for all inputs, all runs or all reachable states.

- **Any interleaving of senders, any cutting of the bytes:** `ReceiverReadsAPrefixOfCommitted`,
  `NothingIsWrittenAfterClose`, `SentMeansDelivered`.
- **What each call comes to:** `UndisturbedSend`, `UndisturbedHeartbeat`, `UndisturbedStop`.
- **Coordinator:** `ActiveFieldsAgree`, `StopLeavesNothingActive`, `SendsLeaveReleasedStreamsAlone`,
  `AcksAnswerHeartbeats`, `NothingHandledAfterRejection`, `StartAbortsIff`, `OrderlyKeepsListener`.
- **Stream and peer:** `Stream.Read`, `SessionPeer.Establish`, `SessionPeer.Run`,
  `SecureCoordinator.HandleSocket`.
- **Hello exchange:** `DoneHoldsTheOthersHello`, `MaximalExchangesSucceed`.
- **Discovery cache:** `ReadyIsBacked`, `ReadyOnlyWhileRecordsLast`, `FirstRecordsReadyIff`,
  `ExpireIsInvisible`, `ExpireForgets`, `CacheStaysBounded`, `AllWithinAnHourIff`.
- **Session lifecycle:** `EstablishedOnlyThroughIdentity`, `ChangesArePaidFor`, `MachinesAgree`,
  `StopNotifiesOnce`, `NothingComesUpAfterStop`.
- **Codecs, delivery, endpoints:** `DecodeInvertsEncode`, `FramesParseOneWay`, `FrameExistsIff`,
  `SendAcross`, `EnvelopeDecodersAgree`, `AudioDecodersAgree`, `InputDecodersAgree`, `ParsePortIff`,
  `ParseEndpoint`, `CanonicalReparses`.

## What the proofs found

- The branch of `handle_socket` that refuses a second connection
  (windows/src/wabridge_secure_coordinator.cpp:83-86) is dead: one accept thread runs one handler at
  a time (`DuplicateBranchIsDead`).
- `Coordinator::stop` takes the running flag down, joins the thread and resets the listener without
  holding its mutex in between (windows/src/wabridge_coordinator.cpp:46-55). A start whose port opens between
  the exchange and the join assigns to a joinable thread, which ends the program; this is exactly when a
  start does so (`StartAbortsIff`, `AbortedIff`, `StartBeforeJoinAborts`).
- A start between the join and the reset can lose its listener to that reset with the running flag
  still up; its accept thread then exits at its next check, or accepts once more if it is past it
  (`StartInsideStopLosesListener`, `StartInsideStopMayStillAccept`, `NoListenerUntilStart`). Without
  such a start a running coordinator has its listener (`OrderlyKeepsListener`).
- An entry of the discovery cache starts with its expiries at the clock's zero. On a clock below zero
  an expired address counts as fresh (`BeforeZeroAnExpiredAddressIsReady`; from zero on the claim
  holds, `ReadyIsBacked`), and more than an hour below zero an expiry never set is over an hour ahead
  (`WithinAnHourIff`, `AllWithinAnHourIff`).
- The codecs' own size caps are wider than their channels, so some values encode and can never be
  sent (`ChunkCapExceedsChannel`, `AudioCapExceedsChannel`, `ClipboardCapExceedsChannel`).
- A display command with sequence zero is encoded and refused at the other end
  (`CommandSurvivesUnlessSequenceZero`).
- The Android audio decoder refuses timestamps of 2^63 and above, and its input decoder bounds the
  code of every event, where the Windows ones do not.
- Where shared/protocol/protocol.md asks for flag checks, duplicate request id checks and queue
  budgets (lines 22 and 41-47), the code has none; the model follows the code.

## Model

| member | source | states |
|---|---|---|
| `Bytes.PutU64` | windows/src/wabridge_envelope.cpp:32-36 | the shift loop appends exactly the eight big-endian bytes of the value |
| `Bytes.GetU64` | windows/src/wabridge_envelope.cpp:49-55 | the loop reads the big-endian value of the eight bytes, without overflow |
| `Bytes.FieldRoundTrip` | windows/src/wabridge_envelope.cpp:20-55 | a 2-, 4- or 8-byte field reads back as the value that was put |
| `Bytes.ToBytesOfToNat` | windows/src/wabridge_envelope.cpp:20-55 | putting what was read gives the same bytes |
| `Protocol.ChannelLimit` | windows/src/wabridge_envelope.cpp:9-18 | channels 1 to 5 and no others have a limit, never above 4 MiB |
| `Protocol.EncodeFrame` | windows/src/wabridge_envelope.cpp:63-86 | the appending encoder gives the envelope's frame, or the source's error in the source's order of checks |
| `Protocol.DecodeFrame` | windows/src/wabridge_envelope.cpp:88-118 | the checking decoder is the decoding function, error for error |
| `Protocol.DecodeInvertsEncode` | windows/src/wabridge_envelope.cpp:63-118 | encoding succeeds exactly for sendable envelopes, and then decoding gives the envelope back |
| `Protocol.EncodeInvertsDecode` | windows/src/wabridge_envelope.cpp:63-118 | every accepted frame re-encodes to itself |
| `Protocol.FramesArePrefixFree` | windows/src/wabridge_envelope.cpp:88-118 | no accepted frame is a proper prefix of another |
| `Protocol.FramesDiffer` | windows/src/wabridge_envelope.cpp:63-86 | different sendable envelopes have different frames |
| `Framing.WholeIffFrameInFront` | windows/src/wabridge_tls_stream.cpp:84-120 | the reader finds e and leaves rest exactly when the bytes are e's frame and then rest, for a sendable e |
| `Framing.OnlyZeroRequestIdIsLeft` | windows/src/wabridge_tls_stream.cpp:91-119 | once the header checks pass, the inner decode refuses a frame exactly for request id zero |
| `Framing.CutFrameIsIncomplete` | windows/src/wabridge_tls_stream.cpp:84-113 | a proper beginning of a frame keeps the reader waiting and looks like nothing else |
| `Framing.ParseAllAfterFrames` | windows/src/wabridge_tls_stream.cpp:84-120 | whole frames in front of any bytes read back as exactly those envelopes, and the rest as without them |
| `Framing.ParseAllReadsFrames` | windows/src/wabridge_tls_stream.cpp:84-120 | frames followed by anything that does not start with a whole frame read back as exactly those envelopes |
| `Framing.FramesParseOneWay` | windows/src/wabridge_envelope.cpp:88-118 | a concatenation of frames and a tail parses in exactly one way |
| `Framing.ArrivedIsPrefixOfSent` | windows/src/wabridge_tls_stream.cpp:84-152 | from any prefix of frames plus a cut frame, what is read is a prefix of what was framed |
| `Framing.ParsedAreSendable` | windows/src/wabridge_tls_stream.cpp:84-120 | what was read is sendable, and its frames are the bytes taken |
| `TlsStream.Ssl.Read` | windows/src/wabridge_tls_stream.cpp:125-131 | one read call moves between one and the wanted number of bytes in order, or none |
| `TlsStream.Ssl.Write` | windows/src/wabridge_tls_stream.cpp:141-147 | one write call sends some non-empty beginning of the bytes, or nothing |
| `TlsStream.Stream.Close` | windows/src/wabridge_tls_stream.cpp:154-162 | closing takes the pipe away once; closing again changes nothing |
| `TlsStream.Stream.DoHandshake` | windows/src/wabridge_tls_stream.cpp:56-71 | succeeds exactly if the stream is open and some number of retried handshake calls is followed by one that is done and verified |
| `TlsStream.AgreedIff` | windows/src/wabridge_tls_stream.cpp:56-71 | handshake calls end in agreement exactly if the first that is not retried is done and verified |
| `TlsStream.Stream.ReadExact` | windows/src/wabridge_tls_stream.cpp:122-136 | fills the buffer with exactly the next bytes however they are cut up, or closes the stream having taken no more than asked |
| `TlsStream.Stream.WriteExact` | windows/src/wabridge_tls_stream.cpp:138-152 | sends all of the bytes, or closes the stream with a proper beginning of them sent |
| `TlsStream.Stream.Read` | windows/src/wabridge_tls_stream.cpp:84-120 | returns e exactly when the bytes in front are e's frame, consumes exactly it, and never takes more than header plus channel limit; nothing comes back only from a closed or broken stream or a malformed front |
| `TlsStream.Stream.Write` | windows/src/wabridge_tls_stream.cpp:73-82 | succeeds exactly for a sendable envelope on an open, unbroken stream; an unsendable one changes nothing, a failed one leaves a cut frame and a closed stream |
| `SessionPeer.SessionPeer.Stop` | windows/src/wabridge_session_peer.cpp:64-69 | the flag and the peer's hello go, and the stream is closed |
| `SessionPeer.SessionPeer.ExchangeHellos` | windows/src/wabridge_session_peer.cpp:18-35 | the hellos cross exactly if the local one is valid, the transport holds and the incoming bytes start with a hello of the expected role, and the stream is left after it |
| `SessionPeer.SessionPeer.Establish` | windows/src/wabridge_session_peer.cpp:11-40 | succeeds exactly when handshake, roles, transport and both hellos are good; it then holds the hello in front of the incoming bytes and leaves the stream on the frame boundary after it; a failure closes the stream, a wrong role changes nothing |
| `SessionPeer.SessionPeer.Send` | windows/src/wabridge_session_peer.cpp:42-46 | writes exactly the envelope's frame, and only while established |
| `SessionPeer.SessionPeer.Handle` | windows/src/wabridge_secure_coordinator.cpp:92-101 | true means: a heartbeat, and exactly the frame of channel 1, kind 6, flags 0, the heartbeat's own request id and payload 1 was written, or no heartbeat and no close request, the router took it and nothing was written; it is false on anything else the router takes only for want of a working stream |
| `SessionPeer.SessionPeer.ServeOne` | windows/src/wabridge_session_peer.cpp:50-60 | one turn takes the frame in front and answers it; a stop in between makes only a heartbeat's answer fail |
| `SessionPeer.SessionPeer.Turn` | windows/src/wabridge_session_peer.cpp:50-60 | one turn with a stop at the guard, before the read or before the handler either goes on with everything handled accepted and acked, or ends for a reason |
| `SessionPeer.SessionPeer.Run` | windows/src/wabridge_session_peer.cpp:48-62 | handled envelopes are in order a prefix of those received, none after a rejection; what a reader finds in the bytes written is acks with, in order, the request ids of the handled heartbeats, up to one possibly failed last send; it ends early only for a stop at any of its three points, a broken transport or a rejection |
| `Heartbeats.AckOfReceivedEncodes` | windows/src/wabridge_secure_coordinator.cpp:93-95 | the ack of anything received always encodes, because decoding ruled request id zero out |
| `Heartbeats.AckOfHeartbeat` | windows/src/wabridge_secure_coordinator.cpp:93-95 | the ack of the heartbeat at j sits at the rank of that heartbeat: channel 1, kind 6, flags 0, its request id, payload 1 |
| `Heartbeats.AcksCarryTheIds` | windows/src/wabridge_secure_coordinator.cpp:92-101 | there is one ack, under its request id and with the fixed other fields, for each envelope on channel 1 of kind 5, in order, and no other |
| `Heartbeats.AckBytesRead` | windows/src/wabridge_secure_coordinator.cpp:92-101 | read back, the bytes written as answers, with or without a cut last ack, are the acks under those request ids |
| `Heartbeats.AsManyAcksAsHeartbeats` | windows/src/wabridge_secure_coordinator.cpp:92-101 | there are as many acks as heartbeats |
| `Heartbeats.AckBytesAreAckFrames` | windows/src/wabridge_secure_coordinator.cpp:92-101 | the answering bytes are the concatenated frames of the acks |
| `SecureCoordinator.SecureCoordinator.constructor` | windows/src/wabridge_secure_coordinator.cpp:9-11 | starts with nothing active and not running |
| `SecureCoordinator.SecureCoordinator.Start` | windows/src/wabridge_secure_coordinator.cpp:17-20 | succeeds exactly for a Windows hello, a stopped coordinator and a free port |
| `SecureCoordinator.SecureCoordinator.Send` | windows/src/wabridge_secure_coordinator.cpp:42-49 | without an active peer nothing is sent; otherwise exactly the envelope's frame on the active stream |
| `SecureCoordinator.SecureCoordinator.Stop` | windows/src/wabridge_secure_coordinator.cpp:56-70 | afterwards nothing is active, what was active is closed, and nothing is running |
| `SecureCoordinator.SecureCoordinator.ServeActive` | windows/src/wabridge_secure_coordinator.cpp:81-109 | the connection is published and counted, served in order, closed, and taken down again |
| `SecureCoordinator.SecureCoordinator.HandleSocket` | windows/src/wabridge_secure_coordinator.cpp:72-114 | a connection comes up exactly if establishing succeeds and nothing is active; the wire then carries the hello and the ack trail, what was handled is in order what follows the peer's hello, and the active fields end as they were |
| `CoordinatorInvariant.EveryStepKeepsControl` | windows/src/wabridge_secure_coordinator.cpp:42-109 | every step of accept thread, senders and stoppers keeps who holds which mutex, what is published and what the active fields name |
| `CoordinatorWires.EveryStepKeepsWires` | windows/src/wabridge_session_peer.cpp:42-46 | every step keeps one writer per wire, a cut last frame only under a running write loop or on a closed stream, and delivered sends in their places |
| `CoordinatorSafety.StepEvolves` | windows/src/wabridge_tls_stream.cpp:138-162 | one step changes one connection in one of a few listed ways, grows its wire only while it is open, writes its history only by receiving, answering or acking, and never re-establishes, un-ends or un-releases it |
| `CoordinatorSafety.EveryStepKeepsBytes` | windows/src/wabridge_tls_stream.cpp:73-82 | every step keeps the whole invariant: the bytes out are the frames committed up to a cut in the last |
| `CoordinatorSafety.Reachable` | windows/src/wabridge_secure_coordinator.cpp:42-109 | the invariant holds after every interleaving from the initial state |
| `CoordinatorTheorems.WireIsFramesAndACut` | windows/src/wabridge_tls_stream.cpp:138-152 | a wire is whole frames plus at most one partial frame |
| `CoordinatorTheorems.ReceiverReadsAPrefixOfCommitted` | windows/src/wabridge_session_peer.cpp:42-46 | for every interleaving and every prefix that has arrived, the envelopes read are a prefix of those committed under the write mutex; of all that is out, exactly the ones sent in full |
| `CoordinatorTheorems.CutMeansWritingOrClosed` | windows/src/wabridge_tls_stream.cpp:138-162 | a cut last frame means a running write loop or a closed stream |
| `CoordinatorTheorems.NothingIsWrittenAfterClose` | windows/src/wabridge_tls_stream.cpp:138-162 | once a stream is closed nothing is written on it, whatever follows |
| `CoordinatorTheorems.EstablishedNeverReturns` | windows/src/wabridge_session_peer.cpp:42-69 | a published peer that has lost its flag never gets it back |
| `CoordinatorTheorems.SendsLeaveReleasedStreamsAlone` | windows/src/wabridge_secure_coordinator.cpp:42-48 | no send, in any interleaving, touches a stream after a stop of its peer, so none after its handler released it |
| `CoordinatorTheorems.StopWaitsForSends` | windows/src/wabridge_session_peer.cpp:64-69 | a stop gets a peer's write mutex only when no send is between its lock and its end |
| `CoordinatorTheorems.ActiveFieldsAgree` | windows/src/wabridge_secure_coordinator.cpp:56-109 | in every reachable state the three active fields are all null or all of one unreleased connection whose establish returned true |
| `CoordinatorTheorems.OneHandlerAtATime` | windows/src/wabridge_coordinator.cpp:62-80 | every connection but the accept thread's current one is released |
| `CoordinatorTheorems.DuplicateBranchIsDead` | windows/src/wabridge_secure_coordinator.cpp:83-86 | a handler about to publish never finds another peer active |
| `CoordinatorTheorems.TeardownClearsItsOwn` | windows/src/wabridge_secure_coordinator.cpp:102-109 | a teardown clears its own publication or nothing |
| `CoordinatorTheorems.StopLeavesNothingActive` | windows/src/wabridge_secure_coordinator.cpp:56-70 | once the stop that took the running flag down has returned, all three fields are null, every connection is released and nothing is published until a later start |
| `CoordinatorTheorems.SentMeansDelivered` | windows/src/wabridge_secure_coordinator.cpp:42-49 | a send that returned true has its envelope on the wire in full, at a place no other call has, where a receiver of all bytes reads it |
| `CoordinatorProgress.LeadsIsRun` | windows/src/wabridge_secure_coordinator.cpp:42-109 | a list of steps that leads from one state to another is a run with those two ends |
| `CoordinatorProgress.UndisturbedSend` | windows/src/wabridge_secure_coordinator.cpp:42-49 | a send with a peer active that no one gets in between of returns true exactly if the session is established and open, the envelope is sendable and no SSL call fails, and then exactly its frame has gone out; a failing call leaves a cut frame and a closed stream, any other refusal nothing |
| `CoordinatorProgress.SendWithNothingActive` | windows/src/wabridge_secure_coordinator.cpp:42-49 | with nothing active a send returns false and changes nothing else |
| `CoordinatorProgress.EveryLoopCanEnd` | windows/src/wabridge_tls_stream.cpp:138-152 | for a frame of any length there are SSL calls that end its write loop in success and some that end it in failure |
| `CoordinatorProgress.UndisturbedEstablish` | windows/src/wabridge_secure_coordinator.cpp:72-91 | an accepted connection writes exactly the local hello and becomes the active one exactly if no SSL call of the hello fails; else it is closed with the hello cut and nothing is published |
| `CoordinatorServing.UndisturbedTurn` | windows/src/wabridge_secure_coordinator.cpp:92-101 | a turn on anything but a heartbeat goes on exactly if the router takes it and it is not of channel 1 and kind 7 |
| `CoordinatorServing.UndisturbedHeartbeat` | windows/src/wabridge_secure_coordinator.cpp:92-95 | a turn on a heartbeat sends exactly the ack with its request id and goes on exactly if no SSL call fails, else the loop ends |
| `CoordinatorServing.UndisturbedReadFailure` | windows/src/wabridge_session_peer.cpp:50-55 | a read that gives nothing closes the stream, clears the flag and ends the loop |
| `CoordinatorServing.UndisturbedTeardown` | windows/src/wabridge_secure_coordinator.cpp:102-109 | the end of a handler closes and releases its connection, clears the active fields exactly if they are its own, and the accept thread accepts again |
| `CoordinatorServing.UndisturbedRefusal` | windows/src/wabridge_session_peer.cpp:13-39 | a handshake or hello that is no good closes and releases the connection, and the accept thread accepts again |
| `CoordinatorServing.UndisturbedAcceptLoop` | windows/src/wabridge_coordinator.cpp:62-76 | while running and listening a timed-out wait and a failed accept come back to the check; otherwise the check, or a failed accept, ends the thread |
| `CoordinatorServing.UndisturbedStop` | windows/src/wabridge_secure_coordinator.cpp:56-70 | a stop of a running coordinator whose handler waits for its peer returns with nothing running, listening, joinable or active and the connection closed and released, its wire and every other connection as before |
| `CoordinatorServing.UndisturbedStartAndStop` | windows/src/wabridge_coordinator.cpp:35-55 | a start and then a stop with no connection up leave everything as before the start but for the epoch and the call |
| `CoordinatorServing.StopWhenNotRunning` | windows/src/wabridge_coordinator.cpp:46-50 | a stop of a coordinator that is not running only clears the active fields |
| `CoordinatorAcks.EveryStepKeepsHistory` | windows/src/wabridge_secure_coordinator.cpp:92-101 | every step of every thread keeps, for each connection, what was handled, how it was answered, and which send call is which heartbeat's ack |
| `CoordinatorAcks.AcksAnswerHeartbeats` | windows/src/wabridge_secure_coordinator.cpp:92-101 | in every run, with other senders and stops at any point, the handler's own envelopes on a wire are the acks of the handled heartbeats in order and one for one, each under its heartbeat's request id, up to at most the last |
| `CoordinatorAcks.NothingHandledAfterRejection` | windows/src/wabridge_session_peer.cpp:50-60 | in every run a rejected envelope is the last one handled, and a close request is always rejected |
| `CoordinatorAcks.HandledIsReceivedFirst` | windows/src/wabridge_session_peer.cpp:50-56 | in every run what was handled is, in order and without a gap, what a reader finds first in any bytes that start with its frames |
| `CoordinatorRestart.StartAbortsIff` | windows/src/wabridge_coordinator.cpp:35-44 | at any moment of any run a start whose port opens ends the program (it assigns to a joinable thread) exactly if some stop is between its exchange and its join |
| `CoordinatorRestart.AbortedIff` | windows/src/wabridge_coordinator.cpp:35-55 | a run has ended the program exactly if one of its starts fell between a stop's exchange and its join |
| `CoordinatorRestart.StartBeforeJoinAborts` | windows/src/wabridge_coordinator.cpp:35-55 | a concrete run of a start, a stop up to its exchange, and a start ends the program |
| `CoordinatorRestart.OrderlyKeepsListener` | windows/src/wabridge_coordinator.cpp:35-55 | if no start opens a listener between a stop's join and its reset, a running coordinator has its listener |
| `CoordinatorRestart.StartInsideStopLosesListener` | windows/src/wabridge_coordinator.cpp:52-54 | wherever a start does so, the pending reset can take the new listener away with the running flag up, and the new accept thread can then exit at its check |
| `CoordinatorRestart.StartInsideStopMayStillAccept` | windows/src/wabridge_coordinator.cpp:52-77 | or that thread can be past its check and accept a connection after the reset |
| `CoordinatorRestart.NoListenerUntilStart` | windows/src/wabridge_coordinator.cpp:62-68 | in every run a lost listener stays lost until a later start, and an accept thread that comes to its check without one exits |
| `CoordinatorRestart.ResetPendingIsReached` | windows/src/wabridge_coordinator.cpp:46-55 | the state between join and reset is reached by a concrete run |
| `HelloExchange.AcceptedIsOneFrame` | windows/src/wabridge_session_peer.cpp:23-35 | what an end accepts is one whole frame carrying the hello it then holds, in the role it expected |
| `HelloExchange.AnyPieceMoves` | windows/src/wabridge_tls_stream.cpp:122-152 | a writing end can send any non-empty piece of the rest of its hello, a reading end take any piece of what is there up to the end of the header and then of the announced payload, and no other end moves |
| `HelloExchange.BreakingIsFinal` | windows/src/wabridge_session_peer.cpp:13-39 | an end can fail at any moment, which leaves the other as it was, and never moves again |
| `HelloExchange.GoodHelloIsAccepted` | android/app/src/main/java/com/wabridge/android/session/TlsSessionClient.kt:105-122 | on a good hello either kind of end waits until all of it is there and then accepts exactly it |
| `HelloExchange.DoneHoldsTheOthersHello` | windows/src/wabridge_session_peer.cpp:11-40 | in every run over FIFO pipes, an end that is done holds exactly the other's hello and has taken its frame and no byte more |
| `HelloExchange.UnbrokenRunsDoNotFail` | android/app/src/main/java/com/wabridge/android/session/TlsSessionClient.kt:67-70 | without transport failure no end of a compatible pair fails, and each step uses up a byte |
| `HelloExchange.MaximalExchangesSucceed` | windows/src/wabridge_session_peer.cpp:17-35 | every maximal exchange of a compatible pair without transport failure is finite and ends with both ends holding each other's hello |
| `DiscoveryCache.RecordCache.FindEntry` | windows/src/wabridge_discovery_cache.cpp:18-23 | the first entry of that instance, or the end |
| `DiscoveryCache.RecordCache.ApplyPtr` | windows/src/wabridge_discovery_cache.cpp:27-38 | the entries stay what replaying the log, with this call added, gives |
| `DiscoveryCache.RecordCache.ApplySrv` | windows/src/wabridge_discovery_cache.cpp:40-49 | the same for a service record |
| `DiscoveryCache.RecordCache.ApplyAddress` | windows/src/wabridge_discovery_cache.cpp:51-63 | the same for an address record, over every matching entry in place |
| `DiscoveryCache.RecordCache.Ready` | windows/src/wabridge_discovery_cache.cpp:65-75 | the loop returns the ready endpoints of the replayed log, in entry order |
| `DiscoveryCache.RecordCache.ExpireAt` | windows/src/wabridge_discovery_cache.cpp:77-88 | the cleaning loop and stable erase leave what replaying the log gives |
| `DiscoveryCache.RecordCache.ClearAll` | windows/src/wabridge_discovery_cache.cpp:90-92 | no entries are left |
| `DiscoveryProperties.ExpireIsInvisible` | windows/src/wabridge_discovery_cache.cpp:65-88 | readers from that time on see the same sequence whether or not the cache was expired |
| `DiscoveryProperties.CacheStaysBounded` | windows/src/wabridge_discovery_cache.cpp:9-16 | over every log: at most 64 distinct instances, at most 8 distinct addresses each, and no expiry over an hour past the latest clock value except one that was never set, which is zero |
| `DiscoveryProperties.WithinAnHourIff` | windows/src/wabridge_discovery_cache.cpp:11-16 | no expiry is over an hour past the latest clock value exactly if that is not below minus one hour, or every entry has had all three expiries set |
| `DiscoveryProperties.AllWithinAnHourIff` | windows/src/wabridge_discovery_cache.cpp:11-16 | the hour bound holds of every log with a given latest clock value exactly if that value is not below minus one hour |
| `DiscoveryProperties.EveryEntryIsBacked` | windows/src/wabridge_discovery_cache.cpp:27-63 | every entry's host, port and expiries come from the latest records, its address expiry from a record the cache put into it, and each address from one that it has listed ever since |
| `DiscoveryProperties.ReadyIsBacked` | windows/src/wabridge_discovery_cache.cpp:65-75 | every ready endpoint has an unexpired latest PTR and SRV giving its host and port, and only addresses put in by records the cache took and listed ever since; from clock zero on some record it took is also unexpired |
| `DiscoveryProperties.ReadyOnlyWhileRecordsLast` | windows/src/wabridge_discovery_cache.cpp:13-49 | whatever else came in, no endpoint of a service is ready once its latest PTR, or its latest SRV, is min(max(ttl, 0), 3600) seconds old |
| `DiscoveryProperties.BeforeZeroAnExpiredAddressIsReady` | windows/src/wabridge_discovery_cache.cpp:61-70 | at every clock value below zero that last clause fails: a concrete log whose only address record is expired is ready |
| `DiscoveryProperties.ReadyInstancesAreDistinct` | windows/src/wabridge_discovery_cache.cpp:65-75 | no two ready endpoints share an instance |
| `DiscoveryProperties.RecordsMakeReady` | windows/src/wabridge_discovery_cache.cpp:27-75 | a PTR, an SRV and an address in a row make the service ready while all three last and there is room, however many records came before |
| `DiscoveryProperties.FirstRecordsReadyIff` | windows/src/wabridge_discovery_cache.cpp:13-75 | the first PTR, SRV and address of a service make exactly their endpoint ready, exactly while none of the three is as old as its TTL, cut off at an hour (below clock zero the address is not asked) |
| `DiscoveryProperties.RecordLeavesOthers` | windows/src/wabridge_discovery_cache.cpp:27-63 | a record changes only entries of its instance or host, and an address record never takes an address away or shortens an expiry |
| `DiscoveryProperties.ExpireForgets` | windows/src/wabridge_discovery_cache.cpp:77-88 | expiring drops the entries past their PTR, the addresses and the host and port that are past their expiry in the others, and nothing else |
| `DiscoveryProperties.ExpiredAddressesStayGone` | windows/src/wabridge_discovery_cache.cpp:51-88 | addresses that expired do not come back with the next address record |
| `Session.StateMachine.Apply` | windows/src/wabridge_session.cpp:20-107 | verdict, new state, stop flag and kind of reason are those of the transition table |
| `Session.StateMachine.StopNow` | windows/src/wabridge_session.cpp:109-117 | stops once, leaving Idle or Closing |
| `Session.StoppedStates` | windows/src/wabridge_session.cpp:20-117 | in every run stopped implies Idle or Closing, and Closing implies stopped |
| `Session.EveryStateHasItsWay` | windows/src/wabridge_session.cpp:41-105 | in every run the events accepted since the last accepted BeginDiscovery are the way into the present state |
| `Session.EstablishedOnlyThroughIdentity` | windows/src/wabridge_session.cpp:41-105 | Established is reached only by candidate, TLS start, TLS success and then a matching identity, or a needed and approved pairing |
| `Session.ChangesArePaidFor` | windows/src/wabridge_session.cpp:20-117 | state changes are at most nine per accepted BeginDiscovery, by a potential every other change lowers |
| `Session.NineChangesHappen` | windows/src/wabridge_session.cpp:20-117 | a run with nine changes for one BeginDiscovery exists, so the bound is tight |
| `SessionKotlin.SessionStateMachine.Apply` | android/app/src/main/java/com/wabridge/android/session/SessionState.kt:34-79 | verdict, state and stop flag are those of the Android table |
| `SessionKotlin.SessionStateMachine.StopNow` | android/app/src/main/java/com/wabridge/android/session/SessionState.kt:81-85 | stops once, leaving Idle or Closing |
| `SessionKotlin.UnsharedIsRejected` | windows/src/wabridge_session.cpp:41-105 | the two events only the Windows side has are always rejected and change nothing |
| `SessionKotlin.MachinesAgree` | android/app/src/main/java/com/wabridge/android/session/SessionState.kt:34-85 | on every trace, with the unshared events erased, both machines reach the same state and flag with the same verdicts |
| `SessionManager.LockedManager.Apply` | android/app/src/main/java/com/wabridge/android/session/SessionManager.kt:14-19 | past the latch the machine's verdict, state and one notification, otherwise nothing |
| `SessionManager.LockedManager.Stop` | android/app/src/main/java/com/wabridge/android/session/SessionManager.kt:21-27 | the first call stops the machine and notifies once, later ones do nothing |
| `SessionManager.UndisturbedApply` | android/app/src/main/java/com/wabridge/android/session/SessionManager.kt:14-19 | an apply call no one gets in between of makes in its atomic moves the change the class method makes |
| `SessionManager.UndisturbedStop` | android/app/src/main/java/com/wabridge/android/session/SessionManager.kt:21-27 | the same for a stop call |
| `SessionManager.EveryMoveKeeps` | android/app/src/main/java/com/wabridge/android/session/SessionManager.kt:8-27 | every atomic move of any apply or stop call keeps lock, latch and quietness |
| `SessionManager.StopNotifiesOnce` | android/app/src/main/java/com/wabridge/android/session/SessionManager.kt:21-27 | under every interleaving stop notifies at most once, and exactly once when the winning call has returned |
| `SessionManager.NothingComesUpAfterStop` | android/app/src/main/java/com/wabridge/android/session/SessionManager.kt:14-27 | from the return of the winning stop on, at most one more event is accepted and the state is Idle, Closing or Discovering |
| `Messages.DecodeHello` | windows/src/wabridge_messages.cpp:68-93 | the offset-moving decoder is the decoding function, error for error |
| `Messages.HelloDecodeInvertsEncode` | windows/src/wabridge_messages.cpp:55-93 | exactly valid hellos encode, and they read back |
| `Messages.HelloEncodeInvertsDecode` | windows/src/wabridge_messages.cpp:55-93 | every accepted hello re-encodes to itself |
| `File.SafeDisplayName` | windows/src/wabridge_file.cpp:50-63 | the two loops give the sanitised name or the text error |
| `File.SafeNameIsSafe` | windows/src/wabridge_file.cpp:50-63 | sanitising gives a name without slash, backslash, colon or NUL that is neither dot nor dot-dot, and keeps exactly the names that were already safe |
| `File.SafeNameSpelledOut` | windows/src/wabridge_file.cpp:50-63 | the sanitised name character by character: slash, backslash, colon and NUL become an underscore, everything else is kept, and dot and dot-dot get one in front; refused exactly if empty, over 255 bytes or not printable |
| `File.DecodeOfferAt` | windows/src/wabridge_file.cpp:83-108 | the offset-moving decoder is the decoding function, error for error |
| `File.OfferArrivesSanitised` | windows/src/wabridge_file.cpp:65-108 | exactly valid offers encode, and they arrive under the sanitised name |
| `File.OfferReencodes` | windows/src/wabridge_file.cpp:65-108 | an accepted offer re-encodes to itself exactly when the name on the wire was already safe |
| `File.OfferFields` | windows/src/wabridge_file.cpp:72-80 | where each field of an offer sits in its bytes |
| `File.ChunkDecodeInvertsEncode` | windows/src/wabridge_file.cpp:110-132 | exactly valid chunks encode, and they read back |
| `File.ChunkFields` | windows/src/wabridge_file.cpp:110-119 | where each field of a chunk sits in its bytes |
| `File.ChunkEncodeInvertsDecode` | windows/src/wabridge_file.cpp:110-132 | every accepted chunk re-encodes to itself |
| `Clipboard.DecodeUpdate` | windows/src/wabridge_clipboard.cpp:51-77 | the offset-moving decoder is the decoding function, error for error |
| `Clipboard.UpdateDecodeInvertsEncode` | windows/src/wabridge_clipboard.cpp:31-77 | exactly valid updates encode, and they read back |
| `Clipboard.UpdateFields` | windows/src/wabridge_clipboard.cpp:31-49 | where each field of an update sits in its bytes |
| `Clipboard.UpdateEncodeInvertsDecode` | windows/src/wabridge_clipboard.cpp:31-77 | every accepted update re-encodes to itself |
| `Audio.FrameDecodeInvertsEncode` | windows/src/wabridge_audio.cpp:40-88 | exactly valid frames encode, and they read back |
| `Audio.FrameEncodeInvertsDecode` | windows/src/wabridge_audio.cpp:40-88 | every accepted frame re-encodes to itself |
| `Input.EventDecodeInvertsEncode` | windows/src/wabridge_input.cpp:45-107 | exactly valid events encode, and they read back, signed fields as two's complement |
| `Input.EventEncodeInvertsDecode` | windows/src/wabridge_input.cpp:45-107 | every accepted event re-encodes to itself |
| `Display.CommandSurvivesUnlessSequenceZero` | windows/src/wabridge_display.cpp:7-34 | a command reads back exactly if its sequence is not zero; the encoder lets zero through and the decoder refuses it |
| `Display.CommandEncodeInvertsDecode` | windows/src/wabridge_display.cpp:7-34 | every accepted command re-encodes to itself, and its sequence is not zero |
| `Delivery.Router.constructor` | windows/include/wabridge_session_router.h:19 | six empty slots |
| `Delivery.Router.SetHandler` | windows/src/wabridge_session_router.cpp:5-10 | fills exactly the slot of a channel 1 to 5 with a real handler, refuses anything else |
| `Delivery.Router.Route` | windows/src/wabridge_session_router.cpp:12-16 | an empty slot gives false, a handler its verdict, and the feature dispatcher exactly its one recorded call |
| `Delivery.Router.SetFeatureDispatcher` | windows/src/wabridge_secure_coordinator.cpp:26-40 | control, file, clipboard and audio go to the dispatcher; the other slots are untouched |
| `Delivery.FeatureDispatcher.Dispatch` | windows/src/wabridge_feature_dispatch.cpp:5-38 | makes exactly the one call the envelope leads to, or none and returns false; for each of the six channel and kind pairs the call is on what that pair's decoder gives, and the verdict is that callback's answer |
| `Delivery.FrameExistsIff` | windows/src/wabridge_envelope.cpp:63-74 | a message has a frame exactly if it is well formed, fits (chunk data 1 MiB-28, audio data 256 KiB-26, clipboard id and text 1 MiB-29) and has a request id |
| `Delivery.PayloadReadsBack` | windows/src/wabridge_feature_dispatch.cpp:5-38 | the dispatcher calls the message's own callback with the same value, if it is there and the decoder lets the value through, and no other |
| `Delivery.CalledIff` | windows/src/wabridge_feature_dispatch.cpp:5-38 | any envelope leads to a call with m exactly if it has m's channel, kind and encoded payload and m has its callback; for an offer, any payload that decodes to it |
| `Delivery.MessageReachesItsCallback` | windows/src/wabridge_feature_dispatch.cpp:5-38 | a message's frame, read off a stream with anything behind it, leads to exactly its own callback with its value (an offer's name sanitised), and the stream is left at what follows |
| `Delivery.ChunkCapExceedsChannel` | windows/src/wabridge_file.cpp:110-119 | a chunk of the codec's own cap encodes but has no frame |
| `Delivery.AudioCapExceedsChannel` | windows/src/wabridge_audio.cpp:56-68 | an audio frame of the codec's own cap encodes but has no frame |
| `Delivery.ClipboardCapExceedsChannel` | windows/src/wabridge_clipboard.cpp:31-49 | a clipboard text of the codec's own cap encodes but has no frame |
| `Delivery.Carry` | windows/src/wabridge_tls_stream.cpp:73-120 | what one stream writes and the other reads is the envelope itself, whatever follows it, unless a transport breaks |
| `Delivery.RouteMessage` | windows/src/wabridge_session_router.cpp:12-16 | at the receiving router a message's envelope makes the message's own call once and returns that callback's answer, each of the six stated apart, or makes none and returns false |
| `Delivery.SendAcross` | windows/src/wabridge_feature_dispatch.cpp:5-38 | through two streams with arbitrary partial reads and writes, the router and the dispatcher, the record of callback calls grows by exactly the message's own, once, exactly if it is deliverable and no transport breaks, and the answer is that callback's, each of the six stated apart; otherwise by nothing or, if the break came later, the same |
| `KotlinCodecs.DecodeWithBuffer` | android/app/src/main/java/com/wabridge/android/protocol/Envelope.kt:55-72 | the cursor-moving decoder is the decoding function |
| `KotlinCodecs.EnvelopeDecodersAgree` | android/app/src/main/java/com/wabridge/android/protocol/Envelope.kt:55-72 | both sides accept the same byte strings and read the same envelope |
| `KotlinCodecs.EnvelopeEncodersAgree` | android/app/src/main/java/com/wabridge/android/protocol/Envelope.kt:34-53 | both sides encode an envelope to the same frame or both refuse |
| `KotlinCodecs.KotlinDecodeInvertsEncode` | android/app/src/main/java/com/wabridge/android/protocol/Envelope.kt:34-72 | the Android encoder takes exactly the envelopes with fields in range, a request id and a payload within the channel's limit, and its own decoder gives them back |
| `KotlinCodecs.StreamReadersAgree` | android/app/src/main/java/com/wabridge/android/session/TlsSessionClient.kt:85-103 | the two stream readers find the same envelopes and leave the same bytes; the Android one waits exactly for a header and then for a payload its channel allows |
| `KotlinCodecs.DecodeHelloWithBuffer` | android/app/src/main/java/com/wabridge/android/protocol/SessionHello.kt:53-74 | the cursor-moving decoder is the decoding function |
| `KotlinCodecs.HelloDecodersAgree` | android/app/src/main/java/com/wabridge/android/protocol/SessionHello.kt:53-74 | both sides accept the same hello payloads with the same value |
| `KotlinCodecs.HelloIsAwaitedIff` | android/app/src/main/java/com/wabridge/android/session/TlsSessionClient.kt:105-114 | the hello reader waits for a whole header and then for any payload of 1 to 65536 bytes, whatever else the header says |
| `KotlinCodecs.DecodeAudioWithBuffer` | android/app/src/main/java/com/wabridge/android/audio/AudioFrames.kt:44-65 | the cursor-moving decoder is the decoding function |
| `KotlinCodecs.AudioDecodersAgree` | android/app/src/main/java/com/wabridge/android/audio/AudioFrames.kt:20-65 | the Android side accepts exactly the frames whose timestamp is below 2^63, with the same value |
| `KotlinCodecs.DecodeInputWithBuffer` | android/app/src/main/java/com/wabridge/android/input/InputEvents.kt:58-80 | the cursor-moving decoder is the decoding function |
| `KotlinCodecs.InputDecodersAgree` | android/app/src/main/java/com/wabridge/android/input/InputEvents.kt:24-80 | the Android side accepts exactly the events whose code is at most 0x10FFFF, with the same value |
| `KotlinClient.TlsSessionClient.SendEnvelope` | android/app/src/main/java/com/wabridge/android/session/TlsSessionClient.kt:78-82 | a refused envelope sends nothing; else the whole frame goes out, or a beginning of it when the transport throws |
| `KotlinClient.TlsSessionClient.ReadEnvelope` | android/app/src/main/java/com/wabridge/android/session/TlsSessionClient.kt:85-103 | gives an envelope exactly when the native reader would find one in the same bytes, and consumes exactly its frame; a refused channel or length costs the header alone |
| `KotlinClient.TlsSessionClient.ReadHello` | android/app/src/main/java/com/wabridge/android/session/TlsSessionClient.kt:105-122 | gives a Windows hello exactly when the bytes in front carry one, and consumes exactly its frame; accepted or not, a payload of 1 to 65536 bytes is taken and one of any other length is not |
| `KotlinClient.TlsSessionClient.Stop` | android/app/src/main/java/com/wabridge/android/session/TlsSessionClient.kt:124-132 | the first call drops the connection, later ones do nothing |
| `PythonEnvelope.ReferenceDecoderAgrees` | shared/protocol/envelope.py:62-78 | the reference decoder accepts the same byte strings with the same value |
| `PythonEnvelope.ReferenceEncoderAgrees` | shared/protocol/envelope.py:40-59 | the reference encoder gives a frame exactly for messages whose fields are in range and that the native encoder accepts, and then the same frame |
| `Endpoint.Trim` | windows/src/wabridge_endpoint.cpp:10-16 | the two index loops take exactly the white space off both ends |
| `Endpoint.CheckHost` | windows/src/wabridge_endpoint.cpp:18-24 | true exactly for 1 to 253 bytes all above 0x20 and none 0x7f |
| `Endpoint.PortReadsBack` | windows/src/wabridge_endpoint.cpp:26-34 | the decimal text of every port from 1 to 65535 has at most five digits and reads back |
| `Endpoint.ParsePortIff` | windows/src/wabridge_endpoint.cpp:26-34 | a text is accepted as a port exactly if it has at most five bytes and is some zeros followed by the decimal of that port, which is not zero |
| `Endpoint.SplitBracketed` | windows/src/wabridge_endpoint.cpp:45-53 | the bracket branch finds the one host and port the text can spell, or that it spells none |
| `Endpoint.SplitPlain` | windows/src/wabridge_endpoint.cpp:54-65 | the colon branch does the same for texts without brackets |
| `Endpoint.ParseEndpoint` | windows/src/wabridge_endpoint.cpp:38-73 | returns an endpoint exactly if the trimmed text spells it under a grammar of four written forms, whose ports are zeros and a decimal, and none exactly if it spells none |
| `Endpoint.SpellingIsUnambiguous` | windows/src/wabridge_endpoint.cpp:38-73 | no text spells two endpoints |
| `Endpoint.CanonicalReparses` | windows/src/wabridge_endpoint.cpp:38-73 | every returned endpoint has a valid host and port and comes back from its canonical text, padded or not |
| `Endpoint.ExpressibleIff` | windows/src/wabridge_endpoint.cpp:38-73 | exactly which endpoints some text gives |

## Left out

- OpenSSL, Winsock, select and certificates: the handshake is a list of outcomes, a socket is its pipe.
- C++ memory-model races, and the lifetime of the stream reference when a stop overlaps a connection's own teardown: steps are atomic, and the lifetime claim is about sends.
- Whether `SecureCoordinator::stop` returns at all: a peer established just after the stop has read the active fields is served until its stream ends, so only what holds when it returns is stated.
- A handler or callback that calls stop on its own coordinator's thread.
- The coordinator's threads as Dafny code: `CoordinatorRuns` is a state machine over values, the classes run one method at a time.
- SessionPeer.SessionPeer.Run: has no other senders on its wire, and one stop by another thread at most; `CoordinatorAcks` has any number of both.
- Session.StateMachine.Apply: a rejection's reason is told apart by its kind and state, not by its text.
- `to_string`, `port`, `has_established_session` and the getters: they only read a field.
- Overflow of the discovery clock: time points are unbounded.
- SecureCoordinator.SecureCoordinator.Start: whether the port can be opened is a parameter.
- Endpoint.CheckHost: white space and control bytes are those of the "C" locale.
- Agreement of the Android and Windows file-offer and clipboard decoders: they differ on MIME characters, UTF-8 replacement and the sign of sizes and timestamps.
- The clipboard loop guards (they compare one token with the last one), the clipboard bridge that calls them, the pairing store (a lookup), short authentication strings (a formatted hash), the suspend toggle (one flag) and log trimming (a length cap): each contract would repeat a one-line body.
- The mDNS packet builder, QR pairing, and WABridgeSessionService with its Android callbacks and coroutines.
- Qt and Compose user interfaces, input hooks, accessibility gestures, audio capture and playback.
- Flag checks, duplicate request id checks and queue budgets of the protocol document: not in the code.

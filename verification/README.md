# Verified model of the websocket-rs native client

This project models the core of the native asyncio WebSocket client and its FIXT.1.1
decoder in Dafny, and proves what every run of it keeps.

**Receiving.** The client parses one byte stream with two parsers: a fast walk over
frame-aligned windows and a slow stateful parser for the handshake, fragments and
compressed or oversized frames. Glue code decides on every read which one runs, parks
tails, carries partial frames and skips parses. `Receive.Feed` proves that for every
stream, every split into reads and each of the three entry paths, the client's
messages, Pong replies, acknowledgments, handshake result and terminal event are those
of one run of one simple function, `Protocol.Run`, over the concatenated bytes.
`Fragments.RunMeansFrames` gives that function a meaning that mentions no parser state and
writes opcodes, limits and close codes as numbers; `Fragments.CompressedMessage` is the
round trip of a compressed message cut into any fragments. `Receive.FeedFrames` joins the
two: a server that accepts and then sends any list of frames has the effects the list
means, however its bytes are cut. `Receive.FeedRejected` is the case of a rejection.

**Sending.** Data frames take the raw socket, the transport buffer or the queue kept
while paused. `SendPath.Execute` proves for every run that a reference decoder recovers from
the bytes alone the text and binary frames of all send() calls made while connected, up to
those still queued, and the control frames the run calls for. What they should be is
computed from the calls, without the code's own frame builder.

**Delivery.** `Delivery` is the state machine of the backlog, parked and quarantined
receivers, the sweep, the Ping registry and teardown, with cancellation of any Future
and raising probes at any time. `DeliveryRuns` and `DeliveryFates` hold the theorems over
all runs: what recv() calls got, in call order, followed by the backlog, is what arrived;
and what becomes of every Future (`DeliveryFates.FutureStep`, `DeliveryFates.SettledForGood`).
`DeliveryPings` says when a probe starts and that a Pong in time gives it its result.
`Mailbox` is the imperative code, and `Mailbox.Drive` ties it to the state machine.

**End to end.** `Plan` says what a connection must do as a function of the steps it is put
through, and `Session.Converse` proves that receiving, delivery and sending together do
exactly that. What the recv() calls of the steps got, followed by the backlog, is the list
of messages the bytes mean; the Ping registry gets their Pongs and the handshake Future
their verdict; the peer decodes the messages sent, and as control frames the replies the
bytes call for, then the Close of a protocol error or of a local close; and queues and send
path are closed exactly when the bytes or a local close ended the connection.
`Session.ConverseRejected` is the same for a server that rejects.

**TLS pump.** `TlsStream.Serve` proves for every run of reads, pauses, resumes and closes:
while the transport is open and no call has failed, the bytes released and pending are
exactly the plaintext decrypted; if it is not paused either, the client behind it has done
what one run over all of that plaintext does. The transport closes only for a reason: the
client or the application closed, a TLS error, a round that exceeds 1 MiB, or the peer's
close; unless a call failed or reading is paused, it closes exactly then. A failure changes
the client's queues only by taking the handshake Future, at most once.

**FIX.** `FixMessage.DecodeIff`: a byte string decodes exactly when it is the print of a
well-formed message, and to that message. `FixDecoder` is the imperative decoder, proved
equal to the function these theorems are about.

## Layout

| file | content |
|---|---|
| Common, Codec | bytes, big-endian integers, frame headers, end of the HTTP block |
| Protocol, FastPath, Fragments | the stream function, the fast walk, frame lists and their meaning |
| Receive | the receiving client (class), chunk invariance |
| Masking, ClientFrame, SendPath | masking kernels, client frames, the sending client (class) |
| DeliveryOrder, Delivery | order, counting and answers; the delivery state machine |
| DeliveryRuns, DeliveryFates, DeliveryPings | theorems over runs: messages and calls; Futures; probes |
| Mailbox | the delivery code (class) |
| Plan, Session | what a connection must do; the whole client, end to end (class) |
| PlaintextPump, TlsTransport, TlsStream | flow of plaintext, the transport (class), whole runs |
| FixText, FixBody, FixHeader, FixFrame | fields, repeating group, header grammar, framing |
| FixMessage, FixGuarantees, FixDecoder | whole messages, what callers may rely on, the code |

## Assumptions

- `usize` has 64 bits. Native-endian words of the masking kernels are little-endian.
- Python calls succeed and do not re-enter the client, except that `pause_writing` may
  be called inside `transport.write`, and `pause_reading` and `close` while a chunk of
  plaintext is handled (an arbitrary function of the chunk's number). A Future's probe tells the truth or raises, and may start or stop
  raising at any time, also between the two looks a delivery takes. An exception that
  leaves a read ends that read; the receive theorems are about reads without one.
- A transport is attached until the connection ends, so every Ping is answered; an
  acknowledgment is a Pong payload presented to the Ping registry.
- `transport.write` appends and drains in order and pauses writing at arbitrary calls;
  `get_write_buffer_size` is truthful.
- The TLS reader returns at most the plaintext announced, and never "would block" while
  some is announced (the branch at rustls_transport.rs:364 would leave zero bytes behind).
- The decision on the HTTP response and DEFLATE are arbitrary functions of their input
  (`Protocol.Env`, `SendPath.Sender.compress`); mask keys are parameters.
- Theorems about received events reach up to and including the first terminal event
  (rejection, Close, protocol error); each connection uses one entry path.

## Promises that do not hold

Two promises of the delivery code fail, each in a branch that lets a Future or a message
go when its `done()` probe raises. The branches are modelled as they are.

*No awaiter is left hanging.* A Future is let go unsettled, out of reach of teardown,

- when the handshake is accepted while the probe of the handshake Future raises: the error
  of setting the result is ignored (client.rs:1731-1744);
- when the TLS transport fails while that probe raises: it takes the Future, and the
  raising probe ends the call before anything is settled or aborted
  (rustls_transport.rs:139-142);
- when a message is delivered to a receiver whose probe answered and then raises on the
  second look (client.rs:249-262, client.rs:1838-1851); if that happens in a scan, the
  Pings whose Pong the scan has already met are let go as well (client.rs:1474-1497).

`DeliveryFates.HandshakeFutureHangs` and `DeliveryFates.MessageLost` are concrete runs.
`DeliveryFates.SettledIff` is the exact condition: on a closed connection every Future is
settled if and only if each Future let go in one of these branches was cancelled by
its owner afterwards.

*No message is lost.* In the third branch the message is neither handed out nor queued,
although the comment at client.rs:1833-1837 says that a raising probe must not cost a
message; the model follows the code. `DeliveryRuns.ReceiveConservation` is exact: everything
that arrived was got by recv() calls or is in the backlog if and only if no delivery met a
live receiver whose second look raised.

## Model

| member | source | states |
|---|---|---|
| `Codec.ParseHeader` | src/native_client/codec.rs:125-155 | a header is found only within the buffer, is 2 to 10 bytes long and has a 4-bit opcode |
| `Codec.ParseHeaderStable` | src/native_client/codec.rs:125-155 | a complete header reads the same whatever bytes follow |
| `Codec.FindHeaderEndIsFirst` | src/native_client/codec.rs:235-237 | the block ends at the first CR LF CR LF, and is incomplete only if there is none |
| `Codec.FindHeaderEndStable` | src/native_client/codec.rs:235-237 | the end of the block does not move as bytes arrive |
| `Protocol.Step1` | src/native_client/protocol.rs:122-212 | no step takes more than is buffered; every step after which the loop goes on takes at least two bytes |
| `Protocol.StepStable` | src/native_client/protocol.rs:64-212 | a step that can be taken is taken the same way however many bytes follow |
| `Protocol.StepKeepsCore` | src/native_client/protocol.rs:122-212 | the partial assembly stays within 64 MiB and its slots are clear between messages |
| `Protocol.RunShape` | src/native_client/protocol.rs:216-226 | only the last event of a run is terminal; a run that has not ended needs more bytes |
| `Protocol.RunCapsMessages` | src/native_client/protocol.rs:122-212 | on any stream no emitted message and no partial assembly exceeds 64 MiB |
| `Protocol.RunSplit` | src/native_client/protocol.rs:64-226 | running over two pieces in turn is running over their concatenation |
| `Protocol.Finish` | src/native_client/protocol.rs:302-336 | a finished message gives a message event, or a protocol error only if it was compressed; which one, `Fragments.FinishDelivers` states |
| `Fragments.FinishDelivers` | src/native_client/protocol.rs:302-336 | an uncompressed message is delivered as it is, a compressed one inflated behind the marker 00 00 FF FF; not negotiated and unclean streams end with 1002, more than 64 MiB with 1009 |
| `Fragments.ClosePayloadCloses` | src/native_client/codec.rs:158-162 | a Close payload of two bytes or more gives their big-endian value as code and the rest as reason |
| `Fragments.CloseRoundTrip` | src/native_client/codec.rs:158-162 | code and text written into a Close payload read back as they were |
| `FastPath.LookAt` | src/native_client/codec.rs:205-233 | the walk stops where it is or advances over at least two bytes inside the data |
| `FastPath.VisitIsStep` | src/native_client/client.rs:1421-1508 | a visited frame has the effect the slow parser gives it |
| `FastPath.WalkRefinesRun` | src/native_client/codec.rs:200-234 | the fast walk followed by the slow parser on its tail is the slow parser on everything |
| `FastPath.Rescan` | src/native_client/codec.rs:205-233 | rescanning from where a walk stopped visits nothing and stops for the same reason, so no frame is delivered twice; a partial frame needs more than is there and at most 16 MiB + 10 |
| `FastPath.PartialStuck` | src/native_client/client.rs:1685-1690 | below the announced size of a partial frame no event is possible |
| `FastPath.WalkHere` | src/native_client/codec.rs:205-233 | one iteration ends the walk or adds exactly one frame's effects |
| `FastPath.HaltedForGood` | src/native_client/protocol.rs:216-226 | bytes after a terminal event add no effect |
| `FastPath.EffectsAre` | src/native_client/client.rs:1756-1831 | effects are the events by kind, each kind in order; a Ping of at most 125 bytes is answered with its own payload, a longer one with its first 125 bytes; the first rejection, Close or error is the end |
| `Receive.NativeClient.constructor` | src/native_client/mod.rs:113-137 | a fresh client owes nothing |
| `Receive.NativeClient.ProcessHandshake` | src/native_client/protocol.rs:64-119 | waits for the whole block, then takes exactly the step the stream function takes |
| `Receive.NativeClient.TakeFrame` | src/native_client/protocol.rs:132-210 | updates buffer and fragment slots exactly as the stream function's frame step |
| `Receive.NativeClient.NextEvent` | src/native_client/protocol.rs:122-212 | the loop returns the next event of the run and leaves exactly the rest of the run to do |
| `Receive.NativeClient.HandleProtocolEvent` | src/native_client/client.rs:1756-1831 | adds the event's effect; stops exactly on a terminal event |
| `Receive.NativeClient.ProcessBufferedFrames` | src/native_client/client.rs:1714-1753 | does everything owed on the buffered bytes, up to a terminal event or until bytes are missing |
| `Receive.NativeClient.VisitFrame` | src/native_client/client.rs:1432-1490 | delivering now and queueing replies adds up to the frame's effect |
| `Receive.NativeClient.WalkFrames` | src/native_client/client.rs:1421-1491 | delivered and queued effects are those of the walked frames; a Close is reported exactly when the walk stopped |
| `Receive.NativeClient.ScanFrameAligned` | src/native_client/client.rs:1421-1508 | what is owed after the scan is exactly a run over the unconsumed tail |
| `Receive.NativeClient.ParkTailAndDrain` | src/native_client/client.rs:1512-1533 | the tail is parsed as far as possible by the slow parser |
| `Receive.NativeClient.DataReceivedInner` | src/native_client/client.rs:1576-1586 | whichever parser runs, everything owed is done |
| `Receive.NativeClient.DataReceivedInnerPyBytes` | src/native_client/client.rs:1563-1574 | the zero-copy variant does the same |
| `Receive.NativeClient.ParseRecvData` | src/native_client/client.rs:1544-1561 | the region not consumed is stuck, and the size returned is that of the partial frame at its front |
| `Receive.NativeClient.DataReceived` | src/native_client/client.rs:721-744 | keeps agreement with one run over all bytes received |
| `Receive.NativeClient.DataReceivedPlaintext` | src/native_client/client.rs:1940-1948 | keeps agreement with one run over all bytes received |
| `Receive.NativeClient.BufferUpdated` | src/native_client/client.rs:1674-1709 | keeps agreement although parsing is skipped below the threshold; the threshold exceeds what is buffered and is at most 16 MiB + 10; bytes are carried only when frame-aligned with nothing else buffered |
| `Receive.FeedFrames` | src/native_client/client.rs:1405-1753 | an accepting handshake block and any frame list, cut into reads in any way over each entry path, have the effects the list means |
| `Receive.FeedRejected` | src/native_client/protocol.rs:104-111 | a rejected header block, whatever follows and however it is cut: no acceptance, no message, no reply, and the rejection with its status as end |
| `Receive.Feed` | src/native_client/client.rs:1405-1753 | chunk invariance: every split of every stream over each entry path has the effects of one run over the whole stream |
| `Fragments.ParseSerialized` | src/native_client/codec.rs:118-155 | a frame serialized with any of the three length forms parses back to its header and payload |
| `Fragments.FrameMatchesHistory` | src/native_client/protocol.rs:132-210 | the parser state stands for the frames seen so far, frame by frame |
| `Fragments.RunMeansFrames` | src/native_client/protocol.rs:122-212 | every frame list gives the events its history means, opcodes, sizes and codes as numbers: fragments joined around control frames, 1002 for sequence and 1009 for size violations, and no byte left over |
| `Fragments.StreamMeansFrames` | src/native_client/protocol.rs:64-226 | an accepting handshake block followed by any frame list gives the acceptance and then the events the list means |
| `Fragments.StreamRejected` | src/native_client/protocol.rs:104-111 | a header block the judge rejects, followed by any bytes, gives exactly the rejection with its status |
| `Fragments.StreamWaits` | src/native_client/protocol.rs:64-72 | nothing happens before the header block is complete |
| `Fragments.OversizedHeader` | src/native_client/protocol.rs:122-131 | a header announcing more than 16 MiB ends the connection with 1009 before any payload arrives |
| `Fragments.MessageFromFrames` | src/native_client/protocol.rs:132-210 | every way to cut a message into frames, with Pings and Pongs in between, gives those and then one event for the whole content |
| `Fragments.CompressedMessage` | src/native_client/protocol.rs:302-336 | compressed round trip: if inflating its bytes with the marker gives the message back, every way to cut them into frames delivers it; each of the three failures has its code |
| `Masking.XorInvolutive` | src/native_client/codec.rs:60-108 | exclusive or undoes itself at any width |
| `Masking.XorBits` | src/native_client/codec.rs:60-108 | exclusive or sets exactly the bits in which its arguments differ |
| `Masking.MaskedBits` | src/native_client/codec.rs:60-77 | masking flips a bit of a byte exactly if the mask byte at that position modulo four has it set |
| `Masking.WordXor` | src/native_client/codec.rs:60-77 | exclusive or of words is exclusive or of their bytes |
| `Masking.MaskedInvolutive` | src/native_client/codec.rs:60-77 | masking twice restores the payload |
| `Masking.MaskBlockIsMasked` | src/native_client/codec.rs:91-108 | a block masked as one wide word is masked byte by byte |
| `Masking.BlockInPhase` | src/native_client/codec.rs:91-108 | a block at an offset divisible by four keeps the mask's phase |
| `Masking.CopyMaskedFallback` | src/native_client/codec.rs:60-77 | writes byte-wise masked input to its range of the destination and nothing else |
| `Masking.StoreBlock` | src/native_client/codec.rs:91-108 | stores one block and changes no other byte |
| `Masking.CopyMaskedWide` | src/native_client/codec.rs:91-108 | the 64-byte kernel writes the same byte-wise masked input |
| `ClientFrame.LengthField` | src/native_client/client.rs:928-956 | one, three or nine length bytes, by size |
| `ClientFrame.LengthReads` | src/native_client/client.rs:928-956 | the length field sent is read back by the header parser, for each of its three forms |
| `ClientFrame.HeaderRoundTrip` | src/native_client/client.rs:928-996 | the header sent is that of a masked, final frame with RSV2 and RSV3 clear and parses back to its opcode, RSV1 flag and length |
| `ClientFrame.FrameRoundTrip` | src/native_client/client.rs:928-996 | decoding and unmasking a sent frame restores its content, whatever follows |
| `ClientFrame.DecodeEncodeAll` | src/native_client/client.rs:928-996 | any list of sent frames is recovered from the bytes alone |
| `ClientFrame.FrameLenMatchesHeader` | src/native_client/rustls_transport.rs:256-286 | the length scan agrees with the header parser on every input |
| `ClientFrame.FrameLenOfSent` | src/native_client/rustls_transport.rs:256-286 | for a sent frame the length scan gives its size |
| `SendPath.Sender.constructor` | src/native_client/client.rs:661-717 | only the handshake request has been written |
| `SendPath.Sender.NativeSend` | src/native_client/client.rs:606-621 | the kernel accepts a prefix or nothing |
| `SendPath.Sender.Send` | src/native_client/client.rs:853-1017 | each refusal has its exact guard and changes nothing; otherwise one frame joins the sent list, on the wire or in the queue by the pause flag; the wire stays whole frames in order |
| `SendPath.Sender.Transmit` | src/native_client/client.rs:963-1016 | however much the raw socket accepts, socket and transport buffer together gain exactly the frame, and the cached flag stays truthful |
| `SendPath.Sender.ResumeWriting` | src/native_client/client.rs:756-776 | the queue reaches the wire in order, even if writing pauses again meanwhile; afterwards writing is paused exactly if one of these writes paused it |
| `SendPath.Sender.EncodeControl` | src/native_client/client.rs:629-643 | encoding a control frame withdraws the cached "buffer is empty" |
| `SendPath.Sender.SendControl` | src/native_client/client.rs:1201-1223 | each refusal has its exact guard; otherwise one whole control frame is added without touching queued data |
| `SendPath.Sender.EncodePongs` | src/native_client/client.rs:1467-1473 | one reply per Ping, in order, cut to 125 bytes |
| `SendPath.Sender.AnswerPings` | src/native_client/client.rs:1467-1508 | the replies of a scan reach the wire in order, whole, also when the scan ended in a Close |
| `SendPath.Sender.Close` | src/native_client/client.rs:1370-1397 | the first close adds one empty Close frame behind whole frames, later ones nothing |
| `SendPath.Sender.FailConnection` | src/native_client/client.rs:1896-1909 | a protocol error adds one Close frame with its code if the transport is still held, and nothing after a local close |
| `SendPath.Sender.Lose` | src/native_client/client.rs:821-847 | a lost connection adds nothing |
| `SendPath.Sender.PeerDecodes` | src/native_client/client.rs:957-1016 | socket bytes and transport buffer decode to exactly the frames handed over |
| `SendPath.Perform` | src/native_client/client.rs:748-1397 | one call adds exactly the frame it is accepted for, the control frames it calls for, and moves open, handshake and compression state accordingly |
| `SendPath.SentIsWanted` | src/native_client/client.rs:870-873 | the frames of a run are those its send() calls ask for: text as opcode 1, binary as opcode 2, RSV1 exactly if compression is on, the payload as given or compressed |
| `SendPath.ControlsInAreWanted` | src/native_client/client.rs:629-643 | the control frames of a run are those its operations ask for: replies with opcode 10 and at most 125 bytes, Close frames with opcode 8 and their code in two bytes |
| `SendPath.Execute` | src/native_client/client.rs:748-1397 | wire integrity over every run: the peer decodes whole frames; its data frames followed by those in the queue are, until close, exactly those the send() calls ask for, and a prefix of them after; its control frames are exactly those the run asks for, in order; writing is paused, and the queue used, only by request or by a write of the transport |
| `DeliveryOrder.EarlierCallEarlierMessage` | src/native_client/client.rs:249-294 | of two recv() calls that got messages the earlier call got the earlier one |
| `DeliveryOrder.CollectedIsHanded` | src/native_client/client.rs:1020-1060 | what the calls got, as answers or as results of their Futures, in call order, is what was handed out, in hand-out order |
| `Delivery.SkipToLiveOk` | src/native_client/client.rs:249-262 | popping past settled and unprobeable receivers keeps every invariant and stops at a live one |
| `Delivery.SkipFindsFirstLive` | src/native_client/client.rs:249-262 | the receiver it stops at is the first in the queue whose probe answers "not done" |
| `Delivery.DeliverOk` | src/native_client/client.rs:1876-1890 | delivery keeps every invariant, also when the second look raises |
| `Delivery.DeliverReaches` | src/native_client/client.rs:1876-1890 | the first live receiver's Future holds the message, without one the backlog does, and nobody does exactly if that receiver's second look raises |
| `Delivery.SweepKeepsOk` | src/native_client/client.rs:276-292 | a sweep keeps every invariant, loses no waiting receiver and leaves room |
| `Delivery.RecvOk` | src/native_client/client.rs:1020-1060 | recv() keeps every invariant and answers with the front of the backlog if there is one, closed or not |
| `Delivery.RecvParks` | src/native_client/client.rs:1042-1060 | on an open connection without backlog recv() puts a new unsettled Future at the end of the queue; a sweep before it only moves or drops those its probes say |
| `Delivery.PingWaiterOk` | src/native_client/client.rs:1229-1342 | every outcome of ping_waiter() keeps every invariant; after close it changes nothing |
| `Delivery.PingWaiterAnswers` | src/native_client/client.rs:1229-1342 | each refusal of ping_waiter() has its exact guard; it starts a probe exactly if the payload is legal and free, the connection open and the Ping written, and then the Future is new, unsettled and the registry's entry for the payload, and nothing else changes |
| `Delivery.HoldPongOk` | src/native_client/client.rs:1474-1482 | taking a probe for later acknowledgment keeps every invariant |
| `Delivery.AcknowledgeOk` | src/native_client/client.rs:1494-1496 | acknowledging all probes in hand keeps every invariant |
| `Delivery.PongArrivesOk` | src/native_client/client.rs:1777-1783 | a Pong settles at most the probe registered for its payload and leaves every other Future and registration as it was |
| `Delivery.CleanupOk` | src/native_client/client.rs:53-66 | a late cleanup removes its own probe's entry and never another, whatever payload it reuses |
| `Delivery.LetGoOk` | src/native_client/client.rs:1731-1744 | taking the handshake Future, for acceptance or a TLS failure, keeps every invariant |
| `Delivery.TeardownSettles` | src/native_client/client.rs:1869-1874 | after teardown the registries are empty, and a Future is unsettled if and only if it was let go before and nobody cancelled it |
| `DeliveryRuns.NextOk` | src/native_client/client.rs:249-306 | every step in any order keeps every invariant |
| `DeliveryRuns.NextClosed` | src/native_client/client.rs:1020-1060 | once closed, no Future is created or registered |
| `DeliveryRuns.NextStranded` | src/native_client/client.rs:1731-1744 | a step lets Futures go exactly under its guard: a raising handshake probe at acceptance or TLS failure, or a live receiver whose second look raises |
| `DeliveryRuns.ReceiveConservation` | src/native_client/client.rs:1020-1060 | on every run what recv() calls got, in call order, followed by the backlog, is what survived of the arrivals; it is all of them if and only if no second look raised at a live receiver; a backlog means nobody is parked |
| `DeliveryRuns.BacklogServedAfterClose` | src/native_client/client.rs:1020-1041 | after close as many recv() calls as messages queued get exactly those in order, then everything has been collected and the next call is told the connection is closed |
| `DeliveryRuns.ReceiveFairness` | src/native_client/client.rs:249-294 | on every run hand-outs follow the order of the recv() calls, both directions |
| `DeliveryRuns.PeakIsExact` | src/native_client/client.rs:276-294 | the peak used in the bound is the largest number of receivers ever waiting at once |
| `DeliveryRuns.SweepBounds` | src/native_client/client.rs:276-294 | the queue never exceeds the threshold, the threshold max(32, twice the peak), and all sweep probes of the run twice its parks |
| `DeliveryFates.PingCorrelation` | src/native_client/client.rs:1229-1342 | a probe that succeeded was created by a call, and a Pong with exactly its payload arrived after it |
| `DeliveryFates.PongSettlesOne` | src/native_client/client.rs:227-234 | two probes that succeeded were settled by different Pongs |
| `DeliveryFates.FutureStep` | src/native_client/client.rs:1838-1963 | exactly what every step makes of every Future: a settled one is never touched, an unsettled one gets a message, an answer, a verdict, a cancellation or an exception under the stated guard and is otherwise left alone |
| `DeliveryFates.SettledForGood` | src/native_client/client.rs:1838-1963 | on every run a Future keeps what first settled it |
| `DeliveryPings.StartsIff` | src/native_client/client.rs:1229-1342 | on every run a call starts a probe exactly if the payload is legal and free, the connection open and the Ping written |
| `DeliveryPings.StillAwaits` | src/native_client/client.rs:1315-1341 | a probe goes on waiting until its first Pong, unless it is cancelled or the connection ends |
| `DeliveryPings.PongAnswers` | src/native_client/client.rs:1777-1783 | converse of correlation: if the first Pong with the payload arrives before cancellation and close, the probe has its result from then on, or the exception of its own probe |
| `DeliveryPings.ScanAnswers` | src/native_client/client.rs:1474-1496 | the same for a Pong met in a scan, unless a lost delivery ends the scan before it acknowledges |
| `DeliveryFates.HandshakeResult` | src/native_client/client.rs:1727-1745 | on every run the handshake Future holds a result if and only if an acceptance took it unsettled while its probe answered |
| `DeliveryFates.RejectionFails` | src/native_client/client.rs:1718-1726 | a rejected handshake fails its Future, unless its owner cancelled it first |
| `DeliveryFates.TeardownTotal` | src/native_client/client.rs:1869-1963 | on every closed run on which nothing was let go, the registries are empty and every Future is settled |
| `DeliveryFates.SettledIff` | src/native_client/client.rs:1869-1963 | on every closed run the registries are empty, and every Future is settled if and only if each one let go was cancelled afterwards |
| `DeliveryFates.StrandedFate` | src/native_client/client.rs:1838-1851 | a Future let go stays unsettled exactly until its owner cancels it |
| `DeliveryFates.HandshakeFutureHangs` | src/native_client/rustls_transport.rs:127-150 | a concrete run for each of the two branches after which the handshake Future hangs |
| `DeliveryFates.MessageLost` | src/native_client/client.rs:1876-1890 | a concrete run on which a message arrives, no call gets it, and its receiver hangs |
| `DeliveryFates.NextSpares` | src/native_client/client.rs:1838-1851 | nothing but its owner's cancellation settles a stranded Future |
| `DeliveryFates.ClosedForGood` | src/native_client/client.rs:821-847 | after close no step registers anything |
| `Mailbox.State.constructor` | src/native_client/mod.rs:113-140 | a fresh client is the initial state |
| `Mailbox.State.TakeLiveReceiver` | src/native_client/client.rs:249-262 | the loop computes the specified skip and pops its live receiver |
| `Mailbox.State.DeliverMessage` | src/native_client/client.rs:1876-1890 | the new state is the specified delivery, with the second look at the receiver; it fails exactly if that loses the message |
| `Mailbox.State.ParkReceiver` | src/native_client/client.rs:276-294 | the sweep keeps exactly the receivers known to wait, quarantines the unprobeable, sets the threshold from the survivors, and probes each receiver once or none |
| `Mailbox.State.RecvCall` | src/native_client/client.rs:1020-1060 | result and new state are the specified recv() |
| `Mailbox.State.RecvSlow` | src/native_client/client.rs:1042-1060 | a Future is created and parked as specified |
| `Mailbox.State.PingCall` | src/native_client/client.rs:1229-1342 | result and new state are the specified ping_waiter() |
| `Mailbox.State.StartProbe` | src/native_client/client.rs:1275-1342 | registration, abandonment or teardown as specified once the payload is free |
| `Mailbox.State.TakePing` | src/native_client/client.rs:227-234 | the registered probe moves from the registry to the acknowledgments due |
| `Mailbox.State.AcknowledgeAll` | src/native_client/client.rs:1494-1496 | exactly the probes in hand are settled, those whose probe raises with an exception |
| `Mailbox.State.PongArrived` | src/native_client/client.rs:28-41 | the new state is the specified settlement |
| `Mailbox.State.CleanupCallback` | src/native_client/client.rs:53-66 | removes its own entry and no other |
| `Mailbox.State.HandshakeAccepted` | src/native_client/client.rs:1727-1745 | the new state is the specified acceptance |
| `Mailbox.State.TlsFailed` | src/native_client/rustls_transport.rs:138-145 | the new state is the specified TLS failure: the handshake Future fails, or is let go if its probe raises |
| `Mailbox.State.HandshakeRejected` | src/native_client/client.rs:1718-1726 | the new state is the specified rejection |
| `Mailbox.State.SetFutureException` | src/native_client/client.rs:1860-1867 | fails the Future unless it is done, also when its probe raises |
| `Mailbox.State.TakePending` | src/native_client/client.rs:296-306 | returns exactly the registered Futures and empties every registry |
| `Mailbox.State.FailPending` | src/native_client/client.rs:1869-1874 | exactly the unsettled Futures of the list are failed |
| `Mailbox.State.Close` | src/native_client/client.rs:1914-1930 | the new state is the specified teardown |
| `Mailbox.Drive` | src/native_client/client.rs:249-306 | every run of the queues in place is a run of the state machine, and its sweeps make exactly the probes counted there |
| `Plan.EffectsGrow` | src/native_client/client.rs:1405-1586 | a longer stream only adds effects |
| `Plan.ReadOpsCarry` | src/native_client/client.rs:1421-1508 | the queue operations of a read carry exactly its new messages and acknowledgments, in order |
| `Plan.ReadOpsFromPeer` | src/native_client/client.rs:1714-1831 | a read performs only what its bytes cause, and closes exactly if they end the connection |
| `Plan.HeardIsInbound` | src/native_client/client.rs:721-744 | on every run the bytes heard mean what all reads before a local close mean |
| `Plan.CallsAreSteps` | src/native_client/client.rs:1020-1060 | on every run the recv() calls, cancellations and probe changes of the queues are those of the steps, in order |
| `Plan.SendsAre` | src/native_client/client.rs:853-1017 | on every run the frames sent are those the send() steps ask for after acceptance and before the end, compressed as negotiated |
| `Plan.ClosedForms` | src/native_client/client.rs:1714-1909 | on every run the handshake results are those the bytes call for, and the control frames are the replies they call for, then the Close of an error or of a local close |
| `Session.ReadBytes` | src/native_client/client.rs:721-744 | one read through any entry path extends the effects to those of the longer stream |
| `Session.Connection.Dispatch` | src/native_client/client.rs:1421-1508 | the queues perform exactly the operations of the read; they are closed after it exactly if its bytes end the connection |
| `Session.Connection.Handle` | src/native_client/client.rs:1421-1508 | handshake result, messages, acknowledgments, replies, the Close frame of an error and the end of the connection reach queues and wire, once and in order |
| `Session.Connection.ReadChunk` | src/native_client/client.rs:721-744 | a read does what the plan says; after a terminal event or a local close it does nothing |
| `Session.Connection.Call` | src/native_client/client.rs:1020-1060 | a call of the application is performed on the queues and changes nothing else |
| `Session.Connection.SendMessage` | src/native_client/client.rs:853-1017 | a message is accepted exactly if the handshake is done and the connection open, compressed as negotiated, and changes nothing else |
| `Session.Connection.Shutdown` | src/native_client/client.rs:1370-1397 | a local close ends reading, tears the queues down and writes one Close frame if the connection was open |
| `Session.Converse` | src/native_client/client.rs:721-1397 | end to end on every run: what the recv() calls of the steps got, in call order, followed by the backlog, is the list of messages the bytes mean; acknowledgments and handshake result are theirs; the peer decodes the messages sent, and the replies and Close the bytes call for; queues and send path are closed exactly when they, or a local close, ended the connection |
| `Session.ConverseRejected` | src/native_client/client.rs:1714-1726 | end to end for a server that rejects: nothing is delivered, answered or sent, whatever follows, and the handshake Future fails unless it was cancelled |
| `PlaintextPump.BoundaryStable` | src/native_client/rustls_transport.rs:181-193 | frame boundaries do not move as plaintext arrives |
| `PlaintextPump.AbsorbSound` | src/native_client/rustls_transport.rs:342-367 | taking in plaintext keeps conservation, framing and the 1 MiB bound |
| `PlaintextPump.ReleaseSound` | src/native_client/rustls_transport.rs:165-207 | every release moves bytes from pending to released, inside one frame, and makes progress |
| `PlaintextPump.RefusedIff` | src/native_client/rustls_transport.rs:165-193 | releasing fails exactly on more than 64 KiB without the end of the HTTP block, or on a frame length that overflows 64 bits |
| `TlsTransport.DataReceivedPlaintext` | src/native_client/client.rs:1940-1948 | a chunk handed to the client keeps it in step with the bytes released |
| `TlsTransport.RustlsTransport.constructor` | src/native_client/rustls_transport.rs:49-98 | a fresh transport has released nothing |
| `TlsTransport.RustlsTransport.TakeIn` | src/native_client/rustls_transport.rs:342-367 | accepted exactly when pending and announced bytes fit in 1 MiB; compaction changes nothing else |
| `TlsTransport.RustlsTransport.Forward` | src/native_client/rustls_transport.rs:210-212 | the client does what the chunk calls for; reading is paused exactly on request, and the transport closes exactly if the application asks or the client has ended |
| `TlsTransport.RustlsTransport.DrainPlaintext` | src/native_client/rustls_transport.rs:152-214 | conserves all plaintext, releases nothing while paused or closing, and otherwise stops only when nothing more can be released; pauses, closes and fails exactly under the stated guards |
| `TlsTransport.RustlsTransport.ReleaseChunk` | src/native_client/rustls_transport.rs:195-212 | releases exactly the next chunk |
| `TlsTransport.RustlsTransport.Advance` | src/native_client/rustls_transport.rs:195-207 | what is left of the frame in progress is tracked exactly |
| `TlsTransport.RustlsTransport.PauseReading` | src/native_client/rustls_transport.rs:449-462 | the pause holds from the chunk being handled on |
| `TlsTransport.RustlsTransport.Fail` | src/native_client/rustls_transport.rs:127-150 | the client's queues take the specified TLS failure; the transport is aborted unless the probe of the handshake Future raises, and exactly then the call fails |
| `TlsTransport.RustlsTransport.FinishPeerClose` | src/native_client/rustls_transport.rs:216-234 | acts exactly on the peer's close of an open, unpaused transport: a regular close if every pending byte was released, otherwise the failure of a cut frame |
| `TlsTransport.MisfitIff` | src/native_client/rustls_transport.rs:31-41 | a read is free of errors exactly if no round is a TLS error and every round fits in 1 MiB behind what is pending |
| `TlsTransport.RustlsTransport.TakeInAll` | src/native_client/rustls_transport.rs:311-373 | the error is exactly that of the first round that is a TLS error or does not fit in 1 MiB; without one all plaintext of the read joins the stream and the peer's close is seen |
| `TlsTransport.RustlsTransport.DataReceived` | src/native_client/rustls_transport.rs:307-381 | aborts exactly on such a round, with its error; otherwise all plaintext is taken in, nothing is released while paused, afterwards nothing releasable is left, and it closes or fails exactly as `Ended` says |
| `TlsTransport.RustlsTransport.ResumeReading` | src/native_client/rustls_transport.rs:464-486 | what waited is released before more is asked for; it closes or fails exactly as `Ended` says |
| `TlsTransport.RustlsTransport.Close` | src/native_client/rustls_transport.rs:497-512 | closing is final and keeps its first reason |
| `TlsStream.BoundaryFinished` | src/native_client/rustls_transport.rs:181-207 | up to any frame boundary the client has consumed every byte or ended |
| `TlsStream.NothingHeldBack` | src/native_client/rustls_transport.rs:152-214 | bytes a drained pump still holds cannot cause an event yet |
| `TlsStream.PendingSmall` | src/native_client/rustls_transport.rs:165-193 | a drained pump holds at most 64 KiB of an HTTP block or nine bytes of a frame header |
| `TlsStream.ReadFits` | src/native_client/rustls_transport.rs:31-41 | so without a pause no read of up to 960 KiB of plaintext exceeds the bound |
| `TlsStream.Serve` | src/native_client/rustls_transport.rs:152-512 | on every run, while the transport is open and no call has failed, released and pending bytes are the plaintext decrypted, and if it is unpaused the client has done what one run over all plaintext does; it closes only, and if no call failed and it is unpaused exactly, when the client or application closed or an operation ends it; calls fail and reading pauses only for the stated reasons; the queues are untouched but for at most one TLS failure |
| `FixText.PrintNatShape` | src/fix.rs:64-98 | canonical decimal text has no leading zero |
| `FixText.ParseTagIffPrinted` | src/fix.rs:64-79 | accepted exactly when the text is the canonical print of a positive 32-bit integer |
| `FixText.ParseDecimalIffPrinted` | src/fix.rs:81-98 | accepted exactly when the text is the canonical print of a 64-bit integer |
| `FixText.FieldAtSound` | src/fix.rs:100-125 | the bytes of an accepted field are its print, and the value holds no SOH |
| `FixText.FieldAtComplete` | src/fix.rs:100-125 | a printed field is found again wherever it stands |
| `FixBody.EntryRecovers` | src/fix.rs:52-62 | slicing entry i stays in bounds and gives back that entry |
| `FixBody.AddAllSound` | src/fix.rs:256-325 | whatever the group machine accepts has distinct scalar tags and well-formed entries, with no field dropped or reordered |
| `FixBody.AddAllComplete` | src/fix.rs:256-325 | every body of that shape is accepted and stored as it is |
| `FixHeader.RequireField` | src/fix.rs:147-181 | the cursor only moves forward, within the fields |
| `FixHeader.GreedyIsExact` | src/fix.rs:169-178 | taking the first matching optional tag is never worse than any other choice |
| `FixHeader.RequireIffSegment` | src/fix.rs:147-181 | accepted exactly for optional tags in list order followed by the required field with a value |
| `FixHeader.HeaderIff` | src/fix.rs:183-206 | header validation accepts exactly the declared grammar, with its tag lists as numbers |
| `FixFrame.ChecksumIsSum` | src/fix.rs:247-249 | the wrapping fold is the sum modulo 256 |
| `FixGuarantees.FrameLayout` | src/fix.rs:208-254 | the bytes of a frame in numbers: version, length, body, and the byte sum modulo 256 in three digits |
| `FixFrame.ChecksumSeesByte` | src/fix.rs:247-254 | changing one byte changes the checksum |
| `FixFrame.TrailerIff` | src/fix.rs:234-254 | the trailer is accepted exactly when it spells the checksum of all bytes before it |
| `FixFrame.FramingFacts` | src/fix.rs:209-254 | whatever framing accepts is the frame printed around its own body |
| `FixFrame.FramingComplete` | src/fix.rs:209-254 | every printed frame within the size limit is accepted |
| `FixFrame.FramingPrefixFree` | src/fix.rs:222-233 | the length field fixes where a frame ends |
| `FixFrame.SubstitutionBreaks` | src/fix.rs:213-254 | no single substituted byte leaves the framing intact |
| `FixMessage.ParseBodySound` | src/fix.rs:265-271 | the bytes of the body are the print of the fields added |
| `FixMessage.ParseBodyComplete` | src/fix.rs:265-271 | printed fields the group machine accepts are parsed |
| `FixMessage.LeadIff` | src/fix.rs:135-145 | the lead tag is 269 exactly for MsgType W and 279 exactly for X |
| `FixMessage.DecodeSound` | src/fix.rs:208-348 | whatever is accepted is the print of a well-formed message, returned unchanged |
| `FixMessage.DecodeComplete` | src/fix.rs:208-348 | every well-formed message decodes from its print to itself |
| `FixMessage.DecodeIff` | src/fix.rs:208-348 | acceptance and result, both directions |
| `FixGuarantees.DecodeThenPrint` | src/fix.rs:208-348 | printing scalars, entries and trailer of the result reproduces the input byte for byte |
| `FixGuarantees.DecodeInjective` | src/fix.rs:208-348 | different frames never decode to the same result |
| `FixGuarantees.PrintInjective` | src/fix.rs:208-348 | different well-formed messages have different prints |
| `FixGuarantees.PrefixFree` | src/fix.rs:222-233 | no accepted frame is a proper prefix of another |
| `FixGuarantees.SubstitutionRejected` | src/fix.rs:213-254 | every single-byte substitution in an accepted frame is rejected |
| `FixGuarantees.GroupStructure` | src/fix.rs:256-337 | on acceptance scalar tags are distinct, entry slices are in bounds and partition the entry fields, their number is the value of tag 268, each starts with MsgType's lead tag and repeats no tag |
| `FixDecoder.Accumulate` | src/fix.rs:87-97 | checked multiply and add stop at the same digit as the unbounded value |
| `FixDecoder.ParseTag` | src/fix.rs:64-79 | exactly the canonical prints of positive 32-bit integers |
| `FixDecoder.ParseDecimal` | src/fix.rs:81-98 | exactly the canonical prints of 64-bit integers |
| `FixDecoder.ScanField` | src/fix.rs:101-112 | one pass finds the first SOH and the first '=' before it |
| `FixDecoder.ParseField` | src/fix.rs:100-125 | the loop computes the specified field or error |
| `FixDecoder.RequireStandardHeaderField` | src/fix.rs:147-181 | the two-cursor loop computes the specified position or error |
| `FixDecoder.ValidateStandardHeader` | src/fix.rs:183-206 | succeeds exactly on the declared grammar |
| `FixDecoder.WrappingSum` | src/fix.rs:247-249 | the fold over the bytes before the trailer |
| `FixDecoder.VerifyTrailer` | src/fix.rs:234-254 | the specified trailer check with each of its errors |
| `FixDecoder.ReadFraming` | src/fix.rs:209-254 | the specified framing with each of its errors, in the source's order |
| `FixDecoder.PushScalar` | src/fix.rs:281-301 | the scalar arm, with each of its errors |
| `FixDecoder.TakeField` | src/fix.rs:273-324 | one body field, scalar or entry, with each of its errors |
| `FixDecoder.ReadBody` | src/fix.rs:256-329 | the body loop computes the specified body or error |
| `FixDecoder.DecodeFrame` | src/fix.rs:208-348 | the decoder computes the function all theorems above are about, errors included |

## Left out

- TLS cryptography, DEFLATE, HTTP header matching, SHA-1 and Base64: foreign or text matching; here they are arbitrary functions.
- PyO3, asyncio plumbing, reference counting, raw pointers, zero-copy slices and socket options: no content to prove at this level.
- `on_message` callbacks and re-entrancy through user-defined Futures: they would swamp the delivery state machine.
- Error texts, the lossy UTF-8 decoding of a close reason and the payload text of exceptions: only which error is raised is modelled.
- Receive.NativeClient.HandleProtocolEvent: records effects only; delivery, close codes and the Close frame are modelled in Mailbox and SendPath and joined in Session.
- Session.Connection.Handle: within one read it performs all messages before all acknowledgments, where the slow parser interleaves them; they act on different Futures and registries.
- Session.Converse: covers recv() and send(); Pings sent by the application and TLS are covered by Mailbox.Drive and TlsStream.Serve alone.
- Events after a terminal event, masked server frames, and a peer that closes in mid-payload: the code promises nothing about them.
- Frames still queued when `close()` drops the write queue are not delivered, as in the code.
- Shrinking of the Ping registry's capacity and the saturation of the sweep threshold at the integer limit: sizes only.
- The Kalshi projection and floating-point fields of src/fix.rs: field-by-field checks that would add easy members.
- Latin-1 conversion of FIX values: a byte-to-code-point identity.
- `connection_lost` clearing the pump's plaintext, and the outgoing TLS direction of the transport.
- src/sync_client.rs, src/async_client.rs, connection setup and the echo servers: not part of this model.

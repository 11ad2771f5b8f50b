# Mina Network Debugger: a verified model of the recording path

The debugger watches a node from outside. A kernel probe copies the node's system calls into a
ring buffer; user space takes the events out, follows every peer-to-peer connection through its
protocol layers (Noise, multistream-select, mplex or yamux, RPC and gossip), stores each message
in an embedded database with several indexes, and answers queries over it. Nothing on that path
can ask a peer to repeat itself, so the whole value of the tool rests on one promise: what is
stored and shown is what the peers said, however the kernel happened to cut it up.

This project models that path and proves what it keeps and, where it does not keep it, exactly
when. `dafny verify dfyconfig.toml` checks everything.

| file | part of the system |
|---|---|
| `Bytes.dfy`, `Varint.dfy`, `Framing.dfy` | bytes, variable-length numbers, and the theory of cutting a stream into frames |
| `Wire.dfy` | the event record written in the kernel and parsed in user space |
| `RingBuffer.dfy`, `Stall.dfy` | the ring shared by kernel producers and the consumer, as a transition system, the consumer itself, and when the ring stops for good |
| `Lifecycle.dfy` | the event loop and the recorder's connection contexts |
| `Noise.dfy` | chunking, handshake and transport of the encrypted layer, with byte accounting |
| `Multistream.dfy`, `Negotiation.dfy`, `Crossing.dfy` | the negotiation state, one side's turn, and negotiations in which both sides talk at once |
| `Streams.dfy`, `Delivery.dfy` | stream ids, stream status as a function of history, and handing messages over |
| `Mplex.dfy`, `Yamux.dfy`, `YamuxData.dfy`, `YamuxWritten.dfy` | the two multiplexers |
| `Accumulator.dfy`, `Rpc.dfy` | reassembly of gossip and RPC messages, matching of responses with queries |
| `Blobs.dfy` | offsets of stored chunks |
| `ColumnFamily.dfy`, `SortedIntersect.dfy`, `Query.dfy` | indexes, their intersection, and queries against a full scan |
| `Restarts.dfy` | numbering of connections and messages over restarts |
| `SearchTimestamp.dfy` | the search for a record by time |
| `Stats.dfy` | block and transaction statistics |

Two forms occur throughout. Code that changes state in place is a class whose methods are proved
against a function on values (`View() == Step(old(View()), ...)`); what the system promises is then
proved about that function over all runs. Cryptography, text decoding and the binary codec of RPC
headers are parameters of the model; a theorem that needs something of them says so in its
`requires` (for instance `Noise.Sound`: opening undoes sealing in the same state).

## What is proved, in short

* **Ring buffer.** In every interleaving of kernel and consumer steps the consumer never overruns,
  never reads a record that is being written, and delivers exactly the committed records, in order.
  Because it gives memory back only after a value, the ring can stop for good. It has stopped if and
  only if nothing fits, no value is about to be given back, and no record being parsed or still to
  come can yield one. The scratch records that the program discards at every exec bring a ring of
  any size to that state. Records of n bytes that the reader drops do so, for everything that is
  sent, if and only if what they leave, the ring less one modulo their size, is below 48 bytes;
  otherwise the bare header that the sender falls back to still fits and frees the ring.
* **Event loop.** Over every sequence of events the calls to the recorder are, one for one and in
  order, those that the events call for: data is delivered exactly if it comes on an open
  connection, with that connection's address and its own direction and bytes.
* **Chunk independence**, layer by layer, for every cutting of the bytes and every interleaving of
  the two directions, derived once for any length-prefixed format (`Framing`).
* **Noise.** An observer who knows enough keys reads exactly what both peers wrote. The third
  handshake message must have 98 bytes in the code although its fixed part has 66, so the observer
  follows the peers if and only if the payload of that message has at least 32 bytes.
* **multistream-select.** For plain negotiation, declined and accepted simultaneous connect, however
  the two sides are cut and interleaved: both directions settle, take exactly their tokens and hand
  up exactly what follows them. What follows the name is handed up, all of it, if and only if a
  chunk comes behind the name. With simultaneous connect this holds throughout if and only if no
  chunk of a side comes behind its first name, with anything to read, before the other side's
  request is there; what it carries is handed up as if the protocol had sent it.
* **mplex.** Status is a function of history. Messages are handed over only after all frames of the
  chunk have been processed, and the lookup is annotated as one that cannot fail. It can: it fails
  exactly when a stream is gone at the end of the chunk that carried a message for it. What the
  streams receive is what frame-by-frame handling gives them if and only if no message is followed
  in its own chunk by a frame that ends its stream.
* **yamux.** The header conversions are inverse to each other, and the processing loop ends if and
  only if no malformed header is met behind other bytes. Of the frames that two peers write, however
  cut and interleaved, every stream gets exactly the bodies written for it since it was last opened.
  Stream status is what history prescribes if and only if no data is handed over to a stream that is
  neither open nor recently reset; data carrying the second close of its stream brings the stream
  back.
* **RPC.** A response is stored if and only if a query with its id is unanswered, with that query's
  name and version and exactly what its peer wrote behind the header. A message that yields nothing
  to store, such as a heartbeat, ends the call: the complete messages behind it wait for the next
  chunk, and how the bytes are cut decides only that.
* **Queries.** A query by indexes equals a scan of all messages, except that a query by kinds alone
  lists a message once per matching kind; it equals the scan if and only if no message matches
  twice.
* **Restarts.** The stored totals are the last ids and not the numbers of records, so the first
  message and the first connection after a restart take an id in use. The indexes stay exact if and
  only if that message carries every key of the one it replaces, and messages are shown with their
  own peer if and only if that connection replaces none with messages of another peer.
* **Statistics.** After every message the stored records are the current ones. Every pooled
  transaction or snark entry is waiting, or reported in the last record stored for its height, or
  lost. Entries are lost exactly by a message in which a block that includes them is followed by a
  higher one. The collector panics exactly if a new block includes an entry that was pooled at a
  later time, which does not happen while times do not run backwards.
* **Storage.** Over every run with restarts, failed writes and concurrent writers, a stored chunk is
  never overwritten.

## Model

| member | source | states |
|---|---|---|
| Framing.FramesConserve | mina-recorder/src/connection/noise.rs:51-83 | frames followed by the residue are the input, and the residue holds no complete frame |
| Framing.FramesAppend | mina-recorder/src/connection/accumulator.rs:39-64 | chunk independence of any length-prefixed format: framing a part and then its residue with the rest frames the whole |
| Framing.FramesOfFlatten | mina-recorder/src/connection/accumulator.rs:39-64 | unique framing: whole frames glued together and an incomplete tail come back as those frames and that tail |
| Framing.EventsAreFrames | mina-recorder/src/connection/noise.rs:51-83 | for every chunking and interleaving of two directions, each direction yields the frames of its own stream |
| Varint.RoundTrip | mina-recorder/src/connection/mplex.rs:69 | every 64-bit number comes back from its variable-length encoding, whatever follows it |
| Varint.AtMostTen | mina-recorder/src/connection/mplex.rs:69 | no number takes more than ten bytes |
| Wire.EventRoundTrip | bpf-recorder/src/lib.rs:13-23 | the 40-byte event header written by the kernel side reads back field by field, with all tags and negative sizes |
| Wire.CopiesExactly | bpf-recorder/src/send.rs:61-110 | the chain of power-of-two classes accepts exactly the sizes up to 2^27, and the masked copy length equals the size |
| Wire.HasClass | bpf-recorder/src/send.rs:61-110 | every size up to 2^27 has a class: none for an event without a body, and else the least power of two from 2^8 on that holds it |
| Wire.SentIff | bpf-recorder/src/send.rs:18-56 | an event is sent if and only if its class or else a bare header can be reserved, and the record is as long as that |
| Wire.RecordRoundTrip | bpf-recorder/src/lib.rs:132-225 | every record sent parses to its own event, a close and a snark worker to their notices, to the error for a negative size (also code -90 for one that did not fit), to a panic exactly for a cut-off address or an empty alias, to nothing exactly for a foreign address family, debug or listen, and to the exit exactly if the copy helper reports more than the area holds |
| Wire.ShortBindPanics | bpf-recorder/src/lib.rs:175-178 | binding with a two-byte address makes the reader panic |
| Wire.AddressRoundTrip | bpf-recorder/src/lib.rs:175-189 | an IPv4 or IPv6 socket address as the kernel lays it out reads back |
| Wire.DataArrives | bpf-recorder/src/send.rs:10-58 | a successful copy arrives as exactly the source bytes, with the tag that says what they are, and a socket address as the address it lays out |
| RingBuffer.RingIsSafe | bpf-ring-buffer/src/lib.rs:154-249 | in every run from an empty ring: positions ordered, aligned and within one ring, no fault, and exactly the committed parseable records delivered, in order, once |
| RingBuffer.StepKeepsInv | bpf-ring-buffer/src/lib.rs:171-249 | every kernel or consumer step keeps the invariant that ties memory, positions and history together |
| RingBuffer.ReadHeaderExact | bpf-ring-buffer/src/lib.rs:171-226 | from memory alone the consumer concludes what history says: wait, skip, or the bounds of the record |
| RingBuffer.SliceIntact | bpf-ring-buffer/src/lib.rs:227-242 | the slice being parsed lies inside the doubled mapping and still holds the committed bytes, whatever the kernel has done since |
| RingBuffer.FaultsAreSeen | bpf-ring-buffer/src/lib.rs:171-242 | what counts as a fault in any state: positions more than a ring apart, a submitted record that ends behind the loaded position, a slice that leaves the doubled mapping |
| RingBuffer.ConsumerAdvances | bpf-ring-buffer/src/lib.rs:171-249 | an idle consumer in front of a submitted record passes it in two steps |
| Stall.QuietIff | bpf-ring-buffer/src/lib.rs:154-169 | with records of at least m bytes: nothing is ever reserved, given back or delivered again if and only if nothing fits, no value is about to be given back, and no record being parsed or still to come can yield one |
| Stall.StallIsReachable | bpf-ring-buffer/src/lib.rs:154-169 | a ring of any size can be filled with any record that the parser rejects, and is then quiet for records of at least m bytes if and only if less than such a record takes is left |
| Stall.DiscardsStall | bpf-ring-buffer/src/lib.rs:154-169 | the same for any parser with discarded records |
| Stall.ScratchStalls | bpf-recorder/src/main.rs:203-249 | the eight-byte records discarded at every exec, the least that is ever reserved, bring a ring of any size to a state in which nothing the program reserves fits any more, with the real reader |
| Stall.DroppedEventsStall | bpf-recorder/src/send.rs:18-56 | events of the real reader that it drops fill a ring of any size, and stop it for everything that is sent, bare headers included, if and only if less than 48 bytes are left |
| Stall.BodiesLeaveRoom | bpf-recorder/src/main.rs:14-16 | in the ring of the program 207 bytes are left after dropped records of 296 bytes, so a bare header still fits and the ring has not stopped |
| Stall.CanDeliver | bpf-ring-buffer/src/lib.rs:171-249 | a record that can yield a value is delivered in some continuation |
| RingBuffer.Reader.ReadSlice | bpf-ring-buffer/src/lib.rs:171-249 | one read moves the position and returns a value exactly as the specification of the header says, and keeps the last distance |
| RingBuffer.Reader.ReadValue | bpf-ring-buffer/src/lib.rs:154-169 | the shared consumer position moves only together with a value |
| Lifecycle.LoopStaysInStep | bpf-recorder/src/main.rs:1367-1504 | over every event sequence, connect and disconnect calls alternate on each socket for one address, and the maps say what the calls say |
| Lifecycle.UnconfirmedIsHistory | bpf-recorder/src/main.rs:1367-1387 | an outgoing connection is unconfirmed exactly if it was announced and the socket's state has not been read since; closing the socket does not withdraw it |
| Lifecycle.ConnectionsAreHistory | bpf-recorder/src/main.rs:1382-1500 | a socket is connected to an address exactly if an event accepted or confirmed that connection and none has opened or closed one there since |
| Lifecycle.ContextsAreConnections | mina-recorder/src/recorder.rs:183-348 | if the database accepts every connection, contexts are exactly the open connections and every chunk finds its context |
| Lifecycle.LiveIsHistory | mina-recorder/src/recorder.rs:183-348 | a context is live if and only if its connection is open and the database accepted it when it was opened |
| Lifecycle.CallsAreEvents | bpf-recorder/src/main.rs:1367-1650 | over every event sequence connects, disconnects and deliveries are, in order and one for one, the calls for the events: incoming for accepted and outgoing for confirmed connections, the old address for what is closed or replaced |
| Lifecycle.DeliveriesAreData | bpf-recorder/src/main.rs:1523-1655 | data is delivered if and only if it comes on an open connection, on a descriptor above 2, of a process that is no worker; each delivery carries that connection's address and its own direction and bytes |
| Lifecycle.Loop.Handle | bpf-recorder/src/main.rs:1367-1650 | one event changes the maps and makes the calls that the transition function prescribes |
| Lifecycle.Loop.Open | bpf-recorder/src/main.rs:1425-1440 | a connection opened on a used socket first closes the old one, with the old address |
| Noise.ChunkState.OnData | mina-recorder/src/connection/noise.rs:51-83 | however bytes arrive, the inner state sees exactly the frames of what was left over with the new bytes; the other direction is untouched |
| Noise.ChunkState.Drain | mina-recorder/src/connection/noise.rs:62-82 | hands over every complete frame in order and returns the residue |
| Noise.NoiseState.OnData | mina-recorder/src/connection/noise.rs:133-200 | one message moves machine, error latch and counters as the step function says, on every branch |
| Noise.Conservation | mina-recorder/src/connection/noise.rs:133-291 | over every run each byte is counted once, as cleartext, as failed or as the fixed overhead of an accepted message; the stored total is cleartext plus failed |
| Noise.CountersAreOutcomes | mina-recorder/src/connection/noise.rs:133-291 | each stored total counts the messages of its own direction, and cleartext and failed bytes those accepted and failed |
| Noise.RunShape | mina-recorder/src/connection/noise.rs:341-458 | every run is the handshake in order, then data, then failures only |
| Noise.FailureIsFinal | mina-recorder/src/connection/noise.rs:133-200 | after the first failure every byte of either direction is counted as failed |
| Noise.ReceiveReply | mina-recorder/src/connection/noise.rs:363-397 | an honest second message moves the observer to the responder's symmetric state and payload |
| Noise.ReceiveFinal | mina-recorder/src/connection/noise.rs:398-429 | an honest third message is accepted if and only if its payload has 32 bytes, and then gives the peers' transport keys |
| Noise.HandshakeObserved | mina-recorder/src/connection/noise.rs:343-429 | after an honest handshake the observer holds the peers' own keys, or is in error, by the same condition |
| Noise.TransportRun | mina-recorder/src/connection/noise.rs:430-456 | for every interleaving the cleartexts of each direction come out in order under its own nonce counter |
| Noise.ObserverReadsBothSides | mina-recorder/src/connection/noise.rs:51-458 | end to end: for every chunking and interleaving after the handshake, what both parties wrote is delivered exactly |
| Multistream.ShortcutAgrees | mina-recorder/src/connection/multistream_select.rs:129-162 | recognising the two simultaneous-connect tokens by their bytes consumes what parsing by length would consume, and exactly when |
| Multistream.WordsSpell | mina-recorder/src/connection/multistream_select.rs:59-135 | the byte constants spell the words of the protocol |
| Multistream.DrainAppend | mina-recorder/src/connection/multistream_select.rs:53-90 | draining a part and then the rest is draining the whole; after a settled protocol or an error the rest just queues |
| Multistream.RunConserves | mina-recorder/src/connection/multistream_select.rs:182-225 | in every run, with retractions and errors, what a direction received is its tokens and payload in order, then its buffer, then what came after an error |
| Multistream.RunTokensWhole | mina-recorder/src/connection/multistream_select.rs:129-162 | everything consumed as a token is one whole length-prefixed token |
| Multistream.ErrorIsFinal | mina-recorder/src/connection/multistream_select.rs:189-191 | after an error no chunk of either direction has any effect |
| Multistream.OneSideChunking | mina-recorder/src/connection/multistream_select.rs:39-93 | however one direction is cut, it consumes the same tokens and reaches the same agreement or error; what follows is handed up, all of it, exactly if a chunk comes after the one that settles, and else all of it is buffered |
| Multistream.OutputsAreItems | mina-recorder/src/connection/multistream_select.rs:39-93 | in every run the data the calls return are exactly the payload handed up, each under the protocol the direction named last, and their tokens are the texts of the consumed frames up to one that is no text |
| Negotiation.PayloadReachesProtocol | mina-recorder/src/connection/multistream_select.rs:39-93 | after greeting and protocol name the calls return these two tokens, and hand to that protocol exactly the bytes that follow if and only if there are none or a chunk comes behind the name; otherwise nothing is handed over and they are buffered |
| Negotiation.GluedPayloadWaits | mina-recorder/src/connection/multistream_select.rs:47-50 | payload glued to the name in the only chunk is not handed over; with one more chunk it is, in front of that chunk |
| Negotiation.RefusedThenAgreed | mina-recorder/src/connection/multistream_select.rs:68-78 | a proposal settles, the other side's `na` takes that back, and the next proposal settles again, with every turn cut in any way; the tokens are reported and the payload is handed over exactly if a chunk comes behind the last name |
| Negotiation.Turn | mina-recorder/src/connection/multistream_select.rs:39-93 | one turn of a negotiation, however chunked: exactly its tokens are consumed, both directions react to them, and what follows is handed up exactly if the last chunk lies behind the tokens |
| Negotiation.LineIsToken | mina-recorder/src/connection/multistream_select.rs:135-162 | a line as a peer writes it, with its length and newline, is exactly the token of its text |
| Crossing.LinesAreSpeech | mina-recorder/src/connection/multistream_select.rs:59-83 | lines with any version, nonce, role and protocol name are the tokens of these negotiations |
| Crossing.AlwaysRightIff | mina-recorder/src/connection/multistream_select.rs:39-93 | over every cutting and interleaving of the two sides, in which roles come after the other side's first name and `na` after the request: both directions take exactly their tokens and hand up exactly what follows them, throughout, if and only if no chunk comes behind a first name before the other side's request |
| Crossing.BothSettle | mina-recorder/src/connection/multistream_select.rs:39-93 | plain negotiation, declined and accepted simultaneous connect end with both directions settled; the calls return each side's tokens, and hand its payload to the protocol exactly if a chunk comes behind the last token |
| Crossing.InTurnNeverPremature | mina-recorder/src/connection/multistream_select.rs:62-67 | sides that select only when the other side's request is there send no such chunk |
| Crossing.OffersFirst | mina-recorder/src/connection/multistream_select.rs:62-89 | two offers crossing in any way and then everything else in any order keep to the dialogue without such a chunk |
| Crossing.EarlySelection | mina-recorder/src/connection/multistream_select.rs:47-50 | a selection in a chunk of its own before the other side's request is handed up as if the protocol had sent it |
| Crossing.OffersCross | mina-recorder/src/connection/multistream_select.rs:62-67 | however two offers of simultaneous connect are cut and cross, premature agreements are retracted and none is left |
| Multistream.State.TakeTokens | mina-recorder/src/connection/multistream_select.rs:53-90 | the loop over tokens computes the drained state, tokens and error |
| Multistream.State.OnData | mina-recorder/src/connection/multistream_select.rs:182-225 | one chunk moves both directions and the error latch as specified |
| Streams.StorageRoundTrip | mina-recorder/src/database/types.rs:378-408 | a stream id survives the signed 64-bit storage form if and only if its number is below 2^63, one less for the backward kind |
| Streams.StatusIsHistory | mina-recorder/src/connection/mplex.rs:279-346 | a stream is duplex, half open or gone exactly as its opens, closes and resets say |
| Streams.BadIsHistory | mina-recorder/src/connection/mplex.rs:301-334 | a message is flagged bad exactly when history forbids its sender, and a close reports the error that history calls for |
| Delivery.BatchIsStepwise | mina-recorder/src/connection/mplex.rs:360-404 | handling a chunk at once equals handling its frames one by one, without panic, if and only if no message is followed in the chunk by a frame that ends its stream |
| Delivery.BatchPanicsIff | mina-recorder/src/connection/mplex.rs:386-393 | the lookup that is said not to fail fails exactly when a good message's stream is gone at the end of the chunk |
| Delivery.ResetOvertakes | mina-recorder/src/connection/mplex.rs:386-393 | the concrete family: a message and a reset of its stream in one chunk |
| Delivery.StreamsGetTheirs | mina-recorder/src/connection/mplex.rs:360-404 | handled one by one, every open stream has got exactly the messages history admits since it was opened, in order |
| Mplex.State.Accumulate | mina-recorder/src/connection/mplex.rs:67-150 | at most one frame, the same with and without the short cut for an empty buffer |
| Mplex.FrameHeader | mina-recorder/src/connection/mplex.rs:93-146 | the header read from the whole buffer is the header of the frame cut out of it |
| Mplex.State.Process | mina-recorder/src/connection/mplex.rs:263-353 | reports, streams and buffer are those of all frames of buffered and new bytes; it crashes exactly on tag 7 or a length overflow |
| Mplex.State.OnData | mina-recorder/src/connection/mplex.rs:360-404 | processing and then handing over gives the batch result, or the part of it before a stream or the database reports an error; it panics exactly where a lookup or a header does |
| Mplex.BatchWithoutError | mina-recorder/src/connection/mplex.rs:360-404 | without such an error that is the whole batch; with one, the same streams are open and each has a prefix of what the batch gives it |
| Mplex.ChunkingIrrelevant | mina-recorder/src/connection/mplex.rs:263-353 | processing two parts gives the reports, streams and residue of processing the whole |
| Mplex.FramesAreLong | mina-recorder/src/connection/mplex.rs:67-150 | every frame consumes two bytes or more, which bounds the loop |
| Mplex.PanicIsFinal | mina-recorder/src/connection/mplex.rs:78 | a stream that panics does so after the same frames, whatever follows |
| Mplex.InnersAreHistory | mina-recorder/src/connection/mplex.rs:263-404 | over every run of both directions, whatever is handed over, stream status is what the frames prescribe in order of completion |
| Mplex.CalmRunIsStepwise | mina-recorder/src/connection/mplex.rs:360-404 | a run in which no chunk overtakes a message leaves every stream as frame-by-frame handling does, for every chunking and interleaving |
| Mplex.CalmRunPanicsIff | mina-recorder/src/connection/mplex.rs:360-404 | such a run panics if and only if the bytes of one direction, however cut, come to a header that panics |
| Mplex.HeaderPanicsIff | mina-recorder/src/connection/mplex.rs:67-100 | two numbers at the front read as a header unless the tag is 7 or header and announced body take 2^64 bytes or more |
| Mplex.StreamsGetTheirMessages | mina-recorder/src/connection/mplex.rs:360-404 | in such a run every open stream has got exactly the messages history admits since it was opened |
| Mplex.ReportIsHistory | mina-recorder/src/connection/mplex.rs:277-345 | a frame as a peer writes it is reported, after any history, with its stream and body, as opening a stream again exactly if it is there, as bad exactly if its sender may not send, and with the error of a close |
| Mplex.ReportAt | mina-recorder/src/connection/mplex.rs:277-345 | the reports of a chunk are those of its frames, each after the ones before it |
| Mplex.OneStreamOneId | mina-recorder/src/connection/mplex.rs:68-91 | all frames of one logical stream, from either side, get one id that tells opener and number; kind and body come through |
| Mplex.ControlRecordsReadable | mina-recorder/src/database/core.rs:607-625 | every recorded control header shows its own kind and stream number, never the panic, and its stream id survives storage |
| Mplex.ShownFlagIff | mina-recorder/src/connection/mplex.rs:288-342 | the flag shown is the one on the wire if and only if the frame opens the stream or is incoming; for outgoing closes and resets the role is inverted |
| Yamux.HeaderRoundTrip | mina-recorder/src/connection/yamux.rs:140-182 | every valid header comes back from its twelve bytes |
| Yamux.HeaderBytesRoundTrip | mina-recorder/src/connection/yamux.rs:73-138 | twelve bytes that parse give a valid header that writes the same twelve bytes |
| Yamux.WrittenFrame | mina-recorder/src/connection/yamux.rs:336-374 | a frame as a peer writes it is one frame of its stream, and its flags open, close or reset that stream in that order of precedence |
| Yamux.LoopEndsIff | mina-recorder/src/connection/yamux.rs:321-382 | the processing loop ends if and only if no malformed header is met behind buffered bytes or behind a frame of the same call |
| Yamux.PingThenVersionOne | mina-recorder/src/connection/yamux.rs:284-287 | a ping followed in one chunk by twelve bytes of version 1: the loop never ends |
| Yamux.ChunkingIrrelevant | mina-recorder/src/connection/yamux.rs:321-382 | processing two parts gives the frames, streams, reset queue and residue of processing the whole |
| Yamux.FramesAreLong | mina-recorder/src/connection/yamux.rs:246-313 | every frame consumes twelve bytes or more |
| Yamux.RecentIsHistory | mina-recorder/src/connection/yamux.rs:367-373 | the reset queue holds exactly the last 512 resets, in order |
| Yamux.StreamIdsDistinct | mina-recorder/src/connection/yamux.rs:338-344 | stream ids and wire numbers correspond one to one, even ones forward and odd ones backward, and all survive storage |
| Yamux.State.Accumulate | mina-recorder/src/connection/yamux.rs:246-313 | one turn of the accumulator on every branch, including a malformed header that is not consumed |
| Yamux.State.Process | mina-recorder/src/connection/yamux.rs:321-382 | whenever the loop ends: frames, streams, reset queue, buffer and error are those of the whole input |
| YamuxData.StatusKeptIff | mina-recorder/src/connection/yamux.rs:411-421 | the statuses after handing over are those the frames prescribe if and only if no data is for a stream that is then neither there nor recently reset |
| YamuxData.HandAllGives | mina-recorder/src/connection/yamux.rs:411-421 | every stream gets all data of the chunk for it, in order; data is dropped only for a recently reset stream |
| YamuxWritten.WrittenData | mina-recorder/src/connection/yamux.rs:250-304 | a data frame as a peer writes it carries exactly its body, for its stream; any other frame carries nothing |
| YamuxWritten.StreamsGetWhatIsWritten | mina-recorder/src/connection/yamux.rs:389-431 | if two peers write proper frames, cut and interleaved in any way, each chunk completes the next frames of its peer, and every stream gets the bodies that are for it, in order; a stream that is gone and not recently reset comes into being with them |
| YamuxWritten.StreamHasBodies | mina-recorder/src/connection/yamux.rs:411-421 | so a stream has got exactly the bodies written for it, in order, from the chunk on in which it was last opened |
| YamuxData.AlwaysDueIff | mina-recorder/src/connection/yamux.rs:390-430 | over every run of both directions, each stream has throughout the status its history prescribes if and only if no chunk brings a stream into being by data alone |
| YamuxData.FailureIsFinal | mina-recorder/src/connection/yamux.rs:389-394 | after a malformed header no chunk of either direction has any effect |
| YamuxData.SecondCloseRevives | mina-recorder/src/connection/yamux.rs:345-366 | data carrying the second close of its stream brings the stream back, open both ways |
| YamuxData.ChunkWithoutError | mina-recorder/src/connection/yamux.rs:414-424 | without an error a chunk is dealt with in full; with one, everything but the streams is the same, and each stream has its status and a prefix of what it would have got |
| YamuxData.Demultiplexer.OnData | mina-recorder/src/connection/yamux.rs:390-430 | one chunk, with the error latch, processing and handing over up to an error, moves the layer as specified |
| Accumulator.State.Extend | mina-recorder/src/connection/accumulator.rs:15-32 | bytes are buffered unless they are exactly one message and nothing is unread |
| Accumulator.State.NextMsg | mina-recorder/src/connection/accumulator.rs:39-64 | the next complete message and nothing else is taken from the unread bytes |
| Accumulator.State.OnData | mina-recorder/src/connection/mina_protocol/mod.rs:69-77 | one call hands out exactly the messages that are now complete |
| Accumulator.ChunkingIrrelevant | mina-recorder/src/connection/accumulator.rs:15-64 | for every chunking the messages are those of the whole input; the short cut is not observable |
| Accumulator.GossipSizeStable | mina-recorder/src/connection/mina_protocol/meshsub.rs:9-14 | the gossip length prefix meets the conditions of chunk independence |
| Accumulator.WrittenGossip | mina-recorder/src/connection/mina_protocol/meshsub.rs:9-14 | a message of any 64-bit length, behind its length as a peer writes it, is one message whatever follows |
| Accumulator.DelimiterBound | mina-recorder/src/connection/mina_protocol/meshsub.rs:9-14 | a length takes at most ten bytes and 64 bits |
| Rpc.State.PostProcess | mina-recorder/src/connection/mina_protocol/rpc.rs:63-99 | one message changes the pending queries and yields what the specification says, on every branch |
| Rpc.State.OnData | mina-recorder/src/connection/mina_protocol/mod.rs:48-68 | one call stores, remembers and leaves unread exactly what serving the buffered and new bytes prescribes |
| Rpc.PendingIsHistory | mina-recorder/src/connection/mina_protocol/rpc.rs:72-95 | an id is pending if and only if history has an unanswered query for it, and then with the latest one's header |
| Rpc.QueryServesOnce | mina-recorder/src/connection/mina_protocol/rpc.rs:77-95 | of two responses with one id the later is matched with a query made after the earlier |
| Rpc.ResponsesMatchQueries | mina-recorder/src/connection/mina_protocol/rpc.rs:77-95 | a response is stored if and only if a query with its id is unanswered, with that query's header and its own payload |
| Rpc.StoredAsWritten | mina-recorder/src/connection/mina_protocol/rpc.rs:63-99 | of messages as peers write them a query is stored as it is, a response if and only if a query with its id is unanswered, with the marker, that query's header and exactly what follows the header of the response; a heartbeat and what cannot be read yield nothing |
| Rpc.RunStoresAsWritten | mina-recorder/src/connection/mina_protocol/mod.rs:48-68 | however these messages are cut, some first ones are taken, the others are unread, and what is stored are the outcomes of those taken |
| Rpc.StoredHolds | mina-recorder/src/connection/mina_protocol/mod.rs:48-68 | every outcome to be stored is, behind those before it |
| Rpc.StoredComesFrom | mina-recorder/src/connection/mina_protocol/mod.rs:48-68 | and nothing else is |
| Rpc.RewrittenIsMessage | mina-recorder/src/connection/mina_protocol/rpc.rs:79-91 | the stored form of a response is one well-formed message that ends in the original payload |
| Rpc.ServeTakesMessages | mina-recorder/src/connection/mina_protocol/mod.rs:48-68 | what a call takes and what stays unread are together the messages received, and what it stores follows from those taken |
| Rpc.WaitsIff | mina-recorder/src/connection/mina_protocol/mod.rs:52-62 | a complete message stays unread after a call if and only if one before it yielded nothing to store |
| Rpc.HeartbeatDelays | mina-recorder/src/connection/mina_protocol/mod.rs:52-62 | a heartbeat and a query: in one chunk the query is not stored, in two it is |
| Rpc.RunTakesMessages | mina-recorder/src/connection/mina_protocol/mod.rs:48-68 | over every sequence of calls no message is lost, repeated or reordered |
| Rpc.ChunkingOnlyDelays | mina-recorder/src/connection/mina_protocol/mod.rs:48-68 | of two cuttings of the same bytes, the one that took fewer messages stored a prefix of what the other stored |
| Rpc.NothingWaits | mina-recorder/src/connection/mina_protocol/mod.rs:48-68 | if every message yields something to store, every cutting takes them all |
| Blobs.StoredBytesStay | mina-recorder/src/database/core.rs:417-454 | over every run with interleaved writers, failures and restarts, a write goes to a key never written before and reads back from then on |
| Blobs.WrittenForever | mina-recorder/src/database/core.rs:417-444 | no later step changes a stored chunk |
| Blobs.ReserveIsFresh | mina-recorder/src/database/core.rs:417-439 | the offset handed out lies behind every stored and every reserved offset of its connection |
| Blobs.AfterLastIsNext | mina-recorder/src/database/core.rs:417-439 | without a cached offset the next one is right behind the last one stored, and 0 if there is none |
| Blobs.ReservationsCollide | mina-recorder/src/database/rocksdb.rs:172-192 | two reservations in a row collide if and only if the first is empty, which the chunk header prevents |
| Blobs.Allocator.ReserveOffset | mina-recorder/src/database/core.rs:417-439 | the part under the lock, from the cache or from one step backwards in the key order, reserves a fresh key |
| Blobs.Allocator.WriteBlob | mina-recorder/src/database/core.rs:441-444 | writing a reserved key keeps the invariant |
| Blobs.Allocator.Reopen | mina-recorder/src/database/core.rs:417-436 | losing the cache and all unfinished writes keeps the invariant |
| ColumnFamily.IdsExact | mina-recorder/src/database/core.rs:743-797 | seeking and reading while the prefix matches lists exactly the ids stored under it from the start on, in either direction |
| ColumnFamily.MergeSorted | mina-recorder/src/database/core.rs:815-817 | merging sorted listings with the direction's predicate is sorted |
| ColumnFamily.MergeCounts | mina-recorder/src/database/core.rs:815-817 | and keeps every repetition |
| SortedIntersect.SortedIntersect | mina-recorder/src/database/sorted_intersect.rs:3-59 | the first `limit` items of the intersection: each value as often as in the list that has it least often, in order, for any number of lists |
| SortedIntersect.FillHeap | mina-recorder/src/database/sorted_intersect.rs:73-93 | one item of every list on an ordered heap, or the finding that one list is exhausted |
| SortedIntersect.Heapify | mina-recorder/src/database/sorted_intersect.rs:62-70 | ordered for the direction and a permutation |
| SortedIntersect.IsHit | mina-recorder/src/database/sorted_intersect.rs:97-104 | comparing neighbours decides whether all heads are equal |
| SortedIntersect.MeetExists | mina-recorder/src/database/sorted_intersect.rs:3-59 | sorted lists have an intersection in the sense used above |
| SortedIntersect.MeetUnique | mina-recorder/src/database/sorted_intersect.rs:3-59 | and only one |
| Query.PutKeepsIndexed | mina-recorder/src/database/core.rs:294-353 | a put keeps all indexes exact if and only if the id is new or the new message carries every key of the old one |
| Query.PutAllKeepsIndexed | mina-recorder/src/database/core.rs:294-353 | any sequence of puts with new ids keeps all indexes exact |
| Query.StreamIdsExact | mina-recorder/src/database/core.rs:742-797 | the ids read by address, connection or stream are exactly the matching messages in range |
| Query.KindIdsExact | mina-recorder/src/database/core.rs:798-845 | the ids read by kinds or types list each message once per match |
| Query.IntersectionExact | mina-recorder/src/database/core.rs:846-851 | intersecting the two listings lists each message that satisfies both filters once |
| Query.LimitedTake | mina-recorder/src/database/params.rs:229-245 | cutting the intersection to the limit before the time limit is applied changes nothing |
| Query.LimitedCuts | mina-recorder/src/database/params.rs:229-245 | the limits give a beginning of the listing, no longer than the limit, forward before and backward not before the limit second, that ends early only where the next message is on the other side |
| Query.CutUnique | mina-recorder/src/database/params.rs:229-245 | there is only one such beginning |
| Query.ReadIndexes | mina-recorder/src/database/core.rs:738-869 | every combination of filters reads the listing the indexes prescribe |
| Query.Fetch | mina-recorder/src/database/core.rs:732-871 | the answer is the listing of the indexes cut as the limits ask, and the full scan cut likewise whenever no message matches twice |
| Query.YieldIsScan | mina-recorder/src/database/core.rs:798-845 | the indexes list what a scan lists if and only if no message matches two of the requested kinds |
| Query.TwoTypesListTwice | mina-recorder/src/database/core.rs:821-845 | a message with two requested types is listed twice where a scan lists it once |
| Query.DistinctKindsScan | mina-recorder/src/database/core.rs:798-820 | distinct stream kinds never match a message twice |
| Restarts.ReusesIff | mina-recorder/src/database/rocksdb.rs:41-53 | over every run the next message or connection id is in use exactly if the log was reopened with something in it and nothing of the kind has been stored since |
| Restarts.AlwaysIndexedIff | mina-recorder/src/database/rocksdb.rs:214-272 | a run keeps all indexes exact throughout if and only if the first message after every restart carries all keys of the message whose id it takes |
| Restarts.Facade.AddMessage | mina-recorder/src/database/rocksdb.rs:214-272 | a message is stored under the counter's id, and exact indexes stay exact if and only if the id was new or the message carries every key of the one it replaces |
| Restarts.RestartMisfiles | mina-recorder/src/database/rocksdb.rs:250-268 | the first message after a restart, if it is for another connection than the last one before it, leaves the old connection's index listing an id that is not its own |
| Restarts.AlwaysRightIff | mina-recorder/src/database/rocksdb.rs:80-107 | a run shows every message with its own peer throughout if and only if no connection takes the id of one with messages of another peer, which only the first connection after a restart can |
| Restarts.RestartRenames | mina-recorder/src/database/core.rs:558-581 | such a connection makes a message that is found under its own address appear with the new one |
| SearchTimestamp.Search | mina-recorder/src/database/core.rs:515-541 | the result is a record with the very timestamp, or within the number of one bits of the total from where it belongs; only stored records are read, at most one per bit below the highest |
| SearchTimestamp.BoundIsTight | mina-recorder/src/database/core.rs:515-541 | the bound is attained for every total: the search need not find the exact place |
| SearchTimestamp.InsertionPointExists | mina-recorder/src/database/core.rs:515-541 | where a timestamp belongs among sorted ones exists and is unique |
| Stats.RunKeepsInv | mina-recorder/src/stats.rs:77-344 | in every run with non-decreasing times, recorded events carry the current height and the latency since the first publication, and pooled entries wait or have left their pool |
| Stats.HeightNeverFalls | mina-recorder/src/stats.rs:105-125 | the height never goes down |
| Stats.SightingsAreGossip | mina-recorder/src/stats.rs:95-340 | over every run each sighting was made in an event of the run, with its message, time, direction and block, and a hash is described as it was published; every block of the current height has been sighted, and there is none above |
| Stats.PooledIsAccountedFor | mina-recorder/src/connection/mina_protocol/mod.rs:114-143 | over every run, in whatever order of times, each pooled entry is waiting, or reported in the last record stored for its height, or lost, as often as it was pooled |
| Stats.ReportsAreStored | mina-recorder/src/connection/mina_protocol/mod.rs:126-143 | what left a pool is, entry for entry, in the stored records or lost, and after every message the record stored for the height is the current one |
| Stats.SightingsAreStored | mina-recorder/src/connection/mina_protocol/mod.rs:135-139 | after every message the sightings stored for the height are the current ones |
| Stats.NothingLostIff | mina-recorder/src/stats.rs:120-126 | a run loses nothing if and only if in none of its messages a block that includes waiting entries is followed by a higher block |
| Stats.TwoBlocksLose | mina-recorder/src/stats.rs:120-126 | two such blocks in one message lose a report of the first |
| Stats.RecordOfBlock | mina-recorder/src/stats.rs:145-189 | the record after a new block is of its height and of the time of the first block of that height, and lists as pending the messages of exactly the transactions that wait and are not included |
| Stats.StoredUnderOwnHeight | mina-recorder/src/connection/mina_protocol/mod.rs:140-144 | every stored record is of the height it is stored under |
| Stats.FirstSightingKept | mina-recorder/src/stats.rs:243-259 | after a sighting every key waits, with the entry of its first sighting |
| Stats.Sink.OnMessage | mina-recorder/src/connection/mina_protocol/mod.rs:114-143 | one message is observed; the sightings are stored exactly if they changed, the transaction record whenever there is one; a panic stores nothing |
| Stats.InTimeNeverPanics | mina-recorder/src/stats.rs:174-183 | no message panics while times do not run backwards |
| Stats.EarlierBlockPanics | mina-recorder/src/stats.rs:174-183 | a transaction and then a block that includes it at an earlier time: the second message panics |
| Stats.TakesAreReported | mina-recorder/src/stats.rs:167-219 | the reports of a block are exactly what the pool has lost |
| Stats.TakesAreTimed | mina-recorder/src/stats.rs:167-219 | exactly the included keys leave the pool, each with the time it waited unless one is late |
| Stats.SeeBlockKeepsInv | mina-recorder/src/stats.rs:105-242 | a block of any height, seen first or again, keeps the invariant |
| Stats.StatsState.ObserveMessage | mina-recorder/src/stats.rs:77-344 | one gossip message panics exactly if a new block in it includes an entry pooled later than now; otherwise it changes height, events, first sightings, pools and record as specified, and says whether the sightings changed |
| Stats.StatsState.OnBlock | mina-recorder/src/stats.rs:105-242 | one block: raise, settle or repeat, or panic exactly on a late entry |
| Stats.StatsState.OnHashes | mina-recorder/src/stats.rs:281-316 | announced or requested hashes are recorded exactly if they are blocks of the current height |
| Stats.StatsState.OnTransactions | mina-recorder/src/stats.rs:243-259 | a transaction is pooled at its first sighting only |
| Stats.StatsState.Settle | mina-recorder/src/stats.rs:167-219 | the loop takes the included keys out of a pool and reports them in order, and panics exactly if one of them was pooled later than now |

## Left out

- Cryptographic primitives, key search over recorded randomness, and the pre-shared-key layer: parameters or absent; they are arithmetic on other libraries' types.
- Decoding of message contents (binprot, protobuf, Cap'n Proto, JSON) beyond lengths and the RPC header interface.
- The eBPF hooks that build events, `application.rs`, `strace`, the HTTP server, the simulator and the aggregator.
- Threads: the worker map of the recorder and the database lock are modelled as atomic steps; the blob allocator's steps interleave freely.
- Wall clocks: times are inputs.
- Stats.RunKeepsInv: needs times that do not run backwards.
- Stats.StatsState.ObserveMessage: says nothing of the state that a panic leaves behind, and does not return the events for the aggregator.
- Machine widths: ring positions, nonces, ids and lengths do not wrap around, except where a row says so; the sum of prefix and length in the accumulator cannot overflow in the model.
- RingBuffer.Reader.ReadSlice: epoll waiting and the exponential back-off between reads are not modelled.
- Noise.NoiseState.OnData: statistics updates are taken to succeed, and a named protocol other than Noise is only the flag that refuses the session.
- Multistream.State.OnData: the protocol object created for the first agreed name is represented by the bytes handed to it, and tokens are stored by the caller.
- Mplex.State.OnData: the stream object is represented by the list of messages it was given, an error is the number of reports dealt with before it, and a name that is no text is kept as bytes.
- Yamux.State.Process: requires that the loop ends, which `Yamux.LoopEndsIff` characterises.
- YamuxData.Demultiplexer.OnData: an error of a stream or of the database is the number of frames dealt with before it; what the failing stream keeps of the frame it fails on is not modelled.
- Crossing.AlwaysRightIff: peers that name different protocols, or draw a role before the other side has named the protocol, are outside the dialogue.
- Rpc.RewrittenIsMessage: assumes that the rewritten response is shorter than 2^64 bytes.
- Accumulator: both directions of one gossip or RPC stream share one accumulator in the code, so the bytes of a run are those of both directions in order of arrival.
- Blobs.Allocator.ReserveOffset: offsets are assumed to stay below 2^64, and every chunk is written with its header.
- Query.Fetch: assumes that every stored message belongs to a stored connection; the choice of the starting id from a timestamp is `SearchTimestamp`, and a filtered query whose search fails starts at 0 as in the code.
- Restarts.AlwaysIndexedIff: every put is taken to succeed; a put that fails half way is not modelled.
- Query.PutKeepsIndexed: the ledger-hash index is left out, since it is only written here.
- SearchTimestamp.Search: a record missing below the total, which the code reports as an error, is excluded.
- Wire.RecordRoundTrip: a failed copy leaves whatever the kernel area held, and the record carries those bytes, as in the code.
- Stats.ReportsAreStored: is about one node; the records of several nodes share one key per height in the code and overwrite each other.
- Statistics: publication to the aggregator and the JSON forms; test messages, which the code records as publications of an all-zero hash, have a kind of their own here.

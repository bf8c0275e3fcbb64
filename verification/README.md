# zm-next: protocols and algorithms, proved

This project models the parts of zm-next whose correctness is hardest to see by reading one function at a time, and
proves what they promise for every input, every interleaving and every run.

* **The worker socket.** Each consumer has a queue of shared messages, an offset into a partly written one and a
  drop-oldest policy (`Client.dfy`); one hub with generations, sequence numbers and cached handshake messages feeds all
  of them (`LinkSpec.dfy`, and over objects in `WorkerLink.dfy`); what consumers and plugins may make it do, from bytes and
  JSON values to hub operations, is `LinkControl.dfy`; who is given what, over runs, is
  `Delivery.dfy`; headers, TLVs and payloads are `StreamProtocol.dfy` and
  `Payloads.dfy`; both read loops are `Deframer.dfy`.
* **The frame path.** The shared-memory ring as single atomic steps and in place (`ShmRing.dfy`), the tree of stages
  with bounded queues (`StageRunner.dfy`), the loader that makes the tree (`PipelineLoader.dfy`), and the batching
  dispatcher (`InferenceEngine.dfy`).
* **Motion.** Flood fill (`FloodFill.dfy`), the scan that boxes components (`RegionScan.dfy`), box merging and the cap
  (`BoxMerge.dfy`), their composition (`MotionRegions.dfy`), and the host, device and VAAPI gates (`MotionGate.dfy`).
* **Algorithms.** FFT (`Fft.dfy`), segment intersection (`Geometry.dfy`), both forms of non-maximum suppression
  (`Nms.dfy`), base64 (`Base64.dfy`). `Common.dfy`, `Json.dfy`, `Grid.dfy`, `Roi.dfy`, `Bits.dfy` and
  `Sorting.dfy` are shared.

Code that works in place is written in place here too: classes with fields and arrays, whose methods are proved equal to
a specification function; the theorems are then about that function and about runs of it. `dafny verify dfyconfig.toml`
checks everything.

Conventions. System calls become parameters: the results of `writev` are a sequence of any errors, retries and partial
counts, a `read` is any chunk, a client table is visited in any order, `std::sort` is any descending permutation, atomic
operations of a kernel run in any order. `float` is `real`. A client's, stage's, ring's and engine's history (what was
accepted, delivered, pushed, answered) is kept beside its fields only to state what happens over a run.

Where the code does less than its documentation says, the code is modelled and the exact condition proved:

* After a bad header the `wl_dump` consumer empties its buffer and goes on; what it then finds depends on how the bytes
  were cut into reads, unless the bad header is the last thing read (`ChunkIndependentIff`).
* A message whose payload and 20 exceed 32 MiB is sent but breaks the reader's stream (`DeframedFirstIff`,
  `OversizeStops`; `OversizeUnread` is a run).
* The device motion gate is documented as having the semantics and output of the host gate. `GatesEqualIff` says exactly
  when the outputs are equal. They differ on a first frame under a negative threshold, where the device reports every
  cell as changed; on a frame suppressed for a luma jump that has moved cells, which only the device counts
  (`SuppressedDiffers`); and on a frame smaller than the one before, which the device compares with the front of the old
  grid (`SmallerDiffers`).
* A shared batch limit of 0 is accepted, and then nothing is ever answered (`NoLimitNoAnswer`).
* A Subscribe or Command with a value of the wrong JSON type, or an answer that cannot be printed, throws out of the
  link's loop: `CrashIff` says exactly when, `NumberForWish` gives one, and `CommandsAnswered` says what is answered by
  then.
* A Subscribe may refuse events, but events are control messages and go to every live consumer (`EventGiven`,
  `SubscribedGets`).
* The two non-maximum suppressions part company below a threshold of 0 on boxes without size (`FormsAgreeIff`).
* A flat plugin list loads as the nested line of the same plugins does (`LoadsAlikeIff`).

## Model

| member | source | states |
|---|---|---|
| StreamProtocol.SerializeHeader | core/src/stream_socket_protocol.cpp:73-82 | Writes exactly the 24 bytes of the header specification into the caller's buffer and nothing past them. |
| StreamProtocol.HeaderRoundTrip | core/src/stream_socket_protocol.cpp:73-99 | Parsing the bytes of any header gives that header back, or refuses it exactly when its version or length is not acceptable; what follows the header does not matter. |
| StreamProtocol.HeaderBytesOfHeader | core/src/stream_socket_protocol.cpp:84-99 | Every 24 bytes are the image of the header read from them: parsing loses nothing. |
| StreamProtocol.HeaderLayout | core/src/stream_socket_protocol.cpp:73-82 | Each field lies at its own offset, the lowest byte first. |
| StreamProtocol.AcceptedIff | core/src/stream_socket_protocol.cpp:84-99 | Any 24 bytes are taken as a header exactly when byte 4 is 1 and the length lies between 20 and 33554432; byte 5 is then the kind. |
| StreamProtocol.U64RoundTrip | core/src/stream_socket_protocol.cpp:24-43 | Little-endian 64-bit values come back from their two halves. |
| StreamProtocol.TlvLayout | core/src/stream_socket_protocol.cpp:45-59 | A TLV is its tag, its length in two bytes, the lower first, and its value. |
| StreamProtocol.DecodeEncode | core/src/stream_socket_protocol.cpp:45-69 | Any list of TLVs whose values fit 16-bit lengths is read back from its bytes. |
| StreamProtocol.EncodeDecode | core/src/stream_socket_protocol.cpp:126-138 | Bytes that can be cut into TLVs at all are the encoding of those TLVs. |
| StreamProtocol.DecodeAt | core/src/stream_socket_protocol.cpp:129-138 | One turn of a parse loop at any offset: it stops on a cut-off TLV exactly when the rest cannot be cut, else moves past one TLV. |
| StreamProtocol.LastValueConcat | core/src/stream_socket_protocol.cpp:144-156 | The last occurrence of a repeated tag decides. |
| Payloads.BuildHello | core/src/stream_socket_protocol.cpp:101-124 | The appends build exactly the present fields in order: byte strings cut to 65535, zero sizes and a half fps pair left out. |
| Payloads.HelloTags | core/src/stream_socket_protocol.cpp:101-124 | Each parameter is written under its own tag, 1 to 8, and left out when it is to be. |
| Payloads.ParseHello | core/src/stream_socket_protocol.cpp:126-159 | On arbitrary bytes the loop terminates in bounds and returns what the TLVs mean; false on a cut-off TLV, a number not of four bytes, or no codec. |
| Payloads.HelloRoundTrip | core/src/stream_socket_protocol.cpp:101-159 | Parsing a built Hello with a codec gives back every field, extradata cut to 65535 bytes, fps only as a pair; without a codec it is refused. |
| Payloads.HelloRefusesWidth | core/src/stream_socket_protocol.cpp:140-152 | A known number that is not four bytes wide makes the whole Hello refused. |
| Payloads.ClampLongest | core/src/stream_socket_protocol.cpp:45-54 | A byte string is cut to the longest front part of at most 65535 bytes. |
| Payloads.UnknownHelloTlvIgnored | core/src/stream_socket_protocol.cpp:140-158 | A well-formed TLV of an unknown tag, inserted between any two TLVs, changes nothing. |
| Payloads.BuildEvent | core/src/stream_socket_protocol.cpp:176-198 | The appends build the code and exactly the present fields in order. |
| Payloads.EventTags | core/src/stream_socket_protocol.cpp:176-198 | Each field is written under its own tag, 1 to 7 and 16. |
| Payloads.ParseEvent | core/src/stream_socket_protocol.cpp:200-258 | On arbitrary bytes the loop terminates in bounds and returns what the TLVs mean; false on short input, a cut-off TLV or a number of the wrong width. |
| Payloads.EventRoundTrip | core/src/stream_socket_protocol.cpp:176-258 | Parsing a built event gives back every field, strings cut to 65535 bytes. |
| Payloads.EventRefusesWidth | core/src/stream_socket_protocol.cpp:214-255 | A number of the wrong width makes the whole event refused: 8 bytes for the time, 4 for states and detail, 2 for the health code. |
| Payloads.UnknownEventTlvIgnored | core/src/stream_socket_protocol.cpp:218-257 | A well-formed TLV of an unknown tag, inserted between any two TLVs of an event, changes nothing. |
| Payloads.StatsRoundTrip | core/src/stream_socket_protocol.cpp:161-174 | Both counters come back from a Stats payload, whatever follows; fewer than 16 bytes are refused. |
| Deframer.Consumer.OnRead | tools/wl_dump.cpp:53-121 | The append-and-erase loop over one read does what deframing the whole buffer means; a bad header empties the buffer. |
| Deframer.Inlet.OnReadable | core/src/WorkerLink.cpp:359-436 | The link's own read: an error or end of stream kills the client, a bad header kills it after the messages before it were handled. |
| Deframer.TurnTakes | tools/wl_dump.cpp:54-61 | A turn that takes a message consumes its image exactly, at least 24 bytes, with a body of the header's length. |
| Deframer.DrainIsExact | tools/wl_dump.cpp:54-121 | For arbitrary bytes: what was read is the images of the handled messages, then the leftover; the leftover is short of a message, or starts with a bad header. |
| Deframer.DrainImages | tools/wl_dump.cpp:54-121 | Framing then deframing: the images of any acceptable messages and a cut-off one give exactly those messages and that leftover. |
| Deframer.PartialWaits | tools/wl_dump.cpp:60-61 | Every proper prefix of an image makes the loop wait. |
| Deframer.DeframableIff | core/include/zm/stream_socket_protocol.hpp:43-45 | A message read alone comes back whole, and nothing else, if and only if its payload and 20 fit the 32 MiB limit. |
| Deframer.DeframedFirstIff | core/include/zm/stream_socket_protocol.hpp:43-45 | Whatever follows it in the buffer, a message is the next one taken if and only if it is within that limit. |
| Deframer.OversizeStops | core/include/zm/stream_socket_protocol.hpp:43-45 | A message over the limit, its length not wrapped, breaks the stream at its own header: neither it nor anything after it in the buffer is handled. |
| Deframer.Oversize | core/include/zm/stream_socket_protocol.hpp:43-45 | There is such a message, one byte over the limit. |
| Deframer.ImagesFirst | tools/wl_dump.cpp:54-121 | Acceptable messages at the front of a buffer are handled first and alter nothing of what the rest comes to. |
| Deframer.ReadsAccount | tools/wl_dump.cpp:52-121 | Under any cuts, the handled messages and the buffer hold together no more bytes than came in, and fewer once a header was bad. |
| Deframer.ReadsFrom | tools/wl_dump.cpp:52-121 | Any way of cutting a stream into reads ends with the messages and buffer of one big read, unless a bad header comes with bytes after it. |
| Deframer.HandledPrefix | tools/wl_dump.cpp:57-58 | Whatever the cuts, the messages before the first bad header are all handled, first and in order. |
| Deframer.ChunkIndependentIff | tools/wl_dump.cpp:57-58 | Every cutting ends like one big read if and only if no header is bad or the bad one is the last 24 bytes: resynchronising depends on the cuts. |
| Deframer.CutsMatter | tools/wl_dump.cpp:57-58 | There is a stream that ends differently under two cuts: 25 zero bytes. |
| Deframer.InboundChunkIndependent | core/src/WorkerLink.cpp:359-375 | The link's inbound messages, and whether the client dies, never depend on how its bytes arrive. |
| Clients.Client.OnWritable | core/src/WorkerLink.cpp:438-482 | The writev loop under any results (error, again, interrupted, any partial count) changes the client as specified, and writes the next unwritten bytes of the front message. |
| Clients.Client.Enqueue | core/src/WorkerLink.cpp:252-267 | Dropping for room, pushing and writing, over the fields, as specified. |
| Clients.Client.DropOldestFor | core/src/WorkerLink.cpp:252-264 | The drop loop leaves the queue, byte count and drop count of the specified drops. |
| Clients.Client.WriteTail | core/src/WorkerLink.cpp:445-477 | The one or two pieces handed to writev are the unwritten tail of the image; the payload is only indexed inside its bounds. |
| Clients.FrameIntegrity | core/src/WorkerLink.cpp:244-269 | In every state a client keeps: its wire is whole images of an ordered subsequence of its accepted messages, then exactly the first front-offset bytes of the front one, strictly less than its size; no control message is missing; accepted = sent + dropped + queued; the byte count is the queue's size. |
| Clients.EnqueueGood | core/src/WorkerLink.cpp:252-267 | An enqueue keeps all of that, for any message, limits and write results. |
| Clients.WriteGood | core/src/WorkerLink.cpp:438-482 | Writing keeps all of that, for any sequence of write results. |
| Clients.EnqueueWrites | core/src/WorkerLink.cpp:265-267 | An enqueue ends with a write of whatever the socket takes. |
| Clients.LimitsAfterEnqueue | core/src/WorkerLink.cpp:253-267 | An enqueue whose write takes nothing leaves the limits kept, or just the new message queued, or a front that is a control message or partly written. |
| Clients.DropsOldestOnly | core/src/WorkerLink.cpp:253-264 | An enqueue, whatever its write takes: sent and queued messages are as before less the k oldest queued, then the new one; dropped grows by k; k is the least number that makes room, and none of the k is a control message or partly written. |
| Clients.WritesAll | core/src/WorkerLink.cpp:438-482 | When the socket takes everything, the whole queue goes out in order and nothing is left. |
| Clients.WriteByError | core/src/WorkerLink.cpp:467-472 | EAGAIN ends a write with nothing changed, EINTR goes on, any other error kills the client and changes nothing else, whatever would come after. |
| Clients.WriteShort | core/src/WorkerLink.cpp:473-481 | A short count moves that many bytes of the front message to the wire and ends the write. |
| Clients.DiesOnlyOfFatal | core/src/WorkerLink.cpp:467-472 | A client dies of such an error only. |
| Clients.FatalKills | core/src/WorkerLink.cpp:438-482 | Met after any number of whole messages, with something still queued, it does kill. |
| Clients.EndToEnd | core/src/WorkerLink.cpp:438-482 | A consumer that deframes the bytes on the wire, however they are cut, has exactly the sent messages and holds exactly the written part of the next — if and only if every sent message is within the parser's limits and the written part of the next does not already break it. |
| LinkSpec.ControlMade | core/src/WorkerLink.cpp:201-221 | A control message carries the counters cut to 32 bits and a length of its body; a Hello is always a control message. |
| LinkSpec.MediaMade | core/src/WorkerLink.cpp:223-242 | A media message carries the counters and its payload's length, and is not a control message. |
| LinkSpec.OfferedFacts | core/src/WorkerLink.cpp:246-267 | A message is added to a history exactly when its client is live and asked for it, or it is a control message. |
| LinkSpec.LawfulSnoc | core/src/WorkerLink.cpp:610-631 | Delivering a message keeps the wire laws if it is not behind the counters and media has its Hello. |
| LinkSpec.SendHelloOk | core/src/WorkerLink.cpp:590-595 | Caching and broadcasting a Hello keeps the cache on the current generation and every history lawful. |
| LinkSpec.SetStreamParamsOk | core/src/WorkerLink.cpp:566-608 | New stream parameters keep every consumer lawful: on a reconfigure the generation moves, counters restart, the keyframe is dropped and both Hellos are issued again. |
| LinkSpec.SendMediaOk | core/src/WorkerLink.cpp:610-631 | A media unit, cached as a keyframe or not, keeps every consumer lawful. |
| LinkSpec.AcceptOk | core/src/WorkerLink.cpp:328-357 | A late joiner's first messages (Hellos, snapshot, cached keyframe) are lawful. |
| LinkSpec.SubscribeOk | core/src/WorkerLink.cpp:377-396 | Changing wishes and replaying the cached Hellos is lawful. |
| LinkSpec.PushStatsOk | core/src/WorkerLink.cpp:306-323 | The Stats push past the limits keeps every client's account and laws. |
| LinkSpec.PublishOk | core/src/WorkerLink.cpp:538-549 | Publishing an event and caching it as the snapshot keeps every client's account and laws. |
| LinkSpec.EveryRunOk | core/src/WorkerLink.cpp:244-482 | Over every run of accepts, subscriptions, commands, hangups, writes, stats, events, parameters and media, every client keeps its account, and the caches carry the current generation. |
| LinkSpec.HandshakeSafety | core/src/WorkerLink.cpp:566-631 | On every consumer's wire in every run, and on the wire followed by its queue, so with the message now half written: media made once its stream had a Hello comes after that stream's Hello of its own generation; generations never decrease; (generation, sequence) strictly increases over a stream's media; and all Hellos of a stream and generation carry the same parameters, so that Hello is the one in force. |
| LinkSpec.LawfulOnWire | core/src/WorkerLink.cpp:253-267 | What holds of the accepted history holds of the wire, and of the wire followed by the queue: drops lose no Hello. |
| LinkSpec.EveryConsumerReads | core/src/WorkerLink.cpp:438-482 | In every run, the far end of any consumer deframes exactly the messages sent to it if and only if none of those sent exceeds the length limit and the half written one does not already break the stream; a message that was dropped does not count. |
| LinkSpec.OversizeUnread | core/src/WorkerLink.cpp:610-631 | There is a run that fails it: one accepted client and one video unit over the limit, whatever the cuts. |
| WorkerLinks.WorkerLink.Enqueue | core/src/WorkerLink.cpp:244-269 | enqueue over the client table, then reaping, does what the hub specification says. |
| WorkerLinks.WorkerLink.OfferEach | core/src/WorkerLink.cpp:246-267 | Every live client that wants the message, or any if it is a control message, is given it; the others are untouched. |
| WorkerLinks.WorkerLink.ReapDead | core/src/WorkerLink.cpp:484-494 | Exactly the dead clients leave the table. |
| WorkerLinks.WorkerLink.AcceptClient | core/src/WorkerLink.cpp:328-357 | A new client within the limit gets Hellos, snapshot and keyframe in that order and is written to. |
| WorkerLinks.WorkerLink.OnSubscribe | core/src/WorkerLink.cpp:377-394 | A parsed object changes the wishes, each true if absent, and queues the wanted cached Hellos again; anything else is ignored; a wish that is no truth value throws. |
| WorkerLinks.WorkerLink.OnCommand | core/src/WorkerLink.cpp:395-421 | Queues, for that client alone, the handler's answer to the name under "cmd" or "name", or what is wrong; an ill-typed name or number throws. |
| WorkerLinks.WorkerLink.DispatchEach | core/src/WorkerLink.cpp:366-436 | The messages are handled in order up to an exception; kinds other than Subscribe and Command do nothing to the hub. |
| WorkerLinks.WorkerLink.OnReadable | core/src/WorkerLink.cpp:359-436 | One read, from bytes to hub: complete messages are handled in order, a failed read or a bad header then ends the client, and the rest waits in its buffer. |
| WorkerLinks.WorkerLink.OnHangup | core/src/WorkerLink.cpp:300-300 | The client is marked dead, nothing else changes. |
| WorkerLinks.WorkerLink.OnPollOut | core/src/WorkerLink.cpp:302-302 | A live client is written to, nothing else changes. |
| WorkerLinks.WorkerLink.PushStatsEach | core/src/WorkerLink.cpp:306-323 | Every live client gets its own counters, past the queue limits, as a message that may be dropped. |
| WorkerLinks.WorkerLink.PublishEventJson | core/src/WorkerLink.cpp:496-549 | A stopped link ignores it; stream metadata becomes new stream parameters; any other event takes the next event number, goes to whoever wants events, and becomes the snapshot if it is a health event. |
| WorkerLinks.WorkerLink.PublishEvent | core/src/WorkerLink.cpp:542-548 | The locked part: number, broadcast, snapshot. |
| WorkerLinks.WorkerLink.SetSnapshotJson | core/src/WorkerLink.cpp:551-564 | The snapshot is cached under the current event number and sent to no one. |
| WorkerLinks.WorkerLink.SetStreamParameters | core/src/WorkerLink.cpp:566-608 | Unchanged parameters do nothing; changed ones start a generation and issue both Hellos again. |
| WorkerLinks.WorkerLink.SendMediaUnit | core/src/WorkerLink.cpp:610-631 | A stopped link ignores it; else the counter moves even without clients, a video keyframe is cached, the unit goes to whoever wants the stream. |
| Delivery.BroadcastGives | core/src/WorkerLink.cpp:244-268 | A broadcast gives a live consumer the message exactly when it is a control message or one it asked for; the consumer keeps its wishes and is then in the table, or, if the write killed it, among the gone. |
| Delivery.ReapedOrKept | core/src/WorkerLink.cpp:484-494 | Reaping moves the dead to the gone and keeps all others. |
| Delivery.MediaGiven | core/src/WorkerLink.cpp:610-631 | A live consumer is given a media unit, its stream, time and payload, exactly when it asked for that stream. |
| Delivery.EventGiven | core/src/WorkerLink.cpp:538-549 | Every live consumer is given a published event, whether it asked for events or not. |
| Delivery.GainedExactly | core/src/WorkerLink.cpp:244-482 | Any operation gives a consumer that outlives it exactly what is listed: replayed Hellos, its response, its Stats, the event, the new Hellos in order, or the unit it asked for; and changes its wishes only by its own Subscribe. |
| Delivery.WritesAfter | core/src/WorkerLink.cpp:328-421 | Accepting, subscribing, answering and a poll each end with a write of whatever the socket takes, and differ by it alone. |
| Delivery.StatsWrite | core/src/WorkerLink.cpp:306-323 | So do the Stats. |
| Delivery.OfferWrites | core/src/WorkerLink.cpp:265-268 | And a message offered. |
| Delivery.HangupEnds | core/src/WorkerLink.cpp:300-324 | A client that hung up is reaped, its history as it was. |
| Delivery.RunGains | core/src/WorkerLink.cpp:244-482 | Over any run its history grows by exactly these, in order. |
| Delivery.SubscribedGets | core/src/WorkerLink.cpp:377-394 | From a Subscribe to the next, a consumer that lives is given exactly the units sent of the streams it asked for, in order, and every event published. |
| Delivery.EveryRunAsTold | core/src/WorkerLink.cpp:496-631 | In every run the generation, the counters, the cached Hellos, status and keyframe are those told from the operations alone, without any consumer. |
| Delivery.LateJoiner | core/src/WorkerLink.cpp:328-357 | A consumer accepted after any run is greeted with each stream's parameters in the current generation, the latest status and the latest keyframe of this generation, in that order, and asks for everything. |
| Delivery.WithinLimit | core/src/WorkerLink.cpp:333-336 | The table never holds more than max_clients. |
| Delivery.StatsTell | core/src/WorkerLink.cpp:306-323 | Parsing the Stats a consumer is given tells how many messages were sent to it and how many dropped. |
| LinkControl.WishesRead | core/src/WorkerLink.cpp:377-382 | A well-typed Subscribe is obeyed: each stream is granted unless false stands under its own key. |
| LinkControl.AnswerSays | core/src/WorkerLink.cpp:395-421 | An object is answered by the handler, called with its cmd or else its name and the whole text, or by the lack of a handler, under its own number; anything else is a bad command. |
| LinkControl.ResponseSays | core/src/WorkerLink.cpp:413-414 | Number, success, message and data are each found under their own key. |
| LinkControl.NumbersRead | core/src/WorkerLink.cpp:405-405 | Whole numbers are read as they are, fractions cut towards zero, truth values as 0 and 1. |
| LinkControl.CodeOfKind | core/src/WorkerLink.cpp:76-91 | The code of every kind of event, as the protocol numbers them; the kind goes before the name. |
| LinkControl.MetadataRead | core/src/WorkerLink.cpp:502-519 | Stream metadata becomes parameters, each number from its own key and the extradata decoded, in any order of members. |
| LinkControl.OrdersAnyCut | core/src/WorkerLink.cpp:359-436 | However a client's bytes are cut into reads, they make the hub do the same operations in the same order, up to the same exception or the same end. |
| LinkControl.StepsExtendRuns | core/src/WorkerLink.cpp:359-436 | Whatever reads do is an extension of a run, so HandshakeSafety and the rest hold after them. |
| LinkControl.CommandsAnswered | core/src/WorkerLink.cpp:395-421 | On any messages, the responses are exactly the answers to the commands before the first message that throws, in order, each under its request's number; all of them if none throws. |
| LinkControl.CrashIff | core/src/WorkerLink.cpp:377-421 | Handling a message throws if and only if it is an object with a value of the wrong type under a key it is read for — video, audio or events of a Subscribe; name, cmd or request_id of a Command — or its answer cannot be printed. |
| LinkControl.SurvivesIff | core/src/WorkerLink.cpp:374-436 | So a read is handled to its end if and only if it holds no such message. |
| LinkControl.NumberForWish | core/src/WorkerLink.cpp:377-382 | There is such a message: a Subscribe whose video is a number. |
| LinkControl.CrashEnds | core/src/WorkerLink.cpp:374-436 | After an exception no further message of the read is handled. |
| LinkControl.HealthIff | core/src/WorkerLink.cpp:76-98 | Exactly the seven lifecycle types become the snapshot; an analysis event never replaces it. |
| LinkControl.PublishedReadsBack | core/src/WorkerLink.cpp:523-535 | A consumer that parses a published event gets its code, its time and its document (up to 65535 bytes) back, in the message of a lifecycle event and in the detail of an analysis event. |
| ShmRings.ShmRing.constructor | core/src/ShmRing.cpp:9-32 | The mapped ring starts empty. |
| ShmRings.ShmRing.Push | core/src/ShmRing.cpp:34-52 | In place, on one flat buffer: refused if and only if the record is too long or n - 1 are held; otherwise only its slot changes and the record is published. |
| ShmRings.ShmRing.Pop | core/src/ShmRing.cpp:64-86 | In place: hands out the oldest record whole exactly when there is one; on an empty ring it gives up if cancelled, and otherwise still waits after any number of looks, nothing changed. |
| ShmRings.PushIsItsSteps | core/src/ShmRing.cpp:34-52 | The call is its single loads, copies and stores run through. |
| ShmRings.PopIsItsSteps | core/src/ShmRing.cpp:64-86 | The call is its single loads, copies and stores run through. |
| ShmRings.SlotsNeverShared | core/src/ShmRing.cpp:39-47 | In every interleaving the producer never writes the slot the consumer reads. |
| ShmRings.EveryRunSound | core/src/ShmRing.cpp:34-86 | Every interleaving of single steps, with loads of the other index as late as the memory order allows, keeps indices, contents and both sides' locals right. |
| ShmRings.Fifo | core/src/ShmRing.cpp:34-86 | The byte strings popped are a prefix of those pushed, in order and whole, and at most slotCount - 1 are held. |
| ShmRings.RefusedIffFull | core/src/ShmRing.cpp:36-40 | A push is refused for want of room if and only if n - 1 records lay between the head it saw and the tail. |
| ShmRings.EmptyTest | core/src/ShmRing.cpp:65-73 | The consumer's test for empty is right however late the tail it saw. |
| StageRunners.StageRunner.Deliver | core/src/StageRunner.cpp:25-37 | Ignores an empty frame, else drops the oldest of a full queue and appends, as specified. |
| StageRunners.StageRunner.ForwardToChildren | core/src/StageRunner.cpp:39-43 | Every child that is there gets the frame, no other stage changes. |
| StageRunners.StageRunner.Turn | core/src/StageRunner.cpp:45-66 | One turn of the thread takes the oldest frame, gives every child each frame the plugin forwards, any number of any frames, and counts it whether the plugin returned or threw; a stopped stage takes nothing. |
| StageRunners.TurnIsItsSteps | core/src/StageRunner.cpp:39-66 | The turn is a run of single steps: taking, each forward delivered to the children one by one, finishing; nobody else is touched. |
| StageRunners.RunsBetween | core/src/StageRunner.cpp:14-23 | A stage runs from its start to its stop and takes nothing while it does not run. |
| StageRunners.DeliveredKept | core/src/StageRunner.cpp:25-37 | Delivery keeps the queue a contiguous suffix of what was delivered, the new frame last, dropping only what does not fit, and delivered = processed + in hand + dropped + queued. |
| StageRunners.TakenIsFresh | core/src/StageRunner.cpp:48-54 | The frame taken is among the last max_depth delivered. |
| StageRunners.EveryRunFine | core/src/StageRunner.cpp:25-66 | In every interleaving of all stages, starts, stops, and plugins forwarding anything any number of times, each stage keeps that account, and what was delivered to a child is exactly what its parent forwarded and has passed to it, in order, without empty frames. |
| StageRunners.NothingOnItsWay | core/src/StageRunner.cpp:39-43 | With no forward under way a child has been delivered everything its parent forwarded. |
| StageRunners.DepthStays | core/src/StageRunner.cpp:7-8 | A stage keeps the depth it was made with, 1 for 0. |
| StageRunners.PathKeepsOrder | core/src/StageRunner.cpp:39-66 | Along any way down the tree whose plugins pass frames through, what the last stage took is an ordered subsequence of what was delivered to the first. |
| StageRunners.PlainPassesThrough | core/src/StageRunner.cpp:45-66 | Plugins that forward at most the frame in hand pass frames through, in every interleaving. |
| StageRunners.LoadedIsWired | core/src/PipelineLoader.cpp:47-86 | Any loaded pipeline is a tree of stages: one parent each, listed once, parents first. |
| InferenceEngines.InferenceEngine.Turn | plugins/detect_onnx/detect_engine.cpp:44-90 | One turn of the dispatcher takes min(queue, maxBatch) requests from the front and answers each as if it were alone; returns only when stopped and drained; a limit of 0 answers nothing. |
| InferenceEngines.BatchedAsAlone | plugins/detect_onnx/detect_engine.cpp:62-89 | Row i of the batched output, cut out and decoded, is what request i alone would get. |
| InferenceEngines.EveryRunSound | plugins/detect_onnx/detect_engine.cpp:35-90 | In every interleaving, submitted = answered, then pending, then queued, in order, for any limit; batches have 1 to maxBatch rows; items counts answers, a running batch counted ahead. |
| InferenceEngines.AnswersAsIfAlone | plugins/detect_onnx/detect_engine.cpp:35-90 | Each request is answered at most once, in the order of arrival, with the boxes a batch of one would give it. |
| InferenceEngines.Drains | plugins/detect_onnx/detect_engine.cpp:44-90 | From every sound state short of the return, some steps of the dispatcher alone answer everything submitted, if the limit is at least 1. |
| InferenceEngines.EveryRequestAnswered | plugins/detect_onnx/detect_engine.cpp:44-90 | So after any run everything submitted can be answered, each as a batch of one would answer it. |
| InferenceEngines.NoLimitNoAnswer | plugins/detect_onnx/detect_engine.cpp:53-60 | With a limit of 0 no run ever answers anything: each pass takes an empty batch and waits again. |
| InferenceEngines.OneTurn | plugins/detect_onnx/detect_engine.cpp:44-90 | One turn of the loop, step by step, answers min(queue, maxBatch) requests from the front in one run of the model. |
| InferenceEngines.StopReturns | plugins/detect_onnx/detect_engine.cpp:28-50 | Once the destructor has set stop, the dispatcher left to itself does return, with everything submitted answered as if alone, so the join ends. |
| InferenceEngines.ReturnsDone | plugins/detect_onnx/detect_engine.cpp:49-50 | The dispatcher returns only after stop, with an empty queue and everything submitted so far answered. |
| PipelineLoaders.PipelineLoader.AddPlugin | core/src/PipelineLoader.cpp:47-76 | The recursive push appends the entry's tree in preorder and returns its index, -1 for a non-object; an exception is passed on, leaving the nodes pushed by then, each listing only its finished children. |
| PipelineLoaders.PipelineLoader.ChainIfFlat | core/src/PipelineLoader.cpp:79-86 | The chain i to i + 1 is added exactly when no node has children and there is more than one. |
| PipelineLoaders.PipelineLoader.Load | core/src/PipelineLoader.cpp:21-95 | True if and only if the document describes at least one plugin; then the pipeline is the flattened forest, chained if flat; after an exception it holds the trees before the entry that threw and what that entry had pushed. |
| PipelineLoaders.DocumentRoundTrip | core/src/PipelineLoader.cpp:22-76 | A document written for any forest is read back as that forest: paths, configurations, depths with 16 left out, children. |
| PipelineLoaders.OlderSpelling | core/src/PipelineLoader.cpp:52-65 | kind stands for a path under plugins/ and cfg for config; path and config go before them; a path that is no string throws. |
| PipelineLoaders.NoObjectSkipped | core/src/PipelineLoader.cpp:48-51 | An entry that is no object is passed over. |
| PipelineLoaders.NarrowWraps | core/src/PipelineLoader.cpp:64-65 | A depth is cut to a 32-bit int. |
| PipelineLoaders.EachIndexOnce | core/src/PipelineLoader.cpp:66-76 | Every index is either a root or the child of exactly one parent, listed once. |
| PipelineLoaders.FlattenDownward | core/src/PipelineLoader.cpp:66-76 | Every child index exceeds its parent's and stays in range: no cycle. |
| PipelineLoaders.RebuildInverts | core/src/PipelineLoader.cpp:47-77 | From the flat vector the input trees, non-objects left out, are rebuilt. |
| PipelineLoaders.LoadedIsMeant | core/src/PipelineLoader.cpp:79-86 | The loaded vector is the flattening of the forest, with a flat list of several entries read as one nested line; that happens exactly then. |
| PipelineLoaders.LoadsAlikeIff | core/src/PipelineLoader.cpp:47-86 | Two documents load alike if and only if they mean the same forest: only a flat list and its nested line are confused. |
| FloodFills.Fill | plugins/detect_onnx/detect_cuda.cpp:309-322 | The stack loop terminates and marks exactly the seed's 4-connected component, counts it and bounds it tightly; nothing else changes. |
| FloodFills.Spread | plugins/detect_onnx/detect_cuda.cpp:317-321 | One cell's neighbours: exactly the changed, unmarked ones are marked and pushed, each once. |
| FloodFills.AdjacentIsBeside | plugins/detect_onnx/detect_cuda.cpp:306-319 | The four offsets within the grid reach every side neighbour: no wrap at a row's end. |
| FloodFills.ComponentsPartition | plugins/detect_onnx/detect_cuda.cpp:304-332 | Two components are equal or disjoint, and hold each other's seed exactly when equal. |
| RegionScans.Scan | plugins/detect_onnx/detect_cuda.cpp:304-332 | The scan boxes each component of at least min_cells in the order of first cells, leaves every changed cell at 2, and with min_cells at most 1 the counts add up to all changed cells. |
| RegionScans.OneBoxEach | plugins/detect_onnx/detect_cuda.cpp:307-331 | Boxes and large enough components match one to one, in order. |
| RegionScans.BoxesDetermined | plugins/detect_onnx/detect_cuda.cpp:304-332 | The frame's moved cells determine the list of boxes: no other list describes them. |
| RegionScans.CellsAreBoxed | plugins/detect_onnx/detect_cuda.cpp:323-330 | Every changed cell of a large enough component lies whole inside its component's box, which lies in the frame. |
| Rois.RoiHoldsBounds | plugins/detect_onnx/detect_cuda.cpp:324-330 | After the margin and the clamps the box is in the frame, not empty, and holds every cell of the bounds. |
| Rois.RoiMargin | plugins/detect_onnx/detect_cuda.cpp:324-329 | Away from the edges the box is centred on the bounds and 7/5 of their size, to 2 pixels; it is never larger. |
| BoxMerges.Merge | plugins/detect_onnx/detect_cuda.cpp:338-351 | The restart loops terminate with the specified merging. |
| BoxMerges.MergedApart | plugins/detect_onnx/detect_cuda.cpp:338-351 | No two resulting boxes overlap. |
| BoxMerges.OverlapsIff | plugins/detect_onnx/detect_cuda.cpp:335-337 | Boxes with a size overlap exactly when a pixel lies in both. |
| BoxMerges.PixelsApart | plugins/detect_onnx/detect_cuda.cpp:338-351 | No pixel lies in two results. |
| BoxMerges.PixelInOne | plugins/detect_onnx/detect_cuda.cpp:338-351 | A pixel of an input box lies in exactly one result. |
| BoxMerges.NothingToMerge | plugins/detect_onnx/detect_cuda.cpp:338-351 | Boxes without a common pixel come back as they were. |
| BoxMerges.InsideIff | plugins/detect_onnx/detect_cuda.cpp:343-347 | One box lies inside another exactly when all its pixels do. |
| BoxMerges.MergedHolds | plugins/detect_onnx/detect_cuda.cpp:338-351 | Every result holds an input box whole. |
| BoxMerges.MergedCovers | plugins/detect_onnx/detect_cuda.cpp:343-349 | Every input box lies inside a result and the total of changed cells is conserved. |
| BoxMerges.MergedLeast | plugins/detect_onnx/detect_cuda.cpp:338-351 | The result is the least: any family of non-overlapping boxes that covers the input covers it. |
| BoxMerges.MergedUnique | plugins/detect_onnx/detect_cuda.cpp:338-351 | It is the only one: any non-overlapping boxes that cover the input and lie in the result have exactly its rectangles. |
| BoxMerges.AnyMergingOrder | plugins/detect_onnx/detect_cuda.cpp:338-351 | Merging overlapping pairs in any order until none is left gives the same rectangles. |
| BoxMerges.MergedInFrame | plugins/detect_onnx/detect_cuda.cpp:343-347 | Boxes in the frame stay in the frame. |
| BoxMerges.Cap | plugins/detect_onnx/detect_cuda.cpp:353-359 | A negative limit throws; otherwise at most max_regions are kept; kept and dropped together are the input, and no dropped box has a larger width times height than a kept one. |
| BoxMerges.AreaIsPixels | plugins/detect_onnx/detect_cuda.cpp:353-356 | The area the cap sorts by is the number of pixels. |
| BoxMerges.KeptApart | plugins/detect_onnx/detect_cuda.cpp:353-359 | What is kept under any order of ties still does not overlap. |
| MotionRegions.BuildMask | plugins/detect_onnx/detect_cuda.cpp:298-302 | The mask is 1 on exactly the cells that moved by more than the threshold. |
| MotionRegions.RegionGate.Frame | plugins/detect_onnx/detect_cuda.cpp:266-361 | One frame: the state moves as the host gate's; a suppressed or first frame has no region; else scan, merge and cap in order, a negative cap throwing. |
| MotionRegions.RegionsHoldMotion | plugins/detect_onnx/detect_cuda.cpp:266-361 | The regions lie in the frame and do not overlap; unless the cap dropped one, every moved cell of a large enough component lies inside one. |
| MotionRegions.RegionsHaveMotion | plugins/detect_onnx/detect_cuda.cpp:304-351 | Each region holds a moved cell of a component of at least min_cells: none without motion. |
| MotionGates.HostGate.Frame | plugins/detect_onnx/detect_cuda.cpp:126-181 | The host gate's loops do one specified step. |
| MotionGates.ScanGrid | plugins/detect_onnx/detect_cuda.cpp:156-167 | The double loop over rows computes the specified verdict. |
| MotionGates.MovedIff | plugins/detect_onnx/detect_cuda.cpp:160-162 | A cell moved when it got brighter or darker by more than the threshold. |
| MotionGates.ScanExchanged | plugins/detect_onnx/detect_cuda.cpp:155-168 | Count and bounds are the same with the two grids exchanged. |
| MotionGates.ScanNegative | plugins/detect_onnx/detect_cuda.cpp:155-168 | And with both grids turned to their negatives. |
| MotionGates.JumpIff | plugins/detect_onnx/detect_cuda.cpp:142-153 | The mean jumped when it rose or fell by more than the threshold. |
| MotionGates.MeanBetween | plugins/detect_onnx/detect_cuda.cpp:146-147 | The mean lies between the darkest and the brightest cell. |
| MotionGates.MeanMoves | plugins/detect_onnx/detect_cuda.cpp:146-147 | One cell brighter by d raises it by d over the number of cells. |
| MotionGates.HostAnswers | plugins/detect_onnx/detect_cuda.cpp:155-178 | On a frame it compares and does not suppress, the host gate reports how many cells differ by more than the threshold, motion exactly when they are at least min_changed and at least one, and then the box of their tight bounds. |
| MotionGates.HostSilent | plugins/detect_onnx/detect_cuda.cpp:148-154 | On any other frame it reports nothing. |
| MotionGates.ScanIsTight | plugins/detect_onnx/detect_cuda.cpp:155-168 | The verdict counts the cells that differ by more than the threshold, either way, and bounds them tightly. |
| MotionGates.ActiveBoxHoldsMotion | plugins/detect_onnx/detect_cuda.cpp:169-178 | An active box lies in the frame and holds every moved cell. |
| MotionGates.ReduceBlock | plugins/detect_onnx/detect_cuda.cu:216-222 | The shared-memory halving leaves the sum of the block's cells. |
| MotionGates.AnyOrder | plugins/detect_onnx/detect_cuda.cu:206-222 | The same atomic operations in any order leave the same verdict. |
| MotionGates.DeviceVerdict | plugins/detect_onnx/detect_cuda.cu:198-223 | Whatever order the launch runs in, its verdict is the host's row-order scan. |
| MotionGates.DeviceGate.Ensure | plugins/detect_onnx/detect_cuda.cpp:193-206 | Grids too small are made anew and forget the past; others are kept with everything in them, past included, even for a smaller frame. |
| MotionGates.DeviceGate.Frame | plugins/detect_onnx/detect_cuda.cpp:216-264 | With two swapped device grids and any schedule of atomics, the device gate does one specified step. |
| MotionGates.DeviceGate.Seed | plugins/detect_onnx/detect_cuda.cpp:229-236 | The first frame is copied to the other grid, to be compared with itself. |
| MotionGates.GatesEqualIff | plugins/detect_onnx/detect_cuda.hpp:97-104 | On any stream, frames of any sizes, the two answers are equal if and only if the host compares this frame and does not suppress it, or no cell of it moved against what the device compares it with, which the frames alone decide. |
| MotionGates.SameSizeEqualIff | plugins/detect_onnx/detect_cuda.hpp:97-104 | On a stream of one geometry the answers are equal if and only if it is not the first frame or the threshold is not negative or the grid is empty, and a suppressed frame has no moved cell. |
| MotionGates.BuffersHold | plugins/detect_onnx/detect_cuda.cpp:186-264 | What the two device buffers hold after any stream, told by the frames alone: as many cells as the largest frame, the last frame over what its buffer held two frames ago, both seeded by a frame larger than all before. |
| MotionGates.DeviceCompares | plugins/detect_onnx/detect_cuda.cpp:193-239 | So what the device compares a frame with: itself if it is the first or the largest so far, else the front of the buffer of the frame before. |
| MotionGates.ComparesFront | plugins/detect_onnx/detect_cuda.cpp:193-206 | No larger than the frame before: the front part of that frame. |
| MotionGates.ComparesOlder | plugins/detect_onnx/detect_cuda.cpp:193-206 | Larger than the frame before but not than all: that frame, and after it cells of frames older still. |
| MotionGates.ComparesItself | plugins/detect_onnx/detect_cuda.cpp:193-206 | The first, or larger than all before: the frame itself. |
| MotionGates.SuppressedDiffers | plugins/detect_onnx/detect_cuda.hpp:97-104 | A suppressed frame on which the answers differ: 1 by 1, 0 then 255, jump threshold 5. |
| MotionGates.SmallerDiffers | plugins/detect_onnx/detect_cuda.cpp:193-206 | A frame smaller than the one before on which they differ: the host answers nothing, the device compares. |
| MotionGates.Remembers | plugins/detect_onnx/detect_cuda.cpp:126-264 | After any frame both gates hold its grid, the device at the front of a grid that may be larger, and its mean. |
| MotionGates.GatesAgreeIff | plugins/detect_onnx/detect_cuda.hpp:97-104 | On any stream of one geometry the gates answer alike on every frame (on suppressed ones but for the changed count) if and only if it is not the first frame, or the threshold is not negative, or the grid is empty. |
| MotionGates.VaapiGrid.GridDiffBbox | plugins/detect_onnx/hw_backend_vaapi.cpp:204-233 | Overwriting each cell right after comparing it gives the verdict against the old grid and leaves the new one. |
| MotionGates.VaapiAgrees | plugins/detect_onnx/hw_backend_vaapi.cpp:204-233 | From the same grids VAAPI and the host, not watching for luma jumps, agree on motion, changed cells and box. |
| Bits.TestIsPow2 | plugins/audio_detect/logmel.hpp:34-34 | For any int, negative ones included, the bit test holds exactly for powers of two. |
| Ffts.MulIsComplex | plugins/audio_detect/logmel.hpp:57-61 | The multiplication is that of the complex numbers: i squared is -1, and norms multiply. |
| Ffts.CarryCounts | plugins/audio_detect/logmel.hpp:44-47 | The carry loop takes the bit reversal of i to that of i + 1. |
| Ffts.RevInvolution | plugins/audio_detect/logmel.hpp:43-49 | Reversing bits twice changes nothing, so the swaps are an involution. |
| Ffts.NextReversed | plugins/audio_detect/logmel.hpp:45-47 | The loop terminates with the carry. |
| Ffts.BitReverse | plugins/audio_detect/logmel.hpp:43-49 | The swap phase leaves at m what was at the bit reversal of m. |
| Ffts.CombineBlock | plugins/audio_detect/logmel.hpp:52-66 | The innermost loop, its factor multiplied up, combines one block as specified and leaves the rest. |
| Ffts.Decimate | plugins/audio_detect/logmel.hpp:50-68 | Decimation in time: a polynomial is its even part plus z times its odd part, both at z squared. |
| Ffts.CombineTransforms | plugins/audio_detect/logmel.hpp:53-66 | Butterflies turn the transforms of two halves into that of the whole. |
| Ffts.Stage | plugins/audio_detect/logmel.hpp:53-67 | One stage leaves every block of its length transformed. |
| Ffts.DftIsPoly | plugins/audio_detect/logmel.hpp:39-69 | The defining sum at k is the polynomial at w^k. |
| Ffts.FftPow2 | plugins/audio_detect/logmel.hpp:39-69 | For N zero or a power of two the arrays end with, at each k, the sum over n of x[n] times w^(nk). |
| Geometry.OnIffInBox | plugins/analytics_rules/geometry.hpp:65-69 | Collinear and in the bounding box is exactly being on the closed segment. |
| Geometry.CrossingPoint | plugins/analytics_rules/geometry.hpp:79-79 | Ends on different sides both ways: the segments have a common point. |
| Geometry.CollinearMeet | plugins/analytics_rules/geometry.hpp:81-84 | On one line, segments that meet have an end of one on the other. |
| Geometry.IntersectIffMeet | plugins/analytics_rules/geometry.hpp:71-87 | The test is true if and only if some point lies on both closed segments, with collinear overlap, touching ends and one-point segments included. |
| Nms.FlagForm | plugins/detect_seg/seg_postprocess.hpp:55-65 | The flag loops keep exactly the greedy selection. |
| Nms.Suppress | plugins/detect_pose/pose_postprocess.hpp:50-64 | Sorted by falling confidence, ties in any order, then the greedy selection; by class or, for persons, without. |
| Nms.KeepListForm | plugins/detect_onnx/detect_postprocess.hpp:126-138 | The keep-list loops keep exactly the greedy selection by their own test. |
| Nms.MergeOverlapping | plugins/detect_onnx/detect_postprocess.hpp:121-139 | Sorted by falling confidence, then that selection. |
| Nms.FormsAgree | plugins/detect_seg/seg_postprocess.hpp:49-67 | On one list the two forms keep the same boxes, for a threshold not below 0 or boxes that have a size. |
| Nms.FormsAgreeIff | plugins/detect_onnx/detect_postprocess.hpp:121-139 | They agree on every list if and only if the threshold is not negative. |
| Nms.InterIsArea | plugins/detect_seg/seg_postprocess.hpp:36-47 | Boxes with a size share no inner point and their overlap is 0, or the points they share are a box and the overlap is its area. |
| Nms.CommonUnique | plugins/detect_seg/seg_postprocess.hpp:36-47 | That box is the only one. |
| Nms.IouSelf | plugins/detect_seg/seg_postprocess.hpp:36-47 | A box covers itself whole. |
| Nms.SuppressesIff | plugins/detect_seg/seg_postprocess.hpp:36-67 | For boxes with a size and a threshold not below 0: one suppresses another exactly when they share more than that part of what they cover together, within a class if classes matter. |
| Nms.DuplicatesIff | plugins/detect_onnx/detect_postprocess.hpp:126-138 | The keep-list test says the same within a class. |
| Nms.KeptShareLittle | plugins/detect_seg/seg_postprocess.hpp:49-67 | Two kept boxes of a class, or any two without classes, do not share more than the threshold. |
| Nms.LeftOutShareMuch | plugins/detect_seg/seg_postprocess.hpp:49-67 | One left out shares more than that with an earlier kept one of its class. |
| Nms.GreedyMeetsSpec | plugins/detect_seg/seg_postprocess.hpp:49-67 | Place by place: the kept boxes stand at increasing places, none suppresses another, and each place left out, its box equal to a kept one or not, has an earlier kept one of at least its confidence that suppresses it. |
| Nms.GreedySelects | plugins/detect_seg/seg_postprocess.hpp:49-67 | The same on any list, sorted or not, but for the confidences. |
| Nms.SelectionIsGreedy | plugins/detect_seg/seg_postprocess.hpp:49-67 | No other list of boxes meets that: it is the greedy selection. |
| Nms.SecondPass | plugins/detect_seg/seg_postprocess.hpp:49-67 | A second pass removes nothing. |
| Base64.EncodeLoop | plugins/common/base64.hpp:14-37 | The group loop and its tail write the encoding. |
| Base64.EncodeFollowsRfc | plugins/common/base64.hpp:14-37 | The text is that of section 4 of RFC 4648: six bits at a time, zero bits to fill, '=' to a multiple of four. |
| Base64.DecodeLoop | plugins/common/base64.hpp:43-67 | The loop with a 32-bit accumulator that is never masked decodes as with an unbounded one. |
| Base64.WrapHarmless | plugins/common/base64.hpp:59-62 | Bits lost to the wrap are never read: eight bits are cut out below the fourteenth. |
| Base64.RoundTrip | core/src/WorkerLink.cpp:47-70 | Decoding what the encoder made gives the bytes back. |
| Base64.ValIff | plugins/common/base64.hpp:44-54 | A character has a value exactly when it stands in the literal alphabet, its place there. |
| Base64.CharAtPlace | plugins/common/base64.hpp:10-13 | Each value is written as the character at its place. |
| Base64.StopsAtPadding | plugins/common/base64.hpp:55-62 | Nothing after a padding sign is read. |
| Base64.DecodesDespiteStrangers | core/src/WorkerLink.cpp:47-70 | Any other characters than '=' mixed into an encoding change nothing. |

## Left out

- The raw BYE that `stop()` writes past the queues, socket set-up, poll timing and signals.
- 32-bit wrap of the generation and sequence counters: counters are unbounded; headers carry them cut to 32 bits.
- WorkerLink.HandshakeSafety: media sent before its stream ever had a Hello is exempt, as the code sends it without one.
- Clients.Client.OnWritable: interrupted writes are retried as often as the given results say, so endless interruption is not modelled.
- Deframer.Inlet.OnReadable: the messages are collected here and handled in the same order by `WorkerLink.OnReadable`; talkback goes to a handler outside the hub and is not modelled.
- WorkerLinks.WorkerLink.OnCommand: parsing and printing JSON text and the command handler are parameters; a handler that throws is not modelled. JSON reals beyond the width they are cast to, undefined in the code, are taken modulo it. `request_id` is read as on 64-bit Linux, where `unsigned long long` is not the JSON library's own unsigned type and a truth value counts as 0 or 1.
- WorkerLinks.WorkerLink.OnSubscribe: when a wish throws, the ones read before it are not set here; the process ends either way.
- ShmRings.ShmRing.Pop: the wait is a number of looks at the tail that find it unmoved; a push during the wait is in the step machine. More than one producer, and shared-memory mapping, are not modelled.
- StageRunners.StageRunner.Turn: the frames a plugin forwards are a parameter; a plugin that forwards from a thread of its own after its call returned is not modelled.
- InferenceEngines.InferenceEngine.Turn: the model is any function that acts row by row and the decoder any function of one row's output; ONNX Runtime, CUDA copies and the decoder's own arithmetic are not modelled.
- InferenceEngines.InferenceEngine.constructor: a negative batch limit, which becomes a huge unsigned one, is the same as no limit and has no case of its own.
- InferenceEngines.EveryRunSound: requests made after the dispatcher has returned are never answered, by the code or here.
- PipelineLoaders.PipelineLoader.Load: JSON text parsing is not modelled, and a configuration is kept as its value instead of its printed text.
- MotionGates.DeviceGate.Frame: downsampling is the same kernel for all gates and is a parameter; the verdict's 64-bit and the block's 32-bit sums are unbounded.
- MotionGates.GatesEqualIff: on a frame with no cells the kernel launch fails and both gates throw before they answer or remember anything (detect_cuda.cpp:134-136 and 224-226), so the streams to read it for are those of frames with cells; the model answers nothing on an empty grid. The same holds of `SameSizeEqualIff`, `GatesAgreeIff` and `RegionGate.Frame`.
- MotionGates.VaapiAgrees: VAAPI has no luma-jump check, so the host is taken without one.
- The OpenVINO gate, which compares with `>=` on averaged cells and is a different function.
- Ffts.FftPow2: the factors are any numbers with the laws of exp(-2 pi i / len); cosine, sine and rounding are not modelled, nor the mel filterbank.
- Geometry.IntersectIffMeet: exact reals; `float` rounding is not modelled. Point-in-polygon and the zone states are left out as easy.
- Nms.Suppress: keypoints and mask coefficients ride along as a tag; not a number is not modelled.
- Capture, decode, encode, overlay, HTTP, MQTT and language-model plugins: little of theirs is a property across functions.

# Verification of the message broker's core

This project models the core of a C++ message broker in Dafny 4.11 and proves what its parts promise: bytes become frames,
frames become stored messages, and stored messages are delivered, retried and dropped. `dafny verify dfyconfig.toml` checks
everything. Paths below are relative to the broker's repository.

The pieces, from the bytes up:

* **Bytes and rings.** `Bytes.dfy` and `Circular.dfy` hold big-endian numbers and index arithmetic round a ring.
  `RingBuffer.dfy` has the ring of length-prefixed records as a class over an array, proved to be a FIFO queue. `RingThreads.dfy`
  has the same ring as a machine of two threads that take atomic steps: load the own index, load the other thread's index, move
  one byte, publish an index. An index keeps all values it ever had, and a load of the other thread's index may return any value
  that is not older than the last one seen, so stale snapshots are covered.
* **Frames.** `FrameCodec.dfy` is the one-shot encoder and decoder. `StreamingCodec.dfy` is the streaming parser: a value-level
  state machine (module `FrameParser`) with its theorems (`Chunking`, `Resynchronisation`, `DecoderRefinement`), and the class that
  runs it in place. `Connection.dfy` is the sender with its spill buffer and the reading loop; the results of `send`, `writev` and
  `recv` are an arbitrary sequence given to each call (a call beyond its end would block).
* **Topics.** `TopicState.dfy` describes one topic of the message store as a value together with its history (stored, purged,
  delivered, acknowledged, dead letters pulled) and the operations on it, composed of single changes. `TopicInvariants.dfy` and
  `TopicRuns.dfy` prove invariants for single changes, operations and runs, and `TopicRetries.dfy` how retry scans compose.
  `TopicScans.dfy` says copy by copy what the two background scans leave. `TopicPull.dfy` (exclusive and complete delivery),
  `TopicBudget.dfy` and `TopicRedelivery.dfy` (how often), `TopicLifetimes.dfy` (nothing lost before its time, nothing delivered
  after it, told by the publishes), `TopicConservation.dfy` and `TopicLedger.dfy` (where the copies are), `TopicSharing.dfy` (what
  consumers take from each other), `TopicExpiry.dfy` and `TopicTheorems.dfy`
  prove what follows for every run. `TopicRecords.dfy` is the record format in the ring, `TopicThreads.dfy` joins records, log
  and the two threads of the ring, and `TopicStore.dfy` is the class with the real loops over queues and nested maps, each
  method of which equals its operation on values. One critical section of the store (lines 160, 250, 403 and 465 of
  `src/storage/memory_message_store.cpp`) is one atomic action of a run, and so is a publish. Dead letters have a lock of their
  own (line 273); `RetryOrders.DlqPullDuringScan` shows why pulling them can be taken for atomic, too.
* **Broker pieces.** `TopicManager.dfy` (subscriptions, round-robin selection, and runs of all operations), `Pushes.dfy` (who gets a
  published message), `Dedup.dfy` and `Broker.dfy` (the dedup window and the
  order of checks in HandlePublish, over the real ring-backed topic and token buckets), `RateLimiter.dfy` (the token bucket with real
  numbers), `ConfigText.dfy`, `ConfigFile.dfy` and `Config.dfy` (saving and loading the configuration).

Clock readings, the answers of the kernel, the bytes of a file and the iteration order of hash maps are parameters or
nondeterministic choices. Clocks do not run backwards.

Where code and documentation disagree, the model follows the code:

* `src/storage/memory_message_store.h:24` says that the offset advances on acknowledgement; the code advances it at delivery
  (`memory_message_store.cpp:198`), and so does `VisitLog`.
* The comment at `memory_message_store.cpp:204` calls retries per consumer; the retry queue belongs to the topic.
  So a consumer can lose an unacknowledged message to another one. `TopicSharing.KeptExactly` is the exact condition under which it
  cannot: one consumer, or no retries; `TopicSharing.RetriesAreShared` is the failing run for all other settings. With any number of
  consumers, `TopicLedger.Ledger` accounts for every copy, and `TopicConservation.ExactlyOnePlace` says where each is with one.
* `dedup_window.h:17` promises an automatic cleanup and `dedup_window.cpp:36` a periodic one; nothing in the repository calls
  `CleanupInactive`. The runs in `Broker.dfy` allow evictions at any time. A duplicate is answered as a success even if its number was
  never stored (`PublishRuns.DuplicateNeverStored`); `PublishRuns.DuplicatesAreStoredExactly` says which producers are safe from that.
* `SpscRingBuffer::Pop` refuses a record over 16 MiB for ever while `Push` accepts it; `RingBuffer.NoRecordStuck` gives the
  capacities for which this cannot happen, exactly. The default capacity of 1 MiB is one of them.
* `Connection::OnRead` drops the bytes read in the very call in which the peer closes or an error comes, and the zero-copy path
  does not look at `max_write_buffer_size`; the contracts of `OnRead` and `SendFrame` say so.
* A length cast to 32 bits is truncated. `RecordStream.HeaderHoldsLength`, `FrameCodec.DecodesOnlySendable` and `Values.DecimalRoundTrip`
  give the exact bounds for the ring's header, a frame's length field and a configuration value.

## Model

| member | source | states |
|---|---|---|
| Bytes.BigEndianRoundTrip | src/protocol/frame_codec.cpp:14-31 | the shifts and casts that write a number most significant byte first lose exactly the bits above the width: reading back gives the number modulo 256^width, which is the number just when it fits |
| Bytes.BigEndianAt | src/ring_buffer/spsc_ring_buffer.cpp:31-34 | byte i of such an encoding is the one that `(n >> 8*(width-1-i)) & 0xFF` selects, for every width |
| Bytes.FromBigEndianSnoc | src/ring_buffer/spsc_ring_buffer.cpp:58-62 | one turn of the loop that shifts by eight and puts in a byte extends the number read so far by one byte |
| Circular.SlotIsModulo | src/ring_buffer/spsc_ring_buffer.cpp:33-42 | for indices inside the ring, `(from + j) % n` is the slot j places further round the ring |
| Circular.DistanceIsModulo | src/ring_buffer/spsc_ring_buffer.cpp:92-102 | the two size formulas give exactly the unread length and the room left (one slot is always unused), and head equals tail just when nothing is unread |
| Circular.WriteExtends | src/ring_buffer/spsc_ring_buffer.cpp:30-39 | a byte written behind the unread region and the already written part of a record damages neither |
| Circular.PublishAppends | src/ring_buffer/spsc_ring_buffer.cpp:41-42 | moving tail behind a completely written record turns it into the end of the unread region |
| Circular.ConsumeDrops | src/ring_buffer/spsc_ring_buffer.cpp:74-75 | moving head over a first part of the unread region leaves exactly the rest unread |
| RecordStream.StreamHead | src/ring_buffer/spsc_ring_buffer.cpp:58-72 | the first length header of a stream of records, read as four bytes, frames exactly the first record, and behind it the stream of the others begins |
| RecordStream.SplitStream | src/ring_buffer/spsc_ring_buffer.cpp:30-76 | cutting the bytes back at the length headers gives the very sequence of records they were made of |
| RecordStream.HeaderHoldsLength | src/ring_buffer/spsc_ring_buffer.cpp:31 | the 32-bit header announces the right length if and only if the record is shorter than 4 GiB |
| RingBuffer.SpscRingBuffer.constructor | src/ring_buffer/spsc_ring_buffer.cpp:8-11 | a new ring is empty and has one slot more than the capacity asked for |
| RingBuffer.SpscRingBuffer.ReadableSize | src/ring_buffer/spsc_ring_buffer.cpp:92-96 | the modular difference of the indices is the number of bytes of the queued records with their headers |
| RingBuffer.SpscRingBuffer.WritableSize | src/ring_buffer/spsc_ring_buffer.cpp:98-102 | the modular difference is the number of bytes that can still be written |
| RingBuffer.SpscRingBuffer.Push | src/ring_buffer/spsc_ring_buffer.cpp:15-44 | refines a FIFO queue: succeeds exactly for a non-empty record that fits with its header, then appends it; otherwise not even a byte of the ring changes |
| RingBuffer.SpscRingBuffer.Put | src/ring_buffer/spsc_ring_buffer.cpp:33-38 | one byte written at `(tail + i) % capacity` extends the written part of the record and keeps all unread records |
| RingBuffer.SpscRingBuffer.AdvanceTail | src/ring_buffer/spsc_ring_buffer.cpp:41-43 | publishing a written record appends it to the queue |
| RingBuffer.SpscRingBuffer.Pop | src/ring_buffer/spsc_ring_buffer.cpp:50-77 | refines the FIFO queue: removes and returns the oldest record, except that an empty ring or an oversized first record yields nothing and changes nothing |
| RingBuffer.SpscRingBuffer.GetLength | src/ring_buffer/spsc_ring_buffer.cpp:58-62 | the length read from the ring is that of the oldest record |
| RingBuffer.SpscRingBuffer.GetData | src/ring_buffer/spsc_ring_buffer.cpp:68-72 | the bytes read from the ring are those of the oldest record |
| RingBuffer.SpscRingBuffer.AdvanceHead | src/ring_buffer/spsc_ring_buffer.cpp:74-76 | moving head drops exactly the oldest record |
| RingBuffer.NoRecordStuck | src/ring_buffer/spsc_ring_buffer.cpp:64-66 | a pop never refuses a non-empty queue if and only if the ring was made for at most 16 MiB + 4 bytes; a larger ring takes a record it never gives out |
| RingThreads.StepKeepsInv | src/ring_buffer/spsc_ring_buffer.cpp:15-77 | every atomic step of either thread (load of an index, of any not yet overwritten age for the other thread's; one byte; one publication) keeps the invariant |
| RingThreads.RunKeepsInv | src/ring_buffer/spsc_ring_buffer.cpp:15-77 | the invariant holds at every point of every interleaving |
| RingThreads.RoomIsReal | src/ring_buffer/spsc_ring_buffer.cpp:20-28 | the room computed from a stale head never exceeds the real room |
| RingThreads.WriteByteIsDisjoint | src/ring_buffer/spsc_ring_buffer.cpp:30-39 | the slot a push writes next is none of the unread ones, and the byte is the next one of the framed record |
| RingThreads.ReadByteIsPublished | src/ring_buffer/spsc_ring_buffer.cpp:58-72 | the slot a pop reads next holds the right byte of the oldest record, whose publication the consumer has seen |
| RingThreads.FifoUnderEveryInterleaving | src/ring_buffer/spsc_ring_buffer.cpp:15-77 | at any point of any interleaving the popped records followed by the records in the ring's bytes are exactly the pushed records in order |
| RingThreads.WritesMissUnread | src/ring_buffer/spsc_ring_buffer.cpp:30-39 | in any interleaving no byte is written to a published unread slot, nor to the slot the consumer is about to read |
| RingThreads.ReadsArePublished | src/ring_buffer/spsc_ring_buffer.cpp:53-72 | in any interleaving every byte read belongs to a record already published, and is the byte that was pushed |
| RingThreads.PushGivesUpOnlyWhenFull | src/ring_buffer/spsc_ring_buffer.cpp:20-28 | a push gives up exactly when the record does not fit behind the records not yet popped at the head it loaded |
| RingThreads.PushBegins | src/ring_buffer/spsc_ring_buffer.cpp:15-20 | a push is turned away before it looks at the consumer's index exactly for an empty record and for one that the empty ring could not take |
| RingThreads.PopGivesUpOnlyWhenEmpty | src/ring_buffer/spsc_ring_buffer.cpp:50-56 | a pop gives up exactly when the tail it loaded shows no record behind those already popped |
| RingThreads.PopRefusesOnlyOversized | src/ring_buffer/spsc_ring_buffer.cpp:58-66 | a pop that has read a length gives up exactly when the oldest record is longer than 16 MiB |
| RingThreads.NobodyWaits | src/ring_buffer/spsc_ring_buffer.cpp:15-77 | in any interleaving each thread that has begun an operation has a step of its own to take, and each brings the operation nearer to its end, whatever the other does |
| FrameCodec.Encode | src/protocol/frame_codec.cpp:10-37 | the byte-by-byte appends produce the ten header bytes and the payload |
| FrameCodec.EncodeHeaderToBuffer | src/protocol/frame_codec.cpp:39-66 | writes the same header in place and leaves the bytes behind it alone; a buffer that is too small stays as it was and 0 is returned |
| FrameCodec.EncodingFields | src/protocol/frame_codec.cpp:10-37 | every field of an encoding reads back as it was put in, the length modulo 2^32 |
| FrameCodec.DecodeInvertsEncode | src/protocol/frame_codec.cpp:68-120 | a frame with default magic and version and up to 16 MiB of payload decodes to its type and payload and consumes exactly its encoding, whatever follows |
| FrameCodec.DecodesOnlySendable | src/protocol/frame_codec.cpp:68-120 | an encoding gives back the frame's type and payload if and only if the frame has default magic and version and at most 16 MiB; and exactly which encodings decode to anything, including those with a truncated length |
| FrameCodec.DecodesExactlyComplete | src/protocol/frame_codec.cpp:68-133 | decoding succeeds if and only if the header is acceptable and HasCompleteFrame holds |
| FrameCodec.DecodeIsLocal | src/protocol/frame_codec.cpp:68-120 | what was decoded re-encodes to exactly the bytes consumed |
| FrameParser.FindMagic | src/protocol/streaming_frame_codec.cpp:67-80 | the scan finds the first place of the magic, and none only if there is none |
| FrameParser.Iterate | src/protocol/streaming_frame_codec.cpp:15-48 | each turn of the loop that goes on makes the buffer shorter or the state later, which is why the loop ends |
| FrameParser.TryParse | src/protocol/streaming_frame_codec.cpp:15-49 | every returned frame costs bytes of the buffer, so that parsing frame after frame ends |
| StreamingCodec.StreamingFrameCodec.AppendData | src/protocol/streaming_frame_codec.cpp:9-13 | appends to the buffer and changes nothing else |
| StreamingCodec.StreamingFrameCodec.Reset | src/protocol/streaming_frame_codec.cpp:55-60 | the state is that of a new codec |
| StreamingCodec.StreamingFrameCodec.TryParseFrame | src/protocol/streaming_frame_codec.cpp:15-49 | the looping state machine computes the parse that the theorems are about, result and final state |
| StreamingCodec.StreamingFrameCodec.Sync | src/protocol/streaming_frame_codec.cpp:62-87 | finds the first magic and drops what is before it, or keeps the last three bytes |
| StreamingCodec.StreamingFrameCodec.TakeHeader | src/protocol/streaming_frame_codec.cpp:89-125 | a bad version or length gives up one byte and searches again; a good header is remembered |
| StreamingCodec.StreamingFrameCodec.TakePayload | src/protocol/streaming_frame_codec.cpp:127-143 | takes a complete payload with its header off the buffer, or waits |
| Chunking.IterateAppend | src/protocol/streaming_frame_codec.cpp:15-48 | bytes that arrive later do not change the progress a turn has made |
| Chunking.SyncAfterDrop | src/protocol/streaming_frame_codec.cpp:82-86 | dropping all but the last three bytes never discards the beginning of a magic |
| Chunking.DrainAppend | src/protocol/streaming_frame_codec.cpp:15-143 | parsing, appending and parsing again gives the frames and the state of appending first and parsing once |
| Chunking.DrainIdempotent | src/protocol/streaming_frame_codec.cpp:15-49 | a parser that has returned nothing returns nothing until more bytes come |
| Chunking.ChunkingIndependent | src/protocol/streaming_frame_codec.cpp:9-143 | for any bytes, garbage included, and any cutting into chunks, the frames and the final state and buffer are those of the whole stream at once |
| Chunking.SameBytesSameFrames | src/protocol/streaming_frame_codec.cpp:9-143 | two chunkings of the same bytes cannot be told apart by frames or state |
| Resynchronisation.MagicIsUnbordered | src/protocol/frame_protocol.h:10 | the first byte of the magic occurs nowhere else in it, so no magic overlaps another |
| Resynchronisation.ParseBehindGarbage | src/protocol/streaming_frame_codec.cpp:15-143 | behind bytes without a magic a sendable frame is found, returned, and the bytes after it are kept |
| Resynchronisation.GarbageThenFrames | src/protocol/streaming_frame_codec.cpp:15-143 | garbage without a complete magic followed by encoded sendable frames yields exactly those frames and leaves nothing behind |
| Resynchronisation.GarbageThenFramesChunked | src/protocol/streaming_frame_codec.cpp:9-143 | the same for every cutting into chunks |
| Resynchronisation.FrontYieldsPrefix | src/protocol/streaming_frame_codec.cpp:9-143 | the frames parsed from a first part of a stream are a prefix of those parsed from all of it |
| Resynchronisation.PartialFrameWaits | src/protocol/streaming_frame_codec.cpp:62-143 | an incomplete frame, cut anywhere, yields nothing yet |
| Resynchronisation.PrefixYieldsExactly | src/protocol/streaming_frame_codec.cpp:9-143 | from a first part of a stream of encoded frames, in any chunks, come exactly the frames that are complete in it |
| DecoderRefinement.StreamingIsDecodeAtFirstHeader | src/protocol/streaming_frame_codec.cpp:62-143 | a fresh streaming parser returns exactly what the one-shot decoder gives at the first place with an acceptable header, and keeps the rest; it returns nothing while that frame is incomplete or there is no such place |
| DecoderRefinement.DecodedIsStreamed | src/protocol/frame_codec.cpp:68-120 | where the one-shot decoder succeeds, a fresh streaming parser returns the same frame and keeps the bytes behind it |
| Connection.Connection.constructor | src/network/connection.cpp:13-18 | a new connection is open with nothing sent, received or waiting |
| Connection.Connection.SendFrame | src/network/connection.cpp:24-115 | for every sequence of kernel answers and on both paths: which frames are refused without a trace; how many bytes the calls take, what waits then, and exactly when the connection closes; with nothing but partial sends and EAGAIN every frame that is not refused is accepted, and wire and buffer grow by its encoding |
| Connection.BlockedExactly | src/network/connection.cpp:46-58 | calls that take bytes and then one that is blocked: they take what they have room for together, and the connection does not break |
| Connection.BreakingExactly | src/network/connection.cpp:46-58 | calls that take bytes and then one that fails or takes none: the connection breaks if and only if they have not taken everything before |
| Connection.Connection.SendBuffered | src/network/connection.cpp:43-64 | after any pattern of partial sends, EAGAIN and errors the buffer holds exactly the bytes not taken |
| Connection.Connection.SendLoop | src/network/connection.cpp:46-58 | the loop takes what the leading calls have room for, at most everything, and reports a broken connection exactly if a call fails before that |
| Connection.Connection.SendVectored | src/network/connection.cpp:67-114 | one writev, of which the first answer alone counts: exactly the rest of header and payload waits, whether it stopped inside the header or inside the payload |
| Connection.Connection.Spill | src/network/connection.cpp:86-110 | the two insertions leave the unsent rest of header and payload in the buffer, in order |
| Connection.Connection.OnRead | src/network/connection.cpp:117-157 | the bytes of all chunks up to the first call without any have arrived; if that call has none for now, the connection stays open and everything is parsed and handed over; an end of the stream or an error closes it and hands over nothing |
| Connection.Connection.ReadAll | src/network/connection.cpp:122-138 | the bytes of the recv calls are collected in order until one blocks or ends the connection |
| Connection.Connection.HandleFrames | src/network/connection.cpp:148-156 | hands over every complete frame in the codec and leaves it drained |
| Connection.Connection.Close | src/network/connection.cpp:159-170 | the connection is closed afterwards |
| Connection.Delivered | src/network/connection.cpp:24-157 | end to end, for any partial sends and any chunks read: the frames handled are a prefix of the frames accepted (and the one that failed, if any), and all of them once every byte has crossed |
| Connection.DeliveredSoFar | src/network/connection.cpp:24-157 | at any time the frames handled are exactly the first n accepted ones, where n is the number of frames whose bytes have all been parsed |
| Connection.WholeFramesHandled | src/network/connection.cpp:140-157 | an open reader that has received whole frames has handed over all of them |
| TopicState.ConsumerKeysDistinct | src/storage/memory_message_store.cpp:509-511 | the text keys of two consumers are equal if and only if both are subscribers or both groups, with the same id |
| TopicRecords.RecordRoundTrip | src/storage/memory_message_store.cpp:103-131 | a message comes back from its serialised record, exactly when its fields fit their widths |
| TopicRecords.Serialize | src/storage/memory_message_store.cpp:103-131 | the byte loops produce that record |
| TopicRecords.Deserialize | src/storage/memory_message_store.cpp:302-344 | the byte loops read the message back, or nothing from a record that is too short for its fields or its payload |
| PendingMaps.FlatInsert | src/storage/memory_message_store.cpp:191-196 | a copy entered in a consumer's nested map is one more copy, all others unchanged |
| PendingMaps.FlatDropEmpty | src/storage/memory_message_store.cpp:454-461 | erasing consumers without pending copies changes no copy |
| TopicStore.TopicData.constructor | src/storage/memory_message_store.h:86-119 | an empty topic whose first id is 1 |
| TopicStore.TopicData.Publish | src/storage/memory_message_store.cpp:97-134 | uses up one id in any case; succeeds exactly when the record fits the ring, and then the message is queued behind all others; nothing else changes |
| TopicStore.TopicData.DrainRingBuffer | src/storage/memory_message_store.cpp:295-348 | the decoded records are appended to the log in order until the ring is empty or its first record oversized |
| TopicStore.TopicData.Pull | src/storage/memory_message_store.cpp:159-228 | drains, scans the log and then the retry queue; the steady clock is read once for each message handed out; the result is exactly the messages that the delivery history gained |
| TopicStore.TopicData.PullFromLog | src/storage/memory_message_store.cpp:177-201 | the loop over the log stops at the limit and hands out, skips and moves the offset message by message |
| TopicStore.TopicData.TakeFromLog | src/storage/memory_message_store.cpp:182-200 | one turn: passed by, skipped as expired, left as pending, or handed out with the offset behind it |
| TopicStore.TopicData.PullFromRetries | src/storage/memory_message_store.cpp:203-225 | the loop with erasures takes the copies that are neither expired nor pending for this consumer, and drops the expired ones it meets |
| TopicStore.TopicData.Ack | src/storage/memory_message_store.cpp:250-261 | true exactly when the copy was pending for this consumer; then that copy alone is gone, and it counts as acknowledged |
| TopicStore.TopicData.PullDlq | src/storage/memory_message_store.cpp:268-289 | as many of the oldest dead letters as asked for, or all there are, leave the queue and are returned in order |
| TopicStore.TopicData.ProcessPendingRetries | src/storage/memory_message_store.cpp:402-462 | the nested loops visit every pending copy once in some order, and do to each what timing out does; consumers without copies are forgotten |
| TopicStore.TopicData.RetryConsumer | src/storage/memory_message_store.cpp:410-452 | removing the timed-out copies of a consumer after its loop is the same as removing each at once |
| TopicStore.TopicData.RetryCopy | src/storage/memory_message_store.cpp:414-446 | one copy: kept, dropped as expired, dead letter, or requeued in place of an older retry copy of its id |
| TopicStore.TopicData.ExpireTopicMessages | src/storage/memory_message_store.cpp:464-503 | exactly the expired messages and copies leave log, retry queue and pending maps |
| TopicStore.TopicData.ExpireLog | src/storage/memory_message_store.cpp:469-476 | the rebuilt log is the old one without exactly the expired messages, in the same order |
| TopicStore.TopicData.ExpirePending | src/storage/memory_message_store.cpp:484-502 | exactly the expired pending copies leave the nested maps |
| RetryOrders.RetryScanSnoc | src/storage/memory_message_store.cpp:410-446 | visiting one more copy at the end is timing out that copy in the state reached, where it is still pending as it was |
| RetryOrders.RetryScanConcat | src/storage/memory_message_store.cpp:410-446 | a scan over two parts of its order is the scan over the second in the state the first has left, where the copies of the second are still pending as they were |
| RetryOrders.DlqPullDuringScan | src/storage/memory_message_store.cpp:268-289 | dead letters pulled under their own lock in the middle of a retry scan: the outcome is that of the whole scan followed by a pull of as many |
| TopicScans.RetryScanExactly | src/storage/memory_message_store.cpp:402-462 | a retry scan in any order of the copies: what is pending afterwards, which dead letters are new, and what is in the retry queue, copy by copy |
| TopicScans.RetriedGoLast | src/storage/memory_message_store.cpp:435-445 | the retry queue after a scan is the old one without the messages retried, in its order, followed by copies with one retry more |
| TopicScans.ExpiryScanExactly | src/storage/memory_message_store.cpp:464-503 | exactly the expired messages and copies are gone, and ring, dead letters and offsets are untouched |
| TopicRuns.PublishKeepsInv | src/storage/memory_message_store.cpp:97-134 | publishing keeps the invariants, successful or not |
| TopicRuns.DrainAllKeepsInv | src/storage/memory_message_store.cpp:295-348 | draining keeps the invariants |
| TopicRuns.PullKeepsInv | src/storage/memory_message_store.cpp:159-228 | pulling keeps the invariants, for any consumer, limit and clock reading |
| TopicRuns.AckKeepsInv | src/storage/memory_message_store.cpp:250-261 | acknowledging keeps the invariants |
| TopicRuns.PullDlqKeepsInv | src/storage/memory_message_store.cpp:268-289 | pulling dead letters keeps the invariants |
| TopicRuns.TimeOutKeepsInv | src/storage/memory_message_store.cpp:413-446 | timing out one copy keeps the invariants, whichever of its four outcomes |
| TopicRuns.RetryScanKeepsInv | src/storage/memory_message_store.cpp:402-462 | the retry scan keeps the invariants, in whatever order it visits the copies |
| TopicRuns.ExpiryScanKeepsInv | src/storage/memory_message_store.cpp:464-503 | the expiry scan keeps the invariants |
| TopicRuns.RunKeepsInv | src/storage/memory_message_store.cpp:81-503 | all invariants hold at every point of every run of publishers, consumers and background scans |
| TopicTheorems.StoredIsAccepted | src/storage/memory_message_store.cpp:97-134 | in any run the stored messages are those of the successful publishes in order, each with the number of publishes up to it as its id |
| TopicTheorems.LogIsAcceptedMinusExpired | src/storage/memory_message_store.cpp:97-134 | in any run log followed by ring is exactly the successful publishes without those purged, all of which had expired; ids increase strictly and stay below the next id |
| TopicTheorems.UnacknowledgedSurvives | src/storage/memory_message_store.cpp:203-262 | in any run with any number of consumers, a delivered message that nobody acknowledged and that has not expired has a copy pending, queued for a retry, among the dead letters, or was pulled as one |
| TopicTheorems.RetryLimits | src/storage/memory_message_store.cpp:427-445 | in any run every copy is one of an accepted message with at most the maximal retry count, every dead letter has exactly that count, and the retry queue has one copy of an id at most |
| TopicTheorems.OffsetsNeverDecrease | src/storage/memory_message_store.cpp:165-201 | no action ever lowers any consumer's offset |
| TopicTheorems.OffsetsLeaveNoGap | src/storage/memory_message_store.cpp:165-225 | in any run an accepted message that a consumer's offset has passed was handed to that consumer or has expired; a consumer's deliveries from the log have strictly increasing ids |
| TopicLifetimes.DeliveredInTime | src/storage/memory_message_store.cpp:177-225 | in any run whatever a pull hands out carries payload and time of the accepted publish with its id, and the pull's clock reading is not past publish time + ttl, if a ttl was given |
| TopicLifetimes.KeptInTime | src/storage/memory_message_store.cpp:177-503 | in any run, as long as no clock reading is past the publish time + ttl of an accepted message: it is in log or ring, each consumer whose offset has passed it was handed it, and once delivered it has a copy until somebody acknowledges it |
| TopicLifetimes.KeptForEver | src/storage/memory_message_store.cpp:101-103 | a message published without a ttl is never lost in this sense, whatever the clock reads |
| TopicLifetimes.ShortPullMissesNothing | src/storage/memory_message_store.cpp:159-228 | in any run a pull that returns fewer messages than it may has missed nothing: its consumer has by then been handed every message accepted before whose ttl is not over at this reading, unless the message is stuck in the ring behind an oversized record |
| TopicLifetimes.ShortPullIsComplete | src/storage/memory_message_store.cpp:159-228 | so when all records are small enough for the ring to give them out, such a pull has missed nothing at all |
| TopicLifetimes.ExpiryPurgesExactly | src/storage/memory_message_store.cpp:464-503 | an expiry scan takes a message out of log, retry queue and pending maps if and only if its clock reading is past publish time + ttl |
| TopicLifetimes.DueCopyMovesOn | src/storage/memory_message_store.cpp:413-446 | in any run a retry scan leaves no copy pending that has waited for the timeout; if its ttl is not over it is then a new dead letter or, with retries left, queued for the next one |
| TopicLifetimes.DeadLettersInOrder | src/storage/memory_message_store.cpp:268-289 | in any run dead letters come out in the order in which they went in, and none gets lost |
| TopicSharing.OneConsumerKeeps | src/storage/memory_message_store.cpp:177-262 | with one consumer, a message handed to it that it has not acknowledged and that has not expired can still be had |
| TopicSharing.RunKeepsUnretried | src/storage/memory_message_store.cpp:427-434 | in any run without retries, every unexpired delivery is acknowledged by its consumer, still pending for it, or a dead letter, whatever the number of consumers |
| TopicSharing.RetriesAreShared | src/storage/memory_message_store.cpp:203-225 | for any two consumers, any timeout and any positive retry limit there is a run in which one consumer takes over the retry of the other, which acknowledged nothing and can no longer have the message |
| TopicSharing.KeptExactly | src/storage/memory_message_store.cpp:177-262 | all runs in which only the consumers of a set pull and acknowledge keep every unexpired delivery not acknowledged by its consumer available, if and only if the set has at most one consumer or nothing is ever retried |
| TopicLedger.TimeOutKeepsCopy | src/storage/memory_message_store.cpp:417-446 | timing out a copy leaves the number of copies of each unexpired message the same, except that it is one less exactly when the timed-out copy is requeued and another of its id already waits for its retry |
| TopicLedger.RetryScanSettles | src/storage/memory_message_store.cpp:402-462 | a whole retry scan, in any order, loses exactly as many copies of an unexpired message as it merges |
| TopicLedger.Ledger | src/storage/memory_message_store.cpp:177-503 | in any run with any number of consumers, the consumers that took an unexpired message from the log are exactly as many as its copies (pending, queued for a retry, dead letters, pulled or not), its acknowledgements and its merges together |
| TopicBudget.RunKeepsBudget | src/storage/memory_message_store.cpp:177-225 | deliveries made plus the deliveries that live copies can still cause never exceed one retry budget for each time the log gave the message out |
| TopicBudget.BoundedRedelivery | src/storage/memory_message_store.cpp:177-225 | in any run a message is delivered at most (1 + maximal retry count) times for each consumer that took it from the log |
| TopicRedelivery.DeadWasRetried | src/storage/memory_message_store.cpp:413-446 | no retry is skipped: in any run a dead letter, pulled or not, was delivered 1 + maximal retry count times at least, a pending copy once more than its retry count and a queued one as often as that |
| TopicRedelivery.RetriesExactly | src/storage/memory_message_store.cpp:413-446 | with one consumer these counts are exact in any run: a dead letter was delivered exactly 1 + maximal retry count times |
| TopicConservation.ExactlyOnePlace | src/storage/memory_message_store.cpp:81-289 | in any run with a single consumer key every stored message is in exactly one of: ring, log ahead of the offset, pending, retry queue, acknowledged, dead letters; or it was dropped after it expired |
| TopicPull.PullIsExclusiveAndExhaustive | src/storage/memory_message_store.cpp:177-227 | a pull returns at most the limit of pairwise distinct, unexpired ids, none pending for this consumer before and all pending after, touches no other pending copy, and returns fewer than the limit only if nothing else could be returned |
| TopicPull.PullEmptiesRing | src/storage/memory_message_store.cpp:295-348 | a pull leaves the ring empty unless an oversized record is in the way |
| TopicPull.PullInOrder | src/storage/memory_message_store.cpp:177-225 | a pull returns messages of the log first and retries behind them, each in the order of its queue |
| TopicPull.PendingNotPulledAgain | src/storage/memory_message_store.cpp:189-199 | whatever the limit and the clocks, a pull does not return a message that is pending for its consumer or group, and leaves that pending copy as it was |
| TopicPull.CopyStaysPending | src/storage/memory_message_store.cpp:250-262 | no action takes a pending copy away or changes it, except its acknowledgement, a retry scan that finds it due, and an expiry scan when it has expired |
| TopicPull.DeliveryIsPending | src/storage/memory_message_store.cpp:189-199 | in any run a delivery is made by a pull of its consumer, for which the message was not pending before and is pending after, since the clock reading for this delivery |
| TopicPull.ExclusiveUntilReleased | src/storage/memory_message_store.cpp:177-503 | in any run, between two deliveries of one id to one consumer or group there is its acknowledgement, a retry scan no earlier than the pending timeout after the first, or an expiry scan at which it had expired |
| TopicExpiry.PurgeIsInvisible | src/storage/memory_message_store.cpp:177-225 | whatever expired messages have been removed from log, retry queue and pending maps, a pull hands out the same messages |
| TopicExpiry.ExpiryScanIsInvisible | src/storage/memory_message_store.cpp:464-503 | in any run, an expiry scan at any time up to the pull makes no difference to what the pull returns |
| TopicThreads.LogAndRingAtEveryStep | src/storage/memory_message_store.cpp:295-348 | while one thread pushes records and another drains, byte by byte: at every step of every interleaving the drained messages followed by those in the ring's bytes are exactly the published ones in order, with increasing ids all those in the log below those in the ring |
| RoundRobin.WithoutMembers | src/mq/topic_manager.cpp:231-237 | erasing keeps exactly the members that do not match, and the list gets shorter exactly if somebody matched |
| RoundRobin.WithoutConcat | src/mq/topic_manager.cpp:127-132 | erasing goes member by member, so that those who stay keep their order |
| RoundRobin.WithoutUnique | src/mq/topic_manager.cpp:127-132 | erasing keeps ids unique |
| RoundRobin.PicksGoRound | src/mq/topic_manager.cpp:193-196 | the j-th selection is the member j places behind the index, counted round the list, also when the index lies beyond a list that has become shorter |
| RoundRobin.PicksOf | src/mq/topic_manager.cpp:193-196 | the exact number of times each member is among k selections |
| RoundRobin.Fair | src/mq/topic_manager.cpp:181-197 | k selections with the same n members pick each one floor(k/n) or ceil(k/n) times |
| RoundRobin.AfterUnique | src/mq/topic_manager.cpp:45-141 | ids in a group stay unique through any history of joining, leaving, disconnecting and selecting |
| RoundRobin.FairAfterAnyHistory | src/mq/topic_manager.cpp:45-141 | the same fairness from whatever state such a history has left |
| ManagerRuns.GroupIsAfterItsSteps | src/mq/topic_manager.cpp:18-272 | in any run of operations on all topics and groups, a group is what its own steps make of it: its joins, leaves, disconnections, selections and the unregistering of its topic |
| ManagerRuns.MemberExactly | src/mq/topic_manager.cpp:18-272 | in any run somebody is on a list if and only if it has subscribed there with a new id and has neither left, nor been disconnected, nor lost the topic since |
| ManagerRuns.WhoJoinedIsSelected | src/mq/topic_manager.cpp:45-197 | in any run such a member is among any selections in a row that are as many as the members, while these stay the same |
| ManagerRuns.SelectionsArePicks | src/mq/topic_manager.cpp:181-197 | while the members of a group stay the same, its selections are consecutive picks from the place where it stood, whatever other operations come between them |
| ManagerRuns.FairInEveryRun | src/mq/topic_manager.cpp:18-272 | in any run of subscriptions, disconnections, selections and messages pushed on any topics, as long as the members of a group stay the same, its selections pick each of the n members floor(k/n) or ceil(k/n) times of k |
| TopicManager.Manager.constructor | src/mq/topic_manager.cpp:7 | no topics, no subscribers |
| TopicManager.Manager.RegisterTopic | src/mq/topic_manager.cpp:9-16 | true exactly for a new name; a registered topic is not overwritten |
| TopicManager.Manager.UnregisterTopic | src/mq/topic_manager.cpp:18-24 | the topic and all its lists are gone, every other list is as before |
| TopicManager.Manager.Subscribe | src/mq/topic_manager.cpp:45-94 | the members of that one list afterwards are the old ones, followed by the subscriber exactly if its id was not among them, which is also the answer; the topic is registered afterwards; no other list changes |
| TopicManager.Manager.AddSubscriber | src/mq/topic_manager.cpp:61-70 | the same for the broadcast subscribers |
| TopicManager.Manager.AddMember | src/mq/topic_manager.cpp:70-93 | the same for a consumer group, which is created for its first member |
| TopicManager.Manager.Unsubscribe | src/mq/topic_manager.cpp:96-141 | true exactly if the id was on that list; it alone is taken off, an emptied group is deleted with its index; no other list changes |
| TopicManager.Manager.RemoveSubscriber | src/mq/topic_manager.cpp:103-116 | the same for the broadcast subscribers |
| TopicManager.Manager.RemoveMember | src/mq/topic_manager.cpp:116-140 | the same for a consumer group; the last member takes the group along |
| TopicManager.Manager.SelectNextMember | src/mq/topic_manager.cpp:181-197 | the member at the index modulo the number of members, and the index moves on by one round the list; the empty string without such a group; no other list changes |
| TopicManager.Manager.UnsubscribeByConnId | src/mq/topic_manager.cpp:223-272 | every list of every topic loses exactly the connection's members, emptied groups are deleted; true exactly if there was such a member anywhere |
| TopicManager.CleanLists | src/mq/topic_manager.cpp:227-243 | the loop that erases while it iterates leaves each list without the connection's members, and no empty list |
| TopicManager.CleanGroups | src/mq/topic_manager.cpp:248-263 | the same for the groups of a topic |
| TopicManager.CleanTopics | src/mq/topic_manager.cpp:245-269 | the same for all topics, dropping topics without groups |
| TopicManager.LeavingMeans | src/mq/topic_manager.cpp:126-137 | those who do not leave stay and keep their place in the rotation; a group that nobody is left in starts anew |
| Pushes.PushToSubscribers | src/mq/broker.cpp:149-172 | the connections of all broadcast subscribers of the topic, in their order |
| Pushes.PushToGroups | src/mq/broker.cpp:174-212 | every group of the topic is visited once in some order; what goes out is one push to each, to the member whose turn it is; every turn moves on by one and nothing else changes |
| Pushes.PushToGroup | src/mq/broker.cpp:176-212 | one group: nobody gets a push if the selected member has no id or no connection, but its turn is over in any case |
| Pushes.PushToTurn | src/mq/broker.cpp:176-212 | the push of a group goes to the member whose turn it is, unless that member has no id or no connection |
| Pushes.OnePushPerGroup | src/mq/broker.cpp:176-212 | if all members have ids and connections, the j-th push goes to the member of the j-th group whose turn it is |
| Pushes.EveryGroupGetsOne | src/mq/broker.cpp:149-212 | a message goes to every broadcast subscriber and to exactly one member of every group, the one whose turn it is, and to nobody else, whatever the order of the groups |
| Dedup.MarkedMeans | src/common/dedup_window.cpp:24-37 | marking makes the marked number and the lower ones of that producer duplicates and changes the answer for nothing else |
| Dedup.DedupWindow.IsDuplicate | src/common/dedup_window.cpp:11-22 | true exactly for a known, non-empty producer and a number not above its highest |
| Dedup.DedupWindow.MarkProcessed | src/common/dedup_window.cpp:24-37 | the window afterwards is the one MarkedMeans speaks of |
| Dedup.DedupWindow.RemoveProducer | src/common/dedup_window.cpp:39-42 | that producer alone is forgotten |
| Dedup.DedupWindow.CleanupInactive | src/common/dedup_window.cpp:44-66 | exactly min(size, limit) producers are left, unchanged, and none of them was less recently active than one removed |
| Dedup.SortByActivity | src/common/dedup_window.cpp:50-60 | a permutation of the entries in the order of their activity |
| PublishRuns.RemovalEvicts | src/common/dedup_window.cpp:39-66 | removal and cleanup are evictions in the sense of the runs |
| PublishRuns.DuplicateExactly | src/mq/broker.cpp:104-111 | in any run, evictions included, a request is a duplicate exactly when its number or a higher one was stored since its producer was last evicted |
| PublishRuns.ActiveSinceLastStored | src/common/dedup_window.cpp:30-34 | in any run a producer that the window knows is active since the clock reading of the request it stored last |
| PublishRuns.IdempotentProducer | src/mq/broker.cpp:104-147 | without an eviction of the producer: duplicate exactly when its number or a higher one was stored; its stored numbers increase strictly, so none is stored twice |
| PublishRuns.EvictionForgets | src/common/dedup_window.cpp:39-66 | after an eviction the same number is stored a second time |
| PublishRuns.DuplicateNeverStored | src/mq/broker.cpp:105-110 | a number below one already stored is answered as a duplicate although it was never stored |
| PublishRuns.DuplicatesAreStoredExactly | src/mq/broker.cpp:104-147 | whatever limiters and store answer, every duplicate reply to a producer is for a number that was stored, if and only if the producer sends its numbers in non-decreasing order |
| Broker.Broker.HandlePublish | src/mq/broker.cpp:95-220 | the order of the checks: a duplicate costs no token and stores nothing; a refusal by the connection's limiter costs no global token; tokens are spent before the store is asked; the message is pushed, and its number marked, exactly if it was stored, that is if the ring had room; no other producer's entry changes |
| Broker.Broker.StoreAndMark | src/mq/broker.cpp:139-219 | a full ring marks nothing, pushes nothing and answers BufferFull; otherwise the message is stored, pushed to everybody who is to get it, and its number marked |
| TokenBuckets.TokensWithinBurst | src/common/rate_limiter.h:57-66 | the bucket holds between nothing and the burst size at every point of every run |
| TokenBuckets.GrantedWithinInflow | src/common/rate_limiter.h:33-66 | in any window of any run, with the parameters changed at will, the tokens granted and those left do not exceed those at its beginning and what the rates in force let in |
| TokenBuckets.WindowBound | src/common/rate_limiter.h:33-41 | in any window without a change of parameters no more is granted than burst + rate * elapsed time |
| TokenBuckets.GrantsExactly | src/common/rate_limiter.h:33-66 | in any run, with the parameters changed at will, a request is granted if and only if it keeps to the burst size, to the tokens at the beginning, and to the limit at every earlier request or change, each with what the rates in force let in since; so a change takes no tokens away but those above the new burst |
| TokenBuckets.ConformsAtConstantRate | src/common/rate_limiter.h:33-41 | without a change of parameters that limit is burst + rate * elapsed time |
| TokenBuckets.SettingTakesEffect | src/common/rate_limiter.h:46-54 | the rate and the burst size in force are those set last |
| RateLimiter.TokenBucket.constructor | src/common/rate_limiter.h:22-26 | a new bucket is full |
| RateLimiter.TokenBucket.Refill | src/common/rate_limiter.h:57-66 | tokens grow with time at the rate, up to the burst size |
| RateLimiter.TokenBucket.Acquire | src/common/rate_limiter.h:33-41 | refines the step of the runs: all tokens asked for or none |
| RateLimiter.TokenBucket.SetRate | src/common/rate_limiter.h:46-54 | refines the step of the runs: what has come in until now is counted at the old rate |
| Strings.FindIsFirst | src/common/config.cpp:54-66 | the search finds the first occurrence, and nothing only if there is none |
| Strings.TrimOf | src/common/config.cpp:13-18 | trimming removes the blanks on both sides and nothing else |
| Strings.TrimSplits | src/common/config.cpp:13-18 | every string is its trimmed form between blanks, and that neither begins nor ends with one |
| Values.DecimalRoundTrip | src/common/config.cpp:27-52 | a printed number parses back if and only if it is in range; a larger one comes back truncated, and from 2^64 on is refused |
| Values.StoullReads | src/common/config.cpp:27-52 | a conversion reads spaces, a sign and digits and ignores what follows; a negative number wraps around, one of 2^64 or more is refused |
| Values.StoullRefuses | src/common/config.cpp:27-52 | without digits behind spaces and sign there is no number |
| Values.BoolRoundTrip | src/common/config.cpp:20-25 | a printed truth value parses back |
| Values.BoolReads | src/common/config.cpp:20-25 | between blanks, true and 1, false and 0 are read as truth values |
| ConfigFile.RemoveComments | src/common/config.cpp:86-100 | the loop with its string state removes exactly the line comments outside strings, with their newlines |
| ConfigFile.RemovalIsExact | src/common/config.cpp:86-100 | of any text made of code, strings whose quotes are escaped and that do not end in a backslash, and line comments, exactly the comments are removed, each with its newline; slashes inside strings stay |
| ConfigFile.NothingToRemove | src/common/config.cpp:86-100 | a text without slashes is left as it is |
| ConfigFile.ExtractBehindKey | src/common/config.cpp:54-70 | the value is what stands between the first colon behind the first quoted key and the next comma, or the next brace where no comma follows, without the blanks round it |
| ConfigFile.ExtractMissing | src/common/config.cpp:54-56 | without the quoted key there is no value |
| ConfigFile.NotInItem | src/common/config.cpp:54-57 | a quoted key matches at no place of a line for another key, neither at its quotes nor inside key or value |
| ConfigFile.FindInItems | src/common/config.cpp:54-57 | each quoted key is first found in its own line |
| ConfigFile.ExtractFromRender | src/common/config.cpp:54-70 | from a file of plain distinct keys and plain values every value is extracted as it was written, the last one included, which no comma ends |
| ConfigFile.SavedIsFound | src/common/config.cpp:86-106 | the same after the removal of comments |
| BrokerConfigs.EntriesWellFormed | src/common/config.cpp:170-196 | the 25 keys are distinct, and keys and values have none of the characters that structure the file |
| BrokerConfigs.RoundTrip | src/common/config.cpp:76-199 | for every configuration, loading what was saved gives every field its value back, whatever the settings were before |
| BrokerConfigs.PartialFile | src/common/config.cpp:76-162 | a file may give any of the settings in any order: each field whose key is there takes over its value, each other field keeps the setting it had |
| BrokerConfigs.MissingKept | src/common/config.cpp:102-106 | in any text, a field whose quoted key does not occur keeps the setting it had |
| BrokerConfigs.UnreadableKept | src/common/config.cpp:20-52 | a value that is neither a truth value nor a number leaves its field as it was |
| BrokerConfigs.BrokerConfig.LoadFromFile | src/common/config.cpp:76-162 | each field takes over the value behind its key or stays as it was; a file that cannot be opened changes nothing |
| BrokerConfigs.BrokerConfig.SaveToFile | src/common/config.cpp:164-199 | the lines written one by one are the text that the round trip is about; a file that cannot be opened stays as it was |

## Left out

- RingBuffer.SpscRingBuffer.Push: does not say what a ring of more than 4 GiB does with a record of 4 GiB or more, because the header then announces another length (`RecordStream.HeaderHoldsLength`) and the bytes are no longer a sequence of records.
- RingThreads.StepKeepsInv: leaves out pushes of records of 4 GiB or more for the same reason, and does not cover weak memory beyond coherent indices with acquire and release order, nor a second producer.
- TopicStore.TopicData.Publish: does not model 64-bit wrap-around of ids and times or records of 4 GiB or more in a ring that large, and runs as a whole; a publish while another thread drains is the subject of `TopicThreads.dfy`.
- TopicStore.TopicData.Pull: keeps the offsets of subscribers and groups, two maps in the source, in one map under distinct keys.
- TopicStore.TopicData.ProcessPendingRetries: takes the iteration order of the hash maps as unspecified, and returns it as a ghost result.
- Connection.Delivered: makes no claim that waiting bytes are ever flushed; the code sends them only with a later frame.
- Broker.Broker.HandlePublish: takes the decoded request and the payload that is to be stored (Protobuf and compression are foreign libraries), gives the connections that the message is pushed to but not the pushed bytes, and runs without subscriptions by other threads between its steps.
- TokenBuckets.GrantsExactly: uses exact real numbers, so rounding of doubles is not covered.
- TopicManager.Manager.Subscribe: leaves out the callback field of a subscriber, which no code sets or reads.
- Sockets, epoll, threads, sleeps and heartbeats (`tcp_server.cpp`, `tcp_client.cpp`): system calls and timing.
- The map of topics and its lock, and deleting a topic while background threads use it.
- Administration requests, batch publishing and response texts in `broker.cpp`: plumbing without deduplication.
- Per-topic configuration, plain getters and existence checks: easy members.
- Any promise of liveness, fairness between threads, or delivery after a connection has broken.

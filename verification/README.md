# The DJM-T1 driver's shared-memory audio path, verified

The driver moves six-channel, 24-bit audio between a USB mixer and CoreAudio through two lock-free
single-producer single-consumer byte rings in shared memory. A bridge process drives eight isochronous USB
transfers and sits at one end of both rings; an AudioServerPlugin sits at the other. This project models that
path and proves what it delivers.

| file | what it holds |
|---|---|
| `Protocol.dfy` | constants, slot arithmetic of the two-chunk copy |
| `Ledger.dfy` | the consumer's ledger: reads, lap skips and resyncs, and what can be concluded from it |
| `Window.dfy` | the sliding window of the stream that an overwritten ring keeps |
| `RingModel.dfy` | the ring as an append-only stream with a read position, for calls that do not overlap |
| `Ring.dfy` | the ring as a class over an array, proved to refine `RingModel` |
| `Interleaving.dfy` | both calls taken apart into counter loads and stores and single byte copies, run under any schedule |
| `Discipline.dfy` | exact FIFO and channel alignment of that machine under the callers' disciplines |
| `Observers.dfy` | the counters as seen during calls |
| `Atomicity.dfy` | whole calls are schedules of the machine |
| `Limits.dfy` | where the guarantees end: room for a write, overtaken reads, observers at neither end |
| `MachineInts.dfy` | the same ring in wrapping uint64 and uint32 arithmetic |
| `Fills.dfy` | OUT transfers filled packet by packet while the plugin writes |
| `EngineModel.dfy` | what each entry point of the isochronous engine does, as functions |
| `EngineRuns.dfy`, `EngineTheorems.dfy` | runs of engine, libusb and plugin together, their invariant and the theorems |
| `EventLaws.dfy` | the same runs told from statuses, answers and packets alone |
| `Bursts.dfy` | the engine's IN packet loop beside the plugin with nothing taken whole, and what a plugin that keeps up hears |
| `Slack.dfy` | how far behind that plugin may be, exactly |
| `PacketReads.dfy` | the engine's OUT packet reads with nothing taken whole, beside a plugin that keeps to the free space |
| `SharedMemory.dfy`, `IsoEngine.dfy`, `Plugin.dfy` | the segment, the engine and the plugin's handler as classes |
| `Environment.dfy`, `Driver.dfy` | the plugin's operations inside an engine method, and the objects taken through a run |
| `Codec.dfy` | packed 24-bit samples |
| `EndToEnd.dfy` | device samples to plugin samples, byte by byte through the IN ring |
| `Loopback.dfy` | the latency tool's loopback test |

The environment is a parameter: libusb's answer to each submission, the status and packets of each completion,
how many allocations succeed, the segment that opening shared memory yields, what the plugin does between the
ring calls of one engine method, and what the bridge publishes around each poll of the loopback test. Ghost
history (the stream, the ledger, the submission counts, the fillings) is added to state the results.

Hypotheses the code does not enforce, and that the theorems name: one producer and one consumer per ring; a
write is at most `2 * 4608 - write_pos % 4608` bytes (`CopyFitsIff` shows this is exactly when the copies stay
in the ring); a packet is at most 1024 bytes; libusb completes only transfers it holds and reports CANCELLED only
after `Stop` asked for it; the engine is started again only when no transfer is in flight.

What is taken whole. `Interleaving`, `Discipline`, `Observers`, `Limits`, `Bursts`, `Slack`, `PacketReads` and
`EndToEnd` take nothing whole: every load and store of a counter and every byte copied is a step of its own, and the
other thread may stand anywhere. The runs of `EngineRuns` and `EngineTheorems`, and the classes, span both rings and take one call on a
ring as one step; the plugin's calls fall anywhere between the engine's calls, between the four packets of one
transfer and during a start included, but do not overlap one of them.

## What is proved

* **Any interleaving.** A byte a read delivers for stream position q is always a byte of q's slot from the same or a
  later lap, and which lap is determined by how far the producer had copied at that step (`TornReads`). Conservation
  and the bound on laps hold regardless, and with whole-frame calls a torn read never moves a byte to another
  channel or another place in its sample.
* **Free space respected.** No lap, no shared slot, and reads are exactly a prefix of what was published
  (`FreeSpaceGivesFifo`), and a write leaves the reader whole in every interleaving exactly when it has room
  (`RoomIsExact`).
* **Device to plugin.** A plugin down to 512 unread bytes whenever a completion arrives, and otherwise at any step of
  its reads, receives the device's stream and its samples exactly, from a connection at any step of any run; 512 is
  exactly what the largest completion leaves.
* **Plugin to device.** While no plugin write overlaps a packet read, in every run the accepted OUT transfers are
  segments of the plugin's stream padded with silence, in order, and what was taken off the ring without reaching
  libusb is at most one transfer per start (`OutReachesUsb`). When they do overlap, the packets are still whole and
  consecutive if every plugin write begins with room (`RoomKeepsPackets`); without room they can tear.
* **Transfers.** The engine runs exactly while a fully successful start has not been ended by Stop, a disconnect or
  a refused resubmission (`RunsIff`). While it runs every transfer is in flight; then it winds down in exactly as
  many callbacks as there are transfers. It consumes a bounded part of the OUT ring.
* **Loopback test.** The outcome is determined by what the bridge publishes: the tool stops at the first loud frame
  or after its idle turns, and unless it was lapped, nothing detected means that every frame from the drain to its
  read position is silent (`RunLoopback`).

Results that came out negative, each with its exact boundary:

* an unrequested CANCELLED leaves a running engine short of a transfer (`HandleInTransfers` and
  `HandleOutTransfers` are if and only if);
* `Start` returns true although the engine does not run exactly when the allocations succeed and libusb refuses a
  submission (`StartRunsIff`; `StartCanMisreport` is such a run);
* `iso_engine.h` says `Stop` cancels all transfers; it does so exactly when a start succeeded in full and nothing has
  ended it since (`StopCancelsIff`), and after a disconnect it leaves seven in flight (`StopCanCancelNothing`);
* a write stays inside the ring wherever it starts only up to 4609 bytes, and nowhere above 9216
  (`CopyFitsEverywhereIff`); `OnWriteMixedOutput` does not bound its `bytesCount`, and a buffer of 1024 frames would
  be copied past the end from every position (`LargeBufferNeverFits`);
* a write without room laps the reader or gives a read it overtakes bytes of a later lap (`RoomIsExact`,
  `OvertakenOwnIff`), which the driver's own calls can bring about (`TearingHappens`);
* a third thread that loads the two counters can, from every state between calls, see read ahead of write
  (`ThirdPartyCanUnderflow`); the producer's and the consumer's own thread cannot;
* a counter that wraps at 2^64 names the wrong slot unless the number of wraps is a multiple of nine
  (`WrapKeepsSlotIff`), at the first wrap for instance (`FirstWrapLosesSlot`), where the header says positions never
  wrap.

## Model

| member | source | states |
|---|---|---|
| Protocol.CopyFitsIff | bridge/shm_protocol.h:112-121 | the two-chunk copy stays inside the ring if and only if it is at most the rest of this lap plus one whole ring |
| Protocol.CopyFitsEverywhereIff | bridge/shm_protocol.h:112-121 | a copy stays inside from every position if and only if it is at most 4609 bytes, and from some position if and only if at most 9216 |
| Protocol.LargeBufferNeverFits | plugin/djmt1_io_handler.cpp:130-143 | the last byte of a 1024-frame plugin buffer would land behind the ring, whatever the write position |
| Protocol.CopySlotIsSlot | bridge/shm_protocol.h:112-121 | byte i of a two-chunk copy lands on (position + i) modulo the capacity, also when the write is longer than the ring |
| Window.CopyByte | bridge/shm_protocol.h:117-120 | one byte copied at the frontier slides the window by one and disturbs nothing else in it |
| Window.WriteMovesWindow | bridge/shm_protocol.h:108-124 | after a write, overlong ones included, slot k modulo the capacity holds stream byte k for the whole last lap |
| Window.WindowAfterWrites | bridge/shm_protocol.h:108-124 | the same after any sequence of overwriting writes to a zeroed ring |
| Window.ReadSeesWindow | bridge/shm_protocol.h:148-157 | a two-chunk copy out of an unlapped ring is the stream segment at the read position |
| Window.SlotHoldsLatest | bridge/shm_protocol.h:14-17 | a slot holds the latest stream byte that maps to it |
| Ledger.Conservation | bridge/shm_protocol.h:135-160 | bytes delivered plus bytes skipped are exactly the distance the read position moved |
| Ledger.LapBound | bridge/shm_protocol.h:139-144 | each lap skip drops more than a ring, so laps times 4609 is at most the bytes passed |
| Ledger.DeliveredIsKept | bridge/shm_protocol.h:139-160 | the concatenated reads are the stream with the skipped intervals cut out |
| RingModel.ApplyEffect | bridge/shm_protocol.h:108-161 | one call keeps the ledger true and complete; a read delivers its segment, and adds a lap exactly when more than a ring is unread |
| RingModel.ReadTakesAll | bridge/shm_protocol.h:135-160 | a read takes max bytes or all there is, the next ones of the stream; more than a ring behind it takes none and skips to the end |
| RingModel.PaddedIs | bridge/iso_engine.cpp:178-181 | padding leaves the bytes in front and only zeros behind them |
| RingModel.DeliveryAndConservation | bridge/shm_protocol.h:108-161 | over any run of calls: delivery, bytes read + skipped + unread = bytes written, and the lap bound |
| RingModel.KeepingUpIsExact | bridge/shm_protocol.h:139-160 | a consumer never more than a ring behind at its reads receives the stream exactly, without a lap |
| RingModel.PacketLoopIsOneRead | bridge/iso_engine.cpp:168-182 | four packet reads equal one big read followed by zeros; if lapped on entry the transfer is all silence and the position is the write position |
| RingModel.InterleavedPackets | bridge/iso_engine.cpp:171-182 | with publishes between the packets, each packet is a stream segment then silence, in order, adjacent unless a skip of more than a ring lies between |
| Ring.Ring.constructor | bridge/shm_protocol.h:189-192 | an initialised ring is the empty stream |
| Ring.Ring.Write | bridge/shm_protocol.h:108-124 | a write appends its bytes to the stream and keeps the ring's window and ledger |
| Ring.Ring.CopyOut | bridge/shm_protocol.h:149-157 | the two chunks put the stream segment into the destination and leave the rest of it alone |
| Ring.Ring.Read | bridge/shm_protocol.h:130-161 | a read returns the next segment of at most max bytes, nothing when empty, or skips to the write position when lapped; the rest of the destination is untouched |
| Ring.Ring.Available | bridge/shm_protocol.h:166-172 | the unread byte count |
| Ring.Ring.Resync | plugin/djmt1_io_handler.cpp:70-71 | the read position jumps to the write position and the ledger records what was given up |
| Interleaving.ProducerStep | bridge/shm_protocol.h:108-124 | every producer step keeps the counters ordered, never moves the read position, and only advances the write position |
| Interleaving.ConsumerStep | bridge/shm_protocol.h:130-161 | every consumer step keeps the counters ordered, never touches ring, stream or write position, and only advances the read position |
| Interleaving.Reachable | bridge/shm_protocol.h:108-161 | in every schedule the ring holds its window up to the copy frontier, the ledger is complete, and every byte read has a known source |
| Interleaving.TornReads | bridge/shm_protocol.h:108-161 | each byte a read delivers for position q is the byte of q + laps * 4608, the latest the producer had copied, and laps is zero exactly when the frontier had not passed q + 4608 |
| Interleaving.ConservationUnderInterleaving | bridge/shm_protocol.h:135-160 | conservation and the lap bound hold in every byte-granular interleaving |
| Interleaving.ConsumptionUnderInterleaving | bridge/shm_protocol.h:130-161 | in every byte-granular interleaving, read position minus skips is at most the sum of the limits of the reads begun |
| Interleaving.TransfersUnderInterleaving | bridge/iso_engine.cpp:168-176 | so once the packet reads of n OUT transfers have begun, at most n times 3456 bytes are gone |
| Discipline.FreeSpaceGivesFifo | bridge/shm_protocol.h:14-17 | if each write begins with room by the free-space formula: no lap, never the same slot at once, and the reads are a prefix of the published bytes, in every interleaving |
| Discipline.FrameIsContiguous | bridge/shm_protocol.h:39-43 | no frame straddles the end of the ring |
| Discipline.PositionsStayAligned | bridge/shm_protocol.h:139-159 | whole-frame calls keep both counters on frame boundaries through laps and resyncs |
| Discipline.AlignmentSurvivesTearing | bridge/shm_protocol.h:139-159 | ... and every byte of every read, torn or not, is the byte of its own position or of whole laps later, which has the channel and the place in the sample where it is put |
| Discipline.LaneIsResidue | bridge/shm_protocol.h:39-43 | channel and place in the sample together are the position modulo 18 |
| Observers.PositionsGrow | bridge/shm_protocol.h:14-17 | in every schedule both counters are monotone and read never passes write |
| Observers.ProducerObserves | bridge/main.cpp:189-189 | the fill level of the IN ring queried on the producer's thread is the true one at the second load |
| Observers.ConsumerObserves | bridge/main.cpp:190-190 | the fill level of the OUT ring queried on the consumer's thread is the true one at the first load |
| Observers.RequestIsWhole | tools/djmt1-latency.cpp:342-351 | whatever the producer does between the query and each load and check of the read, a request for at most what was found is copied whole or ends in a lap skip |
| Atomicity.CallsAreSchedules | bridge/shm_protocol.h:108-161 | every run of whole calls is an uninterrupted schedule of the step machine with the same stream, position and ledger |
| Limits.RoomIsExact | bridge/shm_protocol.h:14-17 | from a state between calls, a write leaves the reader exact in every interleaving if and only if it had room by the free-space formula |
| Limits.OvertakenRead | bridge/shm_protocol.h:135-157 | a read overtaken by a whole write after its lap check delivers the latest byte of each slot |
| Limits.OvertakenOwnIff | bridge/shm_protocol.h:135-157 | those are the bytes the read means if and only if the write had room |
| Limits.TearingHappens | bridge/shm_protocol.h:139-157 | with two 2304-byte plugin buffers in the OUT ring and a third written during an 864-byte packet read, that read delivers the third buffer's bytes |
| Limits.ThirdPartyCanUnderflow | tools/djmt1-latency.cpp:217-231 | from every state between calls, counters loaded by a third thread can differ by minus one frame |
| MachineInts.WriteRefines | bridge/shm_protocol.h:112-123 | a write in wrapping arithmetic agrees with the unbounded model while the stream is below 2^64 |
| MachineInts.ReadRefines | bridge/shm_protocol.h:135-160 | a read in wrapping arithmetic with its casts agrees with the unbounded model |
| MachineInts.MachineRefinesModel | bridge/shm_protocol.h:108-161 | for every run below 2^64 bytes the machine counters, ring contents and all bytes read are the model's |
| MachineInts.InRingIsExact | bridge/iso_engine.cpp:217-220 | fewer than 2^54 USB packets never leave that range |
| MachineInts.WrapKeepsSlotIff | bridge/shm_protocol.h:14-15 | after a 64-bit wrap a counter names the right slot if and only if the number of wraps is a multiple of nine |
| MachineInts.FirstWrapLosesSlot | bridge/shm_protocol.h:14-15 | at 2^64 the wrapped counter names slot 0 and the stream stands at slot 1024 |
| EngineModel.StoreEffect | bridge/iso_engine.cpp:209-227 | a transfer writes its completed non-empty payloads to the IN ring in packet order, between whatever the plugin does there, counts their whole frames, and touches nothing else |
| EngineModel.WeaveWrites | bridge/iso_engine.cpp:209-227 | whatever the plugin reads meanwhile, what is published is exactly those payloads |
| Fills.FillKeepsReadBy | bridge/iso_engine.cpp:168-182 | a transfer filled while the plugin writes is four padded segments that start where the last transfer stopped and hold exactly what the ring delivered |
| EngineModel.BurstBound | bridge/shm_protocol.h:55-58 | one completion brings at most 1024 bytes a packet |
| EngineRuns.SubmitAllTransfers | bridge/iso_engine.cpp:112-115 | after the initial submissions, whatever libusb answers and the plugin writes, running means every transfer so far is in flight |
| EngineRuns.HandleInTransfers | bridge/iso_engine.cpp:203-245 | an IN callback keeps submissions accounted for, and keeps "running means all in flight" if and only if it is not a CANCELLED while running |
| EngineRuns.HandleOutTransfers | bridge/iso_engine.cpp:255-277 | the same for an OUT callback |
| EngineRuns.RunKeepsInv | bridge/iso_engine.cpp:51-277 | every event of every run keeps the system invariant: transfers, accounts, sessions, both ledgers, the chain of OUT fillings and the refusals |
| EngineTheorems.TransferMachine | bridge/iso_engine.cpp:106-277 | running means all eight transfers are in flight, and successful submissions = 4 + completions + errors in the first session |
| EngineTheorems.InTriesTwice | bridge/iso_engine.cpp:149-157 | on a running engine an IN submission succeeds if and only if the first or the second try does, and otherwise stops the engine |
| EngineTheorems.OutTriesTwice | bridge/iso_engine.cpp:168-192 | the same for OUT, whose bytes leave the ring either way |
| EngineTheorems.StoppedSubmitsNothing | bridge/iso_engine.cpp:140-162 | an engine that does not run submits nothing and does not read the OUT ring |
| EngineTheorems.StartSubmits | bridge/iso_engine.cpp:106-115 | exactly what a start submits and reads, by the first pair with a refusal and which of its two submissions it is |
| EngineTheorems.IdleStart | bridge/iso_engine.cpp:53-97 | a start on a running engine, or with a failed allocation, changes nothing |
| EngineTheorems.StartRunsIff | bridge/iso_engine.cpp:51-119 | a start leaves the engine running if and only if it ran already or all allocations and all submissions succeeded; what it returns is wrong exactly when only a submission failed |
| EngineTheorems.StartCanMisreport | bridge/iso_engine.cpp:51-119 | a feasible first start that returns true and does not run |
| EngineTheorems.RunsIff | bridge/iso_engine.cpp:51-277 | after any run the engine runs if and only if some start succeeded in full and no Stop, disconnect or twice refused resubmission came after it |
| EventLaws.SecondTriesKeepItGoing | bridge/iso_engine.cpp:149-192 | a started engine whose first tries are all refused but no second one runs until it is stopped or unplugged |
| EngineTheorems.StopCancelsIff | bridge/iso_engine.cpp:123-134 | after any run, Stop requests cancellation, then of all eight transfers, if and only if that is so; otherwise it changes nothing |
| EngineTheorems.StopCanCancelNothing | bridge/iso_engine.cpp:123-134 | a feasible run after which Stop leaves seven transfers in flight and requests nothing |
| EngineTheorems.OutConsumption | bridge/iso_engine.cpp:160-193 | read position minus skips is at most 3456 bytes per attempted submission, refused ones included, whatever the plugin writes between the packet reads |
| EventLaws.FillsAreAttempts | bridge/iso_engine.cpp:106-193 | the OUT transfers filled are exactly those attempted: one per completion or error while running, and per start up to the first refusal |
| EngineTheorems.Quiescence | bridge/iso_engine.cpp:123-140 | a stopped engine submits nothing, never reads the OUT ring, and each callback is one transfer fewer, down to none |
| EngineTheorems.SomeCallbackIsEnabled | bridge/iso_engine.cpp:197-277 | while a transfer is in flight some callback for it may come |
| EngineTheorems.InStream | bridge/iso_engine.cpp:205-227 | the IN stream is the concatenation, in callback order, of the payloads of completed packets in COMPLETED or TIMED_OUT transfers |
| EventLaws.DeviceStream | bridge/iso_engine.cpp:205-227 | the IN stream is the bytes of the packets with status COMPLETED in transfers with status COMPLETED or TIMED_OUT, and sample_count their frames |
| EngineTheorems.FrameResidue | bridge/iso_engine.cpp:222-224 | flooring each payload to frames loses at most 17 bytes a payload, and nothing if and only if all are whole |
| EngineTheorems.InAccounting | bridge/iso_engine.cpp:205-227 | in_write_pos minus 18 * sample_count lies in [0, 17 * packets], and is 0 if and only if every payload is whole frames |
| EngineTheorems.CountersCountCallbacks | bridge/iso_engine.cpp:203-277 | each of the four counters is the number of callbacks of its direction with a completed or timed-out, or an error, status |
| EngineTheorems.BothDirectionsDeliver | bridge/iso_engine.cpp:138-277 | in every run, with the plugin acting between packets too, on both rings: the bytes taken are the bytes written minus the skipped intervals, and taken + skipped + unread = written |
| EngineTheorems.OutReachesUsb | bridge/iso_engine.cpp:160-193 | the accepted OUT buffers are padded segments of the plugin's stream in order; their content is what was taken off the ring but for at most one refused transfer per start |
| PacketReads.RoomKeepsPackets | bridge/iso_engine.cpp:168-182 | if every plugin write begins with room, in every byte-granular interleaving each packet is its own stream segment then silence, consecutive, without a lap |
| Bursts.MovesKeepInv | bridge/iso_engine.cpp:209-227 | at every step of a completion the machine's invariant holds and at most 4096 bytes are written or waiting beyond the published position |
| Bursts.StreamIsHeard | bridge/iso_engine.cpp:205-227 | what is written, being written and still to be written is what libusb delivered, in order |
| Bursts.PromptPluginIsExact | plugin/djmt1_io_handler.cpp:111-119 | at most 512 unread bytes whenever a completion arrives means, in every byte-granular interleaving, no lap, no shared slot and exact delivery |
| Bursts.PluginHearsTheDevice | plugin/djmt1_io_handler.cpp:66-119 | from a connection at any step of any such run, in mid-packet too, a prompt plugin receives the payload stream byte for byte |
| Bursts.HeardIsPublished | bridge/iso_engine.cpp:205-227 | byte-granular completions that are those of an engine run bring exactly the payloads the run publishes |
| Slack.SlackIsExact | bridge/shm_protocol.h:55-58 | a plugin between calls is safe from a completion in every interleaving if and only if its payloads fit beside what is unread |
| Slack.SlackIsTight | bridge/shm_protocol.h:55-58 | safe from four full packets if and only if at most 512 bytes behind |
| EndToEnd.FramedRun | bridge/shm_protocol.h:139-159 | whole-frame packets and reads keep the IN counters on frame boundaries at every step of every interleaving |
| EndToEnd.SamplesArriveIntact | plugin/djmt1_io_handler.cpp:66-119 | the samples an engine run brings are, read byte by byte beside it, the samples the plugin decodes, from connection to read position |
| SharedMemory.Segment.constructor | bridge/shm_protocol.h:177-207 | an initialised segment has the one initialised header, which validates, and two empty rings |
| SharedMemory.ValidatesIff | bridge/shm_protocol.h:201-207 | exactly the headers validate that equal the initialised one in magic, version, frame size and ring size |
| IsoEngine.IsoEngine.constructor | bridge/iso_engine.cpp:22-35 | a new engine is idle, all counters zero, nothing submitted |
| IsoEngine.IsoEngine.SubmitIn | bridge/iso_engine.cpp:138-158 | submits, retries once, and stops the engine if both are refused |
| IsoEngine.IsoEngine.FillTransfer | bridge/iso_engine.cpp:168-182 | the loop leaves the four padded packets in the buffer and the ring after four reads, with the plugin's writes before each |
| IsoEngine.IsoEngine.SubmitOut | bridge/iso_engine.cpp:160-193 | the transfer's buffer holds the ring's bytes padded with silence, which are gone from the ring even if both submissions are refused; a buffer libusb holds is not touched |
| IsoEngine.IsoEngine.Start | bridge/iso_engine.cpp:51-119 | true exactly when running already or every allocation succeeded; then the transfers are offered to libusb in order until one is refused twice, and each one in flight has its last accepted filling in its buffer |
| IsoEngine.IsoEngine.Stop | bridge/iso_engine.cpp:123-134 | stops and requests cancellation only if the engine was running |
| IsoEngine.IsoEngine.StorePackets | bridge/iso_engine.cpp:210-227 | the packet loop publishes what the model says, packet by packet, with the plugin's reads in between |
| IsoEngine.IsoEngine.HandleInCompletion | bridge/iso_engine.cpp:203-245 | every status branch, with its counters, ring writes and resubmission |
| IsoEngine.IsoEngine.HandleOutCompletion | bridge/iso_engine.cpp:255-277 | every status branch, with its counters and resubmission, and the bytes left in the resubmitted buffer |
| Driver.Drive | bridge/iso_engine.cpp:51-277 | over any feasible run the objects end in the state of the model |
| Plugin.IOHandler.constructor | plugin/djmt1_io_handler.cpp:23-27 | a new handler is not connected |
| Plugin.IOHandler.ConnectToShm | plugin/djmt1_io_handler.cpp:34-76 | connects to a valid segment only, and then skips the backlog; otherwise nothing changes |
| Plugin.IOHandler.DisconnectFromShm | plugin/djmt1_io_handler.cpp:78-88 | no longer connected |
| Plugin.IOHandler.OnReadClientInput | plugin/djmt1_io_handler.cpp:98-120 | the whole buffer is what the IN ring delivered, then silence; all silence when not connected |
| Plugin.IOHandler.OnWriteMixedOutput | plugin/djmt1_io_handler.cpp:130-143 | the whole buffer is appended to the OUT stream, or dropped when not connected |
| Codec.ReadIsLittleEndian | tools/djmt1-latency.cpp:38-43 | three bytes read as the signed 24-bit value congruent to p0 + 256 p1 + 65536 p2 modulo 2^24 |
| Codec.WriteIsLittleEndian | tools/djmt1-latency.cpp:45-50 | the bytes written have that sum congruent to the value |
| Codec.DecodedIsLittleEndian | tools/djmt1-latency.cpp:38-43 | sample i of a buffer is the value of bytes 3i to 3i + 2, least significant first |
| Codec.EncodedIsLittleEndian | tools/djmt1-latency.cpp:45-50 | ... and is put there when encoded |
| Codec.DecodeOne | tools/djmt1-latency.cpp:38-50 | a written sample reads back as its signed residue modulo 2^24 |
| Codec.EncodeOne | tools/djmt1-latency.cpp:38-50 | the sample three bytes decode to is written as those bytes |
| Codec.DecodeEncode | tools/djmt1-latency.cpp:38-50 | decoding an encoded buffer reduces every sample to its signed residue |
| Codec.InRangeRoundTrip | tools/djmt1-latency.cpp:38-50 | samples in [-2^23, 2^23) survive the round trip |
| Codec.EncodeDecode | tools/djmt1-latency.cpp:38-50 | every buffer of whole samples is the encoding of what it decodes to |
| Codec.WriteInt24 | tools/djmt1-latency.cpp:45-50 | writes the three bytes in place, least significant first, and nothing else |
| Loopback.AllOrNothing | tools/djmt1-latency.cpp:342-351 | whatever is published between query and read, the read returns all the frames asked for, or nothing because it was lapped |
| Loopback.RequestIsLargest | tools/djmt1-latency.cpp:344-346 | the request is the largest multiple of 18 that is available and at most 864 |
| Loopback.LoudMeans | tools/djmt1-latency.cpp:357-361 | a sample is loud if and only if it is above 0x10000 or below -0x10000 |
| Loopback.PeakBounds | tools/djmt1-latency.cpp:358-359 | no sample looked at is further from zero than the maximum |
| Loopback.PeakAttained | tools/djmt1-latency.cpp:358-359 | some sample looked at is as far |
| Loopback.ImpulseIs | tools/djmt1-latency.cpp:316-321 | the impulse is 72 bytes, 24 times FF FF 7F |
| Loopback.BuildImpulse | tools/djmt1-latency.cpp:316-321 | the buffer is the encoding of 24 samples of 0x7FFFFF |
| Loopback.ScanFrame | tools/djmt1-latency.cpp:355-365 | tells whether a frame is loud, and raises the maximum by exactly the samples up to the first loud one, or by all |
| Loopback.ScanFrames | tools/djmt1-latency.cpp:352-368 | stops at the first loud frame of the buffer, having counted it, or looks at all; the maximum is that of the samples looked at |
| Loopback.ReadFrames | tools/djmt1-latency.cpp:343-352 | the read returns the whole aligned request from the stream, or nothing exactly when it was lapped after the query |
| Loopback.PollOnce | tools/djmt1-latency.cpp:342-368 | one turn takes the aligned request off the ring, or nothing exactly when lapped, and reports on exactly those bytes |
| Loopback.Listen | tools/djmt1-latency.cpp:341-374 | over any script, ring, bytes heard and idle time are those of the turns taken, and the loop ends at the first turn after which a frame was loud or the time is up, or with the script |
| Loopback.TurnsDeliver | tools/djmt1-latency.cpp:341-374 | over any turns the ring grows by what the bridge publishes, the ledger gains what was heard, and each lapped turn is one lap |
| Loopback.NothingMissed | tools/djmt1-latency.cpp:341-374 | without a lapped turn, what was heard is the stream from start to read position |
| Loopback.TurnMoves | tools/djmt1-latency.cpp:342-351 | a turn that finds less than 18 bytes takes nothing, one lapped meanwhile skips to the end, any other takes the next whole frames, as many as it found up to 864 bytes |
| Loopback.TurnCatchesUp | tools/djmt1-latency.cpp:342-351 | a turn that found at most 864 bytes, with nothing arriving meanwhile, leaves less than a frame |
| Loopback.EachTurnHears | tools/djmt1-latency.cpp:341-374 | turns that neither sleep nor are lapped bring 18 to 864 bytes each, the others none |
| Loopback.TimeIsUp | tools/djmt1-latency.cpp:341-374 | a loop that ended before its script without detecting slept exactly 30000 times |
| Loopback.HeardOnSamples | tools/djmt1-latency.cpp:352-368 | on the decoded samples: the first beyond 0x10000 is the last looked at and in the frame counted last, or there is none; the maximum is the largest distance from zero |
| Loopback.OutcomeMeans | tools/djmt1-latency.cpp:308-374 | if no lap was added since the drain, detection means some frame between drain and read position is loud, and no detection that all are silent |
| Loopback.RunLoopback | tools/djmt1-latency.cpp:308-374 | the count is the 1-based index of the first loud frame since the drain, or all frames delivered were counted and silent; stopping, elapsed time and the ring are determined by the script, and the outcome means what OutcomeMeans and HeardOnSamples say |

## Left out

- Plugin.IOHandler.OnWriteMixedOutput: a buffer longer than `2 * 4608 - write_pos % 4608` is excluded, because the two-chunk copy then leaves the ring (`CopyFitsIff`) and what memory holds after it is not modelled.
- EngineTheorems.OutReachesUsb: a plugin write that overlaps a packet read is taken before or after it, because a read that is overtaken can return bytes of a later lap (`Limits.TearingHappens`); `Interleaving.TornReads` says what the packet then holds, `TransfersUnderInterleaving` bounds what is taken, and `PacketReads.RoomKeepsPackets` has the case with room.
- EngineTheorems.BothDirectionsDeliver: overlapping calls likewise; byte by byte, `Interleaving.ConservationUnderInterleaving` has the counting half on each ring, `Bursts` the delivery half on the IN ring, and `PacketReads` that on the OUT ring.
- Weak memory: steps are sequentially consistent, bytes are copied in order, and a counter is published after its copy.
- IsoEngine.IsoEngine.Start: IN buffers and libusb's packet descriptors are not modelled as memory; a completed IN packet brings its bytes, so the null check on its buffer has no counterpart; a start whose allocations fail part-way leaves the old buffers in place.
- Loopback.RunLoopback: the polling loop is cut off by the end of the given script of polls, because elapsed time grows on idle polls only and the loop need not end; the branch for a zero request after a frame was available cannot be taken and is not written; the 32-bit frame counter is unbounded here.
- Codec.DecodeOne: shifts and masks are written as floor division and remainder on the two's-complement value, not on bit vectors.
- Opening, mapping and unmapping shared memory, descriptors, and stale mappings after a bridge restart: only the initialised segment and the resync are modelled.
- libusb, the USB device's setup and control transfers: only submission answers, statuses and packets appear.
- CoreAudio and libASPL objects, and the plugin's entry point and device properties.
- The bridge's main loop: signals, arguments, heartbeat, status flags, logging and the timed drain, which does not by itself bring the in-flight count to zero.
- The engine's destructor and the two-attempt delay: freeing memory and sleeping have no effect on the modelled state.
- The latency report, floating-point figures and the stand-alone isochronous test program, which repeats the transfer loop with file output.
- A latency tool running beside the plugin: it would be a second consumer and a second producer.

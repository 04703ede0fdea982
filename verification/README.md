# Intel Processor Trace pipeline: a verified model

The repository records what a processor executes and turns it back into packets. A kernel driver points each core's
trace hardware at a table of output pages (ToPA). When the pages are nearly full the hardware interrupts, the handler
pauses the core, and a deferred call swaps in fresh pages, takes a packet id, queues the full buffer and resumes tracing.
A consumer waits on an event, takes buffers off the queue and sends them on. A Python decoder puts the buffers of a
sequence back into id order and feeds their bytes, one at a time, to a packet interpreter.

The model covers that path from the trace hardware's pages to the decoded packets:

- `Bytes`, `PacketTable`, `Packets`: bits and little-endian numbers, the header patterns and lengths, what each handler
  does.
- `Decoder`, `PacketInterpreter`, `PacketHandlers`: the interpreter as a state machine, as a class with the source's
  fields and loops, and an order-free core that both are shown to follow.
- `Framing`, `Streaming`, `Trace`: padded packets, the whole-sequence decode, and event lists with an encoder.
- `Reorder`, `Pipeline`: the per-sequence reorder buffer, and both ends of the decoder's side together.
- `Topa`, `CoreTrace`: the output table and the state of one core's trace unit.
- `Handoff`, `Ownership`, `Memory`, `Sizes`, `Tickets`, `Running`: the trace hardware writing bytes into physical memory through
  the tables, the interrupt, the deferred calls, the queue and the consumers as interleaved atomic steps of any number of
  cores and consumers; who has each buffer, what it holds, what is reported of it, who has each id, and whether tracing comes back.
- `Disabling`, `Witnesses`: runs from the start of a session to each thing that can go wrong.
- `Delivery`: the theorem from the cores to the decoder.
- `Barrier`, `DriverUtils`: running a routine on all cores and waiting, the queue primitives and the counters.

The packet format and the ToPA format are those of the Intel 64 and IA-32 Software Developer's Manual, Volume 3, chapter
"Intel Processor Trace".

`dafny verify dfyconfig.toml` checks everything.

## Where the code differs from what it is meant to do

The code is modelled as it is. Where it misses its purpose, the intended form is modelled beside it and the lemmas say
exactly when the two agree.

- The interpreter never clears its current packet and completes whenever the accumulator is long enough, so a short packet
  can complete again inside the next header (`PacketInterpreter.py:147`). The rule is a parameter, `AsWritten` or
  `Guarded`; `Framing.AsWrittenAgreesIff` and `Framing.BreaksIff` give the condition,
  `Trace.PsbAfterTntMisread` the worst case.
- Once no definition fits, the reset in `PacketInterpreter.py:131-136` is excluded and the guarded decoder is silent for
  good (`Streaming.DeadRun`, `Streaming.DeadHappens`).
- `parser` feeds a message it has just cached, and compares a cache entry with a number (`TraceDecoder.py:50-62`).
  `Reorder.PublishedOrdersIff` says when that is right; `Behaviour` also has the intended form, which the end-to-end
  theorems use.
- A FIRST packet makes the order list anew when it arrives (`TraceDecoder.py:126`), so buffers received before it and after
  it are ordered apart: `Reorder.FirstSplitsIff`, `Delivery.FedInIdOrderIff`.
- Byte counts shift by 8 where the entry index starts at bit 7 (`ProcessorTrace.c:190`, `ProcessorTrace.c:281`):
  `Topa.SizeIff`. Consumers send whole buffers, so decoding does not depend on the count.
- Disabling leaves the buffer recorded as live (`ProcessorTrace.c:185-192`). Ownership is therefore proved for runs in
  which the disable call of a core starts with no swap of that core still to come, `Disabling.UncalmDuplicates` shows
  that every other start can hand one buffer out twice, and `Witnesses.DuplicateHappens` that sessions get there. Ids and
  the order of the queue need no such condition.
- The event is reset after the queue was seen empty, and the FIRST packet sets no event: `Tickets.StrandedIff`,
  `Witnesses.StrandedHappens`.
- The running status is written after the check that tracing is on (`ProcessorTrace.c:141-153`). A full region handled in
  between stalls the core: `Handoff.StallsIff`, `Running.NeverStallsIff`, `Witnesses.StallHappens`. One handled between the
  TraceEn write and the check does not, as long as its swap finds memory (`Running.NeverStalls`).
- An interrupt is taken for a full region whenever the status bit is set (`ProcessorTraceWindowsControl.c:749`), so one from
  elsewhere can queue a second swap: `Running.OneSwapAlwaysIff`, `Running.OneSwapUnlessIntruded`.
- Running out of pages rewinds the output position over the old buffer (`ProcessorTrace.c:268-284`): kept in
  `CoreTrace.UnlinkFullTopaBuffers`.
- The barrier counts in 16 bits and compares with a 32-bit number of cores: `Barrier.WaitEndsIff`. A failing return can
  leave calls outstanding: `Barrier.FailureQuiescentIff`, `Barrier.FailureHappens`.
- A ToPA ring of one page never interrupts (`Topa.OneInterruptPerLap`), and closes only on a page-aligned table
  (`Topa.RingClosesIff`); the allocation asks for no alignment.
- A PSB does not reset LastIP; the encoder compresses against LastIP the same way.
- `parser` ignores the core a buffer came from (`TraceDecoder.py:46`), so one LastIP serves all cores, while each core
  compresses against its own: `Pipeline.AddressesCross`, `Trace.OtherLastIp`. `Delivery.DriverToDecoderEach` needs each
  buffer to be legal by itself.

## Model

| member | source | states |
|---|---|---|
| `Delivery.DriverToDecoder` | IntelPTDriver/IntelPTDriver/ProcessorTraceWindowsControl.c:653-777 | from any session start, after every run of every number of cores and consumers in which disabling is calm: if what the cores wrote into each buffer while it was theirs is whole packets that spell a trace in id order and fits the buffer, then, for every order of arrival in which the FIRST packet does not come between them, the decoder reports exactly that trace from the bytes read out of memory, up to the first id whose enqueue failed |
| `Delivery.FedInIdOrderIff` | IntelPTDriver/TraceDecoder/TraceDecoder.py:46-126 | however the transport permutes the delivered items, FIRST packet included, the decoder is fed the buffers of ids 1 .. n in id order, once each, n + 1 being the first lost id, if and only if the FIRST packet does not arrive between them; with no lost id nothing stays cached |
| `Delivery.DriverToDecoderEach` | IntelPTDriver/IntelPTDriver/ProcessorTraceWindowsControl.c:653-777 | the same where what each core put into each buffer is a legal trace by itself, with no premise that joins the cores |
| `Delivery.BuffersHold` | IntelPTDriver/IntelPTDriver/ProcessorTraceWindowsCommands.c:166-185 | once a session is over, in a run in which disabling is calm, the message of each id up to n carries what the core of that buffer wrote into it, over the prefill, provided that fits the buffer |
| `Delivery.SentOnce` | IntelPTDriver/IntelPTDriver/ProcessorTraceWindowsCommands.c:129-168 | what consumers pass on carries no packet twice: the packets of the ids that reached the queue, and the FIRST packet |
| `Pipeline.EndToEnd` | IntelPTDriver/TraceDecoder/TraceDecoder.py:46-69 | buffers of whole packets and fill, arriving in any order, decode to the meaning of the trace they spell in id order, with an empty cache and the decoder between packets at the end |
| `Pipeline.AsItStands` | IntelPTDriver/TraceDecoder/TraceDecoder.py:46-69 | the parser as published with the decoder as written gets there when the buffers arrive in id order and no packet is shorter than the header after it |
| `Pipeline.PrefillIsFill` | IntelPTDriver/IntelPTDriver/ProcessorTrace.c:473-477 | a buffer prefilled with 0xFF and written from the front with packets reads as those packets followed by fill bytes |
| `Pipeline.HeldDecodes` | IntelPTDriver/IntelPTDriver/ProcessorTrace.c:473-477 | partly written, prefilled buffers fed in order decode to the meaning of the trace their packets spell |
| `Pipeline.FillIsTransparent` | IntelPTDriver/TraceDecoder/PacketInterpreter/PacketInterpreter.py:131-137 | streams of the same packets with whatever fill between them leave the guarded decoder in the same state, packets that handlers reject included |
| `Pipeline.EachLaysOut` | IntelPTDriver/TraceDecoder/TraceDecoder.py:46-57 | buffers that each hold a legal trace lay out, joined in id order, the traces end to end |
| `Pipeline.AddressesCross` | IntelPTDriver/TraceDecoder/PacketInterpreter/PacketHandlers.py:85-96 | two cores: an address compressed against its own core's LastIP comes out as another whenever the packet before it by id came from the other core with other upper bits |
| `Trace.RoundTrip` | IntelPTDriver/TraceDecoder/PacketInterpreter/PacketInterpreter.py:119-172 | for every legal event list, every placement of 0x00/0xFF bytes between packets and every order of the table, the guarded decoder reports exactly the meaning of the list and ends between packets with its context |
| `Trace.AsWrittenRoundTrip` | IntelPTDriver/TraceDecoder/PacketInterpreter/PacketInterpreter.py:147-172 | the decoder as written does the same when no packet is shorter than the header after it |
| `Trace.PsbAfterTntMisread` | IntelPTDriver/TraceDecoder/PacketInterpreter/PacketInterpreter.py:147-172 | after a TNT packet the code as written reads the sixteen bytes of a PSB as forty-eight branch outcomes and suppresses nothing, where the guarded decoder reports no packet and starts suppression |
| `Trace.TraceHandled` | IntelPTDriver/TraceDecoder/PacketInterpreter/PacketHandlers.py:7-109 | handling the encoded packets of a legal trace one by one reports its meaning and raises nothing |
| `Trace.EventRoundTrip` | IntelPTDriver/TraceDecoder/PacketInterpreter/PacketHandlers.py:7-109 | the handler of an encoded event reports that event, stamped with the latest earlier time, and moves the context as the event list does |
| `Trace.EncodedIsFrame` | IntelPTDriver/TraceDecoder/PacketInterpreter/IntelPacketDefinitions.py:6-187 | every encodable event is one well-formed packet of the table, with header bytes and payload widths that the encoder has of its own |
| `Trace.OpaqueIsEncoded` | IntelPTDriver/TraceDecoder/PacketInterpreter/IntelPacketDefinitions.py:6-187 | conversely every well-formed packet of a kind no handler reads is such an encoding, so header and length are exactly those |
| `Trace.RaisesIff` | IntelPTDriver/TraceDecoder/PacketInterpreter/PacketHandlers.py:85-87 | on whole packets a handler raises exactly for a compressed address with none before it, a MODE with a reserved leaf, or one that says both 32-bit and 64-bit |
| `Trace.TntRoundTrip` | IntelPTDriver/TraceDecoder/PacketInterpreter/PacketHandlers.py:23-48 | one to six outcomes packed below a stop bit are the outcomes the shift loops read back, in order |
| `Trace.PayloadRoundTrip` | IntelPTDriver/TraceDecoder/PacketInterpreter/PacketHandlers.py:80-97 | for each compression form the handler rebuilds exactly the address that was compressed against LastIP |
| `Trace.MergeRoundTrip` | IntelPTDriver/TraceDecoder/PacketInterpreter/PacketHandlers.py:85-90 | low bits merged with a LastIP that shares the rest give the address back |
| `Trace.SignExtendRoundTrip` | IntelPTDriver/TraceDecoder/PacketInterpreter/PacketHandlers.py:92-94 | the low 48 bits of a canonical address, sign-extended, give the address back |
| `Trace.OtherLastIp` | IntelPTDriver/TraceDecoder/PacketInterpreter/PacketHandlers.py:85-96 | a merged address after a stream whose latest address is another reads as that address with the low bits of the first, which is right if and only if the two agree in the bits left out |
| `Trace.LegalConcat` | IntelPTDriver/TraceDecoder/PacketInterpreter/PacketHandlers.py:85-96 | traces legal by themselves are legal one after the other, and encode to their packets one after the other |
| `Trace.SuppressedIff` | IntelPTDriver/TraceDecoder/PacketInterpreter/PacketInterpreter.py:160-166 | packets of an event list are dropped exactly where some PSB lies at or before them with no PSBEND in between |
| `Trace.OutcomesAndAddressesRecovered` | IntelPTDriver/TraceDecoder/PacketInterpreter/PacketInterpreter.py:154-166 | reading the reported packets gives every outcome and every rebuilt address outside suppressed stretches, in order and once each |
| `Packets.MergeIpBits` | IntelPTDriver/TraceDecoder/PacketInterpreter/PacketHandlers.py:50-54 | bit by bit: bits from the cut to 63 come from LastIP, all others from the payload |
| `Packets.SignExtendBits` | IntelPTDriver/TraceDecoder/PacketInterpreter/PacketHandlers.py:56-59 | bit by bit: bits 0 .. 47 are kept and bit 47 is repeated up to bit 63 |
| `Framing.AsWrittenAgreesIff` | IntelPTDriver/TraceDecoder/PacketInterpreter/PacketInterpreter.py:147-172 | on a padded stream of packets the code as written and the guarded decoder agree after every byte if and only if no packet is shorter than the header of the next one, as far as no handler has raised before |
| `Framing.BreaksIff` | IntelPTDriver/TraceDecoder/PacketInterpreter/PacketInterpreter.py:147-172 | where no handler raises, that is: each packet is at least as long as the header of the next one |
| `Framing.PsbOnlyAfterPsb` | IntelPTDriver/TraceDecoder/PacketInterpreter/PacketInterpreter.py:147-172 | hence on such agreeing streams a PSB can only be the first packet or follow a PSB |
| `Framing.StaleCompletes` | IntelPTDriver/TraceDecoder/PacketInterpreter/PacketInterpreter.py:147-172 | where a packet is shorter than the next header, the two decoders agree up to the byte before; at that byte the code as written hands the half-read header to the previous packet's handler, while the guarded decoder still holds it |
| `Framing.PiecesRun` | IntelPTDriver/TraceDecoder/PacketInterpreter/PacketInterpreter.py:131-172 | running the guarded decoder over padded packets is handing each packet to its handler once, with exactly its bytes |
| `Framing.PassedOverIff` | IntelPTDriver/TraceDecoder/PacketInterpreter/PacketInterpreter.py:131-137 | at the start of a stream the decoder passes over a byte exactly when it is 0x00 or 0xFF |
| `Framing.FrameRun` | IntelPTDriver/TraceDecoder/PacketInterpreter/PacketInterpreter.py:65-172 | one well-formed packet, whichever rule, is handed to its handler with exactly its bytes by its last byte |
| `Framing.FramePrefixRun` | IntelPTDriver/TraceDecoder/PacketInterpreter/PacketInterpreter.py:65-172 | before its last byte a packet is only being accumulated: nothing is handed over |
| `Streaming.RunIsDecode` | IntelPTDriver/TraceDecoder/PacketInterpreter/PacketInterpreter.py:119-172 | guarded byte-at-a-time decoding shows what a whole-sequence decode shows, on every byte sequence, malformed and cut-off ones included |
| `Streaming.StreamingRefinesBatch` | IntelPTDriver/TraceDecoder/PacketInterpreter/PacketInterpreter.py:119-177 | for any chunks and any placement of drains, what was drained plus what is waiting in the guarded decoder is the whole-sequence decode |
| `Streaming.DrainingIsTransparent` | IntelPTDriver/TraceDecoder/PacketInterpreter/PacketInterpreter.py:174-177 | drains lose, repeat and reorder nothing, under either completion rule |
| `Streaming.DeadRun` | IntelPTDriver/TraceDecoder/PacketInterpreter/PacketInterpreter.py:131-137 | once no definition fits, the guarded decoder reports nothing ever again |
| `Streaming.DeadHappens` | IntelPTDriver/TraceDecoder/PacketInterpreter/PacketInterpreter.py:131-137 | a stream that begins with 0x03 decodes to nothing whatever follows |
| `Streaming.SuppressionFilters` | IntelPTDriver/TraceDecoder/PacketInterpreter/PacketInterpreter.py:160-166 | on every byte sequence the decoder reports what decoding without suppression reports, with the hidden packets left out, and time, address, mode and fault are as if nothing were left out |
| `Streaming.HiddenAfterIff` | IntelPTDriver/TraceDecoder/PacketInterpreter/PacketInterpreter.py:160-166 | hidden by position: a PSB at or before with no PSBEND after it |
| `Decoder.TableOrderIrrelevant` | IntelPTDriver/TraceDecoder/PacketInterpreter/PacketInterpreter.py:83-111 | on every byte stream and under either rule, any two orders of the definitions give the same packets, context and position |
| `Decoder.RunRefines` | IntelPTDriver/TraceDecoder/PacketInterpreter/PacketInterpreter.py:79-117 | every reachable state keeps the invariant (searching: accumulator length is the header index and the candidates are exactly the longer definitions it starts; in a packet: shorter than the packet), and the run is the order-free one |
| `Decoder.StepRefines` | IntelPTDriver/TraceDecoder/PacketInterpreter/PacketInterpreter.py:119-172 | one byte keeps that invariant and is one step of the order-free decoder |
| `Decoder.IndexingInRange` | IntelPTDriver/TraceDecoder/PacketInterpreter/PacketInterpreter.py:90 | no byte stream makes the header index or a handler data index leave its range |
| `Decoder.ScanOpen` | IntelPTDriver/TraceDecoder/PacketInterpreter/PacketInterpreter.py:83-117 | the candidate loop with its early exit finds the one definition completed, else exactly the definitions still open |
| `PacketTable.PrefixFree` | IntelPTDriver/TraceDecoder/PacketInterpreter/IntelPacketDefinitions.py:24-187 | a complete header of one definition is not the start of any other |
| `PacketTable.HeadersAvoidUnused` | IntelPTDriver/TraceDecoder/PacketInterpreter/IntelPacketDefinitions.py:4-187 | no header byte of any definition admits 0x00 or 0xFF |
| `PacketTable.HeaderByCode` | IntelPTDriver/TraceDecoder/PacketInterpreter/IntelPacketDefinitions.py:24-187 | each bit pattern admits exactly the bytes whose fixed low bits are its code |
| `PacketTable.TableIsComplete` | IntelPTDriver/TraceDecoder/PacketInterpreter/IntelPacketDefinitions.py:24-187 | the published table holds every definition, so what is proved for all tables holds for it |
| `PacketTable.NoLengthIff` | IntelPTDriver/TraceDecoder/PacketInterpreter/IntelPacketDefinitions.py:6-22 | the length lookup raises exactly on codes 5 and 7 of an IP packet and codes 2 and 3 of PTW |
| `PacketTable.LengthBounds` | IntelPTDriver/TraceDecoder/PacketInterpreter/IntelPacketDefinitions.py:6-22 | a packet is never shorter than its header, and only PSB is longer than eleven bytes |
| `PacketInterpreter.Interpreter.ValidateHeaderByte` | IntelPTDriver/TraceDecoder/PacketInterpreter/PacketInterpreter.py:35-63 | the loop over the reversed pattern accepts exactly the bytes the pattern admits |
| `PacketInterpreter.Interpreter.SearchHeader` | IntelPTDriver/TraceDecoder/PacketInterpreter/PacketInterpreter.py:65-117 | the candidate loop, with its resets, ends in the state the search specification gives |
| `PacketInterpreter.Interpreter.ProcessByte` | IntelPTDriver/TraceDecoder/PacketInterpreter/PacketInterpreter.py:119-172 | one call moves the fields as one step of the specified machine, faults included |
| `PacketInterpreter.Interpreter.ProcessBytes` | IntelPTDriver/TraceDecoder/TraceDecoder.py:56-57 | feeding a buffer is running the specified machine over its bytes |
| `PacketInterpreter.Interpreter.GetSuccession` | IntelPTDriver/TraceDecoder/PacketInterpreter/PacketInterpreter.py:174-177 | returns the waiting packets and leaves none |
| `PacketHandlers.FindStopBit` | IntelPTDriver/TraceDecoder/PacketInterpreter/PacketHandlers.py:28-36 | the first shift loop ends with the highest set bit just shifted out, having counted the zeros above it |
| `PacketHandlers.TntPacketHandler` | IntelPTDriver/TraceDecoder/PacketInterpreter/PacketHandlers.py:23-48 | the two shift loops produce exactly the outcomes below the stop bit, each with the current time |
| `PacketHandlers.PayloadNumber` | IntelPTDriver/TraceDecoder/PacketInterpreter/PacketHandlers.py:80-84 | the reversed accumulate-and-shift loop reads the payload as a little-endian number |
| `PacketHandlers.FupTipPacketHandler` | IntelPTDriver/TraceDecoder/PacketInterpreter/PacketHandlers.py:61-99 | packet, LastIP and the missing-LastIP error are as specified |
| `PacketHandlers.TscPacketHandler` | IntelPTDriver/TraceDecoder/PacketInterpreter/PacketHandlers.py:7-11 | the time is the little-endian payload and becomes the current time |
| `PacketHandlers.ModePacketHandler` | IntelPTDriver/TraceDecoder/PacketInterpreter/PacketHandlers.py:102-106 | fields, the mode recorded and both errors are as specified; which mode a packet means is stated by `Trace.EventRoundTrip` |
| `PacketHandlers.Dispatch` | IntelPTDriver/TraceDecoder/PacketInterpreter/PacketInterpreter.py:155-156 | the stored handler runs as specified for every definition |
| `Reorder.AlwaysTidy` | IntelPTDriver/TraceDecoder/TraceDecoder.py:46-69 | intended parser, at every moment of every arrival order: fed is ids 1 .. last in order, the cache is sorted and holds only ids past the next one due, nothing is lost or repeated |
| `Reorder.AllDelivered` | IntelPTDriver/TraceDecoder/TraceDecoder.py:46-69 | after all of 1 .. n, all are fed in id order and the cache is empty |
| `Reorder.StopsAtGap` | IntelPTDriver/TraceDecoder/TraceDecoder.py:50-69 | with ids missing, exactly those before the first missing one are fed and every later arrival stays cached |
| `Reorder.PublishedFeedsArrivals` | IntelPTDriver/TraceDecoder/TraceDecoder.py:50-69 | published parser: feeds in arrival order and never drains; its cache stays empty exactly for arrivals 1, 2, 3, ... |
| `Reorder.PublishedCaches` | IntelPTDriver/TraceDecoder/TraceDecoder.py:50-63 | what the published parser caches, and never takes out again, is every message that did not follow the one before |
| `Reorder.PublishedOrdersIff` | IntelPTDriver/TraceDecoder/TraceDecoder.py:50-69 | the published parser meets the promise if and only if the messages arrive in id order |
| `Reorder.FirstSplitsIff` | IntelPTDriver/TraceDecoder/TraceDecoder.py:115-126 | with the FIRST packet among the arrivals, ids 1 .. n are fed in order if and only if all of them come before it or all after it |
| `Reorder.FirstInBetweenLoses` | IntelPTDriver/TraceDecoder/TraceDecoder.py:126 | id 2, then the FIRST packet, then id 1: only id 1 is fed and nothing waits, where without the FIRST packet both are fed |
| `Reorder.PublishedIgnoresFirst` | IntelPTDriver/TraceDecoder/TraceDecoder.py:50-126 | the published parser feeds in arrival order, FIRST packet in between or not |
| `Reorder.PacketOrder.SortIn` | IntelPTDriver/TraceDecoder/TraceDecoder.py:52-53 | append and stable sort insert one entry into the sorted cache |
| `Reorder.PacketOrder.BeginSequence` | IntelPTDriver/TraceDecoder/TraceDecoder.py:126 | the FIRST packet forgets the last id and the cache |
| `Reorder.PacketOrder.ParserAsPublished` | IntelPTDriver/TraceDecoder/TraceDecoder.py:46-69 | the published method moves the order state and the interpreter as specified |
| `Reorder.PacketOrder.ParserAsIntended` | IntelPTDriver/TraceDecoder/TraceDecoder.py:46-69 | caching without feeding and draining what became due, as specified, the interpreter having run over exactly the messages fed |
| `Topa.AllocateNewTopaBuffer` | IntelPTDriver/IntelPTDriver/ProcessorTrace.c:437-504 | the table becomes one entry per frame plus the end entry and every page of the buffer is filled with 0xFF; on failure table and memory are unchanged |
| `Topa.TableIsRing` | IntelPTDriver/IntelPTDriver/ProcessorTrace.c:487-500 | the entries built are a ring of exactly the given frames, in order, one page each and none stopping, with a valid end entry, if and only if the frame numbers fit the 52-bit field |
| `Topa.ByteGoesTo` | IntelPTDriver/IntelPTDriver/ProcessorTrace.c:487-500 | the byte after b others is written to offset b mod 4096 of frame b / 4096, counted round the frames |
| `Topa.SameAddressIff` | IntelPTDriver/IntelPTDriver/ProcessorTrace.c:487-500 | two bytes of output go to one address if and only if they are whole laps apart |
| `Topa.LaidIsOver` | IntelPTDriver/IntelPTDriver/ProcessorTrace.c:473-477 | output that fits leaves the buffer as that output followed by the rest of the prefill |
| `Topa.WalkIsAround` | IntelPTDriver/IntelPTDriver/ProcessorTrace.c:487-500 | on a page-aligned table, after b bytes output stands at entry b / 4096 mod n, offset b mod 4096, for every b |
| `Topa.FirstLap` | IntelPTDriver/IntelPTDriver/ProcessorTrace.c:487-500 | within the first lap that holds for any table address |
| `Topa.RingClosesIff` | IntelPTDriver/IntelPTDriver/ProcessorTrace.c:497-500 | the walk closes on entry 0 if and only if the table is page aligned |
| `Topa.OneInterruptPerLap` | IntelPTDriver/IntelPTDriver/ProcessorTrace.c:492 | an interrupt comes exactly when entry n - 2 fills, once per lap; with one entry never |
| `Topa.SizeIff` | IntelPTDriver/IntelPTDriver/ProcessorTrace.c:280-281 | after b bytes the shift by 7 counts b; the published shift by 8 counts b if and only if b is less than a page |
| `Topa.PublishedFits` | IntelPTDriver/IntelPTDriver/ProcessorTrace.c:280-281 | whatever the register says the published count is the 32-bit sum of its two terms |
| `CoreTrace.IptInitTopaOutput` | IntelPTDriver/IntelPTDriver/ProcessorTrace.c:506-585 | each failing return has its exact condition and leaves memory alone; otherwise the core is disabled, backed by its prefilled pages, and starts at table 0, entry 0, offset 0 |
| `CoreTrace.OutputOptions.Pause` | IntelPTDriver/IntelPTDriver/ProcessorTrace.c:197-221 | tracing is off and the status is paused |
| `CoreTrace.OutputOptions.Enable` | IntelPTDriver/IntelPTDriver/ProcessorTrace.c:122-155 | the status says enabled only if the hardware traces |
| `CoreTrace.OutputOptions.Resume` | IntelPTDriver/IntelPTDriver/ProcessorTrace.c:223-235 | does nothing where tracing is on, else enables |
| `CoreTrace.OutputOptions.Disable` | IntelPTDriver/IntelPTDriver/ProcessorTrace.c:167-195 | tracing is off; the live buffer and the published byte count are returned, the buffer staying recorded |
| `CoreTrace.OutputOptions.Unlink` | IntelPTDriver/IntelPTDriver/ProcessorTrace.c:237-287 | refuses an enabled core or a missing result place; hands over the buffer and the count from the register as it stood; without allocation changes nothing else; with it swaps in prefilled pages and rewinds, or rewinds over the old pages when none are left |
| `Sizes.SizesReported` | IntelPTDriver/IntelPTDriver/ProcessorTraceWindowsControl.c:671-709 | in every run in which disabling is calm, each item names the core its buffer was for, and its size is what the published formula makes of the place behind the last byte of that output, or 0 if a swap of the buffer had run out of pages; within the first lap that is right exactly for less than a page |
| `Delivery.MessagesNameCores` | IntelPTDriver/IntelPTDriver/ProcessorTraceWindowsCommands.c:166-168 | every message sent on names the core its buffer was for |
| `Ownership.GoodAlways` | IntelPTDriver/IntelPTDriver/ProcessorTraceWindowsControl.c:653-928 | after every run in which disabling is calm: every buffer has one place, the tables hold the frames of the live buffers, frames are disjoint, and the log is what was delivered followed by what is queued |
| `Ownership.GoodStep` | IntelPTDriver/IntelPTDriver/ProcessorTraceWindowsControl.c:653-928 | every single step keeps it |
| `Ownership.OnePlace` | IntelPTDriver/IntelPTDriver/ProcessorTraceWindowsControl.c:653-777 | a buffer is never in two places, and is in one unless lost |
| `Ownership.DeliveredOnce` | IntelPTDriver/IntelPTDriver/ProcessorTraceWindowsCommands.c:129-168 | in every such run no buffer is delivered twice and no two delivered buffers share a page |
| `Ownership.LostOnlyByFailure` | IntelPTDriver/IntelPTDriver/ProcessorTraceWindowsControl.c:676-735 | a buffer is lost only when the description or the queue cell cannot be allocated |
| `Ownership.TablesNeverShare` | IntelPTDriver/IntelPTDriver/ProcessorTrace.c:258-267 | a core's table points at its live buffer's frames and at no frame of any other buffer of the session |
| `Memory.DeliveredHolds` | IntelPTDriver/IntelPTDriver/ProcessorTraceWindowsControl.c:653-777 | in every run in which disabling is calm, the pages of a delivered buffer hold exactly what its core wrote while it was live, laid round the prefill |
| `Memory.ReportedFullIff` | IntelPTDriver/IntelPTDriver/ProcessorTraceWindowsControl.c:725-728 | in every such run, while a core traces, a region is reported full exactly when its live buffer has been filled up to the last page, so a swap that is over has cleared the report |
| `Memory.OutputLands` | IntelPTDriver/IntelPTDriver/ProcessorTrace.c:487-495 | a byte of output, written where the table says, changes the live buffer of its core at the next place and no other buffer |
| `Memory.OutputNeverBlocked` | IntelPTDriver/IntelPTDriver/ProcessorTrace.c:487-500 | a tracing core can always write: its registers never leave its own table |
| `Memory.MovesOn` | IntelPTDriver/IntelPTDriver/ProcessorTrace.c:492 | the registers move on round the ring, and the interrupt comes exactly when the last region but one is full |
| `Memory.FaithfulAlways` | IntelPTDriver/IntelPTDriver/ProcessorTraceWindowsControl.c:653-928 | after every such run all buffers hold their output and all registers stand right behind it |
| `Memory.ReadAnyTime` | IntelPTDriver/IntelPTDriver/ProcessorTraceWindowsCommands.c:166-185 | a delivered buffer reads the same whenever in the rest of the run it is copied |
| `Running.HarmlessInterrupt` | IntelPTDriver/IntelPTDriver/ProcessorTraceWindowsControl.c:749-753 | an interrupt that comes while no region is reported full is taken and changes nothing |
| `Running.CallsInOrder` | IntelPTDriver/IntelPTDriver/ProcessorTraceWindowsControl.c:759-777 | in every run the deferred calls of a core run in the order they were queued, none left out and none twice |
| `Running.OneSwapAlwaysIff` | IntelPTDriver/IntelPTDriver/ProcessorTraceWindowsControl.c:740-777 | in every run no core ever has two swap calls queued or running if and only if the handler never queues one while one is queued or running |
| `Running.OneSwapUnlessIntruded` | IntelPTDriver/IntelPTDriver/ProcessorTraceWindowsControl.c:749-777 | which, where disabling is calm, takes an interrupt from elsewhere while the swap for a region reported full is on its way |
| `Running.NeverStallsIff` | IntelPTDriver/IntelPTDriver/ProcessorTraceWindowsControl.c:653-777 | in every run in which disabling is calm, no core that is set up and not disabled ever stalls if and only if no step is one of those that stall a core |
| `Running.NeverStalls` | IntelPTDriver/IntelPTDriver/ProcessorTraceWindowsControl.c:653-777 | that is so if no allocation fails, the hardware starts when asked and no full region is handled between the check that tracing is on and the status write |
| `Disabling.UncalmDuplicates` | IntelPTDriver/IntelPTDriver/ProcessorTrace.c:185-192 | the calm condition is needed: whenever a disable call starts with a swap of its core still to come, some run from there enqueues the same buffer twice |
| `Witnesses.DuplicateHappens` | IntelPTDriver/IntelPTDriver/ProcessorTrace.c:185-192 | from every session start some run gets there and enqueues one buffer twice |
| `Handoff.SoundStep` | IntelPTDriver/IntelPTDriver/ProcessorTraceWindowsControl.c:653-928 | every step on a core keeps the core's own invariant |
| `Handoff.SwapOnlyWhilePaused` | IntelPTDriver/IntelPTDriver/ProcessorTrace.c:245-284 | a buffer is taken off only while tracing is off, and the new one is in place at the front |
| `Handoff.ResumeAtFront` | IntelPTDriver/IntelPTDriver/ProcessorTrace.c:223-235 | tracing that is set up, or resumes after a swap, is on the buffer now recorded for the core, at entry 0, offset 0 |
| `Handoff.OneSwapIff` | IntelPTDriver/IntelPTDriver/ProcessorTraceWindowsControl.c:740-777 | from at most one swap call, queued or running, a step comes to more if and only if the handler queues one on top of it |
| `Witnesses.DoubleSwapHappens` | IntelPTDriver/IntelPTDriver/ProcessorTraceWindowsControl.c:749-777 | from every session start some run has two swaps of one core queued |
| `Handoff.StallsIff` | IntelPTDriver/IntelPTDriver/ProcessorTraceWindowsControl.c:653-777 | the exact steps at which a core comes to stall, however many swaps it has on their way: the hardware does not start, no memory for the deferred call, a swap refused or without pages, or no memory for its description, each with no other swap on its way; or disabling |
| `Handoff.StalledStaysIff` | IntelPTDriver/IntelPTDriver/ProcessorTraceWindowsControl.c:653-777 | a stalled core stays so under every step but an interrupt from elsewhere while a region is reported full |
| `Witnesses.LateInterruptStalls` | IntelPTDriver/IntelPTDriver/ProcessorTrace.c:141-153 | a full region handled between the check that tracing is on and the status write stalls the core though pages are at hand and no later step is to blame |
| `Witnesses.StallHappens` | IntelPTDriver/IntelPTDriver/ProcessorTrace.c:141-153 | from every session start some run gets there in which every allocation succeeds, the hardware starts when asked, disabling is calm and only that one interrupt is handled too soon |
| `Witnesses.StrandedHappens` | IntelPTDriver/IntelPTDriver/ProcessorTraceWindowsCommands.c:135-145 | from every session start with a consumer asking some run ends, with a late reset, with an item waiting, that consumer waiting and nobody about to set the event |
| `Tickets.PacketIds` | IntelPTDriver/IntelPTDriver/DriverUtils.c:388-393 | in every run the ids are 0 .. count - 1 with the FIRST packet at 0; each is in the log once, in the hands of one deferred call, or failed |
| `Tickets.CounterFollows` | IntelPTDriver/IntelPTDriver/DriverUtils.c:388-393 | a counter that stands at the number of ids taken gives each packet its id and stands there again |
| `Tickets.TicketedAlways` | IntelPTDriver/IntelPTDriver/ProcessorTraceWindowsControl.c:476-522 | the accounts of ids hold after every run |
| `Tickets.FailsOnlyByEnqueue` | IntelPTDriver/IntelPTDriver/ProcessorTraceWindowsControl.c:718-729 | an id misses the queue only because its own enqueue failed |
| `Tickets.IdsDistinctIff` | IntelPTDriver/IntelPTDriver/DriverUtils.c:388-393 | the 32-bit ids of a session of n packets are distinct if and only if n is at most 2^32 |
| `Tickets.StrandedIff` | IntelPTDriver/IntelPTDriver/ProcessorTraceWindowsCommands.c:135-145 | items come to wait with the event clear in exactly two ways: a late reset, or the FIRST packet |
| `Tickets.TakenInOrder` | IntelPTDriver/IntelPTDriver/DriverUtils.c:203-303 | in every run from every state, consumers take what was waiting and then what came in, in that order, with none left out |
| `Tickets.EachTakenOnce` | IntelPTDriver/IntelPTDriver/DriverUtils.c:203-303 | in every run of a session what was taken and then what waits is what was enqueued, and no id is taken twice |
| `Tickets.OldestFirst` | IntelPTDriver/IntelPTDriver/ProcessorTraceWindowsCommands.c:135-157 | after any run, a consumer waiting while items wait can, once the event is set or it is alerted, take the oldest item not yet taken, ahead of all enqueued later |
| `Barrier.SuccessMeansOnceEverywhere` | IntelPTDriver/IntelPTDriver/ProcessorTraceWindowsControl.c:112-183 | success only after the routine ran exactly once on every core at the requested level and never at the other, with no core still using the structure |
| `Barrier.CountersCount` | IntelPTDriver/IntelPTDriver/ProcessorTraceWindowsControl.c:41-64 | at every moment the counters are the numbers of finished cores |
| `Barrier.WaitEndsIff` | IntelPTDriver/IntelPTDriver/ProcessorTraceWindowsControl.c:172-180 | the wait can end if and only if every core has counted and there are at most 32767 |
| `Barrier.ErrorIff` | IntelPTDriver/IntelPTDriver/ProcessorTraceWindowsControl.c:139-163 | a run fails exactly if a queueing step fails, for want of resources if there was no memory and with access denied if the kernel refused |
| `Barrier.ShortIsItself` | IntelPTDriver/IntelPTDriver/ProcessorTraceWindowsControl.c:22-23 | the 16-bit counters wrap at 32767 |
| `Barrier.FailureRunsAPrefix` | IntelPTDriver/IntelPTDriver/ProcessorTraceWindowsControl.c:132-163 | a failure at core i means cores below i ran at most once, the rest never |
| `Barrier.FailureQuiescentIff` | IntelPTDriver/IntelPTDriver/ProcessorTraceWindowsControl.c:139-163 | a failing return leaves no call outstanding if and only if every core before it has already counted |
| `Barrier.FailureHappens` | IntelPTDriver/IntelPTDriver/ProcessorTraceWindowsControl.c:139-163 | with two cores or more some run fails with a call outstanding |
| `Barrier.RunsAreBounded` | IntelPTDriver/IntelPTDriver/ProcessorTraceWindowsControl.c:112-183 | every run is finite, bounded by the work at its start |
| `Barrier.StuckIff` | IntelPTDriver/IntelPTDriver/ProcessorTraceWindowsControl.c:172-183 | nothing more can happen if and only if all calls are done and the caller has returned, or spins over more than 32767 cores |
| `DriverUtils.DuEnqueueElement` | IntelPTDriver/IntelPTDriver/DriverUtils.c:203-252 | appends, or reports why not and changes nothing |
| `DriverUtils.DuDequeueElement` | IntelPTDriver/IntelPTDriver/DriverUtils.c:254-303 | takes the oldest element, or reports an empty or missing queue |
| `DriverUtils.DuEnqueueElements` | IntelPTDriver/IntelPTDriver/DriverUtils.c:305-328 | the loop leaves what the batch specification says and reports the first failure |
| `DriverUtils.BatchIsPrefix` | IntelPTDriver/IntelPTDriver/DriverUtils.c:305-328 | a batch enqueues exactly the elements before its first failure, in order |
| `DriverUtils.Counters.DuGetPacketId` | IntelPTDriver/IntelPTDriver/DriverUtils.c:388-393 | returns the counter and moves it on, modulo 2^32 |
| `DriverUtils.Counters.DuGetSequenceId` | IntelPTDriver/IntelPTDriver/DriverUtils.c:330-361 | the sequence id, or the failed wait |
| `DriverUtils.Counters.DuIncreaseSequenceId` | IntelPTDriver/IntelPTDriver/DriverUtils.c:363-386 | moves the sequence id on, modulo 2^32, unless the wait failed |
| `DriverUtils.Counters.StartSession` | IntelPTDriver/IntelPTDriver/ProcessorTraceWindowsControl.c:475-511 | a new sequence whose FIRST packet has id 0 |
| `DriverUtils.PacketIdFor` | IntelPTDriver/IntelPTDriver/ProcessorTraceWindowsControl.c:700-705 | the id a deferred call writes is the one the hand-off gives its packet |

## Left out

- Delivery.DriverToDecoder: output that overruns its buffer is laid round it (`Memory.DeliveredHolds`) but not decoded; at most 2^32 ids in the session, as `Tickets.IdsDistinctIff` requires; the decoder is the guarded one and the parser the intended one; one sequence with one interpreter, where `read_trace` shares one interpreter between sequences.
- Ownership.GoodAlways: one session from setup to disable; a second session on the same cores, and session start overlapping another session's deferred calls, are not covered.
- Memory.OutputLands: output is written byte by byte; the hardware's own buffering and its flush on pausing are not modelled.
- Memory.FaithfulAlways: tables lie on page boundaries, as the base register demands, and buffers have at most 1048575 pages, so that their byte counts fit 32 bits.
- CoreTrace.OutputOptions.Enable: tracing on is one bit for TraceEn and the hardware's own enabled status, so an enable that reports an error counts as tracing off.
- Trace.RoundTrip: long TNT packets, and packets the source gives its placeholder handler, are framed and reported but their contents are not read, as in the code; reserved IP and PTW size codes and reserved MODE leaves raise, and are excluded from legal traces.
- DriverUtils.DuDequeueElement: a null result argument is not modelled; neither is a non-interlocked queue, whose contents are the same.
- Barrier.SuccessMeansOnceEverywhere: the narrowing of the core number when a deferred call is aimed at its core is not modelled, the count being that of one processor group.
- The interrupt, deferred-call, queue and barrier code runs concurrently and is modelled as steps of state machines over values, not as methods of classes; each step is atomic, with the kernel's list, event, mutex and interlocked operations taken at their documented behaviour.
- Faults end the machine: an exception raised inside `process_byte` is a state that no later byte changes, since nothing in the decoder catches it.
- The counter of all bytes and the printed messages: they decide nothing.
- Python integers are unbounded, and so are the numbers here; the 32-bit and 16-bit counters, the entry fields and the byte counts of the driver are not.
- Where a first packet's description cannot be allocated the session does not start at all; that case is the absence of the step `First`.
- The length check, the user-space mapping and the freeing in `PtwCommandGetBuffer` and `PtwCommandFreeBuffer`, and the freeing of buffers and deferred-call objects: thin wrappers, and nothing is ever reused.
- Kafka transport, message headers, plotting and the console: the transport is an arbitrary permutation of messages.
- Device, IOCTL and hook plumbing, physical allocation and register access: abstracted as allocators that give fresh disjoint pages or fail, and a record of registers.
- Configuration validation and the copying of control-register fields: independent branches, only easy members.

# Verified model of VirtBthUsb

VirtBthUsb presents the Steam Deck's UART Bluetooth controller to Windows as a USB radio. This project
models the parts of it where a mistake is hard to see by reading one function, and proves what they keep
over every run:

- **Voice** (`ScoPacket`, `ScoOut*`, `ScoIn*`, `ScoPacing*`, `ScoSlots`, `ScoTimer`): USB isochronous frames are
  reassembled into HCI SCO packets through a ring that overwrites its oldest frame; controller packets are
  re-cut into USB geometry; a clock paces both; a one-shot timer must never strand a transfer.
- **UART ownership** (`UartLifetime`, `ProbeRecord`, `IbsWake`): the detached worker, its monitor, cancellers
  and completions as step machines. The lower driver stack completes requests inline, late or never.
- **Bring-up** (`Tlv`, `Replies`, `NvmNames`, `InitFsm*`, `BringUp*`): firmware download with unacknowledged
  segments, image selection, one fallback, and one byte patched on the wire, against an arbitrary controller.
- **Identify ladder** (`IdentifyLadder`, `IdentifyProbe`): probing the line at three rates.
- **HCI bridge** (`CreditSpec`, `CreditEvents`, `Credits`, `BridgeSpec`, `BridgeRuns`, `BridgeAnswers`,
  `BridgeDriver`, `PacketRing`, `MoveLog`): 16-bit ACL credit accounting, five queues, command
  hold-and-replay, all counters.
- **H4 codec** (`H4Spec`, `H4`): incremental framing with resynchronisation.
- **Voice route** (`ScoRouteSpec`, `ScoRoute`, `ScoRouteRuns`): legacy synchronous setup rewritten to the
  Enhanced form and undone in the answers.

Code that the repository writes as structures updated in place is a class here (`OutFramer`, `InFramer`,
`OutEndpoint`, `H4Decoder`, `CreditPool`, `PacketQueue`, `HciBridge`, `QcaInitFsm`, `Proxy`, `Probe`). Each of
its methods is proved to move the object's value exactly as a pure function says, and the results about runs
are proved about those functions. What the functions themselves read and write is stated against readers and
encoders of the wire formats. Protocols between threads are step machines: a state, the enabled steps, an
invariant kept by each, a theorem over every sequence of steps, and one that every such sequence can be brought
to its end. Callbacks, the clock and the wire's answers are parameters, so every theorem holds for all of them.

`dafny verify dfyconfig.toml` checks everything.

## Findings

- After a lost frame the OUT framer looks for a frame that opens with the last handle seen. Before any packet
  has been seen there is no such handle and the next frame is taken as a packet start, although
  `src/include/sco_usb.h:30-31` promises a restart only at a frame with the handle last seen. `FirstLossCanInventPacket` is a
  run from the empty framer, 129 frames queued and one tick, in which the controller receives a packet the host
  never sent; `HeadlessRestSkipped` states exactly when the rest is skipped. `FromReset` gives the exact condition
  over whole runs: reassembly stays in step with the host's packets if and only if, until a packet has left whole,
  no frame is released after a lost one of the same packet; then exactly the undamaged packets arrive.
- The driver leaves `FsmWaitingForEvent` set across a download timeout, until the next command is prepared
  (`src/driver/qca_uart.c:2898-2904`, `3032-3041`). An acknowledgement that arrives in between is counted for a
  segment that was never sent (`LateAckSkipsSegment`). `LateAckLosesSegment` carries this on from power-up to Ready: the
  fallback image is missing its first segment. `PacketsMustBeOwed` shows that this is the only way a download that
  reaches Ready can go wrong: the armed image went over the wire whole if and only if, since it was armed, no
  acknowledgement was taken while no command was unanswered.
- The voice proxy recognises its own commands only by counting them, up to 255 of a kind. `TransparentExactly` gives
  the condition under which that is enough, in terms of the traffic alone: once all commands of the kind are
  answered, the host was shown every answer under the right opcode if and only if no legacy command was
  rewritten while 255 rewritten ones were unanswered and no native Enhanced command was answered while a
  rewritten one was unanswered. `LimitsAreReal` states the price otherwise, `BoundIsExact` the case of all commands
  sent before any answer.

## Model

| member | source | states |
|---|---|---|
| ScoOutSpec.AbsorbConserves | src/common/sco_usb.c:88-108 | reassembly loses and invents nothing: the packets emitted plus the partial buffer are exactly the bytes given, every emitted packet has its declared length, and the buffer stays below the header size or the declared length |
| ScoOutSpec.AbsorbAppend | src/common/sco_usb.c:69-113 | reassembly does not depend on where the stream is cut into frames |
| ScoOutSpec.AbsorbRecovers | src/common/sco_usb.c:88-108 | a stream of well-formed packets and a started one is recovered exactly |
| ScoOutSpec.Frames | src/common/sco_usb.c:47-66 | an isochronous packet enters the ring as non-empty frames of at most 63 bytes that concatenate to it |
| ScoOutRuns.RunExplained | src/common/sco_usb.c:44-113 | in any interleaving of pushes and releases frames leave first in first out, each once, released or overwritten, and the packets sent are those of reassembling what left, in that order |
| ScoOutRuns.StreamRecovered | src/common/sco_usb.c:44-113 | without overflow the controller receives exactly the host's packets, however they were cut and whenever released |
| ScoOutRuns.OverflowAnyMoment | src/common/sco_usb.c:51-58 | with the handle known and at any moment of a stream, whatever is under reassembly and already waits in the ring, exactly the packets none of whose frames was or is overwritten arrive, whole, in order and once, and the missing ones are at most the frames lost |
| ScoOutRuns.OverflowIsSafe | src/common/sco_usb.c:51-58 | the same from a packet boundary, with the losses counted by RingDrops |
| ScoOutFromReset.FromReset | src/common/sco_usb.c:37-113 | in every run from a reset a frame is wrongly taken for a packet start if and only if, before any packet has left whole, a frame is released after a lost one of the same packet; if none is, exactly the undamaged packets arrive, in particular when the first packet loses no frame or nothing is dropped |
| ScoOutRuns.HeadlessRestSkipped | src/common/sco_usb.c:78-87 | the rest of a damaged packet is skipped if and only if a handle has been seen and no frame of the rest opens with its twelve bits |
| ScoOutRuns.FirstLossCanInventPacket | src/common/sco_usb.c:44-113 | a run of pushes and one release from the empty framer in which the first frame is overwritten before any handle is known and the controller gets a packet that is not among the host's |
| ScoOut.OutFramer.Push | src/common/sco_usb.c:44-67 | the fixed ring, updated in place, takes the frames of a packet and gives up its oldest ones exactly as the bounded queue does |
| ScoOut.OutFramer.Release | src/common/sco_usb.c:69-113 | releases exactly the frames due, emits exactly the reassembled packets, and never overruns the 258-byte packet buffer |
| ScoOut.OutFramer.Reset | src/common/sco_usb.c:37-42 | empties the ring and forgets the partial packet and the handle |
| ScoInSpec.VoicePreserved | src/common/sco_usb.c:136-213 | over any run, voice consumed from controller packets of any size is, in order and per handle, the voice framed or flushed plus what waits; DroppedBytes counts the flushed bytes; the host reads the frames without a gap and, cutting its stream by the length bytes, finds exactly the framed voice under its own handles, each packet opening with the field, flags included, of the controller packet taken last; the packet counters count; fewer than 510 bytes wait; and a request is answered with nothing if and only if there is no room, no setting of at least 4 bytes, or between packets too little voice to be had |
| ScoInSpec.HostHearsController | src/common/sco_usb.c:136-213 | end to end: while no link gives way to another, the voice the host reads from its own stream is, byte for byte and under the same handles, the voice the controller sent, up to what waits |
| ScoInSpec.FromReset | src/common/sco_usb.c:130-213 | from a reset the ledgers of voice, frames, sources and rejects start at nothing |
| ScoInSpec.SilenceIsExact | src/common/sco_usb.c:166-199 | a fill sends nothing if and only if there is no room, or it stands between packets and no part of the source brings a whole payload together; then the whole source was taken |
| ScoInSpec.ThreePackets | src/common/sco_usb.c:117-128 | in alternate settings 1-5 one host packet is exactly three full isochronous packets |
| ScoInSpec.OnePacket | src/common/sco_usb.c:117-128 | in alternate setting 6 one host packet is exactly one isochronous packet |
| ScoInSpec.FrameStarted | src/common/sco_usb.c:166-213 | between packets a fill is silent exactly when it must be; otherwise it sends the start of a whole new packet whose length byte is its payload size |
| ScoIn.InFramer.Accept | src/common/sco_usb.c:136-164 | one controller packet is appended to the byte ring in place; another handle's voice is discarded and counted first; malformed packets only count |
| ScoIn.InFramer.Fill | src/common/sco_usb.c:166-213 | one isochronous packet is filled from the byte ring exactly as the byte-sequence form says, within ring and frame bounds |
| ScoIn.InFramer.Reset | src/common/sco_usb.c:130-134 | empties the byte ring, the frame and the counters |
| ScoPacingSpec.PacingClosedForm | src/common/sco_usb.c:17-24 | after n schedules the due time is the maximum over k of submission time k plus the spans from k on, and is the only value that is |
| ScoPacingSpec.QueueKeepsOrder | src/driver/endpoints.c:166-178 | the due times of a transfer's frames never go back and none lies beyond the transfer's span |
| ScoPacingSpec.AlwaysPaced | src/driver/endpoints.c:149-178 | over every run of transfers, ticks and flushes the ring stays ordered by due time and nothing is due after the clock |
| ScoPacingSpec.ReleaseExact | src/common/sco_usb.c:74-111 | a tick takes out exactly the frames whose time has come |
| ScoPacingSpec.RunClock | src/driver/endpoints.c:165-178 | between flushes the clock of a run is the closed form of its transfers |
| ScoPacingSpec.SpanInNumbers | src/common/sco_usb.c:26-33 | a packet takes 7.5 ms of air time exactly when the setting is 6, it lies in the buffer and carries voice; any other packet takes 1 ms |
| ScoSlots.SlotsAreExact | src/driver/endpoints.c:166-178 | the frames of every packet join the ring in order, each due exactly when the air time of its own packet and all before it is over; what no longer fits is dropped from the front and counted |
| ScoSlots.TransferSlots | src/driver/endpoints.c:149-178 | a transfer's first slot starts when the clock is free, and its last non-empty packet is due exactly at the transfer's due time |
| ScoSlots.BeforeIsSpan | src/driver/endpoints.c:149-163 | the air time before a packet is what the first pass over the transfer adds up |
| ScoSlots.SlotsAreEven | src/common/sco_usb.c:26-33 | packet k of a transfer starts 7.5 ms times k after it when all are voice on setting 6, and 1 ms times k on the smaller settings |
| ScoSlots.TickReleasesElapsed | src/common/sco_usb.c:69-113 | a tick has released exactly the packets of a transfer whose cumulative air time has elapsed |
| ScoSlots.EveryFrameOnTime | src/driver/endpoints.c:149-178 | in every run of transfers, ticks and flushes on a clock that never goes back, the ring holds exactly the newest 128 of the frames scheduled since the last flush whose slot ends after the last tick |
| ScoPacing.OutEndpoint.Schedule | src/common/sco_usb.c:17-24 | a transfer starts when the clock is free and moves it on by its span |
| ScoPacing.OutEndpoint.Accept | src/driver/endpoints.c:149-178 | both passes over a transfer: bad packets are counted and take one frame of air time, good ones are queued at their slots |
| ScoTimer.NoLostWakeup | src/driver/endpoints.c:94-109 | in every interleaving from an idle endpoint queued voice or a parked transfer means the timer is armed or a kick is still to come; armed means exactly one pending start, set timer or running tick, and whoever holds it has a next step |
| ScoTimer.NeverStranded | src/driver/endpoints.c:317-381 | whoever holds the armed timer can always take its next step |
| ScoTimer.TickOutcome | src/driver/endpoints.c:317-381 | a tick re-arms if and only if it saw work; otherwise the timer is idle and any later work has a kick coming |
| ScoTimer.EverythingDrains | src/driver/endpoints.c:317-381 | from every reachable state, once no transfer comes any more, the threads and the timer alone can complete every parked transfer, release all voice and leave the timer idle |
| ScoTimer.ParkedExactly | src/driver/endpoints.c:94-109 | over any run the parked transfers, either way, are those parked less those completed and cancelled |
| IbsWake.NoWakeForgotten | src/driver/qca_uart.c:2399-2426 | in every interleaving from rest a wake indication not yet taken up leaves the event set, about to be set, or the worker about to look; with none pending all have been taken up; the answers of the run never exceed its indications |
| IbsWake.OnePassAnswers | src/driver/qca_uart.c:1458-1485 | left alone the worker takes up everything pending in one pass |
| UartLifetime.LifetimeSafe | src/driver/qca_uart.c:131-211 | in every interleaving ActiveIoCount is exactly the requests, callbacks and purge borrowers; the target is closed and freed only when nobody holds it; each opened target is purged exactly once, in order; a write slot has one owner, is busy only while an activity or the writer uses it, and all four are free in the end |
| UartLifetime.ZeroIsStable | src/driver/qca_uart.c:793-863 | after QcaUartStop has returned, a zero count stays zero until a target is opened again |
| UartLifetime.StopCompletes | src/driver/qca_uart.c:793-863 | from every reachable state, if the lower stack completes what it was given, the worker can stop and free the target, with nothing counted, every slot free and every target purged |
| ProbeRecord.OneTerminalRecord | src/driver/qca_uart.c:248-298 | in every interleaving of worker, monitor and cancellers at most one terminal record is committed and nothing after it; when the monitor is done there is one; it is Abandoned exactly when the monitor overrode the session, which takes a request to stop, and Released otherwise, so a session nobody stopped ends Released; Released means the UART, held exactly from its opening to its hand-back, had been given back |
| ProbeRecord.ClosedIsFinal | src/driver/qca_uart.c:413-438 | a terminal record stays the last one whoever runs on |
| ProbeRecord.SessionCompletes | src/driver/qca_uart.c:301-445 | from every reachable state the worker and the monitor can go on to the end and a terminal record; without a request to stop it is Released |
| Tlv.ParseTlv | src/common/qca_tlv.c:20-72 | an accepted image has at least four bytes, declares exactly the length it has, and a download mode of at most 3 |
| Tlv.ParseReadsBack | src/common/qca_tlv.c:20-72 | a file of any kind and body is accepted if and only if its kind is known and, for a patch, its metadata is there and its download mode at most 3; kind, length and mode read back |
| Tlv.AcceptedIsFile | src/common/qca_tlv.c:20-72 | whatever is accepted is such a file, byte for byte |
| Tlv.CountIsCeiling | src/common/qca_tlv.c:74-82 | for an accepted image the 32-bit segment count does not wrap and is the number of 243-byte segments, rounded up |
| Tlv.PrefixWhole | src/common/qca_tlv.c:74-82 | the segments of an accepted image, in order, are the whole file |
| Tlv.LastIsAcked | src/common/qca_tlv.c:158-175 | exactly the segments before the last go unacknowledged, in download modes 1 and 3, so the skipped-acknowledgement advance cannot pass the end |
| Tlv.BuildSegmentCommand | src/common/qca_tlv.c:118-178 | writes exactly the download command of the segment and nothing behind it, or returns 0 exactly for a bad index or a short buffer; says whether an acknowledgement comes |
| Tlv.FindNvmHciBaudOffset | src/common/qca_tlv.c:84-116 | the loop over the tags finds the offset the recursive walk defines, always inside the file |
| Tlv.BaudOffsetFindsHciTag | src/common/qca_tlv.c:84-116 | in an image encoded from a list of tags the offset is that of the second data byte of the first HCI tag; none is found if that tag is missing or too short |
| Replies.AnswersNeverConfused | src/common/qca_init_fsm.c:382-416 | no event answers two different requests |
| Replies.LateBaudReplyIgnored | src/common/qca_tlv.c:274-304 | a completion of the baud-rate command answers nothing |
| Replies.VersionReadsBack | src/common/qca_tlv.c:274-420 | a version answer, as vendor event or Command Complete, reads back field by field; without chip or ROM version it is none |
| Replies.BoardIdReadsBack | src/common/qca_tlv.c:274-420 | a board-ID answer in either form reads back, high byte first |
| Replies.AnswersSpelledOut | src/common/qca_init_fsm.c:382-416 | the acknowledgements of a segment and the completions of reset, logging and local version are exactly these byte strings |
| NvmNames.FallbackIsGeneric | src/common/qca_tlv.c:422-572 | the fallback of a board's image name is the generic image of the same chip, and the generic name has no fallback |
| NvmNames.HexRoundTrip | src/common/qca_tlv.c:237-272 | the hex digits in an image name read back to the board ID |
| NvmNames.NameReadsBack | src/common/qca_tlv.c:422-500 | a name is hpnv, the ROM version in two hex digits, g for the 0x12 family, a dot, and the board ID in hex, or bin for the IDs 0 and 0xFFFF |
| NvmNames.NamesDistinct | src/common/qca_tlv.c:422-572 | without regard to case, the image name of a known board is no other board's, nor the generic one |
| InitFsmSpec.StatesNeverConfused | src/common/qca_init_fsm.c:418-520 | the answers accepted in two different states are disjoint, except the acknowledgements of the two downloads |
| InitFsmSpec.RejectionIsHarmless | src/common/qca_init_fsm.c:447-461 | a packet not accepted changes only UnexpectedEvents, by one, except a valid board ID with no candidate image, which ends in Failed |
| InitFsmSpec.LateBaudReplyRejected | src/common/qca_init_fsm.c:279-286 | a late completion of 0xFC48 is rejected in every state |
| InitFsmSpec.Find | src/common/qca_init_fsm.c:109-116 | the first candidate whose name matches without regard to case |
| InitFsmSpec.InitAccepts | src/common/qca_init_fsm.c:195-249 | initialisation succeeds if and only if the patch is a patch file, there is a candidate, every candidate has a baud byte, and some index of the chip stands for the rate; the machine then holds that index |
| InitFsmSpec.SwitchesTogether | src/common/qca_init_fsm.c:279-286 | the baud-rate command is 0xFC48 with the one index the chip reads as the operating rate, and the host line switches to that same rate with it |
| InitFsm.QcaInitFsm.Init | src/common/qca_init_fsm.c:195-249 | accepts exactly a valid patch, a non-empty list of usable images and a known rate, whose index it then holds, and otherwise leaves the machine blank and Failed |
| InitFsm.QcaInitFsm.ArmNvm | src/common/qca_init_fsm.c:71-90 | arms a candidate with its baud offset from segment 0, or leaves the machine unchanged |
| InitFsm.QcaInitFsm.SelectNvm | src/common/qca_init_fsm.c:92-136 | the board's image if present, else the generic one, else nothing |
| InitFsm.QcaInitFsm.OnBoardIdTimeout | src/common/qca_init_fsm.c:138-152 | an unanswered board ID goes on with no board, or fails if no image fits |
| InitFsm.QcaInitFsm.OnNvmFailure | src/common/qca_init_fsm.c:154-193 | one fallback to the generic image from its start, otherwise Failed |
| InitFsm.QcaInitFsm.Next | src/common/qca_init_fsm.c:251-380 | the next command, in the buffer within 259 bytes, and the new state; the NVM baud byte is replaced in the segment that holds it |
| InitFsm.QcaInitFsm.OnPacket | src/common/qca_init_fsm.c:418-520 | takes the one answer the state waits for and moves on, or only counts |
| BringUp.FirmwareFidelity | src/common/qca_init_fsm.c:288-338 | in every run to Ready, whatever arrives and when, the wire carried the patch file, then what had been sent of an image given up, then the armed image with exactly the baud byte changed, at an offset inside it, to the index the chip reads as the operating rate, less at most its first segment; the image is the first candidate with the board's name, or the generic one if there is none or the board's was given up |
| BringUp.ExactCommandCount | src/common/qca_init_fsm.c:251-380 | such a run sent PatchSegments + NvmSegments + 7 commands, plus those of an image given up, less a segment counted by a late acknowledgement; neither index ever passed its last segment |
| BringUp.PacketsMustBeOwed | src/driver/qca_uart.c:1627-1637 | a run to Ready carried the armed image whole if and only if no acknowledgement was taken, since it was armed, while no command was unanswered; if packets are only taken while owed, nothing is ever skipped |
| BringUpWire.ExactWire | src/driver/qca_uart.c:2898-3078 | the whole wire, byte for byte: in every run to Ready the commands are the version question, the baud-rate command with the index of the operating rate, every patch segment, the board question, what was sent of an image given up, the armed image with that index in its baud byte, and the four closing commands, in this order and nothing else; before that, the part that belongs to the state |
| BringUp.LateAckSkipsSegment | src/driver/qca_uart.c:3032-3041 | after a download timeout a late acknowledgement is still taken and the first segment of the fallback image is never sent |
| BringUp.CommandsAreLegalH4 | src/common/qca_init_fsm.c:12-36 | every command of the bring-up is one legal H4 command packet of at most 259 bytes |
| BringUp.AnswerMatchesRequest | src/common/qca_init_fsm.c:382-520 | an accepted answer names the opcode, or the sub-command, of the command just sent |
| BringUp.StepDescends | src/common/qca_init_fsm.c:154-193 | every command, accepted answer and timeout decreases a lexicographic measure |
| BringUp.CommandsBounded | src/common/qca_init_fsm.c:251-380 | no run sends more than PatchSegments + 7 commands and two downloads of the largest image |
| BringUpCompletion.RunCompletes | src/driver/qca_uart.c:2898-3078 | with a controller that answers and a generic image for its chip among the candidates, the run goes on to Ready from wherever it stands |
| BringUpCompletion.BringUpCompletes | src/driver/qca_uart.c:2898-3078 | from power-up such a run exists for every board ID, sends exactly PatchSegments + NvmSegments + 7 commands and both files whole, but for the baud byte, which names the operating rate; the image is the first candidate named for the controller's board, or else for its chip |
| BringUpCompletion.OneImageIsEnough | src/common/qca_init_fsm.c:92-136 | one image with the chip's generic name, in any case, is enough for every board |
| BringUpLateAck.LateAckLosesSegment | src/driver/qca_uart.c:3032-3041 | with a controller that answers every request, a board image and a generic one, there is a run from power-up to Ready in which the first segment of the generic image never went over the wire |
| BringUpLateAck.LateAckHappens | src/driver/qca_uart.c:3032-3041 | such files and such a controller exist, down to 28 and 19 bytes |
| IdentifyLadder.EachRateOnce | src/common/qca_identify.c:34-119 | over any run of calls the rates handed out are the three in order, each at most once, one for every call before the answer, and the answer is credited to the last of them |
| IdentifyLadder.LadderSafe | src/driver/qca_uart.c:1923-2188 | in every interleaving the line is set, purged and woken only with no read in flight; each request follows a sighting of CTS in its own rung and none follows a failed write; the recorded rate is the rate the line really ran at when the answer came; a nonzero result needs overall success |
| IdentifyLadder.LadderReports | src/driver/qca_uart.c:1923-2188 | a ladder on which nothing goes wrong, once finished, reports the rate the line ran at when the first answer was taken; without an answer it has tried all three rates and reports that none was found |
| IdentifyLadder.ReportIsExact | src/driver/qca_uart.c:2130-2188 | a rate is reported, the one the line ran at when the answer came, if and only if an answer was taken, no step failed, nobody asked for a stop, no read failed and the last drain ended; otherwise none, and no answer is kept |
| IdentifyLadder.EveryChipIsFound | src/driver/qca_uart.c:1923-2188 | for each of the rates 115200, 3000000 and 3200000 there is a run in which a chip that answers only there is found and that rate reported, even if the line refuses the rates before it |
| IdentifyProbe.Probe.NextRate | src/common/qca_identify.c:34-61 | hands out the next rate of the ladder and moves on, or none after an answer or the last rate |
| IdentifyProbe.Probe.OnPacket | src/common/qca_identify.c:89-119 | takes the first version answer and credits it to the rate handed out last |
| CreditSpec.CreditsConserved | src/common/hci_bridge.c:56-161 | for arbitrary reports, rogue or repeated, handles stay distinct, 16-bit sums stay in range, available credits are 0 or with those in flight at most the total; with one reported buffer count they are exactly the total |
| CreditSpec.ReturnKeeps | src/common/hci_bridge.c:124-142 | a return of credits does not wrap: what leaves the handle arrives among the available ones |
| CreditSpec.SentKeeps | src/common/hci_bridge.c:319-335 | a packet sent moves exactly one credit from available to in flight |
| CreditSpec.InFlightExact | src/common/hci_bridge.c:56-66 | the wrapping sum over the table is the true sum |
| CreditSpec.TableIsLedger | src/common/hci_bridge.c:90-161 | what the table says a handle owes is what that handle's own history says, however slots were reused |
| Credits.CreditPool.TotalInFlight | src/common/hci_bridge.c:56-66 | the loop adds up the entries in use |
| Credits.CreditPool.ClampCredits | src/common/hci_bridge.c:69-87 | lowers the available credits to the true ceiling |
| Credits.CreditPool.ReserveHandleSlot | src/common/hci_bridge.c:90-113 | one scan returns the handle's entry or claims the first free one; -1 exactly when neither exists, and then nothing changes |
| Credits.CreditPool.RecordAclCompleted | src/common/hci_bridge.c:116-143 | credits back at most what the handle owes; unknown handles change nothing |
| Credits.CreditPool.RecordDisconnection | src/common/hci_bridge.c:146-161 | frees the handle's entry and returns all it owed |
| Credits.CreditPool.LearnTotal | src/common/hci_bridge.c:574-580 | the first buffer count starts the pool, a later one only moves the ceiling |
| BridgeRuns.QueuesConserve | src/common/hci_bridge.c:228-541 | for each of the five queues over every run: what entered is, in order, what left and what waits, and no queue outgrows its slots |
| BridgeRuns.CountersAreExact | src/common/hci_bridge.c:369-402 | each queue counter is exactly the number of packets that entered, were delivered, overwritten or discarded; no event or ACL packet is ever overwritten or discarded |
| BridgeRuns.AlwaysBalanced | src/common/hci_bridge.c:545-725 | everything received from the controller, and every well-framed command and ACL packet submitted to a wire that is there, is in exactly one outcome counter |
| BridgeRuns.NothingUnaccounted | src/common/hci_bridge.c:228-541 | over every run from a fresh bridge, for each of the five queues: what was admitted is what was delivered, overwritten or discarded, what a reset flushed, and what still waits |
| BridgeRuns.NothingMissing | src/common/hci_bridge.c:443-474 | until a reset, events and ACL packets leave only by delivery, in order and with none missing |
| BridgeAnswers.PopAnswers | src/common/hci_bridge.c:425-505 | one pop: fails on an empty queue; hands over the oldest packet, and it alone, when it fits; leaves an event or ACL packet that does not fit first in its queue and discards such a voice packet |
| BridgeAnswers.PopsHandOver | src/common/hci_bridge.c:425-505 | a host with room gets the whole queue, oldest first, one packet a pop, and no other queue is touched |
| BridgeAnswers.EverythingDelivered | src/common/hci_bridge.c:443-474 | after any run without a reset, one pop for each waiting event or ACL packet completes the delivery of everything ever queued, in order and once |
| BridgeAnswers.SetReadyAnswers | src/common/hci_bridge.c:179-211 | becoming ready hands over the held command and then the queued voice as far as the wire takes it; any other change of readiness hands over nothing |
| BridgeAnswers.SubmitScoAnswers | src/common/hci_bridge.c:344-405 | a well-framed voice packet on a ready bridge joins the queue, a ninth pushing out the oldest, and the wire then gets as much of the queue as it takes |
| BridgeAnswers.SubmitAclAnswers | src/common/hci_bridge.c:287-342 | an ACL packet goes out if and only if it is well framed, the bridge ready, a credit left, an entry of its own or a free one in the table, and the wire bound and willing |
| BridgeAnswers.ResetAnswers | src/common/hci_bridge.c:520-541 | a reset empties every queue and the hold slot, each flushed packet accounted for, forgets all handles and makes all credits available |
| BridgeAnswers.SubmitCommandAnswers | src/common/hci_bridge.c:228-285 | a malformed command is dropped and counted; before readiness the newest is held; afterwards the answer is whether the wire took it, and the wire counters say the same |
| BridgeRuns.VoiceIsFresh | src/common/hci_bridge.c:369-380 | what waits on a voice queue is the newest voice, at most eight packets |
| BridgeRuns.AdmissionIsExact | src/common/hci_bridge.c:632-649 | a packet joins a queue if and only if it is well framed, the bridge is in the right readiness state and, for events and ACL, there is room and the event is not vendor chatter |
| BridgeRuns.OnlyAdmissibleWait | src/common/hci_bridge.c:563-628 | over every run only well-framed packets are queued, and no vendor event and no answer to a vendor command ever reaches the host's queue |
| BridgeRuns.ReadyHoldsNothing | src/common/hci_bridge.c:191-207 | a ready bridge never holds a command back |
| BridgeRuns.DecodedPacketsAreFramed | src/common/hci_bridge.c:555-559 | the framing checks accept exactly the packets of the H4 wire format, and ACL packets of up to three bytes more |
| BridgeRuns.ChatterIsVendor | src/common/hci_bridge.c:563-628 | the host is never shown exactly vendor events and the Command Complete and Command Status of opcodes whose upper byte is 0xFC or more |
| BridgeRuns.BridgeCredits | src/common/hci_bridge.c:287-342 | in every run of the bridge credits are never minted and each handle's account is its own history |
| BridgeRuns.BridgeCreditsExact | src/common/hci_bridge.c:569-604 | while one buffer count is reported, available plus in flight is exactly the total |
| CreditEvents.BufferCountIsRead | src/common/hci_bridge.c:569-580 | the successful answer to Read Buffer Size, written out, is read as its ACL buffer count |
| CreditEvents.CompletionsAreRead | src/common/hci_bridge.c:582-594 | Number Of Completed Packets, written out for any list, is read as that list, each count under its own handle |
| CreditEvents.DisconnectionIsRead | src/common/hci_bridge.c:596-604 | Disconnection Complete, written out, closes its handle exactly when its status is success |
| CreditEvents.OthersAreSilent | src/common/hci_bridge.c:569-604 | no other event, opcode, failure or cut list moves a credit |
| PacketRing.PacketQueue.Put | src/common/hci_bridge.c:642-646 | writing at the tail of the ring appends |
| PacketRing.PacketQueue.DropOldest | src/common/hci_bridge.c:371-372 | advancing the head removes the oldest packet |
| BridgeDriver.HciBridge.SetReady | src/common/hci_bridge.c:179-211 | becoming ready replays the held command once and drains voice until the wire refuses |
| BridgeDriver.HciBridge.SubmitCommand | src/common/hci_bridge.c:228-285 | malformed commands are dropped; before readiness the newest one is held; afterwards the wire is offered it |
| BridgeDriver.HciBridge.SubmitAcl | src/common/hci_bridge.c:287-342 | readiness, credit, handle slot and wire decide, in that order; a credit is spent only on a packet the wire took |
| BridgeDriver.HciBridge.SubmitSco | src/common/hci_bridge.c:344-385 | queues the packet, overwriting the oldest one when full, and drains |
| BridgeDriver.HciBridge.DrainOutboundSco | src/common/hci_bridge.c:387-405 | sends from the head until the wire refuses; a refused packet stays queued |
| BridgeDriver.HciBridge.HasStream | src/common/hci_bridge.c:407-423 | true exactly when the stream's queue is not empty |
| BridgeDriver.HciBridge.PopStream | src/common/hci_bridge.c:425-505 | the oldest packet if it fits; an event or ACL packet that does not fit stays, a voice packet is discarded |
| BridgeDriver.HciBridge.Reset | src/common/hci_bridge.c:520-541 | empties every queue and the hold slot, forgets handles, restores all credits |
| BridgeDriver.HciBridge.SnoopCredits | src/common/hci_bridge.c:569-604 | reads buffer counts, completions and disconnections off an event into the pool |
| BridgeDriver.HciBridge.OnEvent | src/common/hci_bridge.c:545-649 | snoops, then suppresses vendor chatter, then needs readiness and room |
| BridgeDriver.HciBridge.OnAcl | src/common/hci_bridge.c:651-686 | queues, or drops the newest when not ready or full |
| BridgeDriver.HciBridge.OnSco | src/common/hci_bridge.c:688-725 | queues, overwriting the oldest when full |
| BridgeDriver.HciBridge.OnInbound | src/common/hci_bridge.c:727-743 | routes to the feed of the stream |
| H4Spec.Ledger | src/common/h4_codec.c:89-219 | for every stream and every out-of-band answer, the bytes held and received are, in order, the bytes of the emitted, claimed, discarded and rejected items and the bytes still held |
| H4Spec.ItemsWellFormed | src/common/h4_codec.c:89-168 | emitted packets have, at their byte positions, the length they declare, ACL data of at most 1021 bytes; stray bytes are no packet type; rejected headers are ACL headers declaring more than 1021 |
| H4Spec.ChunkingIsInvisible | src/common/h4_codec.c:201-219 | the result does not depend on how the transport cuts the stream |
| H4Spec.RoundTrip | src/common/h4_codec.c:89-256 | legal packets encoded in any order with claimed bytes, stray bytes and oversized headers between them decode to exactly that list, in any chunks |
| H4Spec.LegalPacketDecodes | src/common/h4_codec.c:28-168 | every command, ACL, voice and event packet whose header declares exactly its data, ACL data of at most 1021 bytes, decodes to itself |
| H4Spec.OversizedCostsFive | src/common/h4_codec.c:121-135 | an ACL header is rejected if and only if it declares more than 1021 bytes; that costs exactly its five bytes and nothing after them; any other is a packet or waits for its data |
| H4Spec.OnlyAclIsRejected | src/common/h4_codec.c:28-41 | in any stream only ACL headers are rejected, and only for lengths beyond 1021 |
| H4Spec.CountersCount | src/common/h4_codec.c:71-84 | each counter is the number of packets of its type byte, of bytes, or of rejected headers it is named after |
| H4Spec.BytesAccounted | src/common/h4_codec.c:215-218 | BytesConsumed is the bytes emitted and claimed, plus Desynchronised, plus the bytes held |
| H4.H4Decoder.FeedByte | src/common/h4_codec.c:89-176 | one byte moves the decoder and its counters as the pure machine says, inside the 1025-byte buffer |
| H4.H4Decoder.FeedEx | src/common/h4_codec.c:201-219 | a chunk does so byte by byte |
| H4.H4Decoder.Reset | src/common/h4_codec.c:188-199 | drops the packet under way and keeps the counters |
| H4.EncodePacket | src/common/h4_codec.c:231-256 | writes the type byte and the packet and nothing behind them, or returns 0 exactly for a missing or short buffer or an unknown type |
| ScoRouteSpec.RewriteKeepsLink | src/common/sco_route.c:51-132 | for a legacy command written out from any link and voice setting the Enhanced command has the length it declares, names that link with its bandwidths, latency, packet types and effort, and asks, field by field, for the coding the voice setting calls for, over the HCI data path both ways |
| ScoRouteSpec.RewrittenExactly | src/common/sco_route.c:51-95 | a command is rewritten if and only if it is a legacy Setup or Accept, byte for byte, with transparent air coding or CVSD of 16-bit linear samples, and the Enhanced form fits |
| ScoRouteSpec.ShownOpcode | src/common/sco_route.c:134-161 | only the two opcode bytes of an answer are ever changed, and for an Enhanced opcode exactly when one is pending |
| ScoRoute.Proxy.RewriteCommand | src/common/sco_route.c:51-132 | writes the Enhanced form through the advancing position and counts it, or writes nothing and returns 0 |
| ScoRoute.Proxy.RestoreEvent | src/common/sco_route.c:134-161 | edits the event in place as the value form says |
| ScoRoute.Proxy.Reset | src/common/sco_route.c:45-49 | forgets everything pending |
| ScoRouteRuns.ProxyIsTransparent | src/common/sco_route.c:51-161 | from any consistent state and within the limits, for answers in any order, the host is shown exactly the opcodes it sent |
| ScoRouteRuns.ProxyFromReset | src/common/sco_route.c:123-160 | from a reset, rewritten = restored + pending, and pending is exactly the rewritten commands still unanswered |
| ScoRouteRuns.TransparentExactly | src/common/sco_route.c:51-161 | in every run from a reset, for both kinds: all answers were shown under the right opcode, once every command of the kind is answered, if and only if no command was rewritten while 255 rewritten ones were unanswered and no native command was answered while a rewritten one was; and until then none is shown wrong |
| ScoRouteRuns.ProxyExactly | src/common/sco_route.c:51-161 | for all commands together, the host was shown exactly the opcodes it sent if and only if that holds for both kinds |
| ScoRouteRuns.LimitsAreReal | src/common/sco_route.c:123-154 | in every run from a reset, for both kinds: legacy commands answered under the Enhanced opcode, plus those still unanswered, are native commands answered under the legacy one, plus those counted, plus those beyond the count |
| ScoRouteRuns.BoundIsExact | src/common/sco_route.c:123-154 | when all commands are sent before the answers come, exactly the first min(k, 255) answers are shown under the legacy opcode, k being the commands rewritten; all k are right if and only if k is at most 255 |

## Left out

- WDF, KMDF, UdeCx, IRP, registry and file loading: calls into code outside the repository. What they return is a parameter or a step of the environment.
- `src/filter/deckbtflt.c`, `src/driver/hci_stub.c`, `src/common/usb_descriptors.c`, `src/include/arming.h`, tools and tests: optional, constant, or an easier form of what is modelled.
- Event traces, the advertiser table, step records and published voice statistics: observability only.
- Width of diagnostic counters (32 bits) and of 100 ns times (64 bits): modelled as unbounded naturals. 16-bit credits, 8-bit pending counts and 32-bit segment arithmetic are modelled at their width.
- TLV fields that only describe a patch (total size, data length, product, build and version numbers): parsed by the source, used by nothing it decides.
- `H4EncodePacket` with a length near 2^32, where the source's sum would wrap: packet lengths are those of real sequences.
- Null pointer checks: only the output buffer of `H4EncodePacket` can be absent here; references cannot be null elsewhere.
- Packet slots of the bridge hold byte sequences; copying into fixed slots is modelled as storing the sequence, whose length the framing checks bound by the slot size.
- Which wire functions are bound is fixed for a bridge's life, as in the driver.
- The driver restores only events of exactly six bytes (`src/driver/qca_uart.c:1684-1689`); the proxy's runs take the answers of Enhanced commands to be such events, and that every rewritten command reaches the controller.
- ScoTimer.NoLostWakeup: does not model request contents, only how many transfers are parked and how many frames are queued.
- IdentifyLadder.LadderSafe: speaks of the result of the ladder; records published while it still runs may already show a rate, and the pulses of RTS inside the wake step are not separate steps.
- `QcaUartSetBaudRate` is one step, but a refused or broken one may or may not have moved the line, as its four requests allow.
- IoIdle and other events that only shorten a wait: a waiting thread may look at any time in these models.
- The early single-threaded publication before the worker exists, and the wording of failure phases.

# UDS to go: a verified model of the ISO-TP and session layers

The repository is a small UDS stack for microcontrollers: an ISO-TP (DoCAN) transport layer with
its tick timers, a session layer with the S3, P2 and response-pending timing, and a manager that
decides which diagnostic requests are answered. This project models these layers in Dafny and
proves what they promise: messages arrive unharmed or not at all, senders keep to the rate and
block size they are granted, transfers and sessions come to an end, and requests are answered by
the rules of ISO 14229-1. Where the code does something else - a second message may arrive with
the wrong beginning, or be written past the buffer - there is a lemma that says exactly when.

`dafny verify dfyconfig.toml` checks the whole project.

## How the model is built

Every class of the source is a Dafny class with the same fields, arrays and timers, updated in place
(`DoCAN_TP` is split into `Port`, which its halves use, and `DoCANTP`; the manager holds the session
layer it inherits from; long functions are split into methods). Beside it stands a value of the same
content (`TxState`, `RxState`, `Node`, `Sess`, `Mgr`, `TimerState`) and, for each entry point, a
function on such values (`SendStep`, `ProcessStep`, `FlowStep`, `ReceiveStep`, `IsoEventStep`,
`IndicationStep`, ...). Each method is proved to turn its object's `View()` into exactly what that
function says, so that the theorems about runs, which are stated over the functions, are about the
methods.

- `Types`, `Timers`: bytes, 32-bit words that wrap where the source wraps, tick timers and the
  unbounded clock they are measured against.
- `Pci`: the protocol control bytes. `Port`: what `DoCAN_TP` offers its halves - padding, the bus,
  the client. The bus is an arbitrary function that accepts or refuses each attempt.
- `Sender`, `Receiver`, `Transport`: the transport layer. `NodeRules` says in bytes on the bus what
  a node does with single frames, flow controls and its parameters.
- `Segmentation` defines, without looking at the sender, which frames a message is
  (`Segments`). `SenderRuns`, `SenderRefusals`, `SenderLedger`, `SenderRate`, `SenderTiming` and
  `StaleFlag` are about all runs of a sender; `Reassembly`, `ReceiverRuns`, `ReceiverTiming` and
  `BufferSafety` about all runs of a receiver.
- `Line` is one direction of a connection: a sender, a receiver, a queue of data frames and a queue
  of flow controls. `Lockstep`, `FlowCount` and `Completion` prove that both ends stay in step, how
  many flow controls that takes, and that the transfer gets done.
- `Network` and `Duplex` join two whole nodes by two queues, which data frames and flow controls of
  both directions share, and show that each direction of every run is a run of a `Line`;
  `NodeBlocks` carries the block and flow control counts over, and `Progress` shows that from a
  fresh start some schedule brings every transfer to its end.
- `Session`, `SessionRuns`, `SessionTiming`: the session layer. `Manager`, `ResponseRules`,
  `ManagerRuns`: the response layer. A client is a pair of arbitrary functions that answer for its two callbacks; in
  runs each event may come with a different client.

## What does not hold, and when

These are places where the code departs from its documentation or from the standards it follows.

- The receive buffer's offset is not reset when a message is complete
  (src/uds/isotp/docan-receiver.cpp:53-54). The first frame of the next segmented message is
  copied behind the last one, and past the end of the buffer if and only if the two do not fit
  together (`SecondCopyFitsIff`; `StaleOffsetOverruns` is the smallest case). Against arbitrary
  eight-byte frames every copy stays inside if and only if the longest message that is accepted
  leaves six bytes of the buffer free (`BufferSafeIff`).
- If the copy fits, the second message still arrives with the beginning of the first, and is right
  if and only if the two begin alike (`SecondMessageKeepsOldHead`; `ArrivesUnharmedIff` has the
  general condition).
- The flag that keeps the bytes of a refused consecutive frame in the frame buffer is not set again
  when the transfer is given up (src/uds/isotp/docan-sender.cpp:135-138; `FlagWritten`,
  `RefusalThenTimeout`). The next segmented message then carries bytes of its own first frame in
  place of its second part, with correct numbers, and is delivered that way (`FirstPartStale`); its
  frames are right if and only if the flag is set or those bytes coincide (`FramesRightIff`), which
  `ZerosArriveWrong` shows they need not. The end-to-end results are about the message carried:
  it is the one asked for whenever the flag is set, as it is on construction.
- A frame the bus refuses uses up its sequence number (src/uds/isotp/docan-sender.cpp:81): the
  frames on the bus are those of the message if and only if the refused attempts before each of
  them are a multiple of sixteen (`RefusedSendsSkipNumbers`).
- A new request does not stop N_As (src/uds/isotp/docan-sender.cpp:8-63): time that passed since a
  refused frame of the transfer before counts, so that the first refusal of the next one can end it
  at once (`OldRefusalCounts`; `AsTimeoutIff` has the general condition).
- After the first clear-to-send a sender waits for the next one without limit, unless the peer asks
  it to wait (`NoTimeoutAfterBlock`, `StoppedBsWaitsForever`).
- STmin bounds the rate (`TransmissionRate`) but is no minimum gap between two frames: the gap
  after a frame is kept by every later polling if and only if the frame went out on the very tick
  of the poll that ended the pause before it (`FrameGapIff`, `GapKeptIff`, `DuePauseSends`); at
  worst two frames share a tick (`LatePollClosesGap`).
- A message of length 0 is delivered for every single frame that announces no bytes, which the
  manager asserts never to see (src/uds/session/uds-app-manager.cpp:68): to the physical address
  as the codec reads the length, to the functional one when both its length fields are 0
  (`NodeEmptyDeliveryIff`).
- A wrong sequence number is reported as an unexpected PDU, not as a wrong number; a block size of
  0 means blocks of one frame on both sides.
- A new S3_max counts from the next time a non-default session is entered; one that is on keeps the
  period it began with (src/uds/session/session-control.cpp:110-126; `EnteredSessionLastsAsSet`,
  `RestartedSessionLasts`).
- A reception broken by a frame, rather than by the Cr timeout, leaves the S3 timer stopped, and
  the session can then never end by itself (`BrokenReceptionStallsSession`, `SessionEndsIff`).
- The flag that lifts the functional suppression survives a pending mode that ran out of time or
  was never granted (`FlagSurvivesGivingUp`, `UngrantedPendingSetsFlag`); `ResponseRule` holds
  with this flag in its condition, `OrderlyRunsObeyTables` says when the flag cannot matter.
- A positive final answer to a request with the suppress bit is withheld even after 7F si 78 went
  out (`PendingAnswerNeedsNoSuppression`).
- With an interval not shorter than P2* a pending mode never repeats its message
  (`LongIntervalNeverRepeats`).
- README.md of the repository asks for a 1 Hz tick; its timers and its example count milliseconds.
  Nothing here depends on the unit.

## Model

| member | source | states |
|---|---|---|
| `Timers.TickerCounter.ProcessTick` | src/etc/timers/tickerup.h:15-18 | the 32-bit root counter always shows the number of ticks counted, modulo 2^32 |
| `Timers.Timer.constructor` | src/etc/timers/d-timer.cpp:5-12 | a timer is constructed stopped, or started at the present tick |
| `Timers.Timer.Start` | src/etc/timers/d-timer.cpp:14-19 | new period, running from the present tick, repetition unchanged |
| `Timers.Timer.StartRepeat` | src/etc/timers/d-timer.cpp:21-25 | as Start, with the given repetition |
| `Timers.Timer.Restart` | src/etc/timers/d-timer.cpp:27-30 | the same period again from the present tick |
| `Timers.Timer.Elapsed` | src/etc/timers/d-timer.cpp:32-50 | reports exactly whether the timer is due; a report stops a one-shot timer and restarts a repeating one |
| `Timers.Timer.Ticks` | src/etc/timers/d-timer.cpp:53-60 | the ticks left, 0 when stopped or due |
| `Timers.Timer.Stop` | src/etc/timers/d-timer.h:55-57 | a stopped timer keeps its period and start |
| `Timers.Timer.ForceElapse` | src/etc/timers/d-timer.h:50-52 | moves the start back by one period |
| `Timers.ForcedIsDue` | src/etc/timers/d-timer.h:50-68 | a running timer forced to elapse is due at once, also across the wrap |
| `Timers.DueExactly` | src/etc/timers/d-timer.h:64-68 | a poll reports a running timer if and only if the true elapsed time, modulo 2^32, has reached the period |
| `Timers.DueNeverEarly` | src/etc/timers/d-timer.cpp:32-50 | never early, and within one turn of the counter exactly on time |
| `Timers.LatePollMissesExpiry` | src/etc/timers/d-timer.h:64-68 | a poll a full turn of the counter late sees no expiry |
| `Timers.OneShotFiresOnce` | src/etc/timers/d-timer.cpp:32-50 | over any polls a one-shot timer fires at most once per start, and once exactly if it ends up stopped |
| `Timers.RepeatingRate` | src/etc/timers/d-timer.cpp:32-50 | over any polls a repeating timer of period p fires at most floor(T / p) times in T ticks |
| `Timers.RepeatingGoesOn` | src/etc/timers/d-timer.cpp:32-50 | over any polls a repeating timer stays on, and one of period 0 fires at every poll |
| `Pci.UnpackPciInfo` | src/uds/isotp/pci-helper.cpp:4-114 | the header of a received frame: its type, size and fields, or the error cases |
| `Pci.PackPciForData` | src/uds/isotp/pci-helper.cpp:116-160 | writes the single or first frame header for a length, in place |
| `Pci.PackFlowControl` | src/uds/isotp/pci-helper.cpp:162-168 | writes the three flow control bytes |
| `Pci.PackConseqFrame` | src/uds/isotp/pci-helper.cpp:170-174 | writes the consecutive frame byte with the low four bits of the number |
| `Pci.HeaderInsideFrame` | src/uds/isotp/pci-helper.cpp:4-114 | for arbitrary bytes the header, and a single frame's payload, lie inside the frame; size 0 exactly for ignored frames |
| `Pci.DataHeaderRoundTrip` | src/uds/isotp/pci-helper.cpp:4-160 | unpacking a packed data header gives back type, length and size if and only if the 32-bit sum of header and length does not wrap, for every length and frame lengths 8 to 64 |
| `Pci.SingleHeaderRoundTrip` | src/uds/isotp/pci-helper.cpp:12-40 | single frames of 1 to 8 and of 9 to 64 bytes, padded or not, are read back as packed if and only if the bytes announced are there, and ignored otherwise |
| `Pci.FlowHeadersRead` | src/uds/isotp/pci-helper.cpp:75-98 | a flow control is read if and only if it has three bytes, a known status and an STmin that is not reserved |
| `Pci.WrappedHeaderIgnored` | src/uds/isotp/pci-helper.cpp:120-136 | if that sum wraps, the frame announces more than it holds and is ignored by the peer |
| `Pci.FlowHeaderRoundTrip` | src/uds/isotp/pci-helper.cpp:75-168 | the bytes of a packed flow control, which is read back as it was meant if and only if its STmin is not 0x80 to 0xf0 or 0xfa to 0xff |
| `Pci.ConsecutiveRoundTrip` | src/uds/isotp/pci-helper.cpp:99-174 | a packed consecutive frame is read back with its number modulo sixteen |
| `TpPort.Port.SendFrame` | src/uds/inc/iso-tp-if.h:53-58 | one attempt: the frame is appended to the bus if accepted, the length or 0 returned |
| `TpPort.Port.PduToCan` | src/uds/isotp/docan-tp.h:38-46 | pads the buffer up to the frame length, leaves the used part alone and tries to send just that frame |
| `TpPort.Port.OnIsoRxEvent` | src/uds/isotp/docan-tp.cpp:102-109 | the client is told the receive event with its data and length |
| `TpPort.Port.OnIsoTxEvent` | src/uds/isotp/docan-tp.cpp:111-114 | the client is told the confirmation |
| `Sender.DoCANSender.constructor` | src/uds/isotp/docan-sender.h:16 | an idle sender on the given buffer |
| `Sender.FramableIff` | src/uds/isotp/docan-sender.cpp:18-19 | the source's assertion on the header holds for a payload if and only if the frame length is 7 or more, 3 or more up to 4095 bytes, or 2 for a single byte |
| `Sender.DoCANSender.Send` | src/uds/isotp/docan-sender.cpp:8-63 | result by length and buffer; the first frame tried, a running transfer dropped, then waiting or confirmed or idle, for every frame length that holds the header |
| `Sender.DoCANSender.TryFirstFrame` | src/uds/isotp/docan-sender.cpp:15-32 | Send up to the transmission attempt |
| `Sender.DoCANSender.FillFirstFrame` | src/uds/isotp/docan-sender.cpp:18-25 | header and first part of the payload in the frame buffer |
| `Sender.DoCANSender.AwaitFlowControl` | src/uds/isotp/docan-sender.cpp:33-38 | after a first frame: Bs timer running, number 0, payload kept |
| `Sender.DoCANSender.ProcessTx` | src/uds/isotp/docan-sender.cpp:65-153 | one poll in each state, timeouts included |
| `Sender.DoCANSender.SendConsecutiveFrames` | src/uds/isotp/docan-sender.cpp:79-134 | the endless loop ends, stays inside both buffers and does what the recursive `Burst` does, refusals included |
| `Sender.DoCANSender.TryConsecutiveFrame` | src/uds/isotp/docan-sender.cpp:81-98 | one consecutive frame prepared and tried |
| `Sender.DoCANSender.FillConsecutiveFrame` | src/uds/isotp/docan-sender.cpp:81-90 | number and payload part, the latter only if the last attempt was not refused |
| `Sender.DoCANSender.FrameTaken` | src/uds/isotp/docan-sender.cpp:98-128 | done and confirmed, or block end, pause or next frame |
| `Sender.DoCANSender.OnFlowControl` | src/uds/isotp/docan-sender.cpp:155-203 | each flow status in and out of the waiting state, STmin decoded |
| `Sender.DoCANSender.SetParameter` | src/uds/isotp/docan-sender.cpp:205-226 | new As and Bs periods, timers left stopped |
| `Receiver.DoCANReceiver.constructor` | src/uds/isotp/docan-receiver.h:17 | an idle receiver with offset 0 on the given buffer |
| `Receiver.DoCANReceiver.ProcessRx` | src/uds/isotp/docan-receiver.cpp:7-18 | the Cr timeout ends a reception, clears the offset and is reported |
| `Receiver.DoCANReceiver.Receive` | src/uds/isotp/docan-receiver.cpp:21-125 | what any frame does to an idle or busy receiver |
| `Receiver.DoCANReceiver.ReceiveFirst` | src/uds/isotp/docan-receiver.cpp:31-62 | a first frame: ignored, refused for overflow, or accepted with a flow control |
| `Receiver.DoCANReceiver.BeginReception` | src/uds/isotp/docan-receiver.cpp:50-59 | the fields of a new reception; the payload goes to the old offset |
| `Receiver.DoCANReceiver.ReceiveConsecutive` | src/uds/isotp/docan-receiver.cpp:64-101 | a consecutive frame: abort, store, complete or answer the end of a block |
| `Receiver.DoCANReceiver.TakePart` | src/uds/isotp/docan-receiver.cpp:74-86 | bytes stored at the offset, counters advanced in eight bits |
| `Receiver.DoCANReceiver.ReceiveSingle` | src/uds/isotp/docan-receiver.cpp:103-113 | a single frame is delivered, after a report if it interrupts a reception |
| `Receiver.DoCANReceiver.SendFlowControl` | src/uds/isotp/docan-receiver.cpp:43-48 | a padded flow control is tried on the bus |
| `Receiver.DoCANReceiver.SetParameter` | src/uds/isotp/docan-receiver.cpp:127-151 | block size and STmin cut to a byte, Cr period |
| `Receiver.ClassicFramesOk` | src/uds/isotp/docan-receiver.cpp:21-27 | every classic frame, whatever its bytes, satisfies the receiver's assertion |
| `Receiver.CopyInsideIff` | src/uds/isotp/docan-receiver.cpp:37-86 | the copy of a frame stays inside the buffer if and only if that of an accepted first frame does; consecutive frames never leave it |
| `Receiver.StaleOffsetOverruns` | src/uds/isotp/docan-receiver.cpp:53-54 | with the offset at the end of the buffer an ordinary first frame is copied past it |
| `Receiver.EmptyDeliveryIff` | src/uds/isotp/docan-receiver.cpp:103-113 | the receiver delivers a message of length 0 if and only if a single frame announces none |
| `Transport.DoCANTP.constructor` | src/uds/isotp/docan-tp.h:12-17 | two idle halves on separate buffers |
| `Transport.DoCANTP.Process` | src/uds/isotp/docan-tp.cpp:6-10 | sender polled, then receiver |
| `Transport.DoCANTP.ReadFrame` | src/uds/isotp/docan-tp.cpp:12-46 | frames routed by identifier and type to the sender, the receiver or the client |
| `Transport.DoCANTP.Request` | src/uds/isotp/docan-tp.cpp:48-51 | a request is the sender's Send |
| `Transport.DoCANTP.SetParameter` | src/uds/isotp/docan-tp.cpp:53-100 | refused while a transfer is on; otherwise each parameter and its bound |
| `Transport.NodeInvariant` | src/uds/isotp/docan-tp.cpp:53-77 | whatever is done to a node, a transfer keeps the configuration it began with, has payload left inside the buffer and frames that carry data; a reception fits the receive buffer and so does what any consecutive frame adds |
| `Transport.FunctionalFrameBypasses` | src/uds/isotp/docan-tp.cpp:19-33 | a functional single frame changes neither half and sends nothing; the client is told once, for classic frames with just the bytes the codec finds |
| `Transport.NodeEmptyDeliveryIff` | src/uds/isotp/docan-tp.cpp:12-46 | a node hands its client length 0 if and only if a physical single frame announces no bytes or a functional one has 0 in both length fields |
| `NodeRules.ShortMessageDelivered` | src/uds/isotp/docan-receiver.cpp:103-113 | a single frame of one to seven bytes, padded or not, reaches the client as it is |
| `NodeRules.FlowVerdicts` | src/uds/isotp/docan-sender.cpp:155-203 | for every status nibble of a received flow control: what happens to the transfer and what the client is told |
| `NodeRules.RequestVerdicts` | src/uds/isotp/docan-sender.cpp:8-63 | a request is taken, and exactly one frame tried, if and only if it has bytes and fits the buffer; otherwise it is refused for the one reason or the other and nothing happens |
| `NodeRules.ParameterVerdicts` | src/uds/isotp/docan-tp.cpp:53-100 | a parameter is refused while a transfer is on, as is one that does not exist, and then nothing changes |
| `NodeRules.GrantsAsConfigured` | src/uds/isotp/docan-receiver.cpp:127-151 | after block size b and STmin s were set, the next accepted first frame is answered by 30 b s, both cut to a byte, and padding |
| `NodeRules.FreshGrants` | src/uds/isotp/docan-receiver.h:17 | as constructed these are 16 and 0 |
| `NodeRules.FramesAsConfigured` | src/uds/isotp/docan-tp.cpp:75-94 | frames go out with the identifier, length and padding that were set |
| `NodeRules.ListensAsConfigured` | src/uds/isotp/docan-tp.cpp:12-46 | a node reads the two identifiers that were set and ignores all others |
| `NodeRules.GivesUpAsConfigured` | src/uds/isotp/docan-sender.cpp:205-226 | the Bs period that was set is the one an unanswered request waits |
| `NodeRules.TimesOutAsConfigured` | src/uds/isotp/docan-receiver.cpp:127-151 | the Cr period that was set is the one receptions wait, in every run |
| `NodeRules.RetriesAsConfigured` | src/uds/isotp/docan-sender.cpp:205-226 | the As period that was set is the one refused frames are tried again for, in every run |
| `Segmentation.FirstTriedFrame` | src/uds/isotp/docan-sender.cpp:18-32 | the frame Send hands to the bus is the message's head frame |
| `Segmentation.PreparedFrame` | src/uds/isotp/docan-sender.cpp:81-98 | the k-th attempt carries the next part of the payload and the number k modulo sixteen, the 8-bit counter's wrap notwithstanding |
| `Segmentation.BurstEmits` | src/uds/isotp/docan-sender.cpp:79-134 | one run of the loop emits the next frames of the message, and exactly the rest is left |
| `SenderRuns.SenderRefinesSegments` | src/uds/isotp/docan-sender.cpp:8-203 | after a request, under every sequence of polls, ticks and flow controls, the frames sent are a prefix of `Segments` of the message carried (the one asked for if the flag is set), and all of them exactly when success is confirmed, once |
| `SenderRefusals.RefusedSendsSkipNumbers` | src/uds/isotp/docan-sender.cpp:80-133 | with refused attempts, before the request or after: the carried message's parts, numbers advanced by the refusals; a prefix of its frames if and only if all refusal counts are multiples of sixteen |
| `StaleFlag.FlagWritten` | src/uds/isotp/docan-sender.cpp:79-141 | only polls while sending write the flag, and it then says whether the last attempt was taken; no request or timeout sets it |
| `StaleFlag.RefusalThenTimeout` | src/uds/isotp/docan-sender.cpp:129-138 | a bus that refuses until the As timer runs out leaves the flag not set, the transfer given up and reported |
| `StaleFlag.FirstPartStale` | src/uds/isotp/docan-sender.cpp:85-90 | without the flag the first consecutive frame of a segmented message carries bytes of that message's first frame, with the number that is due |
| `StaleFlag.FramesRightIff` | src/uds/isotp/docan-sender.cpp:85-90 | the frames, and so the message, are right if and only if the flag is set, the message needs no consecutive frame, or the bytes coincide |
| `StaleFlag.ZerosArriveWrong` | src/uds/isotp/docan-sender.cpp:85-90 | twenty zeros, without the flag, are carried as something else |
| `SenderLedger.StepConfirms` | src/uds/isotp/docan-sender.cpp:65-203 | ProcessTx and OnFlowControl confirm exactly once when a transfer ends and otherwise never, except for a stray flow control |
| `SenderLedger.ConfirmationLedger` | src/uds/isotp/docan-sender.cpp:8-203 | over all runs: transfers opened are confirmed, superseded by a new request, or still on |
| `SenderLedger.StoppedBsWaitsForever` | src/uds/isotp/docan-sender.cpp:70-77 | with the Bs timer off, polls never end the wait |
| `SenderLedger.RunningBsGivesUp` | src/uds/isotp/docan-sender.cpp:70-77 | with it running, the first poll after its period ends the transfer with the Bs timeout |
| `SenderLedger.NoTimeoutAfterBlock` | src/uds/isotp/docan-sender.cpp:117-167 | after a clear-to-send no Bs timeout is reported, whatever arrives, until the peer asks to wait or a new request is made |
| `SenderTiming.BsTimeoutIff` | src/uds/isotp/docan-sender.cpp:33-77 | in every run the Bs timeout is reported by exactly the polls that find the sender waiting and a period gone by, modulo 2^32, since the first frame or the last request to wait; other polls change nothing |
| `SenderTiming.UnansweredRequestGivesUp` | src/uds/isotp/docan-sender.cpp:33-77 | a segmented request and then silence: the Bs timeout at the first poll a period after the request, never before, and once |
| `SenderTiming.WaitRestartsSilence` | src/uds/isotp/docan-sender.cpp:155-192 | each request to wait begins that wait anew |
| `SenderTiming.GrantStopsBs` | src/uds/isotp/docan-sender.cpp:160-170 | a clear-to-send rules the Bs timeout out until the peer asks to wait |
| `SenderTiming.FreshRequestGivesUp` | src/uds/isotp/docan-sender.h:16 | as constructed the wait is 1000 ticks |
| `SenderTiming.AsTimeoutIff` | src/uds/isotp/docan-sender.cpp:92-138 | in every run the As timeout is reported by exactly the polls whose last attempt is refused a period after the first refusal since a consecutive frame was taken |
| `SenderTiming.FreshRetries` | src/uds/isotp/docan-sender.h:16 | as constructed that period is 1000 ticks |
| `SenderTiming.OldRefusalCounts` | src/uds/isotp/docan-sender.cpp:8-98 | time since a refusal of the transfer before counts: the first refusal of the next one can time out at once |
| `SenderRate.TransmissionRate` | src/uds/isotp/docan-sender.cpp:117-187 | since the clear-to-send in force at most floor((now - t0) / s) frames, s being the ticks its STmin byte stands for, and at most its block size, for any polling, any flow control and across tick wrap-around |
| `SenderRate.GrantHoldsFrames` | src/uds/isotp/docan-sender.cpp:155-187 | after a clear-to-send no polling lets a frame out before the ticks its STmin byte stands for are over |
| `SenderRate.GrantReleasesFrame` | src/uds/isotp/docan-sender.cpp:155-187 | and once they are over two polls let one out, if none has gone before |
| `SenderRate.OnlyMfDtSends` | src/uds/isotp/docan-sender.cpp:143-186 | only the end of a pause or a clear-to-send without pause lets consecutive frames out |
| `SenderRate.LatePollClosesGap` | src/uds/isotp/docan-sender.cpp:117-148 | after a late poll two consecutive frames go out on the same tick in spite of STmin |
| `SenderRate.DuePauseSends` | src/uds/isotp/docan-sender.cpp:79-148 | once a pause is due, two polls send the next frame on that tick |
| `SenderRate.GapKeptIff` | src/uds/isotp/docan-sender.cpp:117-148 | a pausing sender keeps STmin under every later polling if and only if its pause timer was started on the present tick |
| `SenderRate.FrameGapIff` | src/uds/isotp/docan-sender.cpp:117-148 | after a frame every later polling keeps STmin if and only if the frame went out on the tick of the poll that ended the pause before it |
| `SenderRate.NextFrameNotBefore` | src/uds/isotp/docan-sender.cpp:143-148 | the next frame comes no earlier than STmin after the poll that ended the last pause |
| `Reassembly.MessageDelivered` | src/uds/isotp/docan-receiver.cpp:21-125 | all frames of any message in order, if the first one can be placed: exactly one delivery, right if and only if the front of the buffer is its own, always with offset 0 |
| `Reassembly.PlaceableIff` | src/uds/isotp/docan-receiver.cpp:50-54 | a message that fits the buffer has its first frame copied inside if and only if its first part fits behind the offset |
| `Reassembly.ArrivesUnharmedIff` | src/uds/isotp/docan-receiver.cpp:50-98 | what arrives is what was sent if and only if the message is a single frame or the bytes at the front of the buffer are its own |
| `Reassembly.SecondCopyFitsIff` | src/uds/isotp/docan-receiver.cpp:53-54 | the first frame of a second segmented message is copied inside the buffer if and only if it fits behind the whole first message |
| `Reassembly.SecondMessageKeepsOldHead` | src/uds/isotp/docan-receiver.cpp:53-54 | two segmented messages in a row, the second fitting behind the first: it is right if and only if both begin alike |
| `Reassembly.FrameAfterGap` | src/uds/isotp/docan-receiver.cpp:69-86 | a later frame than the one due is rejected if and only if the gap is no multiple of sixteen |
| `Reassembly.LossDetected` | src/uds/isotp/docan-receiver.cpp:69-72 | for every pattern of losses, also where the four-bit numbers hide them: one delivery if nothing is lost, none otherwise |
| `ReceiverRuns.ReceiverInvariant` | src/uds/isotp/docan-receiver.cpp:31-101 | against any eight-byte frames whose copies stay inside: offset f + 7n below the announced size, expected number n + 1 modulo 256, block count n modulo BS, 1 + n / BS flow controls |
| `ReceiverRuns.CompletionExact` | src/uds/isotp/docan-receiver.cpp:64-98 | a completed reception reports exactly one success with the announced length and the bytes assembled, after exactly ceil((length - f) / 7) consecutive frames and 1 + (n - 1) / BS flow controls |
| `ReceiverRuns.DeliveryNeedsCompletion` | src/uds/isotp/docan-receiver.cpp:88-113 | nothing else is ever delivered: a completing in-order frame or a single frame |
| `ReceiverTiming.CrTimeoutIff` | src/uds/isotp/docan-receiver.cpp:7-86 | in every run, against any frames, the Cr timeout is reported by exactly the polls that find a reception on and a period gone by, modulo 2^32, since the last frame that began or continued it; it clears the offset, and other polls change nothing |
| `ReceiverTiming.TimeoutClearsOffset` | src/uds/isotp/docan-receiver.cpp:7-18 | after a Cr timeout in any run the next message is delivered as it was sent |
| `ReceiverTiming.FreshReceptionGivesUp` | src/uds/isotp/docan-receiver.h:17 | as constructed the period is 1000 ticks |
| `ReceiverTiming.ReceptionLedger` | src/uds/isotp/docan-receiver.cpp:21-125 | over all runs, against any frames: every reception begun, single frame and stray frame is closed by exactly one event or still on |
| `ReceiverTiming.EventsTell` | src/uds/isotp/docan-receiver.cpp:7-125 | failures caused by data frames are reported as data events, those caused by a flow control or the timer as confirmations; nothing else is reported |
| `BufferSafety.BoundedRunInside` | src/uds/isotp/docan-receiver.cpp:37-86 | if no accepted message is longer than the buffer less six bytes, every copy of every run stays inside |
| `BufferSafety.BufferSafeIff` | src/uds/isotp/docan-receiver.cpp:37-86 | and no larger bound will do: all copies of all runs stay inside if and only if the longest accepted message leaves six bytes free |
| `Lockstep.LockRun` | src/uds/isotp/docan-sender.cpp:98-187 | in every run without timeouts: the sender's block count is the receiver's plus the frames in flight while it sends, and it waits exactly while the block's flow control is owed or on the way |
| `FlowCount.FlowControlsCounted` | src/uds/isotp/docan-receiver.cpp:45-97 | n consecutive frames take exactly 1 + (n - 1) / BS flow controls, the sender waits exactly that often, and no block counter passes the block size |
| `Completion.UsefulStepsProgress` | src/uds/isotp/docan-sender.cpp:65-153 | every useful step takes work away, every other leaves it as it is |
| `Completion.AlwaysUseful` | src/uds/isotp/docan-sender.cpp:65-153 | until all is done some step is useful |
| `Completion.CanComplete` | src/uds/isotp/docan-sender.cpp:65-203 | from every state in step there is a run without timeouts to the end |
| `Completion.LineDelivery` | src/uds/isotp/docan-receiver.cpp:21-125 | in every run, timeouts included, nothing but the payload is delivered, and at most once |
| `Completion.LineCompletion` | src/uds/isotp/docan-sender.cpp:8-203 | without timeouts: a bounded number of useful steps, nothing unexpected reported, and in the end exactly one confirmation and one delivery |
| `Duplex.NetworkRefinesLine` | src/uds/isotp/docan-tp.cpp:6-51 | every run of two nodes, seen in one direction, is a run of a line: the halves of a node do not disturb each other |
| `Duplex.EndToEndDelivery` | src/uds/isotp/docan-tp.cpp:6-51 | in every interleaving, for every length, block size and STmin, the peer's client is handed the message carried - the requested payload if the sender's flag is set - or nothing, at most once |
| `Duplex.EndToEndCompletion` | src/uds/isotp/docan-tp.cpp:6-51 | without timeouts neither side reports anything unexpected, and once nothing is left to do there is exactly one confirmation and one delivery of the message carried, or one refusal of a message that does not fit |
| `Duplex.NextFrameAcceptable` | src/uds/isotp/docan-receiver.cpp:27-86 | in every reachable state the next data frame meets the receiver's assertion and its copy stays inside the buffer |
| `Duplex.FullDuplexDelivery` | src/uds/isotp/docan-tp.cpp:6-51 | the same for two messages that cross, their frames and flow controls sharing the queues |
| `NodeBlocks.BlocksEndToEnd` | src/uds/isotp/docan-tp.cpp:6-51 | in every run of two nodes without timeouts of the direction: blocks at both ends agree with the frames and the flow control on the queues, the sender waits once for each flow control, and n consecutive frames take exactly 1 + (n - 1) / BS of them |
| `Progress.FreshNodesReady` | src/uds/isotp/docan-tp.h:12-17 | two nodes as constructed, wired to each other, meet the conditions of the end-to-end results for any messages that fit their buffers, and carry just those messages |
| `Progress.CanFinish` | src/uds/isotp/docan-tp.cpp:6-51 | from every state in step of two nodes, whatever the other direction is doing, some schedule of polls, deliveries and ticks completes the transfer without a timeout |
| `Progress.EndToEndPossible` | src/uds/isotp/docan-tp.cpp:6-51 | after a request some schedule has the sending client told of exactly one success and the receiving client handed exactly the message carried, or one refusal if it does not fit |
| `Session.SessionControl.constructor` | src/uds/session/session-control.h:71-124 | a default session, timers stopped but the ETM timer |
| `Session.SessionControl.SendRequest` | src/uds/session/session-control.cpp:5-18 | the payload goes to the transport; P2 runs with P2* in ETM and is stopped otherwise |
| `Session.SessionControl.SetPending` | src/uds/session/session-control.cpp:20-29 | ETM begins with one wait message if duration >= interval >= 1000, otherwise nothing happens |
| `Session.SessionControl.Process` | src/uds/session/session-control.cpp:31-49 | one poll of S3, P2 and the ETM timer |
| `Session.SessionControl.OnIsoEvent` | src/uds/session/session-control.cpp:51-107 | what each transport event does to timers and session, and whether it is an indication |
| `Session.SessionControl.SetSessionMode` | src/uds/session/session-control.cpp:110-126 | default stops S3, non-default starts or restarts it |
| `Session.SessionControl.ProcessSessionMode` | src/uds/session/session-control.cpp:129-154 | S3 expiry ends the session; P2 expiry restarts S3 and ends ETM |
| `Session.SessionControl.SendNoAnswer` | src/uds/session/session-control.cpp:144-151 | 7F si 36 goes out and the wait message is restored |
| `Session.SessionControl.SetSessionParam` | src/uds/session/session-control.cpp:156-179 | the three periods, or an error |
| `SessionRuns.PendingCount` | src/uds/session/session-control.cpp:5-49 | with prompt polls and any transport events in between: exactly ceil(duration / interval) times 7F si 78, then one 7F si 36, ETM off, wait message restored |
| `SessionRuns.MissedWindowEndsPending` | src/uds/session/session-control.cpp:138-152 | a poll that finds P2* elapsed ends ETM with 7F si 36, whatever time is left |
| `SessionRuns.LongIntervalNeverRepeats` | src/uds/session/session-control.cpp:20-49 | with an interval of P2* or more no wait message is ever repeated |
| `SessionRuns.NothingUnasked` | src/uds/session/session-control.cpp:31-107 | outside ETM polls and events send nothing |
| `SessionRuns.ExpiryNotifiesOnce` | src/uds/session/session-control.cpp:131-136 | a poll ends a non-default session if and only if S3 is due, and tells the upper layer exactly then, once |
| `SessionRuns.SessionEndsIff` | src/uds/session/session-control.cpp:129-154 | a non-default session that hears nothing more can end if and only if S3 or P2 is running |
| `SessionRuns.BrokenReceptionStallsSession` | src/uds/session/session-control.cpp:78-107 | a reception broken by a frame leaves a session that can never end, one broken by the Cr timeout does not |
| `SessionTiming.SessionEndsExactly` | src/uds/session/session-control.cpp:51-154 | after every run of polls and transport events outside ETM, a poll ends a non-default session if and only if S3 has been running for its period, counted from the last sending, failed or timed-out reception or expiry of P2, and not stopped by a message since |
| `SessionTiming.EnteredSessionLasts` | src/uds/session/session-control.cpp:110-136 | a service that switches to a non-default session makes it last S3_max from then on, and the client is told which kind it is |
| `SessionTiming.EnteredSessionLastsAsSet` | src/uds/session/session-control.cpp:156-179 | which is 5000 ticks as constructed, or what was set |
| `SessionTiming.RestartedSessionLasts` | src/uds/session/session-control.cpp:78-126 | a message sent, a reception that fails to begin and one that times out start S3 again |
| `SessionTiming.ResponseSettlesSession` | src/uds/session/uds-app-manager.cpp:19-34 | a response leaves the session in the mode of the client's level, and a non-default one lasts S3 from then on |
| `SessionTiming.LevelSettlesSession` | src/uds/session/uds-app-manager.cpp:19-34 | the level the client has set by then counts |
| `SessionTiming.SilentHandlingSettlesSession` | src/uds/session/uds-app-manager.cpp:108-111 | so does a request handled without a response |
| `SessionTiming.RequestDefersEnd` | src/uds/session/session-control.cpp:51-142 | while a request is worked on the session does not end: S3 begins at the first poll P2_max after it |
| `SessionTiming.RequestDefersEndAsSet` | src/uds/session/session-control.cpp:156-179 | P2_max is 250 ticks as constructed, or what was set |
| `SessionTiming.ReceptionHoldsSession` | src/uds/session/session-control.cpp:78-90 | nor does it end while a segmented message comes in |
| `SessionTiming.PendingCountAsSet` | src/uds/session/session-control.cpp:156-179 | the ETM window is 5000 ticks as constructed, or what was set |
| `SessionTiming.PendingNamesService` | src/uds/session/uds-app-manager.cpp:149-153 | after a granted StartPending: exactly ceil(duration / interval) times 7F, the request's service, 78, and then 7F, the service, 36 |
| `SessionTiming.PendingLeavesS3` | src/uds/session/session-control.cpp:51-107 | in ETM neither confirmations of wait messages nor messages that arrive touch S3 or P2, or reach the client |
| `SessionTiming.UpperLayerTold` | src/uds/session/session-control.cpp:51-107 | over every run the upper layer is told, in order, exactly the messages that arrive outside ETM, with their kind of address, and the failed receptions |
| `Manager.UdsAppManager.constructor` | src/uds/session/uds-app-manager.cpp:7-16 | an active manager on the given response buffer |
| `Manager.UdsAppManager.SendResponse` | src/uds/session/uds-app-manager.cpp:19-34 | sent if allowed; the pending flag is cleared and the session timing restored either way |
| `Manager.UdsAppManager.CheckResponseAllowed` | src/uds/session/uds-app-manager.cpp:129-146 | whether a response may go out, and the lifting of the suppression by NRC 78 |
| `Manager.UdsAppManager.SendNegResponseFor` | src/uds/session/uds-app-manager.cpp:36-44 | 7F, service and code, through the response buffer |
| `Manager.UdsAppManager.SendNegResponse` | src/uds/session/uds-app-manager.cpp:47-50 | the same for the service of the request in hand |
| `Manager.UdsAppManager.SetServiceSession` | src/uds/session/uds-app-manager.cpp:53-61 | session timing and notice to the client |
| `Manager.UdsAppManager.OnSessIndication` | src/uds/session/uds-app-manager.cpp:64-112 | what a request does, from the checks to the client and its result |
| `Manager.UdsAppManager.FinishRequest` | src/uds/session/uds-app-manager.cpp:100-111 | what each result of the client leads to |
| `Manager.UdsAppManager.StartPending` | src/uds/session/uds-app-manager.cpp:149-153 | the flag is set and ETM asked for |
| `Manager.UdsAppManager.SetActiveMode` | src/uds/session/uds-app-manager.cpp:164-167 | requests blocked or let through |
| `Manager.UdsAppManager.HandleReqInternally` | src/uds/session/uds-app-manager.cpp:170-179 | TesterPresent and refused services are not passed on |
| `Manager.UdsAppManager.SIDTesterPresent` | src/uds/session/uds-app-manager.cpp:182-193 | sub-function 0 and length 2 are answered, others refused |
| `Manager.UdsAppManager.CheckIfSidSupported` | src/uds/session/uds-app-manager.cpp:196-220 | unknown services and short requests refused; no suppress bit without sub-functions |
| `Manager.UdsAppManager.OnIsoEvent` | src/uds/session/session-control.cpp:51-107 | the session layer's handler with its upcall to the manager resolved |
| `ResponseRules.ResponseRule` | src/uds/session/uds-app-manager.cpp:19-220 | for every request and every client that answers at most once: at most one message goes out, the intended one, byte by byte, withheld exactly as ISO 14229-1 tables 4 to 7 say unless the flag of an earlier StartPending is set |
| `ResponseRules.StandardResponseRule` | src/uds/session/uds-app-manager.cpp:64-146 | without that flag the tables hold as they stand |
| `ResponseRules.AnswersIdentifyRequest` | src/uds/session/uds-app-manager.cpp:83-107 | whatever the request and however the client fills in the rest: what is sent begins with the request's identifier plus 0x40, or is 7F, the identifier and the code |
| `ManagerRuns.OrderlyRunsObeyTables` | src/uds/session/uds-app-manager.cpp:64-153 | after every run in which no pending mode is refused or runs out, the next request is answered by the tables, or ignored while an answer is pending |
| `ManagerRuns.SessionKeptAlive` | src/uds/session/session-control.cpp:51-154 | in every run: default has S3 stopped, ETM has P2 running, non-default has S3 or P2 running or a reception that neither its delivery nor the Cr timeout has closed |
| `ManagerRuns.FreshSessionKeptAlive` | src/uds/session/uds-app-manager.cpp:19-61 | from a fresh manager: a non-default session with no open reception can always end |
| `ManagerRuns.EveryExpiryNotified` | src/uds/session/uds-app-manager.cpp:122-126 | over every run the S3 notice comes exactly once for each poll that ends a session |
| `ManagerRuns.PendingRefusalGetsThrough` | src/uds/session/uds-app-manager.cpp:129-153 | after a granted StartPending and any time in ETM a final refusal is sent, for the right service and to functional requests too, and ends the mode |
| `ManagerRuns.PendingAnswerNeedsNoSuppression` | src/uds/session/uds-app-manager.cpp:141-143 | a final positive answer is sent, and ends the mode, if and only if the request has no suppress bit |
| `ManagerRuns.UngrantedPendingSetsFlag` | src/uds/session/uds-app-manager.cpp:149-153 | a pending request that is not granted changes nothing but the flag |
| `ManagerRuns.IgnoredRequestForgetsRefusal` | src/uds/session/uds-app-manager.cpp:64-72 | a request that is ignored sends nothing, but an answer given after it counts as positive |
| `ManagerRuns.WaitMessageLiftsSuppression` | src/uds/session/uds-app-manager.cpp:129-146 | after a 7F si 78 of the client's own a positive answer goes out in spite of the suppress bit |
| `ManagerRuns.FlagSurvivesGivingUp` | src/uds/session/uds-app-manager.cpp:129-153 | after 7F si 36 the flag stays, and one functional request for an unknown service is refused aloud |

## Left out

- `DoCAN_TP_Mem`, which passes the same memory as receive and transmit buffer (src/uds/isotp/docan-tp.h:108); the model is of `DoCAN_TP` with separate buffers.
- Callbacks that call back into the same node while it is sending, threads and interrupts: ticks, frames and calls are separate steps.
- Buffers larger than 0xffffffc0 bytes, for which 32-bit sums of offsets and frame lengths would wrap; only the header codec is modelled up to the last 32-bit length.
- Duplex.EndToEndDelivery: one request per direction and no configuration changes on the way, because a second segmented message is not delivered unharmed (see `SecondMessageKeepsOldHead` and `SecondCopyFitsIff`).
- Duplex.EndToEndCompletion: as for delivery; that a run without timeouts to the end exists is `EndToEndPossible`.
- Sender.DoCANSender.Send: payloads whose header fills the configured frame, with which the source violates its own assertion (src/uds/isotp/docan-sender.cpp:19); `FramableIff` says which.
- Results about whole messages (`Segments` and what builds on it) are for frame lengths of 8 to 64, and up to 63 where a receiver takes part, as that asserts (src/uds/isotp/docan-receiver.cpp:27).
- SenderRefusals.RefusedSendsSkipNumbers: a refused first frame, which ends the transfer at once (src/uds/isotp/docan-sender.cpp:32-47).
- SessionRuns.PendingCount: client calls during the pending mode; these are the subject of `PendingRefusalGetsThrough` and `PendingAnswerNeedsNoSuppression`.
- Receiver.DoCANReceiver.Receive: what first frames do whose bytes do not fit behind the offset the last message left, which the source does not check (src/uds/isotp/docan-receiver.cpp:53) and where it writes to memory that is not part of this model. `CopyInsideIff` shows that only first frames can, `SecondCopyFitsIff` and `BufferSafeIff` when they do, `NextFrameAcceptable` that none does on the way from offset 0.
- Receiver.DoCANReceiver.ReceiveFirst: the same first frames.
- Receiver.DoCANReceiver.BeginReception: the same first frames.
- Reassembly.MessageDelivered: asks that the first frame's part fits behind the offset, for the same reason; so do SecondMessageKeepsOldHead and LossDetected.
- ReceiverRuns.ReceiverInvariant: asks that the copies of the run stay inside the buffer, for the same reason; so does CompletionExact. `BoundedRunInside` gives a condition on the messages that ensures it.
- Manager.UdsAppManager.OnSessIndication: requests shown without a second readable byte, which the source reads even if the request has one byte (src/uds/session/uds-app-manager.cpp:79-84).
- Manager.UdsAppManager.OnIsoEvent: the same requests, and those of length 0, which the source asserts never to happen (src/uds/session/uds-app-manager.cpp:68); `NodeEmptyDeliveryIff` says when they do.
- Transport.DoCANTP.ReadFrame: bytes a functional single frame announces beyond its end, frames too short for what the routing reads unchecked, and first frames whose copy leaves the receive buffer.
- Transport.DoCANTP.constructor: one memory for both buffers; the model's are separate arrays.
- TpPort.Port.OnIsoTxEvent: the payload of confirmations, which is what the last receive event left in the context (src/uds/isotp/docan-tp.cpp:111-114).
- Session.SessionControl.OnIsoEvent: a first-frame event that is no success, which the source asserts never to happen.
- Manager.UdsAppManager.constructor: response buffers of fewer than three bytes, past which every negative response is written (src/uds/session/uds-app-manager.cpp:36-44). The source leaves `nrcPending` and `nrcOutCode` without a value; they are taken to be 0, as in an object with static storage.
- Manager.UdsAppManager.StartPending: durations are 32-bit words; a 64-bit `size_t` would be cut on the way to SetPending.
- OnSessConfirmation and On_s3_Timeout of the manager only forward to the client and appear as entries of the session's log; the manager's classes share one log.
- The result of the transport's Request, which the session layer ignores.
- The proxy `MultiServiceManager`, the DID and routine routers, the keepers and allocators, byte swaps and constant tables: dispatch and storage.
- Everything under src/example: socketCAN, menus, demonstration services.

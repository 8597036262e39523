# SCReAM V2 engine: model and proofs

This project models the congestion-control engine in `app/src/main/cpp/scream_core` together with the session and
controller code around it, and proves what its bookkeeping keeps over every run. `dafny verify dfyconfig.toml` (Dafny
4.11) checks the whole project; no part of the original program is executed.

Code that works in place is modelled by classes over arrays and objects; each method is proved against a function of the
old state, and the properties over runs are proved about those functions. 16- and 32-bit values wrap explicitly
(`Serial.dfy`).

| file | what it covers |
|---|---|
| `Serial`, `Sums`, `Options`, `TxRing` | unsigned arithmetic, sums, stretches of the 4096-slot ring |
| `InFlight`, `InFlightLedger`, `Lifted`, `Exactness`, `LossTimes` | the sender's transmit ring: accounts over every run, the same in place, in unbounded sequence numbers, exactly when bytesInFlight is exact, and exactly when a packet is declared lost, in unbounded times |
| `Ccfb` | the congestion-control feedback message (section 3.1 of RFC 8888): printing and parsing |
| `RxHistory`, `RxStream`, `RxSchedule`, `RxSession` | the receiver: history, report blocks, which stream reports when, whole messages |
| `SenderFeedback`, `EndToEnd` | the sender's reading of feedback, and both ends over a network that loses, duplicates and reorders: what is acknowledged was received |
| `Progress` | the converse, for feedback that arrives in order: what was received and still is in the history becomes acknowledged |
| `BaseDelay` | the two-level cache of the minimum one-way delay |
| `RateAllocation` | weighted water-filling of the rate among streams |
| `WindowMath`, `WindowControl` | the congestion window: formulas and what they amount to, and the fields that carry them |
| `CongestionEvents` | which feedback blocks the window reacts to, and how often, over every run |
| `Surplus`, `Sender`, `LateMarks` | acknowledged against credited bytes over every run, the ledger and the window together, and a run in which the window shrinks without congestion |
| `RtpQueue`, `PacketHeap`, `Controller` | the RTP packet ring and who owns its buffers |
| `CreditScheduler` | which stream sends next |
| `Session`, `TestSession` | the sending and feedback threads as atomic steps, and the same steps on the ledger, the queue and the buffers in place |
| `EncoderRate` | the bitrate handed to the encoder |

## What the proofs brought to light

- The field for the number of reports holds that number minus one at both ends; section 3.1 of RFC 8888 words it as the
  number of reports. The model follows the code.
- `bytesInFlight` can stay above the sum it stands for: a packet that is overwritten in the ring, dropped behind the loss
  window, or released above the received edge is never credited. `Exactness.RunExactIff` says exactly when, for every run;
  `Exactness.OverwriteForgets` and `Exactness.DropForgets` are two such runs; `Lifted.RunExact` gives a window of sequence
  numbers in which it never happens.
- The guard against old feedback rejects a block only if it ends 513 to 535 numbers behind the highest acknowledged one
  (`SenderFeedback.RejectedIff`); blocks that lag further are read as if they were new, and take the acknowledged edge back
  (`SenderFeedback.OldBlockTakesEdgeBack`).
- A receiver with more than one block's worth of numbers outstanding across a 16-bit wrap skips numbers, because the
  subtraction at line 156 of `ScreamRx.cpp` is carried out in `int` (`RxHistory.GapFreeIff` is the exact condition,
  `RxSchedule.ReceivedButSkipped` two arrivals and the messages made after each, in which a received packet is never
  reported).
- The stream search of `createStandardizedFeedback` clears the flush flag of streams that led the search and were then
  overtaken (`RxSchedule.FlagLostIff` is the exact condition, `RxSchedule.OvertakenLosesFlush` the shortest case).
- CE marked bytes are counted when a packet is reported, acknowledged bytes when the received edge passes it. Packets that
  arrive late are passed first; if an update has counted them by the time they are reported as CE marked, the difference is
  negative at the next update, and the window then shrinks without a congestion event. `Senders.SurplusSince` says how far
  below zero the difference can be, `WindowControl.WindowControl.ReactAndGrow` exactly when the window falls, and
  `LateMarks.LateMarksShrink` is such a run, of four packets on a new sender.
- The limit near the maximum rate leaves a window of at least one byte, by which the code then divides, exactly under
  `RoomAtLimit` (`WindowControl.WindowControl.SlowUpdate`): some bytes in flight within the last second, or a maximum rate
  that needs at least one byte per round trip.
- The frame clock that loss detection corrects by follows the highest acknowledged timestamp only through steps of less than
  50000 ticks, 0.56 s (`LossTimes.FrameFollowsIff` is the exact condition, `LossTimes.FrameClockStuck` a run at one frame per
  second in which it stays at 0). While it is behind, the correction for newer frames wraps to about 13 hours.
- Loss detection compares 32-bit times without regard to wraps: a packet whose deadline and the last acknowledged
  transmission lie in different cycles of the clock is judged the wrong way round (`LossTimes.LateIff`).
- The time-out that is to end a deadlock does not fire if the 32-bit clock wraps between the last transmission and now
  (`InFlight.GateOpensIff`).
- The initial feedback interval of 13107 ticks is 200 ms, not the 20 ms of the comment at line 358 of `ScreamRx.cpp`.
- One header comment on the hysteresis promises half of it downwards (`ScreamTx.h`, lines 244-245), another (lines 549-550) and the
  code a quarter; the model follows the code.
- A loss between an answer of -1 and the next query is never signalled to the encoder (`EncoderRate.LossSignalled`).

## Model

| member | source | states |
|---|---|---|
| InFlight.DropLoopIsRegion | app/src/main/cpp/scream_core/ScreamV2Tx.cpp:1099-1120 | The dropping loop over lifted ring indices visits every slot of its stretch exactly once through any ring wrap: it equals a slot-by-slot description of the stretch |
| InFlight.ScanLoopIsRegion | app/src/main/cpp/scream_core/ScreamV2Tx.cpp:1125-1187 | The same for the scanning loop; while bytesInFlight covers the ring total, the clamp to 0 at lines 1156-1157 never fires |
| InFlight.DetectLossLoopsAgree | app/src/main/cpp/scream_core/ScreamV2Tx.cpp:1078-1187 | Both loops together are the declarative detectLoss |
| InFlight.DetectLossKeeps | app/src/main/cpp/scream_core/ScreamV2Tx.cpp:1099-1185 | detectLoss changes no number and acknowledges nothing; it only releases slots |
| InFlight.TransmitAccounted | app/src/main/cpp/scream_core/ScreamV2Tx.cpp:508-527 | addTransmitted keeps the byte account and the packet account, an overwritten packet included |
| InFlight.MarkAckedAccounted | app/src/main/cpp/scream_core/ScreamV2Tx.cpp:926-962 | markAcked keeps both accounts: one open packet becomes one delivered packet |
| InFlight.DetectLossAccounted | app/src/main/cpp/scream_core/ScreamV2Tx.cpp:1073-1188 | detectLoss keeps both accounts: each released open packet is counted lost once, each credited byte leaves bytesInFlight once |
| InFlight.LostBytes | app/src/main/cpp/scream_core/ScreamV2Tx.cpp:1113-1181 | detectLoss counts exactly the bytes of the open packets it releases as lost |
| InFlight.TimeOutAccounted | app/src/main/cpp/scream_core/ScreamV2Tx.cpp:473-480 | The time-out reset writes off exactly bytesInFlight and the open packets |
| InFlight.InFlightNonNegative | app/src/main/cpp/scream_core/ScreamV2Tx.cpp:1155-1157 | bytesInFlight is never below the sum of sizes of used slots not yet behind the received edge, hence never negative |
| InFlight.TimeOutDueIff | app/src/main/cpp/scream_core/ScreamV2Tx.cpp:473-473 | The time-out is due if and only if more than half a second has passed without a transmission and the 32-bit clock has not wrapped in the meantime |
| InFlight.GateOpensIff | app/src/main/cpp/scream_core/ScreamV2Tx.cpp:451-489 | With a packet queued and half a second without a transmission, the gate is open if and only if the clock has not wrapped since, or the packet fits and is not paced |
| InFlight.AdmitIff | app/src/main/cpp/scream_core/ScreamV2Tx.cpp:451-489 | The gate in plain terms: when it is open at once, when it is shut, and for how long it asks to wait |
| InFlight.NeverStalls | app/src/main/cpp/scream_core/ScreamV2Tx.cpp:451-489 | A window of two packets or more with a headroom of one half always holds four packets: up to there only pacing delays a packet |
| InFlight.FrameEndMovesEdge | app/src/main/cpp/scream_core/ScreamV2Tx.cpp:705-711 | A report moves the received edge if and only if it is the last element or its packet ends a frame |
| InFlight.StepAccounted | app/src/main/cpp/scream_core/ScreamV2Tx.cpp:508-527 | Every step keeps the account; only a transmission raises bytesInFlight |
| InFlight.RunKeepsAccount | app/src/main/cpp/scream_core/ScreamV2Tx.cpp:705-711 | Any sequence of steps keeps the account; feedback alone never raises bytesInFlight |
| InFlight.RunCounts | app/src/main/cpp/scream_core/ScreamV2Tx.cpp:525-527 | The cumulative totals count what was really transmitted, across the counter resets of updateRate |
| InFlight.RunConserves | app/src/main/cpp/scream_core/ScreamV2Tx.cpp:1099-1186 | Over every run: bytes transmitted = in flight + credited + written off; packets transmitted = delivered + lost + open + wiped; 0 <= ring total <= bytesInFlight |
| InFlightLedgers.InFlightLedger.AddTransmitted | app/src/main/cpp/scream_core/ScreamV2Tx.cpp:508-527 | In place: the ring and the counters become the specified transmission of the old state |
| InFlightLedgers.InFlightLedger.MarkAckedInPlace | app/src/main/cpp/scream_core/ScreamV2Tx.cpp:926-962 | In place: the specified acknowledgement, and whether the packet ended a frame |
| InFlightLedgers.InFlightLedger.DropSlot | app/src/main/cpp/scream_core/ScreamV2Tx.cpp:1100-1119 | One round of the dropping loop in place |
| InFlightLedgers.InFlightLedger.ScanSlot | app/src/main/cpp/scream_core/ScreamV2Tx.cpp:1126-1186 | One round of the scanning loop in place; with a kept account the clamp changes nothing |
| InFlightLedgers.InFlightLedger.DetectLossInPlace | app/src/main/cpp/scream_core/ScreamV2Tx.cpp:1073-1188 | In place: index lifting and both loops carry out the declarative detectLoss and keep the account |
| InFlightLedgers.InFlightLedger.ReportInPlace | app/src/main/cpp/scream_core/ScreamV2Tx.cpp:705-711 | One received report element: markAcked, and detectLoss for the last element or a frame end |
| InFlightLedgers.InFlightLedger.UpdateRateInPlace | app/src/main/cpp/scream_core/ScreamV2TxStream.cpp:146-150 | The counter resets, and nothing else |
| InFlightLedgers.InFlightLedger.ResetInPlace | app/src/main/cpp/scream_core/ScreamV2Tx.cpp:474-477 | All 4096 slots are released and bytesInFlight is 0 |
| InFlightLedgers.InFlightLedger.IsOkToTransmit | app/src/main/cpp/scream_core/ScreamV2Tx.cpp:451-489 | The verdict and the ledger after it are those of the specified gate: window test, pacing, time-out reset |
| Lifted.WrappedPosition | app/src/main/cpp/scream_core/ScreamV2Tx.cpp:508-508 | 16-bit wrapping does not disturb ring positions |
| Lifted.StretchesLifted | app/src/main/cpp/scream_core/ScreamV2Tx.cpp:1078-1094 | Where the two stretches of detectLoss start, in unbounded sequence numbers |
| Lifted.SlotInWindow | app/src/main/cpp/scream_core/ScreamV2Tx.cpp:1138-1152 | Inside the window a counted packet lies outside the dropped stretch, and is credited exactly when the edge has passed its unbounded number |
| Lifted.DetectLossExact | app/src/main/cpp/scream_core/ScreamV2Tx.cpp:1078-1160 | Inside the window detectLoss releases no packet it has not credited, and afterwards every counted packet is above the new edge |
| Lifted.TransmitExact | app/src/main/cpp/scream_core/ScreamV2Tx.cpp:508-519 | Inside the window no counted packet is overwritten |
| Lifted.RunExact | app/src/main/cpp/scream_core/ScreamV2Tx.cpp:508-524 | With increasing transmissions less than 3552 ahead of the acknowledged edge and acknowledgements no more than 512 behind it, bytesInFlight equals the ring total in every run, through ring and 16-bit wrap |
| Exactness.TransmitLeaksIff | app/src/main/cpp/scream_core/ScreamV2Tx.cpp:508-524 | Transmitting breaks exactness if and only if it overwrites a packet that still counts |
| Exactness.LeakIff | app/src/main/cpp/scream_core/ScreamV2Tx.cpp:1099-1160 | detectLoss releases uncredited bytes if and only if a counted packet with bytes falls out of the loss window, or lies past the received edge in the scanned stretch and is acknowledged or late |
| Exactness.DetectLeaksIff | app/src/main/cpp/scream_core/ScreamV2Tx.cpp:1099-1185 | From an exact state, bytesInFlight is exact after detectLoss if and only if there is no such packet |
| Exactness.RunExactIff | app/src/main/cpp/scream_core/ScreamV2Tx.cpp:473-1186 | Over every run bytesInFlight is exact if and only if, since the last time-out reset, no event took a packet out of the ring that still counted; otherwise it is too high |
| Exactness.OverwriteForgets | app/src/main/cpp/scream_core/ScreamV2Tx.cpp:508-524 | A run of two transmissions, a ring turn apart, after which bytesInFlight is too high |
| Exactness.DropForgets | app/src/main/cpp/scream_core/ScreamV2Tx.cpp:1099-1119 | A run of two transmissions and one acknowledgement in which detectLoss drops a counted packet |
| Lifted.LossesCounted | app/src/main/cpp/scream_core/ScreamV2Tx.cpp:1113-1118 | packetLost grows by the number of different packets detectLoss declares lost |
| Lifted.RunOneFate | app/src/main/cpp/scream_core/ScreamV2Tx.cpp:1099-1185 | Over every run no packet is both delivered and lost, each is counted at most once, and open packets are neither |
| LossTimes.FrameFollowsIff | app/src/main/cpp/scream_core/ScreamV2Tx.cpp:954-959 | The frame clock follows the highest acknowledged timestamp if and only if the step is less than 50000 ticks |
| LossTimes.AgreeStep | app/src/main/cpp/scream_core/ScreamV2Tx.cpp:926-962 | Every step keeps the clocks of the ledger equal to the wrapped times of the acknowledgements |
| LossTimes.RunAgrees | app/src/main/cpp/scream_core/ScreamV2Tx.cpp:926-962 | Over every run timeTxAck is when the last acknowledged packet was sent and, after small steps, timeStampAckHigh the highest acknowledged timestamp |
| LossTimes.LateIff | app/src/main/cpp/scream_core/ScreamV2Tx.cpp:1168-1169 | The 32-bit comparison in unbounded times: past the deadline within one clock cycle, the other way round across two |
| LossTimes.OverdueMeans | app/src/main/cpp/scream_core/ScreamV2Tx.cpp:1168-1169 | Within a cycle: sent more than 1966 ticks, 30 ms, before the last acknowledged packet, lengthened by 65536/90000 ticks for each timestamp tick by which its frame precedes the highest acknowledged one |
| LossTimes.SlotFate | app/src/main/cpp/scream_core/ScreamV2Tx.cpp:1099-1185 | What detectLoss makes of any open packet in the ring: lost behind the loss window, lost if and only if overdue in the scanned stretch, untouched elsewhere |
| LossTimes.ReportLoses | app/src/main/cpp/scream_core/ScreamV2Tx.cpp:705-711 | A report that runs detectLoss declares an open packet up to its number lost if and only if it is overdue by the acknowledgements so far, its own included; otherwise the packet stays |
| LossTimes.RunLoses | app/src/main/cpp/scream_core/ScreamV2Tx.cpp:1078-1185 | The same in every state that a run inside the window reaches |
| LossTimes.FrameClockStuck | app/src/main/cpp/scream_core/ScreamV2Tx.cpp:954-959 | A run of one packet after which the frame clock is still at 0, although frame 90000 is acknowledged |
| Ccfb.ElementRoundTrip | app/src/main/cpp/scream_core/ScreamRx.cpp:198-198 | R bit, ECN bits and offset of a report element are recovered from its 16 bits |
| Ccfb.ElementFormat | app/src/main/cpp/scream_core/ScreamRx.cpp:198-198 | R bit, two ECN bits and 13 bits of offset, from the highest bit down; all zero when not received |
| Ccfb.BlockFormat | app/src/main/cpp/scream_core/ScreamRx.cpp:147-222 | The octets of a block, field by field in network order, with the padding |
| Ccfb.MessageFormat | app/src/main/cpp/scream_core/ScreamRx.cpp:468-525 | The octets of a message, field by field: version and format, packet type, length in words, reporter, blocks, timestamp |
| Ccfb.BlockRoundTrip | app/src/main/cpp/scream_core/ScreamRx.cpp:147-222 | A printed block, odd-count padding included, parses to itself |
| Ccfb.BlocksRoundTrip | app/src/main/cpp/scream_core/ScreamV2Tx.cpp:594-679 | A sequence of printed blocks parses to itself, and reading stops where it ends |
| Ccfb.Layout | app/src/main/cpp/scream_core/ScreamRx.cpp:511-525 | Length field, blocks and timestamp are where the reader looks for them |
| Ccfb.RoundTrip | app/src/main/cpp/scream_core/ScreamV2Tx.cpp:564-594 | Parsing a printed message finds its timestamp and exactly its blocks; the message has 4 * (words + 3) octets |
| Ccfb.PrintInjective | app/src/main/cpp/scream_core/ScreamRx.cpp:468-525 | Two different messages never look the same on the wire |
| RxHistory.NewerIff | app/src/main/cpp/scream_core/ScreamRx.cpp:117-135 | The 16-bit comparison agrees with unbounded order within 16384, and beyond that exactly when the two numbers lie in different 65536-cycles |
| RxHistory.ReceiveRemembers | app/src/main/cpp/scream_core/ScreamRx.cpp:67-84 | A received packet enters the history; the first-packet preset leaves no false entry |
| RxHistory.ReceiveHighest | app/src/main/cpp/scream_core/ScreamRx.cpp:117-135 | highestSeqNr follows the true maximum |
| RxHistory.RunRemembers | app/src/main/cpp/scream_core/ScreamRx.cpp:69-135 | Over every run the history is exact, and while arrivals stay within 16384 of the maximum, highestSeqNr is the true maximum modulo 65536, from any first number and through any number of wraps |
| RxHistory.ElementExact | app/src/main/cpp/scream_core/ScreamRx.cpp:189-213 | A report element has its R bit set if and only if the last packet written to its slot carried that number at a non-zero time, and then it has that packet's ECN bits and capped age |
| RxHistory.ReconstructedTime | app/src/main/cpp/scream_core/ScreamV2Tx.cpp:659-660 | The reconstructed arrival time is 0 to 63 ticks late if and only if the report was made less than 8191*64 ticks after the arrival |
| RxHistory.NextTxAgrees | app/src/main/cpp/scream_core/ScreamRx.cpp:154-168 | The 16- and 32-bit arithmetic of the report range, in unbounded numbers |
| RxHistory.GapFreeIff | app/src/main/cpp/scream_core/ScreamRx.cpp:154-187 | A block ends where the code says, and has an element for every number after the last reported one if and only if no more than a block is outstanding across a 16-bit wrap |
| RxHistory.RunGapFree | app/src/main/cpp/scream_core/ScreamRx.cpp:138-230 | Over every run without such a wrap crossing, every number up to the last reported one has its element in one of the blocks the run made |
| RxHistory.BlockLifted | app/src/main/cpp/scream_core/ScreamRx.cpp:154-187 | First and last number and length of a block, in unbounded numbers |
| RxStreams.RxStream.ReceivePacket | app/src/main/cpp/scream_core/ScreamRx.cpp:62-135 | In place: the three history arrays and the stream fields become the specified reception of the old state |
| RxStreams.RxStream.AdvanceTx | app/src/main/cpp/scream_core/ScreamRx.cpp:154-168 | In place: how far this report goes |
| RxStreams.RxStream.ElementFor | app/src/main/cpp/scream_core/ScreamRx.cpp:190-198 | The report element for one number |
| RxStreams.RxStream.WriteElements | app/src/main/cpp/scream_core/ScreamRx.cpp:189-213 | The octets written are the elements in network order, nothing else in the buffer changes |
| RxStreams.RxStream.GetStandardizedFeedback | app/src/main/cpp/scream_core/ScreamRx.cpp:138-230 | In place: the octets written are exactly the printed report block, and the stream is marked as reported |
| RxSchedule.SearchStep | app/src/main/cpp/scream_core/ScreamRx.cpp:488-500 | One round of the stream search, with its side effect on doFlush |
| RxSchedule.FlagLostIff | app/src/main/cpp/scream_core/ScreamRx.cpp:488-500 | A waiting stream loses its flush flag in the search if and only if every due stream before it has had feedback more recently, picked or not |
| RxSchedule.OvertakenLosesFlush | app/src/main/cpp/scream_core/ScreamRx.cpp:488-500 | Two due streams of which the first loses its flag without being reported |
| RxSchedule.BestIsOldest | app/src/main/cpp/scream_core/ScreamRx.cpp:486-500 | No due stream is overlooked, and none is passed over for one with more recent feedback |
| RxSchedule.SearchedInVain | app/src/main/cpp/scream_core/ScreamRx.cpp:501-502 | A search that finds nothing changes nothing |
| RxSchedule.DeliveredTo | app/src/main/cpp/scream_core/ScreamRx.cpp:426-438 | A packet of a known SSRC goes to the first stream with that SSRC only |
| RxSchedule.DeliveredNew | app/src/main/cpp/scream_core/ScreamRx.cpp:442-445 | A packet of a new SSRC opens a stream |
| RxSchedule.EmitSize | app/src/main/cpp/scream_core/ScreamRx.cpp:481-510 | Only the last block may take a message past 900 octets |
| RxSchedule.DueIff | app/src/main/cpp/scream_core/ScreamRx.cpp:489-495 | When a stream is due, by what arrived since its last report and the time that passed: 16 packets or ackDiff, a marked one, any one if the call is for a marker, more than the interval, or numbers left over |
| RxSchedule.MessageIff | app/src/main/cpp/scream_core/ScreamRx.cpp:481-515 | A call makes a message if and only if some stream has such a reason |
| RxSchedule.FirstMessageIff | app/src/main/cpp/scream_core/ScreamRx.cpp:481-515 | The same for a stream that has not reported yet, whose clock starts at 0 |
| RxSchedule.DefaultMessageSize | app/src/main/cpp/scream_core/ScreamRx.cpp:481-525 | With 32 reports a message is a multiple of 4 octets and at most 948 |
| RxSchedule.Drains | app/src/main/cpp/scream_core/ScreamRx.cpp:481-510 | One call that finds the only stream due reports it without a gap until it has caught up, as far as the message has room |
| RxSchedule.DefaultDrains | app/src/main/cpp/scream_core/ScreamRx.cpp:481-510 | One triggered call drains any span of up to 13*32 numbers within one 16-bit cycle |
| RxSchedule.FallsBehind | app/src/main/cpp/scream_core/ScreamRx.cpp:481-510 | A stream further behind than one message can tell fills the message with contiguous blocks and keeps its flush flag |
| RxSchedule.ReceivedButSkipped | app/src/main/cpp/scream_core/ScreamRx.cpp:154-168 | Two arrivals 50 numbers apart across the wrap: the message after the first has 13 blocks, the one after the second a single block that catches up, and none of them has an element for the first packet |
| RxSession.ScreamRx.ReceivePacket | app/src/main/cpp/scream_core/ScreamRx.cpp:410-445 | In place: the feedback interval becomes 40 ms after the first 100 ms, and the packet is delivered to the stream of its SSRC, or to a new one |
| RxSession.ScreamRx.FindStream | app/src/main/cpp/scream_core/ScreamRx.cpp:486-500 | The search loop computes the specified choice and side effect |
| RxSession.ScreamRx.WriteBlocks | app/src/main/cpp/scream_core/ScreamRx.cpp:481-510 | The block loop terminates and writes the printed blocks of the specified schedule |
| RxSession.ScreamRx.CreateStandardizedFeedback | app/src/main/cpp/scream_core/ScreamRx.cpp:464-533 | The octets are the printed message of exactly the scheduled blocks and the timestamp; no message if no stream is due |
| SenderFeedback.RejectedIff | app/src/main/cpp/scream_core/ScreamV2Tx.cpp:623-636 | A block is rejected as old if and only if number and transmission time of the acknowledged edge are not 0 and the block ends 513 to 535 behind it; one that lags further passes for new |
| SenderFeedback.OldBlockTakesEdgeBack | app/src/main/cpp/scream_core/ScreamV2Tx.cpp:623-663 | A run and a printed message, 600 behind, that takes the acknowledged edge back from 1000 to 400 |
| SenderFeedback.FeedbackKeepsAccount | app/src/main/cpp/scream_core/ScreamV2Tx.cpp:594-682 | Feedback keeps the account, never raises bytesInFlight, and leaves it non-negative |
| SenderFeedback.ReadElements | app/src/main/cpp/scream_core/ScreamV2Tx.cpp:641-663 | The element loop carries out the ledger events of the received elements |
| SenderFeedback.ReadBlock | app/src/main/cpp/scream_core/ScreamV2Tx.cpp:598-680 | One block: stop at a foreign or too old block, otherwise read it and skip its padding |
| SenderFeedback.IncomingStandardizedFeedback | app/src/main/cpp/scream_core/ScreamV2Tx.cpp:559-682 | Reading a datagram whose blocks lie within it runs exactly the ledger events of its parse |
| EndToEnd.SettlesThatPacket | app/src/main/cpp/scream_core/ScreamV2Tx.cpp:926-936 | The slot a report settles holds the very packet the report is about, if it is less than a cycle old |
| EndToEnd.ReportAccepted | app/src/main/cpp/scream_core/ScreamV2Tx.cpp:926-963 | One report element backed by the history yields at most one acknowledgement, and an accurate one |
| EndToEnd.RunAccepted | app/src/main/cpp/scream_core/ScreamV2Tx.cpp:641-661 | A run of backed reports acknowledges accurately, and takes an acknowledgement for every packet it newly marks |
| EndToEnd.FeedbackBacked | app/src/main/cpp/scream_core/ScreamV2Tx.cpp:641-661 | Reading a truthful message yields backed reports only, wherever reading stops |
| EndToEnd.MadeTruthful | app/src/main/cpp/scream_core/ScreamRx.cpp:464-533 | Every message the receiver makes, as octets, is truthful about its history |
| EndToEnd.NextSound | app/src/main/cpp/scream_core/ScreamV2Tx.cpp:559-682 | Every step of the system keeps soundness: transmission, arrival in any order and number, feedback made, feedback arriving late, repeated or never, time-outs, rate updates |
| EndToEnd.ReachableSound | app/src/main/cpp/scream_core/ScreamV2Tx.cpp:559-682 | Every reachable state is sound |
| EndToEnd.AcknowledgementSoundness | app/src/main/cpp/scream_core/ScreamV2Tx.cpp:926-963 | In every reachable state each packet marked as acknowledged has a record, there is one record for each acknowledgement taken, and each agrees with the arrival that the receiver's history held when the report was made: it is of that packet, has its ECN bits and its arrival time as reconstructed, which is 0 to 63 ticks late if and only if the report was made less than 8191*64 ticks after that arrival |
| Progress.HigherStays | app/src/main/cpp/scream_core/ScreamV2Tx.cpp:1125-1186 | A report inside the window leaves every open packet with a higher number alone: detectLoss neither drops nor scans its slot |
| Progress.BlockProgress | app/src/main/cpp/scream_core/ScreamV2Tx.cpp:641-663 | A block inside the window settles every open packet that it reports as received, frame ends on the way included |
| Progress.MessageAgrees | app/src/main/cpp/scream_core/ScreamV2Tx.cpp:594-682 | No block of a message inside the window is rejected, and reading it in unbounded numbers is what the sender does |
| Progress.MessageProgress | app/src/main/cpp/scream_core/ScreamV2Tx.cpp:594-682 | A message inside the window settles every open packet that it reports as received where it first comes to its number |
| Progress.EmitChain | app/src/main/cpp/scream_core/ScreamRx.cpp:481-510 | The blocks of any message come to every number after the last reported one, whether they catch up or the message is full before, unless more than a block is outstanding across a wrap |
| Progress.ChainTells | app/src/main/cpp/scream_core/ScreamRx.cpp:189-213 | Where such blocks first come to a number, they report it as received if its history entry is intact |
| Progress.NextOneFate | app/src/main/cpp/scream_core/ScreamV2Tx.cpp:559-682 | Every such step keeps the delivered numbers in step with the acknowledgements the ledger took |
| Progress.NextOnTrack | app/src/main/cpp/scream_core/ScreamV2Tx.cpp:559-682 | Transmissions, arrivals, messages made, messages read in order, time-outs and rate updates keep the invariant |
| Progress.RunProgress | app/src/main/cpp/scream_core/ScreamV2Tx.cpp:559-682 | Over every run inside the window with feedback in order: each packet that is still live, and that the history had when the message was made that first came to its number, is acknowledged as soon as that message has been read; there is one acknowledgement for each delivered packet, and none of them is open or lost |
| BaseDelay.MinOfConcat | app/src/main/cpp/scream_core/ScreamV2Tx.cpp:1992-1993 | The minimum over periods is the minimum of the per-period minima |
| BaseDelay.RingMinimum | app/src/main/cpp/scream_core/ScreamV2Tx.cpp:1991-1993 | The minimum over the 50-slot ring is the minimum over the samples of the last 50 closed periods |
| BaseDelay.RingTurn | app/src/main/cpp/scream_core/ScreamV2Tx.cpp:1987-1988 | Closing a period turns the ring and keeps it in step with the sample log |
| BaseDelay.SampleCounts | app/src/main/cpp/scream_core/ScreamV2Tx.cpp:1949-1949 | The newest sample is among the recent ones, so the base never exceeds it |
| BaseDelay.RecentSamplesCount | app/src/main/cpp/scream_core/ScreamV2Tx.cpp:1948-2010 | Over every sequence of samples, each sample counts for at least 500 s: the base never exceeds it |
| BaseDelay.BaseDelayCache.GetBaseOwd | app/src/main/cpp/scream_core/ScreamV2Tx.cpp:2008-2010 | The two-level cache returns the plain minimum of all samples of the open and the last 50 closed periods since the last reset |
| BaseDelay.BaseDelayCache.EstimateOwd | app/src/main/cpp/scream_core/ScreamV2Tx.cpp:1948-2003 | In place: the sample joins the log, and the period closes after 10 s |
| BaseDelay.BaseDelayCache.RingMin | app/src/main/cpp/scream_core/ScreamV2Tx.cpp:1991-1993 | The refresh loop computes the ring minimum |
| BaseDelay.BaseDelayCache.Reset | app/src/main/cpp/scream_core/ScreamV2Tx.cpp:1009-1013 | A reset forgets every sample |
| BaseDelay.BaseDelayCache.OnAcked | app/src/main/cpp/scream_core/ScreamV2Tx.cpp:963-1020 | With drift compensation off the queue delay is the sample minus the base and never underflows; the history is reset only for a delay above 0xFFFF0000 |
| BaseDelay.BaseDelayCache.LimitRate | app/src/main/cpp/scream_core/ScreamV2Tx.cpp:1197-1229 | The standing-queue guard halves the rate for a while, then resets the history once |
| RateAllocation.RaiseTotals | app/src/main/cpp/scream_core/ScreamV2Tx.cpp:1918-1924 | The first pass hands out exactly the rate, in proportion to the priorities |
| RateAllocation.TrimTotals | app/src/main/cpp/scream_core/ScreamV2Tx.cpp:1929-1939 | The second pass takes back exactly the excess over the caps, and if there is any, fewer streams take part afterwards |
| RateAllocation.RoundFills | app/src/main/cpp/scream_core/ScreamV2Tx.cpp:1914-1940 | One round keeps share = min(cap, level * priority), conserves the rate, and strictly reduces the streams taking part if it repeats |
| RateAllocation.MaxMinFair | app/src/main/cpp/scream_core/ScreamV2Tx.cpp:1902-1940 | Weighted max-min fairness: any other allocation of no more rate within the caps that gives a stream more takes from one that has no more per unit of priority |
| RateAllocation.LevelUnique | app/src/main/cpp/scream_core/ScreamV2Tx.cpp:1902-1940 | Two levels with the same total give the same shares |
| RateAllocation.RaisePass | app/src/main/cpp/scream_core/ScreamV2Tx.cpp:1918-1924 | The first loop in place |
| RateAllocation.TrimPass | app/src/main/cpp/scream_core/ScreamV2Tx.cpp:1929-1939 | The second loop in place, with the surplus and the remaining priority sum |
| RateAllocation.ClearShares | app/src/main/cpp/scream_core/ScreamV2Tx.cpp:1902-1908 | All shares are cleared and the active priorities added up |
| RateAllocation.AllocateRates | app/src/main/cpp/scream_core/ScreamV2Tx.cpp:1898-1940 | The loop ends; shares + rateLeft is the initial rate; all active shares stand at one level or at their lower cap; with priorities above 0.01 at most 1 bps is left unless every active stream is at its cap |
| WindowMath.NextAlpha | app/src/main/cpp/scream_core/ScreamV2Tx.cpp:769-776 | The marking average moves toward the fraction without passing it, or decays, and stays in [0,1] |
| WindowMath.NextAlphaIs | app/src/main/cpp/scream_core/ScreamV2Tx.cpp:769-776 | One step leaves 7/8 of the gap to a higher fraction, or 127/128 of the average |
| WindowMath.AlphaRises | app/src/main/cpp/scream_core/ScreamV2Tx.cpp:769-776 | Over k intervals of one fraction the gap shrinks to (7/8)^k of itself |
| WindowMath.AlphaDecays | app/src/main/cpp/scream_core/ScreamV2Tx.cpp:769-776 | Over k unmarked intervals the average shrinks to (127/128)^k of itself |
| WindowMath.NextDensity | app/src/main/cpp/scream_core/ScreamV2Tx.cpp:730-733 | The CE density stays in [1/4,1], and moves toward 15/16 on a CE mark |
| WindowMath.NextDensityIs | app/src/main/cpp/scream_core/ScreamV2Tx.cpp:730-733 | A marked block closes a sixteenth of the gap to 15/16, another takes a sixteenth off, down to a quarter |
| WindowMath.VirtualAlpha | app/src/main/cpp/scream_core/ScreamV2Tx.cpp:845-849 | The delay-based marking fraction stays in [0,1] and is 0 up to half the target |
| WindowMath.VirtualAlphaIs | app/src/main/cpp/scream_core/ScreamV2Tx.cpp:845-849 | The fraction rises linearly from 0 at half the target to 1 at the target, spread over round trips longer than 30 ms |
| WindowMath.Closeness | app/src/main/cpp/scream_core/ScreamV2Tx.cpp:1659-1663 | The scale factor near the inflexion point is in [0.1,1] and 0.1 at the point |
| WindowMath.ClosenessIs | app/src/main/cpp/scream_core/ScreamV2Tx.cpp:1659-1663 | The scale factor is the square of eight times the relative distance from the inflexion point, between 0.1 and 1 |
| WindowMath.DelayToleranceIs | app/src/main/cpp/scream_core/ScreamV2Tx.cpp:1641-1641 | The tolerance is 100 ms less the packet share of the window, at least 50 ms |
| WindowMath.Headroom | app/src/main/cpp/scream_core/ScreamV2Tx.cpp:1650-1653 | The window headroom stays between 1.5 and its maximum, with both ends reached |
| WindowMath.HeadroomIs | app/src/main/cpp/scream_core/ScreamV2Tx.cpp:1650-1653 | In between the headroom falls linearly with the deviation |
| WindowMath.L4sBackOff | app/src/main/cpp/scream_core/ScreamV2Tx.cpp:1718-1746 | The L4S back-off is between 0 and half the marking average |
| WindowMath.L4sBackOffIs | app/src/main/cpp/scream_core/ScreamV2Tx.cpp:1718-1746 | With a standing queue the back-off is the plain one; otherwise it is scaled near the inflexion point and by what is left of the delay tolerance, to no less than a sixteenth |
| WindowMath.L4sBackOffGrows | app/src/main/cpp/scream_core/ScreamV2Tx.cpp:1718-1746 | More marking never backs off less |
| WindowMath.PlainBackOffIs | app/src/main/cpp/scream_core/ScreamV2Tx.cpp:1718-1730 | Half the average on round trips up to 30 ms; on longer ones the back-offs of one round trip add up to it |
| WindowMath.ScaledLowers | app/src/main/cpp/scream_core/ScreamV2Tx.cpp:1763-1763 | A back-off of at least b leaves at most (1 - b) of the window, or the minimum |
| WindowMath.VirtualBackOff | app/src/main/cpp/scream_core/ScreamV2Tx.cpp:1775-1787 | The delay-based back-off is between 0 and half the virtual average |
| WindowMath.VirtualBackOffIs | app/src/main/cpp/scream_core/ScreamV2Tx.cpp:1775-1787 | The delay-based back-off is the plain one |
| WindowMath.ScaledBounds | app/src/main/cpp/scream_core/ScreamV2Tx.cpp:1684-1684 | A factor in [1/2,1] takes the window no lower than max(cwndMin, floor(cwnd/2)) and never up, truncation included |
| WindowMath.IncrementBounds | app/src/main/cpp/scream_core/ScreamV2Tx.cpp:1813-1846 | The increment is at most (acked - CE) * (mss/cwnd + factor), and at least that when CE marked bytes exceed acknowledged ones |
| WindowMath.LimitedIs | app/src/main/cpp/scream_core/ScreamV2Tx.cpp:1818-1834 | The three limits of the increment and their ranges |
| WindowMath.GrowthIs | app/src/main/cpp/scream_core/ScreamV2Tx.cpp:1836-1846 | The multiplicative part, in proportion to the time since congestion and the distance from the inflexion point |
| WindowMath.IncrementPerRound | app/src/main/cpp/scream_core/ScreamV2Tx.cpp:1813-1846 | Without congestion for long and far from the inflexion point, a window acknowledged in full grows by one packet and the configured fraction of itself |
| WindowMath.IncrementAtLeast | app/src/main/cpp/scream_core/ScreamV2Tx.cpp:1813-1846 | On round trips of 25 ms and more the increment is, up or down, at least a fortieth of the acknowledged less CE marked bytes, per byte of window in packets |
| WindowMath.Median | app/src/main/cpp/scream_core/ScreamV2Tx.cpp:1415-1425 | At least two of three values are no larger and at least two no smaller |
| WindowControl.MiddleIsMedian | app/src/main/cpp/scream_core/ScreamV2Tx.cpp:1425-1425 | The middle of the sorted history is the median |
| WindowControl.SettledStep | app/src/main/cpp/scream_core/ScreamV2Tx.cpp:1416-1422 | One comparison of the exchange sort |
| WindowControl.SortInPlace | app/src/main/cpp/scream_core/ScreamV2Tx.cpp:1415-1423 | The exchange sort sorts in place and keeps the entries |
| WindowControl.GrownBounds | app/src/main/cpp/scream_core/ScreamV2Tx.cpp:1855-1855 | Rounding the increment adds at most one half |
| WindowControl.GrownFalls | app/src/main/cpp/scream_core/ScreamV2Tx.cpp:1855-1855 | The rounded increment takes a window down if and only if it is at most -1.5 |
| WindowControl.ThreeInflexions | app/src/main/cpp/scream_core/ScreamV2Tx.cpp:1402-1426 | After a calm, three times of congestion make the inflexion point the median of the three windows |
| WindowControl.PostCongestionIs | app/src/main/cpp/scream_core/ScreamV2Tx.cpp:1437-1441 | The time since congestion as a fraction of 200 round trips |
| WindowControl.WindowControl.constructor | app/src/main/cpp/scream_core/ScreamV2Tx.cpp:161-267 | The initial state satisfies every range invariant if and only if the given window is 0 or holds two packets; the first transmission or media frame mends it otherwise |
| WindowControl.WindowControl.Initialize | app/src/main/cpp/scream_core/ScreamV2Tx.cpp:1338-1358 | The first call starts the clocks of losses, slow updates and marking |
| WindowControl.WindowControl.AddTransmitted | app/src/main/cpp/scream_core/ScreamV2Tx.cpp:542-544 | mss, cwndMin and cwnd after a transmission; cwnd >= cwndMin >= 2*getMss() |
| WindowControl.WindowControl.NewMediaFrame | app/src/main/cpp/scream_core/ScreamV2Tx.cpp:377-380 | The same after a new media frame |
| WindowControl.WindowControl.ResetMss | app/src/main/cpp/scream_core/ScreamV2Tx.cpp:437-440 | The same after the MSS reset, with three packets |
| WindowControl.WindowControl.CountAcked | app/src/main/cpp/scream_core/ScreamV2Tx.cpp:936-952 | Delivered and marked counters; marked never exceeds delivered |
| WindowControl.WindowControl.CountPassed | app/src/main/cpp/scream_core/ScreamV2Tx.cpp:1152-1153 | Bytes behind the received edge count as acknowledged |
| WindowControl.WindowControl.NoteInFlight | app/src/main/cpp/scream_core/ScreamV2Tx.cpp:698-698 | maxBytesInFlight |
| WindowControl.WindowControl.RaiseLoss | app/src/main/cpp/scream_core/ScreamV2Tx.cpp:1104-1106 | A loss raises an event if the last one is more than a round trip ago and the loss factor is below 1 |
| WindowControl.WindowControl.CountElement | app/src/main/cpp/scream_core/ScreamV2Tx.cpp:696-711 | What one report element adds to every counter of the window |
| WindowControl.WindowControl.UpdateAlpha | app/src/main/cpp/scream_core/ScreamV2Tx.cpp:744-784 | The average after one interval is exact; all-marked intervals reset the CE density, unmarked ones never raise the average |
| WindowControl.WindowControl.UpdateMarking | app/src/main/cpp/scream_core/ScreamV2Tx.cpp:722-788 | The exact averages after a block, every one of them a fraction |
| WindowControl.WindowControl.CountBlock | app/src/main/cpp/scream_core/ScreamV2Tx.cpp:713-863 | Averages and events of a block: the exact averages, and what is pending afterwards as a function of the state before |
| WindowControl.WindowControl.RaiseEvents | app/src/main/cpp/scream_core/ScreamV2Tx.cpp:714-863 | The exact events after a block, with the average of a standing queue and the clock of events |
| WindowControl.WindowControl.PendingIsReaction | app/src/main/cpp/scream_core/ScreamV2Tx.cpp:713-863 | With no event left from before, what is pending after a block is the reaction of CongestionEvents |
| CongestionEvents.ReactionIff | app/src/main/cpp/scream_core/ScreamV2Tx.cpp:713-863 | In unbounded times: a block causes a reaction if and only if packets were lost, or it comes more than 30 ms or one round trip after the last event with CE marks (unless the round trip falls with everything marked) or, without marks, with a standing queue |
| CongestionEvents.AlarmsAnswered | app/src/main/cpp/scream_core/ScreamV2Tx.cpp:713-863 | Over every run, blocks that far apart with marks or a standing queue each cause their reaction |
| CongestionEvents.ReactionsLimited | app/src/main/cpp/scream_core/ScreamV2Tx.cpp:713-863 | Over every run, any span of time has at most span / p reactions, losses included, where p is 30 ms or the shortest round trip |
| WindowControl.WindowControl.UpdateCwndI | app/src/main/cpp/scream_core/ScreamV2Tx.cpp:1402-1426 | The history takes the window, and the inflexion point is its median |
| WindowControl.WindowControl.SlowUpdate | app/src/main/cpp/scream_core/ScreamV2Tx.cpp:1573-1621 | Every 50 ms: the exact window after the limit near the maximum rate, which leaves at least one byte exactly under RoomAtLimit, and the ring of bytes in flight |
| WindowControl.WindowControl.RateWindowIs | app/src/main/cpp/scream_core/ScreamV2Tx.cpp:1594-1596 | The window that the maximum rate needs is its bytes of one round trip and one millisecond, rounded down |
| WindowControl.WindowControl.ReactToLoss | app/src/main/cpp/scream_core/ScreamV2Tx.cpp:1674-1690 | The exact window after a loss: at least max(cwndMin, floor(cwnd/2)) for a factor of at least 1/2, never up; and what becomes of the history of inflexion points |
| WindowControl.WindowControl.NoteInflexion | app/src/main/cpp/scream_core/ScreamV2Tx.cpp:1695-1709 | The window enters the history and moves the inflexion point; after a calm of five round trips it fills the history; nothing changes before one round trip has passed |
| WindowControl.WindowControl.ScaleWindow | app/src/main/cpp/scream_core/ScreamV2Tx.cpp:1684-1684 | The window scaled by a factor; for a factor in [1/2,1] at least max(cwndMin, floor(cwnd/2)) and never up |
| WindowControl.WindowControl.ReactAndGrow | app/src/main/cpp/scream_core/ScreamV2Tx.cpp:1673-1859 | The reaction within its bounds, then the exact window after the growth, from the window and ratio at the start; it is below the reaction if and only if the increment is at most -1.5 and applies |
| WindowControl.WindowControl.MarkFactor | app/src/main/cpp/scream_core/ScreamV2Tx.cpp:1713-1789 | The factor is 1 minus at most half the average, or the configured classic factor |
| WindowControl.WindowControl.LongCalmIs | app/src/main/cpp/scream_core/ScreamV2Tx.cpp:1748-1748 | A long calm is more than 100 round trips and more than two and a half seconds |
| WindowControl.WindowControl.ReactedIsReduced | app/src/main/cpp/scream_core/ScreamV2Tx.cpp:1673-1798 | The window after a reaction: scaled by the configured factor after a loss or a classic mark, by the plain back-off on a standing queue, and after L4S marks by at least a sixteenth of it, all of it if the queue delay is a quarter of the target |
| WindowControl.WindowControl.ReactToMarks | app/src/main/cpp/scream_core/ScreamV2Tx.cpp:1691-1798 | The window after CE marks: the same bounds, from the window after the explicit limit at line 1756; and what becomes of the history |
| WindowControl.WindowControl.React | app/src/main/cpp/scream_core/ScreamV2Tx.cpp:1673-1798 | Loss first, then marks; without either nothing changes |
| WindowControl.WindowControl.Grow | app/src/main/cpp/scream_core/ScreamV2Tx.cpp:1809-1859 | Growth is at most surplus * (mss/cwnd + factor) + 1/2 and never past maxAllowed; the window falls if and only if the increment is at most -1.5 and applies, and ends at cwndMin or above |
| WindowControl.WindowControl.UpdateCwnd | app/src/main/cpp/scream_core/ScreamV2Tx.cpp:1431-1866 | One update: exact limit, exact start of the reaction (what was in flight only for an L4S CE event after 100 round trips), exact reaction and what it takes off at least, exact growth, histories, headroom and growth scale; the window falls below the reaction if and only if the increment is at most -1.5 and applies; all range invariants kept |
| WindowControl.WindowControl.IncomingLast | app/src/main/cpp/scream_core/ScreamV2Tx.cpp:713-887 | The last element of a block: exact averages, the reaction as a function of the state before, and a window update if and only if 30 ms or one round trip have passed, there is a reaction, or a frame is new; its limit, reduction, growth and aftermath; no event is left afterwards |
| WindowControl.WindowControl.UpdateWhenDue | app/src/main/cpp/scream_core/ScreamV2Tx.cpp:865-886 | The window is updated if and only if more than 30 ms or one round trip, whichever is less, have passed since the last time, or there is congestion or a new frame |
| Surplus.DetectCredits | app/src/main/cpp/scream_core/ScreamV2Tx.cpp:1152-1160 | detectLoss credits exactly the bytes of the counted packets that it takes behind the received edge |
| Surplus.SlotsBalance | app/src/main/cpp/scream_core/ScreamV2Tx.cpp:1099-1186 | What detectLoss does to the bytes credited, owed, prepaid, lost and forgotten |
| Surplus.DetectBalanced | app/src/main/cpp/scream_core/ScreamV2Tx.cpp:1099-1186 | detectLoss keeps credited - acknowledged = prepaid - owed + lost - forgotten |
| Surplus.AckBalanced | app/src/main/cpp/scream_core/ScreamV2Tx.cpp:926-962 | So does markAcked, before or after the received edge has passed the packet |
| Surplus.StepBalanced | app/src/main/cpp/scream_core/ScreamV2Tx.cpp:473-1186 | So does every event, and the totals only grow |
| Surplus.RunBalanced | app/src/main/cpp/scream_core/ScreamV2Tx.cpp:473-1186 | Over every run: bytes credited less bytes acknowledged are what is prepaid (credited, not yet acknowledged), less what is owed, plus what was lost, less what was forgotten |
| Surplus.SurplusBetween | app/src/main/cpp/scream_core/ScreamV2Tx.cpp:473-1186 | Between any two times of any run: credited less CE marked bytes, exactly; they fall below zero by no more than what was prepaid at the first time, is owed at the second, or was forgotten in between |
| Senders.SurplusSince | app/src/main/cpp/scream_core/ScreamV2Tx.cpp:1814-1815 | The same for the counters that the window is updated from, since the last update |
| Senders.KeptReported | app/src/main/cpp/scream_core/ScreamV2Tx.cpp:696-711 | A report element adds to the two counters what it adds to the books |
| Senders.Sender.constructor | app/src/main/cpp/scream_core/ScreamV2Tx.cpp:161-267 | A sender as the controller sets it up: empty books, counters at zero, a window of two initial packets |
| Senders.Sender.NewMediaFrame | app/src/main/cpp/scream_core/ScreamV2Tx.cpp:339-380 | A marker announces a new frame, and the window makes room |
| Senders.Sender.SmallFlightAdmitted | app/src/main/cpp/scream_core/ScreamV2Tx.cpp:451-489 | On the real window and ledger: with four packets or less in flight only pacing delays a packet |
| Senders.Sender.Send | app/src/main/cpp/scream_core/ScreamV2Tx.cpp:451-544 | A packet is sent if and only if the gate is open; ledger, books and window after it |
| Senders.Sender.CountElement | app/src/main/cpp/scream_core/ScreamV2Tx.cpp:696-711 | Ledger, books and counters after one element: what is credited and what is CE marked are those of the ledger step |
| Senders.Sender.FinishBlock | app/src/main/cpp/scream_core/ScreamV2Tx.cpp:713-887 | The end of a block: the reaction to it by CongestionEvents, when the window is updated, from which counters and with what aftermath, and that the counters then start again |
| Senders.Sender.ReportElement | app/src/main/cpp/scream_core/ScreamV2Tx.cpp:687-887 | One report element as a whole: the window is updated from exactly the bytes the ledger credited and those reported as CE marked since the last update |
| LateMarks.EdgePasses | app/src/main/cpp/scream_core/ScreamV2Tx.cpp:1125-1186 | The report of the fourth packet alone credits all four |
| LateMarks.FallsBelow | app/src/main/cpp/scream_core/ScreamV2Tx.cpp:1814-1859 | 3000 CE marked bytes and none acknowledged take a window of up to 4200 bytes down, without congestion |
| LateMarks.LateMarksShrink | app/src/main/cpp/scream_core/ScreamV2Tx.cpp:687-887 | A run of a new sender: four packets sent, the fourth reported, an update, then the other three reported late and CE marked; the window falls without a congestion event |
| RtpQueues.HoldsPush | app/src/main/cpp/scream_core/RtpQueue.cpp:32-51 | The slot after head is free exactly when the queue is not full, and then appending keeps the contiguous segment |
| RtpQueues.HoldsPop | app/src/main/cpp/scream_core/RtpQueue.cpp:59-85 | The tail slot is used exactly when the queue is not empty, holds the oldest packet, and releasing it keeps the segment |
| RtpQueues.RtpQueue.constructor | app/src/main/cpp/scream_core/RtpQueue.cpp:17-28 | The queue starts empty with all counters in step |
| RtpQueues.RtpQueue.Push | app/src/main/cpp/scream_core/RtpQueue.cpp:30-55 | Appends to the FIFO, or refuses exactly when 1024 packets are queued; byte, length and next-size counters stay equal to those of the FIFO |
| RtpQueues.RtpQueue.Pop | app/src/main/cpp/scream_core/RtpQueue.cpp:56-91 | Takes the oldest packet, with the counters kept |
| RtpQueues.RtpQueue.SizeOfQueue | app/src/main/cpp/scream_core/RtpQueue.cpp:128-130 | The cached length is the length of the FIFO |
| RtpQueues.RtpQueue.BytesInQueue | app/src/main/cpp/scream_core/RtpQueue.cpp:124-126 | The cached byte total is the sum of the queued sizes |
| RtpQueues.RtpQueue.SizeOfNextRtp | app/src/main/cpp/scream_core/RtpQueue.cpp:102-104 | The cached size is the front size, -1 when empty |
| RtpQueues.RtpQueue.GetDelay | app/src/main/cpp/scream_core/RtpQueue.cpp:132-139 | The age of the oldest packet |
| RtpQueues.OwnedPop | app/src/main/cpp/scream_core/RtpQueue.cpp:160-168 | Taking the front packet leaves the other buffers owned, and its own buffer named by no other packet |
| RtpQueues.RtpQueue.Clear | app/src/main/cpp/scream_core/RtpQueue.cpp:152-170 | Terminates, frees every queued buffer exactly once and no other, and reports how many |
| PacketHeap.Heap.Malloc | app/src/main/cpp/controllers/ScreamController.cpp:69-73 | A fresh buffer, never one allocated before |
| PacketHeap.Heap.Free | app/src/main/cpp/controllers/ScreamController.cpp:15-15 | Only a live buffer can be freed; allocated = freed + live |
| Controller.BalancedPush | app/src/main/cpp/controllers/ScreamController.cpp:69-75 | Queueing a fresh copy keeps one live buffer per queued packet |
| Controller.BalancedPop | app/src/main/cpp/controllers/ScreamController.cpp:99-108 | Dequeueing and freeing keeps one live buffer per queued packet |
| Controller.ScreamController.EnqueueRtp | app/src/main/cpp/controllers/ScreamController.cpp:64-81 | Succeeds if and only if memory is granted and the queue is not full; otherwise nothing stays allocated |
| Controller.ScreamController.DequeueRtp | app/src/main/cpp/controllers/ScreamController.cpp:87-114 | The oldest packet, its bytes cut to the capacity, its buffer freed once |
| Controller.ScreamController.Discard | app/src/main/cpp/scream_core/ScreamV2TxStream.cpp:294-305 | Discarding the queue leaves no buffer allocated |
| CreditScheduler.LeadUndominated | app/src/main/cpp/scream_core/ScreamV2Tx.cpp:2150-2178 | The search by credit finds an eligible stream if there is one, and no stream with at least its credit has waited longer |
| CreditScheduler.FavouriteIsTop | app/src/main/cpp/scream_core/ScreamV2Tx.cpp:2184-2193 | The fallback finds the first non-empty stream of the highest positive priority |
| CreditScheduler.ChosenHasPacket | app/src/main/cpp/scream_core/ScreamV2Tx.cpp:2138-2194 | With two or more streams of positive priority, a stream with a packet is chosen if and only if there is one |
| CreditScheduler.GrantIs | app/src/main/cpp/scream_core/ScreamV2Tx.cpp:2104-2104 | The grant is in proportion to the priorities, rounded down |
| CreditScheduler.CreditKept | app/src/main/cpp/scream_core/ScreamV2Tx.cpp:2099-2133 | Credits never become negative; every granted byte of credit is held or recorded as lost; an idle stream holds at most 10 packets of it |
| CreditScheduler.WinNeedsCredit | app/src/main/cpp/scream_core/ScreamV2Tx.cpp:2158-2171 | Against a stream with credit that waited longer, the other one wins only with more credit |
| CreditScheduler.WaitingLonger | app/src/main/cpp/scream_core/ScreamV2Tx.cpp:2138-2175 | The credit gap closes by at least two with every packet of the other stream |
| CreditScheduler.BoundedWaiting | app/src/main/cpp/scream_core/ScreamV2Tx.cpp:2091-2194 | A continuously backlogged stream is served at least once in every run of two or more transmissions that is at least half the credit difference plus one long |
| CreditScheduler.BoundReached | app/src/main/cpp/scream_core/ScreamV2Tx.cpp:2091-2194 | The bound is sharp: any smaller number of transmissions can all go to the other stream |
| CreditScheduler.GetPrioritizedStream | app/src/main/cpp/scream_core/ScreamV2Tx.cpp:2138-2194 | The two search loops compute the specified choice |
| CreditScheduler.GiveCredit | app/src/main/cpp/scream_core/ScreamV2Tx.cpp:2104-2114 | Credit for one unserved stream in place |
| CreditScheduler.AddCredit | app/src/main/cpp/scream_core/ScreamV2Tx.cpp:2091-2117 | Every unserved stream and no other gets its credit |
| CreditScheduler.Transmitted | app/src/main/cpp/scream_core/ScreamV2Tx.cpp:529-537 | The scheduler state after a transmission |
| TestSessions.TestSession.constructor | app/src/main/cpp/wrapper/TestSession.cpp:113-140 | A session starts in a start state of the step system |
| TestSessions.TestSession.EnqueueOne | app/src/main/cpp/wrapper/TestSession.cpp:185-189 | In place: one packet is generated; its number is used up whether it was queued or not |
| TestSessions.TestSession.NewMediaFrame | app/src/main/cpp/scream_core/ScreamV2Tx.cpp:339-382 | In place: the queue is discarded, or the window makes room for the next packet |
| TestSessions.TestSession.GenerateOne | app/src/main/cpp/wrapper/TestSession.cpp:185-189 | In place: a packet is generated, and only a queued one has further effects |
| TestSessions.TestSession.GenerateFrame | app/src/main/cpp/wrapper/TestSession.cpp:160-194 | The loop ends; the fragments carry the whole frame, fit the packet buffer, exactly the last has the marker, and they are generated in order under consecutive numbers; what else happens on the way only discards the queue or raises the window |
| TestSessions.CutOne | app/src/main/cpp/wrapper/TestSession.cpp:174-191 | One more fragment keeps the frame's bytes and the place of the marker |
| TestSessions.TestSession.AdmitNext | app/src/main/cpp/wrapper/TestSession.cpp:205-216 | In place: the first critical section of pump is the admission step, on the real ledger and queue |
| TestSessions.TestSession.Commit | app/src/main/cpp/wrapper/TestSession.cpp:221-224 | In place: the second critical section is the commit step, followed by room in the window for packets of this size |
| TestSessions.TestSession.IncomingFeedback | app/src/main/cpp/wrapper/TestSession.cpp:254-255 | In place: the feedback section is the feedback step of the parsed datagram, and leaves the pending packet alone |
| TestSessions.TestSession.DiscardQueue | app/src/main/cpp/scream_core/ScreamV2TxStream.cpp:294-305 | In place: the clear step |
| TestSessions.TestSession.NewRatePeriod | app/src/main/cpp/scream_core/ScreamV2TxStream.cpp:146-150 | In place: the rate-period step |
| Session.AdmitSafe | app/src/main/cpp/wrapper/TestSession.cpp:205-213 | Admission takes the oldest packet and leaves room for it within the window gate |
| Session.PumpOne | app/src/main/cpp/wrapper/TestSession.cpp:205-224 | Progress: the oldest packet is taken if and only if the gate lets it through, and the commit sends it |
| Session.FrameBytesIs | app/src/main/cpp/wrapper/TestSession.cpp:169-171 | A frame carries one frame period of the rate, rounded down, unless that is less than a packet |
| Session.CommitSafe | app/src/main/cpp/wrapper/TestSession.cpp:221-224 | A commit leaves bytesInFlight within the limit its admission saw, or at its own size after a time-out, whatever feedback ran in between |
| Session.FeedbackSafe | app/src/main/cpp/wrapper/TestSession.cpp:254-255 | Feedback between the two critical sections keeps every invariant |
| Session.StepSafe | app/src/main/cpp/wrapper/TestSession.cpp:173-255 | Every critical section keeps the invariant |
| Session.RunSafe | app/src/main/cpp/wrapper/TestSession.cpp:196-255 | In every interleaving: conservation holds, every transmission stayed within its gate, and packets are sent in generation order, each at most once |
| EncoderRate.HeldStays | app/src/main/cpp/scream_core/ScreamV2TxStream.cpp:329-337 | targetBitrateH moves exactly when the target leaves [H*(1-h/4), H*(1+h)], and then to the target |
| EncoderRate.TargetServes | app/src/main/cpp/scream_core/ScreamV2TxStream.cpp:324-324 | The target is the share reduced by the factor, or the limit that it passes |
| EncoderRate.TargetNearest | app/src/main/cpp/scream_core/ScreamV2TxStream.cpp:324-324 | No rate within the limits is nearer to what the share asks for |
| EncoderRate.TargetMonotone | app/src/main/cpp/scream_core/ScreamV2TxStream.cpp:324-324 | A larger share never lowers the target |
| EncoderRate.UpdateInBand | app/src/main/cpp/scream_core/ScreamV2TxStream.cpp:324-337 | H stays in [min,max] and the target within the band around it |
| EncoderRate.AnswersInBand | app/src/main/cpp/scream_core/ScreamV2TxStream.cpp:262-273 | Over every run each answer is -1 or a rate in [min,max], and never are two successive answers -1 |
| EncoderRate.LossSignalled | app/src/main/cpp/scream_core/ScreamV2TxStream.cpp:262-273 | A loss is signalled by the next answer if and only if the answer before was not -1; otherwise it is forgotten |
| EncoderRate.RefreshIff | app/src/main/cpp/scream_core/ScreamV2TxStream.cpp:262-273 | From one query to the next the answer is -1 if and only if packets were lost or the queue was discarded in between and the answer before was not -1 |
| EncoderRate.AnswersFollow | app/src/main/cpp/scream_core/ScreamV2TxStream.cpp:262-337 | Over every run, an answer other than -1 has the rate that serves the latest share within its hysteresis band |
| EncoderRate.StreamRate.constructor | app/src/main/cpp/scream_core/ScreamV2TxStream.cpp:33-37 | The initial rates are in range and in the band |
| EncoderRate.StreamRate.GetTargetBitrate | app/src/main/cpp/scream_core/ScreamV2TxStream.cpp:262-273 | In place: answer and flags |
| EncoderRate.StreamRate.UpdateTargetBitrate | app/src/main/cpp/scream_core/ScreamV2TxStream.cpp:324-337 | In place: the target serves the share, and the held rate moves exactly when the target leaves its band |
| EncoderRate.Percentile | app/src/main/cpp/scream_core/ScreamV2TxStream.cpp:231-241 | The loop finds the first histogram bin up to which at least 80 % of the mass lies |

## Left out

- IEEE rounding: rates, factors and delays are exact reals; integer truncation is kept where the code casts to `int`.
- Overflow of 32-bit `int` byte counters: they are unbounded integers; sequence numbers and Q16 clocks do wrap.
- Several registered streams at the sender's ledger: the controller registers one. With more, the time-out reset would clear bytesInFlight for all of them but the ring of one only.
- SenderFeedback.IncomingStandardizedFeedback: the datagram is one whose blocks lie within it (the parse is not None), which holds for everything the receiver prints; malformed input is not modelled.
- EndToEnd.AcknowledgementSoundness: assumes that no entry of the receiver's history behind a message is a whole 65536-packet cycle old when the message arrives; after that, numbers cannot be told apart.
- WindowControl.WindowControl.UpdateCwnd: requires that the limit leaves a window (RoomAtLimit), which SlowUpdate states as the exact condition; otherwise the code divides by zero, and the behaviour from there on is not modelled; round-trip times and the queue delay target are positive, and delay estimates are inputs; `maxTotalBitrate`, the automatic minimum window and switching the adaptive headroom off have no caller.
- Senders.Sender.ReportElement: requires bytes in flight or RoomAtLimit, as UpdateCwnd does; what the delay estimation makes of the element is an input.
- Progress.RunProgress: for transmissions and feedback inside the ring's window, arrivals within 16384 of the highest number, and never more than a block outstanding across a wrap; outside it, AcknowledgementSoundness still holds and ReceivedButSkipped shows what is lost.
- LossTimes.ReportLoses: for deadlines less than 2^32 ticks from the last acknowledged transmission, and steps of the frame clock under 50000 ticks; FrameFollowsIff and LateIff say what happens otherwise.
- CreditScheduler.BoundedWaiting: for two streams; with more, only the choice in each round is characterised.
- TestSessions.TestSession.AdmitNext: what the congestion window is at that moment is an input of the session (NewWindow); the window itself is the WindowControl file. The loop of pump around the two sections, the RTP header and payload octets, the socket calls and the stop flag are left out.
- TestSessions.TestSession.NewMediaFrame: whether the queue is too old, or is drained to refresh the base delay, is an input; the encoder-side averages of newMediaFrame are not modelled.
- TestSessions.TestSession.IncomingFeedback: the datagram parses, as in SenderFeedback.IncomingStandardizedFeedback.
- RxSession.ScreamRx.ReceivePacket: the average received rate, which is only reported, is not modelled.
- EncoderRate.AnswersInBand: for fixed limits and a rate scale of 1, which is how the controller registers its stream.
- The starting value of rateLeft, packet pacing intervals, relaxed pacing, the MSS list, and the reaction of the target rate to the window.
- The delay averages (queueDelayAvg, queueDelayDev, queueDelayMinAvg, smoothed round-trip times): running averages, inputs of the window model.
- Clock-drift compensation (off by default), shared-bottleneck detection (disabled), determineActiveStreams (returns at once).
- Reports about out-of-order packets: no caller; the out-of-order marks have no effect on normal reports.
- The filling and decay of the frame-size histogram, frame period and adaptive pacing scale: only the percentile search is modelled.
- Statistics, logs, the quality index, and plain forwarding methods of the controller and receiver.
- Sockets, ECN ancillary data, clocks, threads, JNI and everything in Kotlin.

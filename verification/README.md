# A verified model of the OpenAirInterface real-time executables

This project models the parts of the OpenAirInterface gNB/eNB executables in which timing, ordering and
serialisation are decided, and proves what they keep:

- the NR L1 transmit pipeline with its two circulating job elements and the reorder thread (`TxPipeline`, `TxSchedule`), on pools with any number of threads (`TxThreads`, `TxOneThread`), exactly when its promises fail (`TxPipelineLimits`, `TxElements`, `TxBypass`, `TxOrder`), and what holds all the same (`TxRecovery`, `TxJobs`);
- the slot clock of `ru_thread`, drift compensation and transmit look-ahead (`SlotClock`, `RuThread`), and the burst flags of `tx_rf` (`TxBurst`);
- the FS6 split between CU and DU: the byte zone and its block chain, the datagram transport, uplink and downlink contents, and the SIMD packing of soft bits (`Fs6Zone`, `Fs6Transport`, `Fs6Receive`, `Fs6Uplink`, `Fs6Link`, `Fs6EndToEnd`, `Fs6Header`, `Fs6Orders`, `Fs6Downlink`, `Fs6DownlinkEnd`, `Fs6Pack`);
- the PRACH noise floor and the eMTC repetition counters (`PrachNoise`, `PrachRepetition`), the latency tables (`LatencyMeas`), the LTE subframe clock shared by CU and DU (`SubframeClock`), the IF4p5 symbol masks (`SymbolMask`), the removal of UEs (`RntiRemoval`);
- the X2 handover state machine of the log analyser (`X2Handover`).

Code that changes state step by step is modelled by classes and methods with loops, each proved against a
specification function or a relation; the properties are then lemmas about the latter. The concurrent pipeline
is a step relation (`TxPipeline.Exec`) over all interleavings, and its results hold for every run.
`dafny verify dfyconfig.toml` checks the project.

Inputs of the model: device timestamps, datagrams and log lines are sequences given to the methods; clocks,
energies and PRACH masks are parameters. A file that is not named in the table is not part of this model.

## Findings

The proofs show where the code does not do what it seems meant to do. Each entry names the lemmas that give the exact
condition.

- All runs of the transmit pipeline send in the order of issue exactly if the pool has one thread, or transmission is
  continuous and the first slot is not downlink (`TxOrder.SendsInOrderExactly`): otherwise the second job can be found
  first, and what follows depends on that first pull alone (`TxOrder.StartsInOrderExactly`,
  `TxPipeline.InOrderExactly`). After such a start one of the two elements can be lost for good exactly if, besides, at
  least three slots of a frame are transmitted (`TxOrder.CanLoseExactly`). The source asks for two threads or more.
  At most one element is lost, with one error message (`TxOrder.ErrorsTellLoss`); then the other one carries all jobs
  that follow, in order (`TxRecovery.ResumesInOrder`), and no run ever gets stuck (`TxOrder.NeverStuckExactly`). The
  second error message of the reorder thread is never printed (`TxOrder.SecondAlwaysExpected`).
- Runs that start in order keep the order exactly if at least two slots of a frame are transmitted or the pool has one
  thread (`TxOrder.InOrderExactly`); otherwise jobs overtake each other without an error message.
- The transmit timestamp sums slot lengths from the previous `tti_tx`, not from `tti_rx`. It is right exactly if the
  look-ahead leaves remainder 0 or 1 by the distance of the long slots (`TxTimestampExactly`): always for 15, 30 and
  60 kHz, not for 120 kHz with a look-ahead of 6.
- Burst flags bracket the bursts of a TDD configuration, and `tx_rf` does not stop in its assertion on mixed slots,
  exactly if there is an uplink slot and either nothing is transmitted, or each period opens with two transmitted
  slots, the first purely downlink, and a mixed slot has a downlink symbol (`TableBracketsExactly`,
  `MixedWithoutDownlinkStops`). `set_tdd_config_nr` accepts other configurations too.
- `contentBytes` has 16 bits; blocks are disjoint exactly if the content is shorter than 65536 bytes (`DisjointExactly`).
  `sendSubFrame` sends every block exactly if each fits a datagram of the network (`FittingAccepted`); one that does not
  is only logged.
- In `sendSubFrame` the copy of the second header has the same source and destination, so it copies nothing, although
  comments in `main-fs6.c` say that the header is duplicated. The receiver reads the header of whichever datagram
  arrives first: the sender's in every delivery exactly if all blocks hold the same bytes there (`HeaderArrivesExactly`).
  Those of a later block are what the memory of the zone held, which is not cleared (`OvertakenHeaderIsMemory`,
  `OvertakenHeaderIsLost`).
- Of several entries of an `fs6ULConfigCCH` block the DU applies only the first: all are held afterwards exactly if
  the DU held the others before (`ControlArrivesExactly`).
- The latency comparators order a pair correctly exactly under a condition on the low 32 bits of its distance
  (`CompareOrdersExactly`). A first sample is missing from the table of maxima exactly if its low 32 bits are zero or
  at least 2^31 (`FirstSampleForgottenExactly`).
- The bit-setting IF4p5 loop completes exactly at a prefix that holds all symbols of the slot and no other
  (`FhIf4p5NorthIn`), so one stray symbol keeps it from ever completing (`StrayBlocksSetting`).
- A zero on the list of RNTIs to remove makes `up_removed` count an entry twice exactly if it follows the entry's RNTI
  (`CountedTwiceExactly`).

## Model

| member | source | states |
|---|---|---|
| TxPipeline.TokensConserved | oai_cu/executables/nr-gnb.c:376-415 | whatever step is taken by any thread, each of the two elements stays in exactly one place; the one exception is the branch that overwrites an occupied reserve |
| TxPipeline.RxSerialised | oai_cu/executables/nr-ru.c:1457-1467 | every step keeps: at most one `rx_func` job exists, it works on the last slot handed over, and what was issued is the schedule up to it |
| TxPipeline.ScheduleChained | oai_cu/executables/nr-gnb.c:244-265 | in a predictable schedule each job has the slot number predicted from the job before it, and a different one |
| TxPipeline.Outstanding | oai_cu/executables/nr-gnb.c:378-411 | the oldest job in flight is the one `next_tx_slot` asks for and the younger one is not |
| TxPipeline.OrderKeptByRx | oai_cu/executables/nr-gnb.c:244-265 | filling and issuing keep the invariant that the elements in flight hold exactly the jobs not yet released |
| TxPipeline.PoolDoneKeeps | oai_cu/executables/nr-gnb.c:452-463 | completion of any pool job, in any order, keeps the order invariant |
| TxPipeline.OrderKeptByReorder | oai_cu/executables/nr-gnb.c:375-411 | every step of the reorder thread keeps the order invariant and never drops the reserve, provided the first element pulled is the first one issued |
| TxPipeline.RunKeeps | oai_cu/executables/nr-gnb.c:370-415 | the invariants hold in every state of every run |
| TxPipeline.TransmitsInOrder | oai_cu/executables/nr-gnb.c:370-415 | in every state of every run that started in order, what reached `ru_tx_func` is a prefix of what was issued, which is the schedule, each job unchanged; no error branch was taken; both elements are in exactly one place; an occupied reserve at the loop top holds `next_tx_slot` |
| TxPipeline.InOrderExactly | oai_cu/executables/nr-gnb.c:375-376 | once something was sent, the order of sending agrees with the order of issue if and only if the first element pulled was the first one issued |
| TxPipeline.ExpectedAlwaysComes | oai_cu/executables/nr-gnb.c:387-398 | in every run that started in order, while the reorder thread waits with its reserve taken, the expected job is in the pool or in `L1_tx_out` |
| TxThreads.RunsAreRuns | oai_cu/common/utils/threadPool/thread-pool.h:228-262 | runs on a pool that serves its jobs first in, first out with a given number of threads are runs of the pipeline, so what holds in all runs holds there |
| TxOneThread.RunKeepsLine | oai_cu/executables/nr-gnb.c:370-415 | on one thread, in every state of every run, the elements in flight stand in line in the order of issue, behind the one the reorder thread holds |
| TxOneThread.InOrder | oai_cu/executables/nr-gnb.c:370-415 | on one thread every run, for every slot pattern, starts and sends in order, takes no error branch and keeps both elements |
| TxBypass.StartsInOrder | oai_cu/executables/nr-gnb.c:256-265 | if transmission is continuous and the first slot is not downlink, every run starts in order |
| TxPipelineLimits.ReachSwappedStart | oai_cu/executables/nr-gnb.c:375-376 | on two threads or more, if the first transmitted slot is downlink and whatever idle slots lie between, there is a run in which the second job is found and sent first |
| TxPipelineLimits.SwappedStartLosesToken | oai_cu/executables/nr-gnb.c:378-385 | after that start, if the first slot number comes up neither third nor fourth, a run ends with one error and an element in no queue any more |
| TxPipelineLimits.SwappedStartLosesLater | oai_cu/executables/nr-gnb.c:378-398 | if three slot numbers take turns, the element is lost one round later |
| TxPipelineLimits.SingleSlotMisorders | oai_cu/executables/nr-gnb.c:387-398 | jobs with one slot number, with any idle slots between them: a run that starts in order sends out of order without any error |
| TxElements.SecondFits | oai_cu/executables/nr-gnb.c:387-398 | if slot numbers alternate between two, an element pulled while the reserve does not fit does fit, whatever the start-up was |
| TxElements.RunKeepsElements | oai_cu/executables/nr-gnb.c:370-415 | if slot numbers alternate between at most two, every run, however it started, keeps both elements in exactly one place and takes no error branch |
| TxRecovery.ErrorsTellLoss | oai_cu/executables/nr-gnb.c:378-398 | in every run on a predictable schedule, however it starts: at most one error message, printed exactly if one element is lost, while the other one is in exactly one place; every job issued was released, is in flight, or was lost with that element |
| TxRecovery.SecondAlwaysExpected | oai_cu/executables/nr-gnb.c:387-398 | however the run starts, an element pulled while the reserve is taken has the expected slot number |
| TxRecovery.ResumesInOrder | oai_cu/executables/nr-gnb.c:384-411 | after an order mistake, in every continuation of the run, what is sent from there on is what was issued from there on, in order of issue without a gap, up to at most one job under way; of the jobs before, one is missing |
| TxRecovery.NeverStuckExactly | oai_cu/executables/nr-gnb.c:426-431 | no run gets stuck, however it starts and whatever is lost, if and only if the pool has a thread, which is what `initNamedTpool` insists on |
| TxJobs.NothingSentTwice | oai_cu/executables/nr-gnb.c:244-265 | for any slot pattern and prediction, in every run, each job is sent at most as often as it was issued, with frame, slot and timestamp as issued |
| TxSchedule.GetNextDownlinkSlot | oai_cu/openair1/SCHED_NR/phy_frame_config_nr.c:312-325 | returns the number of the first downlink or mixed slot after the given one; the assertion on the frame counter holds |
| TxSchedule.NextSlotIsFirst | oai_cu/executables/nr-gnb.c:404-408 | the prediction from a slot number is the number of the first transmitted slot after it, in any frame |
| TxSchedule.NextSlotDiffers | oai_cu/executables/nr-gnb.c:404-408 | the predicted number differs from the current one if and only if a frame has two transmitted slots |
| TxSchedule.PredictableExactly | oai_cu/executables/nr-gnb.c:404-408 | all jobs of the schedule are predicted, by a different number each time, if and only if a frame has two transmitted slots |
| TxSchedule.TransmitsInOrder | oai_cu/executables/nr-gnb.c:370-415 | for every frame-periodic slot pattern with two transmitted slots, with or without continuous transmission, runs that start in order send in order |
| TxOrder.InOrderExactly | oai_cu/executables/nr-gnb.c:370-415 | for every slot pattern and number of threads: all runs that start in order send in order if and only if at least two slots of a frame are transmitted or there is one thread |
| TxOrder.StartsInOrderExactly | oai_cu/executables/nr-gnb.c:375-376 | all runs start in order if and only if there is one thread, or transmission is continuous and the first slot is not downlink |
| TxOrder.SendsInOrderExactly | oai_cu/executables/nr-gnb.c:370-415 | all runs, however they start, send in order under exactly the same condition |
| TxOrder.SingleSlotMisorders | oai_cu/executables/nr-gnb.c:387-398 | every pattern with one transmitted slot per frame has a run that starts in order and sends out of order unnoticed |
| TxOrder.StartCanBeSwapped | oai_cu/executables/nr-gnb.c:375-376 | every pattern, with or without continuous transmission, has a run that starts and sends in the wrong order, unless the first job bypasses the pool or there is one thread |
| TxOrder.CanLoseExactly | oai_cu/executables/nr-gnb.c:378-411 | some run loses an element if and only if there are two threads or more, at least three slots of a frame are transmitted, and the first job does not bypass the pool |
| TxOrder.ErrorsTellLoss | oai_cu/executables/nr-gnb.c:378-398 | for every slot pattern, in every run: at most one error message, printed exactly if one of the two elements is lost, and never are both |
| TxOrder.SecondAlwaysExpected | oai_cu/executables/nr-gnb.c:387-398 | for every slot pattern, in every run, the element pulled with the reserve taken has the expected slot number, so the error message there is never printed |
| TxOrder.NeverStuckExactly | oai_cu/executables/nr-gnb.c:426-431 | for every slot pattern, no run gets stuck if and only if the pool has a thread |
| SlotClock.InitFrameParms | oai_cu/openair1/PHY/INIT/nr_parms.c:194-280 | the derived slot lengths: 1918 units each, long slots 2 to the mu more, a subframe 1920 units per slot |
| SlotClock.PreviousSlot | oai_cu/executables/nr-ru.c:644-644 | the slot -1 that C computes before slot 0 has the length of the last slot of the frame |
| SlotClock.ElapsedClosed | oai_cu/openair1/PHY/INIT/nr_parms.c:200-210 | closed form of the sum of the first n slot lengths |
| SlotClock.FrameLength | oai_cu/openair1/PHY/INIT/nr_parms.c:264-280 | the slots of one frame, starting anywhere, fill exactly `samples_per_frame` |
| SlotClock.ElapsedSplit | oai_cu/openair1/PHY/INIT/nr_parms.c:212-223 | dividing a slot boundary by the frame length divides the slot count by the slots per frame |
| SlotClock.GetSlotFromTimestamp | oai_cu/openair1/PHY/INIT/nr_parms.c:212-223 | returns the first slot that starts at or after the position in the frame |
| SlotClock.SlotFromBoundary | oai_cu/openair1/PHY/INIT/nr_parms.c:212-223 | on the start of slot number n it returns n modulo the slots per frame |
| RuThread.RadioUnit.RxRf | oai_cu/executables/nr-ru.c:617-683 | for any device timestamp the n-th call yields the sum of the first n slot lengths and the matching frame and slot, the offset is the device time less that sum, and neither exit branch is taken |
| RuThread.RadioUnit.LookAhead | oai_cu/executables/nr-ru.c:1386-1391 | the transmit timestamp is the receive one plus the lengths of `sl_ahead` slots from the old `tti_tx` on |
| RuThread.RadioUnit.Iterate | oai_cu/executables/nr-ru.c:1359-1391 | one round keeps the slot clock and its counters in step |
| RuThread.RadioUnit.Run | oai_cu/executables/nr-ru.c:1359-1391 | for every sequence of device timestamps the loop never exits and its clock equals the slot clock |
| RuThread.TxSlotAdvances | oai_cu/executables/nr-ru.c:1390-1391 | with a look-ahead of at most one frame the transmit frame and slot are the receive ones advanced by it modulo 1024 frames |
| RuThread.TxSlotExactly | oai_cu/executables/nr-ru.c:1390-1390 | and that bound is exact |
| RuThread.SameWindow | oai_cu/executables/nr-ru.c:1387-1389 | two windows of equally many slots have equal length if and only if they hold equally many long slots |
| RuThread.TxTimestampExactly | oai_cu/executables/nr-ru.c:1386-1391 | the transmit timestamp is the start of slot n + `sl_ahead` in every round if and only if `sl_ahead` leaves remainder 0 or 1 by the distance of the long slots |
| TxBurst.StateAfter | oai_cu/executables/nr-ru.c:710-749 | in a well-grouped pattern the radio is in a burst exactly after a downlink slot that no uplink slot follows |
| TxBurst.BracketedExactly | oai_cu/executables/nr-ru.c:710-749 | for every frame-periodic pattern, the flags form start, middles, end, silence for ever and no assertion fails if and only if no burst is a single downlink slot and each mixed slot has downlink symbols and closes a burst |
| TxBurst.SetTddConfig | oai_cu/openair1/SCHED_NR/phy_frame_config_nr.c:98-151 | the table filled period by period gives every slot the symbols of its place in the period |
| TxBurst.SlotSelectIsType | oai_cu/openair1/SCHED_NR/phy_frame_config_nr.c:327-381 | classifying the symbols of a configured slot gives downlink, mixed and uplink slots as configured, and a mixed slot its configured number of downlink symbols |
| TxBurst.PeriodShares | oai_cu/openair1/SCHED_NR/phy_frame_config_nr.c:117-151 | a period holds as many downlink and uplink symbols as configured, downlink ones first, then flexible ones, uplink ones last |
| TxBurst.FlagsByFrame | oai_cu/executables/nr-ru.c:730-731 | looking at neighbours modulo the frame gives the flags of the bare period |
| TxBurst.ConfigurationBracketsExactly | oai_cu/executables/nr-ru.c:710-749 | the accepted configurations whose bursts are bracketed without a failed assertion are exactly those with an uplink slot, a good downlink share and a downlink symbol in a mixed slot |
| TxBurst.TableBracketsExactly | oai_cu/executables/nr-ru.c:710-749 | the same, over the symbols of the table as `set_tdd_config_nr` lays it out |
| TxBurst.MixedWithoutDownlinkStops | oai_cu/executables/nr-ru.c:712-720 | a configuration whose mixed slot has no downlink symbol stops in the assertion at that slot |
| TxBurst.SingleSlotNeverEnded | oai_cu/executables/nr-ru.c:731-741 | a burst of a single downlink slot is started and never ended |
| TxBurst.MixedEndsBurst | oai_cu/executables/nr-ru.c:712-730 | a mixed slot that opens a burst ends what was not started, and one in the middle of a burst ends it too early |
| Fs6Zone.AlignedLeast | oai_cu/executables/split_headers.h:263-266 | the rounding formula gives the least multiple of the alignment that covers header and content |
| Fs6Zone.DisjointExactly | oai_cu/executables/split_headers.h:60-66 | with a 16-bit size the next block starts behind this one if and only if the content is below 65536 bytes |
| Fs6Zone.MoveToEnd | oai_cu/executables/main-fs6.c:434-441 | walks to the first free byte; every asserted block number is right |
| Fs6Zone.Append | oai_cu/executables/main-fs6.c:430-465 | appending extends the chain by one well-formed block, numbered next and counted, and changes no earlier byte but the block count; of a content of 65536 bytes or more the chain holds what 16 bits count |
| Fs6Zone.ChainFrame | oai_cu/executables/main-fs6.c:437-446 | a chain depends on its own bytes alone |
| Fs6Zone.MeetsChain | oai_cu/executables/main-fs6.c:749-801 | a receiver that walks by sizes meets exactly the blocks appended, in order |
| Fs6Zone.MeetsOnce | oai_cu/executables/main-fs6.c:749-801 | and the zone determines what it meets |
| Fs6Transport.SendSubFrame | oai_cu/executables/transport_split.c:156-195 | makes one datagram per block, each with timestamp, count, number, type and the unchanged content of its block, the first one with the sender's clock, and sends those that the network accepts |
| Fs6Transport.FittingAccepted | oai_cu/executables/transport_split.c:179-186 | nothing is refused if and only if every block fits a datagram |
| Fs6Transport.AcceptedEach | oai_cu/executables/transport_split.c:181-187 | whether a datagram is accepted does not depend on the others: after a refusal sending goes on |
| Fs6Receive.Receiver.ReceiveSubFrame | oai_cu/executables/transport_split.c:101-154 | one call gathers, drops and keeps datagrams as the recursive specification says, including timeouts and errors |
| Fs6Receive.OneSubframe | oai_cu/executables/transport_split.c:131-143 | all packets of a zone have one timestamp, dropped ones are older and the kept one is newer |
| Fs6Receive.EndsExactly | oai_cu/executables/transport_split.c:115-151 | every way a call ends is decided by the last event it used: socket error and abort exactly by a broken socket and a foreign content type, a timeout by a timeout, completion with all blocks in the zone, being overtaken with the newer datagram kept; all events before were datagrams of the expected type |
| Fs6Receive.PacketsConserved | oai_cu/executables/transport_split.c:107-151 | no packet is lost, duplicated or reordered by a call |
| Fs6Receive.LossNeverMixesSubframes | oai_cu/executables/transport_split.c:101-154 | whatever datagrams are lost, successive calls return exactly the survivors of one subframe after the other |
| Fs6Uplink.SegmentRoundTrip | oai_cu/executables/main-fs6.c:446-464 | reading back a data block gives UE, HARQ process, offset and data as written |
| Fs6Uplink.ElementRoundTrip | oai_cu/executables/main-fs6.c:389-426 | reading back a control block gives the one element written, since every call opens its own block |
| Fs6Uplink.Reassembles | oai_cu/executables/main-fs6.c:752-760 | whatever the number, order and repetition of blocks, each byte covered by a segment is the sender's byte and no other byte changes |
| Fs6Uplink.OrderIrrelevant | oai_cu/executables/main-fs6.c:748-802 | the same set of blocks gives the same buffers in any order |
| Fs6Uplink.ReplaysInOrder | oai_cu/executables/main-fs6.c:773-795 | every control element sent is replayed exactly once and in call order, and no block is reported impossible |
| Fs6Uplink.AppliesAny | oai_cu/executables/main-fs6.c:773-802 | for any block, whoever sent it: control elements of known type are replayed in order, every other element and every block of a foreign type is reported once, and nothing else is |
| Fs6Uplink.PlaceholderIsSilent | oai_cu/executables/main-fs6.c:752-752 | the block of an empty subframe has no effect |
| Fs6Uplink.SegmentsArrive | oai_cu/executables/main-fs6.c:748-802 | if all segments of a buffer are among the blocks, in any order, the receiver's buffer starts with the sender's soft bits |
| Fs6Uplink.SegmentsTile | oai_cu/openair1/PHY/LTE_TRANSPORT/ulsch_decoding.c:323-333 | the segments are adjacent and together hold the largest multiple of the modulation order not above G |
| Fs6Uplink.SegmentsEven | oai_cu/openair1/PHY/LTE_TRANSPORT/ulsch_decoding.c:323-333 | from the first segment to the last, sizes grow by at most one modulation symbol |
| Fs6Link.SendSegments | oai_cu/openair1/PHY/LTE_TRANSPORT/ulsch_decoding.c:309-335 | one block per segment of the buffer is appended, holding that segment; a content of 65536 bytes or more is cut short |
| Fs6Link.DeliveredInAnyOrder | oai_cu/executables/transport_split.c:115-151 | datagrams delivered in any order are met as the blocks sent, in that order |
| Fs6Link.CuReceiver.RecvFs6Ul | oai_cu/executables/main-fs6.c:748-802 | the walk applies the blocks received, one after the other |
| Fs6EndToEnd.ReceivesAll | oai_cu/executables/transport_split.c:101-154 | all datagrams of a subframe, in any order, are gathered by one call, one behind the other |
| Fs6EndToEnd.Transfer | oai_cu/executables/transport_split.c:101-195 | a zone sent, delivered in any order and gathered is met block by block in the order of arrival |
| Fs6EndToEnd.UplinkRestores | oai_cu/executables/main-fs6.c:748-802 | blocks of any number of UEs, with control blocks among them, arriving in any order: every buffer all of whose segments were sent is restored |
| Fs6EndToEnd.UplinkReplays | oai_cu/executables/main-fs6.c:773-795 | and every control element is replayed once, in the order of arrival |
| Fs6EndToEnd.UplinkSubframe | oai_cu/executables/main-fs6.c:1459-1495 | the calls of DU and CU one after the other: the segments of a UE, appended to whatever the zone held and transferred in any order, are restored in the buffer of the CU |
| Fs6EndToEnd.SizesTotal | oai_cu/openair1/PHY/LTE_TRANSPORT/ulsch_decoding.c:323-333 | the sizes chosen for G bits add up to all bits that the modulation order allows |
| Fs6Header.FirstArrivalDecides | oai_cu/executables/main-fs6.c:943-947 | the common part that the receiver reads is that of the block that arrived first |
| Fs6Header.HeaderArrivesExactly | oai_cu/executables/transport_split.c:168-176 | the sender's common part is read in every delivery if and only if all blocks hold the same bytes there |
| Fs6Header.OvertakenHeaderIsMemory | oai_cu/executables/transport_split.c:168-176 | if the second block arrives first, the receiver reads what the memory of the zone held |
| Fs6Header.OvertakenHeaderIsLost | oai_cu/executables/transport_split.c:168-176 | two concrete datagrams whose header arrives in one order and not in the other |
| Fs6Pack.SimdPacks | oai_cu/executables/main-fs6.c:215-218 | compare, shuffle and mask yield the two bytes of the signs of sixteen values, first value highest |
| Fs6Pack.Pack | oai_cu/executables/main-fs6.c:209-219 | every byte of the output holds the signs of its eight values, over the padded length |
| Fs6Pack.Unpack | oai_cu/executables/main-fs6.c:188-206 | every byte of the input is expanded by the table |
| Fs6Pack.PackUnpack | oai_cu/executables/main-fs6.c:188-219 | packing then unpacking gives 1 exactly where the signed byte was positive, so 0/1 bytes come back, over the padded length |
| Fs6Pack.UnpackPack | oai_cu/executables/main-fs6.c:188-219 | unpacking then packing is the identity |
| Fs6Pack.PackedSize | oai_cu/executables/main-fs6.c:186-186 | the size counted in `contentBytes` covers all bits and exceeds them by less than 16 |
| Fs6Orders.Arrives | oai_cu/executables/main-fs6.c:818-936 | the DU ends up with what every order said that no later order replaced |
| Fs6Orders.UeArrives | oai_cu/executables/main-fs6.c:826-876 | downlink and uplink parameters kept per UE are those of the last order for that UE, on whatever process |
| Fs6Orders.UeReplaced | oai_cu/executables/main-fs6.c:826-876 | an order for another process of the same UE replaces them, while both processes keep their own parameters |
| Fs6Orders.Untouched | oai_cu/executables/main-fs6.c:818-936 | processes, schedules and control variables that no order is about stay as they were |
| Fs6Orders.TailKept | oai_cu/executables/main-fs6.c:849-850 | soft bits behind those that an order writes stay as they were |
| Fs6Orders.ErrorsCount | oai_cu/executables/main-fs6.c:931-932 | every impossible block is reported once, and no other |
| Fs6Downlink.UnpackedPacked | oai_cu/executables/main-fs6.c:1183-1183 | what the DU unpacks from a block is the sign of every byte of the CU's buffer |
| Fs6Downlink.SignsUnpacked | oai_cu/executables/main-fs6.c:1183-1183 | a soft bit arrives as 1 exactly for bytes from 1 to 127 |
| Fs6Downlink.PartsRoundTrip | oai_cu/executables/main-fs6.c:835-848 | nb_rb, Qm, Nl, pdsch_start and rb_alloc of the process and rnti, both power factors, sib1_br_flag and i0 of the UE are read, field by field, where they were written |
| Fs6Downlink.ParseSent | oai_cu/executables/main-fs6.c:1048-1232 | for each of the three block types, the DU reads what the CU wrote |
| Fs6Downlink.ParseAny | oai_cu/executables/main-fs6.c:822-932 | of the blocks that no writer made, exactly those of a foreign type are impossible, and exactly those that are too short or announce no entry say nothing |
| Fs6Downlink.SubframeArrives | oai_cu/executables/main-fs6.c:818-936 | after a subframe the DU holds the soft bits and every field of the processes, the schedules with frame and subframe, and the first control entries, of all blocks that no later block replaced |
| Fs6Downlink.UeOfSubframeArrives | oai_cu/executables/main-fs6.c:826-876 | and of what is kept per UE (RNTI, powers, HARQ mask and so on), what the last downlink block or schedule for that UE said |
| Fs6Downlink.BitsArrive | oai_cu/executables/main-fs6.c:849-850 | soft bits that are 0 or 1 arrive unchanged |
| Fs6Downlink.ScheduleArrives | oai_cu/executables/main-fs6.c:857-915 | every byte of a schedule is found with the UE, with the process or nowhere, as its field belongs |
| Fs6Downlink.ControlArrivesExactly | oai_cu/executables/main-fs6.c:925-930 | all entries of a control block are held afterwards if and only if the DU held all but the first before |
| Fs6Downlink.ActiveEntries | oai_cu/executables/main-fs6.c:1203-1231 | a control block lists exactly the active control variables, in order of index |
| Fs6Downlink.AppendSent | oai_cu/executables/main-fs6.c:1048-1065 | appends the block of a schedule or of control entries and changes no earlier byte but the count; a content of 65536 bytes or more is cut short |
| Fs6Downlink.AppendDownlink | oai_cu/executables/main-fs6.c:1136-1188 | appends the block of a downlink process with its fields and packed soft bits, likewise |
| Fs6Downlink.DuReceiver.RcvFs6DL | oai_cu/executables/main-fs6.c:818-936 | the walk carries out the orders of the blocks received, one after the other |
| Fs6DownlinkEnd.DownlinkArrives | oai_cu/executables/main-fs6.c:818-936 | blocks with distinct targets, arriving in any order, are all held by the DU, with what they say of distinct UEs |
| Fs6DownlinkEnd.DownlinkSubframe | oai_cu/executables/main-fs6.c:1402-1523 | the same for the calls of CU and DU on a filled zone |
| PrachNoise.PrachDetector.PrachProcedures | oai_cu/executables/main-ocp.c:538-611 | one call decides and updates as specified; it changes nothing if it initiates random access or runs with br_flag |
| PrachNoise.CounterCounts | oai_cu/executables/main-ocp.c:606-610 | the counter is the number of updates, stopping at 100 |
| PrachNoise.WarmUpLength | oai_cu/executables/main-ocp.c:569-610 | whatever the energies, the first 100 calls without br_flag are the warm-up and all update the filter; calls with br_flag count for nothing |
| PrachNoise.WarmUpFirst | oai_cu/executables/main-ocp.c:569-570 | no random access is initiated before 100 updates, in any run |
| PrachNoise.NeverAboveAverages | oai_cu/executables/main-ocp.c:607-607 | the noise floor stays between 0 and the maximum of its start value and all averages fed |
| PrachNoise.ConvergesDuringWarmUp | oai_cu/executables/main-ocp.c:607-607 | from any 16-bit start, 100 updates with a constant average a bring it into [a - 16, a], for ever |
| PrachNoise.DetectionAboveNoise | oai_cu/executables/main-ocp.c:569-611 | in every run with a constant average, whatever initiates random access exceeds that average by the threshold less 16 |
| PrachNoise.DetectsAboveAverage | oai_cu/executables/main-ocp.c:547-570 | conversely, after 100 ordinary calls with a constant average, every energy above that average by more than the threshold initiates random access, with br_flag provided that level 0 is enabled |
| PrachNoise.BandAttained | oai_cu/executables/main-ocp.c:607-607 | for averages such as 33 the noise floor settles at the lower end of the band |
| PrachNoise.DetectsAtLowerEnd | oai_cu/executables/main-ocp.c:547-607 | for these averages random access is initiated exactly above the average plus the threshold less 16 |
| PrachRepetition.Repetitions.OcpRxPrach | oai_cu/executables/main-ocp.c:467-490 | one call steps the counters of the levels that are enabled and active and leaves all others as they were |
| PrachRepetition.AttemptsHaveEqualLength | oai_cu/executables/main-ocp.c:470-489 | over any calls the counter is the number of receptions modulo N, and `first_frame` is the frame that opened the current or last group of N |
| PrachRepetition.ZeroRepetitionsNeverClose | oai_cu/executables/main-ocp.c:486-488 | with N = 0 a group never closes |
| PrachRepetition.RntiConstantInAttempt | oai_cu/executables/main-ocp.c:552-553 | the RA-RNTI does not change within a group |
| PrachRepetition.RntiInjective | oai_cu/executables/main-ocp.c:552-553 | two RA-RNTIs agree if and only if subframe and opening frame modulo 40 agree |
| PrachRepetition.RntiGrows | oai_cu/executables/main-ocp.c:552-553 | the RA-RNTI starts at 1 and grows by 1 with the subframe and by 60 with the opening frame modulo 40 |
| LatencyMeas.CompareExactly | oai_cu/executables/main-fs6.c:67-72 | the truncated difference is the true one if and only if that fits 32 signed bits |
| LatencyMeas.CompareOrdersExactly | oai_cu/executables/main-fs6.c:67-72 | for all 64-bit values the comparator orders a pair correctly if and only if the low 32 bits of the distance are at most 2^31 upwards, or between 1 and 2^31 - 1 downwards |
| LatencyMeas.ComparatorSorts | oai_cu/executables/main-fs6.c:111-115 | below 2^31 sorting with either comparator is sorting by the order it is meant to be |
| LatencyMeas.SortSorts | oai_cu/executables/main-fs6.c:103-103 | the sort orders its input and rearranges it |
| LatencyMeas.SortUnique | oai_cu/executables/main-fs6.c:103-103 | an ordered rearrangement is unique, so the result does not depend on the algorithm of `qsort` |
| LatencyMeas.Meas.UpdateTimesReset | oai_cu/executables/main-fs6.c:136-159 | one sample is added, and the table is cleared at the end of a period |
| LatencyMeas.AddSummarises | oai_cu/executables/main-fs6.c:95-106 | overwriting entry 0 and sorting keeps the ten extremes of the history |
| LatencyMeas.TableIsExtremes | oai_cu/executables/main-fs6.c:136-159 | after any samples below 2^31, entries 1 to 10 are the ten largest (zero padded), or the ten smallest (INT_MAX padded after the first reset), of the samples since the last reset; sum and count match them |
| LatencyMeas.SinceResetIsRecent | oai_cu/executables/main-fs6.c:152-157 | these are the most recent samples, as many as the number of samples modulo the period |
| LatencyMeas.TopTenOfAll | oai_cu/executables/main-fs6.c:95-106 | without reset, the ten largest of all samples |
| LatencyMeas.FirstSampleForgottenExactly | oai_cu/executables/main-fs6.c:95-106 | for every 64-bit sample: as a first sample it is missing from the table of maxima if and only if its low 32 bits are zero or at least 2^31 |
| LatencyMeas.LargeSamples | oai_cu/executables/main-fs6.c:95-106 | 2^31 + 1 is summed but missing from the table, 2^32 + 5 is not missing |
| SymbolMask.FhIf4p5NorthIn | oai_cu/executables/nr-ru.c:452-464 | on every stream the setting loop ends after the shortest prefix whose symbols are exactly those of the slot, unless it first meets a shift that C leaves undefined |
| SymbolMask.FhIf4p5SouthAsynchIn | oai_cu/executables/nr-ru.c:404-441 | on every stream the clearing loop ends after the shortest prefix whose uplink packets hold every symbol, or before that exits at the first packet of another frame or slot, or meets an undefined shift |
| SymbolMask.LoopsAgree | oai_cu/executables/nr-ru.c:404-464 | on uplink packets of one slot with symbols in range, duplicated and reordered at will, both loops end after the same prefix |
| SymbolMask.StrayBlocksSetting | oai_cu/executables/nr-ru.c:461-464 | after a symbol out of range the setting loop never completes |
| RntiRemoval.RemoveRntis | oai_cu/executables/nr-gnb.c:175-204 | every ULSCH with a listed RNTI is left without RNTI and HARQ mask and with all processes idle in round 0, every active PUCCH with one is inactive and without RNTI, all others are unchanged, and the counters are the numbers of distinct entries cleared (for ULSCHs: if no listed RNTI is zero) |
| RntiRemoval.NoneLeft | oai_cu/executables/nr-gnb.c:175-204 | afterwards no ULSCH and no active PUCCH carries a listed non-zero RNTI |
| RntiRemoval.UlschExactly | oai_cu/executables/nr-gnb.c:179-188 | the loops clean a ULSCH if and only if its RNTI is listed |
| RntiRemoval.CountedTwiceExactly | oai_cu/executables/nr-gnb.c:179-188 | a ULSCH is counted more than once if and only if a zero follows its RNTI on the list |
| RntiRemoval.UlschCountExactly | oai_cu/executables/nr-gnb.c:179-188 | `up_removed` is the number of distinct ULSCHs cleared if and only if that happens to none |
| RntiRemoval.PucchCountExactly | oai_cu/executables/nr-gnb.c:189-195 | `pucch_removed` is the number of distinct PUCCHs cleared, for every list |
| SubframeClock.L1Proc.SetAllFromTs | oai_cu/executables/main-ocp.c:120-140 | the last carrier decides all fields; without carriers they stay as they were |
| SubframeClock.Position | oai_cu/executables/main-ocp.c:128-135 | frame and subframe together are the subframe number modulo 10240 |
| SubframeClock.ReceivePositions | oai_cu/executables/main-ocp.c:127-134 | the receive position and both PRACH positions are that of the timestamp |
| SubframeClock.TxIsAhead | oai_cu/executables/main-ocp.c:120-140 | without overflow the transmit position is the receive position plus `sf_ahead`, modulo 10240 |
| SubframeClock.ClockTicks | oai_cu/executables/main-ocp.c:120-140 | one subframe later the position is one further |
| SubframeClock.DuAgrees | oai_cu/executables/main-fs6.c:1437-1437 | the DU rebuilds every field of the CU's clock from the timestamp it was sent, even where sums wrap |
| X2Handover.AnalyzeLog | oai_cu/ci-scripts/ran.py:852-876 | the loop computes the tally of the specification, and the tally is explained by procedures evident in the log |
| X2Handover.Explained | oai_cu/ci-scripts/ran.py:852-876 | what is counted are procedures whose markers occur in order in the log and that share no line |
| X2Handover.NeverMoreThanMarkers | oai_cu/ci-scripts/ran.py:852-876 | completed procedures, plus one for an open one past a stage, never exceed the lines with that stage's marker |
| X2Handover.OneCompletionPerLine | oai_cu/ci-scripts/ran.py:852-876 | each line completes at most one procedure and then leaves the analyser idle |
| X2Handover.IncomingCounted | oai_cu/ci-scripts/ran.py:853-871 | in every log, an incoming handover that begins while the analyser is idle, on a line without an acknowledgement, is counted by its last line at the latest |
| X2Handover.OutgoingCounted | oai_cu/ci-scripts/ran.py:856-876 | so is every outgoing handover that begins while the analyser is idle |
| X2Handover.AcknowledgementWins | oai_cu/ci-scripts/ran.py:853-858 | a line with both start markers starts an outgoing procedure |

## Left out

- The thread pool: queues are sequences and the pool serves `rx_func` calls and TX jobs first in, first out; a pool disabled by `noThreads`, where the caller runs the jobs, decoding jobs that share it, aborts and shutdown are not modelled.
- TxSchedule.GetNextDownlinkSlot: requires a slot that is downlink or mixed; without one the source stops in its assertion.
- TxPipeline.TransmitsInOrder: slot types are taken to be those of the transmit slot; `rx_func` looks them up with the parity of the receive frame, which is the same for every table that repeats each frame.
- The nFAPI paths by which a remote MAC fills the TX elements: only the monolithic path is modelled.
- RuThread.RadioUnit.RxRf: device timestamps are unbounded integers; 64-bit overflow, emulated RF and short reads are not modelled.
- `tx_rf` with FDD or continuous transmission, the signal lengths of mixed slots and beam indices: only the TDD flags are modelled.
- SymbolMask.FhIf4p5NorthIn: the stream is finite, and the method reports whether the loop still waits; from an undefined shift on nothing is said.
- TxOrder.InOrderExactly: requires frames of at least two slots (they have 10, 20, 40, 80 or 160).
- TxOrder.SendsInOrderExactly: requires frames of at least two slots, likewise.
- `fh_if4p5_south_in` and `fh_if4p5_north_asynch_in`: their full mask stays zero, so no completion claim like that of the other two loops holds.
- Fs6Link.SendSegments: requires room in the zone, like `Fs6Zone.Append`.
- Fs6Zone.Append: requires room in the zone, which the source assumes of its callers.
- Fs6EndToEnd.Transfer: every datagram arrives exactly once; losses are the subject of `LossNeverMixesSubframes`.
- Fs6EndToEnd.UplinkSubframe: requires contents that fit a datagram, since larger ones are refused by the network.
- Fs6Uplink.ReplaysInOrder: control elements are opaque bytes with a type; what the MAC does with them is not modelled, nor are the power, CQI and timing fields of data blocks.
- Fs6Downlink.SubframeArrives: the fields of an uplink schedule are bytes with a place, and PHY_TX_THREAD is off; the fields of the common header are not told apart, and which HARQ process the CU serialises is taken as given.
- The full round trip of `fs6ULConfigCCH` blocks with several entries does not hold; what does is `ControlArrivesExactly`.
- `measTransportTime`: its difference can be negative and is stored unsigned.
- LatencyMeas.Meas.UpdateTimesReset: `qsort` is modelled by a sort with the same comparator; above 2^31, where the comparator need not be an order, another algorithm may leave other contents. Printing is not modelled.
- PrachRepetition.Repetitions.OcpRxPrach: the reception itself is not modelled; counters are unbounded integers.
- RntiRemoval.RemoveRntis: records are values in arrays, so sharing of records between entries is not modelled.
- The RAU/RRU handshake, the start-up barriers of the RU threads, RF and IF devices, FFT, turbo coding, PRACH detection, configuration parsing, logging and tracing.
- The other CI scripts and the rest of `ran.py`: connection handling, reports and text matching with few invariants.

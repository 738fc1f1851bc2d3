# A verified model of the TCP engine

This project models the TCP data path of a user-space network stack written in C: the sender's retransmission
queue, the receiver's reassembly queue, acknowledgement processing, the retransmission timer, SACK generation, the
connection states, and the buffers, lists, timers and checksums beneath them. It proves what that code guarantees,
and where the code does not keep a promise it proves exactly when it does.

## How the model is built

* `TcpTypes`, `Tcp`, `TcpOutput`, `TcpData`, `TcpInput` give every function of the engine its meaning as a function
  from socket to socket, branch by branch. 32-bit and 8-bit wrap-around is written out (`Words.U32`, `Words.U8`).
  `Host.Step` is the whole machine: one arrival, one call of the user or one timer handler per step, because each of
  them runs under the socket lock.
* `TcpSocket.TcpSock` is the engine as the C code has it, an object whose methods update fields and queues in place
  and loop where the C code loops. Every method is proved to have exactly the effect of its function, up to
  `Handle`, which takes exactly the step `Host.Step`. All that is proved about the functions is therefore true of
  the object.
* `Arrivals` says what every event leaves on a socket's receive queues, whatever its state; `Confluence`, `Buffers`
  and `Limits` build on it.
* `Network` runs two such sockets over a network that may lose, duplicate, delay and reorder every packet in both
  directions. The data goes one way; both ends come up through the handshake of this stack.
* `List`, `SkBuffs`, `Buffers`, `HeaderRoom`, `Timers`, `TimerQueue`, `Checksum`, `IpHeader` and `Options` are the
  structures underneath, on the heap where the C code is.

Two history fields, `wire` and `done`, and the history of each timer record what the C code does not keep; nothing
in the engine reads them.

## Main results

* Whatever the network does, the bytes read, followed by those waiting to be read, are a prefix of the bytes written
  (`Network.EndToEnd`), every packet carries the right bytes (`Network.WireCarriesStream`), and an empty write queue
  means that everything has arrived (`Network.AcknowledgedMeansDelivered`).
* No reachable state is stuck: one timeout, one delivery each way and at most one delayed acknowledgement always
  shorten the write queue (`Progress.NeverStuck`, `Progress.NoRunGetsStuck`). And the network always holds a copy of
  everything in flight, so that deliveries alone, without a timeout, finish the transfer: from every reachable state
  of a live sender some continuation ends with an empty write queue and a reader that was given every byte written
  (`Delivery.EverythingIsDelivered`).
* Over any run in which segments of one division of the stream arrive, what was received is the longest contiguous
  prefix of those that passed the checks when they arrived (`Confluence.ArrivalsHold`); their order and repetition
  never matter if and only if the last segment starts within the first window
  (`Confluence.ArrivalOrderIsIrrelevant`). For every segmentation, overlapping or not, a prefix of the stream is
  delivered (`Receiver.RunReceives`).
* An open that loses SYNs: the wire holds one SYN per timeout and one more, all alike, up to five; the answer to any of
  them opens the connection, and both ends then use an MSS of 1460 and SACK (`Opening.SynsOnWire`,
  `Opening.AnySynOpens`, `Opening.LostSynsAreSurvived`, `Opening.OpenAgrees`).
* A blocking read for more than one write returns that write as soon as all of it has arrived, in whatever order
  (`Reading.ArrivedWriteIsRead`), and a read returns exactly for the reasons listed in `Reading.ReadReturnsWhen`.
* The round-trip estimates of a run are those of its samples, each moving them as RFC 6298 says; equal samples
  bring the variation down geometrically (`Estimates.RunEstimates`, `Estimates.SteadySamplesSettle`).
* In every run the user timeout runs for three minutes from the last use, RSTs are sent in three cases and no others,
  and the error of a socket tells what happened (`Endings.UserTimeoutFollowsUse`, `Endings.ResetsAreSent`,
  `Endings.ErrorsAreTold`).
* Karn's rule, the RTO's bounds and doubling, and the ten timeouts after which a connection is given up
  (`Karn.KarnsRule`, `Timing.EstimatesStayBounded`, `Timing.TenTimeoutsGiveUp`).
* There is an acknowledgement for at least every second full-sized segment, in every run, delayed acknowledgements,
  reads and writes in between included (`DelayedAcks.EverySecondSegment`), and where nothing else calls for one there is
  none for the first (`DelayedAcks.SecondIsAcknowledged`).
* SACK blocks are the first maximal runs of the out-of-order queue, and the acknowledgement sent at once reports
  them and leaves none over (`Sacks.SacksAreFirstRuns`, `Sacks.DeferReportsRuns`).
* The states only move up, along the figure of RFC 793 (`Lifecycle.StepForward`, `Lifecycle.StatesOnlyAdvance`).
* Every received buffer is freed exactly once, over every run of the machine: each way out of `tcp_input_state` is
  written with its own free, and the lists of buffers follow `Host.Run` step by step
  (`Buffers.RxQueues.InputState`, `Buffers.Serve`).

Properties that the code keeps only in part are stated as equivalences, with the input that breaks them:

* queueing overtakes waiting data if nothing is in flight (`SenderQueue.QueueTransmitKeepsLayout`), which happens
  after the peer's FIN (`Limits.PeerFinReordersStream`);
* the order of arrivals matters as soon as a segment starts beyond the window that the receiver has at first
  (`Confluence.ArrivalOrderIsIrrelevant`, `Confluence.FarSegmentIsLost`);
* insertion into the out-of-order queue keeps its order unless the segment runs into a later one
  (`Reassembly.InsertKeepsOrder`, `Confluence.OverlapBreaksConfluence`);
* the TCP checksum is right exactly while a 32-bit accumulator does not overflow, which it does for every pair of
  addresses whose last bytes add up to 256 or more (`Checksum.TcpChecksumIsRfc1071`, `Checksum.HighAddressesOverflow`);
* when two SYNs cross, the acknowledgement that should complete the handshake is refused, because only one of nothing is
  taken (`Opening.SynReceivedNeedsOldAck`);
* the smoothed round-trip time comes down to a constant one but may stop up to 7 ms short of it from below
  (`Estimates.SmoothedTimeFalls`, `Estimates.SmoothedTimeRises`);
* the handshake completes exactly for initial sequence numbers other than 0 and 2^32 - 1
  (`Limits.HandshakeNeedsGoodIss`), and a connection whose peer chose one of the last 44478 receives nothing in any
  run, while every other can (`Limits.LateIssIsDeaf`);
* `FIN_WAIT_2` is entered when the data is acknowledged, not the FIN (`Limits.FinWait2NeedsOnlyData`);
* TIME_WAIT is left after 60 seconds unless it was entered from CLOSING (`Lifecycle.TimeWaitIsTimed`);
* a segment's text is taken from the wrong place if it has options (`Limits.TextNeedsNoOptions`), and the options of
  a SYN are not read if they take 20 bytes or more (`Options.MssIsUnderstood`);
* a round-trip sample misses the true time by exactly what the RTO has changed by since its flight left, so the first
  sample of a flight is right (`Flights.SampleOfFlight`) and a later one can be wrong (`Flights.LaterSampleIsWrong`);
* a delayed acknowledgement is sent when its timer is due if and only if no segment has been taken quietly since, that
  is in sequence without PSH, FIN, a second full size or a burst of its own (`DelayedAcks.AckIsOnTime`): with data such
  a segment starts the timer anew, without limit (`DelayedAcks.AckCanBePutOff`), and without data, as a pure ACK, it
  stops the timer, and the acknowledgement is never sent (`DelayedAcks.PendingIsLost`, `DelayedAcks.AckIsLost`);
* what is in flight keeps its retransmission timer if and only if no call queues behind waiting data while nothing is
  in flight, and the SYN's timer does not fire after the handshake (`Flights.FlightStaysCovered`,
  `Limits.QueueTransmitKeepsCovered`);
* LAST_ACK is entered if and only if a timeout resends a FIN in CLOSE_WAIT, so a socket that closes second and whose FIN
  is acknowledged in time stays in CLOSE_WAIT (`Lifecycle.LastAckNeedsTimeout`,
  `Lifecycle.AckedFinStaysInCloseWait`).

## Model

| member | source | states |
|---|---|---|
| `Network.EndToEnd` | src/tcp_data.c:34-128 | over a network that loses, duplicates and reorders, what was read and what waits to be read is a prefix of what was written |
| `Network.ReachableInv` | src/tcp_input.c:264-502 | the invariant of the composed system holds in every reachable state |
| `Network.ApplyKeepsInv` | src/tcp_input.c:264-502 | every action of either end or of the network keeps it |
| `Network.WireCarriesStream` | src/tcp_output.c:131-156 | every packet ever sent, first time or again, carries the written bytes at the offset its sequence number names |
| `Network.AcknowledgedMeansDelivered` | src/tcp_input.c:66-92 | a sender with nothing left to acknowledge has had every written byte delivered |
| `Network.TimerArmedWhileInFlight` | src/tcp_output.c:409-419 | the retransmission timer is armed exactly while something is in flight, and something is in flight exactly while anything is queued |
| `Network.QueueIsTailOfStream` | src/tcp_output.c:198-225 | the write queue holds exactly the written bytes from `snd_una` on, its untransmitted part with sequence number 0 |
| `Network.HandshakeOpens` | src/tcp_input.c:183-200 | two active opens, each answered by a SYN+ACK, leave two established sockets with empty queues and agreed sequence numbers |
| `Progress.NeverStuck` | src/tcp_output.c:359-407 | from every state of the invariant with unacknowledged data and `rto <= 60000`, timeout, delivery, delayed ACK and ACK strictly shorten the write queue |
| `Progress.NoRunGetsStuck` | src/tcp_input.c:469-493 | so every run can be continued to one with a shorter write queue |
| `Progress.RtoResends` | src/tcp_output.c:376-401 | a timeout puts the head segment on the wire once more, at `snd_una`, and loses nothing |
| `Progress.RepeatReports` | src/tcp_input.c:283-291 | a repeated or awaited segment makes the receiver acknowledge all it has, at once or when its delayed-ACK timer fires |
| `Progress.AckShortens` | src/tcp_input.c:330-336 | an acknowledgement beyond `snd_una` takes at least one segment off the queue |
| `Delivery.EverythingIsDelivered` | src/tcp_input.c:330-352 | from every reachable state of a live sender and an open receiver some run of deliveries, delayed ACKs and a read, without a timeout, empties the write queue and gives the reader every byte written |
| `Delivery.StepCopies` | src/tcp_output.c:131-156 | every step of a live sender keeps a copy of each segment in flight on the wire |
| `Delivery.RoundShortens` | src/tcp_input.c:469-493 | delivering a copy of the head segment, and then the answer, takes it off the sender's queue |
| `DelayedAcks.EverySecondSegment` | src/tcp_input.c:469-493 | in every run, from the first to the second of any two full-sized segments taken by a socket that accepts text (ESTABLISHED, FIN_WAIT_1, FIN_WAIT_2) some step acknowledges everything received, whatever else arrives, is read, written or expires |
| `DelayedAcks.DataIsAnswered` | src/tcp_input.c:475-491 | in every run, data taken in sequence is acknowledged at once, which stops the timer, or, if and only if it is taken quietly, starts a 200 ms timer and sends nothing |
| `DelayedAcks.StepAcks` | src/tcp_input.c:469-493 | a full-sized segment not yet acknowledged stays counted until an acknowledgement is sent, by a burst, an ACK or the timer |
| `DelayedAcks.DelacksIsFullSinceAnswer` | src/tcp_input.c:486-487 | in every run `delacks` is the number of full-sized segments taken since the last ACK chosen or the last delayed ACK, and never above one |
| `DelayedAcks.SecondIsAcknowledged` | src/tcp_input.c:486-491 | in every run, where neither a FIN nor a burst acknowledges, a segment in sequence is acknowledged at once if and only if it is pushed or is the second full-sized one since then; otherwise nothing is sent |
| `DelayedAcks.PendingIsLost` | src/tcp_input.c:475-491 | in every run, a segment loses the pending acknowledgement, unsent and without timer, if and only if it is taken quietly and has no data; and it leaves or sends it if and only if it is not taken quietly or starts the same timer |
| `DelayedAcks.AckIsOnTime` | src/tcp_input.c:475-491 | over every run, the tick at which a started timer is due sends the acknowledgement if and only if no segment has been taken quietly since |
| `DelayedAcks.AckIsLost` | src/tcp_input.c:475 | one byte and then a pure ACK: the byte is not acknowledged in any run of reads and timers that follows |
| `DelayedAcks.AckCanBePutOff` | src/tcp_input.c:475-491 | a peer that sends one unpushed byte every 200 ms is not acknowledged for any number of them |
| `SenderQueue.QueueTransmitKeepsLayout` | src/tcp_output.c:131-156 | queueing a segment keeps the queue a transmitted prefix and an untransmitted rest if and only if nothing untransmitted is overtaken |
| `SenderQueue.CleanKeepsLayout` | src/tcp_input.c:66-92 | an acknowledgement on a segment boundary removes exactly what it covers and keeps the layout |
| `SenderQueue.CleanBounds` | src/tcp_input.c:72-84 | cleaning never removes an untransmitted segment and stops at the first that is not wholly acknowledged |
| `SenderQueue.SendNextKeepsLayout` | src/tcp_output.c:198-225 | sending the next burst extends the transmitted prefix consecutively and puts only the stream's bytes on the wire |
| `SenderQueue.RetransmitIsGood` | src/tcp_output.c:369-381 | the retransmission of the head at `snd_una` carries the bytes that belong there |
| `Sender.InputKeepsSender` | src/tcp_input.c:317-357 | any segment of a data-less peer keeps the sender in order, or retires it |
| `Sender.EventKeepsSender` | src/tcp_output.c:445-478 | so do the calls of the user and the timers, with the stream extended by what was written |
| `Sender.SegmentizeCutsStream` | src/tcp_output.c:453-473 | the segments cut from a write are well formed and hold exactly its bytes in order |
| `Receiver.RunReceives` | src/tcp_data.c:34-85 | for every segmentation of one stream, overlapping or not, through any mix of arrivals and reads, bytes read and bytes queued are the stream up to `rcv_nxt` |
| `Receiver.EventReceives` | src/tcp_input.c:396-434 | every single event keeps that |
| `Receiver.DequeueTakesFront` | src/tcp_data.c:49-78 | a read takes the first bytes of the queue, at most as many as asked for, and leaves the rest in order |
| `Receiver.UnaFollowsAcks` | src/tcp_input.c:330-350 | `snd_una` only ever becomes a number that a segment acknowledged |
| `AckSource.EventKeepsAcking` | src/tcp_output.c:247-267 | what the receiver acknowledges is always a segment boundary that it has reached |
| `AckSource.CarriedFits` | src/tcp.c:36-51 | a packet of the sender agrees with its stream, and its FIN comes after all of it |
| `AckSource.FinKeepsAcking` | src/tcp_input.c:418-434 | taking the peer's FIN keeps that |
| `Reassembly.InsertKeepsOrder` | src/tcp_data.c:6-31 | insertion keeps the queue sorted if and only if the segment is already queued or does not run into a later one |
| `Reassembly.InsertKeepsDisjoint` | src/tcp_data.c:6-31 | and free of overlaps if and only if it is already queued or overlaps nothing |
| `Reassembly.ArrivalFills` | src/tcp_data.c:93-126 | a segment from `rcv_nxt` on takes its place in the queue, and if it fills the gap everything up to the next gap is received |
| `Arrivals.InputQueues` | src/tcp_input.c:264-502 | after any arrival in any state: text is queued if and only if the segment passes every check in a state that accepts text, `rcv_nxt` counts a FIN if and only if it is in sequence and passes, and only a SYN, a refused connection and the last ACK change the queues otherwise |
| `Arrivals.CallQueues` | src/tcp.c:52-55 | no call or timer touches the receive queues, except that `tcp_done` empties the out-of-order queue and an active open restarts `rcv_nxt` |
| `Arrivals.NeverFreedTwice` | src/tcp_data.c:93-96 | in no run does text meet a closed window, after which the buffer would be freed twice |
| `Confluence.ArrivalsHold` | src/tcp_data.c:87-128 | over any run with arrivals from a fixed division: what was read and what waits is the longest contiguous prefix of the segments that passed the checks when they arrived, and the others wait in order |
| `Confluence.SegmentArrives` | src/tcp_input.c:100-113 | a segment joins those held if and only if it starts no further than `rcv_nxt + rcv_wnd` |
| `Confluence.ArrivalOrderIsIrrelevant` | src/tcp_input.c:104-110 | all pairs of arrival sequences with the same segments, in any order and multiplicity, end in the same queues and `rcv_nxt` if and only if the last segment of the division starts no further than the base plus the window |
| `Confluence.FarSegmentIsLost` | src/tcp_input.c:104-110 | the failing order for every other division: the last segment first, then the rest in order, ends short of it |
| `Confluence.OverlapBreaksConfluence` | src/tcp_data.c:14-17 | three segments, two of them overlapping, whose order of arrival decides whether the stream goes on |
| `Reassembly.WaitingIsAbove` | src/tcp_data.c:34-47 | the out-of-order queue is disjoint, sorted and wholly above `rcv_nxt` |
| `Sacks.RunsCover` | src/tcp.c:453-484 | the runs of a queue cover exactly the sequence numbers queued |
| `Sacks.RunsBounds` | src/tcp.c:453-484 | the runs are ascending, disjoint and not adjacent |
| `Sacks.SacksAreFirstRuns` | src/tcp.c:453-484 | the computed blocks are the first runs, as many as the connection allows, at least one and at most four |
| `Sacks.CalculateFills` | src/tcp.c:453-484 | the array is filled from the front without gaps, for every queue |
| `Sacks.SackFillsReservedSpace` | src/tcp_output.c:65-91 | the option fills the space that `tcp_options_len` reserved, byte for byte, and clears the array |
| `Sacks.EncodeRoundTrip` | src/tcp_output.c:76-86 | the encoded blocks decode to the reported ones, last first |
| `Sacks.BigEndianRoundTrip` | src/tcp_output.c:79-80 | the four bytes of a block edge in network order read back as the edge |
| `Sacks.DeferReportsRuns` | src/tcp_data.c:114-124 | the immediate ACK of an out-of-order segment reports the first runs and leaves no block over |
| `Invariants.StepKeepsInv` | src/tcp_input.c:264-502 | every event keeps the socket's invariant, whatever peer and user do |
| `Invariants.RunKeepsInv` | src/tcp_output.c:138-153 | in every run: at most 3 in flight and no more than queued, at most one live retransmission timer, no SACK block between steps, POLLIN set exactly when data waits |
| `Invariants.DeferKeepsInv` | src/tcp_data.c:110-125 | an out-of-order segment leaves the SACK array empty again |
| `Invariants.ReadKeepsInv` | src/tcp_data.c:80-82 | reading clears POLLIN exactly when the queue runs empty |
| `Timing.EstimatesStayBounded` | src/tcp.c:423-451 | for samples in [0, M], `srtt` and `rttvar` stay in [0, M] and a measured RTO in [200, M + max(200, 4M)] |
| `Estimates.SampleMoves` | src/tcp.c:423-451 | in every run an accepted sample r moves the estimates by a quarter and an eighth, the variation against the old smoothed time, rounded down; the first is taken over with r / 2; and the RTO becomes the smoothed time plus max(200, four variations) |
| `Estimates.WhatIsMeasured` | src/tcp.c:423-428 | a segment that passes the checks is measured if and only if it acknowledges something new outside back-off while the timer runs; for the first of a flight nothing else is needed |
| `Estimates.RunEstimates` | src/tcp.c:430-443 | over every run the estimates are what its samples, in order, make of nothing: no other event moves them |
| `Estimates.SteadySamplesSettle` | src/tcp.c:441 | n samples equal to the smoothed time leave at most (3/4)^n of the variation |
| `Estimates.SmoothedTimeFalls` | src/tcp.c:442 | from above, the distance to a constant sample shrinks by an eighth per sample and ends at it |
| `Estimates.SmoothedTimeRises` | src/tcp.c:442 | from below likewise, but it may stop up to 7 ms short |
| `Flights.SampleOfFlight` | src/tcp.c:423-428 | in every run an accepted acknowledgement is measured as the time since its flight left plus the present RTO minus the RTO armed with; so the first sample of a flight is the elapsed time |
| `Flights.RunTimed` | src/tcp_output.c:409-419 | in every run the expiry time is the time of arming plus the duration armed for, and the RTO is the one armed with until a sample is taken |
| `Flights.NothingJoinsFlight` | src/tcp_output.c:138-153 | in every run, what is in flight grows without the timer being armed if and only if a write or close queues behind waiting data while nothing is in flight; any other flight leaves as a whole |
| `Flights.FlightStaysCovered` | src/tcp_output.c:138-153 | in every run, what is in flight still has a retransmission timer after a step that does not end the connection if and only if the step neither overtakes waiting data nor fires the SYN's timer late |
| `Flights.RunStaysCovered` | src/tcp_output.c:409-419 | so in a run without such a step it always has one until the connection is over |
| `Flights.TimeoutIsNotEarly` | src/timer.c:71 | in every run a retransmission timeout has no effect until more than the duration armed for has passed since the arming |
| `Flights.BurstIsOfThree` | src/tcp_input.c:477-485 | the next burst sends the first three queued segments, or all if there are fewer |
| `Flights.CrossingSynIsStranded` | src/tcp_output.c:325-357 | a run in which the second happens: two SYNs cross, and the SYN's timer leaves it in flight without one |
| `Timing.ArrivalMeasures` | src/tcp_input.c:330-336 | the estimators are given an arrival's sample if and only if it passes the checks, acknowledges something new and no back-off is under way |
| `Flights.LaterSampleIsWrong` | src/tcp.c:425-428 | a run of a socket in which the second sample of a flight reads 113 ms after 120 ms |
| `Timing.TenTimeoutsGiveUp` | src/tcp_output.c:384-396 | from any RTO of at least 200 ms, ten firings with no segment measured in between, whatever else arrives, end the connection and there is no eleventh |
| `Karn.KarnsRule` | src/tcp.c:423-428 | whenever a sample is taken, nothing in flight has been resent; and the RTO is its value at the start of the episode, doubled per timeout |
| `Karn.BackOffEnds` | src/tcp_input.c:86-89 | the back-off count is cleared, at an acknowledgement of something new, if and only if everything in flight is covered |
| `Karn.StaysUnresent` | src/tcp_input.c:86-89 | if nothing in flight had been resent, or all of it has since been acknowledged, nothing in flight has been resent after the step either |
| `Lifecycle.StepForward` | src/tcp_input.c:359-467 | every step moves up the order of states, and unless it gives the connection up (abort, RST acted on, user timeout, last retransmission) it follows a path of figure 6 of RFC 793 |
| `Lifecycle.StatesOnlyAdvance` | src/tcp.c:254-314 | in every run the state never moves down |
| `Lifecycle.ClosedStatesAbsorb` | src/tcp.c:175-242 | CLOSING and TIME_WAIT are never left for others, take no data and deliver none |
| `Lifecycle.TimeWaitIsTimed` | src/tcp_input.c:366-371 | a segment that moves the connection to TIME_WAIT starts the 60-second timer if and only if it is a RST or the connection does not come from CLOSING |
| `Lifecycle.LastAckNeedsTimeout` | src/tcp_output.c:398-400 | any step enters LAST_ACK if and only if a retransmission timeout resends a FIN in CLOSE_WAIT |
| `Lifecycle.LastAckAfterTimeout` | src/tcp.c:276-280 | so no run reaches LAST_ACK without such a timeout |
| `Lifecycle.AckedFinStaysInCloseWait` | src/tcp_input.c:359-380 | a FIN sent from CLOSE_WAIT and acknowledged at once leaves nothing queued, no timer, and the state CLOSE_WAIT |
| `Opening.FirstSyn` | src/tcp_output.c:51-60 | the SYN of a new socket is one packet with the bytes 2 4 5 180 1 1 4 2 as options |
| `Opening.SynIsResent` | src/tcp_output.c:325-357 | in every run a timeout in SYN_SENT sends the same SYN once more and waits 1, 2, 4, then 8 seconds; the fifth sends nothing and ends the connection with a timeout |
| `Opening.SynsOnWire` | src/tcp_output.c:336-349 | over every run in SYN_SENT the wire holds one SYN more than there were timeouts, all alike; there are at most five timeouts |
| `Opening.AnySynOpens` | src/tcp_input.c:148-200 | in every run that waits, the answer to any SYN on the wire, first or resent, leaves an established socket with empty queue and agreed numbers |
| `Opening.LostSynsAreSurvived` | src/tcp_output.c:341-349 | if all SYNs so far are lost, the next timeout puts one on the wire whose answer opens the connection |
| `Opening.RetriedOpenIsInitial` | src/tcp_input.c:183-200 | two sockets so opened are a start of the composed system, however many SYNs it took |
| `Opening.SynSentDecides` | src/tcp_input.c:148-200 | in SYN_SENT: ignored, refused, established with an ACK of the peer's SYN, or half open, by flags and acknowledgement number |
| `Opening.OpenStartsAfresh` | src/tcp_input.c:185-189 | an open that succeeds starts with an RTO of one second and no back-off, whatever came before |
| `Opening.SynReceivedNeedsOldAck` | src/tcp_input.c:317-323 | in every run SYN_RECEIVED is left by a segment if and only if it is a RST or acknowledges nothing: the acknowledgement of the SYN is refused |
| `Opening.SynOptionsAreLearnt` | src/tcp_input.c:7-60 | the options of a SYN on one end's wire, arriving with the answer to the other's, give an MSS of 1460 and SACK exactly if both ends allow it |
| `Opening.OpenAgrees` | src/tcp_output.c:46-63 | so in runs of this stack both ends use an MSS of 1460 and up to four SACK blocks |
| `Opening.OpenWithoutOptions` | src/tcp_input.c:46-60 | an answer without options leaves an MSS of 536 and no SACK |
| `Opening.HandshakeAgrees` | src/tcp_output.c:46-63 | the start of the composed system with the options that the two SYNs carry has an MSS of 1460 and SACK at both ends |
| `Reading.DequeueReportsPush` | src/tcp_data.c:49-78 | a read reports PSH if and only if it uses up a buffer with that flag |
| `Reading.ReadReturnsWhen` | src/tcp_input.c:504-544 | a pass ends the call if and only if PSH was noted or used up, FIN is noted, all was had, or it does not wait and got some; and PSH ends one call |
| `Reading.WholeWriteIsRead` | src/tcp_output.c:453-473 | a blocking read for more returns exactly one write whose segments wait |
| `Reading.ArrivedWriteIsRead` | src/tcp_data.c:49-128 | also when those segments arrived in any order and number |
| `Reading.PartOfWriteWaits` | src/tcp_input.c:518-533 | while the pushed segment is missing the call waits |
| `Reading.ReadOfNothing` | src/tcp_input.c:513 | a call for no bytes returns at once where reading is possible |
| `Reading.ClosedReadsNothing` | src/tcp.c:200-236 | a closed or closing socket delivers nothing and is not changed by a read |
| `Reading.EndIsToldOnce` | src/tcp.c:216-227 | in CLOSE_WAIT the end of the stream is told by one read of an empty queue, and the next read waits |
| `Reading.FinIsNoted` | src/tcp_input.c:428-430 | a FIN that is taken is noted and makes the socket readable |
| `Endings.UserTimeoutFollowsUse` | src/tcp.c:412-421 | in every run, until the connection is over, the user timeout expires three minutes after the last accepted write, returning read, or opening, and does not run before |
| `Endings.UnusedIsReset` | src/tcp.c:386-399 | so it resets the connection if and only if more than three minutes have passed since then |
| `Endings.ResetsAreSent` | src/tcp_output.c:480-498 | in every run a RST at `snd_nxt` is sent, as the one packet of the step, in answer to a segment other than a RST in CLOSE, on abort, and on user timeout, and never otherwise |
| `Endings.ErrorsAreTold` | src/tcp_input.c:116-134 | in every run the error is changed by connecting, opening, a refusal, a timeout and a second close, to the code of each, and by nothing else |
| `Endings.TimeoutGivesUp` | src/tcp_output.c:376-401 | in every run a timeout resends the head; above an RTO of 60 seconds it ends the connection with a timeout, otherwise the RTO doubles |
| `Endings.CloseDoes` | src/tcp.c:254-288 | closing gives up, queues one FIN behind what was written and sends it if nothing is in flight, or fails |
| `Endings.WriteTakes` | src/tcp.c:175-195 | a write adds its bytes once at the end of the queue if and only if the state sends and no error is pending |
| `Endings.EndStopsTimers` | src/tcp.c:297-325 | the end of a connection stops every timer and drops what waits out of order; TIME_WAIT is left with the 60-second timer alone |
| `Endings.RefusedSegments` | src/tcp_input.c:282-314 | a segment outside the window is answered by an ACK unless it is a RST; inside it a RST leads to TIME_WAIT, and a SYN or a segment without ACK changes nothing |
| `Endings.TimeWaitAnswers` | src/tcp_input.c:372-388 | TIME_WAIT acknowledges a FIN sent again and any segment in sequence, and stays |
| `Limits.HandshakeNeedsGoodIss` | src/tcp_input.c:72-92 | an active open completes, with its SYN off the queue, if and only if the initial sequence number is neither 0 nor 2^32 - 1 |
| `Limits.WindowAcceptsSome` | src/tcp_input.c:100-113 | some segment passes the sequence check if and only if `rcv_nxt + rcv_wnd` is below 2^32 |
| `Limits.ClosedWindowTakesNoData` | src/tcp_input.c:104 | a closed window lets pass exactly the next segment in sequence without data |
| `Limits.LateIssIsDeaf` | src/tcp_input.c:183-184 | an opened connection can receive anything at all, in any run, if and only if the peer's initial sequence number is not among the last 44478 |
| `Limits.PeerFinReordersStream` | src/tcp_input.c:469-493 | after the peer's FIN a new write is sent at the sequence number of data that still waits, and is in flight without a timer |
| `Limits.QueueTransmitKeepsCovered` | src/tcp_output.c:138-153 | queueing a segment keeps a timer for what is in flight if and only if something was in flight or nothing was queued |
| `Limits.TwoWritesQueue` | src/tcp_output.c:142-153 | two writes on a fresh connection lead to the state in which that happens |
| `Limits.FinWait2NeedsOnlyData` | src/tcp_input.c:359-365 | a closing sender enters FIN_WAIT_2 if and only if its data is acknowledged, one below the FIN's own number |
| `Limits.TextNeedsNoOptions` | src/tcp.c:46-50 | the text of a segment is always taken right if and only if the segment has no options |
| `Options.SynOptionsParseBack` | src/tcp_input.c:7-60 | option bytes of a SYN parse to the same MSS (537..1460) and to SACK exactly when both ends allow it; that these are the bytes sent is `Opening.FirstSyn` |
| `Options.AnnouncedMssIsUsed` | src/tcp_output.c:46-63 | the MSS of 1460 that the stack announces is the one its peer uses |
| `Options.MssIsUnderstood` | src/tcp_input.c:15-44 | a leading MSS option, if the next one is not another, is understood if and only if the options take fewer than 20 bytes |
| `Options.ParseStuck` | src/tcp_input.c:36-43 | an unknown option is never stepped over and hides all that follow |
| `TcpSocket.TcpSock.Handle` | src/tcp_input.c:264-502 | any event changes the object exactly as `Host.Step` says and keeps it valid, so that every result about `Host.Run` holds of it |
| `TcpSocket.TcpSock.CalculateSacks` | src/tcp.c:453-484 | the loop over the queue fills the array as `Tcp.SackWalk` says |
| `TcpSocket.TcpSock.OptionsLength` | src/tcp_output.c:227-245 | the option space is two bytes and eight per block, rounded up to a word |
| `TcpSocket.TcpSock.WriteOptions` | src/tcp_output.c:65-91 | the option bytes are `TcpOutput.OptionsAfter`, and the blocks written are cleared |
| `TcpSocket.TcpSock.SendNext` | src/tcp_output.c:198-225 | the first `amount` queued segments are sent and stamped in place |
| `TcpSocket.TcpSock.Send` | src/tcp_output.c:445-478 | the loop cuts the data into MSS-sized segments, the last with PSH, and queues each |
| `TcpSocket.TcpSock.InsertOrdered` | src/tcp_data.c:6-31 | the walk inserts as `TcpData.InsertOrdered` says, going on past an overlap |
| `TcpSocket.TcpSock.ConsumeOfoQueue` | src/tcp_data.c:34-47 | everything that continues the stream moves to the receive queue |
| `TcpSocket.TcpSock.DataDequeue` | src/tcp_data.c:49-85 | the bytes returned, the rest of the queue, PSH and POLLIN |
| `TcpSocket.TcpSock.ParseOpts` | src/tcp_input.c:7-60 | the option loop, with its one-byte length, sets MSS and SACK as `TcpInput.ParseFrom` says |
| `TcpSocket.TcpSock.CleanRtoQueue` | src/tcp_input.c:66-92 | the acknowledged prefix goes, and the timer stops if nothing is left in flight |
| `List.ListAdd` | include/list.h:19-25 | inserting after a node keeps the ring and inserts into its sequence |
| `List.ListAddTail` | include/list.h:27-33 | inserting before a node does too; before the head it appends |
| `List.ListDel` | include/list.h:35-42 | deleting a node keeps the ring and removes it from its sequence |
| `List.ListEmpty` | include/list.h:58-61 | a list is empty if and only if its head points to itself |
| `List.ForEach` | include/list.h:50-51 | forward traversal meets the nodes of the sequence in order, once each, and ends |
| `List.ForEachBack` | include/list.h:6-9 | backward traversal meets them in the reverse order |
| `SkBuffs.SkBuffHead.Tail` | include/skbuff.h:61-65 | the buffer is last and the length counted |
| `SkBuffs.SkBuffHead.Add` | include/skbuff.h:55-59 | the buffer stands before the one named |
| `SkBuffs.SkBuffHead.Dequeue` | include/skbuff.h:67-74 | the first buffer leaves a non-empty queue |
| `SkBuffs.SkBuffHead.Peek` | include/skbuff.h:81-86 | the first buffer, or none if and only if the queue is empty |
| `SkBuffs.SkBuffHead.QueueFree` | include/skbuff.h:88-97 | draining takes out and frees every buffer once and ends with an empty queue |
| `SkBuffs.SkBuff.Free` | src/skbuff.c:22-28 | a buffer is freed if and only if nobody counts on it; it must not have been freed before, nor may any other operation be given a freed one |
| `Buffers.RxQueues.InsertOrdered` | src/tcp_data.c:6-31 | the list walk does to the queue what `TcpData.InsertOrdered` does to its values, and counts the buffer if it took it |
| `Buffers.RxQueues.ConsumeOfo` | src/tcp_data.c:34-47 | relinking from one list to the other is `Arrivals.Released`, which is `TcpData.ConsumeOfo`, and loses no buffer |
| `Buffers.RxQueues.DataDequeue` | src/tcp_data.c:49-78 | a read is `TcpData.Dequeue` on the values; each exhausted buffer is freed, once |
| `Buffers.RxQueues.DataQueue` | src/tcp_data.c:87-128 | the buffer is on exactly one queue with one reference or is nobody's, the queues are `Arrivals.Queueing`; with a closed window it is freed here |
| `Buffers.RxQueues.OnOpen` | src/tcp_input.c:282-498 | every way out of `tcp_input_state`, each with its own free, leaves the queues of `Arrivals.QueuesAfter` and every buffer freed or queued once |
| `Buffers.RxQueues.OnSynSent` | src/tcp_input.c:148-214 | so do the ways out of `tcp_synsent` |
| `Buffers.RxQueues.InputState` | src/tcp_input.c:264-502 | whatever the state, the queues are then those of `TcpInput.Input`, and of all buffers ever received exactly the queued ones are alive |
| `Buffers.RxQueues.ClearQueues` | src/tcp.c:52-55 | the end of a connection frees the out-of-order queue |
| `Buffers.RxQueues.SockFree` | src/sock.c:30-34 | the end of a socket frees the receive queue |
| `Buffers.Serve` | src/tcp_input.c:264-502 | over every trace of events the lists follow `Host.Run`, the reader gets what `ReadOver` says, and in the end each buffer received has been freed, none twice |
| `HeaderRoom.AllocSegment` | src/tcp_output.c:10-21 | a new segment has room for exactly its headers |
| `HeaderRoom.Transmit` | src/tcp_output.c:93-102 | after the pushes TCP and IP header stand where they are looked for, and the packet fills the buffer from `head` to `end` |
| `HeaderRoom.Rewind` | src/skbuff.c:50-54 | whatever became of the last attempt, the buffer is ready for the next |
| `HeaderRoom.SendRepeatedly` | src/tcp_output.c:378-381 | however often and with whatever fortune a segment is sent, no push goes below `head`, and what goes out is `head` to `end` |
| `Timers.RunInv` | src/timer.c:47-167 | what holds of every timer holds in every run in which holders give up their references once |
| `Timers.TimersAreOnTime` | src/timer.c:71-82 | a handler starts at most once, after `expire` and within 10 ms more; nothing is freed that was neither cancelled nor fired, or is still referenced |
| `Timers.TickFreesExactly` | src/timer.c:71-82 | in every run a tick frees exactly the timers that are not locked, not held, and fired, cancelled or due |
| `Timers.NothingLeaks` | src/timer.c:76-81 | after a tick that found nothing locked every timer left is held or within its time |
| `Timers.CancelledNeverStarts` | src/timer.c:152-167 | after cancellation a handler is not started, whatever follows |
| `Timers.CancelStops` | src/timer.c:163-164 | cancelling puts the timer into that position |
| `Timers.SweepSplits` | src/timer.c:58-85 | a sweep neither loses nor repeats a timer |
| `TimerQueue.TimerList.TimerAdd` | src/timer.c:112-134 | a timer with one reference joins the list |
| `TimerQueue.TimerList.TimerOneshot` | src/timer.c:90-110 | a timer without references joins the list |
| `TimerQueue.TimerList.TimerRelease` | src/timer.c:136-150 | a reference is given up |
| `TimerQueue.TimerList.TimerCancel` | src/timer.c:152-167 | a reference is given up and the timer cancelled |
| `TimerQueue.TimerList.TimersTick` | src/timer.c:47-88 | the sweep that deletes while it walks takes the step `Timers.Tick` |
| `Checksum.SumEvery16Bits` | src/utils.c:22-38 | the loop adds up the little-endian words, modulo 2^32 |
| `Checksum.ComputeChecksum` | src/utils.c:40-55 | folding the carries terminates and gives the complement of the folded sum |
| `Checksum.FoldMeaning` | src/utils.c:50-52 | folding keeps the sum modulo 65535, and is zero only for zero |
| `Checksum.SumIsOnesSum` | src/utils.c:22-38 | the folded sum of little-endian words is the byte-swapped ones' complement sum of RFC 1071, odd lengths included |
| `Checksum.ChecksumIsRfc1071` | src/utils.c:40-55 | stored in memory, the result is the RFC 1071 checksum of the bytes |
| `Checksum.TcpUdpChecksum` | src/tcp.c:87-98 | the result is the RFC 1071 checksum of pseudo-header and segment if and only if the accumulator does not overflow |
| `Checksum.TcpChecksumIsRfc1071` | src/tcp.c:87-98 | the same, for all addresses and data |
| `Checksum.HighAddressesOverflow` | src/tcp.c:92-95 | hosts whose last address bytes add up to 256 or more never get a right checksum |
| `IpHeader.SendCheck` | src/ip_output.c:8-12 | the checksum is stored in the header and nothing else changes |
| `IpHeader.FillHeader` | src/ip_output.c:30-53 | the 20 bytes of the header that is sent, with its checksum |
| `IpHeader.Receive` | src/ip_input.c:22-43 | a header is accepted if and only if version, length, time to live and checksum are right |
| `IpHeader.FilledHeaderVerifies` | src/ip_input.c:38-43 | whatever a header holds, filling in its checksum makes it verify |
| `IpHeader.DamagedWordIsDetected` | src/ip_input.c:38-43 | a damaged word goes unnoticed if and only if 0 became 0xFFFF or the reverse |
| `IpHeader.SentHeaderIsAccepted` | src/ip_output.c:32-53 | every header sent is accepted, and length, identification, don't-fragment, time to live, protocol and addresses read back |

## Left out

- Sequence wrap-around: comparisons are plain 32-bit comparisons, so the results about runs are for runs that stay below 2^32, and those about progress for windows that do (`Limits.WindowAcceptsSome` says why); the wrap itself is in the functions.
- Data in both directions: the composed system sends one way and its receiver does not close, because `Limits.PeerFinReordersStream` shows that the order is lost otherwise; `Receiver.RunReceives` covers a receiver with any peer.
- Abort and resets in the composed system: `AbortRequest`, a user timeout and a RST retire the sender; what is then proved of it is that the packets already sent stay good.
- `tcp_receive` that sleeps: a blocking read is a sequence of passes, each one step.
- `Buffers.RxQueues`: the receive side only; buffers of the write queue carry no reference and are modelled by value in `TcpSocket`.
- `TcpSocket.TcpSock`: its queues are sequences of buffer values; links, reference counts and freeing are in `Buffers`, header room in `HeaderRoom`.
- `TimerQueue.TimerList`: the list of timers is a sequence of objects; the links are in `List`.
- `Options.SynOptionsParseBack`: what `tcp_parse_opts` reads behind the end of the packet is taken to be 0.
- `HeaderRoom.AllocSegment`: allocation does not fail, and a header length is a whole number of words.
- Timer resolution: `Host.Step` runs a handler at any tick after its expiry; that ticks come every 10 ms is in `Timers`. The tick does not wrap.
- The gap between a timer's firing and its handler taking the socket lock: firing and handling are one step.
- `tcp_rtt` computes two weights in `double`; the model computes the truncated results in integers.
- Poll bits other than POLLIN, `recv_notify`, wake-ups and the socket's `SS_` states.
- The SYN's option bytes when the stack has SACK blocks to report before the handshake, and the timestamp option, which the stack never sends.
- Urgent data, send window, congestion control, challenge ACKs, LISTEN and passive open: the code does nothing there.
- ARP, ICMP, routing, the TUN device, IPC, file descriptors, threads and locks.
- IP fragments and IP options: the code ignores them.

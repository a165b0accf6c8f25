# A verified model of the C-Stabilizer service

C-Stabilizer is the C++ version of the Eunomia service. Partitions stream frames that carry a
heartbeat and timestamped labels. One thread receives and decodes them, a second one orders the
labels and sends out, in batches, those that no partition can precede any more. This project models
that service in Dafny and proves what its parts keep over whole runs, and what they give together.

Check everything with `dafny verify dfyconfig.toml`.

## The files

| file | what it models |
|---|---|
| `Messages.dfy` | labels, messages, concatenation |
| `StableOrder.dfy` | stable sorting and the timestamp-ordered multimap |
| `Stabilizer.dfy` | the stabilizer as a state machine on values, with the theorems about its runs |
| `ProcessingThread.dfy` | the imperative consumer thread, refining that state machine |
| `HandoffQueue.dfy` | the three spliced linked lists on the heap |
| `Handoff.dfy` | the two threads as a step system: mutex, condition variable, credit counter |
| `Buffer.dfy` | the growable NUL-terminated byte buffer |
| `Numerals.dfy`, `Framing.dfy` | `atoi`, `strtoul`, `strtok`, the payload parser and the matching printer |
| `Cuts.dfy`, `Stream.dfy` | incremental decoding of frames from chunks |
| `Receiver.dfy` | the imperative framer and parser |
| `Clients.dfy` | several connections: one buffer each, one decoded sequence |
| `Merge.dfy` | what that sequence inherits from the connections, and what their interleaving cannot change |
| `Ties.dfy` | exactly when the interleaving shows in what is delivered |
| `Session.dfy`, `Pipeline.dfy` | the composition: code on one heap, and bytes to batches for all connections and schedules |
| `Sender.dfy` | buffered sending with partial writes |
| `Wheel.dfy`, `SocketManager.dfy` | the timing wheel, timer IDs and the event loop |

## What is assumed

- Partitions (main theorem only): IDs are in the configured table, heartbeats never decrease, and a
  new label is no older than its partition's previous heartbeat (`Stabilizer.FollowsProtocol`).
  `Stabilizer.OrderedIffPunctual` says, without that assumption, exactly when emission stays ordered.
- Configuration is complete before the first message arrives.
- The stream is a concatenation of well-formed frames; on other input the C++ code leaves defined
  behaviour or never resynchronises. Every chunk has at least two bytes, because the receiver looks
  at the byte before the last one. `unsigned long` has 64 bits, `int` 32.
- The credit capacity plus one packet fits an `int`; the value set by the main program is 50000.
- A partition sends on one connection only (theorems about several connections that need the protocol).
- Timer intervals are at least one tick, no timer is deleted twice, and timers are never marked as
  already removed. Ticks do not wrap around.
- `epoll_ctl` succeeds, and `write` on a non-empty request either fails or accepts at least one byte.

Elapsed times, kernel answers, thread schedules and what callbacks do are arbitrary. Batches count as
delivered when they are handed to the label receiver.

Where comments and code disagree the code is followed: a comment in `src/ServerAPI.cpp:207-209` puts
the heartbeat before the partition ID and leaves out the `L=` prefix and the closing `#`, but the
parser reads the partition first and the framer insists on both. Numbers are read by `strtoul` with
base 0, so a leading zero selects octal; `Numerals.DecimalIffNoLeadingZero` says exactly when this
changes the value.

## Model

| member | source | states |
|---|---|---|
| Stabilizer.EmissionIsStableSort | src/ProcessingThread.cpp:120-186 | for every protocol-following run, all batches followed by the pending list are the values of the stable sort of all labels received, cut at the stable time, and the rest is what is stored |
| Stabilizer.OrderedIffPunctual | src/ProcessingThread.cpp:136-172 | for every run, emitted labels followed by stored ones are the stable sort of everything received if and only if no message brought a label below the last one emitted before it |
| Stabilizer.SortedIffPunctual | src/ProcessingThread.cpp:136-172 | one late label leaves the emission out of order for good, and nothing else does |
| Stabilizer.ProtocolIsPunctual | src/ProcessingThread.cpp:120-172 | partitions that follow the protocol never deliver a late label |
| Stabilizer.Conservation | src/ProcessingThread.cpp:136-172 | for every run the labels received are those emitted plus those stored, with multiplicity |
| Stabilizer.BatchesAreTheLog | src/ProcessingThread.cpp:174-186 | batches followed by the pending list are the emitted values in order; each batch is longer than the delivery size and the pending list never is |
| Stabilizer.FlushesWhole | src/ProcessingThread.cpp:174-218 | one more message of any run sends either nothing or, once the pending values with the newly stable ones exceed the delivery size, all of them in one batch, leaving nothing pending; the report counter adds up and starts over at its threshold |
| Stabilizer.StableTimeMonotone | src/ProcessingThread.cpp:120-134 | between any two points of a run that follows the protocol the stable time never goes back |
| Stabilizer.StoredAboveStable | src/ProcessingThread.cpp:145-172 | after every message of any run whatsoever only labels above the stable time remain stored |
| Stabilizer.NothingHeldBack | src/ProcessingThread.cpp:125-172 | once every heartbeat has reached t no label up to t is held back |
| Stabilizer.EmittedUpToStable | src/ProcessingThread.cpp:145-172 | under the protocol nothing above the stable time has been emitted |
| Stabilizer.StableTime | src/ProcessingThread.cpp:125-134 | the value is the minimum of the heartbeat table, attained by some partition |
| Stabilizer.StableUnique | src/ProcessingThread.cpp:125-134 | that minimum does not depend on the partition the scan starts from |
| Stabilizer.ReportCounter | src/ProcessingThread.cpp:209-218 | the report counter stays below a positive threshold between messages |
| StableOrder.SortIsStableSort | src/ProcessingThread.cpp:136-143 | filling the multimap in arrival order sorts by timestamp and keeps equal timestamps in arrival order |
| StableOrder.StableSortUnique | src/ProcessingThread.cpp:136-143 | there is only one stable sort, so the specification determines the emission |
| StableOrder.InsertBehindLog | src/ProcessingThread.cpp:136-143 | inserting behind already emitted labels equals re-sorting everything if and only if no inserted label is below the last emitted one |
| StableOrder.UpperBound | src/ProcessingThread.cpp:164-169 | the position the alternative deletion code asks the multimap for: first timestamp above the bound |
| ProcessingThreads.ProcessingThread.SetClientCount | src/ProcessingThread.cpp:51-56 | entries 1 to count are zero, others are kept |
| ProcessingThreads.ProcessingThread.UpdateHeartbeatTable | src/ProcessingThread.cpp:120-123 | exactly one entry is overwritten |
| ProcessingThreads.ProcessingThread.GetStableTimestamp | src/ProcessingThread.cpp:125-134 | returns the table minimum for any seed; an unknown seed is entered with 0 |
| ProcessingThreads.ProcessingThread.InsertBatchLabels | src/ProcessingThread.cpp:136-143 | the loop inserts all labels in order |
| ProcessingThreads.ProcessingThread.DeletePossibleLabels | src/ProcessingThread.cpp:145-172 | the loop removes exactly the prefix up to the stable time, as the commented-out version would |
| ProcessingThreads.ProcessingThread.DoPossibleBatchDelivery | src/ProcessingThread.cpp:174-186 | flushes the pending list exactly when it is longer than the delivery size |
| ProcessingThreads.ProcessingThread.ProcessMessage | src/ProcessingThread.cpp:200-218 | one message takes the state machine one step |
| ProcessingThreads.ProcessingThread.Drain | src/ProcessingThread.cpp:193-222 | the drain loop applies the consumer list in order and empties it |
| ProcessingThreads.ProcessingThread.ProcessQ | src/ProcessingThread.cpp:188-225 | splices, applies every message handed over so far, leaves the rest queued, and returns one packet's credit per message |
| HandoffQueue.Queue.PushToQueue | src/ThreadUtil.cpp:28-35 | links behind the tail, or becomes the head of an empty list whose tail may be stale |
| HandoffQueue.EventQueueFrame.AddToProducerQueue | src/ThreadUtil.cpp:50-52 | extends the abstract queue at its end and keeps the lists disjoint and terminated |
| HandoffQueue.EventQueueFrame.PushToIntermediateQueue | src/ThreadUtil.cpp:60-75 | the splice leaves the abstract queue unchanged and empties the producer list |
| HandoffQueue.EventQueueFrame.PollFromIntermediateQueue | src/ThreadUtil.cpp:76-90 | the splice leaves the abstract queue unchanged and empties the intermediate list |
| HandoffQueue.EventQueueFrame.PollFromConsumerQueue | src/ThreadUtil.cpp:91-100 | takes the oldest message of the abstract queue, or null exactly when the consumer list is empty |
| Handoff.ScheduleIndependence | src/ProcessingThread.cpp:188-225 | under every schedule the messages applied are a prefix of the input, and the stabilizer state is the one that prefix determines |
| Handoff.Always | src/ThreadUtil.cpp:60-162 | every reachable state keeps credit, order, mutual exclusion and wake-ups |
| Handoff.PacketBound | src/ThreadUtil.cpp:142-162 | the unsigned subtraction never underflows, the counter stays below capacity plus 24, and capacity 50000 allows at most 2084 packets in flight |
| Handoff.PacketBoundIsReached | src/ThreadUtil.cpp:142-152 | the bound is exact: some schedule fills the queue up to the first multiple of a packet no less than the capacity, 2084 packets for capacity 50000, and there the receiver waits |
| Handoff.StuckMeansFinished | src/ThreadUtil.cpp:142-162 | with positive capacity the threads never wait both, and no step is possible only when all input is processed and credited |
| Handoff.DeadlockIffNoCapacity | src/ThreadUtil.cpp:142-162 | some schedule deadlocks if and only if the capacity is zero |
| Handoff.BlockedReceiverIsServed | src/ThreadUtil.cpp:142-162 | while the receiver is blocked the processor is never parked, and every one of its steps brings the counter nearer to falling below capacity |
| Handoff.FairSchedulesFinish | src/ThreadUtil.cpp:142-162 | from every reachable state, 224 rounds per message, 32 per spurious wake-up and 33 more, each offering both threads a move, process and credit the whole input; without wake-ups both threads come to rest |
| Handoff.ReceiverApproaches | src/ThreadUtil.cpp:142-152 | every receiver step brings the end nearer |
| Handoff.ProcessorApproaches | src/ProcessingThread.cpp:188-225 | while nothing is reserved every processor step brings the end nearer; while something is, the processor may spin but loses nothing |
| Handoff.CompleteForEver | src/ProcessingThread.cpp:188-225 | once everything is processed and credited no step, spurious wake-ups included, changes that |
| Handoff.WakesCost | src/ThreadUtil.cpp:142-162 | a spurious wake-up sets the threads back by a constant |
| Handoff.CanFinish | src/ProcessingThread.cpp:112-118 | from every reachable state some schedule processes the whole input |
| Handoff.UnfairSchedulesNeedNot | src/ProcessingThread.cpp:188-225 | a processor that is scheduled alone never gets anything to do |
| Handoff.ProcessorCredit | src/ThreadUtil.cpp:153-162 | crediting keeps the counter equal to 24 per packet queued, uncredited or reserved |
| Buffer.ClientData.constructor | src/Data.cpp:6-11 | an empty, terminated buffer |
| Buffer.ClientData.ResetData | src/Data.cpp:23-26 | empties the buffer and restores the terminator |
| Buffer.ClientData.Append | src/Data.cpp:37-54 | on both growth paths the contents are extended by the bytes and stay terminated |
| Buffer.ClientData.DeleteFromStart | src/Data.cpp:56-60 | drops exactly the first bytes and stays terminated |
| Numerals.AccumulateInvertsPrint | src/ServerAPI.cpp:91-109 | reading decimal digits inverts decimal printing |
| Numerals.AtoiInvertsPrint | src/ServerAPI.cpp:90-109 | `atoi` inverts printing; C promises it for every number that fits an `int` |
| Numerals.StrToUlInvertsPrint | src/ServerAPI.cpp:91-108 | `strtoul` with base 0 inverts printing without leading zeros |
| Numerals.StrToUlSelectsBase | src/ServerAPI.cpp:91-108 | `0x` selects base 16 and any other leading zero base 8, values beyond the word size saturate, text behind the digits is ignored |
| Numerals.AtoiIgnoresTail | src/ServerAPI.cpp:90-109 | `atoi` ignores the text behind the digits |
| Numerals.SpaceInFront | src/ServerAPI.cpp:90-109 | both conversions skip white space in front |
| Numerals.DecimalIffNoLeadingZero | src/ServerAPI.cpp:91-108 | a digit string is read as decimal if and only if it has no leading zero or its value is below eight |
| Numerals.StrToUlOfNegative | src/ServerAPI.cpp:91-108 | a minus sign negates modulo the word size |
| Numerals.AtoiInvertsPad | src/ServerAPI.cpp:140-143 | the zero-padded length field is read back |
| Framing.TokensOfJoin | src/ServerAPI.cpp:84-103 | a `strtok` loop inverts joining non-empty parts free of the delimiter |
| Framing.TokensConcat | src/ServerAPI.cpp:84-103 | a delimiter separates what is before it from what is behind it; neighbouring delimiters and those at the ends yield no tokens |
| Framing.ParseInvertsPrint | src/ServerAPI.cpp:77-117 | the three nested splits and conversions return every message in range from its printed payload |
| Framing.ExtraFieldsIgnored | src/ServerAPI.cpp:77-117 | fields behind the third are ignored |
| Stream.LengthOfPrefix | src/ServerAPI.cpp:123-147 | the frame length is known exactly from the eleventh byte on |
| Stream.DecodePartial | src/ServerAPI.cpp:148-161 | an incomplete frame is left alone |
| Stream.DecodeFrame | src/ServerAPI.cpp:161-201 | a complete frame is consumed exactly and yields its message, whatever follows |
| Stream.DecodesIffFrameAtFront | src/ServerAPI.cpp:123-201 | decoding gets anywhere exactly when a complete frame with its end mark is at the front; otherwise the buffer stays as it is |
| Stream.FrameHasNoCR | src/ServerAPI.cpp:207-217 | no well-formed frame contains a carriage return |
| Stream.NoTrim | src/ServerAPI.cpp:207-217 | the telnet rule leaves every chunk of a stream without carriage returns as it is |
| Stream.LineEndIsDropped | src/ServerAPI.cpp:211-219 | a chunk that ends in a carriage return and one more byte counts without these two |
| Stream.OtherChunksAreKept | src/ServerAPI.cpp:211-219 | every other chunk counts as it is |
| Stream.TelnetLines | src/ServerAPI.cpp:211-219 | a telnet session that sends one frame a line gets every message through |
| Stream.FeedDecodesWholeFrames | src/ServerAPI.cpp:148-222 | any chunking of a stream prefix yields the messages of the complete frames and keeps the partial frame |
| Stream.ChunkIndependence | src/ServerAPI.cpp:148-222 | two chunkings of the same bytes yield the same messages and the same leftover |
| Cuts.SplitPrefix | src/ServerAPI.cpp:161-201 | every prefix of the stream is whole frames followed by a proper prefix of the next |
| Cuts.SplitUnique | src/ServerAPI.cpp:161-201 | that split is determined by the bytes received |
| ReceiverThread.GetPayLoadLength | src/ServerAPI.cpp:123-147 | the scan stays inside the buffer thanks to the terminator and computes the declared length |
| ReceiverThread.LengthDigits | src/ServerAPI.cpp:140-143 | stale bytes behind the terminator do not influence the length |
| ReceiverThread.Split | src/ServerAPI.cpp:84-89 | the `strtok` loop collects all tokens |
| ReceiverThread.ProcessedSocketData | src/ServerAPI.cpp:77-122 | the parser's loops build the message the payload denotes |
| ReceiverThread.KeptIsSuffix | src/ServerAPI.cpp:176-183 | exactly the first ignored messages are dropped |
| ReceiverThread.KeptConcat | src/ServerAPI.cpp:176-183 | ignoring does not depend on how messages are grouped |
| ReceiverThread.ServerAPI.HandOver | src/ServerAPI.cpp:176-183 | a counted message is queued last, or dropped while ignoring |
| ReceiverThread.ServerAPI.TakeFrame | src/ServerAPI.cpp:163-188 | two deletions remove exactly one frame |
| ReceiverThread.ServerAPI.Decode | src/ServerAPI.cpp:148-203 | the loop ends, consumes the complete frames and queues their messages in order |
| ReceiverThread.ServerAPI.OnData | src/ServerAPI.cpp:204-222 | appends the chunk, less a telnet line end, and decodes |
| Clients.Demultiplex | src/ServerAPI.cpp:148-222 | however the chunks of several clients interleave, each client's share of the decoded messages and its buffer are what its own bytes alone give |
| Clients.ReceivedIff | src/ServerAPI.cpp:148-222 | reception stays within defined behaviour exactly when it does for every client alone |
| Clients.WholeFramesEach | src/ServerAPI.cpp:148-222 | for every interleaving of well-formed streams a client's share is the messages whose frames it has sent in full, and its buffer holds the frame under way |
| Clients.WholeStreamsEach | src/ServerAPI.cpp:148-222 | once all bytes are there every client's messages are decoded and every buffer is empty |
| Clients.EveryMergeHappens | src/ServerAPI.cpp:148-222 | any order of well-formed messages is what some arrivals decode to |
| Merge.TableAtHome | src/ProcessingThread.cpp:120-123 | a partition's heartbeat depends on the connection it sends on and on no other |
| Merge.MergedProtocol | src/ProcessingThread.cpp:120-172 | partitions that keep the protocol on connections of their own keep it in the merged sequence, for every interleaving |
| Merge.ProtocolDrop | src/ServerAPI.cpp:176-183 | ignoring the first messages does not break the protocol |
| Merge.SharesFixLabels | src/ProcessingThread.cpp:136-143 | the labels received do not depend on the interleaving of the connections |
| Merge.SharesFixTable | src/ProcessingThread.cpp:120-134 | nor does the heartbeat table |
| Merge.SameLossIff | src/ServerAPI.cpp:176-183 | with a start ignored, the same messages count in two interleavings if and only if every connection lost equally many |
| Ties.InvariantIffCommuting | src/ProcessingThread.cpp:136-143 | the labels of a timestamp come in the same order in every interleaving if and only if, at that timestamp, messages of different connections commute |
| Ties.CommutingStreams | src/ProcessingThread.cpp:136-143 | that condition can be read off the streams alone |
| Ties.InterleavingsAgree | src/ProcessingThread.cpp:120-186 | complete runs over the same streams, interleaved differently, emit and keep back the same labels in the same order up to equal timestamps, and deliver the same values exactly when the labels up to the stable time arrived in the same order timestamp by timestamp |
| Ties.DeliveryInvariantIff | src/ProcessingThread.cpp:120-186 | the delivered values are the same for every interleaving if and only if messages of different connections commute at every timestamp up to the stable time |
| Ties.InterleavingShows | src/ProcessingThread.cpp:136-186 | two labels with one timestamp on two connections are delivered in the order of the interleaving |
| Session.DeliverTo | src/ServerAPI.cpp:204-222 | a chunk changes its own client's buffer only |
| Session.Serve | src/ServerAPI.cpp:148-222 | any number of connections on one heap: messages applied followed by messages queued are the decoded ones that are not ignored, after a drain all of them are applied, and every buffer holds its client's frame under way |
| Pipeline.StateDependsOnMessagesOnly | src/MultiplexerServer.cpp:31-51 | for every set of connections, interleaving, chunking and schedule the stabilizer has applied a prefix of the decoded messages and is in the state that prefix determines |
| Pipeline.DecodedFollowProtocol | src/ServerAPI.cpp:148-203 | what is decoded from disciplined connections follows the protocol, with or without ignored messages |
| Pipeline.EmissionEndToEnd | src/ProcessingThread.cpp:188-225 | bytes in on any connections, in any interleaving and chunking, under any schedule: at every moment the output is the stable sort of the applied labels cut at the stable time |
| Pipeline.SameOrderSameBatches | src/ProcessingThread.cpp:174-225 | only the order in which frames are completed decides the batches, boundaries included |
| Pipeline.SameStreamSameBatches | src/ProcessingThread.cpp:174-225 | one connection: the same stream gives the same batches, boundaries included, whatever the chunks and schedules |
| Pipeline.SameCountedIff | src/ServerAPI.cpp:176-183 | for two complete receptions of the same streams, the same messages count exactly when every connection lost equally many to the ignored start |
| Pipeline.InterleavingDoesNotMatter | src/ProcessingThread.cpp:174-225 | complete deployments fed the same streams with equal losses agree up to the order of equal timestamps, for every ignored count, and in all delivered values exactly when labels up to the stable time arrived in the same order |
| Pipeline.InterleavingMattersIff | src/ProcessingThread.cpp:120-225 | over all complete arrivals of the streams with the same losses the delivered values are one and the same if and only if messages of different connections commute up to the stable time |
| Pipeline.FairRunsDeliver | src/ProcessingThread.cpp:112-118 | from any point of any run, enough fair rounds end with the result of everything received, each client's whole stream included |
| Sender.BytesConserved | src/SocketManager.cpp:652-695 | bytes written followed by the buffer are everything sent, in order, for all event sequences and kernel answers |
| Sender.NoStrandedOutput | src/SocketManager.cpp:571-591 | unsent bytes of a live client always wait for EPOLLOUT or for its disconnect |
| Sender.DisarmedIffEmpty | src/SocketManager.cpp:571-591 | comparing the two lengths disarms EPOLLOUT exactly when nothing is left |
| Sender.DrainStops | src/SocketManager.cpp:662-687 | a drain writes on exactly while writes are accepted and bytes are left, and ends done, blocked or broken as the kernel's answers say |
| Sender.SendOutcome | src/SocketManager.cpp:652-695 | what a send does to the connection, read off the kernel's answers |
| Sender.WritableOutcome | src/SocketManager.cpp:571-591 | what an EPOLLOUT event does to the connection, read off the kernel's answers |
| Sender.SendReports | src/Client.cpp:51-55 | `Send` answers true exactly when no earlier EAGAIN is unserved and this drain met none, and true with bytes unsent exactly when, besides, the socket failed |
| Sender.SendUnderreportsIff | src/Client.cpp:51-55 | `Send` answers false with everything written exactly when an earlier EAGAIN is unserved and this drain completes |
| Sender.WrongReportsHappen | src/Client.cpp:51-55 | both wrong answers are reached from a fresh connection in one or two calls |
| Sender.Client.WriteLoop | src/SocketManager.cpp:657-687 | the loop writes a prefix of the buffer without repeating a byte |
| Sender.Client.SendToClient | src/SocketManager.cpp:652-695 | the three ways out: drained, would block, failed |
| Sender.Client.Send | src/Client.cpp:51-55 | appends, drains, reports |
| Sender.Client.OnWritable | src/SocketManager.cpp:571-591 | the EPOLLOUT branch refines its specification |
| Wheel.ExpiryIsTimely | src/SocketManager.cpp:57-98 | an expiry is never early, exact unless a catch-up interfered, late by at most a lap per visit and one turn more for a missed short timer, after exactly the rounded-up number of visits |
| Wheel.RefiledTracks | src/SocketManager.cpp:347-366 | re-filing keeps travelled plus remaining distance equal to the interval plus the delay |
| Wheel.NewPeriodTracks | src/SocketManager.cpp:328-345 | a newly filed timer starts with its whole interval ahead |
| Wheel.LapsIsCeiling | src/SocketManager.cpp:354-363 | the number of hops is the interval divided by 1023, rounded up |
| Wheel.NotOverdue | src/SocketManager.cpp:57-98 | a box still on the wheel is overdue by at most a lap per visit it has had, one turn more if it was missed, and has visits left |
| Wheel.AfterTakeSlot | src/SocketManager.cpp:57-66 | whatever is found in the current slot is due at the current tick |
| Wheel.AfterPut | src/SocketManager.cpp:328-366 | filing a box keeps every box in the slot of a unique tick of the window, and every slot in the order of filing |
| Wheel.AfterGather | src/SocketManager.cpp:146-158 | gathering a box keeps the wheel consistent and the gathered list in the order of due ticks and filing |
| Wheel.AfterTick | src/SocketManager.cpp:99-130 | time passes an empty slot only, so no box is stepped over |
| Wheel.AfterGatherTick | src/SocketManager.cpp:138-159 | the same during a catch-up sweep of at most a lap |
| Wheel.FreeAfterPop | src/SocketManager.cpp:696-701 | a popped ID is carried by no box |
| Wheel.FreeAfterPush | src/SocketManager.cpp:81-83 | an ID given back is free once |
| Wheel.FreeAfterGrow | src/SocketManager.cpp:701-716 | growing the table adds exactly the new IDs |
| Wheel.HistoryGrows | src/SocketManager.cpp:72-79 | an expiry extends the chain: it is timely, stands behind all earlier ones, its period began at the timer's last expiry, and a one-shot timer has none before |
| Wheel.ServedInOrder | src/SocketManager.cpp:57-98 | of two boxes served at one tick the one due earlier, or filed earlier for the same tick, fires first |
| Wheel.SlotInServingOrder | src/SocketManager.cpp:343-364 | the boxes of the current slot stand in the order in which they were filed |
| Wheel.PeriodsApart | src/SocketManager.cpp:72-89 | of two expiries of one timer the second comes at least a whole interval later, and the timer is a repeated one |
| Wheel.NoDrift | src/SocketManager.cpp:72-89 | the k-th expiry of a timer no catch-up interfered with is exactly k intervals after its creation |
| Wheel.SteppedOverIff | src/SocketManager.cpp:121-130 | a timer created during a poll is stepped over by the jump after it if and only if its interval is shorter than the jump, and is then met a whole turn late |
| Wheel.AfterStepOver | src/SocketManager.cpp:121-130 | after a jump over new boxes every box is again in the slot of a unique tick of the window |
| Wheel.AheadIsElsewhere | src/SocketManager.cpp:328-345 | a box goes into the slot being emptied if and only if its distance is zero |
| Wheel.LiveBox | src/SocketManager.cpp:68-70 | the box of a timer that was not deleted is alive |
| Wheel.ProgressOne | src/SocketManager.cpp:57-98 | visiting one box neither disturbs those that wait nor undoes what was done for the others |
| TimerManager.SocketManager.constructor | src/SocketManager.cpp:7-34 | all IDs are free and the wheel is empty |
| TimerManager.SocketManager.GetTimerIDFromStack | src/SocketManager.cpp:696-718 | hands out an unused ID from the top of the stack, growing the table by 128 only when none is left |
| TimerManager.SocketManager.AddToTimerList | src/SocketManager.cpp:328-345 | files a new timer one hop ahead, behind the boxes already there, in the current slot only if its interval is zero |
| TimerManager.SocketManager.AddToCorrectSlot | src/SocketManager.cpp:347-366 | files a visited timer one hop ahead, behind the boxes already there, never in the current slot |
| TimerManager.SocketManager.CreateTimer | src/SocketManager.cpp:210-220 | a new timer gets an ID no box carries |
| TimerManager.SocketManager.DeleteTimer | src/Timer.cpp:52-55 | only the timer's own ID dies; a fired one-shot has none and affects nobody; the number of expiries so far is noted |
| TimerManager.SocketManager.Retire | src/SocketManager.cpp:80-84 | a fired one-shot loses its ID, which becomes free |
| TimerManager.SocketManager.Reclaim | src/SocketManager.cpp:86-97 | the box of a dead timer is dropped and its ID becomes free |
| TimerManager.SocketManager.Settle | src/SocketManager.cpp:76-89 | after the callback exactly the repeated live timers start a new period |
| TimerManager.SocketManager.Expire | src/SocketManager.cpp:70-89 | a live timer with no distance left fires, and a repeated one starts over unless its callback deleted it |
| TimerManager.SocketManager.Visit | src/SocketManager.cpp:68-97 | the callback runs exactly when the timer is live and has no distance left; a live timer is served, and no other box is disturbed |
| TimerManager.SocketManager.ProcessSlot | src/SocketManager.cpp:57-98 | the slot of the current tick is emptied, first filed, first served, and every box due at it whose timer stays undeleted has fired or was re-filed for exactly the rest of its way |
| TimerManager.SocketManager.GatherAll | src/SocketManager.cpp:136-162 | the sweep clears the ticks it skips, lists what it finds in the order of due ticks and filing, and moves on by the deviation, at most 1023 |
| TimerManager.SocketManager.FireAll | src/SocketManager.cpp:135-208 | every box due in the skipped ticks whose timer stays undeleted has fired or was re-filed once, right after the jump, in the order of the due ticks and of filing |
| TimerManager.SocketManager.PollInterval | src/SocketManager.cpp:111-119 | the look-ahead stops at the nearest occupied slot |
| TimerManager.SocketManager.ReadSockets | src/SocketManager.cpp:121-122 | socket callbacks may create and delete any timers; those there before keep their boxes, new ones start their period at the current tick |
| TimerManager.SocketManager.Skip | src/SocketManager.cpp:123-130 | a jump misses exactly the boxes due in the ticks it skips, each of which is met one turn later |
| TimerManager.SocketManager.Poll | src/SocketManager.cpp:121-130 | the jump after a poll is at most as long as the poll, an overrun goes to the deviation; no box there before the poll is stepped over, and of the timers created during it exactly those shorter than the jump are |
| TimerManager.SocketManager.CatchUp | src/SocketManager.cpp:101-109 | the lag moves the wheel on by at most one lap less a tick, and only the time spent catching up is carried over |
| TimerManager.SocketManager.Turn | src/SocketManager.cpp:56-132 | one turn of the loop keeps the whole invariant, for all elapsed times and callbacks; position and deviation account for the measured times, and no timer deleted before it fires in it |
| TimerManager.SocketManager.Run | src/SocketManager.cpp:50-133 | for any number of turns expiries are timely and in the order of time, due tick and filing, every period of a timer begins at its last expiry, one-shots fire once, no timer fires after its deletion, and none is forgotten |
| TimerManager.SocketManager.EveryTimerIsServed | src/SocketManager.cpp:57-98 | every timer not deleted has fired as a one-shot or is on the wheel in a period that is not overdue |

## Left out

- Sockets, `epoll` registration and its failures, connection lists and disconnect callbacks: operating-system plumbing.
- The reply of the label receiver and short writes to it: a batch counts as delivered in one piece.
- Malformed frames: `Stream.Decode` marks input on which the C++ code has no defined behaviour and promises nothing there.
- ReceiverThread.ServerAPI.HandOver: queues without reserving credit; reserving, blocking and crediting are in the step system of `Handoff`, where the same push and splice follow the reservation.
- The critical sections of the queue mutex are single steps of the step system, since each touches one list boundary and never blocks.
- Termination when nearly every round brings a spurious wake-up, for ever.
- TimerManager.SocketManager.CreateTimer: an interval of zero, which the C++ code accepts, is excluded: its box lands in the slot being emptied, and for a repeated timer the loop over that slot never ends.
- Connections that break off: a buffer with a partial frame stays as it is.
- `strtok` writes terminators into its text; the model works on token values, so aliasing of tokens is not captured.
- Timer objects are never freed in the model, so a dangling pointer is a timer in the deleted set; boxes are values.
- Wall-clock accuracy and the wrap-around of the 32-bit tick counter: timer properties are stated in ticks.
- Overflow of counters of messages, batches and lengths beyond their C++ width.
- Detaching and re-attaching clients, statistics output, `Timer_Q` and `ThreadToken`.

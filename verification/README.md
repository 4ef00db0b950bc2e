# Gateway model

A Dafny model of the hard core of the 5GBD gateway in `kt_5gbd_dtb`: the program that sits between a field device (MQTT,
CAN), a cloud server (TCP) and an OTA service. The model follows the C code as written, including its quirks; where a quirk
makes the plain claim false, the exact condition under which it holds is proved instead.

Check everything with `dafny verify dfyconfig.toml`.

## What is modelled

**The shared queue** (`QueueSpec`, `RingQueue`, `QueueThreads`). `queue.c` twice: as a class over 64 byte arrays, head and
tail, and as a transition system in which any number of threads run `enqueue` and `dequeue` one micro-step at a time (lock,
test, copy one byte, write the size, advance, unlock). Both refine the same FIFO of at most 63 byte strings, so the
system-level machines below may take a queue call as one step.

**CAN fragmentation and retransmission** (`Clock`, `CanFrames`, `CanDevice`, `CanProtocol`, `CanTurns`). `can.c` as a class
on two byte queues with the packed header edited in place, and as a protocol of senders, transmit thread, retransmission
manager and clock, interleaved between every queue call and header update. A ledger per message gives conservation of the
retry budget; a history gives faithful fragments and the spacing of retransmissions. `CanTurns` shows that the protocol's
steps, run without interruption, are the turns of the class. Senders that wait while 63 messages are under way never lose a
try. The file is not linked by `src/Makefile` and the timer helpers are disabled in `publib.c`; the model takes the code for
what it evidently means (the local `data` pointer is a scratch buffer of `MAX_DATA_SIZE` bytes, and `check_retransmissions`
runs as a thread).

**The frame pipeline** (`Frames`, `Splitter`, `TcpClient`, `Fkz9Spec`, `Fkz9Loop`, `Pipeline`, `CloudDispatch`). Building and
validating frames with the additive 16-bit checksum; the MQTT callback that queues or splits; the event loop on its one
reused buffer; the TCP client that swallows data while disconnected; the splitter on that client, against whatever other
threads do before each attempt; and a machine of all of them together with a connection that comes and goes. The `int16_t`
comparison of the fkz9 validator and the never-reset table cursor of the cloud dispatcher each get an exact law.

**OTA tasks** (`TaskList`, `OtaCollect`, `OtaSpec`, `OtaRuns`, `OtaDrain`). The heap list with its 16-bit count, exactly,
including what happens at 65536 nodes; the download, digest check, transfer, start, collection and report of a task, against
an environment that may answer anything, with an event log; the two digest gates over every sequence of tasks; and the drain
loop over the list.

**The mission file** (`Scanning`, `MissionText`, `MissionDisk`, `MissionLog`, `MissionFile`, `UnitInfo`). Tasks for the next
reboot as text lines written, counted, read back and released by the reboot timer, with the timer's count, check, loading and
removal as separate steps. `MissionDisk` is the machine on the text: it writes any task and reads any line as far as `sscanf`
gets. `MissionLog` is the machine on records; as long as only tasks are written that the line format can carry, the text
machine refines it (`MissionFile`). Both start from any file an earlier process left. `UnitInfo` is the two-pass parser of the
unit list.

**The OTA side as a whole** (`MissionCycle`, `OtaProgram`). `MissionCycle` follows the tasks of one drain through text file,
reboot and the next drain. `OtaProgram` runs heartbeats, drain thread, timer and boot changes together, on one list and one
file, in any order.

## Where the plain claim fails

- A TCP `send` that returns 0 does not mean the data was kept (`TcpClient.Send`). The loop's output equals its trace if and only
  if no output met a full queue or a missing connection, and the split chunks come out whole if and only if the splitter never
  sent without a connection (`PipelineRefinesTrace`).
- The two validators agree up to a declared length of 132 bytes and disagree on some frame of every length from 133 on
  (`TestsAgreeOnShortFrames`, `TestsDisagreeFrom133`).
- Splitting a payload ends, under a sender thread that keeps up, if and only if its declared length is not 0
  (`FairSplitterEndsIff`), and sends the payload alone if and only if that length divides its own (`SplitsEvenlyIff`); otherwise
  the last chunk reaches past the payload.
- The dispatcher works as intended if and only if known signs arrive in nondecreasing table order with none after an unknown
  one (`IntendedIffInTableOrder`).
- A timeout is also reported when the clock has stepped back (`TimedOutIff`).
- The task list is a queue at its head if and only if its length is below 2, or at least 2 modulo 65536 (`HeadFaithfulIff`).
- Removing the mission file loses nothing if and only if at most 255 lines were counted and none was added between count and
  removal (`RemovalLosesNothingIff`), and a whole run conserves its tasks if and only if every removal in it is of that kind
  (`MissionsConservedIff`, `FileRefinesLog`); `WindowLosesATask` is the smallest loss.
- A task may be released, and run without a digest check, by the next timer call of the boot it was written in: the line format
  has no quoting, so a comma in the url makes the type pass for the boot stamp (`CommaReleasesAtOnce`; exactly when:
  `ReleasedAtOnceIff`, over runs: `QuietOnDisk`). A field survives the file if and only if it is nonempty and free of commas
  (`LineRoundTripIff`), and a first line with an empty field holds the file up for good (`EmptyFieldIsStuck`, `StuckForever`).
- A reboot is noticed if and only if the old stamp does not begin with the new one, and it releases the file if and only if the
  new one does not begin with the old: between stamps of one length, whenever they differ (`DiffersIff`, `EqualLengthDiffers`).
- A text behind the last semicolon of the unit list counts as a unit (`TailIsAnotherRecord`).
- A digest match is a search in all that `md5sum` prints: an empty digest always matches, and one that stands in the path of the
  file does (`MatchIff`, `LocalMatchIff`).
- `upgrade.sh` may start although no uploaded copy was checked: over any sequence of `AT_ONCE` tasks this happens if and only if
  for some task with a matching local digest the `rt-a100` directory was there when the transfer looked for it and gone when the
  update did (`UpgradeCheckedIff`, `UncheckedUpgradeExists`).
- A task whose own type contains `REBOOTED` skips the digest check even when it has just been downloaded
  (`NothingStartsUncheckedIff`).

## Model

| member | source | states |
|---|---|---|
| RingQueue.ThreadSafeQueue.constructor | kt_5gbd_dtb/lib/queue.c:10-22 | a new queue is empty, whatever the half of its sizes that is not cleared holds |
| RingQueue.ThreadSafeQueue.Enqueue | kt_5gbd_dtb/lib/queue.c:40-56 | refuses exactly when 63 items are inside, otherwise appends exactly the caller's bytes; every other item is untouched |
| RingQueue.ThreadSafeQueue.Dequeue | kt_5gbd_dtb/lib/queue.c:59-74 | hands out exactly the oldest item and leaves the bytes behind it in the caller's buffer as they were; refuses exactly when empty |
| RingQueue.FullAndEmpty | kt_5gbd_dtb/lib/queue.c:44-63 | the index tests for full and empty mean 63 items and none |
| QueueSpec.ReplayConserves | kt_5gbd_dtb/lib/queue.c:40-74 | in every legal history accepted items == delivered items ++ contents, and at most 63 are inside |
| QueueSpec.AnswersAreTrue | kt_5gbd_dtb/lib/queue.c:40-74 | in every legal history "empty" is answered only when all accepted items had been delivered, "full" only when 63 had not, and an item handed out is the oldest of those |
| QueueThreads.StepKeepsInv | kt_5gbd_dtb/lib/queue.c:40-74 | every micro-step of every thread keeps mutual exclusion, the half-done copy of the holder, and the agreement of ring and history |
| QueueThreads.EveryInterleavingIsAFifo | kt_5gbd_dtb/lib/queue.c:40-74 | in every interleaving of any number of callers at most one is in the critical section, and the calls in unlock order form a FIFO history whose contents are the ring's |
| QueueThreads.EveryCallIsAnswered | kt_5gbd_dtb/lib/queue.c:40-74 | in every interleaving each thread's calls are answered in the order it made them, each once and for the very item it passed, the last perhaps still under way |
| QueueThreads.FreeMutexIsTaken | kt_5gbd_dtb/lib/queue.c:42-61 | a waiting thread that moves while the mutex is free holds it afterwards |
| QueueThreads.HolderAlwaysAdvances | kt_5gbd_dtb/lib/queue.c:42-73 | each own step of the mutex holder lowers its remaining steps, which reach 0 exactly at the unlock |
| QueueThreads.OthersLeaveHolderAlone | kt_5gbd_dtb/lib/queue.c:42-73 | no step of another thread moves the holder or the mutex |
| Clock.BeTimeOutM | kt_5gbd_dtb/lib/publib.c:66-86 | same answer as the read-only variant, and restarts the stamp exactly when it reports a timeout |
| Clock.MsRunIsDifference | kt_5gbd_dtb/lib/publib.c:99-101 | `ms_run` is the difference of the two whole-millisecond readings in unsigned 64-bit arithmetic |
| Clock.TimedOutIff | kt_5gbd_dtb/lib/publib.c:88-107 | the answer is -1 exactly for `ms` below 1, 0 exactly when `ms` whole milliseconds have passed or the clock has stepped back, 1 otherwise |
| Clock.TimeoutMeansElapsed | kt_5gbd_dtb/lib/publib.c:88-107 | under a clock that does not run backwards a report means more than `ms` - 1 real milliseconds |
| Clock.ElapsedMeansTimeout | kt_5gbd_dtb/lib/publib.c:88-107 | once `ms` real milliseconds have passed the timeout is reported |
| Clock.CalcTimeOffIsFloor | kt_5gbd_dtb/lib/publib.c:110-126 | for any two readings the borrow computation is their difference in whole milliseconds, rounded down, cut to 32 bits |
| Clock.CalcTimeOffIsElapsed | kt_5gbd_dtb/lib/publib.c:110-126 | the borrow computation is the true elapsed time in whole milliseconds, and `ms_run` exceeds it by at most one |
| CanFrames.FragmentsExact | kt_5gbd_dtb/src/hal/can.c:45-62 | ceil(n/8) frames of the device's id, all but the last of eight bytes, the last of one to eight, together exactly the payload |
| CanFrames.PacketRoundTrip | kt_5gbd_dtb/src/hal/can.h:34-42 | a message and its packed header survive being stored as queue bytes |
| CanFrames.PackedLayout | kt_5gbd_dtb/src/hal/can.h:34-42 | which byte of a queue item holds what, numbers little-endian |
| CanDevices.CanDevice.Send | kt_5gbd_dtb/src/hal/can.c:149-163 | the message is queued for transmission with its whole budget and the present stamp, or dropped on a full queue |
| CanDevices.CanDevice.WriteFrames | kt_5gbd_dtb/src/hal/can.c:45-62 | the loop puts on the bus the fragments of the payload, up to the first failed write |
| CanDevices.CanDevice.Restamp | kt_5gbd_dtb/src/hal/can.c:64-67 | editing the header bytes in place takes one try and renews the stamp, and changes nothing else of the encoded message |
| CanDevices.CanDevice.TxTurn | kt_5gbd_dtb/src/hal/can.c:43-69 | the oldest message is written and, if tries remain, waits with one try less and a new stamp; the last try ends it |
| CanDevices.CanDevice.CheckTurn | kt_5gbd_dtb/src/hal/can.c:82-93 | the oldest waiting message goes to the transmit queue exactly when its timeout is reported, else to the back of the line |
| CanProtocol.LedgerStep | kt_5gbd_dtb/src/hal/can.c:42-94 | every step keeps, per message, one live copy at most and transmissions + tries left + tries dropped == number asked |
| CanProtocol.StepKeepsInv | kt_5gbd_dtb/src/hal/can.c:42-94 | every step of any actor keeps the ledger, the stamps, the rest before a retransmission and the history |
| CanProtocol.RetryBudgetConserved | kt_5gbd_dtb/src/hal/can.c:42-94 | over every run a message is sent at most `number` times, and once no copy is left exactly that often if and only if nothing of it was dropped; the messages are the sends of the run that the header branch takes, in order |
| CanProtocol.TransmissionsFaithfulAndSpaced | kt_5gbd_dtb/src/hal/can.c:42-94 | over every run complete transmissions of a message are the same frames, those of the sender's payload, and lie more than `timeouts` - 1 ms apart |
| CanProtocol.RestrainedSendersLoseNothing | kt_5gbd_dtb/src/hal/can.c:42-94 | if senders wait while 63 messages are under way nothing is ever dropped, and every message whose copy is gone was sent exactly as often as asked |
| CanProtocol.OverdueIsMoved | kt_5gbd_dtb/src/hal/can.c:83-89 | a waiting message whose timeout has really passed goes to the transmit queue, whatever other actors do before the manager's test and between test and requeue, if there is room by then |
| CanProtocol.ClockIsLatest | kt_5gbd_dtb/src/hal/can.c:83-89 | the clock of a run is one of its readings and no earlier than any in range |
| CanTurns.SendIsStep | kt_5gbd_dtb/src/hal/can.c:149-163 | the protocol's send is the device's |
| CanTurns.TxTurnIsSteps | kt_5gbd_dtb/src/hal/can.c:43-69 | the protocol's four transmit steps are the device's turn on its byte queues and bus |
| CanTurns.CheckTurnIsSteps | kt_5gbd_dtb/src/hal/can.c:82-93 | the protocol's three manager steps are the device's turn |
| Frames.CheckSum8 | kt_5gbd_dtb/src/services/cloud_comm.c:35-45 | the loop computes the byte sum modulo 65536 |
| Frames.BuildFrame | kt_5gbd_dtb/src/services/cloud_comm.c:665-705 | building field by field in a buffer yields the frame of that sign and payload and leaves the rest of the buffer |
| Frames.BuiltFrameIsAccepted | kt_5gbd_dtb/src/services/cloud_comm.c:809-815 | every built frame is accepted by the cloud validator, whatever stale bytes follow it, and reads back as the same sign and payload |
| Frames.FrameLayout | kt_5gbd_dtb/src/services/cloud_comm.c:665-705 | the bytes of a built frame: two 0xAA, the length and the checksum big-endian, the sign, the payload |
| Frames.KnownHeadersIff | kt_5gbd_dtb/src/services/cloud_comm.c:809-815 | a frame that is otherwise right is accepted if and only if its header is two 0xAA or two 0xBB |
| Frames.CorruptionUndetectedIff | kt_5gbd_dtb/src/services/cloud_comm.c:810-815 | a replaced payload under the same trailer is accepted if and only if the byte sums agree modulo 65536 |
| Frames.SingleByteChangeRejected | kt_5gbd_dtb/src/services/cloud_comm.c:810-815 | any change of one payload byte is rejected |
| Frames.TranspositionAccepted | kt_5gbd_dtb/src/services/cloud_comm.c:810-815 | exchanging two payload bytes is always accepted |
| Frames.SignedTestIsStricter | kt_5gbd_dtb/src/services/fkz9_comm.c:360-364 | the `int16_t` test accepts what the unsigned one does if and only if the covered sum is below 0x8000 |
| Frames.TestsAgreeOnShortFrames | kt_5gbd_dtb/src/services/fkz9_comm.c:355-364 | the two tests agree on every frame of declared length up to 132 |
| Frames.TestsDisagreeFrom133 | kt_5gbd_dtb/src/services/fkz9_comm.c:355-364 | that bound is sharp: at every declared length from 133 to 65535 there is a frame that only the unsigned test accepts |
| Splitter.SplitPayload | kt_5gbd_dtb/src/services/fkz9_comm.c:219-229 | on the TCP client, for any declared length, dividing the payload or not, and whatever other threads do before each attempt: the chunks taken are the payload's chunks in order, each once, one per answer 0, and all of them exactly when the loop is over; the client's stream grows by exactly those and the others' items, short only of chunks sent without a connection; while the sender thread keeps up, the loop is over after as many attempts as there are chunks, or never for a declared length of 0 |
| Splitter.SplitsEvenlyIff | kt_5gbd_dtb/src/services/fkz9_comm.c:219-229 | the chunks sent begin with the payload and end less than a chunk behind it; they are the payload and nothing else if and only if its first declared length divides its own |
| TcpClients.TcpClient.Send | kt_5gbd_dtb/src/net/tcp_client.c:149-174 | kept exactly when connected with room; a full queue answers -1, a missing connection answers 0 |
| TcpClients.TcpClient.SendOne | kt_5gbd_dtb/src/net/tcp_client.c:131-137 | a sender turn moves the oldest item to the wire and leaves the outgoing stream as it was |
| Fkz9Spec.TraceShape | kt_5gbd_dtb/src/services/fkz9_comm.c:350-372 | the trace is the accepted other frames in queue order, with one device-info frame where the first accepted 0x16 came |
| Fkz9Spec.DevInfoReads | kt_5gbd_dtb/src/services/fkz9_comm.c:37-59 | the device-info frame declares 57 bytes, is accepted by the cloud, has sign 0x86 and the data segment as payload |
| Fkz9Spec.OneMoreFrame | kt_5gbd_dtb/src/services/fkz9_comm.c:65-99 | one frame more adds itself to the trace if valid and not of sign 0x16, the device info if it is the first valid 0x16, and nothing otherwise |
| Fkz9Spec.RelaysAll | kt_5gbd_dtb/src/services/fkz9_comm.c:350-372 | while only valid frames of other signs than 0x16 come, the trace is what came |
| Fkz9Loop.Fkz9CommContext.OnMessage | kt_5gbd_dtb/src/services/fkz9_comm.c:201-235 | only a payload that declares its own size is queued, so every queued item does; any other, with whatever declared length, goes through the splitter to the TCP client; heartbeat requests are ignored |
| Fkz9Loop.Fkz9CommContext.DevInfoResp | kt_5gbd_dtb/src/services/fkz9_comm.c:28-63 | hands over exactly the device-info frame, which the client keeps exactly when connected with room |
| Fkz9Loop.Fkz9CommContext.Validate | kt_5gbd_dtb/src/services/fkz9_comm.c:355-364 | the verdict on the reused buffer is the verdict on the dequeued frame alone |
| Fkz9Loop.Fkz9CommContext.Handle | kt_5gbd_dtb/src/services/fkz9_comm.c:65-99 | forwards, answers once with device info, or does nothing, as the frame and `is_init` decide; the stream grows by that exactly when connected with room |
| Fkz9Loop.Fkz9CommContext.EventTurn | kt_5gbd_dtb/src/services/fkz9_comm.c:350-372 | one loop turn extends the trace by the output of the oldest frame, never by stale bytes, and the outgoing stream by the same exactly when TCP is connected with room |
| Pipeline.StepKeepsInv | kt_5gbd_dtb/src/services/fkz9_comm.c:201-372 | every step of callback, loop, other senders, sender thread and connection keeps all accounts |
| Pipeline.PipelineRefinesTrace | kt_5gbd_dtb/src/services/fkz9_comm.c:201-372 | over every run: the payloads meant for the event queue all got in if and only if none met a full queue; the frames worked off are a prefix of those that got in; wire ++ TCP queue holds the loop's trace in order if and only if no output met a full queue or a missing connection, and the split chunks taken so far, in order, each once, if and only if no chunk was sent offline; payloads, chunks and other senders' items are those the actions handed in |
| Pipeline.LoopTurn | kt_5gbd_dtb/src/services/fkz9_comm.c:350-372 | the loop's two steps work off the oldest frame and hand over its output, which the client keeps exactly when connected with room |
| Pipeline.ConnectionIsLast | kt_5gbd_dtb/src/net/tcp_client.c:149-174 | over every run the connection is as it was last set |
| Pipeline.DrainsEmpty | kt_5gbd_dtb/src/net/tcp_client.c:131-137 | a connected sender thread writes all that waits, in order, one item a turn |
| Pipeline.SplitterProgress | kt_5gbd_dtb/src/services/fkz9_comm.c:221-229 | an attempt either meets a full queue or moves `index` on, which shrinks `payload_len - index` unless the declared length is 0; nobody else touches the splitter |
| Pipeline.ZeroLengthNeverEnds | kt_5gbd_dtb/src/services/fkz9_comm.c:219-229 | with a declared length of 0 the splitter is where it was after every run of all actors |
| Pipeline.EndsAfterChunksIff | kt_5gbd_dtb/src/services/fkz9_comm.c:219-229 | with any other length, over every run, it has ended if and only if as many attempts got through as there were chunks left |
| Pipeline.FairSplitterEndsIff | kt_5gbd_dtb/src/services/fkz9_comm.c:219-229 | with a sender thread that takes a turn before every attempt it ends if and only if the declared length is positive |
| CloudDispatch.DispatchedIff | kt_5gbd_dtb/src/services/cloud_comm.c:797-825 | a valid frame is dispatched if and only if its sign occurs at or after the cursor left by the frames before it, and then to the first such entry |
| CloudDispatch.DispatchOnlyMovesForward | kt_5gbd_dtb/src/services/cloud_comm.c:797-825 | over any run dispatched table indices never go down, and nothing is dispatched after an unknown sign |
| CloudDispatch.IntendedIffInTableOrder | kt_5gbd_dtb/src/services/cloud_comm.c:797-825 | a run equals the stateless lookup if and only if known signs arrive in nondecreasing table order with none after an unknown one |
| CloudDispatch.EarlierEntryIsLost | kt_5gbd_dtb/src/services/cloud_comm.c:817-825 | a frame for an earlier table entry is never dispatched |
| CloudDispatch.CloudEventTask.EventTurn | kt_5gbd_dtb/src/services/cloud_comm.c:805-826 | the verdict on the oldest frame is on the buffer with its stale tail; a valid frame moves cursor and calls as the law says |
| CloudDispatch.CloudEventTask.Search | kt_5gbd_dtb/src/services/cloud_comm.c:817-825 | the search loop continues from where it last stopped and stops at the first match or the end |
| TaskLists.HeadFaithfulIff | kt_5gbd_dtb/lib/list.c:66-110 | get-head and delete-head act as on a sequence if and only if the length is below 2 or at least 2 modulo 65536 |
| TaskLists.FifoBelowWrap | kt_5gbd_dtb/lib/list.c:32-110 | over any run with fewer than 65536 live nodes the list is what was inserted less what was removed, in order |
| TaskLists.InsertsStandInOrder | kt_5gbd_dtb/lib/list.c:32-64 | items inserted into an empty list stand there in order |
| TaskLists.TaskList.constructor | kt_5gbd_dtb/lib/list.c:22-30 | a new list is empty |
| TaskLists.TaskList.Insert | kt_5gbd_dtb/lib/list.c:32-64 | appends at the tail of an acyclic spine, or reports a failed allocation and changes nothing |
| TaskLists.TaskList.GetHead | kt_5gbd_dtb/lib/list.c:66-73 | shows the first node, unless the count has wrapped to 0 |
| TaskLists.TaskList.DelHead | kt_5gbd_dtb/lib/list.c:76-110 | drops the first node; a count that reaches 0 drops all that remain |
| UnitInfos.UnitRoundTripIff | kt_5gbd_dtb/src/services/cloud_comm.c:181-182 | a record survives printing and scanning if and only if its fields are nonempty and free of what ends them |
| UnitInfos.UnitsRoundTrip | kt_5gbd_dtb/src/services/cloud_comm.c:169-185 | printing a list of clean units and reading the text back gives the list and its length |
| UnitInfos.TailIsAnotherRecord | kt_5gbd_dtb/src/services/cloud_comm.c:169-185 | anything behind the last semicolon counts as one record more and is scanned like one |
| UnitInfos.PartOfUnitReads | kt_5gbd_dtb/src/services/cloud_comm.c:181-182 | a record that breaks off is filled as far as it goes |
| UnitInfos.WordReads | kt_5gbd_dtb/src/services/cloud_comm.c:181-182 | `%s` skips white space and reads up to the next |
| UnitInfos.CountUnits | kt_5gbd_dtb/src/services/cloud_comm.c:171-175 | the counting pass counts the tokens |
| UnitInfos.ReadUnits | kt_5gbd_dtb/src/services/cloud_comm.c:171-185 | the second pass fills exactly the allocated records, each as far as its token scans |
| MissionText.LineRoundTripIff | kt_5gbd_dtb/src/services/cloud_comm.c:408-643 | a printed task scans back as itself with its stamp if and only if url, digest, type and stamp are nonempty and free of commas, whatever follows the line |
| MissionText.LineLayout | kt_5gbd_dtb/src/services/cloud_comm.c:408 | the line as it is written, character for character |
| MissionText.DiffersIff | kt_5gbd_dtb/src/services/cloud_comm.c:155-636 | the stamp comparison finds a difference if and only if some character of its first argument is not there in the second |
| MissionText.EqualLengthDiffers | kt_5gbd_dtb/src/services/cloud_comm.c:155-636 | between stamps of one length it is inequality |
| Scanning.PiecesSpell | kt_5gbd_dtb/src/services/cloud_comm.c:634-643 | the pieces between commas are free of them and, put together again, the text |
| Scanning.ConversionsExact | kt_5gbd_dtb/src/services/cloud_comm.c:634-643 | `sscanf` fills fields up to the first piece between commas that is empty or missing |
| Scanning.NegativeReads | kt_5gbd_dtb/src/services/cloud_comm.c:634-643 | a number with a minus sign wraps round modulo 65536 |
| MissionText.FileReadsBack | kt_5gbd_dtb/src/services/cloud_comm.c:629-643 | `wc` counts the lines written and `sed` finds each of them |
| MissionDisk.ReleaseNeedsAnotherStamp | kt_5gbd_dtb/src/services/cloud_comm.c:627-645 | over every run on any text: a line is released only while the stamp read from the first line differs from the present one |
| MissionDisk.ReleasedAtOnceIff | kt_5gbd_dtb/src/services/cloud_comm.c:408-636 | any task whatever, just written as the first line: the next timer call decides to release it, with the boot stamp unchanged, if and only if the four pieces between the commas after its number are nonempty and the fourth is not how the stamp begins |
| MissionDisk.CommaReleasesAtOnce | kt_5gbd_dtb/src/services/cloud_comm.c:408-636 | so it is for a comma inside an otherwise clean url, whenever the type is not how the stamp begins: that call puts the task on the list with url, digest and type shifted by one field |
| MissionDisk.CarriedIsQuiet | kt_5gbd_dtb/src/services/cloud_comm.c:408-636 | and never for a task whose fields the format carries |
| MissionDisk.QuietOnDisk | kt_5gbd_dtb/src/services/cloud_comm.c:408-651 | over every run on text, whatever is written: with an unchanged stamp nothing is released as long as no file is started with such a line |
| MissionDisk.StuckForever | kt_5gbd_dtb/src/services/cloud_comm.c:627-651 | once the first line yields no stamp, no run and no reboot ever releases or removes anything again |
| MissionDisk.EmptyFieldIsStuck | kt_5gbd_dtb/src/services/cloud_comm.c:408-643 | so it is when the first task written has an empty url, digest or type |
| MissionLog.StepKeepsInv | kt_5gbd_dtb/src/services/cloud_comm.c:612-654 | every step of drain thread, heartbeat and reboot timer keeps the order of boots and the account of tasks |
| MissionLog.MissionsConservedIff | kt_5gbd_dtb/src/services/cloud_comm.c:612-654 | from any file, over every run: recorded == removed ++ on file, boots along the file never go down, and between timer calls recorded == released ++ on file if and only if the file was only removed when at most 255 lines had been counted and none added since |
| MissionLog.RemovalLosesNothingIff | kt_5gbd_dtb/src/services/cloud_comm.c:629-651 | a removal loses nothing if and only if at most 255 lines were counted and none was added since |
| MissionLog.WindowLosesATask | kt_5gbd_dtb/src/services/cloud_comm.c:629-651 | a task recorded between count and removal is neither released nor on file |
| MissionLog.ReleaseOnlyAfterReboot | kt_5gbd_dtb/src/services/cloud_comm.c:632-645 | on records, that is for tasks the line format carries: a task is released only while the oldest line is from an earlier boot and carries another stamp |
| MissionLog.QuietUntilReboot | kt_5gbd_dtb/src/services/cloud_comm.c:632-645 | on records, that is for tasks the line format carries: with no line of another stamp nothing is released until the stamp changes, over every run |
| MissionLog.TimerCallReleasesAll | kt_5gbd_dtb/src/services/cloud_comm.c:627-653 | once the stamp differs one undisturbed timer call releases every line of a file of at most 255, in order, and removes the file |
| MissionFile.DoMatches | kt_5gbd_dtb/src/services/cloud_comm.c:155-651 | every operation on the text file and the boot stamp, other than writing a task the line format cannot carry, is matched by its meaning on records |
| MissionFile.FileRefinesLog | kt_5gbd_dtb/src/services/cloud_comm.c:155-651 | from any file an earlier process left, over every run of the text operations that writes only what the line format can carry: a run on records with the same released tasks and readable file; and tasks on file at first ++ appended == released ++ on file now if and only if the file was only removed when at most 255 lines had been counted and none appended since |
| MissionCycle.DeferredAreWritten | kt_5gbd_dtb/src/services/cloud_comm.c:388-409 | over any drain the tasks that ask for the next reboot are written to the file, each once, in order, and no others |
| MissionCycle.DeferredTasksReturn | kt_5gbd_dtb/src/services/cloud_comm.c:366-654 | on the program's own text: the deferred tasks of a drain, with fields that the line format can carry, are written, read back with every field as it was by the first undisturbed timer call after the boot time has changed, unless one stamp begins with the other, and taken up once each, in order, by the next drain, where each starts the script of its own number, the one there is a way to |
| OtaProgram.StepKeepsInv | kt_5gbd_dtb/src/services/cloud_comm.c:366-654 | every step of heartbeat, timer and drain keeps the mutex, the queue discipline of the shared list, and the tie between lines read and tasks that came back |
| OtaProgram.HeartbeatAppends | kt_5gbd_dtb/src/services/cloud_comm.c:486-505 | each task of a heartbeat goes to the end of the list with its own fields, to be downloaded |
| OtaProgram.EveryHeartbeatTaskIsTakenUp | kt_5gbd_dtb/src/services/cloud_comm.c:366-654 | over every run the tasks that the heartbeats brought are, in order and each once, those taken up and those still on the list |
| OtaProgram.DrainIsOneCall | kt_5gbd_dtb/src/services/cloud_comm.c:366-455 | an undisturbed drain attempts every task on the list in order, leaves the list empty and the mutex free, and the deferred tasks on the file |
| OtaProgram.TimerRuns | kt_5gbd_dtb/src/services/cloud_comm.c:612-654 | the timer's operations take their course, though it cannot take the mutex from a drain under way, and each line read puts its task on the list |
| OtaProgram.HeartbeatToReboot | kt_5gbd_dtb/src/services/cloud_comm.c:366-654 | the whole way on one list and one file: every task of a heartbeat is taken up by the first drain, those for the next reboot come back with every field as it was after the boot time has changed and are taken up a second time, in order, and list and file are left empty |
| OtaProgram.EveryDeferredTaskReturnsIff | kt_5gbd_dtb/src/services/cloud_comm.c:366-654 | over every run of heartbeats, timer steps, drain turns and boot changes, from any file an earlier process left: the tasks taken up again, those waiting to be and those on file are exactly the tasks on file at first and those written since, each once, in order, if and only if the file was only removed when at most 255 lines had been counted and none written since |
| OtaSpec.ContainsIff | kt_5gbd_dtb/src/services/firmware_updater.c:86-194 | the digest and type tests are searches for a contiguous part |
| OtaSpec.StartsIff | kt_5gbd_dtb/src/services/firmware_updater.c:64-227 | exactly when a task of any type starts a script, in any environment, and which: `run.sh` or `upgrade.sh`, of its own number |
| OtaSpec.EventsAreOwn | kt_5gbd_dtb/src/services/firmware_updater.c:64-420 | every event in a task's log is about that task, and what it says of digests, directory and collected files is true of the environment |
| OtaSpec.LocalDigestIff | kt_5gbd_dtb/src/services/firmware_updater.c:76-91 | exactly when the local digest is computed |
| OtaSpec.RemoteDigestIff | kt_5gbd_dtb/src/services/firmware_updater.c:95-132 | exactly when the uploaded copy's digest is computed |
| OtaSpec.CollectedIff | kt_5gbd_dtb/src/services/firmware_updater.c:208-401 | files are collected exactly when `upgrade.sh` was started and worked |
| OtaSpec.KindsApart | kt_5gbd_dtb/src/services/firmware_updater.c:76-194 | none of the three type words is part of another |
| OtaSpec.ThreeKinds | kt_5gbd_dtb/src/services/firmware_updater.c:64-227 | a fresh `AT_ONCE` task starts once checked and is not written; a `NEXT_REBOOT` task is written and never starts; a `REBOOTED` one starts unchecked |
| OtaSpec.MatchIff | kt_5gbd_dtb/src/services/firmware_updater.c:83-91 | an expected digest without blanks is found in the line `md5sum` prints if and only if it is part of the digest or of the path |
| OtaSpec.LocalMatchIff | kt_5gbd_dtb/src/services/firmware_updater.c:83-91 | one of the right length passes the local gate if and only if it is the digest of the file or stands in its path |
| OtaSpec.LocalMismatchIsReported | kt_5gbd_dtb/src/services/firmware_updater.c:83-91 | for any task whose digest is looked at, a local mismatch starts nothing and is still reported, once |
| OtaSpec.FailedTransferIsSilent | kt_5gbd_dtb/src/services/cloud_comm.c:330-334 | for any such task a failed transfer starts nothing and sends no report |
| OtaSpec.RecordedIff | kt_5gbd_dtb/src/services/cloud_comm.c:388-409 | a task is downloaded exactly when it came from a heartbeat, and written to the mission file exactly when its type then asks for the next reboot, whatever fails; the line comes right after the download |
| OtaSpec.ReportedIff | kt_5gbd_dtb/src/services/cloud_comm.c:424-427 | exactly when a task of any type is reported: refused for its local digest, or everything it needed worked; the report comes last, once |
| OtaRuns.GateHoldsIff | kt_5gbd_dtb/src/services/firmware_updater.c:64-227 | for either digest gate and any sequence of tasks and environments: every guarded start follows the match it needs, within its own task, if and only if no task gets past the gate unchecked |
| OtaRuns.UpgradeCheckedIff | kt_5gbd_dtb/src/services/firmware_updater.c:95-227 | over every sequence of `AT_ONCE` tasks and environments each start of `upgrade.sh` follows a matching digest of the uploaded copy of the same task if and only if for no task the `rt-a100` directory is there for the transfer and gone for the update |
| OtaSpec.UncheckedUpgradeExists | kt_5gbd_dtb/src/services/firmware_updater.c:95-208 | an environment in which it starts without that check |
| OtaRuns.NothingStartsUncheckedIff | kt_5gbd_dtb/src/services/cloud_comm.c:366-435 | over every sequence of tasks and environments, each start follows a matching local digest of the same task if and only if every task able to start is one whose digest is looked at |
| OtaRuns.EachBegunOnce | kt_5gbd_dtb/src/services/cloud_comm.c:380-432 | whatever the environments answer, every task is taken up exactly once, in order |
| OtaDrain.Updater.TransFunc | kt_5gbd_dtb/src/services/firmware_updater.c:64-173 | result, overwritten task type and checks made, for every environment |
| OtaCollect.CollectsIff | kt_5gbd_dtb/src/services/firmware_updater.c:229-401 | the collection after `upgrade.sh` succeeds exactly when every command of it does |
| OtaCollect.PostedIff | kt_5gbd_dtb/src/services/firmware_updater.c:229-310 | a file is posted exactly when its line and all before it are good |
| OtaCollect.ReplacedIff | kt_5gbd_dtb/src/services/firmware_updater.c:311-390 | a file is replaced exactly when every file was posted, every line before it was replaced and locked, and its own upload worked |
| OtaCollect.DeedsInOrder | kt_5gbd_dtb/src/services/firmware_updater.c:229-401 | files are posted, then replaced, each in list order, and the restart comes last |
| OtaCollect.RestartedIff | kt_5gbd_dtb/src/services/firmware_updater.c:318-400 | the algorithm is restarted exactly when there are files to replace and all of them, and everything before, went through |
| OtaDrain.Updater.CollectFiles | kt_5gbd_dtb/src/services/firmware_updater.c:229-401 | the two loops over the lists post and replace files up to the first failing command |
| OtaDrain.Updater.UpdateFunc | kt_5gbd_dtb/src/services/firmware_updater.c:175-420 | result, scripts started and files collected, for every environment |
| OtaDrain.Updater.DoUpgrade | kt_5gbd_dtb/src/services/cloud_comm.c:318-347 | a failed transfer ends the task before the update; otherwise both happen in order |
| OtaDrain.Updater.DoTask | kt_5gbd_dtb/src/services/cloud_comm.c:381-428 | one task's whole log: download and mission line, upgrade, report on success only |
| OtaDrain.Updater.Drain | kt_5gbd_dtb/src/services/cloud_comm.c:366-435 | for any list the tasks its 16-bit count admits to are attempted in FIFO order, each once, whatever happens to them; it terminates, and empties the list unless the count was 0 |
| OtaDrain.DrainAll | kt_5gbd_dtb/src/services/cloud_comm.c:366-455 | with fewer than 65536 tasks queued every task is taken up exactly once, in order, and the list is left empty |

## Left out

- Splitter.SplitPayload: the memory that the last chunk of an uneven payload reaches into must be there to read, and a chunk
  must fit a slot of the TCP queue.
- Fkz9Loop.Fkz9CommContext.OnMessage: payloads shorter than the five-byte header, of which the callback reads sign and length
  all the same.
- CanDevices.CanDevice.Send: only the header branch; the branch without retries queues bytes that the transmit thread would
  then take for a header.
- Clock.TimedOutIff: for clock readings below half the range of `unsigned long`, taken as 64 bits wide.
- MissionDisk.ReleasedAtOnceIff: lines longer than the 255 characters read at a time, fields longer than the buffers they are
  scanned into, and scanned numbers beyond 64 bits.
- MissionFile.FileRefinesLog: the unlocked copy of `up_time` is taken as one step; a process that ends between loading and
  removing the file, whose lines the next one releases again, is not a step of the run.
- OtaProgram.EveryDeferredTaskReturnsIff: for heartbeats whose deferred tasks the line format can carry, and a list that never
  holds 65536 tasks.
- OtaRuns.NothingStartsUncheckedIff: released tasks, which skip the digest check by design, are only shown to be the exception.
- OtaDrain.Updater.UpdateFunc: texts of replies and log lines; what a post to the cloud answers is only logged there.
- CloudDispatch.CloudEventTask.EventTurn: handlers and their callbacks are only counted; the table, whose order is decided by
  the linker, is a parameter.
- Bytes beyond a slot, a buffer or a declared frame: sizes are preconditions.
- Thread start-up and shut-down, reconnecting, and the drain thread's wait condition, which compares an address with 0 and so
  never waits.
- Heartbeat, navigation, wave-file and device-info field values (the minute field is filled from the hour); only the frame
  around them is modelled.
- BCD conversions, file-name parsing, JSON, the self-upgrade script and the `lane_to`, `fx650`, serial, I2C, USB, LED and FTP
  code.
- curl, SSH, MQTT, libevent, the shell and `malloc`: only what they answer, as parameters.

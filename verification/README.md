# A verified model of the CAN-to-Ethernet bridge firmware

The firmware reads CAN frames in an interrupt, passes them through a bounded message
buffer, a task, a 32-slot queue and a second task that batches up to 16 frames in
zero-copy UDP buffers, and broadcasts them as numbered datagrams. Around that pipeline
it sends CAN heartbeats carrying four sticky error flags, keeps run-time statistics of
its tasks, keeps two worker tasks busy with gcd work, and offers a serial shell.

This project models those parts in Dafny and proves what they guarantee. Run
`dafny verify dfyconfig.toml` to check it all.

## How it is organised

- `Bridge.dfy`: the bridge as a labelled transition system. `Step` is one atomic action
  of the interrupt, the CAN1 task, the CAN_ETH task, the flush timer, the network or the
  IP stack; `Run` is any finite interleaving. Both tasks have a place in their code, so
  the windows between `xQueueSend` and `xTaskNotify`, and between `xTaskNotifyWait` and
  `xQueueReceive`, are real states. The UDP buffer is modelled as bytes.
- `BridgeInvariants.dfy`: what every step keeps. `BridgeTheorems.dfy`: the guarantees, over
  every run from power-on.
- `CanethTask.dfy`, `Can1Task.dfy`: the two tasks and the interrupt as imperative code, with
  arbitrary interference between their kernel calls; every execution is a run of the
  transition system, so the guarantees hold of the code.
- `Caneth.dfy`: the datagram layout, and an independent decoder.
- `Bits.dfy`, `Dbc.dfy`, `Canproto.dfy`: bit operators, the DBC signal layout for both byte
  orders, and the generated message code, which refines it.
- `WakeTheorems.dfy`: what the notification bits mean. `BufferTheorems.dfy`: where every buffer
  is, and why.
- `StaleBytes.dfy`: two runs side by side, to show that old buffer contents are never sent.
- `HeartbeatTask.dfy`: the flags and the heartbeat task. `Certificate.dfy`: what a heartbeat
  proves about the bridge.
- `TaskStats.dfy`, `Gcd.dfy`, `Shell.dfy`: the statistics table, the Euclid loop, the line
  editor.
- `Words.dfy`, `Subsequences.dfy`: machine words and order-preserving subsequences.

## Assumptions

- FreeRTOS: a 0-wait queue send fails exactly when the queue is full; a message buffer
  send from the interrupt fails exactly when there is no room for one more frame (the
  capacity in frames is an arbitrary number); `eSetBits` ORs and always passes;
  `xTaskNotifyWait` returns the pending bits and clears them all; a positive
  `FreeRTOS_sendto` hands the zero-copy buffer to the stack, any other result does not;
  `FreeRTOS_GetUDPPayloadBuffer` gives a buffer from the pool with arbitrary contents, or
  NULL.
- The interrupt runs to completion before any task step. Priorities are ignored, so the
  runs considered include all those the scheduler allows.
- The network may go up and down at any time. Frames found while it is down are discarded
  by design and counted as such; the end-to-end theorem is about runs in which it stays up.
- Tasks have non-null handles and are never deleted (`INCLUDE_vTaskDelete` is 0);
  `uxTaskGetSystemState` lists all tasks, or none if there have come to be more than asked for.
- A failed `configASSERT` disables interrupts and spins (`src/hooks.c`), so the whole firmware
  stops. In the model only the failing task does, and everything else may go on; the runs
  considered include the real ones, and the theorems say whether the assertion can fail.

## Where the code and its comments differ

- `include/caneth.h` says the data bytes are zero-filled past the DLC. The bridge copies all
  eight bytes; `ZeroFillIsInherited` gives the exact condition and `NotAlwaysZeroFilled` a
  frame that breaks the comment.
- The comment at the receive in `caneth_task` ("should always happen") is right: see
  `NotificationAccounting`. But one wake takes one frame, so merged notifications leave
  frames in the queue for as long as the bridge is idle: `SettledLag`, `LagNeverShrinks` and
  `LagOccurs` say exactly how many, that it never gets better, and that every lag from 0 to
  31 occurs.
- The shell's buffer is not NUL-terminated when 128 characters are typed:
  `TerminatedIffShort`, `FullLine`.
- The worker dispatch asserts fail on a frame that carries identifier 0x0B in its standard
  identifier field but is extended, or shorter than 8 bytes: `HaltNeedsBadFrame`,
  `DispatchDecides`, `ExtendedFrameHalts`.

## Model

| member | source | states |
|---|---|---|
| BridgeTheorems.NoSilentLoss | src/task_can1.c:157-210 | in every run with the network up and both error flags clear, delivered frames (decoded from the bytes sent), batch, queue, frame in hand and message buffer together are exactly the frames read, in order |
| BridgeTheorems.FlagsMeanLoss | src/task_can1.c:190-217 | with the network up and no controller fault, both error flags are clear if and only if every frame read is still in the pipeline or delivered, in order |
| BridgeTheorems.DeliveredInOrder | src/task_caneth.c:136-190 | in every run, whatever fails, the delivered frames embed in the frames read, in order and without repetition |
| BridgeTheorems.AttemptsConserveFrames | src/task_caneth.c:146-190 | frames of all attempted datagrams, then batch, then queue, are exactly the accepted frames |
| BridgeTheorems.FailedSendDropsOneBatch | src/task_caneth.c:170-180 | in every interleaving between a failed send and its report, the report takes out of the pipeline exactly the frames that were in the batch when sent, leaves every other station as it is, and raises the flag |
| BridgeTheorems.FailedBatchHeld | src/task_caneth.c:170-176 | whatever else runs meanwhile, the frames of a failed send stay held, in one piece, until the failure is reported |
| BridgeTheorems.ReportDropsBatch | src/task_caneth.c:174-177 | in every reachable state about to report a failure, the last attempt failed, its decoded frames are what is held, and the report removes them and nothing else |
| BridgeTheorems.NotificationAccounting | src/task_caneth.c:79-156 | exact count of queued frames in every interleaving; a queue-event wake finds a frame; merged notifications never exceed 31; the batch assertion never fires |
| BridgeTheorems.SettledLag | src/task_caneth.c:146-156 | with no event pending the queue holds one frame per merged notification, so it is empty iff none was ever merged |
| BridgeTheorems.LagNeverShrinks | src/task_caneth.c:139-156 | from one settled state to any later one, in any run, the queue is never shorter |
| BridgeTheorems.LagOccurs | src/task_caneth.c:25 | each lag from 0 to 31 is reached by some run that ends idle at the loop head |
| WakeTheorems.PendingBits | src/task_caneth.c:81-83 | in every run a notification bit is pending iff its event has happened, once or more often, since the task last woke |
| WakeTheorems.WakeTellsTheTruth | src/task_caneth.c:139-158 | what the task takes for a queue event or a flush happened between its last two wakes, and it misses neither |
| WakeTheorems.ShortOnlyAfterTick | src/task_caneth.c:158-160 | a datagram of fewer than 16 frames is sent only if the flush timer fired between the last two wakes |
| WakeTheorems.WaitsForNetwork | src/task_caneth.c:65-132 | until the network has come up the task holds no buffer and sends nothing |
| BridgeTheorems.NeverWedges | src/task_caneth.c:79-91 | from every reachable idle state the next frame is accepted, wakes the task and moves a frame into the batch |
| BridgeTheorems.WritesOnlyOwnedBuffers | src/task_caneth.c:148-174 | every write, send and release acts on a buffer the task owns at that moment |
| BridgeTheorems.OneBufferHeld | src/task_caneth.c:182-189 | the task owns exactly udp_buffer where it holds one and nothing elsewhere; pool, stack and task together always own all buffers |
| BridgeTheorems.EachBufferDisposedOnce | src/task_caneth.c:170-189 | between two acquisitions there is exactly one hand-over or return, of the same buffer |
| BufferTheorems.BuffersAreWhereLeft | src/task_caneth.c:170-189 | in every run a buffer is the task's iff the task acquired it last, in the pool if it was never acquired or last returned, and the stack's only if last handed over |
| BufferTheorems.DisposalsMatchSends | src/task_caneth.c:170-174 | the n-th buffer acquired is handed to the stack if the n-th send succeeded and returned to the pool if it failed |
| BufferTheorems.StackKeepsItsBuffer | src/task_caneth.c:126-132 | a buffer the stack has stays the stack's, and is not what the task writes to, in every run in which the stack does not give it back |
| BufferTheorems.NeverOutOfBuffers | src/task_caneth.c:182-189 | from every reachable state in which the task waits for a buffer, one step of the stack at most and an acquisition put it at its loop head |
| BridgeTheorems.DatagramsWellFormed | src/task_caneth.c:158-170 | the n-th datagram decodes, carries n mod 65536, has 1 to 16 frames in 12 + 15 * count bytes, and is short only on a flush |
| StaleBytes.NoStaleBytes | src/task_caneth.c:148-170 | two runs that differ only in what the acquired buffers held go through the same steps, leave equal environments and pass equal bytes to the stack |
| StaleBytes.AlikeStep | src/task_caneth.c:146-190 | each step keeps two states alike that differ only in buffer bytes not written since the buffer was acquired |
| BridgeTheorems.SeqnumGapCountsFailures | src/task_caneth.c:159-180 | between two delivered datagrams the modular gap minus one is the number of failed sends, iff fewer than 65535 failed |
| BridgeTheorems.FlushEmptiesBatch | src/task_caneth.c:158-190 | after a flush wake, whenever the task is back at its head, its batch is the most recent of the frames it took from the queue since, and none of the earlier ones |
| BridgeTheorems.WireMeansTheSame | src/task_caneth.c:71-77 | the 15 wire bytes, read as documented with flags that must be 0 or 1, mean the CAN message that was received, iff its DLC fits a byte |
| BridgeTheorems.ZeroFillIsInherited | include/caneth.h:35 | a bridged frame is zero-filled past its DLC iff the received one was |
| BridgeTheorems.NotAlwaysZeroFilled | src/task_caneth.c:77 | a run that hands the stack a datagram whose frame has length 0 and a stale data byte |
| BridgeTheorems.SendsOneFrame | src/task_caneth.c:65-180 | from power-on with the network up, any one well-formed frame reaches the stack by the next flush, alone in datagram 1, as read |
| BridgeTheorems.HaltNeedsBadFrame | src/task_can1.c:166-171 | the CAN1 task stops on a dispatch assertion only if some frame read misuses identifier 0x0B |
| BridgeTheorems.DispatchDecides | src/task_can1.c:157-178 | at rest, network up or down and queue full or not, the next frame stops the task iff it misuses identifier 0x0B |
| BridgeTheorems.ExtendedFrameHalts | src/task_can1.c:166-168 | a run from power-on in which one extended frame with 0x0B in its standard identifier field stops the CAN1 task |
| BridgeTheorems.History | src/status_flags.c:31-34 | the frames recorded as read are those of the read events; the caneth flag is set in exactly the runs in which one of its two set calls was made; with the network up nothing is discarded |
| Certificate.FlagsExact | src/task_can1.c:190-217 | can1_error is set in exactly the runs with a failed read, a controller error, or a read that found the message buffer full; caneth_error likewise by its two calls |
| Certificate.CleanHeartbeatCertifies | src/task_can2.c:127-131 | bridge and heartbeat task running together from power-on, with the network up: a heartbeat with can1_error and caneth_error 0 proves that, when can1_error was sampled, every frame read was delivered or on its way, in order, although caneth_error is sampled later |
| Certificate.SetFlagMeansLoss | src/task_can2.c:127-131 | in any joint run, a heartbeat flag that is 1 proves a loss by the time it was sampled, if the controller has reported no fault |
| Certificate.JointSampled | src/task_can2.c:127-131 | in a joint run, in which other tasks may raise other flags at any moment, the flags sampled in heartbeat n are those the bridge has raised up to each of the two moments |
| BridgeInvariants.AccountingStep | src/task_caneth.c:79-156 | every step of every task keeps the notification count |
| BridgeInvariants.BatchingStep | src/task_caneth.c:146-190 | every step keeps the batch bounds and, before a send, a correct header |
| BridgeInvariants.OwnershipStep | src/task_caneth.c:126-189 | every step keeps single ownership and the alternation of acquiring and disposing |
| BridgeInvariants.LedgerStep | src/task_caneth.c:170-189 | every step keeps each buffer where the last operation on it put it, and each disposal matching the outcome of its send |
| BridgeInvariants.NumberingStep | src/task_caneth.c:158-176 | every step keeps all attempted datagrams well formed and consecutively numbered |
| BridgeInvariants.ConservationStep | src/task_caneth.c:79-190 | every step keeps attempted, batched and queued frames equal to the accepted ones |
| BridgeInvariants.FaithfulStep | src/task_caneth.c:65-190 | every step keeps the pipeline a subsequence of what was read, equal to it while no flag is up, and shorter once caneth_error is |
| BridgeInvariants.EnvPipeline | src/task_can1.c:157-217 | each step outside the CAN_ETH task moves frames along unchanged, or drops exactly the frame in hand and raises a flag or counts it, or appends the frame read, or raises can1_error |
| BridgeInvariants.TaskPipeline | src/task_caneth.c:136-190 | each step of the CAN_ETH task moves frames along unchanged, or drops exactly the decoded frames of the failed datagram and raises the flag |
| CanethTask.CanethTask.LoopBody | src/task_caneth.c:136-191 | one pass over the in-place buffer, under any interference, is a run in which the task's own steps are exactly wait, receive, decide, then with a batch to send the send, the clean-up iff it failed, the reset and the next acquisition; it stays in the wait iff no event is pending, and in the acquisition only if no offered buffer is given |
| CanethTask.CanethTask.Loop | src/task_caneth.c:94-192 | from power-on the task makes one such pass per schedule, and is left waiting only if the network is not up, no event is pending or no offered buffer is in the pool at that point of the run; it only reaches reachable states, so every bridge invariant holds of its variables and buffer bytes |
| CanethTask.CanethTask.WriteDatagramHeader | src/task_caneth.c:161-167 | the increment and the four packed stores are the numbered-header step |
| CanethTask.CanethTask.ReceiveFrame | src/task_caneth.c:146-156 | receiving into the frame slot is the receive step |
| CanethTask.CanethTask.AcquireBuffer | src/task_caneth.c:182-189 | retrying is a run whose only own step is the acquisition, and it is left waiting iff none of the offered buffers was in the pool when asked for |
| CanethTask.GrantedIff | src/task_caneth.c:182-189 | retrying succeeds iff one of the offered buffers is in the pool when its turn comes |
| CanethTask.AfterIsAnyRun | src/task_caneth.c:136-191 | whatever the rest of the firmware can do between two kernel calls is among the interference considered |
| CanethTask.WaitsAreSteps | src/task_caneth.c:139-140 | the task waits exactly while the transition system has no step for it |
| CanethTask.StoreHeader | src/task_caneth.c:163-167 | four separate stores leave the whole header and touch nothing else |
| Can1Task.Can1Task.LoopBody | src/task_can1.c:157-178 | one pass of the CAN1 task, under any interference, takes the oldest message, bridges and dispatches it, in exactly these steps; worker 0 gets a standard frame with identifier 0x0B if fewer than 8 are queued, worker 1 those of them whose first byte is a multiple of ten; halts iff the frame misuses 0x0B |
| Can1Task.Can1Task.EnqueueRxFrame | src/task_caneth.c:65-92 | every path is a run whose own steps are the network check alone, or the check, the send and then the notification or the error flag |
| Can1Task.Can1Task.PendingCb | src/task_can1.c:181-210 | the interrupt's three outcomes (stored, no room, failed read) are the read and read-failed steps |
| Can1Task.Can1Task.OfferToWorkers | src/task_worker0.c:39-51 | the dispatch with its assertions: which queue gets the frame, and which frame fails an assertion |
| Caneth.DatagramRoundTrip | include/caneth.h:21-39 | for any 1 to 16 frames, buffer contents and number, the bytes sent decode to exactly that number and those frames, independent of the old contents |
| Caneth.DecodeSent | src/task_caneth.c:163-170 | once the header is written, the bytes sent decode to the frames stored in the buffer |
| Caneth.DecodeInjective | include/caneth.h:21-39 | two byte strings that decode to the same datagram are equal |
| Caneth.FramesWriteFrame | src/task_caneth.c:148-150 | storing frame k keeps the frames before it and appends one |
| Caneth.MagicIsAscii | include/caneth.h:12-13 | the magic constant stored little-endian is the text ISO11898 |
| Caneth.ParseFrameBytes | include/caneth.h:31-39 | the packed frame layout loses nothing |
| Dbc.PackThenUnpack | dbc/canproto.dbc:39-48 | for any non-overlapping Intel and Motorola signals, pack then unpack returns each value cut to its width, so exactly those in range |
| Dbc.UnpackThenPack | dbc/canproto.dbc:39-48 | unpack then pack clears exactly the unused bits |
| Canproto.HeartbeatRefinesDbc | generated/canproto.c:83-104 | the generated packer's 64 bits are the DBC layout of the heartbeat signals, for every message |
| Canproto.HeartbeatUnpackRefinesDbc | generated/canproto.c:106-125 | the generated unpacker reads each signal where the DBC puts it, for all payloads |
| Canproto.HeartbeatPackUnpack | generated/canproto.c:83-166 | unpack after pack is the identity on exactly the messages whose flags are in range |
| Canproto.HeartbeatUnpackPack | generated/canproto.c:83-125 | pack after unpack reproduces the payload with exactly the unused bits cleared |
| Canproto.HeartbeatLayoutValid | dbc/canproto.dbc:39-45 | the heartbeat signals fit 64 bits without overlap, and which bits they use |
| Canproto.HeartbeatPack | generated/canproto.c:83-104 | the in-place packer writes the eight bytes and nothing beyond, or returns the error and writes nothing |
| Canproto.HeartbeatStruct.Unpack | generated/canproto.c:106-125 | the in-place unpacker fills the struct, or returns the error and leaves it |
| Canproto.HeartbeatStruct.Init | generated/canproto.c:127-134 | all fields zero |
| Canproto.DoWork0RefinesDbc | generated/canproto.c:186-198 | the counter read is the first byte, which is the DBC signal |
| Canproto.DoWork0PackUnpack | generated/canproto.c:170-198 | the counter survives packing |
| Canproto.DoWork0Unpack | generated/canproto.c:186-198 | the first byte, or the error for fewer than 8 bytes, and then the counter stays |
| HeartbeatTask.Can2Task.Loop | src/task_can2.c:119-142 | over any run, heartbeat n decodes to number n mod 65536 and flags that are 1 iff raised before the moment of that pass at which they are read; the flags raised in the end are exactly those of the schedules and of failed transmissions |
| HeartbeatTask.Can2Task.LoopBody | src/task_can2.c:127-141 | one heartbeat, with errors raised at any moment between its statements, tells the truth about each flag at its own sampling; a failed transmission raises can2_error |
| HeartbeatTask.HeartbeatsNeverRevert | src/status_flags.c:11-49 | in any run all flags are in range and none ever goes back to 0 |
| HeartbeatTask.RaisedIsReported | src/task_can2.c:127-131 | a flag raised before the first pass or in an earlier one is 1 in heartbeat n, and a flag that is 1 was raised by the end of pass n |
| HeartbeatTask.FlagsOfHeartbeat | src/task_can2.c:127-131 | each of the four flags of heartbeat n is 1 iff it was raised before the first pass, in an earlier pass, or in this pass before its own sampling, in the order can1, can2, caneth, shell |
| HeartbeatTask.AfterHolds | src/status_flags.c:11-44 | the flags raised by any pass are exactly those other tasks and interrupts raised, and can2_error if a transmission failed |
| HeartbeatTask.FailureIsReported | src/task_can2.c:136-141 | a failed transmission makes can2_error 1 in every later heartbeat |
| HeartbeatTask.StatusFlags.Set | src/status_flags.c:11-44 | the atomic OR makes exactly that flag report 1 from now on |
| HeartbeatTask.StatusFlags.Get | src/status_flags.c:16-49 | 1 iff the flag was ever set |
| TaskStats.TableSafety | src/task_stats.c:66-82 | a run of rounds goes through if and only if its checks on the number of tasks pass, so neither allocation assertion ever fails; occupied slots are a prefix with distinct handles, listing exactly the latest round's tasks |
| TaskStats.RunsWithTwelveTasks | src/task_stats.c:66-70 | a run goes through iff every round has at most 12 tasks and the kernel lists them |
| TaskStats.SlotsAreForEver | src/task_stats.c:105-141 | a handle keeps its slot and name through all later rounds |
| TaskStats.TaskTimesTelescope | src/task_stats.c:72-103 | a task's logged plus skipped differences sum to its last reported run time modulo 2^32, and exactly if and only if none of its intervals is 2^32 ticks or longer (for run times that do not decrease) |
| TaskStats.TaskWindowTelescopes | src/task_stats.c:72-103 | a task is sampled at exactly the run times reported for it, and its differences over any window of reports sum to the run time between the ends modulo 2^32, and exactly if and only if no interval in that window wraps |
| TaskStats.TotalTimesTelescope | src/task_stats.c:84-103 | total differences over any window of rounds sum to last minus first modulo 2^32, and exactly if and only if no interval in that window wraps |
| TaskStats.RoundLines | src/task_stats.c:72-100 | each round's lines: one per task in order, the same total difference, printed iff the total is at least 100 ticks and the recorder is on |
| TaskStats.RunLines | src/task_stats.c:66-103 | in every run, round by round: one line per task in order, with the total run time since the round before modulo 2^32, printed iff the total counter is at least 100 and the recorder is on |
| TaskStats.NamesNeverMixed | src/task_stats.c:94-131 | every line is printed under its own task's name |
| TaskStats.PrintedUnderFirstName | src/task_stats.c:94-131 | every line and slot carries the name its task had when it was first visited, also if it reports another one later |
| TaskStats.StatsTask.TaskState | src/task_stats.c:105-141 | the two searches find the handle's slot, or take the first free one, or stop at an assertion because that slot has a name or the table is full |
| TaskStats.LookupFails | src/task_stats.c:120-139 | an assertion fails iff the task has no slot and the first free slot has a name or there is none |
| TaskStats.StatsTask.LoopBody | src/task_stats.c:66-84 | one round in place, with its assertions, leaves exactly the table, counters and lines the run-level lemmas are about, or reports a failed assertion; a failed check on the number of tasks changes nothing |
| TaskStats.StatsTask.Loop | src/task_stats.c:58-85 | from power-on, with handles and no deletions, all rounds go through, or the task stops in the first round that fails a check on the number of tasks, with the state that the rounds before left |
| Gcd.EuclidIsGcd | src/task_worker0.c:79-83 | the loop's result divides both numbers and is divisible by every common divisor |
| Gcd.EuclidIsTheGcd | src/task_worker0.c:79-83 | a number is the greatest common divisor, in the divisibility order, iff it is the loop's result |
| Gcd.Lame | src/task_worker0.c:79-83 | k iterations on a >= b need b >= Fib(k + 1) |
| Gcd.AtMostNineteenSteps | src/task_worker0.c:75-83 | no pair below 16384 costs more than 19 iterations |
| Gcd.FibSteps | src/task_worker0.c:79-83 | consecutive Fibonacci numbers take n - 1 iterations, so Lame's bound is met |
| Gcd.NineteenStepsOccur | src/task_worker0.c:79-83 | 19 iterations are taken on (10946, 6765), so the bound is the best one over all pairs below 16384; the loop does not visit this pair |
| Gcd.LcmExact | src/task_worker0.c:77-85 | the division is exact and gives the least common multiple |
| Gcd.SumBounds | src/task_worker0.c:72-86 | the gcd sum stays below 2^28 and the lcm sum below 2^42, by the loop index |
| Gcd.PairContributes | src/task_worker0.c:75-86 | each index adds its pair's true gcd, and its true lcm or nothing |
| Gcd.PartnerIs | src/task_worker0.c:72-78 | the second number of pair i is i modulo m, where m - 3 has exactly the bits in which i and 1997 differ, so the modulus is at least 3 |
| Gcd.InnerLoop | src/task_worker0.c:79-83 | the in-place loop ends with Euclid's result after the counted iterations |
| Gcd.StressCpuGcd | src/task_worker0.c:70-89 | the nested loops compute both sums without overflow or division by zero, in at most 19 * 16384 iterations |
| Shell.ShellTask.Loop | src/task_shell.c:147-209 | for every byte stream, each end of line passes exactly the list editor's line padded with zeros, and the buffer ends holding the unfinished line |
| Shell.ShellTask.EditByte | src/task_shell.c:185-208 | an erase or a character in place is the list editor's step |
| Shell.ShellTask.EndLine | src/task_shell.c:164-177 | every call of the interpreter sees the same padded line, and the buffer is cleared |
| Shell.TerminatedIffShort | src/task_shell.c:167 | the interpreter reads back exactly the line iff it is shorter than 128, and runs off the buffer otherwise |
| Shell.FullLine | src/task_shell.c:202-206 | 128 printable characters do fill the buffer |
| Shell.EditAllPrintable | src/task_shell.c:200-206 | a line is at most 128 printable characters |
| Shell.KeyEffect | src/task_shell.c:185-206 | whatever has been typed: 32 to 126 appends unless 128 characters are there, 8 or 127 erases the last, nothing else changes the line |
| Shell.FullLineIgnores | src/task_shell.c:202 | a full line ignores all further characters |
| Shell.OnlyEolEndsALine | src/task_shell.c:164 | lines end at 10 and 13 and nowhere else |
| Shell.LinesAreIndependent | src/task_shell.c:176-177 | what follows an end of line never depends on anything before it |
| Shell.LimitInvisible | src/task_shell.c:202 | the editor is the unlimited one as long as no more than 128 characters are ever on the line |
| Shell.EraseUndoes | src/task_shell.c:185-206 | an erase undoes a character iff the line was not full |

## Left out

- Hardware setup (GPIO, clocks, CAN filters, NVIC, UART, LEDs): register configuration.
- The FreeRTOS kernel, the FreeRTOS+TCP stack and the trace recorder: only the primitives listed under Assumptions.
- The byte capacity of the message buffers: the per-message overhead is kernel-internal, so the capacity in frames is arbitrary.
- Priorities, deadlines and the periods of the timers: safety is proved over all interleavings; the flush timer may fire at any step.
- What the workers do with a frame, and the order of their 8-slot queues beyond the send: each wake runs the gcd loop, whatever the frame.
- `src/task_worker1.c`'s own copy of the gcd loop: the same code as worker 0.
- The heartbeat's transmit time stamp: hw_timestamp is 0 in the payload passed to the driver; the controller may overwrite those two bytes on the wire.
- `task_shell_unsafe_printf`, which overwrites the shell's buffer: it is called only once the firmware has stopped in a hook.
- The trace recorder's results: registering a name or printing a line is taken to succeed.
- The shell's UART echo, the bytes its message buffer may drop, and the command interpreter and commands.
- The stack high-water mark in the statistics line, and a null handle: handles are non-null by assumption in the run-level lemmas.
- UDP buffers in `CanethTask.dfy` are fresh arrays each time they are acquired, so a buffer reused by the stack is not the same Dafny object; identity across reuse is tracked by the buffer number.

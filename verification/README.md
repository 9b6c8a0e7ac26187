# Verified model of the umqtt MCU application

This project models the microcontroller application of `mcu_test/`: the network
client that sits between lwIP and MQTT (`net_client.c`), the software timer
(`swtimer.c`), and the tick interrupt and main loop (`mcu_test.c`). Two contexts
run on shared state: lwIP callbacks and tick interrupts on one side, the main
loop on the other. The theorems are about their composition, over runs of any
length, for every interleaving and for every answer of the umqtt library.

## How it is built

| file | content |
|---|---|
| `Base.dfy`, `SwTimer.dfy`, `SysTick.dfy` | 32-bit words, the timer, the tick counters and the uptime report, against an unbounded tick count |
| `LwipStack.dfy` | a small stub of the lwIP calls: PCBs, packet buffers, credit, output; each PCB remembers what happened to it |
| `NetModel.dfy`, `NetClient.dfy` | the network client as a value, and as a class over an array with two 8-bit indices |
| `McuModel.dfy` | the whole application as a transition system; a step is one statement group of the main loop, one critical section, one callback or one tick |
| `Connection.dfy` | PCB lifetime, connection flag, events, recovery after a lost connection |
| `DataPath.dfy`, `Delivery.dfy`, `Window.dfy` | received data: order and completeness, ownership of packet buffers, flow-control credit |
| `Output.dfy` | sent data |
| `LoopRules.dfy` | the exact cause of each change of state, call, report, event, read and write |
| `CallTrace.dfy` | the language of the calls the main loop makes |
| `Timing.dfy` | counters, back-off and uptime report in real time |
| `Runs.dfy`, `Witnesses.dfy`, `OverCredit.dfy` | particular runs, which show that the exceptional cases of the theorems can be reached |
| `Firmware.dfy`, `ProgramSafety.dfy` | the program as objects and methods in the structure of the C code; its state is at all times the state the transition system reaches by the recorded steps |

The queue size is a parameter from 2 to 256, the range its 8-bit indices allow;
the repository uses 8. Labels that are not enabled change nothing, so `Run(size, tick, ls)`
is a run for every sequence of labels and the theorems need no assumption about
schedules. Chained buffers, buffers of length zero, failed allocations, refused
and abandoned buffers are all part of the runs; where they matter the theorem
says exactly how.

What is assumed of lwIP: a critical section, `net_Connect` and `net_Disconnect`
are not interrupted by callbacks; no callback comes on a PCB that was closed,
aborted or freed; the connected callback comes at most once for a successful
`tcp_connect`; a refused buffer is presented again before later ones, or given
up; the end of the peer's stream is reported when nothing is held any more;
`tcp_close` and `tcp_abort` give the PCB back; `tcp_write` takes all or nothing,
and its length parameter has 16 bits. Whether lwIP has freed the PCB by the time
it calls `net_ErrorCb` is left open: the label of the step says it. (The published
description of `tcp_err` says that it has; that text is not part of the
repository.) A `tcp_*` call on NULL or on a PCB that is gone does nothing and is
counted. NULL is passed by recovery and by reads and writes of umqtt when the
connection is already lost; `Connection.NullCallsExactly` says when. Steps are
sequentially consistent.

## Results that differ from what one might expect

- Credit. The queue survives a disconnect, and a packet left in it is credited to
  whichever connection is current when it is read. `Window.WindowIsRestoredIff`
  says exactly when the window of a connection is right again;
  `OverCredit.OldBytesAreCredited` is a run where it is not.
- A freed PCB. `net_ErrorCb` makes six calls on the PCB, the last one to abort it
  (mcu_test/net_client.c:165-173). If lwIP has freed it already, all six are calls
  on a PCB that is gone, and no other call ever is (`Connection.PcbLifetime`;
  `Witnesses.ErrorOnFreedPcb` is a run).
- NULL. Outside recovery a `tcp_*` call is made on NULL exactly while the disconnect
  flag is up (`Connection.NullCallsExactly`), and not after the iteration in which
  the connection was lost (`Connection.NullCallsEndWithIteration`;
  `Witnesses.WriteAfterLoss` is a run).
- A failed `tcp_connect` leaves the error callback installed on the closed PCB
  (`Connection.ReleasedPcbsAreSilent`); only for such a PCB is it an assumption
  that no error callback comes after the release
  (`Witnesses.FailedConnectLeavesCallback` is a run).
- Chained and abandoned buffers. Only the first segment is read and credited, and a
  refused buffer may be given up. The received stream is exact if and only if
  nothing is chained and nothing was given up (`Delivery.StreamIsExactIff`;
  `Witnesses.ChainedBufferIsCut` and `Witnesses.RefusedPacketIsLost` are runs).
- A packet whose first segment is empty is never read (`Delivery.PacketIsReadIff`)
  and stops all reading for good (`Delivery.ZeroLengthPacketBlocksReading`;
  `Witnesses.EmptySegmentAtHead` is a run); the comment on `net_GetReadLen`
  (mcu_test/net_client.c:122-131) does not mention it.
- Long writes. `net_WritePacket` is documented to return the number of bytes sent
  (mcu_test/net_client.c:476); from 65536 bytes on it returns more
  (`Output.OutputIsExactIff`; `Witnesses.LongWriteIsEmpty` is a run).
- The uptime message is built from three reads of a counter that an interrupt
  changes; `Timing.ReportIsTrueIff` says when it is consistent, and
  `Witnesses.ReportIsTorn` is a run in which it is not.

## Model

| member | source | states |
|---|---|---|
| SwTimer.TimerRefinesRealTime | mcu_test/swtimer.c:26-37 | a timer armed and tested on a counter that wraps agrees with real time for 2^32 ticks, and never reports a timeout early, for any start value and any elapsed time |
| SwTimer.PollingCannotMissTimeout | mcu_test/swtimer.c:33-37 | polls at most 2^32 minus the timeout apart cannot all fall into the ticks where the wrapped test reads false again |
| SwTimer.PollingBoundIsSharp | mcu_test/swtimer.c:33-37 | with gaps one tick longer every poll can be answered with false, through any number of rounds of the counter |
| SwTimer.TickCounter.SetTimeout | mcu_test/swtimer.c:26-31 | arming stores the current count and the floor of ms by msPerTick |
| SwTimer.TickCounter.IsTimedOut | mcu_test/swtimer.c:33-37 | the answer is the wrapping comparison on the stored timer |
| SysTick.ClocksAgree | mcu_test/mcu_test.c:245-258 | after n interrupts all four counters are the stated functions of n, each through its own wraparound |
| SysTick.ReportIsExactIff | mcu_test/mcu_test.c:506-507 | hours, minutes and seconds taken from three reads give the last read back exactly when hour and minute agree with it |
| SysTick.ReportIsInjective | mcu_test/mcu_test.c:506-507 | reports taken in one second are equal only for equal uptimes |
| SysTick.UntornIff | mcu_test/mcu_test.c:506-507 | read at three ticks within less than a round of the counter, hour and minute agree with the last read exactly when no hour began since the first read and no minute since the second |
| NetClient.EnqueueSlot | mcu_test/net_client.c:70-85 | writing one slot ahead appends one element and overwrites no unread slot; it is possible exactly below size - 1 elements |
| NetClient.DequeueSlot | mcu_test/net_client.c:110-117 | equal indices mean empty; otherwise the slot behind the last one read is the oldest element |
| NetClient.UnreadLength | mcu_test/net_client.c:70-76 | the number of unread slots is idx - odx modulo the size |
| NetClient.RingIsBoundedQueue | mcu_test/net_client.c:63-120 | for every size and every history of operations the ring gives the answers of a FIFO of capacity size - 1 |
| NetClient.Instance.EnqueuePbuf | mcu_test/net_client.c:63-88 | the array operation appends to the abstract queue, or fails with nothing changed |
| NetClient.Instance.DequeuePbuf | mcu_test/net_client.c:101-120 | the array operation takes the oldest element of the abstract queue, or reports that there is none |
| NetClient.Instance.GetReadLen | mcu_test/net_client.c:132-150 | the length of the oldest queued packet, 0 if there is none |
| NetClient.Instance.ReceiveCb | mcu_test/net_client.c:217-250 | ERR_MEM is answered exactly to a packet that finds the queue full, and then nothing changes; otherwise a packet is queued; a NULL packet drops the connection, raises the event and is answered ERR_OK; without argument or PCB nothing happens |
| NetClient.Instance.ErrorCb | mcu_test/net_client.c:163-177 | callbacks are removed, the PCB is given back, handle and flag are cleared, the application is told |
| NetClient.Instance.ConnectedCb | mcu_test/net_client.c:288-309 | callbacks are installed on the PCB in the handle, the flag is set, the application is told |
| NetClient.Instance.Connect | mcu_test/net_client.c:367-402 | -2 exactly if no PCB was added, and then nothing changes; -4 exactly if one was added, its connect failed, it was given back once and the handle is NULL; otherwise 0 with a connecting PCB in the handle |
| NetClient.Instance.Disconnect | mcu_test/net_client.c:411-428 | as for an error, whether or not there still is a PCB |
| NetClient.Instance.ReadCopy | mcu_test/net_client.c:450-456 | the caller's buffer receives the oldest packet up to its size and is otherwise unchanged |
| NetClient.Instance.WriteData | mcu_test/net_client.c:490-497 | the bytes handed to TCP and the count returned, on success and on error |
| Connection.PcbLifetime | mcu_test/net_client.c:367-428 | in every reachable state the live PCBs are exactly the one in the handle; each is given back at most once; calls on one that is gone are made only by net_ErrorCb, six for each error that lwIP reports after freeing the PCB; net_Connect never overwrites one |
| Connection.NullCallsExactly | mcu_test/net_client.c:411-498 | each step passes NULL to lwIP exactly if it uses the handle without a connection, six times when disconnecting and otherwise once; outside recovery that is exactly while the disconnect flag is up |
| Connection.NullCallsEndWithIteration | mcu_test/mcu_test.c:377-386 | after a loss NULL is passed only in the rest of that iteration and in recovery, until net_Disconnect has been called |
| Connection.FlagIsSound | mcu_test/net_client.c:288-309 | the flag is true exactly if the connected callback has come for the live PCB in the handle, and exactly then its receive, sent and poll callbacks are installed; every callback that can be delivered finds its own PCB there |
| Connection.ReleasedPcbsAreSilent | mcu_test/net_client.c:367-428 | no callback into the client stays on a PCB given back after an error or a disconnect; after a failed tcp_connect, and only then, argument and error callback stay |
| Connection.EventsAlternate | mcu_test/mcu_test.c:74-94 | any two CONNECTED events have a DISCONNECTED event between them, and while unconnected every CONNECTED has been answered |
| Connection.NoLostDisconnect | mcu_test/mcu_test.c:377-386 | if lwIP drops the connection at any point of any iteration, net_Disconnect is called no later than in the next iteration, and before it come only the rest of the running one and umqtt_Disconnect |
| Connection.OwnDisconnectIsAbsorbed | mcu_test/mcu_test.c:514-536 | from DELAY the loop goes on only to WAIT_IP, no new disconnect event comes meanwhile, and in WAIT_IP the one raised by recovery itself is gone |
| Delivery.StreamIsExactIff | mcu_test/net_client.c:444-466 | read, queued and held bytes are the peer's stream behind what earlier connections delivered, without loss, repetition or reordering, exactly if nothing is chained and nothing was given up |
| Delivery.MeasuredPacketIsRead | mcu_test/mcu_test.c:116-139 | whatever callbacks come between measuring and taking a packet, the packet taken is the one measured, and all of it is copied |
| Delivery.PacketIsReadIff | mcu_test/mcu_test.c:116-139 | an attempt to read, with any callbacks inside, succeeds and yields the oldest packet exactly if memory can be allocated and that packet has a byte in its first segment; otherwise the queue keeps what it held |
| Delivery.ZeroLengthPacketBlocksReading | mcu_test/net_client.c:132-150 | once a packet without bytes in its first segment is at the head, no packet is ever read again (a run that gets there: Witnesses.EmptySegmentAtHead; when a read does succeed: Delivery.PacketIsReadIff) |
| Witnesses.EmptySegmentAtHead | mcu_test/net_client.c:132-150 | a run that leads to a chained packet with an empty first segment at the head of the queue |
| Witnesses.ChainedBufferIsCut | mcu_test/net_client.c:453-458 | a run in which what hangs behind the first segment is missing from the received stream |
| Witnesses.RefusedPacketIsLost | mcu_test/net_client.c:227-235 | a run in which a packet refused with ERR_MEM and given up is missing from the received stream |
| Witnesses.LongWriteIsEmpty | mcu_test/net_client.c:490-497 | a run in which 65536 bytes are reported as written and none is sent |
| Witnesses.FailedConnectLeavesCallback | mcu_test/net_client.c:383-399 | a run after which a closed PCB still has argument and error callback |
| Witnesses.ErrorOnFreedPcb | mcu_test/net_client.c:163-177 | a run in which net_ErrorCb makes its six calls on a freed PCB |
| Witnesses.WriteAfterLoss | mcu_test/net_client.c:490 | a run in which a write after a loss goes to NULL while the disconnect flag is up |
| Witnesses.ReportIsTorn | mcu_test/mcu_test.c:506-507 | a run in which the uptime of one minute is reported as 00:00:00 |
| Delivery.PbufHasOneOwner | mcu_test/net_client.c:217-250 | every packet buffer is at all times held by lwIP, queued, in use or freed, in exactly one of these and once |
| Delivery.LeftoversAreReadFirst | mcu_test/net_client.c:367-428 | after a reconnect the at most size - 1 packets left in the queue are read first and in order; all later reads are of the new connection or later ones |
| Window.WindowLedger | mcu_test/net_client.c:453-458 | credit returned, credit in progress and queued bytes equal the bytes accepted on the connection plus those left over when it was opened |
| Window.WindowIsRestoredIff | mcu_test/net_client.c:453-458 | with everything read the credit equals the bytes accepted exactly if chained and left-over bytes cancel; for unchained buffers exactly if nothing was left over |
| OverCredit.OldBytesAreCredited | mcu_test/net_client.c:411-428 | a run in which a connection that accepted nothing is credited with one byte |
| Output.OutputIsExactIff | mcu_test/net_client.c:484-498 | the output of every connection is the concatenation of the buffers reported as written exactly if each is shorter than 65536 bytes; in any case each adds its length modulo 65536 |
| Output.LastWriteIsFlushed | mcu_test/net_client.c:492-496 | after a write without more to come nothing on its connection is left unflushed |
| LoopRules.StateChangesExactly | mcu_test/mcu_test.c:375-538 | in every run each of the six states is entered exactly for its cause: WAIT_IP at a poll 300 ticks (modulo 2^32) after the back-off was armed, WAIT_NET when net_Connect returns 0, WAIT_MQTT when umqtt_Connect succeeds, RUN_MQTT when the status is connected, RECOVERY on a disconnect outside DELAY or a failing call, DELAY after recovery |
| LoopRules.CallsExactly | mcu_test/mcu_test.c:389-537 | in every run each call is made exactly when it is due, for instance umqtt_Connect in WAIT_NET with the connection flag set, and the first birth message in WAIT_MQTT with the status connected; no other step makes a call |
| LoopRules.MqttNeedsConnection | mcu_test/mcu_test.c:418-429 | wherever umqtt_Connect is called, the handle holds a live PCB whose connected callback has come |
| LoopRules.ConnectNeedsAddress | mcu_test/mcu_test.c:392-403 | net_Connect is reached exactly from WAIT_IP with an address assigned |
| LoopRules.ReportIsDueIff | mcu_test/mcu_test.c:502-504 | the report timer is tested after every umqtt_Run and only then; a report is begun exactly if 500 ticks (modulo 2^32) have passed since the timer was armed |
| LoopRules.EventsExactly | mcu_test/mcu_test.c:74-94 | every loss, connection and poll is reported to the application in its step and nothing else is; the flag is raised by a DISCONNECTED event and put down by the loop, and by nothing else |
| LoopRules.TransferExactly | mcu_test/net_client.c:444-498 | a write succeeds exactly with a connection and room, and tcp_output follows exactly if no more is to come; a read succeeds exactly when a measured packet finds memory |
| LoopRules.TimersAreRecorded | mcu_test/mcu_test.c:502-536 | the arming and polling ticks that the timing results speak of are those at which the loop arms and polls |
| CallTrace.CallsAreSessions | mcu_test/mcu_test.c:375-538 | the calls of every run are whole sessions of the grammar and the beginning of another: no second net_Connect without the full recovery, birth messages once a session, together and in order |
| CallTrace.Parse | mcu_test/mcu_test.c:389-537 | every trace the automaton of the loop accepts has a parse in the grammar |
| Timing.CountersFollowRealTime | mcu_test/mcu_test.c:245-258 | in every reachable state the four counters are the stated functions of the real tick |
| Timing.BackoffIsKept | mcu_test/mcu_test.c:514-536 | 300 real ticks lie between any back-off and any later net_Connect, and by tick n there are at most 1 + n/300 of them, for unbounded n |
| Timing.BackoffEnds | mcu_test/mcu_test.c:529-536 | with polls at most 2^32 - 300 ticks apart, the first poll 300 ticks after recovery leaves DELAY |
| Timing.ReportRate | mcu_test/mcu_test.c:502-509 | by tick n at most n/500 uptime reports are sent, for unbounded n |
| Timing.ReportIsTrueIff | mcu_test/mcu_test.c:502-509 | every published report is made of three reads at ordered real ticks, has minutes and seconds below 60, and, if formatted within less than a round of the counter, shows the true uptime exactly if no hour began after the first read and no minute after the second; with no tick between the reads it is true |
| Firmware.Program.SysTickHandler | mcu_test/mcu_test.c:245-258 | one interrupt advances the four counters as specified |
| Firmware.Program.NetReadPacket | mcu_test/mcu_test.c:116-139 | interrupted anywhere, the length returned is that of the packet that was oldest at the call; a buffer that is returned has that length and holds exactly that packet, the others still wait; without a buffer nothing was read and the queue keeps all it held |
| Firmware.Program.NetWritePacket | mcu_test/mcu_test.c:142-147 | the count returned is the length of the buffer written, or 0 when nothing was written |
| Firmware.Program.ResetState | mcu_test/mcu_test.c:379-386 | the flag is cleared, and the state becomes RECOVERY unless it is DELAY |
| Firmware.Program.TestConnected | mcu_test/mcu_test.c:418-429 | umqtt_Connect is entered exactly if the connection flag is set |
| Firmware.Program.TestMqttConnected | mcu_test/mcu_test.c:445-456 | the birth messages are begun exactly if the status is connected |
| Firmware.Program.ConnectToServer | mcu_test/mcu_test.c:403-412 | net_Connect decides between WAIT_NET and RECOVERY |
| Firmware.Program.LoopBody | mcu_test/mcu_test.c:375-538 | one pass of the structured loop, preempted at every statement group, takes exactly a path of the transition system, whose steps LoopRules.StateChangesExactly and LoopRules.CallsExactly describe by their causes |
| Firmware.Program.MainLoop | mcu_test/mcu_test.c:374-538 | after any number of passes the state of the objects is the state the transition system reaches by the recorded steps |
| Firmware.PowerUp | mcu_test/mcu_test.c:326-538 | construction, early interrupts and any number of passes of the loop compose to a run of the transition system |
| ProgramSafety.ProgramIsSafe | mcu_test/mcu_test.c:326-539 | the invariants of connection, callbacks, events, data, output and time, the spacing of connections and the call language hold of the program's real state between any two statement groups |

## Left out

- The umqtt library: its source is not part of this model; each call may read and write any number of packets and return any code.
- lwIP itself: only the stub described above; retransmission, window size and memory pools are not modelled, and the return code of the error and connected callbacks is not used.
- The NULL checks on the instance handle and on pBuf: the instance is an object and buffers are never NULL.
- Firmware.Program.MainLoop: stops after a given number of passes, because a loop without end cannot be given a postcondition; the number is arbitrary.
- Firmware.Program.Umqtt: what umqtt does with a packet buffer after netReadPacket returns it, including freeing it, is not modelled.
- SwTimer.TickCounter.SetTimeout: requires msPerTick to be non-zero, since the C code divides by it.
- net_SentCb does nothing and net_Init only fills in fields; the latter is the constructor of the class.
- Server address and port, topics, message texts, MAC and IP address formatting, and all UART output.
- A failing umqtt_New, after which the program spins before the loop.
- SysTick.Report: reads hours, minutes and seconds in this order; C leaves the order in which the arguments of a call are evaluated open (mcu_test/mcu_test.c:506-507).
- What a call on a freed PCB does to memory, and PCB memory being used again: such calls are only counted.
- Hardware and stack initialisation, the startup code, the linker script and the test programs.
- Missing volatile qualifiers and compiler reordering: every step reads and writes memory in program order.

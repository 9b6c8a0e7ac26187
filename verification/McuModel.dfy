/**
 * The whole application as a transition system: the main loop, one statement
 * group at a time, interleaved with tick interrupts and lwIP callbacks.
 *
 * A step that cannot be taken leaves the state alone, so every sequence of
 * labels is a run and every theorem about `Run` speaks of all interleavings and
 * of all answers of the umqtt library.
 */
module McuModel {
  import opened Base
  import opened LwipStack
  import opened NetModel
  import opened SwTimer
  import opened SysTick

  const REPORT_MS: uint32 := 5000
  const BACKOFF_MS: uint32 := 3000
  const REPORT_TICKS: uint32 := REPORT_MS / MS_PER_TICK
  const BACKOFF_TICKS: uint32 := BACKOFF_MS / MS_PER_TICK

  datatype RunState = WaitIp | WaitNet | WaitMqtt | RunMqtt | Recovery | Delay

  datatype UmqttError = UmqttOk | UmqttConnected | UmqttOther

  /** The calls by which the main loop is observed. */
  datatype Call =
    | NetConnect | UmqttConnect
    | Subscribe | PublishStatus | PublishMac | PublishIp
    | UmqttRun | PublishUptime
    | UmqttDisconnect | NetDisconnect | Backoff

  /** A call with the loop iteration and the real tick at which it was made. */
  datatype Stamped = Stamped(call: Call, iter: nat, tick: nat)

  /** Where a transport callback of umqtt stands. */
  datatype Io =
    | Idle
    | Measured(len: nat)          // net_GetReadLen answered len
    | Fetched(pb: Pbuf)           // taken from the queue and copied
    | Paid(pb: Pbuf)             // tcp_recved done, buffer not yet freed
    | Unflushed                   // tcp_write done, tcp_output to come

  /** The next statement group of the main loop. */
  datatype Pc =
    | Head | Clear | Dispatch | DoConnect
    | InUmqtt(call: Call, io: Io)
    | CheckReport | Rearm
    | FormatHours | FormatMinutes(h: nat, t1: nat) | FormatSeconds(h: nat, m: nat, t1: nat, t2: nat)
    | DoDisconnect | ArmBackoff

  /** A packet as the application read it: the length asked for, the buffer it came from, the bytes it got. */
  datatype Read = Read(measured: nat, pb: Pbuf, data: seq<byte>)

  /** A buffer that net_WritePacket reported as written, and the PCB it went to. */
  datatype Written = Written(pcb: Pcb, buf: seq<byte>, more: bool)

  /** What was published, and the real ticks at which the seconds counter was read for it. */
  datatype UptimeReport = UptimeReport(shown: Hms, t1: nat, t2: nat, t3: nat)

  datatype Sys = Sys(
    net: Net,
    clocks: Clocks,
    tick: nat,                   // real ticks since power-on
    pc: Pc,
    runState: RunState,
    netWasDisconnected: bool,
    reportTimer: Timeout,
    reportArmedAt: nat,          // real tick of the last arming
    errorTimer: Timeout,
    errorArmedAt: nat,
    iter: nat,                   // loop iterations begun
    // what has happened so far
    calls: seq<Stamped>,
    received: seq<Read>,
    writes: seq<Written>,
    reports: seq<UptimeReport>,
    delayPolls: seq<nat>)        // real ticks at which the back-off timer was polled since it was armed

  /** Everything the environment decides about one statement group. */
  datatype IoAct = Return | ReadPacket | WritePacket
  datatype Env = Env(
    hasIp: bool,                 // an address is assigned
    outcome: ConnectOutcome,
    code: UmqttError,            // what the umqtt call returns
    act: IoAct,                  // what umqtt does next inside a call
    mallocOk: bool,             // app_malloc succeeds
    buf: seq<byte>, more: bool, room: bool)

  /** An environment that grants nothing. */
  const ENV: Env := Env(false, NoPcb, UmqttOk, Return, false, [], false, false)

  datatype Label =
    | Main(env: Env)
    | OnTick
    | OnArrival(p: Pcb, payload: seq<byte>, rest: seq<byte>)
    | OnReceive(p: Pcb)
    | OnPeerClose(p: Pcb)
    | OnGiveUp(p: Pcb)
    | OnError(p: Pcb, freed: bool)   // freed: lwIP has given back the PCB before it calls net_ErrorCb
    | OnConnected(p: Pcb)
    | OnPoll(p: Pcb)

  /** The state in which the loop is entered, after any number of ticks. */
  function Start(capacity: nat, tick: nat): Sys {
    Sys(NetModel.Init(capacity, EMPTY), At(tick), tick, Head, WaitIp, false,
        Armed(tick % U32, MS_PER_TICK, REPORT_MS), tick, Timeout(0, 0), 0, 0, [], [], [], [], [])
  }

  /** What a step of the loop proper leaves alone: the client and all data passed through it. */
  predicate SameLink(s: Sys, r: Sys) {
    && r.net == s.net && r.received == s.received && r.writes == s.writes
    && (r.pc.InUmqtt? ==> r.pc.io == Idle)
  }

  /** What a piece of a transport callback leaves alone: the loop, its timers and the connection. */
  predicate SameLoop(s: Sys, r: Sys) {
    && r == s.(net := r.net, pc := r.pc, received := r.received, writes := r.writes)
    && r.net == s.net.(queue := r.net.queue, stack := r.net.stack)
  }

  /** What every interrupt leaves alone. */
  predicate SameProgram(s: Sys, r: Sys) {
    && r.pc == s.pc && r.received == s.received && r.writes == s.writes
    && r.net.capacity == s.net.capacity && |r.net.stack.pcbs| == |s.net.stack.pcbs|
    && (r.net.hNet == s.net.hNet || r.net.hNet.None?)
  }

  // ---- callbacks ----

  /** Take over a new client state; an event it raised reaches the application's callback. */
  function Notify(s: Sys, n: Net): Sys {
    s.(net := n,
       netWasDisconnected :=
         if |n.events| > |s.net.events| then Flagged(s.netWasDisconnected, n.events[|n.events| - 1])
         else s.netWasDisconnected)
  }

  function ReceiveStep(s: Sys, p: Pcb): (r: Sys)
    ensures SameProgram(s, r)
  {
    var st := s.net.stack;
    if Live(st, p) && st.pcbs[p].recvCb && st.pcbs[p].held != [] then
      var (n, err) := ReceiveCb(s.net, st.pcbs[p].arg, true, Some(st.pcbs[p].held[0]));
      s.(net := n.(stack := if err == ErrOk then Taken(st, p) else Refused(st, p)))
    else s
  }

  function PeerCloseStep(s: Sys, p: Pcb): (r: Sys)
    ensures SameProgram(s, r)
  {
    var st := s.net.stack;
    if Live(st, p) && st.pcbs[p].recvCb && st.pcbs[p].held == [] then
      Notify(s, ReceiveCb(s.net, st.pcbs[p].arg, true, None).0)
    else s
  }

  predicate ErrorEnabled(s: Sys, p: Pcb) {
    Live(s.net.stack, p) && s.net.stack.pcbs[p].errCb && s.net.stack.pcbs[p].arg
  }

  function ErrorStep(s: Sys, p: Pcb, freed: bool): (r: Sys)
    ensures SameProgram(s, r)
  {
    if ErrorEnabled(s, p) then
      Notify(s, Drop(if freed then s.net.(stack := Reclaim(s.net.stack, p)) else s.net))
    else s
  }

  /** The client before the connected callback runs: lwIP no longer expects the connection. */
  function Established(s: Sys, p: Pcb): Net
    requires p < |s.net.stack.pcbs|
  {
    s.net.(stack := Put(s.net.stack, p, s.net.stack.pcbs[p].(connecting := false)))
  }

  function ConnectedStep(s: Sys, p: Pcb): (r: Sys)
    ensures SameProgram(s, r)
  {
    var st := s.net.stack;
    if Live(st, p) && st.pcbs[p].connecting && st.pcbs[p].arg then
      Notify(s, ConnectedCb(Established(s, p)))
    else s
  }

  function PollStep(s: Sys, p: Pcb): (r: Sys)
    ensures SameProgram(s, r)
  {
    if Live(s.net.stack, p) && s.net.stack.pcbs[p].pollCb then Notify(s, Raise(s.net, Poll)) else s
  }

  function ArriveStep(s: Sys, p: Pcb, payload: seq<byte>, rest: seq<byte>): (r: Sys)
    ensures SameProgram(s, r)
  {
    if Live(s.net.stack, p) && |payload| + |rest| < U16 then
      s.(net := s.net.(stack := Arrive(s.net.stack, p, payload, rest)))
    else s
  }

  function GiveUpStep(s: Sys, p: Pcb): (r: Sys)
    ensures SameProgram(s, r)
  {
    if Live(s.net.stack, p) && s.net.stack.pcbs[p].refused && s.net.stack.pcbs[p].held != [] then
      s.(net := s.net.(stack := GiveUp(s.net.stack, p)))
    else s
  }

  function TickStep(s: Sys): (r: Sys)
    ensures SameProgram(s, r)
  {
    s.(clocks := Handler(s.clocks), tick := s.tick + 1)
  }

  // ---- the main loop ----

  function Log(s: Sys, c: Call): Sys {
    s.(calls := s.calls + [Stamped(c, s.iter, s.tick)])
  }

  function Enter(s: Sys, c: Call): Sys {
    Log(s, c).(pc := InUmqtt(c, Idle))
  }

  function HeadStep(s: Sys): (r: Sys)
    ensures SameLink(s, r)
  {
    s.(iter := s.iter + 1, pc := if s.netWasDisconnected then Clear else Dispatch)
  }

  function ClearStep(s: Sys): (r: Sys)
    ensures SameLink(s, r)
  {
    s.(netWasDisconnected := false,
       runState := if s.runState != Delay then Recovery else Delay,
       pc := Dispatch)
  }

  function DispatchStep(s: Sys, env: Env): (r: Sys)
    ensures SameLink(s, r)
  {
    match s.runState
    case WaitIp => s.(pc := if env.hasIp then DoConnect else Head)
    case WaitNet => if s.net.isConnected then Enter(s, UmqttConnect) else s.(pc := Head)
    case WaitMqtt =>
      if env.code == UmqttConnected then Enter(s.(runState := RunMqtt), Subscribe)
      else Enter(s, UmqttRun)
    case RunMqtt => Enter(s, UmqttRun)
    case Recovery => Enter(s, UmqttDisconnect)
    case Delay =>
      s.(pc := Head,
         delayPolls := s.delayPolls + [s.tick],
         runState := if TimedOut(s.errorTimer, s.clocks.ticks) then WaitIp else Delay)
  }

  function ConnectStep(s: Sys, env: Env): Sys {
    var (n, ret) := Connect(s.net, env.outcome);
    Log(s, NetConnect).(net := n, runState := if ret == 0 then WaitNet else Recovery, pc := Head)
  }

  /** What the loop does when umqtt call `c` has returned. */
  function ReturnStep(s: Sys, c: Call, code: UmqttError): (r: Sys)
    ensures SameLink(s, r)
  {
    match c
    case UmqttConnect => s.(runState := if code == UmqttOk then WaitMqtt else Recovery, pc := Head)
    case Subscribe => Enter(s, PublishStatus)
    case PublishStatus => Enter(s, PublishMac)
    case PublishMac => Enter(s, PublishIp)
    case PublishIp => Enter(s, UmqttRun)
    case UmqttRun => s.(runState := if code != UmqttOk then Recovery else s.runState, pc := CheckReport)
    case PublishUptime => s.(pc := Head)
    case _ => s.(pc := DoDisconnect)
  }

  function ReadStep(s: Sys, c: Call, len: nat): Sys {
    var (n, pb) := Dequeue(s.net);
    match pb
    case None => s.(pc := InUmqtt(c, Idle))
    case Some(b) =>
      s.(net := n, received := s.received + [Read(len, b, Copied(b, len))], pc := InUmqtt(c, Fetched(b)))
  }

  function WriteStep(s: Sys, c: Call, env: Env): Sys {
    var (st, ok) := TcpWrite(s.net.stack, s.net.hNet, env.buf, env.room);
    s.(net := s.net.(stack := st),
       writes := if ok then s.writes + [Written(s.net.hNet.value, env.buf, env.more)] else s.writes,
       pc := InUmqtt(c, if ok && !env.more then Unflushed else Idle))
  }

  /** One piece of netReadPacket or netWritePacket, called from inside umqtt. */
  function TransportStep(s: Sys, c: Call, io: Io, env: Env): (r: Sys)
    ensures SameLoop(s, r) && r.pc.InUmqtt? && r.pc.call == c
  {
    match io
    case Idle =>
      if env.act == WritePacket then WriteStep(s, c, env)
      else
        var len := GetReadLen(s.net);
        s.(pc := InUmqtt(c, if len != 0 then Measured(len) else Idle))
    case Measured(len) => if env.mallocOk then ReadStep(s, c, len) else s.(pc := InUmqtt(c, Idle))
    case Fetched(pb) =>
      s.(net := s.net.(stack := TcpRecved(s.net.stack, s.net.hNet, pb.Len())), pc := InUmqtt(c, Paid(pb)))
    case Paid(pb) => s.(net := s.net.(stack := PbufFree(s.net.stack, pb)), pc := InUmqtt(c, Idle))
    case Unflushed => s.(net := s.net.(stack := TcpOutput(s.net.stack, s.net.hNet)), pc := InUmqtt(c, Idle))
  }

  function FormatSecondsStep(s: Sys, h: nat, m: nat, t1: nat, t2: nat): Sys {
    Enter(s.(reports := s.reports + [UptimeReport(Hms(h, m, s.clocks.upTime % 60), t1, t2, s.tick)]), PublishUptime)
  }

  /** Sending the uptime report, once its timer has run out. */
  function ReportStep(s: Sys): (r: Sys)
    ensures SameLink(s, r)
  {
    match s.pc
    case CheckReport => s.(pc := if TimedOut(s.reportTimer, s.clocks.ticks) then Rearm else Head)
    case Rearm =>
      s.(reportTimer := Armed(s.clocks.ticks, MS_PER_TICK, REPORT_MS), reportArmedAt := s.tick, pc := FormatHours)
    case FormatHours => s.(pc := FormatMinutes(s.clocks.upTime / 3600, s.tick))
    case FormatMinutes(h, t1) => s.(pc := FormatSeconds(h, (s.clocks.upTime / 60) % 60, t1, s.tick))
    case FormatSeconds(h, m, t1, t2) => FormatSecondsStep(s, h, m, t1, t2)
    case _ => s.(pc := Head)
  }

  function DisconnectStep(s: Sys): Sys {
    Log(Notify(s, Drop(s.net)), NetDisconnect).(pc := ArmBackoff)
  }

  function BackoffStep(s: Sys): (r: Sys)
    ensures SameLink(s, r)
  {
    Log(s, Backoff).(errorTimer := Armed(s.clocks.ticks, MS_PER_TICK, BACKOFF_MS), errorArmedAt := s.tick,
                     delayPolls := [], runState := Delay, pc := Head)
  }

  function MainStep(s: Sys, env: Env): Sys {
    match s.pc
    case Head => HeadStep(s)
    case Clear => ClearStep(s)
    case Dispatch => DispatchStep(s, env)
    case DoConnect => ConnectStep(s, env)
    case InUmqtt(c, io) =>
      if io == Idle && env.act == Return then ReturnStep(s, c, env.code) else TransportStep(s, c, io, env)
    case DoDisconnect => DisconnectStep(s)
    case ArmBackoff => BackoffStep(s)
    case _ => ReportStep(s)
  }

  /** The step is a piece of netReadPacket or netWritePacket. */
  predicate InTransport(s: Sys, env: Env) {
    s.pc.InUmqtt? && !(s.pc.io == Idle && env.act == Return)
  }

  lemma LoopFrame(s: Sys, env: Env)
    requires s.pc != DoConnect && s.pc != DoDisconnect && !InTransport(s, env)
    ensures SameLink(s, MainStep(s, env))
  {
  }

  function Next(s: Sys, l: Label): Sys {
    match l
    case Main(env) => MainStep(s, env)
    case OnTick => TickStep(s)
    case OnArrival(p, payload, rest) => ArriveStep(s, p, payload, rest)
    case OnReceive(p) => ReceiveStep(s, p)
    case OnPeerClose(p) => PeerCloseStep(s, p)
    case OnGiveUp(p) => GiveUpStep(s, p)
    case OnError(p, freed) => ErrorStep(s, p, freed)
    case OnConnected(p) => ConnectedStep(s, p)
    case OnPoll(p) => PollStep(s, p)
  }

  function Exec(s: Sys, ls: seq<Label>): Sys
    decreases |ls|
  {
    if ls == [] then s else Next(Exec(s, ls[..|ls| - 1]), ls[|ls| - 1])
  }

  /** Any run of the application with a queue of `size` slots, entered at any tick. */
  function Run(size: nat, tick: nat, ls: seq<Label>): Sys
    requires 2 <= size <= 256
  {
    Exec(Start(size - 1, tick), ls)
  }

  lemma ExecOne(s: Sys, ls: seq<Label>, l: Label)
    ensures Exec(s, ls + [l]) == Next(Exec(s, ls), l)
  {
    assert (ls + [l])[..|ls|] == ls;
  }

  lemma {:induction false} ExecAppend(s: Sys, a: seq<Label>, b: seq<Label>)
    ensures Exec(s, a + b) == Exec(Exec(s, a), b)
    decreases |b|
  {
    if b == [] {
      assert a + b == a;
    } else {
      var front := b[..|b| - 1];
      assert (a + b)[..|a + b| - 1] == a + front;
      ExecAppend(s, a, front);
    }
  }

  lemma ConnectFields(s: Sys, env: Env)
    requires s.pc == DoConnect
    ensures Next(s, Main(env))
            == s.(net := Connect(s.net, env.outcome).0, calls := s.calls + [Stamped(NetConnect, s.iter, s.tick)],
                  runState := if env.outcome == ConnectStarts then WaitNet else Recovery, pc := Head)
  {
    assert Next(s, Main(env)) == ConnectStep(s, env);
  }

  lemma AttachFrame(n: Net)
    ensures forall p :: 0 <= p < |n.stack.pcbs| ==> ConnectedCb(n).stack.pcbs[p].credited == n.stack.pcbs[p].credited
  {
  }

  lemma CallbackFrame(s: Sys, l: Label)
    requires !l.Main?
    ensures SameProgram(s, Next(s, l))
  {
  }
}

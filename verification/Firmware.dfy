/**
 * The program itself: the objects, the interrupt handlers and the main loop with
 * its switch, in the structure of mcu_test.c.
 *
 * `trace` records every statement group and every callback as a label of the
 * transition system; the object invariant says that the state of the program is
 * the state that the transition system reaches by that trace.  Interrupts come
 * at any of the calls of Preempt, in any number.
 */
module Firmware {
  import opened Base
  import opened LwipStack
  import opened Model = NetModel
  import NetClient
  import opened McuModel
  import opened Timer = SwTimer
  import opened SysTick
  import DataPath
  import Delivery

  /** The state after static initialisation: no timer is armed yet. */
  function PowerOnState(capacity: nat, tick: nat): Sys {
    Start(capacity, tick).(reportTimer := Timeout(0, 0))
  }

  class Program {
    const net: NetClient.Instance
    const ticker: TickCounter
    const upTimeReportTimer: Timer.SwTimer
    const errorTimer: Timer.SwTimer
    var msTicks: uint32
    var upTime: uint32
    var subseconds: uint32
    var runState: RunState

    ghost const size: nat
    ghost const startTick: nat     // the tick at which the loop is entered
    ghost var trace: seq<Label>
    ghost var pc: Pc
    ghost var tick: nat
    ghost var reportArmedAt: nat
    ghost var errorArmedAt: nat
    ghost var iter: nat
    ghost var calls: seq<Stamped>
    ghost var received: seq<Read>
    ghost var writes: seq<Written>
    ghost var reports: seq<UptimeReport>
    ghost var delayPolls: seq<nat>

    ghost function Repr(): set<object> {
      {this, net, net.queue, net.pfnCb, ticker, upTimeReportTimer, errorTimer}
    }

    /** The objects are well formed. */
    ghost predicate Sound()
      reads Repr()
    {
      && net.Valid() && 2 <= size <= 256
      && upTimeReportTimer != errorTimer
      && ticker.msPerTick == MS_PER_TICK
    }

    ghost function Abs(): Sys
      requires Sound()
      reads Repr()
    {
      Sys(net.Abs(), Clocks(ticker.ticks, msTicks, subseconds, upTime), tick, pc, runState,
          net.pfnCb.netWasDisconnected, upTimeReportTimer.Value(), reportArmedAt, errorTimer.Value(), errorArmedAt,
          iter, calls, received, writes, reports, delayPolls)
    }

    ghost predicate Valid()
      reads Repr()
    {
      Sound() && Abs() == Run(size, startTick, trace)
    }

    /** The packets in the queue, oldest first. */
    ghost function Waiting(): seq<Pbuf>
      requires Sound()
      reads Repr()
    {
      net.Abs().queue
    }

    /** What an interrupt leaves alone. */
    twostate predicate LoopKept()
      reads this
    {
      && pc == old(pc) && runState == old(runState) && iter == old(iter)
      && received == old(received) && writes == old(writes)
    }

    /** Static initialisation, SwTimer_SetMsPerTick and net_Init. */
    constructor (queueSize: nat, ghost early: nat)
      requires 2 <= queueSize <= 256
      ensures Sound() && fresh(Repr()) && size == queueSize && startTick == early && trace == []
      ensures Abs() == PowerOnState(queueSize - 1, 0)
    {
      var sink := new NetClient.EventSink();
      net := new NetClient.Instance(queueSize, sink, EMPTY);
      ticker := new TickCounter();
      upTimeReportTimer := new Timer.SwTimer();
      errorTimer := new Timer.SwTimer();
      msTicks, upTime, subseconds, runState := 0, 0, 0, WaitIp;
      size, startTick, trace, pc := queueSize, early, [], Head;
      tick, reportArmedAt, errorArmedAt, iter := 0, 0, 0, 0;
      calls, received, writes, reports, delayPolls := [], [], [], [], [];
      new;
      ticker.SetMsPerTick(MS_PER_TICK);
    }

    /** The rest of what comes before the loop: `early` tick interrupts, and then the report timer is armed. */
    method Boot(early: nat)
      requires Sound() && Abs() == PowerOnState(size - 1, 0) && trace == [] && startTick == early
      modifies Repr()
      ensures Valid() && pc == Head && iter == 0 && trace == []
    {
      EarlyTicks(early);
      tick, reportArmedAt := early, early;
      ticker.SetTimeout(upTimeReportTimer, REPORT_MS);
    }

    method EarlyTicks(n: nat)
      requires Clocks(ticker.ticks, msTicks, subseconds, upTime) == At(0)
      modifies ticker`ticks, this`msTicks, this`subseconds, this`upTime
      ensures Clocks(ticker.ticks, msTicks, subseconds, upTime) == At(n)
    {
      for i := 0 to n
        invariant Clocks(ticker.ticks, msTicks, subseconds, upTime) == At(i)
      {
        NextClocks(i + 1);
        SysTickHandler();
      }
    }

    method SysTickHandler()
      modifies ticker`ticks, this`msTicks, this`subseconds, this`upTime
      ensures Clocks(ticker.ticks, msTicks, subseconds, upTime)
              == Handler(old(Clocks(ticker.ticks, msTicks, subseconds, upTime)))
    {
      ticker.Tick();
      msTicks := Add32(msTicks, MS_PER_TICK);
      subseconds := Add32(subseconds, 1);
      if subseconds == TICKS_PER_SECOND {
        subseconds := 0;
        upTime := Add32(upTime, 1);
      }
    }

    /** Record a step that has been carried out. */
    ghost method Record(l: Label, before: Sys)
      requires Sound() && before == Run(size, startTick, trace) && Abs() == Next(before, l)
      modifies this`trace
      ensures Valid() && trace == old(trace) + [l]
    {
      ExecOne(Start(size - 1, startTick), trace, l);
      trace := trace + [l];
    }

    // ---- interrupts ----

    method TickInterrupt()
      requires Valid()
      modifies Repr()
      ensures trace == old(trace) + [OnTick]
      ensures Valid() && LoopKept()
    {
      ghost var s := Abs();
      SysTickHandler();
      tick := tick + 1;
      Record(OnTick, s);
    }

    /** lwIP presents the oldest held packet. */
    method ReceiveInterrupt(p: Pcb)
      requires Valid()
      modifies Repr()
      ensures trace == old(trace) + [OnReceive(p)]
      ensures Valid() && LoopKept()
    {
      ghost var s := Abs();
      if Live(net.stack, p) && net.stack.pcbs[p].recvCb && net.stack.pcbs[p].held != [] {
        var st := net.stack;
        var err := net.ReceiveCb(st.pcbs[p].arg, true, Some(st.pcbs[p].held[0]));
        net.stack := if err == ErrOk then Taken(st, p) else Refused(st, p);
      }
      Record(OnReceive(p), s);
    }

    method PeerCloseInterrupt(p: Pcb)
      requires Valid()
      modifies Repr()
      ensures trace == old(trace) + [OnPeerClose(p)]
      ensures Valid() && LoopKept()
    {
      ghost var s := Abs();
      if Live(net.stack, p) && net.stack.pcbs[p].recvCb && net.stack.pcbs[p].held == [] {
        var _ := net.ReceiveCb(net.stack.pcbs[p].arg, true, None);
      }
      Record(OnPeerClose(p), s);
    }

    /** An error on `p`; lwIP may have freed it already. */
    method ErrorInterrupt(p: Pcb, freed: bool)
      requires Valid()
      modifies Repr()
      ensures trace == old(trace) + [OnError(p, freed)]
      ensures Valid() && LoopKept()
    {
      ghost var s := Abs();
      if Live(net.stack, p) && net.stack.pcbs[p].errCb && net.stack.pcbs[p].arg {
        if freed {
          net.stack := Reclaim(net.stack, p);
        }
        net.ErrorCb();
      }
      Record(OnError(p, freed), s);
    }

    method ConnectedInterrupt(p: Pcb)
      requires Valid()
      modifies Repr()
      ensures trace == old(trace) + [OnConnected(p)]
      ensures Valid() && LoopKept()
    {
      ghost var s := Abs();
      if Live(net.stack, p) && net.stack.pcbs[p].connecting && net.stack.pcbs[p].arg {
        net.stack := Put(net.stack, p, net.stack.pcbs[p].(connecting := false));
        net.ConnectedCb();
      }
      Record(OnConnected(p), s);
    }

    method PollInterrupt(p: Pcb)
      requires Valid()
      modifies Repr()
      ensures trace == old(trace) + [OnPoll(p)]
      ensures Valid() && LoopKept()
    {
      ghost var s := Abs();
      if Live(net.stack, p) && net.stack.pcbs[p].pollCb {
        net.PollCb();
      }
      Record(OnPoll(p), s);
    }

    /** What happens inside lwIP only. */
    method StackInterrupt(p: Pcb, payload: seq<byte>, rest: seq<byte>, giveUp: bool)
      requires Valid()
      modifies Repr()
      ensures Valid() && LoopKept()
      ensures trace == old(trace) + [if giveUp then OnGiveUp(p) else OnArrival(p, payload, rest)]
    {
      ghost var s := Abs();
      if giveUp {
        if Live(net.stack, p) && net.stack.pcbs[p].refused && net.stack.pcbs[p].held != [] {
          net.stack := GiveUp(net.stack, p);
        }
        Record(OnGiveUp(p), s);
      } else {
        if Live(net.stack, p) && |payload| + |rest| < U16 {
          net.stack := Arrive(net.stack, p, payload, rest);
        }
        Record(OnArrival(p, payload, rest), s);
      }
    }

    /** An interrupt may add to the queue but leaves what is in it. */
    lemma InterruptKeepsQueue(s: Sys, before: seq<Label>, l: Label)
      requires Valid() && s == Run(size, startTick, before) && !l.Main?
      requires trace == before + [l]
      ensures s.net.queue <= Waiting()
    {
      ExecOne(Start(size - 1, startTick), before, l);
      Delivery.CallbackKeepsHead(s, l);
      assert Abs().net == net.Abs();
    }

    /** Any number of interrupts. */
    method Preempt()
      requires Valid()
      modifies Repr()
      ensures old(trace) <= trace
      ensures Valid() && LoopKept() && old(Waiting()) <= Waiting()
    {
      var n: nat := *;
      while n > 0
        invariant old(trace) <= trace && Valid() && LoopKept() && old(Waiting()) <= Waiting()
      {
        Interrupt();
        n := n - 1;
      }
    }

    method Interrupt()
      requires Valid()
      modifies Repr()
      ensures old(trace) <= trace
      ensures Valid() && LoopKept() && old(Waiting()) <= Waiting()
    {
      ghost var s, before := Abs(), trace;
      var l: Label := *;
      match l {
        case Main(_) =>
        case OnTick => TickInterrupt();
        case OnArrival(p, payload, rest) => StackInterrupt(p, payload, rest, false);
        case OnReceive(p) => ReceiveInterrupt(p);
        case OnPeerClose(p) => PeerCloseInterrupt(p);
        case OnGiveUp(p) => StackInterrupt(p, [], [], true);
        case OnError(p, freed) => ErrorInterrupt(p, freed);
        case OnConnected(p) => ConnectedInterrupt(p);
        case OnPoll(p) => PollInterrupt(p);
      }
      if !l.Main? {
        InterruptKeepsQueue(s, before, l);
      }
    }

    // ---- reading and writing packets, called from inside umqtt ----

    /** net_GetReadLen. */
    method MeasureNext() returns (len: nat)
      requires Valid() && pc.InUmqtt? && pc.io == Idle
      modifies Repr()
      ensures trace == old(trace) + [Main(ENV.(act := ReadPacket))]
      ensures Valid() && pc == InUmqtt(old(pc).call, if len != 0 then Measured(len) else Idle)
      ensures Waiting() == old(Waiting()) && len == Model.GetReadLen(net.Abs())
      ensures runState == old(runState) && iter == old(iter) && received == old(received) && writes == old(writes)
    {
      ghost var s := Abs();
      len := net.GetReadLen();
      pc := InUmqtt(pc.call, if len != 0 then Measured(len) else Idle);
      Record(Main(ENV.(act := ReadPacket)), s);
    }

    method NoMemory()
      requires Valid() && pc.InUmqtt? && pc.io.Measured?
      modifies Repr()
      ensures trace == old(trace) + [Main(ENV)]
      ensures Valid() && pc == InUmqtt(old(pc).call, Idle) && Waiting() == old(Waiting())
      ensures runState == old(runState) && iter == old(iter) && received == old(received) && writes == old(writes)
    {
      ghost var s := Abs();
      pc := InUmqtt(pc.call, Idle);
      Record(Main(ENV), s);
    }

    /** The first part of net_ReadPacket takes the measured packet and fills the buffer completely. */
    method FetchMeasured(buf: array<byte>) returns (pb: Pbuf)
      requires Valid() && pc.InUmqtt? && pc.io == Measured(buf.Length) && buf !in Repr()
      modifies Repr(), buf
      ensures trace == old(trace) + [Main(ENV.(mallocOk := true))]
      ensures Valid() && pc == InUmqtt(old(pc).call, Fetched(pb)) && buf[..] == pb.payload
      ensures old(Waiting()) == [pb] + Waiting()
      ensures received == old(received) + [Read(buf.Length, pb, buf[..])]
      ensures runState == old(runState) && iter == old(iter) && writes == old(writes)
    {
      ghost var s := Abs();
      DataPath.MeasuredIsHead(size, startTick, trace);
      var next, count := net.ReadCopy(buf, buf.Length);
      pb := next.value;
      assert buf[..count] == buf[..];
      received := received + [Read(buf.Length, pb, pb.payload)];
      pc := InUmqtt(pc.call, Fetched(pb));
      Record(Main(ENV.(mallocOk := true)), s);
    }

    method CreditFetched(pb: Pbuf)
      requires Valid() && pc.InUmqtt? && pc.io == Fetched(pb)
      modifies Repr()
      ensures trace == old(trace) + [Main(ENV)]
      ensures Valid() && pc == InUmqtt(old(pc).call, Paid(pb)) && Waiting() == old(Waiting())
      ensures runState == old(runState) && iter == old(iter) && received == old(received) && writes == old(writes)
    {
      ghost var s := Abs();
      net.ReadCredit(pb);
      pc := InUmqtt(pc.call, Paid(pb));
      Record(Main(ENV), s);
    }

    method FreeFetched(pb: Pbuf)
      requires Valid() && pc.InUmqtt? && pc.io == Paid(pb)
      modifies Repr()
      ensures trace == old(trace) + [Main(ENV)]
      ensures Valid() && pc == InUmqtt(old(pc).call, Idle) && Waiting() == old(Waiting())
      ensures runState == old(runState) && iter == old(iter) && received == old(received) && writes == old(writes)
    {
      ghost var s := Abs();
      net.ReadFree(pb);
      pc := InUmqtt(pc.call, Idle);
      Record(Main(ENV), s);
    }

    /** The rest of net_ReadPacket. */
    method FinishRead(pb: Pbuf)
      requires Valid() && pc.InUmqtt? && pc.io == Fetched(pb)
      modifies Repr()
      ensures old(trace) <= trace
      ensures Valid() && pc == InUmqtt(old(pc).call, Idle) && old(Waiting()) <= Waiting()
      ensures runState == old(runState) && iter == old(iter) && received == old(received) && writes == old(writes)
    {
      Preempt();
      CreditFetched(pb);
      Preempt();
      FreeFetched(pb);
    }

    method ReadMeasured(len: nat) returns (ppBuf: array?<byte>)
      requires Valid() && pc.InUmqtt? && pc.io == Measured(len) && len > 0
      modifies Repr()
      ensures old(trace) <= trace
      ensures Valid() && pc == InUmqtt(old(pc).call, Idle)
      ensures runState == old(runState) && iter == old(iter) && writes == old(writes)
      ensures ppBuf == null ==> received == old(received) && Waiting() == old(Waiting())
      ensures ppBuf != null ==> fresh(ppBuf) && ppBuf.Length == len && ReadHead(old(received), old(Waiting()), ppBuf[..])
    {
      var buf: array?<byte> := Malloc(len);
      if buf != null {
        var pb := FetchMeasured(buf);
        FinishRead(pb);
      } else {
        NoMemory();
      }
      ppBuf := buf;
    }

    /** The oldest packet of queue `q` has been received, `data` is all of it, and the others still wait. */
    ghost predicate ReadHead(before: seq<Read>, q: seq<Pbuf>, data: seq<byte>)
      requires Sound()
      reads Repr()
    {
      && |received| == |before| + 1 && received[..|before|] == before
      && q != [] && received[|before|].pb == q[0] && received[|before|].data == data == q[0].payload
      && q[1..] <= Waiting()
    }

    /**
     * netReadPacket.  The length returned is that of the oldest packet in the
     * queue.  The packet comes whole in a buffer of exactly that length; if the
     * buffer cannot be allocated, the length comes alone and the packet stays.
     */
    method NetReadPacket() returns (len: nat, ppBuf: array?<byte>)
      requires Valid() && pc.InUmqtt? && pc.io == Idle
      modifies Repr()
      ensures old(trace) <= trace
      ensures Valid() && pc == old(pc) && runState == old(runState) && iter == old(iter) && writes == old(writes)
      ensures len == Model.GetReadLen(old(net.Abs()))
      ensures ppBuf == null ==> received == old(received) && old(Waiting()) <= Waiting()
      ensures ppBuf != null ==>
                fresh(ppBuf) && ppBuf.Length == len > 0 && ReadHead(old(received), old(Waiting()), ppBuf[..])
    {
      ppBuf := null;
      len := MeasureNext();
      if len != 0 {
        Preempt();
        ppBuf := ReadMeasured(len);
      }
    }

    /** app_malloc succeeds or fails. */
    method Malloc(len: nat) returns (buf: array?<byte>)
      ensures buf != null ==> fresh(buf) && buf.Length == len
    {
      var ok: bool := *;
      if ok {
        buf := new byte[len];
      } else {
        buf := null;
      }
    }

    method StoreData(buf: seq<byte>, isMore: bool, room: bool) returns (count: nat, ok: bool)
      requires Valid() && pc.InUmqtt? && pc.io == Idle
      modifies Repr()
      ensures trace == old(trace) + [Main(ENV.(act := WritePacket, buf := buf, more := isMore, room := room))]
      ensures Valid() && pc == InUmqtt(old(pc).call, if ok && !isMore then Unflushed else Idle)
      ensures count == if ok then |buf| else 0
      ensures if ok then |writes| == |old(writes)| + 1 && writes[..|old(writes)|] == old(writes)
                         && writes[|old(writes)|].buf == buf && writes[|old(writes)|].more == isMore
              else writes == old(writes)
      ensures runState == old(runState) && iter == old(iter) && received == old(received)
    {
      ghost var s := Abs();
      count, ok := net.WriteData(buf, room);
      if ok {
        writes := writes + [Written(net.hNet.value, buf, isMore)];
      }
      pc := InUmqtt(pc.call, if ok && !isMore then Unflushed else Idle);
      Record(Main(ENV.(act := WritePacket, buf := buf, more := isMore, room := room)), s);
    }

    method FlushData()
      requires Valid() && pc.InUmqtt? && pc.io == Unflushed
      modifies Repr()
      ensures trace == old(trace) + [Main(ENV)]
      ensures Valid() && pc == InUmqtt(old(pc).call, Idle)
      ensures runState == old(runState) && iter == old(iter) && received == old(received) && writes == old(writes)
    {
      ghost var s := Abs();
      net.WriteFlush();
      pc := InUmqtt(pc.call, Idle);
      Record(Main(ENV), s);
    }

    /** netWritePacket: the count returned is the length asked for, or 0 when nothing was written. */
    method NetWritePacket(buf: seq<byte>, isMore: bool) returns (len: nat)
      requires Valid() && pc.InUmqtt? && pc.io == Idle
      modifies Repr()
      ensures old(trace) <= trace
      ensures Valid() && pc == old(pc) && runState == old(runState) && iter == old(iter) && received == old(received)
      ensures writes == old(writes) ==> len == 0
      ensures writes != old(writes) ==>
                && len == |buf| && |writes| == |old(writes)| + 1
                && writes[|old(writes)|].buf == buf && writes[|old(writes)|].more == isMore
    {
      var room: bool := *;
      var ok;
      len, ok := StoreData(buf, isMore, room);
      if ok && !isMore {
        Preempt();
        FlushData();
      }
    }

    /** The inside of a umqtt call: any number of reads, writes and interrupts, then any answer. */
    method Umqtt() returns (code: UmqttError)
      requires Valid() && pc.InUmqtt? && pc.io == Idle
      modifies Repr()
      ensures old(trace) <= trace
      ensures Valid() && pc == old(pc) && runState == old(runState) && iter == old(iter)
    {
      Preempt();
      var n: nat := *;
      while n > 0
        invariant old(trace) <= trace && Valid() && pc == old(pc) && runState == old(runState) && iter == old(iter)
      {
        var isRead: bool := *;
        if isRead {
          var _, _ := NetReadPacket();
        } else {
          var buf: seq<byte>, isMore: bool := *, *;
          var _ := NetWritePacket(buf, isMore);
        }
        Preempt();
        n := n - 1;
      }
      code := *;
    }

    // ---- the statement groups of the main loop ----

    method TestDisconnected() returns (r: bool)
      requires Valid() && pc == Head
      modifies Repr()
      ensures trace == old(trace) + [Main(ENV)]
      ensures Valid() && pc == (if r then Clear else Dispatch)
      ensures r <==> old(net.pfnCb.netWasDisconnected)
      ensures runState == old(runState) && iter == old(iter) + 1
    {
      ghost var s := Abs();
      r := net.pfnCb.netWasDisconnected;
      iter := iter + 1;
      pc := if r then Clear else Dispatch;
      Record(Main(ENV), s);
    }

    method ResetState()
      requires Valid() && pc == Clear
      modifies Repr()
      ensures trace == old(trace) + [Main(ENV)]
      ensures Valid() && pc == Dispatch && iter == old(iter)
      ensures runState == if old(runState) != Delay then Recovery else Delay
      ensures !net.pfnCb.netWasDisconnected
    {
      ghost var s := Abs();
      net.pfnCb.netWasDisconnected := false;
      if runState != Delay {
        runState := Recovery;
      }
      pc := Dispatch;
      Record(Main(ENV), s);
    }

    method LocalIpAddr() returns (hasIp: bool)
      requires Valid() && pc == Dispatch && runState == WaitIp
      modifies Repr()
      ensures trace == old(trace) + [Main(ENV.(hasIp := hasIp))]
      ensures Valid() && pc == (if hasIp then DoConnect else Head) && runState == WaitIp && iter == old(iter)
    {
      ghost var s := Abs();
      hasIp := *;
      pc := if hasIp then DoConnect else Head;
      Record(Main(ENV.(hasIp := hasIp)), s);
    }

    method CallConnect(outcome: ConnectOutcome) returns (ret: int)
      requires Sound()
      modifies Repr()
      ensures Sound() && trace == old(trace)
      ensures Abs() == old(Abs()).(net := Connect(old(Abs().net), outcome).0, pc := Head,
                                   calls := old(calls) + [Stamped(NetConnect, old(iter), old(tick))])
      ensures ret == 0 <==> outcome == ConnectStarts
    {
      ret := net.Connect(outcome);
      calls := calls + [Stamped(NetConnect, iter, tick)];
      pc := Head;
    }

    method ConnectToServer(outcome: ConnectOutcome)
      requires Valid() && pc == DoConnect
      modifies Repr()
      ensures trace == old(trace) + [Main(ENV.(outcome := outcome))]
      ensures Valid() && pc == Head && iter == old(iter)
      ensures runState == if outcome == ConnectStarts then WaitNet else Recovery
    {
      ghost var s, env := Abs(), ENV.(outcome := outcome);
      ConnectFields(s, env);
      var ret := CallConnect(outcome);
      if ret == 0 {
        runState := WaitNet;
      } else {
        runState := Recovery;
      }
      Record(Main(env), s);
    }

    ghost method Enter(c: Call)
      modifies this`calls, this`pc
      ensures calls == old(calls) + [Stamped(c, iter, tick)] && pc == InUmqtt(c, Idle)
    {
      calls := calls + [Stamped(c, iter, tick)];
      pc := InUmqtt(c, Idle);
    }

    method TestConnected() returns (r: bool)
      requires Valid() && pc == Dispatch && runState == WaitNet
      modifies Repr()
      ensures trace == old(trace) + [Main(ENV)]
      ensures Valid() && pc == (if r then InUmqtt(UmqttConnect, Idle) else Head)
      ensures r <==> old(net.isConnected)
      ensures runState == WaitNet && iter == old(iter)
    {
      ghost var s := Abs();
      r := net.IsConnected();
      if r {
        Enter(UmqttConnect);
      } else {
        pc := Head;
      }
      Record(Main(ENV), s);
    }

    method ConnectReturned(err: UmqttError)
      requires Valid() && pc == InUmqtt(UmqttConnect, Idle)
      modifies Repr()
      ensures trace == old(trace) + [Main(ENV.(code := err))]
      ensures Valid() && pc == Head && iter == old(iter)
      ensures runState == if err == UmqttOk then WaitMqtt else Recovery
    {
      ghost var s := Abs();
      if err == UmqttOk {
        runState := WaitMqtt;
      } else {
        runState := Recovery;
      }
      pc := Head;
      Record(Main(ENV.(code := err)), s);
    }

    /** umqtt_GetConnectedStatus, and the entry into the next umqtt call. */
    method TestMqttConnected(err: UmqttError) returns (r: bool)
      requires Valid() && pc == Dispatch && runState == WaitMqtt
      modifies Repr()
      ensures trace == old(trace) + [Main(ENV.(code := err))]
      ensures Valid() && pc == InUmqtt(if r then Subscribe else UmqttRun, Idle)
      ensures r <==> err == UmqttConnected
      ensures runState == (if r then RunMqtt else WaitMqtt) && iter == old(iter)
    {
      ghost var s := Abs();
      r := err == UmqttConnected;
      if r {
        runState := RunMqtt;
        Enter(Subscribe);
      } else {
        Enter(UmqttRun);
      }
      Record(Main(ENV.(code := err)), s);
    }

    /** One birth message has been handed to umqtt, whose answer is ignored. */
    method BirthReturned(err: UmqttError)
      requires Valid() && pc.InUmqtt? && pc.io == Idle && pc.call in [Subscribe, PublishStatus, PublishMac, PublishIp]
      modifies Repr()
      ensures trace == old(trace) + [Main(ENV.(code := err))]
      ensures Valid() && runState == old(runState) && iter == old(iter)
      ensures pc == InUmqtt(match old(pc).call
                            case Subscribe => PublishStatus
                            case PublishStatus => PublishMac
                            case PublishMac => PublishIp
                            case _ => UmqttRun, Idle)
    {
      ghost var s := Abs();
      Enter(match pc.call case Subscribe => PublishStatus case PublishStatus => PublishMac
            case PublishMac => PublishIp case _ => UmqttRun);
      Record(Main(ENV.(code := err)), s);
    }

    method StartRun()
      requires Valid() && pc == Dispatch && runState == RunMqtt
      modifies Repr()
      ensures trace == old(trace) + [Main(ENV)]
      ensures Valid() && pc == InUmqtt(UmqttRun, Idle) && runState == RunMqtt && iter == old(iter)
    {
      ghost var s := Abs();
      Enter(UmqttRun);
      Record(Main(ENV), s);
    }

    method RunReturned(err: UmqttError)
      requires Valid() && pc == InUmqtt(UmqttRun, Idle)
      modifies Repr()
      ensures trace == old(trace) + [Main(ENV.(code := err))]
      ensures Valid() && pc == CheckReport && iter == old(iter)
      ensures runState == if err != UmqttOk then Recovery else old(runState)
    {
      ghost var s := Abs();
      if err != UmqttOk {
        runState := Recovery;
      }
      pc := CheckReport;
      Record(Main(ENV.(code := err)), s);
    }

    method TestReportTimer() returns (r: bool)
      requires Valid() && pc == CheckReport
      modifies Repr()
      ensures trace == old(trace) + [Main(ENV)]
      ensures Valid() && pc == (if r then Rearm else Head) && runState == old(runState) && iter == old(iter)
      ensures r <==> TimedOut(old(upTimeReportTimer.Value()), old(ticker.ticks))
    {
      ghost var s := Abs();
      r := ticker.IsTimedOut(upTimeReportTimer);
      pc := if r then Rearm else Head;
      Record(Main(ENV), s);
    }

    method RearmReportTimer()
      requires Valid() && pc == Rearm
      modifies Repr()
      ensures trace == old(trace) + [Main(ENV)]
      ensures Valid() && pc == FormatHours && runState == old(runState) && iter == old(iter)
    {
      ghost var s := Abs();
      ticker.SetTimeout(upTimeReportTimer, REPORT_MS);
      reportArmedAt := tick;
      pc := FormatHours;
      Record(Main(ENV), s);
    }

    method Hours() returns (h: nat)
      requires Valid() && pc == FormatHours
      modifies Repr()
      ensures trace == old(trace) + [Main(ENV)]
      ensures Valid() && pc.FormatMinutes? && pc.h == h && runState == old(runState) && iter == old(iter)
    {
      ghost var s := Abs();
      h := upTime / 3600;
      pc := FormatMinutes(h, tick);
      Record(Main(ENV), s);
    }

    method Minutes(ghost h: nat) returns (m: nat)
      requires Valid() && pc.FormatMinutes? && pc.h == h
      modifies Repr()
      ensures trace == old(trace) + [Main(ENV)]
      ensures Valid() && pc.FormatSeconds? && pc.h == h && pc.m == m && runState == old(runState) && iter == old(iter)
    {
      ghost var s := Abs();
      m := (upTime / 60) % 60;
      pc := FormatSeconds(h, m, pc.t1, tick);
      Record(Main(ENV), s);
    }

    /** The last part of the message; then umqtt_Publish is entered with it. */
    method SecondsAndPublish(h: nat, m: nat) returns (msg: Hms)
      requires Valid() && pc.FormatSeconds? && pc.h == h && pc.m == m
      modifies Repr()
      ensures trace == old(trace) + [Main(ENV)]
      ensures Valid() && pc == InUmqtt(PublishUptime, Idle) && runState == old(runState) && iter == old(iter)
      ensures |reports| == |old(reports)| + 1 && reports[|old(reports)|].shown == msg
    {
      ghost var s := Abs();
      msg := Hms(h, m, upTime % 60);
      reports := reports + [UptimeReport(msg, pc.t1, pc.t2, tick)];
      Enter(PublishUptime);
      Record(Main(ENV), s);
    }

    method PublishReturned(err: UmqttError)
      requires Valid() && pc == InUmqtt(PublishUptime, Idle)
      modifies Repr()
      ensures trace == old(trace) + [Main(ENV.(code := err))]
      ensures Valid() && pc == Head && runState == old(runState) && iter == old(iter)
    {
      ghost var s := Abs();
      pc := Head;
      Record(Main(ENV.(code := err)), s);
    }

    method StartRecovery()
      requires Valid() && pc == Dispatch && runState == Recovery
      modifies Repr()
      ensures trace == old(trace) + [Main(ENV)]
      ensures Valid() && pc == InUmqtt(UmqttDisconnect, Idle) && runState == Recovery && iter == old(iter)
    {
      ghost var s := Abs();
      Enter(UmqttDisconnect);
      Record(Main(ENV), s);
    }

    method DisconnectReturned(err: UmqttError)
      requires Valid() && pc == InUmqtt(UmqttDisconnect, Idle)
      modifies Repr()
      ensures trace == old(trace) + [Main(ENV.(code := err))]
      ensures Valid() && pc == DoDisconnect && runState == old(runState) && iter == old(iter)
    {
      ghost var s := Abs();
      pc := DoDisconnect;
      Record(Main(ENV.(code := err)), s);
    }

    method DisconnectFromServer()
      requires Valid() && pc == DoDisconnect
      modifies Repr()
      ensures trace == old(trace) + [Main(ENV)]
      ensures Valid() && pc == ArmBackoff && runState == old(runState) && iter == old(iter)
    {
      ghost var s := Abs();
      net.Disconnect();
      calls := calls + [Stamped(NetDisconnect, iter, tick)];
      pc := ArmBackoff;
      Record(Main(ENV), s);
    }

    method ArmErrorTimer()
      requires Sound()
      modifies errorTimer
      ensures errorTimer.Value() == Armed(ticker.ticks, MS_PER_TICK, BACKOFF_MS)
    {
      ticker.SetTimeout(errorTimer, BACKOFF_MS);
    }

    method StartBackoff()
      requires Valid() && pc == ArmBackoff
      modifies Repr()
      ensures trace == old(trace) + [Main(ENV)]
      ensures Valid() && pc == Head && runState == Delay && iter == old(iter)
    {
      ghost var s := Abs();
      ArmErrorTimer();
      errorArmedAt, delayPolls := tick, [];
      calls := calls + [Stamped(Backoff, iter, tick)];
      runState := Delay;
      pc := Head;
      Record(Main(ENV), s);
    }

    method PollBackoff()
      requires Valid() && pc == Dispatch && runState == Delay
      modifies Repr()
      ensures trace == old(trace) + [Main(ENV)]
      ensures Valid() && pc == Head && iter == old(iter)
      ensures runState == if TimedOut(old(errorTimer.Value()), old(ticker.ticks)) then WaitIp else Delay
    {
      ghost var s := Abs();
      var r := ticker.IsTimedOut(errorTimer);
      if r {
        runState := WaitIp;
      }
      delayPolls := delayPolls + [tick];
      pc := Head;
      Record(Main(ENV), s);
    }

    // ---- the main loop ----

    method SendBirth()
      requires Valid() && pc == InUmqtt(Subscribe, Idle)
      modifies Repr()
      ensures old(trace) <= trace
      ensures Valid() && pc == InUmqtt(UmqttRun, Idle) && runState == old(runState) && iter == old(iter)
    {
      var err := Umqtt();      // umqtt_Subscribe
      BirthReturned(err);
      err := Umqtt();          // umqtt_Publish of the status,
      BirthReturned(err);
      err := Umqtt();          // the MAC address
      BirthReturned(err);
      err := Umqtt();          // and the IP address
      BirthReturned(err);
    }

    method FormatReport() returns (msg: Hms)
      requires Valid() && pc == FormatHours
      modifies Repr()
      ensures old(trace) <= trace
      ensures Valid() && pc == InUmqtt(PublishUptime, Idle) && iter == old(iter)
    {
      var h := Hours();
      Preempt();
      var m := Minutes(h);
      Preempt();
      msg := SecondsAndPublish(h, m);
    }

    method SendReport()
      requires Valid() && pc == Rearm
      modifies Repr()
      ensures old(trace) <= trace
      ensures Valid() && pc == Head && iter == old(iter)
    {
      Preempt();
      RearmReportTimer();
      Preempt();
      var _ := FormatReport();
      var err := Umqtt();      // umqtt_Publish
      PublishReturned(err);
    }

    method ReportIfDue()
      requires Valid() && pc == CheckReport
      modifies Repr()
      ensures old(trace) <= trace
      ensures Valid() && pc == Head && iter == old(iter)
    {
      var due := TestReportTimer();
      if due {
        SendReport();
      }
    }

    method RunMqttClient()
      requires Valid() && pc == InUmqtt(UmqttRun, Idle)
      modifies Repr()
      ensures old(trace) <= trace
      ensures Valid() && pc == Head && iter == old(iter)
    {
      var err := Umqtt();      // umqtt_Run
      RunReturned(err);
      Preempt();
      ReportIfDue();
    }

    method Recover()
      requires Valid() && pc == Dispatch && runState == Recovery
      modifies Repr()
      ensures old(trace) <= trace
      ensures Valid() && pc == Head && runState == Delay && iter == old(iter)
    {
      StartRecovery();
      var err := Umqtt();      // umqtt_Disconnect
      DisconnectReturned(err);
      Preempt();
      DisconnectFromServer();
      Preempt();
      StartBackoff();
    }

    method AwaitIp()
      requires Valid() && pc == Dispatch && runState == WaitIp
      modifies Repr()
      ensures old(trace) <= trace
      ensures Valid() && pc == Head && iter == old(iter)
    {
      var hasIp := LocalIpAddr();
      if hasIp {
        Preempt();
        var outcome: ConnectOutcome := *;
        ConnectToServer(outcome);
      }
    }

    method AwaitConnection()
      requires Valid() && pc == Dispatch && runState == WaitNet
      modifies Repr()
      ensures old(trace) <= trace
      ensures Valid() && pc == Head && iter == old(iter)
    {
      var connected := TestConnected();
      if connected {
        var err := Umqtt();      // umqtt_Connect
        ConnectReturned(err);
      }
    }

    method AwaitMqtt()
      requires Valid() && pc == Dispatch && runState == WaitMqtt
      modifies Repr()
      ensures old(trace) <= trace
      ensures Valid() && pc == Head && iter == old(iter)
    {
      var err: UmqttError := *;
      var connected := TestMqttConnected(err);
      if connected {
        SendBirth();
      }
      RunMqttClient();           // falls through
    }

    /** The switch over the application state. */
    method Switch()
      requires Valid() && pc == Dispatch
      modifies Repr()
      ensures old(trace) <= trace
      ensures Valid() && pc == Head && iter == old(iter)
    {
      match runState {
        case WaitIp => AwaitIp();
        case WaitNet => AwaitConnection();
        case WaitMqtt => AwaitMqtt();
        case RunMqtt =>
          StartRun();
          RunMqttClient();
        case Recovery => Recover();
        case Delay => PollBackoff();
      }
    }

    /** One pass of the loop: the disconnect test and the switch. */
    method LoopBody()
      requires Valid() && pc == Head
      modifies Repr()
      ensures old(trace) <= trace
      ensures Valid() && pc == Head && iter == old(iter) + 1
    {
      Preempt();
      var wasDisconnected := TestDisconnected();
      if wasDisconnected {
        Preempt();
        ResetState();
      }
      Preempt();
      Switch();
    }

    /** The loop for ever, cut off after any number of passes: it never leaves the transition system. */
    method MainLoop(passes: nat)
      requires Valid() && pc == Head
      modifies Repr()
      ensures old(trace) <= trace
      ensures Valid() && pc == Head && iter == old(iter) + passes
      ensures Abs() == Run(size, startTick, trace)
    {
      for i := 0 to passes
        invariant old(trace) <= trace && Valid() && pc == Head && iter == old(iter) + i
      {
        LoopBody();
      }
    }
  }
  /** The program from power-on: initialisation with some early interrupts, and then any number of passes of the loop. */
  method PowerUp(queueSize: nat, early: nat, passes: nat) returns (p: Program)
    requires 2 <= queueSize <= 256
    ensures fresh(p) && p.Valid() && p.pc == Head && p.iter == passes
    ensures p.size == queueSize && p.startTick == early && p.Abs() == Run(queueSize, early, p.trace)
  {
    p := new Program(queueSize, early);
    p.Boot(early);
    p.MainLoop(passes);
  }
}

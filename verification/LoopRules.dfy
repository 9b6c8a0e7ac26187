/**
 * What makes the main loop act: for every run, each change of the application's
 * state, each call, each report and each event has exactly the stated cause.
 */
module LoopRules {
  import opened Base
  import opened LwipStack
  import opened NetModel
  import opened McuModel
  import opened SwTimer
  import Connection
  import DataPath
  import Timing

  /** The umqtt call `c` returns in this step. */
  predicate Returned(s: Sys, env: Env, c: Call) {
    s.pc == InUmqtt(c, Idle) && env.act == Return
  }

  /** Real ticks since a timer was armed, as far as its 32 bits can tell. */
  function Since(now: nat, armed: nat): nat
    requires armed <= now
  {
    (now - armed) % U32
  }

  // ---- the application's state ----

  /** What must happen for the state to become `x`. */
  predicate Cause(s: Sys, env: Env, x: RunState)
    requires s.errorArmedAt <= s.tick
  {
    match x
    case WaitIp => s.pc == Dispatch && s.runState == Delay && Since(s.tick, s.errorArmedAt) >= 300
    case WaitNet => s.pc == DoConnect && env.outcome == ConnectStarts
    case WaitMqtt => Returned(s, env, UmqttConnect) && env.code == UmqttOk
    case RunMqtt => s.pc == Dispatch && s.runState == WaitMqtt && env.code == UmqttConnected
    case Recovery =>
      || (s.pc == Clear && s.netWasDisconnected && s.runState != Delay)
      || (s.pc == DoConnect && env.outcome != ConnectStarts)
      || ((Returned(s, env, UmqttConnect) || Returned(s, env, UmqttRun)) && env.code != UmqttOk)
    case Delay => s.pc == ArmBackoff
  }

  lemma BackoffReadsTrueIff(s: Sys)
    requires Timing.ClockInv(s) && s.runState == Delay
    ensures TimedOut(s.errorTimer, s.clocks.ticks) <==> Since(s.tick, s.errorArmedAt) >= 300
  {
    TimedOutExactly(s.errorArmedAt, s.tick, s.errorTimer);
  }

  lemma UmqttChangesState(s: Sys, env: Env, x: RunState)
    requires Connection.LoopInv(s) && s.errorArmedAt <= s.tick && s.pc.InUmqtt? && s.runState != x
    ensures MainStep(s, env).runState == x <==> Cause(s, env, x)
  {
    if InTransport(s, env) {
      assert MainStep(s, env) == TransportStep(s, s.pc.call, s.pc.io, env);
    } else {
      assert MainStep(s, env) == ReturnStep(s, s.pc.call, env.code);
    }
  }

  lemma LoopChangesState(s: Sys, env: Env, x: RunState)
    requires Connection.LoopInv(s) && Timing.ClockInv(s) && !s.pc.InUmqtt? && s.runState != x
    ensures MainStep(s, env).runState == x <==> Cause(s, env, x)
  {
    if s.pc == Dispatch && s.runState == Delay {
      BackoffReadsTrueIff(s);
    }
  }

  lemma CallbacksKeepLoop(s: Sys, l: Label)
    requires !l.Main?
    ensures Next(s, l).runState == s.runState && Next(s, l).calls == s.calls && Next(s, l).pc == s.pc
  {
  }

  /**
   * In every run the application's state becomes `x` exactly for the cause of `x`:
   * above all, WAIT_IP after 300 ticks of back-off, RUN_MQTT when umqtt reports the
   * connection, and RECOVERY on a disconnect or a failing call.
   */
  lemma StateChangesExactly(size: nat, tick: nat, ls: seq<Label>, l: Label, x: RunState)
    requires 2 <= size <= 256
    ensures var s := Run(size, tick, ls);
            && s.errorArmedAt <= s.tick
            && (s.runState != x ==> (Next(s, l).runState == x <==> l.Main? && Cause(s, l.env, x)))
  {
    Connection.RunHasInv(size, tick, ls);
    Timing.RunHasTimeInv(size, tick, ls);
    var s := Run(size, tick, ls);
    if s.runState != x {
      match l
      case Main(env) =>
        if s.pc.InUmqtt? {
          UmqttChangesState(s, env, x);
        } else {
          LoopChangesState(s, env, x);
        }
      case _ => CallbacksKeepLoop(s, l);
    }
  }

  // ---- the calls ----

  /** The step makes call `c` and no other. */
  predicate Makes(s: Sys, l: Label, c: Call) {
    Next(s, l).calls == s.calls + [Stamped(c, s.iter, s.tick)]
  }

  /** What must be the case for call `c` to be made. */
  predicate Due(s: Sys, env: Env, c: Call) {
    match c
    case NetConnect => s.pc == DoConnect
    case UmqttConnect => s.pc == Dispatch && s.runState == WaitNet && s.net.isConnected
    case Subscribe => s.pc == Dispatch && s.runState == WaitMqtt && env.code == UmqttConnected
    case PublishStatus => Returned(s, env, Subscribe)
    case PublishMac => Returned(s, env, PublishStatus)
    case PublishIp => Returned(s, env, PublishMac)
    case UmqttRun =>
      || Returned(s, env, PublishIp)
      || (s.pc == Dispatch && s.runState == WaitMqtt && env.code != UmqttConnected)
      || (s.pc == Dispatch && s.runState == RunMqtt)
    case PublishUptime => s.pc.FormatSeconds?
    case UmqttDisconnect => s.pc == Dispatch && s.runState == Recovery
    case NetDisconnect => s.pc == DoDisconnect
    case Backoff => s.pc == ArmBackoff
  }

  lemma LastCall(cs: seq<Stamped>, x: Stamped, c: Call, iter: nat, tick: nat)
    requires x.iter == iter && x.tick == tick
    ensures cs + [x] == cs + [Stamped(c, iter, tick)] <==> x.call == c
  {
    assert (cs + [x])[|cs|] == x;
    assert (cs + [Stamped(c, iter, tick)])[|cs|] == Stamped(c, iter, tick);
  }

  /** The step logs call `d`, or none. */
  lemma Logs(s: Sys, l: Label, d: Option<Call>, c: Call)
    requires Next(s, l).calls == s.calls + if d.Some? then [Stamped(d.value, s.iter, s.tick)] else []
    ensures Makes(s, l, c) <==> d == Some(c)
  {
    if d.Some? {
      LastCall(s.calls, Stamped(d.value, s.iter, s.tick), c, s.iter, s.tick);
    } else {
      assert Next(s, l).calls == s.calls;
      assert |s.calls + [Stamped(c, s.iter, s.tick)]| == |s.calls| + 1;
    }
  }

  /** The same, by the place where the loop stands. */
  function CallOf(s: Sys, env: Env): Option<Call> {
    match s.pc
    case Dispatch =>
      (match s.runState
       case WaitNet => if s.net.isConnected then Some(UmqttConnect) else None
       case WaitMqtt => Some(if env.code == UmqttConnected then Subscribe else UmqttRun)
       case RunMqtt => Some(UmqttRun)
       case Recovery => Some(UmqttDisconnect)
       case _ => None)
    case InUmqtt(c, io) => if io == Idle && env.act == Return then CallAfter(c) else None
    case DoConnect => Some(NetConnect)
    case FormatSeconds(_, _, _, _) => Some(PublishUptime)
    case DoDisconnect => Some(NetDisconnect)
    case ArmBackoff => Some(Backoff)
    case _ => None
  }

  function CallAfter(c: Call): Option<Call> {
    match c
    case Subscribe => Some(PublishStatus)
    case PublishStatus => Some(PublishMac)
    case PublishMac => Some(PublishIp)
    case PublishIp => Some(UmqttRun)
    case _ => None
  }

  lemma DueIsCallOf(s: Sys, env: Env, c: Call)
    ensures Due(s, env, c) <==> CallOf(s, env) == Some(c)
  {
  }

  lemma UmqttLogs(s: Sys, env: Env)
    requires s.pc.InUmqtt?
    ensures var d := CallOf(s, env);
            MainStep(s, env).calls == s.calls + if d.Some? then [Stamped(d.value, s.iter, s.tick)] else []
  {
    if InTransport(s, env) {
      assert MainStep(s, env) == TransportStep(s, s.pc.call, s.pc.io, env);
      assert s.calls + [] == s.calls;
    } else {
      assert MainStep(s, env) == ReturnStep(s, s.pc.call, env.code);
    }
  }

  lemma LoopLogs(s: Sys, env: Env)
    requires !s.pc.InUmqtt?
    ensures var d := CallOf(s, env);
            MainStep(s, env).calls == s.calls + if d.Some? then [Stamped(d.value, s.iter, s.tick)] else []
  {
    assert s.calls + [] == s.calls;
  }

  /**
   * In every run each call is made, once and with the current iteration and tick,
   * exactly when it is due; a step for which none is due makes none.
   */
  lemma CallsExactly(size: nat, tick: nat, ls: seq<Label>, l: Label, c: Call)
    requires 2 <= size <= 256
    ensures var s := Run(size, tick, ls);
            && (Makes(s, l, c) <==> l.Main? && Due(s, l.env, c))
            && ((forall d :: l.Main? ==> !Due(s, l.env, d)) ==> Next(s, l).calls == s.calls)
  {
    var s := Run(size, tick, ls);
    match l
    case Main(env) =>
      var d := CallOf(s, env);
      if s.pc.InUmqtt? {
        UmqttLogs(s, env);
      } else {
        LoopLogs(s, env);
      }
      DueIsCallOf(s, env, c);
      Logs(s, l, d, c);
      if d.Some? {
        DueIsCallOf(s, env, d.value);
      }
    case _ =>
      CallbacksKeepLoop(s, l);
      Logs(s, l, None, c);
  }

  /** Wherever umqtt_Connect is called, the handle holds a live PCB whose connected callback has come. */
  lemma MqttNeedsConnection(size: nat, tick: nat, ls: seq<Label>, l: Label)
    requires 2 <= size <= 256
    ensures var s := Run(size, tick, ls);
            Makes(s, l, UmqttConnect) ==>
              && s.net.hNet.Some? && Live(s.net.stack, s.net.hNet.value)
              && !s.net.stack.pcbs[s.net.hNet.value].connecting && s.net.stack.pcbs[s.net.hNet.value].recvCb
              && s.runState == WaitNet
  {
    CallsExactly(size, tick, ls, l, UmqttConnect);
    Connection.RunHasInv(size, tick, ls);
  }

  /** net_Connect is reached exactly from WAIT_IP with an address assigned. */
  lemma ConnectNeedsAddress(size: nat, tick: nat, ls: seq<Label>, l: Label)
    requires 2 <= size <= 256
    ensures var s := Run(size, tick, ls);
            s.pc != DoConnect ==>
              (Next(s, l).pc == DoConnect <==> l.Main? && s.pc == Dispatch && s.runState == WaitIp && l.env.hasIp)
  {
    var s := Run(size, tick, ls);
    match l
    case Main(env) =>
      if InTransport(s, env) {
        assert Next(s, l) == TransportStep(s, s.pc.call, s.pc.io, env);
      }
    case _ => CallbacksKeepLoop(s, l);
  }

  // ---- what is recorded of the timers ----

  /** The ticks of arming and polling on record are those at which the loop arms and polls. */
  predicate TimersRecorded(s: Sys, r: Sys, main: bool) {
    && r.errorArmedAt == (if main && s.pc == ArmBackoff then s.tick else s.errorArmedAt)
    && r.reportArmedAt == (if main && s.pc == Rearm then s.tick else s.reportArmedAt)
    && r.delayPolls == (if !main then s.delayPolls
                        else if s.pc == ArmBackoff then []
                        else if s.pc == Dispatch && s.runState == Delay then s.delayPolls + [s.tick]
                        else s.delayPolls)
  }

  lemma MainRecordsTimers(s: Sys, env: Env)
    ensures TimersRecorded(s, MainStep(s, env), true)
  {
    if InTransport(s, env) {
      assert MainStep(s, env) == TransportStep(s, s.pc.call, s.pc.io, env);
    }
  }

  lemma CallbacksKeepTimers(s: Sys, l: Label)
    requires !l.Main?
    ensures TimersRecorded(s, Next(s, l), false)
  {
  }

  lemma TimersAreRecorded(size: nat, tick: nat, ls: seq<Label>, l: Label)
    requires 2 <= size <= 256
    ensures var s := Run(size, tick, ls);
            TimersRecorded(s, Next(s, l), l.Main?)
  {
    match l
    case Main(env) => MainRecordsTimers(Run(size, tick, ls), env);
    case _ => CallbacksKeepTimers(Run(size, tick, ls), l);
  }

  // ---- reads and writes ----

  /** netWritePacket is called, there is a connection, and TCP has room. */
  predicate Accepts(s: Sys, l: Label) {
    && l.Main? && s.pc.InUmqtt? && s.pc.io == Idle && l.env.act == WritePacket
    && s.net.hNet.Some? && l.env.room
  }

  /** The second half of a read finds memory. */
  predicate Fetches(s: Sys, l: Label) {
    l.Main? && s.pc.InUmqtt? && s.pc.io.Measured? && l.env.mallocOk
  }

  lemma TransportRecords(s: Sys, l: Label)
    requires Connection.Inv(s) && DataPath.QueueInv(s) && l.Main? && InTransport(s, l.env)
    ensures var r := Next(s, l);
            && r.writes == s.writes + (if Accepts(s, l) then [Written(s.net.hNet.value, l.env.buf, l.env.more)] else [])
            && r.received == s.received + (if Fetches(s, l) then [Read(s.pc.io.len, s.net.queue[0], s.net.queue[0].payload)] else [])
            && (r.pc.io == Unflushed <==> Accepts(s, l) && !l.env.more)
  {
    assert Next(s, l) == TransportStep(s, s.pc.call, s.pc.io, l.env);
    assert s.writes + [] == s.writes && s.received + [] == s.received;
    if s.pc.io.Measured? && l.env.mallocOk {
      DataPath.ReadQueue(s, s.pc.call, s.pc.io.len);
    }
  }

  lemma OthersRecordNothing(s: Sys, l: Label)
    requires l.Main? ==> !InTransport(s, l.env)
    ensures Next(s, l).writes == s.writes && Next(s, l).received == s.received
  {
    match l
    case Main(env) =>
      if s.pc != DoConnect && s.pc != DoDisconnect {
        LoopFrame(s, env);
      }
    case _ => CallbackFrame(s, l);
  }

  /**
   * A write succeeds exactly with a connection and room, and is followed by
   * tcp_output exactly if no more is to come; a read succeeds exactly when a
   * measured packet finds memory.  Nothing else is on record.
   */
  lemma TransferExactly(size: nat, tick: nat, ls: seq<Label>, l: Label)
    requires 2 <= size <= 256
    ensures var s := Run(size, tick, ls);
            var r := Next(s, l);
            && (Fetches(s, l) ==> s.net.queue != [])
            && r.writes == s.writes + (if Accepts(s, l) then [Written(s.net.hNet.value, l.env.buf, l.env.more)] else [])
            && r.received == s.received + (if Fetches(s, l) then [Read(s.pc.io.len, s.net.queue[0], s.net.queue[0].payload)] else [])
            && (l.Main? && r.pc.InUmqtt? && r.pc.io == Unflushed ==> Accepts(s, l) && !l.env.more)
            && (Accepts(s, l) && !l.env.more ==> r.pc.InUmqtt? && r.pc.io == Unflushed)
  {
    var s := Run(size, tick, ls);
    DataPath.RunHasDataInv(size, tick, ls);
    if l.Main? && InTransport(s, l.env) {
      TransportRecords(s, l);
    } else {
      OthersRecordNothing(s, l);
      assert s.writes + [] == s.writes && s.received + [] == s.received;
      if l.Main? {
        NotUnflushed(s, l.env);
      }
    }
  }

  lemma NotUnflushed(s: Sys, env: Env)
    requires !InTransport(s, env)
    ensures MainStep(s, env).pc.InUmqtt? ==> MainStep(s, env).pc.io == Idle
  {
    if s.pc != DoConnect && s.pc != DoDisconnect {
      LoopFrame(s, env);
    }
  }

  // ---- the uptime report ----

  lemma ReportReadsTrueIff(s: Sys)
    requires Timing.ClockInv(s)
    ensures TimedOut(s.reportTimer, s.clocks.ticks) <==> Since(s.tick, s.reportArmedAt) >= 500
  {
    TimedOutExactly(s.reportArmedAt, s.tick, s.reportTimer);
  }

  /**
   * After every umqtt_Run, and only then, the report timer is tested; a report is
   * begun exactly if 500 ticks have passed since the timer was armed.
   */
  lemma ReportIsDueIff(size: nat, tick: nat, ls: seq<Label>, l: Label)
    requires 2 <= size <= 256
    ensures var s := Run(size, tick, ls);
            && s.reportArmedAt <= s.tick
            && (s.pc != CheckReport ==> (Next(s, l).pc == CheckReport <==> l.Main? && Returned(s, l.env, UmqttRun)))
            && (s.pc != Rearm ==>
                  (Next(s, l).pc == Rearm <==> l.Main? && s.pc == CheckReport && Since(s.tick, s.reportArmedAt) >= 500))
            && (s.pc == Rearm && l.Main? ==> Next(s, l).reportArmedAt == s.tick && Next(s, l).pc == FormatHours)
  {
    var s := Run(size, tick, ls);
    Timing.RunHasTimeInv(size, tick, ls);
    match l
    case Main(env) =>
      if InTransport(s, env) {
        assert Next(s, l) == TransportStep(s, s.pc.call, s.pc.io, env);
      } else if s.pc == CheckReport {
        ReportReadsTrueIff(s);
      }
    case _ => CallbacksKeepLoop(s, l);
  }

  // ---- events ----

  /** What the client reports to the application in a step. */
  function Reported(s: Sys, l: Label): seq<NetEvent> {
    match l
    case Main(_) => if s.pc == DoDisconnect then [Disconnected] else []
    case OnError(p, _) => if ErrorEnabled(s, p) then [Disconnected] else []
    case OnPeerClose(p) =>
      if Live(s.net.stack, p) && s.net.stack.pcbs[p].recvCb && s.net.stack.pcbs[p].held == [] then [Disconnected] else []
    case OnConnected(p) => if Live(s.net.stack, p) && s.net.stack.pcbs[p].connecting then [NetEvent.Connected] else []
    case OnPoll(p) => if Live(s.net.stack, p) && s.net.stack.pcbs[p].pollCb then [NetEvent.Poll] else []
    case _ => []
  }

  /** The disconnect flag is raised by a DISCONNECTED event and put down by the loop, and by nothing else. */
  predicate FlagFollows(s: Sys, r: Sys, l: Label) {
    r.netWasDisconnected
    <==> Disconnected in Reported(s, l) || (s.netWasDisconnected && !(l.Main? && s.pc == Clear))
  }

  lemma MainReports(s: Sys, env: Env)
    ensures MainStep(s, env).net.events == s.net.events + Reported(s, Main(env))
    ensures FlagFollows(s, MainStep(s, env), Main(env))
  {
    var r := MainStep(s, env);
    if InTransport(s, env) {
      assert r == TransportStep(s, s.pc.call, s.pc.io, env);
    } else if s.pc == DoConnect {
      assert r == ConnectStep(s, env);
    } else if s.pc == DoDisconnect {
      assert r == DisconnectStep(s);
    } else {
      LoopFrame(s, env);
    }
  }

  lemma DropReports(s: Sys, l: Label)
    requires Connection.Inv(s) && (l.OnError? || l.OnPeerClose?)
    ensures Next(s, l).net.events == s.net.events + Reported(s, l) && FlagFollows(s, Next(s, l), l)
  {
  }

  lemma OthersReport(s: Sys, l: Label)
    requires Connection.Inv(s) && !l.Main? && !l.OnError? && !l.OnPeerClose?
    ensures Next(s, l).net.events == s.net.events + Reported(s, l) && FlagFollows(s, Next(s, l), l)
  {
  }

  /** In every run the application is told of every loss, connection and poll when it happens, and of nothing else. */
  lemma EventsExactly(size: nat, tick: nat, ls: seq<Label>, l: Label)
    requires 2 <= size <= 256
    ensures var s := Run(size, tick, ls);
            Next(s, l).net.events == s.net.events + Reported(s, l) && FlagFollows(s, Next(s, l), l)
  {
    Connection.RunHasInv(size, tick, ls);
    var s := Run(size, tick, ls);
    match l
    case Main(env) => MainReports(s, env);
    case OnError(_, _) => DropReports(s, l);
    case OnPeerClose(_) => DropReports(s, l);
    case _ => OthersReport(s, l);
  }
}

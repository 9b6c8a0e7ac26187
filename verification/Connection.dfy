/**
 * The life of a connection: which PCBs exist, what the connection flag means,
 * and that the main loop never misses a disconnect nor reacts to its own.
 */
module Connection {
  import opened Base
  import opened LwipStack
  import opened NetModel
  import opened McuModel

  /** The states in which the loop believes to have a connection, or one on the way. */
  predicate Active(r: RunState) {
    r == WaitNet || r == WaitMqtt || r == RunMqtt
  }

  /** The client's handle is the one live PCB, with its callbacks as the flag says. */
  ghost predicate PcbInv(n: Net) {
    var pcbs := n.stack.pcbs;
    && (forall p :: 0 <= p < |pcbs| ==> pcbs[p].releases == if n.hNet == Some(p) then 0 else 1)
    && (n.hNet.None? ==> !n.isConnected)
    && (n.hNet.Some? ==>
          && n.hNet.value + 1 == |pcbs|
          && var c := pcbs[n.hNet.value];
             && c.arg && c.errCb && c.connecting == !n.isConnected
             && c.recvCb == n.isConnected && c.sentCb == n.isConnected && c.pollCb == n.isConnected)
  }

  /** Which loop states can be current at which statement group. */
  predicate PcFits(pc: Pc, r: RunState) {
    match pc
    case DoConnect => r == WaitIp
    case InUmqtt(c, _) =>
      (match c
       case UmqttConnect => r == WaitNet
       case Subscribe => r == RunMqtt
       case PublishStatus => r == RunMqtt
       case PublishMac => r == RunMqtt
       case PublishIp => r == RunMqtt
       case UmqttRun => r == WaitMqtt || r == RunMqtt
       case PublishUptime => r == WaitMqtt || r == RunMqtt || r == Recovery
       case UmqttDisconnect => r == Recovery
       case _ => false)
    case CheckReport => r == WaitMqtt || r == RunMqtt || r == Recovery
    case Rearm => r == WaitMqtt || r == RunMqtt || r == Recovery
    case FormatHours => r == WaitMqtt || r == RunMqtt || r == Recovery
    case FormatMinutes(_, _) => r == WaitMqtt || r == RunMqtt || r == Recovery
    case FormatSeconds(_, _, _, _) => r == WaitMqtt || r == RunMqtt || r == Recovery
    case DoDisconnect => r == Recovery
    case ArmBackoff => r == Recovery
    case Clear => r != WaitIp
    case _ => true
  }

  ghost predicate LoopInv(s: Sys) {
    var h, flag := s.net.hNet, s.netWasDisconnected;
    && PcFits(s.pc, s.runState)
    && (flag || s.pc == Clear ==> h.None?)
    && (s.pc == Clear ==> flag)
    && (s.runState == WaitIp ==> h.None? && !flag)
    && (s.runState == Delay ==> h.None? && (s.pc == Dispatch ==> !flag))
    && (s.pc == ArmBackoff ==> h.None? && flag)
    && (Active(s.runState) && h.None? ==> flag)
  }

  ghost predicate Inv(s: Sys) {
    PcbInv(s.net) && LoopInv(s)
  }

  lemma DropKeepsPcbInv(n: Net)
    requires PcbInv(n)
    ensures PcbInv(Drop(n)) && Drop(n).hNet.None?
    ensures forall p :: 0 <= p < |n.stack.pcbs| ==>
              Drop(n).stack.pcbs[p].releases == 1
  {
  }

  lemma AttachKeepsPcbInv(n: Net)
    requires n.hNet.Some? && n.hNet.value + 1 == |n.stack.pcbs|
    requires forall p :: 0 <= p < |n.stack.pcbs| ==> n.stack.pcbs[p].releases == if n.hNet == Some(p) then 0 else 1
    requires var c := n.stack.pcbs[n.hNet.value]; c.arg && !c.connecting
    ensures PcbInv(ConnectedCb(n))
  {
  }

  lemma ConnectedKeepsPcbInv(s: Sys, p: Pcb)
    requires Inv(s)
    ensures Inv(ConnectedStep(s, p))
  {
    var r := ConnectedStep(s, p);
    if r != s {
      AttachKeepsPcbInv(Established(s, p));
      assert r.net == ConnectedCb(Established(s, p));
    }
    assert PcbInv(r.net) && LoopInv(r);
  }

  lemma ConnectKeepsPcbInv(n: Net, outcome: ConnectOutcome)
    requires PcbInv(n) && n.hNet.None?
    ensures var (n', ret) := Connect(n, outcome);
            PcbInv(n') && (ret == 0 <==> n'.hNet.Some?)
  {
  }

  /** Data transfer leaves the release counts and the callback registrations alone. */
  ghost predicate SameControl(a: Stack, b: Stack) {
    && |a.pcbs| == |b.pcbs| && a.badCalls == b.badCalls
    && forall p :: 0 <= p < |a.pcbs| ==>
         var c, d := a.pcbs[p], b.pcbs[p];
         && c.releases == d.releases && c.arg == d.arg && c.errCb == d.errCb
         && c.recvCb == d.recvCb && c.pollCb == d.pollCb && c.sentCb == d.sentCb
         && c.connecting == d.connecting && c.failed == d.failed
  }

  lemma DataKeepsControl(n: Net, buf: seq<byte>, room: bool, len: nat)
    requires PcbInv(n)
    ensures SameControl(n.stack, TcpWrite(n.stack, n.hNet, buf, room).0)
    ensures SameControl(n.stack, TcpOutput(n.stack, n.hNet))
    ensures SameControl(n.stack, TcpRecved(n.stack, n.hNet, len))
  {
  }

  lemma TransportKeepsControl(s: Sys, c: Call, io: Io, env: Env)
    requires PcbInv(s.net)
    ensures SameControl(s.net.stack, TransportStep(s, c, io, env).net.stack)
  {
    DataKeepsControl(s.net, env.buf, env.room, if io.Fetched? then io.pb.Len() else 0);
  }

  lemma TransportKeepsInv(s: Sys, c: Call, io: Io, env: Env)
    requires Inv(s) && s.pc == InUmqtt(c, io)
    ensures Inv(TransportStep(s, c, io, env))
  {
    TransportKeepsControl(s, c, io, env);
    var r := TransportStep(s, c, io, env);
    assert PcbInv(r.net);
  }

  lemma ReturnKeepsInv(s: Sys, c: Call, code: UmqttError)
    requires Inv(s) && s.pc == InUmqtt(c, Idle)
    ensures Inv(ReturnStep(s, c, code))
  {
  }

  lemma ConnectKeepsInv(s: Sys, env: Env)
    requires Inv(s) && s.pc == DoConnect
    ensures Inv(ConnectStep(s, env))
  {
    ConnectKeepsPcbInv(s.net, env.outcome);
  }

  lemma DisconnectKeepsInv(s: Sys)
    requires Inv(s) && s.pc == DoDisconnect
    ensures Inv(DisconnectStep(s))
  {
    DropKeepsPcbInv(s.net);
  }

  lemma LoopKeepsInv(s: Sys, env: Env)
    requires Inv(s)
    ensures s.pc == Head ==> Inv(HeadStep(s))
    ensures s.pc == Clear ==> Inv(ClearStep(s))
    ensures s.pc == Dispatch ==> Inv(DispatchStep(s, env))
    ensures s.pc == ArmBackoff ==> Inv(BackoffStep(s))
  {
  }

  lemma ReportKeepsInv(s: Sys)
    requires Inv(s)
    ensures s.pc.CheckReport? || s.pc.Rearm? || s.pc.FormatHours? || s.pc.FormatMinutes? || s.pc.FormatSeconds? ==>
              Inv(ReportStep(s))
  {
  }

  lemma MainKeepsInv(s: Sys, env: Env)
    requires Inv(s)
    ensures Inv(MainStep(s, env))
  {
    match s.pc
    case InUmqtt(c, io) =>
      if io == Idle && env.act == Return {
        ReturnKeepsInv(s, c, env.code);
      } else {
        TransportKeepsInv(s, c, io, env);
      }
    case DoConnect => ConnectKeepsInv(s, env);
    case DoDisconnect => DisconnectKeepsInv(s);
    case Head => LoopKeepsInv(s, env);
    case Clear => LoopKeepsInv(s, env);
    case Dispatch => LoopKeepsInv(s, env);
    case ArmBackoff => LoopKeepsInv(s, env);
    case _ => ReportKeepsInv(s);
  }

  lemma DropStepKeepsInv(s: Sys, p: Pcb)
    requires Inv(s)
    ensures Inv(PeerCloseStep(s, p))
  {
    DropKeepsPcbInv(s.net);
  }

  /** If lwIP has freed the PCB first, net_ErrorCb makes six calls on a freed PCB and has no other effect than otherwise. */
  lemma ErrorIsDrop(s: Sys, p: Pcb, freed: bool)
    requires PcbInv(s.net) && ErrorEnabled(s, p)
    ensures var n, m := ErrorStep(s, p, freed).net, Drop(s.net);
            && n == m.(stack := m.stack.(badCalls := n.stack.badCalls))
            && n.stack.badCalls == s.net.stack.badCalls + if freed then 6 else 0
  {
  }

  lemma ErrorKeepsInv(s: Sys, p: Pcb, freed: bool)
    requires Inv(s)
    ensures Inv(ErrorStep(s, p, freed))
  {
    if ErrorEnabled(s, p) {
      ErrorIsDrop(s, p, freed);
      DropKeepsPcbInv(s.net);
      assert PcbInv(ErrorStep(s, p, freed).net);
    }
  }

  lemma NextKeepsInv(s: Sys, l: Label)
    requires Inv(s)
    ensures Inv(Next(s, l))
  {
    match l
    case Main(env) => MainKeepsInv(s, env);
    case OnError(p, freed) => ErrorKeepsInv(s, p, freed);
    case OnPeerClose(p) => DropStepKeepsInv(s, p);
    case OnConnected(p) => ConnectedKeepsPcbInv(s, p);
    case _ =>
  }

  lemma {:induction false} ExecKeepsInv(s: Sys, ls: seq<Label>)
    requires Inv(s)
    ensures Inv(Exec(s, ls))
    decreases |ls|
  {
    if ls != [] {
      ExecKeepsInv(s, ls[..|ls| - 1]);
      NextKeepsInv(Exec(s, ls[..|ls| - 1]), ls[|ls| - 1]);
    }
  }

  lemma RunHasInv(size: nat, tick: nat, ls: seq<Label>)
    requires 2 <= size <= 256
    ensures Inv(Run(size, tick, ls))
  {
    assert Inv(Start(size - 1, tick));
    ExecKeepsInv(Start(size - 1, tick), ls);
  }

  // ---- calls on a PCB that is gone ----

  /** The step by which lwIP frees the PCB in use and only then reports the error. */
  predicate Reclaims(s: Sys, l: Label) {
    l.OnError? && l.freed && ErrorEnabled(s, l.p)
  }

  lemma MainMakesNoBadCalls(s: Sys, env: Env)
    requires Inv(s)
    ensures MainStep(s, env).net.stack.badCalls == s.net.stack.badCalls
  {
    var r := MainStep(s, env);
    if InTransport(s, env) {
      TransportKeepsControl(s, s.pc.call, s.pc.io, env);
      assert r == TransportStep(s, s.pc.call, s.pc.io, env);
    } else if s.pc == DoConnect {
      assert r == ConnectStep(s, env);
    } else if s.pc == DoDisconnect {
      assert r == DisconnectStep(s);
    } else {
      LoopFrame(s, env);
    }
    assert r.net.stack.badCalls == s.net.stack.badCalls;
  }

  /** The calls on a NULL PCB or one that is gone that are made between two states. */
  predicate MisuseGrows(n: Net, m: Net, nulls: nat, bad: nat) {
    m.stack.nullCalls == n.stack.nullCalls + nulls && m.stack.badCalls == n.stack.badCalls + bad
  }

  lemma AttachMisuse(n: Net)
    requires n.hNet.Some? && Live(n.stack, n.hNet.value)
    ensures MisuseGrows(n, ConnectedCb(n), 0, 0)
  {
  }

  lemma DropMisuse(n: Net)
    requires n.hNet.Some? && Live(n.stack, n.hNet.value)
    ensures MisuseGrows(n, Drop(n), 0, 0)
  {
  }

  lemma LwipMisuse(s: Sys, l: Label)
    requires l.OnTick? || l.OnArrival? || l.OnReceive? || l.OnGiveUp? || l.OnPoll?
    ensures MisuseGrows(s.net, Next(s, l).net, 0, 0)
  {
  }

  lemma CallbackMisuse(s: Sys, l: Label)
    requires Inv(s) && !l.Main?
    ensures MisuseGrows(s.net, Next(s, l).net, 0, if Reclaims(s, l) then 6 else 0)
  {
    var r := Next(s, l);
    if r == s {
    } else if l.OnError? {
      ErrorIsDrop(s, l.p, l.freed);
      DropMisuse(s.net);
    } else if l.OnPeerClose? {
      DropMisuse(s.net);
    } else if l.OnConnected? {
      AttachMisuse(Established(s, l.p));
    } else {
      LwipMisuse(s, l);
    }
  }

  lemma BadCallsOfStep(s: Sys, l: Label)
    requires Inv(s)
    ensures Next(s, l).net.stack.badCalls == s.net.stack.badCalls + if Reclaims(s, l) then 6 else 0
  {
    match l
    case Main(env) => MainMakesNoBadCalls(s, env);
    case _ => CallbackMisuse(s, l);
  }

  /** How often in a run lwIP has freed the PCB before it reported the error. */
  function Reclaimed(size: nat, tick: nat, ls: seq<Label>): nat
    requires 2 <= size <= 256
    decreases |ls|
  {
    if ls == [] then 0
    else
      var front, l := ls[..|ls| - 1], ls[|ls| - 1];
      Reclaimed(size, tick, front) + if Reclaims(Run(size, tick, front), l) then 1 else 0
  }

  /** Every error reported on a freed PCB makes the client use it six times, and nothing else ever does. */
  lemma {:induction false} BadCallsExactly(size: nat, tick: nat, ls: seq<Label>)
    requires 2 <= size <= 256
    ensures Run(size, tick, ls).net.stack.badCalls == 6 * Reclaimed(size, tick, ls)
    decreases |ls|
  {
    if ls != [] {
      var front, l := ls[..|ls| - 1], ls[|ls| - 1];
      RunHasInv(size, tick, front);
      BadCallsExactly(size, tick, front);
      BadCallsOfStep(Run(size, tick, front), l);
    }
  }

  /**
   * In every reachable state the PCBs obtained and not yet given back are exactly
   * the one in the handle; each is given back once, none is used afterwards unless
   * lwIP freed it before it reported an error, and net_Connect is never entered
   * with a PCB in the handle.
   */
  lemma PcbLifetime(size: nat, tick: nat, ls: seq<Label>)
    requires 2 <= size <= 256
    ensures var s := Run(size, tick, ls);
            && (forall p: Pcb :: Live(s.net.stack, p) <==> s.net.hNet == Some(p))
            && (forall p :: 0 <= p < |s.net.stack.pcbs| ==> s.net.stack.pcbs[p].releases <= 1)
            && s.net.stack.badCalls == 6 * Reclaimed(size, tick, ls)
            && (s.pc == DoConnect ==> s.net.hNet.None?)
  {
    RunHasInv(size, tick, ls);
    BadCallsExactly(size, tick, ls);
  }

  /**
   * The connection flag is true exactly when the PCB in the handle is live and its
   * connected callback has come, and then all callbacks are installed; every
   * callback lwIP can deliver finds its own PCB in the handle and a valid argument.
   */
  lemma FlagIsSound(size: nat, tick: nat, ls: seq<Label>, p: Pcb)
    requires 2 <= size <= 256
    ensures var s := Run(size, tick, ls);
            var st := s.net.stack;
            && (s.net.isConnected <==> s.net.hNet.Some? && Live(st, s.net.hNet.value) && !st.pcbs[s.net.hNet.value].connecting)
            && (Live(st, p) && (st.pcbs[p].recvCb || st.pcbs[p].pollCb || st.pcbs[p].errCb || st.pcbs[p].connecting) ==>
                  s.net.hNet == Some(p) && st.pcbs[p].arg)
            && (s.net.hNet == Some(p) ==>
                  && Live(st, p)
                  && var c := st.pcbs[p];
                  && c.errCb && c.arg
                  && (s.net.isConnected <==> c.recvCb) && (c.recvCb <==> c.sentCb) && (c.recvCb <==> c.pollCb))
  {
    RunHasInv(size, tick, ls);
  }

  // ---- calls on a NULL PCB ----

  /** The main loop is about to call into TCP with its handle, other than to connect. */
  predicate UsesHandle(s: Sys, env: Env) {
    || s.pc == DoDisconnect
    || (s.pc.InUmqtt? && (s.pc.io.Fetched? || s.pc.io == Unflushed || (s.pc.io == Idle && env.act == WritePacket)))
  }

  /** The number of tcp_* calls on NULL in one step: six when disconnecting, one in a transport callback. */
  function NullCalls(s: Sys, l: Label): nat {
    if !l.Main? || s.net.hNet.Some? || !UsesHandle(s, l.env) then 0
    else if s.pc == DoDisconnect then 6
    else 1
  }

  lemma TransportNullCalls(s: Sys, env: Env)
    requires PcbInv(s.net) && InTransport(s, env)
    ensures TransportStep(s, s.pc.call, s.pc.io, env).net.stack.nullCalls == s.net.stack.nullCalls + NullCalls(s, Main(env))
  {
  }

  lemma MainNullCalls(s: Sys, env: Env)
    requires Inv(s)
    ensures MainStep(s, env).net.stack.nullCalls == s.net.stack.nullCalls + NullCalls(s, Main(env))
  {
    var r := MainStep(s, env);
    if InTransport(s, env) {
      assert r == TransportStep(s, s.pc.call, s.pc.io, env);
      TransportNullCalls(s, env);
    } else if s.pc == DoConnect {
      assert r == ConnectStep(s, env);
    } else if s.pc == DoDisconnect {
      assert r == DisconnectStep(s);
    } else {
      LoopFrame(s, env);
    }
    assert r.net.stack.nullCalls == s.net.stack.nullCalls + NullCalls(s, Main(env));
  }

  /**
   * A TCP call is made on NULL exactly when the loop uses its handle without a
   * connection.  Outside recovery that is exactly when the disconnect flag is
   * up: the loop could have known.
   */
  lemma NullCallsExactly(size: nat, tick: nat, ls: seq<Label>, l: Label)
    requires 2 <= size <= 256
    ensures var s := Run(size, tick, ls);
            var made := Next(s, l).net.stack.nullCalls - s.net.stack.nullCalls;
            && made == NullCalls(s, l)
            && (made > 0 ==> s.runState == Recovery || Active(s.runState))
            && (l.Main? && UsesHandle(s, l.env) && Active(s.runState) ==> (made > 0 <==> s.netWasDisconnected))
            && (l.Main? && UsesHandle(s, l.env) && s.netWasDisconnected ==> made > 0)
  {
    RunHasInv(size, tick, ls);
    match l
    case Main(env) => MainNullCalls(Run(size, tick, ls), env);
    case _ => CallbackMisuse(Run(size, tick, ls), l);
  }

  // ---- callbacks left behind ----

  /** A PCB that was given back has its callbacks taken off, unless its tcp_connect failed. */
  ghost predicate SilentInv(n: Net) {
    forall p :: 0 <= p < |n.stack.pcbs| ==>
      var c := n.stack.pcbs[p];
      && (c.releases == 0 ==> !c.failed)
      && (c.releases > 0 ==> !c.recvCb && !c.sentCb && !c.pollCb && c.arg == c.failed && c.errCb == c.failed)
  }

  lemma SameControlKeepsSilent(n: Net, m: Net)
    requires SilentInv(n) && SameControl(n.stack, m.stack)
    ensures SilentInv(m)
  {
  }

  lemma DropKeepsSilent(n: Net)
    requires PcbInv(n) && SilentInv(n)
    ensures SilentInv(Drop(n))
  {
  }

  lemma ConnectKeepsSilent(n: Net, outcome: ConnectOutcome)
    requires SilentInv(n)
    ensures SilentInv(Connect(n, outcome).0)
  {
  }

  lemma ConnectedKeepsSilent(n: Net)
    requires SilentInv(n) && n.hNet.Some? && Live(n.stack, n.hNet.value)
    ensures SilentInv(ConnectedCb(n))
  {
  }

  lemma MainKeepsSilent(s: Sys, env: Env)
    requires Inv(s) && SilentInv(s.net)
    ensures SilentInv(MainStep(s, env).net)
  {
    var r := MainStep(s, env);
    if InTransport(s, env) {
      assert r == TransportStep(s, s.pc.call, s.pc.io, env);
      TransportKeepsControl(s, s.pc.call, s.pc.io, env);
      SameControlKeepsSilent(s.net, r.net);
    } else if s.pc == DoConnect {
      assert r == ConnectStep(s, env);
      ConnectKeepsSilent(s.net, env.outcome);
    } else if s.pc == DoDisconnect {
      assert r == DisconnectStep(s);
      DropKeepsSilent(s.net);
    } else {
      LoopFrame(s, env);
    }
    assert SilentInv(r.net);
  }

  lemma CallbackKeepsSilent(s: Sys, l: Label)
    requires Inv(s) && SilentInv(s.net) && !l.Main?
    ensures SilentInv(Next(s, l).net)
  {
    var r := Next(s, l);
    if r == s {
    } else if l.OnConnected? {
      ConnectedKeepsSilent(Established(s, l.p));
    } else if l.OnError? {
      ErrorIsDrop(s, l.p, l.freed);
      DropKeepsSilent(s.net);
    } else if l.OnPeerClose? {
      DropKeepsSilent(s.net);
    } else {
      LwipKeepsSilent(s, l);
    }
    assert SilentInv(r.net);
  }

  lemma PutKeepsSilent(n: Net, m: Net, p: Pcb)
    requires SilentInv(n) && p < |n.stack.pcbs| && |m.stack.pcbs| == |n.stack.pcbs|
    requires m.stack.pcbs == n.stack.pcbs[p := m.stack.pcbs[p]]
    requires var c, d := n.stack.pcbs[p], m.stack.pcbs[p];
             && c.releases == d.releases && c.arg == d.arg && c.errCb == d.errCb && c.failed == d.failed
             && c.recvCb == d.recvCb && c.sentCb == d.sentCb && c.pollCb == d.pollCb
    ensures SilentInv(m)
  {
  }

  lemma LwipKeepsSilent(s: Sys, l: Label)
    requires SilentInv(s.net) && (l.OnTick? || l.OnArrival? || l.OnReceive? || l.OnGiveUp? || l.OnPoll?)
    ensures SilentInv(Next(s, l).net)
  {
    var r := Next(s, l);
    if r.net.stack != s.net.stack {
      PutKeepsSilent(s.net, r.net, l.p);
    }
    assert SilentInv(r.net);
  }

  /**
   * lwIP is left without a callback into the client on every PCB given back after
   * an error or a disconnect; on a PCB whose tcp_connect failed, and only there,
   * argument and error callback stay behind.
   */
  lemma {:induction false} ReleasedPcbsAreSilent(size: nat, tick: nat, ls: seq<Label>)
    requires 2 <= size <= 256
    ensures SilentInv(Run(size, tick, ls).net)
    decreases |ls|
  {
    if ls != [] {
      var front, l := ls[..|ls| - 1], ls[|ls| - 1];
      RunHasInv(size, tick, front);
      ReleasedPcbsAreSilent(size, tick, front);
      match l
      case Main(env) => MainKeepsSilent(Run(size, tick, front), env);
      case _ => CallbackKeepsSilent(Run(size, tick, front), l);
    }
  }

  // ---- events ----

  /** Any two CONNECTED events have a DISCONNECTED event between them. */
  ghost predicate Alternating(es: seq<NetEvent>) {
    forall i, j :: 0 <= i < j < |es| && es[i] == NetEvent.Connected && es[j] == NetEvent.Connected ==>
      exists k :: i < k < j && es[k] == Disconnected
  }

  /** Every CONNECTED event has been followed by a DISCONNECTED event. */
  ghost predicate Closed(es: seq<NetEvent>) {
    forall i :: 0 <= i < |es| && es[i] == NetEvent.Connected ==> exists k :: i < k < |es| && es[k] == Disconnected
  }

  ghost predicate EventInv(n: Net) {
    Alternating(n.events) && (n.isConnected || Closed(n.events))
  }

  lemma AppendEvent(es: seq<NetEvent>, e: NetEvent)
    requires Alternating(es) && (e == NetEvent.Connected ==> Closed(es))
    ensures Alternating(es + [e])
    ensures Closed(es) && e != NetEvent.Connected ==> Closed(es + [e])
    ensures e == Disconnected ==> Closed(es + [e])
  {
    var es' := es + [e];
    forall i, j | 0 <= i < j < |es'| && es'[i] == NetEvent.Connected && es'[j] == NetEvent.Connected
      ensures exists k :: i < k < j && es'[k] == Disconnected
    {
      var k :| i < k < j && es[k] == Disconnected;
      assert es'[k] == Disconnected;
    }
    if Closed(es) && e != NetEvent.Connected {
      forall i | 0 <= i < |es'| && es'[i] == NetEvent.Connected
        ensures exists k :: i < k < |es'| && es'[k] == Disconnected
      {
        var k :| i < k < |es| && es[k] == Disconnected;
        assert es'[k] == Disconnected;
      }
    }
    if e == Disconnected {
      assert es'[|es|] == Disconnected;
    }
  }

  lemma NextKeepsEvents(s: Sys, l: Label)
    requires Inv(s) && EventInv(s.net)
    ensures EventInv(Next(s, l).net)
  {
    var n := s.net;
    match l
    case Main(env) =>
      AppendEvent(n.events, Disconnected);
    case OnError(_, _) => AppendEvent(n.events, Disconnected);
    case OnPeerClose(p) => AppendEvent(n.events, Disconnected);
    case OnConnected(p) =>
      if !n.isConnected {
        AppendEvent(n.events, NetEvent.Connected);
      }
    case OnPoll(p) => AppendEvent(n.events, NetEvent.Poll);
    case _ =>
  }

  lemma {:induction false} EventsAlternate(size: nat, tick: nat, ls: seq<Label>)
    requires 2 <= size <= 256
    ensures EventInv(Run(size, tick, ls).net)
    decreases |ls|
  {
    if ls != [] {
      var front := ls[..|ls| - 1];
      RunHasInv(size, tick, front);
      EventsAlternate(size, tick, front);
      NextKeepsEvents(Run(size, tick, front), ls[|ls| - 1]);
    }
  }

  // ---- recovery after a lost connection ----

  /** The step by which lwIP takes the connection away. */
  predicate Lost(s: Sys, l: Label) {
    !l.Main? && s.net.hNet.Some? && Next(s, l).net.hNet.None?
  }

  /**
   * Since `s0`, net_Disconnect was called no later than in the iteration after
   * the one that was running; before it came nothing but the rest of that
   * iteration and umqtt_Disconnect.
   */
  ghost predicate Recovered(s0: Sys, s: Sys) {
    && |s0.calls| <= |s.calls|
    && exists j ::
         && |s0.calls| <= j < |s.calls|
         && s.calls[j].call == NetDisconnect && s.calls[j].iter <= s0.iter + 1
         && OnlyRest(s0, s, j)
  }

  ghost predicate OnlyRest(s0: Sys, s: Sys, end: nat)
    requires end <= |s.calls|
  {
    forall m :: |s0.calls| <= m < end ==> s.calls[m].iter <= s0.iter || s.calls[m].call == UmqttDisconnect
  }

  ghost predicate Recovering(s0: Sys, s: Sys) {
    && |s0.calls| <= |s.calls| && OnlyRest(s0, s, |s.calls|)
    && (s.runState == Recovery || Active(s.runState))
    && s.net.hNet.None?
    && ((s.iter == s0.iter && s.netWasDisconnected && s.pc != Clear && s.pc != ArmBackoff)
        || (s.iter == s0.iter + 1
            && (s.pc == Clear
                || (s.runState == Recovery
                    && (s.pc == Dispatch || s.pc == DoDisconnect || (s.pc.InUmqtt? && s.pc.call == UmqttDisconnect))))))
  }

  lemma MainCallsGrow(s: Sys, env: Env)
    ensures s.calls <= MainStep(s, env).calls
  {
    match s.pc
    case InUmqtt(c, io) => assert s.calls <= ReturnStep(s, c, env.code).calls;
    case Dispatch => assert s.calls <= DispatchStep(s, env).calls;
    case _ =>
  }

  lemma CallsGrow(s: Sys, l: Label)
    ensures s.calls <= Next(s, l).calls
  {
    match l
    case Main(env) => MainCallsGrow(s, env);
    case _ =>
  }

  lemma RecoveringStep(s0: Sys, s: Sys, l: Label)
    requires Inv(s) && Recovering(s0, s)
    ensures Recovering(s0, Next(s, l)) || Recovered(s0, Next(s, l))
  {
    var s' := Next(s, l);
    if s.pc == DoDisconnect && l.Main? {
      assert s'.calls[|s.calls|] == Stamped(NetDisconnect, s.iter, s.tick);
      assert Recovered(s0, s');
    } else {
      RecoveringContinues(s0, s, l);
    }
  }

  lemma RecoveringInLoop(s0: Sys, s: Sys, env: Env)
    requires Inv(s) && Recovering(s0, s) && s.pc != DoDisconnect && !s.pc.InUmqtt?
    ensures Recovering(s0, MainStep(s, env))
  {
  }

  lemma RecoveringInUmqtt(s0: Sys, s: Sys, env: Env)
    requires Inv(s) && Recovering(s0, s) && s.pc.InUmqtt?
    ensures Recovering(s0, MainStep(s, env))
  {
    if !(s.pc.io == Idle && env.act == Return) {
      var r := TransportStep(s, s.pc.call, s.pc.io, env);
      assert SameLoop(s, r);
      assert Recovering(s0, r);
    }
  }

  lemma RecoveringContinues(s0: Sys, s: Sys, l: Label)
    requires Inv(s) && Recovering(s0, s) && !(s.pc == DoDisconnect && l.Main?)
    ensures Recovering(s0, Next(s, l))
  {
    match l
    case Main(env) =>
      if s.pc.InUmqtt? {
        RecoveringInUmqtt(s0, s, env);
      } else {
        RecoveringInLoop(s0, s, env);
      }
    case _ =>
      assert Next(s, l).calls == s.calls;
  }

  lemma {:induction false} RecoveryRuns(s0: Sys, s: Sys, ls: seq<Label>)
    requires Inv(s) && Recovering(s0, s)
    ensures Recovering(s0, Exec(s, ls)) || Recovered(s0, Exec(s, ls))
    decreases |ls|
  {
    if ls != [] {
      var front, l := ls[..|ls| - 1], ls[|ls| - 1];
      var r := Exec(s, front);
      RecoveryRuns(s0, s, front);
      ExecKeepsInv(s, front);
      if Recovered(s0, r) {
        CallsGrow(r, l);
        var j :| |s0.calls| <= j < |r.calls| && r.calls[j].call == NetDisconnect
          && r.calls[j].iter <= s0.iter + 1 && OnlyRest(s0, r, j);
        assert OnlyRest(s0, Next(r, l), j);
      } else {
        RecoveringStep(s0, r, l);
      }
    }
  }

  lemma AfterLoss(size: nat, tick: nat, before: seq<Label>, l: Label, after: seq<Label>)
    requires 2 <= size <= 256
    requires Lost(Run(size, tick, before), l)
    ensures var s0 := Run(size, tick, before);
            var s := Run(size, tick, before + [l] + after);
            Recovering(s0, s) || Recovered(s0, s)
  {
    var s0 := Run(size, tick, before);
    var s1 := Next(s0, l);
    RunHasInv(size, tick, before);
    NextKeepsInv(s0, l);
    ExecOne(Start(size - 1, tick), before, l);
    ExecAppend(Start(size - 1, tick), before + [l], after);
    assert Recovering(s0, s1);
    RecoveryRuns(s0, s1, after);
  }

  /**
   * Whenever lwIP drops the connection, whatever the loop is doing, recovery has
   * run by the time two more iterations have begun.
   */
  lemma NoLostDisconnect(size: nat, tick: nat, before: seq<Label>, l: Label, after: seq<Label>)
    requires 2 <= size <= 256
    requires Lost(Run(size, tick, before), l)
    ensures var s0 := Run(size, tick, before);
            var s := Run(size, tick, before + [l] + after);
            s.iter >= s0.iter + 2 ==> Recovered(s0, s)
  {
    AfterLoss(size, tick, before, l, after);
  }

  /**
   * After a loss, the rest of the running iteration is the last that calls TCP on
   * NULL from anywhere but recovery, until recovery has called net_Disconnect.
   */
  lemma NullCallsEndWithIteration(size: nat, tick: nat, before: seq<Label>, l: Label, after: seq<Label>, next: Label)
    requires 2 <= size <= 256
    requires Lost(Run(size, tick, before), l)
    ensures var s0 := Run(size, tick, before);
            var s := Run(size, tick, before + [l] + after);
            !Recovered(s0, s) && NullCalls(s, next) > 0 ==> s.iter == s0.iter || s.runState == Recovery
  {
    AfterLoss(size, tick, before, l, after);
  }

  /**
   * The event that recovery raises itself is consumed while the loop backs off:
   * from DELAY it goes on only to WAIT_IP, and there the flag is clear.
   */
  lemma OwnDisconnectIsAbsorbed(size: nat, tick: nat, ls: seq<Label>, l: Label)
    requires 2 <= size <= 256
    ensures var s := Run(size, tick, ls);
            && (s.runState == WaitIp ==> !s.netWasDisconnected)
            && (s.runState == Delay ==>
                  && s.net.hNet.None?
                  && (Next(s, l).runState == Delay || Next(s, l).runState == WaitIp)
                  && (Next(s, l).netWasDisconnected ==> s.netWasDisconnected))
  {
    RunHasInv(size, tick, ls);
  }
}

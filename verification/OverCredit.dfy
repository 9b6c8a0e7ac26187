/**
 * The shortest kind of run in which a connection is credited with bytes it never
 * carried: a packet left in the queue by a lost connection is read on the next one.
 */
module OverCredit {
  import opened Base
  import opened LwipStack
  import opened NetModel
  import opened McuModel
  import opened SwTimer
  import opened SysTick
  import opened Runs

  const LEFTOVER: Pbuf := Pbuf(0, 0, [7], [])

  /** The loop has found the connection lost. */
  predicate Dropped(s: Sys) {
    && s.pc == Head && s.runState == WaitNet && s.netWasDisconnected
    && s.net.hNet.None? && !s.net.isConnected
  }

  /** No connection, and the same packets and PCBs as before. */
  predicate Quiet(s0: Sys, s: Sys) {
    && s.net.hNet.None? && !s.net.isConnected && s.net.queue == s0.net.queue && s.received == s0.received
    && s.net.stack.pcbs == s0.net.stack.pcbs
  }

  /** One packet is queued when the connection is lost. */
  lemma LosePacket(s0: Sys, s1: Sys) returns (s: Sys)
    requires Opened(s0, s1) && s0.net.queue == [] && s0.net.capacity > 0
    requires s0.net.stack == EMPTY
    ensures Reaches(s1, s) && Dropped(s) && s.net.queue == [LEFTOVER] && SameTime(s1, s) && |s.net.stack.pcbs| == 1
  {
    var s2 := Deliver(s0, s1, [7], []);
    s := Do(s1, s2, OnError(0, false));
    assert s == ErrorStep(s2, 0, false) && s.net == Drop(s2.net);
  }

  lemma RecoverOne(s0: Sys) returns (s: Sys)
    requires Dropped(s0)
    ensures Reaches(s0, s) && s.pc == DoDisconnect && s.net == s0.net && s.received == s0.received && SameTime(s0, s)
  {
    Stay(s0);
    s := Do(s0, s0, Main(GO));
    s := Do(s0, s, Main(GO));
    s := Do(s0, s, Main(GO));
    s := Do(s0, s, Main(GO));
  }

  lemma DropNothing(n: Net)
    requires n.hNet.None?
    ensures Drop(n).stack.pcbs == n.stack.pcbs && Drop(n).hNet.None? && !Drop(n).isConnected && Drop(n).queue == n.queue
  {
  }

  lemma Disconnecting(s: Sys)
    requires s.pc == DoDisconnect && s.net.hNet.None?
    ensures var r := Next(s, Main(GO));
            r.pc == ArmBackoff && Quiet(s, r) && SameTime(s, r)
  {
    DropNothing(s.net);
    var r := DisconnectStep(s);
    assert r.net == Drop(s.net);
    assert Next(s, Main(GO)) == r;
  }

  lemma BackingOff(s: Sys)
    requires s.pc == ArmBackoff
    ensures var r := Next(s, Main(GO));
            && r.pc == Head && r.runState == Delay && r.errorTimer == Armed(s.clocks.ticks, MS_PER_TICK, BACKOFF_MS)
            && r.net == s.net && r.received == s.received && SameTime(s, r)
  {
    assert Next(s, Main(GO)) == BackoffStep(s);
  }

  lemma RecoverTwo(s0: Sys) returns (s: Sys)
    requires s0.pc == DoDisconnect && s0.net.hNet.None?
    ensures Reaches(s0, s) && Quiet(s0, s) && SameTime(s0, s)
    ensures s.pc == Head && s.runState == Delay && s.errorTimer == Armed(s0.clocks.ticks, MS_PER_TICK, BACKOFF_MS)
  {
    Stay(s0);
    Disconnecting(s0);
    var s1 := Do(s0, s0, Main(GO));
    BackingOff(s1);
    s := Do(s0, s1, Main(GO));
  }

  lemma RecoverThree(s0: Sys) returns (s: Sys)
    requires s0.pc == Head && s0.runState == Delay
    ensures Reaches(s0, s) && s == s0.(iter := s0.iter + 1, pc := Dispatch, netWasDisconnected := false)
  {
    Stay(s0);
    s := Do(s0, s0, Main(GO));
    if s0.netWasDisconnected {
      s := Do(s0, s, Main(GO));
    }
  }

  /** Recovery, up to the back-off. */
  lemma Recover(s0: Sys) returns (s: Sys)
    requires Dropped(s0)
    ensures Reaches(s0, s) && Quiet(s0, s) && SameTime(s0, s)
    ensures s.pc == Dispatch && s.runState == Delay && !s.netWasDisconnected
    ensures s.errorTimer == Armed(s0.clocks.ticks, MS_PER_TICK, BACKOFF_MS)
  {
    var s1 := RecoverOne(s0);
    var s2 := RecoverTwo(s1);
    Join(s0, s1, s2);
    s := RecoverThree(s2);
    Join(s0, s2, s);
  }

  /** Its end, up to the next call of net_Connect. */
  lemma Wake(s0: Sys) returns (s: Sys)
    requires s0.pc == Dispatch && s0.runState == Delay && !s0.netWasDisconnected
    requires s0.clocks == At(300) && s0.errorTimer == Armed(0, MS_PER_TICK, BACKOFF_MS)
    requires s0.net.hNet.None? && !s0.net.isConnected
    ensures Reaches(s0, s) && Ready(s) && s.net == s0.net
  {
    Stay(s0);
    s := Do(s0, s0, Main(GO));
    assert s.runState == WaitIp;
    s := Do(s0, s, Main(GO));
    s := Do(s0, s, Main(GO));
  }

  lemma WaitOut(s0: Sys) returns (s: Sys)
    requires s0.pc == Dispatch && s0.runState == Delay && !s0.netWasDisconnected
    requires s0.tick == 0 && s0.clocks == At(0) && s0.errorTimer == Armed(0, MS_PER_TICK, BACKOFF_MS)
    requires s0.net.hNet.None? && !s0.net.isConnected
    ensures Reaches(s0, s) && Ready(s) && s.net == s0.net
  {
    var s1 := Sleep(s0, 300);
    s := Wake(s1);
    Join(s0, s1, s);
  }

  /** A connection on which nothing was accepted has been credited with one byte. */
  predicate OverCredited(s: Sys) {
    && Live(s.net.stack, 1) && s.net.queue == []
    && s.net.stack.pcbs[1].accepted == [] && s.net.stack.pcbs[1].credited == 1
  }

  /** Reading the old packet on the new connection. */
  lemma CreditOldPacket(s1: Sys) returns (s: Sys)
    requires s1.pc == InUmqtt(UmqttConnect, Idle) && s1.net.queue == [LEFTOVER]
    requires s1.net.hNet == Some(1) && |s1.net.stack.pcbs| == 2
    requires var c := s1.net.stack.pcbs[1]; c.releases == 0 && c.accepted == [] && c.credited == 0
    ensures Reaches(s1, s) && OverCredited(s)
  {
    Stay(s1);
    s := Do(s1, s1, Main(READ));
    assert s.pc == InUmqtt(UmqttConnect, Measured(1)) && s.net == s1.net;
    s := Do(s1, s, Main(READ));
    assert s.pc == InUmqtt(UmqttConnect, Fetched(LEFTOVER)) && s.net == s1.net.(queue := []);
    s := Do(s1, s, Main(READ));
    assert s.net.stack == TcpRecved(s1.net.stack, Some(1), 1);
  }

  lemma FirstConnection() returns (s: Sys)
    ensures Reaches(Start(1, 0), s)
    ensures Dropped(s) && s.net.queue == [LEFTOVER] && SameTime(Start(1, 0), s) && |s.net.stack.pcbs| == 1
  {
    var s0, s1 := OpenFirst();
    s := LosePacket(s0, s1);
    Join(Start(1, 0), s1, s);
  }

  lemma UpToReopening(s0: Sys) returns (s: Sys)
    requires Dropped(s0) && s0.tick == 0 && s0.clocks == At(0)
    ensures Reaches(s0, s) && Ready(s) && s.net.queue == s0.net.queue && s.net.stack.pcbs == s0.net.stack.pcbs
  {
    var s1 := Recover(s0);
    s := WaitOut(s1);
    Join(s0, s1, s);
  }

  lemma SecondConnection(s0: Sys) returns (s: Sys)
    requires Ready(s0) && s0.net.queue == [LEFTOVER] && |s0.net.stack.pcbs| == 1
    ensures Reaches(Next(s0, Main(GO)), s) && OverCredited(s)
  {
    var s1 := Open(s0);
    var s2 := EnterConnect(s0, s1);
    Join(Next(s0, Main(GO)), s1, s2);
    s := CreditOldPacket(s2);
    Join(Next(s0, Main(GO)), s2, s);
  }

  lemma TwoConnections() returns (s1: Sys, s2: Sys)
    ensures Reaches(Start(1, 0), s1) && s1.pc == DoConnect
    ensures Reaches(Next(s1, Main(GO)), s2) && OverCredited(s2)
  {
    var s0 := FirstConnection();
    s1 := UpToReopening(s0);
    Join(Start(1, 0), s0, s1);
    s2 := SecondConnection(s1);
  }

  /**
   * Crediting a connection with exactly the bytes taken from it can fail: here a
   * connection on which nothing was accepted has been credited with one byte.
   */
  lemma OldBytesAreCredited() returns (before: seq<Label>, after: seq<Label>)
    ensures Run(2, 0, before).pc == DoConnect
    ensures OverCredited(Run(2, 0, before + ([Main(GO)] + after)))
  {
    var s1, s2 := TwoConnections();
    before, after := Around(Start(1, 0), s1, Main(GO), s2);
  }
}

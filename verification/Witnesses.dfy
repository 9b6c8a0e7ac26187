/** Short runs for the cases in which the application does less than one might expect. */
module Witnesses {
  import opened Base
  import opened LwipStack
  import opened NetModel
  import opened McuModel
  import opened SysTick
  import opened Runs
  import Connection
  import Delivery
  import DataPath
  import Output
  import opened SwTimer

  // ---- received data ----

  /** The state after one packet has been queued on the first connection. */
  lemma OnePacket(payload: seq<byte>, rest: seq<byte>) returns (s: Sys)
    requires |payload| + |rest| < U16
    ensures Reaches(Start(1, 0), s)
    ensures var pb := Pbuf(0, 0, payload, rest);
            && s.net.queue == [pb] && s.net.capacity == 1 && |s.net.stack.pcbs| == 1
            && s.net.stack.arrived == [pb]
            && s.net.stack.pcbs[0] == NEW_PCB.(arg := true, errCb := true, recvCb := true, pollCb := true, sentCb := true,
                                               arrived := [pb], accepted := [pb])
  {
    var s0, s1 := OpenFirst();
    s := Deliver(s0, s1, payload, rest);
    Join(Start(1, 0), s1, s);
  }

  /** A chained buffer whose first segment is empty gets to the head of the queue, where it blocks all reading. */
  lemma EmptySegmentAtHead() returns (ls: seq<Label>)
    ensures var s := Run(2, 0, ls);
            s.net.queue != [] && s.net.queue[0].payload == [] && s.net.queue[0].rest != []
  {
    var s := OnePacket([], [7]);
    ls := RunTo(s);
  }

  /** Data read, queued and held on the first connection fall short of what the peer sent. */
  ghost predicate StreamIsShort(s: Sys) {
    && Live(s.net.stack, 0)
    && var c := s.net.stack.pcbs[0];
       Delivery.Data(s.received) + DataPath.Bytes(s.net.queue) + DataPath.Bytes(c.held)
       != DataPath.Bytes(DataPath.AllAccepted(s.net.stack.pcbs[..0])) + DataPath.Full(c.arrived)
  }

  /** What hangs behind the first segment never reaches the application. */
  lemma ChainedBufferIsCut() returns (ls: seq<Label>)
    ensures StreamIsShort(Run(2, 0, ls))
  {
    var s := OnePacket([7], [8]);
    ls := RunTo(s);
    Delivery.StreamIsExactIff(2, 0, ls, 0);
    assert s.net.stack.pcbs[0].accepted[0].rest != [];
  }

  /** A packet refused because the queue is full, and then given up by lwIP, is lost. */
  lemma RefusedPacketIsLost() returns (ls: seq<Label>)
    ensures StreamIsShort(Run(2, 0, ls))
  {
    var s := OnePacket([7], []);
    var pb := Pbuf(1, 0, [8], []);
    s := Do(Start(1, 0), s, OnArrival(0, [8], []));
    assert s.net.stack.pcbs[0].held == [pb];
    s := Do(Start(1, 0), s, OnReceive(0));
    assert s.net.stack.pcbs[0].refused;
    s := Do(Start(1, 0), s, OnGiveUp(0));
    assert s.net.stack.pcbs[0].gaveUp == [pb];
    DataPath.FullOne(pb);
    ls := RunTo(s);
    Delivery.StreamIsExactIff(2, 0, ls, 0);
  }

  // ---- sent data ----

  lemma InsideConnect() returns (s: Sys)
    ensures Reaches(Start(1, 0), s) && s.pc == InUmqtt(UmqttConnect, Idle) && s.runState == WaitNet
    ensures !s.netWasDisconnected && s.net.hNet == Some(0) && |s.net.stack.pcbs| == 1
    ensures s.net.stack.pcbs[0] == NEW_PCB.(arg := true, errCb := true, recvCb := true, pollCb := true, sentCb := true)
    ensures s.net.stack.nullCalls == 0
    ensures SameTime(Start(1, 0), s) && s.writes == []
  {
    var s0, s1 := OpenFirst();
    s := EnterConnect(s0, s1);
    Join(Start(1, 0), s1, s);
  }

  /** A write of 65536 bytes is reported as complete, and nothing of it is sent. */
  lemma LongWriteIsEmpty() returns (ls: seq<Label>)
    ensures var s := Run(2, 0, ls);
            && |s.net.stack.pcbs| == 1 && s.net.stack.pcbs[0].out == []
            && |Output.Told(s.writes, 0)| == 65536
  {
    var s1 := InsideConnect();
    var buf: seq<byte> := seq(U16, _ => 0);
    WriteInFull(s1, buf);
    var s := Do(Start(1, 0), s1, Main(GO.(act := WritePacket, buf := buf)));
    ls := RunTo(s);
  }

  lemma WriteInFull(s: Sys, buf: seq<byte>)
    requires s.pc == InUmqtt(UmqttConnect, Idle) && s.net.hNet == Some(0) && |s.net.stack.pcbs| == 1
    requires Live(s.net.stack, 0) && s.net.stack.pcbs[0].out == [] && s.writes == [] && |buf| == U16
    ensures var r := Next(s, Main(GO.(act := WritePacket, buf := buf)));
            |r.net.stack.pcbs| == 1 && r.net.stack.pcbs[0].out == [] && Output.Told(r.writes, 0) == buf
  {
    var env := GO.(act := WritePacket, buf := buf);
    var r := WriteStep(s, UmqttConnect, env);
    assert Next(s, Main(env)) == r;
    assert Truncated(buf) == [];
    assert r.writes == [Written(0, buf, false)] && r.writes[..0] == [];
    assert Output.Told(r.writes, 0) == [] + buf;
  }

  // ---- the PCB ----

  /** After a failed tcp_connect the closed PCB still has its argument and error callback. */
  lemma FailedConnectLeavesCallback() returns (ls: seq<Label>)
    ensures var s := Run(2, 0, ls);
            |s.net.stack.pcbs| == 1 && var c := s.net.stack.pcbs[0]; c.releases == 1 && c.arg && c.errCb
  {
    var s0, s1 := OpenFirst();
    var s := Do(Start(1, 0), s0, Main(GO.(outcome := ConnectFails)));
    ls := RunTo(s);
  }

  /** An error reported after lwIP has freed the PCB makes net_ErrorCb use the freed PCB. */
  lemma ErrorOnFreedPcb() returns (ls: seq<Label>)
    ensures Run(2, 0, ls).net.stack.badCalls == 6
  {
    var s0, s1 := OpenFirst();
    var before := RunTo(s1);
    Connection.RunHasInv(2, 0, before);
    Connection.BadCallsOfStep(s1, OnError(0, true));
    var s := Do(Start(1, 0), s1, OnError(0, true));
    ls := RunTo(s);
  }

  /** A connection lost inside a umqtt call makes the next write go to NULL. */
  lemma WriteAfterLoss() returns (ls: seq<Label>)
    ensures var s := Run(2, 0, ls);
            s.net.stack.nullCalls == 1 && s.netWasDisconnected && s.runState == WaitNet
  {
    var s1 := InsideConnect();
    var s2 := Do(Start(1, 0), s1, OnError(0, false));
    assert s2.net.hNet.None? && s2.net.stack.nullCalls == 0;
    var s := Do(Start(1, 0), s2, Main(GO.(act := WritePacket, buf := [7])));
    ls := RunTo(s);
  }

  // ---- the uptime report ----

  /** From the connection to the first test of the report timer. */
  lemma UpToReport(s0: Sys) returns (s: Sys)
    requires s0.pc == InUmqtt(UmqttConnect, Idle) && s0.runState == WaitNet && !s0.netWasDisconnected
    ensures Reaches(s0, s) && s.pc == CheckReport && SameTime(s0, s)
  {
    Stay(s0);
    s := Do(s0, s0, Main(GO));
    s := Do(s0, s, Main(GO));
    s := Do(s0, s, Main(GO));
    assert s.pc == InUmqtt(UmqttRun, Idle);
    s := Do(s0, s, Main(GO));
  }

  /** A tick between reading the minutes and reading the seconds. */
  lemma TearReport(s0: Sys) returns (s: Sys)
    requires s0.pc == CheckReport && s0.tick == 5999 && s0.clocks == At(5999) && s0.reports == []
    requires s0.reportTimer == Armed(0, MS_PER_TICK, REPORT_MS)
    ensures Reaches(s0, s) && s.reports == [UptimeReport(Hms(0, 0, 0), 5999, 5999, 6000)]
  {
    Stay(s0);
    Rearming(s0);
    s := Do(s0, s0, Main(GO));
    s := Do(s0, s, Main(GO));
    Reading(s);
    s := Do(s0, s, Main(GO));
    s := Do(s0, s, Main(GO));
    Tearing(s);
    s := Do(s0, s, OnTick);
    s := Do(s0, s, Main(GO));
  }

  lemma Rearming(s: Sys)
    requires s.pc == CheckReport && TimedOut(s.reportTimer, s.clocks.ticks)
    ensures var r := Next(Next(s, Main(GO)), Main(GO));
            && r.pc == FormatHours && r.tick == s.tick && r.clocks == s.clocks && r.reports == s.reports
  {
    assert Next(s, Main(GO)) == s.(pc := Rearm);
  }

  lemma Reading(s: Sys)
    requires s.pc == FormatHours && s.tick == 5999 && s.clocks == At(5999)
    ensures Next(Next(s, Main(GO)), Main(GO)) == s.(pc := FormatSeconds(0, 0, 5999, 5999))
  {
    assert Next(s, Main(GO)) == s.(pc := FormatMinutes(0, 5999));
  }

  lemma Tearing(s: Sys)
    requires s.pc == FormatSeconds(0, 0, 5999, 5999) && s.tick == 5999 && s.clocks == At(5999) && s.reports == []
    ensures Next(Next(s, OnTick), Main(GO)).reports == [UptimeReport(Hms(0, 0, 0), 5999, 5999, 6000)]
  {
    NextClocks(6000);
    var r := s.(clocks := At(6000), tick := 6000);
    assert Next(s, OnTick) == r;
    assert Next(r, Main(GO)) == FormatSecondsStep(r, 0, 0, 5999, 5999);
  }

  lemma FirstReport() returns (s: Sys)
    ensures Reaches(Start(1, 0), s) && s.pc == CheckReport && s.tick == 0 && s.clocks == At(0) && s.reports == []
    ensures s.reportTimer == Armed(0, MS_PER_TICK, REPORT_MS)
  {
    var s0 := InsideConnect();
    s := UpToReport(s0);
    Join(Start(1, 0), s0, s);
  }

  lemma TornState() returns (s: Sys)
    ensures Reaches(Start(1, 0), s) && s.reports == [UptimeReport(Hms(0, 0, 0), 5999, 5999, 6000)]
  {
    var s1 := FirstReport();
    var s2 := Sleep(s1, 5999);
    assert s2.clocks == At(5999);
    Join(Start(1, 0), s1, s2);
    s := TearReport(s2);
    Join(Start(1, 0), s2, s);
  }

  /** One minute after power-on the uptime is reported as 00:00:00. */
  lemma ReportIsTorn() returns (ls: seq<Label>)
    ensures Run(2, 0, ls).reports == [UptimeReport(Hms(0, 0, 0), 5999, 5999, 6000)]
    ensures UpTime(6000) == 60
  {
    var s := TornState();
    ls := RunTo(s);
  }
}

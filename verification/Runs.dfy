/** Building particular runs, step by step, to show that something can happen. */
module Runs {
  import opened Base
  import opened LwipStack
  import opened NetModel
  import opened McuModel
  import opened SysTick

  const GO: Env := Env(true, ConnectStarts, UmqttOk, Return, true, [], false, true)
  const READ: Env := GO.(act := ReadPacket)

  /** Some run leads from one state to the other. */
  ghost predicate Reaches(s0: Sys, s: Sys) {
    exists ls: seq<Label> :: Exec(s0, ls) == s
  }

  lemma Stay(s: Sys)
    ensures Reaches(s, s)
  {
    assert Exec(s, []) == s;
  }

  lemma Do(s0: Sys, s: Sys, l: Label) returns (s': Sys)
    requires Reaches(s0, s)
    ensures s' == Next(s, l) && Reaches(s0, s')
  {
    var ls :| Exec(s0, ls) == s;
    s' := Next(s, l);
    ExecOne(s0, ls, l);
  }

  /** One run after another. */
  lemma Join(s0: Sys, s1: Sys, s2: Sys)
    requires Reaches(s0, s1) && Reaches(s1, s2)
    ensures Reaches(s0, s2)
  {
    var a :| Exec(s0, a) == s1;
    var b :| Exec(s1, b) == s2;
    ExecAppend(s0, a, b);
  }

  lemma {:induction false} Ticks(s: Sys, k: nat)
    requires s.clocks == At(s.tick)
    ensures Exec(s, seq(k, _ => OnTick)) == s.(clocks := At(s.tick + k), tick := s.tick + k)
  {
    if k != 0 {
      assert seq(k, _ => OnTick)[..k - 1] == seq(k - 1, _ => OnTick);
      Ticks(s, k - 1);
      NextClocks(s.tick + k);
    }
  }

  /** Nothing but tick interrupts for `k` ticks. */
  lemma Sleep(s0: Sys, k: nat) returns (s: Sys)
    requires s0.clocks == At(s0.tick)
    ensures Reaches(s0, s) && s == s0.(clocks := At(s0.tick + k), tick := s0.tick + k)
  {
    s := Exec(s0, seq(k, _ => OnTick));
    Ticks(s0, k);
  }

  lemma OneStep(s: Sys, l: Label)
    ensures Exec(s, [l]) == Next(s, l)
  {
    ExecOne(s, [], l);
    assert [] + [l] == [l];
  }

  /** The runs on both sides of one step. */
  lemma Around(s0: Sys, s1: Sys, l: Label, s2: Sys) returns (before: seq<Label>, after: seq<Label>)
    requires Reaches(s0, s1) && Reaches(Next(s1, l), s2)
    ensures Exec(s0, before) == s1 && Exec(s0, before + ([l] + after)) == s2
  {
    before :| Exec(s0, before) == s1;
    after :| Exec(Next(s1, l), after) == s2;
    OneStep(s1, l);
    ExecAppend(s1, [l], after);
    ExecAppend(s0, before, [l] + after);
  }

  /** The run that ends in a state. */
  lemma RunTo(s: Sys) returns (ls: seq<Label>)
    requires Reaches(Start(1, 0), s)
    ensures Run(2, 0, ls) == s
  {
    ls :| Exec(Start(1, 0), ls) == s;
  }

  /** No time has passed and nothing has been reported. */
  predicate SameTime(s0: Sys, s: Sys) {
    && s.tick == s0.tick && s.clocks == s0.clocks
    && s.reportTimer == s0.reportTimer && s.reports == s0.reports
  }

  /** The loop is about to call net_Connect. */
  predicate Ready(s: Sys) {
    && s.pc == DoConnect && s.runState == WaitIp && !s.netWasDisconnected
    && s.net.hNet.None? && !s.net.isConnected
  }

  /** The loop waits for a connection that has just been made. */
  predicate Opened(s0: Sys, s: Sys) {
    var p := |s0.net.stack.pcbs|;
    && s.pc == Head && s.runState == WaitNet && !s.netWasDisconnected
    && s.net == s0.net.(hNet := Some(p), isConnected := true, stack := s.net.stack, events := s.net.events)
    && s.net.stack == s0.net.stack.(pcbs := s.net.stack.pcbs)
    && s.received == s0.received && s.writes == s0.writes && SameTime(s0, s)
    && |s.net.stack.pcbs| == p + 1
    && s.net.stack.pcbs[p] == NEW_PCB.(arg := true, errCb := true, recvCb := true, pollCb := true, sentCb := true)
  }

  lemma Connecting(s0: Sys)
    requires Ready(s0)
    ensures var s := Next(s0, Main(GO));
            && s.pc == Head && s.runState == WaitNet && !s.netWasDisconnected
            && s.net == s0.net.(hNet := Some(|s0.net.stack.pcbs|), stack := s.net.stack)
            && s.net.stack == s0.net.stack.(pcbs := s0.net.stack.pcbs + [NEW_PCB.(arg := true, errCb := true, connecting := true)])
            && s.received == s0.received && s.writes == s0.writes && SameTime(s0, s)
  {
    assert Next(s0, Main(GO)) == ConnectStep(s0, GO);
  }

  lemma ConnectionMade(s: Sys, p: Pcb)
    requires s.net.hNet == Some(p) && |s.net.stack.pcbs| == p + 1
    requires s.net.stack.pcbs[p] == NEW_PCB.(arg := true, errCb := true, connecting := true)
    ensures var r := Next(s, OnConnected(p));
            && r == s.(net := s.net.(isConnected := true, stack := r.net.stack, events := s.net.events + [NetEvent.Connected]))
            && r.net.stack == s.net.stack.(pcbs := r.net.stack.pcbs) && |r.net.stack.pcbs| == p + 1
            && r.net.stack.pcbs[p] == NEW_PCB.(arg := true, errCb := true, recvCb := true, pollCb := true, sentCb := true)
  {
  }

  lemma Open(s0: Sys) returns (s: Sys)
    requires Ready(s0)
    ensures Reaches(Next(s0, Main(GO)), s) && Opened(s0, s)
  {
    var s1 := Next(s0, Main(GO));
    Connecting(s0);
    ConnectionMade(s1, |s0.net.stack.pcbs|);
    Stay(s1);
    s := Do(s1, s1, OnConnected(|s0.net.stack.pcbs|));
  }

  /** The first connection: `s0` is where net_Connect is called, `s` where it is made. */
  lemma OpenFirst() returns (s0: Sys, s: Sys)
    ensures Reaches(Start(1, 0), s0) && Ready(s0) && s0.net == NetModel.Init(1, EMPTY)
    ensures Reaches(Start(1, 0), s) && Opened(s0, s)
    ensures SameTime(Start(1, 0), s) && s.received == [] && s.writes == []
  {
    var start := Start(1, 0);
    Stay(start);
    s0 := Do(start, start, Main(GO));
    s0 := Do(start, s0, Main(GO));
    assert Ready(s0);
    s := Open(s0);
    var s1 := Do(start, s0, Main(GO));
    Join(start, s1, s);
  }

  /** One packet arrives on the first connection and is queued. */
  lemma Deliver(s0: Sys, s1: Sys, payload: seq<byte>, rest: seq<byte>) returns (s: Sys)
    requires Opened(s0, s1) && s0.net.queue == [] && s0.net.capacity > 0 && s0.net.stack == EMPTY
    requires |payload| + |rest| < U16
    ensures var pb := Pbuf(0, 0, payload, rest);
            && s == s1.(net := s1.net.(queue := [pb], stack := s.net.stack))
            && s.net.stack.arrived == [pb]
            && s.net.stack.pcbs == [s1.net.stack.pcbs[0].(arrived := [pb], accepted := [pb])]
    ensures Reaches(s1, s)
  {
    var pb, c := Pbuf(0, 0, payload, rest), s1.net.stack.pcbs[0];
    assert s1.net.stack.pcbs == [c];
    assert [] + [pb] == [pb] && [pb][1..] == [];
    Stay(s1);
    s := Do(s1, s1, OnArrival(0, payload, rest));
    assert s.net.stack.pcbs[0] == c.(held := [pb], arrived := [pb]);
    assert s.net.stack.pcbs == [c.(held := [pb], arrived := [pb])];
    s := Do(s1, s, OnReceive(0));
    assert s.net.stack.pcbs[0] == c.(arrived := [pb], accepted := [pb]);
    assert s.net.stack.pcbs == [c.(arrived := [pb], accepted := [pb])];
  }

  /** The loop sees the connection and calls umqtt_Connect. */
  lemma EnterConnect(s0: Sys, s1: Sys) returns (s: Sys)
    requires Opened(s0, s1)
    ensures Reaches(s1, s) && s.pc == InUmqtt(UmqttConnect, Idle) && s.runState == WaitNet
    ensures !s.netWasDisconnected && s.net == s1.net && s.writes == s1.writes && SameTime(s1, s)
  {
    Stay(s1);
    s := Do(s1, s1, Main(GO));
    s := Do(s1, s, Main(GO));
  }
}

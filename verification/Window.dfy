/**
 * Flow control: the credit returned to the peer with tcp_recved, against the
 * bytes taken from it.
 */
module Window {
  import opened Base
  import opened LwipStack
  import opened NetModel
  import opened McuModel
  import opened Connection
  import opened DataPath
  import opened Delivery

  /** Bytes of a packet that was read and whose credit is about to be returned. */
  function Unpaid(pc: Pc): nat {
    if pc.InUmqtt? && pc.io.Fetched? then pc.io.pb.Len() else 0
  }

  function ReadBytes(s: Sys): nat {
    |Bytes(Buffers(s.received))|
  }

  /** While `p` is the connection, every byte read since `base` has been credited to it. */
  ghost predicate Ledger(s: Sys, p: Pcb, base: nat) {
    && p < |s.net.stack.pcbs|
    && (s.net.hNet == Some(p) ==> s.net.stack.pcbs[p].credited + Unpaid(s.pc) + base == ReadBytes(s))
  }

  lemma SameLedger(s: Sys, r: Sys, p: Pcb, base: nat)
    requires Ledger(s, p, base) && p < |r.net.stack.pcbs| && r.received == s.received
    requires r.net.hNet == Some(p) ==>
               && s.net.hNet == Some(p)
               && r.net.stack.pcbs[p].credited + Unpaid(r.pc) == s.net.stack.pcbs[p].credited + Unpaid(s.pc)
    ensures Ledger(r, p, base)
  {
  }

  lemma ReadKeepsLedger(s: Sys, c: Call, len: nat, p: Pcb, base: nat)
    requires QueueInv(s) && s.pc == InUmqtt(c, Measured(len)) && Ledger(s, p, base)
    ensures Ledger(ReadStep(s, c, len), p, base)
  {
    ReadQueue(s, c, len);
    var r := ReadStep(s, c, len);
    var pb := s.net.queue[0];
    assert Buffers(r.received) == Buffers(s.received) + [pb];
    BytesAppend(Buffers(s.received), [pb]);
    FullOne(pb);
  }

  lemma TransportKeepsLedger(s: Sys, c: Call, io: Io, env: Env, p: Pcb, base: nat)
    requires Inv(s) && QueueInv(s) && s.pc == InUmqtt(c, io) && Ledger(s, p, base)
    ensures Ledger(TransportStep(s, c, io, env), p, base)
  {
    var r := TransportStep(s, c, io, env);
    if io.Measured? && env.mallocOk {
      ReadKeepsLedger(s, c, io.len, p, base);
    } else {
      SameLedger(s, r, p, base);
    }
    assert Ledger(r, p, base);
  }

  lemma MainKeepsLedger(s: Sys, env: Env, p: Pcb, base: nat)
    requires Inv(s) && QueueInv(s) && Ledger(s, p, base)
    ensures Ledger(MainStep(s, env), p, base)
  {
    var r := MainStep(s, env);
    if InTransport(s, env) {
      assert r == TransportStep(s, s.pc.call, s.pc.io, env);
      TransportKeepsLedger(s, s.pc.call, s.pc.io, env, p, base);
    } else if s.pc == DoConnect {
      assert r == ConnectStep(s, env);
      SameLedger(s, r, p, base);
    } else if s.pc == DoDisconnect {
      assert r == DisconnectStep(s);
      SameLedger(s, r, p, base);
    } else {
      LoopFrame(s, env);
      SameLedger(s, r, p, base);
    }
    assert Ledger(r, p, base);
  }

  lemma ConnectedKeepsCredit(s: Sys, q: Pcb, p: Pcb)
    requires p < |s.net.stack.pcbs|
    ensures ConnectedStep(s, q).net.stack.pcbs[p].credited == s.net.stack.pcbs[p].credited
  {
    if Live(s.net.stack, q) {
      AttachFrame(Established(s, q));
    }
  }

  lemma DeliveryKeepsCredit(s: Sys, l: Label, p: Pcb)
    requires (l.OnArrival? || l.OnReceive? || l.OnGiveUp?) && p < |s.net.stack.pcbs|
    ensures Next(s, l).net.stack.pcbs[p].credited == s.net.stack.pcbs[p].credited
  {
  }

  lemma CallbackKeepsCredit(s: Sys, l: Label, p: Pcb)
    requires !l.Main? && p < |s.net.stack.pcbs| && Next(s, l).net.hNet == Some(p)
    ensures Next(s, l).net.stack.pcbs[p].credited == s.net.stack.pcbs[p].credited
  {
    if l.OnConnected? {
      ConnectedKeepsCredit(s, l.p, p);
    } else if l.OnArrival? || l.OnReceive? || l.OnGiveUp? {
      DeliveryKeepsCredit(s, l, p);
    }
  }

  lemma CallbackKeepsLedger(s: Sys, l: Label, p: Pcb, base: nat)
    requires !l.Main? && Ledger(s, p, base)
    ensures Ledger(Next(s, l), p, base)
  {
    CallbackFrame(s, l);
    var r := Next(s, l);
    if r.net.hNet == Some(p) {
      CallbackKeepsCredit(s, l, p);
    }
    SameLedger(s, r, p, base);
    assert Ledger(r, p, base);
  }

  lemma {:induction false} ExecKeepsLedger(s: Sys, ls: seq<Label>, p: Pcb, base: nat)
    requires Inv(s) && DataInv(s) && Ledger(s, p, base)
    ensures Ledger(Exec(s, ls), p, base)
    decreases |ls|
  {
    if ls != [] {
      var front, l := ls[..|ls| - 1], ls[|ls| - 1];
      var r := Exec(s, front);
      ExecKeepsInv(s, front);
      ExecKeepsData(s, front);
      ExecKeepsLedger(s, front, p, base);
      match l
      case Main(env) => MainKeepsLedger(r, env, p, base);
      case _ => CallbackKeepsLedger(r, l, p, base);
    }
  }

  /**
   * The window of a connection, from the call of net_Connect that opened it until
   * it is dropped: credit returned, credit about to be returned and visible bytes
   * queued add up to the visible bytes accepted on it and those that were left in
   * the queue by earlier connections.
   */
  lemma WindowLedger(size: nat, tick: nat, before: seq<Label>, env: Env, after: seq<Label>)
    requires 2 <= size <= 256
    requires env.outcome == ConnectStarts
    ensures var s0, s := Run(size, tick, before), Run(size, tick, before + ([Main(env)] + after));
            var p := |s0.net.stack.pcbs|;
            s0.pc == DoConnect && Live(s.net.stack, p) ==>
              s.net.stack.pcbs[p].credited + Unpaid(s.pc) + |Bytes(s.net.queue)|
              == |Bytes(s.net.stack.pcbs[p].accepted)| + |Bytes(s0.net.queue)|
  {
    var s0 := Run(size, tick, before);
    RunHasDataInv(size, tick, before);
    ExecAppend(Start(size - 1, tick), before, [Main(env)] + after);
    if s0.pc == DoConnect {
      LedgerOf(s0, env, after);
    }
  }

  lemma LedgerOf(s0: Sys, env: Env, after: seq<Label>)
    requires Inv(s0) && DataInv(s0) && s0.pc == DoConnect && env.outcome == ConnectStarts
    ensures var s := Exec(s0, [Main(env)] + after);
            var p := |s0.net.stack.pcbs|;
            Live(s.net.stack, p) ==>
              s.net.stack.pcbs[p].credited + Unpaid(s.pc) + |Bytes(s.net.queue)|
              == |Bytes(s.net.stack.pcbs[p].accepted)| + |Bytes(s0.net.queue)|
  {
    var p, s1 := |s0.net.stack.pcbs|, MainStep(s0, env);
    MainKeepsInv(s0, env);
    MainKeepsData(s0, env);
    OpenedLedger(s0, env);
    ExecAppend(s0, [Main(env)], after);
    ExecOne(s0, [], Main(env));
    ExecKeepsLedger(s1, after, p, ReadBytes(s0));
    ExecKeepsInv(s1, after);
    ExecKeepsData(s1, after);
    ExecIsLater(s0, [Main(env)] + after);
    var s := Exec(s1, after);
    if Live(s.net.stack, p) {
      LedgerBalance(s0, s, p);
    }
  }

  lemma OpenedLedger(s0: Sys, env: Env)
    requires s0.pc == DoConnect && env.outcome == ConnectStarts
    ensures Ledger(MainStep(s0, env), |s0.net.stack.pcbs|, ReadBytes(s0))
  {
    assert MainStep(s0, env) == ConnectStep(s0, env);
  }

  lemma SameTail<T>(a: seq<T>, x: seq<T>, y: seq<T>)
    requires a + x == a + y
    ensures x == y
  {
    assert x == (a + x)[|a|..] && y == (a + y)[|a|..];
  }

  lemma LedgerBalance(s0: Sys, s: Sys, p: Pcb)
    requires Inv(s0) && QueueInv(s0) && Inv(s) && QueueInv(s) && StreamInv(s.net) && Later(s0, s)
    requires s0.net.hNet.None? && p == |s0.net.stack.pcbs|
    requires s.net.hNet == Some(p) && Ledger(s, p, ReadBytes(s0))
    ensures s.net.stack.pcbs[p].credited + Unpaid(s.pc) + |Bytes(s.net.queue)|
            == |Bytes(s.net.stack.pcbs[p].accepted)| + |Bytes(s0.net.queue)|
  {
    var tail := StreamContinues(s0, s);
    var acc := s.net.stack.pcbs[p].accepted;
    AcceptedSame(s.net.stack.pcbs[..p], s0.net.stack.pcbs);
    assert AllAccepted(s.net.stack.pcbs) == AllAccepted(s0.net.stack.pcbs) + acc;
    SameTail(AllAccepted(s0.net.stack.pcbs), tail, acc);
    BytesAppend(Buffers(s.received), s.net.queue);
    BytesAppend(Buffers(s0.received) + s0.net.queue, acc);
    BytesAppend(Buffers(s0.received), s0.net.queue);
  }

  /**
   * With everything read, the window is back to what the peer was given exactly
   * when the bytes hidden in chained buffers are as many as those left over from
   * earlier connections; for unchained buffers, exactly when nothing was left over.
   */
  lemma WindowIsRestoredIff(size: nat, tick: nat, before: seq<Label>, env: Env, after: seq<Label>)
    requires 2 <= size <= 256
    requires env.outcome == ConnectStarts
    ensures var s0, s := Run(size, tick, before), Run(size, tick, before + ([Main(env)] + after));
            var p := |s0.net.stack.pcbs|;
            s0.pc == DoConnect && Live(s.net.stack, p) && s.net.queue == [] && Unpaid(s.pc) == 0 ==>
              var c := s.net.stack.pcbs[p];
              && (c.credited == |Full(c.accepted)| <==> |Full(c.accepted)| - |Bytes(c.accepted)| == |Bytes(s0.net.queue)|)
              && (Unchained(c.accepted) ==> (c.credited == |Full(c.accepted)| <==> Bytes(s0.net.queue) == []))
  {
    WindowLedger(size, tick, before, env, after);
    var s0, s := Run(size, tick, before), Run(size, tick, before + ([Main(env)] + after));
    var p := |s0.net.stack.pcbs|;
    if Live(s.net.stack, p) {
      BytesAreFullIff(s.net.stack.pcbs[p].accepted);
    }
  }
}

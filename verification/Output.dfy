/** The way of the sent data: from netWritePacket to the output stream of the connection. */
module Output {
  import opened Base
  import opened LwipStack
  import opened NetModel
  import opened McuModel
  import opened Connection

  /** What the writes on PCB `p` that were reported as successful put into TCP ... */
  function Sent(ws: seq<Written>, p: Pcb): seq<byte> {
    if ws == [] then []
    else Sent(ws[..|ws| - 1], p) + if ws[|ws| - 1].pcb == p then Truncated(ws[|ws| - 1].buf) else []
  }

  /** ... and what the caller was told they had put there. */
  function Told(ws: seq<Written>, p: Pcb): seq<byte> {
    if ws == [] then []
    else Told(ws[..|ws| - 1], p) + if ws[|ws| - 1].pcb == p then ws[|ws| - 1].buf else []
  }

  predicate Short(ws: seq<Written>, p: Pcb) {
    forall i :: 0 <= i < |ws| && ws[i].pcb == p ==> |ws[i].buf| < 65536
  }

  lemma {:induction false} SentIsToldIff(ws: seq<Written>, p: Pcb)
    ensures |Sent(ws, p)| <= |Told(ws, p)|
    ensures |Sent(ws, p)| == |Told(ws, p)| <==> Short(ws, p)
    ensures Short(ws, p) ==> Sent(ws, p) == Told(ws, p)
  {
    if ws != [] {
      var front, w := ws[..|ws| - 1], ws[|ws| - 1];
      SentIsToldIff(front, p);
      assert Short(ws, p) <==> Short(front, p) && (w.pcb == p ==> |w.buf| < U16);
      assert |Truncated(w.buf)| == |w.buf| % U16;
    }
  }

  ghost predicate OutInv(s: Sys) {
    var pcbs := s.net.stack.pcbs;
    && (forall i :: 0 <= i < |s.writes| ==> s.writes[i].pcb < |pcbs|)
    && (forall p :: 0 <= p < |pcbs| ==> pcbs[p].out == Sent(s.writes, p))
  }

  /** After a last write without more to come, nothing waits unsent. */
  ghost predicate FlushInv(s: Sys) {
    s.writes != [] && !s.writes[|s.writes| - 1].more && !(s.pc.InUmqtt? && s.pc.io.Unflushed?) ==>
      var p := s.writes[|s.writes| - 1].pcb;
      Live(s.net.stack, p) ==> s.net.stack.pcbs[p].flushed == |s.net.stack.pcbs[p].out|
  }

  lemma {:induction false} NoneSent(ws: seq<Written>, p: Pcb)
    requires forall i :: 0 <= i < |ws| ==> ws[i].pcb != p
    ensures Sent(ws, p) == []
  {
    if ws != [] {
      NoneSent(ws[..|ws| - 1], p);
    }
  }

  ghost predicate SameOut(a: Stack, b: Stack) {
    && |a.pcbs| == |b.pcbs|
    && forall p :: 0 <= p < |a.pcbs| ==>
         a.pcbs[p].out == b.pcbs[p].out && a.pcbs[p].flushed == b.pcbs[p].flushed
         && (Live(b, p) ==> Live(a, p))
  }

  lemma SameOutKeeps(s: Sys, r: Sys)
    requires OutInv(s) && FlushInv(s) && SameOut(s.net.stack, r.net.stack) && r.writes == s.writes
    requires s.pc.InUmqtt? && s.pc.io.Unflushed? ==> r.pc.InUmqtt? && r.pc.io.Unflushed?
    ensures OutInv(r) && FlushInv(r)
  {
  }

  lemma DropKeepsOut(n: Net)
    ensures SameOut(n.stack, Drop(n).stack)
  {
    DetachKeepsOut(n.stack, n.hNet);
  }

  lemma DetachKeepsOut(st: Stack, h: Option<Pcb>)
    ensures SameOut(st, Detach(st, h))
  {
  }

  lemma ReclaimKeepsOut(st: Stack, p: Pcb)
    ensures SameOut(st, Reclaim(st, p))
  {
    DetachKeepsOut(st, Some(p));
  }

  lemma ErrorKeepsOut(s: Sys, p: Pcb, freed: bool)
    ensures SameOut(s.net.stack, ErrorStep(s, p, freed).net.stack)
  {
    if ErrorEnabled(s, p) {
      var n := if freed then s.net.(stack := Reclaim(s.net.stack, p)) else s.net;
      ReclaimKeepsOut(s.net.stack, p);
      DropKeepsOut(n);
      assert ErrorStep(s, p, freed).net.stack == Drop(n).stack;
    }
  }

  lemma AttachKeepsOut(n: Net)
    ensures SameOut(n.stack, ConnectedCb(n).stack)
  {
  }

  lemma WriteKeepsOut(s: Sys, c: Call, env: Env)
    requires Inv(s) && OutInv(s) && FlushInv(s) && s.pc == InUmqtt(c, Idle)
    ensures OutInv(WriteStep(s, c, env)) && FlushInv(WriteStep(s, c, env))
  {
    var r := WriteStep(s, c, env);
    if r.writes != s.writes {
      assert r.writes[..|s.writes|] == s.writes;
    }
  }

  lemma FlushKeepsOut(s: Sys, c: Call)
    requires Inv(s) && OutInv(s) && s.pc == InUmqtt(c, Unflushed)
    requires s.writes != [] && (s.net.hNet.Some? ==> s.writes[|s.writes| - 1].pcb == s.net.hNet.value)
    ensures var r := TransportStep(s, c, Unflushed, ENV);
            OutInv(r) && FlushInv(r)
  {
  }

  /** Between tcp_write and tcp_output the last write is the one to be flushed. */
  ghost predicate PendingInv(s: Sys) {
    s.pc.InUmqtt? && s.pc.io.Unflushed? ==>
      s.writes != [] && (s.net.hNet.Some? ==> s.writes[|s.writes| - 1].pcb == s.net.hNet.value)
  }

  ghost predicate OutputInv(s: Sys) {
    OutInv(s) && FlushInv(s) && PendingInv(s)
  }

  lemma TransportKeepsOut(s: Sys, c: Call, io: Io, env: Env)
    requires Inv(s) && OutputInv(s) && s.pc == InUmqtt(c, io)
    ensures OutputInv(TransportStep(s, c, io, env))
  {
    var r := TransportStep(s, c, io, env);
    if io == Idle && env.act == WritePacket {
      WriteKeepsOut(s, c, env);
    } else if io == Unflushed {
      FlushKeepsOut(s, c);
    } else {
      SameOutKeeps(s, r);
    }
    assert OutputInv(r);
  }

  lemma ConnectKeepsOut(s: Sys, env: Env)
    requires Inv(s) && OutputInv(s) && s.pc == DoConnect
    ensures OutputInv(ConnectStep(s, env))
  {
    var r := ConnectStep(s, env);
    if env.outcome == NoPcb {
      SameOutKeeps(s, r);
    } else {
      var p := |s.net.stack.pcbs|;
      NoneSent(s.writes, p);
      assert r.net.stack.pcbs == s.net.stack.pcbs + [r.net.stack.pcbs[p]];
    }
  }

  lemma MainKeepsOut(s: Sys, env: Env)
    requires Inv(s) && OutputInv(s)
    ensures OutputInv(MainStep(s, env))
  {
    var r := MainStep(s, env);
    if InTransport(s, env) {
      assert r == TransportStep(s, s.pc.call, s.pc.io, env);
      TransportKeepsOut(s, s.pc.call, s.pc.io, env);
    } else if s.pc == DoConnect {
      assert r == ConnectStep(s, env);
      ConnectKeepsOut(s, env);
    } else if s.pc == DoDisconnect {
      assert r == DisconnectStep(s);
      DropKeepsOut(s.net);
      SameOutKeeps(s, r);
    } else {
      LoopFrame(s, env);
      SameOutKeeps(s, r);
    }
    assert OutputInv(r);
  }

  lemma CallbackSameOut(s: Sys, l: Label)
    requires !l.Main?
    ensures SameOut(s.net.stack, Next(s, l).net.stack)
  {
    if Next(s, l) != s {
      match l
      case OnError(p, freed) => ErrorKeepsOut(s, p, freed);
      case OnPeerClose(_) => DropKeepsOut(s.net);
      case OnConnected(p) =>
        AttachKeepsOut(Established(s, p));
      case _ =>
    }
  }

  lemma CallbackKeepsOut(s: Sys, l: Label)
    requires OutputInv(s) && !l.Main?
    ensures OutputInv(Next(s, l))
  {
    var r := Next(s, l);
    CallbackFrame(s, l);
    CallbackSameOut(s, l);
    SameOutKeeps(s, r);
    assert OutputInv(r);
  }

  lemma {:induction false} RunHasOutputInv(size: nat, tick: nat, ls: seq<Label>)
    requires 2 <= size <= 256
    ensures Inv(Run(size, tick, ls)) && OutputInv(Run(size, tick, ls))
    decreases |ls|
  {
    RunHasInv(size, tick, ls);
    if ls != [] {
      var front, l := ls[..|ls| - 1], ls[|ls| - 1];
      RunHasOutputInv(size, tick, front);
      var s := Run(size, tick, front);
      match l
      case Main(env) => MainKeepsOut(s, env);
      case _ => CallbackKeepsOut(s, l);
    }
  }

  /** The length of what was put into TCP: each write counts modulo 2^16. */
  function SentLength(ws: seq<Written>, p: Pcb): nat {
    if ws == [] then 0
    else SentLength(ws[..|ws| - 1], p) + if ws[|ws| - 1].pcb == p then |ws[|ws| - 1].buf| % 65536 else 0
  }

  lemma {:induction false} SentHasLength(ws: seq<Written>, p: Pcb)
    ensures |Sent(ws, p)| == SentLength(ws, p)
  {
    if ws != [] {
      SentHasLength(ws[..|ws| - 1], p);
    }
  }

  /**
   * The output stream of every connection, live or gone, is the concatenation of
   * the buffers reported as written on it exactly when each was shorter than
   * 65536 bytes; what is longer is truncated, to its length modulo 65536, although
   * its full length is reported.
   */
  lemma OutputIsExactIff(size: nat, tick: nat, ls: seq<Label>, p: Pcb)
    requires 2 <= size <= 256
    ensures var s := Run(size, tick, ls);
            p < |s.net.stack.pcbs| ==>
              && (s.net.stack.pcbs[p].out == Told(s.writes, p) <==> Short(s.writes, p))
              && |s.net.stack.pcbs[p].out| == SentLength(s.writes, p)
  {
    SentHasLength(Run(size, tick, ls).writes, p);
    RunHasOutputInv(size, tick, ls);
    SentIsToldIff(Run(size, tick, ls).writes, p);
  }

  /** Once a write without more to come has returned, nothing is left unflushed on its connection. */
  lemma LastWriteIsFlushed(size: nat, tick: nat, ls: seq<Label>)
    requires 2 <= size <= 256
    ensures var s := Run(size, tick, ls);
            s.writes != [] && !s.writes[|s.writes| - 1].more && !(s.pc.InUmqtt? && s.pc.io == Unflushed) ==>
              var p := s.writes[|s.writes| - 1].pcb;
              Live(s.net.stack, p) ==> s.net.stack.pcbs[p].flushed == |s.net.stack.pcbs[p].out|
  {
    RunHasOutputInv(size, tick, ls);
  }
}

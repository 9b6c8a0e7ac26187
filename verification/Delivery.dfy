/**
 * What the application can rely on about received data, over whole runs.
 */
module Delivery {
  import opened Base
  import opened LwipStack
  import opened NetModel
  import opened McuModel
  import opened Connection
  import opened DataPath

  /** The bytes handed to umqtt by all successful reads so far. */
  function Data(rs: seq<Read>): seq<byte> {
    if rs == [] then [] else Data(rs[..|rs| - 1]) + rs[|rs| - 1].data
  }

  lemma {:induction false} DataIsBytes(rs: seq<Read>)
    requires forall i :: 0 <= i < |rs| ==> rs[i].data == rs[i].pb.payload
    ensures Data(rs) == Bytes(Buffers(rs))
  {
    if rs != [] {
      DataIsBytes(rs[..|rs| - 1]);
      assert Buffers(rs)[..|rs| - 1] == Buffers(rs[..|rs| - 1]);
    }
  }

  // ---- the stream, end to end ----

  /**
   * On a live connection: what the application has read, what is queued and what
   * lwIP still holds make up, in order, what was accepted on earlier connections
   * followed by everything the peer has sent on this one -- through back-pressure,
   * index wraparound, failed allocations and reconnects -- exactly when lwIP has
   * thrown nothing away and no buffer of this connection is chained.
   */
  lemma StreamIsExactIff(size: nat, tick: nat, ls: seq<Label>, p: Pcb)
    requires 2 <= size <= 256
    ensures var s := Run(size, tick, ls);
            Live(s.net.stack, p) ==>
              var c := s.net.stack.pcbs[p];
              (Data(s.received) + Bytes(s.net.queue) + Bytes(c.held)
                 == Bytes(AllAccepted(s.net.stack.pcbs[..p])) + Full(c.arrived)
               <==> Full(c.gaveUp) == [] && Unchained(c.accepted) && Unchained(c.held))
  {
    var s := Run(size, tick, ls);
    RunHasDataInv(size, tick, ls);
    if Live(s.net.stack, p) {
      var c := s.net.stack.pcbs[p];
      ReadAndQueued(s, p);
      CancelPrefix(Bytes(AllAccepted(s.net.stack.pcbs[..p])), Bytes(c.accepted), Bytes(c.held), Full(c.arrived));
      LiveStreamIff(c, p);
    }
  }

  lemma ReadAndQueued(s: Sys, p: Pcb)
    requires QueueInv(s) && p + 1 == |s.net.stack.pcbs|
    ensures Data(s.received) + Bytes(s.net.queue)
            == Bytes(AllAccepted(s.net.stack.pcbs[..p])) + Bytes(s.net.stack.pcbs[p].accepted)
  {
    DataIsBytes(s.received);
    BytesAppend(Buffers(s.received), s.net.queue);
    BytesAppend(AllAccepted(s.net.stack.pcbs[..p]), s.net.stack.pcbs[p].accepted);
  }

  lemma CancelPrefix<T>(e: seq<T>, a: seq<T>, h: seq<T>, x: seq<T>)
    ensures e + a + h == e + x <==> a + h == x
  {
    assert (e + a + h)[|e|..] == a + h && (e + x)[|e|..] == x;
  }

  lemma LiveStreamIff(c: PcbState, p: Pcb)
    requires PcbStream(c, p) && c.releases == 0
    ensures Bytes(c.accepted) + Bytes(c.held) == Full(c.arrived)
            <==> Full(c.gaveUp) == [] && Unchained(c.accepted) && Unchained(c.held)
  {
    BytesAreFullIff(c.accepted);
    BytesAreFullIff(c.held);
    assert Full(c.discarded) == [];
    if Bytes(c.accepted) + Bytes(c.held) == Full(c.arrived) {
      assert |Bytes(c.accepted)| + |Bytes(c.held)| == |Full(c.arrived)|;
      assert |Full(c.gaveUp)| == 0;
    }
  }

  // ---- the two-step read ----

  lemma CallbackKeepsHead(s: Sys, l: Label)
    requires !l.Main?
    ensures Next(s, l).pc == s.pc && Next(s, l).received == s.received && s.net.queue <= Next(s, l).net.queue
  {
  }

  lemma {:induction false} CallbacksKeepHead(s: Sys, irqs: seq<Label>)
    requires forall l :: l in irqs ==> !l.Main?
    ensures var r := Exec(s, irqs);
            r.pc == s.pc && r.received == s.received && s.net.queue <= r.net.queue
    decreases |irqs|
  {
    if irqs != [] {
      var front := irqs[..|irqs| - 1];
      CallbacksKeepHead(s, front);
      CallbackKeepsHead(Exec(s, front), irqs[|irqs| - 1]);
    }
  }

  /**
   * netReadPacket measures a packet in one critical section and takes it in
   * another.  Whatever callbacks and ticks come between, it takes the packet it
   * measured, whole, into a buffer of exactly its size.
   */
  lemma MeasuredPacketIsRead(size: nat, tick: nat, before: seq<Label>, irqs: seq<Label>, env: Env)
    requires 2 <= size <= 256
    requires forall l :: l in irqs ==> !l.Main?
    requires var s := Run(size, tick, before); s.pc.InUmqtt? && s.pc.io.Measured?
    requires env.mallocOk
    ensures var s := Run(size, tick, before);
            var r := Run(size, tick, before + irqs + [Main(env)]);
            && s.net.queue != []
            && r.received == s.received + [Read(s.pc.io.len, s.net.queue[0], s.net.queue[0].payload)]
            && |s.net.queue[0].payload| == s.pc.io.len
            && r.pc == InUmqtt(s.pc.call, Fetched(s.net.queue[0]))
  {
    var s := Run(size, tick, before);
    var start := Start(size - 1, tick);
    RunHasDataInv(size, tick, before);
    CallbacksKeepHead(s, irqs);
    ExecAppend(start, before, irqs);
    ExecOne(start, before + irqs, Main(env));
    ExecKeepsInv(s, irqs);
    ExecKeepsData(s, irqs);
    ReadQueue(Exec(s, irqs), s.pc.call, s.pc.io.len);
  }

  /** What netReadPacket does in state `s` with its first critical section, callbacks, and its second. */
  function ReadAttempt(s: Sys, ask: Env, irqs: seq<Label>, take: Env): Sys {
    Next(Exec(Next(s, Main(ask)), irqs), Main(take))
  }

  lemma AttemptReads(s: Sys, ask: Env, irqs: seq<Label>, take: Env)
    requires s.pc.InUmqtt? && s.pc.io == Idle && ask.act == ReadPacket
    requires forall l :: l in irqs ==> !l.Main?
    ensures var q, r := s.net.queue, ReadAttempt(s, ask, irqs, take);
            if q != [] && q[0].payload != [] && take.mallocOk then
              r.received == s.received + [Read(q[0].Len(), q[0], q[0].payload)]
            else
              r.received == s.received && q <= r.net.queue
  {
    var s1 := Next(s, Main(ask));
    var s2 := Exec(s1, irqs);
    CallbacksKeepHead(s1, irqs);
    var q := s.net.queue;
    if q != [] && q[0].payload != [] {
      var len := q[0].Len();
      assert s2.pc == InUmqtt(s.pc.call, Measured(len)) && s2.net.queue[0] == q[0];
      assert Copied(q[0], len) == q[0].payload;
      assert Next(s2, Main(take)) == TransportStep(s2, s.pc.call, Measured(len), take);
    } else {
      assert s2.pc == s.pc;
      IdleReadsNothing(s2, take);
    }
  }

  lemma IdleReadsNothing(s: Sys, env: Env)
    requires s.pc.InUmqtt? && s.pc.io == Idle
    ensures Next(s, Main(env)).received == s.received && Next(s, Main(env)).net.queue == s.net.queue
  {
  }

  /**
   * In every reachable state an attempt of umqtt to read a packet succeeds, and
   * then yields the oldest queued packet, exactly when memory can be allocated and
   * that packet has a byte in its first segment -- whatever callbacks come between.
   */
  lemma PacketIsReadIff(size: nat, tick: nat, before: seq<Label>, ask: Env, irqs: seq<Label>, take: Env)
    requires 2 <= size <= 256
    requires forall l :: l in irqs ==> !l.Main?
    requires ask.act == ReadPacket
    requires var s := Run(size, tick, before); s.pc.InUmqtt? && s.pc.io == Idle
    ensures var s, r := Run(size, tick, before), Run(size, tick, before + ([Main(ask)] + irqs + [Main(take)]));
            var q := s.net.queue;
            && (r.received != s.received <==> q != [] && q[0].payload != [] && take.mallocOk)
            && (r.received != s.received ==> r.received == s.received + [Read(q[0].Len(), q[0], q[0].payload)])
            && (r.received == s.received ==> q <= r.net.queue)
  {
    var s := Run(size, tick, before);
    AttemptReads(s, ask, irqs, take);
    AttemptLabels(s, ask, irqs, take);
    ExecAppend(Start(size - 1, tick), before, [Main(ask)] + irqs + [Main(take)]);
  }

  lemma AttemptLabels(s: Sys, ask: Env, irqs: seq<Label>, take: Env)
    ensures Exec(s, [Main(ask)] + irqs + [Main(take)]) == ReadAttempt(s, ask, irqs, take)
  {
    ExecOne(s, [Main(ask)] + irqs, Main(take));
    ExecAppend(s, [Main(ask)], irqs);
    ExecOne(s, [], Main(ask));
    assert [] + [Main(ask)] == [Main(ask)];
  }

  // ---- a packet of length zero ----

  lemma TransportLeavesZero(s: Sys, c: Call, io: Io, env: Env)
    requires QueueInv(s) && s.pc == InUmqtt(c, io) && s.net.queue != [] && s.net.queue[0].payload == []
    ensures TransportStep(s, c, io, env).received == s.received && TransportStep(s, c, io, env).net.queue == s.net.queue
  {
  }

  lemma ZeroStep(s: Sys, l: Label)
    requires Inv(s) && DataInv(s) && s.net.queue != [] && s.net.queue[0].payload == []
    ensures Next(s, l).received == s.received && s.net.queue <= Next(s, l).net.queue
  {
    var r := Next(s, l);
    if !l.Main? {
      CallbackKeepsHead(s, l);
    } else if InTransport(s, l.env) {
      TransportLeavesZero(s, s.pc.call, s.pc.io, l.env);
    } else if s.pc != DoConnect && s.pc != DoDisconnect {
      LoopFrame(s, l.env);
    }
    assert r.received == s.received && s.net.queue <= r.net.queue;
  }

  lemma {:induction false} ZeroSteps(s: Sys, ls: seq<Label>)
    requires Inv(s) && DataInv(s) && s.net.queue != [] && s.net.queue[0].payload == []
    ensures Exec(s, ls).received == s.received && s.net.queue <= Exec(s, ls).net.queue
    decreases |ls|
  {
    if ls != [] {
      var front := ls[..|ls| - 1];
      ZeroSteps(s, front);
      ExecKeepsInv(s, front);
      ExecKeepsData(s, front);
      ZeroStep(Exec(s, front), ls[|ls| - 1]);
    }
  }

  /**
   * net_GetReadLen answers 0 both for an empty queue and for a packet without
   * bytes.  Such a packet at the head is therefore never taken: from then on
   * nothing is read any more, whatever happens.
   */
  lemma ZeroLengthPacketBlocksReading(size: nat, tick: nat, before: seq<Label>, after: seq<Label>)
    requires 2 <= size <= 256
    ensures var s, r := Run(size, tick, before), Run(size, tick, before + after);
            s.net.queue != [] && s.net.queue[0].payload == [] ==>
              r.received == s.received && s.net.queue <= r.net.queue
  {
    var s := Run(size, tick, before);
    RunHasDataInv(size, tick, before);
    ExecAppend(Start(size - 1, tick), before, after);
    if s.net.queue != [] && s.net.queue[0].payload == [] {
      ZeroSteps(s, after);
    }
  }

  // ---- ownership ----

  lemma {:induction false} DistinctOnce(pbs: seq<Pbuf>, k: nat)
    requires k < |pbs| && forall i :: 0 <= i < |pbs| ==> pbs[i].id == i
    ensures multiset(pbs)[pbs[k]] == 1
  {
    var n := |pbs| - 1;
    var front := pbs[..n];
    assert pbs == front + [pbs[n]];
    if k < n {
      DistinctOnce(front, k);
      assert front[k] == pbs[k];
    } else {
      assert pbs[n] !in front;
    }
  }

  /**
   * Every packet buffer that ever arrived is at all times in exactly one place,
   * once: held by lwIP, in the queue, in the hands of netReadPacket, or freed.
   */
  lemma PbufHasOneOwner(size: nat, tick: nat, ls: seq<Label>, i: nat)
    requires 2 <= size <= 256
    requires i < |Run(size, tick, ls).net.stack.arrived|
    ensures var s := Run(size, tick, ls);
            var pb := s.net.stack.arrived[i];
            multiset(HeldNow(s.net))[pb] + multiset(s.net.queue)[pb] + multiset(InHand(s.pc))[pb]
            + multiset(s.net.stack.freed)[pb] == 1
  {
    RunHasDataInv(size, tick, ls);
    var s := Run(size, tick, ls);
    DistinctOnce(s.net.stack.arrived, i);
    assert multiset(s.net.stack.arrived)[s.net.stack.arrived[i]] == 1;
  }

  // ---- reconnecting with packets left in the queue ----

  /** What a later state keeps of an earlier one. */
  ghost predicate Later(s0: Sys, s: Sys) {
    && s.net.capacity == s0.net.capacity
    && s0.received <= s.received
    && |s0.net.stack.pcbs| <= |s.net.stack.pcbs|
    && forall q :: 0 <= q < |s0.net.stack.pcbs| && s0.net.stack.pcbs[q].releases > 0 ==>
         s.net.stack.pcbs[q].releases > 0 && s.net.stack.pcbs[q].accepted == s0.net.stack.pcbs[q].accepted
  }

  lemma SameDataIsLater(s: Sys, r: Sys)
    requires SameData(s.net.stack, r.net.stack) && r.net.capacity == s.net.capacity && s.received <= r.received
    ensures Later(s, r)
  {
  }

  lemma TransportIsLater(s: Sys, c: Call, io: Io, env: Env)
    requires s.pc == InUmqtt(c, io)
    ensures Later(s, TransportStep(s, c, io, env))
  {
    if !io.Measured? && !io.Paid? {
      TransferStepSame(s, c, io, env);
      SameDataIsLater(s, TransportStep(s, c, io, env));
    }
  }

  lemma DropIsLater(s: Sys, r: Sys)
    requires Inv(s) && r.net.stack.pcbs == Drop(s.net).stack.pcbs
    requires r.net.capacity == s.net.capacity && r.received == s.received
    ensures Later(s, r)
  {
    DetachKeepsData(s.net.stack, s.net.hNet);
  }

  lemma MainIsLater(s: Sys, env: Env)
    requires Inv(s)
    ensures Later(s, MainStep(s, env))
  {
    var r := MainStep(s, env);
    if s.pc == DoConnect {
      assert r == ConnectStep(s, env);
    } else if s.pc == DoDisconnect {
      assert r == DisconnectStep(s);
      DropIsLater(s, r);
    } else if InTransport(s, env) {
      assert r == TransportStep(s, s.pc.call, s.pc.io, env);
      TransportIsLater(s, s.pc.call, s.pc.io, env);
    } else {
      LoopFrame(s, env);
      SameDataIsLater(s, r);
    }
    assert Later(s, r);
  }

  lemma LwipIsLater(s: Sys, l: Label)
    requires Inv(s) && (l.OnTick? || l.OnArrival? || l.OnReceive? || l.OnGiveUp? || l.OnPoll?)
    ensures Later(s, Next(s, l))
  {
  }

  lemma CallbackIsLater(s: Sys, l: Label)
    requires Inv(s) && !l.Main?
    ensures Later(s, Next(s, l))
  {
    var r := Next(s, l);
    if l.OnError? || l.OnPeerClose? {
      if l.OnError? && ErrorEnabled(s, l.p) {
        ErrorIsDrop(s, l.p, l.freed);
      }
      if r != s {
        DropIsLater(s, r);
      }
    } else if l.OnConnected? {
      ConnectedSameData(s, l.p);
      CallbackFrame(s, l);
      SameDataIsLater(s, r);
    } else {
      LwipIsLater(s, l);
    }
    assert Later(s, r);
  }

  lemma {:induction false} ExecIsLater(s: Sys, ls: seq<Label>)
    requires Inv(s)
    ensures Later(s, Exec(s, ls))
    decreases |ls|
  {
    if ls != [] {
      var front, l := ls[..|ls| - 1], ls[|ls| - 1];
      var r := Exec(s, front);
      ExecIsLater(s, front);
      ExecKeepsInv(s, front);
      match l
      case Main(env) => MainIsLater(r, env);
      case _ => CallbackIsLater(r, l);
    }
  }

  lemma {:induction false} AcceptedSplit(pcbs: seq<PcbState>, p: nat) returns (tail: seq<Pbuf>)
    requires p <= |pcbs|
    requires forall q :: 0 <= q < |pcbs| ==> AllFrom(pcbs[q].accepted, q)
    ensures AllAccepted(pcbs) == AllAccepted(pcbs[..p]) + tail
    ensures forall i :: 0 <= i < |tail| ==> tail[i].conn >= p
    decreases |pcbs|
  {
    if p == |pcbs| {
      assert pcbs[..p] == pcbs;
      tail := [];
    } else {
      var n := |pcbs| - 1;
      tail := AcceptedSplit(pcbs[..n], p);
      assert pcbs[..n][..p] == pcbs[..p];
      tail := tail + pcbs[n].accepted;
    }
  }

  /**
   * The queue survives a disconnect.  After the next net_Connect the packets left
   * in it, at most size - 1, are read first and in order; everything read after
   * them belongs to the new connection or a later one.
   */
  lemma LeftoversAreReadFirst(size: nat, tick: nat, before: seq<Label>, after: seq<Label>, i: nat)
    requires 2 <= size <= 256
    ensures var s0, s := Run(size, tick, before), Run(size, tick, before + after);
            s0.pc == DoConnect && |s0.received| <= i < |s.received| ==> |s0.net.queue| <= size - 1 && ReadAfter(s0, s, i)
  {
    var s0 := Run(size, tick, before);
    RunHasDataInv(size, tick, before);
    ExecIsLater(Start(size - 1, tick), before);
    ExecAppend(Start(size - 1, tick), before, after);
    if s0.pc == DoConnect {
      LeftoversOf(s0, after, i);
    }
  }

  /** Read number `i` got what was left over at `s0` while that lasted, and then only newer packets. */
  predicate ReadAfter(s0: Sys, s: Sys, i: nat)
    requires |s0.received| <= i < |s.received|
  {
    var k := i - |s0.received|;
    && (k < |s0.net.queue| ==> s.received[i].pb == s0.net.queue[k])
    && (k >= |s0.net.queue| ==> s.received[i].pb.conn >= |s0.net.stack.pcbs|)
  }

  lemma LeftoversOf(s0: Sys, after: seq<Label>, i: nat)
    requires Inv(s0) && DataInv(s0) && s0.pc == DoConnect
    ensures var s := Exec(s0, after);
            |s0.received| <= i < |s.received| ==> ReadAfter(s0, s, i)
  {
    var s := Exec(s0, after);
    ExecIsLater(s0, after);
    ExecKeepsData(s0, after);
    if |s0.received| <= i < |s.received| {
      LeftoversBetween(s0, s, i);
    }
  }

  lemma ConcatAt<T>(a: seq<T>, q: seq<T>, tail: seq<T>, r: seq<T>, rest: seq<T>, i: nat)
    requires r + rest == a + q + tail && |a| <= i < |r|
    ensures i - |a| < |q| ==> r[i] == q[i - |a|]
    ensures i - |a| >= |q| ==> r[i] in tail
  {
    assert r[i] == (a + q + tail)[i];
  }

  /** Everything read or queued now continues what was read or queued before the connection was opened. */
  lemma StreamContinues(s0: Sys, s: Sys) returns (tail: seq<Pbuf>)
    requires Inv(s0) && QueueInv(s0) && QueueInv(s) && StreamInv(s.net) && Later(s0, s) && s0.net.hNet.None?
    ensures AllAccepted(s.net.stack.pcbs) == AllAccepted(s0.net.stack.pcbs) + tail
    ensures Buffers(s.received) + s.net.queue == Buffers(s0.received) + s0.net.queue + tail
    ensures forall i :: 0 <= i < |tail| ==> tail[i].conn >= |s0.net.stack.pcbs|
  {
    var p := |s0.net.stack.pcbs|;
    forall q | 0 <= q < |s.net.stack.pcbs|
      ensures AllFrom(s.net.stack.pcbs[q].accepted, q)
    {
      assert PcbStream(s.net.stack.pcbs[q], q);
    }
    tail := AcceptedSplit(s.net.stack.pcbs, p);
    AcceptedSame(s.net.stack.pcbs[..p], s0.net.stack.pcbs);
  }

  lemma LeftoversBetween(s0: Sys, s: Sys, i: nat)
    requires Inv(s0) && QueueInv(s0) && QueueInv(s) && StreamInv(s.net) && Later(s0, s) && s0.net.hNet.None?
    requires |s0.received| <= i < |s.received|
    ensures ReadAfter(s0, s, i)
  {
    var tail := StreamContinues(s0, s);
    var a, q, r := Buffers(s0.received), s0.net.queue, Buffers(s.received);
    assert r[i] == s.received[i].pb;
    assert (i - |a| < |q| ==> r[i] == q[i - |a|]) && (i - |a| >= |q| ==> r[i] in tail) by {
      ConcatAt(a, q, tail, r, s.net.queue, i);
    }
  }
}

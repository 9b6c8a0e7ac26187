/**
 * The way of the received data: from the peer through lwIP, the client's queue
 * and netReadPacket to the application, in every interleaving of callbacks,
 * reads, disconnects and reconnects.
 */
module DataPath {
  import opened Base
  import opened LwipStack
  import opened NetModel
  import opened McuModel
  import opened Connection

  // ---- sequences of packet buffers ----

  /** The bytes the application can see, and all bytes including those behind the first segment. */
  function Bytes(pbs: seq<Pbuf>): seq<byte> {
    if pbs == [] then [] else Bytes(pbs[..|pbs| - 1]) + pbs[|pbs| - 1].payload
  }

  function Full(pbs: seq<Pbuf>): seq<byte> {
    if pbs == [] then [] else Full(pbs[..|pbs| - 1]) + (pbs[|pbs| - 1].payload + pbs[|pbs| - 1].rest)
  }

  predicate Unchained(pbs: seq<Pbuf>) {
    forall i :: 0 <= i < |pbs| ==> pbs[i].rest == []
  }

  lemma {:induction false} BytesAppend(a: seq<Pbuf>, b: seq<Pbuf>)
    ensures Bytes(a + b) == Bytes(a) + Bytes(b)
    decreases |b|
  {
    if b == [] {
      assert a + b == a;
    } else {
      assert (a + b)[..|a + b| - 1] == a + b[..|b| - 1];
      BytesAppend(a, b[..|b| - 1]);
    }
  }

  lemma {:induction false} FullAppend(a: seq<Pbuf>, b: seq<Pbuf>)
    ensures Full(a + b) == Full(a) + Full(b)
    decreases |b|
  {
    if b == [] {
      assert a + b == a;
    } else {
      assert (a + b)[..|a + b| - 1] == a + b[..|b| - 1];
      FullAppend(a, b[..|b| - 1]);
    }
  }

  lemma FullOne(pb: Pbuf)
    ensures Full([pb]) == pb.payload + pb.rest && Bytes([pb]) == pb.payload
  {
    assert [pb][..0] == [];
  }

  /** The visible bytes are all the bytes exactly when nothing is chained. */
  lemma {:induction false} BytesAreFullIff(pbs: seq<Pbuf>)
    ensures |Bytes(pbs)| <= |Full(pbs)|
    ensures |Bytes(pbs)| == |Full(pbs)| <==> Unchained(pbs)
    ensures Unchained(pbs) ==> Bytes(pbs) == Full(pbs)
  {
    if pbs != [] {
      var k := |pbs| - 1;
      BytesAreFullIff(pbs[..k]);
      assert Unchained(pbs) <==> Unchained(pbs[..k]) && pbs[k].rest == [];
    }
  }

  function Buffers(rs: seq<Read>): seq<Pbuf> {
    seq(|rs|, i requires 0 <= i < |rs| => rs[i].pb)
  }

  /** Everything the client has taken, connection after connection. */
  function AllAccepted(pcbs: seq<PcbState>): seq<Pbuf> {
    if pcbs == [] then [] else AllAccepted(pcbs[..|pcbs| - 1]) + pcbs[|pcbs| - 1].accepted
  }

  /** The buffer netReadPacket has taken from the queue and not yet freed. */
  function InHand(pc: Pc): seq<Pbuf> {
    match pc
    case InUmqtt(_, Fetched(pb)) => [pb]
    case InUmqtt(_, Paid(pb)) => [pb]
    case _ => []
  }

  function HeldNow(n: Net): seq<Pbuf> {
    if Usable(n.stack, n.hNet) then n.stack.pcbs[n.hNet.value].held else []
  }

  lemma {:induction false} AcceptedSame(a: seq<PcbState>, b: seq<PcbState>)
    requires |a| == |b| && forall i :: 0 <= i < |a| ==> a[i].accepted == b[i].accepted
    ensures AllAccepted(a) == AllAccepted(b)
  {
    if a != [] {
      AcceptedSame(a[..|a| - 1], b[..|b| - 1]);
    }
  }

  lemma AcceptedTaken(st: Stack, p: Pcb)
    requires p + 1 == |st.pcbs| && st.pcbs[p].held != []
    ensures AllAccepted(Taken(st, p).pcbs) == AllAccepted(st.pcbs) + [st.pcbs[p].held[0]]
  {
    var after := Taken(st, p).pcbs;
    assert after[..p] == st.pcbs[..p];
  }

  lemma AcceptedNew(pcbs: seq<PcbState>, c: PcbState)
    requires c.accepted == []
    ensures AllAccepted(pcbs + [c]) == AllAccepted(pcbs)
  {
    assert (pcbs + [c])[..|pcbs|] == pcbs;
  }

  // ---- invariants ----

  /** Nothing taken from lwIP is lost, repeated or reordered on its way to the reader. */
  ghost predicate QueueInv(s: Sys) {
    && |s.net.queue| <= s.net.capacity
    && Buffers(s.received) + s.net.queue == AllAccepted(s.net.stack.pcbs)
    && (forall i :: 0 <= i < |s.received| ==>
          s.received[i].data == s.received[i].pb.payload && s.received[i].measured == s.received[i].pb.Len() > 0)
    && (s.pc.InUmqtt? && s.pc.io.Measured? ==> s.net.queue != [] && s.pc.io.len == s.net.queue[0].Len() > 0)
  }

  predicate AllFrom(pbs: seq<Pbuf>, p: Pcb) {
    forall i :: 0 <= i < |pbs| ==> pbs[i].conn == p
  }

  ghost predicate PcbStream(c: PcbState, p: Pcb) {
    && (Full(c.gaveUp) == [] ==> Full(c.accepted) + Full(c.held) + Full(c.discarded) == Full(c.arrived))
    && |Full(c.accepted)| + |Full(c.held)| + |Full(c.discarded)| + |Full(c.gaveUp)| == |Full(c.arrived)|
    && AllFrom(c.accepted, p) && AllFrom(c.held, p)
    && (c.releases == 0 ==> c.discarded == [])
    && (c.releases > 0 ==> c.held == [])
  }

  ghost predicate StreamInv(n: Net) {
    forall p :: 0 <= p < |n.stack.pcbs| ==> PcbStream(n.stack.pcbs[p], p)
  }

  ghost predicate OwnerInv(s: Sys) {
    && (forall i :: 0 <= i < |s.net.stack.arrived| ==> s.net.stack.arrived[i].id == i)
    && multiset(s.net.stack.arrived)
       == multiset(HeldNow(s.net)) + multiset(s.net.queue) + multiset(InHand(s.pc)) + multiset(s.net.stack.freed)
  }

  ghost predicate DataInv(s: Sys) {
    QueueInv(s) && StreamInv(s.net) && OwnerInv(s)
  }

  // ---- steps that do not touch the data ----

  ghost predicate SameData(a: Stack, b: Stack) {
    && |a.pcbs| == |b.pcbs| && a.arrived == b.arrived && a.freed == b.freed
    && forall p :: 0 <= p < |a.pcbs| ==>
         var c, d := a.pcbs[p], b.pcbs[p];
         && c.releases == d.releases && c.held == d.held && c.arrived == d.arrived && c.accepted == d.accepted
         && c.gaveUp == d.gaveUp && c.discarded == d.discarded
  }

  lemma SameDataStream(n: Net, m: Net)
    requires StreamInv(n) && SameData(n.stack, m.stack)
    ensures StreamInv(m) && AllAccepted(m.stack.pcbs) == AllAccepted(n.stack.pcbs)
    ensures n.hNet == m.hNet ==> HeldNow(m) == HeldNow(n)
  {
    AcceptedSame(n.stack.pcbs, m.stack.pcbs);
    forall p | 0 <= p < |m.stack.pcbs|
      ensures PcbStream(m.stack.pcbs[p], p)
    {
      assert PcbStream(n.stack.pcbs[p], p);
    }
  }

  lemma SameDataKeeps(s: Sys, r: Sys)
    requires DataInv(s) && SameData(s.net.stack, r.net.stack)
    requires r.net.queue == s.net.queue && r.net.capacity == s.net.capacity && r.received == s.received
    requires r.net.hNet == s.net.hNet && InHand(r.pc) == InHand(s.pc)
    requires r.pc.InUmqtt? && r.pc.io.Measured? ==> r.net.queue != [] && r.pc.io.len == r.net.queue[0].Len() > 0
    ensures DataInv(r)
  {
    SameDataStream(s.net, r.net);
    assert QueueInv(r);
    assert OwnerInv(r);
  }

  lemma TransferKeepsData(n: Net, len: nat, buf: seq<byte>, room: bool)
    ensures SameData(n.stack, TcpRecved(n.stack, n.hNet, len))
    ensures SameData(n.stack, TcpWrite(n.stack, n.hNet, buf, room).0)
    ensures SameData(n.stack, TcpOutput(n.stack, n.hNet))
  {
  }

  lemma DetachKeepsData(st: Stack, h: Option<Pcb>)
    ensures SameData(st, Detach(st, h))
  {
  }

  lemma AttachKeepsData(n: Net)
    ensures SameData(n.stack, ConnectedCb(n).stack)
  {
  }

  // ---- transport steps ----

  lemma ReadQueue(s: Sys, c: Call, len: nat)
    requires QueueInv(s) && s.pc == InUmqtt(c, Measured(len))
    ensures var q := s.net.queue;
            var r := ReadStep(s, c, len);
            && q != [] && r == s.(net := s.net.(queue := q[1..]), pc := InUmqtt(c, Fetched(q[0])),
                                  received := s.received + [Read(len, q[0], q[0].payload)])
            && QueueInv(r)
  {
    var q := s.net.queue;
    var r := ReadStep(s, c, len);
    assert q == [q[0]] + q[1..];
    assert Copied(q[0], len) == q[0].payload;
    assert Buffers(r.received) + r.net.queue == Buffers(s.received) + q;
  }

  lemma ReadKeepsData(s: Sys, c: Call, len: nat)
    requires DataInv(s) && s.pc == InUmqtt(c, Measured(len))
    ensures DataInv(ReadStep(s, c, len))
  {
    ReadQueue(s, c, len);
    var q := s.net.queue;
    assert q == [q[0]] + q[1..];
  }

  lemma FreeKeepsData(s: Sys, r: Sys, c: Call, pb: Pbuf)
    requires DataInv(s) && s.pc == InUmqtt(c, Paid(pb))
    requires r.net == s.net.(stack := PbufFree(s.net.stack, pb)) && r.received == s.received && r.pc == InUmqtt(c, Idle)
    ensures DataInv(r)
  {
  }

  /** The pieces of the transport callbacks that touch neither the queue nor a packet buffer. */
  lemma TransferStepSame(s: Sys, c: Call, io: Io, env: Env)
    requires s.pc == InUmqtt(c, io) && !io.Measured? && !io.Paid?
    ensures var r := TransportStep(s, c, io, env);
            && SameData(s.net.stack, r.net.stack) && r.received == s.received && InHand(r.pc) == InHand(s.pc)
            && r.net == s.net.(stack := r.net.stack)
            && (r.pc.io.Measured? ==> r.net.queue != [] && r.pc.io.len == r.net.queue[0].Len() > 0)
  {
    TransferKeepsData(s.net, if io.Fetched? then io.pb.Len() else 0, env.buf, env.room);
  }

  lemma TransferStepKeepsData(s: Sys, c: Call, io: Io, env: Env)
    requires DataInv(s) && s.pc == InUmqtt(c, io) && !io.Measured? && !io.Paid?
    ensures DataInv(TransportStep(s, c, io, env))
  {
    TransferStepSame(s, c, io, env);
    var r := TransportStep(s, c, io, env);
    SameDataKeeps(s, r);
    assert DataInv(r);
  }

  lemma TransportKeepsData(s: Sys, c: Call, io: Io, env: Env)
    requires DataInv(s) && s.pc == InUmqtt(c, io)
    ensures DataInv(TransportStep(s, c, io, env))
  {
    var r := TransportStep(s, c, io, env);
    if io.Paid? {
      FreeKeepsData(s, r, c, io.pb);
    } else if !io.Measured? {
      TransferStepKeepsData(s, c, io, env);
    } else if env.mallocOk {
      ReadKeepsData(s, c, io.len);
    } else {
      SameDataKeeps(s, r);
    }
  }

  // ---- connecting and disconnecting ----

  lemma ReleasedStream(c: PcbState, d: PcbState, p: Pcb)
    requires PcbStream(c, p) && c.releases == 0
    requires d == c.(releases := 1, discarded := c.discarded + c.held, held := [], refused := false)
    ensures PcbStream(d, p)
  {
    assert d.discarded == c.held;
    assert Full(c.accepted) + Full(c.held) + Full([]) == Full(c.accepted) + Full([]) + Full(c.held);
  }

  lemma ReleaseKeepsStream(n: Net)
    requires StreamInv(n) && (n.hNet.Some? ==> Live(n.stack, n.hNet.value))
    ensures StreamInv(n.(stack := TcpRelease(n.stack, n.hNet), hNet := None))
    ensures AllAccepted(TcpRelease(n.stack, n.hNet).pcbs) == AllAccepted(n.stack.pcbs)
    ensures TcpRelease(n.stack, n.hNet).freed == n.stack.freed + HeldNow(n)
    ensures TcpRelease(n.stack, n.hNet).arrived == n.stack.arrived
  {
    var st := TcpRelease(n.stack, n.hNet);
    AcceptedSame(n.stack.pcbs, st.pcbs);
    if n.hNet.Some? {
      ReleasedStream(n.stack.pcbs[n.hNet.value], st.pcbs[n.hNet.value], n.hNet.value);
    }
  }

  /** The client's state is now `n`, misused calls aside, and the loop is not in the middle of measuring or is where it was. */
  ghost predicate LinkChanged(s: Sys, r: Sys, n: Net) {
    && r.net == n.(stack := n.stack.(badCalls := r.net.stack.badCalls))
    && r.received == s.received && InHand(r.pc) == InHand(s.pc)
    && (r.pc == s.pc || (r.pc.InUmqtt? ==> !r.pc.io.Measured?))
  }

  /** Dropping the connection frees what lwIP holds on it and moves no other packet. */
  lemma DropData(n: Net)
    requires PcbInv(n) && StreamInv(n)
    ensures var m := Drop(n);
            && StreamInv(m) && AllAccepted(m.stack.pcbs) == AllAccepted(n.stack.pcbs)
            && m.stack.freed == n.stack.freed + HeldNow(n) && m.stack.arrived == n.stack.arrived
            && HeldNow(m) == []
  {
    var d := n.(stack := Detach(n.stack, n.hNet));
    DetachKeepsData(n.stack, n.hNet);
    SameDataStream(n, d);
    ReleaseKeepsStream(d);
    assert Drop(n).stack == TcpRelease(d.stack, d.hNet);
  }

  lemma DropKeepsOwners(s: Sys, r: Sys)
    requires OwnerInv(s) && r.net.queue == s.net.queue && InHand(r.pc) == InHand(s.pc) && HeldNow(r.net) == []
    requires r.net.stack.arrived == s.net.stack.arrived && r.net.stack.freed == s.net.stack.freed + HeldNow(s.net)
    ensures OwnerInv(r)
  {
  }

  lemma DropKeepsData(s: Sys, r: Sys)
    requires Inv(s) && DataInv(s) && LinkChanged(s, r, Drop(s.net))
    ensures DataInv(r)
  {
    DropData(s.net);
    DropKeepsOwners(s, r);
    assert QueueInv(r);
  }

  lemma NewPcbKeepsData(s: Sys, r: Sys, c: PcbState)
    requires Inv(s) && DataInv(s) && s.net.hNet.None? && PcbStream(c, |s.net.stack.pcbs|)
    requires c.accepted == [] && c.held == []
    requires r.net.stack == s.net.stack.(pcbs := s.net.stack.pcbs + [c], badCalls := r.net.stack.badCalls)
    requires LinkChanged(s, r, r.net) && r.net.queue == s.net.queue && r.net.capacity == s.net.capacity
    requires r.net.hNet.None? || r.net.hNet == Some(|s.net.stack.pcbs|)
    ensures DataInv(r)
  {
    AcceptedNew(s.net.stack.pcbs, c);
    assert HeldNow(r.net) == [] && HeldNow(s.net) == [];
    assert QueueInv(r);
    assert StreamInv(r.net);
  }

  lemma ConnectKeepsData(s: Sys, r: Sys, outcome: ConnectOutcome)
    requires Inv(s) && DataInv(s) && s.net.hNet.None? && LinkChanged(s, r, Connect(s.net, outcome).0)
    ensures DataInv(r)
  {
    if outcome == NoPcb {
      SameDataKeeps(s, r);
    } else {
      var c := r.net.stack.pcbs[|s.net.stack.pcbs|];
      assert r.net.stack.pcbs == s.net.stack.pcbs + [c];
      NewPcbKeepsData(s, r, c);
    }
  }

  // ---- lwIP's own steps ----

  lemma ArrivedStream(c: PcbState, p: Pcb, pb: Pbuf)
    requires PcbStream(c, p) && c.releases == 0 && pb.conn == p
    ensures PcbStream(c.(held := c.held + [pb], arrived := c.arrived + [pb]), p)
  {
    FullAppend(c.held, [pb]);
    FullAppend(c.arrived, [pb]);
    var a, h, x := Full(c.accepted), Full(c.held), Full([pb]);
    assert a + (h + x) + [] == (a + h + []) + x;
  }

  lemma ArriveKeepsStream(n: Net, p: Pcb, payload: seq<byte>, rest: seq<byte>)
    requires PcbInv(n) && StreamInv(n) && n.hNet == Some(p)
    ensures var m := n.(stack := Arrive(n.stack, p, payload, rest));
            var pb := Pbuf(|n.stack.arrived|, p, payload, rest);
            && StreamInv(m)
            && HeldNow(m) == HeldNow(n) + [pb] && m.stack.arrived == n.stack.arrived + [pb]
  {
    ArrivedStream(n.stack.pcbs[p], p, Pbuf(|n.stack.arrived|, p, payload, rest));
  }

  lemma ArriveKeepsData(s: Sys, p: Pcb, payload: seq<byte>, rest: seq<byte>)
    requires Inv(s) && DataInv(s)
    ensures DataInv(ArriveStep(s, p, payload, rest))
  {
    var r := ArriveStep(s, p, payload, rest);
    if r != s {
      AcceptedSame(s.net.stack.pcbs, r.net.stack.pcbs);
      ArriveKeepsStream(s.net, p, payload, rest);
      assert QueueInv(r);
    }
  }

  /** The bytes of the oldest held buffer, split off and added elsewhere. */
  lemma OldestBytes(held: seq<Pbuf>, other: seq<Pbuf>)
    requires held != []
    ensures Full(held) == Full([held[0]]) + Full(held[1..])
    ensures Full(other + [held[0]]) == Full(other) + Full([held[0]])
  {
    assert held == [held[0]] + held[1..];
    FullAppend([held[0]], held[1..]);
    FullAppend(other, [held[0]]);
  }

  lemma Reassociate<T>(a: seq<T>, x: seq<T>, h: seq<T>, d: seq<T>)
    ensures (a + x) + h + d == a + (x + h) + d
    ensures a + x == [] ==> a == [] && x + h == h
  {
  }

  /** The oldest held buffer moves to the accepted ones, or is given up. */
  lemma TakenStream(c: PcbState, e: PcbState, p: Pcb)
    requires PcbStream(c, p) && c.releases == 0 && c.held != []
    requires e == c.(held := c.held[1..], refused := false, accepted := c.accepted + [c.held[0]])
    ensures PcbStream(e, p)
  {
    OldestBytes(c.held, c.accepted);
    Reassociate(Full(c.accepted), Full([c.held[0]]), Full(e.held), Full(c.discarded));
    assert AllFrom(e.held, p) && AllFrom(e.accepted, p);
  }

  lemma GivenUpStream(c: PcbState, e: PcbState, p: Pcb)
    requires PcbStream(c, p) && c.releases == 0 && c.held != []
    requires e == c.(held := c.held[1..], refused := false, gaveUp := c.gaveUp + [c.held[0]])
    ensures PcbStream(e, p)
  {
    OldestBytes(c.held, c.gaveUp);
    Reassociate(Full(c.gaveUp), Full([c.held[0]]), Full(e.held), Full(c.discarded));
    assert AllFrom(e.held, p);
  }

  lemma TakenKeepsStream(n: Net, p: Pcb)
    requires PcbInv(n) && StreamInv(n) && n.hNet == Some(p) && n.stack.pcbs[p].held != []
    ensures StreamInv(n.(stack := Taken(n.stack, p)))
    ensures HeldNow(n) == [n.stack.pcbs[p].held[0]] + HeldNow(n.(stack := Taken(n.stack, p)))
  {
    TakenStream(n.stack.pcbs[p], Taken(n.stack, p).pcbs[p], p);
  }

  lemma GivenUpKeepsStream(n: Net, p: Pcb)
    requires PcbInv(n) && StreamInv(n) && n.hNet == Some(p) && n.stack.pcbs[p].held != []
    ensures StreamInv(n.(stack := GiveUp(n.stack, p)))
    ensures HeldNow(n) == [n.stack.pcbs[p].held[0]] + HeldNow(n.(stack := GiveUp(n.stack, p)))
  {
    GivenUpStream(n.stack.pcbs[p], GiveUp(n.stack, p).pcbs[p], p);
  }

  lemma TakenKeepsQueue(s: Sys, r: Sys, p: Pcb)
    requires QueueInv(s) && p + 1 == |s.net.stack.pcbs| && s.net.stack.pcbs[p].held != []
    requires |s.net.queue| < s.net.capacity
    requires r == s.(net := s.net.(queue := s.net.queue + [s.net.stack.pcbs[p].held[0]], stack := Taken(s.net.stack, p)))
    ensures QueueInv(r)
  {
    var pb := s.net.stack.pcbs[p].held[0];
    AcceptedTaken(s.net.stack, p);
    assert Buffers(r.received) + r.net.queue == (Buffers(s.received) + s.net.queue) + [pb];
  }

  lemma TakenKeepsOwners(s: Sys, r: Sys, pb: Pbuf)
    requires OwnerInv(s) && r.net.queue == s.net.queue + [pb] && r.pc == s.pc
    requires HeldNow(s.net) == [pb] + HeldNow(r.net)
    requires r.net.stack.arrived == s.net.stack.arrived && r.net.stack.freed == s.net.stack.freed
    ensures OwnerInv(r)
  {
  }

  lemma TakenKeepsData(s: Sys, p: Pcb)
    requires Inv(s) && DataInv(s)
    requires s.net.hNet == Some(p) && s.net.stack.pcbs[p].held != [] && |s.net.queue| < s.net.capacity
    ensures DataInv(s.(net := s.net.(queue := s.net.queue + [s.net.stack.pcbs[p].held[0]], stack := Taken(s.net.stack, p))))
  {
    var pb := s.net.stack.pcbs[p].held[0];
    var r := s.(net := s.net.(queue := s.net.queue + [pb], stack := Taken(s.net.stack, p)));
    TakenKeepsQueue(s, r, p);
    TakenKeepsStream(s.net, p);
    TakenKeepsOwners(s, r, pb);
    assert DataInv(r);
  }

  lemma ReceiveKeepsData(s: Sys, p: Pcb)
    requires Inv(s) && DataInv(s)
    ensures DataInv(ReceiveStep(s, p))
  {
    var r := ReceiveStep(s, p);
    if r != s {
      assert s.net.hNet == Some(p);
      if |s.net.queue| < s.net.capacity {
        TakenKeepsData(s, p);
      } else {
        SameDataKeeps(s, r);
      }
    }
  }

  lemma GiveUpKeepsQueue(s: Sys, r: Sys, p: Pcb)
    requires QueueInv(s) && p < |s.net.stack.pcbs| && s.net.stack.pcbs[p].held != []
    requires r == s.(net := s.net.(stack := GiveUp(s.net.stack, p)))
    ensures QueueInv(r)
  {
    AcceptedSame(s.net.stack.pcbs, r.net.stack.pcbs);
  }

  lemma GiveUpKeepsOwners(s: Sys, r: Sys, pb: Pbuf)
    requires OwnerInv(s) && r.net.queue == s.net.queue && r.pc == s.pc
    requires HeldNow(s.net) == [pb] + HeldNow(r.net)
    requires r.net.stack.arrived == s.net.stack.arrived && r.net.stack.freed == s.net.stack.freed + [pb]
    ensures OwnerInv(r)
  {
  }

  lemma GiveUpKeepsData(s: Sys, p: Pcb)
    requires Inv(s) && DataInv(s)
    ensures DataInv(GiveUpStep(s, p))
  {
    var r := GiveUpStep(s, p);
    if r != s {
      assert s.net.hNet == Some(p);
      GiveUpKeepsQueue(s, r, p);
      GivenUpKeepsStream(s.net, p);
      GiveUpKeepsOwners(s, r, s.net.stack.pcbs[p].held[0]);
    }
    assert DataInv(r);
  }

  // ---- every step, every run ----

  lemma LoopKeepsData(s: Sys, r: Sys)
    requires DataInv(s) && SameLink(s, r) && (s.pc.InUmqtt? ==> s.pc.io == Idle)
    ensures DataInv(r)
  {
    SameDataKeeps(s, r);
  }

  lemma LinkStepKeepsData(s: Sys, env: Env)
    requires Inv(s) && DataInv(s)
    ensures s.pc == DoConnect ==> DataInv(ConnectStep(s, env))
    ensures s.pc == DoDisconnect ==> DataInv(DisconnectStep(s))
  {
    if s.pc == DoConnect {
      assert LinkChanged(s, ConnectStep(s, env), Connect(s.net, env.outcome).0);
      ConnectKeepsData(s, ConnectStep(s, env), env.outcome);
    } else if s.pc == DoDisconnect {
      assert LinkChanged(s, DisconnectStep(s), Drop(s.net));
      DropKeepsData(s, DisconnectStep(s));
    }
  }

  lemma MainKeepsData(s: Sys, env: Env)
    requires Inv(s) && DataInv(s)
    ensures DataInv(MainStep(s, env))
  {
    var r := MainStep(s, env);
    if s.pc == DoConnect {
      assert r == ConnectStep(s, env);
      LinkStepKeepsData(s, env);
    } else if s.pc == DoDisconnect {
      assert r == DisconnectStep(s);
      LinkStepKeepsData(s, env);
    } else if InTransport(s, env) {
      assert r == TransportStep(s, s.pc.call, s.pc.io, env);
      TransportKeepsData(s, s.pc.call, s.pc.io, env);
    } else {
      LoopFrame(s, env);
      LoopKeepsData(s, r);
    }
    assert DataInv(r);
  }

  lemma ConnectedSameData(s: Sys, p: Pcb)
    ensures SameData(s.net.stack, ConnectedStep(s, p).net.stack)
  {
    if ConnectedStep(s, p) != s {
      AttachKeepsData(Established(s, p));
    }
  }

  lemma ConnectedKeepsData(s: Sys, p: Pcb)
    requires DataInv(s)
    ensures DataInv(ConnectedStep(s, p))
  {
    ConnectedSameData(s, p);
    var r := ConnectedStep(s, p);
    SameDataKeeps(s, r);
    assert DataInv(r);
  }

  lemma DropStepKeepsData(s: Sys, l: Label)
    requires Inv(s) && DataInv(s) && (l.OnError? || l.OnPeerClose?)
    ensures DataInv(Next(s, l))
  {
    var r := Next(s, l);
    if l.OnError? && ErrorEnabled(s, l.p) {
      ErrorIsDrop(s, l.p, l.freed);
    }
    if r != s {
      assert LinkChanged(s, r, Drop(s.net));
      DropKeepsData(s, r);
    }
    assert DataInv(r);
  }

  lemma NextKeepsData(s: Sys, l: Label)
    requires Inv(s) && DataInv(s)
    ensures DataInv(Next(s, l))
  {
    match l
    case Main(env) => MainKeepsData(s, env);
    case OnTick => SameDataKeeps(s, TickStep(s));
    case OnArrival(p, payload, rest) => ArriveKeepsData(s, p, payload, rest);
    case OnReceive(p) => ReceiveKeepsData(s, p);
    case OnGiveUp(p) => GiveUpKeepsData(s, p);
    case OnConnected(p) => ConnectedKeepsData(s, p);
    case OnPoll(p) => SameDataKeeps(s, PollStep(s, p));
    case _ => DropStepKeepsData(s, l);
  }

  lemma {:induction false} ExecKeepsData(s: Sys, ls: seq<Label>)
    requires Inv(s) && DataInv(s)
    ensures DataInv(Exec(s, ls))
    decreases |ls|
  {
    if ls != [] {
      ExecKeepsInv(s, ls[..|ls| - 1]);
      ExecKeepsData(s, ls[..|ls| - 1]);
      NextKeepsData(Exec(s, ls[..|ls| - 1]), ls[|ls| - 1]);
    }
  }

  lemma RunHasDataInv(size: nat, tick: nat, ls: seq<Label>)
    requires 2 <= size <= 256
    ensures Inv(Run(size, tick, ls)) && DataInv(Run(size, tick, ls))
  {
    RunHasInv(size, tick, ls);
    assert Inv(Start(size - 1, tick)) && DataInv(Start(size - 1, tick));
    ExecKeepsData(Start(size - 1, tick), ls);
  }

  /** A length measured in one critical section is that of the packet still at the head of the queue. */
  lemma MeasuredIsHead(size: nat, tick: nat, ls: seq<Label>)
    requires 2 <= size <= 256
    ensures var s := Run(size, tick, ls);
            s.pc.InUmqtt? && s.pc.io.Measured? ==>
              && s.net.queue != [] && s.net.queue[0].Len() == s.pc.io.len
              && Copied(s.net.queue[0], s.pc.io.len) == s.net.queue[0].payload
  {
    RunHasDataInv(size, tick, ls);
    var s := Run(size, tick, ls);
    if s.pc.InUmqtt? && s.pc.io.Measured? {
      ReadQueue(s, s.pc.call, s.pc.io.len);
    }
  }
}

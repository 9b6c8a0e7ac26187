/**
 * The network client instance: the queue is an array with two 8-bit indices.
 * Every method is proved to do to the abstract value what NetModel says.
 */
module NetClient {
  import opened Base
  import opened LwipStack
  import opened Model = NetModel

  // ---- the circular queue ----

  /** The slots from just behind the last one read up to the last one written. */
  function Unread<T>(slots: seq<T>, idx: nat, odx: nat): seq<T>
    requires idx < |slots| && odx < |slots|
  {
    if odx <= idx then slots[odx + 1..idx + 1] else slots[odx + 1..] + slots[..idx + 1]
  }

  function Next(i: nat, size: nat): nat
    requires size > 0
  {
    (i + 1) % size
  }

  lemma NextSlot(i: nat, size: nat)
    requires i < size
    ensures Next(i, size) == if i + 1 == size then 0 else i + 1
  {
  }

  /** The number of unread slots, from the two indices alone. */
  lemma UnreadLength<T>(slots: seq<T>, idx: nat, odx: nat)
    requires idx < |slots| && odx < |slots|
    ensures |Unread(slots, idx, odx)| == (idx - odx) % |slots|
  {
    if idx < odx {
      WrapBelow(idx - odx, |slots|);
    }
  }

  lemma WrapBelow(d: int, n: int)
    requires -n <= d < 0
    ensures d % n == d + n
  {
    assert d == (-1) * n + (d + n);
  }

  /** Writing one slot ahead appends, exactly when the queue holds fewer than size - 1 elements. */
  lemma EnqueueSlot<T>(slots: seq<T>, idx: nat, odx: nat, x: T)
    requires idx < |slots| && odx < |slots|
    ensures var ndx := Next(idx, |slots|);
            && (ndx != odx <==> |Unread(slots, idx, odx)| < |slots| - 1)
            && (ndx != odx ==> Unread(slots[ndx := x], ndx, odx) == Unread(slots, idx, odx) + [x])
  {
    var ndx := Next(idx, |slots|);
    NextSlot(idx, |slots|);
    if ndx != odx {
      var q, q' := Unread(slots, idx, odx), Unread(slots[ndx := x], ndx, odx);
      assert |q'| == |q| + 1;
      forall i | 0 <= i < |q'|
        ensures q'[i] == (q + [x])[i]
      {
      }
    }
  }

  /** Reading one slot ahead yields the oldest element and removes only it. */
  lemma DequeueSlot<T>(slots: seq<T>, idx: nat, odx: nat)
    requires idx < |slots| && odx < |slots|
    ensures idx == odx <==> Unread(slots, idx, odx) == []
    ensures idx != odx ==>
              var q, ndx := Unread(slots, idx, odx), Next(odx, |slots|);
              q == [slots[ndx]] + Unread(slots, idx, ndx)
  {
    NextSlot(odx, |slots|);
  }

  // ---- the circular queue against a bounded queue, over whole histories ----

  datatype Op<T> = Put(x: T) | Take
  datatype Reply<T> = Stored | Full | Got(x: T) | Nothing

  /** The array and its two indices. */
  datatype Ring<T> = Ring(slots: seq<T>, idx: nat, odx: nat)

  predicate WellFormed<T>(r: Ring<T>) {
    2 <= |r.slots| && r.idx < |r.slots| && r.odx < |r.slots|
  }

  function RingStep<T>(r: Ring<T>, op: Op<T>): (Ring<T>, Reply<T>)
    requires WellFormed(r)
  {
    match op
    case Put(x) =>
      var ndx := Next(r.idx, |r.slots|);
      if ndx != r.odx then (Ring(r.slots[ndx := x], ndx, r.odx), Stored) else (r, Full)
    case Take =>
      if r.idx != r.odx then
        var ndx := Next(r.odx, |r.slots|);
        (r.(odx := ndx), Got(r.slots[ndx]))
      else (r, Nothing)
  }

  function QueueStep<T>(capacity: nat, q: seq<T>, op: Op<T>): (seq<T>, Reply<T>) {
    match op
    case Put(x) => if |q| < capacity then (q + [x], Stored) else (q, Full)
    case Take => if q == [] then (q, Nothing) else (q[1..], Got(q[0]))
  }

  function RingReplies<T>(r: Ring<T>, ops: seq<Op<T>>): seq<Reply<T>>
    requires WellFormed(r)
    decreases |ops|
  {
    if ops == [] then []
    else
      var (r', reply) := RingStep(r, ops[0]);
      [reply] + RingReplies(r', ops[1..])
  }

  function QueueReplies<T>(capacity: nat, q: seq<T>, ops: seq<Op<T>>): seq<Reply<T>>
    decreases |ops|
  {
    if ops == [] then []
    else
      var (q', reply) := QueueStep(capacity, q, ops[0]);
      [reply] + QueueReplies(capacity, q', ops[1..])
  }

  lemma RingStepRefines<T>(r: Ring<T>, op: Op<T>)
    requires WellFormed(r)
    ensures var (r', reply) := RingStep(r, op);
            && WellFormed(r') && |r'.slots| == |r.slots|
            && (Unread(r'.slots, r'.idx, r'.odx), reply)
               == QueueStep(|r.slots| - 1, Unread(r.slots, r.idx, r.odx), op)
  {
    match op
    case Put(x) =>
      NextSlot(r.idx, |r.slots|);
      EnqueueSlot(r.slots, r.idx, r.odx, x);
    case Take =>
      NextSlot(r.odx, |r.slots|);
      DequeueSlot(r.slots, r.idx, r.odx);
  }

  /**
   * For every size and every history of operations, the ring answers exactly as a
   * queue that holds size - 1 elements.
   */
  lemma {:induction false} RingIsBoundedQueue<T>(r: Ring<T>, ops: seq<Op<T>>)
    requires WellFormed(r)
    ensures RingReplies(r, ops) == QueueReplies(|r.slots| - 1, Unread(r.slots, r.idx, r.odx), ops)
    decreases |ops|
  {
    if ops != [] {
      RingStepRefines(r, ops[0]);
      RingIsBoundedQueue(RingStep(r, ops[0]).0, ops[1..]);
    }
  }

  /** The application's event callback, registered with net_Init. */
  class EventSink {
    var netWasDisconnected: bool

    constructor ()
      ensures !netWasDisconnected
    {
      netWasDisconnected := false;
    }

    method EventCb(event: NetEvent)
      modifies this
      ensures netWasDisconnected == Flagged(old(netWasDisconnected), event)
    {
      match event
      case Connected =>
      case Disconnected => netWasDisconnected := true;
      case Poll =>
    }
  }

  class Instance {
    var idx: uint8
    var odx: uint8
    const queue: array<Pbuf>
    var hNet: Option<Pcb>
    var isConnected: bool
    const pfnCb: EventSink
    var stack: Stack              // the lwIP stack, called through the handle
    ghost var events: seq<NetEvent>

    ghost predicate Valid()
      reads this
    {
      && 2 <= queue.Length <= 256
      && idx < queue.Length && odx < queue.Length
    }

    ghost function Slots(): Ring<Pbuf>
      reads this, queue
    {
      Ring(queue[..], idx, odx)
    }

    ghost function Abs(): Net
      requires Valid()
      reads this, queue
    {
      Net(queue.Length - 1, Unread(queue[..], idx, odx), hNet, isConnected, stack, events)
    }

    /** net_Init. */
    constructor (queueSize: nat, pfnEventCb: EventSink, st: Stack)
      requires 2 <= queueSize <= 256
      ensures Valid() && fresh(queue) && pfnCb == pfnEventCb
      ensures Abs() == Model.Init(queueSize - 1, st)
    {
      idx := 0;
      odx := 0;
      queue := new Pbuf[queueSize];
      hNet := None;
      isConnected := false;
      pfnCb := pfnEventCb;
      stack := st;
      events := [];
    }

    method Notify(event: NetEvent)
      requires Valid()
      modifies this`events, pfnCb
      ensures Valid() && Abs() == Raise(old(Abs()), event)
      ensures pfnCb.netWasDisconnected == Flagged(old(pfnCb.netWasDisconnected), event)
    {
      events := events + [event];
      pfnCb.EventCb(event);
    }

    method EnqueuePbuf(pbuf: Pbuf) returns (ret: bool)
      requires Valid()
      modifies this`idx, queue
      ensures Valid() && (Abs(), ret) == Enqueue(old(Abs()), pbuf)
      ensures (Slots(), if ret then Stored else Full) == RingStep(old(Slots()), Put(pbuf))
    {
      ret := false;
      ghost var slots := queue[..];
      NextSlot(idx, queue.Length);
      EnqueueSlot(slots, idx, odx, pbuf);
      var ndx := Next(idx, queue.Length);
      if ndx != odx {
        queue[ndx] := pbuf;
        assert queue[..] == slots[ndx := pbuf];
        idx := ndx;
        ret := true;
      }
    }

    method DequeuePbuf() returns (pb: Option<Pbuf>)
      requires Valid()
      modifies this`odx
      ensures Valid() && (Abs(), pb) == Dequeue(old(Abs()))
      ensures (Slots(), if pb.Some? then Got(pb.value) else Nothing) == RingStep(old(Slots()), Take)
    {
      pb := None;
      DequeueSlot(queue[..], idx, odx);
      if idx != odx {
        var ndx := Next(odx, queue.Length);
        pb := Some(queue[ndx]);
        odx := ndx;
      }
    }

    method GetReadLen() returns (len: nat)
      requires Valid()
      ensures len == Model.GetReadLen(Abs())
    {
      len := 0;
      DequeueSlot(queue[..], idx, odx);
      if idx != odx {
        var ndx := Next(odx, queue.Length);
        len := queue[ndx].Len();
      }
    }

    method ErrorCb()
      requires Valid()
      modifies this`stack, this`hNet, this`isConnected, this`events, pfnCb
      ensures Valid() && Abs() == Drop(old(Abs()))
      ensures pfnCb.netWasDisconnected
    {
      stack := TcpArg(stack, hNet, false);
      stack := TcpSent(stack, hNet, false);
      stack := TcpRecv(stack, hNet, false);
      stack := TcpErr(stack, hNet, false);
      stack := TcpPoll(stack, hNet, false);
      stack := TcpRelease(stack, hNet);   // tcp_abort
      hNet := None;
      isConnected := false;
      Notify(Disconnected);
    }

    method PollCb()
      requires Valid()
      modifies this`events, pfnCb
      ensures Valid() && Abs() == Raise(old(Abs()), Poll)
      ensures pfnCb.netWasDisconnected == old(pfnCb.netWasDisconnected)
    {
      Notify(Poll);
    }

    method ReceiveCb(arg: bool, pcb: bool, pb: Option<Pbuf>) returns (err: Err)
      requires Valid()
      modifies this, queue, pfnCb
      ensures Valid() && (Abs(), err) == Model.ReceiveCb(old(Abs()), arg, pcb, pb)
      ensures pfnCb.netWasDisconnected == (old(pfnCb.netWasDisconnected) || (arg && pcb && pb.None?))
      ensures err == ErrMem <==> arg && pcb && pb.Some? && |old(Abs()).queue| == queue.Length - 1
      ensures err == ErrMem || !arg || !pcb ==> Abs() == old(Abs())
      ensures arg && pcb && pb.Some? && err == ErrOk ==>
                Abs() == old(Abs()).(queue := old(Abs()).queue + [pb.value])
      ensures arg && pcb && pb.None? ==>
                && hNet.None? && !isConnected && events == old(events) + [Disconnected]
                && Abs().queue == old(Abs()).queue && (Usable(old(stack), old(hNet)) ==> !Usable(stack, old(hNet)))
    {
      if arg && pcb {
        if pb.Some? {
          var queued := EnqueuePbuf(pb.value);
          if !queued {
            return ErrMem;
          }
        } else {
          ErrorCb();
          return ErrOk;
        }
      }
      return ErrOk;
    }

    method ConnectedCb()
      requires Valid()
      modifies this`stack, this`isConnected, this`events, pfnCb
      ensures Valid() && Abs() == Model.ConnectedCb(old(Abs()))
      ensures pfnCb.netWasDisconnected == old(pfnCb.netWasDisconnected)
    {
      stack := TcpErr(stack, hNet, true);
      stack := TcpPoll(stack, hNet, true);
      stack := TcpRecv(stack, hNet, true);
      stack := TcpSent(stack, hNet, true);
      isConnected := true;
      Notify(Connected);
    }

    method Connect(outcome: ConnectOutcome) returns (ret: int)
      requires Valid()
      modifies this`stack, this`hNet, this`isConnected
      ensures Valid() && (Abs(), ret) == Model.Connect(old(Abs()), outcome)
      ensures ret in {0, -2, -4} && (ret == 0 <==> outcome == ConnectStarts)
      ensures ret == -2 <==> |stack.pcbs| == |old(stack.pcbs)|
      ensures ret == -2 ==> Abs() == old(Abs())
      ensures ret == -4 <==>
                && |stack.pcbs| == |old(stack.pcbs)| + 1 && hNet.None? && !isConnected
                && stack.pcbs[|old(stack.pcbs)|].failed && stack.pcbs[|old(stack.pcbs)|].releases == 1
      ensures ret == 0 ==>
                && |stack.pcbs| == |old(stack.pcbs)| + 1 && hNet == Some(|old(stack.pcbs)|)
                && isConnected == old(isConnected)
                && stack.pcbs[|old(stack.pcbs)|].connecting && stack.pcbs[|old(stack.pcbs)|].releases == 0
    {
      if outcome == NoPcb {
        return -2;
      }
      var pcb := Some(|stack.pcbs|);
      stack := TcpNew(stack);
      stack := TcpErr(stack, pcb, true);
      hNet := pcb;
      stack := TcpArg(stack, pcb, true);
      stack := TcpConnect(stack, pcb, outcome == ConnectStarts);
      if outcome == ConnectFails {
        isConnected := false;
        hNet := None;
        stack := TcpRelease(stack, pcb);  // tcp_close
        return -4;
      }
      return 0;
    }

    method Disconnect()
      requires Valid()
      modifies this`stack, this`hNet, this`isConnected, this`events, pfnCb
      ensures Valid() && Abs() == Drop(old(Abs()))
      ensures pfnCb.netWasDisconnected
    {
      stack := TcpArg(stack, hNet, false);
      stack := TcpSent(stack, hNet, false);
      stack := TcpRecv(stack, hNet, false);
      stack := TcpErr(stack, hNet, false);
      stack := TcpPoll(stack, hNet, false);
      stack := TcpRelease(stack, hNet);   // tcp_close
      hNet := None;
      isConnected := false;
      Notify(Disconnected);
    }

    /** First part of net_ReadPacket: take the oldest buffer and copy what fits. */
    method ReadCopy(pBuf: array<byte>, len: nat) returns (pb: Option<Pbuf>, count: nat)
      requires Valid() && len <= pBuf.Length
      modifies this`odx, pBuf
      ensures Valid() && (Abs(), pb) == Dequeue(old(Abs()))
      ensures pb.None? ==> count == 0 && pBuf[..] == old(pBuf[..])
      ensures pb.Some? ==> count == Min(pb.value.Len(), len)
      ensures pb.Some? ==> pBuf[..count] == Copied(pb.value, len) && pBuf[count..] == old(pBuf[count..])
    {
      pb := DequeuePbuf();
      count := 0;
      if pb.Some? {
        var pktlen := pb.value.Len();
        count := if pktlen > len then len else pktlen;
        forall i | 0 <= i < count {
          pBuf[i] := pb.value.payload[i];
        }
      }
    }

    /** Second part: return the credit to the peer through the current handle. */
    method ReadCredit(pb: Pbuf)
      requires Valid()
      modifies this`stack
      ensures Valid() && Abs() == old(Abs()).(stack := TcpRecved(old(stack), hNet, pb.Len()))
    {
      stack := TcpRecved(stack, hNet, pb.Len());
    }

    /** Third part: give the buffer back. */
    method ReadFree(pb: Pbuf)
      requires Valid()
      modifies this`stack
      ensures Valid() && Abs() == old(Abs()).(stack := PbufFree(old(stack), pb))
    {
      stack := PbufFree(stack, pb);
    }

    /** First part of net_WritePacket; the count returned is the length asked for, or 0. */
    method WriteData(pBuf: seq<byte>, room: bool) returns (count: nat, ok: bool)
      requires Valid()
      modifies this`stack
      ensures Valid() && ok == TcpWrite(old(stack), hNet, pBuf, room).1
      ensures Abs() == old(Abs()).(stack := TcpWrite(old(stack), hNet, pBuf, room).0)
      ensures count == if ok then |pBuf| else 0
    {
      var r := TcpWrite(stack, hNet, pBuf, room);
      stack := r.0;
      ok := r.1;
      count := if ok then |pBuf| else 0;
    }

    /** Second part: send at once unless the caller has more. */
    method WriteFlush()
      requires Valid()
      modifies this`stack
      ensures Valid() && Abs() == old(Abs()).(stack := TcpOutput(old(stack), hNet))
    {
      stack := TcpOutput(stack, hNet);
    }

    method IsConnected() returns (r: bool)
      requires Valid()
      ensures r == Abs().isConnected
    {
      r := isConnected;
    }
  }
}

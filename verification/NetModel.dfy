/**
 * The network client: a circular queue of received packet buffers, filled in
 * lwIP context and drained in application context, and the connection handle.
 *
 * `Net` is its abstract value, where the queue is a sequence; the functions on
 * it say what each operation does.  Module NetClient keeps the queue in an array
 * with two indices and is proved to do the same.
 */
module NetModel {
  import opened Base
  import opened LwipStack

  datatype NetEvent = Disconnected | Connected | Poll

  datatype Err = ErrOk | ErrMem

  datatype ConnectOutcome = NoPcb | ConnectFails | ConnectStarts

  datatype Net = Net(
    capacity: nat,              // one less than the size of the array
    queue: seq<Pbuf>,
    hNet: Option<Pcb>,
    isConnected: bool,
    stack: Stack,               // the lwIP stack behind the handle
    events: seq<NetEvent>)      // events reported to the application, in order

  function Init(capacity: nat, st: Stack): Net {
    Net(capacity, [], None, false, st, [])
  }

  function Raise(n: Net, e: NetEvent): Net {
    n.(events := n.events + [e])
  }

  function Enqueue(n: Net, pb: Pbuf): (Net, bool) {
    if |n.queue| < n.capacity then (n.(queue := n.queue + [pb]), true) else (n, false)
  }

  function Dequeue(n: Net): (Net, Option<Pbuf>) {
    if n.queue == [] then (n, None) else (n.(queue := n.queue[1..]), Some(n.queue[0]))
  }

  function GetReadLen(n: Net): nat {
    if n.queue == [] then 0 else n.queue[0].Len()
  }

  /** net_ErrorCb and net_Disconnect differ only in the call that gives the PCB back. */
  function Drop(n: Net): (r: Net)
    ensures |r.stack.pcbs| == |n.stack.pcbs| && r.hNet.None? && r.queue == n.queue && r.capacity == n.capacity
  {
    Raise(n.(stack := TcpRelease(Detach(n.stack, n.hNet), n.hNet), hNet := None, isConnected := false), Disconnected)
  }

  function ReceiveCb(n: Net, arg: bool, pcb: bool, pb: Option<Pbuf>): (Net, Err) {
    if arg && pcb then
      match pb
      case Some(b) => var (n', ok) := Enqueue(n, b); (n', if ok then ErrOk else ErrMem)
      case None => (Drop(n), ErrOk)
    else
      (n, ErrOk)
  }

  function ConnectedCb(n: Net): (r: Net)
    ensures |r.stack.pcbs| == |n.stack.pcbs| && r.hNet == n.hNet && r.queue == n.queue && r.capacity == n.capacity
  {
    var st := TcpSent(TcpRecv(TcpPoll(TcpErr(n.stack, n.hNet, true), n.hNet, true), n.hNet, true), n.hNet, true);
    Raise(n.(stack := st, isConnected := true), Connected)
  }

  function Connect(n: Net, outcome: ConnectOutcome): (r: (Net, int))
    ensures r.1 == 0 <==> outcome == ConnectStarts
    ensures r.1 == 0 ==> r.0.hNet == Some(|n.stack.pcbs|)
  {
    if outcome == NoPcb then (n, -2)
    else
      var h := Some(|n.stack.pcbs|);
      var st := TcpConnect(TcpArg(TcpErr(TcpNew(n.stack), h, true), h, true), h, outcome == ConnectStarts);
      if outcome == ConnectFails then
        (n.(stack := TcpRelease(st, h), hNet := None, isConnected := false), -4)
      else
        (n.(stack := st, hNet := h), 0)
  }

  function Copied(pb: Pbuf, len: nat): seq<byte> {
    pb.payload[..Min(pb.Len(), len)]
  }

  /** What the application's event callback does to its flag. */
  function Flagged(flag: bool, e: NetEvent): bool {
    flag || e == Disconnected
  }
}

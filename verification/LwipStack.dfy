/**
 * The part of the lwIP raw API that the network client talks to, as a value.
 * A protocol control block (PCB) is named by its allocation number and is never
 * forgotten, so that every use and every release of it can be checked.  Calls on
 * a NULL PCB, and calls on a PCB that has been given back, change nothing else
 * and are counted.
 */
module LwipStack {
  import opened Base

  type Pcb = nat

  /**
   * A received packet buffer.  `payload` is the first segment, the one whose
   * length is `pbuf->len`; `rest` is what hangs behind it when the buffer is
   * chained.  `id` and `conn` record the order of arrival and the connection.
   */
  datatype Pbuf = Pbuf(id: nat, conn: Pcb, payload: seq<byte>, rest: seq<byte>) {
    function Len(): nat { |payload| }
  }

  datatype PcbState = PcbState(
    releases: nat,            // how often it was closed, aborted or freed by lwIP
    arg: bool,                // callback argument is the client instance, not NULL
    errCb: bool, recvCb: bool, sentCb: bool, pollCb: bool,
    connecting: bool,         // the connected callback is still to come
    failed: bool,             // tcp_connect reported an error
    held: seq<Pbuf>,          // received, not yet taken by the client, oldest first
    refused: bool,            // the client has refused the oldest held buffer
    arrived: seq<Pbuf>,       // everything the peer has sent here
    accepted: seq<Pbuf>,      // taken by the client
    gaveUp: seq<Pbuf>,        // refused buffers that lwIP has thrown away
    discarded: seq<Pbuf>,     // still held when the PCB was released
    credited: nat,            // bytes reported by tcp_recved
    out: seq<byte>,           // accepted by tcp_write
    flushed: nat)             // length of `out` at the last tcp_output

  const NEW_PCB: PcbState :=
    PcbState(0, false, false, false, false, false, false, false, [], false, [], [], [], [], 0, [], 0)

  datatype Stack = Stack(
    pcbs: seq<PcbState>,
    arrived: seq<Pbuf>,       // all packet buffers, in order of arrival
    freed: seq<Pbuf>,         // packet buffers returned to the pool, in order
    nullCalls: nat,           // tcp_* calls on a NULL PCB
    badCalls: nat)            // tcp_* calls on a PCB that was already released or freed

  const EMPTY: Stack := Stack([], [], [], 0, 0)

  predicate Live(st: Stack, p: Pcb) {
    p < |st.pcbs| && st.pcbs[p].releases == 0
  }

  predicate Usable(st: Stack, h: Option<Pcb>) {
    h.Some? && Live(st, h.value)
  }

  function Misused(st: Stack, h: Option<Pcb>): Stack {
    if h.None? then st.(nullCalls := st.nullCalls + 1) else st.(badCalls := st.badCalls + 1)
  }

  function Put(st: Stack, p: Pcb, c: PcbState): Stack
    requires p < |st.pcbs|
  {
    st.(pcbs := st.pcbs[p := c])
  }

  // ---- calls made by the client ----

  function TcpNew(st: Stack): Stack {
    st.(pcbs := st.pcbs + [NEW_PCB])
  }

  function TcpArg(st: Stack, h: Option<Pcb>, on: bool): Stack {
    if Usable(st, h) then Put(st, h.value, st.pcbs[h.value].(arg := on)) else Misused(st, h)
  }

  function TcpErr(st: Stack, h: Option<Pcb>, on: bool): Stack {
    if Usable(st, h) then Put(st, h.value, st.pcbs[h.value].(errCb := on)) else Misused(st, h)
  }

  function TcpRecv(st: Stack, h: Option<Pcb>, on: bool): Stack {
    if Usable(st, h) then Put(st, h.value, st.pcbs[h.value].(recvCb := on)) else Misused(st, h)
  }

  function TcpSent(st: Stack, h: Option<Pcb>, on: bool): Stack {
    if Usable(st, h) then Put(st, h.value, st.pcbs[h.value].(sentCb := on)) else Misused(st, h)
  }

  function TcpPoll(st: Stack, h: Option<Pcb>, on: bool): Stack {
    if Usable(st, h) then Put(st, h.value, st.pcbs[h.value].(pollCb := on)) else Misused(st, h)
  }

  /** tcp_connect: the connected callback will follow if the call succeeds. */
  function TcpConnect(st: Stack, h: Option<Pcb>, ok: bool): Stack {
    if Usable(st, h) then Put(st, h.value, st.pcbs[h.value].(connecting := ok, failed := !ok)) else Misused(st, h)
  }

  /** tcp_close and tcp_abort both give the PCB back; what it still holds goes to the pool. */
  function TcpRelease(st: Stack, h: Option<Pcb>): Stack {
    if Usable(st, h) then
      var c := st.pcbs[h.value];
      Put(st, h.value,
          c.(releases := c.releases + 1, discarded := c.discarded + c.held, held := [], refused := false))
        .(freed := st.freed + c.held)
    else
      Misused(st, h)
  }

  /** Take every callback off a PCB. */
  function Detach(st: Stack, h: Option<Pcb>): Stack {
    TcpPoll(TcpErr(TcpRecv(TcpSent(TcpArg(st, h, false), h, false), h, false), h, false), h, false)
  }

  function TcpRecved(st: Stack, h: Option<Pcb>, len: nat): Stack {
    if Usable(st, h) then
      Put(st, h.value, st.pcbs[h.value].(credited := st.pcbs[h.value].credited + len))
    else
      Misused(st, h)
  }

  /** The length parameter of tcp_write is 16 bits wide. */
  function Truncated(buf: seq<byte>): seq<byte> {
    buf[..|buf| % U16]
  }

  /** tcp_write takes all of the bytes it is asked to take, or reports an error and takes none. */
  function TcpWrite(st: Stack, h: Option<Pcb>, buf: seq<byte>, room: bool): (Stack, bool) {
    if !Usable(st, h) then (Misused(st, h), false)
    else if room then
      (Put(st, h.value, st.pcbs[h.value].(out := st.pcbs[h.value].out + Truncated(buf))), true)
    else (st, false)
  }

  function TcpOutput(st: Stack, h: Option<Pcb>): Stack {
    if Usable(st, h) then
      Put(st, h.value, st.pcbs[h.value].(flushed := |st.pcbs[h.value].out|))
    else
      Misused(st, h)
  }

  function PbufFree(st: Stack, pb: Pbuf): Stack {
    st.(freed := st.freed + [pb])
  }

  // ---- what lwIP does by itself ----

  /** A segment arrives on PCB `p`. */
  function Arrive(st: Stack, p: Pcb, payload: seq<byte>, rest: seq<byte>): Stack
    requires p < |st.pcbs|
  {
    var pb := Pbuf(|st.arrived|, p, payload, rest);
    var c := st.pcbs[p];
    Put(st, p, c.(held := c.held + [pb], arrived := c.arrived + [pb])).(arrived := st.arrived + [pb])
  }

  /** The receive callback took the oldest held buffer. */
  function Taken(st: Stack, p: Pcb): Stack
    requires p < |st.pcbs| && st.pcbs[p].held != []
  {
    var c := st.pcbs[p];
    Put(st, p, c.(held := c.held[1..], refused := false, accepted := c.accepted + [c.held[0]]))
  }

  /** The receive callback answered ERR_MEM: lwIP keeps the buffer and will present it again first. */
  function Refused(st: Stack, p: Pcb): Stack
    requires p < |st.pcbs|
  {
    Put(st, p, st.pcbs[p].(refused := true))
  }

  /** lwIP frees a PCB by itself: the PCB is gone with all that was registered on it. */
  function Reclaim(st: Stack, p: Pcb): Stack {
    TcpRelease(Detach(st, Some(p)), Some(p))
  }

  /** lwIP stops redelivering a refused buffer and frees it. */
  function GiveUp(st: Stack, p: Pcb): Stack
    requires p < |st.pcbs| && st.pcbs[p].held != []
  {
    var c := st.pcbs[p];
    Put(st, p, c.(held := c.held[1..], refused := false, gaveUp := c.gaveUp + [c.held[0]]))
      .(freed := st.freed + [c.held[0]])
  }
}

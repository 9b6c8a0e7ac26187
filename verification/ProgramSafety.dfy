/** What the invariant of the program object implies at every statement of the program. */
module ProgramSafety {
  import opened Base
  import opened LwipStack
  import Firmware
  import Connection
  import DataPath
  import Output
  import CallTrace
  import Timing

  /**
   * Wherever the program stands between two statement groups, with whatever
   * interrupts behind it, all run-time properties hold of its real state: its
   * array queue, its handle, its flags and its 32-bit counters.
   */
  lemma ProgramIsSafe(p: Firmware.Program)
    requires p.Valid()
    ensures Connection.Inv(p.Abs())
    ensures forall q: Pcb :: Live(p.net.stack, q) <==> p.net.hNet == Some(q)
    ensures p.net.isConnected ==> p.net.hNet.Some?
    ensures Connection.SilentInv(p.net.Abs()) && Connection.EventInv(p.net.Abs()) && Timing.Spaced(p.calls)
    ensures DataPath.DataInv(p.Abs()) && Output.OutputInv(p.Abs()) && Timing.TimeInv(p.Abs(), p.startTick)
    ensures CallTrace.InLanguage(CallTrace.Trace(p.Abs()))
    ensures p.upTime == (p.tick / 100) % U32 && p.ticker.ticks == p.tick % U32
  {
    DataPath.RunHasDataInv(p.size, p.startTick, p.trace);
    Connection.ReleasedPcbsAreSilent(p.size, p.startTick, p.trace);
    Connection.EventsAlternate(p.size, p.startTick, p.trace);
    Timing.RunIsSpaced(p.size, p.startTick, p.trace);
    Connection.PcbLifetime(p.size, p.startTick, p.trace);
    Output.RunHasOutputInv(p.size, p.startTick, p.trace);
    Timing.RunHasTimeInv(p.size, p.startTick, p.trace);
    CallTrace.CallsAreSessions(p.size, p.startTick, p.trace);
    assert p.net.stack == p.Abs().net.stack;
  }
}

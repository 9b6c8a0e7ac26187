/**
 * Real time: the counters, the back-off and the uptime report, for runs of any
 * length, across every wraparound of the 32-bit counters.
 */
module Timing {
  import opened Base
  import opened McuModel
  import opened Connection
  import opened SwTimer
  import opened SysTick

  function Count(cs: seq<Stamped>, c: Call): nat {
    if cs == [] then 0 else Count(cs[..|cs| - 1], c) + if cs[|cs| - 1].call == c then 1 else 0
  }

  lemma CountOne(cs: seq<Stamped>, x: Stamped, c: Call)
    ensures Count(cs + [x], c) == Count(cs, c) + if x.call == c then 1 else 0
  {
    assert (cs + [x])[..|cs|] == cs;
  }

  // ---- invariants ----

  ghost predicate ClockInv(s: Sys) {
    && s.clocks == At(s.tick)
    && s.reportTimer == Timeout(REPORT_TICKS, s.reportArmedAt % U32) && s.reportArmedAt <= s.tick
    && s.errorArmedAt <= s.tick
    && (s.runState == Delay ==> s.errorTimer == Timeout(BACKOFF_TICKS, s.errorArmedAt % U32))
  }

  /** The back-off separates the calls of net_Connect; `t0` is the tick at which the loop was entered. */
  ghost predicate ConnectInv(s: Sys, t0: nat) {
    var k := Count(s.calls, NetConnect);
    && t0 <= s.tick
    && BACKOFF_TICKS * (k - 1) <= s.tick - t0
    && (s.runState == WaitIp ==> BACKOFF_TICKS * k <= s.tick - t0)
    && (s.runState == Delay ==> BACKOFF_TICKS * (k - 1) <= s.errorArmedAt - t0)
    && (forall i :: 0 <= i < |s.calls| && s.calls[i].call == Backoff ==>
          && s.calls[i].tick <= s.errorArmedAt
          && (s.runState == WaitIp ==> s.calls[i].tick + BACKOFF_TICKS <= s.tick))
  }

  predicate Formatting(pc: Pc) {
    pc.FormatHours? || pc.FormatMinutes? || pc.FormatSeconds?
  }

  ghost predicate ReportInv(s: Sys, t0: nat) {
    && t0 <= s.reportArmedAt
    && REPORT_TICKS * (|s.reports| + if Formatting(s.pc) then 1 else 0) <= s.reportArmedAt - t0
    && (s.pc == Rearm ==> s.tick >= s.reportArmedAt + REPORT_TICKS)
    && (s.pc.FormatMinutes? ==> s.pc.t1 <= s.tick && s.pc.h == UpTime(s.pc.t1) / 3600)
    && (s.pc.FormatSeconds? ==>
          && s.pc.t1 <= s.pc.t2 <= s.tick
          && s.pc.h == UpTime(s.pc.t1) / 3600 && s.pc.m == (UpTime(s.pc.t2) / 60) % 60)
    && (forall i :: 0 <= i < |s.reports| ==>
          var r := s.reports[i];
          r.shown == Report(UpTime(r.t1), UpTime(r.t2), UpTime(r.t3)) && r.t1 <= r.t2 <= r.t3 <= s.tick)
  }

  /** While the loop stays in DELAY, every poll so far was answered with false. */
  ghost predicate DelayInv(s: Sys) {
    s.runState == Delay ==>
      forall i :: 0 <= i < |s.delayPolls| ==> !TimedOut(s.errorTimer, s.delayPolls[i] % U32)
  }

  ghost predicate TimeInv(s: Sys, t0: nat) {
    ClockInv(s) && ConnectInv(s, t0) && ReportInv(s, t0) && DelayInv(s)
  }

  // ---- steps ----

  /** Nothing that the timing invariants speak of has changed, except perhaps the log of other calls. */
  ghost predicate Timeless(s: Sys, r: Sys) {
    && r.clocks == s.clocks && r.tick == s.tick
    && r.reportTimer == s.reportTimer && r.reportArmedAt == s.reportArmedAt
    && r.errorTimer == s.errorTimer && r.errorArmedAt == s.errorArmedAt
    && r.reports == s.reports && r.delayPolls == s.delayPolls
    && (r.runState == s.runState || (r.runState != WaitIp && r.runState != Delay))
    && (r.pc == s.pc || (!Formatting(r.pc) && r.pc != Rearm && !Formatting(s.pc)))
    && (r.calls == s.calls
        || exists x :: r.calls == s.calls + [x] && x.call != NetConnect && x.call != Backoff)
  }

  lemma TimelessKeeps(s: Sys, r: Sys, t0: nat)
    requires TimeInv(s, t0) && Timeless(s, r)
    ensures TimeInv(r, t0)
  {
    if r.calls != s.calls {
      var x :| r.calls == s.calls + [x] && x.call != NetConnect && x.call != Backoff;
      CountOne(s.calls, x, NetConnect);
    }
  }

  lemma ReturnIsTimeless(s: Sys, c: Call, code: UmqttError)
    requires s.pc == InUmqtt(c, Idle)
    ensures Timeless(s, ReturnStep(s, c, code))
  {
    var r := ReturnStep(s, c, code);
    if c == Subscribe || c == PublishStatus || c == PublishMac || c == PublishIp {
      assert r.calls == s.calls + [Stamped(r.pc.call, s.iter, s.tick)];
    }
  }

  lemma DispatchIsTimeless(s: Sys, env: Env)
    requires s.pc == Dispatch && s.runState != Delay
    ensures Timeless(s, DispatchStep(s, env))
  {
    var r := DispatchStep(s, env);
    if r.pc.InUmqtt? {
      assert r.calls == s.calls + [Stamped(r.pc.call, s.iter, s.tick)];
    }
  }

  lemma PollKeepsTime(s: Sys, env: Env, t0: nat)
    requires TimeInv(s, t0) && s.pc == Dispatch && s.runState == Delay
    ensures TimeInv(DispatchStep(s, env), t0)
  {
    TimerRefinesRealTime(s.errorArmedAt, s.tick, MS_PER_TICK, BACKOFF_MS);
  }

  lemma ConnectKeepsSpacing(s: Sys, r: Sys, t0: nat)
    requires ConnectInv(s, t0) && s.runState == WaitIp && (r.runState == WaitNet || r.runState == Recovery)
    requires r.calls == s.calls + [Stamped(NetConnect, s.iter, s.tick)]
    requires r.tick == s.tick && r.errorArmedAt == s.errorArmedAt
    ensures ConnectInv(r, t0)
  {
    CountOne(s.calls, Stamped(NetConnect, s.iter, s.tick), NetConnect);
  }

  lemma ConnectKeepsTime(s: Sys, env: Env, t0: nat)
    requires LoopInv(s) && TimeInv(s, t0) && s.pc == DoConnect
    ensures TimeInv(ConnectStep(s, env), t0)
  {
    var r := ConnectStep(s, env);
    assert s.runState == WaitIp;
    ConnectKeepsSpacing(s, r, t0);
    assert ClockInv(r);
    assert ReportInv(r, t0);
    assert DelayInv(r);
  }

  lemma BackoffKeepsTime(s: Sys, t0: nat)
    requires TimeInv(s, t0) && s.pc == ArmBackoff
    ensures TimeInv(BackoffStep(s), t0)
  {
    CountOne(s.calls, Stamped(Backoff, s.iter, s.tick), NetConnect);
  }

  lemma CheckKeepsTime(s: Sys, t0: nat)
    requires TimeInv(s, t0) && s.pc == CheckReport
    ensures TimeInv(ReportStep(s), t0)
  {
    TimerRefinesRealTime(s.reportArmedAt, s.tick, MS_PER_TICK, REPORT_MS);
  }

  lemma RearmKeepsTime(s: Sys, t0: nat)
    requires TimeInv(s, t0) && s.pc == Rearm
    ensures TimeInv(ReportStep(s), t0)
  {
    var r := ReportStep(s);
    assert r.reportTimer == Timeout(REPORT_TICKS, s.tick % U32);
    assert REPORT_TICKS * (|s.reports| + 1) == REPORT_TICKS * |s.reports| + REPORT_TICKS;
  }

  lemma FormatKeepsTime(s: Sys, t0: nat)
    requires TimeInv(s, t0) && (s.pc == FormatHours || s.pc.FormatMinutes?)
    ensures TimeInv(ReportStep(s), t0)
  {
    var r := ReportStep(s);
    assert Formatting(r.pc) && Formatting(s.pc);
    assert ReportInv(r, t0);
  }

  lemma PublishKeepsTime(s: Sys, t0: nat)
    requires TimeInv(s, t0) && s.pc.FormatSeconds?
    ensures TimeInv(ReportStep(s), t0)
  {
    CountOne(s.calls, Stamped(PublishUptime, s.iter, s.tick), NetConnect);
  }

  lemma MainKeepsTime(s: Sys, env: Env, t0: nat)
    requires LoopInv(s) && TimeInv(s, t0)
    ensures TimeInv(MainStep(s, env), t0)
  {
    var r := MainStep(s, env);
    match s.pc {
      case InUmqtt(c, io) =>
        if InTransport(s, env) {
          assert r == TransportStep(s, c, io, env) && SameLoop(s, r);
          assert Timeless(s, r);
        } else {
          ReturnIsTimeless(s, c, env.code);
        }
        TimelessKeeps(s, r, t0);
      case Dispatch =>
        if s.runState == Delay {
          PollKeepsTime(s, env, t0);
        } else {
          DispatchIsTimeless(s, env);
          TimelessKeeps(s, r, t0);
        }
      case DoConnect => ConnectKeepsTime(s, env, t0);
      case ArmBackoff => BackoffKeepsTime(s, t0);
      case DoDisconnect =>
        assert r.calls == s.calls + [Stamped(NetDisconnect, s.iter, s.tick)];
        TimelessKeeps(s, r, t0);
      case Head => TimelessKeeps(s, r, t0);
      case Clear => TimelessKeeps(s, r, t0);
      case FormatSeconds(_, _, _, _) => PublishKeepsTime(s, t0);
      case CheckReport => CheckKeepsTime(s, t0);
      case Rearm => RearmKeepsTime(s, t0);
      case _ => FormatKeepsTime(s, t0);
    }
    assert TimeInv(r, t0);
  }

  lemma TickKeepsTime(s: Sys, t0: nat)
    requires TimeInv(s, t0)
    ensures TimeInv(TickStep(s), t0)
  {
    NextClocks(s.tick + 1);
  }

  lemma CallbackIsTimeless(s: Sys, l: Label)
    requires !l.Main? && !l.OnTick?
    ensures Timeless(s, Next(s, l))
  {
  }

  lemma {:induction false} RunHasTimeInv(size: nat, tick: nat, ls: seq<Label>)
    requires 2 <= size <= 256
    ensures TimeInv(Run(size, tick, ls), tick)
    decreases |ls|
  {
    if ls != [] {
      var front, l := ls[..|ls| - 1], ls[|ls| - 1];
      RunHasInv(size, tick, front);
      RunHasTimeInv(size, tick, front);
      var s := Run(size, tick, front);
      var r := Next(s, l);
      match l {
        case Main(env) => MainKeepsTime(s, env, tick);
        case OnTick => TickKeepsTime(s, tick);
        case _ =>
          CallbackIsTimeless(s, l);
          TimelessKeeps(s, r, tick);
      }
      assert TimeInv(r, tick);
    }
  }

  // ---- what follows ----

  /** The counters follow the real tick count in every reachable state, whatever interleaves with the tick interrupt. */
  lemma CountersFollowRealTime(size: nat, tick: nat, ls: seq<Label>)
    requires 2 <= size <= 256
    ensures var s := Run(size, tick, ls);
            s.clocks == Clocks(s.tick % U32, (10 * s.tick) % U32, s.tick % 100, (s.tick / 100) % U32)
  {
    RunHasTimeInv(size, tick, ls);
  }

  lemma ConnectCount(s: Sys, t0: nat)
    requires ConnectInv(s, t0)
    ensures Count(s.calls, NetConnect) <= 1 + (s.tick - t0) / 300
  {
    var k, d := Count(s.calls, NetConnect), s.tick - t0;
    assert BACKOFF_TICKS == 300;
    assert 300 * (k - 1) <= d;
  }

  /**
   * From any back-off to any later net_Connect at least 300 real ticks pass, so
   * by tick n at most 1 + n / 300 connections have been tried -- for any n.
   */
  lemma BackoffIsKept(size: nat, tick: nat, ls: seq<Label>, i: nat, j: nat)
    requires 2 <= size <= 256
    ensures var s := Run(size, tick, ls);
            && Count(s.calls, NetConnect) <= 1 + (s.tick - tick) / 300
            && (i < j < |s.calls| && s.calls[i].call == Backoff && s.calls[j].call == NetConnect ==>
                  s.calls[j].tick >= s.calls[i].tick + 300)
  {
    RunHasTimeInv(size, tick, ls);
    ConnectCount(Run(size, tick, ls), tick);
    RunIsSpaced(size, tick, ls);
  }

  ghost predicate Spaced(cs: seq<Stamped>) {
    forall i, j :: 0 <= i < j < |cs| && cs[i].call == Backoff && cs[j].call == NetConnect ==>
      cs[j].tick >= cs[i].tick + BACKOFF_TICKS
  }

  lemma NextIsSpaced(s: Sys, l: Label, t0: nat)
    requires LoopInv(s) && ConnectInv(s, t0) && Spaced(s.calls)
    ensures Spaced(Next(s, l).calls)
  {
    var r := Next(s, l);
    if l.Main? && s.pc == DoConnect {
      assert r.calls == s.calls + [Stamped(NetConnect, s.iter, s.tick)];
    } else if l.Main? && InTransport(s, l.env) {
      assert r == TransportStep(s, s.pc.call, s.pc.io, l.env);
    } else if l.Main? && s.pc.InUmqtt? {
      ReturnIsTimeless(s, s.pc.call, l.env.code);
    } else if l.Main? && s.pc == Dispatch && s.runState != Delay {
      DispatchIsTimeless(s, l.env);
    }
    assert Spaced(r.calls);
  }

  lemma {:induction false} RunIsSpaced(size: nat, tick: nat, ls: seq<Label>)
    requires 2 <= size <= 256
    ensures Spaced(Run(size, tick, ls).calls)
    decreases |ls|
  {
    if ls != [] {
      var front := ls[..|ls| - 1];
      RunHasInv(size, tick, front);
      RunHasTimeInv(size, tick, front);
      RunIsSpaced(size, tick, front);
      NextIsSpaced(Run(size, tick, front), ls[|ls| - 1], tick);
    }
  }

  lemma PeriodsInTicks()
    ensures BACKOFF_TICKS == 300 && REPORT_TICKS == 500
  {
  }

  lemma PollEnds(s: Sys, gap: nat)
    requires ClockInv(s) && DelayInv(s) && s.runState == Delay
    requires gap == U32 - BACKOFF_TICKS && PolledEvery(s.errorArmedAt, s.delayPolls + [s.tick], gap)
    requires s.tick >= s.errorArmedAt + BACKOFF_TICKS
    ensures TimedOut(s.errorTimer, s.clocks.ticks)
  {
    if !TimedOut(s.errorTimer, s.tick % U32) {
      UnansweredPollsAreEarly(s.errorArmedAt, s.delayPolls + [s.tick], s.errorTimer);
      assert false;
    }
  }

  /**
   * The back-off ends: if the loop has polled its timer with gaps of at most
   * 2^32 - 300 ticks, the first poll 300 ticks or more after the recovery leaves
   * the DELAY state.
   */
  lemma BackoffEnds(size: nat, tick: nat, ls: seq<Label>, env: Env)
    requires 2 <= size <= 256
    ensures var s := Run(size, tick, ls);
            && s.pc == Dispatch && s.runState == Delay
            && PolledEvery(s.errorArmedAt, s.delayPolls + [s.tick], U32 - 300)
            && s.tick >= s.errorArmedAt + 300 ==>
              Run(size, tick, ls + [Main(env)]).runState == WaitIp
  {
    var s := Run(size, tick, ls);
    RunHasTimeInv(size, tick, ls);
    ExecOne(Start(size - 1, tick), ls, Main(env));
    PeriodsInTicks();
    if s.pc == Dispatch && s.runState == Delay && PolledEvery(s.errorArmedAt, s.delayPolls + [s.tick], U32 - 300)
       && s.tick >= s.errorArmedAt + 300 {
      PollEnds(s, U32 - 300);
      assert Next(s, Main(env)) == DispatchStep(s, env);
    }
  }

  /** By tick n at most n / 500 uptime reports have been sent, for any n. */
  lemma ReportRate(size: nat, tick: nat, ls: seq<Label>)
    requires 2 <= size <= 256
    ensures var s := Run(size, tick, ls);
            500 * |s.reports| <= s.tick - tick
  {
    RunHasTimeInv(size, tick, ls);
    ReportCount(Run(size, tick, ls), tick);
  }

  lemma ReportCount(s: Sys, t0: nat)
    requires ClockInv(s) && ReportInv(s, t0)
    ensures 500 * |s.reports| <= s.tick - t0
  {
    PeriodsInTicks();
    var k := |s.reports| + if Formatting(s.pc) then 1 else 0;
    assert REPORT_TICKS * k == 500 * k;
  }

  /**
   * Every uptime report published is made of three reads in order and has its
   * minutes and seconds below 60.  Formatted within less than a full round of the
   * counter, it shows the true uptime at its last read exactly when no hour began
   * since the first read and no minute since the second; in particular when no
   * tick came between the reads.
   */
  lemma ReportIsTrueIff(size: nat, tick: nat, ls: seq<Label>, i: nat)
    requires 2 <= size <= 256
    requires i < |Run(size, tick, ls).reports|
    ensures var s := Run(size, tick, ls);
            var r := s.reports[i];
            var exact := Seconds(r.shown) == (r.t3 / 100) % U32;
            && r.shown.m < 60 && r.shown.s < 60 && r.t1 <= r.t2 <= r.t3 <= s.tick
            && (exact <==> HourOf(r.t1) == HourOf(r.t3) && MinuteOf(r.t2) == MinuteOf(r.t3))
            && (r.t3 - r.t1 <= ROUND - HOUR ==>
                  (exact <==> !Crosses(r.t1, r.t3, HOUR) && !Crosses(r.t2, r.t3, MINUTE)))
            && (r.t1 == r.t3 ==> exact)
  {
    RunHasTimeInv(size, tick, ls);
    var r := Run(size, tick, ls).reports[i];
    ReportIsExactIff(UpTime(r.t1), UpTime(r.t2), UpTime(r.t3));
    if r.t3 - r.t1 <= ROUND - HOUR {
      UntornIff(r.t1, r.t2, r.t3);
    }
  }
}

/**
 * The software timer: a free-running 32-bit tick counter and timeouts that are
 * tested by wrapping subtraction.  The lemmas compare the wrapped test with an
 * unbounded count of real ticks.
 */
module SwTimer {
  import opened Base

  datatype Timeout = Timeout(timeoutTicks: uint32, startTicks: uint32)

  function Armed(ticks: uint32, msPerTick: uint32, ms: uint32): Timeout
    requires msPerTick != 0
  {
    Timeout(ms / msPerTick, ticks)
  }

  predicate TimedOut(t: Timeout, ticks: uint32) {
    Sub32(ticks, t.startTicks) >= t.timeoutTicks
  }

  /** The caller's timer structure. */
  class SwTimer {
    var timeoutTicks: uint32
    var startTicks: uint32

    function Value(): Timeout
      reads this
    {
      Timeout(timeoutTicks, startTicks)
    }

    constructor ()
      ensures Value() == Timeout(0, 0)
    {
      timeoutTicks := 0;
      startTicks := 0;
    }
  }

  /** The module's static state. */
  class TickCounter {
    var ticks: uint32
    var msPerTick: uint32

    constructor ()
      ensures ticks == 0 && msPerTick == 100
    {
      ticks := 0;
      msPerTick := 100;
    }

    method Tick()
      modifies this`ticks
      ensures ticks == Add32(old(ticks), 1)
    {
      ticks := (ticks + 1) % U32;
    }

    method SetMsPerTick(ms: uint32)
      modifies this`msPerTick
      ensures msPerTick == ms
    {
      msPerTick := ms;
    }

    method SetTimeout(timer: SwTimer, ms: uint32)
      requires msPerTick != 0
      modifies timer
      ensures timer.Value() == Armed(ticks, msPerTick, ms)
    {
      timer.startTicks := ticks;
      timer.timeoutTicks := ms / msPerTick;
    }

    method IsTimedOut(timer: SwTimer) returns (r: bool)
      ensures r == TimedOut(timer.Value(), ticks)
    {
      r := Sub32(ticks, timer.startTicks) >= timer.timeoutTicks;
    }
  }

  /** The wrapped difference of two wrapped counts is the true difference, wrapped. */
  lemma WrappedDifference(start: nat, now: nat)
    requires start <= now
    ensures Sub32(now % U32, start % U32) == (now - start) % U32
  {
    var a, b := now / U32, start / U32;
    var d := now % U32 - start % U32;
    assert now - start == (a - b) * U32 + d;
    if d < 0 {
      assert now - start == (a - b - 1) * U32 + (d + U32);
    }
  }

  /**
   * A timer armed at real tick `start` and tested at real tick `now`: a true
   * answer always means that the time has really passed, and below 2^32 ticks
   * the answer is exact, whatever the start value and however often the counter wraps.
   */
  lemma TimerRefinesRealTime(start: nat, now: nat, msPerTick: uint32, ms: uint32)
    requires start <= now && msPerTick != 0
    ensures var t := Armed(start % U32, msPerTick, ms);
            && (TimedOut(t, now % U32) ==> now - start >= ms / msPerTick)
            && (now - start < U32 ==> (TimedOut(t, now % U32) <==> now - start >= ms / msPerTick))
  {
    WrappedDifference(start, now);
    var e := now - start;
    assert e % U32 <= e;
  }

  /** The whole truth about the wrapped test: it reads true except in the first `timeoutTicks` of every 2^32. */
  lemma TimedOutExactly(start: nat, now: nat, t: Timeout)
    requires start <= now && t.startTicks == start % U32
    ensures TimedOut(t, now % U32) <==> (now - start) % U32 >= t.timeoutTicks
  {
    WrappedDifference(start, now);
  }

  /** The instant before poll `i` from which its gap is counted. */
  function Previous(start: nat, polls: seq<nat>, i: nat): nat
    requires i <= |polls|
  {
    if i == 0 then start else polls[i - 1]
  }

  /** Poll instants that never lie more than `gap` ticks apart, the first counted from `start`. */
  ghost predicate PolledEvery(start: nat, polls: seq<nat>, gap: nat) {
    forall i :: 0 <= i < |polls| ==>
      Previous(start, polls, i) <= polls[i] <= Previous(start, polls, i) + gap
  }

  lemma UnansweredPollIsEarly(start: nat, before: nat, now: nat, t: Timeout)
    requires 0 < t.timeoutTicks && t.startTicks == start % U32
    requires start <= before < start + t.timeoutTicks && before <= now <= before + (U32 - t.timeoutTicks)
    requires !TimedOut(t, now % U32)
    ensures now < start + t.timeoutTicks
  {
    TimedOutExactly(start, now, t);
    assert 0 <= now - start < U32;
  }

  lemma {:induction false} UnansweredPollsAreEarly(start: nat, polls: seq<nat>, t: Timeout)
    requires 0 < t.timeoutTicks && t.startTicks == start % U32
    requires PolledEvery(start, polls, U32 - t.timeoutTicks)
    requires forall i :: 0 <= i < |polls| ==> !TimedOut(t, polls[i] % U32)
    ensures start <= Previous(start, polls, |polls|) < start + t.timeoutTicks
  {
    if polls != [] {
      var k := |polls| - 1;
      var front := polls[..k];
      assert forall i :: 0 <= i <= k ==> Previous(start, front, i) == Previous(start, polls, i);
      UnansweredPollsAreEarly(start, front, t);
      UnansweredPollIsEarly(start, Previous(start, polls, k), polls[k], t);
    }
  }

  /** A waiting loop that polls often enough cannot step over every true answer. */
  lemma PollingCannotMissTimeout(start: nat, polls: seq<nat>, t: Timeout)
    requires 0 < t.timeoutTicks && t.startTicks == start % U32
    requires PolledEvery(start, polls, U32 - t.timeoutTicks)
    requires polls != [] && polls[|polls| - 1] >= start + t.timeoutTicks
    ensures exists i :: 0 <= i < |polls| && TimedOut(t, polls[i] % U32)
  {
    if forall i :: 0 <= i < |polls| ==> !TimedOut(t, polls[i] % U32) {
      UnansweredPollsAreEarly(start, polls, t);
      assert false;
    }
  }

  /** The polls of one more round of the counter, all in the ticks where the test reads false again. */
  function RoundOfPolls(base: nat, k: uint32): seq<nat> {
    seq(k, i requires 0 <= i < k => if i + 1 < k then base + i + 1 else base + U32)
  }

  lemma RoundIsUnanswered(start: nat, n: nat, t: Timeout, i: nat)
    requires t.startTicks == start % U32 && i < t.timeoutTicks
    ensures !TimedOut(t, RoundOfPolls(start + n * U32, t.timeoutTicks)[i] % U32)
  {
    var now := RoundOfPolls(start + n * U32, t.timeoutTicks)[i];
    TimedOutExactly(start, now, t);
    if i + 1 < t.timeoutTicks {
      DivMod(n, i + 1, U32);
    } else {
      assert now - start == (n + 1) * U32 + 0;
      DivMod(n + 1, 0, U32);
    }
  }

  lemma RoundIsPolledEvery(base: nat, k: uint32)
    requires k > 0
    ensures PolledEvery(base, RoundOfPolls(base, k), U32 - k + 1)
    ensures RoundOfPolls(base, k)[k - 1] == base + U32
  {
  }

  lemma JoinPolls(start: nat, a: seq<nat>, b: seq<nat>, gap: nat)
    requires a != [] && PolledEvery(start, a, gap) && PolledEvery(a[|a| - 1], b, gap)
    ensures PolledEvery(start, a + b, gap)
  {
    var c := a + b;
    forall i | 0 <= i < |c|
      ensures Previous(start, c, i) <= c[i] <= Previous(start, c, i) + gap
    {
      if i < |a| {
        assert Previous(start, c, i) == Previous(start, a, i);
      } else {
        assert Previous(start, c, i) == Previous(a[|a| - 1], b, i - |a|);
      }
    }
  }

  /**
   * The bound on the gap is the best possible: with gaps of one tick more, every
   * true answer can be missed for any number of rounds of the counter.
   */
  lemma {:induction false} PollingBoundIsSharp(start: nat, t: Timeout, rounds: nat) returns (polls: seq<nat>)
    requires 0 < t.timeoutTicks && t.startTicks == start % U32
    ensures PolledEvery(start, polls, U32 - t.timeoutTicks + 1)
    ensures polls != [] && polls[|polls| - 1] == start + rounds * U32
    ensures forall i :: 0 <= i < |polls| ==> !TimedOut(t, polls[i] % U32)
    decreases rounds
  {
    if rounds == 0 {
      polls := [start];
      TimedOutExactly(start, start, t);
    } else {
      var n := rounds - 1;
      var before := PollingBoundIsSharp(start, t, n);
      var more := RoundOfPolls(start + n * U32, t.timeoutTicks);
      polls := before + more;
      RoundIsPolledEvery(start + n * U32, t.timeoutTicks);
      JoinPolls(start, before, more, U32 - t.timeoutTicks + 1);
      forall i | |before| <= i < |polls|
        ensures !TimedOut(t, polls[i] % U32)
      {
        RoundIsUnanswered(start, n, t, i - |before|);
        assert polls[i] == more[i - |before|];
      }
    }
  }
}

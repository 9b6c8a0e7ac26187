/** The periodic tick interrupt and the four counters it keeps. */
module SysTick {
  import opened Base

  const TICKS_PER_SECOND: nat := 100
  const MS_PER_TICK: nat := 1000 / TICKS_PER_SECOND

  datatype Clocks = Clocks(ticks: uint32, msTicks: uint32, subseconds: uint32, upTime: uint32)

  const POWER_ON: Clocks := Clocks(0, 0, 0, 0)

  /** One interrupt. */
  function Handler(c: Clocks): Clocks {
    var sub := Add32(c.subseconds, 1);
    if sub == TICKS_PER_SECOND then
      Clocks(Add32(c.ticks, 1), Add32(c.msTicks, MS_PER_TICK), 0, Add32(c.upTime, 1))
    else
      Clocks(Add32(c.ticks, 1), Add32(c.msTicks, MS_PER_TICK), sub, c.upTime)
  }

  /** The counters after `n` interrupts. */
  function After(n: nat): Clocks {
    if n == 0 then POWER_ON else Handler(After(n - 1))
  }

  lemma WrapStep(a: nat, b: nat)
    ensures (a % U32 + b) % U32 == (a + b) % U32
  {
    var q := a / U32;
    assert a + b == q * U32 + (a % U32 + b);
    var w := a % U32 + b;
    assert (q * U32 + w) % U32 == w % U32;
  }

  lemma CentesimalStep(n: nat)
    requires n > 0
    ensures n % 100 == if (n - 1) % 100 == 99 then 0 else (n - 1) % 100 + 1
    ensures n / 100 == if (n - 1) % 100 == 99 then (n - 1) / 100 + 1 else (n - 1) / 100
  {
  }

  /** What the counters hold after `n` interrupts, in closed form. */
  function At(n: nat): Clocks {
    Clocks(n % U32, (10 * n) % U32, n % 100, (n / 100) % U32)
  }

  lemma NextClocks(n: nat)
    requires n > 0
    ensures Handler(At(n - 1)) == At(n)
  {
    var c, d := Handler(At(n - 1)), At(n);
    assert c.ticks == d.ticks by { WrapStep(n - 1, 1); }
    assert c.msTicks == d.msTicks by {
      WrapStep(10 * (n - 1), 10);
      assert 10 * (n - 1) + 10 == 10 * n;
    }
    CentesimalStep(n);
    assert c.upTime == d.upTime by { WrapStep((n - 1) / 100, 1); }
  }

  /** All four counters follow the real tick count for ever, each through its own wraparound. */
  lemma {:induction false} ClocksAgree(n: nat)
    ensures After(n) == At(n)
  {
    if n != 0 {
      ClocksAgree(n - 1);
      NextClocks(n);
    }
  }

  datatype Hms = Hms(h: nat, m: nat, s: nat)

  /**
   * The uptime message is formatted from three reads of the seconds counter.
   * An interrupt between them can tear the message; it shows the time of the
   * last read exactly when the hour and the minute did not change since.
   */
  function Report(atHours: uint32, atMinutes: uint32, atSeconds: uint32): Hms {
    Hms(atHours / 3600, (atMinutes / 60) % 60, atSeconds % 60)
  }

  function Seconds(x: Hms): nat {
    3600 * x.h + 60 * x.m + x.s
  }

  lemma SecondsOfReport(u: uint32)
    ensures Seconds(Report(u, u, u)) == u
  {
    var q := u / 60;
    assert u == 60 * q + u % 60;
    assert q == 60 * (q / 60) + q % 60;
    assert q / 60 == u / 3600;
  }

  lemma ReportIsExactIff(a: uint32, b: uint32, c: uint32)
    ensures Report(a, b, c).m < 60 && Report(a, b, c).s < 60
    ensures Seconds(Report(a, b, c)) == c <==> a / 3600 == c / 3600 && (b / 60) % 60 == (c / 60) % 60
  {
    SecondsOfReport(c);
    var dh, dm := c / 3600 - a / 3600, (c / 60) % 60 - (b / 60) % 60;
    assert -60 < dm < 60;
    assert Seconds(Report(a, b, c)) == c <==> 3600 * dh + 60 * dm == 0;
  }

  /** A report taken in one second is injective in the uptime. */
  lemma ReportIsInjective(u: uint32, v: uint32)
    ensures Report(u, u, u) == Report(v, v, v) <==> u == v
  {
    SecondsOfReport(u);
    SecondsOfReport(v);
  }

  // ---- reads at different ticks ----

  /** Ticks in a minute, in an hour, and until the seconds counter starts over. */
  const MINUTE: nat := 60 * TICKS_PER_SECOND
  const HOUR: nat := 60 * MINUTE
  const ROUND: nat := U32 * TICKS_PER_SECOND

  /** What a read of the seconds counter at tick `t` yields, and the hour and minute made of it. */
  function UpTime(t: nat): uint32 {
    At(t).upTime
  }

  function HourOf(t: nat): nat {
    UpTime(t) / 3600
  }

  function MinuteOf(t: nat): nat {
    (UpTime(t) / 60) % 60
  }

  /** A new period of the counter begins after tick `t` and not after tick `u`. */
  ghost predicate Crosses(t: nat, u: nat, period: nat)
    requires period > 0
  {
    exists b: nat :: t < b <= u && (b % ROUND) % period == 0
  }

  lemma InRound(t: nat)
    ensures (t % ROUND) / 100 == UpTime(t)
  {
    var q, x := t / ROUND, t % ROUND;
    assert t == 100 * (q * U32) + x;
    assert t / 100 == q * U32 + x / 100;
    assert x / 100 < U32;
  }

  lemma SlotAfter(x: nat, period: nat) returns (b: nat)
    requires period > 0
    ensures x < b <= x + period && b % period == 0
    ensures forall y: nat :: y >= x && y / period != x / period ==> b <= y
  {
    b := (x / period + 1) * period;
    assert x == x / period * period + x % period;
    forall y: nat | y >= x && y / period != x / period
      ensures b <= y
    {
      SlotsAreOrdered(x, y, period);
    }
    SlotStart(x / period + 1, period);
  }

  lemma SlotStart(k: nat, period: nat)
    requires period > 0
    ensures (k * period) % period == 0
  {
    DivMod(k, 0, period);
  }

  lemma Multiples(i: nat, j: nat, d: nat)
    requires i <= j
    ensures i * d <= j * d && (i + 1) * d == i * d + d
  {
  }

  lemma Quotient(x: nat, d: nat)
    requires d > 0
    ensures x / d * d <= x < x / d * d + d
  {
    assert x == x / d * d + x % d;
  }

  lemma SlotsAreOrdered(x: nat, y: nat, period: nat)
    requires period > 0 && x <= y && y / period != x / period
    ensures (x / period + 1) * period <= y
  {
    var i, j := x / period, y / period;
    Quotient(x, period);
    Quotient(y, period);
    if j < i {
      Multiples(j, j, period);
      Multiples(j + 1, i, period);
      assert false;
    }
    Multiples(i + 1, j, period);
  }

  lemma CrossesIntoRound(t: nat, u: nat, period: nat)
    requires t <= u && period > 0 && t / ROUND != u / ROUND
    ensures Crosses(t, u, period)
  {
    var b := SlotAfter(t, ROUND);
    assert b % ROUND == 0 && 0 % period == 0;
    assert t < b <= u && (b % ROUND) % period == 0;
  }

  lemma CrossesInRound(t: nat, u: nat, period: nat)
    requires t <= u && period > 0
    requires t / ROUND == u / ROUND && (t % ROUND) / period != (u % ROUND) / period
    ensures Crosses(t, u, period)
  {
    var x, y := t % ROUND, u % ROUND;
    var c := SlotAfter(x, period);
    assert c <= y;
    var b := t / ROUND * ROUND + c;
    DivMod(t / ROUND, c, ROUND);
    assert t < b <= u && (b % ROUND) % period == 0;
  }

  lemma StaysInSlot(t: nat, b: nat, u: nat, period: nat)
    requires t < b <= u && period > 0
    requires t / ROUND == u / ROUND && (t % ROUND) / period == (u % ROUND) / period
    ensures (b % ROUND) % period != 0
  {
    assert b / ROUND == t / ROUND;
    InsideSlot(t % ROUND, b % ROUND, u % ROUND, period);
  }

  /** Nothing begins between two ticks exactly when they lie in the same round and in the same period of it. */
  lemma CrossesIff(t: nat, u: nat, period: nat)
    requires t <= u && period > 0
    ensures !Crosses(t, u, period) <==> t / ROUND == u / ROUND && (t % ROUND) / period == (u % ROUND) / period
  {
    if t / ROUND != u / ROUND {
      CrossesIntoRound(t, u, period);
    } else if (t % ROUND) / period != (u % ROUND) / period {
      CrossesInRound(t, u, period);
    } else {
      forall b: nat | t < b <= u
        ensures (b % ROUND) % period != 0
      {
        StaysInSlot(t, b, u, period);
      }
    }
  }

  lemma InsideSlot(x: nat, z: nat, y: nat, period: nat)
    requires period > 0 && x < z <= y && x / period == y / period
    ensures z % period != 0
  {
    Quotient(x, period);
    Quotient(y, period);
    if z % period == 0 {
      var k, i := z / period, x / period;
      assert z == k * period;
      Multiples(i, i, period);
      if k <= i {
        Multiples(k, i, period);
      } else {
        Multiples(i + 1, k, period);
      }
      assert false;
    }
  }

  lemma SecondsOfTicks(x: nat)
    ensures x / 100 / 3600 == x / 360000 && x / 100 / 60 == x / 6000
  {
  }

  lemma MinutesOfHours(u: nat)
    ensures u / 60 == 60 * (u / 3600) + (u / 60) % 60
  {
    assert u / 60 / 60 == u / 3600;
  }

  lemma HourMinute(t: nat)
    ensures HourOf(t) == (t % ROUND) / HOUR && UpTime(t) / 60 == (t % ROUND) / MINUTE
    ensures UpTime(t) / 60 == 60 * HourOf(t) + MinuteOf(t)
  {
    InRound(t);
    SecondsOfTicks(t % ROUND);
    MinutesOfHours(UpTime(t));
  }

  lemma NextRoundIsEarlier(t: nat, u: nat)
    requires t <= u <= t + (ROUND - HOUR) && t / ROUND != u / ROUND
    ensures u % ROUND + HOUR <= t % ROUND
  {
    var i, j := t / ROUND, u / ROUND;
    assert t == i * ROUND + t % ROUND && u == j * ROUND + u % ROUND;
    assert i < j;
  }

  lemma AnHourEarlier(x: nat, y: nat)
    requires x + HOUR <= y
    ensures x / HOUR < y / HOUR
  {
  }

  lemma NextRoundShowsEarlierHour(t: nat, u: nat)
    requires t <= u <= t + (ROUND - HOUR) && t / ROUND != u / ROUND
    ensures HourOf(u) < HourOf(t)
  {
    NextRoundIsEarlier(t, u);
    AnHourEarlier(u % ROUND, t % ROUND);
    HourMinute(t);
    HourMinute(u);
  }

  lemma HoursGrow(t: nat, u: nat)
    requires t <= u && t / ROUND == u / ROUND
    ensures HourOf(t) <= HourOf(u)
  {
    HourMinute(t);
    HourMinute(u);
    assert t % ROUND <= u % ROUND;
  }

  /** Within one round and one hour, equal minutes are the same minute. */
  lemma SameMinuteIff(t: nat, u: nat)
    requires HourOf(t) == HourOf(u)
    ensures MinuteOf(t) == MinuteOf(u) <==> (t % ROUND) / MINUTE == (u % ROUND) / MINUTE
  {
    HourMinute(t);
    HourMinute(u);
  }

  lemma UntornInRound(t1: nat, t2: nat, t3: nat)
    requires t1 <= t2 <= t3 && t1 / ROUND == t2 / ROUND == t3 / ROUND
    ensures HourOf(t1) == HourOf(t3) && MinuteOf(t2) == MinuteOf(t3)
            <==> (t1 % ROUND) / HOUR == (t3 % ROUND) / HOUR && (t2 % ROUND) / MINUTE == (t3 % ROUND) / MINUTE
  {
    HourMinute(t1);
    HourMinute(t3);
    HoursGrow(t1, t2);
    HoursGrow(t2, t3);
    if HourOf(t1) == HourOf(t3) {
      SameMinuteIff(t2, t3);
    }
  }

  lemma RoundBetween(t1: nat, t2: nat, t3: nat)
    requires t1 <= t2 <= t3 && t1 / ROUND == t3 / ROUND
    ensures t2 / ROUND == t1 / ROUND
  {
  }

  /**
   * Hour and minute read at ticks t1 and t2 are still those at tick t3 exactly
   * when no hour began since t1 and no minute since t2.
   */
  lemma UntornIff(t1: nat, t2: nat, t3: nat)
    requires t1 <= t2 <= t3 <= t1 + (ROUND - HOUR)
    ensures HourOf(t1) == HourOf(t3) && MinuteOf(t2) == MinuteOf(t3)
            <==> !Crosses(t1, t3, HOUR) && !Crosses(t2, t3, MINUTE)
  {
    CrossesIff(t1, t3, HOUR);
    CrossesIff(t2, t3, MINUTE);
    if t1 / ROUND != t3 / ROUND {
      NextRoundShowsEarlierHour(t1, t3);
    } else {
      RoundBetween(t1, t2, t3);
      UntornInRound(t1, t2, t3);
    }
  }
}

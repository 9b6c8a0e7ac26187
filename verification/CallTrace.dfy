/**
 * The language of the main loop: which sequences of calls it can make, for all
 * interrupt timings and all answers of umqtt.
 */
module CallTrace {
  import opened McuModel
  import opened Connection

  // ---- the grammar ----

  const BIRTH: seq<Call> := [Subscribe, PublishStatus, PublishMac, PublishIp]
  const CLOSE: seq<Call> := [UmqttDisconnect, NetDisconnect, Backoff]

  /**
   * One session: net_Connect, perhaps umqtt_Connect, rounds of umqtt_Run with or
   * without an uptime report, perhaps the birth messages and more rounds, and
   * then always the whole recovery.
   */
  datatype Session = Session(mqtt: bool, early: seq<bool>, born: bool, late: seq<bool>)

  predicate Legal(x: Session) {
    && (!x.mqtt ==> x.early == [] && !x.born)
    && (x.born <==> x.late != [])
  }

  /** Rounds of the running loop; true stands for one with an uptime report. */
  function Rounds(rs: seq<bool>): seq<Call> {
    if rs == [] then []
    else Rounds(rs[..|rs| - 1]) + if rs[|rs| - 1] then [UmqttRun, PublishUptime] else [UmqttRun]
  }

  function Body(x: Session): seq<Call> {
    [NetConnect]
    + (if x.mqtt then [UmqttConnect] + Rounds(x.early) else [])
    + (if x.born then BIRTH + Rounds(x.late) else [])
  }

  function Whole(x: Session): seq<Call> {
    Body(x) + CLOSE
  }

  function Sessions(xs: seq<Session>): seq<Call> {
    if xs == [] then [] else Sessions(xs[..|xs| - 1]) + Whole(xs[|xs| - 1])
  }

  /** A number of whole sessions and the beginning of another. */
  ghost predicate InLanguage(t: seq<Call>) {
    exists xs: seq<Session>, x: Session, u: seq<Call> ::
      && (forall i :: 0 <= i < |xs| ==> Legal(xs[i])) && Legal(x)
      && u <= Whole(x) && t == Sessions(xs) + u
  }

  // ---- an automaton that follows the loop ----

  datatype Phase =
    | Between
    | Opened
    | Ready(born: bool)          // ready for a round
    | Ran(born: bool)            // umqtt_Run was called, an uptime report may follow
    | Birth(k: nat)              // k birth messages sent
    | Closing(k: nat)            // k recovery calls made
    | Stuck

  function After(f: Phase, c: Call): Phase
    decreases f.Ran?
  {
    match f
    case Between => if c == NetConnect then Opened else Stuck
    case Opened => if c == UmqttConnect then Ready(false) else if c == UmqttDisconnect then Closing(1) else Stuck
    case Ready(b) =>
      if c == UmqttRun then Ran(b) else if c == Subscribe && !b then Birth(1)
      else if c == UmqttDisconnect then Closing(1) else Stuck
    case Ran(b) =>
      if c == PublishUptime then Ready(b) else After(Ready(b), c)
    case Birth(k) =>
      if k < 4 then (if c == BIRTH[k] then Birth(k + 1) else Stuck)
      else if c == UmqttRun then Ran(true) else Stuck
    case Closing(k) =>
      if k < 3 && c == CLOSE[k] then (if k == 2 then Between else Closing(k + 1)) else Stuck
    case Stuck => Stuck
  }

  function PhaseOf(t: seq<Call>): Phase {
    if t == [] then Between else After(PhaseOf(t[..|t| - 1]), t[|t| - 1])
  }

  // ---- the automaton accepts only what the grammar generates ----

  /** How a trace in each phase is put together. */
  ghost predicate Parsed(t: seq<Call>, f: Phase, xs: seq<Session>, x: Session) {
    && (forall i :: 0 <= i < |xs| ==> Legal(xs[i])) && Legal(x)
    && match f
       case Between => t == Sessions(xs)
       case Opened => !x.mqtt && t == Sessions(xs) + Body(x)
       case Ready(b) => x.mqtt && x.born == b && t == Sessions(xs) + Body(x)
       case Ran(b) =>
         && x.mqtt && x.born == b && t == Sessions(xs) + Body(x)
         && (if b then !x.late[|x.late| - 1] else x.early != [] && !x.early[|x.early| - 1])
       case Birth(k) => 1 <= k <= 4 && x.mqtt && !x.born && t == Sessions(xs) + Body(x) + BIRTH[..k]
       case Closing(k) => 1 <= k <= 2 && t == Sessions(xs) + Body(x) + CLOSE[..k]
       case Stuck => true
  }

  const NEW: Session := Session(false, [], false, [])

  /** The session `x` with one more round. */
  function WithRound(x: Session, report: bool): Session {
    if x.born then x.(late := x.late + [report]) else x.(early := x.early + [report])
  }

  /** The session `x` whose last round turns out to carry a report. */
  function WithReport(x: Session): Session {
    if x.born then x.(late := (if x.late == [] then [] else x.late[..|x.late| - 1]) + [true])
    else x.(early := (if x.early == [] then [] else x.early[..|x.early| - 1]) + [true])
  }

  lemma RoundAdded(x: Session, report: bool)
    requires Legal(x) && x.mqtt
    ensures Legal(WithRound(x, report))
    ensures Body(WithRound(x, report)) == Body(x) + if report then [UmqttRun, PublishUptime] else [UmqttRun]
  {
    var rs := if x.born then x.late else x.early;
    assert (rs + [report])[..|rs|] == rs;
    var more := if report then [UmqttRun, PublishUptime] else [UmqttRun];
    assert Rounds(rs + [report]) == Rounds(rs) + more;
    if x.born {
      assert Body(WithRound(x, report))
             == ([NetConnect] + ([UmqttConnect] + Rounds(x.early))) + (BIRTH + (Rounds(x.late) + more));
    } else {
      assert Body(WithRound(x, report)) == [NetConnect] + ([UmqttConnect] + (Rounds(x.early) + more)) + [];
    }
  }

  lemma ReportAdded(x: Session)
    requires Legal(x) && x.mqtt
    requires if x.born then !x.late[|x.late| - 1] else x.early != [] && !x.early[|x.early| - 1]
    ensures Legal(WithReport(x)) && Body(WithReport(x)) == Body(x) + [PublishUptime]
  {
    var rs := if x.born then x.late else x.early;
    var front := rs[..|rs| - 1];
    assert (front + [true])[..|front|] == front;
    assert Rounds(front + [true]) == Rounds(rs) + [PublishUptime];
    if x.born {
      assert Body(WithReport(x))
             == ([NetConnect] + ([UmqttConnect] + Rounds(x.early))) + (BIRTH + (Rounds(x.late) + [PublishUptime]));
    } else {
      assert Body(WithReport(x)) == [NetConnect] + ([UmqttConnect] + (Rounds(x.early) + [PublishUptime])) + [];
    }
  }

  /** Reading one more call extends the parse. */
  lemma ParseStep(t: seq<Call>, c: Call, f: Phase, xs: seq<Session>, x: Session) returns (ys: seq<Session>, y: Session)
    requires Parsed(t, f, xs, x) && After(f, c) != Stuck
    ensures Parsed(t + [c], After(f, c), ys, y)
  {
    ys, y := xs, x;
    match f
    case Between => y := NEW;
    case Opened =>
      if c == UmqttConnect {
        y := NEW.(mqtt := true);
        assert Body(y) == Body(x) + [UmqttConnect];
      }
    case Ready(b) => y := ParseReady(t, c, b, xs, x);
    case Ran(b) =>
      if c == PublishUptime {
        y := WithReport(x);
        ReportAdded(x);
      } else {
        y := ParseReady(t, c, b, xs, x);
      }
    case Birth(k) => y := ParseBirth(t, c, k, xs, x);
    case Closing(k) =>
      if k == 2 {
        ys := ParseClose(t, xs, x);
      } else {
        assert CLOSE[..1] + [CLOSE[1]] == CLOSE[..2];
      }
  }

  lemma ParseBirth(t: seq<Call>, c: Call, k: nat, xs: seq<Session>, x: Session) returns (y: Session)
    requires Parsed(t, Birth(k), xs, x) && After(Birth(k), c) != Stuck
    ensures Parsed(t + [c], After(Birth(k), c), xs, y)
  {
    y := x;
    if k < 4 {
      assert BIRTH[..k] + [BIRTH[k]] == BIRTH[..k + 1];
    } else {
      y := x.(born := true, late := [false]);
      assert [false][..0] == [];
      assert Rounds([false]) == [UmqttRun];
      assert BIRTH[..4] == BIRTH;
      assert Body(y) == Body(x) + BIRTH + [UmqttRun];
    }
  }

  lemma SessionAdded(xs: seq<Session>, x: Session)
    ensures Sessions(xs + [x]) == Sessions(xs) + Whole(x)
  {
    assert (xs + [x])[..|xs|] == xs;
  }

  lemma Regroup<T>(a: seq<T>, b: seq<T>, c: seq<T>, d: seq<T>)
    ensures a + b + c + d == a + (b + (c + d))
  {
  }

  lemma CloseInFull()
    ensures CLOSE[..2] + [Backoff] == CLOSE
  {
  }

  lemma ParseClose(t: seq<Call>, xs: seq<Session>, x: Session) returns (ys: seq<Session>)
    requires Parsed(t, Closing(2), xs, x)
    ensures Parsed(t + [Backoff], Between, ys, x)
  {
    ys := xs + [x];
    SessionAdded(xs, x);
    Regroup(Sessions(xs), Body(x), CLOSE[..2], [Backoff]);
    CloseInFull();
  }

  lemma ParseReady(t: seq<Call>, c: Call, b: bool, xs: seq<Session>, x: Session) returns (y: Session)
    requires Parsed(t, Ready(b), xs, x) && After(Ready(b), c) != Stuck
    ensures Parsed(t + [c], After(Ready(b), c), xs, y)
  {
    y := x;
    if c == UmqttRun {
      y := WithRound(x, false);
      RoundAdded(x, false);
    } else if c == Subscribe {
      assert BIRTH[..1] == [Subscribe];
    } else {
      assert CLOSE[..1] == [UmqttDisconnect];
    }
  }

  lemma {:induction false} Parse(t: seq<Call>) returns (xs: seq<Session>, x: Session)
    requires PhaseOf(t) != Stuck
    ensures Parsed(t, PhaseOf(t), xs, x)
  {
    if t == [] {
      xs, x := [], NEW;
    } else {
      var front, c := t[..|t| - 1], t[|t| - 1];
      assert t == front + [c];
      var f, f' := PhaseOf(front), PhaseOf(t);
      var ys, y := Parse(front);
      xs, x := ParseStep(front, c, f, ys, y);
      assert Parsed(t, f', xs, x);
    }
  }

  lemma ParsedIsInLanguage(t: seq<Call>, f: Phase, xs: seq<Session>, x: Session)
    requires Parsed(t, f, xs, x) && f != Stuck
    ensures InLanguage(t)
  {
    match f
    case Stuck =>
    case Between =>
      assert [] <= Whole(NEW) && t == Sessions(xs) + [];
    case Birth(k) =>
      var y := x.(born := true, late := [false]);
      assert BIRTH == BIRTH[..k] + BIRTH[k..];
      assert Body(y) == Body(x) + (BIRTH + Rounds([false]));
      assert Body(x) + BIRTH[..k] <= Whole(y) && t == Sessions(xs) + (Body(x) + BIRTH[..k]);
    case Closing(k) =>
      assert Body(x) + CLOSE[..k] <= Whole(x) && t == Sessions(xs) + (Body(x) + CLOSE[..k]);
    case Opened => assert Body(x) <= Whole(x);
    case Ready(_) => assert Body(x) <= Whole(x);
    case Ran(_) => assert Body(x) <= Whole(x);
  }

  // ---- the loop stays in the automaton ----

  function Trace(s: Sys): seq<Call> {
    seq(|s.calls|, i requires 0 <= i < |s.calls| => s.calls[i].call)
  }

  predicate LoopPhase(f: Phase, pc: Pc, r: RunState) {
    match pc
    case InUmqtt(c, _) =>
      (match c
       case UmqttConnect => f == Ready(false)
       case Subscribe => f == Birth(1)
       case PublishStatus => f == Birth(2)
       case PublishMac => f == Birth(3)
       case PublishIp => f == Birth(4)
       case UmqttRun => f == Ran(r == RunMqtt)
       case PublishUptime => f.Ready? && RoundFits(f.born, r)
       case _ => f == Closing(1))
    case DoConnect => f == Between
    case DoDisconnect => f == Closing(1)
    case ArmBackoff => f == Closing(2)
    case Head => HeadPhase(f, r)
    case Clear => HeadPhase(f, r)
    case Dispatch => HeadPhase(f, r)
    case _ => f.Ran? && RoundFits(f.born, r)
  }

  predicate RoundFits(born: bool, r: RunState) {
    r == Recovery || born == (r == RunMqtt)
  }

  predicate HeadPhase(f: Phase, r: RunState) {
    match r
    case WaitIp => f == Between
    case Delay => f == Between
    case WaitNet => f == Opened
    case WaitMqtt => (f.Ready? || f.Ran?) && !f.born
    case RunMqtt => (f.Ready? || f.Ran?) && f.born
    case Recovery => f == Opened || f.Ready? || f.Ran?
  }

  ghost predicate TraceInv(s: Sys) {
    LoopPhase(PhaseOf(Trace(s)), s.pc, s.runState)
  }

  lemma Logged(s: Sys, r: Sys, c: Call)
    requires r.calls == s.calls + [Stamped(c, s.iter, s.tick)]
    ensures PhaseOf(Trace(r)) == After(PhaseOf(Trace(s)), c)
  {
    assert Trace(r)[..|s.calls|] == Trace(s);
  }

  lemma TransportKeepsTrace(s: Sys, env: Env)
    requires TraceInv(s) && InTransport(s, env)
    ensures TraceInv(MainStep(s, env))
  {
    var r := TransportStep(s, s.pc.call, s.pc.io, env);
    assert SameLoop(s, r) && MainStep(s, env) == r;
    assert Trace(r) == Trace(s);
  }

  lemma ReturnKeepsTrace(s: Sys, c: Call, code: UmqttError)
    requires LoopInv(s) && TraceInv(s) && s.pc == InUmqtt(c, Idle)
    ensures TraceInv(ReturnStep(s, c, code))
  {
    var r := ReturnStep(s, c, code);
    if c == Subscribe || c == PublishStatus || c == PublishMac || c == PublishIp {
      Logged(s, r, r.pc.call);
    } else {
      assert Trace(r) == Trace(s);
    }
  }

  lemma DispatchKeepsTrace(s: Sys, env: Env)
    requires LoopInv(s) && TraceInv(s) && s.pc == Dispatch
    ensures TraceInv(DispatchStep(s, env))
  {
    var r := DispatchStep(s, env);
    if r.pc.InUmqtt? {
      Logged(s, r, r.pc.call);
    } else {
      assert Trace(r) == Trace(s);
    }
  }

  lemma ReportKeepsTrace(s: Sys)
    requires LoopInv(s) && TraceInv(s)
    requires s.pc.CheckReport? || s.pc.Rearm? || s.pc.FormatHours? || s.pc.FormatMinutes? || s.pc.FormatSeconds?
    ensures TraceInv(ReportStep(s))
  {
    var r := ReportStep(s);
    if s.pc.FormatSeconds? {
      Logged(s, r, PublishUptime);
    } else {
      assert Trace(r) == Trace(s);
    }
  }

  lemma ConnectKeepsTrace(s: Sys, env: Env)
    requires TraceInv(s) && s.pc == DoConnect
    ensures TraceInv(ConnectStep(s, env))
  {
    Logged(s, ConnectStep(s, env), NetConnect);
  }

  lemma DisconnectKeepsTrace(s: Sys)
    requires LoopInv(s) && TraceInv(s) && s.pc == DoDisconnect
    ensures TraceInv(DisconnectStep(s))
  {
    var r := DisconnectStep(s);
    assert r.pc == ArmBackoff && r.calls == s.calls + [Stamped(NetDisconnect, s.iter, s.tick)];
    Logged(s, r, NetDisconnect);
  }

  lemma BackoffKeepsTrace(s: Sys)
    requires TraceInv(s) && s.pc == ArmBackoff
    ensures TraceInv(BackoffStep(s))
  {
    Logged(s, BackoffStep(s), Backoff);
  }

  lemma LoopKeepsTrace(s: Sys, env: Env)
    requires LoopInv(s) && TraceInv(s) && !InTransport(s, env)
    ensures TraceInv(MainStep(s, env))
  {
    var r := MainStep(s, env);
    match s.pc {
      case InUmqtt(c, _) => ReturnKeepsTrace(s, c, env.code);
      case Dispatch => DispatchKeepsTrace(s, env);
      case DoConnect => ConnectKeepsTrace(s, env);
      case DoDisconnect => DisconnectKeepsTrace(s);
      case ArmBackoff => BackoffKeepsTrace(s);
      case Head => assert Trace(r) == Trace(s);
      case Clear => assert Trace(r) == Trace(s);
      case _ => ReportKeepsTrace(s);
    }
    assert TraceInv(r);
  }

  lemma {:induction false} RunHasTraceInv(size: nat, tick: nat, ls: seq<Label>)
    requires 2 <= size <= 256
    ensures TraceInv(Run(size, tick, ls))
    decreases |ls|
  {
    if ls != [] {
      var front, l := ls[..|ls| - 1], ls[|ls| - 1];
      RunHasInv(size, tick, front);
      RunHasTraceInv(size, tick, front);
      var s := Run(size, tick, front);
      var r := Next(s, l);
      if !l.Main? {
        assert r.calls == s.calls && r.pc == s.pc && r.runState == s.runState;
        assert Trace(r) == Trace(s);
      } else if InTransport(s, l.env) {
        TransportKeepsTrace(s, l.env);
      } else {
        LoopKeepsTrace(s, l.env);
      }
      assert TraceInv(r);
    }
  }

  /**
   * For every interleaving and every answer of umqtt, the calls of the main loop
   * are a number of whole sessions and the beginning of another: net_Connect is
   * never repeated without the whole recovery in between, and the birth messages
   * come at most once a session, together and in order.
   */
  lemma CallsAreSessions(size: nat, tick: nat, ls: seq<Label>)
    requires 2 <= size <= 256
    ensures InLanguage(Trace(Run(size, tick, ls)))
  {
    RunHasTraceInv(size, tick, ls);
    var t := Trace(Run(size, tick, ls));
    var xs, x := Parse(t);
    ParsedIsInLanguage(t, PhaseOf(t), xs, x);
  }
}

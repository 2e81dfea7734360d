/** Throttling of on-demand position requests to the framework. */
module Odcpi {
  import opened Wrappers

  const ODCPI_EXPECTED_INJECTION_TIME_MS := 10000

  datatype Request = Request(start: bool, tbfMillis: nat, emergency: bool)

  /** Why the framework was called. */
  datatype Why = Fresh | Upgrade | Renewal

  datatype History = Start | Then(before: History, request: Request, why: Why)

  /**
   * The throttle at a moment. The timer has the flag that the code reads, and, apart from it, the moment at
   * which it was armed if it has not fired since; each firing queues a message for the adapter.
   */
  datatype Throttle = Throttle(supported: bool, requestActive: bool, last: Request, timerActive: bool,
                               armed: Option<nat>, now: nat, fired: nat, queued: nat, log: History) {
    function Active(a: bool): Throttle {
      Throttle(supported, a, last, timerActive, armed, now, fired, queued, log)
    }

    function Last(r: Request): Throttle {
      Throttle(supported, requestActive, r, timerActive, armed, now, fired, queued, log)
    }

    function Call(r: Request, why: Why): Throttle {
      Throttle(supported, requestActive, last, timerActive, armed, now, fired, queued, Then(log, r, why))
    }

    function Arm(): Throttle {
      Throttle(supported, requestActive, last, true, Some(now), now, fired, queued, log)
    }

    function Disarm(): Throttle {
      Throttle(supported, requestActive, last, false, None, now, fired, queued, log)
    }
  }

  function StartRequest(m: Throttle, r: Request): Throttle {
    if !m.requestActive && !m.timerActive then m.Call(r, Fresh).Active(true).Arm()
    else if !m.last.emergency && r.emergency then m.Call(r, Upgrade).Active(true).Arm()
    else m.Active(true)
  }

  function RequestOdcpi(m: Throttle, r: Request): Throttle {
    if !m.supported then m
    else if r.start then StartRequest(m, r).Last(r)
    else m.Active(false)
  }

  function TimerExpire(m: Throttle): Throttle {
    if m.requestActive then m.Call(m.last, Renewal).Arm() else m.Disarm()
  }

  /** The timer thread: an armed timer fires, not before its time. */
  function Fire(m: Throttle): Throttle {
    Throttle(m.supported, m.requestActive, m.last, m.timerActive, None, m.now, m.fired + 1, m.queued + 1, m.log)
  }

  function Dequeue(m: Throttle): Throttle
    requires m.queued > 0
  {
    Throttle(m.supported, m.requestActive, m.last, m.timerActive, m.armed, m.now, m.fired, m.queued - 1, m.log)
  }

  datatype Op =
    | InitOdcpi
    | FromModem(request: Request)
    | Elapse(millis: nat)
    | TimerFires
    | TimerMessage
    | EngineRestart

  function Step(m: Throttle, op: Op): Throttle {
    match op
    case InitOdcpi => Throttle(true, m.requestActive, m.last, m.timerActive, m.armed, m.now, m.fired, m.queued, m.log)
    case FromModem(r) => RequestOdcpi(m, r)
    case Elapse(d) =>
      Throttle(m.supported, m.requestActive, m.last, m.timerActive, m.armed, m.now + d, m.fired, m.queued, m.log)
    case TimerFires =>
      if m.armed.Some? && m.armed.value + ODCPI_EXPECTED_INJECTION_TIME_MS <= m.now then Fire(m) else m
    case TimerMessage => if m.queued > 0 then TimerExpire(Dequeue(m)) else m
    case EngineRestart => m.Active(false)
  }

  function Init(): Throttle {
    Throttle(false, false, Request(true, 0, false), false, None, 0, 0, 0, Start)
  }

  function Run(ops: seq<Op>): Throttle {
    if ops == [] then Init() else Step(Run(ops[..|ops| - 1]), ops[|ops| - 1])
  }

  // ---------------------------------------------------------------------------------------------
  // What every run keeps
  // ---------------------------------------------------------------------------------------------

  function Calls(log: History, why: Why): nat {
    if log.Start? then 0 else Calls(log.before, why) + if log.why == why then 1 else 0
  }

  /** Calls without the upgrades. */
  function Ordinary(log: History): nat {
    Calls(log, Fresh) + Calls(log, Renewal)
  }

  predicate Inv(m: Throttle, ordinary: int) {
    && (m.requestActive ==> m.timerActive && m.supported)
    && (m.armed.Some? ==> m.timerActive)
    && (m.timerActive ==> m.armed.Some? || m.queued > 0)
    // Each firing is ten seconds after the timer was armed, and so after the firing before.
    && m.fired * ODCPI_EXPECTED_INJECTION_TIME_MS <= (if m.armed.Some? then m.armed.value else m.now)
    && (m.armed.Some? ==> m.armed.value <= m.now)
    // Each ordinary call but the first uses up the message of a firing.
    && ordinary + m.queued + (if m.timerActive then 0 else 1) <= 1 + m.fired
  }

  lemma StepKeeps(m: Throttle, op: Op, ordinary: int)
    requires Inv(m, ordinary)
    ensures var n := Step(m, op);
            if n.log == m.log then Inv(n, ordinary)
            else n.log.Then? && n.log.before == m.log && Inv(n, ordinary + if n.log.why == Upgrade then 0 else 1)
  {
  }

  lemma {:induction false} RunKeeps(ops: seq<Op>)
    ensures Inv(Run(ops), Ordinary(Run(ops).log))
  {
    if ops != [] {
      var m := Run(ops[..|ops| - 1]);
      RunKeeps(ops[..|ops| - 1]);
      StepKeeps(m, ops[|ops| - 1], Ordinary(m.log));
    }
  }

  /**
   * In every run, however messages and timers interleave, the framework is called once at first, once per
   * upgrade from an ordinary to an emergency request, and otherwise at most once in ten seconds.
   */
  lemma Throttled(ops: seq<Op>)
    ensures var m := Run(ops);
            Ordinary(m.log) <= 1 + m.now / ODCPI_EXPECTED_INJECTION_TIME_MS
  {
    RunKeeps(ops);
  }

  /**
   * An active request has a timer that is armed or whose message is on its way, so that it will be renewed;
   * and the callback is never used before it was set.
   */
  lemma ActiveIsTimed(ops: seq<Op>)
    ensures var m := Run(ops);
            m.requestActive ==> m.supported && m.timerActive && (m.armed.Some? || m.queued > 0)
  {
    RunKeeps(ops);
  }

  /** From any state with an active request, the next timer message renews the latest request and rearms the timer. */
  lemma ActiveIsRenewed(ops: seq<Op>)
    requires Run(ops).requestActive
    ensures var m := Run(ops);
            var due := Step(Step(m, Elapse(ODCPI_EXPECTED_INJECTION_TIME_MS)), TimerFires);
            var n := Step(due, TimerMessage);
            n.log == Then(m.log, m.last, Renewal) && n.armed == Some(n.now)
  {
    RunKeeps(ops);
  }

  // ---------------------------------------------------------------------------------------------
  // Single requests
  // ---------------------------------------------------------------------------------------------

  /** With nothing going on, a start reaches the framework at once, and begins a session. */
  lemma FreshStartCalls(m: Throttle, r: Request)
    requires m.supported && r.start && !m.requestActive && !m.timerActive
    ensures Step(m, FromModem(r)) ==
            Throttle(true, true, r, true, Some(m.now), m.now, m.fired, m.queued, Then(m.log, r, Fresh))
  {
  }

  /** Later it does so only as the first emergency request, which begins the ten seconds anew. */
  lemma LaterStartCalls(m: Throttle, r: Request)
    requires m.supported && r.start && (m.requestActive || m.timerActive)
    ensures Step(m, FromModem(r)) ==
            if r.emergency && !m.last.emergency
            then Throttle(true, true, r, true, Some(m.now), m.now, m.fired, m.queued, Then(m.log, r, Upgrade))
            else Throttle(true, true, r, m.timerActive, m.armed, m.now, m.fired, m.queued, m.log)
  {
  }

  /** The timer ends without a call when the request is no longer active. */
  lemma IdleTimerEnds(m: Throttle)
    requires m.queued > 0 && !m.requestActive
    ensures Step(m, TimerMessage) ==
            Throttle(m.supported, false, m.last, false, None, m.now, m.fired, m.queued - 1, m.log)
  {
  }

  predicate IsStart(op: Op) {
    op.FromModem? && op.request.start
  }

  predicate IsStop(op: Op) {
    op.EngineRestart? || (op.FromModem? && !op.request.start)
  }

  /** In every run, from a stop or a restart on until the next start, the framework is not called. */
  lemma {:induction false} StopSilences(ops: seq<Op>, i: nat)
    requires i < |ops| && IsStop(ops[i]) && forall k :: i < k < |ops| ==> !IsStart(ops[k])
    ensures Run(ops).log == Run(ops[..i]).log && !Run(ops).requestActive
  {
    var front := ops[..|ops| - 1];
    if i < |front| {
      assert front[..i] == ops[..i];
      StopSilences(front, i);
      assert !IsStart(ops[|ops| - 1]);
    } else {
      RunKeeps(front);
    }
  }

  /** In every run, what is renewed is the latest start that came since the callback was set. */
  lemma {:induction false} LatestIsRemembered(ops: seq<Op>, i: nat)
    requires i < |ops| && IsStart(ops[i]) && Run(ops[..i]).supported
    requires forall k :: i < k < |ops| ==> !IsStart(ops[k])
    ensures Run(ops).last == ops[i].request
  {
    var front := ops[..|ops| - 1];
    if i < |front| {
      assert front[..i] == ops[..i];
      LatestIsRemembered(front, i);
      assert !IsStart(ops[|ops| - 1]);
    }
  }

  // ---------------------------------------------------------------------------------------------
  // The upgrades are not throttled
  // ---------------------------------------------------------------------------------------------

  /** A session, and then ordinary and emergency requests in turn, without any time passing. */
  function Alternating(n: nat): seq<Op> {
    if n == 0 then [InitOdcpi, FromModem(Request(true, 0, false))]
    else Alternating(n - 1) + [FromModem(Request(true, 0, false)), FromModem(Request(true, 0, true))]
  }

  lemma RunBoth(ops: seq<Op>, a: Op, b: Op)
    ensures Run(ops + [a, b]) == Step(Step(Run(ops), a), b)
  {
    assert (ops + [a, b])[..|ops| + 1] == ops + [a];
    assert (ops + [a])[..|ops|] == ops;
  }

  /** The bound cannot do without the upgrades: any number of calls can come at once. */
  lemma {:induction false} UpgradesAreUnlimited(n: nat)
    ensures var m := Run(Alternating(n));
            && Calls(m.log, Upgrade) == n && Ordinary(m.log) == 1
            && m.now == 0 && m.requestActive && m.timerActive && m.supported
  {
    if n == 0 {
      RunBoth([], InitOdcpi, FromModem(Request(true, 0, false)));
      assert [] + [InitOdcpi, FromModem(Request(true, 0, false))] == Alternating(0);
      var m := Run(Alternating(0));
      assert m.log == Then(Start, Request(true, 0, false), Fresh);
    } else {
      UpgradesAreUnlimited(n - 1);
      RunBoth(Alternating(n - 1), FromModem(Request(true, 0, false)), FromModem(Request(true, 0, true)));
      var m := Run(Alternating(n - 1));
      var k := Step(m, FromModem(Request(true, 0, false)));
      assert k.last == Request(true, 0, false);
      if !m.last.emergency {
        assert k == m.Last(Request(true, 0, false));
      }
      assert k.log == m.log;
      assert Step(k, FromModem(Request(true, 0, true))).log == Then(m.log, Request(true, 0, true), Upgrade);
    }
  }
}

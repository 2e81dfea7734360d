/** Which options the engine runs with after each message, in terms of the sessions alone. */
module TrackingEngine {
  import opened Wrappers
  import opened Tracking
  import TrackingEffects

  // ---------------------------------------------------------------------------------------------
  // What the three loops find
  // ---------------------------------------------------------------------------------------------

  predicate Considered(ss: seq<Session>, skip: Option<Key>, i: nat) {
    i < |ss| && skip != Some(ss[i].key)
  }

  /** The first of the sessions with the smallest interval, among the first n. */
  ghost predicate FirstSmallest(ss: seq<Session>, skip: Option<Key>, n: nat, i: nat)
    requires n <= |ss|
  {
    && i < n && Considered(ss, skip, i)
    && (forall j :: 0 <= j < i && Considered(ss, skip, j) ==> ss[j].options.minInterval > ss[i].options.minInterval)
    && (forall j :: i <= j < n && Considered(ss, skip, j) ==> ss[j].options.minInterval >= ss[i].options.minInterval)
  }

  lemma {:induction false} NothingConsidered(ss: seq<Session>, skip: Option<Key>, n: nat)
    requires n <= |ss| && forall i :: 0 <= i < n ==> !Considered(ss, skip, i)
    ensures BestOf(ss, skip, n) == NO_OPTIONS
  {
    if n > 0 {
      assert !Considered(ss, skip, n - 1);
      NothingConsidered(ss, skip, n - 1);
    }
  }

  lemma {:induction false} BestIsFirst(ss: seq<Session>, skip: Option<Key>, n: nat) returns (i: nat)
    requires n <= |ss| && Set(ss) && exists k :: 0 <= k < n && Considered(ss, skip, k)
    ensures FirstSmallest(ss, skip, n, i) && BestOf(ss, skip, n) == ss[i].options
  {
    assert ss[n - 1] in ss;
    if exists k :: 0 <= k < n - 1 && Considered(ss, skip, k) {
      i := BestIsFirst(ss, skip, n - 1);
      assert ss[i] in ss;
      if Considered(ss, skip, n - 1) && ss[n - 1].options.minInterval < ss[i].options.minInterval {
        i := n - 1;
      }
    } else {
      NothingConsidered(ss, skip, n - 1);
      i := n - 1;
    }
  }

  /** The least power mode of the sessions from the place z on, before which a session of mode 0 stands. */
  ghost predicate LeastFrom(ss: seq<Session>, skip: Option<Key>, n: nat, z: nat, p: nat)
    requires n <= |ss|
  {
    && z <= n
    && (z > 0 ==> Considered(ss, skip, z - 1) && ss[z - 1].options.powerMode == 0)
    && (forall j :: z <= j < n && Considered(ss, skip, j) ==> 0 < p <= ss[j].options.powerMode)
    && (p > 0 ==> exists j :: z <= j < n && Considered(ss, skip, j) && ss[j].options.powerMode == p)
  }

  /**
   * A session of mode 0, which is INVALID, makes the loop forget the modes before it: what it finds is the
   * least mode after the last such session, and 0 if there is none.
   */
  lemma {:induction false} PowerSinceZero(ss: seq<Session>, skip: Option<Key>, n: nat) returns (z: nat)
    requires n <= |ss|
    ensures LeastFrom(ss, skip, n, z, PowerOf(ss, skip, n))
  {
    if n == 0 {
      return 0;
    }
    z := PowerSinceZero(ss, skip, n - 1);
    var p := PowerOf(ss, skip, n);
    if Considered(ss, skip, n - 1) {
      if ss[n - 1].options.powerMode == 0 {
        z := n;
      } else if p == ss[n - 1].options.powerMode {
        assert Considered(ss, skip, n - 1);
      }
    }
  }

  /** The first session, if its mode is 0, and else the first of those with the least mode other than 0. */
  predicate FirstStrongest(ss: seq<Session>, n: nat, i: nat)
    requires n <= |ss|
  {
    && i < n
    && if ss[0].options.powerMode == 0 then i == 0
       else
         && ss[i].options.powerMode > 0
         && (forall j :: 0 <= j < i ==> ss[j].options.powerMode == 0 || ss[j].options.powerMode > ss[i].options.powerMode)
         && (forall j :: i <= j < n ==> ss[j].options.powerMode == 0 || ss[j].options.powerMode >= ss[i].options.powerMode)
  }

  lemma {:induction false} StrongestIsFirst(ss: seq<Session>, n: nat) returns (i: nat)
    requires 0 < n <= |ss| && Set(ss)
    ensures FirstStrongest(ss, n, i) && StrongestOf(ss, n) == ss[i].options
  {
    assert ss[n - 1] in ss;
    if n == 1 {
      assert StrongestOf(ss, 0) == NO_OPTIONS;
      i := 0;
    } else {
      i := StrongestIsFirst(ss, n - 1);
      assert ss[i] in ss;
      var p := ss[n - 1].options.powerMode;
      if p != 0 && p < ss[i].options.powerMode {
        i := n - 1;
      }
    }
  }

  // ---------------------------------------------------------------------------------------------
  // What the engine is told
  // ---------------------------------------------------------------------------------------------

  /** What a session at i, with the least mode p of the others, gives when the options of one more come in. */
  function Joined(b: Options, p: nat, o: Options): Options {
    Options(b.size, if o.minInterval < b.minInterval then o.minInterval else b.minInterval, b.minDistance,
            if o.powerMode < p then o.powerMode else b.powerMode, b.tbm)
  }

  /** The limits on a client's options, as for the session that is saved. */
  function Limited(cfg: Config, o: Options): Options {
    TrackingEffects.Reduced(cfg, TrackingEffects.Raised(o))
  }

  /** The first session runs the engine with its own options. */
  lemma FirstStartRuns(cfg: Config, t: Tracker, k: Key, o: Options)
    requires t.time == [] && o.size > 0 && (o.minDistance > 0 ==> !cfg.distanceSupported)
    ensures Step(cfg, t, Start(k, o, true)).engine == Running(Limited(cfg, o))
  {
  }

  lemma JoinDrives(time: seq<Session>, engine: Engine, o: Options) returns (i: nat, z: nat, p: nat)
    requires time != [] && Set(time)
    ensures FirstSmallest(time, None, |time|, i) && LeastFrom(time, None, |time|, z, p)
    ensures StartEngine(time, engine, o) ==
            if o.minInterval >= time[i].options.minInterval && o.powerMode >= p then engine
            else Running(Joined(time[i].options, p, o))
  {
    assert Considered(time, None, 0);
    i := BestIsFirst(time, None, |time|);
    z := PowerSinceZero(time, None, |time|);
    p := Power(time, None);
  }

  /** One more session changes them only if it needs a shorter interval or a smaller mode. */
  lemma StartDrives(cfg: Config, t: Tracker, k: Key, o: Options) returns (i: nat, z: nat, p: nat)
    requires t.time != [] && Set(t.time) && o.size > 0 && (o.minDistance > 0 ==> !cfg.distanceSupported)
    ensures FirstSmallest(t.time, None, |t.time|, i) && LeastFrom(t.time, None, |t.time|, z, p)
    ensures var b, w, n := t.time[i].options, Limited(cfg, o), Step(cfg, t, Start(k, o, true));
            n.engine == if w.minInterval >= b.minInterval && w.powerMode >= p then t.engine else Running(Joined(b, p, w))
  {
    assert Weaken(cfg, Limit(o)) == Limited(cfg, o);
    i, z, p := JoinDrives(t.time, t.engine, Limited(cfg, o));
  }

  lemma SwitchJoins(cfg: Config, t: Tracker, k: Key, o: Options, success: bool)
    requires SwitchAnswer(k, o) in t.pending
    ensures Step(cfg, t, Answered(SwitchAnswer(k, o), success)).engine == StartEngine(t.time, t.engine, o)
  {
  }

  predicate Moded(ss: seq<Session>) {
    forall s :: s in ss ==> s.options.powerMode > 0
  }

  ghost predicate IsLeastMode(ss: seq<Session>, p: nat) {
    (forall s :: s in ss ==> p <= s.options.powerMode) && exists s :: s in ss && s.options.powerMode == p
  }

  lemma LeastOfModed(ss: seq<Session>, z: nat, p: nat)
    requires ss != [] && Moded(ss) && LeastFrom(ss, None, |ss|, z, p)
    ensures IsLeastMode(ss, p)
  {
    assert Considered(ss, None, 0);
    var j :| 0 <= j < |ss| && Considered(ss, None, j) && ss[j].options.powerMode == p;
    assert ss[j] in ss;
    forall s | s in ss ensures p <= s.options.powerMode {
      var i :| 0 <= i < |ss| && ss[i] == s;
      assert Considered(ss, None, i);
    }
  }

  /**
   * A start that reaches the engine while others are tracked leaves it in the least mode of all sessions if
   * and only if the new session's mode is below all others or the first of those with the smallest interval
   * has the least mode of the others: the loop finds the least mode, but it is not used.
   */
  lemma StartPowerExactly(cfg: Config, t: Tracker, k: Key, o: Options) returns (i: nat)
    requires t.time != [] && Set(t.time) && Moded(t.time) && !Has(t.time, k)
    requires o.size > 0 && o.powerMode > 0 && (o.minDistance > 0 ==> !cfg.distanceSupported)
    requires (forall s :: s in t.time ==> Limited(cfg, o).minInterval < s.options.minInterval)
             || (forall s :: s in t.time ==> Limited(cfg, o).powerMode < s.options.powerMode)
    ensures FirstSmallest(t.time, None, |t.time|, i)
    ensures var n, w := Step(cfg, t, Start(k, o, true)), Limited(cfg, o);
            && n.engine.Running?
            && (IsLeastMode(n.time, n.engine.options.powerMode) <==>
                  (forall s :: s in t.time ==> w.powerMode < s.options.powerMode)
                  || IsLeastMode(t.time, t.time[i].options.powerMode))
  {
    var z, p;
    i, z, p := StartDrives(cfg, t, k, o);
    LeastOfModed(t.time, z, p);
    var w, n := Limited(cfg, o), Step(cfg, t, Start(k, o, true));
    assert t.time[i] in t.time;
    assert n.engine == Running(Joined(t.time[i].options, p, w));
    assert Weaken(cfg, Limit(o)) == w;
    assert n.time == Put(t.time, k, w);
    JoinedMode(t.time, n.time, Session(k, w), p, t.time[i].options.powerMode);
  }

  lemma SecondSession(a: Session, b: Session)
    requires a.key.id < b.key.id
    ensures Put([], a.key, a.options) == [a] && Put([a], b.key, b.options) == [a, b]
  {
    assert [a][1..] == [] && [a][0] == a;
    assert Remove([a], b.key) == [a] + Remove([], b.key) == [a];
    assert Insert([a], b) == [a] + Insert([], b);
  }

  const FIRST := Options(1, 1000, 0, 1, 0)
  const SECOND := Options(1, 500, 0, 2, 0)
  const THIRD := Options(1, 200, 0, 2, 0)

  lemma TwoStarts(cfg: Config)
    ensures Run(cfg, [Start(Key(0, 1), FIRST, true), Start(Key(0, 2), SECOND, true)]).time
         == [Session(Key(0, 1), FIRST), Session(Key(0, 2), SECOND)]
  {
    var a, b := Start(Key(0, 1), FIRST, true), Start(Key(0, 2), SECOND, true);
    SecondSession(Session(Key(0, 1), FIRST), Session(Key(0, 2), SECOND));
    assert [a, b][..1] == [a] && [a][..0] == [];
    assert Run(cfg, [a]).time == [Session(Key(0, 1), FIRST)];
  }

  /** Such a state is reached: a session of mode 1 is tracked in mode 2 once a third session has come. */
  lemma StartCanWeakenMode(cfg: Config)
    ensures var ops := [Start(Key(0, 1), FIRST, true), Start(Key(0, 2), SECOND, true), Start(Key(0, 3), THIRD, true)];
            var t := Run(cfg, ops);
            t.engine.Running? && t.engine.options.powerMode == 2 && Session(Key(0, 1), FIRST) in t.time
  {
    var a, b, c := Start(Key(0, 1), FIRST, true), Start(Key(0, 2), SECOND, true), Start(Key(0, 3), THIRD, true);
    TwoStarts(cfg);
    assert [a, b, c][..2] == [a, b];
    WeakenedMode(cfg, Run(cfg, [a, b]));
  }

  lemma WeakenedMode(cfg: Config, t: Tracker)
    requires t.time == [Session(Key(0, 1), FIRST), Session(Key(0, 2), SECOND)]
    ensures var n := Step(cfg, t, Start(Key(0, 3), THIRD, true));
            n.engine.Running? && n.engine.options.powerMode == 2 && Session(Key(0, 1), FIRST) in n.time
  {
    var i, z, p := StartDrives(cfg, t, Key(0, 3), THIRD);
    assert Considered(t.time, None, 0) && Considered(t.time, None, 1);
    assert i == 1;
    assert t.time[0] in t.time;
  }

  /** The mode of the new session or of the chosen one, against the least of all. */
  lemma JoinedMode(others: seq<Session>, next: seq<Session>, s: Session, p: nat, b: nat)
    requires IsLeastMode(others, p) && s.key !in set x | x in others :: x.key
    requires forall x :: x in next <==> x == s || (x in others && x.key != s.key)
    requires b >= p
    ensures IsLeastMode(next, if s.options.powerMode < p then s.options.powerMode else b) <==>
            (forall x :: x in others ==> s.options.powerMode < x.options.powerMode) || IsLeastMode(others, b)
  {
    var y :| y in others && y.options.powerMode == p;
    assert y in next && s in next;
  }

  /** A session that switches to time-based tracking comes in like a new one, whether or not its stop succeeded. */
  lemma SwitchDrives(cfg: Config, t: Tracker, k: Key, o: Options, success: bool) returns (i: nat, z: nat, p: nat)
    requires Set(t.time) && SwitchAnswer(k, o) in t.pending
    ensures var n := Step(cfg, t, Answered(SwitchAnswer(k, o), success));
            if t.time == [] then n.engine == Running(o)
            else
              && FirstSmallest(t.time, None, |t.time|, i) && LeastFrom(t.time, None, |t.time|, z, p)
              && n.engine == if o.minInterval >= t.time[i].options.minInterval && o.powerMode >= p then t.engine
                             else Running(Joined(t.time[i].options, p, o))
  {
    i, z, p := 0, 0, 0;
    SwitchJoins(cfg, t, k, o, success);
    if t.time != [] {
      i, z, p := JoinDrives(t.time, t.engine, o);
    }
  }

  /** A session that leaves for distance-based tracking leaves the engine as a stop would. */
  lemma LeavingDrives(cfg: Config, t: Tracker, k: Key, o: Options)
    requires Has(t.time, k) && o.size > 0 && o.minDistance > 0
    ensures Step(cfg, t, Update(k, o)).engine == Step(cfg, t, Stop(k)).engine
  {
  }

  /** Two sessions or more leave another one than k. */
  lemma AnotherConsidered(ss: seq<Session>, k: Key)
    requires |ss| > 1 && Sorted(ss)
    ensures Considered(ss, Some(k), 0) || Considered(ss, Some(k), 1)
  {
    assert Less(ss[0].key, ss[1].key);
  }

  /** What the loop finds that leaves one of several sessions out. */
  lemma FoundInOthers(ss: seq<Session>, k: Key) returns (i: nat, z: nat, p: nat)
    requires |ss| > 1 && Sorted(ss) && Set(ss)
    ensures FirstSmallest(ss, Some(k), |ss|, i) && LeastFrom(ss, Some(k), |ss|, z, p)
    ensures Best(ss, Some(k)) == ss[i].options && Power(ss, Some(k)) == p
  {
    AnotherConsidered(ss, k);
    i := BestIsFirst(ss, Some(k), |ss|);
    z := PowerSinceZero(ss, Some(k), |ss|);
    p := Power(ss, Some(k));
  }

  lemma StopByOthers(cfg: Config, t: Tracker, k: Key, b: Options, p: nat)
    requires |t.time| > 1 && Has(t.time, k) && b == Best(t.time, Some(k)) && p == Power(t.time, Some(k))
    ensures var was := Get(t.time, k);
            Step(cfg, t, Stop(k)).engine ==
            if was.minInterval >= b.minInterval && was.powerMode >= p then t.engine
            else Running(Options(b.size, b.minInterval, b.minDistance, p, b.tbm))
  {
  }

  lemma UpdateByOthers(cfg: Config, t: Tracker, k: Key, o: Options, b: Options, p: nat)
    requires |t.time| > 1 && Has(t.time, k) && !Has(t.distance, k) && o.size > 0 && o.minDistance == 0
    requires b == Best(t.time, Some(k)) && p == Power(t.time, Some(k))
    ensures var w, was := Limited(cfg, o), Get(t.time, k);
            Step(cfg, t, Update(k, o)).engine ==
            if (w.minInterval == was.minInterval && w.powerMode == was.powerMode)
               || (w.minInterval >= b.minInterval && w.powerMode >= p) then t.engine
            else Running(Joined(b, p, w))
  {
    assert Limit(Weaken(cfg, o)) == Limited(cfg, o);
    assert Step(cfg, t, Update(k, o)).engine == UpdateEngine(t.time, t.engine, k, Limited(cfg, o));
  }

  /**
   * When a session goes that was not the last one, the engine goes on unless that session had a shorter
   * interval or a smaller mode than the others; then it runs with what the others need.
   */
  lemma StopDrives(cfg: Config, t: Tracker, k: Key) returns (i: nat, z: nat, p: nat)
    requires |t.time| > 1 && Sorted(t.time) && Set(t.time) && Has(t.time, k)
    ensures FirstSmallest(t.time, Some(k), |t.time|, i) && LeastFrom(t.time, Some(k), |t.time|, z, p)
    ensures var b, was, n := t.time[i].options, Get(t.time, k), Step(cfg, t, Stop(k));
            n.engine == if was.minInterval >= b.minInterval && was.powerMode >= p then t.engine
                        else Running(Options(b.size, b.minInterval, b.minDistance, p, b.tbm))
  {
    i, z, p := FoundInOthers(t.time, k);
    StopByOthers(cfg, t, k, t.time[i].options, p);
  }

  /** An update to the same interval and mode does not reach the engine; the only session's does otherwise. */
  lemma OnlyUpdateDrives(cfg: Config, t: Tracker, k: Key, o: Options)
    requires |t.time| == 1 && Has(t.time, k) && !Has(t.distance, k) && o.size > 0 && o.minDistance == 0
    ensures var w, was := Limited(cfg, o), Get(t.time, k);
            Step(cfg, t, Update(k, o)).engine ==
            if w.minInterval == was.minInterval && w.powerMode == was.powerMode then t.engine else Running(w)
  {
    assert Limit(Weaken(cfg, o)) == Limited(cfg, o);
  }

  /** With others, the engine runs with what they need and the update needs, unless they need more. */
  lemma UpdateDrives(cfg: Config, t: Tracker, k: Key, o: Options) returns (i: nat, z: nat, p: nat)
    requires |t.time| > 1 && Sorted(t.time) && Set(t.time) && Has(t.time, k) && !Has(t.distance, k)
    requires o.size > 0 && o.minDistance == 0
    ensures FirstSmallest(t.time, Some(k), |t.time|, i) && LeastFrom(t.time, Some(k), |t.time|, z, p)
    ensures var b, w, was, n := t.time[i].options, Limited(cfg, o), Get(t.time, k), Step(cfg, t, Update(k, o));
            n.engine == if (w.minInterval == was.minInterval && w.powerMode == was.powerMode)
                           || (w.minInterval >= b.minInterval && w.powerMode >= p) then t.engine
                        else Running(Joined(b, p, w))
  {
    i, z, p := FoundInOthers(t.time, k);
    UpdateByOthers(cfg, t, k, o, t.time[i].options, p);
  }

  /** An engine that is back runs with the smallest interval and the strongest mode, or not at all. */
  lemma RestartDrives(cfg: Config, t: Tracker) returns (i: nat, j: nat)
    requires Set(t.time)
    ensures var n, ss := Step(cfg, t, Restart), t.time;
            && n.time == ss && n.distance == t.distance && n.pending == t.pending
            && if ss == [] then n.engine == Stopped
               else
                 && FirstSmallest(ss, None, |ss|, i) && FirstStrongest(ss, |ss|, j)
                 && n.engine == Running(Options(ss[i].options.size, ss[i].options.minInterval, ss[i].options.minDistance,
                                                ss[j].options.powerMode, ss[j].options.tbm))
  {
    i, j := 0, 0;
    if t.time != [] {
      assert Considered(t.time, None, 0);
      i := BestIsFirst(t.time, None, |t.time|);
      j := StrongestIsFirst(t.time, |t.time|);
    }
  }

  // ---------------------------------------------------------------------------------------------
  // The sessions of every run
  // ---------------------------------------------------------------------------------------------

  /** Options in outstanding answers are set. */
  predicate Sized(a: Answer) {
    match a
    case SwitchAnswer(_, o) => o.size > 0
    case RestopAnswer(_, o) => o.size > 0
    case RestartAnswer(_, o) => o.size > 0
    case _ => true
  }

  ghost predicate Tidy(t: Tracker) {
    Sorted(t.time) && Set(t.time) && forall a :: a in t.pending ==> Sized(a)
  }

  lemma TidySave(cfg: Config, t: Tracker, k: Key, o: Options, e: Engine)
    requires Tidy(t) && o.size > 0
    ensures Tidy(Save(cfg, t.With(e), k, o))
  {
    PutSorted(t.time, k, o);
  }

  lemma TidyErase(t: Tracker, k: Key)
    requires Tidy(t)
    ensures Tidy(Erase(t, k))
  {
    RemoveSorted(t.time, k);
  }

  lemma TidyStart(cfg: Config, t: Tracker, k: Key, o: Options)
    requires Tidy(t) && o.size > 0
    ensures Tidy(StartSession(cfg, t, k, o))
  {
    var w := Weaken(cfg, Limit(o));
    TidySave(cfg, t, k, Limit(o), t.engine);
    TidySave(cfg, t, k, w, StartEngine(t.time, t.engine, w));
  }

  lemma TidyUpdate(cfg: Config, t: Tracker, k: Key, o0: Options)
    requires Tidy(t) && o0.size > 0 && (Has(t.time, k) || Has(t.distance, k))
    ensures Tidy(UpdateSession(cfg, t, k, o0))
  {
    var o := Limit(Weaken(cfg, o0));
    TidyErase(t, k);
    if Has(t.time, k) {
      TidySave(cfg, Erase(t, k), k, o, StopEngine(t.time, t.engine, k));
      TidySave(cfg, t, k, o, UpdateEngine(t.time, t.engine, k, o));
    }
  }

  lemma TidyReceive(cfg: Config, t: Tracker, a: Answer, success: bool)
    requires Tidy(t) && a in t.pending
    ensures Tidy(Receive(cfg, t, a, success))
  {
    var g := t.Got(a);
    assert Tidy(g) && Sized(a);
    match a
    case StartAnswer(k) => TidyErase(g, k);
    case StopAnswer(k) => TidyErase(g, k);
    case RestopAnswer(k, o) =>
    case RestartAnswer(k, o) => TidySave(cfg, g, k, o, g.engine);
    case SwitchAnswer(k, o) => TidySave(cfg, g, k, o, StartEngine(g.time, g.engine, o));
  }

  lemma TidyStep(cfg: Config, t: Tracker, op: Op)
    requires Tidy(t)
    ensures Tidy(Step(cfg, t, op))
  {
    match op
    case Start(k, o, hasCallback) => if o.size > 0 { TidyStart(cfg, t, k, o); }
    case Update(k, o) => if o.size > 0 && (Has(t.time, k) || Has(t.distance, k)) { TidyUpdate(cfg, t, k, o); }
    case Stop(k) => TidyErase(t, k);
    case Answered(a, success) => if a in t.pending { TidyReceive(cfg, t, a, success); }
    case Restart =>
  }

  /** In every run, with or without distance tracking, what the results above ask of the sessions holds. */
  lemma {:induction false} RunTidy(cfg: Config, ops: seq<Op>)
    ensures Sorted(Run(cfg, ops).time) && Set(Run(cfg, ops).time)
    ensures Tidy(Run(cfg, ops))
  {
    if ops != [] {
      RunTidy(cfg, ops[..|ops| - 1]);
      TidyStep(cfg, Run(cfg, ops[..|ops| - 1]), ops[|ops| - 1]);
    }
  }
}

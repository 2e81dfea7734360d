/** What every run of the tracking multiplexer keeps. */
module TrackingSafety {
  import opened Wrappers
  import opened Tracking

  // ---------------------------------------------------------------------------------------------
  // The engine and the sessions it serves
  // ---------------------------------------------------------------------------------------------

  /** The engine runs exactly when somebody needs it, and at least as often as everybody needs it. */
  predicate Serves(engine: Engine, time: seq<Session>) {
    && (engine.Running? <==> time != [])
    && (engine.Running? ==> forall s :: s in time ==> engine.options.minInterval <= s.options.minInterval)
  }

  /** It runs no more often than the most demanding session asks for. */
  ghost predicate Exact(engine: Engine, time: seq<Session>) {
    engine.Running? && time != [] ==> IsSmallest(time, engine.options.minInterval)
  }

  lemma PutNonEmpty(ss: seq<Session>, k: Key, o: Options)
    ensures Put(ss, k, o) != [] && Session(k, o) in Put(ss, k, o)
  {
  }

  lemma {:induction false} RemoveUnknown(ss: seq<Session>, k: Key)
    requires !Has(ss, k)
    ensures Remove(ss, k) == ss
  {
    if ss != [] {
      assert ss[0].key != k;
      forall i | 0 <= i < |ss[1..]| ensures ss[1..][i].key != k {
        assert ss[1..][i] == ss[i + 1];
      }
      RemoveUnknown(ss[1..], k);
    }
  }

  /** The smallest interval when one session joins others. */
  lemma MergedSmallest(others: seq<Session>, s: Session, b: nat, next: seq<Session>)
    requires IsSmallest(others, b) && forall x :: x in next <==> x in others || x == s
    ensures IsSmallest(next, Min(b, s.options.minInterval))
  {
    var y :| y in others && y.options.minInterval == b;
    assert y in next && s in next;
  }

  lemma SmallestUnique(ss: seq<Session>, x: nat, y: nat)
    requires IsSmallest(ss, x) && IsSmallest(ss, y)
    ensures x == y
  {
    var s :| s in ss && s.options.minInterval == x;
    var t :| t in ss && t.options.minInterval == y;
  }

  /** A start serves the session even if it replaces one of the same key; it is exact if it does not. */
  lemma StartServes(time: seq<Session>, engine: Engine, k: Key, o: Options)
    requires Set(time) && Serves(engine, time)
    ensures Serves(StartEngine(time, engine, o), Put(time, k, o))
    ensures Exact(engine, time) && !Has(time, k) ==> Exact(StartEngine(time, engine, o), Put(time, k, o))
  {
    var e, next := StartEngine(time, engine, o), Put(time, k, o);
    PutNonEmpty(time, k, o);
    if time != [] {
      BestIsSmallest(time);
      if Exact(engine, time) && !Has(time, k) {
        assert forall s :: s in next <==> s in time || s == Session(k, o);
        MergedSmallest(time, Session(k, o), Best(time, None).minInterval, next);
        SmallestUnique(time, engine.options.minInterval, Best(time, None).minInterval);
      }
    } else {
      assert forall s :: s in next ==> s == Session(k, o);
    }
  }

  lemma StopServes(time: seq<Session>, engine: Engine, k: Key)
    requires Sorted(time) && Set(time) && Serves(engine, time) && Has(time, k)
    ensures var e := StopEngine(time, engine, k);
            Serves(e, Remove(time, k)) && (Exact(engine, time) ==> Exact(e, Remove(time, k)))
  {
    OthersRemain(time, k);
    if |time| != 1 {
      BestOfOthersIsSmallest(time, k);
      if Exact(engine, time) {
        OldInterval(time, k, engine);
      }
    }
  }

  /** A key names one session. */
  lemma OnlyOne(time: seq<Session>, k: Key, x: Session)
    requires Sorted(time) && Has(time, k) && x in time
    ensures x.key == k ==> x.options == Get(time, k)
  {
    if x.key == k {
      var y := Session(k, Get(time, k));
      assert y in time;
      var i :| 0 <= i < |time| && time[i] == x;
      var j :| 0 <= j < |time| && time[j] == y;
      assert i == j;
    }
  }

  lemma UpdateServes(time: seq<Session>, engine: Engine, k: Key, o: Options)
    requires Sorted(time) && Set(time) && Serves(engine, time) && Has(time, k)
    ensures Serves(UpdateEngine(time, engine, k, o), Put(time, k, o))
  {
    PutNonEmpty(time, k, o);
    OthersRemain(time, k);
    assert Session(k, Get(time, k)) in time;
    if |time| != 1 {
      BestOfOthersIsSmallest(time, k);
    }
  }

  /** An update that raises the smallest interval without any call to the engine. */
  predicate Lags(time: seq<Session>, k: Key, o: Options)
    requires Has(time, k)
  {
    var b := Best(time, Some(k));
    && |time| > 1
    && Get(time, k).minInterval < b.minInterval <= o.minInterval
    && o.powerMode >= Power(time, Some(k))
  }

  /** What an update makes the smallest interval when there are other sessions. */
  lemma UpdateSmallest(time: seq<Session>, k: Key, o: Options)
    requires Sorted(time) && Set(time) && Has(time, k) && |time| != 1
    ensures IsSmallest(Put(time, k, o), Min(Best(time, Some(k)).minInterval, o.minInterval))
  {
    OthersRemain(time, k);
    BestOfOthersIsSmallest(time, k);
    MergedSmallest(Remove(time, k), Session(k, o), Best(time, Some(k)).minInterval, Put(time, k, o));
  }

  /** What it makes the engine's interval. */
  lemma UpdateInterval(time: seq<Session>, engine: Engine, k: Key, o: Options)
    requires Has(time, k) && |time| > 1 && engine.Running?
    requires engine.options.minInterval == Min(Best(time, Some(k)).minInterval, Get(time, k).minInterval)
    ensures UpdateEngine(time, engine, k, o).options.minInterval == Min(Best(time, Some(k)).minInterval, o.minInterval)
            <==> !Lags(time, k, o)
  {
  }

  /** An exact engine stays exact under an update if and only if the update does not lag. */
  lemma UpdateExactUnlessLags(time: seq<Session>, engine: Engine, k: Key, o: Options)
    requires Sorted(time) && Set(time) && Serves(engine, time) && Exact(engine, time) && Has(time, k)
    ensures Exact(UpdateEngine(time, engine, k, o), Put(time, k, o)) <==> !Lags(time, k, o)
  {
    var e, next := UpdateEngine(time, engine, k, o), Put(time, k, o);
    PutNonEmpty(time, k, o);
    if |time| == 1 {
      OneSession(time, k, engine);
      OthersRemain(time, k);
      assert forall s :: s in next ==> s == Session(k, o);
    } else {
      OldInterval(time, k, engine);
      UpdateSmallest(time, k, o);
      UpdateInterval(time, engine, k, o);
      if Exact(e, next) {
        SmallestUnique(next, Min(Best(time, Some(k)).minInterval, o.minInterval), e.options.minInterval);
      }
    }
  }

  lemma OneSession(time: seq<Session>, k: Key, engine: Engine)
    requires |time| == 1 && Has(time, k) && Serves(engine, time) && Exact(engine, time)
    ensures engine.options.minInterval == Get(time, k).minInterval
  {
    var s :| s in time && s.options.minInterval == engine.options.minInterval;
    assert s == time[0];
  }

  /** The interval of an exact engine is that of a session or of the best of the others. */
  lemma OldInterval(time: seq<Session>, k: Key, engine: Engine)
    requires Sorted(time) && Set(time) && Serves(engine, time) && Exact(engine, time) && Has(time, k) && |time| != 1
    ensures Remove(time, k) != []
    ensures engine.options.minInterval == Min(Best(time, Some(k)).minInterval, Get(time, k).minInterval)
  {
    var s := Session(k, Get(time, k));
    OthersRemain(time, k);
    BestOfOthersIsSmallest(time, k);
    forall x ensures x in time <==> x in Remove(time, k) || x == s {
      if x in time {
        OnlyOne(time, k, x);
      }
    }
    MergedSmallest(Remove(time, k), s, Best(time, Some(k)).minInterval, time);
    SmallestUnique(time, engine.options.minInterval, Min(Best(time, Some(k)).minInterval, s.options.minInterval));
  }

  lemma RestartServes(time: seq<Session>)
    requires Set(time)
    ensures Serves(RestartEngine(time), time) && Exact(RestartEngine(time), time)
  {
    if time != [] {
      BestIsSmallest(time);
    }
  }

  // ---------------------------------------------------------------------------------------------
  // When a step leaves the engine without its session
  // ---------------------------------------------------------------------------------------------

  /** The options of an outstanding answer are those for which the call was made. */
  predicate Fits(a: Answer) {
    match a
    case SwitchAnswer(_, o) => o.size != 0 && o.minDistance == 0
    case RestopAnswer(_, o) => o.minDistance > 0
    case RestartAnswer(_, o) => o.minDistance > 0
    case _ => true
  }

  ghost predicate Base(t: Tracker) {
    Sorted(t.time) && Set(t.time) && forall a :: a in t.pending ==> Fits(a)
  }

  /** The message erases the only time-based session, and the engine is not told. */
  predicate Orphans(t: Tracker, op: Op) {
    match op
    case Update(k, o) => |t.time| == 1 && Has(t.time, k) && Has(t.distance, k) && o.size != 0 && o.minDistance == 0
    case Answered(a, success) =>
      && a in t.pending && |t.time| == 1 && Has(t.time, a.key)
      && ((a.StartAnswer? && !success) || (a.StopAnswer? && success))
    case _ => false
  }

  lemma EraseServes(t: Tracker, k: Key)
    requires Base(t)
    ensures Base(Erase(t, k))
    ensures Serves(t.engine, t.time) ==>
              (Serves(Erase(t, k).engine, Erase(t, k).time) <==> !(|t.time| == 1 && Has(t.time, k)))
  {
    if Has(t.time, k) {
      RemoveSorted(t.time, k);
      OthersRemain(t.time, k);
    }
  }

  lemma SaveServes(t: Tracker, k: Key, o: Options, engine: Engine)
    requires Base(t) && o.size != 0
    ensures Base(Tracker(Put(t.time, k, o), t.distance, engine, t.pending))
  {
    PutSorted(t.time, k, o);
  }

  lemma StartStep(cfg: Config, t: Tracker, k: Key, o0: Options)
    requires cfg.distanceSupported && Base(t) && o0.size != 0
    ensures var n := StartSession(cfg, t, k, o0);
            Base(n) && (Serves(t.engine, t.time) ==> Serves(n.engine, n.time))
  {
    var o := Limit(o0);
    if o.minDistance == 0 {
      var w := Weaken(cfg, o);
      SaveServes(t, k, w, StartEngine(t.time, t.engine, w));
      if Serves(t.engine, t.time) {
        StartServes(t.time, t.engine, k, w);
      }
    }
  }

  lemma StopStep(t: Tracker, k: Key)
    requires Base(t)
    ensures var n := StopSession(t, k);
            Base(n) && (Serves(t.engine, t.time) ==> Serves(n.engine, n.time))
  {
    if Has(t.time, k) {
      RemoveSorted(t.time, k);
      if Serves(t.engine, t.time) {
        StopServes(t.time, t.engine, k);
      }
    }
  }

  lemma UpdateStep(cfg: Config, t: Tracker, k: Key, o0: Options)
    requires cfg.distanceSupported && Base(t) && o0.size != 0 && (Has(t.time, k) || Has(t.distance, k))
    ensures var n := UpdateSession(cfg, t, k, o0);
            && Base(n)
            && (Serves(t.engine, t.time) ==> (Serves(n.engine, n.time) <==> !Orphans(t, Update(k, o0))))
  {
    var o := Limit(Weaken(cfg, o0));
    if Has(t.time, k) && o.minDistance > 0 {
      StopStep(t, k);
    } else if Has(t.distance, k) && o.minDistance == 0 {
      EraseServes(t, k);
    } else if Has(t.time, k) {
      SaveServes(t, k, o, UpdateEngine(t.time, t.engine, k, o));
      if Serves(t.engine, t.time) {
        UpdateServes(t.time, t.engine, k, o);
      }
    }
  }

  lemma ReceiveStep(cfg: Config, t: Tracker, a: Answer, success: bool)
    requires cfg.distanceSupported && Base(t) && a in t.pending
    ensures var n := Receive(cfg, t, a, success);
            && Base(n)
            && (Serves(t.engine, t.time) ==> (Serves(n.engine, n.time) <==> !Orphans(t, Answered(a, success))))
  {
    var g := t.Got(a);
    assert Fits(a);
    match a
    case StartAnswer(k) => EraseServes(g, k);
    case StopAnswer(k) => EraseServes(g, k);
    case SwitchAnswer(k, o) =>
      SaveServes(g, k, o, StartEngine(g.time, g.engine, o));
      if Serves(t.engine, t.time) {
        StartServes(t.time, t.engine, k, o);
      }
    case _ =>
  }

  /** A served engine stays served by a message if and only if the message does not orphan it. */
  lemma ServedUnlessOrphaned(cfg: Config, t: Tracker, op: Op)
    requires cfg.distanceSupported && Base(t)
    ensures var n := Step(cfg, t, op);
            && Base(n)
            && (Serves(t.engine, t.time) ==> (Serves(n.engine, n.time) <==> !Orphans(t, op)))
  {
    match op
    case Start(k, o, hasCallback) =>
      if hasCallback && o.size != 0 {
        StartStep(cfg, t, k, o);
      }
    case Update(k, o) =>
      if (Has(t.time, k) || Has(t.distance, k)) && o.size != 0 {
        UpdateStep(cfg, t, k, o);
      }
    case Stop(k) =>
      StopStep(t, k);
    case Answered(a, success) =>
      if a in t.pending {
        ReceiveStep(cfg, t, a, success);
      }
    case Restart =>
      RestartServes(t.time);
  }

  // ---------------------------------------------------------------------------------------------
  // All runs
  // ---------------------------------------------------------------------------------------------

  lemma {:induction false} RunBase(cfg: Config, ops: seq<Op>)
    requires cfg.distanceSupported
    ensures Base(Run(cfg, ops))
  {
    if ops != [] {
      RunBase(cfg, ops[..|ops| - 1]);
      ServedUnlessOrphaned(cfg, Run(cfg, ops[..|ops| - 1]), ops[|ops| - 1]);
    }
  }

  /** The engine serves its sessions after every message of a run. */
  ghost predicate AlwaysServes(cfg: Config, ops: seq<Op>) {
    && Serves(Run(cfg, ops).engine, Run(cfg, ops).time)
    && (ops != [] ==> AlwaysServes(cfg, ops[..|ops| - 1]))
  }

  /** No message of a run orphans the engine. */
  ghost predicate NeverOrphans(cfg: Config, ops: seq<Op>) {
    ops != [] ==>
      NeverOrphans(cfg, ops[..|ops| - 1]) && !Orphans(Run(cfg, ops[..|ops| - 1]), ops[|ops| - 1])
  }

  /**
   * When distance tracking is supported, then in any run at all, however commands and answers interleave, the
   * engine runs all along exactly when there is a time-based session, at an interval no session finds too
   * long, if and only if no message orphans it.
   */
  lemma {:induction false} ServedExactlyWithoutOrphans(cfg: Config, ops: seq<Op>)
    requires cfg.distanceSupported
    ensures AlwaysServes(cfg, ops) <==> NeverOrphans(cfg, ops)
  {
    if ops != [] {
      var before := ops[..|ops| - 1];
      ServedExactlyWithoutOrphans(cfg, before);
      RunBase(cfg, before);
      ServedUnlessOrphaned(cfg, Run(cfg, before), ops[|ops| - 1]);
    }
  }

  /** Whatever happened before, right after a restart the engine serves its sessions at the smallest interval. */
  lemma {:induction false} RestartHeals(cfg: Config, ops: seq<Op>)
    requires cfg.distanceSupported
    ensures var t := Step(cfg, Run(cfg, ops), Restart); Serves(t.engine, t.time) && Exact(t.engine, t.time)
  {
    RunBase(cfg, ops);
    RestartServes(Run(cfg, ops).time);
  }

  // ---------------------------------------------------------------------------------------------
  // Runs of clients that wait for their answers
  // ---------------------------------------------------------------------------------------------

  predicate Apart(a: seq<Session>, b: seq<Session>) {
    forall x, y :: x in a && y in b ==> x.key != y.key
  }

  /** A session is in one map at most, in none of them while it is switched, and has one outstanding answer. */
  ghost predicate Inv(t: Tracker) {
    && Base(t) && Apart(t.time, t.distance)
    && (forall a :: a in t.pending ==> t.pending[a] == 1 && !Has(t.time, a.key))
    && (forall a :: a in t.pending && a.SwitchAnswer? ==> !Has(t.distance, a.key))
    && (forall a, b :: a in t.pending && b in t.pending && a.key == b.key ==> a == b)
  }

  lemma NotElsewhere(t: Tracker, k: Key)
    requires Apart(t.time, t.distance) && Has(t.time, k)
    ensures !Has(t.distance, k)
  {
    var s := Session(k, Get(t.time, k));
    assert s in t.time;
    forall x | x in t.distance ensures x.key != k {
      assert s.key == k;
    }
  }

  lemma InvNeverOrphans(t: Tracker, op: Op)
    requires Inv(t) && Patient(t, op)
    ensures !Orphans(t, op)
  {
    if op.Update? && Has(t.time, op.key) {
      NotElsewhere(t, op.key);
    }
  }

  /** A new answer for a session that has none, and that is not time-based. */
  lemma AskKeeps(t: Tracker, a: Answer)
    requires Inv(t) && Quiet(t, a.key) && Fits(a) && !Has(t.time, a.key)
    requires a.SwitchAnswer? ==> !Has(t.distance, a.key)
    ensures Inv(t.Ask(a))
  {
  }

  lemma GotKeeps(t: Tracker, a: Answer)
    requires Inv(t) && a in t.pending
    ensures Inv(t.Got(a)) && Quiet(t.Got(a), a.key) && Fits(a) && !Has(t.time, a.key)
    ensures a.SwitchAnswer? ==> !Has(t.distance, a.key)
  {
  }

  lemma SaveTimeKeeps(t: Tracker, k: Key, o: Options, engine: Engine)
    requires Inv(t) && Quiet(t, k) && !Has(t.distance, k) && o.size != 0
    ensures Inv(Tracker(Put(t.time, k, o), t.distance, engine, t.pending))
  {
    var next := Put(t.time, k, o);
    PutSorted(t.time, k, o);
    forall a | a in t.pending ensures !Has(next, a.key) {
      forall i | 0 <= i < |next| ensures next[i].key != a.key {
        assert next[i] in next;
      }
    }
    assert Apart(next, t.distance);
  }

  lemma SaveDistanceKeeps(t: Tracker, k: Key, o: Options, engine: Engine)
    requires Inv(t) && Quiet(t, k) && !Has(t.time, k)
    ensures Inv(Tracker(t.time, Put(t.distance, k, o), engine, t.pending))
  {
    var next := Put(t.distance, k, o);
    forall a | a in t.pending && a.SwitchAnswer? ensures !Has(next, a.key) {
      forall i | 0 <= i < |next| ensures next[i].key != a.key {
        assert next[i] in next;
      }
    }
    assert Apart(t.time, next);
  }

  lemma SaveKeeps(cfg: Config, t: Tracker, k: Key, o: Options, engine: Engine)
    requires cfg.distanceSupported && Inv(t) && Quiet(t, k)
    requires if o.minDistance > 0 then !Has(t.time, k) else !Has(t.distance, k) && o.size != 0
    ensures Inv(Save(cfg, t.With(engine), k, o)) && Quiet(Save(cfg, t.With(engine), k, o), k)
  {
    if o.minDistance > 0 {
      SaveDistanceKeeps(t, k, o, engine);
    } else {
      SaveTimeKeeps(t, k, o, engine);
    }
  }

  predicate Part(a: seq<Session>, b: seq<Session>) {
    forall s :: s in a ==> s in b
  }

  lemma PartHas(a: seq<Session>, b: seq<Session>, k: Key)
    requires Part(a, b) && !Has(b, k)
    ensures !Has(a, k)
  {
    forall i | 0 <= i < |a| ensures a[i].key != k {
      assert a[i] in b;
    }
  }

  /** Sessions may leave the maps, whatever the engine does. */
  lemma ShrinkKeeps(t: Tracker, n: Tracker)
    requires Inv(t) && n.pending == t.pending && Part(n.time, t.time) && Part(n.distance, t.distance) && Sorted(n.time)
    ensures Inv(n)
  {
    forall a | a in t.pending ensures !Has(n.time, a.key) && (a.SwitchAnswer? ==> !Has(n.distance, a.key)) {
      PartHas(n.time, t.time, a.key);
      if a.SwitchAnswer? {
        PartHas(n.distance, t.distance, a.key);
      }
    }
  }

  lemma RemoveGone(ss: seq<Session>, k: Key)
    ensures !Has(Remove(ss, k), k) && Part(Remove(ss, k), ss)
  {
    forall i | 0 <= i < |Remove(ss, k)| ensures Remove(ss, k)[i].key != k {
      assert Remove(ss, k)[i] in Remove(ss, k);
    }
  }

  lemma EraseKeeps(t: Tracker, k: Key, engine: Engine)
    requires Inv(t)
    ensures var n := Erase(t, k).With(engine);
            Inv(n) && n.pending == t.pending && !Has(n.time, k) && !Has(n.distance, k)
  {
    RemoveSorted(t.time, k);
    RemoveGone(t.time, k);
    RemoveGone(t.distance, k);
    if Has(t.time, k) {
      NotElsewhere(t, k);
    }
    ShrinkKeeps(t, Erase(t, k).With(engine));
  }

  lemma StartKeeps(cfg: Config, t: Tracker, k: Key, o0: Options)
    requires cfg.distanceSupported && Inv(t) && Unused(t, k) && o0.size != 0
    ensures Inv(StartSession(cfg, t, k, o0))
  {
    var o := Limit(o0);
    if o.minDistance > 0 {
      SaveKeeps(cfg, t, k, o, t.engine);
      AskKeeps(Save(cfg, t.With(t.engine), k, o), StartAnswer(k));
    } else {
      var w := Weaken(cfg, o);
      SaveKeeps(cfg, t, k, w, StartEngine(t.time, t.engine, w));
    }
  }

  lemma UpdateKeeps(cfg: Config, t: Tracker, k: Key, o0: Options)
    requires cfg.distanceSupported && Inv(t) && Quiet(t, k) && o0.size != 0 && (Has(t.time, k) || Has(t.distance, k))
    ensures Inv(UpdateSession(cfg, t, k, o0))
  {
    var o := Limit(Weaken(cfg, o0));
    if Has(t.time, k) {
      NotElsewhere(t, k);
      if o.minDistance > 0 {
        var e := StopEngine(t.time, t.engine, k);
        EraseKeeps(t, k, e);
        SaveKeeps(cfg, Erase(t, k).With(e), k, o, e);
      } else {
        SaveKeeps(cfg, t, k, o, UpdateEngine(t.time, t.engine, k, o));
      }
    } else if o.minDistance == 0 {
      EraseKeeps(t, k, t.engine);
      AskKeeps(Erase(t, k).With(t.engine), SwitchAnswer(k, o));
    } else {
      AskKeeps(t, RestopAnswer(k, o));
    }
  }

  lemma StopKeeps(t: Tracker, k: Key)
    requires Inv(t) && Quiet(t, k)
    ensures Inv(StopSession(t, k))
  {
    if Has(t.time, k) {
      EraseKeeps(t, k, StopEngine(t.time, t.engine, k));
    } else if Has(t.distance, k) {
      AskKeeps(t, StopAnswer(k));
    }
  }

  lemma ReceiveKeeps(cfg: Config, t: Tracker, a: Answer, success: bool)
    requires cfg.distanceSupported && Inv(t) && a in t.pending
    ensures Inv(Receive(cfg, t, a, success))
  {
    var g := t.Got(a);
    GotKeeps(t, a);
    match a
    case StartAnswer(k) => EraseKeeps(g, k, g.engine);
    case StopAnswer(k) => EraseKeeps(g, k, g.engine);
    case RestopAnswer(k, o) => AskKeeps(g, RestartAnswer(k, o));
    case RestartAnswer(k, o) => SaveKeeps(cfg, g, k, o, g.engine);
    case SwitchAnswer(k, o) => SaveKeeps(cfg, g, k, o, StartEngine(g.time, g.engine, o));
  }

  lemma StepKeeps(cfg: Config, t: Tracker, op: Op)
    requires cfg.distanceSupported && Inv(t) && Patient(t, op) && (op.Start? ==> Unused(t, op.key))
    ensures Inv(Step(cfg, t, op))
  {
    match op
    case Start(k, o, hasCallback) =>
      if hasCallback && o.size != 0 {
        StartKeeps(cfg, t, k, o);
      }
    case Update(k, o) =>
      if (Has(t.time, k) || Has(t.distance, k)) && o.size != 0 {
        UpdateKeeps(cfg, t, k, o);
      }
    case Stop(k) =>
      StopKeeps(t, k);
    case Answered(a, success) =>
      if a in t.pending {
        ReceiveKeeps(cfg, t, a, success);
      }
    case Restart =>
  }

  lemma {:induction false} RunKeeps(cfg: Config, ops: seq<Op>)
    requires cfg.distanceSupported && Legal(cfg, ops) && Orderly(cfg, ops)
    ensures Inv(Run(cfg, ops)) && NeverOrphans(cfg, ops)
  {
    if ops != [] {
      var before := ops[..|ops| - 1];
      RunKeeps(cfg, before);
      InvNeverOrphans(Run(cfg, before), ops[|ops| - 1]);
      StepKeeps(cfg, Run(cfg, before), ops[|ops| - 1]);
    }
  }

  /**
   * If every client waits for the answers about a session before its next command about it, the engine runs
   * exactly when there is a time-based session, at an interval no session finds too long, after every message
   * of every run.
   */
  lemma {:induction false} EngineServesEveryRun(cfg: Config, ops: seq<Op>)
    requires cfg.distanceSupported && Legal(cfg, ops) && Orderly(cfg, ops)
    ensures AlwaysServes(cfg, ops)
  {
    RunKeeps(cfg, ops);
    ServedExactlyWithoutOrphans(cfg, ops);
  }

  // ---------------------------------------------------------------------------------------------
  // The smallest interval
  // ---------------------------------------------------------------------------------------------

  /** What runs without updates keep, with or without distance tracking. */
  ghost predicate Plain(t: Tracker) {
    && Sorted(t.time) && Set(t.time) && Serves(t.engine, t.time) && Exact(t.engine, t.time)
    && forall a :: a in t.pending ==> (a.StartAnswer? || a.StopAnswer?) && !Has(t.time, a.key)
  }

  lemma PlainStart(cfg: Config, t: Tracker, k: Key, o0: Options)
    requires Plain(t) && Unused(t, k) && o0.size != 0
    ensures Plain(StartSession(cfg, t, k, o0))
  {
    var o := Limit(o0);
    if o.minDistance == 0 || !cfg.distanceSupported {
      var w := Weaken(cfg, o);
      StartServes(t.time, t.engine, k, w);
      PutSorted(t.time, k, w);
    }
  }

  lemma PlainStop(t: Tracker, k: Key)
    requires Plain(t)
    ensures Plain(StopSession(t, k))
  {
    if Has(t.time, k) {
      StopServes(t.time, t.engine, k);
      RemoveSorted(t.time, k);
      forall a | a in t.pending ensures !Has(Remove(t.time, k), a.key) {
        RemoveGone(t.time, k);
        PartHas(Remove(t.time, k), t.time, a.key);
      }
    }
  }

  lemma PlainAnswer(cfg: Config, t: Tracker, a: Answer, success: bool)
    requires Plain(t) && a in t.pending
    ensures Plain(Receive(cfg, t, a, success))
  {
  }

  lemma PlainStep(cfg: Config, t: Tracker, op: Op)
    requires Plain(t) && !op.Update? && (op.Start? ==> Unused(t, op.key))
    ensures Plain(Step(cfg, t, op))
  {
    match op
    case Start(k, o, hasCallback) =>
      if hasCallback && o.size != 0 {
        PlainStart(cfg, t, k, o);
      }
    case Stop(k) => PlainStop(t, k);
    case Answered(a, success) =>
      if a in t.pending {
        PlainAnswer(cfg, t, a, success);
      }
    case Restart => RestartServes(t.time);
  }

  lemma {:induction false} RunPlain(cfg: Config, ops: seq<Op>)
    requires Legal(cfg, ops) && forall k :: 0 <= k < |ops| ==> !ops[k].Update?
    ensures Plain(Run(cfg, ops))
  {
    if ops != [] {
      var before := ops[..|ops| - 1];
      RunPlain(cfg, before);
      PlainStep(cfg, Run(cfg, before), ops[|ops| - 1]);
    }
  }

  /** Without updates the interval is the smallest one all along, supported or not, and whoever waits for what. */
  lemma {:induction false} ExactWithoutUpdates(cfg: Config, ops: seq<Op>)
    requires Legal(cfg, ops) && forall k :: 0 <= k < |ops| ==> !ops[k].Update?
    ensures var t := Run(cfg, ops); Serves(t.engine, t.time) && Exact(t.engine, t.time)
  {
    RunPlain(cfg, ops);
  }

  /** A session that asks for distance tracking where there is none is kept while its engine is stopped. */
  lemma {:induction false} UnsupportedStarves(cfg: Config) returns (ops: seq<Op>)
    requires !cfg.distanceSupported
    ensures Legal(cfg, ops) && Orderly(cfg, ops) && !Serves(Run(cfg, ops).engine, Run(cfg, ops).time)
  {
    var k, o := Key(0, 1), Options(1, 1000, 0, 2, 0);
    var o' := Options(1, 1000, 5, 2, 0);
    var first := [Start(k, o, true)];
    ops := [Start(k, o, true), Update(k, o')];
    assert first[..0] == [] && ops[..1] == first;
    var t := Tracker([Session(k, o)], [], Running(o), multiset{});
    assert Run(cfg, []) == Init() && Unused(Init(), k);
    assert Put([], k, o) == [Session(k, o)];
    assert Run(cfg, first) == t && Quiet(t, k);
    assert t.time[0].key == k;
    assert Remove(t.time, k) == [];
    assert Step(cfg, t, Update(k, o')) == Tracker([Session(k, o')], [], Stopped, multiset{});
    assert Run(cfg, ops) == Step(cfg, Run(cfg, ops[..1]), ops[1]);
    assert Legal(cfg, []) && Legal(cfg, first) && Orderly(cfg, []) && Orderly(cfg, first);
  }

  /** The engine serves every orderly run if and only if distance tracking is supported. */
  lemma {:induction false} ServedExactlyWhenSupported(cfg: Config)
    ensures cfg.distanceSupported <==> forall ops :: Legal(cfg, ops) && Orderly(cfg, ops) ==> AlwaysServes(cfg, ops)
  {
    if cfg.distanceSupported {
      forall ops | Legal(cfg, ops) && Orderly(cfg, ops) ensures AlwaysServes(cfg, ops) {
        EngineServesEveryRun(cfg, ops);
      }
    } else {
      var ops := UnsupportedStarves(cfg);
      assert !AlwaysServes(cfg, ops);
    }
  }

  /** A time-based update keeps the smallest interval in force if and only if it does not lag. */
  lemma {:induction false} UpdateExactness(cfg: Config, ops: seq<Op>, k: Key, o0: Options)
    requires cfg.distanceSupported && Legal(cfg, ops) && Orderly(cfg, ops) && o0.size != 0 && o0.minDistance == 0
    ensures var t, n := Run(cfg, ops), Step(cfg, Run(cfg, ops), Update(k, o0));
            Has(t.time, k) && Exact(t.engine, t.time) ==>
              (Exact(n.engine, n.time) <==> !Lags(t.time, k, Limit(Weaken(cfg, o0))))
  {
    var t := Run(cfg, ops);
    RunKeeps(cfg, ops);
    EngineServesEveryRun(cfg, ops);
    assert Serves(t.engine, t.time);
    if Has(t.time, k) && Exact(t.engine, t.time) {
      NotElsewhere(t, k);
      UpdateExactUnlessLags(t.time, t.engine, k, Limit(Weaken(cfg, o0)));
    }
  }
}

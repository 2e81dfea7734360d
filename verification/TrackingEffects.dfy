/** What each tracking message achieves: in the two session maps, in the answers to come, and in the engine. */
module TrackingEffects {
  import opened Wrappers
  import opened Tracking
  import opened TrackingSafety

  // ---------------------------------------------------------------------------------------------
  // Ordered sequences as maps
  // ---------------------------------------------------------------------------------------------

  function Look(ss: seq<Session>, k: Key): Option<Options> {
    if Has(ss, k) then Some(Get(ss, k)) else None
  }

  lemma LookHead(s: Session, rest: seq<Session>, k: Key)
    ensures Look([s] + rest, k) == if s.key == k then Some(s.options) else Look(rest, k)
  {
    var ss := [s] + rest;
    assert ss[0] == s && ss[1..] == rest;
    if Has(rest, k) {
      var i :| 0 <= i < |rest| && rest[i].key == k;
      assert ss[i + 1].key == k;
    }
    if Has(ss, k) && s.key != k {
      var i :| 0 <= i < |ss| && ss[i].key == k;
      assert rest[i - 1].key == k;
    }
  }

  lemma {:induction false} LookRemove(ss: seq<Session>, k: Key, k': Key)
    ensures Look(Remove(ss, k), k') == if k' == k then None else Look(ss, k')
  {
    if ss != [] {
      LookRemove(ss[1..], k, k');
      assert ss == [ss[0]] + ss[1..];
      LookHead(ss[0], ss[1..], k');
      LookHead(ss[0], Remove(ss[1..], k), k');
    }
  }

  lemma {:induction false} LookInsert(ss: seq<Session>, s: Session, k': Key)
    requires !Has(ss, s.key)
    ensures Look(Insert(ss, s), k') == if k' == s.key then Some(s.options) else Look(ss, k')
  {
    if ss == [] {
      LookHead(s, [], k');
      assert [s] + [] == [s];
    } else {
      assert ss == [ss[0]] + ss[1..] && ss[0].key != s.key;
      LookHead(ss[0], ss[1..], s.key);
      LookInsert(ss[1..], s, k');
      LookHead(s, ss, k');
      LookHead(ss[0], ss[1..], k');
      LookHead(ss[0], Insert(ss[1..], s), k');
    }
  }

  lemma LookPut(ss: seq<Session>, k: Key, o: Options, k': Key)
    ensures Look(Put(ss, k, o), k') == if k' == k then Some(o) else Look(ss, k')
  {
    LookRemove(ss, k, k);
    LookRemove(ss, k, k');
    LookInsert(Remove(ss, k), Session(k, o), k');
  }

  /** A sequence of sessions holds what a map holds. */
  ghost predicate Holds(ss: seq<Session>, m: map<Key, Options>) {
    forall k :: Look(ss, k) == if k in m then Some(m[k]) else None
  }

  lemma PutHolds(ss: seq<Session>, m: map<Key, Options>, k: Key, o: Options)
    requires Holds(ss, m)
    ensures Holds(Put(ss, k, o), m[k := o])
  {
    forall k' ensures Look(Put(ss, k, o), k') == if k' in m[k := o] then Some(m[k := o][k']) else None {
      LookPut(ss, k, o, k');
    }
  }

  lemma RemoveHolds(ss: seq<Session>, m: map<Key, Options>, k: Key)
    requires Holds(ss, m)
    ensures Holds(Remove(ss, k), m - {k})
  {
    forall k' ensures Look(Remove(ss, k), k') == if k' in m - {k} then Some((m - {k})[k']) else None {
      LookRemove(ss, k, k');
    }
  }

  // ---------------------------------------------------------------------------------------------
  // The tracker refines two maps and a bag of answers
  // ---------------------------------------------------------------------------------------------

  datatype Sessions = Sessions(time: map<Key, Options>, distance: map<Key, Options>, pending: multiset<Answer>)

  /** At least 100 milliseconds. */
  function Raised(o: Options): Options {
    Options(o.size, if o.minInterval < 100 then 100 else o.minInterval, o.minDistance, o.powerMode, o.tbm)
  }

  /** Mode M4, 4, is turned to M2, 2, when the time between measurements is above the threshold. */
  function Reduced(cfg: Config, o: Options): Options {
    Options(o.size, o.minInterval, o.minDistance,
            if o.powerMode == 4 && o.tbm > cfg.tbmThreshold then 2 else o.powerMode, o.tbm)
  }

  function WithTime(v: Sessions, k: Key, o: Options): Sessions {
    Sessions(v.time[k := o], v.distance, v.pending)
  }

  function WithDistance(v: Sessions, k: Key, o: Options): Sessions {
    Sessions(v.time, v.distance[k := o], v.pending)
  }

  function WithoutTime(v: Sessions, k: Key): Sessions {
    Sessions(v.time - {k}, v.distance, v.pending)
  }

  function WithoutDistance(v: Sessions, k: Key): Sessions {
    Sessions(v.time, v.distance - {k}, v.pending)
  }

  function Outstanding(v: Sessions, a: Answer): Sessions {
    Sessions(v.time, v.distance, v.pending + multiset{a})
  }

  function Forget(v: Sessions, k: Key): Sessions {
    if k in v.time then WithoutTime(v, k) else WithoutDistance(v, k)
  }

  function Hold(cfg: Config, v: Sessions, k: Key, o: Options): Sessions {
    if o.minDistance > 0 && cfg.distanceSupported then WithDistance(v, k, o) else WithTime(v, k, o)
  }

  function Started(cfg: Config, v: Sessions, k: Key, o: Options): Sessions {
    if o.minDistance > 0 && cfg.distanceSupported
    then Outstanding(WithDistance(v, k, Raised(o)), StartAnswer(k))
    else WithTime(v, k, Reduced(cfg, Raised(o)))
  }

  function Updated(cfg: Config, v: Sessions, k: Key, o: Options): Sessions {
    var o1 := Reduced(cfg, Raised(o));
    if k in v.time && o.minDistance > 0 then Hold(cfg, WithoutTime(v, k), k, o1)
    else if k in v.distance && o.minDistance == 0 then Outstanding(Forget(v, k), SwitchAnswer(k, o1))
    else if k in v.time then WithTime(v, k, o1)
    else Outstanding(v, RestopAnswer(k, o1))
  }

  function AfterAnswer(cfg: Config, v0: Sessions, a: Answer, success: bool): Sessions {
    var v := Sessions(v0.time, v0.distance, v0.pending - multiset{a});
    match a
    case StartAnswer(k) => if success then v else Forget(v, k)
    case StopAnswer(k) => if success then Forget(v, k) else v
    case RestopAnswer(k, o) => if success then Outstanding(v, RestartAnswer(k, o)) else v
    case RestartAnswer(k, o) => if success then Hold(cfg, v, k, o) else v
    case SwitchAnswer(k, o) => Hold(cfg, v, k, o)
  }

  /** What a message does to the two maps. */
  function Expected(cfg: Config, v: Sessions, op: Op): Sessions {
    match op
    case Start(k, o, hasCallback) => if hasCallback && o.size > 0 then Started(cfg, v, k, o) else v
    case Update(k, o) => if (k in v.time || k in v.distance) && o.size > 0 then Updated(cfg, v, k, o) else v
    case Stop(k) =>
      if k in v.time then WithoutTime(v, k) else if k in v.distance then Outstanding(v, StopAnswer(k)) else v
    case Answered(a, success) => if a in v.pending then AfterAnswer(cfg, v, a, success) else v
    case Restart => v
  }

  function ExpectedRun(cfg: Config, ops: seq<Op>): Sessions {
    if ops == [] then Sessions(map[], map[], multiset{})
    else Expected(cfg, ExpectedRun(cfg, ops[..|ops| - 1]), ops[|ops| - 1])
  }

  ghost predicate Refines(t: Tracker, v: Sessions) {
    Holds(t.time, v.time) && Holds(t.distance, v.distance) && t.pending == v.pending
  }

  lemma RefinesHas(t: Tracker, v: Sessions, k: Key)
    requires Refines(t, v)
    ensures Has(t.time, k) <==> k in v.time
    ensures Has(t.distance, k) <==> k in v.distance
  {
    assert Look(t.time, k) == (if k in v.time then Some(v.time[k]) else None);
    assert Look(t.distance, k) == (if k in v.distance then Some(v.distance[k]) else None);
  }

  lemma SaveRefines(cfg: Config, t: Tracker, v: Sessions, k: Key, o: Options, e: Engine)
    requires Refines(t, v)
    ensures Refines(Save(cfg, t.With(e), k, o), Hold(cfg, v, k, o))
  {
    PutHolds(t.time, v.time, k, o);
    PutHolds(t.distance, v.distance, k, o);
  }

  lemma EraseRefines(t: Tracker, v: Sessions, k: Key)
    requires Refines(t, v)
    ensures Refines(Erase(t, k), Forget(v, k))
  {
    RefinesHas(t, v, k);
    RemoveHolds(t.time, v.time, k);
    RemoveHolds(t.distance, v.distance, k);
  }

  lemma StartRefines(cfg: Config, t: Tracker, v: Sessions, k: Key, o: Options)
    requires Refines(t, v)
    ensures Refines(StartSession(cfg, t, k, o), Started(cfg, v, k, o))
  {
    var raised := Limit(o);
    if o.minDistance > 0 && cfg.distanceSupported {
      SaveRefines(cfg, t, v, k, raised, t.engine);
    } else {
      SaveRefines(cfg, t, v, k, Weaken(cfg, raised), StartEngine(t.time, t.engine, Weaken(cfg, raised)));
    }
  }

  lemma UpdateRefines(cfg: Config, t: Tracker, v: Sessions, k: Key, o0: Options)
    requires Refines(t, v) && (Has(t.time, k) || Has(t.distance, k))
    ensures Refines(UpdateSession(cfg, t, k, o0), Updated(cfg, v, k, o0))
  {
    var o := Limit(Weaken(cfg, o0));
    assert o == Reduced(cfg, Raised(o0));
    RefinesHas(t, v, k);
    EraseRefines(t, v, k);
    if Has(t.time, k) && o.minDistance > 0 {
      SaveRefines(cfg, Erase(t, k), WithoutTime(v, k), k, o, StopEngine(t.time, t.engine, k));
    } else if Has(t.time, k) && !Has(t.distance, k) {
      SaveRefines(cfg, t, v, k, o, UpdateEngine(t.time, t.engine, k, o));
    }
  }

  lemma StopRefines(cfg: Config, t: Tracker, v: Sessions, k: Key)
    requires Refines(t, v)
    ensures Refines(Step(cfg, t, Stop(k)), Expected(cfg, v, Stop(k)))
  {
    RefinesHas(t, v, k);
    EraseRefines(t, v, k);
  }

  lemma AnswerRefines(cfg: Config, t: Tracker, v: Sessions, a: Answer, success: bool)
    requires Refines(t, v) && a in t.pending
    ensures Refines(Receive(cfg, t, a, success), AfterAnswer(cfg, v, a, success))
  {
    var g, w := t.Got(a), Sessions(v.time, v.distance, v.pending - multiset{a});
    assert Refines(g, w);
    match a
    case StartAnswer(k) => EraseRefines(g, w, k);
    case StopAnswer(k) => EraseRefines(g, w, k);
    case RestopAnswer(k, o) =>
    case RestartAnswer(k, o) => SaveRefines(cfg, g, w, k, o, g.engine);
    case SwitchAnswer(k, o) => SaveRefines(cfg, g, w, k, o, StartEngine(g.time, g.engine, o));
  }

  lemma StepRefines(cfg: Config, t: Tracker, v: Sessions, op: Op)
    requires Refines(t, v)
    ensures Refines(Step(cfg, t, op), Expected(cfg, v, op))
  {
    match op
    case Start(k, o, hasCallback) => StartRefines(cfg, t, v, k, o);
    case Update(k, o) =>
      RefinesHas(t, v, k);
      if Has(t.time, k) || Has(t.distance, k) {
        UpdateRefines(cfg, t, v, k, o);
      }
    case Stop(k) => StopRefines(cfg, t, v, k);
    case Answered(a, success) =>
      if a in t.pending {
        AnswerRefines(cfg, t, v, a, success);
      }
    case Restart =>
  }

  /**
   * In every run, however commands and answers interleave, the sessions and the answers to come are those of
   * two simple maps and a bag.
   */
  lemma {:induction false} RefinesMaps(cfg: Config, ops: seq<Op>)
    ensures var t, v := Run(cfg, ops), ExpectedRun(cfg, ops);
            && t.pending == v.pending
            && forall k :: && Look(t.time, k) == (if k in v.time then Some(v.time[k]) else None)
                           && Look(t.distance, k) == (if k in v.distance then Some(v.distance[k]) else None)
  {
    if ops == [] {
      assert Refines(Init(), Sessions(map[], map[], multiset{}));
    } else {
      RefinesMaps(cfg, ops[..|ops| - 1]);
      StepRefines(cfg, Run(cfg, ops[..|ops| - 1]), ExpectedRun(cfg, ops[..|ops| - 1]), ops[|ops| - 1]);
    }
    assert Refines(Run(cfg, ops), ExpectedRun(cfg, ops));
  }

  // ---------------------------------------------------------------------------------------------
  // Single messages, in any state
  // ---------------------------------------------------------------------------------------------

  /** Every session but one is held as before. */
  ghost predicate Elsewhere(a: seq<Session>, b: seq<Session>, k: Key) {
    forall k' :: k' != k ==> Look(b, k') == Look(a, k')
  }

  ghost predicate OthersStay(t: Tracker, n: Tracker, k: Key) {
    Elsewhere(t.time, n.time, k) && Elsewhere(t.distance, n.distance, k)
  }

  lemma PutElsewhere(ss: seq<Session>, k: Key, o: Options)
    ensures Elsewhere(ss, Put(ss, k, o), k) && Elsewhere(ss, ss, k) && Look(Put(ss, k, o), k) == Some(o)
  {
    LookPut(ss, k, o, k);
    forall k' | k' != k ensures Look(Put(ss, k, o), k') == Look(ss, k') {
      LookPut(ss, k, o, k');
    }
  }

  lemma RemoveElsewhere(ss: seq<Session>, k: Key)
    ensures Elsewhere(ss, Remove(ss, k), k) && Elsewhere(ss, ss, k) && !Has(Remove(ss, k), k)
  {
    LookRemove(ss, k, k);
    forall k' | k' != k ensures Look(Remove(ss, k), k') == Look(ss, k') {
      LookRemove(ss, k, k');
    }
  }

  lemma StepLooks(cfg: Config, t: Tracker, k: Key, o: Options)
    ensures OthersStay(t, Save(cfg, t, k, o), k) && OthersStay(t, Erase(t, k), k)
    ensures !Has(Erase(t, k).time, k) && !Has(Remove(t.distance, k), k)
    ensures Look(Put(t.time, k, o), k) == Look(Put(t.distance, k, o), k) == Some(o)
  {
    PutElsewhere(t.time, k, o);
    PutElsewhere(t.distance, k, o);
    RemoveElsewhere(t.time, k);
    RemoveElsewhere(t.distance, k);
  }

  /** A stop of a time-based session: the session is gone at once, and the engine stops with the last one. */
  lemma StopForgets(cfg: Config, t: Tracker, k: Key)
    requires Has(t.time, k)
    ensures var n := Step(cfg, t, Stop(k));
            && !Has(n.time, k) && n.distance == t.distance && n.pending == t.pending && OthersStay(t, n, k)
            && (|t.time| == 1 ==> n.engine == Stopped)
  {
    StepLooks(cfg, t, k, NO_OPTIONS);
  }

  lemma StopAnswered(cfg: Config, t: Tracker, k: Key, success: bool)
    requires StopAnswer(k) in t.pending
    ensures var n := Step(cfg, t, Answered(StopAnswer(k), success));
            && n.pending == t.pending - multiset{StopAnswer(k)} && n.engine == t.engine && OthersStay(t, n, k)
            && (if success then n.time == Erase(t, k).time && n.distance == Erase(t, k).distance
                else n.time == t.time && n.distance == t.distance)
  {
    StepLooks(cfg, t, k, NO_OPTIONS);
  }

  /** A stop of a distance-based session waits for the engine's answer, and so does its removal. */
  lemma StopWaits(cfg: Config, t: Tracker, k: Key)
    requires !Has(t.time, k) && Has(t.distance, k)
    ensures var n := Tracker(t.time, t.distance, t.engine, t.pending + multiset{StopAnswer(k)});
            var gone := Step(cfg, n, Answered(StopAnswer(k), true));
            && Step(cfg, t, Stop(k)) == n
            && !Has(gone.time, k) && !Has(gone.distance, k) && gone.pending == t.pending && OthersStay(t, gone, k)
            && Step(cfg, n, Answered(StopAnswer(k), false)) == t
  {
    var n := t.Ask(StopAnswer(k));
    assert n.pending - multiset{StopAnswer(k)} == t.pending;
    StopAnswered(cfg, n, k, true);
    StopAnswered(cfg, n, k, false);
    StepLooks(cfg, t, k, NO_OPTIONS);
  }

  /** A started session is held with the client's options, within the limits, at once. */
  lemma StartHolds(cfg: Config, t: Tracker, k: Key, o: Options)
    requires o.size > 0
    ensures var n := Step(cfg, t, Start(k, o, true));
            var interval := if o.minInterval < 100 then 100 else o.minInterval;
            var mode := if o.powerMode == 4 && o.tbm > cfg.tbmThreshold then 2 else o.powerMode;
            && OthersStay(t, n, k)
            && (if o.minDistance > 0 && cfg.distanceSupported then
                  && Look(n.distance, k) == Some(Options(o.size, interval, o.minDistance, o.powerMode, o.tbm))
                  && n.pending == t.pending + multiset{StartAnswer(k)} && n.engine == t.engine && n.time == t.time
                else
                  && Look(n.time, k) == Some(Options(o.size, interval, o.minDistance, mode, o.tbm))
                  && n.pending == t.pending && n.distance == t.distance)
  {
    var raised := Limit(o);
    StepLooks(cfg, t, k, raised);
    StepLooks(cfg, t, k, Weaken(cfg, raised));
  }

  /** An update of a session that is time-based and stays so takes effect at once. */
  lemma UpdateHolds(cfg: Config, t: Tracker, k: Key, o: Options)
    requires o.size > 0 && o.minDistance == 0 && Has(t.time, k) && !Has(t.distance, k)
    ensures var n := Step(cfg, t, Update(k, o));
            var interval := if o.minInterval < 100 then 100 else o.minInterval;
            var mode := if o.powerMode == 4 && o.tbm > cfg.tbmThreshold then 2 else o.powerMode;
            && OthersStay(t, n, k) && n.pending == t.pending && n.distance == t.distance
            && Look(n.time, k) == Some(Options(o.size, interval, 0, mode, o.tbm))
  {
    StepLooks(cfg, t, k, Limit(Weaken(cfg, o)));
  }
}

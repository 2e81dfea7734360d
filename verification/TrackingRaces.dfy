/** A run in which the answers about one distance-based session cross, and the engine is left running. */
module TrackingRaces {
  import opened Wrappers
  import opened Tracking

  predicate AllSucceed(ops: seq<Op>) {
    forall op :: op in ops && op.Answered? ==> op.success
  }

  /** A run that has reached a state, with every answer a success. */
  ghost predicate Reaches(cfg: Config, ops: seq<Op>, t: Tracker) {
    Legal(cfg, ops) && AllSucceed(ops) && Run(cfg, ops) == t
  }

  lemma ReachesNext(cfg: Config, ops: seq<Op>, t: Tracker, op: Op)
    requires Reaches(cfg, ops, t) && (op.Start? ==> Unused(t, op.key)) && (op.Answered? ==> op.success)
    ensures Reaches(cfg, ops + [op], Step(cfg, t, op))
  {
    assert (ops + [op])[..|ops|] == ops;
  }

  /** At most one session in each map. */
  function At(time: Option<Session>, distance: Option<Session>, e: Engine, pending: multiset<Answer>): Tracker {
    Tracker(Only(time), Only(distance), e, pending)
  }

  function Only(s: Option<Session>): seq<Session> {
    if s.Some? then [s.value] else []
  }

  lemma OneEntry(k: Key, o: Options, o': Options)
    ensures Has([Session(k, o)], k) && !Has([], k) && Get([Session(k, o)], k) == o
    ensures Remove([Session(k, o)], k) == [] && Remove([], k) == []
    ensures Put([], k, o) == [Session(k, o)] && Put([Session(k, o')], k, o) == [Session(k, o)]
  {
    var one := [Session(k, o)];
    assert one[0].key == k;
    assert one[1..] == [];
  }

  /** The messages about one session k, from states in which no other session is tracked. */
  lemma FarStep(cfg: Config, k: Key, d: Options, e: Engine, p: multiset<Answer>, far: Options)
    requires far.size != 0 && far.minDistance > 0
    ensures Step(cfg, At(None, Some(Session(k, d)), e, p), Update(k, far))
         == At(None, Some(Session(k, d)), e, p + multiset{RestopAnswer(k, Limit(Weaken(cfg, far)))})
  {
    OneEntry(k, d, d);
  }

  lemma NearStep(cfg: Config, k: Key, d: Options, e: Engine, p: multiset<Answer>, near: Options)
    requires near.size != 0 && near.minDistance == 0
    ensures Step(cfg, At(None, Some(Session(k, d)), e, p), Update(k, near))
         == At(None, None, e, p + multiset{SwitchAnswer(k, Limit(Weaken(cfg, near)))})
  {
    OneEntry(k, d, d);
  }

  lemma RestopStep(cfg: Config, t: Tracker, k: Key, u: Options)
    requires RestopAnswer(k, u) in t.pending
    ensures Step(cfg, t, Answered(RestopAnswer(k, u), true)) == t.Got(RestopAnswer(k, u)).Ask(RestartAnswer(k, u))
  {
  }

  lemma SwitchStep(cfg: Config, k: Key, d: Option<Session>, e: Engine, p: multiset<Answer>, n: Options)
    requires SwitchAnswer(k, n) in p && n.minDistance == 0
    ensures Step(cfg, At(None, d, e, p), Answered(SwitchAnswer(k, n), true))
         == At(Some(Session(k, n)), d, Running(n), p - multiset{SwitchAnswer(k, n)})
  {
    OneEntry(k, n, n);
  }

  lemma RestartStep(cfg: Config, k: Key, n: Session, e: Engine, p: multiset<Answer>, u: Options)
    requires RestartAnswer(k, u) in p && u.minDistance > 0 && cfg.distanceSupported
    ensures Step(cfg, At(Some(n), None, e, p), Answered(RestartAnswer(k, u), true))
         == At(Some(n), Some(Session(k, u)), e, p - multiset{RestartAnswer(k, u)})
  {
    OneEntry(k, u, u);
  }

  lemma BothStep(cfg: Config, k: Key, n: Options, u: Options, e: Engine, p: multiset<Answer>, near: Options)
    requires near.size != 0 && near.minDistance == 0
    ensures Step(cfg, At(Some(Session(k, n)), Some(Session(k, u)), e, p), Update(k, near))
         == At(None, Some(Session(k, u)), e, p + multiset{SwitchAnswer(k, Limit(Weaken(cfg, near)))})
  {
    OneEntry(k, n, n);
    OneEntry(k, u, u);
  }

  lemma StopDistanceStep(cfg: Config, k: Key, u: Options, e: Engine, p: multiset<Answer>)
    ensures Step(cfg, At(None, Some(Session(k, u)), e, p), Stop(k))
         == At(None, Some(Session(k, u)), e, p + multiset{StopAnswer(k)})
  {
    OneEntry(k, u, u);
  }

  lemma StopAnswerStep(cfg: Config, k: Key, n: Options, d: Option<Session>, e: Engine, p: multiset<Answer>)
    requires StopAnswer(k) in p
    ensures Step(cfg, At(Some(Session(k, n)), d, e, p), Answered(StopAnswer(k), true))
         == At(None, d, e, p - multiset{StopAnswer(k)})
  {
    OneEntry(k, n, n);
  }

  /** The first distance-based session, started and confirmed. */
  lemma Beginning(cfg: Config, k: Key, far: Options) returns (ops: seq<Op>)
    requires cfg.distanceSupported && far.size != 0 && far.minDistance > 0
    ensures Reaches(cfg, ops, At(None, Some(Session(k, Limit(far))), Stopped, multiset{}))
  {
    OneEntry(k, Limit(far), far);
    assert Reaches(cfg, [], Init()) && Unused(Init(), k);
    ReachesNext(cfg, [], Init(), Start(k, far, true));
    var t := At(None, Some(Session(k, Limit(far))), Stopped, multiset{StartAnswer(k)});
    assert Step(cfg, Init(), Start(k, far, true)) == t;
    ReachesNext(cfg, [] + [Start(k, far, true)], t, Answered(StartAnswer(k), true));
    ops := [] + [Start(k, far, true)] + [Answered(StartAnswer(k), true)];
    assert t.Got(StartAnswer(k)) == At(None, Some(Session(k, Limit(far))), Stopped, multiset{});
  }

  /** A restart and a switch of one session cross: it ends up in both maps. */
  lemma Crossing(cfg: Config, ops0: seq<Op>, k: Key, d: Options, far: Options, near: Options)
    returns (ops: seq<Op>)
    requires cfg.distanceSupported && far.size != 0 && far.minDistance > 0 && near.size != 0 && near.minDistance == 0
    requires Reaches(cfg, ops0, At(None, Some(Session(k, d)), Stopped, multiset{}))
    ensures var u, n := Limit(Weaken(cfg, far)), Limit(Weaken(cfg, near));
            Reaches(cfg, ops, At(Some(Session(k, n)), Some(Session(k, u)), Running(n), multiset{}))
  {
    var u, n := Limit(Weaken(cfg, far)), Limit(Weaken(cfg, near));
    var s, w, r, v := Some(Session(k, d)), Some(Session(k, n)), RestopAnswer(k, u), SwitchAnswer(k, n);
    FarStep(cfg, k, d, Stopped, multiset{}, far);
    ReachesNext(cfg, ops0, At(None, s, Stopped, multiset{}), Update(k, far));
    ops := ops0 + [Update(k, far)];
    var p1 := multiset{} + multiset{r};
    NearStep(cfg, k, d, Stopped, p1, near);
    ReachesNext(cfg, ops, At(None, s, Stopped, p1), Update(k, near));
    ops := ops + [Update(k, near)];
    var p2 := p1 + multiset{v};
    RestopStep(cfg, At(None, None, Stopped, p2), k, u);
    ReachesNext(cfg, ops, At(None, None, Stopped, p2), Answered(r, true));
    ops := ops + [Answered(r, true)];
    var p3 := p2 - multiset{r} + multiset{RestartAnswer(k, u)};
    SwitchStep(cfg, k, None, Stopped, p3, n);
    ReachesNext(cfg, ops, At(None, None, Stopped, p3), Answered(v, true));
    ops := ops + [Answered(v, true)];
    var p4 := p3 - multiset{v};
    RestartStep(cfg, k, w.value, Running(n), p4, u);
    ReachesNext(cfg, ops, At(w, None, Running(n), p4), Answered(RestartAnswer(k, u), true));
    ops := ops + [Answered(RestartAnswer(k, u), true)];
    assert p4 - multiset{RestartAnswer(k, u)} == multiset{};
  }

  /** From there a switch and a stop leave the engine running for nobody. */
  lemma Stranding(cfg: Config, ops0: seq<Op>, k: Key, u: Options, near: Options)
    returns (ops: seq<Op>)
    requires cfg.distanceSupported && near.size != 0 && near.minDistance == 0
    requires var n := Limit(Weaken(cfg, near));
             Reaches(cfg, ops0, At(Some(Session(k, n)), Some(Session(k, u)), Running(n), multiset{}))
    ensures Reaches(cfg, ops, At(None, Some(Session(k, u)), Running(Limit(Weaken(cfg, near))), multiset{}))
  {
    var n := Limit(Weaken(cfg, near));
    var e, s, w, v := Running(n), Some(Session(k, u)), Some(Session(k, n)), SwitchAnswer(k, n);
    BothStep(cfg, k, n, u, e, multiset{}, near);
    ReachesNext(cfg, ops0, At(w, s, e, multiset{}), Update(k, near));
    ops := ops0 + [Update(k, near)];
    var p1 := multiset{} + multiset{v};
    StopDistanceStep(cfg, k, u, e, p1);
    ReachesNext(cfg, ops, At(None, s, e, p1), Stop(k));
    ops := ops + [Stop(k)];
    var p2 := p1 + multiset{StopAnswer(k)};
    SwitchStep(cfg, k, s, e, p2, n);
    ReachesNext(cfg, ops, At(None, s, e, p2), Answered(v, true));
    ops := ops + [Answered(v, true)];
    var p3 := p2 - multiset{v};
    StopAnswerStep(cfg, k, n, s, e, p3);
    ReachesNext(cfg, ops, At(w, s, e, p3), Answered(StopAnswer(k), true));
    ops := ops + [Answered(StopAnswer(k), true)];
    assert p3 - multiset{StopAnswer(k)} == multiset{};
  }

  /**
   * A client asks for another distance, for none, and once more for none before it stops, without waiting for
   * answers. All calls succeed and all answers come in order. In the end nothing is outstanding and no session
   * is time-based, but the engine runs on.
   */
  lemma {:induction false} CrossedAnswersStrandEngine(cfg: Config, k: Key, far: Options, near: Options)
    returns (ops: seq<Op>)
    requires cfg.distanceSupported && far.size != 0 && far.minDistance > 0 && near.size != 0 && near.minDistance == 0
    ensures Legal(cfg, ops) && AllSucceed(ops)
    ensures var t := Run(cfg, ops);
            t.pending == multiset{} && t.time == [] && t.engine.Running?
  {
    ops := Beginning(cfg, k, far);
    ops := Crossing(cfg, ops, k, Limit(far), far, near);
    ops := Stranding(cfg, ops, k, Limit(Weaken(cfg, far)), near);
  }
}

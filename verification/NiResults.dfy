/** Results about network-initiated requests, for every run and every interleaving. */
module NiResults {
  import opened NiProtocol
  import opened NiSafety

  // ---------------------------------------------------------------------------------------------
  // Nothing is lost, nothing is answered twice
  // ---------------------------------------------------------------------------------------------

  lemma RunKeeps(ops: seq<Op>, p: int)
    ensures var m := Run(ops);
            && (p != NULL ==> Balanced(m, TallyOf(m.log, p), p))
            && Sound(m, MarksOf(m.log)) && Numbered(m)
  {
    if p != NULL {
      RunTallied(Init(), ops, p);
    }
    RunMarked(Init(), ops);
    RunNumbered(Init(), ops);
  }

  /**
   * Requests with a payload are each refused at once or accepted; accepted ones are each sent with a
   * response, freed by their thread, on their way in a leaving thread, or in a slot.
   */
  lemma Conservation(ops: seq<Op>, p: int)
    requires p != NULL
    ensures var m, t := Run(ops), TallyOf(Run(ops).log, p);
            && t.received == t.accepted + t.refused
            && t.accepted == t.sent + t.freed + Carried(m.exits, p) + One(m.normal.raw == p) + One(m.es.raw == p)
  {
    RunKeeps(ops, p);
  }

  lemma {:induction false} TallyBounds(log: History, p: int)
    ensures var t := TallyOf(log, p);
            t.received >= 0 && t.accepted >= 0 && t.refused >= 0 && t.promised >= 0 && t.freed >= 0 && t.sent >= 0
  {
    if log.Then? {
      TallyBounds(log.before, p);
    }
  }

  lemma {:induction false} CarriedBounds(xs: seq<Exit>, p: int)
    ensures Carried(xs, p) >= 0
  {
    if xs != [] {
      CarriedBounds(xs[..|xs| - 1], p);
    }
  }

  /** A payload that comes once is settled at most once, is never in two places, and is not held once settled. */
  lemma SettledOnce(ops: seq<Op>, p: int)
    requires p != NULL && TallyOf(Run(ops).log, p).received <= 1
    ensures var m, t := Run(ops), TallyOf(Run(ops).log, p);
            && t.sent + t.freed + t.refused <= 1
            && !(m.normal.raw == p && m.es.raw == p)
            && (m.normal.raw == p || m.es.raw == p ==> t.sent == t.freed == t.refused == Carried(m.exits, p) == 0)
  {
    Conservation(ops, p);
    TallyBounds(Run(ops).log, p);
    CarriedBounds(Run(ops).exits, p);
  }

  /** In any state, whatever happens, an occupied slot keeps its request until a thread takes it. */
  lemma NeverOverwritten(m: Ni, op: Op, w: Which)
    requires m.At(w).raw != NULL
    ensures var s, s' := m.At(w), Step(m, op).At(w);
            if s'.raw != NULL then s'.raw == s.raw && s'.request == s.request
            else op.WakeStep? && op.which == w && s'.waiting == s.waiting - 1
  {
    match w
    case Normal =>
    case Emergency =>
  }

  // ---------------------------------------------------------------------------------------------
  // Every accepted request can still be settled
  // ---------------------------------------------------------------------------------------------

  /** Let a number of leaving threads finish. */
  function Flush(n: nat): seq<Op> {
    if n == 0 then [] else Flush(n - 1) + [ClearStep(0), FinishStep(0)]
  }

  lemma RunTwo(m: Ni, ops: seq<Op>, a: Op, b: Op)
    ensures RunFrom(m, ops + [a, b]) == Step(Step(RunFrom(m, ops), a), b)
  {
    assert (ops + [a, b])[..|ops| + 1] == ops + [a];
    assert (ops + [a])[..|ops|] == ops;
  }

  lemma FlushOne(m: Ni)
    requires m.exits != []
    ensures var n := Step(Step(m, ClearStep(0)), FinishStep(0));
            |n.exits| == |m.exits| - 1 && n.normal.raw == m.normal.raw && n.es.raw == m.es.raw
  {
    var k := Step(m, ClearStep(0));
    assert |k.exits| == |m.exits| && k.exits[0].cleared;
    assert k.normal.raw == m.normal.raw && k.es.raw == m.es.raw;
  }

  lemma {:induction false} FlushRuns(m: Ni, n: nat)
    requires n <= |m.exits|
    ensures var k := RunFrom(m, Flush(n));
            |k.exits| == |m.exits| - n && k.normal.raw == m.normal.raw && k.es.raw == m.es.raw
  {
    if n > 0 {
      FlushRuns(m, n - 1);
      RunTwo(m, Flush(n - 1), ClearStep(0), FinishStep(0));
      FlushOne(RunFrom(m, Flush(n - 1)));
    }
  }

  lemma {:induction false} RunJoins(m: Ni, a: seq<Op>, b: seq<Op>)
    ensures RunFrom(RunFrom(m, a), b) == RunFrom(m, a + b)
  {
    if b == [] {
      assert a + b == a;
    } else {
      RunJoins(m, a, b[..|b| - 1]);
      assert (a + b)[..|a + b| - 1] == a + b[..|b| - 1];
    }
  }

  lemma WakeEmpties(m: Ni, w: Which)
    requires m.At(w).raw != NULL ==> m.At(w).waiting > 0
    ensures var n := Step(m, WakeStep(w, true));
            && n.At(w).raw == NULL
            && (w == Emergency ==> n.normal == m.normal)
            && (w == Normal ==> n.es == m.es)
  {
    match w
    case Normal =>
    case Emergency =>
  }

  /**
   * If every thread could be created, then from every reachable state the threads alone settle every
   * accepted request, whether or not anybody ever responds.
   */
  lemma ThreadsSettleEverything(ops: seq<Op>) returns (more: seq<Op>)
    requires MarksOf(Run(ops).log).created
    ensures forall op :: op in more ==> op.WakeStep? || op.ClearStep? || op.FinishStep?
    ensures var m := Run(ops + more);
            && m.normal.raw == m.es.raw == NULL && m.exits == []
            && forall p :: p != NULL ==> TallyOf(m.log, p).accepted == TallyOf(m.log, p).sent + TallyOf(m.log, p).freed
  {
    var m0 := Run(ops);
    RunKeeps(ops, NULL);
    var time := [WakeStep(Normal, true), WakeStep(Emergency, true)];
    RunTwo(m0, [], WakeStep(Normal, true), WakeStep(Emergency, true));
    assert [] + time == time;
    WakeEmpties(m0, Normal);
    WakeEmpties(Step(m0, WakeStep(Normal, true)), Emergency);
    var m1 := RunFrom(m0, time);
    FlushRuns(m1, |m1.exits|);
    more := time + Flush(|m1.exits|);
    FlushOps(|m1.exits|);
    RunJoins(m0, time, Flush(|m1.exits|));
    RunJoins(Init(), ops, more);
    forall p | p != NULL
      ensures TallyOf(Run(ops + more).log, p).accepted == TallyOf(Run(ops + more).log, p).sent + TallyOf(Run(ops + more).log, p).freed
    {
      Conservation(ops + more, p);
    }
  }

  lemma {:induction false} FlushOps(n: nat)
    ensures forall op :: op in Flush(n) ==> op.ClearStep? || op.FinishStep?
  {
    if n > 0 {
      FlushOps(n - 1);
    }
  }

  // ---------------------------------------------------------------------------------------------
  // Responses
  // ---------------------------------------------------------------------------------------------

  /** Unless a response comes after its request was taken, every request ends by its own response or timeout. */
  lemma OwnResponses(ops: seq<Op>)
    ensures MarksOf(Run(ops).log).punctual ==> MarksOf(Run(ops).log).own
  {
    RunKeeps(ops, NULL);
  }

  /**
   * A response that comes late is left in the empty slot, and only then: the next request of any kind that
   * enters that slot is taken from it at once, without a response of its own, exactly when one was left.
   */
  lemma LeftoverAnswersNext(ops: seq<Op>, w: Which, p: int, kind: Kind, s: Setting)
    requires p != NULL && s.created && Run(ops).todo.Idle?
    requires Run(ops).At(w).raw == NULL && Step(Run(ops), Request(p, kind, s)).At(w).raw == p
    ensures var m, n := Run(ops), Step(Run(ops), Request(p, kind, s));
            && (MarksOf(m.log).punctual ==> !m.At(w).recvd)
            && (Step(n, WakeStep(w, false)).At(w).raw == NULL <==> m.At(w).recvd)
  {
    RunKeeps(ops, NULL);
    match w
    case Normal =>
    case Emergency =>
  }

  const SERVED := Setting(true, false, true, false, true)

  /** The user denies the first request when its time is already up: the second request is denied. */
  lemma LateResponseAnswersAnother()
    ensures var m := Run([Request(1, OtherNi, SERVED), UserResponse(true, 1, Deny), WakeStep(Normal, true), DeliverStep,
                          Request(2, OtherNi, SERVED), WakeStep(Normal, false)]);
            m.log.Then? && m.log.entry == Promised(2, Deny, false)
  {
    var m1 := Step(Init(), Request(1, OtherNi, SERVED));
    var m2 := Step(m1, UserResponse(true, 1, Deny));
    assert m2.todo == Deliver(Normal, Deny, 1, Idle);
    var m3 := Step(m2, WakeStep(Normal, true));
    assert m3.normal == Slot(NULL, 1, NoResponse, false, 0, 1, 0);
    var m4 := Step(m3, DeliverStep);
    assert m4.normal == Slot(NULL, 1, Deny, true, 0, 1, 1);
    var m5 := Step(m4, Request(2, OtherNi, SERVED));
    assert m5.normal == Slot(2, 2, Deny, true, 1, 2, 1);
    var m6 := Step(m5, WakeStep(Normal, false));
    var a := [Request(1, OtherNi, SERVED), UserResponse(true, 1, Deny)];
    var b := a + [WakeStep(Normal, true), DeliverStep];
    RunTwo(Init(), [], a[0], a[1]);
    assert [] + [a[0], a[1]] == a;
    RunTwo(Init(), a, WakeStep(Normal, true), DeliverStep);
    RunTwo(Init(), b, Request(2, OtherNi, SERVED), WakeStep(Normal, false));
    assert b + [Request(2, OtherNi, SERVED), WakeStep(Normal, false)]
        == [Request(1, OtherNi, SERVED), UserResponse(true, 1, Deny), WakeStep(Normal, true), DeliverStep,
            Request(2, OtherNi, SERVED), WakeStep(Normal, false)];
  }

  function IdOf(s: Slot): nat {
    s.request % 0x1_0000_0000
  }

  lemma ResiduesDiffer(a: nat, b: nat)
    requires a != b && -0x1_0000_0000 < a - b < 0x1_0000_0000
    ensures a % 0x1_0000_0000 != b % 0x1_0000_0000
  {
  }

  /** Two pending requests less than 2^32 apart are announced with different ids. */
  lemma IdsDiffer(ops: seq<Op>)
    requires var m := Run(ops);
             && MarksOf(m.log).named && m.normal.raw != NULL && m.es.raw != NULL
             && -0x1_0000_0000 < m.normal.request - m.es.request < 0x1_0000_0000
    ensures var m := Run(ops);
            && Matches(m.normal, IdOf(m.normal)) && !Matches(m.es, IdOf(m.normal))
            && Matches(m.es, IdOf(m.es)) && !Matches(m.normal, IdOf(m.es))
  {
    RunKeeps(ops, NULL);
    ResiduesDiffer(Run(ops).normal.request, Run(ops).es.request);
  }

  /** The thread that takes a payload hands it on. */
  lemma TakenIsSent(m: Ni, w: Which, p: int, r: Response, log: History)
    requires m.log == Then(log, Promised(p, r, true)) && p != NULL && m.At(w).raw == NULL
    requires m.exits != [] && m.exits[|m.exits| - 1] == Exit(w, false, p, r)
    ensures var i := |m.exits| - 1;
            var n := Step(Step(m, ClearStep(i)), FinishStep(i));
            n.log == Then(m.log, Sent(p, r))
  {
    var i := |m.exits| - 1;
    var n := Step(m, ClearStep(i));
    assert n.exits[i] == Exit(w, true, p, r) && n.log == m.log;
  }

  /**
   * Unless a request lost its id, the user's response with the id that the request was announced with is
   * sent for exactly its payload, when its thread is in time; the other slot is left alone. (An accepted
   * emergency request that silences a pending normal one is the subject of EmergencyAcceptSilences.)
   */
  lemma ResponseIsSent(ops: seq<Op>, w: Which, r: Response)
    requires var m := Run(ops);
             && m.todo.Idle? && m.At(w).raw != NULL && m.At(w).waiting > 0 && MarksOf(m.log).named && r != Ignore
             && (w == Normal || r != Accept || m.normal.raw == NULL)
             && (m.normal.raw != NULL && m.es.raw != NULL ==>
                   -0x1_0000_0000 < m.normal.request - m.es.request < 0x1_0000_0000)
    ensures var m, i := Run(ops), |Run(ops).exits|;
            var m1 := Step(m, UserResponse(true, IdOf(m.At(w)), r));
            var m3 := Step(Step(m1, DeliverStep), WakeStep(w, false));
            var m5 := Step(Step(m3, ClearStep(i)), FinishStep(i));
            && m5.log == Then(Then(m.log, Promised(m.At(w).raw, r, true)), Sent(m.At(w).raw, r))
            && m3.At(w).raw == NULL && (if w == Normal then m3.es == m.es else m3.normal == m.normal)
  {
    var m := Run(ops);
    RunKeeps(ops, NULL);
    if m.normal.raw != NULL && m.es.raw != NULL {
      IdsDiffer(ops);
    }
    var m1 := Step(m, UserResponse(true, IdOf(m.At(w)), r));
    assert m1.todo == Deliver(w, r, m.At(w).request, Idle);
    var m2 := Step(m1, DeliverStep);
    assert m2.At(w) == m.At(w).Answered(r, m.At(w).request) && m2.log == m.log && m2.exits == m.exits;
    var m3 := Step(m2, WakeStep(w, false));
    assert m3.exits[|m.exits|] == Exit(w, false, m.At(w).raw, r);
    TakenIsSent(m3, w, m.At(w).raw, r, m.log);
  }

  /** An accepted emergency request silences the normal one: it is freed, not answered. */
  lemma EmergencyAcceptSilences(ops: seq<Op>)
    requires var m := Run(ops);
             && m.todo.Idle? && m.normal.raw != NULL && m.es.raw != NULL && m.normal.waiting > 0 && m.es.waiting > 0
             && MarksOf(m.log).named
    ensures var m := Run(ops);
            var m1 := Step(m, UserResponse(true, m.es.request % 0x1_0000_0000, Accept));
            var m2 := Step(Step(m1, DeliverStep), DeliverStep);
            var m3 := Step(Step(m2, WakeStep(Normal, false)), WakeStep(Emergency, false));
            m3.log == Then(Then(m.log, FreedByThread(m.normal.raw, true)), Promised(m.es.raw, Accept, true))
  {
    RunKeeps(ops, NULL);
    var m := Run(ops);
    var m1 := Step(m, UserResponse(true, m.es.request % 0x1_0000_0000, Accept));
    assert m1.todo == Deliver(Normal, Ignore, m.normal.request, Deliver(Emergency, Accept, m.es.request, Idle));
    var m2 := Step(Step(m1, DeliverStep), DeliverStep);
    assert m2.normal == m.normal.Answered(Ignore, m.normal.request);
    assert m2.es == m.es.Answered(Accept, m.es.request);
    assert m2.log == m.log;
    var m3 := Step(m2, WakeStep(Normal, false));
    assert m3.log == Then(m.log, FreedByThread(m.normal.raw, true));
    assert m3.es == m2.es;
  }

  /**
   * A leaving thread makes a slot deaf to the id that its request was announced with if and only if the slot
   * has been filled again (and that id is not zero).
   */
  lemma IdLostExactly(ops: seq<Op>, i: nat)
    requires i < |Run(ops).exits| && !Run(ops).exits[i].cleared && MarksOf(Run(ops).log).named
    ensures var m, w := Run(ops), Run(ops).exits[i].from;
            var id, n := IdOf(m.At(w)), Step(m, ClearStep(i));
            && (Matches(m.At(w), id) && !Matches(n.At(w), id) <==> m.At(w).raw != NULL && id != 0)
            && (MarksOf(n.log).named <==> m.At(w).raw == NULL)
  {
    RunKeeps(ops, NULL);
  }

  /** Such a run: the second request fills the slot between the first one's timeout and the clearing of its id. */
  lemma IdCanBeLost()
    ensures var m := Run([Request(1, OtherNi, SERVED), WakeStep(Normal, true), Request(2, OtherNi, SERVED), ClearStep(0)]);
            m.normal.raw == 2 && m.normal.request == 2 && !Matches(m.normal, 2)
  {
    var m1 := Step(Init(), Request(1, OtherNi, SERVED));
    var m2 := Step(m1, WakeStep(Normal, true));
    assert m2.normal == Slot(NULL, 1, NoResponse, false, 0, 1, 0) && m2.exits == [Exit(Normal, false, 1, NoResponse)];
    var m3 := Step(m2, Request(2, OtherNi, SERVED));
    assert m3.normal == Slot(2, 2, NoResponse, false, 1, 2, 0) && m3.exits == m2.exits;
    var a := [Request(1, OtherNi, SERVED), WakeStep(Normal, true)];
    RunTwo(Init(), [], a[0], a[1]);
    assert [] + [a[0], a[1]] == a;
    RunTwo(Init(), a, Request(2, OtherNi, SERVED), ClearStep(0));
    assert a + [Request(2, OtherNi, SERVED), ClearStep(0)]
        == [Request(1, OtherNi, SERVED), WakeStep(Normal, true), Request(2, OtherNi, SERVED), ClearStep(0)];
  }
}

/** What every interleaving of the network-initiated request threads keeps. */
module NiSafety {
  import opened NiProtocol

  // ---------------------------------------------------------------------------------------------
  // Reading the history
  // ---------------------------------------------------------------------------------------------

  function One(b: bool): int {
    if b then 1 else 0
  }

  /** How many requests with a payload were received, accepted and refused, and what their threads did. */
  datatype Tally = Tally(received: int, accepted: int, refused: int, promised: int, freed: int, sent: int)

  function TallyEntry(t: Tally, e: Entry, p: int): Tally {
    match e
    case Received(q, o) =>
      if q != p then t
      else if o.Accepted? || o.AcceptedWithoutThread? then
        Tally(t.received + 1, t.accepted + 1, t.refused, t.promised, t.freed, t.sent)
      else Tally(t.received + 1, t.accepted, t.refused + 1, t.promised, t.freed, t.sent)
    case Promised(q, _, _) => Tally(t.received, t.accepted, t.refused, t.promised + One(q == p), t.freed, t.sent)
    case FreedByThread(q, _) => Tally(t.received, t.accepted, t.refused, t.promised, t.freed + One(q == p), t.sent)
    case Sent(q, _) => Tally(t.received, t.accepted, t.refused, t.promised, t.freed, t.sent + One(q == p))
    case Late => t
    case LostName => t
  }

  function TallyOf(log: History, p: int): Tally {
    match log
    case Start => Tally(0, 0, 0, 0, 0, 0)
    case Then(before, e) => TallyEntry(TallyOf(before, p), e, p)
  }

  /**
   * What a history says about the run: every accepted request got its thread, no response was delivered
   * after its request had been taken, every answer and every silencing was meant for the request it ended,
   * and no pending request lost its id.
   */
  datatype Marks = Marks(created: bool, punctual: bool, own: bool, named: bool)

  function MarkEntry(k: Marks, e: Entry): Marks {
    match e
    case Received(_, o) => Marks(k.created && !o.AcceptedWithoutThread?, k.punctual, k.own, k.named)
    case Promised(_, _, own) => Marks(k.created, k.punctual, k.own && own, k.named)
    case FreedByThread(_, own) => Marks(k.created, k.punctual, k.own && own, k.named)
    case Sent(_, _) => k
    case Late => Marks(k.created, false, k.own, k.named)
    case LostName => Marks(k.created, k.punctual, k.own, false)
  }

  function MarksOf(log: History): Marks {
    match log
    case Start => Marks(true, true, true, true)
    case Then(before, e) => MarkEntry(MarksOf(before), e)
  }

  /** How many leaving threads carry a payload. */
  function Carried(xs: seq<Exit>, p: int): int {
    if xs == [] then 0 else Carried(xs[..|xs| - 1], p) + One(xs[|xs| - 1].payload == p)
  }

  lemma CarriedMore(xs: seq<Exit>, x: Exit, p: int)
    ensures Carried(xs + [x], p) == Carried(xs, p) + One(x.payload == p)
  {
    assert (xs + [x])[..|xs|] == xs;
  }

  lemma {:induction false} CarriedSame(xs: seq<Exit>, i: nat, x: Exit, p: int)
    requires i < |xs| && x.payload == xs[i].payload
    ensures Carried(xs[i := x], p) == Carried(xs, p)
  {
    var n := |xs| - 1;
    if i == n {
      assert xs[i := x][..n] == xs[..n];
    } else {
      CarriedSame(xs[..n], i, x, p);
      assert xs[i := x][..n] == xs[..n][i := x];
    }
  }

  lemma {:induction false} CarriedLess(xs: seq<Exit>, i: nat, p: int)
    requires i < |xs|
    ensures Carried(RemoveAt(xs, i), p) == Carried(xs, p) - One(xs[i].payload == p)
  {
    var n := |xs| - 1;
    if i < n {
      CarriedLess(xs[..n], i, p);
      CarriedMore(RemoveAt(xs[..n], i), xs[n], p);
    }
  }

  // ---------------------------------------------------------------------------------------------
  // Conservation
  // ---------------------------------------------------------------------------------------------

  /** Where the received copies of a payload are, by a tally. */
  predicate Balanced(m: Ni, t: Tally, p: int) {
    && t.received == t.accepted + t.refused
    && t.accepted == t.promised + t.freed + One(m.normal.raw == p) + One(m.es.raw == p)
    && t.promised == t.sent + Carried(m.exits, p)
  }

  /** One step adds at most one entry, and keeps the balance. */
  predicate Keeps(m: Ni, n: Ni, t: Tally, p: int) {
    || (n.log == m.log && Balanced(n, t, p))
    || (n.log.Then? && n.log.before == m.log && Balanced(n, TallyEntry(t, n.log.entry, p), p))
  }

  lemma NotifyKeeps(m: Ni, q: int, kind: Kind, s: Setting, t: Tally, p: int)
    requires Balanced(m, t, p) && p != NULL
    ensures Keeps(m, Notify(m, q, kind, s), t, p)
  {
  }

  /** The payload leaves its slot, and the thread carries what it will send. */
  lemma WakeMoves(m: Ni, w: Which, timedOut: bool, p: int)
    requires m.At(w).waiting > 0 && (timedOut || m.At(w).recvd) && p != NULL
    ensures var n, s, r := Wake(m, w, timedOut), m.At(w), Verdict(m.At(w), timedOut);
            && One(n.normal.raw == p) + One(n.es.raw == p)
               == One(m.normal.raw == p) + One(m.es.raw == p) - One(s.raw == p)
            && Carried(n.exits, p) == Carried(m.exits, p) + One(Load(s, r) == p)
  {
    var s, r := m.At(w), Verdict(m.At(w), timedOut);
    CarriedMore(m.exits, Exit(w, false, Load(s, r), r), p);
    match w
    case Normal =>
    case Emergency =>
  }

  lemma WakeNotes(m: Ni, w: Which, timedOut: bool, t: Tally, p: int)
    requires m.At(w).waiting > 0 && (timedOut || m.At(w).recvd) && p != NULL
    ensures var n, s, r := Wake(m, w, timedOut), m.At(w), Verdict(m.At(w), timedOut);
            if s.raw == NULL then n.log == m.log
            else
              && n.log.Then? && n.log.before == m.log
              && TallyEntry(t, n.log.entry, p)
                 == Tally(t.received, t.accepted, t.refused, t.promised + One(Load(s, r) == p),
                          t.freed + One(s.raw == p) - One(Load(s, r) == p), t.sent)
  {
  }

  lemma WakeKeeps(m: Ni, w: Which, timedOut: bool, t: Tally, p: int)
    requires m.At(w).waiting > 0 && (timedOut || m.At(w).recvd)
    requires Balanced(m, t, p) && p != NULL
    ensures Keeps(m, Wake(m, w, timedOut), t, p)
  {
    WakeMoves(m, w, timedOut, p);
    WakeNotes(m, w, timedOut, t, p);
  }

  lemma ClearKeeps(m: Ni, i: nat, t: Tally, p: int)
    requires i < |m.exits| && Balanced(m, t, p)
    ensures Keeps(m, Clear(m, i), t, p)
  {
    var x := m.exits[i];
    CarriedSame(m.exits, i, Exit(x.from, true, x.payload, x.resp), p);
  }

  lemma FinishKeeps(m: Ni, i: nat, t: Tally, p: int)
    requires i < |m.exits| && Balanced(m, t, p) && p != NULL
    ensures Keeps(m, Finish(m, i), t, p)
  {
    CarriedLess(m.exits, i, p);
  }

  lemma StepKeeps(m: Ni, op: Op, t: Tally, p: int)
    requires Balanced(m, t, p) && p != NULL
    ensures Keeps(m, Step(m, op), t, p)
  {
    match op
    case Request(q, kind, s) => NotifyKeeps(m, q, kind, s, t, p);
    case WakeStep(w, timedOut) =>
      if m.At(w).waiting > 0 && (timedOut || m.At(w).recvd) {
        WakeKeeps(m, w, timedOut, t, p);
      }
    case ClearStep(i) =>
      if i < |m.exits| {
        ClearKeeps(m, i, t, p);
      }
    case FinishStep(i) =>
      if i < |m.exits| {
        FinishKeeps(m, i, t, p);
      }
    case _ =>
  }

  lemma StepTallied(m: Ni, op: Op, p: int)
    requires Balanced(m, TallyOf(m.log, p), p) && p != NULL
    ensures Balanced(Step(m, op), TallyOf(Step(m, op).log, p), p)
  {
    StepKeeps(m, op, TallyOf(m.log, p), p);
  }

  /** The balance survives every run. */
  lemma {:induction false} RunTallied(m: Ni, ops: seq<Op>, p: int)
    requires Balanced(m, TallyOf(m.log, p), p) && p != NULL
    ensures var n := RunFrom(m, ops);
            Balanced(n, TallyOf(n.log, p), p)
  {
    if ops != [] {
      RunTallied(m, ops[..|ops| - 1], p);
      StepTallied(RunFrom(m, ops[..|ops| - 1]), ops[|ops| - 1], p);
    }
  }

  // ---------------------------------------------------------------------------------------------
  // Threads, responses and ids
  // ---------------------------------------------------------------------------------------------

  /** What the marks promise about one slot. */
  predicate SlotSound(s: Slot, k: Marks) {
    && (k.created && s.raw != NULL ==> s.waiting > 0)
    && (k.punctual && s.recvd ==> s.raw != NULL && s.meant == s.request)
    && (k.named && s.raw != NULL ==> s.reqID == s.request % 0x1_0000_0000)
  }

  /** Planned deliveries are for the requests the slots were last filled with. */
  predicate TodoSound(m: Ni, t: Todo) {
    t.Deliver? ==> t.request == m.At(t.to).request && TodoSound(m, t.rest)
  }

  predicate Sound(m: Ni, k: Marks) {
    && SlotSound(m.normal, k) && SlotSound(m.es, k) && TodoSound(m, m.todo)
    && (k.punctual ==> k.own)
  }

  /** One step adds at most one entry, and stays sound. */
  predicate KeepsSound(m: Ni, n: Ni, k: Marks) {
    || (n.log == m.log && Sound(n, k))
    || (n.log.Then? && n.log.before == m.log && Sound(n, MarkEntry(k, n.log.entry)))
  }

  /** Filling an empty slot. */
  lemma FillSound(m: Ni, w: Which, q: int, created: bool, k: Marks)
    requires Sound(m, k) && m.todo.Idle? && m.At(w).raw == NULL
    ensures KeepsSound(m, Fill(m, w, q, created), k)
  {
    match w
    case Normal =>
    case Emergency =>
  }

  /** Planning to silence the normal request. */
  lemma SilenceSound(m: Ni, q: int, k: Marks)
    requires Sound(m, k) && m.todo.Idle?
    ensures KeepsSound(m, m.Note(Received(q, AnsweredAtOnce(Accept))).Plan(Silence(m, Idle)), k)
  {
    var n := m.Note(Received(q, AnsweredAtOnce(Accept))).Plan(Silence(m, Idle));
    assert TodoSound(n, Idle);
  }

  /** A request that never enters a slot. */
  lemma RefuseSound(m: Ni, q: int, o: Outcome, k: Marks)
    requires Sound(m, k) && m.todo.Idle? && o != AcceptedWithoutThread
    ensures KeepsSound(m, m.Note(Received(q, o)), k)
  {
  }

  lemma RequestSound(m: Ni, q: int, kind: Kind, hasClient: bool, inform: bool, created: bool, k: Marks)
    requires Sound(m, k) && m.todo.Idle?
    ensures KeepsSound(m, RequestNiNotify(m, q, kind, hasClient, inform, created), k)
  {
    if !hasClient {
      SilenceSound(m, q, k);
      RefuseSound(m, q, Unclaimed, k);
    } else {
      RefuseSound(m, q, FreedAtOnce, k);
      if m.normal.raw == NULL {
        FillSound(m, Normal, q, created, k);
      }
      if m.es.raw == NULL {
        FillSound(m, Emergency, q, created, k);
      }
    }
  }

  lemma NotifySound(m: Ni, q: int, kind: Kind, s: Setting, k: Marks)
    requires Sound(m, k) && m.todo.Idle?
    ensures KeepsSound(m, Notify(m, q, kind, s), k)
  {
    RefuseSound(m, q, AnsweredAtOnce(Accept), k);
    RefuseSound(m, q, AnsweredAtOnce(Deny), k);
    RequestSound(m, q, kind, s.hasClient, kind == EmergencySupl, s.created, k);
  }

  lemma RespondSound(m: Ni, cb: bool, id: nat, r: Response, k: Marks)
    requires Sound(m, k) && m.todo.Idle?
    ensures KeepsSound(m, Respond(m, cb, id, r), k)
  {
    var n := Respond(m, cb, id, r);
    assert TodoSound(n, Deliver(Emergency, r, m.es.request, Idle));
    assert TodoSound(n, n.todo);
  }

  /** Planned deliveries look at nothing but the request numbers. */
  lemma {:induction false} TodoFrame(m: Ni, n: Ni, t: Todo)
    requires TodoSound(m, t) && n.normal.request == m.normal.request && n.es.request == m.es.request
    ensures TodoSound(n, t)
  {
    if t.Deliver? {
      TodoFrame(m, n, t.rest);
    }
  }

  lemma DeliverSound(m: Ni, k: Marks)
    requires Sound(m, k) && m.todo.Deliver?
    ensures KeepsSound(m, DeliverNext(m), k)
  {
    TodoFrame(m, DeliverNext(m), m.todo.rest);
  }

  lemma WakeSound(m: Ni, w: Which, timedOut: bool, k: Marks)
    requires m.At(w).waiting > 0 && (timedOut || m.At(w).recvd)
    requires Sound(m, k)
    ensures KeepsSound(m, Wake(m, w, timedOut), k)
  {
    TodoFrame(m, Wake(m, w, timedOut), m.todo);
    match w
    case Normal =>
    case Emergency =>
  }

  lemma ClearSound(m: Ni, i: nat, k: Marks)
    requires i < |m.exits| && Sound(m, k)
    ensures KeepsSound(m, Clear(m, i), k)
  {
    TodoFrame(m, Clear(m, i), m.todo);
  }

  lemma FinishSound(m: Ni, i: nat, k: Marks)
    requires i < |m.exits| && Sound(m, k)
    ensures KeepsSound(m, Finish(m, i), k)
  {
    TodoFrame(m, Finish(m, i), m.todo);
  }

  lemma StepSound(m: Ni, op: Op, k: Marks)
    requires Sound(m, k)
    ensures KeepsSound(m, Step(m, op), k)
  {
    match op
    case Request(q, kind, s) => if m.todo.Idle? { NotifySound(m, q, kind, s, k); }
    case UserResponse(cb, id, r) => if m.todo.Idle? { RespondSound(m, cb, id, r, k); }
    case DeliverStep => if m.todo.Deliver? { DeliverSound(m, k); }
    case WakeStep(w, t) => if m.At(w).waiting > 0 && (t || m.At(w).recvd) { WakeSound(m, w, t, k); }
    case ClearStep(i) => if i < |m.exits| { ClearSound(m, i, k); }
    case FinishStep(i) => if i < |m.exits| { FinishSound(m, i, k); }
  }

  lemma StepMarked(m: Ni, op: Op)
    requires Sound(m, MarksOf(m.log))
    ensures Sound(Step(m, op), MarksOf(Step(m, op).log))
  {
    StepSound(m, op, MarksOf(m.log));
  }

  lemma {:induction false} RunMarked(m: Ni, ops: seq<Op>)
    requires Sound(m, MarksOf(m.log))
    ensures var n := RunFrom(m, ops);
            Sound(n, MarksOf(n.log))
  {
    if ops != [] {
      RunMarked(m, ops[..|ops| - 1]);
      StepMarked(RunFrom(m, ops[..|ops| - 1]), ops[|ops| - 1]);
    }
  }

  // ---------------------------------------------------------------------------------------------
  // Request numbers
  // ---------------------------------------------------------------------------------------------

  /** Requests are numbered upwards, and no two slots were last filled with the same one. */
  predicate Numbered(m: Ni) {
    && m.normal.request <= m.counter && m.es.request <= m.counter
    && (m.normal.raw != NULL ==> m.normal.request > 0) && (m.es.raw != NULL ==> m.es.request > 0)
    && (m.normal.request == m.es.request ==> m.normal.request == 0)
  }

  lemma NotifyNumbered(m: Ni, q: int, kind: Kind, s: Setting)
    requires Numbered(m)
    ensures Numbered(Notify(m, q, kind, s))
  {
  }

  /** Nothing else changes a request number, or fills a slot. */
  lemma OthersKeepNumbers(m: Ni, op: Op)
    requires !op.Request?
    ensures var n := Step(m, op);
            && n.counter == m.counter && n.normal.request == m.normal.request && n.es.request == m.es.request
            && (m.normal.raw == NULL ==> n.normal.raw == NULL) && (m.es.raw == NULL ==> n.es.raw == NULL)
  {
  }

  lemma StepNumbered(m: Ni, op: Op)
    requires Numbered(m)
    ensures Numbered(Step(m, op))
  {
    match op
    case Request(q, kind, s) => NotifyNumbered(m, q, kind, s);
    case _ => OthersKeepNumbers(m, op);
  }

  lemma {:induction false} RunNumbered(m: Ni, ops: seq<Op>)
    requires Numbered(m)
    ensures Numbered(RunFrom(m, ops))
  {
    if ops != [] {
      RunNumbered(m, ops[..|ops| - 1]);
      StepNumbered(RunFrom(m, ops[..|ops| - 1]), ops[|ops| - 1]);
    }
  }
}

/** What each event does to a network-initiated request, and which responses can be sent at all. */
module NiEffects {
  import opened NiProtocol
  import opened NiSafety
  import opened NiResults

  // ---------------------------------------------------------------------------------------------
  // A request arrives
  // ---------------------------------------------------------------------------------------------

  /** One more request in the history, and nothing else changed but what the message thread will do next. */
  predicate SettledAtOnce(m: Ni, n: Ni, p: int, o: Outcome) {
    && n.log == Then(m.log, Received(p, o))
    && n.normal == m.normal && n.es == m.es && n.counter == m.counter && n.exits == m.exits
  }

  /** Outside an emergency and where the configuration does not allow it, an emergency request is denied. */
  lemma UnwantedEmergencyIsDenied(m: Ni, p: int, s: Setting)
    requires m.todo.Idle? && !s.inEmergency && !s.suplEsNo
    ensures var n := Step(m, Request(p, EmergencySupl, s));
            SettledAtOnce(m, n, p, AnsweredAtOnce(Deny)) && n.todo == Idle
  {
  }

  /** A control-plane request during an emergency call is accepted without asking, if so configured. */
  lemma ControlPlaneIsAccepted(m: Ni, p: int, s: Setting)
    requires m.todo.Idle? && s.inEmergency && s.cpMtlrEs
    ensures var n := Step(m, Request(p, ControlPlane, s));
            SettledAtOnce(m, n, p, AnsweredAtOnce(Accept)) && n.todo == Idle
  {
  }

  /** Without a client an emergency request is accepted, and silences a pending normal one. */
  lemma NobodyToAskInEmergency(m: Ni, p: int, s: Setting)
    requires m.todo.Idle? && !s.hasClient && (s.inEmergency || s.suplEsNo)
    ensures var n := Step(m, Request(p, EmergencySupl, s));
            && SettledAtOnce(m, n, p, AnsweredAtOnce(Accept))
            && n.todo == if m.normal.raw != NULL then Deliver(Normal, Ignore, m.normal.request, Idle) else Idle
  {
  }

  /** Any other request without a client is left to the caller. */
  lemma NobodyToAsk(m: Ni, p: int, kind: Kind, s: Setting)
    requires m.todo.Idle? && !s.hasClient
    requires kind == OtherNi || (kind == ControlPlane && !(s.inEmergency && s.cpMtlrEs))
    ensures var n := Step(m, Request(p, kind, s));
            SettledAtOnce(m, n, p, Unclaimed) && n.todo == Idle
  {
  }

  /** The user is asked about every request but those. */
  predicate Asks(kind: Kind, s: Setting) {
    && s.hasClient
    && (kind == EmergencySupl ==> s.inEmergency || s.suplEsNo)
    && (kind == ControlPlane ==> !s.inEmergency || !s.cpMtlrEs)
  }

  /** An emergency request waits for the emergency slot only, any other for both. */
  lemma BusyIsFreed(m: Ni, p: int, kind: Kind, s: Setting)
    requires m.todo.Idle? && Asks(kind, s)
    requires m.es.raw != NULL || (kind != EmergencySupl && m.normal.raw != NULL)
    ensures var n := Step(m, Request(p, kind, s));
            SettledAtOnce(m, n, p, FreedAtOnce) && n.todo == Idle
  {
  }

  /** Otherwise the slot holds the request, under the next id, with one more thread, and the other is untouched. */
  lemma FreeSlotHolds(m: Ni, p: int, kind: Kind, s: Setting)
    requires m.todo.Idle? && Asks(kind, s)
    requires m.es.raw == NULL && (kind == EmergencySupl || m.normal.raw == NULL)
    ensures var n, w := Step(m, Request(p, kind, s)), if kind == EmergencySupl then Emergency else Normal;
            var a, b := m.At(w), n.At(w);
            && n.log == Then(m.log, Received(p, if s.created then Accepted else AcceptedWithoutThread))
            && b == Slot(p, (m.counter + 1) % 0x1_0000_0000, a.resp, a.recvd,
                         if s.created then a.waiting + 1 else a.waiting, m.counter + 1, a.meant)
            && (if kind == EmergencySupl then n.normal == m.normal else n.es == m.es)
            && n.counter == m.counter + 1 && n.todo == Idle && n.exits == m.exits
  {
  }

  /** A response without a callback, or with an id that no pending request goes by, changes nothing. */
  lemma UnknownIdIsIgnored(m: Ni, cb: bool, id: nat, r: Response)
    requires !cb || ((m.es.raw == NULL || m.es.reqID != id) && (m.normal.raw == NULL || m.normal.reqID != id))
    ensures Step(m, UserResponse(cb, id, r)) == m
  {
  }

  // ---------------------------------------------------------------------------------------------
  // Its thread answers
  // ---------------------------------------------------------------------------------------------

  /** In any state, a request whose time is up is taken with NO_RESPONSE and that is what is sent. */
  lemma TimeIsUp(m: Ni, w: Which)
    requires m.At(w).raw != NULL && m.At(w).waiting > 0
    ensures var n, i := Step(m, WakeStep(w, true)), |m.exits|;
            && n.log == Then(m.log, Promised(m.At(w).raw, NoResponse, true))
            && n.At(w).raw == NULL && !n.At(w).recvd && n.At(w).waiting == m.At(w).waiting - 1
            && (if w == Normal then n.es == m.es else n.normal == m.normal)
            && Step(Step(n, ClearStep(i)), FinishStep(i)).log == Then(n.log, Sent(m.At(w).raw, NoResponse))
  {
    var n := Step(m, WakeStep(w, true));
    assert n.exits == m.exits + [Exit(w, false, m.At(w).raw, NoResponse)];
    TakenIsSent(n, w, m.At(w).raw, NoResponse, m.log);
  }

  /** In any state, a request that has a response is taken with it; an ignored one is freed. */
  lemma ResponseIsTaken(m: Ni, w: Which)
    requires m.At(w).raw != NULL && m.At(w).waiting > 0 && m.At(w).recvd
    ensures var n, s := Step(m, WakeStep(w, false)), m.At(w);
            && n.log == Then(m.log, if s.resp == Ignore then FreedByThread(s.raw, s.meant == s.request)
                                    else Promised(s.raw, s.resp, s.meant == s.request))
            && n.At(w).raw == NULL && !n.At(w).recvd && n.At(w).waiting == s.waiting - 1
            && (if w == Normal then n.es == m.es else n.normal == m.normal)
  {
  }

  // ---------------------------------------------------------------------------------------------
  // Threads send what they took, whatever happens in between
  // ---------------------------------------------------------------------------------------------

  function Promises(log: History, p: int, r: Response): int {
    match log
    case Start => 0
    case Then(before, e) => Promises(before, p, r) + One(e.Promised? && e.payload == p && e.resp == r)
  }

  function Sendings(log: History, p: int, r: Response): int {
    match log
    case Start => 0
    case Then(before, e) => Sendings(before, p, r) + One(e == Sent(p, r))
  }

  /** How many leaving threads carry a payload with a response. */
  function CarriedWith(xs: seq<Exit>, p: int, r: Response): int {
    if xs == [] then 0
    else CarriedWith(xs[..|xs| - 1], p, r) + One(xs[|xs| - 1].payload == p && xs[|xs| - 1].resp == r)
  }

  lemma CarriedWithMore(xs: seq<Exit>, x: Exit, p: int, r: Response)
    ensures CarriedWith(xs + [x], p, r) == CarriedWith(xs, p, r) + One(x.payload == p && x.resp == r)
  {
    assert (xs + [x])[..|xs|] == xs;
  }

  lemma {:induction false} CarriedWithSame(xs: seq<Exit>, i: nat, x: Exit, p: int, r: Response)
    requires i < |xs| && x.payload == xs[i].payload && x.resp == xs[i].resp
    ensures CarriedWith(xs[i := x], p, r) == CarriedWith(xs, p, r)
  {
    var n := |xs| - 1;
    if i == n {
      assert xs[i := x][..n] == xs[..n];
    } else {
      CarriedWithSame(xs[..n], i, x, p, r);
      assert xs[i := x][..n] == xs[..n][i := x];
    }
  }

  lemma {:induction false} CarriedWithLess(xs: seq<Exit>, i: nat, p: int, r: Response)
    requires i < |xs|
    ensures CarriedWith(RemoveAt(xs, i), p, r)
         == CarriedWith(xs, p, r) - One(xs[i].payload == p && xs[i].resp == r)
  {
    var n := |xs| - 1;
    if i < n {
      CarriedWithLess(xs[..n], i, p, r);
      CarriedWithMore(RemoveAt(xs[..n], i), xs[n], p, r);
    }
  }

  /** A promise made in an answer is either sent by now or on its way. */
  predicate Kept(m: Ni, p: int, r: Response) {
    Promises(m.log, p, r) == Sendings(m.log, p, r) + CarriedWith(m.exits, p, r)
  }

  /** What a thread takes, it carries. */
  lemma WakeCarries(m: Ni, w: Which, timedOut: bool, p: int, r: Response)
    requires m.At(w).waiting > 0 && (timedOut || m.At(w).recvd)
    ensures var v := Verdict(m.At(w), timedOut);
            CarriedWith(Wake(m, w, timedOut).exits, p, r)
            == CarriedWith(m.exits, p, r) + One(Load(m.At(w), v) == p && v == r)
  {
    var v := Verdict(m.At(w), timedOut);
    CarriedWithMore(m.exits, Exit(w, false, Load(m.At(w), v), v), p, r);
    assert Wake(m, w, timedOut).exits == m.exits + [Exit(w, false, Load(m.At(w), v), v)];
  }

  /** And promises to send it. */
  lemma WakePromises(m: Ni, w: Which, timedOut: bool, p: int, r: Response)
    requires m.At(w).waiting > 0 && (timedOut || m.At(w).recvd) && p != NULL
    ensures var n, v := Wake(m, w, timedOut), Verdict(m.At(w), timedOut);
            && Promises(n.log, p, r) == Promises(m.log, p, r) + One(Load(m.At(w), v) == p && v == r)
            && Sendings(n.log, p, r) == Sendings(m.log, p, r)
  {
    var s, v := m.At(w), Verdict(m.At(w), timedOut);
    var own := timedOut || s.meant == s.request;
    var log := Wake(m, w, timedOut).log;
    if s.raw == NULL {
      assert log == m.log;
    } else if v == Ignore {
      assert log == Then(m.log, FreedByThread(s.raw, own));
    } else {
      assert log == Then(m.log, Promised(s.raw, v, own));
    }
  }

  lemma WakeKept(m: Ni, w: Which, timedOut: bool, p: int, r: Response)
    requires m.At(w).waiting > 0 && (timedOut || m.At(w).recvd) && Kept(m, p, r) && p != NULL
    ensures Kept(Wake(m, w, timedOut), p, r)
  {
    WakeCarries(m, w, timedOut, p, r);
    WakePromises(m, w, timedOut, p, r);
  }

  lemma ClearKept(m: Ni, i: nat, p: int, r: Response)
    requires i < |m.exits| && Kept(m, p, r)
    ensures Kept(Clear(m, i), p, r)
  {
    var x := m.exits[i];
    CarriedWithSame(m.exits, i, Exit(x.from, true, x.payload, x.resp), p, r);
  }

  lemma FinishKept(m: Ni, i: nat, p: int, r: Response)
    requires i < |m.exits| && Kept(m, p, r) && p != NULL
    ensures Kept(Finish(m, i), p, r)
  {
    CarriedWithLess(m.exits, i, p, r);
  }

  lemma NotifyKept(m: Ni, q: int, kind: Kind, s: Setting, p: int, r: Response)
    requires Kept(m, p, r)
    ensures Kept(Notify(m, q, kind, s), p, r)
  {
  }

  lemma StepKept(m: Ni, op: Op, p: int, r: Response)
    requires Kept(m, p, r) && p != NULL
    ensures Kept(Step(m, op), p, r)
  {
    match op
    case Request(q, kind, s) => NotifyKept(m, q, kind, s, p, r);
    case WakeStep(w, t) => if m.At(w).waiting > 0 && (t || m.At(w).recvd) { WakeKept(m, w, t, p, r); }
    case ClearStep(i) => if i < |m.exits| { ClearKept(m, i, p, r); }
    case FinishStep(i) => if i < |m.exits| { FinishKept(m, i, p, r); }
    case _ =>
  }

  /** In every run each payload is sent with each response as often as threads took it with that response. */
  lemma {:induction false} PromisesAreKept(ops: seq<Op>, p: int, r: Response)
    requires p != NULL
    ensures Promises(Run(ops).log, p, r) == Sendings(Run(ops).log, p, r) + CarriedWith(Run(ops).exits, p, r)
  {
    if ops != [] {
      PromisesAreKept(ops[..|ops| - 1], p, r);
      StepKept(Run(ops[..|ops| - 1]), ops[|ops| - 1], p, r);
    }
  }

  // ---------------------------------------------------------------------------------------------
  // Only the user accepts or denies
  // ---------------------------------------------------------------------------------------------

  predicate Unplanned(t: Todo, r: Response) {
    t.Deliver? ==> t.resp != r && Unplanned(t.rest, r)
  }

  predicate Unheard(s: Slot, r: Response) {
    s.recvd ==> s.resp != r
  }

  predicate Uncarried(xs: seq<Exit>, r: Response) {
    forall k :: 0 <= k < |xs| ==> xs[k].payload == NULL || xs[k].resp != r
  }

  /** Nowhere in a history is a request sent with the response. */
  predicate NeverSent(log: History, r: Response) {
    log.Then? ==> NeverSent(log.before, r) && !(log.entry.Sent? && log.entry.resp == r)
  }

  /** Nobody has given a response: it is not planned, not in a slot, not carried and not sent. */
  predicate Clean(m: Ni, r: Response) {
    && Unplanned(m.todo, r) && Unheard(m.normal, r) && Unheard(m.es, r)
    && Uncarried(m.exits, r) && NeverSent(m.log, r)
  }

  lemma {:induction false} RemovedUncarried(xs: seq<Exit>, i: nat, r: Response)
    requires i < |xs| && Uncarried(xs, r)
    ensures Uncarried(RemoveAt(xs, i), r)
  {
    var n := |xs| - 1;
    if i < n {
      RemovedUncarried(xs[..n], i, r);
    }
  }

  lemma NotifyClean(m: Ni, p: int, kind: Kind, s: Setting, r: Response)
    requires Clean(m, r) && r != Ignore
    ensures Clean(Notify(m, p, kind, s), r)
  {
    var t := Deliver(Normal, Ignore, m.normal.request, Idle);
    assert Unplanned(t.rest, r) && Unplanned(t, r);
  }

  lemma RespondClean(m: Ni, cb: bool, id: nat, v: Response, r: Response)
    requires Clean(m, r) && r != Ignore && (cb ==> v != r)
    ensures Clean(Respond(m, cb, id, v), r)
  {
    var t := Deliver(Emergency, v, m.es.request, Idle);
    if cb {
      assert Unplanned(t.rest, r) && Unplanned(t, r);
    }
  }

  lemma WakeClean(m: Ni, w: Which, timedOut: bool, r: Response)
    requires m.At(w).waiting > 0 && (timedOut || m.At(w).recvd) && Clean(m, r) && r != NoResponse
    ensures Clean(Wake(m, w, timedOut), r)
  {
  }

  lemma StepClean(m: Ni, op: Op, r: Response)
    requires Clean(m, r) && r != Ignore && r != NoResponse
    requires op.UserResponse? && op.hasCallback ==> op.response != r
    ensures Clean(Step(m, op), r)
  {
    match op
    case Request(p, kind, s) => NotifyClean(m, p, kind, s, r);
    case UserResponse(cb, id, v) => RespondClean(m, cb, id, v, r);
    case WakeStep(w, t) => if m.At(w).waiting > 0 && (t || m.At(w).recvd) { WakeClean(m, w, t, r); }
    case FinishStep(i) => if i < |m.exits| { RemovedUncarried(m.exits, i, r); }
    case _ =>
  }

  /** A user responds somewhere in a run. */
  predicate Responds(ops: seq<Op>, r: Response) {
    exists k :: 0 <= k < |ops| && ops[k].UserResponse? && ops[k].hasCallback && ops[k].response == r
  }

  lemma {:induction false} RunClean(ops: seq<Op>, r: Response)
    requires !Responds(ops, r) && r != Ignore && r != NoResponse
    ensures Clean(Run(ops), r)
  {
    if ops != [] {
      var last := ops[|ops| - 1];
      RunClean(ops[..|ops| - 1], r);
      StepClean(Run(ops[..|ops| - 1]), last, r);
    }
  }

  /** Under every interleaving, a request is sent as accepted or denied only after a user said so. */
  lemma OnlyUsersAnswer(ops: seq<Op>)
    ensures !Responds(ops, Accept) ==> NeverSent(Run(ops).log, Accept)
    ensures !Responds(ops, Deny) ==> NeverSent(Run(ops).log, Deny)
  {
    if !Responds(ops, Accept) {
      RunClean(ops, Accept);
    }
    if !Responds(ops, Deny) {
      RunClean(ops, Deny);
    }
  }

  /** Leaving threads carry no payload with the response to ignore it. */
  lemma IgnoreStep(m: Ni, op: Op)
    requires Uncarried(m.exits, Ignore) && NeverSent(m.log, Ignore)
    ensures Uncarried(Step(m, op).exits, Ignore) && NeverSent(Step(m, op).log, Ignore)
  {
    match op
    case Request(p, kind, s) =>
    case FinishStep(i) => if i < |m.exits| { RemovedUncarried(m.exits, i, Ignore); }
    case _ =>
  }

  /** A request that is to be ignored is freed, never sent. */
  lemma {:induction false} IgnoreIsNeverSent(ops: seq<Op>)
    ensures Uncarried(Run(ops).exits, Ignore) && NeverSent(Run(ops).log, Ignore)
  {
    if ops != [] {
      IgnoreIsNeverSent(ops[..|ops| - 1]);
      IgnoreStep(Run(ops[..|ops| - 1]), ops[|ops| - 1]);
    }
  }

  /** If nobody responds, nothing but NO_RESPONSE is ever sent. */
  lemma SilentUsers(ops: seq<Op>, p: int, r: Response)
    requires forall k :: 0 <= k < |ops| ==> !ops[k].UserResponse?
    ensures r != NoResponse ==> Sendings(Run(ops).log, p, r) == 0
  {
    OnlyUsersAnswer(ops);
    IgnoreIsNeverSent(ops);
    if r != NoResponse {
      NeverCounted(Run(ops).log, p, r);
    }
  }

  lemma {:induction false} NeverCounted(log: History, p: int, r: Response)
    requires NeverSent(log, r)
    ensures Sendings(log, p, r) == 0
  {
    if log.Then? {
      NeverCounted(log.before, p, r);
    }
  }
}

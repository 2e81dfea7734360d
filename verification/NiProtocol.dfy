/** Network-initiated requests: two slots, a message thread, and one timeout thread per accepted request. */
module NiProtocol {
  /** Payloads are pointers. */
  const NULL := 0

  /** GnssNiResponse, from 1 for Accept. */
  datatype Response = Accept | Deny | NoResponse | Ignore

  datatype Kind = EmergencySupl | ControlPlane | OtherNi

  datatype Which = Normal | Emergency

  /**
   * A slot. `request` numbers the request it was last filled with and `meant` the request for which its
   * response was given; `waiting` counts the threads that have not yet taken the lock for the last time.
   */
  datatype Slot = Slot(raw: int, reqID: nat, resp: Response, recvd: bool, waiting: nat, request: nat, meant: nat) {
    /** The thread counts as started only when its creation succeeded. */
    function Filled(p: int, n: nat, created: bool): Slot {
      Slot(p, n % 0x1_0000_0000, resp, recvd, waiting + (if created then 1 else 0), n, meant)
    }

    function Answered(r: Response, n: nat): Slot {
      Slot(raw, reqID, r, true, waiting, request, n)
    }

    /** What the thread leaves behind when it releases the lock. */
    function Taken(r: Response): Slot
      requires waiting > 0
    {
      Slot(NULL, reqID, r, false, waiting - 1, request, meant)
    }

    function Unnamed(): Slot {
      Slot(raw, 0, resp, recvd, waiting, request, meant)
    }
  }

  /** A thread past its lock: the payload it will send, if any, and whether it has cleared the id. */
  datatype Exit = Exit(from: Which, cleared: bool, payload: int, resp: Response)

  /** Responses the message thread has decided to deliver but has not delivered yet. */
  datatype Todo = Idle | Deliver(to: Which, resp: Response, request: nat, rest: Todo)

  /** What becomes of a request at once; one that is accepted may fail to get its thread. */
  datatype Outcome = Accepted | AcceptedWithoutThread | FreedAtOnce | AnsweredAtOnce(resp: Response) | Unclaimed

  /**
   * `own` says that the response was given for this very request, or made by the timeout; `Late` is a
   * delivery to a slot whose request was taken in the meantime, and `LostName` the clearing of an id in a
   * slot that holds a request again.
   */
  datatype Entry =
    | Received(payload: int, outcome: Outcome)
    | Promised(payload: int, resp: Response, own: bool)
    | FreedByThread(payload: int, own: bool)
    | Sent(payload: int, resp: Response)
    | Late
    | LostName

  datatype History = Start | Then(before: History, entry: Entry)

  datatype Ni = Ni(normal: Slot, es: Slot, counter: nat, todo: Todo, exits: seq<Exit>, log: History) {
    function At(w: Which): Slot {
      match w
      case Normal => normal
      case Emergency => es
    }

    function Put(w: Which, s: Slot): Ni {
      match w
      case Normal => Ni(s, es, counter, todo, exits, log)
      case Emergency => Ni(normal, s, counter, todo, exits, log)
    }

    function Note(e: Entry): Ni {
      Ni(normal, es, counter, todo, exits, Then(log, e))
    }

    function Plan(t: Todo): Ni {
      Ni(normal, es, counter, t, exits, log)
    }

    function Leaving(xs: seq<Exit>): Ni {
      Ni(normal, es, counter, todo, xs, log)
    }

    function Count(): Ni {
      Ni(normal, es, counter + 1, todo, exits, log)
    }
  }

  // ---------------------------------------------------------------------------------------------
  // The message thread
  // ---------------------------------------------------------------------------------------------

  /** Fill a slot and start its thread. */
  function Fill(m: Ni, w: Which, p: int, created: bool): Ni {
    m.Count().Put(w, m.At(w).Filled(p, m.counter + 1, created))
    .Note(Received(p, if created then Accepted else AcceptedWithoutThread))
  }

  /** An accepted emergency request silences a pending normal one. */
  function Silence(m: Ni, rest: Todo): Todo {
    if m.normal.raw != NULL then Deliver(Normal, Ignore, m.normal.request, rest) else rest
  }

  function RequestNiNotify(m: Ni, p: int, kind: Kind, hasClient: bool, informAccept: bool, created: bool): Ni {
    if !hasClient then
      if kind == EmergencySupl && informAccept then
        m.Note(Received(p, AnsweredAtOnce(Accept))).Plan(Silence(m, Idle))
      else m.Note(Received(p, Unclaimed))
    else if kind == EmergencySupl then
      if m.es.raw != NULL then m.Note(Received(p, FreedAtOnce)) else Fill(m, Emergency, p, created)
    else if m.normal.raw != NULL || m.es.raw != NULL then m.Note(Received(p, FreedAtOnce))
    else Fill(m, Normal, p, created)
  }

  /** Configuration and surroundings of a request. */
  datatype Setting = Setting(hasClient: bool, inEmergency: bool, suplEsNo: bool, cpMtlrEs: bool, created: bool)

  function Notify(m: Ni, p: int, kind: Kind, s: Setting): Ni {
    match kind
    case EmergencySupl =>
      if s.inEmergency || s.suplEsNo then RequestNiNotify(m, p, kind, s.hasClient, true, s.created)
      else m.Note(Received(p, AnsweredAtOnce(Deny)))
    case ControlPlane =>
      if s.inEmergency && s.cpMtlrEs then m.Note(Received(p, AnsweredAtOnce(Accept)))
      else RequestNiNotify(m, p, kind, s.hasClient, false, s.created)
    case OtherNi => RequestNiNotify(m, p, kind, s.hasClient, false, s.created)
  }

  /** The slot a user response is for. */
  predicate Matches(s: Slot, id: nat) {
    id == s.reqID && s.raw != NULL
  }

  /** A user response: decide what to deliver. */
  function Respond(m: Ni, hasCallback: bool, id: nat, r: Response): Ni {
    if !hasCallback then m
    else if Matches(m.es, id) then
      var own := Deliver(Emergency, r, m.es.request, Idle);
      m.Plan(if r == Accept then Silence(m, own) else own)
    else if Matches(m.normal, id) then m.Plan(Deliver(Normal, r, m.normal.request, Idle))
    else m
  }

  /** One delivery under the lock of its slot. */
  function DeliverNext(m: Ni): Ni
    requires m.todo.Deliver?
  {
    var d := m.todo;
    var n := m.Plan(d.rest).Put(d.to, m.At(d.to).Answered(d.resp, d.request));
    if m.At(d.to).raw == NULL then n.Note(Late) else n
  }

  // ---------------------------------------------------------------------------------------------
  // The timeout threads
  // ---------------------------------------------------------------------------------------------

  /** What a thread will send: nothing when the slot is empty or the response is to ignore the request. */
  function Load(s: Slot, r: Response): int {
    if r == Ignore then NULL else s.raw
  }

  /** The response a thread goes by. */
  function Verdict(s: Slot, timedOut: bool): Response {
    if timedOut then NoResponse else s.resp
  }

  /** A thread finds a response, or its time is up; it takes the payload, and frees an ignored one. */
  function Wake(m: Ni, w: Which, timedOut: bool): Ni
    requires m.At(w).waiting > 0 && (timedOut || m.At(w).recvd)
  {
    var s := m.At(w);
    var r, own := Verdict(s, timedOut), timedOut || s.meant == s.request;
    var n := m.Put(w, s.Taken(r)).Leaving(m.exits + [Exit(w, false, Load(s, r), r)]);
    if s.raw == NULL then n
    else if r == Ignore then n.Note(FreedByThread(s.raw, own))
    else n.Note(Promised(s.raw, r, own))
  }

  /** Outside the lock: the id is cleared, whatever request the slot holds by now. */
  function Clear(m: Ni, i: nat): Ni
    requires i < |m.exits|
  {
    var x := m.exits[i];
    var n := m.Put(x.from, m.At(x.from).Unnamed()).Leaving(m.exits[i := Exit(x.from, true, x.payload, x.resp)]);
    if m.At(x.from).raw == NULL then n else n.Note(LostName)
  }

  function RemoveAt(xs: seq<Exit>, i: nat): (r: seq<Exit>)
    requires i < |xs|
    ensures |r| == |xs| - 1
  {
    var n := |xs| - 1;
    if i == n then xs[..n] else RemoveAt(xs[..n], i) + [xs[n]]
  }

  /** The thread hands its response on, and is gone. */
  function Finish(m: Ni, i: nat): Ni
    requires i < |m.exits|
  {
    var x, n := m.exits[i], m.Leaving(RemoveAt(m.exits, i));
    if x.payload == NULL then n else n.Note(Sent(x.payload, x.resp))
  }

  // ---------------------------------------------------------------------------------------------
  // Runs
  // ---------------------------------------------------------------------------------------------

  datatype Op =
    | Request(payload: int, kind: Kind, setting: Setting)
    | UserResponse(hasCallback: bool, id: nat, response: Response)
    | DeliverStep
    | WakeStep(which: Which, timedOut: bool)
    | ClearStep(i: nat)
    | FinishStep(i: nat)

  /** One step of one thread; a step whose thread cannot move now changes nothing. */
  function Step(m: Ni, op: Op): Ni {
    match op
    case Request(p, kind, s) => if m.todo.Idle? then Notify(m, p, kind, s) else m
    case UserResponse(cb, id, r) => if m.todo.Idle? then Respond(m, cb, id, r) else m
    case DeliverStep => if m.todo.Deliver? then DeliverNext(m) else m
    case WakeStep(w, t) => if m.At(w).waiting > 0 && (t || m.At(w).recvd) then Wake(m, w, t) else m
    case ClearStep(i) => if i < |m.exits| && !m.exits[i].cleared then Clear(m, i) else m
    case FinishStep(i) => if i < |m.exits| && m.exits[i].cleared then Finish(m, i) else m
  }

  const EMPTY_SLOT := Slot(NULL, 0, Accept, false, 0, 0, 0)

  function Init(): Ni {
    Ni(EMPTY_SLOT, EMPTY_SLOT, 0, Idle, [], Start)
  }

  function RunFrom(m: Ni, ops: seq<Op>): Ni {
    if ops == [] then m else Step(RunFrom(m, ops[..|ops| - 1]), ops[|ops| - 1])
  }

  function Run(ops: seq<Op>): Ni {
    RunFrom(Init(), ops)
  }
}

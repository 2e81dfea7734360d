/** The AGPS connection state machine and its manager. */
module Agps {
  import opened Wrappers

  // ---------------------------------------------------------------------------------------------
  // State and history
  // ---------------------------------------------------------------------------------------------

  /** A set of LOC_APN_TYPE_MASK bits. */
  type ApnTypeMask = bv32

  datatype State = Released | Pending | Acquired | Releasing

  datatype Subscriber = Subscriber(handle: int, waitForClose: bool, inactive: bool)

  /** Notification targets of `notifyAllSubscribers`. */
  datatype Audience = All | InactiveOnly | ActiveOnly {
    predicate Includes(s: Subscriber) {
      match this
      case All => true
      case InactiveOnly => s.inactive
      case ActiveOnly => !s.inactive
    }
  }

  /** Framework events that reach the machine. */
  datatype FrameworkEvent = Granted | Closed | Denied

  /** One entry of the history: an event, a callback, a framework request, or a change of the list. */
  datatype Entry =
    | In(event: FrameworkEvent)
    | OpenStatus(handle: int, success: bool)
    | CloseStatus(handle: int)
    | RequestConn(agpsType: int, apnTypeMask: ApnTypeMask)
    | ReleaseConn(agpsType: int, apnTypeMask: ApnTypeMask)
    | Admitted(handle: int)
    | Dropped(handle: int)

  /** Everything that happened, the latest entry outermost. */
  datatype History = Start | Then(before: History, entry: Entry)

  datatype Machine = Machine(state: State, subs: seq<Subscriber>, agpsType: int, apnTypeMask: ApnTypeMask, log: History) {
    function Note(e: Entry): Machine {
      Machine(state, subs, agpsType, apnTypeMask, Then(log, e))
    }

    function To(next: State): Machine {
      Machine(next, subs, agpsType, apnTypeMask, log)
    }

    function With(next: seq<Subscriber>): Machine {
      Machine(state, next, agpsType, apnTypeMask, log)
    }
  }

  // ---------------------------------------------------------------------------------------------
  // The subscriber list
  // ---------------------------------------------------------------------------------------------

  /** How often a handle is listed. */
  function Count(subs: seq<Subscriber>, h: int): (n: nat) {
    if subs == [] then 0
    else Count(subs[..|subs| - 1], h) + if subs[|subs| - 1].handle == h then 1 else 0
  }

  predicate AnyActive(subs: seq<Subscriber>) {
    exists k :: 0 <= k < |subs| && !subs[k].inactive
  }

  predicate AnyInactive(subs: seq<Subscriber>) {
    exists k :: 0 <= k < |subs| && subs[k].inactive
  }

  /** The list without the entries of one handle. */
  function Without(subs: seq<Subscriber>, h: int): (r: seq<Subscriber>) {
    if subs == [] then []
    else
      var s := subs[|subs| - 1];
      Without(subs[..|subs| - 1], h) + if s.handle == h then [] else [s]
  }

  /** The list without the subscribers in an audience. */
  function Outside(subs: seq<Subscriber>, to: Audience): (r: seq<Subscriber>) {
    if subs == [] then []
    else
      var s := subs[|subs| - 1];
      Outside(subs[..|subs| - 1], to) + if to.Includes(s) then [] else [s]
  }

  /** The callback that tells one subscriber about a framework event. */
  function Callback(e: FrameworkEvent, h: int): Entry {
    match e
    case Granted => OpenStatus(h, true)
    case Denied => OpenStatus(h, false)
    case Closed => CloseStatus(h)
  }

  /** The history after the callbacks to an audience, made in list order. */
  function Notified(log: History, subs: seq<Subscriber>, e: FrameworkEvent, to: Audience): History {
    if subs == [] then log
    else
      var s, log0 := subs[|subs| - 1], Notified(log, subs[..|subs| - 1], e, to);
      if to.Includes(s) then Then(log0, Callback(e, s.handle)) else log0
  }

  function AllDropped(log: History, subs: seq<Subscriber>): History {
    if subs == [] then log
    else Then(AllDropped(log, subs[..|subs| - 1]), Dropped(subs[|subs| - 1].handle))
  }

  // ---------------------------------------------------------------------------------------------
  // The transitions
  // ---------------------------------------------------------------------------------------------

  function Add(m: Machine, s: Subscriber): Machine {
    if Count(m.subs, s.handle) > 0 then m else m.With(m.subs + [s]).Note(Admitted(s.handle))
  }

  function Ask(m: Machine): Machine {
    m.Note(RequestConn(m.agpsType, m.apnTypeMask))
  }

  function LetGo(m: Machine): Machine {
    m.Note(ReleaseConn(m.agpsType, m.apnTypeMask))
  }

  function Subscribe(m: Machine, s: Subscriber): Machine {
    match m.state
    case Released => Ask(Add(m, s)).To(Pending)
    case Pending => Add(m, s)
    case Acquired => Add(m.Note(OpenStatus(s.handle, true)), s)
    case Releasing => Add(m, s)
  }

  /** A subscriber that waits for the close stays, inactive; any other is told and removed. */
  function Retire(m: Machine, i: nat): Machine
    requires i < |m.subs|
  {
    var s := m.subs[i];
    if s.waitForClose then m.With(m.subs[i := s.(inactive := true)])
    else m.With(Without(m.subs, s.handle)).Note(CloseStatus(s.handle))
  }

  function Unsubscribe(m: Machine, i: nat): Machine
    requires i < |m.subs|
  {
    match m.state
    case Released => m.Note(CloseStatus(m.subs[i].handle))
    case Pending | Acquired =>
      var n := Retire(m, i);
      if n.subs == [] then LetGo(n.To(Released))
      else if !AnyActive(n.subs) then LetGo(n.To(Releasing))
      else n
    case Releasing =>
      var n := Retire(m, i);
      if n.subs == [] then n.To(Released) else n
  }

  /** Tell an audience, and remove it from the list. */
  function Dismiss(m: Machine, e: FrameworkEvent, to: Audience): Machine {
    Machine(m.state, Outside(m.subs, to), m.agpsType, m.apnTypeMask, Notified(m.log, m.subs, e, to))
  }

  /** The data connection is gone: serve those who wait now. */
  function Reopen(m: Machine): Machine {
    var n := Dismiss(m, Closed, InactiveOnly);
    if AnyActive(n.subs) then Ask(n.To(Pending)) else n.To(Released)
  }

  function Receive(m: Machine, e: FrameworkEvent): Machine {
    var n := m.Note(In(e));
    match (e, m.state)
    case (Granted, Pending) =>
      Machine(Acquired, n.subs, n.agpsType, n.apnTypeMask, Notified(n.log, n.subs, Granted, ActiveOnly))
    case (Closed, Acquired) => Dismiss(n.To(Released), Closed, All)
    case (Closed, Releasing) => Reopen(n)
    case (Denied, Releasing) => Reopen(n)
    case (Denied, Pending) => Dismiss(n.To(Released), Denied, All)
    case _ => n
  }

  /** Modem restart: the list is emptied and nothing else happens. */
  function DropAll(m: Machine): Machine {
    Machine(m.state, [], m.agpsType, m.apnTypeMask, AllDropped(m.log, m.subs))
  }

  // ---------------------------------------------------------------------------------------------
  // Runs
  // ---------------------------------------------------------------------------------------------

  datatype Op =
    | Open(handle: int, waitForClose: bool, agpsType: int, apnTypeMask: ApnTypeMask)
    | Close(handle: int)
    | Framework(event: FrameworkEvent)
    | ModemRestart

  /** The place of a handle in the list. */
  function Find(subs: seq<Subscriber>, h: int): (r: Option<nat>)
    ensures r.Some? ==> r.value < |subs| && subs[r.value].handle == h
    ensures r.None? <==> Count(subs, h) == 0
  {
    if subs == [] then None
    else
      var front := Find(subs[..|subs| - 1], h);
      if front.Some? then front
      else if subs[|subs| - 1].handle == h then Some(|subs| - 1) else None
  }

  /** One operation; a close for a handle that is not listed is ignored. */
  function Step(m: Machine, op: Op): Machine {
    match op
    case Open(h, wait, t, mask) =>
      Subscribe(Machine(m.state, m.subs, t, mask, m.log), Subscriber(h, wait, false))
    case Close(h) =>
      var i := Find(m.subs, h);
      if i.None? then m else Unsubscribe(m, i.value)
    case Framework(e) => Receive(m, e)
    case ModemRestart => DropAll(m)
  }

  function Init(agpsType: int): Machine {
    Machine(Released, [], agpsType, 0, Start)
  }

  function Run(agpsType: int, ops: seq<Op>): (m: Machine) {
    if ops == [] then Init(agpsType) else Step(Run(agpsType, ops[..|ops| - 1]), ops[|ops| - 1])
  }
}

/** What every run of the AGPS state machine keeps. */
module AgpsSafety {
  import opened Wrappers
  import opened Agps

  // ---------------------------------------------------------------------------------------------
  // Reading the history
  // ---------------------------------------------------------------------------------------------

  /** The data connection as the framework sees it. */
  datatype Conn = Idle | Asked | Up

  /**
   * What a history says: about one handle, its admissions minus its closes, denials and drops, and
   * whether it was told that its connection is open and nothing to the contrary since; about the
   * framework, the state of the data connection, or None once a request was sent while a connection was
   * outstanding or a release while none was; and whether no modem restart dropped a subscriber.
   */
  datatype Reading = Reading(owed: int, told: bool, conn: Option<Conn>, noDrops: bool)

  function OwedBy(e: Entry, h: int): int {
    match e
    case Admitted(h') => if h' == h then 1 else 0
    case OpenStatus(h', ok) => if h' == h && !ok then -1 else 0
    case CloseStatus(h') => if h' == h then -1 else 0
    case Dropped(h') => if h' == h then -1 else 0
    case _ => 0
  }

  predicate ToldBy(e: Entry, h: int, before: bool) {
    match e
    case OpenStatus(h', ok) => if h' == h then ok else before
    case CloseStatus(h') => h' != h && before
    case Dropped(h') => h' != h && before
    case _ => before
  }

  function ConnBy(e: Entry, c: Option<Conn>): Option<Conn> {
    match e
    case RequestConn(_, _) => if c == Some(Idle) then Some(Asked) else None
    case ReleaseConn(_, _) => if c == Some(Asked) || c == Some(Up) then Some(Idle) else None
    case In(Granted) => if c == Some(Asked) then Some(Up) else c
    case In(Closed) => if c == Some(Up) then Some(Idle) else c
    case In(Denied) => if c == Some(Asked) then Some(Idle) else c
    case _ => c
  }

  function ReadEntry(r: Reading, e: Entry, h: int): Reading {
    Reading(r.owed + OwedBy(e, h), ToldBy(e, h, r.told), ConnBy(e, r.conn), r.noDrops && !e.Dropped?)
  }

  function Read(log: History, h: int): Reading {
    match log
    case Start => Reading(0, false, Some(Idle), true)
    case Then(before, e) => ReadEntry(Read(before, h), e, h)
  }

  // ---------------------------------------------------------------------------------------------
  // Summarising the list
  // ---------------------------------------------------------------------------------------------

  /**
   * What a list holds: subscribers and active subscribers of one handle, active and inactive subscribers
   * of all handles, and inactive ones that do not wait for the close.
   */
  datatype View = View(mine: nat, mineActive: nat, active: nat, inactive: nat, stray: nat)

  function ViewOne(v: View, s: Subscriber, h: int): View {
    View(v.mine + (if s.handle == h then 1 else 0),
         v.mineActive + (if s.handle == h && !s.inactive then 1 else 0),
         v.active + (if !s.inactive then 1 else 0),
         v.inactive + (if s.inactive then 1 else 0),
         v.stray + (if s.inactive && !s.waitForClose then 1 else 0))
  }

  function Look(subs: seq<Subscriber>, h: int): (v: View) {
    if subs == [] then View(0, 0, 0, 0, 0) else ViewOne(Look(subs[..|subs| - 1], h), subs[|subs| - 1], h)
  }

  lemma {:induction false} LookBounds(subs: seq<Subscriber>, h: int)
    ensures var v := Look(subs, h);
            && v.mine == Count(subs, h) && v.active + v.inactive == |subs|
            && v.mineActive <= v.active && 0 <= v.mine - v.mineActive <= v.inactive
  {
    if subs != [] {
      LookBounds(subs[..|subs| - 1], h);
    }
  }

  lemma LookAdd(subs: seq<Subscriber>, s: Subscriber, h: int)
    ensures Look(subs + [s], h) == ViewOne(Look(subs, h), s, h)
  {
    assert (subs + [s])[..|subs|] == subs;
  }

  lemma {:induction false} LookAny(subs: seq<Subscriber>, h: int)
    ensures AnyActive(subs) <==> Look(subs, h).active > 0
    ensures AnyInactive(subs) <==> Look(subs, h).inactive > 0
  {
    if subs != [] {
      var front, s := subs[..|subs| - 1], subs[|subs| - 1];
      LookAny(front, h);
      assert s.inactive ==> AnyInactive(subs);
      assert !s.inactive ==> AnyActive(subs);
      assert forall k :: 0 <= k < |front| ==> front[k] == subs[k];
    }
  }

  /** A subscriber that starts to wait. */
  lemma {:induction false} LookInactive(subs: seq<Subscriber>, i: nat, h: int)
    requires i < |subs| && subs[i].waitForClose
    ensures var v, v' := Look(subs, h), Look(subs[i := subs[i].(inactive := true)], h);
            && v'.mine == v.mine
            && v'.mineActive == (if subs[i].handle == h && !subs[i].inactive then v.mineActive - 1 else v.mineActive)
            && v'.inactive == (if subs[i].inactive then v.inactive else v.inactive + 1)
            && v'.stray == v.stray
            && v'.active + v'.inactive == v.active + v.inactive
  {
    var n, s' := |subs| - 1, subs[i].(inactive := true);
    if i == n {
      assert subs[i := s'][..n] == subs[..n];
    } else {
      LookInactive(subs[..n], i, h);
      assert subs[i := s'][..n] == subs[..n][i := s'];
    }
  }

  lemma {:induction false} LookAt(subs: seq<Subscriber>, i: nat)
    requires i < |subs|
    ensures var v := Look(subs, subs[i].handle);
            && v.mine > 0 && (!subs[i].inactive ==> v.mineActive > 0)
            && (subs[i].inactive && !subs[i].waitForClose ==> v.stray > 0)
            && (subs[i].inactive ==> v.mine > v.mineActive)
  {
    var front := subs[..|subs| - 1];
    LookBounds(front, subs[i].handle);
    if i < |front| {
      LookAt(front, i);
    }
  }

  lemma {:induction false} LookWithout(subs: seq<Subscriber>, h0: int, h: int)
    ensures var v, v0, v' := Look(subs, h), Look(subs, h0), Look(Without(subs, h0), h);
            && v'.mine == (if h == h0 then 0 else v.mine)
            && v'.mineActive == (if h == h0 then 0 else v.mineActive)
            && v'.active == v.active - v0.mineActive
            && v'.inactive == v.inactive - (v0.mine - v0.mineActive)
            && v'.stray <= v.stray
  {
    if subs != [] {
      var front, s := subs[..|subs| - 1], subs[|subs| - 1];
      LookWithout(front, h0, h);
      if s.handle != h0 {
        assert Without(subs, h0) == Without(front, h0) + [s];
        LookAdd(Without(front, h0), s, h);
      } else {
        assert Without(subs, h0) == Without(front, h0);
      }
    }
  }

  lemma {:induction false} LookOutside(subs: seq<Subscriber>, h: int)
    ensures Outside(subs, All) == []
    ensures var v, v' := Look(subs, h), Look(Outside(subs, InactiveOnly), h);
            && v'.mine == v'.mineActive == v.mineActive
            && v'.active == v.active && v'.inactive == 0 && v'.stray == 0
  {
    if subs != [] {
      var front, s := subs[..|subs| - 1], subs[|subs| - 1];
      LookOutside(front, h);
      if s.inactive {
        assert Outside(subs, InactiveOnly) == Outside(front, InactiveOnly);
      } else {
        assert Outside(subs, InactiveOnly) == Outside(front, InactiveOnly) + [s];
        LookAdd(Outside(front, InactiveOnly), s, h);
      }
    }
  }

  /** How many of the handle's subscribers an audience includes. */
  function Addressed(v: View, to: Audience): int {
    match to
    case All => v.mine
    case ActiveOnly => v.mineActive
    case InactiveOnly => v.mine - v.mineActive
  }

  /** The reading after n callbacks about one event. */
  function AfterCallbacks(r: Reading, n: int, e: FrameworkEvent): Reading {
    if n == 0 then r else Reading(if e == Granted then r.owed else r.owed - n, e == Granted, r.conn, r.noDrops)
  }

  function Hit(s: Subscriber, to: Audience, h: int): int {
    if to.Includes(s) && s.handle == h then 1 else 0
  }

  lemma AddressedMore(v: View, s: Subscriber, to: Audience, h: int)
    ensures Addressed(ViewOne(v, s, h), to) == Addressed(v, to) + Hit(s, to, h)
  {
  }

  lemma ReadOne(log: History, s: Subscriber, e: FrameworkEvent, to: Audience, h: int)
    ensures Read(if to.Includes(s) then Then(log, Callback(e, s.handle)) else log, h)
         == AfterCallbacks(Read(log, h), Hit(s, to, h), e)
  {
  }

  lemma {:induction false} ReadNotified(log: History, subs: seq<Subscriber>, e: FrameworkEvent, to: Audience, h: int)
    ensures Addressed(Look(subs, h), to) >= 0
    ensures Read(Notified(log, subs, e, to), h) == AfterCallbacks(Read(log, h), Addressed(Look(subs, h), to), e)
  {
    if subs != [] {
      var front, s := subs[..|subs| - 1], subs[|subs| - 1];
      ReadNotified(log, front, e, to, h);
      AddressedMore(Look(front, h), s, to, h);
      ReadOne(Notified(log, front, e, to), s, e, to, h);
    }
  }

  lemma {:induction false} ReadDropped(log: History, subs: seq<Subscriber>, h: int)
    ensures var r, n := Read(log, h), Look(subs, h).mine;
            Read(AllDropped(log, subs), h) ==
            r.(owed := r.owed - n, told := r.told && n == 0, noDrops := r.noDrops && subs == [])
  {
    if subs != [] {
      ReadDropped(log, subs[..|subs| - 1], h);
    }
  }

  // ---------------------------------------------------------------------------------------------
  // The invariant
  // ---------------------------------------------------------------------------------------------

  function ConnOf(s: State): Conn {
    match s
    case Pending => Asked
    case Acquired => Up
    case _ => Idle
  }

  /** The invariant, as it concerns one handle. */
  predicate Inv(m: Machine, h: int) {
    var v, r := Look(m.subs, h), Read(m.log, h);
    && v.mine <= 1 && r.owed == v.mine && v.stray == 0
    && (v.mine == 0 ==> !r.told)
    && (v.mineActive > 0 ==> (r.told <==> m.state == Acquired))
    && (m.state == Released ==> v.active + v.inactive == 0)
    && r.conn == Some(ConnOf(m.state))
    && (r.noDrops ==> (m.state == Pending || m.state == Acquired ==> v.active > 0) && (m.state == Releasing ==> v.inactive > 0))
  }

  // ---------------------------------------------------------------------------------------------
  // Every step keeps it
  // ---------------------------------------------------------------------------------------------

  /** What a new subscriber changes in the summary and the reading. */
  lemma AddEffect(m: Machine, s: Subscriber, h: int)
    requires !s.inactive
    ensures var n, v := Add(m, s), Look(m.subs, h);
            if Count(m.subs, s.handle) > 0 then n == m
            else
              && n.state == m.state && n.log == Then(m.log, Admitted(s.handle))
              && Look(n.subs, h) == (if s.handle == h then View(v.mine + 1, v.mineActive + 1, v.active + 1, v.inactive, v.stray)
                                     else v.(active := v.active + 1))
  {
    LookAdd(m.subs, s, h);
    LookBounds(m.subs, s.handle);
  }

  lemma SubscribeReleased(m: Machine, s: Subscriber, h: int)
    requires Inv(m, h) && Inv(m, s.handle) && !s.inactive && m.state == Released
    ensures Inv(Subscribe(m, s), h)
  {
    LookBounds(m.subs, h);
    LookBounds(m.subs, s.handle);
    AddEffect(m, s, h);
  }

  /** A subscriber that is listed already changes nothing; a new one is told nothing. */
  lemma AddKeepsPending(m: Machine, s: Subscriber, h: int)
    requires Inv(m, h) && !s.inactive && m.state == Pending
    ensures Inv(Add(m, s), h)
  {
    LookBounds(m.subs, h);
    AddEffect(m, s, h);
    if Count(m.subs, s.handle) == 0 && s.handle == h {
      assert Look(m.subs, h).mine == 0;
    }
  }

  lemma AddKeepsReleasing(m: Machine, s: Subscriber, h: int)
    requires Inv(m, h) && !s.inactive && m.state == Releasing
    ensures Inv(Add(m, s), h)
  {
    LookBounds(m.subs, h);
    AddEffect(m, s, h);
    if Count(m.subs, s.handle) == 0 && s.handle == h {
      assert Look(m.subs, h).mine == 0;
    }
  }

  /** In Acquired a subscriber is told first. */
  lemma TellKeeps(m: Machine, s: Subscriber, h: int)
    requires Inv(m, h) && m.state == Acquired && Look(m.subs, s.handle).mine > 0
    ensures Inv(m.Note(OpenStatus(s.handle, true)), h)
  {
    LookBounds(m.subs, h);
  }

  lemma AdmitToAcquired(m: Machine, s: Subscriber, h: int)
    requires Inv(m, h) && !s.inactive && m.state == Acquired && Count(m.subs, s.handle) == 0
    ensures Inv(Add(m.Note(OpenStatus(s.handle, true)), s), h)
  {
    LookBounds(m.subs, h);
    AddEffect(m.Note(OpenStatus(s.handle, true)), s, h);
  }

  lemma SubscribeAcquired(m: Machine, s: Subscriber, h: int)
    requires Inv(m, h) && Inv(m, s.handle) && !s.inactive && m.state == Acquired
    ensures Inv(Subscribe(m, s), h)
  {
    LookBounds(m.subs, s.handle);
    if Count(m.subs, s.handle) == 0 {
      AdmitToAcquired(m, s, h);
    } else {
      TellKeeps(m, s, h);
    }
  }

  /** What remains of the invariant when a subscriber has gone, before the state follows. */
  predicate Loose(m: Machine, h: int) {
    var v, r := Look(m.subs, h), Read(m.log, h);
    && v.mine <= 1 && r.owed == v.mine && v.stray == 0
    && (v.mine == 0 ==> !r.told)
    && (v.mineActive > 0 ==> (r.told <==> m.state == Acquired))
    && r.conn == Some(ConnOf(m.state))
    && (r.noDrops && m.state == Releasing ==> v.inactive > 0)
  }

  lemma RetireWaiting(m: Machine, i: nat, h: int)
    requires i < |m.subs| && m.subs[i].waitForClose && Inv(m, h) && Inv(m, m.subs[i].handle)
    ensures Loose(Retire(m, i), h)
  {
    LookAt(m.subs, i);
    LookInactive(m.subs, i, h);
  }

  lemma RetireGone(m: Machine, i: nat, h: int)
    requires i < |m.subs| && !m.subs[i].waitForClose && Inv(m, h) && Inv(m, m.subs[i].handle)
    ensures Loose(Retire(m, i), h)
  {
    LookAt(m.subs, i);
    LookWithout(m.subs, m.subs[i].handle, h);
  }

  /** The state follows the list. */
  lemma SettleKeeps(n: Machine, h: int)
    requires Loose(n, h) && n.state != Released
    ensures n.subs == [] && n.state == Releasing ==> Inv(n.To(Released), h)
    ensures n.subs == [] && n.state != Releasing ==> Inv(LetGo(n.To(Released)), h)
    ensures !AnyActive(n.subs) && n.subs != [] && n.state != Releasing ==> Inv(LetGo(n.To(Releasing)), h)
    ensures AnyActive(n.subs) || (n.state == Releasing && n.subs != []) ==> Inv(n, h)
  {
    LookBounds(n.subs, h);
    LookAny(n.subs, h);
  }

  lemma UnsubscribeKeeps(m: Machine, i: nat, h: int)
    requires i < |m.subs| && Inv(m, h) && Inv(m, m.subs[i].handle)
    ensures Inv(Unsubscribe(m, i), h)
  {
    if m.subs[i].waitForClose {
      RetireWaiting(m, i, h);
    } else {
      RetireGone(m, i, h);
    }
    SettleKeeps(Retire(m, i), h);
  }

  /** Those who waited for the close are told and removed; the active ones remain untold. */
  lemma DismissInactive(m: Machine, h: int)
    requires m.state == Releasing && Inv(m, h)
    ensures var n := Dismiss(m, Closed, InactiveOnly);
            var v, r := Look(n.subs, h), Read(n.log, h);
            && v.mine == v.mineActive == r.owed <= 1 && v.stray == v.inactive == 0
            && !r.told && r.conn == Some(Idle)
            && (AnyActive(n.subs) <==> v.active > 0)
  {
    LookBounds(m.subs, h);
    ReadNotified(m.log, m.subs, Closed, InactiveOnly, h);
    LookOutside(m.subs, h);
    LookAny(Outside(m.subs, InactiveOnly), h);
  }

  lemma ReopenKeeps(m: Machine, h: int)
    requires m.state == Releasing && Inv(m, h)
    ensures Inv(Reopen(m), h)
  {
    DismissInactive(m, h);
  }

  /** Everybody is told and removed, and the connection is gone. */
  lemma DismissAllKeeps(m: Machine, e: FrameworkEvent, h: int)
    requires Inv(m, h) && ((e == Closed && m.state == Acquired) || (e == Denied && m.state == Pending))
    ensures Inv(Receive(m, e), h)
  {
    LookBounds(m.subs, h);
    ReadNotified(Then(m.log, In(e)), m.subs, e, All, h);
    LookOutside(m.subs, h);
  }

  lemma GrantKeeps(m: Machine, h: int)
    requires Inv(m, h) && m.state == Pending
    ensures Inv(Receive(m, Granted), h)
  {
    LookBounds(m.subs, h);
    ReadNotified(Then(m.log, In(Granted)), m.subs, Granted, ActiveOnly, h);
  }

  lemma ReceiveKeeps(m: Machine, e: FrameworkEvent, h: int)
    requires Inv(m, h)
    ensures Inv(Receive(m, e), h)
  {
    if m.state == Releasing && e != Granted {
      ReopenKeeps(m.Note(In(e)), h);
    } else if m.state == Pending && e == Granted {
      GrantKeeps(m, h);
    } else if (e == Closed && m.state == Acquired) || (e == Denied && m.state == Pending) {
      DismissAllKeeps(m, e, h);
    }
  }

  lemma StepKeeps(m: Machine, op: Op, h: int)
    requires forall h' :: Inv(m, h')
    ensures Inv(Step(m, op), h)
  {
    assert Inv(m, h);
    match op
    case Open(h', wait, t, mask) =>
      var n := Machine(m.state, m.subs, t, mask, m.log);
      assert Inv(m, h') && Inv(n, h') && Inv(n, h);
      var s := Subscriber(h', wait, false);
      match n.state {
        case Released => SubscribeReleased(n, s, h);
        case Acquired => SubscribeAcquired(n, s, h);
        case Pending => AddKeepsPending(n, s, h);
        case Releasing => AddKeepsReleasing(n, s, h);
      }
    case Close(h') =>
      var i := Find(m.subs, h');
      if i.Some? {
        assert Inv(m, h');
        UnsubscribeKeeps(m, i.value, h);
      }
    case Framework(e) =>
      ReceiveKeeps(m, e, h);
    case ModemRestart =>
      ReadDropped(m.log, m.subs, h);
  }

  lemma {:induction false} RunKeeps(agpsType: int, ops: seq<Op>, h: int)
    ensures Inv(Run(agpsType, ops), h)
    decreases |ops|
  {
    if ops != [] {
      var before := ops[..|ops| - 1];
      forall h' ensures Inv(Run(agpsType, before), h') {
        RunKeeps(agpsType, before, h');
      }
      StepKeeps(Run(agpsType, before), ops[|ops| - 1], h);
    }
  }

  // ---------------------------------------------------------------------------------------------
  // The results, for every run
  // ---------------------------------------------------------------------------------------------

  /** How often an entry occurs in a history. */
  function HowOften(log: History, e: Entry): (n: nat) {
    match log
    case Start => 0
    case Then(before, last) => HowOften(before, e) + if last == e then 1 else 0
  }

  lemma {:induction false} OwedIsDifference(log: History, h: int)
    ensures Read(log, h).owed ==
            HowOften(log, Admitted(h)) - HowOften(log, CloseStatus(h)) - HowOften(log, OpenStatus(h, false))
            - HowOften(log, Dropped(h))
  {
    if log.Then? {
      OwedIsDifference(log.before, h);
    }
  }

  /**
   * Every admission of a handle is answered by exactly one close or denial, lost to a modem restart, or
   * still listed; and no handle is listed twice.
   */
  lemma {:induction false} Conservation(agpsType: int, ops: seq<Op>, h: int)
    ensures var m := Run(agpsType, ops);
            && HowOften(m.log, Admitted(h)) == HowOften(m.log, CloseStatus(h)) + HowOften(m.log, OpenStatus(h, false))
                                               + HowOften(m.log, Dropped(h)) + Count(m.subs, h)
            && Count(m.subs, h) <= 1
  {
    var m := Run(agpsType, ops);
    RunKeeps(agpsType, ops, h);
    LookBounds(m.subs, h);
    OwedIsDifference(m.log, h);
  }

  /**
   * The framework is asked for a connection only while none is outstanding and releases only an
   * outstanding one, in the whole run; one is outstanding exactly in the states Pending and Acquired.
   */
  lemma {:induction false} FrameworkContract(agpsType: int, ops: seq<Op>)
    ensures var m := Run(agpsType, ops);
            && Read(m.log, 0).conn == Some(ConnOf(m.state))
            && (m.state == Released ==> m.subs == [])
  {
    RunKeeps(agpsType, ops, 0);
    LookBounds(Run(agpsType, ops).subs, 0);
  }

  /**
   * A listed active subscriber has been told that its connection is open exactly while it is, and a
   * handle that is not listed is never left believing so.
   */
  lemma {:induction false} ToldExactlyWhileOpen(agpsType: int, ops: seq<Op>, h: int)
    ensures var m := Run(agpsType, ops);
            && (forall s :: s in m.subs && s.handle == h && !s.inactive ==> (Read(m.log, h).told <==> m.state == Acquired))
            && (Count(m.subs, h) == 0 ==> !Read(m.log, h).told)
  {
    var m := Run(agpsType, ops);
    RunKeeps(agpsType, ops, h);
    LookBounds(m.subs, h);
    forall s | s in m.subs && s.handle == h && !s.inactive
      ensures Read(m.log, h).told <==> m.state == Acquired
    {
      var i :| 0 <= i < |m.subs| && m.subs[i] == s;
      LookAt(m.subs, i);
    }
  }

  /** Without a modem restart that drops somebody, every busy state is busy for somebody. */
  lemma {:induction false} BusyForSomebody(agpsType: int, ops: seq<Op>)
    ensures var m := Run(agpsType, ops);
            Read(m.log, 0).noDrops ==>
              (m.state == Pending || m.state == Acquired ==> AnyActive(m.subs)) &&
              (m.state == Releasing ==> AnyInactive(m.subs))
  {
    RunKeeps(agpsType, ops, 0);
    LookAny(Run(agpsType, ops).subs, 0);
  }

  lemma {:induction false} SubsetsOf(subs: seq<Subscriber>, h: int, to: Audience)
    ensures forall s :: s in Without(subs, h) ==> s in subs
    ensures forall s :: s in Outside(subs, to) ==> s in subs
  {
    if subs != [] {
      SubsetsOf(subs[..|subs| - 1], h, to);
    }
  }

  /** A request that does not wait for the close, as every request of the manager. */
  predicate Impatient(op: Op) {
    op.Open? ==> !op.waitForClose
  }

  /** Driven by the manager the machine is never in Releasing, and nobody is ever inactive. */
  lemma {:induction false} ManagerNeverReleasing(agpsType: int, ops: seq<Op>)
    requires forall k :: 0 <= k < |ops| ==> Impatient(ops[k])
    ensures var m := Run(agpsType, ops);
            m.state != Releasing && forall s :: s in m.subs ==> !s.inactive && !s.waitForClose
  {
    if ops != [] {
      var before, op := ops[..|ops| - 1], ops[|ops| - 1];
      ManagerNeverReleasing(agpsType, before);
      assert Impatient(op);
      var m := Run(agpsType, before);
      if op.Close? && Find(m.subs, op.handle).Some? {
        var n := Retire(m, Find(m.subs, op.handle).value);
        SubsetsOf(m.subs, op.handle, All);
        assert n.subs != [] ==> !n.subs[0].inactive;
      } else if op.Framework? {
        SubsetsOf(m.subs, 0, All);
      }
    }
  }
}

/** What each event achieves in the AGPS state machine: the list, the state and the exact callbacks and requests. */
module AgpsEffects {
  import opened Wrappers
  import opened Agps
  import opened AgpsSafety
  import AgpsMachine

  // ---------------------------------------------------------------------------------------------
  // Lists without doubles
  // ---------------------------------------------------------------------------------------------

  predicate Listed(subs: seq<Subscriber>, h: int) {
    exists k :: 0 <= k < |subs| && subs[k].handle == h
  }

  predicate ListedActive(subs: seq<Subscriber>, h: int) {
    exists k :: 0 <= k < |subs| && subs[k].handle == h && !subs[k].inactive
  }

  predicate ListedInactive(subs: seq<Subscriber>, h: int) {
    exists k :: 0 <= k < |subs| && subs[k].handle == h && subs[k].inactive
  }

  predicate Distinct(subs: seq<Subscriber>) {
    forall i, j :: 0 <= i < j < |subs| ==> subs[i].handle != subs[j].handle
  }

  lemma {:induction false} CountTwo(subs: seq<Subscriber>, i: nat, j: nat)
    requires i < j < |subs| && subs[i].handle == subs[j].handle
    ensures Count(subs, subs[i].handle) >= 2
  {
    var front := subs[..|subs| - 1];
    if j < |front| {
      CountTwo(front, i, j);
    } else {
      AgpsMachine.CountZero(front, subs[i].handle);
      assert front[i].handle == subs[i].handle;
    }
  }

  /** In every run no handle is listed twice. */
  lemma {:induction false} RunDistinct(agpsType: int, ops: seq<Op>)
    ensures Distinct(Run(agpsType, ops).subs)
  {
    var subs := Run(agpsType, ops).subs;
    forall i, j | 0 <= i < j < |subs| ensures subs[i].handle != subs[j].handle {
      Conservation(agpsType, ops, subs[i].handle);
      if subs[i].handle == subs[j].handle {
        CountTwo(subs, i, j);
      }
    }
  }

  lemma {:induction false} WithoutNone(subs: seq<Subscriber>, h: int)
    requires !Listed(subs, h)
    ensures Without(subs, h) == subs
  {
    if subs != [] {
      var front := subs[..|subs| - 1];
      assert forall k :: 0 <= k < |front| ==> front[k] == subs[k];
      WithoutNone(front, h);
    }
  }

  lemma {:induction false} WithoutOne(subs: seq<Subscriber>, i: nat)
    requires i < |subs| && Distinct(subs)
    ensures Without(subs, subs[i].handle) == subs[..i] + subs[i + 1..]
  {
    var n := |subs| - 1;
    var front := subs[..n];
    if i == n {
      assert !Listed(front, subs[i].handle);
      WithoutNone(front, subs[i].handle);
    } else {
      WithoutOne(front, i);
      assert subs[..i] + subs[i + 1..] == front[..i] + front[i + 1..] + [subs[n]];
    }
  }

  lemma FindOne(subs: seq<Subscriber>, i: nat)
    requires i < |subs| && Distinct(subs)
    ensures Find(subs, subs[i].handle) == Some(i)
  {
    AgpsMachine.FindFirst(subs, i);
  }

  // ---------------------------------------------------------------------------------------------
  // A subscriber comes
  // ---------------------------------------------------------------------------------------------

  /** What follows an entry that is made or not. */
  function If(made: bool, log: History, e: Entry): History {
    if made then Then(log, e) else log
  }

  /**
   * A handle that asks for a connection is listed, at the end unless it was listed before, and the machine
   * takes its type and mask. In Released the connection is asked for with them; in Acquired the handle is
   * told at once.
   */
  lemma OpenLists(m: Machine, h: int, wait: bool, t: int, mask: ApnTypeMask)
    ensures var n := Step(m, Open(h, wait, t, mask));
            && n.subs == (if Listed(m.subs, h) then m.subs else m.subs + [Subscriber(h, wait, false)])
            && n.agpsType == t && n.apnTypeMask == mask
            && n.state == (if m.state == Released then Pending else m.state)
  {
    AgpsMachine.CountZero(m.subs, h);
  }

  lemma OpenTells(m: Machine, h: int, wait: bool, t: int, mask: ApnTypeMask)
    ensures var told := If(m.state == Acquired, m.log, OpenStatus(h, true));
            var listed := If(!Listed(m.subs, h), told, Admitted(h));
            Step(m, Open(h, wait, t, mask)).log == If(m.state == Released, listed, RequestConn(t, mask))
  {
    AgpsMachine.CountZero(m.subs, h);
  }

  // ---------------------------------------------------------------------------------------------
  // A subscriber goes
  // ---------------------------------------------------------------------------------------------

  /** A close of a handle that is not listed changes nothing. */
  lemma CloseOfStranger(m: Machine, h: int)
    requires !Listed(m.subs, h)
    ensures Step(m, Close(h)) == m
  {
    AgpsMachine.CountZero(m.subs, h);
  }

  /** Nobody but the subscriber at one place is active. */
  predicate LastActive(subs: seq<Subscriber>, i: nat) {
    forall k :: 0 <= k < |subs| && k != i ==> subs[k].inactive
  }

  lemma AnyActiveAfterMark(subs: seq<Subscriber>, i: nat, s: Subscriber)
    requires i < |subs| && s.inactive
    ensures AnyActive(subs[i := s]) <==> !LastActive(subs, i)
  {
    var after := subs[i := s];
    if !LastActive(subs, i) {
      var k :| 0 <= k < |subs| && k != i && !subs[k].inactive;
      assert after[k] == subs[k];
    }
    if AnyActive(after) {
      var k :| 0 <= k < |after| && !after[k].inactive;
      assert k != i && after[k] == subs[k];
    }
  }

  lemma AnyActiveAfterRemoval(subs: seq<Subscriber>, i: nat)
    requires i < |subs|
    ensures AnyActive(subs[..i] + subs[i + 1..]) <==> !LastActive(subs, i)
  {
    var after := subs[..i] + subs[i + 1..];
    if !LastActive(subs, i) {
      var k :| 0 <= k < |subs| && k != i && !subs[k].inactive;
      assert after[if k < i then k else k - 1] == subs[k];
    }
    if AnyActive(after) {
      var k :| 0 <= k < |after| && !after[k].inactive;
      assert after[k] == subs[if k < i then k else k + 1];
    }
  }

  /** The list after a close: without the subscriber, or with it waiting. */
  function AfterClose(subs: seq<Subscriber>, i: nat): seq<Subscriber>
    requires i < |subs|
  {
    if subs[i].waitForClose then subs[i := Subscriber(subs[i].handle, true, true)] else subs[..i] + subs[i + 1..]
  }

  lemma RetireOne(m: Machine, i: nat)
    requires i < |m.subs| && Distinct(m.subs)
    ensures var n, s := Retire(m, i), m.subs[i];
            && n.subs == AfterClose(m.subs, i) && n.log == If(!s.waitForClose, m.log, CloseStatus(s.handle))
            && n.state == m.state && n.agpsType == m.agpsType && n.apnTypeMask == m.apnTypeMask
            && (AnyActive(n.subs) <==> !LastActive(m.subs, i))
  {
    if m.subs[i].waitForClose {
      AnyActiveAfterMark(m.subs, i, Subscriber(m.subs[i].handle, true, true));
    } else {
      WithoutOne(m.subs, i);
      AnyActiveAfterRemoval(m.subs, i);
    }
  }

  /** A connection that was asked for or acquired is released when no active one is left. */
  predicate Releases(m: Machine, i: nat) {
    (m.state == Pending || m.state == Acquired) && LastActive(m.subs, i)
  }

  lemma StateFollows(m: Machine, i: nat)
    requires i < |m.subs| && Distinct(m.subs) && m.state != Released
    ensures var n, s := Unsubscribe(m, i), m.subs[i];
            && n.subs == AfterClose(m.subs, i)
            && n.log == If(Releases(m, i), If(!s.waitForClose, m.log, CloseStatus(s.handle)),
                           ReleaseConn(m.agpsType, m.apnTypeMask))
            && n.state == (if n.subs == [] then Released else if Releases(m, i) then Releasing else m.state)
            && n.agpsType == m.agpsType && n.apnTypeMask == m.apnTypeMask
  {
    RetireOne(m, i);
    var n := Retire(m, i);
    assert AnyActive(n.subs) ==> n.subs != [];
    assert n.subs == [] ==> LastActive(m.subs, i);
  }

  /**
   * In every run, a close of a listed handle: one that does not wait is told and leaves the list, one that
   * waits stays, inactive; the others keep their places. When no active one is left, a connection that was
   * asked for or acquired is released, exactly once, with the machine's type and mask.
   */
  lemma {:induction false} CloseAchieves(agpsType: int, ops: seq<Op>, i: nat)
    requires i < |Run(agpsType, ops).subs|
    ensures var m, s := Run(agpsType, ops), Run(agpsType, ops).subs[i];
            var n, told := Step(m, Close(s.handle)), If(!s.waitForClose, m.log, CloseStatus(s.handle));
            var release := (m.state == Pending || m.state == Acquired) && LastActive(m.subs, i);
            && n.subs == (if s.waitForClose then m.subs[i := Subscriber(s.handle, true, true)]
                          else m.subs[..i] + m.subs[i + 1..])
            && n.log == If(release, told, ReleaseConn(m.agpsType, m.apnTypeMask))
            && n.state == (if n.subs == [] then Released else if release then Releasing else m.state)
            && n.agpsType == m.agpsType && n.apnTypeMask == m.apnTypeMask
  {
    var m := Run(agpsType, ops);
    RunDistinct(agpsType, ops);
    FrameworkContract(agpsType, ops);
    FindOne(m.subs, i);
    StateFollows(m, i);
  }

  // ---------------------------------------------------------------------------------------------
  // The framework answers
  // ---------------------------------------------------------------------------------------------

  /** Events that no request is waiting for change nothing. */
  lemma UnexpectedEvent(m: Machine, e: FrameworkEvent)
    requires e == Granted ==> m.state != Pending
    requires e == Closed ==> m.state != Acquired && m.state != Releasing
    requires e == Denied ==> m.state != Pending && m.state != Releasing
    ensures Step(m, Framework(e)) == Machine(m.state, m.subs, m.agpsType, m.apnTypeMask, Then(m.log, In(e)))
  {
  }

  /** How often an audience includes a handle. */
  function Times(subs: seq<Subscriber>, to: Audience, h: int): nat {
    if subs == [] then 0
    else
      var s := subs[|subs| - 1];
      Times(subs[..|subs| - 1], to, h) + if s.handle == h && to.Includes(s) then 1 else 0
  }

  predicate Reaches(subs: seq<Subscriber>, to: Audience, h: int) {
    exists k :: 0 <= k < |subs| && subs[k].handle == h && to.Includes(subs[k])
  }

  lemma {:induction false} TimesOnce(subs: seq<Subscriber>, to: Audience, h: int)
    requires Distinct(subs)
    ensures Times(subs, to, h) == if Reaches(subs, to, h) then 1 else 0
  {
    if subs != [] {
      var n := |subs| - 1;
      var front := subs[..n];
      TimesOnce(front, to, h);
      assert forall k :: 0 <= k < n ==> front[k] == subs[k];
      if subs[n].handle == h {
        assert !Reaches(front, to, h);
        assert to.Includes(subs[n]) ==> Reaches(subs, to, h);
      }
      if Reaches(subs, to, h) {
        var k :| 0 <= k < |subs| && subs[k].handle == h && to.Includes(subs[k]);
        assert k < n ==> Reaches(front, to, h);
      }
    }
  }

  /** Everybody in the audience is told, and nothing else is noted. */
  lemma {:induction false} NotifiedOften(log: History, subs: seq<Subscriber>, e: FrameworkEvent, to: Audience, x: Entry)
    ensures HowOften(Notified(log, subs, e, to), x) ==
            HowOften(log, x) + match e
              case Granted => (if x.OpenStatus? && x.success then Times(subs, to, x.handle) else 0)
              case Denied => (if x.OpenStatus? && !x.success then Times(subs, to, x.handle) else 0)
              case Closed => (if x.CloseStatus? then Times(subs, to, x.handle) else 0)
  {
    if subs != [] {
      NotifiedOften(log, subs[..|subs| - 1], e, to, x);
    }
  }

  function One(b: bool): int {
    if b then 1 else 0
  }

  /** A granted connection: every active subscriber is told once, the waiting ones are not. */
  lemma {:induction false} GrantAchieves(agpsType: int, ops: seq<Op>, x: Entry)
    requires Run(agpsType, ops).state == Pending
    ensures var m, n := Run(agpsType, ops), Step(Run(agpsType, ops), Framework(Granted));
            && n.state == Acquired && n.subs == m.subs && n.agpsType == m.agpsType && n.apnTypeMask == m.apnTypeMask
            && HowOften(n.log, x) == HowOften(m.log, x) + One(x == In(Granted))
                                     + One(x.OpenStatus? && x.success && ListedActive(m.subs, x.handle))
  {
    var m := Run(agpsType, ops);
    RunDistinct(agpsType, ops);
    NotifiedOften(Then(m.log, In(Granted)), m.subs, Granted, ActiveOnly, x);
    if x.OpenStatus? {
      TimesOnce(m.subs, ActiveOnly, x.handle);
    }
  }

  lemma {:induction false} OutsideAll(subs: seq<Subscriber>)
    ensures Outside(subs, All) == []
  {
    if subs != [] {
      OutsideAll(subs[..|subs| - 1]);
    }
  }

  /** A connection that is lost: everybody is told once, and nobody remains. */
  lemma {:induction false} LossAchieves(agpsType: int, ops: seq<Op>, x: Entry)
    requires Run(agpsType, ops).state == Acquired
    ensures var m, n := Run(agpsType, ops), Step(Run(agpsType, ops), Framework(Closed));
            && n.state == Released && n.subs == [] && n.agpsType == m.agpsType && n.apnTypeMask == m.apnTypeMask
            && HowOften(n.log, x) == HowOften(m.log, x) + One(x == In(Closed))
                                     + One(x.CloseStatus? && Listed(m.subs, x.handle))
  {
    var m := Run(agpsType, ops);
    RunDistinct(agpsType, ops);
    OutsideAll(m.subs);
    NotifiedOften(Then(m.log, In(Closed)), m.subs, Closed, All, x);
    if x.CloseStatus? {
      TimesOnce(m.subs, All, x.handle);
    }
  }

  /** A connection that is denied: everybody is told once, and nobody remains. */
  lemma {:induction false} DenialAchieves(agpsType: int, ops: seq<Op>, x: Entry)
    requires Run(agpsType, ops).state == Pending
    ensures var m, n := Run(agpsType, ops), Step(Run(agpsType, ops), Framework(Denied));
            && n.state == Released && n.subs == [] && n.agpsType == m.agpsType && n.apnTypeMask == m.apnTypeMask
            && HowOften(n.log, x) == HowOften(m.log, x) + One(x == In(Denied))
                                     + One(x.OpenStatus? && !x.success && Listed(m.subs, x.handle))
  {
    var m := Run(agpsType, ops);
    RunDistinct(agpsType, ops);
    OutsideAll(m.subs);
    NotifiedOften(Then(m.log, In(Denied)), m.subs, Denied, All, x);
    if x.OpenStatus? {
      TimesOnce(m.subs, All, x.handle);
    }
  }

  /** The active subscribers, in order. */
  function ActiveOnes(subs: seq<Subscriber>): seq<Subscriber> {
    if subs == [] then []
    else if subs[|subs| - 1].inactive then ActiveOnes(subs[..|subs| - 1])
    else ActiveOnes(subs[..|subs| - 1]) + [subs[|subs| - 1]]
  }

  lemma {:induction false} OutsideInactive(subs: seq<Subscriber>)
    ensures Outside(subs, InactiveOnly) == ActiveOnes(subs)
    ensures ActiveOnes(subs) == [] <==> !AnyActive(subs)
    ensures AnyActive(ActiveOnes(subs)) <==> AnyActive(subs)
  {
    if subs != [] {
      var n := |subs| - 1;
      var front := subs[..n];
      OutsideInactive(front);
      assert forall k :: 0 <= k < n ==> front[k] == subs[k];
      if !subs[n].inactive {
        assert ActiveOnes(subs)[|ActiveOnes(front)|] == subs[n];
        assert AnyActive(subs);
      }
    }
  }

  /**
   * The end of a connection that is being released, or its denial: those who waited are told once and
   * leave; the active ones remain in their order, and if there are any a connection is asked for again.
   */
  lemma {:induction false} NextAreServed(agpsType: int, ops: seq<Op>, e: FrameworkEvent, x: Entry)
    requires Run(agpsType, ops).state == Releasing && e != Granted
    ensures var m, n := Run(agpsType, ops), Step(Run(agpsType, ops), Framework(e));
            && n.subs == ActiveOnes(m.subs) && n.agpsType == m.agpsType && n.apnTypeMask == m.apnTypeMask
            && n.state == (if |n.subs| > 0 then Pending else Released)
            && HowOften(n.log, x) == HowOften(m.log, x) + One(x == In(e))
                                     + One(x.CloseStatus? && ListedInactive(m.subs, x.handle))
                                     + One(|n.subs| > 0 && x == RequestConn(m.agpsType, m.apnTypeMask))
  {
    var m := Run(agpsType, ops);
    RunDistinct(agpsType, ops);
    OutsideInactive(m.subs);
    NotifiedOften(Then(m.log, In(e)), m.subs, Closed, InactiveOnly, x);
    if x.CloseStatus? {
      TimesOnce(m.subs, InactiveOnly, x.handle);
    }
  }

  // ---------------------------------------------------------------------------------------------
  // The modem restarts
  // ---------------------------------------------------------------------------------------------

  lemma {:induction false} DroppedOften(log: History, subs: seq<Subscriber>, x: Entry)
    ensures HowOften(AllDropped(log, subs), x)
         == HowOften(log, x) + if x.Dropped? then Times(subs, All, x.handle) else 0
  {
    if subs != [] {
      DroppedOften(log, subs[..|subs| - 1], x);
    }
  }

  /** Everybody leaves the list, nobody is told, and the state stays as it is. */
  lemma {:induction false} RestartForgets(agpsType: int, ops: seq<Op>, x: Entry)
    ensures var m, n := Run(agpsType, ops), Step(Run(agpsType, ops), ModemRestart);
            && n.subs == [] && n.state == m.state && n.agpsType == m.agpsType && n.apnTypeMask == m.apnTypeMask
            && HowOften(n.log, x) == HowOften(m.log, x) + One(x.Dropped? && Listed(m.subs, x.handle))
  {
    var m := Run(agpsType, ops);
    RunDistinct(agpsType, ops);
    DroppedOften(m.log, m.subs, x);
    if x.Dropped? {
      TimesOnce(m.subs, All, x.handle);
    }
  }
}

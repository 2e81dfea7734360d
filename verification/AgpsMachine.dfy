/** The state machine and its manager as objects that change in place. */
module AgpsMachine {
  import opened Wrappers
  import opened Agps

  const LOC_AGPS_TYPE_INVALID := -1
  const LOC_AGPS_TYPE_SUPL := 1
  const LOC_AGPS_TYPE_WWAN_ANY := 3
  const LOC_AGPS_TYPE_SUPL_ES := 5
  const LOC_APN_TYPE_MASK_SUPL: ApnTypeMask := 0x00000010
  const LOC_APN_TYPE_MASK_EMERGENCY: ApnTypeMask := 0x00000200

  /** What a notification leaves of the list. */
  function Kept(subs: seq<Subscriber>, deletePostNotify: bool, to: Audience): seq<Subscriber> {
    if deletePostNotify then Outside(subs, to) else subs
  }

  lemma NotifyStep(done: seq<Subscriber>, s: Subscriber, log: History, e: FrameworkEvent, del: bool, to: Audience)
    ensures Kept(done + [s], del, to) == Kept(done, del, to) + if del && to.Includes(s) then [] else [s]
    ensures Notified(log, done + [s], e, to) ==
            var log0 := Notified(log, done, e, to);
            if to.Includes(s) then Then(log0, Callback(e, s.handle)) else log0
  {
    assert (done + [s])[..|done|] == done;
  }

  lemma WithoutStep(done: seq<Subscriber>, s: Subscriber, h: int)
    ensures Without(done + [s], h) == Without(done, h) + if s.handle == h then [] else [s]
  {
    assert (done + [s])[..|done|] == done;
  }

  lemma DropStep(done: seq<Subscriber>, s: Subscriber, log: History)
    ensures AllDropped(log, done + [s]) == Then(AllDropped(log, done), Dropped(s.handle))
  {
    assert (done + [s])[..|done|] == done;
  }

  lemma {:induction false} CountZero(subs: seq<Subscriber>, h: int)
    ensures Count(subs, h) == 0 <==> forall k :: 0 <= k < |subs| ==> subs[k].handle != h
  {
    if subs != [] {
      var front := subs[..|subs| - 1];
      CountZero(front, h);
      assert forall k :: 0 <= k < |front| ==> front[k] == subs[k];
    }
  }

  lemma {:induction false} FindFirst(subs: seq<Subscriber>, k: nat)
    requires k < |subs| && forall i :: 0 <= i < k ==> subs[i].handle != subs[k].handle
    ensures Find(subs, subs[k].handle) == Some(k)
  {
    var front := subs[..|subs| - 1];
    if k < |front| {
      FindFirst(front, k);
    } else {
      CountZero(front, subs[k].handle);
    }
  }

  class AgpsStateMachine {
    var subscribers: seq<Subscriber>
    var state: State
    var agpsType: int
    var apnTypeMask: ApnTypeMask
    ghost var log: History

    ghost function Abs(): Machine
      reads this
    {
      Machine(state, subscribers, agpsType, apnTypeMask, log)
    }

    constructor (agpsType: int)
      ensures Abs() == Init(agpsType)
    {
      subscribers, state := [], Released;
      this.agpsType, apnTypeMask := agpsType, 0;
      log := Start;
    }

    method AddSubscriber(s: Subscriber)
      modifies this
      ensures Abs() == Add(old(Abs()), s)
    {
      CountZero(subscribers, s.handle);
      var it := 0;
      while it < |subscribers|
        invariant 0 <= it <= |subscribers| && Abs() == old(Abs())
        invariant forall k :: 0 <= k < it ==> subscribers[k].handle != s.handle
      {
        if subscribers[it].handle == s.handle {
          return;
        }
        it := it + 1;
      }
      subscribers := subscribers + [s];
      log := Then(log, Admitted(s.handle));
    }

    /** One step of an iterator standing on the first of `rest`: past it, or erasing it. */
    method Advance(it: nat, erase: bool, ghost front: seq<Subscriber>, ghost rest: seq<Subscriber>) returns (next: nat)
      requires subscribers == front + rest && rest != [] && it == |front|
      modifies this`subscribers
      ensures next == if erase then it else it + 1
      ensures subscribers == (front + if erase then [] else [rest[0]]) + rest[1..]
    {
      next := it;
      if erase {
        subscribers := subscribers[..it] + subscribers[it + 1..];
      } else {
        next := it + 1;
      }
    }

    /** Those passed are rid of the handle; the rest is untouched. */
    ghost predicate Rid(it: int, done: seq<Subscriber>, rest: seq<Subscriber>, h: int)
      reads this`subscribers
    {
      subscribers == Without(done, h) + rest && it == |Without(done, h)|
    }

    method DeleteOne(it: nat, ghost done: seq<Subscriber>, ghost rest: seq<Subscriber>, h: int) returns (next: nat)
      requires rest != [] && Rid(it, done, rest, h)
      modifies this`subscribers
      ensures Rid(next, done + [rest[0]], rest[1..], h)
    {
      WithoutStep(done, rest[0], h);
      next := Advance(it, subscribers[it].handle == h, Without(done, h), rest);
    }

    method DeleteSubscriber(h: int)
      modifies this`subscribers
      ensures Abs() == old(Abs()).With(Without(old(subscribers), h))
    {
      var it := 0;
      ghost var done, rest := [], subscribers;
      while it < |subscribers|
        invariant done + rest == old(subscribers) && 0 <= it
        invariant Rid(it, done, rest, h)
        decreases |rest|
      {
        it := DeleteOne(it, done, rest, h);
        done, rest := done + [rest[0]], rest[1..];
      }
      assert rest == [] && done + rest == done;
    }

    method AnyActiveSubscribers() returns (any: bool)
      ensures any <==> AnyActive(subscribers)
    {
      var it := 0;
      while it < |subscribers|
        invariant 0 <= it <= |subscribers|
        invariant forall k :: 0 <= k < it ==> subscribers[k].inactive
      {
        if !subscribers[it].inactive {
          return true;
        }
        it := it + 1;
      }
      return false;
    }

    method GetSubscriber(h: int) returns (r: Option<nat>)
      ensures r == Find(subscribers, h)
    {
      CountZero(subscribers, h);
      var it := 0;
      while it < |subscribers|
        invariant 0 <= it <= |subscribers|
        invariant forall k :: 0 <= k < it ==> subscribers[k].handle != h
      {
        if subscribers[it].handle == h {
          FindFirst(subscribers, it);
          return Some(it);
        }
        it := it + 1;
      }
      return None;
    }

    /** Those passed are told, and kept or not; the rest is untouched. */
    ghost predicate Passed(it: int, log0: History, done: seq<Subscriber>, rest: seq<Subscriber>,
                           event: FrameworkEvent, deletePostNotify: bool, to: Audience)
      reads this`subscribers, this`log
    {
      && subscribers == Kept(done, deletePostNotify, to) + rest && it == |Kept(done, deletePostNotify, to)|
      && log == Notified(log0, done, event, to)
    }

    /** Tell one subscriber if it is addressed, and go on to the next. */
    method NotifyOne(it: nat, ghost log0: History, ghost done: seq<Subscriber>, ghost rest: seq<Subscriber>,
                     event: FrameworkEvent, deletePostNotify: bool, to: Audience)
      returns (next: nat)
      requires rest != [] && Passed(it, log0, done, rest, event, deletePostNotify, to)
      modifies this`subscribers, this`log
      ensures Passed(next, log0, done + [rest[0]], rest[1..], event, deletePostNotify, to)
    {
      var subscriber := subscribers[it];
      NotifyStep(done, subscriber, log0, event, deletePostNotify, to);
      if to.Includes(subscriber) {
        log := Then(log, Callback(event, subscriber.handle));
      }
      next := Advance(it, to.Includes(subscriber) && deletePostNotify, Kept(done, deletePostNotify, to), rest);
    }

    method NotifyAllSubscribers(event: FrameworkEvent, deletePostNotify: bool, to: Audience)
      modifies this`subscribers, this`log
      ensures log == Notified(old(log), old(subscribers), event, to)
      ensures subscribers == if deletePostNotify then Outside(old(subscribers), to) else old(subscribers)
    {
      var it := 0;
      ghost var done, rest := [], subscribers;
      while it < |subscribers|
        invariant done + rest == old(subscribers) && 0 <= it
        invariant Passed(it, old(log), done, rest, event, deletePostNotify, to)
        decreases |rest|
      {
        it := NotifyOne(it, old(log), done, rest, event, deletePostNotify, to);
        done, rest := done + [rest[0]], rest[1..];
      }
      assert rest == [] && done + rest == done;
    }

    method RequestOrReleaseDataConn(request: bool)
      modifies this`log
      ensures Abs() == if request then Ask(old(Abs())) else LetGo(old(Abs()))
    {
      log := Then(log, if request then RequestConn(agpsType, apnTypeMask) else ReleaseConn(agpsType, apnTypeMask));
    }

    method ProcessSubscribe(current: Subscriber)
      modifies this
      ensures Abs() == Subscribe(old(Abs()), current)
    {
      match state {
        case Released =>
          AddSubscriber(current);
          RequestOrReleaseDataConn(true);
          state := Pending;
        case Pending =>
          AddSubscriber(current);
        case Acquired =>
          log := Then(log, OpenStatus(current.handle, true));
          AddSubscriber(current);
        case Releasing =>
          AddSubscriber(current);
      }
    }

    /** The body shared by three states: mark the subscriber, or tell and remove it. */
    method RetireSubscriber(current: nat)
      requires current < |subscribers|
      modifies this
      ensures Abs() == Retire(old(Abs()), current)
    {
      var s := subscribers[current];
      if s.waitForClose {
        subscribers := subscribers[current := s.(inactive := true)];
      } else {
        log := Then(log, CloseStatus(s.handle));
        DeleteSubscriber(s.handle);
      }
    }

    method ProcessUnsubscribe(current: nat)
      requires current < |subscribers|
      modifies this
      ensures Abs() == Unsubscribe(old(Abs()), current)
    {
      match state {
        case Released =>
          log := Then(log, CloseStatus(subscribers[current].handle));
        case Releasing =>
          RetireSubscriber(current);
          if subscribers == [] {
            state := Released;
          }
        case _ =>
          RetireSubscriber(current);
          var anyActive := AnyActiveSubscribers();
          if subscribers == [] {
            state := Released;
            RequestOrReleaseDataConn(false);
          } else if !anyActive {
            state := Releasing;
            RequestOrReleaseDataConn(false);
          }
      }
    }

    /** The reaction of Releasing to both a close and a denial. */
    method ServeNext()
      modifies this
      ensures Abs() == Reopen(old(Abs()))
    {
      NotifyAllSubscribers(Closed, true, InactiveOnly);
      var anyActive := AnyActiveSubscribers();
      if anyActive {
        state := Pending;
        RequestOrReleaseDataConn(true);
      } else {
        state := Released;
      }
    }

    method ProcessFrameworkEvent(event: FrameworkEvent)
      modifies this
      ensures Abs() == Receive(old(Abs()), event)
    {
      log := Then(log, In(event));
      match event {
        case Granted =>
          if state == Pending {
            state := Acquired;
            NotifyAllSubscribers(Granted, false, ActiveOnly);
          }
        case Closed =>
          if state == Acquired {
            state := Released;
            NotifyAllSubscribers(Closed, true, All);
          } else if state == Releasing {
            ServeNext();
          }
        case Denied =>
          if state == Releasing {
            ServeNext();
          } else if state == Pending {
            state := Released;
            NotifyAllSubscribers(Denied, true, All);
          }
      }
    }

    method DropAllSubscribers()
      modifies this
      ensures Abs() == DropAll(old(Abs()))
    {
      ghost var done := [];
      while subscribers != []
        invariant done + subscribers == old(subscribers) && log == AllDropped(old(log), done)
        invariant state == old(state) && agpsType == old(agpsType) && apnTypeMask == old(apnTypeMask)
        decreases |subscribers|
      {
        DropStep(done, subscribers[0], old(log));
        log := Then(log, Dropped(subscribers[0].handle));
        done := done + [subscribers[0]];
        subscribers := subscribers[1..];
      }
      assert done + subscribers == done;
    }
  }

  /** The mask of an emergency request that is made an ordinary one. */
  function Demoted(mask: ApnTypeMask): ApnTypeMask {
    (mask & !LOC_APN_TYPE_MASK_EMERGENCY) | LOC_APN_TYPE_MASK_SUPL
  }

  /** The bit EMERGENCY is gone, the bit SUPL is there, and no other bit has changed. */
  lemma DemotedBits(mask: ApnTypeMask)
    ensures Demoted(mask) & 0x200 == 0
    ensures Demoted(mask) & 0x10 == 0x10
    ensures Demoted(mask) & !0x210 == mask & !0x210
  {
  }

  class AgpsManager {
    const useEmergencyPdn: bool
    var agnssNif: AgpsStateMachine?
    var internetNif: AgpsStateMachine?
    ghost var refused: seq<int>

    ghost predicate Valid()
      reads this
    {
      agnssNif != null ==> agnssNif != internetNif
    }

    constructor (useEmergencyPdn: bool, agnss: AgpsStateMachine?, internet: AgpsStateMachine?)
      requires agnss != null ==> agnss != internet
      ensures Valid() && this.useEmergencyPdn == useEmergencyPdn && agnssNif == agnss && internetNif == internet && refused == []
    {
      this.useEmergencyPdn := useEmergencyPdn;
      agnssNif, internetNif, refused := agnss, internet, [];
    }

    function GetStateMachine(agpsType: int): (sm: AgpsStateMachine?)
      reads this
    {
      if agpsType in {LOC_AGPS_TYPE_INVALID, LOC_AGPS_TYPE_SUPL, LOC_AGPS_TYPE_SUPL_ES} then agnssNif
      else internetNif
    }

    /** A request goes to one machine, as a subscriber that does not wait, or is refused. */
    method RequestATL(connHandle: int, agpsType: int, apnTypeMask: ApnTypeMask)
      requires Valid()
      modifies this`refused, agnssNif, internetNif
      ensures var demoted := !useEmergencyPdn && agpsType == 5;
              var t, mask := if demoted then 1 else agpsType, if demoted then Demoted(apnTypeMask) else apnTypeMask;
              var sm := if t == -1 || t == 1 || t == 5 then agnssNif else internetNif;
              && (forall other :: (other == agnssNif || other == internetNif) && other != null ==>
                    other.Abs() == if other == sm then Step(old(other.Abs()), Open(connHandle, false, t, mask)) else old(other.Abs()))
              && refused == if sm == null then old(refused) + [connHandle] else old(refused)
    {
      var t, mask := agpsType, apnTypeMask;
      if !useEmergencyPdn && agpsType == LOC_AGPS_TYPE_SUPL_ES {
        t, mask := LOC_AGPS_TYPE_SUPL, Demoted(apnTypeMask);
      }
      var sm := GetStateMachine(t);
      if sm == null {
        refused := refused + [connHandle];
        return;
      }
      sm.agpsType := t;
      sm.apnTypeMask := mask;
      sm.ProcessSubscribe(Subscriber(connHandle, false, false));
    }

    /** A release goes to the first machine that lists the handle, and to no other. */
    method ReleaseATL(connHandle: int)
      requires Valid()
      modifies agnssNif, internetNif
      ensures var first := agnssNif != null && Count(old(agnssNif.subscribers), connHandle) > 0;
              && (agnssNif != null ==> agnssNif.Abs() == Step(old(agnssNif.Abs()), Close(connHandle)))
              && (internetNif != null ==>
                    internetNif.Abs() == if first then old(internetNif.Abs()) else Step(old(internetNif.Abs()), Close(connHandle)))
    {
      var i: Option<nat> := None;
      if agnssNif != null {
        i := agnssNif.GetSubscriber(connHandle);
        if i.Some? {
          agnssNif.ProcessUnsubscribe(i.value);
          return;
        }
      }
      if internetNif != null {
        i := internetNif.GetSubscriber(connHandle);
        if i.Some? {
          internetNif.ProcessUnsubscribe(i.value);
        }
      }
    }

    /**
     * `reportAtlOpenSuccess`, `reportAtlOpenFailed` and `reportAtlClosed`. They do not look whether there is
     * a machine of the type; the result says that they used a null one.
     */
    method Report(agpsType: int, event: FrameworkEvent) returns (nullUsed: bool)
      requires Valid()
      modifies GetStateMachine(agpsType)
      ensures var sm := if agpsType == -1 || agpsType == 1 || agpsType == 5 then agnssNif else internetNif;
              && (nullUsed <==> sm == null)
              && (forall other :: (other == agnssNif || other == internetNif) && other != null ==>
                    other.Abs() == if other == sm then Step(old(other.Abs()), Framework(event)) else old(other.Abs()))
    {
      var sm := GetStateMachine(agpsType);
      nullUsed := sm == null;
      if sm != null {
        sm.ProcessFrameworkEvent(event);
      }
    }

    method HandleModemSSR()
      requires Valid()
      modifies agnssNif, internetNif
      ensures agnssNif != null ==> agnssNif.Abs() == Step(old(agnssNif.Abs()), ModemRestart)
      ensures internetNif != null ==> internetNif.Abs() == Step(old(internetNif.Abs()), ModemRestart)
    {
      if agnssNif != null {
        agnssNif.DropAllSubscribers();
      }
      if internetNif != null {
        internetNif.DropAllSubscribers();
      }
    }
  }
}

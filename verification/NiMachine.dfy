/** The network-initiated request data as objects that several threads change in place. */
module NiMachine {
  import opened NiProtocol

  class NiSession {
    var rawRequest: int
    var reqID: nat
    var resp: Response
    var respRecvd: bool
    ghost var waiting: nat
    var request: nat
    ghost var meant: nat

    ghost function Abs(): Slot
      reads this
    {
      Slot(rawRequest, reqID, resp, respRecvd, waiting, request, meant)
    }

    constructor ()
      ensures Abs() == EMPTY_SLOT
    {
      rawRequest, reqID, resp, respRecvd := NULL, 0, Accept, false;
      waiting, request, meant := 0, 0, 0;
    }

    /** A response under the lock. */
    method Signal(r: Response, ghost forRequest: nat)
      modifies this
      ensures Abs() == old(Abs()).Answered(r, forRequest)
    {
      resp := r;
      respRecvd := true;
      meant := forRequest;
    }

    /** The rest of the thread's stay under the lock, once it need not wait any longer. */
    method Take(timedOut: bool) returns (raw: int, r: Response, ghost own: bool)
      requires waiting > 0
      modifies this
      ensures r == Verdict(old(Abs()), timedOut) && Abs() == old(Abs()).Taken(r) && raw == old(rawRequest)
      ensures own <==> timedOut || old(meant) == old(request)
    {
      if timedOut {
        resp := NoResponse;
      }
      respRecvd := false;
      waiting := waiting - 1;
      own := timedOut || meant == request;
      raw, r := rawRequest, resp;
      if rawRequest != NULL {
        rawRequest := NULL;
      }
    }
  }

  class NiAdapter {
    const session: NiSession
    const sessionEs: NiSession
    var reqIDCounter: nat
    var counter: nat
    var todo: Todo
    var exits: seq<Exit>
    ghost var log: History

    ghost predicate Valid()
      reads this
    {
      session != sessionEs && reqIDCounter == counter % 0x1_0000_0000
    }

    ghost function Abs(): Ni
      reads this, session, sessionEs
    {
      Ni(session.Abs(), sessionEs.Abs(), counter, todo, exits, log)
    }

    constructor ()
      ensures Valid() && Abs() == Init() && fresh(session) && fresh(sessionEs)
    {
      session := new NiSession();
      sessionEs := new NiSession();
      reqIDCounter, counter, todo, exits, log := 0, 0, Idle, [], Start;
    }

    ghost method Note(e: Entry)
      modifies this`log
      ensures log == Then(old(log), e)
    {
      log := Then(log, e);
    }

    /** The session of a slot. */
    function Of(w: Which): NiSession {
      match w
      case Normal => session
      case Emergency => sessionEs
    }

    /** Save the request and start its thread. */
    method Save(w: Which, data: int, created: bool)
      requires Valid()
      modifies this`reqIDCounter, this`counter, this`log, Of(w)
      ensures Valid() && Abs() == Fill(old(Abs()), w, data, created)
    {
      var pSession := Of(w);
      pSession.rawRequest := data;
      reqIDCounter := (reqIDCounter + 1) % 0x1_0000_0000;
      counter := counter + 1;
      pSession.reqID := reqIDCounter;
      pSession.request := counter;
      pSession.waiting := pSession.waiting + (if created then 1 else 0);
      Note(Received(data, if created then Accepted else AcceptedWithoutThread));
    }

    method RequestNiNotify(data: int, kind: Kind, hasClient: bool, informAccept: bool, created: bool) returns (handled: bool)
      requires Valid() && todo.Idle?
      modifies this`reqIDCounter, this`counter, this`log, this`todo, session, sessionEs
      ensures Valid() && Abs() == NiProtocol.RequestNiNotify(old(Abs()), data, kind, hasClient, informAccept, created)
      ensures handled == hasClient
    {
      if !hasClient {
        if kind == EmergencySupl && informAccept {
          Note(Received(data, AnsweredAtOnce(Accept)));
          if session.rawRequest != NULL {
            todo := Deliver(Normal, Ignore, session.request, Idle);
          }
        } else {
          Note(Received(data, Unclaimed));
        }
        return false;
      }
      var slot: Which;
      var free: bool;
      if kind == EmergencySupl {
        slot, free := Emergency, sessionEs.rawRequest == NULL;
      } else {
        slot, free := Normal, session.rawRequest == NULL && sessionEs.rawRequest == NULL;
      }
      if free {
        Save(slot, data, created);
      } else {
        Note(Received(data, FreedAtOnce));
      }
      return true;
    }

    method ReportNiNotify(data: int, kind: Kind, s: Setting)
      requires Valid() && todo.Idle?
      modifies this`reqIDCounter, this`counter, this`log, this`todo, session, sessionEs
      ensures Valid() && Abs() == Step(old(Abs()), Request(data, kind, s))
    {
      var handled;
      if kind == EmergencySupl {
        var bInformNiAccept := s.inEmergency || s.suplEsNo;
        if bInformNiAccept {
          handled := RequestNiNotify(data, kind, s.hasClient, bInformNiAccept, s.created);
        } else {
          Note(Received(data, AnsweredAtOnce(Deny)));
        }
      } else if kind == ControlPlane && s.inEmergency && s.cpMtlrEs {
        Note(Received(data, AnsweredAtOnce(Accept)));
      } else {
        handled := RequestNiNotify(data, kind, s.hasClient, false, s.created);
      }
    }

    /** What the message thread finds before it locks anything. */
    method GnssNiResponse(hasCallback: bool, id: nat, r: Response) returns (known: bool)
      requires Valid() && todo.Idle?
      modifies this`todo
      ensures Valid() && Abs() == Step(old(Abs()), UserResponse(hasCallback, id, r))
      ensures known <==> todo.Deliver?
    {
      if hasCallback {
        if id == sessionEs.reqID && sessionEs.rawRequest != NULL {
          todo := Deliver(Emergency, r, sessionEs.request, Idle);
          if r == Accept && session.rawRequest != NULL {
            todo := Deliver(Normal, Ignore, session.request, todo);
          }
        } else if id == session.reqID && session.rawRequest != NULL {
          todo := Deliver(Normal, r, session.request, Idle);
        }
      }
      return todo.Deliver?;
    }

    method DeliverOne()
      requires Valid() && todo.Deliver?
      modifies this`todo, this`log, session, sessionEs
      ensures Valid() && Abs() == Step(old(Abs()), DeliverStep)
    {
      var d := todo;
      todo := d.rest;
      if Of(d.to).rawRequest == NULL {
        Note(Late);
      }
      Of(d.to).Signal(d.resp, d.request);
    }

    /** From the return of the timed wait to the release of the lock. */
    method TakeRequest(w: Which, timedOut: bool)
      requires Valid() && Of(w).waiting > 0 && (timedOut || Of(w).respRecvd)
      modifies this`exits, this`log, Of(w)
      ensures Valid() && Abs() == Step(old(Abs()), WakeStep(w, timedOut))
    {
      var raw, r, own := Of(w).Take(timedOut);
      var rawRequest := NULL;
      if raw != NULL {
        if r != Ignore {
          rawRequest := raw;
          Note(Promised(raw, r, own));
        } else {
          Note(FreedByThread(raw, own));
        }
      }
      exits := exits + [Exit(w, false, rawRequest, r)];
    }

    method ClearId(i: nat)
      requires Valid() && i < |exits| && !exits[i].cleared
      modifies this`exits, this`log, Of(exits[i].from)
      ensures Valid() && Abs() == Step(old(Abs()), ClearStep(i))
    {
      var x := exits[i];
      if Of(x.from).rawRequest != NULL {
        Note(LostName);
      }
      Of(x.from).reqID := 0;
      exits := exits[i := Exit(x.from, true, x.payload, x.resp)];
    }

    method SendResponse(i: nat)
      requires Valid() && i < |exits| && exits[i].cleared
      modifies this`exits, this`log
      ensures Valid() && Abs() == Step(old(Abs()), FinishStep(i))
    {
      var x := exits[i];
      if x.payload != NULL {
        Note(Sent(x.payload, x.resp));
      }
      exits := RemoveAt(exits, i);
    }
  }
}

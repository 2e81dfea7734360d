/** The on-demand position request throttle as objects that change in place. */
module OdcpiMachine {
  import opened Wrappers
  import opened Odcpi

  class OdcpiTimer {
    var mActive: bool
    ghost var armed: Option<nat>

    constructor ()
      ensures !mActive && armed == None
    {
      mActive, armed := false, None;
    }

    method Start(ghost now: nat)
      modifies this
      ensures mActive && armed == Some(now)
    {
      mActive, armed := true, Some(now);
    }

    method Stop()
      modifies this
      ensures !mActive && armed == None
    {
      mActive, armed := false, None;
    }

    method Restart(ghost now: nat)
      modifies this
      ensures mActive && armed == Some(now)
    {
      Stop();
      Start(now);
    }
  }

  class OdcpiAdapter {
    const timer: OdcpiTimer
    var supported: bool
    var requestActive: bool
    var request: Request
    ghost var now: nat
    ghost var fired: nat
    ghost var queued: nat
    ghost var log: History

    ghost function Abs(): Throttle
      reads this, timer
    {
      Throttle(supported, requestActive, request, timer.mActive, timer.armed, now, fired, queued, log)
    }

    constructor ()
      ensures Abs() == Init() && fresh(timer)
    {
      timer := new OdcpiTimer();
      supported, requestActive, request := false, false, Request(true, 0, false);
      now, fired, queued, log := 0, 0, 0, Start;
    }

    ghost method Call(r: Request, why: Why)
      modifies this`log
      ensures log == Then(old(log), r, why)
    {
      log := Then(log, r, why);
    }

    method RequestOdcpi(r: Request)
      modifies this`requestActive, this`request, this`log, timer
      ensures Abs() == Step(old(Abs()), FromModem(r))
    {
      if supported {
        if r.start {
          if !requestActive && !timer.mActive {
            Call(r, Fresh);
            requestActive := true;
            timer.Start(now);
          } else if !request.emergency && r.emergency {
            Call(r, Upgrade);
            requestActive := true;
            if timer.mActive {
              timer.Restart(now);
            } else {
              timer.Start(now);
            }
          } else if !requestActive && timer.mActive {
            requestActive := true;
          }
          request := r;
        } else {
          requestActive := false;
        }
      }
    }

    /** The message that a firing of the timer queued. */
    method OdcpiTimerExpire()
      requires queued > 0
      modifies this`queued, this`log, timer
      ensures Abs() == Step(old(Abs()), TimerMessage)
    {
      queued := queued - 1;
      if requestActive {
        Call(request, Renewal);
        timer.Restart(now);
      } else {
        timer.Stop();
      }
    }

    method RestartSessions()
      modifies this`requestActive
      ensures Abs() == Step(old(Abs()), EngineRestart)
    {
      requestActive := false;
    }
  }
}

/** The tracking multiplexer as an object that changes in place. */
module GnssTracking {
  import opened Wrappers
  import opened Tracking

  class TrackingMultiplexer {
    const cfg: Config
    var time: seq<Session>
    var distance: seq<Session>
    var engine: Engine
    ghost var pending: multiset<Answer>
    ghost var calls: nat

    ghost function Abs(): Tracker
      reads this
    {
      Tracker(time, distance, engine, pending)
    }

    constructor (cfg: Config)
      ensures Abs() == Init() && this.cfg == cfg && calls == 0
    {
      this.cfg := cfg;
      time, distance, engine, pending, calls := [], [], Stopped, multiset{}, 0;
    }

    method CallEngine(o: Options)
      modifies this`engine, this`calls
      ensures engine == Running(o) && calls == old(calls) + 1
    {
      engine := Running(o);
      calls := calls + 1;
    }

    /** The loop over all sessions but one, or over all when `skip` is None. */
    method FindBest(skip: Option<Key>) returns (best: Options, power: nat)
      ensures best == Best(time, skip) && power == Power(time, skip)
    {
      best, power := NO_OPTIONS, GNSS_POWER_MODE_INVALID;
      var it := 0;
      while it < |time|
        invariant 0 <= it <= |time|
        invariant best == BestOf(time, skip, it) && power == PowerOf(time, skip, it)
      {
        var s := time[it];
        if skip != Some(s.key) {
          if best.size == 0 || s.options.minInterval < best.minInterval {
            best := s.options;
          }
          if power == GNSS_POWER_MODE_INVALID || s.options.powerMode < power {
            power := s.options.powerMode;
          }
        }
        it := it + 1;
      }
    }

    /** Answers without waiting exactly when the engine was not called. */
    method StartTimeBasedTrackingMultiplex(o: Options) returns (noWait: bool)
      modifies this`engine, this`calls
      ensures engine == StartEngine(time, old(engine), o)
      ensures noWait <==> calls == old(calls)
    {
      noWait := true;
      if time == [] {
        CallEngine(o);
        noWait := false;
      } else {
        var best, power := FindBest(None);
        var updateOptions := false;
        if o.minInterval < best.minInterval {
          best := best.WithInterval(o.minInterval);
          updateOptions := true;
        }
        if o.powerMode < power {
          best := best.WithPower(o.powerMode);
          updateOptions := true;
        }
        if updateOptions {
          CallEngine(best);
          noWait := false;
        }
      }
    }

    method UpdateTrackingMultiplex(k: Key, o: Options) returns (noWait: bool)
      requires Has(time, k)
      modifies this`engine, this`calls
      ensures engine == UpdateEngine(time, old(engine), k, o)
      ensures noWait <==> calls == old(calls)
    {
      noWait := true;
      var was := Get(time, k);
      if was.minInterval != o.minInterval || was.powerMode != o.powerMode {
        var best, power := FindBest(Some(k));
        var updateOptions := false;
        if o.minInterval < best.minInterval {
          best := best.WithInterval(o.minInterval);
          updateOptions := true;
        }
        if o.powerMode < power {
          best := best.WithPower(o.powerMode);
          updateOptions := true;
        }
        if |time| == 1 {
          best := o;
          updateOptions := true;
        }
        if updateOptions {
          CallEngine(best);
          noWait := false;
        }
      }
    }

    method StopTimeBasedTrackingMultiplex(k: Key) returns (noWait: bool)
      requires Has(time, k)
      modifies this`engine, this`calls
      ensures engine == StopEngine(time, old(engine), k)
      ensures noWait <==> calls == old(calls)
    {
      noWait := true;
      if |time| == 1 {
        engine := Stopped;
        calls := calls + 1;
        noWait := false;
      } else {
        var was := Get(time, k);
        var best, power := FindBest(Some(k));
        if was.minInterval < best.minInterval || was.powerMode < power {
          CallEngine(best.WithPower(power));
          noWait := false;
        }
      }
    }

    method SaveTrackingSession(k: Key, o: Options)
      modifies this`time, this`distance
      ensures Abs() == Save(cfg, old(Abs()), k, o)
    {
      if o.minDistance > 0 && cfg.distanceSupported {
        distance := Put(distance, k, o);
      } else {
        time := Put(time, k, o);
      }
    }

    method EraseTrackingSession(k: Key)
      modifies this`time, this`distance
      ensures Abs() == Erase(old(Abs()), k)
    {
      if Has(time, k) {
        time := Remove(time, k);
      } else {
        distance := Remove(distance, k);
      }
    }

    /** A call whose answer is still to come. */
    ghost method Ask(a: Answer)
      modifies this`pending
      ensures Abs() == old(Abs()).Ask(a)
    {
      pending := pending + multiset{a};
    }

    method StartTracking(k: Key, options: Options, hasCallback: bool)
      modifies this
      ensures Abs() == Step(cfg, old(Abs()), Start(k, options, hasCallback))
    {
      if !hasCallback || options.size == 0 {
        return;
      }
      var o := Limit(options);
      if o.minDistance > 0 && cfg.distanceSupported {
        SaveTrackingSession(k, o);
        Ask(StartAnswer(k));
      } else {
        o := Weaken(cfg, o);
        var noWait := StartTimeBasedTrackingMultiplex(o);
        SaveTrackingSession(k, o);
      }
    }

    method UpdateTracking(k: Key, options: Options)
      modifies this
      ensures Abs() == Step(cfg, old(Abs()), Update(k, options))
    {
      var isTimeBased, isDistanceBased := Has(time, k), Has(distance, k);
      if (!isTimeBased && !isDistanceBased) || options.size == 0 {
        return;
      }
      var o := Limit(Weaken(cfg, options));
      var noWait;
      if isTimeBased && o.minDistance > 0 {
        noWait := StopTimeBasedTrackingMultiplex(k);
        EraseTrackingSession(k);
        SaveTrackingSession(k, o);
      } else if isDistanceBased && o.minDistance == 0 {
        EraseTrackingSession(k);
        Ask(SwitchAnswer(k, o));
      } else if isTimeBased {
        noWait := UpdateTrackingMultiplex(k, o);
        SaveTrackingSession(k, o);
      } else {
        Ask(RestopAnswer(k, o));
      }
    }

    method StopTracking(k: Key)
      modifies this
      ensures Abs() == Step(cfg, old(Abs()), Stop(k))
    {
      if Has(time, k) {
        var noWait := StopTimeBasedTrackingMultiplex(k);
        EraseTrackingSession(k);
      } else if Has(distance, k) {
        Ask(StopAnswer(k));
      }
    }

    /** The body of the answer to each call about a distance-based session. */
    method AnswerReceived(a: Answer, success: bool)
      requires a in pending
      modifies this
      ensures Abs() == Step(cfg, old(Abs()), Answered(a, success))
    {
      pending := pending - multiset{a};
      match a {
        case StartAnswer(k) =>
          if !success {
            EraseTrackingSession(k);
          }
        case RestopAnswer(k, o) =>
          if success {
            Ask(RestartAnswer(k, o));
          }
        case RestartAnswer(k, o) =>
          if success {
            SaveTrackingSession(k, o);
          }
        case SwitchAnswer(k, o) =>
          var noWait := StartTimeBasedTrackingMultiplex(o);
          SaveTrackingSession(k, o);
        case StopAnswer(k) =>
          if success {
            EraseTrackingSession(k);
          }
      }
    }

    /** The engine is back and knows no session. */
    method RestartSessions()
      modifies this`engine, this`calls
      ensures Abs() == Step(cfg, old(Abs()), Restart)
    {
      engine := Stopped;
      if time != [] {
        var smallest, highest := NO_OPTIONS, NO_OPTIONS;
        var it := 0;
        while it < |time|
          invariant 0 <= it <= |time| && smallest == BestOf(time, None, it) && highest == StrongestOf(time, it)
        {
          var o := time[it].options;
          if smallest.size == 0 || o.minInterval < smallest.minInterval {
            smallest := o;
          }
          if highest.size == 0 || (o.powerMode != GNSS_POWER_MODE_INVALID && o.powerMode < highest.powerMode) {
            highest := o;
          }
          it := it + 1;
        }
        CallEngine(Options(smallest.size, smallest.minInterval, smallest.minDistance, highest.powerMode, highest.tbm));
      }
    }
  }
}

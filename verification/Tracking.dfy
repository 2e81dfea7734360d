/** Many time-based tracking sessions on one positioning engine. */
module Tracking {
  import opened Wrappers

  const MIN_TRACKING_INTERVAL := 100
  const GNSS_POWER_MODE_INVALID := 0
  const GNSS_POWER_MODE_M2 := 2
  const GNSS_POWER_MODE_M4 := 4

  // ---------------------------------------------------------------------------------------------
  // Sessions
  // ---------------------------------------------------------------------------------------------

  /** Tracking options; a size of zero marks options that were never set. */
  datatype Options = Options(size: nat, minInterval: nat, minDistance: nat, powerMode: nat, tbm: nat) {
    function WithInterval(i: nat): Options {
      Options(size, i, minDistance, powerMode, tbm)
    }

    function WithPower(p: nat): Options {
      Options(size, minInterval, minDistance, p, tbm)
    }
  }

  const NO_OPTIONS := Options(0, 0, 0, GNSS_POWER_MODE_INVALID, 0)

  datatype Key = Key(client: int, id: nat)

  /** The order of session keys in the map. */
  predicate Less(a: Key, b: Key) {
    a.id < b.id || (a.id == b.id && a.client < b.client)
  }

  datatype Session = Session(key: Key, options: Options)

  /** The contents of a session map, in key order. */
  predicate Sorted(ss: seq<Session>) {
    forall i, j :: 0 <= i < j < |ss| ==> Less(ss[i].key, ss[j].key)
  }

  predicate Has(ss: seq<Session>, k: Key) {
    exists i :: 0 <= i < |ss| && ss[i].key == k
  }

  function Get(ss: seq<Session>, k: Key): (o: Options)
    requires Has(ss, k)
    ensures Session(k, o) in ss
  {
    if ss[0].key == k then ss[0].options else Get(ss[1..], k)
  }

  function Remove(ss: seq<Session>, k: Key): (r: seq<Session>)
    ensures forall s :: s in r <==> s in ss && s.key != k
  {
    if ss == [] then []
    else if ss[0].key == k then Remove(ss[1..], k)
    else [ss[0]] + Remove(ss[1..], k)
  }

  function Insert(ss: seq<Session>, s: Session): (r: seq<Session>)
    ensures forall x :: x in r <==> x in ss || x == s
  {
    if ss == [] then [s]
    else if Less(s.key, ss[0].key) then [s] + ss
    else [ss[0]] + Insert(ss[1..], s)
  }

  function Put(ss: seq<Session>, k: Key, o: Options): (r: seq<Session>)
    ensures forall s :: s in r <==> s == Session(k, o) || (s in ss && s.key != k)
  {
    Insert(Remove(ss, k), Session(k, o))
  }

  lemma {:induction false} RemoveSorted(ss: seq<Session>, k: Key)
    requires Sorted(ss)
    ensures Sorted(Remove(ss, k))
  {
    if ss != [] {
      RemoveSorted(ss[1..], k);
      forall i | 0 <= i < |Remove(ss[1..], k)| ensures Less(ss[0].key, Remove(ss[1..], k)[i].key) {
        assert Remove(ss[1..], k)[i] in ss[1..];
      }
    }
  }

  lemma {:induction false} InsertSorted(ss: seq<Session>, s: Session)
    requires Sorted(ss) && !Has(ss, s.key)
    ensures Sorted(Insert(ss, s))
  {
    if ss != [] && !Less(s.key, ss[0].key) {
      assert ss[0].key != s.key;
      InsertSorted(ss[1..], s);
      forall i | 0 <= i < |Insert(ss[1..], s)| ensures Less(ss[0].key, Insert(ss[1..], s)[i].key) {
        assert Insert(ss[1..], s)[i] in ss[1..] || Insert(ss[1..], s)[i] == s;
      }
    }
  }

  lemma PutSorted(ss: seq<Session>, k: Key, o: Options)
    requires Sorted(ss)
    ensures Sorted(Put(ss, k, o))
  {
    RemoveSorted(ss, k);
    InsertSorted(Remove(ss, k), Session(k, o));
  }

  /** With two sessions or more, something is left when one goes. */
  lemma {:induction false} OthersRemain(ss: seq<Session>, k: Key)
    requires Sorted(ss) && Has(ss, k)
    ensures Remove(ss, k) == [] <==> |ss| == 1
  {
    if |ss| == 1 {
      assert forall s :: s in Remove(ss, k) ==> s == ss[0];
      assert Remove(ss, k) == [] || Remove(ss, k)[0] in Remove(ss, k);
    } else {
      assert Less(ss[0].key, ss[1].key);
      var s := if ss[0].key == k then ss[1] else ss[0];
      assert s in Remove(ss, k);
    }
  }

  // ---------------------------------------------------------------------------------------------
  // What the multiplexing loops look for
  // ---------------------------------------------------------------------------------------------

  function Better(b: Options, o: Options): Options {
    if b.size == 0 || o.minInterval < b.minInterval then o else b
  }

  function Lower(p: nat, q: nat): nat {
    if p == GNSS_POWER_MODE_INVALID || q < p then q else p
  }

  function Stronger(h: Options, o: Options): Options {
    if h.size == 0 || (o.powerMode != GNSS_POWER_MODE_INVALID && o.powerMode < h.powerMode) then o else h
  }

  /** The first options with the smallest interval among the first `n` sessions, leaving out `skip`. */
  function BestOf(ss: seq<Session>, skip: Option<Key>, n: nat): (b: Options)
    requires n <= |ss|
  {
    if n == 0 then NO_OPTIONS
    else if skip == Some(ss[n - 1].key) then BestOf(ss, skip, n - 1)
    else Better(BestOf(ss, skip, n - 1), ss[n - 1].options)
  }

  /** The power mode found by a loop that takes INVALID for "not set yet". */
  function PowerOf(ss: seq<Session>, skip: Option<Key>, n: nat): (p: nat)
    requires n <= |ss|
  {
    if n == 0 then GNSS_POWER_MODE_INVALID
    else if skip == Some(ss[n - 1].key) then PowerOf(ss, skip, n - 1)
    else Lower(PowerOf(ss, skip, n - 1), ss[n - 1].options.powerMode)
  }

  /** The options the restart loop keeps for the power mode. */
  function StrongestOf(ss: seq<Session>, n: nat): (h: Options)
    requires n <= |ss|
  {
    if n == 0 then NO_OPTIONS else Stronger(StrongestOf(ss, n - 1), ss[n - 1].options)
  }

  function Best(ss: seq<Session>, skip: Option<Key>): (b: Options) {
    BestOf(ss, skip, |ss|)
  }

  function Power(ss: seq<Session>, skip: Option<Key>): (p: nat) {
    PowerOf(ss, skip, |ss|)
  }

  predicate Set(ss: seq<Session>) {
    forall s :: s in ss ==> s.options.size != 0
  }

  /** `x` is the smallest interval of a session. */
  ghost predicate IsSmallest(ss: seq<Session>, x: nat) {
    (forall s :: s in ss ==> x <= s.options.minInterval) &&
    (exists s :: s in ss && s.options.minInterval == x)
  }

  lemma {:induction false} BestOfIsSmallest(ss: seq<Session>, skip: Option<Key>, n: nat)
    requires n <= |ss| && Set(ss)
    ensures forall i :: 0 <= i < n && skip != Some(ss[i].key) ==>
              BestOf(ss, skip, n).size != 0 && BestOf(ss, skip, n).minInterval <= ss[i].options.minInterval
    ensures BestOf(ss, skip, n).size != 0 ==>
              exists i :: 0 <= i < n && skip != Some(ss[i].key) && ss[i].options == BestOf(ss, skip, n)
  {
    if n > 0 {
      BestOfIsSmallest(ss, skip, n - 1);
      assert ss[n - 1] in ss;
    }
  }

  /** The loop over all sessions finds the smallest interval of all. */
  lemma BestIsSmallest(ss: seq<Session>)
    requires ss != [] && Set(ss)
    ensures Best(ss, None).size != 0 && IsSmallest(ss, Best(ss, None).minInterval)
  {
    BestOfIsSmallest(ss, None, |ss|);
    var b := Best(ss, None);
    assert None != Some(ss[0].key);
    forall s | s in ss ensures b.minInterval <= s.options.minInterval {
      var i :| 0 <= i < |ss| && ss[i] == s;
      assert None != Some(ss[i].key);
    }
  }

  /** The loop that leaves out one session finds the smallest interval of the others. */
  lemma BestOfOthersIsSmallest(ss: seq<Session>, k: Key)
    requires Remove(ss, k) != [] && Set(ss)
    ensures Best(ss, Some(k)).size != 0 && IsSmallest(Remove(ss, k), Best(ss, Some(k)).minInterval)
  {
    BestOfIsSmallest(ss, Some(k), |ss|);
    var b := Best(ss, Some(k));
    forall s | s in Remove(ss, k) ensures b.size != 0 && b.minInterval <= s.options.minInterval {
      var i :| 0 <= i < |ss| && ss[i] == s;
    }
    assert Remove(ss, k)[0] in Remove(ss, k);
    var i :| 0 <= i < |ss| && Some(k) != Some(ss[i].key) && ss[i].options == b;
    assert ss[i] in Remove(ss, k);
  }

  // ---------------------------------------------------------------------------------------------
  // The tracker
  // ---------------------------------------------------------------------------------------------

  datatype Engine = Stopped | Running(options: Options)

  datatype Config = Config(distanceSupported: bool, tbmThreshold: nat)

  /** What is done when the engine answers a call about a distance-based session. */
  datatype Answer =
    | StartAnswer(key: Key)
    | RestopAnswer(key: Key, options: Options)
    | RestartAnswer(key: Key, options: Options)
    | SwitchAnswer(key: Key, options: Options)
    | StopAnswer(key: Key)

  /** Session maps, the engine, and the answers that are still to come, in whatever order. */
  datatype Tracker = Tracker(time: seq<Session>, distance: seq<Session>, engine: Engine, pending: multiset<Answer>) {
    function Ask(a: Answer): Tracker {
      Tracker(time, distance, engine, pending + multiset{a})
    }

    function Got(a: Answer): Tracker {
      Tracker(time, distance, engine, pending - multiset{a})
    }

    function With(e: Engine): Tracker {
      Tracker(time, distance, e, pending)
    }
  }

  /** The limits imposed on the options of a client. */
  function Limit(o: Options): Options {
    if o.minInterval < MIN_TRACKING_INTERVAL then o.WithInterval(MIN_TRACKING_INTERVAL) else o
  }

  function Weaken(cfg: Config, o: Options): Options {
    if o.powerMode == GNSS_POWER_MODE_M4 && o.tbm > cfg.tbmThreshold then o.WithPower(GNSS_POWER_MODE_M2) else o
  }

  /** The options a new session adds to those of the others. */
  function Merge(b: Options, p: nat, o: Options): Options {
    var b1 := if o.minInterval < b.minInterval then b.WithInterval(o.minInterval) else b;
    if o.powerMode < p then b1.WithPower(o.powerMode) else b1
  }

  predicate Improves(b: Options, p: nat, o: Options) {
    o.minInterval < b.minInterval || o.powerMode < p
  }

  function StartEngine(time: seq<Session>, engine: Engine, o: Options): Engine {
    if time == [] then Running(o)
    else if Improves(Best(time, None), Power(time, None), o) then Running(Merge(Best(time, None), Power(time, None), o))
    else engine
  }

  function UpdateEngine(time: seq<Session>, engine: Engine, k: Key, o: Options): Engine
    requires Has(time, k)
  {
    var was, b, p := Get(time, k), Best(time, Some(k)), Power(time, Some(k));
    if was.minInterval == o.minInterval && was.powerMode == o.powerMode then engine
    else if |time| == 1 then Running(o)
    else if Improves(b, p, o) then Running(Merge(b, p, o))
    else engine
  }

  function StopEngine(time: seq<Session>, engine: Engine, k: Key): Engine
    requires Has(time, k)
  {
    var was, b, p := Get(time, k), Best(time, Some(k)), Power(time, Some(k));
    if |time| == 1 then Stopped
    else if was.minInterval < b.minInterval || was.powerMode < p then Running(b.WithPower(p))
    else engine
  }

  function RestartEngine(time: seq<Session>): Engine {
    if time == [] then Stopped
    else
      var h, b := StrongestOf(time, |time|), Best(time, None);
      Running(Options(b.size, b.minInterval, b.minDistance, h.powerMode, h.tbm))
  }

  /** A session goes to the map that its options and the engine's capabilities call for. */
  function Save(cfg: Config, t: Tracker, k: Key, o: Options): Tracker {
    if o.minDistance > 0 && cfg.distanceSupported
    then Tracker(t.time, Put(t.distance, k, o), t.engine, t.pending)
    else Tracker(Put(t.time, k, o), t.distance, t.engine, t.pending)
  }

  /** A session leaves the time-based map or else the distance-based one; the engine is not told. */
  function Erase(t: Tracker, k: Key): Tracker {
    if Has(t.time, k) then Tracker(Remove(t.time, k), t.distance, t.engine, t.pending)
    else Tracker(t.time, Remove(t.distance, k), t.engine, t.pending)
  }

  datatype Op =
    | Start(key: Key, options: Options, hasCallback: bool)
    | Update(key: Key, options: Options)
    | Stop(key: Key)
    | Answered(answer: Answer, success: bool)
    | Restart

  function StartSession(cfg: Config, t: Tracker, k: Key, o0: Options): Tracker {
    var o := Limit(o0);
    if o.minDistance > 0 && cfg.distanceSupported then Save(cfg, t, k, o).Ask(StartAnswer(k))
    else
      var w := Weaken(cfg, o);
      Save(cfg, t.With(StartEngine(t.time, t.engine, w)), k, w)
  }

  function UpdateSession(cfg: Config, t: Tracker, k: Key, o0: Options): Tracker {
    var o := Limit(Weaken(cfg, o0));
    if Has(t.time, k) && o.minDistance > 0 then
      Save(cfg, Erase(t, k).With(StopEngine(t.time, t.engine, k)), k, o)
    else if Has(t.distance, k) && o.minDistance == 0 then Erase(t, k).Ask(SwitchAnswer(k, o))
    else if Has(t.time, k) then Save(cfg, t.With(UpdateEngine(t.time, t.engine, k, o)), k, o)
    else t.Ask(RestopAnswer(k, o))
  }

  function StopSession(t: Tracker, k: Key): Tracker {
    if Has(t.time, k) then Erase(t, k).With(StopEngine(t.time, t.engine, k))
    else if Has(t.distance, k) then t.Ask(StopAnswer(k))
    else t
  }

  /** An answer arrives; the switch to time-based tracking does not look at its success. */
  function Receive(cfg: Config, t0: Tracker, a: Answer, success: bool): Tracker {
    var t := t0.Got(a);
    match a
    case StartAnswer(k) => if success then t else Erase(t, k)
    case RestopAnswer(k, o) => if success then t.Ask(RestartAnswer(k, o)) else t
    case RestartAnswer(k, o) => if success then Save(cfg, t, k, o) else t
    case SwitchAnswer(k, o) => Save(cfg, t.With(StartEngine(t.time, t.engine, o)), k, o)
    case StopAnswer(k) => if success then Erase(t, k) else t
  }

  /** One message; an answer that is not outstanding does not come. */
  function Step(cfg: Config, t: Tracker, op: Op): Tracker {
    match op
    case Start(k, o, hasCallback) =>
      if hasCallback && o.size != 0 then StartSession(cfg, t, k, o) else t
    case Update(k, o) =>
      if (Has(t.time, k) || Has(t.distance, k)) && o.size != 0 then UpdateSession(cfg, t, k, o) else t
    case Stop(k) => StopSession(t, k)
    case Answered(a, success) => if a in t.pending then Receive(cfg, t, a, success) else t
    case Restart => t.With(RestartEngine(t.time))
  }

  function Init(): Tracker {
    Tracker([], [], Stopped, multiset{})
  }

  function Run(cfg: Config, ops: seq<Op>): (t: Tracker) {
    if ops == [] then Init() else Step(cfg, Run(cfg, ops[..|ops| - 1]), ops[|ops| - 1])
  }

  /** No answer about a session is outstanding. */
  ghost predicate Quiet(t: Tracker, k: Key) {
    forall a :: a in t.pending ==> a.key != k
  }

  ghost predicate Unused(t: Tracker, k: Key) {
    !Has(t.time, k) && !Has(t.distance, k) && Quiet(t, k)
  }

  /** A new session has a new key, as the session id generator sees to. */
  ghost predicate Legal(cfg: Config, ops: seq<Op>) {
    ops == [] ||
    (Legal(cfg, ops[..|ops| - 1]) && (ops[|ops| - 1].Start? ==> Unused(Run(cfg, ops[..|ops| - 1]), ops[|ops| - 1].key)))
  }

  /** No command about a session comes while one of its answers is outstanding. */
  ghost predicate Patient(t: Tracker, op: Op) {
    op.Update? || op.Stop? ==> Quiet(t, op.key)
  }

  /** Every client waits for the answers about a session before its next command about it. */
  ghost predicate Orderly(cfg: Config, ops: seq<Op>) {
    ops == [] || (Orderly(cfg, ops[..|ops| - 1]) && Patient(Run(cfg, ops[..|ops| - 1]), ops[|ops| - 1]))
  }
}

/** Geofences by engine id, and engine ids by client key. */
module Geofence {
  import opened Wrappers

  datatype Key = Key(client: int, id: nat)

  datatype Options = Options(breachMask: nat, responsiveness: nat, dwellTime: nat)

  datatype Info = Info(latitude: real, longitude: real, radius: real)

  datatype Item = Item(key: Key, options: Options, info: Info, paused: bool)

  /** A removal that the engine has not answered yet, made when a client went away. */
  datatype Removal = Removal(key: Key, hwId: nat)

  /** A geofence that the engine was asked to take again after its restart, with its former id. */
  datatype Readd = Readd(formerId: nat, item: Item)

  datatype Geo = Geo(geofences: map<nat, Item>, ids: map<Key, nat>, removals: multiset<Removal>, readds: multiset<Readd>) {
    function With(g: map<nat, Item>, i: map<Key, nat>): Geo {
      Geo(g, i, removals, readds)
    }
  }

  // ---------------------------------------------------------------------------------------------
  // The operations
  // ---------------------------------------------------------------------------------------------

  function KeyOf(m: Geo, hwId: nat): Option<Key> {
    if hwId in m.geofences then Some(m.geofences[hwId].key) else None
  }

  function HwIdOf(m: Geo, key: Key): Option<nat> {
    if key in m.ids then Some(m.ids[key]) else None
  }

  function Save(m: Geo, key: Key, hwId: nat, o: Options, i: Info): Geo {
    m.With(m.geofences[hwId := Item(key, o, i, false)], m.ids[key := hwId])
  }

  /** The engine has removed a geofence on its client's request. */
  function Remove(m: Geo, hwId: nat): Geo {
    var key := KeyOf(m, hwId);
    if key.Some? && key.value in m.ids then m.With(m.geofences - {hwId}, m.ids - {key.value}) else m
  }

  function Pause(m: Geo, hwId: nat, paused: bool): Geo {
    if hwId in m.geofences then
      var g := m.geofences[hwId];
      m.With(m.geofences[hwId := Item(g.key, g.options, g.info, paused)], m.ids)
    else m
  }

  function Modify(m: Geo, hwId: nat, o: Options): Geo {
    if hwId in m.geofences then
      var g := m.geofences[hwId];
      m.With(m.geofences[hwId := Item(g.key, o, g.info, g.paused)], m.ids)
    else m
  }

  function KeysOf(ids: map<Key, nat>, client: int): set<Key> {
    set k | k in ids && k.client == client
  }

  function RemovalsOf(ids: map<Key, nat>, keys: set<Key>): set<Removal>
    requires keys <= ids.Keys
  {
    set k | k in keys :: Removal(k, ids[k])
  }

  /** A client goes away: its keys go at once, its geofences when the engine answers. */
  function StopClient(m: Geo, client: int): Geo {
    var keys := KeysOf(m.ids, client);
    Geo(m.geofences, m.ids - keys, m.removals + multiset(RemovalsOf(m.ids, keys)), m.readds)
  }

  function Erase(m: Geo, r: Removal, success: bool): Geo {
    Geo(if success then m.geofences - {r.hwId} else m.geofences, m.ids, m.removals - multiset{r}, m.readds)
  }

  function ReaddsOf(g: map<nat, Item>, hwIds: set<nat>): set<Readd>
    requires hwIds <= g.Keys
  {
    set h | h in hwIds :: Readd(h, g[h])
  }

  /** Engine restart: everything is forgotten, and asked for again. */
  function Restart(m: Geo): Geo {
    if m.geofences == map[] then m
    else Geo(map[], map[], m.removals, m.readds + multiset(ReaddsOf(m.geofences, m.geofences.Keys)))
  }

  function TakeAgain(m: Geo, r: Readd, hwId: nat, success: bool): Geo {
    var n := Geo(m.geofences, m.ids, m.removals, m.readds - multiset{r});
    if success then Save(n, r.item.key, hwId, r.item.options, r.item.info) else n
  }

  // ---------------------------------------------------------------------------------------------
  // Runs
  // ---------------------------------------------------------------------------------------------

  datatype Op =
    | Added(key: Key, hwId: nat, options: Options, info: Info)
    | Removed(hwId: nat)
    | Paused(hwId: nat)
    | Resumed(hwId: nat)
    | Modified(hwId: nat, options: Options)
    | ClientStops(client: int)
    | RemovalAnswered(removal: Removal, success: bool)
    | EngineRestarts
    | ReaddAnswered(readd: Readd, hwId: nat, success: bool)

  /** One message; an answer to a request that is not outstanding does not come. */
  function Step(m: Geo, op: Op): Geo {
    match op
    case Added(key, hwId, o, i) => Save(m, key, hwId, o, i)
    case Removed(hwId) => Remove(m, hwId)
    case Paused(hwId) => Pause(m, hwId, true)
    case Resumed(hwId) => Pause(m, hwId, false)
    case Modified(hwId, o) => Modify(m, hwId, o)
    case ClientStops(c) => StopClient(m, c)
    case RemovalAnswered(r, ok) => if r in m.removals then Erase(m, r, ok) else m
    case EngineRestarts => Restart(m)
    case ReaddAnswered(r, hwId, ok) => if r in m.readds then TakeAgain(m, r, hwId, ok) else m
  }

  function Init(): Geo {
    Geo(map[], map[], multiset{}, multiset{})
  }

  function Run(ops: seq<Op>): Geo {
    if ops == [] then Init() else Step(Run(ops[..|ops| - 1]), ops[|ops| - 1])
  }

  // ---------------------------------------------------------------------------------------------
  // The two indexes agree
  // ---------------------------------------------------------------------------------------------

  /** Each key leads to a geofence that carries it. */
  ghost predicate Agrees(m: Geo) {
    forall k :: k in m.ids ==> m.ids[k] in m.geofences && m.geofences[m.ids[k]].key == k
  }

  /** No removal is outstanding for an engine id that a key leads to. */
  ghost predicate Apart(m: Geo) {
    forall r, k :: r in m.removals && k in m.ids ==> m.ids[k] != r.hwId
  }

  /** The engine gives no id that is known or whose removal is outstanding. */
  ghost predicate IsFresh(m: Geo, hwId: nat) {
    hwId !in m.geofences && forall r :: r in m.removals ==> r.hwId != hwId
  }

  ghost predicate FreshStep(m: Geo, op: Op) {
    match op
    case Added(_, hwId, _, _) => IsFresh(m, hwId)
    case ReaddAnswered(_, hwId, ok) => ok ==> IsFresh(m, hwId)
    case _ => true
  }

  ghost predicate FreshRun(ops: seq<Op>) {
    ops == [] || (FreshRun(ops[..|ops| - 1]) && FreshStep(Run(ops[..|ops| - 1]), ops[|ops| - 1]))
  }

  /** A known engine id has one key. */
  lemma AgreementIsInjective(m: Geo, k: Key, k': Key)
    requires Agrees(m) && k in m.ids && k' in m.ids && m.ids[k] == m.ids[k']
    ensures k == k'
  {
  }

  /** Saving keeps the agreement exactly when no other key leads to the engine id. */
  lemma SaveAgreesExactly(m: Geo, key: Key, hwId: nat, o: Options, i: Info)
    requires Agrees(m)
    ensures Agrees(Save(m, key, hwId, o, i)) <==> forall k :: k in m.ids && k != key ==> m.ids[k] != hwId
  {
    var n := Save(m, key, hwId, o, i);
    forall k | k in m.ids && k != key
      ensures k in n.ids && n.ids[k] == m.ids[k]
    {
    }
    if Agrees(n) {
      forall k | k in m.ids && k != key ensures m.ids[k] != hwId {
        assert k in n.ids;
      }
    }
  }

  /** Erasing keeps the agreement exactly when no key leads to the engine id. */
  lemma EraseAgreesExactly(m: Geo, r: Removal)
    requires Agrees(m)
    ensures Agrees(Erase(m, r, true)) <==> forall k :: k in m.ids ==> m.ids[k] != r.hwId
  {
    var n := Erase(m, r, true);
    forall k | k in m.ids && m.ids[k] == r.hwId ensures !Agrees(n) {
      assert k in n.ids && n.ids[k] !in n.geofences;
    }
  }

  /** Everything else keeps it in any case. */
  lemma OthersAgree(m: Geo, op: Op)
    requires Agrees(m)
    requires !op.Added? && !(op.ReaddAnswered? && op.success) && !(op.RemovalAnswered? && op.success)
    ensures Agrees(Step(m, op))
  {
  }

  lemma SaveKeeps(m: Geo, key: Key, hwId: nat, o: Options, i: Info)
    requires Agrees(m) && Apart(m) && IsFresh(m, hwId)
    ensures var n := Save(m, key, hwId, o, i);
            Agrees(n) && Apart(n)
  {
    SaveAgreesExactly(m, key, hwId, o, i);
  }

  lemma StopKeeps(m: Geo, c: int)
    requires Agrees(m) && Apart(m)
    ensures Agrees(StopClient(m, c)) && Apart(StopClient(m, c))
  {
    OthersAgree(m, ClientStops(c));
    var n, keys := StopClient(m, c), KeysOf(m.ids, c);
    forall r, k | r in n.removals && k in n.ids ensures n.ids[k] != r.hwId {
      if r !in m.removals {
        assert r in RemovalsOf(m.ids, keys);
        assert r.key in keys && m.ids[r.key] == r.hwId;
        if m.ids[k] == r.hwId {
          AgreementIsInjective(m, k, r.key);
        }
      }
    }
  }

  lemma StepKeeps(m: Geo, op: Op)
    requires Agrees(m) && Apart(m) && FreshStep(m, op)
    ensures Agrees(Step(m, op)) && Apart(Step(m, op))
  {
    match op
    case Added(key, hwId, o, i) => SaveKeeps(m, key, hwId, o, i);
    case ClientStops(c) => StopKeeps(m, c);
    case RemovalAnswered(r, ok) =>
      if r in m.removals {
        EraseAgreesExactly(m, r);
      }
    case ReaddAnswered(r, hwId, ok) =>
      if r in m.readds && ok {
        SaveKeeps(Geo(m.geofences, m.ids, m.removals, m.readds - multiset{r}), r.item.key, hwId, r.item.options, r.item.info);
      }
    case _ => OthersAgree(m, op);
  }

  /** The index is sound through adds, removals, departing clients and engine restarts. */
  lemma {:induction false} RunAgrees(ops: seq<Op>)
    requires FreshRun(ops)
    ensures Agrees(Run(ops)) && Apart(Run(ops))
  {
    if ops != [] {
      RunAgrees(ops[..|ops| - 1]);
      StepKeeps(Run(ops[..|ops| - 1]), ops[|ops| - 1]);
    }
  }
}

/** The geofence indexes as one map, departing clients, engine restarts and the delivery of breaches. */
module GeofenceResults {
  import opened Wrappers
  import opened Geofence

  // ---------------------------------------------------------------------------------------------
  // One geofence for each key
  // ---------------------------------------------------------------------------------------------

  /** A key that the session id generator has not given before: no geofence carries it, here or on its way back. */
  ghost predicate KeyIsNew(m: Geo, key: Key) {
    (forall h :: h in m.geofences ==> m.geofences[h].key != key) && (forall r :: r in m.readds ==> r.item.key != key)
  }

  ghost predicate NewKeys(ops: seq<Op>) {
    ops == [] ||
    (NewKeys(ops[..|ops| - 1]) && (ops[|ops| - 1].Added? ==> KeyIsNew(Run(ops[..|ops| - 1]), ops[|ops| - 1].key)))
  }

  /** No two geofences carry the same key, be they stored or asked for again. */
  ghost predicate Single(m: Geo) {
    && (forall g, h :: g in m.geofences && h in m.geofences && m.geofences[g].key == m.geofences[h].key ==> g == h)
    && (forall h, r :: h in m.geofences && r in m.readds ==> m.geofences[h].key != r.item.key)
    && (forall r, s :: r in m.readds && s in m.readds && r.item.key == s.item.key ==> r == s)
    && (forall r :: r in m.readds ==> m.readds[r] == 1)
  }

  lemma SaveSingle(m: Geo, key: Key, hwId: nat, o: Options, i: Info)
    requires Single(m) && KeyIsNew(m, key) && hwId !in m.geofences
    ensures Single(Save(m, key, hwId, o, i))
  {
  }

  lemma RestartSingle(m: Geo)
    requires Single(m)
    ensures Single(Restart(m))
  {
    var rs := ReaddsOf(m.geofences, m.geofences.Keys);
    assert forall r :: r in rs ==> r.formerId in m.geofences && m.geofences[r.formerId] == r.item;
    assert forall r :: r in rs ==> r !in m.readds;
  }

  lemma TakeSingle(m: Geo, r: Readd, hwId: nat, success: bool)
    requires Single(m) && r in m.readds && hwId !in m.geofences
    ensures Single(TakeAgain(m, r, hwId, success))
  {
    var n := Geo(m.geofences, m.ids, m.removals, m.readds - multiset{r});
    assert Single(n) && KeyIsNew(n, r.item.key);
    SaveSingle(n, r.item.key, hwId, r.item.options, r.item.info);
  }

  /** Geofences may go, or change what is not their key. */
  lemma SameKeysSingle(m: Geo, n: Geo)
    requires Single(m) && n.readds == m.readds
    requires forall h :: h in n.geofences ==> h in m.geofences && n.geofences[h].key == m.geofences[h].key
    ensures Single(n)
  {
  }

  lemma DeclineSingle(m: Geo, r: Readd, hwId: nat)
    requires Single(m) && r in m.readds
    ensures Single(TakeAgain(m, r, hwId, false))
  {
  }

  lemma StepSingle(m: Geo, op: Op)
    requires Single(m) && FreshStep(m, op) && (op.Added? ==> KeyIsNew(m, op.key))
    ensures Single(Step(m, op))
  {
    match op
    case Added(key, hwId, o, i) => SaveSingle(m, key, hwId, o, i);
    case EngineRestarts => RestartSingle(m);
    case ReaddAnswered(r, hwId, ok) =>
      if r in m.readds {
        if ok {
          TakeSingle(m, r, hwId, ok);
        } else {
          DeclineSingle(m, r, hwId);
        }
      }
    case Removed(hwId) => SameKeysSingle(m, Remove(m, hwId));
    case Paused(hwId) => SameKeysSingle(m, Pause(m, hwId, true));
    case Resumed(hwId) => SameKeysSingle(m, Pause(m, hwId, false));
    case Modified(hwId, o) => SameKeysSingle(m, Modify(m, hwId, o));
    case ClientStops(c) => SameKeysSingle(m, StopClient(m, c));
    case RemovalAnswered(r, ok) =>
      if r in m.removals {
        SameKeysSingle(m, Erase(m, r, ok));
      }
  }

  lemma {:induction false} RunSingle(ops: seq<Op>)
    requires FreshRun(ops) && NewKeys(ops)
    ensures Single(Run(ops))
  {
    if ops != [] {
      RunSingle(ops[..|ops| - 1]);
      StepSingle(Run(ops[..|ops| - 1]), ops[|ops| - 1]);
    }
  }

  // ---------------------------------------------------------------------------------------------
  // The two indexes are one map from keys to geofences
  // ---------------------------------------------------------------------------------------------

  /** What the client finds under a key. */
  function Lookup(m: Geo, key: Key): Option<Item> {
    if key in m.ids && m.ids[key] in m.geofences then Some(m.geofences[m.ids[key]]) else None
  }

  function Replace(i: Option<Item>, options: Option<Options>, paused: Option<bool>): Option<Item> {
    if i.None? then None
    else Some(Item(i.value.key, if options.Some? then options.value else i.value.options, i.value.info,
                   if paused.Some? then paused.value else i.value.paused))
  }

  /** What a simple map would hold under a key after a message. */
  function Expected(m: Geo, op: Op, key: Key): Option<Item> {
    var before := Lookup(m, key);
    match op
    case Added(k, _, o, i) => if k == key then Some(Item(key, o, i, false)) else before
    case Removed(h) => if KeyOf(m, h) == Some(key) then None else before
    case Paused(h) => if KeyOf(m, h) == Some(key) then Replace(before, None, Some(true)) else before
    case Resumed(h) => if KeyOf(m, h) == Some(key) then Replace(before, None, Some(false)) else before
    case Modified(h, o) => if KeyOf(m, h) == Some(key) then Replace(before, Some(o), None) else before
    case ClientStops(c) => if key.client == c then None else before
    case RemovalAnswered(_, _) => before
    case EngineRestarts => None
    case ReaddAnswered(r, _, ok) =>
      if r in m.readds && ok && r.item.key == key then Some(Item(key, r.item.options, r.item.info, false)) else before
  }

  /** A key that leads somewhere leads to the one geofence that carries it. */
  lemma LeadsToOnly(m: Geo, key: Key, hwId: nat)
    requires Agrees(m) && Single(m) && KeyOf(m, hwId) == Some(key) && key in m.ids
    ensures m.ids[key] == hwId
  {
  }

  lemma SaveLookup(m: Geo, k: Key, hwId: nat, o: Options, i: Info, key: Key)
    requires Agrees(m) && hwId !in m.geofences
    ensures Lookup(Save(m, k, hwId, o, i), key) == if k == key then Some(Item(key, o, i, false)) else Lookup(m, key)
  {
  }

  lemma RemoveLookup(m: Geo, hwId: nat, key: Key)
    requires Agrees(m) && Single(m)
    ensures Lookup(Remove(m, hwId), key) == if KeyOf(m, hwId) == Some(key) then None else Lookup(m, key)
  {
    if KeyOf(m, hwId).Some? && KeyOf(m, hwId).value in m.ids {
      LeadsToOnly(m, KeyOf(m, hwId).value, hwId);
    }
  }

  lemma PauseLookup(m: Geo, hwId: nat, paused: bool, key: Key)
    requires Agrees(m) && Single(m)
    ensures Lookup(Pause(m, hwId, paused), key)
         == if KeyOf(m, hwId) == Some(key) then Replace(Lookup(m, key), None, Some(paused)) else Lookup(m, key)
  {
    if KeyOf(m, hwId) == Some(key) && key in m.ids {
      LeadsToOnly(m, key, hwId);
    }
  }

  lemma ModifyLookup(m: Geo, hwId: nat, o: Options, key: Key)
    requires Agrees(m) && Single(m)
    ensures Lookup(Modify(m, hwId, o), key)
         == if KeyOf(m, hwId) == Some(key) then Replace(Lookup(m, key), Some(o), None) else Lookup(m, key)
  {
    if KeyOf(m, hwId) == Some(key) && key in m.ids {
      LeadsToOnly(m, key, hwId);
    }
  }

  lemma StopLookup(m: Geo, c: int, key: Key)
    ensures Lookup(StopClient(m, c), key) == if key.client == c then None else Lookup(m, key)
  {
  }

  lemma EraseLookup(m: Geo, r: Removal, success: bool, key: Key)
    requires Apart(m) && r in m.removals
    ensures Lookup(Erase(m, r, success), key) == Lookup(m, key)
  {
  }

  lemma RestartLookup(m: Geo, key: Key)
    ensures Lookup(Restart(m), key) == None
  {
  }

  lemma StepIsMapUpdate(m: Geo, op: Op, key: Key)
    requires Agrees(m) && Apart(m) && Single(m) && FreshStep(m, op)
    ensures Lookup(Step(m, op), key) == Expected(m, op, key)
  {
    match op
    case Added(k, h, o, i) => SaveLookup(m, k, h, o, i, key);
    case Removed(h) => RemoveLookup(m, h, key);
    case Paused(h) => PauseLookup(m, h, true, key);
    case Resumed(h) => PauseLookup(m, h, false, key);
    case Modified(h, o) => ModifyLookup(m, h, o, key);
    case ClientStops(c) => StopLookup(m, c, key);
    case RemovalAnswered(r, ok) =>
      if r in m.removals {
        EraseLookup(m, r, ok, key);
      }
    case EngineRestarts => RestartLookup(m, key);
    case ReaddAnswered(r, h, ok) =>
      if r in m.readds && ok {
        var n := Geo(m.geofences, m.ids, m.removals, m.readds - multiset{r});
        SaveLookup(n, r.item.key, h, r.item.options, r.item.info, key);
      }
  }

  /**
   * In every run with fresh engine ids and new keys, through adds, removals, departing clients and engine
   * restarts, each message does to what the clients find under their keys what it would do to a simple map.
   */
  lemma RefinesMap(ops: seq<Op>, op: Op, key: Key)
    requires FreshRun(ops) && NewKeys(ops) && FreshStep(Run(ops), op)
    ensures Lookup(Run(ops + [op]), key) == Expected(Run(ops), op, key)
  {
    RunAgrees(ops);
    RunSingle(ops);
    StepIsMapUpdate(Run(ops), op, key);
    assert (ops + [op])[..|ops|] == ops;
  }

  // ---------------------------------------------------------------------------------------------
  // Departing clients
  // ---------------------------------------------------------------------------------------------

  ghost predicate Absent(m: Geo, c: int) {
    forall k :: k in m.ids ==> k.client != c
  }

  /** The operations that save a geofence of a client. */
  predicate SavesFor(op: Op, c: int) {
    (op.Added? && op.key.client == c) || (op.ReaddAnswered? && op.success && op.readd.item.key.client == c)
  }

  lemma StaysAway(m: Geo, op: Op, c: int)
    requires Absent(m, c) && !SavesFor(op, c)
    ensures Absent(Step(m, op), c)
  {
  }

  lemma RunOf(m: Geo, ops: seq<Op>, op: Op)
    requires m == Run(ops)
    ensures Run(ops + [op]) == Step(m, op)
  {
    assert (ops + [op])[..|ops|] == ops;
  }

  lemma Appended(a: seq<Op>, b: seq<Op>, op: Op)
    ensures a + b + [op] == a + (b + [op])
  {
  }

  lemma {:induction false} RunStaysAway(ops: seq<Op>, c: int, more: seq<Op>)
    requires Absent(Run(ops), c) && forall op :: op in more ==> !SavesFor(op, c)
    ensures Absent(Run(ops + more), c)
  {
    if more == [] {
      assert ops + more == ops;
    } else {
      var front, op := more[..|more| - 1], more[|more| - 1];
      RunStaysAway(ops, c, front);
      StaysAway(Run(ops + front), op, c);
      RunOf(Run(ops + front), ops + front, op);
      Appended(ops, front, op);
      assert more == front + [op];
    }
  }

  /** Each stored geofence of a client is one that a key leads to, or has a removal under way. */
  ghost predicate Covered(m: Geo, c: int) {
    forall h :: h in m.geofences && m.geofences[h].key.client == c ==>
      HwIdOf(m, m.geofences[h].key) == Some(h) || Removal(m.geofences[h].key, h) in m.removals
  }

  /** The engine refuses to remove a geofence of a departed client. */
  predicate RefusesFor(op: Op, c: int) {
    op.RemovalAnswered? && !op.success && op.removal.key.client == c
  }

  lemma SaveCovered(m: Geo, c: int, key: Key, hwId: nat, o: Options, i: Info)
    requires Covered(m, c) && KeyIsNew(m, key)
    ensures Covered(Save(m, key, hwId, o, i), c)
  {
  }

  lemma StopCovered(m: Geo, c: int, d: int)
    requires Covered(m, c) && Agrees(m)
    ensures Covered(StopClient(m, d), c)
  {
    var n, keys := StopClient(m, d), KeysOf(m.ids, d);
    forall h | h in n.geofences && n.geofences[h].key.client == c
      ensures HwIdOf(n, n.geofences[h].key) == Some(h) || Removal(n.geofences[h].key, h) in n.removals
    {
      var key := m.geofences[h].key;
      if HwIdOf(m, key) == Some(h) && c == d {
        assert key in keys && Removal(key, h) in RemovalsOf(m.ids, keys);
      }
    }
  }

  lemma EraseCovered(m: Geo, c: int, r: Removal, success: bool)
    requires Covered(m, c) && r in m.removals && (success || r.key.client != c)
    ensures Covered(Erase(m, r, success), c)
  {
  }

  lemma RemoveCovered(m: Geo, c: int, hwId: nat)
    requires Covered(m, c) && Agrees(m) && Single(m)
    ensures Covered(Remove(m, hwId), c)
  {
    if KeyOf(m, hwId).Some? && KeyOf(m, hwId).value in m.ids {
      LeadsToOnly(m, KeyOf(m, hwId).value, hwId);
    }
  }

  lemma TakeCovered(m: Geo, c: int, r: Readd, hwId: nat, success: bool)
    requires Covered(m, c) && Single(m) && r in m.readds
    ensures Covered(TakeAgain(m, r, hwId, success), c)
  {
    var n := Geo(m.geofences, m.ids, m.removals, m.readds - multiset{r});
    assert Covered(n, c) && KeyIsNew(n, r.item.key);
    SaveCovered(n, c, r.item.key, hwId, r.item.options, r.item.info);
  }

  /** Changes to one geofence, and a restart. */
  lemma OtherCovered(m: Geo, op: Op, c: int)
    requires Covered(m, c) && (op.Paused? || op.Resumed? || op.Modified? || op.EngineRestarts?)
    ensures Covered(Step(m, op), c)
  {
  }

  lemma StepCovered(m: Geo, op: Op, c: int)
    requires Covered(m, c) && Agrees(m) && Single(m) && !RefusesFor(op, c)
    requires op.Added? ==> KeyIsNew(m, op.key)
    ensures Covered(Step(m, op), c)
  {
    match op
    case Added(key, hwId, o, i) => SaveCovered(m, c, key, hwId, o, i);
    case Removed(hwId) => RemoveCovered(m, c, hwId);
    case ClientStops(d) => StopCovered(m, c, d);
    case RemovalAnswered(r, ok) =>
      if r in m.removals {
        EraseCovered(m, c, r, ok);
      }
    case ReaddAnswered(r, hwId, ok) =>
      if r in m.readds {
        TakeCovered(m, c, r, hwId, ok);
      }
    case _ => OtherCovered(m, op, c);
  }

  lemma {:induction false} RunCovered(ops: seq<Op>, c: int)
    requires FreshRun(ops) && NewKeys(ops) && forall op :: op in ops ==> !RefusesFor(op, c)
    ensures Covered(Run(ops), c)
  {
    if ops != [] {
      var before := ops[..|ops| - 1];
      RunCovered(before, c);
      RunAgrees(before);
      RunSingle(before);
      StepCovered(Run(before), ops[|ops| - 1], c);
    }
  }

  /**
   * After a client has gone away, in every fresh run in which no geofence of its is saved again, no key of the
   * client leads anywhere; and once none of its removals is outstanding, none of them refused, no geofence of
   * the client is stored.
   */
  lemma DepartedClientIsForgotten(ops: seq<Op>, c: int, more: seq<Op>)
    requires var all := ops + [ClientStops(c)] + more;
             FreshRun(all) && NewKeys(all) && forall op :: op in all ==> !RefusesFor(op, c)
    requires forall op :: op in more ==> !SavesFor(op, c)
    ensures var m := Run(ops + [ClientStops(c)] + more);
            && Absent(m, c)
            && ((forall r :: r in m.removals ==> r.key.client != c) ==>
                  forall h :: h in m.geofences ==> m.geofences[h].key.client != c)
  {
    RunOf(Run(ops), ops, ClientStops(c));
    RunStaysAway(ops + [ClientStops(c)], c, more);
    RunCovered(ops + [ClientStops(c)] + more, c);
  }

  // ---------------------------------------------------------------------------------------------
  // Engine restarts and reused ids
  // ---------------------------------------------------------------------------------------------

  /**
   * An engine restart asks again for whatever a key leads to; the answer makes the key lead to the same
   * geofence under its new id, the same in all but that it counts as not paused.
   */
  lemma RestartAsksForAll(m: Geo, key: Key, hwId: nat)
    requires Agrees(m) && key in m.ids
    ensures var n, item := Restart(m), m.geofences[m.ids[key]];
            var r := Readd(m.ids[key], item);
            var k := TakeAgain(n, r, hwId, true);
            && r in n.readds && n.ids == map[]
            && KeyOf(k, hwId) == Some(key) && HwIdOf(k, key) == Some(hwId)
            && (k.geofences[hwId] == item <==> !item.paused)
  {
    var r := Readd(m.ids[key], m.geofences[m.ids[key]]);
    assert m.geofences != map[];
    assert r in ReaddsOf(m.geofences, m.geofences.Keys);
  }

  /**
   * An engine restart asks again for a client that went away exactly when one of its geofences is still
   * stored, waiting for its removal to be answered; and the engine's answer then brings the key back.
   */
  lemma RestartRevivesExactly(m: Geo, c: int, hwId: nat)
    requires forall r :: r in m.readds ==> r.item.key.client != c
    ensures var n := Restart(StopClient(m, c));
            && ((exists r :: r in n.readds && r.item.key.client == c) <==>
                (exists h :: h in m.geofences && m.geofences[h].key.client == c))
            && forall r :: r in n.readds && r.item.key.client == c ==> r.item.key in TakeAgain(n, r, hwId, true).ids
  {
    var n := Restart(StopClient(m, c));
    if h :| h in m.geofences && m.geofences[h].key.client == c {
      assert m.geofences != map[];
      assert Readd(h, m.geofences[h]) in ReaddsOf(m.geofences, m.geofences.Keys);
      assert Readd(h, m.geofences[h]) in n.readds;
    }
    if r :| r in n.readds && r.item.key.client == c {
      assert r in ReaddsOf(m.geofences, m.geofences.Keys);
      assert r.formerId in m.geofences && m.geofences[r.formerId] == r.item;
    }
  }

  const OPTIONS := Options(1, 1, 1)
  const INFO := Info(0.0, 0.0, 1.0)

  /** Freshness is needed: an id given again before the removal is answered leaves a key that leads nowhere. */
  lemma ReuseBreaksAgreement(c: int, d: int)
    requires c != d
    ensures var k, k' := Key(c, 1), Key(d, 2);
            !Agrees(Run([Added(k, 7, OPTIONS, INFO), ClientStops(c), Added(k', 7, OPTIONS, INFO),
                         RemovalAnswered(Removal(k, 7), true)]))
  {
    var k, k' := Key(c, 1), Key(d, 2);
    var ops := [Added(k, 7, OPTIONS, INFO), ClientStops(c), Added(k', 7, OPTIONS, INFO), RemovalAnswered(Removal(k, 7), true)];
    assert [] + [ops[0]] == [ops[0]];
    RunOf(Init(), [], ops[0]);
    var m1 := Step(Init(), ops[0]);
    RunOf(m1, [ops[0]], ops[1]);
    assert [ops[0]] + [ops[1]] == [ops[0], ops[1]];
    var m2 := Step(m1, ops[1]);
    assert k in KeysOf(m1.ids, c) && m1.ids[k] == 7;
    assert Removal(k, 7) in RemovalsOf(m1.ids, KeysOf(m1.ids, c));
    RunOf(m2, [ops[0], ops[1]], ops[2]);
    assert [ops[0], ops[1]] + [ops[2]] == [ops[0], ops[1], ops[2]];
    var m3 := Step(m2, ops[2]);
    RunOf(m3, [ops[0], ops[1], ops[2]], ops[3]);
    assert [ops[0], ops[1], ops[2]] + [ops[3]] == ops;
    assert k' in m3.ids && m3.ids[k'] == 7 && Removal(k, 7) in m3.removals;
    assert k' in Step(m3, ops[3]).ids && 7 !in Step(m3, ops[3]).geofences;
  }

  // ---------------------------------------------------------------------------------------------
  // Breaches
  // ---------------------------------------------------------------------------------------------

  datatype Client = Client(client: int, hasBreachCb: bool)

  datatype Notification = Notification(client: int, ids: seq<nat>)

  predicate OwnedBy(m: Geo, hwId: nat, c: int) {
    hwId in m.geofences && m.geofences[hwId].key.client == c
  }

  /** The client's ids for those of the first n engine ids that are its own. */
  function Own(m: Geo, hwIds: seq<nat>, n: nat, c: int): (r: seq<nat>)
    requires n <= |hwIds|
    ensures |r| <= n
  {
    if n == 0 then []
    else if OwnedBy(m, hwIds[n - 1], c) then Own(m, hwIds, n - 1, c) + [m.geofences[hwIds[n - 1]].key.id]
    else Own(m, hwIds, n - 1, c)
  }

  /** The callbacks to the first n clients. */
  function Notifications(m: Geo, hwIds: seq<nat>, clients: seq<Client>, n: nat): (r: seq<Notification>)
    requires n <= |clients|
  {
    if n == 0 then []
    else
      var c, before := clients[n - 1], Notifications(m, hwIds, clients, n - 1);
      var ids := Own(m, hwIds, |hwIds|, c.client);
      if ids != [] && c.hasBreachCb then before + [Notification(c.client, ids)] else before
  }

  /** Each breach goes to its owner, behind the owner's earlier ones. */
  lemma {:induction false} BreachIsDelivered(m: Geo, hwIds: seq<nat>, n: nat, c: int, i: nat)
    requires i < n <= |hwIds| && OwnedBy(m, hwIds[i], c)
    ensures var j, ids := |Own(m, hwIds, i, c)|, Own(m, hwIds, n, c);
            j < |ids| && Key(c, ids[j]) == m.geofences[hwIds[i]].key
  {
    if i < n - 1 {
      BreachIsDelivered(m, hwIds, n - 1, c, i);
    }
  }

  /** Whatever a client is told is a breach of its own, at its place in the batch. */
  lemma {:induction false} DeliveredIsBreach(m: Geo, hwIds: seq<nat>, n: nat, c: int, j: nat) returns (i: nat)
    requires n <= |hwIds| && j < |Own(m, hwIds, n, c)|
    ensures i < n && KeyOf(m, hwIds[i]) == Some(Key(c, Own(m, hwIds, n, c)[j])) && |Own(m, hwIds, i, c)| == j
  {
    if OwnedBy(m, hwIds[n - 1], c) && j == |Own(m, hwIds, n - 1, c)| {
      i := n - 1;
    } else {
      i := DeliveredIsBreach(m, hwIds, n - 1, c, j);
    }
  }

  predicate DistinctClients(clients: seq<Client>) {
    forall i, j :: 0 <= i < j < |clients| ==> clients[i].client != clients[j].client
  }

  /** One of the first k clients owns the geofence and listens. */
  predicate IsHeard(m: Geo, hwId: nat, clients: seq<Client>, k: nat)
    requires k <= |clients|
  {
    exists j :: 0 <= j < k && clients[j].hasBreachCb && OwnedBy(m, hwId, clients[j].client)
  }

  /** The keys of the breaches among the first n engine ids that belong to one of the first k clients. */
  function Heard(m: Geo, hwIds: seq<nat>, n: nat, clients: seq<Client>, k: nat): multiset<Key>
    requires n <= |hwIds| && k <= |clients|
  {
    if n == 0 then multiset{}
    else
      Heard(m, hwIds, n - 1, clients, k)
      + if IsHeard(m, hwIds[n - 1], clients, k) then multiset{m.geofences[hwIds[n - 1]].key} else multiset{}
  }

  /** The keys that the ids told to a client stand for. */
  function KeysTold(c: int, ids: seq<nat>): multiset<Key> {
    if ids == [] then multiset{} else KeysTold(c, ids[..|ids| - 1]) + multiset{Key(c, ids[|ids| - 1])}
  }

  lemma KeysToldMore(c: int, ids: seq<nat>, id: nat)
    ensures KeysTold(c, ids + [id]) == KeysTold(c, ids) + multiset{Key(c, id)}
  {
    assert (ids + [id])[..|ids|] == ids;
  }

  lemma HeardOneMore(m: Geo, hwId: nat, clients: seq<Client>, k: nat)
    requires 0 < k <= |clients| && DistinctClients(clients)
    ensures IsHeard(m, hwId, clients, k) <==>
            IsHeard(m, hwId, clients, k - 1) || (clients[k - 1].hasBreachCb && OwnedBy(m, hwId, clients[k - 1].client))
    ensures OwnedBy(m, hwId, clients[k - 1].client) ==> !IsHeard(m, hwId, clients, k - 1)
  {
  }

  /** The next client hears what is its own, if it listens. */
  lemma {:induction false} HeardByNext(m: Geo, hwIds: seq<nat>, n: nat, clients: seq<Client>, k: nat)
    requires n <= |hwIds| && 0 < k <= |clients| && DistinctClients(clients)
    ensures var c := clients[k - 1];
            Heard(m, hwIds, n, clients, k)
            == Heard(m, hwIds, n, clients, k - 1)
               + if c.hasBreachCb then KeysTold(c.client, Own(m, hwIds, n, c.client)) else multiset{}
  {
    if n > 0 {
      var c, h := clients[k - 1], hwIds[n - 1];
      HeardByNext(m, hwIds, n - 1, clients, k);
      HeardOneMore(m, h, clients, k);
      if OwnedBy(m, h, c.client) {
        KeysToldMore(c.client, Own(m, hwIds, n - 1, c.client), m.geofences[h].key.id);
      }
    }
  }

  lemma {:induction false} NobodyHears(m: Geo, hwIds: seq<nat>, n: nat, clients: seq<Client>)
    requires n <= |hwIds|
    ensures Heard(m, hwIds, n, clients, 0) == multiset{}
  {
    if n > 0 {
      NobodyHears(m, hwIds, n - 1, clients);
    }
  }

  /** The keys that a sequence of callbacks tells of. */
  function Told(r: seq<Notification>): multiset<Key> {
    if r == [] then multiset{} else Told(r[..|r| - 1]) + KeysTold(r[|r| - 1].client, r[|r| - 1].ids)
  }

  lemma ToldMore(r: seq<Notification>, x: Notification)
    ensures Told(r + [x]) == Told(r) + KeysTold(x.client, x.ids)
  {
    assert (r + [x])[..|r|] == r;
  }

  lemma {:induction false} ToldIsHeard(m: Geo, hwIds: seq<nat>, clients: seq<Client>, k: nat)
    requires k <= |clients| && DistinctClients(clients)
    ensures Told(Notifications(m, hwIds, clients, k)) == Heard(m, hwIds, |hwIds|, clients, k)
  {
    if k == 0 {
      NobodyHears(m, hwIds, |hwIds|, clients);
    } else {
      var c := clients[k - 1];
      var ids := Own(m, hwIds, |hwIds|, c.client);
      ToldIsHeard(m, hwIds, clients, k - 1);
      HeardByNext(m, hwIds, |hwIds|, clients, k);
      if ids != [] && c.hasBreachCb {
        ToldMore(Notifications(m, hwIds, clients, k - 1), Notification(c.client, ids));
      }
    }
  }

  /**
   * The callbacks of a batch tell exactly the breaches of the clients that listen: each as often as the batch
   * holds it, under its own key, and nothing else.
   */
  lemma BatchIsPartitioned(m: Geo, hwIds: seq<nat>, clients: seq<Client>)
    requires DistinctClients(clients)
    ensures Told(Notifications(m, hwIds, clients, |clients|)) == Heard(m, hwIds, |hwIds|, clients, |clients|)
  {
    ToldIsHeard(m, hwIds, clients, |clients|);
  }
}

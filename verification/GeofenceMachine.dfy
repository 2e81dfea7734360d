/** The geofence adapter as an object that changes in place. */
module GeofenceMachine {
  import opened Wrappers
  import opened Geofence
  import opened GeofenceResults

  lemma OneRemovalMore(ids: map<Key, nat>, keys: set<Key>, k: Key)
    requires keys <= ids.Keys && k in ids && k !in keys
    ensures multiset(RemovalsOf(ids, keys + {k})) == multiset(RemovalsOf(ids, keys)) + multiset{Removal(k, ids[k])}
  {
    assert RemovalsOf(ids, keys + {k}) == RemovalsOf(ids, keys) + {Removal(k, ids[k])};
  }

  lemma OneReaddMore(g: map<nat, Item>, hwIds: set<nat>, h: nat)
    requires hwIds <= g.Keys && h in g && h !in hwIds
    ensures multiset(ReaddsOf(g, hwIds + {h})) == multiset(ReaddsOf(g, hwIds)) + multiset{Readd(h, g[h])}
  {
    assert ReaddsOf(g, hwIds + {h}) == ReaddsOf(g, hwIds) + {Readd(h, g[h])};
  }

  class GeofenceAdapter {
    var mGeofences: map<nat, Item>
    var mGeofenceIds: map<Key, nat>
    ghost var removals: multiset<Removal>
    ghost var readds: multiset<Readd>

    ghost function Abs(): Geo
      reads this
    {
      Geo(mGeofences, mGeofenceIds, removals, readds)
    }

    constructor ()
      ensures Abs() == Init()
    {
      mGeofences, mGeofenceIds, removals, readds := map[], map[], multiset{}, multiset{};
    }

    method SaveGeofenceItem(key: Key, hwId: nat, o: Options, i: Info)
      modifies this`mGeofences, this`mGeofenceIds
      ensures Abs() == Save(old(Abs()), key, hwId, o, i)
    {
      mGeofences := mGeofences[hwId := Item(key, o, i, false)];
      mGeofenceIds := mGeofenceIds[key := hwId];
    }

    method GetGeofenceKeyFromHwId(hwId: nat) returns (key: Option<Key>)
      ensures key == KeyOf(Abs(), hwId)
    {
      if hwId in mGeofences {
        return Some(mGeofences[hwId].key);
      }
      return None;
    }

    method RemoveGeofenceItem(hwId: nat)
      modifies this`mGeofences, this`mGeofenceIds
      ensures Abs() == Step(old(Abs()), Removed(hwId))
    {
      var key := GetGeofenceKeyFromHwId(hwId);
      if key.Some? {
        if key.value in mGeofenceIds {
          mGeofenceIds := mGeofenceIds - {key.value};
          if hwId in mGeofences {
            mGeofences := mGeofences - {hwId};
          }
        }
      }
    }

    method PauseGeofenceItem(hwId: nat)
      modifies this`mGeofences
      ensures Abs() == Step(old(Abs()), Paused(hwId))
    {
      if hwId in mGeofences {
        var g := mGeofences[hwId];
        mGeofences := mGeofences[hwId := g.(paused := true)];
      }
    }

    method ResumeGeofenceItem(hwId: nat)
      modifies this`mGeofences
      ensures Abs() == Step(old(Abs()), Resumed(hwId))
    {
      if hwId in mGeofences {
        var g := mGeofences[hwId];
        mGeofences := mGeofences[hwId := g.(paused := false)];
      }
    }

    method ModifyGeofenceItem(hwId: nat, o: Options)
      modifies this`mGeofences
      ensures Abs() == Step(old(Abs()), Modified(hwId, o))
    {
      if hwId in mGeofences {
        var g := mGeofences[hwId];
        mGeofences := mGeofences[hwId := g.(options := o)];
      }
    }

    /** The keys erased so far, and the removals asked for so far. */
    ghost predicate Erased(ids: map<Key, nat>, before: multiset<Removal>, gone: set<Key>)
      requires gone <= ids.Keys
      reads this
    {
      mGeofenceIds == ids - gone && removals == before + multiset(RemovalsOf(ids, gone))
    }

    /** Erase one key, and ask the engine to remove what it leads to. */
    method EraseKey(key: Key, ghost ids: map<Key, nat>, ghost before: multiset<Removal>, ghost gone: set<Key>)
      requires gone <= ids.Keys && Erased(ids, before, gone) && key in ids && key !in gone
      modifies this`mGeofenceIds, this`removals
      ensures Erased(ids, before, gone + {key})
    {
      OneRemovalMore(ids, gone, key);
      removals := removals + multiset{Removal(key, ids[key])};
      mGeofenceIds := mGeofenceIds - {key};
    }

    method EraseKeys(client: int)
      modifies this`mGeofenceIds, this`removals
      ensures Erased(old(mGeofenceIds), old(removals), KeysOf(old(mGeofenceIds), client))
    {
      ghost var ids, before, mine := mGeofenceIds, removals, KeysOf(mGeofenceIds, client);
      ghost var gone: set<Key> := {};
      var rest := mGeofenceIds.Keys;
      while rest != {}
        invariant rest <= ids.Keys && gone == mine - rest && gone <= ids.Keys
        invariant Erased(ids, before, gone)
        decreases rest
      {
        var key :| key in rest;
        rest := rest - {key};
        if key.client == client {
          EraseKey(key, ids, before, gone);
          gone := gone + {key};
        }
      }
      assert gone == mine;
    }

    method StopClientSessions(client: int)
      modifies this`mGeofenceIds, this`removals
      ensures Abs() == Step(old(Abs()), ClientStops(client))
    {
      EraseKeys(client);
    }

    method EraseGeofence(hwId: nat)
      modifies this`mGeofences
      ensures mGeofences == old(mGeofences) - {hwId}
    {
      if hwId in mGeofences {
        mGeofences := mGeofences - {hwId};
      }
    }

    /** The engine's answer to such a removal. */
    method RemovalAnswer(ghost r: Removal, hwId: nat, success: bool)
      requires r in removals && r.hwId == hwId
      modifies this`mGeofences, this`removals
      ensures Abs() == Step(old(Abs()), RemovalAnswered(r, success))
    {
      removals := removals - multiset{r};
      if success {
        EraseGeofence(hwId);
      }
    }

    ghost predicate Asked(g: map<nat, Item>, before: multiset<Readd>, asked: set<nat>)
      requires asked <= g.Keys
      reads this`readds
    {
      readds == before + multiset(ReaddsOf(g, asked))
    }

    method AskAgain(hwId: nat, g: map<nat, Item>, ghost before: multiset<Readd>, ghost asked: set<nat>)
      requires asked <= g.Keys && Asked(g, before, asked) && hwId in g && hwId !in asked
      modifies this`readds
      ensures Asked(g, before, asked + {hwId})
    {
      OneReaddMore(g, asked, hwId);
      readds := readds + multiset{Readd(hwId, g[hwId])};
    }

    method AskForAll(oldGeofences: map<nat, Item>)
      modifies this`readds
      ensures Asked(oldGeofences, old(readds), oldGeofences.Keys)
    {
      ghost var before, asked: set<nat> := readds, {};
      var rest := oldGeofences.Keys;
      while rest != {}
        invariant rest <= oldGeofences.Keys && asked == oldGeofences.Keys - rest
        invariant Asked(oldGeofences, before, asked)
        decreases rest
      {
        var hwId :| hwId in rest;
        rest := rest - {hwId};
        AskAgain(hwId, oldGeofences, before, asked);
        asked := asked + {hwId};
      }
      assert asked == oldGeofences.Keys;
    }

    method RestartGeofences()
      modifies this`mGeofences, this`mGeofenceIds, this`readds
      ensures Abs() == Step(old(Abs()), EngineRestarts)
    {
      if mGeofences == map[] {
        return;
      }
      var oldGeofences := mGeofences;
      mGeofences := map[];
      mGeofenceIds := map[];
      AskForAll(oldGeofences);
    }

    /** The engine's answer to a geofence it was asked to take again. */
    method ReaddAnswer(r: Readd, hwId: nat, success: bool)
      requires r in readds
      modifies this`mGeofences, this`mGeofenceIds, this`readds
      ensures Abs() == Step(old(Abs()), ReaddAnswered(r, hwId, success))
    {
      readds := readds - multiset{r};
      if success {
        SaveGeofenceItem(r.item.key, hwId, r.item.options, r.item.info);
      }
    }

    /** One client's ids are gathered in a buffer as long as the batch. */
    method GatherOwn(hwIds: seq<nat>, client: int) returns (clientIds: array<nat>, index: nat)
      ensures fresh(clientIds) && clientIds.Length == |hwIds| && index <= |hwIds|
      ensures clientIds[..index] == Own(Abs(), hwIds, |hwIds|, client)
    {
      clientIds := new nat[|hwIds|];
      index := 0;
      for i := 0 to |hwIds|
        invariant index <= i
        invariant clientIds[..index] == Own(Abs(), hwIds, i, client)
      {
        var key := GetGeofenceKeyFromHwId(hwIds[i]);
        if key.Some? && key.value.client == client {
          clientIds[index] := key.value.id;
          index := index + 1;
          assert clientIds[..index] == clientIds[..index - 1] + [key.value.id];
        }
      }
    }

    method GeofenceBreach(hwIds: seq<nat>, clients: seq<Client>) returns (notified: seq<Notification>)
      ensures notified == Notifications(Abs(), hwIds, clients, |clients|)
    {
      notified := [];
      for it := 0 to |clients|
        invariant notified == Notifications(Abs(), hwIds, clients, it)
      {
        var clientIds, index := GatherOwn(hwIds, clients[it].client);
        if index > 0 && clients[it].hasBreachCb {
          notified := notified + [Notification(clients[it].client, clientIds[..index])];
        }
      }
    }
  }
}

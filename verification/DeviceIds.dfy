/** Device ids of many data sources mapped onto one id space of the stream, so that a
    device keeps its id while its source comes and goes. */
module DeviceIds {
  import opened DeviceTables
  import opened Words

  class MetaDataMgr {
    var devIdMap: Ids
    var oldDevIdMap: Ids
    var devices: map<nat, Device>
    var oldDevices: map<nat, Device>
    var activeDevId: set<nat>
    var nextMappedDevId: nat
    var stream: seq<(nat, Descriptor)>
    ghost var given: Ids

    ghost function View(): Tables
      reads this
    {
      Tables(devIdMap, oldDevIdMap, devices, oldDevices, activeDevId, given)
    }

    ghost function Now(): State
      reads this
    {
      State(View(), nextMappedDevId, stream)
    }

    ghost predicate Valid()
      reads this
    {
      Consistent(View()) && NonZero(devIdMap) && NonZero(oldDevIdMap)
    }

    constructor ()
      ensures Valid() && Unwrapped(devIdMap, oldDevIdMap, nextMappedDevId) && nextMappedDevId == 1
      ensures devIdMap == map[] && given == map[] && stream == []
    {
      devIdMap, oldDevIdMap, devices, oldDevices := map[], map[], map[], map[];
      activeDevId, nextMappedDevId, stream, given := {}, 1, [], map[];
    }

    /** The id of a live device, 0 for none. */
    method LookupMappedDeviceId(key: Key) returns (id: nat)
      requires Valid()
      ensures id == if key in devIdMap then devIdMap[key] else 0
      ensures key in devIdMap ==> id != 0
    {
      id := 0;
      if key in devIdMap {
        id := devIdMap[key];
      }
    }

    /** The id of a device that comes back: it is live again under its old id. */
    method LookupOldMappedDeviceId(key: Key) returns (id: nat, reconnected: bool)
      requires Valid() && key !in devIdMap
      modifies this
      ensures Valid() && reconnected == (id != 0) == (key in old(oldDevIdMap))
      ensures key in old(oldDevIdMap) ==> id == old(oldDevIdMap)[key] && id in old(oldDevices)
      ensures View() == if reconnected then Reinstate(old(View()), key) else old(View())
      ensures stream == old(stream) && nextMappedDevId == old(nextMappedDevId)
    {
      hide Consistent;
      id, reconnected := 0, false;
      KnownDescriptor(View(), key);
      if key in oldDevIdMap {
        ReinstateKeeps(View(), key);
        var mapped := oldDevIdMap[key];
        oldDevIdMap := oldDevIdMap - {key};
        if mapped in oldDevices {
          devices := devices[mapped := oldDevices[mapped]];
          oldDevices := oldDevices - {mapped};
          activeDevId := activeDevId + {mapped};
          devIdMap := devIdMap[key := mapped];
          return mapped, true;
        }
      }
    }

    /** The next id that no live device has. */
    method NextId() returns (id: nat)
      modifies this`nextMappedDevId
      ensures var start := StartOf(old(nextMappedDevId));
              && start <= id && id !in activeDevId && nextMappedDevId == id + 1
              && forall x :: start <= x < id ==> x in activeDevId
    {
      if nextMappedDevId == 0 || nextMappedDevId >= RESERVED {
        nextMappedDevId := 1;
      }
      ghost var start := nextMappedDevId;
      ghost var seen: set<nat> := {};
      while nextMappedDevId in activeDevId
        invariant start <= nextMappedDevId
        invariant forall x :: start <= x < nextMappedDevId ==> x in activeDevId
        invariant seen <= activeDevId && forall x :: x in seen ==> x < nextMappedDevId
        decreases |activeDevId - seen|
      {
        ghost var left := activeDevId - seen;
        seen := seen + {nextMappedDevId};
        assert activeDevId - seen == left - {nextMappedDevId};
        nextMappedDevId := nextMappedDevId + 1;
      }
      id := nextMappedDevId;
      nextMappedDevId := nextMappedDevId + 1;
    }

    /** The id of a device: its own if it is live or comes back, else a new one. */
    method AllocDev(key: Key) returns (id: nat, reconnected: bool)
      requires Valid()
      modifies this
      ensures AllocatedAs(old(View()), View(), key, id, reconnected)
      ensures Now() == Allocated(old(Now()), key) && (id, reconnected) == IdFor(old(Now()), key)
      ensures key !in old(devIdMap) && key !in old(oldDevIdMap) ==>
                (Consistent(View()) <==> !InUse(old(View()), id))
      ensures key in old(given) ==> id == old(given)[key]
      ensures key in devIdMap && devIdMap[key] == id && stream == old(stream) && given == old(given)
      ensures old(Unwrapped(devIdMap, oldDevIdMap, nextMappedDevId)) && old(nextMappedDevId) < RESERVED ==>
                Valid() && Unwrapped(devIdMap, oldDevIdMap, nextMappedDevId) && nextMappedDevId >= old(nextMappedDevId)
    {
      hide Range, Filed, OneToOne;
      reconnected := false;
      id := LookupMappedDeviceId(key);
      if id != 0 {
        return;
      }
      id, reconnected := LookupOldMappedDeviceId(key);
      if id != 0 {
        ReinstateBelow(old(View()), key, nextMappedDevId);
        return;
      }
      ghost var before := View();
      id := NextId();
      FreeIsUnique(activeDevId, StartOf(old(nextMappedDevId)), id);
      activeDevId := activeDevId + {id};
      devIdMap := devIdMap[key := id];
      AllocateKeeps(before, key, id);
      if Unwrapped(before.live, before.remembered, old(nextMappedDevId)) && old(nextMappedDevId) < RESERVED {
        BelowIsFree(before, old(nextMappedDevId), id);
        AllocateBelow(before, key, id, old(nextMappedDevId));
      }
    }

    /** Files a descriptor under a live device's id. */
    method FileDescriptor(key: Key, mapped: nat, reconnected: bool, descriptor: Descriptor)
      requires key in devIdMap && devIdMap[key] == mapped
      requires mapped in devices ==> devices[mapped].key == key
      modifies this`devices, this`given, this`stream
      ensures old(stream) <= stream
      ensures FiledAs(old(View()), View(), key, descriptor, reconnected, stream[|old(stream)|..])
      ensures Now() == Described(old(Now()), key, descriptor, reconnected)
    {
      if mapped in devices {
        if devices[mapped].key.srcTag != key.srcTag {
          return;
        }
        if devices[mapped].descriptor == descriptor {
          if reconnected {
            stream := stream + [(mapped, descriptor)];
          }
          return;
        }
        devices := devices - {mapped};
        if descriptor.text == "" {
          given := given - {key};
          return;
        }
      }
      stream := stream + [(mapped, descriptor)];
      devices := devices[mapped := Device(key, descriptor)];
      given := given[key := mapped];
    }

    /** A device descriptor arrives. An unchanged one is only put in the stream when
        its device comes back; a changed one replaces the old, unless it is empty:
        then the device is no longer described. */
    method UpdateDescriptor(key: Key, descriptor: Descriptor)
      requires Valid()
      modifies this
      ensures old(Unwrapped(devIdMap, oldDevIdMap, nextMappedDevId)) && old(nextMappedDevId) < RESERVED ==>
                Valid() && Unwrapped(devIdMap, oldDevIdMap, nextMappedDevId) && nextMappedDevId >= old(nextMappedDevId)
      ensures old(stream) <= stream && Now() == Performed(old(Now()), Update(key, descriptor))
      ensures Updated(old(View()), View(), key, descriptor, stream[|old(stream)|..])
    {
      hide Consistent, Unwrapped, AllocatedAs, FiledAs, Updated, Allocated, IdFor, Described;
      ghost var before := View();
      var mapped, reconnected := AllocDev(key);
      ghost var between := View();
      AllocatedIsKey(before, between, key, mapped, reconnected);
      if Consistent(between) {
        DescribeKeeps(between, key, descriptor);
        UndefineKeeps(between, key);
      }
      FileDescriptor(key, mapped, reconnected, descriptor);
      UpdateIs(before, between, View(), key, mapped, descriptor, reconnected, stream[|old(stream)|..]);
    }

    /** Files the described devices of a source for their return. */
    method ForgetDevices(srcTag: U32)
      requires Valid()
      modifies this`devices, this`oldDevices, this`oldDevIdMap
      ensures View() == Moving(old(View()), srcTag, {})
    {
      hide Consistent, Moving;
      ghost var t := View();
      NothingMoved(t, srcTag);
      var todo := devices.Keys;
      while todo != {}
        invariant todo <= t.devices.Keys && View() == Moving(t, srcTag, todo)
        decreases todo
      {
        var id :| id in todo;
        StillThere(t, srcTag, todo, id);
        MoveOne(t, srcTag, todo, id);
        var key := devices[id].key;
        if key.srcTag == srcTag {
          oldDevIdMap := oldDevIdMap[key := id];
          oldDevices := oldDevices[id := devices[id]];
          devices := devices - {id};
        }
        todo := todo - {id};
      }
    }

    /** Takes the ids of a source out of use. */
    method UnmapSource(srcTag: U32)
      modifies this`devIdMap, this`activeDevId
      ensures devIdMap == Unmapping(old(devIdMap), srcTag, {})
      ensures activeDevId == Deactivating(old(activeDevId), old(devIdMap), srcTag, {})
    {
      hide Unmapping, Deactivating;
      ghost var live, active := devIdMap, activeDevId;
      NothingMoved(View(), srcTag);
      var todo := devIdMap.Keys;
      while todo != {}
        invariant todo <= live.Keys
        invariant devIdMap == Unmapping(live, srcTag, todo) && activeDevId == Deactivating(active, live, srcTag, todo)
        decreases todo
      {
        var key :| key in todo;
        StillMapped(live, srcTag, todo, key);
        UnmapOne(active, live, srcTag, todo, key);
        if key.srcTag == srcTag {
          activeDevId := activeDevId - {devIdMap[key]};
          devIdMap := devIdMap - {key};
        }
        todo := todo - {key};
      }
    }

    /** A source goes away: its described devices wait for its return, its ids are no
        longer in use, and no other source notices. */
    method DropSourceTag(srcTag: U32)
      requires Valid()
      modifies this
      ensures Valid() && View() == Drop(old(View()), srcTag)
      ensures given == old(given) && nextMappedDevId == old(nextMappedDevId) && stream == old(stream)
      ensures old(Unwrapped(devIdMap, oldDevIdMap, nextMappedDevId)) ==>
                Unwrapped(devIdMap, oldDevIdMap, nextMappedDevId)
    {
      hide Consistent, Moving, Unmapping, Deactivating, Unwrapped;
      ghost var t := View();
      ForgetDevices(srcTag);
      MovingLeaves(t, srcTag);
      UnmapSource(srcTag);
      DropKeeps(t, srcTag);
      DropBelow(t, srcTag, nextMappedDevId);
    }
  }

  // ---- Whole runs ----

  method Perform(m: MetaDataMgr, op: Op)
    requires m.Valid() && Unwrapped(m.devIdMap, m.oldDevIdMap, m.nextMappedDevId) && m.nextMappedDevId < RESERVED
    modifies m
    ensures m.Valid() && Unwrapped(m.devIdMap, m.oldDevIdMap, m.nextMappedDevId)
    ensures m.Now() == Performed(old(m.Now()), op)
    ensures Keeps(m.given, old(m.given), op)
  {
    hide Consistent, Unwrapped, AllocatedAs, FiledAs, Known, Allocated, IdFor, Described;
    match op
    case Alloc(key) =>
      var _, _ := m.AllocDev(key);
    case Update(key, descriptor) =>
      KnownDescriptor(m.View(), key);
      m.UpdateDescriptor(key, descriptor);
    case DropSource(srcTag) =>
      m.DropSourceTag(srcTag);
  }

  /** Over any run of allocations, descriptors and source drops, until the counter
      wraps, the manager is what the operations make of it; all ids stay distinct and
      the active ids are those of the live devices; and a described device keeps the id
      it was given, however often its source goes away, as long as it is not undefined. */
  method Run(m: MetaDataMgr, ops: seq<Op>) returns (done: nat)
    requires m.Valid() && Unwrapped(m.devIdMap, m.oldDevIdMap, m.nextMappedDevId)
    modifies m
    ensures done <= |ops| && (done < |ops| ==> m.nextMappedDevId >= RESERVED)
    ensures m.Now() == PerformedAll(old(m.Now()), ops[..done])
    ensures m.Valid() && Unwrapped(m.devIdMap, m.oldDevIdMap, m.nextMappedDevId)
    ensures forall k :: k in old(m.given) && NeverUndefined(ops[..done], k) ==>
              k in m.given && m.given[k] == old(m.given)[k]
    ensures forall i, j :: 0 <= i < j <= done ==> Lasts(old(m.Now()), ops, i, j)
  {
    hide Consistent, Unwrapped, Undefines, PerformedAll, Performed, Keeps, Lasts;
    ghost var s := m.Now();
    done := 0;
    NothingPerformed(s, ops);
    while done < |ops| && m.nextMappedDevId < RESERVED
      invariant done <= |ops| && m.Now() == PerformedAll(s, ops[..done])
      invariant m.Valid() && Unwrapped(m.devIdMap, m.oldDevIdMap, m.nextMappedDevId)
      invariant forall k :: k in s.tables.given && NeverUndefined(ops[..done], k) ==>
                  k in m.given && m.given[k] == s.tables.given[k]
      invariant forall n :: 0 <= n < done ==> KeepsAt(s, ops, n)
    {
      ghost var before := m.given;
      PerformedNext(s, ops, done);
      Perform(m, ops[done]);
      GivenOn(s.tables.given, before, m.given, ops, done);
      done := done + 1;
    }
    forall i, j | 0 <= i < j <= done ensures Lasts(s, ops, i, j) {
      IdLasts(s, ops, i, j);
    }
  }

  lemma NothingPerformed(s: State, ops: seq<Op>)
    ensures PerformedAll(s, ops[..0]) == s
  {
  }

  lemma GivenOn(first: Ids, before: Ids, after: Ids, ops: seq<Op>, n: nat)
    requires n < |ops| && Keeps(after, before, ops[n])
    requires forall k :: k in first && NeverUndefined(ops[..n], k) ==> k in before && before[k] == first[k]
    ensures forall k :: k in first && NeverUndefined(ops[..n + 1], k) ==> k in after && after[k] == first[k]
  {
    hide Undefines;
    forall k | NeverUndefined(ops[..n + 1], k)
      ensures NeverUndefined(ops[..n], k) && !Undefines(ops[n], k)
    {
      assert ops[..n + 1][n] == ops[n];
      assert ops[..n] == ops[..n + 1][..n];
    }
  }
}

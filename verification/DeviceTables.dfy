/** The tables that map the device ids of many data sources onto one id space of the
    stream, and what keeps them consistent. */
module DeviceTables {
  import opened Options
  import opened Words

  /** A data source's tag and the device id it uses. */
  datatype Key = Key(srcTag: U32, dev: U32)

  datatype Descriptor = Descriptor(length: nat, text: string)

  datatype Device = Device(key: Key, descriptor: Descriptor)

  /** Ids from here on are reserved for the stream's own use. */
  const RESERVED := 0x8000_0000

  type Ids = map<Key, nat>

  ghost predicate OneToOne(ids: Ids) {
    forall j, k :: j in ids && k in ids && ids[j] == ids[k] ==> j == k
  }

  /** No two devices share an id, whether live or remembered, and no device is both. */
  ghost predicate Distinct(live: Ids, remembered: Ids) {
    live.Keys !! remembered.Keys && OneToOne(live + remembered)
  }

  ghost predicate Holds(ids: Ids, key: Key, id: nat) {
    key in ids && ids[key] == id
  }

  ghost predicate Held(ids: Ids, id: nat) {
    exists k :: Holds(ids, k, id)
  }

  /** The active ids are exactly those of live devices. */
  ghost predicate Range(active: set<nat>, live: Ids) {
    && (forall k :: k in live ==> live[k] in active)
    && (forall id :: id in active ==> Held(live, id))
  }

  /** Every described device is filed under the id of its own key. */
  ghost predicate Filed(devices: map<nat, Device>, ids: Ids) {
    forall id :: id in devices ==> devices[id].key in ids && ids[devices[id].key] == id
  }

  /** The tables of the metadata manager. `given` records the id last given to each
      device that was described and has not been undefined since. */
  datatype Tables = Tables(
    live: Ids, remembered: Ids, devices: map<nat, Device>, oldDevices: map<nat, Device>, active: set<nat>,
    given: Ids)

  /** A described device is either live, with its descriptor, or kept for its return,
      under the id it was given. */
  ghost predicate Remembers(t: Tables) {
    && (forall k :: k in t.given <==> (k in t.live && t.live[k] in t.devices) || k in t.remembered)
    && (forall k :: k in t.given && k in t.live ==> t.given[k] == t.live[k])
    && (forall k :: k in t.given && k in t.remembered ==> t.given[k] == t.remembered[k])
  }

  ghost predicate Consistent(t: Tables) {
    && Distinct(t.live, t.remembered)
    && Range(t.active, t.live)
    && Filed(t.devices, t.live)
    && Filed(t.oldDevices, t.remembered)
    && (forall k :: k in t.remembered ==> t.remembered[k] in t.oldDevices)
    && Remembers(t)
  }

  ghost predicate NonZero(ids: Ids) {
    forall k :: k in ids ==> ids[k] != 0
  }

  ghost predicate AllBelow(ids: Ids, next: nat) {
    forall k :: k in ids ==> 0 < ids[k] < next
  }

  // ---- The changes to the tables ----

  function Reinstate(t: Tables, key: Key): Tables
    requires key in t.remembered && t.remembered[key] in t.oldDevices
  {
    var id := t.remembered[key];
    t.(live := t.live[key := id], remembered := t.remembered - {key},
       devices := t.devices[id := t.oldDevices[id]], oldDevices := t.oldDevices - {id},
       active := t.active + {id})
  }

  function Allocate(t: Tables, key: Key, id: nat): Tables {
    t.(live := t.live[key := id], active := t.active + {id})
  }

  ghost function Describe(t: Tables, key: Key, descriptor: Descriptor): Tables
    requires key in t.live
  {
    t.(devices := t.devices[t.live[key] := Device(key, descriptor)], given := t.given[key := t.live[key]])
  }

  ghost function Undefine(t: Tables, key: Key): Tables
    requires key in t.live
  {
    t.(devices := t.devices - {t.live[key]}, given := t.given - {key})
  }

  function MovedIds(live: Ids, devices: map<nat, Device>, srcTag: U32, todo: set<nat>): Ids {
    map k | k in live && k.srcTag == srcTag && live[k] in devices && live[k] !in todo :: live[k]
  }

  function MovedDevices(devices: map<nat, Device>, srcTag: U32, todo: set<nat>): map<nat, Device> {
    map id | id in devices && devices[id].key.srcTag == srcTag && id !in todo :: devices[id]
  }

  function KeptDevices(devices: map<nat, Device>, srcTag: U32, todo: set<nat>): map<nat, Device> {
    map id | id in devices && (devices[id].key.srcTag != srcTag || id in todo) :: devices[id]
  }

  /** A source's described devices filed for their return, but for those in `todo`. */
  function Moving(t: Tables, srcTag: U32, todo: set<nat>): Tables {
    t.(remembered := t.remembered + MovedIds(t.live, t.devices, srcTag, todo),
       devices := KeptDevices(t.devices, srcTag, todo),
       oldDevices := t.oldDevices + MovedDevices(t.devices, srcTag, todo))
  }

  /** A source's ids taken out of use, but for those of the keys in `todo`. */
  function Unmapping(live: Ids, srcTag: U32, todo: set<Key>): Ids {
    map k | k in live && (k.srcTag != srcTag || k in todo) :: live[k]
  }

  function Deactivating(active: set<nat>, live: Ids, srcTag: U32, todo: set<Key>): set<nat> {
    active - (set k | k in live && k.srcTag == srcTag && k !in todo :: live[k])
  }

  /** Everything of a source dropped. */
  function Drop(t: Tables, srcTag: U32): Tables {
    Moving(t, srcTag, {}).(live := Unmapping(t.live, srcTag, {}), active := Deactivating(t.active, t.live, srcTag, {}))
  }

  lemma RangeGrows(active: set<nat>, live: Ids, key: Key, id: nat)
    requires Range(active, live) && key !in live
    ensures Range(active + {id}, live[key := id])
  {
    forall x | x in active + {id} ensures Held(live[key := id], x) {
      if x in active {
        var k :| Holds(live, k, x);
        assert Holds(live[key := id], k, x);
      } else {
        assert Holds(live[key := id], key, x);
      }
    }
  }

  lemma ReinstateFiles(t: Tables, key: Key)
    requires Consistent(t) && key in t.remembered && t.remembered[key] in t.oldDevices
    ensures var u := Reinstate(t, key);
            Filed(u.devices, u.live) && Filed(u.oldDevices, u.remembered)
            && forall k :: k in u.remembered ==> u.remembered[k] in u.oldDevices
  {
    hide Range, Remembers;
    var u, id := Reinstate(t, key), t.remembered[key];
    SameOwner(t.live, t.remembered, t.oldDevices[id].key, key);
    forall k | k in u.remembered ensures u.remembered[k] in u.oldDevices {
      if t.remembered[k] == id {
        SameOwner(t.live, t.remembered, k, key);
      }
    }
  }

  lemma SameOwner(live: Ids, remembered: Ids, j: Key, k: Key)
    requires Distinct(live, remembered) && j in remembered && k in remembered && remembered[j] == remembered[k]
    ensures j == k
  {
    var ids := live + remembered;
    assert ids[j] == remembered[j] && ids[k] == remembered[k];
  }

  lemma ReinstateKeeps(t: Tables, key: Key)
    requires Consistent(t) && key in t.remembered
    ensures t.remembered[key] in t.oldDevices && Consistent(Reinstate(t, key))
  {
    var u := Reinstate(t, key);
    LiveOwner(t);
    RangeGrows(t.active, t.live, key, t.remembered[key]);
    ReinstateFiles(t, key);
    assert u.live + u.remembered == t.live + t.remembered;
    hide Range, Filed, OneToOne;
    ReinstateRemembers(t, key);
    hide Remembers;
  }

  lemma ReinstateRemembers(t: Tables, key: Key)
    requires Remembers(t) && key in t.remembered && t.remembered[key] in t.oldDevices
    requires t.live.Keys !! t.remembered.Keys
    requires forall k :: k in t.live ==> t.live[k] != t.remembered[key]
    ensures Remembers(Reinstate(t, key))
  {
  }

  ghost predicate InUse(t: Tables, id: nat) {
    Held(t.live + t.remembered, id)
  }

  lemma UnusedHasNoDevice(t: Tables, id: nat)
    requires Consistent(t) && !InUse(t, id)
    ensures id !in t.devices && id !in t.oldDevices
  {
    hide Range, Remembers;
    var ids := t.live + t.remembered;
    forall d | d in t.devices ensures Holds(ids, t.devices[d].key, d) {
    }
    forall d | d in t.oldDevices ensures Holds(ids, t.oldDevices[d].key, d) {
    }
  }

  lemma AllocateUnused(t: Tables, key: Key, id: nat)
    requires Consistent(t) && key !in t.live && key !in t.remembered && !InUse(t, id)
    ensures Consistent(Allocate(t, key, id))
  {
    var u, ids := Allocate(t, key, id), t.live + t.remembered;
    assert u.live + u.remembered == ids[key := id];
    UnusedHasNoDevice(t, id);
    RangeGrows(t.active, t.live, key, id);
    NewIdIsDistinct(ids, key, id);
    hide Range, OneToOne, Held;
  }

  lemma AllocateUsed(t: Tables, key: Key, id: nat)
    requires key !in t.live && key !in t.remembered && InUse(t, id)
    ensures !Consistent(Allocate(t, key, id))
  {
    var u, ids := Allocate(t, key, id), t.live + t.remembered;
    hide Range, Filed, Remembers;
    var k :| Holds(ids, k, id);
    var all := u.live + u.remembered;
    assert all == ids[key := id];
    assert all[k] == all[key] && k != key;
  }

  /** A new device keeps all ids distinct exactly when its id is not in use, live or
      remembered. */
  lemma AllocateKeeps(t: Tables, key: Key, id: nat)
    requires Consistent(t) && key !in t.live && key !in t.remembered
    ensures Consistent(Allocate(t, key, id)) <==> !InUse(t, id)
  {
    hide Consistent, InUse;
    if InUse(t, id) {
      AllocateUsed(t, key, id);
    } else {
      AllocateUnused(t, key, id);
    }
  }

  lemma NewIdIsDistinct(ids: Ids, key: Key, id: nat)
    requires OneToOne(ids) && key !in ids && !Held(ids, id)
    ensures OneToOne(ids[key := id])
  {
    forall k | k in ids ensures ids[k] != id {
      assert !Holds(ids, k, id);
    }
  }

  lemma DescribeKeeps(t: Tables, key: Key, descriptor: Descriptor)
    requires Consistent(t) && key in t.live
    ensures Consistent(Describe(t, key, descriptor))
  {
    hide Range;
    LiveOwner(t);
    hide OneToOne;
  }

  lemma UndefineKeeps(t: Tables, key: Key)
    requires Consistent(t) && key in t.live
    ensures Consistent(Undefine(t, key))
  {
    hide Range;
    LiveOwner(t);
    hide OneToOne;
  }

  lemma LiveOwner(t: Tables)
    requires Consistent(t)
    ensures forall j, k :: j in t.live && k in t.live && t.live[j] == t.live[k] ==> j == k
    ensures forall j, k :: j in t.live && k in t.remembered ==> t.live[j] != t.remembered[k]
  {
    hide Range, Filed, Remembers;
    var ids := t.live + t.remembered;
    assert forall k :: k in t.live ==> k in ids && ids[k] == t.live[k];
    assert forall k :: k in t.remembered ==> k in ids && ids[k] == t.remembered[k];
  }

  // ---- Dropping a source ----

  lemma DropRange(active: set<nat>, live: Ids, srcTag: U32)
    requires Range(active, live)
    requires forall j, k :: j in live && k in live && live[j] == live[k] ==> j == k
    ensures Range(Deactivating(active, live, srcTag, {}), Unmapping(live, srcTag, {}))
  {
    var rest := Unmapping(live, srcTag, {});
    var removed := set k | k in live && k.srcTag == srcTag && k !in {} :: live[k];
    forall id | id in active - removed ensures Held(rest, id) {
      assert Held(live, id);
      var k :| Holds(live, k, id);
      assert Holds(rest, k, id);
    }
  }

  lemma DropFiles(t: Tables, srcTag: U32)
    requires Consistent(t)
    ensures var u := Drop(t, srcTag);
            Filed(u.devices, u.live) && Filed(u.oldDevices, u.remembered)
            && forall k :: k in u.remembered ==> u.remembered[k] in u.oldDevices
  {
    hide Range, Remembers;
    LiveOwner(t);
    hide OneToOne;
    var u := Drop(t, srcTag);
    forall k | k in u.remembered ensures u.remembered[k] in u.oldDevices {
      if k !in t.remembered {
        assert t.devices[t.live[k]].key == k;
      }
    }
    forall id | id in u.oldDevices ensures Holds(u.remembered, u.oldDevices[id].key, id) {
    }
  }

  lemma DropDistinct(t: Tables, srcTag: U32)
    requires Distinct(t.live, t.remembered)
    ensures Distinct(Drop(t, srcTag).live, Drop(t, srcTag).remembered)
  {
    var u := Drop(t, srcTag);
    var ids, rest := t.live + t.remembered, u.live + u.remembered;
    assert forall k :: k in rest ==> k in ids && rest[k] == ids[k];
    forall j, k | j in rest && k in rest && rest[j] == rest[k] ensures j == k {
      assert ids[j] == ids[k];
    }
  }

  /** `Remembers`, for one device. */
  ghost predicate RemembersKey(t: Tables, k: Key) {
    && (k in t.given <==> (k in t.live && t.live[k] in t.devices) || k in t.remembered)
    && (k in t.given && k in t.live ==> t.given[k] == t.live[k])
    && (k in t.given && k in t.remembered ==> t.given[k] == t.remembered[k])
  }

  lemma DropRemembersKey(t: Tables, srcTag: U32, k: Key)
    requires Filed(t.devices, t.live) && RemembersKey(t, k)
    requires forall j, k :: j in t.live && k in t.live && t.live[j] == t.live[k] ==> j == k
    ensures RemembersKey(Drop(t, srcTag), k)
  {
  }

  lemma DropRemembers(t: Tables, srcTag: U32)
    requires Consistent(t)
    ensures Remembers(Drop(t, srcTag))
  {
    LiveOwner(t);
    hide Range, Distinct, Filed, Drop, Remembers, RemembersKey;
    forall k: Key ensures RemembersKey(Drop(t, srcTag), k) {
      RemembersOne(t, k);
      DropRemembersKey(t, srcTag, k);
    }
    RemembersAll(Drop(t, srcTag));
  }

  lemma RemembersOne(t: Tables, k: Key)
    requires Remembers(t)
    ensures RemembersKey(t, k)
  {
  }

  lemma RemembersAll(t: Tables)
    requires forall k :: RemembersKey(t, k)
    ensures Remembers(t)
  {
    forall k: Key
      ensures k in t.given <==> (k in t.live && t.live[k] in t.devices) || k in t.remembered
      ensures k in t.given && k in t.live ==> t.given[k] == t.live[k]
      ensures k in t.given && k in t.remembered ==> t.given[k] == t.remembered[k]
    {
      assert RemembersKey(t, k);
    }
  }

  /** Dropping a source forgets none of its described devices. */
  lemma DropKeeps(t: Tables, srcTag: U32)
    requires Consistent(t)
    ensures Consistent(Drop(t, srcTag))
  {
    LiveOwner(t);
    DropRange(t.active, t.live, srcTag);
    DropFiles(t, srcTag);
    DropDistinct(t, srcTag);
    DropRemembers(t, srcTag);
    hide Range, Filed, Distinct, Remembers;
  }

  // ---- One source's devices, moved one by one ----

  lemma MoveIdOne(live: Ids, devices: map<nat, Device>, srcTag: U32, todo: set<nat>, key: Key)
    requires key in live && live[key] in todo && live[key] in devices
    requires forall k :: k in live && live[k] == live[key] ==> k == key
    ensures MovedIds(live, devices, srcTag, todo - {live[key]}) ==
            if key.srcTag == srcTag then MovedIds(live, devices, srcTag, todo)[key := live[key]]
            else MovedIds(live, devices, srcTag, todo)
  {
  }

  lemma MoveDeviceOne(devices: map<nat, Device>, srcTag: U32, todo: set<nat>, id: nat)
    requires id in todo && id in devices
    ensures MovedDevices(devices, srcTag, todo - {id}) ==
            if devices[id].key.srcTag == srcTag then MovedDevices(devices, srcTag, todo)[id := devices[id]]
            else MovedDevices(devices, srcTag, todo)
    ensures KeptDevices(devices, srcTag, todo - {id}) ==
            if devices[id].key.srcTag == srcTag then KeptDevices(devices, srcTag, todo) - {id}
            else KeptDevices(devices, srcTag, todo)
  {
  }

  lemma MoveOne(t: Tables, srcTag: U32, todo: set<nat>, id: nat)
    requires Consistent(t) && id in todo && id in t.devices
    ensures var u, v, key := Moving(t, srcTag, todo), Moving(t, srcTag, todo - {id}), t.devices[id].key;
            v == if key.srcTag == srcTag
                 then u.(remembered := u.remembered[key := id], devices := u.devices - {id},
                         oldDevices := u.oldDevices[id := t.devices[id]])
                 else u
  {
    hide Consistent, MovedIds, MovedDevices, KeptDevices;
    var key := t.devices[id].key;
    FiledOwner(t, id);
    MoveIdOne(t.live, t.devices, srcTag, todo, key);
    MoveDeviceOne(t.devices, srcTag, todo, id);
    PlusUpdate(t.remembered, MovedIds(t.live, t.devices, srcTag, todo), key, id);
    PlusUpdate(t.oldDevices, MovedDevices(t.devices, srcTag, todo), id, t.devices[id]);
  }

  lemma FiledOwner(t: Tables, id: nat)
    requires Consistent(t) && id in t.devices
    ensures var key := t.devices[id].key;
            key in t.live && t.live[key] == id && forall k :: k in t.live && t.live[k] == t.live[key] ==> k == key
  {
    LiveOwner(t);
    hide Range, Remembers, Distinct;
  }

  lemma PlusUpdate<K, V>(a: map<K, V>, b: map<K, V>, k: K, v: V)
    ensures (a + b)[k := v] == a + b[k := v]
  {
  }

  lemma UnmapOne(active: set<nat>, live: Ids, srcTag: U32, todo: set<Key>, key: Key)
    requires key in todo && key in live
    ensures Unmapping(live, srcTag, todo - {key}) ==
            if key.srcTag == srcTag then Unmapping(live, srcTag, todo) - {key} else Unmapping(live, srcTag, todo)
    ensures Deactivating(active, live, srcTag, todo - {key}) ==
            if key.srcTag == srcTag then Deactivating(active, live, srcTag, todo) - {live[key]}
            else Deactivating(active, live, srcTag, todo)
  {
  }

  lemma NothingMoved(t: Tables, srcTag: U32)
    ensures Moving(t, srcTag, t.devices.Keys) == t
    ensures Unmapping(t.live, srcTag, t.live.Keys) == t.live
    ensures Deactivating(t.active, t.live, srcTag, t.live.Keys) == t.active
  {
  }

  // ---- The manager ----

  ghost predicate Unwrapped(live: Ids, remembered: Ids, next: nat) {
    0 < next && AllBelow(live, next) && AllBelow(remembered, next)
  }

  lemma BelowIsFree(t: Tables, next: nat, id: nat)
    requires Unwrapped(t.live, t.remembered, next) && id >= next
    ensures !InUse(t, id)
  {
  }

  /** A wrapped counter can give out the id of a remembered device. */
  lemma WrapForgetsRemembered()
    ensures var key := Key(1, 1);
            var t := Tables(map[], map[key := 1], map[], map[1 := Device(key, Descriptor(0, ""))], {}, map[key := 1]);
            Consistent(t) && 1 !in t.active && !Consistent(Allocate(t, Key(2, 1), 1))
  {
    var key := Key(1, 1);
    var t := Tables(map[], map[key := 1], map[], map[1 := Device(key, Descriptor(0, ""))], {}, map[key := 1]);
    assert Holds(t.live + t.remembered, key, 1);
    AllocateUsed(t, Key(2, 1), 1);
  }

  /** What is known of a device, live or remembered. */
  ghost function Known(t: Tables, key: Key): Option<Descriptor> {
    if key in t.live && t.live[key] in t.devices then Some(t.devices[t.live[key]].descriptor)
    else if key in t.remembered && t.remembered[key] in t.oldDevices then Some(t.oldDevices[t.remembered[key]].descriptor)
    else None
  }

  /** A device's id is its own, its old one with all that was known of it, or new. */
  ghost predicate AllocatedAs(t: Tables, u: Tables, key: Key, id: nat, reconnected: bool) {
    if key in t.live then
      !reconnected && id == t.live[key] && u == t
    else if key in t.remembered then
      && reconnected && id == t.remembered[key] && id in t.oldDevices
      && u == Reinstate(t, key)
    else
      !reconnected && id !in t.active && u == Allocate(t, key, id)
  }

  ghost predicate FiledAs(t: Tables, u: Tables, key: Key, descriptor: Descriptor, reconnected: bool,
                          emitted: seq<(nat, Descriptor)>)
    requires key in t.live
  {
    var id := t.live[key];
    if id in t.devices && t.devices[id].descriptor == descriptor then
      u == t && emitted == if reconnected then [(id, descriptor)] else []
    else if id in t.devices && descriptor.text == "" then
      u == Undefine(t, key) && emitted == []
    else
      u == Describe(t, key, descriptor) && emitted == [(id, descriptor)]
  }

  // ---- The manager as a function of its operations ----

  /** The tables, the counter and what the stream has been given. */
  datatype State = State(tables: Tables, next: nat, stream: seq<(nat, Descriptor)>)

  datatype Op = Alloc(key: Key) | Update(key: Key, descriptor: Descriptor) | DropSource(srcTag: U32)

  /** The least id from `n` on that is not active. */
  function FreeFrom(active: set<nat>, n: nat): (id: nat)
    ensures n <= id && id !in active && forall x :: n <= x < id ==> x in active
    decreases active
  {
    if n in active then FreeFrom(active - {n}, n + 1) else n
  }

  /** The counter starts over at the reserved range. */
  function StartOf(next: nat): nat {
    if next == 0 || next >= RESERVED then 1 else next
  }

  /** Where a device's id comes from, and whether it has come back. */
  function IdFor(s: State, key: Key): (nat, bool) {
    var t := s.tables;
    if key in t.live then (t.live[key], false)
    else if key in t.remembered && t.remembered[key] in t.oldDevices then (t.remembered[key], true)
    else (FreeFrom(t.active, StartOf(s.next)), false)
  }

  function Allocated(s: State, key: Key): (u: State)
    ensures key in u.tables.live
  {
    var t, (id, reconnected) := s.tables, IdFor(s, key);
    if key in t.live then s
    else if reconnected then s.(tables := Reinstate(t, key))
    else s.(tables := Allocate(t, key, id), next := id + 1)
  }

  /** A descriptor filed for a live device. */
  ghost function Described(s: State, key: Key, descriptor: Descriptor, reconnected: bool): State
    requires key in s.tables.live
  {
    var t, id := s.tables, s.tables.live[key];
    if id in t.devices && t.devices[id].descriptor == descriptor then
      if reconnected then s.(stream := s.stream + [(id, descriptor)]) else s
    else if id in t.devices && descriptor.text == "" then s.(tables := Undefine(t, key))
    else s.(tables := Describe(t, key, descriptor), stream := s.stream + [(id, descriptor)])
  }

  ghost function Performed(s: State, op: Op): State {
    match op
    case Alloc(key) => Allocated(s, key)
    case Update(key, descriptor) => Described(Allocated(s, key), key, descriptor, IdFor(s, key).1)
    case DropSource(srcTag) => s.(tables := Drop(s.tables, srcTag))
  }

  ghost function PerformedAll(s: State, ops: seq<Op>): State {
    if ops == [] then s else Performed(PerformedAll(s, ops[..|ops| - 1]), ops[|ops| - 1])
  }

  lemma FreeIsUnique(active: set<nat>, n: nat, id: nat)
    requires n <= id && id !in active && forall x :: n <= x < id ==> x in active
    ensures id == FreeFrom(active, n)
  {
  }

  lemma PerformedNext(s: State, ops: seq<Op>, n: nat)
    requires n < |ops|
    ensures PerformedAll(s, ops[..n + 1]) == Performed(PerformedAll(s, ops[..n]), ops[n])
  {
    assert ops[..n + 1][..n] == ops[..n];
    hide Performed;
  }

  /** Whether an operation may undefine a device. */
  predicate Undefines(op: Op, key: Key) {
    op.Update? && op.key == key && op.descriptor.text == ""
  }

  predicate NeverUndefined(ops: seq<Op>, key: Key) {
    forall i :: 0 <= i < |ops| ==> !Undefines(ops[i], key)
  }

  /** What one operation does to the record of given ids: none is changed or lost but by
      an undefining descriptor, and a described device has one. */
  ghost predicate Keeps(after: Ids, before: Ids, op: Op) {
    && (forall k :: k in before && !Undefines(op, k) ==> k in after && after[k] == before[k])
    && (op.Update? && op.descriptor.text != "" ==> op.key in after)
  }

  ghost predicate KeepsAt(s: State, ops: seq<Op>, n: nat)
    requires n < |ops|
  {
    Keeps(PerformedAll(s, ops[..n + 1]).tables.given, PerformedAll(s, ops[..n]).tables.given, ops[n])
  }

  /** A device described by operation `i`, and not undefined by those up to `j`, still
      has the id it was given then. */
  ghost predicate Lasts(s: State, ops: seq<Op>, i: nat, j: nat)
    requires i < j <= |ops|
  {
    ops[i].Update? && ops[i].descriptor.text != "" && NeverUndefined(ops[i + 1..j], ops[i].key) ==>
      var first, now := PerformedAll(s, ops[..i + 1]).tables.given, PerformedAll(s, ops[..j]).tables.given;
      ops[i].key in first && ops[i].key in now && now[ops[i].key] == first[ops[i].key]
  }

  lemma {:induction false} IdLasts(s: State, ops: seq<Op>, i: nat, j: nat)
    requires i < j <= |ops| && forall n :: 0 <= n < j ==> KeepsAt(s, ops, n)
    ensures Lasts(s, ops, i, j)
  {
    hide PerformedAll;
    assert KeepsAt(s, ops, j - 1);
    if i + 1 < j && ops[i].Update? && NeverUndefined(ops[i + 1..j], ops[i].key) {
      assert ops[i + 1..j - 1] == ops[i + 1..j][..j - i - 2];
      assert ops[i + 1..j][j - i - 2] == ops[j - 1];
      IdLasts(s, ops, i, j - 1);
    }
  }

  /** What a descriptor changes: its device keeps the id it was given, only its own
      device is touched, and the stream gets what a reader has not seen. */
  ghost predicate Updated(t: Tables, u: Tables, key: Key, descriptor: Descriptor, emitted: seq<(nat, Descriptor)>) {
    && key in u.live
    && var id, known := u.live[key], Known(t, key);
    && (key in t.given ==> id == t.given[key])
    && u.devices - {id} == t.devices - {id}
    && if known == Some(descriptor) then
         && u.given == t.given && id in u.devices && u.devices[id] == Device(key, descriptor)
         && emitted == if key in t.remembered then [(id, descriptor)] else []
       else if known.Some? && descriptor.text == "" then
         u.given == t.given - {key} && id !in u.devices && emitted == []
       else
         && u.given == t.given[key := id] && id in u.devices && u.devices[id] == Device(key, descriptor)
         && emitted == [(id, descriptor)]
  }

  lemma KnownDescriptor(t: Tables, key: Key)
    requires Consistent(t)
    ensures Known(t, key).Some? <==> key in t.given
    ensures key in t.live ==> key !in t.remembered
    ensures key in t.live && t.live[key] in t.devices ==> t.devices[t.live[key]].key == key
    ensures key in t.remembered ==> t.remembered[key] in t.oldDevices && t.oldDevices[t.remembered[key]].key == key
    ensures key in t.given && key in t.live ==> t.given[key] == t.live[key]
    ensures key in t.given && key in t.remembered ==> t.given[key] == t.remembered[key]
  {
    LiveOwner(t);
    hide Range;
    if key in t.remembered {
      SameOwner(t.live, t.remembered, t.oldDevices[t.remembered[key]].key, key);
    }
  }

  lemma NewIsUndescribed(t: Tables, id: nat)
    requires Consistent(t)
    ensures id !in t.active ==> id !in t.devices
  {
  }

  lemma AllocatedIsKey(t: Tables, u: Tables, key: Key, id: nat, reconnected: bool)
    requires Consistent(t) && AllocatedAs(t, u, key, id, reconnected)
    ensures key in u.live && u.live[key] == id
    ensures id in u.devices ==> u.devices[id].key == key
  {
    KnownDescriptor(t, key);
    NewIsUndescribed(t, id);
    hide Consistent;
  }

  lemma OthersUntouched(devices: map<nat, Device>, id: nat, device: Device)
    ensures devices[id := device] - {id} == devices - {id}
    ensures devices - {id} - {id} == devices - {id}
  {
  }

  lemma AllocatedDevices(t: Tables, u: Tables, key: Key, id: nat, reconnected: bool)
    requires Consistent(t) && AllocatedAs(t, u, key, id, reconnected)
    ensures key in u.live && u.live[key] == id && u.given == t.given
    ensures u.devices - {id} == t.devices - {id}
    ensures Known(t, key) == if id in u.devices then Some(u.devices[id].descriptor) else None
    ensures id in u.devices ==> u.devices[id].key == key
    ensures reconnected == (key in t.remembered)
  {
    KnownDescriptor(t, key);
    NewIsUndescribed(t, id);
    hide Consistent;
    if reconnected {
      OthersUntouched(t.devices, id, t.oldDevices[id]);
    }
  }

  lemma FiledIs(t: Tables, u: Tables, key: Key, descriptor: Descriptor, reconnected: bool, emitted: seq<(nat, Descriptor)>)
    requires key in t.live && FiledAs(t, u, key, descriptor, reconnected, emitted)
    requires t.live[key] in t.devices ==> t.devices[t.live[key]].key == key
    ensures u.live == t.live
    ensures var id, known := t.live[key], if t.live[key] in t.devices then Some(t.devices[t.live[key]].descriptor) else None;
            && u.devices - {id} == t.devices - {id}
            && if known == Some(descriptor) then
                 && u.given == t.given && id in u.devices && u.devices[id] == Device(key, descriptor)
                 && emitted == if reconnected then [(id, descriptor)] else []
               else if known.Some? && descriptor.text == "" then
                 u.given == t.given - {key} && id !in u.devices && emitted == []
               else
                 && u.given == t.given[key := id] && id in u.devices && u.devices[id] == Device(key, descriptor)
                 && emitted == [(id, descriptor)]
  {
  }

  lemma UpdateIs(t: Tables, between: Tables, u: Tables, key: Key, id: nat, descriptor: Descriptor, reconnected: bool,
                 emitted: seq<(nat, Descriptor)>)
    requires Consistent(t) && AllocatedAs(t, between, key, id, reconnected) && key in between.live
    requires FiledAs(between, u, key, descriptor, reconnected, emitted)
    ensures Updated(t, u, key, descriptor, emitted)
  {
    KnownDescriptor(t, key);
    hide Consistent;
    AllocatedDevices(t, between, key, id, reconnected);
    FiledIs(between, u, key, descriptor, reconnected, emitted);
    hide FiledAs, AllocatedAs;
    AllocatedGiven(t, between, key, id, reconnected);
  }

  lemma AllocatedGiven(t: Tables, u: Tables, key: Key, id: nat, reconnected: bool)
    requires Consistent(t) && AllocatedAs(t, u, key, id, reconnected)
    ensures key in t.given ==> id == t.given[key]
  {
  }

  lemma ReinstateBelow(t: Tables, key: Key, next: nat)
    requires key in t.remembered && t.remembered[key] in t.oldDevices
    ensures Unwrapped(t.live, t.remembered, next) ==> Unwrapped(Reinstate(t, key).live, Reinstate(t, key).remembered, next)
  {
  }

  lemma AllocateBelow(t: Tables, key: Key, id: nat, next: nat)
    requires Unwrapped(t.live, t.remembered, next) && id >= next
    ensures Unwrapped(Allocate(t, key, id).live, t.remembered, id + 1)
    ensures NonZero(Allocate(t, key, id).live)
  {
  }

  lemma StillThere(t: Tables, srcTag: U32, todo: set<nat>, id: nat)
    requires id in todo && id in t.devices
    ensures id in Moving(t, srcTag, todo).devices && Moving(t, srcTag, todo).devices[id] == t.devices[id]
  {
  }

  lemma StillMapped(live: Ids, srcTag: U32, todo: set<Key>, key: Key)
    requires key in todo && key in live
    ensures key in Unmapping(live, srcTag, todo) && Unmapping(live, srcTag, todo)[key] == live[key]
  {
  }

  lemma MovingLeaves(t: Tables, srcTag: U32)
    ensures var u := Moving(t, srcTag, {}); u.live == t.live && u.active == t.active && u.given == t.given
  {
  }

  lemma DropBelow(t: Tables, srcTag: U32, next: nat)
    ensures var u := Drop(t, srcTag);
            && (Unwrapped(t.live, t.remembered, next) ==> Unwrapped(u.live, u.remembered, next))
            && (NonZero(t.live) && NonZero(t.remembered) ==> NonZero(u.live) && NonZero(u.remembered))
  {
  }

  // ---- What consistency gives ----

  /** No two devices share an id, and the active ids are those of the live devices. */
  lemma IdsAreDistinct(t: Tables)
    requires Consistent(t)
    ensures t.active == t.live.Values
    ensures forall j, k :: j in t.live && k in t.live && j != k ==> t.live[j] != t.live[k]
    ensures forall j, k :: j in t.remembered && k in t.remembered && j != k ==> t.remembered[j] != t.remembered[k]
    ensures forall j, k :: j in t.live && k in t.remembered ==> t.live[j] != t.remembered[k]
  {
    LiveOwner(t);
    forall j, k | j in t.remembered && k in t.remembered && t.remembered[j] == t.remembered[k] ensures j == k {
      SameOwner(t.live, t.remembered, j, k);
    }
    hide Distinct, Remembers, Filed;
    forall id | id in t.active ensures id in t.live.Values {
      assert Held(t.live, id);
    }
  }

  /** A described device whose source drops comes back as it was. */
  lemma ReturnsAsItWas(t: Tables, key: Key)
    requires Consistent(t) && key in t.live && t.live[key] in t.devices
    ensures var id, u := t.live[key], Drop(t, key.srcTag);
            && key !in u.live && id !in u.active && id !in u.devices
            && key in u.remembered && u.remembered[key] == id && id in u.oldDevices
            && var v := Reinstate(u, key);
            && v.live[key] == id && v.devices[id] == t.devices[id] && id in v.active
  {
    KnownDescriptor(t, key);
    hide Consistent;
  }
}

/**
 The table of shared memory objects, their usage counts and the devices' lists, with the steps
 that change it.  `holds` collects the references in the hands of running code: those of client
 calls in flight and, inside a step, the one being moved.
 */
module SharedTable {
  import opened Options
  import opened Folding
  import opened Machine
  import opened ZoneSpec
  import opened BuddyZone

  datatype MemType = Vmalloc | Reserved

  /** `struct tc_ns_shared_mem` but for its usage count; `None` stands for INVALID_MAP_ADDR. */
  datatype Shm = Shm(dev: nat, userAddr: Option<nat>, caAddr: Option<nat>, len: nat,
                     memType: MemType, kernelAddr: nat, offset: int)

  /** What `atomic_set` keeps of a page offset. */
  function StoredOffset(pgoff: nat): int {
    var low := pgoff % TWO32;
    if low < TWO31 then low else low - TWO32
  }

  /** The comparison of `(unsigned long)atomic_read` with a page offset. */
  predicate OffsetMatches(offset: int, pgoff: nat) {
    pgoff == if offset >= 0 then offset else offset + TWO64
  }

  /** An object is found again by its own page offset exactly when that offset fits a signed 32-bit number. */
  lemma FoundByOwnOffset(pgoff: nat)
    requires pgoff < TWO64
    ensures OffsetMatches(StoredOffset(pgoff), pgoff) <==> pgoff < TWO31 || pgoff >= TWO64 - TWO31
  {
    var low, high := pgoff % TWO32, pgoff / TWO32;
    assert pgoff == TWO32 * high + low;
    if pgoff >= TWO64 - TWO31 {
      assert high == TWO32 - 1;
    }
  }

  predicate Maps(o: Shm, addr: nat) {
    o.userAddr == Some(addr) || o.caAddr == Some(addr)
  }

  predicate Mapped(o: Shm) {
    o.userAddr.Some? || o.caAddr.Some?
  }

  function Mappings(o: Shm): nat {
    (if o.userAddr.Some? then 1 else 0) + (if o.caAddr.Some? then 1 else 0)
  }

  /** The object after the mapping at `start` is gone. */
  function Unmap(o: Shm, start: nat): Shm {
    if o.userAddr == Some(start) then o.(userAddr := None) else o.(caAddr := None)
  }

  type Objects = map<nat, Shm>

  /** All shared memory objects, their usage counts and each device's `shared_mem_list`. */
  datatype Table = Table(objs: Objects, usage: map<nat, nat>, lists: map<nat, seq<nat>>, nextId: nat)

  /** The usage count is the number of live mappings plus the references held, and never zero. */
  ghost predicate CountsOk(objs: Objects, usage: map<nat, nat>, holds: multiset<nat>) {
    && usage.Keys == objs.Keys
    && (forall i :: i in objs ==> usage[i] == Mappings(objs[i]) + holds[i] && usage[i] >= 1)
    && (forall i :: i in holds ==> i in objs)
  }

  /** An object is on its device's list exactly while it is mapped. */
  ghost predicate OnList(objs: Objects, lists: map<nat, seq<nat>>) {
    && (forall d :: d in lists ==> NoDup(lists[d]))
    && (forall d, i :: d in lists && i in lists[d] ==> i in objs && objs[i].dev == d && Mapped(objs[i]))
    && (forall i :: i in objs && Mapped(objs[i]) ==> objs[i].dev in lists && i in lists[objs[i].dev])
  }

  predicate MapsOn(objs: Objects, i: nat, dev: nat, addr: nat) {
    i in objs && objs[i].dev == dev && Maps(objs[i], addr)
  }

  ghost predicate Backs(objs: Objects, i: nat, h: nat) {
    i in objs && objs[i].memType == Reserved && objs[i].kernelAddr == h
  }

  /** The reserved blocks handed out are the memory of the reserved objects, one block each. */
  ghost predicate PoolOk(objs: Objects, live: LiveMap) {
    && (forall h :: h in live ==> exists i :: Backs(objs, i, h))
    && (forall i, h :: Backs(objs, i, h) ==> h in live)
    && (forall i, j, h :: Backs(objs, i, h) && Backs(objs, j, h) ==> i == j)
  }

  ghost predicate Consistent(t: Table, holds: multiset<nat>, live: LiveMap) {
    && CountsOk(t.objs, t.usage, holds) && OnList(t.objs, t.lists) && PoolOk(t.objs, live)
    && (forall i :: i in t.objs ==> i < t.nextId && t.objs[i].len < TWO32)
  }

  ghost function TableHealth(t: Table, holds: multiset<nat>, live: LiveMap): Health {
    if forall k :: Unfold(k) ==> Consistent(t, holds, live) then Sound else Broken
  }

  ghost predicate TableOk(t: Table, holds: multiset<nat>, live: LiveMap) {
    TableHealth(t, holds, live) == Sound
  }

  /** One reference more. */
  function Gotten(t: Table, id: nat): Table
    requires id in t.usage
  {
    t.(usage := t.usage[id := t.usage[id] + 1])
  }

  /** One reference less; the last one takes the object with it. */
  function Put(t: Table, id: nat): Table
    requires id in t.usage && t.usage[id] >= 1
  {
    if t.usage[id] == 1 then t.(objs := t.objs - {id}, usage := t.usage - {id})
    else t.(usage := t.usage[id := t.usage[id] - 1])
  }

  ghost function LiveAfter(o: Shm, live: LiveMap): LiveMap {
    if o.memType == Reserved then Without(live, o.kernelAddr) else live
  }

  /** The reserved blocks handed out after a reference to `id` is given up. */
  ghost function PutLive(t: Table, id: nat, live: LiveMap): LiveMap
    requires id in t.usage && id in t.objs
  {
    if t.usage[id] == 1 then LiveAfter(t.objs[id], live) else live
  }

  /** A held reference becomes the second mapping of an object. */
  function Attached(t: Table, id: nat, start: nat): Table
    requires id in t.objs
  {
    t.(objs := t.objs[id := t.objs[id].(caAddr := Some(start))])
  }

  /** The mapping at `start` is gone; its reference is now held by the closing code. */
  function Detached(t: Table, dev: nat, id: nat, start: nat): Table
    requires id in t.objs && dev in t.lists
  {
    var o := Unmap(t.objs[id], start);
    t.(objs := t.objs[id := o], lists := if Mapped(o) then t.lists else t.lists[dev := Remove(t.lists[dev], id)])
  }

  /** A new object with its first mapping. */
  function Added(t: Table, o: Shm): Table
    requires o.dev in t.lists
  {
    Table(t.objs[t.nextId := o], t.usage[t.nextId := 1], t.lists[o.dev := t.lists[o.dev] + [t.nextId]], t.nextId + 1)
  }

  lemma TableFacts(t: Table, holds: multiset<nat>, live: LiveMap)
    requires TableOk(t, holds, live)
    ensures Consistent(t, holds, live)
  {
    assert Unfold(0);
  }

  lemma StillUsed(t: Table, holds: multiset<nat>, live: LiveMap, id: nat)
    requires TableOk(t, holds, live) && id in holds && id in t.objs && Mapped(t.objs[id])
    ensures id in t.usage && t.usage[id] > 1
  {
    TableFacts(t, holds, live);
  }

  /** Usage counts are determined by the mappings and the references held. */
  lemma UsageDetermined(t: Table, t': Table, holds: multiset<nat>, live: LiveMap, live': LiveMap)
    requires TableOk(t, holds, live) && TableOk(t', holds, live')
    requires t.objs == t'.objs && t.lists == t'.lists && t.nextId == t'.nextId
    ensures t == t'
  {
    TableFacts(t, holds, live);
    TableFacts(t', holds, live');
    assert t.usage == t'.usage;
  }

  lemma GottenOk(t: Table, holds: multiset<nat>, live: LiveMap, id: nat)
    requires TableOk(t, holds, live) && id in t.objs
    ensures id in t.usage && TableOk(Gotten(t, id), holds + multiset{id}, live)
  {
    TableFacts(t, holds, live);
    assert Consistent(Gotten(t, id), holds + multiset{id}, live);
  }

  lemma PutOk(t: Table, holds: multiset<nat>, live: LiveMap, id: nat)
    requires TableOk(t, holds, live) && id in holds
    ensures id in t.objs && id in t.usage && t.usage[id] >= 1
    ensures TableOk(Put(t, id), holds - multiset{id}, PutLive(t, id, live))
  {
    TableFacts(t, holds, live);
    if t.usage[id] == 1 {
      Forget(t.objs, t.lists, id);
      PoolLoses(t.objs, live, id, LiveAfter(t.objs[id], live));
    }
    assert Consistent(Put(t, id), holds - multiset{id}, PutLive(t, id, live));
  }

  /** An object dies exactly when its last mapping and its last holder are gone, and its reserved block with it. */
  lemma FreedWithLastReference(t: Table, holds: multiset<nat>, live: LiveMap, id: nat)
    requires TableOk(t, holds, live) && id in holds
    ensures id in t.objs && id in t.usage && t.usage[id] >= 1
    ensures id in Put(t, id).objs <==> Mapped(t.objs[id]) || id in holds - multiset{id}
    ensures t.objs[id].memType == Reserved ==>
      (t.objs[id].kernelAddr in PutLive(t, id, live) <==> id in Put(t, id).objs)
    ensures forall i :: i != id ==> (i in Put(t, id).objs <==> i in t.objs)
  {
    TableFacts(t, holds, live);
    if t.objs[id].memType == Reserved {
      assert Backs(t.objs, id, t.objs[id].kernelAddr);
    }
  }

  lemma AttachedOk(t: Table, holds: multiset<nat>, live: LiveMap, id: nat, start: nat)
    requires TableOk(t, holds, live)
    requires id in holds && id in t.objs && Mapped(t.objs[id]) && t.objs[id].caAddr.None?
    ensures TableOk(Attached(t, id, start), holds - multiset{id}, live)
  {
    TableFacts(t, holds, live);
    PoolSame(t.objs, live, Attached(t, id, start).objs);
    assert Consistent(Attached(t, id, start), holds - multiset{id}, live);
  }

  lemma DetachedOk(t: Table, holds: multiset<nat>, live: LiveMap, dev: nat, id: nat, start: nat)
    requires TableOk(t, holds, live) && dev in t.lists && MapsOn(t.objs, id, dev, start)
    ensures TableOk(Detached(t, dev, id, start), holds + multiset{id}, live)
  {
    TableFacts(t, holds, live);
    var t' := Detached(t, dev, id, start);
    DetachedList(t.objs, t.lists, dev, id, start);
    PoolSame(t.objs, live, t'.objs);
    assert Consistent(t', holds + multiset{id}, live);
  }

  lemma DetachedList(objs: Objects, lists: map<nat, seq<nat>>, dev: nat, id: nat, start: nat)
    requires OnList(objs, lists) && dev in lists && MapsOn(objs, id, dev, start)
    ensures var o := Unmap(objs[id], start);
            OnList(objs[id := o], if Mapped(o) then lists else lists[dev := Remove(lists[dev], id)])
  {
    RemoveOk(lists[dev], id);
  }

  lemma AddedOk(t: Table, holds: multiset<nat>, live: LiveMap, o: Shm, live': LiveMap)
    requires TableOk(t, holds, live)
    requires o.dev in t.lists && o.userAddr.Some? && o.caAddr.None? && o.len < TWO32
    requires Backing(o, live, live')
    ensures t.nextId !in t.objs && TableOk(Added(t, o), holds, live')
  {
    TableFacts(t, holds, live);
    AddedList(t.objs, t.lists, t.nextId, o);
    PoolGains(t.objs, live, t.nextId, o, live');
    assert Consistent(Added(t, o), holds, live');
  }

  lemma AddedList(objs: Objects, lists: map<nat, seq<nat>>, id: nat, o: Shm)
    requires OnList(objs, lists) && id !in objs && o.dev in lists && Mapped(o)
    ensures OnList(objs[id := o], lists[o.dev := lists[o.dev] + [id]])
  {
    assert id !in lists[o.dev];
  }

  lemma Forget(objs: Objects, lists: map<nat, seq<nat>>, id: nat)
    requires OnList(objs, lists) && id in objs && !Mapped(objs[id])
    ensures OnList(objs - {id}, lists)
  {
  }

  /** The pool's blocks before and after the memory of a new object was taken. */
  ghost predicate Backing(o: Shm, live: LiveMap, live': LiveMap) {
    if o.memType == Reserved then o.kernelAddr !in live && live'.Keys == live.Keys + {o.kernelAddr} else live'.Keys == live.Keys
  }

  lemma PoolLoses(objs: Objects, live: LiveMap, id: nat, live': LiveMap)
    requires PoolOk(objs, live) && id in objs
    requires live'.Keys == if objs[id].memType == Reserved then live.Keys - {objs[id].kernelAddr} else live.Keys
    ensures PoolOk(objs - {id}, live')
  {
    var objs' := objs - {id};
    forall i, h
      ensures Backs(objs', i, h) <==> Backs(objs, i, h) && i != id
    {
    }
    forall h | h in live'
      ensures exists i :: Backs(objs', i, h)
    {
      var i :| Backs(objs, i, h);
      assert Backs(objs', i, h);
    }
    forall i, h | Backs(objs', i, h)
      ensures h in live'
    {
      assert Backs(objs, i, h);
      assert objs[id].memType == Reserved ==> Backs(objs, id, objs[id].kernelAddr);
    }
  }

  lemma PoolGains(objs: Objects, live: LiveMap, id: nat, o: Shm, live': LiveMap)
    requires PoolOk(objs, live) && id !in objs
    requires Backing(o, live, live')
    ensures PoolOk(objs[id := o], live')
  {
    var objs' := objs[id := o];
    forall i, h
      ensures Backs(objs', i, h) <==> Backs(objs, i, h) || (i == id && o.memType == Reserved && h == o.kernelAddr)
    {
    }
    forall h | h in live'
      ensures exists i :: Backs(objs', i, h)
    {
      if h in live {
        var i :| Backs(objs, i, h);
        assert Backs(objs', i, h);
      } else {
        assert Backs(objs', id, h);
      }
    }
  }

  lemma PoolSame(objs: Objects, live: LiveMap, objs': Objects)
    requires PoolOk(objs, live)
    requires forall i, h :: Backs(objs', i, h) <==> Backs(objs, i, h)
    ensures PoolOk(objs', live)
  {
    forall h | h in live
      ensures exists i :: Backs(objs', i, h)
    {
      var i :| Backs(objs, i, h);
      assert Backs(objs', i, h);
    }
  }
}

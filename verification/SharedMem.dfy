/**
 Shared memory of the client device: allocation (`tc_mem_allocate`), the usage count
 (`get_sharemem_struct`, `put_sharemem_struct`) and the mappings that drive it
 (`tc_client_mmap`, `shared_vma_close`).  Each call runs under the device's list lock, so a
 method is one atomic step.
 */
module SharedMem {
  import opened Options
  import opened Folding
  import opened Machine
  import opened ZoneSpec
  import opened BuddyZone
  import opened BuddyLaws
  import opened ReservedPool
  import opened SharedTable
  import opened Mappings

  const MAILBOX_POOL_SIZE: nat := 0x400000

  lemma AttachMore(t: Table, holds: multiset<nat>, backed: LiveMap, id: nat, v: Vma, vmas: Vmas)
    requires TableOk(t, holds, backed) && Tallied(t, vmas) && v !in vmas
    requires id in t.objs && Mapped(t.objs[id]) && t.objs[id].caAddr.None?
    ensures id in t.usage && id in Gotten(t, id).objs
    ensures Tallied(Attached(Gotten(t, id), id, v.start), vmas[v := Own(t.objs[id].dev, id)])
    ensures Faithful(t, vmas) ==> Faithful(Attached(Gotten(t, id), id, v.start), vmas[v := Own(t.objs[id].dev, id)])
  {
    GottenOk(t, holds, backed, id);
    UsageApart(t, Gotten(t, id), vmas);
    AttachedTally(Gotten(t, id), holds + multiset{id}, backed, id, v, vmas);
    if Faithful(t, vmas) {
      AttachedFaithful(Gotten(t, id), id, v, vmas);
    }
  }

  class SharedMemory {
    const pool: Zone
    const hasPool: bool
    const resSize: nat
    var t: Table
    ghost var holds: multiset<nat>
    /** The reserved blocks that the objects account for. */
    ghost var backed: LiveMap
    /** The live mappings and the objects they show. */
    ghost var vmas: Vmas

    ghost predicate PoolReady()
      reads pool, pool.tags, pool.areas
    {
      && BelowMax(pool)
      && (hasPool ==> IsPow2(resSize) && resSize >= MIN_RES_MEM_SIZE && pool.maxOrder == ResMaxOrder(resSize))
    }

    ghost predicate Valid()
      reads this, pool, pool.tags, pool.areas
    {
      PoolReady() && pool.live == backed && TableOk(t, holds, backed) && Tallied(t, vmas)
    }

    /** Every object records exactly its own mappings, so its life is exact (`LifetimeExact`). */
    ghost predicate Exact()
      reads this
    {
      Faithful(t, vmas)
    }

    constructor (pool: Zone, hasPool: bool, resSize: nat)
      requires BelowMax(pool) && pool.live == map[]
      requires hasPool ==> IsPow2(resSize) && resSize >= MIN_RES_MEM_SIZE && pool.maxOrder == ResMaxOrder(resSize)
      ensures Valid() && Exact() && t == Table(map[], map[], map[], 0) && holds == multiset{} && vmas == map[]
      ensures this.pool == pool && this.hasPool == hasPool && this.resSize == resSize
    {
      this.pool, this.hasPool, this.resSize := pool, hasPool, resSize;
      t, holds, backed, vmas := Table(map[], map[], map[], 0), multiset{}, map[], map[];
      new;
      assert Consistent(t, holds, backed);
      NothingMapped();
    }

    /** Opening the client device gives it an empty list. */
    method OpenDevice(dev: nat)
      requires Valid() && dev !in t.lists
      modifies this`t
      ensures Valid() && t == old(t).(lists := old(t.lists)[dev := []])
    {
      NewListOk(t, holds, backed, dev);
      NewListTally(t, dev, vmas);
      t := t.(lists := t.lists[dev := []]);
    }

    /** The reserved pool serves requests of this length. */
    ghost predicate PoolServes(len: nat)
      reads this, pool
    {
      hasPool && 0 < PageAlign(len) <= SliceSize(resSize) && pool.Available(OrderOf(PageAlign(len)))
    }

    /** `tc_mem_allocate` finds memory: the length is accepted, and the reserved pool or `vmalloc` has it. */
    ghost predicate MemoryFor(len: nat, kmallocOk: bool, vaddr: Option<nat>)
      reads this, pool
    {
      && kmallocOk && (hasPool ==> PageAlign(len) <= SliceSize(resSize))
      && (PoolServes(len) || (PageAlign(len) <= MAILBOX_POOL_SIZE && vaddr.Some?))
    }

    /** `tc_mem_allocate`: a slice of the reserved pool if it has one, else `vmalloc` memory at `vaddr`. */
    method TcMemAllocate(len: nat, kmallocOk: bool, vaddr: Option<nat>) returns (r: Option<(MemType, nat)>)
      requires PoolReady()
      modifies pool, pool.tags, pool.areas
      ensures PoolReady()
      ensures r.Some? <==> old(MemoryFor(len, kmallocOk, vaddr))
      ensures r.Some? ==> (r.value.0 == Reserved <==> old(PoolServes(len)))
      ensures r.Some? && r.value.0 == Reserved ==> r.value.1 !in old(pool.live)
      ensures r.Some? && r.value.0 == Reserved ==> pool.live == old(pool.live)[r.value.1 := OrderOf(PageAlign(len))]
      ensures r.Some? && r.value.0 == Vmalloc ==> vaddr == Some(r.value.1)
      ensures !(r.Some? && r.value.0 == Reserved) ==> pool.live == old(pool.live)
    {
      if !kmallocOk {
        return None;
      }
      var size := PageAlign(len);
      if hasPool {
        if size > SliceSize(resSize) {
          return None;
        }
        SliceBelowMax(resSize, size);
        assert Unfold(0);
        var page := pool.Alloc(size);
        if page.Some? {
          return Some((Reserved, page.value));
        }
      }
      if size > MAILBOX_POOL_SIZE || vaddr.None? {
        return None;
      }
      return Some((Vmalloc, vaddr.value));
    }

    /** `tc_mem_free` on the object's memory. */
    method TcMemFree(o: Shm)
      requires PoolReady()
      modifies pool, pool.tags, pool.areas
      ensures PoolReady() && pool.live == LiveAfter(o, old(pool.live))
    {
      if o.memType == Reserved {
        assert Unfold(0);
        pool.ReservedFree(o.kernelAddr);
      }
    }

    /** `get_sharemem_struct` on a live object. */
    method GetSharemem(id: nat)
      requires TableOk(t, holds, backed) && id in t.objs
      modifies this`t, this`holds
      ensures TableOk(t, holds, backed) && holds == old(holds) + multiset{id}
      ensures id in old(t.usage) && t == Gotten(old(t), id)
    {
      GottenOk(t, holds, backed, id);
      t := Gotten(t, id);
      holds := holds + multiset{id};
    }

    /** `get_sharemem_struct` by a client call. */
    method GetForCall(id: nat)
      requires Valid() && id in t.objs
      modifies this`t, this`holds
      ensures Valid() && holds == old(holds) + multiset{id}
      ensures t.objs == old(t.objs) && t.lists == old(t.lists) && t.nextId == old(t.nextId)
    {
      GetSharemem(id);
      UsageApart(old(t), t, vmas);
    }

    /** `put_sharemem_struct` by a client call on an object that is still mapped: the object stays. */
    method PutForCall(id: nat)
      requires Valid() && id in holds && id in t.objs && Mapped(t.objs[id])
      modifies this`t, this`holds, this`backed, pool, pool.tags, pool.areas
      ensures Valid() && holds == old(holds) - multiset{id} && pool.live == old(pool.live)
      ensures t.objs == old(t.objs) && t.lists == old(t.lists) && t.nextId == old(t.nextId)
    {
      StillUsed(t, holds, backed, id);
      PutSharemem(id);
    }

    /** Gives up a reference that was taken; the last one unlinks the object, whose memory is then returned. */
    method DropReference(id: nat) returns (dead: Option<Shm>)
      requires TableOk(t, holds, backed) && Tallied(t, vmas) && id in holds
      modifies this`t, this`holds, this`backed
      ensures id in old(t.objs) && id in old(t.usage) && old(t.usage[id]) >= 1
      ensures TableOk(t, holds, backed) && Tallied(t, vmas) && holds == old(holds) - multiset{id}
      ensures Exact() <==> old(Exact())
      ensures t == Put(old(t), id) && backed == PutLive(old(t), id, old(backed))
      ensures dead == if old(t.usage[id]) == 1 then Some(old(t.objs[id])) else None
    {
      PutOk(t, holds, backed, id);
      FreedKeeps(t, holds, backed, id, vmas);
      dead := if t.usage[id] == 1 then Some(t.objs[id]) else None;
      backed := PutLive(t, id, backed);
      t := Put(t, id);
      holds := holds - multiset{id};
    }

    /** `put_sharemem_struct` of a reference that was taken. */
    method PutSharemem(id: nat)
      requires Valid() && id in holds
      modifies this`t, this`holds, this`backed, pool, pool.tags, pool.areas
      ensures Valid() && holds == old(holds) - multiset{id}
      ensures id in old(t.objs) && id in old(t.usage) && old(t.usage[id]) >= 1
      ensures t == Put(old(t), id) && pool.live == PutLive(old(t), id, old(pool.live))
      ensures Exact() <==> old(Exact())
    {
      var dead := DropReference(id);
      if dead.Some? {
        TcMemFree(dead.value);
      }
    }

    /** The search of `find_sharedmem`: the first listed object with this page offset. */
    method FindByOffset(dev: nat, pgoff: nat) returns (id: Option<nat>)
      requires dev in t.lists && forall i :: i in t.lists[dev] ==> i in t.objs
      ensures id == FirstMatch(t.objs, t.lists[dev], pgoff)
    {
      var list := t.lists[dev];
      for n := 0 to |list|
        invariant FirstMatch(t.objs, list, pgoff) == FirstMatch(t.objs, list[n..], pgoff)
      {
        assert list[n..][1..] == list[n + 1..];
        if OffsetMatches(t.objs[list[n]].offset, pgoff) {
          return Some(list[n]);
        }
      }
      return None;
    }

    /** The part of `tc_client_mmap` that maps a listed object a second time. */
    method MapAgain(id: nat, start: nat, len: nat, remapOk: bool, ghost space: nat) returns (done: bool)
      requires Valid() && id in t.objs && Mapped(t.objs[id]) && Vma(space, start) !in vmas
      modifies this`t, this`holds, this`backed, this`vmas, pool, pool.tags, pool.areas
      ensures Valid() && pool.live == old(pool.live) && holds == old(holds)
      ensures done <==> remapOk && old(t.objs[id].caAddr.None?) && old(t.objs[id].len) == len
      ensures !done ==> t == old(t) && vmas == old(vmas)
      ensures done ==> id in old(t.usage) && t == Attached(Gotten(old(t), id), id, start)
      ensures done ==> vmas == old(vmas)[Vma(space, start) := Own(old(t.objs[id].dev), id)]
      ensures old(Exact()) ==> Exact()
    {
      var o := t.objs[id];
      if o.caAddr.Some? || len != o.len {
        return false;
      }
      if remapOk {
        GetAndAttach(id, start, space);
      } else {
        GetAndPut(id);
      }
      return remapOk;
    }

    /** A reference is taken and becomes the second mapping. */
    method GetAndAttach(id: nat, start: nat, ghost space: nat)
      requires TableOk(t, holds, backed) && Tallied(t, vmas) && Vma(space, start) !in vmas
      requires id in t.objs && Mapped(t.objs[id]) && t.objs[id].caAddr.None?
      modifies this`t, this`holds, this`vmas
      ensures TableOk(t, holds, backed) && Tallied(t, vmas) && holds == old(holds)
      ensures id in old(t.usage) && t == Attached(Gotten(old(t), id), id, start)
      ensures vmas == old(vmas)[Vma(space, start) := Own(old(t.objs[id].dev), id)]
      ensures old(Exact()) ==> Exact()
    {
      ghost var more := vmas[Vma(space, start) := Own(t.objs[id].dev, id)];
      AttachMore(t, holds, backed, id, Vma(space, start), vmas);
      GetThenAttach(id, start);
      vmas := more;
    }

    method GetThenAttach(id: nat, start: nat)
      requires TableOk(t, holds, backed)
      requires id in t.objs && Mapped(t.objs[id]) && t.objs[id].caAddr.None?
      modifies this`t, this`holds
      ensures TableOk(t, holds, backed) && holds == old(holds)
      ensures id in old(t.usage) && t == Attached(Gotten(old(t), id), id, start)
    {
      GetSharemem(id);
      AttachHeld(id, start);
    }

    method AttachHeld(id: nat, start: nat)
      requires TableOk(t, holds, backed) && id in holds
      requires id in t.objs && Mapped(t.objs[id]) && t.objs[id].caAddr.None?
      modifies this`t, this`holds
      ensures TableOk(t, holds, backed) && holds == old(holds) - multiset{id} && t == Attached(old(t), id, start)
    {
      AttachedOk(t, holds, backed, id, start);
      t := Attached(t, id, start);
      holds := holds - multiset{id};
    }

    /** A reference taken and given back on a mapped object: nothing changes and nothing is freed. */
    method GetAndPut(id: nat)
      requires TableOk(t, holds, backed) && Tallied(t, vmas) && id in t.objs && Mapped(t.objs[id])
      modifies this`t, this`holds, this`backed
      ensures TableOk(t, holds, backed) && Tallied(t, vmas) && holds == old(holds) && t == old(t) && backed == old(backed)
    {
      GetSharemem(id);
      UsageApart(old(t), t, vmas);
      assert id in holds;
      StillUsed(t, holds, backed, id);
      var dead := DropReference(id);
      assert holds == old(holds);
      UsageDetermined(old(t), t, holds, old(backed), backed);
    }

    /** The part of `tc_client_mmap` that allocates a new object. */
    method MapNew(dev: nat, start: nat, len: nat, pgoff: nat, kmallocOk: bool, vaddr: Option<nat>, remapOk: bool, ghost space: nat)
      returns (o: Option<Shm>)
      requires Valid() && dev in t.lists && Vma(space, start) !in vmas
      modifies this`t, this`backed, this`vmas, pool, pool.tags, pool.areas
      ensures Valid()
      ensures o.Some? <==> remapOk && old(MemoryFor(len, kmallocOk, vaddr))
      ensures o.None? ==> t == old(t) && pool.live == old(pool.live) && vmas == old(vmas)
      ensures o.Some? ==> CreatedAs(old(t), dev, start, len, pgoff, o.value, t)
      ensures o.Some? ==> vmas == old(vmas)[Vma(space, start) := Own(dev, old(t).nextId)]
      ensures old(Exact()) ==> Exact()
    {
      o := NewMemory(dev, start, len, pgoff, kmallocOk, vaddr, remapOk);
      if o.None? {
        return;
      }
      AddObject(o.value, pool.live, Vma(space, start));
    }

    /** A new object, not linked yet; when mapping it fails its memory is given back. */
    method NewMemory(dev: nat, start: nat, len: nat, pgoff: nat, kmallocOk: bool, vaddr: Option<nat>, remapOk: bool)
      returns (o: Option<Shm>)
      requires PoolReady()
      modifies pool, pool.tags, pool.areas
      ensures PoolReady()
      ensures o.Some? <==> remapOk && old(MemoryFor(len, kmallocOk, vaddr))
      ensures o.None? ==> pool.live == old(pool.live)
      ensures o.Some? ==> o.value == Shm(dev, Some(start), None, PageAlign(len), o.value.memType, o.value.kernelAddr, StoredOffset(pgoff))
      ensures o.Some? ==> Backing(o.value, old(pool.live), pool.live) && o.value.len < TWO32
    {
      var mem := TcMemAllocate(len, kmallocOk, vaddr);
      if mem.None? {
        return None;
      }
      var shm := Shm(dev, Some(start), None, PageAlign(len), mem.value.0, mem.value.1, StoredOffset(pgoff));
      if !remapOk {
        TcMemFree(shm);
        assert pool.live == old(pool.live);
        return None;
      }
      return Some(shm);
    }

    /** Links a new object into its device's list with its first reference. */
    method AddObject(o: Shm, ghost live: LiveMap, ghost v: Vma)
      requires TableOk(t, holds, backed) && Tallied(t, vmas) && v !in vmas
      requires o.dev in t.lists && o.userAddr == Some(v.start) && o.caAddr.None? && o.len < TWO32
      requires Backing(o, backed, live)
      modifies this`t, this`backed, this`vmas
      ensures old(t).nextId !in old(t).objs && TableOk(t, holds, backed) && t == Added(old(t), o) && backed == live
      ensures Tallied(t, vmas) && vmas == old(vmas)[v := Own(o.dev, old(t).nextId)]
      ensures old(Exact()) ==> Exact()
    {
      AddedTally(t, holds, backed, o, v, vmas);
      if Exact() {
        AddedFaithful(t, holds, backed, o, v, vmas);
      }
      AddedOk(t, holds, backed, o, live);
      vmas := vmas[v := Own(o.dev, t.nextId)];
      t := Added(t, o);
      backed := live;
    }

    /** `tc_client_mmap`: adds the second mapping of the listed object with this offset, or creates an object. */
    method Mmap(dev: nat, start: nat, len: nat, pgoff: nat, kmallocOk: bool, vaddr: Option<nat>, remapOk: bool, ghost space: nat)
      returns (done: bool)
      requires Valid() && dev in t.lists && Vma(space, start) !in vmas
      modifies this`t, this`holds, this`backed, this`vmas, pool, pool.tags, pool.areas
      ensures Valid() && holds == old(holds)
      ensures old(Exact()) ==> Exact()
      ensures !done ==> t == old(t) && pool.live == old(pool.live) && vmas == old(vmas)
      ensures match FirstMatch(old(t.objs), old(t.lists)[dev], pgoff)
        case Some(id) =>
          && (done <==> remapOk && Remappable(old(t), id, len))
          && (done ==> RemappedAs(old(t), id, start, t) && vmas == old(vmas)[Vma(space, start) := Own(dev, id)])
        case None =>
          && (done <==> remapOk && old(MemoryFor(len, kmallocOk, vaddr)))
          && (done ==> Created(old(t), dev, start, len, pgoff, t) && vmas == old(vmas)[Vma(space, start) := Own(dev, old(t).nextId)])
    {
      TableFacts(t, holds, backed);
      var found := FindByOffset(dev, pgoff);
      if found.Some? {
        FirstMatchOk(t.objs, t.lists[dev], pgoff);
        done := MapAgain(found.value, start, len, remapOk, space);
      } else {
        var o := MapNew(dev, start, len, pgoff, kmallocOk, vaddr, remapOk, space);
        done := o.Some?;
      }
    }

    /** The search of `shared_vma_close`: the first listed object that records this address. */
    method FindRecorded(dev: nat, start: nat) returns (n: Option<nat>)
      requires dev in t.lists && forall i :: i in t.lists[dev] ==> i in t.objs
      ensures n.None? ==> forall m :: 0 <= m < |t.lists[dev]| ==> RecordedBy(t.objs, t.lists[dev][m], start) == 0
      ensures n.Some? ==> FirstRecorded(t.objs, t.lists[dev], start, n.value)
    {
      var list, i := t.lists[dev], 0;
      while i < |list|
        invariant 0 <= i <= |list|
        invariant forall m :: 0 <= m < i ==> RecordedBy(t.objs, list[m], start) == 0
      {
        if t.objs[list[i]].userAddr == Some(start) || t.objs[list[i]].caAddr == Some(start) {
          return Some(i);
        }
        i := i + 1;
      }
      return None;
    }

    /**
     `shared_vma_close` of the mapping of `dev` that starts at `start` in address space `space`.  It
     always finds an object of the device to put; that object is the mapping's own if and only if no
     object before it on the list records the same address, and only then do records stay exact.
     */
    method VmaClose(dev: nat, start: nat, ghost space: nat) returns (ghost n: nat)
      requires Valid() && dev in t.lists && Vma(space, start) in vmas && vmas[Vma(space, start)].dev == dev
      modifies this`t, this`holds, this`backed, this`vmas, pool, pool.tags, pool.areas
      ensures Valid() && holds == old(holds) && vmas == old(vmas) - {Vma(space, start)}
      ensures FirstRecorded(old(t.objs), old(t.lists)[dev], start, n)
      ensures ClosedAs(old(t), old(pool.live), dev, start, old(t.lists)[dev][n], t, pool.live)
      ensures var own := old(vmas)[Vma(space, start)].id;
              old(Exact()) ==>
                && (old(t.lists)[dev][n] == own <==> NoneBefore(old(t.objs), old(t.lists)[dev], start, own))
                && (Exact() <==> old(t.lists)[dev][n] == own)
    {
      ghost var v := Vma(space, start);
      TableFacts(t, holds, backed);
      ghost var some := SomeRecord(t, v, vmas);
      var found := FindRecorded(dev, start);
      n := found.value;
      if Exact() {
        FoundIsOwn(t, holds, backed, v, vmas, n);
      }
      CloseFound(dev, start, t.lists[dev][found.value], space);
    }

    /** On a device that only one process maps, a close puts the object of its mapping and records stay exact. */
    method CloseInOneProcess(dev: nat, start: nat, ghost space: nat)
      requires Valid() && Exact() && dev in t.lists && Vma(space, start) in vmas && vmas[Vma(space, start)].dev == dev
      requires OneProcess(vmas, dev)
      modifies this`t, this`holds, this`backed, this`vmas, pool, pool.tags, pool.areas
      ensures Valid() && Exact() && holds == old(holds) && vmas == old(vmas) - {Vma(space, start)} && OneProcess(vmas, dev)
      ensures ClosedAs(old(t), old(pool.live), dev, start, old(vmas)[Vma(space, start)].id, t, pool.live)
    {
      OneProcessIsRight(t, holds, backed, Vma(space, start), vmas);
      ghost var n := VmaClose(dev, start, space);
    }

    /** The body of the `shared_vma_close` loop once an object is found. */
    method CloseFound(dev: nat, start: nat, id: nat, ghost space: nat)
      requires Valid() && dev in t.lists && MapsOn(t.objs, id, dev, start)
      requires Vma(space, start) in vmas && vmas[Vma(space, start)].dev == dev
      modifies this`t, this`holds, this`backed, this`vmas, pool, pool.tags, pool.areas
      ensures Valid() && holds == old(holds) && vmas == old(vmas) - {Vma(space, start)}
      ensures ClosedAs(old(t), old(pool.live), dev, start, id, t, pool.live)
      ensures old(Exact()) ==> (Exact() <==> id == old(vmas)[Vma(space, start)].id)
    {
      var dead := CloseRecord(dev, start, id, Vma(space, start));
      if dead.Some? {
        TcMemFree(dead.value);
      }
    }

    /** The record is cleared and its reference put; the memory of an object that dies with it is still to be freed. */
    method CloseRecord(dev: nat, start: nat, id: nat, ghost v: Vma) returns (dead: Option<Shm>)
      requires TableOk(t, holds, backed) && Tallied(t, vmas) && dev in t.lists
      requires v in vmas && v.start == start && vmas[v].dev == dev && MapsOn(t.objs, id, dev, start)
      modifies this`t, this`holds, this`backed, this`vmas
      ensures TableOk(t, holds, backed) && Tallied(t, vmas) && holds == old(holds) && vmas == old(vmas) - {v}
      ensures ClosedAs(old(t), old(backed), dev, start, id, t, backed)
      ensures backed == if dead.Some? then LiveAfter(dead.value, old(backed)) else old(backed)
      ensures old(Exact()) ==> (Exact() <==> id == old(vmas[v].id))
    {
      TakeRecord(dev, start, id, v);
      assert holds - multiset{id} == old(holds);
      dead := DropReference(id);
      DetachedUsage(old(t), old(holds), old(backed), dev, id, start);
    }

    /** The record is cleared, and the object leaves the list if that was its last; its reference is still to be put. */
    method TakeRecord(dev: nat, start: nat, id: nat, ghost v: Vma)
      requires TableOk(t, holds, backed) && Tallied(t, vmas) && dev in t.lists
      requires v in vmas && v.start == start && vmas[v].dev == dev && MapsOn(t.objs, id, dev, start)
      modifies this`t, this`holds, this`vmas
      ensures TableOk(t, holds, backed) && Tallied(t, vmas) && holds == old(holds) + multiset{id} && vmas == old(vmas) - {v}
      ensures t == Detached(old(t), dev, id, start)
      ensures old(Exact()) ==> (Exact() <==> id == old(vmas[v].id))
    {
      DetachedTally(t, holds, backed, id, v, vmas);
      DetachedOk(t, holds, backed, dev, id, start);
      if Exact() {
        DetachedFaithful(t, id, v, vmas);
      }
      t := Detached(t, dev, id, start);
      holds := holds + multiset{id};
      vmas := vmas - {v};
    }
  }

  lemma DetachedUsage(t: Table, holds: multiset<nat>, live: LiveMap, dev: nat, id: nat, start: nat)
    requires TableOk(t, holds, live) && id in t.objs && dev in t.lists
    ensures id in t.usage && t.usage[id] >= 1 && Detached(t, dev, id, start).usage == t.usage
  {
    TableFacts(t, holds, live);
  }

  lemma NothingMapped()
    ensures Tallied(Table(map[], map[], map[], 0), map[]) && Faithful(Table(map[], map[], map[], 0), map[])
  {
    var t := Table(map[], map[], map[], 0);
    forall id: nat, a: nat
      ensures |ObjVmas(map[], id, a)| == RecordedBy(t.objs, id, a)
    {
      assert ObjVmas(map[], id, a) == {};
    }
    FaithfulFacts(t, map[]);
    assert TallyOk(t, map[]);
  }

  lemma NewListOk(t: Table, holds: multiset<nat>, live: LiveMap, dev: nat)
    requires TableOk(t, holds, live) && dev !in t.lists
    ensures TableOk(t.(lists := t.lists[dev := []]), holds, live)
  {
    TableFacts(t, holds, live);
    assert Consistent(t.(lists := t.lists[dev := []]), holds, live);
  }

  lemma NewListTally(t: Table, dev: nat, vmas: Vmas)
    requires Tallied(t, vmas) && dev !in t.lists
    ensures Tallied(t.(lists := t.lists[dev := []]), vmas)
  {
    TallyFacts(t, vmas);
    var t' := t.(lists := t.lists[dev := []]);
    forall d, a: nat | d in t'.lists
      ensures |DevVmas(vmas, d, a)| == Tally(t'.objs, t'.lists[d], a)
    {
      if d == dev {
        assert DevVmas(vmas, d, a) == {};
      }
    }
    assert TallyOk(t', vmas);
  }

  /** The first object on a list with this page offset. */
  function FirstMatch(objs: Objects, list: seq<nat>, pgoff: nat): Option<nat> {
    if list == [] then None
    else if list[0] in objs && OffsetMatches(objs[list[0]].offset, pgoff) then Some(list[0])
    else FirstMatch(objs, list[1..], pgoff)
  }

  predicate MatchAt(objs: Objects, id: nat, pgoff: nat) {
    id in objs && OffsetMatches(objs[id].offset, pgoff)
  }

  /** It is the first entry that matches, and `None` exactly when none does. */
  lemma {:induction false} FirstMatchOk(objs: Objects, list: seq<nat>, pgoff: nat)
    ensures FirstMatch(objs, list, pgoff).None? <==> forall n :: 0 <= n < |list| ==> !MatchAt(objs, list[n], pgoff)
    ensures FirstMatch(objs, list, pgoff).Some? ==>
      exists n: nat :: n < |list| && FirstMatch(objs, list, pgoff) == Some(list[n]) && MatchAt(objs, list[n], pgoff)
                       && forall m :: 0 <= m < n ==> !MatchAt(objs, list[m], pgoff)
    ensures FirstMatch(objs, list, pgoff).Some? ==> FirstMatch(objs, list, pgoff).value in list
  {
    if list != [] && !MatchAt(objs, list[0], pgoff) {
      var rest := list[1..];
      FirstMatchOk(objs, rest, pgoff);
      assert list == [list[0]] + rest;
      if FirstMatch(objs, rest, pgoff).Some? {
        var n: nat :| n < |rest| && FirstMatch(objs, rest, pgoff) == Some(rest[n]) && MatchAt(objs, rest[n], pgoff)
                      && forall m :: 0 <= m < n ==> !MatchAt(objs, rest[m], pgoff);
        assert list[n + 1] == rest[n];
        forall m | 0 <= m < n + 1
          ensures !MatchAt(objs, list[m], pgoff)
        {
          assert m > 0 ==> list[m] == rest[m - 1];
        }
      }
    }
  }

  /** A new last entry is the one found if none before it matches. */
  lemma {:induction false} FirstMatchAppend(objs: Objects, objs': Objects, list: seq<nat>, id: nat, pgoff: nat)
    requires FirstMatch(objs, list, pgoff) == None && forall i :: i in list ==> (i in objs' <==> i in objs) && (i in objs ==> objs'[i] == objs[i])
    ensures FirstMatch(objs', list + [id], pgoff) == if MatchAt(objs', id, pgoff) then Some(id) else None
  {
    if list == [] {
      assert (list + [id])[1..] == [];
    } else {
      assert (list + [id])[1..] == list[1..] + [id];
      FirstMatchAppend(objs, objs', list[1..], id, pgoff);
    }
  }

  /** A second mapping is refused when there is one already or the length differs. */
  predicate Remappable(t: Table, id: nat, len: nat) {
    id in t.objs && t.objs[id].caAddr.None? && t.objs[id].len == len
  }

  ghost predicate RemappedAs(t: Table, id: nat, start: nat, t': Table) {
    id in t.objs && id in t.usage && t' == Attached(Gotten(t, id), id, start)
  }

  ghost predicate CreatedAs(t: Table, dev: nat, start: nat, len: nat, pgoff: nat, o: Shm, t': Table) {
    && dev in t.lists && t.nextId !in t.objs
    && o == Shm(dev, Some(start), None, PageAlign(len), o.memType, o.kernelAddr, StoredOffset(pgoff))
    && t' == Added(t, o)
  }

  ghost predicate Created(t: Table, dev: nat, start: nat, len: nat, pgoff: nat, t': Table) {
    exists o :: CreatedAs(t, dev, start, len, pgoff, o, t')
  }

  /** One record of `start` and its reference are gone from object `id`. */
  ghost predicate ClosedAs(t: Table, live: LiveMap, dev: nat, start: nat, id: nat, t': Table, live': LiveMap) {
    && id in t.objs && dev in t.lists && id in t.usage && t.usage[id] >= 1
    && t' == Put(Detached(t, dev, id, start), id)
    && live' == PutLive(Detached(t, dev, id, start), id, live)
  }

  /** A process maps a page of device 0 at a page offset not used before. */
  method MapAt(shm: SharedMemory, start: nat, pgoff: nat, space: nat)
    requires shm.Valid() && shm.Exact() && !shm.hasPool && Vma(space, start) !in shm.vmas
    requires 0 in shm.t.lists && FirstMatch(shm.t.objs, shm.t.lists[0], pgoff) == None
    modifies shm`t, shm`holds, shm`backed, shm`vmas, shm.pool, shm.pool.tags, shm.pool.areas
    ensures shm.Valid() && shm.Exact() && Created(old(shm.t), 0, start, PAGE_SIZE, pgoff, shm.t)
    ensures shm.vmas == old(shm.vmas)[Vma(space, start) := Own(0, old(shm.t.nextId))]
  {
    assert PageAlign(PAGE_SIZE) == PAGE_SIZE;
    var done := shm.Mmap(0, start, PAGE_SIZE, pgoff, true, Some(0), true, space);
  }

  /**
   Mapping a new page offset, and the same offset and length again (in pages): the second call maps
   the same object exactly when the offset is one that an object is found by; else it makes another.
   */
  method MapThenMapAgain(shm: SharedMemory, dev: nat, start: nat, start2: nat, pages: nat, pgoff: nat,
                         kmallocOk: bool, vaddr: Option<nat>, space: nat, space2: nat) returns (first: bool, second: bool)
    requires shm.Valid() && dev in shm.t.lists && Vma(space, start) !in shm.vmas && Vma(space2, start2) !in shm.vmas
    requires Vma(space, start) != Vma(space2, start2) && pgoff < TWO64
    requires FirstMatch(shm.t.objs, shm.t.lists[dev], pgoff) == None
    modifies shm`t, shm`holds, shm`backed, shm`vmas, shm.pool, shm.pool.tags, shm.pool.areas
    ensures shm.Valid()
    ensures first <==> old(shm.MemoryFor(PAGE_SIZE * pages, kmallocOk, vaddr))
    ensures !first ==> !second && shm.t == old(shm.t) && shm.vmas == old(shm.vmas)
    ensures first && (pgoff < TWO31 || pgoff >= TWO64 - TWO31) ==>
      second && Vma(space2, start2) in shm.vmas && shm.vmas[Vma(space2, start2)] == Own(dev, old(shm.t.nextId))
    ensures first && TWO31 <= pgoff < TWO64 - TWO31 && second ==>
      Vma(space2, start2) in shm.vmas && shm.vmas[Vma(space2, start2)] == Own(dev, old(shm.t.nextId) + 1)
  {
    PageAlignLeast(PAGE_SIZE * pages, pages);
    TableFacts(shm.t, shm.holds, shm.backed);
    first := shm.Mmap(dev, start, PAGE_SIZE * pages, pgoff, kmallocOk, vaddr, true, space);
    second := false;
    if first {
      NewIsLast(old(shm.t), shm.t, dev, start, PAGE_SIZE * pages, pgoff);
      second := shm.Mmap(dev, start2, PAGE_SIZE * pages, pgoff, kmallocOk, vaddr, true, space2);
    }
  }

  /** After a new object was made for an offset, the search for that offset finds it or nothing. */
  lemma NewIsLast(t: Table, t': Table, dev: nat, start: nat, len: nat, pgoff: nat)
    requires dev in t.lists && Created(t, dev, start, len, pgoff, t') && FirstMatch(t.objs, t.lists[dev], pgoff) == None && pgoff < TWO64
    requires PageAlign(len) == len && forall i :: i in t.lists[dev] ==> i in t.objs
    ensures dev in t'.lists && t'.nextId == t.nextId + 1
    ensures FirstMatch(t'.objs, t'.lists[dev], pgoff) == if pgoff < TWO31 || pgoff >= TWO64 - TWO31 then Some(t.nextId) else None
    ensures Remappable(t', t.nextId, len)
  {
    FoundByOwnOffset(pgoff);
    var o :| CreatedAs(t, dev, start, len, pgoff, o, t');
    assert t'.objs == t.objs[t.nextId := o];
    FirstMatchAppend(t.objs, t'.objs, t.lists[dev], t.nextId, pgoff);
  }

  /** Objects 0 and 1 of device 0, each with one mapping, both at `start`. */
  ghost predicate BothAt(t: Table, start: nat) {
    && t.lists == map[0 := [0, 1]] && t.nextId == 2 && t.usage == map[0 := 1, 1 := 1] && t.objs.Keys == {0, 1}
    && t.objs[0].dev == 0 && t.objs[0].userAddr == Some(start) && t.objs[0].caAddr == None
    && t.objs[1].dev == 0 && t.objs[1].userAddr == Some(start) && t.objs[1].caAddr == None
  }

  lemma OneObject(t: Table, start: nat, pgoff: nat)
    requires Created(Table(map[], map[], map[0 := []], 0), 0, start, PAGE_SIZE, pgoff, t)
    ensures t.objs.Keys == {0} && t.usage == map[0 := 1] && t.lists == map[0 := [0]] && t.nextId == 1
    ensures t.objs[0].dev == 0 && t.objs[0].userAddr == Some(start) && t.objs[0].caAddr == None
    ensures t.objs[0].offset == StoredOffset(pgoff)
  {
    var list: seq<nat> := [];
    assert list + [0] == [0];
    assert t.lists == map[0 := list + [0]];
  }

  lemma TwoObjects(t: Table, start: nat, t': Table)
    requires t.objs.Keys == {0} && t.usage == map[0 := 1] && t.lists == map[0 := [0]] && t.nextId == 1
    requires t.objs[0].dev == 0 && t.objs[0].userAddr == Some(start) && t.objs[0].caAddr == None
    requires Created(t, 0, start, PAGE_SIZE, 1, t')
    ensures BothAt(t', start)
  {
    assert t'.objs.Keys == {0, 1};
    var list: seq<nat> := [0];
    assert list + [1] == [0, 1];
    assert t'.lists == map[0 := list + [1]];
  }

  /** Closing either mapping at `start` puts object 0, which dies. */
  lemma FirstDies(t: Table, live: LiveMap, start: nat, n: nat, t': Table, live': LiveMap)
    requires BothAt(t, start) && FirstRecorded(t.objs, t.lists[0], start, n)
    requires ClosedAs(t, live, 0, start, t.lists[0][n], t', live')
    ensures n == 0 && 0 !in t'.objs && 1 in t'.objs
  {
    assert RecordedBy(t.objs, t.lists[0][0], start) > 0;
  }

  lemma OneLeft(start: nat)
    ensures map[Vma(1, start) := Own(0, 0), Vma(2, start) := Own(0, 1)] - {Vma(2, start)} == map[Vma(1, start) := Own(0, 0)]
  {
  }

  /** Two processes have mapped different objects of device 0 at the same address. */
  method MapTwice(pool: Zone, start: nat) returns (shm: SharedMemory)
    requires BelowMax(pool) && pool.live == map[]
    modifies pool, pool.tags, pool.areas
    ensures fresh(shm) && shm.pool == pool && shm.Valid() && shm.Exact() && BothAt(shm.t, start)
    ensures shm.vmas == map[Vma(1, start) := Own(0, 0), Vma(2, start) := Own(0, 1)]
  {
    shm := new SharedMemory(pool, false, 0);
    shm.OpenDevice(0);
    MapAt(shm, start, 0, 1);
    ghost var t := shm.t;
    OneObject(t, start, 0);
    assert FirstMatch(t.objs, t.lists[0], 1) == FirstMatch(t.objs, [], 1);
    MapAt(shm, start, 1, 2);
    TwoObjects(t, start, shm.t);
  }

  /**
   Two processes that map different objects of one device at the same address: closing the second
   mapping frees the object of the first one, which is still mapped.
   */
  method TwoProcesses(pool: Zone, start: nat) returns (shm: SharedMemory)
    requires BelowMax(pool) && pool.live == map[]
    modifies pool, pool.tags, pool.areas
    ensures shm.Valid() && !shm.Exact()
    ensures shm.vmas == map[Vma(1, start) := Own(0, 0)] && 0 !in shm.t.objs && 1 in shm.t.objs
  {
    shm := MapTwice(pool, start);
    ghost var t, live := shm.t, pool.live;
    OneLeft(start);
    ghost var n := shm.VmaClose(0, start, 2);
    FirstDies(t, live, start, n, shm.t, pool.live);
  }
}

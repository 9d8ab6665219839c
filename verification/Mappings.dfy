/**
 The live mappings behind the addresses that shared memory objects record.

 A mapping is known by its address space and start; an object records only the start.  Two
 processes may map one device at the same address, so a record need not tell whose mapping it is.
 What holds in every run is a tally per device and address; that each object's records are its own
 mappings (`Faithful`) is what `shared_vma_close` may lose.
 */
module Mappings {
  import opened Options
  import opened Folding
  import opened ZoneSpec
  import opened SharedTable

  datatype Vma = Vma(space: nat, start: nat)

  /** The device a mapping was made on and the object it shows. */
  datatype Own = Own(dev: nat, id: nat)

  type Vmas = map<Vma, Own>

  /** How often an object records address `a`. */
  function Recorded(o: Shm, a: nat): nat {
    (if o.userAddr == Some(a) then 1 else 0) + (if o.caAddr == Some(a) then 1 else 0)
  }

  function RecordedBy(objs: Objects, id: nat, a: nat): nat {
    if id in objs then Recorded(objs[id], a) else 0
  }

  /** How often the objects of a list record address `a`. */
  function Tally(objs: Objects, list: seq<nat>, a: nat): nat {
    if list == [] then 0 else RecordedBy(objs, list[0], a) + Tally(objs, list[1..], a)
  }

  ghost function DevVmas(vmas: Vmas, d: nat, a: nat): set<Vma> {
    set v | v in vmas && vmas[v].dev == d && v.start == a
  }

  ghost function ObjVmas(vmas: Vmas, id: nat, a: nat): set<Vma> {
    set v | v in vmas && vmas[v].id == id && v.start == a
  }

  ghost function AllVmas(vmas: Vmas, id: nat): set<Vma> {
    set v | v in vmas && vmas[v].id == id
  }

  /** Per device and address, the objects record as many mappings as there are. */
  ghost predicate TallyOk(t: Table, vmas: Vmas) {
    && (forall v :: v in vmas ==> vmas[v].id < t.nextId && vmas[v].dev in t.lists
                                  && (vmas[v].id in t.objs ==> t.objs[vmas[v].id].dev == vmas[v].dev))
    && (forall d, a: nat :: d in t.lists ==> |DevVmas(vmas, d, a)| == Tally(t.objs, t.lists[d], a))
  }

  ghost function TallyHealth(t: Table, vmas: Vmas): Health {
    if forall k :: Unfold(k) ==> TallyOk(t, vmas) then Sound else Broken
  }

  ghost predicate Tallied(t: Table, vmas: Vmas) {
    TallyHealth(t, vmas) == Sound
  }

  /** Every object records exactly its own mappings. */
  ghost predicate RecordsOwn(objs: Objects, vmas: Vmas) {
    forall id: nat, a: nat :: |ObjVmas(vmas, id, a)| == RecordedBy(objs, id, a)
  }

  ghost function OwnHealth(objs: Objects, vmas: Vmas): Health {
    if forall k :: Unfold(k) ==> RecordsOwn(objs, vmas) then Sound else Broken
  }

  ghost predicate Faithful(t: Table, vmas: Vmas) {
    OwnHealth(t.objs, vmas) == Sound
  }

  lemma TallyFacts(t: Table, vmas: Vmas)
    requires Tallied(t, vmas)
    ensures TallyOk(t, vmas)
  {
    assert Unfold(0);
  }

  lemma FaithfulFacts(t: Table, vmas: Vmas)
    ensures Faithful(t, vmas) <==> RecordsOwn(t.objs, vmas)
  {
    assert Unfold(0);
  }

  // ------ tallies of lists ------

  lemma {:induction false} TallySame(objs: Objects, objs': Objects, list: seq<nat>, a: nat)
    requires forall i :: i in list ==> RecordedBy(objs', i, a) == RecordedBy(objs, i, a)
    ensures Tally(objs', list, a) == Tally(objs, list, a)
  {
    if list != [] {
      TallySame(objs, objs', list[1..], a);
    }
  }

  lemma {:induction false} TallyChange(objs: Objects, list: seq<nat>, id: nat, o: Shm, a: nat)
    requires NoDup(list) && id in list && id in objs
    ensures Tally(objs[id := o], list, a) + Recorded(objs[id], a) == Tally(objs, list, a) + Recorded(o, a)
  {
    if list[0] == id {
      assert id !in list[1..];
      TallySame(objs, objs[id := o], list[1..], a);
    } else {
      assert NoDup(list[1..]) && list == [list[0]] + list[1..];
      TallyChange(objs, list[1..], id, o, a);
    }
  }

  lemma {:induction false} TallyRemove(objs: Objects, list: seq<nat>, id: nat, a: nat)
    requires RecordedBy(objs, id, a) == 0
    ensures Tally(objs, Remove(list, id), a) == Tally(objs, list, a)
  {
    if list != [] && list[0] != id {
      TallyRemove(objs, list[1..], id, a);
      assert Remove(list, id)[1..] == Remove(list[1..], id);
    }
  }

  lemma {:induction false} TallyAppend(objs: Objects, list: seq<nat>, id: nat, a: nat)
    ensures Tally(objs, list + [id], a) == Tally(objs, list, a) + RecordedBy(objs, id, a)
  {
    if list != [] {
      TallyAppend(objs, list[1..], id, a);
      assert (list + [id])[1..] == list[1..] + [id];
    }
  }

  /** An address without records on a list has tally zero. */
  lemma {:induction false} TallyNone(objs: Objects, list: seq<nat>, a: nat)
    requires forall i :: i in list ==> RecordedBy(objs, i, a) == 0
    ensures Tally(objs, list, a) == 0
  {
    if list != [] {
      TallyNone(objs, list[1..], a);
    }
  }

  lemma {:induction false} TallyAtLeast(objs: Objects, list: seq<nat>, n: nat, a: nat)
    requires n < |list|
    ensures Tally(objs, list, a) >= RecordedBy(objs, list[n], a)
  {
    if n > 0 {
      TallyAtLeast(objs, list[1..], n - 1, a);
    }
  }

  /** Two entries of a list both count. */
  lemma {:induction false} TallyTwo(objs: Objects, list: seq<nat>, m: nat, n: nat, a: nat)
    requires m < n < |list|
    ensures Tally(objs, list, a) >= RecordedBy(objs, list[m], a) + RecordedBy(objs, list[n], a)
  {
    if m == 0 {
      TallyAtLeast(objs, list[1..], n - 1, a);
    } else {
      TallyTwo(objs, list[1..], m - 1, n - 1, a);
    }
  }

  // ------ mappings that come and go ------

  lemma DevVmaAdded(vmas: Vmas, v: Vma, w: Own, d: nat, a: nat)
    requires v !in vmas
    ensures |DevVmas(vmas[v := w], d, a)| == |DevVmas(vmas, d, a)| + (if w.dev == d && v.start == a then 1 else 0)
  {
    if w.dev == d && v.start == a {
      assert DevVmas(vmas[v := w], d, a) == DevVmas(vmas, d, a) + {v};
    } else {
      assert DevVmas(vmas[v := w], d, a) == DevVmas(vmas, d, a);
    }
  }

  lemma ObjVmaAdded(vmas: Vmas, v: Vma, w: Own, id: nat, a: nat)
    requires v !in vmas
    ensures |ObjVmas(vmas[v := w], id, a)| == |ObjVmas(vmas, id, a)| + (if w.id == id && v.start == a then 1 else 0)
  {
    if w.id == id && v.start == a {
      assert ObjVmas(vmas[v := w], id, a) == ObjVmas(vmas, id, a) + {v};
    } else {
      assert ObjVmas(vmas[v := w], id, a) == ObjVmas(vmas, id, a);
    }
  }

  lemma VmaGone(vmas: Vmas, v: Vma, d: nat, id: nat, a: nat)
    requires v in vmas
    ensures |DevVmas(vmas, d, a)| == |DevVmas(vmas - {v}, d, a)| + (if vmas[v].dev == d && v.start == a then 1 else 0)
    ensures |ObjVmas(vmas, id, a)| == |ObjVmas(vmas - {v}, id, a)| + (if vmas[v].id == id && v.start == a then 1 else 0)
  {
    assert (vmas - {v})[v := vmas[v]] == vmas;
    DevVmaAdded(vmas - {v}, v, vmas[v], d, a);
    ObjVmaAdded(vmas - {v}, v, vmas[v], id, a);
  }

  /** Usage counts do not matter to the records. */
  lemma UsageApart(t: Table, t': Table, vmas: Vmas)
    requires Tallied(t, vmas) && t'.objs == t.objs && t'.lists == t.lists && t'.nextId == t.nextId
    ensures Tallied(t', vmas)
  {
    TallyFacts(t, vmas);
  }

  /** Freeing an object that records nothing. */
  lemma FreedKeeps(t: Table, holds: multiset<nat>, live: LiveMap, id: nat, vmas: Vmas)
    requires TableOk(t, holds, live) && id in holds && Tallied(t, vmas)
    ensures id in t.usage && t.usage[id] >= 1
    ensures Tallied(Put(t, id), vmas)
    ensures Faithful(Put(t, id), vmas) <==> Faithful(t, vmas)
  {
    TableFacts(t, holds, live);
    TallyFacts(t, vmas);
    var t' := Put(t, id);
    forall i: nat, a: nat
      ensures RecordedBy(t'.objs, i, a) == RecordedBy(t.objs, i, a)
    {
    }
    forall d, a: nat | d in t'.lists
      ensures |DevVmas(vmas, d, a)| == Tally(t'.objs, t'.lists[d], a)
    {
      TallySame(t.objs, t'.objs, t.lists[d], a);
    }
    assert TallyOk(t', vmas);
    FaithfulFacts(t, vmas);
    FaithfulFacts(t', vmas);
  }

  /** A second mapping of an object. */
  lemma AttachedTally(t: Table, holds: multiset<nat>, live: LiveMap, id: nat, v: Vma, vmas: Vmas)
    requires TableOk(t, holds, live) && Tallied(t, vmas) && v !in vmas
    requires id in t.objs && Mapped(t.objs[id]) && t.objs[id].caAddr.None?
    ensures Tallied(Attached(t, id, v.start), vmas[v := Own(t.objs[id].dev, id)])
  {
    TableFacts(t, holds, live);
    TallyFacts(t, vmas);
    var t', vmas', d0 := Attached(t, id, v.start), vmas[v := Own(t.objs[id].dev, id)], t.objs[id].dev;
    forall d, a: nat | d in t'.lists
      ensures |DevVmas(vmas', d, a)| == Tally(t'.objs, t'.lists[d], a)
    {
      DevVmaAdded(vmas, v, Own(d0, id), d, a);
      if d == d0 {
        TallyChange(t.objs, t.lists[d], id, t'.objs[id], a);
      } else {
        assert id !in t.lists[d];
        TallySame(t.objs, t'.objs, t.lists[d], a);
      }
    }
    assert TallyOk(t', vmas');
  }

  lemma AttachedFaithful(t: Table, id: nat, v: Vma, vmas: Vmas)
    requires Faithful(t, vmas) && v !in vmas && id in t.objs && t.objs[id].caAddr.None?
    ensures Faithful(Attached(t, id, v.start), vmas[v := Own(t.objs[id].dev, id)])
  {
    FaithfulFacts(t, vmas);
    var t', vmas' := Attached(t, id, v.start), vmas[v := Own(t.objs[id].dev, id)];
    forall i: nat, a: nat
      ensures |ObjVmas(vmas', i, a)| == RecordedBy(t'.objs, i, a)
    {
      ObjVmaAdded(vmas, v, vmas'[v], i, a);
    }
    FaithfulFacts(t', vmas');
  }

  /** A new object with its first mapping. */
  lemma AddedTally(t: Table, holds: multiset<nat>, live: LiveMap, o: Shm, v: Vma, vmas: Vmas)
    requires TableOk(t, holds, live) && Tallied(t, vmas) && v !in vmas
    requires o.dev in t.lists && o.userAddr == Some(v.start) && o.caAddr.None?
    ensures Tallied(Added(t, o), vmas[v := Own(o.dev, t.nextId)])
  {
    TableFacts(t, holds, live);
    TallyFacts(t, vmas);
    var t', vmas', id := Added(t, o), vmas[v := Own(o.dev, t.nextId)], t.nextId;
    forall d, a: nat | d in t'.lists
      ensures |DevVmas(vmas', d, a)| == Tally(t'.objs, t'.lists[d], a)
    {
      DevVmaAdded(vmas, v, Own(o.dev, id), d, a);
      TallySame(t.objs, t'.objs, t.lists[d], a);
      TallyAppend(t'.objs, t.lists[d], id, a);
    }
    assert TallyOk(t', vmas');
  }

  lemma AddedFaithful(t: Table, holds: multiset<nat>, live: LiveMap, o: Shm, v: Vma, vmas: Vmas)
    requires TableOk(t, holds, live) && Faithful(t, vmas) && v !in vmas
    requires o.dev in t.lists && o.userAddr == Some(v.start) && o.caAddr.None?
    ensures Faithful(Added(t, o), vmas[v := Own(o.dev, t.nextId)])
  {
    TableFacts(t, holds, live);
    FaithfulFacts(t, vmas);
    var t', vmas' := Added(t, o), vmas[v := Own(o.dev, t.nextId)];
    assert t.nextId !in t.objs;
    forall i: nat, a: nat
      ensures |ObjVmas(vmas', i, a)| == RecordedBy(t'.objs, i, a)
    {
      ObjVmaAdded(vmas, v, vmas'[v], i, a);
    }
    FaithfulFacts(t', vmas');
  }

  lemma DetachedCount(t: Table, id: nat, v: Vma, vmas: Vmas, d: nat, a: nat)
    requires OnList(t.objs, t.lists) && v in vmas && vmas[v].dev in t.lists && MapsOn(t.objs, id, vmas[v].dev, v.start)
    requires d in t.lists && |DevVmas(vmas, d, a)| == Tally(t.objs, t.lists[d], a)
    ensures var t' := Detached(t, vmas[v].dev, id, v.start);
            d in t'.lists && |DevVmas(vmas - {v}, d, a)| == Tally(t'.objs, t'.lists[d], a)
  {
    var t' := Detached(t, vmas[v].dev, id, v.start);
    VmaGone(vmas, v, d, id, a);
    if d == vmas[v].dev {
      TallyChange(t.objs, t.lists[d], id, t'.objs[id], a);
      if !Mapped(t'.objs[id]) {
        TallyRemove(t'.objs, t.lists[d], id, a);
      }
    } else {
      assert id !in t.lists[d];
      TallySame(t.objs, t'.objs, t.lists[d], a);
    }
  }

  /** A close takes one record of the address from one object of the device: the tally stays right whoever's it was. */
  lemma DetachedTally(t: Table, holds: multiset<nat>, live: LiveMap, id: nat, v: Vma, vmas: Vmas)
    requires TableOk(t, holds, live) && Tallied(t, vmas) && v in vmas && MapsOn(t.objs, id, vmas[v].dev, v.start)
    ensures vmas[v].dev in t.lists && Tallied(Detached(t, vmas[v].dev, id, v.start), vmas - {v})
  {
    TableFacts(t, holds, live);
    TallyFacts(t, vmas);
    var t', vmas' := Detached(t, vmas[v].dev, id, v.start), vmas - {v};
    forall d, a: nat | d in t'.lists
      ensures |DevVmas(vmas', d, a)| == Tally(t'.objs, t'.lists[d], a)
    {
      DetachedCount(t, id, v, vmas, d, a);
    }
    assert TallyOk(t', vmas');
  }

  /** A close leaves every object with its own mappings if and only if it took the record of its own object. */
  lemma DetachedFaithful(t: Table, id: nat, v: Vma, vmas: Vmas)
    requires Faithful(t, vmas) && v in vmas && MapsOn(t.objs, id, vmas[v].dev, v.start) && vmas[v].dev in t.lists
    ensures Faithful(Detached(t, vmas[v].dev, id, v.start), vmas - {v}) <==> id == vmas[v].id
  {
    FaithfulFacts(t, vmas);
    var t', vmas' := Detached(t, vmas[v].dev, id, v.start), vmas - {v};
    forall i: nat, a: nat
      ensures |ObjVmas(vmas', i, a)| == RecordedBy(t.objs, i, a) - (if i == vmas[v].id && a == v.start then 1 else 0)
      ensures RecordedBy(t'.objs, i, a) == RecordedBy(t.objs, i, a) - (if i == id && a == v.start then 1 else 0)
    {
      VmaGone(vmas, v, 0, i, a);
    }
    assert |ObjVmas(vmas', id, v.start)| == RecordedBy(t'.objs, id, v.start) <==> id == vmas[v].id;
    FaithfulFacts(t', vmas');
  }

  // ------ which object a close finds ------

  /** The object at place `n` is the first on the list that records the address. */
  predicate FirstRecorded(objs: Objects, list: seq<nat>, a: nat, n: nat) {
    n < |list| && RecordedBy(objs, list[n], a) > 0 && forall m :: 0 <= m < n ==> RecordedBy(objs, list[m], a) == 0
  }

  /** No object before `id` on the list records the address. */
  ghost predicate NoneBefore(objs: Objects, list: seq<nat>, a: nat, id: nat) {
    forall m: nat :: m < |list| && (forall k: nat :: k <= m ==> list[k] != id) ==> RecordedBy(objs, list[m], a) == 0
  }

  /** A live mapping is recorded by some object of its device, so a close always finds one. */
  lemma SomeRecord(t: Table, v: Vma, vmas: Vmas) returns (n: nat)
    requires Tallied(t, vmas) && v in vmas
    ensures vmas[v].dev in t.lists && n < |t.lists[vmas[v].dev]| && RecordedBy(t.objs, t.lists[vmas[v].dev][n], v.start) > 0
  {
    TallyFacts(t, vmas);
    var list := t.lists[vmas[v].dev];
    assert v in DevVmas(vmas, vmas[v].dev, v.start);
    if forall m: nat :: m < |list| ==> RecordedBy(t.objs, list[m], v.start) == 0 {
      TallyNone(t.objs, list, v.start);
      assert false;
    }
    n :| n < |list| && RecordedBy(t.objs, list[n], v.start) > 0;
  }

  lemma FirstIsOwn(objs: Objects, list: seq<nat>, a: nat, own: nat, n: nat)
    requires FirstRecorded(objs, list, a, n) && own in list && RecordedBy(objs, own, a) > 0
    ensures list[n] == own <==> NoneBefore(objs, list, a, own)
  {
    if list[n] == own {
      forall m: nat | m < |list| && (forall k: nat :: k <= m ==> list[k] != own)
        ensures RecordedBy(objs, list[m], a) == 0
      {
        assert m < n;
      }
    } else {
      assert forall k: nat :: k <= n ==> list[k] != own;
    }
  }

  /** While records are faithful, the object found is the mapping's own if and only if none before it records the address. */
  lemma FoundIsOwn(t: Table, holds: multiset<nat>, live: LiveMap, v: Vma, vmas: Vmas, n: nat)
    requires TableOk(t, holds, live) && Tallied(t, vmas) && Faithful(t, vmas) && v in vmas && vmas[v].dev in t.lists
    requires FirstRecorded(t.objs, t.lists[vmas[v].dev], v.start, n)
    ensures t.lists[vmas[v].dev][n] == vmas[v].id <==> NoneBefore(t.objs, t.lists[vmas[v].dev], v.start, vmas[v].id)
  {
    TableFacts(t, holds, live);
    TallyFacts(t, vmas);
    FaithfulFacts(t, vmas);
    var list, own := t.lists[vmas[v].dev], vmas[v].id;
    assert v in ObjVmas(vmas, own, v.start);
    FirstIsOwn(t.objs, list, v.start, own, n);
  }

  /** All mappings of the device are in one address space. */
  ghost predicate OneProcess(vmas: Vmas, dev: nat) {
    forall v, w :: v in vmas && w in vmas && vmas[v].dev == dev && vmas[w].dev == dev ==> v.space == w.space
  }

  /** A recorded address is the start of a live mapping of that object, on the object's device. */
  lemma RecordIsLive(t: Table, holds: multiset<nat>, live: LiveMap, id: nat, a: nat, vmas: Vmas) returns (v: Vma)
    requires TableOk(t, holds, live) && Tallied(t, vmas) && Faithful(t, vmas) && RecordedBy(t.objs, id, a) > 0
    ensures v in vmas && v.start == a && vmas[v] == Own(t.objs[id].dev, id)
  {
    TallyFacts(t, vmas);
    FaithfulFacts(t, vmas);
    assert ObjVmas(vmas, id, a) != {};
    v :| v in ObjVmas(vmas, id, a);
  }

  /** A device used by one process never has two objects at one address: there a close is always right. */
  lemma OneProcessIsRight(t: Table, holds: multiset<nat>, live: LiveMap, v: Vma, vmas: Vmas)
    requires TableOk(t, holds, live) && Tallied(t, vmas) && Faithful(t, vmas) && v in vmas && OneProcess(vmas, vmas[v].dev)
    ensures vmas[v].dev in t.lists && NoneBefore(t.objs, t.lists[vmas[v].dev], v.start, vmas[v].id)
  {
    TableFacts(t, holds, live);
    TallyFacts(t, vmas);
    var a, own := v.start, vmas[v].id;
    var list := t.lists[vmas[v].dev];
    forall m: nat | m < |list| && (forall k: nat :: k <= m ==> list[k] != own)
      ensures RecordedBy(t.objs, list[m], a) == 0
    {
      if RecordedBy(t.objs, list[m], a) > 0 {
        var w := RecordIsLive(t, holds, live, list[m], a, vmas);
      }
    }
  }

  /** While records are faithful, an object lives exactly as long as it is mapped or held, and is listed exactly while mapped. */
  lemma LifetimeExact(t: Table, holds: multiset<nat>, live: LiveMap, vmas: Vmas, id: nat)
    requires TableOk(t, holds, live) && Tallied(t, vmas) && Faithful(t, vmas)
    ensures id in t.objs <==> AllVmas(vmas, id) != {} || id in holds
    ensures id in t.objs ==> id in t.usage && t.usage[id] == |AllVmas(vmas, id)| + holds[id]
    ensures id in t.objs && t.objs[id].dev in t.lists ==> (id in t.lists[t.objs[id].dev] <==> AllVmas(vmas, id) != {})
  {
    TableFacts(t, holds, live);
    FaithfulFacts(t, vmas);
    forall v | v in AllVmas(vmas, id)
      ensures id in t.objs && Maps(t.objs[id], v.start)
    {
      assert v in ObjVmas(vmas, id, v.start);
    }
    if id in t.objs {
      AllAreRecorded(t, vmas, id);
    }
  }

  lemma AllAreRecorded(t: Table, vmas: Vmas, id: nat)
    requires RecordsOwn(t.objs, vmas) && id in t.objs
    ensures |AllVmas(vmas, id)| == Mappings(t.objs[id])
  {
    var o := t.objs[id];
    forall v | v in AllVmas(vmas, id)
      ensures Maps(o, v.start)
    {
      assert v in ObjVmas(vmas, id, v.start);
    }
    var user := if o.userAddr.Some? then ObjVmas(vmas, id, o.userAddr.value) else {};
    var ca := if o.caAddr.Some? && o.caAddr != o.userAddr then ObjVmas(vmas, id, o.caAddr.value) else {};
    assert AllVmas(vmas, id) == user + ca;
    assert user * ca == {};
    assert |user + ca| == |user| + |ca|;
  }
}

/**
 The open, send, close and release paths of `session_manager.c`, built from the lock sections of
 module `Sessions`.  The answers of the allocator and of the TEE are parameters.
 */
module SessionManager {
  import opened Options
  import opened Folding
  import opened Sessions
  import opened SessionRuns
  import opened SessionStates

  class Manager {
    var st: State
    ghost var holders: multiset<nat>
    ghost var pending: multiset<(nat, nat)>
    ghost var cmds: multiset<nat>

    ghost function W(): World
      reads this
    {
      World(st, holders, pending, cmds)
    }

    ghost predicate Valid()
      reads this
    {
      HealthOf(W()) == Sound
    }

    constructor ()
      ensures Valid() && W() == Boot()
    {
      st, holders, pending, cmds := State(map[], map[], map[], 0, 0), multiset{}, multiset{}, multiset{};
      BootOk();
    }

    /** A new device: 32 empty slots. */
    method AddDevice(d: nat)
      requires Valid() && d !in st.devs
      modifies this
      ensures Valid() && holders == old(holders) && cmds == old(cmds) && pending == old(pending)
      ensures st == SetDev(old(st), d, NewDev())
    {
      Keeps(W(), OpenDevice(d));
      st := SetDev(st, d, NewDev());
    }

    /** `tc_ref_service_in_dev` */
    method RefServiceInDev(d: nat, uuid: nat) returns (found: Option<nat>, full: bool, ghost at: nat)
      requires Valid() && Unlocked(st, d)
      modifies this
      ensures Valid()
      ensures found.Some? || full ==> UuidAt(old(st), d, at, uuid)
      ensures found.Some? ==>
        && !full && Admits(old(st), d, at, found.value, uuid)
        && st == Referenced(old(st), d, at, found.value, uuid)
        && pending == old(pending) + multiset{(d, found.value)} && holders == old(holders) && cmds == old(cmds)
      ensures found.None? ==> W() == old(W())
      ensures full ==> st.devs[d].refs[at] == MAX_REF_COUNT
      ensures found.None? && !full ==> forall i :: !UuidAt(st, d, i, uuid)
    {
      found, full, at := None, false, 0;
      Shape(W(), d);
      var i: nat := 0;
      while i < SERVICES_MAX_COUNT
        invariant i <= SERVICES_MAX_COUNT
        invariant W() == old(W())
        invariant forall j :: 0 <= j < i ==> !UuidAt(st, d, j, uuid)
      {
        if st.devs[d].slots[i].Some? {
          SlotFacts(W(), d, i);
          if st.svc[SlotService(st, d, i)].uuid == uuid {
            at := i;
            if st.devs[d].refs[i] == MAX_REF_COUNT {
              full := true;
              return;
            }
            found := st.devs[d].slots[i];
            Keeps(W(), RefInDev(d, i));
            pending := pending + multiset{(d, SlotService(st, d, i))};
            st := SetDev(st, d, WithSlot(st.devs[d], i, st.devs[d].slots[i], st.devs[d].refs[i] + 1));
            return;
          }
        }
        i := i + 1;
      }
    }

    /** `find_service` under `g_service_list_lock`: `tc_find_service_from_all`, else `tc_ns_service_init`. */
    method FindOrCreate(d: nat, uuid: nat, memory: bool) returns (s: Option<nat>)
      requires Valid() && Unlocked(st, d) && forall i :: !UuidAt(st, d, i, uuid)
      modifies this
      ensures Valid()
      ensures s.None? <==> !old(Listed(st, uuid)) && !memory
      ensures s.None? ==> W() == old(W())
      ensures s.Some? ==>
        && holders == old(holders) && cmds == old(cmds) && pending == old(pending)
        && (s.value in old(st.svc) ==> old(st.svc)[s.value].uuid == uuid && old(st.svc)[s.value].usage >= 1)
        && (s.value !in old(st.svc) ==> s.value == old(st.next) && !old(Listed(st, uuid)))
        && st == SetDev(Gained(old(st), s.value, uuid), d, old(st.devs)[d].(opening := s))
    {
      NotInDev(d, uuid);
      if r :| r in st.svc.Keys && st.svc[r].uuid == uuid {
        s := Some(r);
        Keeps(W(), FindListed(d, r));
        ListedIsUsed(W(), r);
        st := SetDev(UseMore(st, r), d, st.devs[d].(opening := s));
      } else if !memory {
        s := None;
      } else {
        s := Some(st.next);
        Keeps(W(), CreateService(d, uuid));
        NextIsNew(W());
        st := SetDev(SetSvc(st, st.next, Service(uuid, 1, [])).(next := st.next + 1), d, st.devs[d].(opening := s));
      }
    }

    lemma NotInDev(d: nat, uuid: nat)
      requires Valid() && d in st.devs && forall i :: !UuidAt(st, d, i, uuid)
      ensures UuidNotInDev(st, d, uuid)
    {
      Shape(W(), d);
      forall i, s | SlotIs(st.devs[d], i, s) && s in st.svc
        ensures st.svc[s].uuid != uuid
      {
        assert !UuidAt(st, d, i, uuid);
      }
    }

    /** `add_service_to_dev` */
    method AddServiceToDev(d: nat) returns (ok: bool, ghost at: nat)
      requires Valid() && d in st.devs && st.devs[d].opening.Some?
      modifies this
      ensures Valid()
      ensures ok ==>
        && SlotFree(old(st), d, at) && (forall j :: 0 <= j < at ==> old(st.devs)[d].slots[j] != None)
        && st == SetDev(old(st), d, WithSlot(old(st.devs)[d], at, old(st.devs)[d].opening, 1).(opening := None))
        && pending == old(pending) + multiset{(d, old(st.devs)[d].opening.value)} && holders == old(holders) && cmds == old(cmds)
      ensures !ok ==> W() == old(W())
      ensures ok <==> !SlotsFull(old(st), d)
    {
      ok, at := false, 0;
      Shape(W(), d);
      var i: nat := 0;
      while i < SERVICES_MAX_COUNT
        invariant i <= SERVICES_MAX_COUNT
        invariant W() == old(W())
        invariant forall j :: 0 <= j < i ==> st.devs[d].slots[j] != None
      {
        if st.devs[d].slots[i] == None {
          ok, at := true, i;
          Keeps(W(), AddToDev(d, i));
          pending := pending + multiset{(d, st.devs[d].opening.value)};
          st := SetDev(st, d, WithSlot(st.devs[d], i, st.devs[d].opening, 1).(opening := None));
          return;
        }
        i := i + 1;
      }
    }

    /** `put_service_struct` */
    method Put(s: nat)
      requires Valid() && holders[s] > 0
      modifies this
      ensures Valid()
      ensures s in old(st.svc) && old(st.svc)[s].usage >= 1 && st == UseLess(old(st), s)
      ensures holders == old(holders) - multiset{s} && pending == old(pending) && cmds == old(cmds)
    {
      HeldIsListed(W(), s);
      Keeps(W(), PutService(s));
      holders := holders - multiset{s};
      if st.svc[s].usage == 1 {
        st := st.(svc := st.svc - {s});
      } else {
        st := SetSvc(st, s, st.svc[s].(usage := st.svc[s].usage - 1));
      }
    }

    /** The tail of `find_service` when the device has no free slot. */
    method GiveUp(d: nat, s: nat)
      requires Valid() && d in st.devs && st.devs[d].opening == Some(s)
      modifies this
      ensures Valid()
      ensures s in old(st.svc) && old(st.svc)[s].usage >= 1
      ensures st == UseLess(SetDev(old(st), d, old(st.devs)[d].(opening := None)), s)
      ensures holders == old(holders) && cmds == old(cmds) && pending == old(pending)
    {
      Keeps(W(), AddFailed(d));
      holders := holders + multiset{s};
      st := SetDev(st, d, st.devs[d].(opening := None));
      Put(s);
    }

    /** `find_service` after the device's own slots were searched in vain. */
    method FindInAll(d: nat, uuid: nat, memory: bool) returns (r: Option<nat>, ghost at: nat)
      requires Valid() && Unlocked(st, d) && forall i :: !UuidAt(st, d, i, uuid)
      modifies this
      ensures Valid()
      ensures r.None? <==> (!old(Listed(st, uuid)) && !memory) || SlotsFull(old(st), d)
      ensures r.None? ==> SameLists(st, old(st)) && pending == old(pending) && holders == old(holders) && cmds == old(cmds)
      ensures r.Some? ==>
        && Admits(old(st), d, at, r.value, uuid)
        && st == Referenced(old(st), d, at, r.value, uuid)
        && pending == old(pending) + multiset{(d, r.value)} && holders == old(holders) && cmds == old(cmds)
    {
      at := 0;
      r := FindOrCreate(d, uuid, memory);
      if r.Some? {
        var ok;
        ok, at := AddServiceToDev(d);
        if !ok {
          GaveUp(old(st), st, d, r.value, uuid);
          GiveUp(d, r.value);
          r := None;
        } else {
          assert WithSlot(old(st.devs)[d].(opening := r), at, r, 1).(opening := None) == WithSlot(old(st.devs)[d], at, r, 1);
        }
      }
    }

    /** `find_service` */
    method FindService(d: nat, uuid: nat, memory: bool) returns (r: Option<nat>, ghost at: nat)
      requires Valid() && Unlocked(st, d)
      modifies this
      ensures Valid()
      ensures r.None? <==> Refused(old(st), d, uuid, memory)
      ensures r.None? ==> SameLists(st, old(st)) && pending == old(pending) && holders == old(holders) && cmds == old(cmds)
      ensures r.Some? ==>
        && Admits(old(st), d, at, r.value, uuid)
        && st == Referenced(old(st), d, at, r.value, uuid)
        && pending == old(pending) + multiset{(d, r.value)} && holders == old(holders) && cmds == old(cmds)
    {
      var full;
      r, full, at := RefServiceInDev(d, uuid);
      if r.Some? || full {
        UuidOnce(old(W()), d, at, uuid);
      } else {
        r, at := FindInAll(d, uuid, memory);
      }
    }

    /** `del_service_from_dev` at the slot found. */
    method UnrefSlot(d: nat, i: nat, s: nat)
      requires Valid() && Unlocked(st, d) && SlotUsed(st, d, i) && SlotService(st, d, i) == s && pending[(d, s)] > 0
      requires UsageOf(st, s) >= 1 && st.devs[d].refs[i] >= 1
      modifies this
      ensures Valid() && holders == old(holders) && cmds == old(cmds) && pending == old(pending) - multiset{(d, s)}
      ensures st == Dropped(old(st), d, i)
    {
      if st.devs[d].refs[i] == 1 {
        EmptySlot(d, i, s);
        Put(s);
      } else {
        LowerSlot(d, i, s);
      }
    }

    /** The last reference of a slot: the slot is emptied, and its service reference is left to put. */
    method EmptySlot(d: nat, i: nat, s: nat)
      requires Valid() && Unlocked(st, d) && SlotUsed(st, d, i) && SlotService(st, d, i) == s && pending[(d, s)] > 0
      requires st.devs[d].refs[i] == 1
      modifies this
      ensures Valid() && holders == old(holders) + multiset{s} && cmds == old(cmds) && pending == old(pending) - multiset{(d, s)}
      ensures st == SetDev(old(st), d, WithSlot(old(st).devs[d], i, None, 0))
    {
      Keeps(W(), UnrefInDev(d, i));
      pending := pending - multiset{(d, s)};
      holders := holders + multiset{s};
      st := SetDev(st, d, WithSlot(st.devs[d], i, None, 0));
    }

    method LowerSlot(d: nat, i: nat, s: nat)
      requires Valid() && Unlocked(st, d) && SlotUsed(st, d, i) && SlotService(st, d, i) == s && pending[(d, s)] > 0
      requires st.devs[d].refs[i] > 1
      modifies this
      ensures Valid() && holders == old(holders) && cmds == old(cmds) && pending == old(pending) - multiset{(d, s)}
      ensures st == SetDev(old(st), d, WithSlot(old(st).devs[d], i, Some(s), old(st).devs[d].refs[i] - 1))
    {
      Keeps(W(), UnrefInDev(d, i));
      pending := pending - multiset{(d, s)};
      st := SetDev(st, d, WithSlot(st.devs[d], i, Some(s), st.devs[d].refs[i] - 1));
    }

    /** `del_service_from_dev`, for an open or close in flight: the slot is always found, with a count to take down. */
    method DelServiceFromDev(d: nat, s: nat) returns (ghost at: nat)
      requires Valid() && Unlocked(st, d) && pending[(d, s)] > 0
      modifies this
      ensures Valid()
      ensures holders == old(holders) && cmds == old(cmds) && pending == old(pending) - multiset{(d, s)}
      ensures SlotUsed(old(st), d, at) && SlotIs(old(st.devs)[d], at, s)
      ensures UsageOf(old(st), s) >= 1 && old(st.devs)[d].refs[at] >= 1
      ensures st == Dropped(old(st), d, at)
    {
      at := SlotInFlight(W(), d, s);
      var i: nat := 0;
      while i < SERVICES_MAX_COUNT
        invariant i <= at
        invariant W() == old(W())
      {
        if st.devs[d].slots[i] == Some(s) {
          SlotUnique(W(), d, i, at, s);
          UnrefSlot(d, i, s);
          return;
        }
        i := i + 1;
      }
    }

    /** `init_new_sess_node`: the open in flight becomes a listed session. */
    method InitNewSessNode(d: nat, s: nat, id: nat)
      requires Valid() && pending[(d, s)] > 0
      modifies this
      ensures Valid()
      ensures s in old(st.svc) && st == NewSession(old(st), s, id, d)
      ensures holders == old(holders) && cmds == old(cmds) && pending == old(pending) - multiset{(d, s)}
    {
      ghost var at := SlotInFlight(W(), d, s);
      Keeps(W(), AddSession(d, s, id));
      pending := pending - multiset{(d, s)};
      st := NewSession(st, s, id, d);
    }

    /**
     `tc_ns_open_session` after the login check.  `memory` and `sessionMemory` are the answers of the
     two allocations, `accepted` says that the image was loaded and the TEE done the session.
     */
    method OpenSession(d: nat, uuid: nat, id: nat, memory: bool, sessionMemory: bool, accepted: bool)
      returns (done: bool, ghost s: nat, ghost at: nat)
      requires Valid() && Unlocked(st, d)
      modifies this
      ensures Valid() && holders == old(holders) && cmds == old(cmds) && pending == old(pending)
      ensures done <==> sessionMemory && accepted && !Refused(old(st), d, uuid, memory)
      ensures !done ==> SameLists(st, old(st))
      ensures done ==>
        && Admits(old(st), d, at, s, uuid)
        && s in Referenced(old(st), d, at, s, uuid).svc
        && st == NewSession(Referenced(old(st), d, at, s, uuid), s, id, d)
    {
      done, s := false, 0;
      var service;
      service, at := FindService(d, uuid, memory);
      if service.None? {
        return;
      }
      s := service.value;
      FoundFacts(old(W()), d, at, s, uuid);
      ghost var found := W();
      if !sessionMemory || !accepted {
        DropUndoesFind(old(st), d, at, s, uuid);
        ghost var slot := DelServiceFromDev(d, service.value);
        SlotUnique(found, d, slot, at, s);
      } else {
        InitNewSessNode(d, service.value, id);
        done := true;
      }
    }

    /** `tc_find_service_in_dev` */
    method FindServiceInDev(d: nat, uuid: nat) returns (s: Option<nat>, ghost at: nat)
      requires Valid() && d in st.devs
      ensures s.None? ==> forall i :: !UuidAt(st, d, i, uuid)
      ensures s.Some? ==> UuidAt(st, d, at, uuid) && s.value == SlotService(st, d, at)
    {
      s, at := None, 0;
      Shape(W(), d);
      var i: nat := 0;
      while i < SERVICES_MAX_COUNT
        invariant i <= SERVICES_MAX_COUNT
        invariant forall j :: 0 <= j < i ==> !UuidAt(st, d, j, uuid)
      {
        if st.devs[d].slots[i].Some? {
          SlotFacts(W(), d, i);
          if st.svc[SlotService(st, d, i)].uuid == uuid {
            s, at := st.devs[d].slots[i], i;
            return;
          }
        }
        i := i + 1;
      }
    }

    /** `get_service` */
    method Get(d: nat, uuid: nat) returns (s: Option<nat>, ghost at: nat)
      requires Valid() && Unlocked(st, d)
      modifies this
      ensures Valid() && pending == old(pending) && cmds == old(cmds)
      ensures s.None? ==> W() == old(W()) && forall i :: !UuidAt(st, d, i, uuid)
      ensures s.Some? ==>
        && UuidAt(old(st), d, at, uuid) && s.value == SlotService(old(st), d, at)
        && st == UseMore(old(st), s.value) && holders == old(holders) + multiset{s.value}
    {
      s, at := FindServiceInDev(d, uuid);
      if s.Some? {
        Keeps(W(), GetService(d, at));
        holders := holders + multiset{s.value};
        st := UseMore(st, s.value);
      }
    }

    /** `tc_find_session_withowner` */
    method FindSessionWithOwner(s: nat, id: nat, d: nat) returns (k: Option<nat>)
      requires s in st.svc
      ensures k.None? <==> forall x :: x in st.svc[s].sessions ==> !Is(x, id, d)
      ensures k.Some? ==> FirstAt(st.svc[s].sessions, id, d, k.value)
    {
      var list := st.svc[s].sessions;
      k := None;
      for i := 0 to |list|
        invariant forall j :: 0 <= j < i ==> !Is(list[j], id, d)
      {
        if list[i].id == id && list[i].owner == d {
          assert list[i] in list && Is(list[i], id, d);
          return Some(i);
        }
      }
    }

    /** `get_session`: the first session with this id and owner, held. */
    method GetSessionOf(s: nat, id: nat, d: nat) returns (k: Option<nat>, x: nat)
      requires Valid() && s in st.svc
      modifies this
      ensures Valid() && holders == old(holders) && pending == old(pending)
      ensures st.svc == old(st.svc) && st.devs == old(st.devs)
      ensures k.None? <==> forall y :: y in st.svc[s].sessions ==> !Is(y, id, d)
      ensures k.None? ==> W() == old(W())
      ensures k.Some? ==> FirstAt(st.svc[s].sessions, id, d, k.value) && x == st.svc[s].sessions[k.value].obj
      ensures k.Some? ==> cmds == old(cmds) + multiset{x}
    {
      x := 0;
      k := FindSessionWithOwner(s, id, d);
      if k.Some? {
        x := st.svc[s].sessions[k.value].obj;
        assert ObjAt(st, s, k.value, x);
        ObjectThere(W(), x);
        Keeps(W(), GetSession(s, k.value));
        st := SessionMore(st, x);
        cmds := cmds + multiset{x};
      }
    }

    /** `put_session_struct` */
    method PutSessionOf(x: nat)
      requires Valid() && cmds[x] > 0
      modifies this
      ensures Valid() && holders == old(holders) && pending == old(pending) && cmds == old(cmds) - multiset{x}
      ensures SameLists(st, old(st))
      ensures x in old(st.mem) && old(st.mem)[x] >= 1 && st == SessionLess(old(st), x)
    {
      ObjectThere(W(), x);
      Keeps(W(), PutSession(x));
      st := SessionLess(st, x);
      cmds := cmds - multiset{x};
    }

    /**
     `tc_ns_send_cmd` up to the call: the service is held only while the list is searched, the session
     from then on, so the call finds its memory whatever happens to the service.
     */
    method FindForSend(d: nat, uuid: nat, id: nat) returns (found: bool, x: nat)
      requires Valid() && Unlocked(st, d)
      modifies this
      ensures Valid() && holders == old(holders) && pending == old(pending) && SameLists(st, old(st))
      ensures found <==> HasSession(old(st), d, uuid, id)
      ensures found ==> Names(old(st), d, uuid, id, x)
      ensures cmds == if found then old(cmds) + multiset{x} else old(cmds)
    {
      found, x := false, 0;
      ghost var at;
      var s;
      s, at := Get(d, uuid);
      if s.Some? {
        UuidOnce(old(W()), d, at, uuid);
        SlotFacts(old(W()), d, at);
        var k;
        k, x := GetSessionOf(s.value, id, d);
        GetThenPut(old(st), s.value);
        Put(s.value);
        found := k.Some?;
        assert found ==> NamesAt(old(st), d, uuid, id, x, at, k.value);
      }
    }

    /** `tc_ns_send_cmd` on session object `x`: after the call everything is as before, whatever the TEE answered. */
    method SendCmd(d: nat, uuid: nat, id: nat) returns (found: bool, x: nat)
      requires Valid() && Unlocked(st, d)
      modifies this
      ensures Valid() && holders == old(holders) && cmds == old(cmds) && pending == old(pending)
      ensures SameLists(st, old(st)) && st.mem == old(st.mem)
      ensures found <==> HasSession(old(st), d, uuid, id)
      ensures found ==> Names(old(st), d, uuid, id, x)
    {
      found, x := FindForSend(d, uuid, id);
      if found {
        PutSessionOf(x);
      }
      SameObjects(old(W()), W());
    }

    /** `tc_ns_close_session`: unlinks the session; its list reference is then the closer's. */
    method UnlinkSession(s: nat, k: nat, d: nat)
      requires Valid() && s in st.svc && k < |st.svc[s].sessions| && st.svc[s].sessions[k].owner == d
      requires d in st.devs && st.devs[d].release == InUse
      modifies this
      ensures Valid()
      ensures st == WithSessions(old(st), s, Unlink(old(st.svc)[s].sessions, k))
      ensures holders == old(holders) && pending == old(pending) + multiset{(d, s)}
      ensures cmds == old(cmds) + multiset{old(st.svc)[s].sessions[k].obj}
    {
      Keeps(W(), RemoveSession(s, k));
      pending := pending + multiset{(d, s)};
      cmds := cmds + multiset{st.svc[s].sessions[k].obj};
      st := WithSessions(st, s, Unlink(st.svc[s].sessions, k));
    }

    /** The part of `tc_ns_close_session` that ends a session found: unlinked, put twice, and its slot reference dropped. */
    method EndSession(s: nat, k: nat, x: nat, d: nat) returns (ghost slot: nat)
      requires Valid() && Unlocked(st, d) && s in st.svc && k < |st.svc[s].sessions| && st.svc[s].sessions[k].owner == d
      requires x == st.svc[s].sessions[k].obj && cmds[x] > 0
      modifies this
      ensures Valid() && holders == old(holders) && pending == old(pending) && cmds == old(cmds) - multiset{x}
      ensures SlotUsed(old(st), d, slot) && SlotIs(old(st.devs)[d], slot, s) && old(st.svc)[s].usage >= 1 && old(st.devs)[d].refs[slot] >= 1
      ensures SameLists(st, Dropped(WithSessions(old(st), s, Unlink(old(st.svc)[s].sessions, k)), d, slot))
    {
      UnlinkSession(s, k, d);
      ghost var unlinked := st;
      PutSessionOf(x);
      PutSessionOf(x);
      ghost var mid := st;
      slot := DelServiceFromDev(d, s);
      DroppedSame(unlinked, mid, d, slot);
    }

    /** `tc_ns_close_session`: whatever the TEE answers, the session is unlinked and its slot reference dropped. */
    method CloseSession(d: nat, uuid: nat, id: nat) returns (ok: bool, ghost s: nat, ghost at: nat, ghost k: nat)
      requires Valid() && Unlocked(st, d)
      modifies this
      ensures Valid() && holders == old(holders) && cmds == old(cmds) && pending == old(pending)
      ensures ok <==> HasSession(old(st), d, uuid, id)
      ensures !ok ==> SameLists(st, old(st)) && st.mem == old(st.mem)
      ensures ok ==>
        && UuidAt(old(st), d, at, uuid) && s == SlotService(old(st), d, at)
        && FirstAt(old(st.svc)[s].sessions, id, d, k)
        && old(st.svc)[s].usage >= 1 && old(st.devs)[d].refs[at] >= 1
        && SameLists(st, Dropped(WithSessions(old(st), s, Unlink(old(st.svc)[s].sessions, k)), d, at))
    {
      ok, s, at, k := false, 0, 0, 0;
      var service;
      service, at := Get(d, uuid);
      if service.None? {
        return;
      }
      UuidOnce(old(W()), d, at, uuid);
      SlotFacts(old(W()), d, at);
      s := service.value;
      var found, x := GetSessionOf(service.value, id, d);
      if found.None? {
        GetThenPut(old(st), s);
        Put(service.value);
        SameObjects(old(W()), W());
        return;
      }
      k := found.value;
      FinishClose(service.value, found.value, x, d, old(W()), at);
      ok := true;
    }

    /** The end of `tc_ns_close_session` for a session found, `w` being the world when it began. */
    method FinishClose(s: nat, k: nat, x: nat, d: nat, ghost w: World, ghost at: nat)
      requires Valid() && Unlocked(st, d) && s in st.svc && k < |st.svc[s].sessions| && st.svc[s].sessions[k].owner == d
      requires x == st.svc[s].sessions[k].obj && cmds == w.cmds + multiset{x} && holders == w.holders + multiset{s}
      requires HealthOf(w) == Sound && SlotUsed(w.st, d, at) && SlotService(w.st, d, at) == s && s in w.st.svc
      requires w.st.svc[s].usage >= 1 && w.st.devs[d].refs[at] >= 1 && SameLists(st, UseMore(w.st, s))
      modifies this
      ensures Valid() && holders == w.holders && cmds == w.cmds && pending == old(pending)
      ensures SameLists(st, Dropped(WithSessions(w.st, s, Unlink(w.st.svc[s].sessions, k)), d, at))
    {
      ghost var slot := EndSession(s, k, x, d);
      SlotUnique(w, d, slot, at, s);
      CloseStates(w.st, old(st), st, d, at, s, Unlink(w.st.svc[s].sessions, k));
      Put(s);
    }

    /** Closing the session just opened restores every service, device and session object (the id was not in use). */
    method OpenThenClose(d: nat, uuid: nat, id: nat, memory: bool, sessionMemory: bool, accepted: bool) returns (ok: bool)
      requires Valid() && Unlocked(st, d)
      requires forall s, x :: s in st.svc && x in st.svc[s].sessions ==> !Is(x, id, d)
      modifies this
      ensures Valid() && holders == old(holders) && cmds == old(cmds) && pending == old(pending)
      ensures SameLists(st, old(st)) && st.mem == old(st.mem)
      ensures ok <==> sessionMemory && accepted && !Refused(old(st), d, uuid, memory)
    {
      ghost var s, at, r, i, k;
      ok, s, at := OpenSession(d, uuid, id, memory, sessionMemory, accepted);
      if ok {
        ghost var mid := st;
        FoundFacts(old(W()), d, at, s, uuid);
        OpenedThere(W(), old(st), d, at, s, uuid, id);
        ok, r, i, k := CloseSession(d, uuid, id);
        CloseUndoesOpen(old(st), mid, st, d, at, s, uuid, id, k);
      }
      SameObjects(old(W()), W());
    }

    /** `close_session_in_service_list`: one session is unlinked and put. */
    method UnlinkReleased(s: nat, k: nat, d: nat)
      requires Valid() && SessionAt(st, s, k) && OwnerAt(st, s, k) == d && InSlot(st, d) && InService(st, d) == s
      modifies this
      ensures Valid() && holders == old(holders) && cmds == old(cmds) && pending == old(pending)
      ensures SameLists(st, WithSessions(old(st), s, Unlink(old(st.svc)[s].sessions, k)))
    {
      var x := st.svc[s].sessions[k].obj;
      Keeps(W(), ReleaseSession(s, k));
      st := WithSessions(st, s, Unlink(st.svc[s].sessions, k));
      cmds := cmds + multiset{x};
      assert cmds - multiset{x} == old(cmds);
      PutSessionOf(x);
    }

    /** `close_session_in_service_list`: the device's own sessions leave the list, the others stay in order. */
    method CloseSessionsInList(d: nat, s: nat)
      requires Valid() && InSlot(st, d) && InService(st, d) == s && s in st.svc
      modifies this
      ensures Valid() && holders == old(holders) && cmds == old(cmds) && pending == old(pending)
      ensures SameLists(st, WithSessions(old(st), s, NotOwned(old(st.svc)[s].sessions, d)))
    {
      ghost var done, kept, rest := [], [], st.svc[s].sessions;
      var i: nat := 0;
      SameList(st, s);
      assert kept + rest == rest && done + rest == rest;
      while i < |st.svc[s].sessions|
        invariant Valid() && holders == old(holders) && cmds == old(cmds) && pending == old(pending)
        invariant done + rest == old(st.svc)[s].sessions
        invariant kept == NotOwned(done, d) && i == |kept|
        invariant SameLists(st, WithSessions(old(st), s, kept + rest))
        decreases |rest|
      {
        ListMoves(done, kept, rest, d);
        if st.svc[s].sessions[i].owner != d {
          i := i + 1;
          kept := kept + [rest[0]];
        } else {
          Rewritten(old(st), st, s, kept + rest, kept + rest[1..]);
          UnlinkReleased(s, i, d);
        }
        done, rest := done + [rest[0]], rest[1..];
      }
      assert done == done + rest && kept == kept + rest;
    }

    /** The body of the loop of `close_session_thread_fn`: the device's sessions on the slot's service, then one put. */
    method ReleaseSlot(d: nat, n: nat)
      requires Valid() && AtSlot(st, d) && st.devs[d].release == At(n) && LoopTest(st, d)
      modifies this
      ensures Valid() && holders == old(holders) && cmds == old(cmds) && pending == old(pending)
      ensures SlotService(old(st), d, n) in old(st.svc) && SlotReleased(old(st), st, d, n)
    {
      SlotFacts(W(), d, n);
      EnterSlot(d, n);
      ghost var entered := st;
      CloseSessionsInList(d, SlotService(st, d, n));
      SlotGone(old(st), entered, st, d, n);
      LeaveSlot(d, n);
    }

    method SkipSlot(d: nat, n: nat)
      requires Valid() && AtSlot(st, d) && st.devs[d].release == At(n) && !LoopTest(st, d)
      modifies this
      ensures Valid() && holders == old(holders) && cmds == old(cmds) && pending == old(pending)
      ensures st == SetDev(old(st), d, old(st.devs)[d].(release := At(n + 1)))
    {
      Keeps(W(), ReleaseSkip(d));
      st := SetDev(st, d, st.devs[d].(release := At(n + 1)));
    }

    method EnterSlot(d: nat, n: nat)
      requires Valid() && AtSlot(st, d) && st.devs[d].release == At(n) && LoopTest(st, d)
      modifies this
      ensures Valid() && holders == old(holders) && cmds == old(cmds) && pending == old(pending)
      ensures st == SetDev(old(st), d, old(st.devs)[d].(release := In(n)))
    {
      Keeps(W(), ReleaseEnter(d));
      st := SetDev(st, d, st.devs[d].(release := In(n)));
    }

    method LeaveSlot(d: nat, n: nat)
      requires Valid() && InSlot(st, d) && st.devs[d].release == In(n) && Owned(SessionsOf(st, InService(st, d)), d) == 0
      modifies this
      ensures Valid() && holders == old(holders) && cmds == old(cmds) && pending == old(pending)
      ensures InService(old(st), d) in old(st.svc) && old(st.svc)[InService(old(st), d)].usage >= 1
      ensures st == SetDev(UseLess(old(st), InService(old(st), d)), d, WithSlot(old(st.devs)[d], n, None, 0).(release := At(n + 1)))
    {
      SlotFacts(W(), d, n);
      Keeps(W(), ReleaseService(d));
      st := SetDev(UseLess(st, InService(st, d)), d, WithSlot(st.devs[d], n, None, 0).(release := At(n + 1)));
    }

    /** `if_exist_unclosed_session` */
    method IfExistUnclosedSession(d: nat) returns (r: bool)
      requires Valid() && d in st.devs
      ensures r <==> exists i: nat :: SlotUnclosed(st, d, i)
    {
      Shape(W(), d);
      var i: nat := 0;
      while i < SERVICES_MAX_COUNT
        invariant i <= SERVICES_MAX_COUNT
        invariant forall j :: 0 <= j < i ==> !SlotUnclosed(st, d, j)
      {
        if st.devs[d].slots[i].Some? {
          SlotFacts(W(), d, i);
          if st.svc[SlotService(st, d, i)].sessions != [] {
            assert SlotUnclosed(st, d, i);
            return true;
          }
        }
        i := i + 1;
      }
      r := false;
    }

    /** `close_session_thread_fn`: slots whose service has no session would be skipped, but no used slot is. */
    method CloseThread(d: nat)
      requires Valid() && d in st.devs && st.devs[d].release == At(0)
      modifies this
      ensures Valid() && holders == old(holders) && cmds == old(cmds) && pending == old(pending)
      ensures SlotsReleased(old(st), st, d, SERVICES_MAX_COUNT)
    {
      Shape(W(), d);
      ghost var w := W();
      NothingReleased(w, d);
      var i: nat := 0;
      while i < SERVICES_MAX_COUNT
        invariant i <= SERVICES_MAX_COUNT
        invariant Valid() && holders == old(holders) && cmds == old(cmds) && pending == old(pending)
        invariant SlotsReleased(w.st, st, d, i)
      {
        ghost var was := st;
        Shape(W(), d);
        TestedSlot(W(), d);
        if LoopTest(st, d) {
          NextSlot(w, st, d, i);
          ReleaseSlot(d, i);
          SlotDone(w, was, st, d, i);
        } else {
          SkipSlot(d, i);
          SlotSkipped(w.st, was, st, d, i);
        }
        i := i + 1;
      }
    }

    /**
     The release of a device's file, with nothing of it in flight: exactly its own sessions are
     unlinked, every service it referenced loses one usage (and is freed at zero), and nothing else changes.
     */
    method CloseFd(d: nat)
      requires Valid() && Quiescent(W(), d)
      modifies this
      ensures Valid() && holders == old(holders) && cmds == old(cmds) && pending == old(pending)
      ensures st.devs == old(st.devs) - {d}
      ensures forall s :: Lookup(st, s) == Released(old(st), d, s)
    {
      ghost var w := W();
      Keeps(W(), ReleaseBegins(d));
      st := SetDev(st, d, st.devs[d].(release := At(0)));
      ghost var begun := W();
      Shape(W(), d);
      var unclosed := IfExistUnclosedSession(d);
      if unclosed {
        CloseThread(d);
      } else {
        NothingToRelease(begun, d);
        st := SetDev(st, d, st.devs[d].(release := At(SERVICES_MAX_COUNT)));
      }
      AllReleased(w.st, begun.st, st, d);
      Keeps(W(), ReleaseEnds(d));
      st := st.(devs := st.devs - {d});
    }
  }
}

/**
 What the paths of `session_manager.c` do to services, devices and sessions, as functions and
 relations of the state, with the lemmas that join them.
 */
module SessionStates {
  import opened Options
  import opened Folding
  import opened Sessions
  import opened SessionRuns

  ghost function HealthOf(w: World): Health {
    if forall k :: Unfold(k) ==> Sane(w) && SessionsSane(w) then Sound else Broken
  }

  lemma Opened(w: World)
    requires HealthOf(w) == Sound
    ensures Sane(w) && SessionsSane(w)
  {
    assert Unfold(0);
  }

  lemma Keeps(w: World, e: Event)
    requires HealthOf(w) == Sound && Enabled(w, e)
    ensures HealthOf(Apply(w, e)) == Sound
  {
    Opened(w);
    StepKeeps(w, e);
    SessionStep(w, e);
  }

  lemma Shape(w: World, d: nat)
    requires HealthOf(w) == Sound && d in w.st.devs
    ensures |w.st.devs[d].slots| == |w.st.devs[d].refs| == SERVICES_MAX_COUNT
    ensures forall i: nat :: i < SERVICES_MAX_COUNT && w.st.devs[d].slots[i] == None ==> w.st.devs[d].refs[i] == 0
  {
    Opened(w);
    PairFacts(w, d, 0);
  }

  lemma SlotFacts(w: World, d: nat, i: nat)
    requires HealthOf(w) == Sound && SlotUsed(w.st, d, i)
    ensures SlotService(w.st, d, i) in w.st.svc && w.st.svc[SlotService(w.st, d, i)].usage >= 1
    ensures 1 <= w.st.devs[d].refs[i] <= MAX_REF_COUNT
  {
    Opened(w);
    var s := SlotService(w.st, d, i);
    assert SlotIs(w.st.devs[d], i, s);
    PairFacts(w, d, s);
    NoDangling(w, s);
  }

  lemma SlotUnique(w: World, d: nat, i: nat, j: nat, s: nat)
    requires HealthOf(w) == Sound && d in w.st.devs && SlotIs(w.st.devs[d], i, s) && SlotIs(w.st.devs[d], j, s)
    ensures i == j
  {
    Opened(w);
    PairFacts(w, d, s);
  }

  /** A session that is listed or held has its object. */
  lemma ObjectThere(w: World, x: nat)
    requires HealthOf(w) == Sound && (OnAList(w.st, x) || w.cmds[x] > 0)
    ensures x in w.st.mem && w.st.mem[x] >= 1
  {
    Opened(w);
    ObjFacts(w);
    assert ObjOk(w, x);
  }

  lemma HeldIsListed(w: World, s: nat)
    requires HealthOf(w) == Sound && w.holders[s] > 0
    ensures s in w.st.svc && w.st.svc[s].usage >= 1
  {
    Opened(w);
    NoDangling(w, s);
  }

  /** An open or close in flight has its slot. */
  lemma SlotInFlight(w: World, d: nat, s: nat) returns (at: nat)
    requires HealthOf(w) == Sound && w.pending[(d, s)] > 0
    ensures d in w.st.devs && at < |w.st.devs[d].slots| == |w.st.devs[d].refs| == SERVICES_MAX_COUNT
    ensures SlotUsed(w.st, d, at) && SlotIs(w.st.devs[d], at, s) && w.st.devs[d].refs[at] >= 1
    ensures s in w.st.svc && w.st.svc[s].usage >= 1
  {
    Opened(w);
    InFlightHasSlot(w, d, s);
    Shape(w, d);
    at :| SlotIs(w.st.devs[d], at, s);
    SlotFacts(w, d, at);
  }

  /** Slot `i` of the device holds the service with this uuid. */
  predicate UuidAt(st: State, d: nat, i: nat, uuid: nat) {
    SlotUsed(st, d, i) && SlotService(st, d, i) in st.svc && st.svc[SlotService(st, d, i)].uuid == uuid
  }

  predicate Listed(st: State, uuid: nat) {
    exists s :: s in st.svc && st.svc[s].uuid == uuid
  }

  predicate SlotFree(st: State, d: nat, i: nat) {
    d in st.devs && i < |st.devs[d].slots| == |st.devs[d].refs| && st.devs[d].slots[i] == None && st.devs[d].refs[i] == 0
  }

  predicate SlotsFull(st: State, d: nat) {
    d in st.devs && forall i: nat :: i < |st.devs[d].slots| ==> st.devs[d].slots[i] != None
  }

  /** When `find_service` gives no service: the slot's count is full, memory ran out, or all 32 slots are used. */
  ghost predicate Refused(st: State, d: nat, uuid: nat, memory: bool) {
    || (exists i: nat :: UuidAt(st, d, i, uuid) && st.devs[d].refs[i] == MAX_REF_COUNT)
    || ((forall i :: !UuidAt(st, d, i, uuid)) && ((!Listed(st, uuid) && !memory) || SlotsFull(st, d)))
  }

  /** Where `find_service` puts its reference: the slot that has the uuid, or the first free one. */
  ghost predicate Admits(st: State, d: nat, i: nat, s: nat, uuid: nat) {
    && Unlocked(st, d) && i < |st.devs[d].slots|
    && (st.devs[d].slots[i].Some? ==> UuidAt(st, d, i, uuid) && s == SlotService(st, d, i) && st.devs[d].refs[i] != MAX_REF_COUNT)
    && (st.devs[d].slots[i].None? ==>
          && st.devs[d].refs[i] == 0
          && (forall j :: 0 <= j < i ==> st.devs[d].slots[j] != None)
          && (forall j :: !UuidAt(st, d, j, uuid))
          && (if s in st.svc then st.svc[s].uuid == uuid && st.svc[s].usage >= 1 else s == st.next && !Listed(st, uuid)))
  }

  /** The service listed and counted once more. */
  function Gained(st: State, s: nat, uuid: nat): State {
    if s in st.svc then UseMore(st, s) else SetSvc(st, s, Service(uuid, 1, [])).(next := s + 1)
  }

  /** The state after `find_service` succeeded at slot `i`. */
  function Referenced(st: State, d: nat, i: nat, s: nat, uuid: nat): State
    requires Unlocked(st, d) && i < |st.devs[d].slots|
  {
    if st.devs[d].slots[i].Some? then SetDev(st, d, WithSlot(st.devs[d], i, st.devs[d].slots[i], st.devs[d].refs[i] + 1))
    else SetDev(Gained(st, s, uuid), d, WithSlot(st.devs[d], i, Some(s), 1))
  }

  /** The state after `del_service_from_dev` at slot `i`. */
  function Dropped(st: State, d: nat, i: nat): State
    requires SlotUsed(st, d, i) && UsageOf(st, SlotService(st, d, i)) >= 1 && st.devs[d].refs[i] >= 1
  {
    if st.devs[d].refs[i] == 1 then UseLess(SetDev(st, d, WithSlot(st.devs[d], i, None, 0)), SlotService(st, d, i))
    else SetDev(st, d, WithSlot(st.devs[d], i, st.devs[d].slots[i], st.devs[d].refs[i] - 1))
  }

  /** The same services and devices. */
  predicate SameLists(a: State, b: State) {
    a.svc == b.svc && a.devs == b.devs
  }

  /** With the same services and the same holders, the session objects and their usage are the same. */
  lemma SameObjects(w: World, w': World)
    requires HealthOf(w) == Sound && HealthOf(w') == Sound && w.st.svc == w'.st.svc && w.cmds == w'.cmds
    ensures w.st.mem == w'.st.mem
  {
    Opened(w);
    Opened(w');
    SessionUseDetermined(w, w');
  }

  lemma SlotRestored(dv: Dev, i: nat, slot: Option<nat>, ref: nat)
    requires i < |dv.slots| == |dv.refs|
    ensures WithSlot(WithSlot(dv, i, slot, ref), i, dv.slots[i], dv.refs[i]) == dv
  {
    assert dv.slots[i := slot][i := dv.slots[i]] == dv.slots;
    assert dv.refs[i := ref][i := dv.refs[i]] == dv.refs;
  }

  lemma GainThenLose(st: State, s: nat, uuid: nat)
    requires s in st.svc ==> st.svc[s].usage >= 1
    ensures s in Gained(st, s, uuid).svc && UsageOf(Gained(st, s, uuid), s) >= 1
    ensures UseLess(Gained(st, s, uuid), s).svc == st.svc
  {
    if s in st.svc {
      assert st.svc[s := st.svc[s].(usage := st.svc[s].usage + 1)][s := st.svc[s]] == st.svc;
    } else {
      assert st.svc[s := Service(uuid, 1, [])] - {s} == st.svc;
    }
  }

  /** Dropping the reference that `find_service` took restores every service and every device. */
  lemma DropUndoesFind(st: State, d: nat, i: nat, s: nat, uuid: nat)
    requires Admits(st, d, i, s, uuid)
    requires st.devs[d].slots[i].Some? ==> st.devs[d].refs[i] >= 1 && UsageOf(st, s) >= 1
    ensures SlotUsed(Referenced(st, d, i, s, uuid), d, i) && SlotService(Referenced(st, d, i, s, uuid), d, i) == s
    ensures UsageOf(Referenced(st, d, i, s, uuid), s) >= 1
    ensures SameLists(Dropped(Referenced(st, d, i, s, uuid), d, i), st)
  {
    var dv := st.devs[d];
    if dv.slots[i].Some? {
      SlotRestored(dv, i, dv.slots[i], dv.refs[i] + 1);
      assert st.devs[d := WithSlot(dv, i, dv.slots[i], dv.refs[i] + 1)][d := dv] == st.devs;
    } else {
      SlotRestored(dv, i, Some(s), 1);
      GainThenLose(st, s, uuid);
      assert st.devs[d := WithSlot(dv, i, Some(s), 1)][d := dv] == st.devs;
    }
  }

  /** The session has this id and was opened through device `d`. */
  predicate Is(x: Session, id: nat, d: nat) {
    x.id == id && x.owner == d
  }

  /** The first session on the list with this id and owner is at `k`. */
  predicate FirstAt(sessions: seq<Session>, id: nat, d: nat, k: nat) {
    k < |sessions| && Is(sessions[k], id, d) && forall j :: 0 <= j < k ==> !Is(sessions[j], id, d)
  }

  lemma ListedIsUsed(w: World, s: nat)
    requires HealthOf(w) == Sound && s in w.st.svc
    ensures w.st.svc[s].usage >= 1
  {
    Opened(w);
    PairFacts(w, 0, s);
  }

  lemma NextIsNew(w: World)
    requires HealthOf(w) == Sound
    ensures w.st.next !in w.st.svc
  {
    Opened(w);
    PairFacts(w, 0, w.st.next);
  }

  /** A uuid sits in at most one slot of a device. */
  lemma UuidOnce(w: World, d: nat, at: nat, uuid: nat)
    requires HealthOf(w) == Sound && UuidAt(w.st, d, at, uuid)
    ensures forall i :: UuidAt(w.st, d, i, uuid) ==> i == at
  {
    Opened(w);
    forall i | UuidAt(w.st, d, i, uuid)
      ensures i == at
    {
      var s := SlotService(w.st, d, at);
      PairFacts(w, d, s);
      assert SlotIs(w.st.devs[d], i, s) && SlotIs(w.st.devs[d], at, s);
      SlotUnique(w, d, i, at, s);
    }
  }

  /** Putting the service that found no slot restores the lists. */
  lemma GaveUp(st: State, mid: State, d: nat, s: nat, uuid: nat)
    requires d in st.devs && st.devs[d].opening == None && (s in st.svc ==> st.svc[s].usage >= 1)
    requires mid == SetDev(Gained(st, s, uuid), d, st.devs[d].(opening := Some(s)))
    ensures SetDev(mid, d, mid.devs[d].(opening := None)).devs == st.devs
    ensures s in mid.svc && mid.svc[s].usage >= 1
    ensures UseLess(SetDev(mid, d, mid.devs[d].(opening := None)), s).svc == st.svc
  {
    GainThenLose(st, s, uuid);
    assert mid.devs[d].(opening := None) == st.devs[d];
    assert mid.devs[d := st.devs[d]] == st.devs;
  }

  /** The device has the session `id` on the service with this uuid. */
  ghost predicate HasSession(st: State, d: nat, uuid: nat, id: nat) {
    exists i: nat :: UuidAt(st, d, i, uuid) && exists x :: x in st.svc[SlotService(st, d, i)].sessions && Is(x, id, d)
  }

  /** `x` is the object of the first session with this id and owner on the service with this uuid. */
  ghost predicate Names(st: State, d: nat, uuid: nat, id: nat, x: nat) {
    exists at: nat, k: nat :: NamesAt(st, d, uuid, id, x, at, k)
  }

  ghost predicate NamesAt(st: State, d: nat, uuid: nat, id: nat, x: nat, at: nat, k: nat) {
    && UuidAt(st, d, at, uuid)
    && FirstAt(st.svc[SlotService(st, d, at)].sessions, id, d, k)
    && x == st.svc[SlotService(st, d, at)].sessions[k].obj
  }

  /** The session a command goes to is determined. */
  lemma NamesOne(w: World, d: nat, uuid: nat, id: nat, x: nat, y: nat)
    requires HealthOf(w) == Sound && Names(w.st, d, uuid, id, x) && Names(w.st, d, uuid, id, y)
    ensures x == y
  {
    var at: nat, k: nat :| NamesAt(w.st, d, uuid, id, x, at, k);
    var bt: nat, j: nat :| NamesAt(w.st, d, uuid, id, y, bt, j);
    UuidOnce(w, d, at, uuid);
  }

  lemma GetThenPut(st: State, s: nat)
    requires s in st.svc && st.svc[s].usage >= 1
    ensures SameLists(UseLess(UseMore(st, s), s), st)
  {
    assert UseMore(st, s).svc[s := st.svc[s]] == st.svc;
  }

  lemma FoundFacts(w: World, d: nat, i: nat, s: nat, uuid: nat)
    requires HealthOf(w) == Sound && Admits(w.st, d, i, s, uuid)
    ensures w.st.devs[d].slots[i].Some? ==> w.st.devs[d].refs[i] >= 1 && UsageOf(w.st, s) >= 1
    ensures s in Referenced(w.st, d, i, s, uuid).svc && SessionsOf(Referenced(w.st, d, i, s, uuid), s) == SessionsOf(w.st, s)
    ensures SlotIs(Referenced(w.st, d, i, s, uuid).devs[d], i, s)
  {
    if w.st.devs[d].slots[i].Some? {
      SlotFacts(w, d, i);
    }
  }

  /** An open, told by the services and slots: one session more at the end of one list, one reference more in one slot. */
  lemma OpenedExactly(w: World, d: nat, i: nat, s: nat, uuid: nat, id: nat)
    requires HealthOf(w) == Sound && Admits(w.st, d, i, s, uuid)
    ensures s in Referenced(w.st, d, i, s, uuid).svc
    ensures var st, st' := w.st, NewSession(Referenced(w.st, d, i, s, uuid), s, id, d);
            && s in st'.svc && st'.svc[s].uuid == uuid
            && st'.svc[s].sessions == SessionsOf(st, s) + [Session(st.nextSession, id, d)]
            && st'.svc[s].usage == UsageOf(st, s) + (if st.devs[d].slots[i].Some? then 0 else 1)
            && st'.svc - {s} == st.svc - {s}
            && d in st'.devs && st'.devs == st.devs[d := WithSlot(st.devs[d], i, Some(s), st.devs[d].refs[i] + 1)]
  {
    FoundFacts(w, d, i, s, uuid);
  }

  lemma SameList(st: State, s: nat)
    requires s in st.svc
    ensures WithSessions(st, s, st.svc[s].sessions) == st
  {
    assert st.svc[s := st.svc[s]] == st.svc;
  }

  /** The sessions of other devices, in order. */
  function NotOwned(sessions: seq<Session>, d: nat): (r: seq<Session>)
    ensures Owned(r, d) == 0
  {
    if sessions == [] then []
    else
      var x := sessions[|sessions| - 1];
      var rest := NotOwned(sessions[..|sessions| - 1], d);
      if x.owner == d then rest else OwnedAppend(rest, x, d); rest + [x]
  }

  lemma Shift(a: seq<Session>, b: seq<Session>)
    requires b != []
    ensures (a + [b[0]]) + b[1..] == a + b
  {
    assert b == [b[0]] + b[1..];
    assert (a + [b[0]]) + b[1..] == a + ([b[0]] + b[1..]);
  }

  lemma CutAt(a: seq<Session>, b: seq<Session>)
    requires b != []
    ensures Unlink(a + b, |a|) == a + b[1..]
  {
    assert (a + b)[..|a|] == a;
    assert (a + b)[|a| + 1..] == b[1..];
  }

  /** Walking the list one session further. */
  lemma ListMoves(done: seq<Session>, kept: seq<Session>, rest: seq<Session>, d: nat)
    requires rest != [] && kept == NotOwned(done, d)
    ensures NotOwned(done + [rest[0]], d) == if rest[0].owner == d then kept else kept + [rest[0]]
    ensures (done + [rest[0]]) + rest[1..] == done + rest
    ensures (kept + [rest[0]]) + rest[1..] == kept + rest
    ensures Unlink(kept + rest, |kept|) == kept + rest[1..]
  {
    Shift(done, rest);
    Shift(kept, rest);
    CutAt(kept, rest);
    var more := done + [rest[0]];
    assert more[..|more| - 1] == done && more[|more| - 1] == rest[0];
  }

  /** The kept sessions are those of other devices. */
  lemma {:induction false} NotOwnedExact(sessions: seq<Session>, d: nat, x: Session)
    ensures x in NotOwned(sessions, d) <==> x in sessions && x.owner != d
  {
    if sessions != [] {
      var n := |sessions| - 1;
      NotOwnedExact(sessions[..n], d, x);
      assert x in sessions <==> x in sessions[..n] || x == sessions[n];
    }
  }

  /** No other device loses a session. */
  lemma {:induction false} NotOwnedKeeps(sessions: seq<Session>, d: nat, e: nat)
    requires e != d
    ensures Owned(NotOwned(sessions, d), e) == Owned(sessions, e)
  {
    if sessions != [] {
      var n := |sessions| - 1;
      NotOwnedKeeps(sessions[..n], d, e);
      OwnedAppend(NotOwned(sessions[..n], d), sessions[n], e);
    }
  }

  // ------ the release of a file, service by service ------

  function Lookup(st: State, s: nat): Option<Service> {
    if s in st.svc then Some(st.svc[s]) else None
  }

  /** The service without device `d`: its sessions gone, one usage less, freed when that was the last. */
  function LessDevice(v: Service, d: nat): Option<Service> {
    if v.usage <= 1 then None else Some(v.(usage := v.usage - 1, sessions := NotOwned(v.sessions, d)))
  }

  /** What the release of device `d` leaves of service `s`. */
  ghost function Released(st: State, d: nat, s: nat): Option<Service> {
    if d in st.devs && s in st.svc && Refers(st.devs[d], s) then LessDevice(st.svc[s], d) else Lookup(st, s)
  }

  predicate SlotUnclosed(st: State, d: nat, i: nat) {
    SlotUsed(st, d, i) && SessionsOf(st, SlotService(st, d, i)) != []
  }

  /** Slot `i` given up, with everything else the same. */
  ghost predicate SlotReleased(st: State, st': State, d: nat, i: nat)
    requires SlotUsed(st, d, i) && SlotService(st, d, i) in st.svc
  {
    var s := SlotService(st, d, i);
    && st'.devs == st.devs[d := WithSlot(st.devs[d], i, None, 0).(release := At(i + 1))]
    && Lookup(st', s) == LessDevice(st.svc[s], d)
    && forall r :: r != s ==> Lookup(st', r) == Lookup(st, r)
  }

  /** What the body of the release loop leaves. */
  lemma SlotGone(st: State, entered: State, closed: State, d: nat, n: nat)
    requires SlotUsed(st, d, n) && SlotService(st, d, n) in st.svc && st.svc[SlotService(st, d, n)].usage >= 1
    requires entered == SetDev(st, d, st.devs[d].(release := In(n)))
    requires SameLists(closed, WithSessions(entered, SlotService(st, d, n), NotOwned(st.svc[SlotService(st, d, n)].sessions, d)))
    ensures SlotUsed(closed, d, n) && SlotService(closed, d, n) == SlotService(st, d, n) && SlotService(st, d, n) in closed.svc
    ensures SlotReleased(st, SetDev(UseLess(closed, SlotService(st, d, n)), d, WithSlot(closed.devs[d], n, None, 0).(release := At(n + 1))), d, n)
  {
    var s := SlotService(st, d, n);
    var st' := SetDev(UseLess(closed, s), d, WithSlot(closed.devs[d], n, None, 0).(release := At(n + 1)));
    assert st'.devs == st.devs[d := WithSlot(st.devs[d], n, None, 0).(release := At(n + 1))];
  }

  ghost predicate RefersBelow(dv: Dev, n: nat, s: nat) {
    exists i: nat :: i < n && SlotIs(dv, i, s)
  }

  /** The first `n` slots of the device have been given up. */
  ghost predicate SlotsReleased(st: State, st': State, d: nat, n: nat) {
    && d in st.devs && d in st'.devs && st'.devs[d].release == At(n)
    && |st.devs[d].slots| == |st'.devs[d].slots| == |st'.devs[d].refs| == SERVICES_MAX_COUNT
    && (forall i: nat :: i < SERVICES_MAX_COUNT ==> st'.devs[d].slots[i] == if i < n then None else st.devs[d].slots[i])
    && st'.devs - {d} == st.devs - {d}
    && (forall s :: Lookup(st', s) == if s in st.svc && RefersBelow(st.devs[d], n, s) then LessDevice(st.svc[s], d) else Lookup(st, s))
  }

  lemma NothingReleased(w: World, d: nat)
    requires HealthOf(w) == Sound && d in w.st.devs && w.st.devs[d].release == At(0)
    ensures SlotsReleased(w.st, w.st, d, 0)
  {
    Shape(w, d);
  }

  lemma SlotSkipped(st: State, was: State, st': State, d: nat, n: nat)
    requires SlotsReleased(st, was, d, n) && n < SERVICES_MAX_COUNT && was.devs[d].slots[n] == None
    requires st' == SetDev(was, d, was.devs[d].(release := At(n + 1)))
    ensures SlotsReleased(st, st', d, n + 1)
  {
    forall s
      ensures RefersBelow(st.devs[d], n + 1, s) <==> RefersBelow(st.devs[d], n, s)
      ensures Lookup(st', s) == Lookup(was, s)
    {
    }
    assert st'.devs - {d} == was.devs - {d};
  }

  /** The loop of the release skips only empty slots. */
  lemma TestedSlot(w: World, d: nat)
    requires HealthOf(w) == Sound && AtSlot(w.st, d)
    ensures LoopTest(w.st, d) <==> w.st.devs[d].slots[w.st.devs[d].release.n].Some?
  {
    Opened(w);
    ReachedSlotHasSessions(w, d);
  }

  /** The next slot's service is still as it was when the release began. */
  lemma NextSlot(w: World, st': State, d: nat, n: nat)
    requires HealthOf(w) == Sound && SlotsReleased(w.st, st', d, n) && n < SERVICES_MAX_COUNT && st'.devs[d].slots[n].Some?
    ensures SlotUsed(w.st, d, n) && SlotService(st', d, n) == SlotService(w.st, d, n)
    ensures SlotService(st', d, n) in w.st.svc && SlotService(st', d, n) in st'.svc
    ensures st'.svc[SlotService(st', d, n)] == w.st.svc[SlotService(st', d, n)]
  {
    var s := SlotService(st', d, n);
    Shape(w, d);
    SlotFacts(w, d, n);
    assert SlotIs(w.st.devs[d], n, s);
    forall i: nat | i < n
      ensures !SlotIs(w.st.devs[d], i, s)
    {
      if SlotIs(w.st.devs[d], i, s) {
        SlotUnique(w, d, i, n, s);
      }
    }
    assert Lookup(st', s) == Lookup(w.st, s);
  }

  lemma SlotDone(w: World, was: State, st': State, d: nat, n: nat)
    requires SlotsReleased(w.st, was, d, n) && n < SERVICES_MAX_COUNT && was.devs[d].slots[n].Some?
    requires SlotService(was, d, n) in was.svc && SlotService(was, d, n) in w.st.svc
    requires was.svc[SlotService(was, d, n)] == w.st.svc[SlotService(was, d, n)]
    requires SlotReleased(was, st', d, n)
    ensures SlotsReleased(w.st, st', d, n + 1)
  {
    var s, dv := SlotService(was, d, n), w.st.devs[d];
    assert SlotIs(dv, n, s) && RefersBelow(dv, n + 1, s);
    forall r | r != s
      ensures RefersBelow(dv, n + 1, r) <==> RefersBelow(dv, n, r)
    {
    }
    assert st'.devs - {d} == was.devs - {d};
  }

  /** When a release begins, every used slot has a session to close. */
  lemma UsedIsUnclosed(w: World, d: nat, i: nat)
    requires HealthOf(w) == Sound && d in w.st.devs && w.st.devs[d].release == At(0)
    ensures SlotUsed(w.st, d, i) <==> SlotUnclosed(w.st, d, i)
  {
    if SlotUsed(w.st, d, i) {
      Opened(w);
      var s := SlotService(w.st, d, i);
      assert SlotIs(w.st.devs[d], i, s);
      PairFacts(w, d, s);
      assert Owned(SessionsOf(w.st, s), d) >= 1;
    }
  }

  /** The early return of `close_unclosed_session_in_kthread`: what the loop would have done is nothing. */
  lemma NothingToRelease(w: World, d: nat)
    requires HealthOf(w) == Sound && d in w.st.devs && w.st.devs[d].release == At(0) && forall i: nat :: !SlotUnclosed(w.st, d, i)
    ensures var w' := w.(st := SetDev(w.st, d, w.st.devs[d].(release := At(SERVICES_MAX_COUNT))));
            HealthOf(w') == Sound && SlotsReleased(w.st, w'.st, d, SERVICES_MAX_COUNT)
  {
    var w' := w.(st := SetDev(w.st, d, w.st.devs[d].(release := At(SERVICES_MAX_COUNT))));
    Opened(w);
    Shape(w, d);
    forall i: nat | i < SERVICES_MAX_COUNT
      ensures w.st.devs[d].slots[i] == None
    {
      UsedIsUnclosed(w, d, i);
    }
    forall s: nat
      ensures PairOk(w', d, s)
    {
      PairFacts(w, d, s);
      CountMoves(w.st.devs[d], w'.st.devs[d], s, Owned(SessionsOf(w.st, s), d), w.pending[(d, s)]);
    }
    PairFacts(w, d, 0);
    ReleaseMoves(w, w', d);
    ListsSame(w, w');
    assert w'.st.devs - {d} == w.st.devs - {d};
  }

  lemma AllReleased(st: State, begun: State, st': State, d: nat)
    requires d in st.devs && begun == SetDev(st, d, st.devs[d].(release := At(0)))
    requires SlotsReleased(begun, st', d, SERVICES_MAX_COUNT)
    ensures forall s :: Lookup(st', s) == Released(st, d, s)
    ensures st'.devs - {d} == st.devs - {d}
  {
    forall s
      ensures Refers(st.devs[d], s) <==> RefersBelow(begun.devs[d], SERVICES_MAX_COUNT, s)
    {
      assert forall i :: SlotIs(st.devs[d], i, s) <==> SlotIs(begun.devs[d], i, s);
    }
    assert begun.devs - {d} == st.devs - {d};
  }

  // ------ closing a session ------

  /** Putting the session makes no difference to the slot reference dropped after it. */
  lemma DroppedSame(a: State, b: State, d: nat, i: nat)
    requires SameLists(a, b) && SlotUsed(a, d, i) && UsageOf(a, SlotService(a, d, i)) >= 1 && a.devs[d].refs[i] >= 1
    ensures SameLists(Dropped(a, d, i), Dropped(b, d, i))
  {
  }

  /** Holding the service around a close makes no difference to the lists it leaves. */
  lemma CloseStates(st: State, held: State, mid: State, d: nat, at: nat, s: nat, sessions: seq<Session>)
    requires SlotUsed(st, d, at) && s == SlotService(st, d, at) && s in st.svc && st.svc[s].usage >= 1 && st.devs[d].refs[at] >= 1
    requires SameLists(held, UseMore(st, s)) && SameLists(mid, Dropped(WithSessions(held, s, sessions), d, at))
    ensures s in mid.svc && mid.svc[s].usage >= 1
    ensures SameLists(UseLess(mid, s), Dropped(WithSessions(st, s, sessions), d, at))
  {
    var plain := Dropped(WithSessions(st, s, sessions), d, at);
    forall r
      ensures r in UseLess(mid, s).svc <==> r in plain.svc
      ensures r in plain.svc ==> UseLess(mid, s).svc[r] == plain.svc[r]
    {
    }
  }

  /** After a successful open the uuid and the session are at the slot `find_service` used. */
  lemma OpenedThere(w: World, st: State, d: nat, at: nat, s: nat, uuid: nat, id: nat)
    requires HealthOf(w) == Sound && Admits(st, d, at, s, uuid) && s in Referenced(st, d, at, s, uuid).svc
    requires w.st == NewSession(Referenced(st, d, at, s, uuid), s, id, d)
    ensures Unlocked(w.st, d) && HasSession(w.st, d, uuid, id)
    ensures UuidAt(w.st, d, at, uuid) && SlotService(w.st, d, at) == s
    ensures forall i :: UuidAt(w.st, d, i, uuid) ==> i == at
  {
    assert UuidAt(w.st, d, at, uuid);
    var list := w.st.svc[s].sessions;
    assert list[|list| - 1] in list && Is(list[|list| - 1], id, d);
    UuidOnce(w, d, at, uuid);
  }

  lemma OnlyLast(sessions: seq<Session>, x: Session, id: nat, d: nat, k: nat)
    requires (forall y :: y in sessions ==> !Is(y, id, d)) && Is(x, id, d) && FirstAt(sessions + [x], id, d, k)
    ensures Unlink(sessions + [x], k) == sessions
  {
    assert k == |sessions|;
  }

  /** Unlinking the new session and dropping its slot reference undoes the open. */
  lemma CloseUndoesOpen(st: State, mid: State, st': State, d: nat, at: nat, s: nat, uuid: nat, id: nat, k: nat)
    requires Admits(st, d, at, s, uuid) && s in Referenced(st, d, at, s, uuid).svc
    requires st.devs[d].slots[at].Some? ==> st.devs[d].refs[at] >= 1 && UsageOf(st, s) >= 1
    requires mid == NewSession(Referenced(st, d, at, s, uuid), s, id, d) && forall y :: y in SessionsOf(st, s) ==> !Is(y, id, d)
    requires SessionsOf(Referenced(st, d, at, s, uuid), s) == SessionsOf(st, s)
    requires FirstAt(mid.svc[s].sessions, id, d, k)
    requires SlotUsed(mid, d, at) && SlotService(mid, d, at) == s && mid.svc[s].usage >= 1 && mid.devs[d].refs[at] >= 1
    requires SameLists(st', Dropped(WithSessions(mid, s, Unlink(mid.svc[s].sessions, k)), d, at))
    ensures SameLists(st', st)
  {
    var taken := Referenced(st, d, at, s, uuid);
    DropUndoesFind(st, d, at, s, uuid);
    OnlyLast(SessionsOf(st, s), Session(taken.nextSession, id, d), id, d, k);
    var back := WithSessions(mid, s, Unlink(mid.svc[s].sessions, k));
    assert back.svc == taken.svc;
    DroppedSame(back, taken, d, at);
  }

  lemma Rewritten(st: State, st': State, s: nat, a: seq<Session>, b: seq<Session>)
    requires s in st.svc && SameLists(st', WithSessions(st, s, a))
    ensures SameLists(WithSessions(st', s, b), WithSessions(st, s, b))
  {
    var v := st.svc[s];
    assert st.svc[s := v.(sessions := a)][s := v.(sessions := b)] == st.svc[s := v.(sessions := b)];
  }
}

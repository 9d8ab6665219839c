/**
 Services, device slots and sessions (`session_manager.c`) with their counts: a service's `usage`,
 a device slot's `service_ref`, the sessions on a service's list, and a session's own `usage`.

 An event is what one thread does under one lock; any thread may run between two events.
 `holders` are the references to services that running threads keep on their stacks, `pending`
 the slot references of opens and closes in flight, `cmds` the references to sessions.
 */
module Sessions {
  import opened Options
  import opened Folding

  const SERVICES_MAX_COUNT: nat := 32
  const MAX_REF_COUNT: nat := 255

  /** A session on a list: its object, the TEE's id for it, and the device that opened it. */
  datatype Session = Session(obj: nat, id: nat, owner: nat)

  datatype Service = Service(uuid: nat, usage: nat, sessions: seq<Session>)

  /**
   An open device.  `opening` is the service that an opener inside `find_service` has found or
   created but not yet put into a slot; it holds the device's `service_lock` meanwhile.
   */
  datatype Dev = Dev(slots: seq<Option<nat>>, refs: seq<nat>, opening: Option<nat>, release: Release)

  /** How far the release of a device's file is: the loop of `close_session_thread_fn` is about to look at a slot, or inside its body. */
  datatype Release = InUse | At(n: nat) | In(n: nat)

  /** The global service list (the keys of `svc`), the open devices, the session objects with their usage, and the next objects. */
  datatype State = State(svc: map<nat, Service>, devs: map<nat, Dev>, mem: map<nat, nat>, next: nat, nextSession: nat)

  /** The driver's state with the references held by running threads. */
  datatype World = World(st: State, holders: multiset<nat>, pending: multiset<(nat, nat)>, cmds: multiset<nat>)

  /** How many sessions on a list belong to device `d`. */
  function Owned(sessions: seq<Session>, d: nat): nat {
    if sessions == [] then 0
    else Owned(sessions[..|sessions| - 1], d) + (if sessions[|sessions| - 1].owner == d then 1 else 0)
  }

  lemma OwnedAppend(sessions: seq<Session>, x: Session, d: nat)
    ensures Owned(sessions + [x], d) == Owned(sessions, d) + (if x.owner == d then 1 else 0)
  {
    assert (sessions + [x])[..|sessions|] == sessions;
  }

  lemma {:induction false} OwnedConcat(a: seq<Session>, b: seq<Session>, d: nat)
    ensures Owned(a + b, d) == Owned(a, d) + Owned(b, d)
  {
    if b == [] {
      assert a + b == a;
    } else {
      var n := |b| - 1;
      OwnedConcat(a, b[..n], d);
      assert a + b == (a + b[..n]) + [b[n]];
      OwnedAppend(a + b[..n], b[n], d);
    }
  }

  lemma OwnedRemove(sessions: seq<Session>, k: nat, d: nat)
    requires k < |sessions|
    ensures Owned(sessions[..k] + sessions[k + 1..], d) + (if sessions[k].owner == d then 1 else 0) == Owned(sessions, d)
  {
    var a, b := sessions[..k], sessions[k + 1..];
    assert sessions == (a + [sessions[k]]) + b;
    OwnedConcat(a + [sessions[k]], b, d);
    OwnedAppend(a, sessions[k], d);
    OwnedConcat(a, b, d);
  }

  /** The sessions on a service's list. */
  function SessionsOf(st: State, s: nat): seq<Session> {
    if s in st.svc then st.svc[s].sessions else []
  }

  function UsageOf(st: State, s: nat): nat {
    if s in st.svc then st.svc[s].usage else 0
  }

  // ------ the invariant ------

  /** Slot `i` of the device points at service `s`. */
  predicate SlotIs(dv: Dev, i: nat, s: nat) {
    i < |dv.slots| && dv.slots[i] == Some(s)
  }

  function RefAt(dv: Dev, i: nat): nat {
    if i < |dv.refs| then dv.refs[i] else 0
  }

  ghost predicate Refers(dv: Dev, s: nat) {
    exists i :: SlotIs(dv, i, s)
  }

  /** The device counts in the usage of service `s`: a slot points at it, or an opener is about to. */
  ghost predicate Uses(dv: Dev, s: nat) {
    Refers(dv, s) || dv.opening == Some(s)
  }

  ghost function Users(devs: map<nat, Dev>, s: nat): set<nat> {
    set d | d in devs && Uses(devs[d], s)
  }

  ghost function Weight(devs: map<nat, Dev>, d: nat, s: nat): nat {
    if d in devs && Uses(devs[d], s) then 1 else 0
  }

  /** A service's usage is the number of devices with a slot (or an opener) for it plus its holders; it is listed while that is not zero. */
  ghost predicate UsageOk(w: World, s: nat) {
    && UsageOf(w.st, s) == |Users(w.st.devs, s)| + w.holders[s]
    && (s in w.st.svc ==> w.st.svc[s].usage >= 1 && s < w.st.next)
  }

  ghost predicate ShapeOk(dv: Dev) {
    && |dv.slots| == |dv.refs| == SERVICES_MAX_COUNT
    && (forall i: nat :: i < SERVICES_MAX_COUNT && dv.slots[i] == None ==> dv.refs[i] == 0)
    && (dv.release != InUse ==> dv.opening == None && dv.release.n <= SERVICES_MAX_COUNT)
  }

  /** What slot `i` counts; while the file is released, slots not yet reached still count exactly the device's sessions. */
  predicate RefOk(release: Release, i: nat, ref: nat, owned: nat, inFlight: nat) {
    match release
    case InUse => ref == owned + inFlight
    case At(n) => n <= i && ref == owned && inFlight == 0
    case In(n) => n <= i && inFlight == 0 && (if i == n then owned <= ref else ref == owned)
  }

  /** A slot's count is the device's sessions on the service plus its opens and closes in flight, within 1..255. */
  ghost predicate CountOk(dv: Dev, s: nat, owned: nat, inFlight: nat) {
    && (forall i :: SlotIs(dv, i, s) ==>
          1 <= RefAt(dv, i) <= MAX_REF_COUNT && RefOk(dv.release, i, RefAt(dv, i), owned, inFlight))
    && (forall i, j :: SlotIs(dv, i, s) && SlotIs(dv, j, s) ==> i == j)
    && (!Refers(dv, s) ==> owned == 0 && inFlight == 0)
    && (dv.opening == Some(s) ==> !Refers(dv, s))
  }

  /** Device `d` and service `s` agree; a device that is not open has no session and nothing in flight. */
  ghost predicate PairOk(w: World, d: nat, s: nat) {
    var owned, inFlight := Owned(SessionsOf(w.st, s), d), w.pending[(d, s)];
    if d in w.st.devs then CountOk(w.st.devs[d], s, owned, inFlight) else owned == 0 && inFlight == 0
  }

  ghost predicate UniqueUuids(st: State) {
    forall s, r :: s in st.svc && r in st.svc && st.svc[s].uuid == st.svc[r].uuid ==> s == r
  }

  ghost predicate Inv(w: World) {
    && (forall s: nat :: UsageOk(w, s))
    && (forall d :: d in w.st.devs ==> ShapeOk(w.st.devs[d]))
    && (forall d: nat, s: nat :: PairOk(w, d, s))
    && UniqueUuids(w.st)
  }

  ghost function InvHealth(w: World): Health {
    if forall k :: Unfold(k) ==> Inv(w) then Sound else Broken
  }

  /** `Inv`, folded. */
  ghost predicate Sane(w: World) {
    InvHealth(w) == Sound
  }

  lemma InvFacts(w: World)
    requires Sane(w)
    ensures Inv(w)
  {
    assert Unfold(0);
  }

  /** What the invariant says of one device and one service. */
  lemma PairFacts(w: World, d: nat, s: nat)
    requires Sane(w)
    ensures UsageOk(w, s) && PairOk(w, d, s) && UniqueUuids(w.st) && (d in w.st.devs ==> ShapeOk(w.st.devs[d]))
  {
    InvFacts(w);
  }

  // ------ the steps, as functions of the state ------

  function SetDev(st: State, d: nat, dv: Dev): State {
    st.(devs := st.devs[d := dv])
  }

  function SetSvc(st: State, s: nat, v: Service): State {
    st.(svc := st.svc[s := v])
  }

  function NewDev(): Dev {
    Dev(seq(SERVICES_MAX_COUNT, _ => None), seq(SERVICES_MAX_COUNT, _ => 0), None, InUse)
  }

  function WithSlot(dv: Dev, i: nat, slot: Option<nat>, ref: nat): Dev
    requires i < |dv.slots| == |dv.refs|
  {
    dv.(slots := dv.slots[i := slot], refs := dv.refs[i := ref])
  }

  /** `get_service_struct` */
  function UseMore(st: State, s: nat): State
    requires s in st.svc
  {
    SetSvc(st, s, st.svc[s].(usage := st.svc[s].usage + 1))
  }

  /** `put_service_struct`: at zero the service leaves the list and is freed. */
  function UseLess(st: State, s: nat): State
    requires s in st.svc && st.svc[s].usage >= 1
  {
    if st.svc[s].usage == 1 then st.(svc := st.svc - {s})
    else SetSvc(st, s, st.svc[s].(usage := st.svc[s].usage - 1))
  }

  function WithSessions(st: State, s: nat, sessions: seq<Session>): State
    requires s in st.svc
  {
    SetSvc(st, s, st.svc[s].(sessions := sessions))
  }

  function Unlink(sessions: seq<Session>, k: nat): seq<Session>
    requires k < |sessions|
  {
    sessions[..k] + sessions[k + 1..]
  }

  /** `init_new_sess_node` */
  function NewSession(st: State, s: nat, id: nat, d: nat): State
    requires s in st.svc
  {
    WithSessions(st, s, st.svc[s].sessions + [Session(st.nextSession, id, d)]).(
      mem := st.mem[st.nextSession := 1], nextSession := st.nextSession + 1)
  }

  /** `get_session_struct` */
  function SessionMore(st: State, x: nat): State
    requires x in st.mem
  {
    st.(mem := st.mem[x := st.mem[x] + 1])
  }

  /** `put_session_struct`: at zero the session is freed. */
  function SessionLess(st: State, x: nat): State
    requires x in st.mem && st.mem[x] >= 1
  {
    if st.mem[x] == 1 then st.(mem := st.mem - {x}) else st.(mem := st.mem[x := st.mem[x] - 1])
  }

  /** What a thread does under one lock. */
  datatype Event =
    | OpenDevice(d: nat)
    | RefInDev(d: nat, i: nat)               // tc_ref_service_in_dev, found
    | FindListed(d: nat, s: nat)             // find_service: already on the global list
    | CreateService(d: nat, uuid: nat)       // find_service: tc_ns_service_init
    | AddToDev(d: nat, i: nat)               // add_service_to_dev, slot i is free
    | AddFailed(d: nat)                      // add_service_to_dev, no slot is free
    | AddSession(d: nat, s: nat, id: nat)    // init_new_sess_node
    | RemoveSession(s: nat, k: nat)          // tc_ns_close_session: list_del
    | GetSession(s: nat, k: nat)             // get_session
    | PutSession(x: nat)                     // put_session_struct
    | UnrefInDev(d: nat, i: nat)             // del_service_from_dev, without the put
    | GetService(d: nat, i: nat)             // get_service
    | PutService(s: nat)                     // put_service_struct
    | ReleaseBegins(d: nat)                  // the file is released
    | ReleaseEnter(d: nat)                   // close_session_thread_fn: the slot has sessions to close
    | ReleaseSkip(d: nat)                    // close_session_thread_fn: the slot is empty or its service has no session
    | ReleaseSession(s: nat, k: nat)         // close_session_in_service_list: list_del
    | ReleaseService(d: nat)                 // close_session_thread_fn: put_service_struct
    | ReleaseEnds(d: nat)                    // the device is freed

  /** The device is open, not being released, and its `service_lock` is free. */
  predicate Unlocked(st: State, d: nat) {
    d in st.devs && st.devs[d].release == InUse && st.devs[d].opening == None && |st.devs[d].slots| == |st.devs[d].refs|
  }

  predicate SlotUsed(st: State, d: nat, i: nat) {
    d in st.devs && i < |st.devs[d].slots| == |st.devs[d].refs| && st.devs[d].slots[i].Some?
  }

  function SlotService(st: State, d: nat, i: nat): nat
    requires SlotUsed(st, d, i)
  {
    st.devs[d].slots[i].value
  }

  /** No slot of the device holds a service with this uuid (the scan of `tc_ref_service_in_dev`). */
  ghost predicate UuidNotInDev(st: State, d: nat, uuid: nat)
    requires d in st.devs
  {
    forall i, s :: SlotIs(st.devs[d], i, s) && s in st.svc ==> st.svc[s].uuid != uuid
  }

  /** Nothing of the device is in flight. */
  ghost predicate Quiescent(w: World, d: nat) {
    Unlocked(w.st, d) && forall s :: w.pending[(d, s)] == 0
  }

  /** A session on service `s`, at place `k` of its list. */
  predicate SessionAt(st: State, s: nat, k: nat) {
    s in st.svc && k < |st.svc[s].sessions|
  }

  function OwnerAt(st: State, s: nat, k: nat): nat
    requires SessionAt(st, s, k)
  {
    st.svc[s].sessions[k].owner
  }

  /** The loop of the release is at slot `n`. */
  predicate AtSlot(st: State, d: nat) {
    d in st.devs && st.devs[d].release.At? && st.devs[d].release.n < |st.devs[d].slots| == |st.devs[d].refs|
  }

  /** The body of the release loop works on the service of slot `n`. */
  predicate InSlot(st: State, d: nat) {
    d in st.devs && st.devs[d].release.In? && SlotUsed(st, d, st.devs[d].release.n)
  }

  function InService(st: State, d: nat): nat
    requires InSlot(st, d)
  {
    SlotService(st, d, st.devs[d].release.n)
  }

  /** The test of the release loop: the slot is used and its service has a session, of whatever device. */
  predicate LoopTest(st: State, d: nat)
    requires AtSlot(st, d)
  {
    st.devs[d].slots[st.devs[d].release.n].Some? && SessionsOf(st, st.devs[d].slots[st.devs[d].release.n].value) != []
  }

  ghost predicate Enabled(w: World, e: Event) {
    var st := w.st;
    match e
    case OpenDevice(d) => d !in st.devs
    case RefInDev(d, i) => Unlocked(st, d) && SlotUsed(st, d, i) && st.devs[d].refs[i] != MAX_REF_COUNT
    case FindListed(d, s) => Unlocked(st, d) && s in st.svc && UuidNotInDev(st, d, st.svc[s].uuid)
    case CreateService(d, uuid) => Unlocked(st, d) && forall s :: s in st.svc ==> st.svc[s].uuid != uuid
    case AddToDev(d, i) => d in st.devs && st.devs[d].opening.Some? && i < |st.devs[d].slots| == |st.devs[d].refs| && st.devs[d].slots[i] == None
    case AddFailed(d) => d in st.devs && st.devs[d].opening.Some?
    case AddSession(d, s, id) => w.pending[(d, s)] > 0 && s in st.svc
    case RemoveSession(s, k) => SessionAt(st, s, k) && OwnerAt(st, s, k) in st.devs && st.devs[OwnerAt(st, s, k)].release == InUse
    case GetSession(s, k) => SessionAt(st, s, k) && st.svc[s].sessions[k].obj in st.mem
    case PutSession(x) => w.cmds[x] > 0 && x in st.mem && st.mem[x] >= 1
    case UnrefInDev(d, i) => Unlocked(st, d) && SlotUsed(st, d, i) && st.devs[d].refs[i] > 0 && w.pending[(d, SlotService(st, d, i))] > 0
    case GetService(d, i) => Unlocked(st, d) && SlotUsed(st, d, i) && SlotService(st, d, i) in st.svc
    case PutService(s) => w.holders[s] > 0 && s in st.svc && st.svc[s].usage >= 1
    case ReleaseBegins(d) => Quiescent(w, d)
    case ReleaseEnter(d) => AtSlot(st, d) && LoopTest(st, d)
    case ReleaseSkip(d) => AtSlot(st, d) && !LoopTest(st, d)
    case ReleaseSession(s, k) => SessionAt(st, s, k) && InSlot(st, OwnerAt(st, s, k)) && InService(st, OwnerAt(st, s, k)) == s
    case ReleaseService(d) => InSlot(st, d) && Owned(SessionsOf(st, InService(st, d)), d) == 0 && UsageOf(st, InService(st, d)) >= 1
    case ReleaseEnds(d) => d in st.devs && st.devs[d].release == At(SERVICES_MAX_COUNT)
  }

  ghost function Apply(w: World, e: Event): World
    requires Enabled(w, e)
  {
    var st := w.st;
    match e
    case OpenDevice(d) => w.(st := SetDev(st, d, NewDev()))
    case RefInDev(d, i) =>
      w.(st := SetDev(st, d, WithSlot(st.devs[d], i, st.devs[d].slots[i], st.devs[d].refs[i] + 1)),
         pending := w.pending + multiset{(d, SlotService(st, d, i))})
    case FindListed(d, s) => w.(st := SetDev(UseMore(st, s), d, st.devs[d].(opening := Some(s))))
    case CreateService(d, uuid) =>
      w.(st := SetDev(SetSvc(st, st.next, Service(uuid, 1, [])).(next := st.next + 1), d, st.devs[d].(opening := Some(st.next))))
    case AddToDev(d, i) =>
      w.(st := SetDev(st, d, WithSlot(st.devs[d], i, st.devs[d].opening, 1).(opening := None)),
         pending := w.pending + multiset{(d, st.devs[d].opening.value)})
    case AddFailed(d) =>
      w.(st := SetDev(st, d, st.devs[d].(opening := None)), holders := w.holders + multiset{st.devs[d].opening.value})
    case AddSession(d, s, id) =>
      w.(st := NewSession(st, s, id, d), pending := w.pending - multiset{(d, s)})
    case RemoveSession(s, k) =>
      w.(st := WithSessions(st, s, Unlink(st.svc[s].sessions, k)), pending := w.pending + multiset{(OwnerAt(st, s, k), s)},
         cmds := w.cmds + multiset{st.svc[s].sessions[k].obj})
    case GetSession(s, k) =>
      var x := st.svc[s].sessions[k].obj;
      w.(st := SessionMore(st, x), cmds := w.cmds + multiset{x})
    case PutSession(x) => w.(st := SessionLess(st, x), cmds := w.cmds - multiset{x})
    case UnrefInDev(d, i) =>
      var s, left := SlotService(st, d, i), st.devs[d].refs[i] - 1;
      World(SetDev(st, d, WithSlot(st.devs[d], i, if left == 0 then None else Some(s), left)),
            if left == 0 then w.holders + multiset{s} else w.holders,
            w.pending - multiset{(d, s)}, w.cmds)
    case GetService(d, i) =>
      w.(st := UseMore(st, SlotService(st, d, i)), holders := w.holders + multiset{SlotService(st, d, i)})
    case PutService(s) => w.(st := UseLess(st, s), holders := w.holders - multiset{s})
    case ReleaseBegins(d) => w.(st := SetDev(st, d, st.devs[d].(release := At(0))))
    case ReleaseEnter(d) => w.(st := SetDev(st, d, st.devs[d].(release := In(st.devs[d].release.n))))
    case ReleaseSkip(d) => w.(st := SetDev(st, d, st.devs[d].(release := At(st.devs[d].release.n + 1))))
    case ReleaseSession(s, k) =>
      w.(st := WithSessions(st, s, Unlink(st.svc[s].sessions, k)), cmds := w.cmds + multiset{st.svc[s].sessions[k].obj})
    case ReleaseService(d) =>
      var n := st.devs[d].release.n;
      w.(st := SetDev(UseLess(st, InService(st, d)), d, WithSlot(st.devs[d], n, None, 0).(release := At(n + 1))))
    case ReleaseEnds(d) => w.(st := st.(devs := st.devs - {d}))
  }

  // ------ every step keeps the invariant ------

  /** Only device `d`, service `s` and what links them differ between the two worlds. */
  ghost predicate OnlyPair(w: World, w': World, d: nat, s: nat) {
    && (forall e :: e != d ==> (e in w'.st.devs <==> e in w.st.devs) && (e in w.st.devs ==> w'.st.devs[e] == w.st.devs[e]))
    && (forall r :: r != s ==> (r in w'.st.svc <==> r in w.st.svc) && (r in w.st.svc ==> w'.st.svc[r] == w.st.svc[r]))
    && (forall r :: r != s ==> w'.holders[r] == w.holders[r])
    && (forall e, r :: e != d || r != s ==> w'.pending[(e, r)] == w.pending[(e, r)])
    && (forall e :: e != d ==> Owned(SessionsOf(w'.st, s), e) == Owned(SessionsOf(w.st, s), e))
    && w.st.next <= w'.st.next
  }

  /** The device's slots for services other than `s` are the same. */
  ghost predicate OtherSlots(dv: Dev, dv': Dev, s: nat) {
    && (forall i, r :: r != s ==> (SlotIs(dv', i, r) <==> SlotIs(dv, i, r)))
    && (forall i, r :: r != s && SlotIs(dv, i, r) ==> RefAt(dv', i) == RefAt(dv, i))
    && (forall r :: r != s ==> (dv'.opening == Some(r) <==> dv.opening == Some(r)))
    && dv'.release == dv.release
  }

  lemma CardWithout(a: set<nat>, d: nat)
    ensures |a - {d}| == if d in a then |a| - 1 else |a|
  {
    if d in a {
      assert a == (a - {d}) + {d};
    } else {
      assert a - {d} == a;
    }
  }

  lemma UsersMoved(devs: map<nat, Dev>, devs': map<nat, Dev>, d: nat, s: nat)
    requires forall e :: e != d ==> (e in devs' <==> e in devs) && (e in devs ==> devs'[e] == devs[e])
    ensures |Users(devs', s)| - Weight(devs', d, s) == |Users(devs, s)| - Weight(devs, d, s)
  {
    forall e | e != d
      ensures e in Users(devs', s) <==> e in Users(devs, s)
    {
    }
    assert Users(devs', s) - {d} == Users(devs, s) - {d};
    CardWithout(Users(devs, s), d);
    CardWithout(Users(devs', s), d);
  }

  /** A change to one device and one service is sound when that pair is, and the usage moves as the references do. */
  lemma PairStep(w: World, w': World, d: nat, s: nat)
    requires Sane(w) && OnlyPair(w, w', d, s)
    requires d in w'.st.devs <==> d in w.st.devs
    requires d in w.st.devs ==> OtherSlots(w.st.devs[d], w'.st.devs[d], s) && ShapeOk(w'.st.devs[d])
    requires UsageOf(w'.st, s) - w'.holders[s] - Weight(w'.st.devs, d, s) == UsageOf(w.st, s) - w.holders[s] - Weight(w.st.devs, d, s)
    requires s in w'.st.svc ==> w'.st.svc[s].usage >= 1 && s < w'.st.next
    requires PairOk(w', d, s) && UniqueUuids(w'.st)
    ensures Sane(w')
  {
    InvFacts(w);
    forall r: nat
      ensures UsageOk(w', r)
    {
      UsersMoved(w.st.devs, w'.st.devs, d, r);
      assert UsageOk(w, r);
      if r != s && d in w.st.devs {
        assert Refers(w'.st.devs[d], r) <==> Refers(w.st.devs[d], r);
      }
    }
    forall e: nat, r: nat
      ensures PairOk(w', e, r)
    {
      assert PairOk(w, e, r);
      if e == d && r != s && d in w.st.devs {
        assert Refers(w'.st.devs[d], r) <==> Refers(w.st.devs[d], r);
      }
    }
  }

  /** Changing the count of a used slot changes nothing else of the device. */
  lemma RefChanged(dv: Dev, i: nat, s: nat, ref: nat)
    requires ShapeOk(dv) && SlotIs(dv, i, s)
    ensures ShapeOk(WithSlot(dv, i, Some(s), ref)) && OtherSlots(dv, WithSlot(dv, i, Some(s), ref), s)
    ensures forall j, r :: SlotIs(WithSlot(dv, i, Some(s), ref), j, r) <==> SlotIs(dv, j, r)
    ensures RefAt(WithSlot(dv, i, Some(s), ref), i) == ref
    ensures forall r :: Refers(WithSlot(dv, i, Some(s), ref), r) <==> Refers(dv, r)
  {
    var dv' := WithSlot(dv, i, Some(s), ref);
    forall j, r
      ensures SlotIs(dv', j, r) <==> SlotIs(dv, j, r)
    {
    }
    forall j, r | r != s && SlotIs(dv, j, r)
      ensures RefAt(dv', j) == RefAt(dv, j)
    {
      assert j != i;
    }
    forall r
      ensures Refers(dv', r) <==> Refers(dv, r)
    {
    }
  }

  lemma RefInDevKeeps(w: World, d: nat, i: nat)
    requires Sane(w) && Enabled(w, RefInDev(d, i))
    ensures Sane(Apply(w, RefInDev(d, i)))
  {
    var s := SlotService(w.st, d, i);
    PairFacts(w, d, s);
    assert SlotIs(w.st.devs[d], i, s);
    RefChanged(w.st.devs[d], i, s, w.st.devs[d].refs[i] + 1);
    PairStep(w, Apply(w, RefInDev(d, i)), d, s);
  }

  lemma UuidApart(w: World, d: nat, s: nat)
    requires Sane(w) && d in w.st.devs && s in w.st.svc && UuidNotInDev(w.st, d, w.st.svc[s].uuid)
    ensures !Refers(w.st.devs[d], s)
  {
    InvFacts(w);
  }

  /** The opener of `find_service` now counts as a user of the service. */
  lemma FindListedKeeps(w: World, d: nat, s: nat)
    requires Sane(w) && Enabled(w, FindListed(d, s))
    ensures Sane(Apply(w, FindListed(d, s)))
  {
    var w' := Apply(w, FindListed(d, s));
    UuidApart(w, d, s);
    PairFacts(w, d, s);
    assert forall j, r :: SlotIs(w'.st.devs[d], j, r) <==> SlotIs(w.st.devs[d], j, r);
    assert !Refers(w'.st.devs[d], s);
    PairStep(w, w', d, s);
  }

  /** A service object that is not listed has no user. */
  lemma UnlistedUnused(w: World, s: nat)
    requires Sane(w) && s !in w.st.svc
    ensures w.holders[s] == 0
    ensures forall d :: d in w.st.devs ==> !Uses(w.st.devs[d], s)
  {
    InvFacts(w);
    assert UsageOk(w, s);
    assert Users(w.st.devs, s) == {};
    forall d | d in w.st.devs
      ensures !Uses(w.st.devs[d], s)
    {
      assert d !in Users(w.st.devs, s);
    }
  }

  lemma CreateServiceKeeps(w: World, d: nat, uuid: nat)
    requires Sane(w) && Enabled(w, CreateService(d, uuid))
    ensures Sane(Apply(w, CreateService(d, uuid)))
  {
    var w', s := Apply(w, CreateService(d, uuid)), w.st.next;
    PairFacts(w, d, s);
    UnlistedUnused(w, s);
    assert forall j, r :: SlotIs(w'.st.devs[d], j, r) <==> SlotIs(w.st.devs[d], j, r);
    assert !Refers(w.st.devs[d], s) && !Refers(w'.st.devs[d], s);
    PairStep(w, w', d, s);
  }

  lemma AddToDevKeeps(w: World, d: nat, i: nat)
    requires Sane(w) && Enabled(w, AddToDev(d, i))
    ensures Sane(Apply(w, AddToDev(d, i)))
  {
    var w', s := Apply(w, AddToDev(d, i)), w.st.devs[d].opening.value;
    var dv, dv' := w.st.devs[d], w'.st.devs[d];
    PairFacts(w, d, s);
    assert !Refers(dv, s);
    assert SlotIs(dv', i, s);
    forall j, r | r != s
      ensures SlotIs(dv', j, r) <==> SlotIs(dv, j, r)
    {
    }
    forall j | SlotIs(dv', j, s)
      ensures j == i
    {
      assert !SlotIs(dv, j, s);
    }
    PairStep(w, w', d, s);
  }

  lemma AddFailedKeeps(w: World, d: nat)
    requires Sane(w) && Enabled(w, AddFailed(d))
    ensures Sane(Apply(w, AddFailed(d)))
  {
    var w', s := Apply(w, AddFailed(d)), w.st.devs[d].opening.value;
    PairFacts(w, d, s);
    assert forall j, r :: SlotIs(w'.st.devs[d], j, r) <==> SlotIs(w.st.devs[d], j, r);
    assert !Refers(w'.st.devs[d], s);
    PairStep(w, w', d, s);
  }

  lemma AddSessionKeeps(w: World, d: nat, s: nat, id: nat)
    requires Sane(w) && Enabled(w, AddSession(d, s, id))
    ensures Sane(Apply(w, AddSession(d, s, id)))
  {
    var w' := Apply(w, AddSession(d, s, id));
    PairFacts(w, d, s);
    forall e: nat
      ensures Owned(SessionsOf(w'.st, s), e) == Owned(SessionsOf(w.st, s), e) + (if e == d then 1 else 0)
    {
      OwnedAppend(w.st.svc[s].sessions, Session(w.st.nextSession, id, d), e);
    }
    PairStep(w, w', d, s);
  }

  lemma RemoveSessionKeeps(w: World, s: nat, k: nat)
    requires Sane(w) && Enabled(w, RemoveSession(s, k))
    ensures Sane(Apply(w, RemoveSession(s, k)))
  {
    var w', d := Apply(w, RemoveSession(s, k)), w.st.svc[s].sessions[k].owner;
    PairFacts(w, d, s);
    forall e: nat
      ensures Owned(SessionsOf(w.st, s), e) == Owned(SessionsOf(w'.st, s), e) + (if e == d then 1 else 0)
    {
      OwnedRemove(w.st.svc[s].sessions, k, e);
    }
    PairStep(w, w', d, s);
  }

  lemma ReleaseSessionKeeps(w: World, s: nat, k: nat)
    requires Sane(w) && Enabled(w, ReleaseSession(s, k))
    ensures Sane(Apply(w, ReleaseSession(s, k)))
  {
    var w', d := Apply(w, ReleaseSession(s, k)), OwnerAt(w.st, s, k);
    PairFacts(w, d, s);
    assert SlotIs(w.st.devs[d], w.st.devs[d].release.n, s);
    forall e: nat
      ensures Owned(SessionsOf(w.st, s), e) == Owned(SessionsOf(w'.st, s), e) + (if e == d then 1 else 0)
    {
      OwnedRemove(w.st.svc[s].sessions, k, e);
    }
    PairStep(w, w', d, s);
  }

  /** Emptying slot `i` leaves the device without a slot for its service. */
  lemma SlotEmptied(dv: Dev, dv': Dev, i: nat, s: nat)
    requires ShapeOk(dv) && SlotIs(dv, i, s) && dv' == WithSlot(dv, i, None, 0)
    requires forall j, k :: SlotIs(dv, j, s) && SlotIs(dv, k, s) ==> j == k
    ensures !Refers(dv', s)
    ensures forall j, r :: r != s ==> (SlotIs(dv', j, r) <==> SlotIs(dv, j, r))
    ensures OtherSlots(dv, dv', s) && ShapeOk(dv')
  {
    forall j
      ensures !SlotIs(dv', j, s)
    {
      assert j == i || !SlotIs(dv, j, s);
    }
  }

  lemma UnrefLastKeeps(w: World, d: nat, i: nat)
    requires Sane(w) && Enabled(w, UnrefInDev(d, i)) && w.st.devs[d].refs[i] == 1
    ensures Sane(Apply(w, UnrefInDev(d, i)))
  {
    var w', s := Apply(w, UnrefInDev(d, i)), SlotService(w.st, d, i);
    PairFacts(w, d, s);
    assert SlotIs(w.st.devs[d], i, s);
    SlotEmptied(w.st.devs[d], w'.st.devs[d], i, s);
    PairStep(w, w', d, s);
  }

  lemma UnrefMoreKeeps(w: World, d: nat, i: nat)
    requires Sane(w) && Enabled(w, UnrefInDev(d, i)) && w.st.devs[d].refs[i] != 1
    ensures Sane(Apply(w, UnrefInDev(d, i)))
  {
    var s := SlotService(w.st, d, i);
    PairFacts(w, d, s);
    assert SlotIs(w.st.devs[d], i, s);
    RefChanged(w.st.devs[d], i, s, w.st.devs[d].refs[i] - 1);
    PairStep(w, Apply(w, UnrefInDev(d, i)), d, s);
  }

  /** When the reference about to be put is the only one, no device but `d` has a session on the service. */
  lemma LastReference(w: World, s: nat, d: nat)
    requires Sane(w) && s in w.st.svc && w.st.svc[s].usage <= Weight(w.st.devs, d, s) + w.holders[s]
    ensures forall e :: e != d ==> Owned(w.st.svc[s].sessions, e) == 0
  {
    InvFacts(w);
    assert UsageOk(w, s);
    CardWithout(Users(w.st.devs, s), d);
    assert Users(w.st.devs, s) - {d} == {};
    forall e | e != d
      ensures Owned(w.st.svc[s].sessions, e) == 0
    {
      assert e !in Users(w.st.devs, s) - {d};
      assert PairOk(w, e, s);
    }
  }

  /** Only the progress of a release changes. */
  lemma ReleaseMoves(w: World, w': World, d: nat)
    requires Sane(w) && d in w.st.devs && d in w'.st.devs && ShapeOk(w'.st.devs[d])
    requires w' == w.(st := SetDev(w.st, d, w.st.devs[d].(release := w'.st.devs[d].release)))
    requires forall s: nat :: PairOk(w', d, s)
    ensures Sane(w')
  {
    InvFacts(w);
    assert forall i, s :: SlotIs(w'.st.devs[d], i, s) <==> SlotIs(w.st.devs[d], i, s);
    forall s: nat
      ensures UsageOk(w', s)
    {
      assert UsageOk(w, s);
      assert Refers(w'.st.devs[d], s) <==> Refers(w.st.devs[d], s);
      UsersMoved(w.st.devs, w'.st.devs, d, s);
    }
    forall e: nat, s: nat
      ensures PairOk(w', e, s)
    {
      assert PairOk(w, e, s);
    }
  }

  /** With the slots unchanged, a new progress is sound when every slot's count is. */
  lemma CountMoves(dv: Dev, dv': Dev, s: nat, owned: nat, inFlight: nat)
    requires CountOk(dv, s, owned, inFlight) && dv' == dv.(release := dv'.release)
    requires forall i :: SlotIs(dv, i, s) ==> RefOk(dv'.release, i, RefAt(dv, i), owned, inFlight)
    ensures CountOk(dv', s, owned, inFlight)
  {
    assert forall i :: SlotIs(dv', i, s) <==> SlotIs(dv, i, s);
    assert forall i :: RefAt(dv', i) == RefAt(dv, i);
    assert Refers(dv', s) <==> Refers(dv, s);
  }

  lemma ReleaseBeginsKeeps(w: World, d: nat)
    requires Sane(w) && Enabled(w, ReleaseBegins(d))
    ensures Sane(Apply(w, ReleaseBegins(d)))
  {
    var w' := Apply(w, ReleaseBegins(d));
    forall s: nat
      ensures PairOk(w', d, s)
    {
      PairFacts(w, d, s);
      CountMoves(w.st.devs[d], w'.st.devs[d], s, Owned(SessionsOf(w.st, s), d), w.pending[(d, s)]);
    }
    PairFacts(w, d, 0);
    ReleaseMoves(w, w', d);
  }

  lemma ReleaseEnterKeeps(w: World, d: nat)
    requires Sane(w) && Enabled(w, ReleaseEnter(d))
    ensures Sane(Apply(w, ReleaseEnter(d)))
  {
    var w' := Apply(w, ReleaseEnter(d));
    forall s: nat
      ensures PairOk(w', d, s)
    {
      PairFacts(w, d, s);
      CountMoves(w.st.devs[d], w'.st.devs[d], s, Owned(SessionsOf(w.st, s), d), w.pending[(d, s)]);
    }
    PairFacts(w, d, 0);
    ReleaseMoves(w, w', d);
  }

  /** A slot that the release has not reached counts sessions of the device, so its service has some. */
  lemma ReachedSlotHasSessions(w: World, d: nat)
    requires Sane(w) && AtSlot(w.st, d)
    ensures LoopTest(w.st, d) <==> w.st.devs[d].slots[w.st.devs[d].release.n].Some?
  {
    var dv, n := w.st.devs[d], w.st.devs[d].release.n;
    if dv.slots[n].Some? {
      var s := dv.slots[n].value;
      PairFacts(w, d, s);
      assert SlotIs(dv, n, s);
      assert Owned(SessionsOf(w.st, s), d) >= 1;
    }
  }

  /** Only empty slots are skipped. */
  lemma ReleaseSkipKeeps(w: World, d: nat)
    requires Sane(w) && Enabled(w, ReleaseSkip(d))
    ensures Sane(Apply(w, ReleaseSkip(d)))
    ensures w.st.devs[d].slots[w.st.devs[d].release.n] == None
  {
    var w' := Apply(w, ReleaseSkip(d));
    ReachedSlotHasSessions(w, d);
    forall s: nat
      ensures PairOk(w', d, s)
    {
      PairFacts(w, d, s);
      CountMoves(w.st.devs[d], w'.st.devs[d], s, Owned(SessionsOf(w.st, s), d), w.pending[(d, s)]);
    }
    PairFacts(w, d, 0);
    ReleaseMoves(w, w', d);
  }

  /** The slot is given up: one usage goes, and with the last one the service. */
  lemma SlotGivenUp(w: World, d: nat)
    requires Sane(w) && Enabled(w, ReleaseService(d))
    ensures Sane(w.(st := SetDev(UseLess(w.st, InService(w.st, d)), d, WithSlot(w.st.devs[d], w.st.devs[d].release.n, None, 0))))
  {
    var n, s := w.st.devs[d].release.n, InService(w.st, d);
    var w' := w.(st := SetDev(UseLess(w.st, s), d, WithSlot(w.st.devs[d], n, None, 0)));
    PairFacts(w, d, s);
    assert SlotIs(w.st.devs[d], n, s);
    SlotEmptied(w.st.devs[d], w'.st.devs[d], n, s);
    if w.st.svc[s].usage == 1 {
      LastReference(w, s, d);
    }
    PairStep(w, w', d, s);
  }

  lemma ReleaseServiceKeeps(w: World, d: nat)
    requires Sane(w) && Enabled(w, ReleaseService(d))
    ensures Sane(Apply(w, ReleaseService(d)))
  {
    var n := w.st.devs[d].release.n;
    var w1 := w.(st := SetDev(UseLess(w.st, InService(w.st, d)), d, WithSlot(w.st.devs[d], n, None, 0)));
    var w' := Apply(w, ReleaseService(d));
    SlotGivenUp(w, d);
    forall s: nat
      ensures PairOk(w', d, s)
    {
      PairFacts(w1, d, s);
      CountMoves(w1.st.devs[d], w'.st.devs[d], s, Owned(SessionsOf(w1.st, s), d), w1.pending[(d, s)]);
    }
    PairFacts(w1, d, 0);
    ReleaseMoves(w1, w', d);
  }

  lemma GetServiceKeeps(w: World, d: nat, i: nat)
    requires Sane(w) && Enabled(w, GetService(d, i))
    ensures Sane(Apply(w, GetService(d, i)))
  {
    var s := SlotService(w.st, d, i);
    PairFacts(w, d, s);
    PairStep(w, Apply(w, GetService(d, i)), d, s);
  }

  /** `put_service_struct`, by a thread that holds the service: at zero the service has no session left. */
  lemma PutServiceKeeps(w: World, s: nat)
    requires Sane(w) && Enabled(w, PutService(s))
    ensures Sane(Apply(w, PutService(s)))
    ensures w.st.svc[s].usage == 1 ==> w.st.svc[s].sessions == []
  {
    var d: nat := 0;
    PairFacts(w, d, s);
    if w.st.svc[s].usage == 1 {
      LastReference(w, s, d);
      LastReference(w, s, d + 1);
      assert Owned(w.st.svc[s].sessions, d) == 0;
      NoOwners(w.st.svc[s].sessions);
    }
    PairStep(w, Apply(w, PutService(s)), d, s);
  }

  lemma NoOwners(sessions: seq<Session>)
    ensures sessions != [] ==> exists d :: Owned(sessions, d) > 0
  {
    if sessions != [] {
      var d := sessions[|sessions| - 1].owner;
      assert Owned(sessions, d) > 0;
    }
  }

  lemma OpenDeviceKeeps(w: World, d: nat)
    requires Sane(w) && Enabled(w, OpenDevice(d))
    ensures Sane(Apply(w, OpenDevice(d)))
  {
    InvFacts(w);
    var w' := Apply(w, OpenDevice(d));
    assert forall i, s :: !SlotIs(NewDev(), i, s);
    forall s: nat
      ensures UsageOk(w', s)
    {
      assert UsageOk(w, s);
      assert !Uses(NewDev(), s);
      UsersMoved(w.st.devs, w'.st.devs, d, s);
    }
    forall e: nat, s: nat
      ensures PairOk(w', e, s)
    {
      assert PairOk(w, e, s);
    }
  }

  /** Session objects are apart from all other counts. */
  lemma SessionUseApart(w: World, w': World)
    requires Sane(w) && w' == w.(st := w.st.(mem := w'.st.mem), cmds := w'.cmds)
    ensures Sane(w')
  {
    InvFacts(w);
    forall s: nat
      ensures UsageOk(w', s)
    {
      assert UsageOk(w, s);
    }
    forall d: nat, s: nat
      ensures PairOk(w', d, s)
    {
      assert PairOk(w, d, s);
    }
  }

  lemma ReleaseEndsKeeps(w: World, d: nat)
    requires Sane(w) && Enabled(w, ReleaseEnds(d))
    ensures Sane(Apply(w, ReleaseEnds(d)))
  {
    InvFacts(w);
    var w' := Apply(w, ReleaseEnds(d));
    forall s: nat
      ensures UsageOk(w', s) && !Refers(w.st.devs[d], s)
    {
      assert UsageOk(w, s) && PairOk(w, d, s);
      UsersMoved(w.st.devs, w'.st.devs, d, s);
    }
    forall e: nat, s: nat
      ensures PairOk(w', e, s)
    {
      assert PairOk(w, e, s);
    }
  }

  /** Every event keeps the counts in agreement. */
  lemma StepKeeps(w: World, e: Event)
    requires Sane(w) && Enabled(w, e)
    ensures Sane(Apply(w, e))
  {
    match e
    case OpenDevice(d) => OpenDeviceKeeps(w, d);
    case RefInDev(d, i) => RefInDevKeeps(w, d, i);
    case FindListed(d, s) => FindListedKeeps(w, d, s);
    case CreateService(d, uuid) => CreateServiceKeeps(w, d, uuid);
    case AddToDev(d, i) => AddToDevKeeps(w, d, i);
    case AddFailed(d) => AddFailedKeeps(w, d);
    case AddSession(d, s, id) => AddSessionKeeps(w, d, s, id);
    case RemoveSession(s, k) => RemoveSessionKeeps(w, s, k);
    case UnrefInDev(d, i) =>
      if w.st.devs[d].refs[i] == 1 {
        UnrefLastKeeps(w, d, i);
      } else {
        UnrefMoreKeeps(w, d, i);
      }
    case GetService(d, i) => GetServiceKeeps(w, d, i);
    case PutService(s) => PutServiceKeeps(w, s);
    case GetSession(s, k) => SessionUseApart(w, Apply(w, e));
    case PutSession(x) => SessionUseApart(w, Apply(w, e));
    case ReleaseBegins(d) => ReleaseBeginsKeeps(w, d);
    case ReleaseEnter(d) => ReleaseEnterKeeps(w, d);
    case ReleaseSkip(d) => ReleaseSkipKeeps(w, d);
    case ReleaseSession(s, k) => ReleaseSessionKeeps(w, s, k);
    case ReleaseService(d) => ReleaseServiceKeeps(w, d);
    case ReleaseEnds(d) => ReleaseEndsKeeps(w, d);
  }
}

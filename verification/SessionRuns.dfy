/**
 Whole runs of the events of module `Sessions`: the invariants over every interleaving, the life of
 services and of session objects, and what the release of a device's file does while others run.
 */
module SessionRuns {
  import opened Options
  import opened Folding
  import opened Sessions

  ghost function Boot(): World {
    World(State(map[], map[], map[], 0, 0), multiset{}, multiset{}, multiset{})
  }

  lemma BootOk()
    ensures Sane(Boot()) && SessionsSane(Boot())
  {
    assert forall x: nat :: ObjOk(Boot(), x);
    forall s: nat
      ensures UsageOk(Boot(), s)
    {
      assert Users(map[], s) == {};
    }
  }

  ghost function RunHealth(ws: seq<World>, es: seq<Event>): Health
    requires |ws| == |es| + 1
  {
    if forall u :: Unfold(u) ==>
         ws[0] == Boot() && forall k :: 0 <= k < |es| ==> Enabled(ws[k], es[k]) && ws[k + 1] == Apply(ws[k], es[k])
    then Sound else Broken
  }

  /** A run: any interleaving of enabled events from the empty state. */
  ghost predicate Run(ws: seq<World>, es: seq<Event>) {
    |ws| == |es| + 1 && RunHealth(ws, es) == Sound
  }

  lemma RunAt(ws: seq<World>, es: seq<Event>, k: nat)
    requires Run(ws, es) && k < |es|
    ensures Enabled(ws[k], es[k]) && ws[k + 1] == Apply(ws[k], es[k])
  {
    assert Unfold(0);
  }

  lemma RunStarts(ws: seq<World>, es: seq<Event>)
    requires Run(ws, es)
    ensures ws[0] == Boot()
  {
    assert Unfold(0);
  }

  /** Every enabled event continues a run. */
  lemma RunGoesOn(ws: seq<World>, es: seq<Event>, e: Event)
    requires Run(ws, es) && Enabled(ws[|es|], e)
    ensures Run(ws + [Apply(ws[|es|], e)], es + [e])
  {
    assert Unfold(0);
  }

  /** Over any interleaving of opens, sends, closes and releases, the counts agree in every state. */
  lemma {:induction false} RunKeeps(ws: seq<World>, es: seq<Event>, k: nat)
    requires Run(ws, es) && k <= |es|
    ensures Sane(ws[k]) && SessionsSane(ws[k])
  {
    if k == 0 {
      RunStarts(ws, es);
      BootOk();
    } else {
      RunKeeps(ws, es, k - 1);
      RunAt(ws, es, k - 1);
      StepKeeps(ws[k - 1], es[k - 1]);
      SessionStep(ws[k - 1], es[k - 1]);
    }
  }

  /** Slots, openers, holders and opens in flight point only at listed services. */
  lemma NoDangling(w: World, s: nat)
    requires Sane(w)
    requires w.holders[s] > 0 || (exists d :: d in w.st.devs && Uses(w.st.devs[d], s)) || (exists d :: w.pending[(d, s)] > 0)
    ensures s in w.st.svc && w.st.svc[s].usage >= 1
  {
    InvFacts(w);
    assert UsageOk(w, s);
    if s !in w.st.svc {
      UnlistedUnused(w, s);
      forall d: nat
        ensures w.pending[(d, s)] == 0
      {
        assert PairOk(w, d, s);
      }
      assert false;
    }
  }

  /** An open or close in flight always finds its slot, with a count to take down. */
  lemma InFlightHasSlot(w: World, d: nat, s: nat)
    requires Sane(w) && w.pending[(d, s)] > 0
    ensures d in w.st.devs && Refers(w.st.devs[d], s)
    ensures forall i :: SlotIs(w.st.devs[d], i, s) ==> RefAt(w.st.devs[d], i) >= 1
  {
    InvFacts(w);
    assert PairOk(w, d, s);
  }

  predicate ReleaseStep(e: Event) {
    e.ReleaseBegins? || e.ReleaseEnter? || e.ReleaseSkip? || e.ReleaseEnds?
  }

  /** Events that do not touch the service list. */
  predicate DeviceEvent(e: Event) {
    ReleaseStep(e) || e.OpenDevice? || e.RefInDev? || e.AddToDev? || e.AddFailed? || e.UnrefInDev?
  }

  predicate SessionEvent(e: Event) {
    e.AddSession? || e.RemoveSession? || e.ReleaseSession? || e.GetSession? || e.PutSession?
  }

  ghost predicate SameServices(w: World, w': World) {
    w'.st.svc == w.st.svc && w'.st.mem == w.st.mem && w'.cmds == w.cmds && w'.st.nextSession == w.st.nextSession
  }

  lemma ReleaseStepKeepsServices(w: World, e: Event)
    requires Enabled(w, e) && ReleaseStep(e)
    ensures SameServices(w, Apply(w, e))
  {
    match e
    case ReleaseBegins(_) =>
    case ReleaseEnter(_) =>
    case ReleaseSkip(_) =>
    case ReleaseEnds(_) =>
  }

  lemma DeviceEventKeepsServices(w: World, e: Event)
    requires Enabled(w, e) && DeviceEvent(e)
    ensures SameServices(w, Apply(w, e))
  {
    if ReleaseStep(e) {
      ReleaseStepKeepsServices(w, e);
    } else {
      match e
      case OpenDevice(_) =>
      case RefInDev(_, _) =>
      case AddToDev(_, _) =>
      case AddFailed(_) =>
      case UnrefInDev(_, _) =>
    }
  }

  /** Only a put takes a service off the list: the last holder's, or the one that ends a device's slot. */
  lemma StaysListed(w: World, e: Event, s: nat)
    requires Enabled(w, e) && s in w.st.svc
    requires e == PutService(s) || (e.ReleaseService? && InService(w.st, e.d) == s) ==> w.st.svc[s].usage > 1
    ensures s in Apply(w, e).st.svc
  {
    if DeviceEvent(e) {
      DeviceEventKeepsServices(w, e);
    } else {
      match e
      case FindListed(_, _) =>
      case CreateService(_, _) =>
      case AddSession(_, _, _) =>
      case RemoveSession(_, _) =>
      case GetSession(_, _) =>
      case PutSession(_) =>
      case GetService(_, _) =>
      case PutService(_) =>
      case ReleaseSession(_, _) =>
      case ReleaseService(_) =>
    }
  }

  /** A service object goes away only when no slot, no opener, no holder and no session is left. */
  lemma FreedOnlyUnused(w: World, e: Event, s: nat)
    requires Sane(w) && Enabled(w, e) && s in w.st.svc && s !in Apply(w, e).st.svc
    ensures forall d :: d in Apply(w, e).st.devs ==> !Uses(Apply(w, e).st.devs[d], s)
    ensures Apply(w, e).holders[s] == 0
    ensures w.st.svc[s].sessions == []
  {
    StepKeeps(w, e);
    UnlistedUnused(Apply(w, e), s);
    PairFacts(w, 0, s);
    if e == PutService(s) {
      PutServiceKeeps(w, s);
    } else if e.ReleaseService? && InService(w.st, e.d) == s {
      assert SlotIs(w.st.devs[e.d], w.st.devs[e.d].release.n, s);
      LastReference(w, s, e.d);
      NoOwners(w.st.svc[s].sessions);
    } else {
      StaysListed(w, e, s);
    }
  }

  // ------ the life of a session object ------

  /** Session object `x` is at place `k` of the list of service `s`. */
  predicate ObjAt(st: State, s: nat, k: nat, x: nat) {
    SessionAt(st, s, k) && st.svc[s].sessions[k].obj == x
  }

  ghost predicate OnAList(st: State, x: nat) {
    exists s, k :: ObjAt(st, s, k, x)
  }

  /** A session's usage counts its place on a list and the threads that hold it; it is freed at zero. */
  ghost predicate ObjOk(w: World, x: nat) {
    if x in w.st.mem then
      && w.st.mem[x] == (if OnAList(w.st, x) then 1 else 0) + w.cmds[x]
      && w.st.mem[x] >= 1 && x < w.st.nextSession
    else
      !OnAList(w.st, x) && w.cmds[x] == 0
  }

  /** A session object is on one list at most, once. */
  ghost predicate ObjsApart(st: State) {
    forall s, k, r, j, x :: ObjAt(st, s, k, x) && ObjAt(st, r, j, x) ==> s == r && k == j
  }

  ghost function ObjHealth(w: World): Health {
    if forall k :: Unfold(k) ==> ObjsApart(w.st) && forall x: nat :: ObjOk(w, x) then Sound else Broken
  }

  ghost predicate SessionsSane(w: World) {
    ObjHealth(w) == Sound
  }

  lemma ObjFacts(w: World)
    requires SessionsSane(w)
    ensures ObjsApart(w.st) && forall x: nat :: ObjOk(w, x)
  {
    assert Unfold(0);
  }

  /** A session object exists exactly while it is listed or held. */
  lemma SessionLives(w: World, x: nat)
    requires SessionsSane(w)
    ensures x in w.st.mem <==> OnAList(w.st, x) || w.cmds[x] > 0
  {
    ObjFacts(w);
    assert ObjOk(w, x);
  }

  /** Its usage follows from the lists and the holders. */
  lemma SessionUseDetermined(w: World, w': World)
    requires SessionsSane(w) && SessionsSane(w') && w.st.svc == w'.st.svc && w.cmds == w'.cmds
    ensures w.st.mem == w'.st.mem
  {
    ObjFacts(w);
    ObjFacts(w');
    forall x: nat
      ensures OnAList(w.st, x) <==> OnAList(w'.st, x)
      ensures x in w.st.mem <==> x in w'.st.mem
      ensures x in w.st.mem ==> w.st.mem[x] == w'.st.mem[x]
    {
      assert ObjOk(w, x) && ObjOk(w', x);
      assert forall s, k :: ObjAt(w.st, s, k, x) <==> ObjAt(w'.st, s, k, x);
    }
  }

  /** The lists are the same, but for services that had none. */
  lemma ListsSame(w: World, w': World)
    requires SessionsSane(w) && w'.st.mem == w.st.mem && w'.cmds == w.cmds && w'.st.nextSession == w.st.nextSession
    requires forall s :: SessionsOf(w'.st, s) == SessionsOf(w.st, s)
    ensures SessionsSane(w')
  {
    ObjFacts(w);
    forall s, k, x
      ensures ObjAt(w'.st, s, k, x) <==> ObjAt(w.st, s, k, x)
    {
      assert SessionsOf(w'.st, s) == SessionsOf(w.st, s);
    }
    forall x: nat
      ensures ObjOk(w', x)
    {
      assert ObjOk(w, x);
      assert OnAList(w'.st, x) <==> OnAList(w.st, x);
    }
    assert ObjsApart(w'.st);
  }

  lemma NewSessionSane(w: World, s: nat, id: nat, d: nat, w': World)
    requires SessionsSane(w) && s in w.st.svc && w'.st == NewSession(w.st, s, id, d) && w'.cmds == w.cmds
    ensures SessionsSane(w')
  {
    ObjFacts(w);
    var made, last := w.st.nextSession, |w.st.svc[s].sessions|;
    assert ObjOk(w, made);
    forall r, k, x
      ensures ObjAt(w'.st, r, k, x) <==> ObjAt(w.st, r, k, x) || (r == s && k == last && x == made)
    {
    }
    forall x: nat
      ensures ObjOk(w', x)
    {
      assert ObjOk(w, x);
      if x == made {
        assert ObjAt(w'.st, s, last, x);
      } else {
        assert OnAList(w'.st, x) <==> OnAList(w.st, x);
      }
    }
  }

  /** Place of an entry after the one at `k` left the list. */
  function Shifted(j: nat, k: nat): nat {
    if j < k then j else j + 1
  }

  /** Unlinking turns the list's reference into one that its remover holds. */
  lemma UnlinkSane(w: World, s: nat, k: nat, w': World)
    requires SessionsSane(w) && SessionAt(w.st, s, k)
    requires w'.st == WithSessions(w.st, s, Unlink(w.st.svc[s].sessions, k)) && w'.cmds == w.cmds + multiset{w.st.svc[s].sessions[k].obj}
    ensures SessionsSane(w')
  {
    ObjFacts(w);
    var gone := w.st.svc[s].sessions[k].obj;
    forall r, j: nat, x
      ensures ObjAt(w'.st, r, j, x) <==> ObjAt(w.st, r, if r == s then Shifted(j, k) else j, x)
    {
    }
    assert ObjAt(w.st, s, k, gone);
    forall x: nat
      ensures ObjOk(w', x)
    {
      assert ObjOk(w, x);
      UnlinkedList(w, s, k, w', x);
    }
  }

  lemma UnlinkedList(w: World, s: nat, k: nat, w': World, x: nat)
    requires ObjsApart(w.st) && SessionAt(w.st, s, k) && ObjAt(w.st, s, k, w.st.svc[s].sessions[k].obj)
    requires forall r, j: nat, y :: ObjAt(w'.st, r, j, y) <==> ObjAt(w.st, r, if r == s then Shifted(j, k) else j, y)
    ensures OnAList(w'.st, x) <==> OnAList(w.st, x) && x != w.st.svc[s].sessions[k].obj
  {
    if OnAList(w'.st, x) {
      var r, j: nat :| ObjAt(w'.st, r, j, x);
      assert ObjAt(w.st, r, if r == s then Shifted(j, k) else j, x);
    }
    if OnAList(w.st, x) && x != w.st.svc[s].sessions[k].obj {
      var r, j: nat :| ObjAt(w.st, r, j, x);
      var back := if r == s && j > k then j - 1 else j;
      assert ObjAt(w'.st, r, back, x);
    }
  }

  lemma HeldSane(w: World, x: nat, w': World)
    requires SessionsSane(w) && x in w.st.mem && w.st.mem[x] >= 1
    requires || (w'.st == SessionMore(w.st, x) && w'.cmds == w.cmds + multiset{x})
             || (w.cmds[x] > 0 && w'.st == SessionLess(w.st, x) && w'.cmds == w.cmds - multiset{x})
    ensures SessionsSane(w')
  {
    ObjFacts(w);
    assert forall s, k, y :: ObjAt(w'.st, s, k, y) <==> ObjAt(w.st, s, k, y);
    forall y: nat
      ensures ObjOk(w', y)
    {
      assert ObjOk(w, y);
      assert OnAList(w'.st, y) <==> OnAList(w.st, y);
    }
  }

  lemma SessionEventSane(w: World, e: Event)
    requires SessionsSane(w) && Enabled(w, e) && SessionEvent(e)
    ensures SessionsSane(Apply(w, e))
  {
    match e
    case AddSession(d, s, id) => NewSessionSane(w, s, id, d, Apply(w, e));
    case RemoveSession(s, k) => UnlinkSane(w, s, k, Apply(w, e));
    case ReleaseSession(s, k) => UnlinkSane(w, s, k, Apply(w, e));
    case GetSession(s, k) =>
      var x := w.st.svc[s].sessions[k].obj;
      ObjFacts(w);
      assert ObjOk(w, x);
      HeldSane(w, x, Apply(w, e));
    case PutSession(x) => HeldSane(w, x, Apply(w, e));
  }

  /** Services come and go without sessions. */
  lemma ServiceEventKeepsLists(w: World, e: Event)
    requires Sane(w) && Enabled(w, e) && !DeviceEvent(e) && !SessionEvent(e)
    ensures Apply(w, e).st.mem == w.st.mem && Apply(w, e).cmds == w.cmds && Apply(w, e).st.nextSession == w.st.nextSession
    ensures forall s :: SessionsOf(Apply(w, e).st, s) == SessionsOf(w.st, s)
  {
    match e
    case FindListed(_, _) =>
    case CreateService(_, _) => PairFacts(w, 0, w.st.next);
    case GetService(_, _) =>
    case PutService(s) => PutServiceKeeps(w, s);
    case ReleaseService(d) =>
      if InService(w.st, d) !in Apply(w, e).st.svc {
        FreedOnlyUnused(w, e, InService(w.st, d));
      }
  }

  /** Every event keeps the sessions' own counts. */
  lemma SessionStep(w: World, e: Event)
    requires Sane(w) && SessionsSane(w) && Enabled(w, e)
    ensures SessionsSane(Apply(w, e))
  {
    if SessionEvent(e) {
      SessionEventSane(w, e);
    } else if DeviceEvent(e) {
      DeviceEventKeepsServices(w, e);
      ListsSame(w, Apply(w, e));
    } else {
      ServiceEventKeepsLists(w, e);
      ListsSame(w, Apply(w, e));
    }
  }

  lemma OtherEventsKeepObjects(w: World, e: Event, x: nat)
    requires Enabled(w, e) && x in w.st.mem && e != PutSession(x)
    ensures x in Apply(w, e).st.mem
  {
    if DeviceEvent(e) {
      DeviceEventKeepsServices(w, e);
    } else {
      match e
      case FindListed(_, _) =>
      case CreateService(_, _) =>
      case AddSession(_, _, _) =>
      case RemoveSession(_, _) =>
      case GetSession(_, _) =>
      case PutSession(_) =>
      case GetService(_, _) =>
      case PutService(_) =>
      case ReleaseSession(_, _) =>
      case ReleaseService(_) =>
    }
  }

  /** A session object is freed exactly by the put of its last holder after it was unlinked. */
  lemma SessionFreed(w: World, e: Event, x: nat)
    requires SessionsSane(w) && Enabled(w, e) && x in w.st.mem
    ensures x !in Apply(w, e).st.mem <==> e == PutSession(x) && !OnAList(w.st, x) && w.cmds[x] == 1
  {
    if e == PutSession(x) {
      ObjFacts(w);
      assert ObjOk(w, x);
    } else {
      OtherEventsKeepObjects(w, e, x);
    }
  }

  // ------ the release of a file, among other threads ------

  predicate ReleaseOf(e: Event, d: nat) {
    e == ReleaseEnter(d) || e == ReleaseSkip(d) || e == ReleaseService(d) || e == ReleaseEnds(d)
  }

  lemma DevOfReleaseStep(w: World, e: Event, d: nat)
    requires Enabled(w, e) && d in w.st.devs && w.st.devs[d].release != InUse && !ReleaseOf(e, d) && ReleaseStep(e)
    ensures d in Apply(w, e).st.devs && Apply(w, e).st.devs[d] == w.st.devs[d]
  {
    match e
    case ReleaseBegins(_) =>
    case ReleaseEnter(_) =>
    case ReleaseSkip(_) =>
    case ReleaseEnds(_) =>
  }

  lemma DevOfDeviceEvent(w: World, e: Event, d: nat)
    requires Enabled(w, e) && d in w.st.devs && ShapeOk(w.st.devs[d]) && w.st.devs[d].release != InUse
    requires DeviceEvent(e) && !ReleaseStep(e)
    ensures d in Apply(w, e).st.devs && Apply(w, e).st.devs[d] == w.st.devs[d]
  {
    match e
    case OpenDevice(_) =>
    case RefInDev(_, _) =>
    case AddToDev(_, _) =>
    case AddFailed(_) =>
    case UnrefInDev(_, _) =>
  }

  /** A device being released changes only by its own release. */
  lemma DevStays(w: World, e: Event, d: nat)
    requires Sane(w) && Enabled(w, e) && d in w.st.devs && w.st.devs[d].release != InUse && !ReleaseOf(e, d)
    ensures d in Apply(w, e).st.devs && Apply(w, e).st.devs[d] == w.st.devs[d]
  {
    PairFacts(w, d, 0);
    if ReleaseStep(e) {
      DevOfReleaseStep(w, e, d);
    } else if DeviceEvent(e) {
      DevOfDeviceEvent(w, e, d);
    } else {
      match e
      case FindListed(_, _) =>
      case CreateService(_, _) =>
      case AddSession(_, _, _) =>
      case RemoveSession(_, _) =>
      case GetSession(_, _) =>
      case PutSession(_) =>
      case GetService(_, _) =>
      case PutService(_) =>
      case ReleaseSession(_, _) =>
      case ReleaseService(_) =>
    }
  }

  /** How often the release of `d` put the service of slot `i` in the steps from `a` up to `k`. */
  function Puts(ws: seq<World>, es: seq<Event>, d: nat, i: nat, a: nat, k: nat): nat
    requires k <= |es| && k <= |ws|
  {
    if k <= a then 0
    else
      Puts(ws, es, d, i, a, k - 1)
      + (if es[k - 1] == ReleaseService(d) && d in ws[k - 1].st.devs && ws[k - 1].st.devs[d].release == In(i) then 1 else 0)
  }

  /** The slots that the release has passed are empty and were put once; the others are as at its beginning. */
  ghost predicate Releasing(was: Dev, dv: Dev, i: nat, puts: nat)
    requires i < SERVICES_MAX_COUNT && |was.slots| == SERVICES_MAX_COUNT
  {
    && dv.release != InUse && |dv.slots| == SERVICES_MAX_COUNT
    && (i < dv.release.n ==> dv.slots[i] == None && puts == if was.slots[i].Some? then 1 else 0)
    && (i >= dv.release.n ==> dv.slots[i] == was.slots[i] && puts == 0)
  }

  lemma ReleasingEnter(w: World, d: nat, was: Dev, i: nat, puts: nat)
    requires Enabled(w, ReleaseEnter(d)) && i < SERVICES_MAX_COUNT && |was.slots| == SERVICES_MAX_COUNT
    requires d in w.st.devs && Releasing(was, w.st.devs[d], i, puts)
    ensures d in Apply(w, ReleaseEnter(d)).st.devs && Releasing(was, Apply(w, ReleaseEnter(d)).st.devs[d], i, puts)
  {
  }

  lemma ReleasingSkip(w: World, d: nat, was: Dev, i: nat, puts: nat)
    requires Sane(w) && Enabled(w, ReleaseSkip(d)) && i < SERVICES_MAX_COUNT && |was.slots| == SERVICES_MAX_COUNT
    requires d in w.st.devs && Releasing(was, w.st.devs[d], i, puts)
    ensures d in Apply(w, ReleaseSkip(d)).st.devs && Releasing(was, Apply(w, ReleaseSkip(d)).st.devs[d], i, puts)
  {
    ReleaseSkipKeeps(w, d);
  }

  lemma ReleasingService(w: World, d: nat, was: Dev, i: nat, puts: nat)
    requires Enabled(w, ReleaseService(d)) && i < SERVICES_MAX_COUNT && |was.slots| == SERVICES_MAX_COUNT
    requires d in w.st.devs && Releasing(was, w.st.devs[d], i, puts)
    ensures d in Apply(w, ReleaseService(d)).st.devs
    ensures Releasing(was, Apply(w, ReleaseService(d)).st.devs[d], i, puts + if w.st.devs[d].release == In(i) then 1 else 0)
    ensures w.st.devs[d].release == In(i) ==> was.slots[i] == Some(InService(w.st, d))
  {
  }

  /** One step of the run, seen from slot `i` of the device being released. */
  lemma ReleasingStep(w: World, e: Event, d: nat, was: Dev, i: nat, puts: nat)
    requires Sane(w) && Enabled(w, e) && d in w.st.devs && i < SERVICES_MAX_COUNT && |was.slots| == SERVICES_MAX_COUNT
    requires Releasing(was, w.st.devs[d], i, puts) && e != ReleaseEnds(d)
    ensures d in Apply(w, e).st.devs
    ensures Releasing(was, Apply(w, e).st.devs[d], i,
                      puts + if e == ReleaseService(d) && w.st.devs[d].release == In(i) then 1 else 0)
    ensures e == ReleaseService(d) && w.st.devs[d].release == In(i) ==> was.slots[i] == Some(InService(w.st, d))
  {
    if e == ReleaseEnter(d) {
      ReleasingEnter(w, d, was, i, puts);
    } else if e == ReleaseSkip(d) {
      ReleasingSkip(w, d, was, i, puts);
    } else if e == ReleaseService(d) {
      ReleasingService(w, d, was, i, puts);
    } else {
      DevStays(w, e, d);
    }
  }

  lemma ReleaseStarts(w: World, d: nat, i: nat)
    requires Sane(w) && Enabled(w, ReleaseBegins(d)) && i < SERVICES_MAX_COUNT
    ensures d in w.st.devs && |w.st.devs[d].slots| == SERVICES_MAX_COUNT && d in Apply(w, ReleaseBegins(d)).st.devs
    ensures Releasing(w.st.devs[d], Apply(w, ReleaseBegins(d)).st.devs[d], i, 0)
  {
    PairFacts(w, d, 0);
  }

  /**
   The release of a device's file, whatever other threads do between its steps: up to step `k` every
   slot passed that held a service had that service put exactly once, and no other slot was touched.
   */
  lemma {:induction false} ReleaseRun(ws: seq<World>, es: seq<Event>, d: nat, a: nat, k: nat, i: nat)
    requires Run(ws, es) && a < k <= |es| && es[a] == ReleaseBegins(d) && i < SERVICES_MAX_COUNT
    requires forall j :: a < j < k ==> es[j] != ReleaseEnds(d)
    ensures d in ws[a].st.devs && |ws[a].st.devs[d].slots| == SERVICES_MAX_COUNT && d in ws[k].st.devs
    ensures Releasing(ws[a].st.devs[d], ws[k].st.devs[d], i, Puts(ws, es, d, i, a, k))
  {
    RunKeeps(ws, es, k - 1);
    RunAt(ws, es, k - 1);
    if k == a + 1 {
      ReleaseStarts(ws[a], d, i);
      assert Puts(ws, es, d, i, a, a) == 0;
    } else {
      ReleaseRun(ws, es, d, a, k - 1, i);
      ReleasingStep(ws[k - 1], es[k - 1], d, ws[a].st.devs[d], i, Puts(ws, es, d, i, a, k - 1));
    }
  }

  /** A finished release has put every service it referenced exactly once and leaves no session of the device. */
  lemma ReleaseComplete(ws: seq<World>, es: seq<Event>, d: nat, a: nat, b: nat, i: nat, s: nat)
    requires Run(ws, es) && a < b < |es| && es[a] == ReleaseBegins(d) && es[b] == ReleaseEnds(d) && i < SERVICES_MAX_COUNT
    requires forall j :: a < j < b ==> es[j] != ReleaseEnds(d)
    ensures d in ws[a].st.devs && |ws[a].st.devs[d].slots| == SERVICES_MAX_COUNT
    ensures Puts(ws, es, d, i, a, b) == if ws[a].st.devs[d].slots[i].Some? then 1 else 0
    ensures d !in ws[b + 1].st.devs && Owned(SessionsOf(ws[b + 1].st, s), d) == 0
  {
    ReleaseRun(ws, es, d, a, b, i);
    RunAt(ws, es, b);
    RunKeeps(ws, es, b + 1);
    PairFacts(ws[b + 1], d, s);
  }
}

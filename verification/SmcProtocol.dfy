/**
 The SMC command protocol (`smp_smc_send_func`) as a transition system: any number of callers, each
 stepping through its call, and a TEE that takes visible commands, answers them in any order and
 sends wake-ups.  The critical sections are those of the command queue.

 A call ends on one of three ways: it gives its slot back, it keeps it as the holder of a
 TEEC_PENDING command, or it leaves it behind (crash, power failure, invalid exit).
 */
module SmcProtocol {
  import opened Folding
  import opened CmdQueue

  datatype Ops = Normal | SchedTo | AbortTask

  datatype Exit = ExitNormal | ExitAbort | ExitOther

  /** Where a caller is in `smp_smc_send_func`. */
  datatype Pc =
    | Fresh                  // no slot yet
    | Publishing             // slot taken, doing bit still set
    | Retry                  // at the retry label, with a slot
    | Sending                // about to issue the SMC
    | InTee                  // SMC issued, not returned
    | Returned(exit: Exit)   // about to look at its out bit
    | Sleeping               // in wait_event
    | Awake                  // about to clear its run flag
    | Recheck                // about to look at its out bit again
    | Copying                // out bit seen, about to copy
    | Holding                // call over with TEEC_PENDING, waiting to send again

  datatype Call = Call(pc: Pc, idx: nat, usage: Usage, ops: Ops, cmd: Cmd, sent: Cmd, run: bool)

  /**
   `left`: slots left behind; `has`: commands the TEE has taken and not answered; `answered`: the command
   each posted result answers; `wakes`: wake-ups in flight; `killed`: whether an abort was ever set.
   */
  datatype Sys = Sys(q: Queue, calls: map<nat, Call>, left: set<nat>, has: map<nat, Cmd>, answered: map<nat, Cmd>,
                     wakes: set<nat>, killed: bool)

  predicate Slotted(c: Call) {
    !c.pc.Fresh?
  }

  /** The slot holds a result to be sent again after an agent or a waker has acted. */
  predicate Resending(c: Call) {
    c.pc.Holding? || (c.pc.Retry? && c.usage == Resend)
  }

  /** The call is somewhere between showing its command and copying the result. */
  predicate InFlight(c: Call) {
    Slotted(c) && !c.pc.Publishing? && !c.pc.Copying? && !Resending(c)
  }

  ghost predicate Owns(s: Sys, p: nat, i: nat) {
    p in s.calls && Slotted(s.calls[p]) && s.calls[p].idx == i
  }

  /** Every busy slot belongs to exactly one call, or was left behind. */
  ghost predicate OwnedOk(s: Sys) {
    && Shaped(s.q)
    && (forall p :: p in s.calls && Slotted(s.calls[p]) ==> s.calls[p].idx in s.q.inB && s.calls[p].idx !in s.left)
    && (forall p, p', i :: Owns(s, p, i) && Owns(s, p', i) ==> p == p')
    && (forall i :: i in s.left ==> i in s.q.inB)
    && (forall i :: i in s.q.inB ==> i in s.left || exists p :: Owns(s, p, i))
  }

  /** Commands and results carry the number of their slot. */
  ghost predicate NumberOk(s: Sys, i: nat) {
    && (i in s.q.inB ==> i < |s.q.cin| && s.q.cin[i].eventNr == i)
    && (i in s.q.out ==> i < |s.q.cout| && s.q.cout[i].eventNr == i)
    && (i in s.has ==> i < |s.q.cin| && s.has[i].eventNr == i)
  }

  /** What a call may rely on in every run. */
  ghost predicate CallOk(s: Sys, p: nat)
    requires p in s.calls
  {
    var c := s.calls[p];
    && (c.pc.Copying? ==> c.idx in s.q.out)
    && (Resending(c) ==> c.idx < |s.q.cout| && s.q.cout[c.idx].eventNr == c.idx)
    && (c.pc.Holding? ==> c.cmd.eventNr == c.idx && c.cmd.ret == Pending)
    && (Resending(c) ==> UsageOf(c.cmd.ret) == Resend)
    && (c.pc.Retry? ==> (c.ops.Normal? <==> c.usage == Resend))
    && (Slotted(c) && !Resending(c) ==> c.usage == Clear)
    && (c.pc.Sleeping? && c.idx in s.q.out ==> c.run || p in s.wakes)
  }

  /** Submitted, being worked on, or answered. */
  ghost predicate Active(s: Sys, i: nat) {
    || (i !in s.q.doing && i !in s.q.out && i !in s.has)
    || (i in s.q.doing && i !in s.q.out && i in s.has)
    || (i in s.q.doing && i in s.q.out && i !in s.has)
  }

  /** Without kills: the bits of a call's slot follow its phase, and what the TEE works on or answered is what the call sent. */
  ghost predicate PhaseOk(s: Sys, c: Call) {
    var i := c.idx;
    && i < |s.q.cin|
    && (c.pc.Publishing? ==> Parked(s, i))
    && (Resending(c) ==> Parked(s, i))
    && (c.pc.Copying? ==> i in s.q.doing && i in s.q.out && i !in s.has)
    && (InFlight(c) ==> Active(s, i))
    && (c.pc.Publishing? || InFlight(c) ==> s.q.cin[i] == c.sent)
    && ((InFlight(c) || c.pc.Copying?) && i in s.has ==> s.has[i] == c.sent)
    && ((InFlight(c) || c.pc.Copying?) && i in s.q.out ==> i in s.answered && s.answered[i] == c.sent)
  }

  ghost predicate Quiet(s: Sys, i: nat) {
    i !in s.q.doing && i !in s.q.out && i !in s.has
  }

  ghost predicate InvBody(s: Sys) {
    && OwnedOk(s)
    && (forall i: nat :: NumberOk(s, i))
    && (forall p :: p in s.calls ==> CallOk(s, p))
    && (!s.killed ==> UnkilledOk(s))
  }

  ghost function InvHealth(s: Sys): Health {
    if forall k :: Unfold(k) ==> InvBody(s) then Sound else Broken
  }

  /** The protocol invariant, folded. */
  ghost predicate Inv(s: Sys) {
    Shaped(s.q) && InvHealth(s) == Sound
  }

  lemma InvFacts(s: Sys)
    requires Inv(s)
    ensures InvBody(s)
  {
    assert Unfold(0);
  }

  ghost predicate UnkilledOk(s: Sys) {
    && (forall p :: p in s.calls && Slotted(s.calls[p]) ==> PhaseOk(s, s.calls[p]))
    && (forall i: nat :: RestOk(s, i))
  }

  /** A result was copied out and has not been sent again. */
  ghost predicate Parked(s: Sys, i: nat) {
    i in s.q.doing && i !in s.q.out && i !in s.has
  }

  /** Without kills: slots left behind keep their state, free slots are quiet. */
  ghost predicate RestOk(s: Sys, i: nat) {
    (i in s.left ==> Active(s, i) || Parked(s, i)) && (i !in s.q.inB ==> Quiet(s, i))
  }

  ghost predicate Init(s: Sys) {
    s.q.inB == {} && s.q.doing == {} && s.q.out == {} && |s.q.cin| == |s.q.cout|
    && s.calls == map[] && s.left == {} && s.has == map[] && s.wakes == {} && !s.killed
  }

  lemma InitInv(s: Sys)
    requires Init(s)
    ensures Inv(s)
  {
  }

  /** A step of call `p` that touches no slot but its own `i` and leaves that slot with `p` or, if `p` is gone, free or left behind. */
  ghost predicate Local(s: Sys, s': Sys, p: nat, i: nat) {
    && (forall r :: r != p ==> (r in s'.calls <==> r in s.calls))
    && (forall r :: r != p && r in s.calls ==> s'.calls[r] == s.calls[r])
    && |s'.q.cin| == |s.q.cin| && |s'.q.cout| == |s.q.cout|
    && (forall j :: j != i ==> SameSlot(s, s', j))
    && (forall r :: r != p && r in s.wakes ==> r in s'.wakes)
    && (s.killed ==> s'.killed)
  }

  ghost predicate SameSlot(s: Sys, s': Sys, j: nat) {
    && (j in s'.q.inB <==> j in s.q.inB) && (j in s'.q.doing <==> j in s.q.doing) && (j in s'.q.out <==> j in s.q.out)
    && (j in s'.left <==> j in s.left)
    && (j in s'.has <==> j in s.has) && (j in s.has && j in s'.has ==> s'.has[j] == s.has[j])
    && (j in s'.answered <==> j in s.answered) && (j in s.answered && j in s'.answered ==> s'.answered[j] == s.answered[j])
    && (j < |s.q.cin| && j < |s'.q.cin| ==> s'.q.cin[j] == s.q.cin[j])
    && (j < |s.q.cout| && j < |s'.q.cout| ==> s'.q.cout[j] == s.q.cout[j])
  }

  /** What has to be shown at the slot itself after a local step. */
  ghost predicate SlotOk(s': Sys, p: nat, i: nat) {
    && NumberOk(s', i)
    && (i in s'.left ==> i in s'.q.inB)
    && (if p in s'.calls && Slotted(s'.calls[p]) then s'.calls[p].idx == i && i in s'.q.inB && i !in s'.left
        else i in s'.q.inB ==> i in s'.left)
    && (p in s'.calls ==> CallOk(s', p))
    && (!s'.killed ==>
          && (p in s'.calls && Slotted(s'.calls[p]) ==> PhaseOk(s', s'.calls[p]))
          && RestOk(s', i))
  }

  /** No other call owns the slot before the step. */
  ghost predicate Mine(s: Sys, p: nat, i: nat) {
    (forall r :: r != p ==> !Owns(s, r, i)) && (p in s.calls && Slotted(s.calls[p]) ==> s.calls[p].idx == i)
  }

  lemma LocalKeepsOwned(s: Sys, s': Sys, p: nat, i: nat)
    requires Inv(s) && Local(s, s', p, i) && Mine(s, p, i) && SlotOk(s', p, i)
    ensures OwnedOk(s')
  {
    InvFacts(s);
    forall r, j | r != p
      ensures Owns(s', r, j) <==> Owns(s, r, j)
    {
    }
    forall j | j in s'.q.inB && j !in s'.left
      ensures exists r :: Owns(s', r, j)
    {
      if j == i {
        assert Owns(s', p, i);
      } else {
        assert SameSlot(s, s', j);
        var r :| Owns(s, r, j);
        assert Owns(s', r, j);
      }
    }
    forall r | r in s'.calls && Slotted(s'.calls[r])
      ensures s'.calls[r].idx in s'.q.inB && s'.calls[r].idx !in s'.left
    {
      if r != p {
        assert Owns(s, r, s.calls[r].idx);
        assert SameSlot(s, s', s.calls[r].idx);
      }
    }
    forall j | j in s'.left || j in s'.q.inB
      ensures j in s'.q.inB && j < |s'.q.cin|
    {
      assert j != i ==> SameSlot(s, s', j);
    }
  }

  lemma LocalKeepsOthers(s: Sys, s': Sys, p: nat, i: nat, r: nat)
    requires Inv(s) && Local(s, s', p, i) && Mine(s, p, i) && r != p && r in s.calls
    ensures CallOk(s', r)
    ensures !s'.killed && Slotted(s.calls[r]) ==> PhaseOk(s', s'.calls[r])
  {
    InvFacts(s);
    if Slotted(s.calls[r]) {
      assert Owns(s, r, s.calls[r].idx);
      assert SameSlot(s, s', s.calls[r].idx);
    }
    assert CallOk(s, r);
  }

  lemma LocalKeeps(s: Sys, s': Sys, p: nat, i: nat)
    requires Inv(s) && Local(s, s', p, i) && Mine(s, p, i) && SlotOk(s', p, i)
    ensures Inv(s')
  {
    InvFacts(s);
    LocalKeepsOwned(s, s', p, i);
    forall r | r in s'.calls && r != p
      ensures CallOk(s', r) && (!s'.killed && Slotted(s'.calls[r]) ==> PhaseOk(s', s'.calls[r]))
    {
      LocalKeepsOthers(s, s', p, i, r);
    }
    forall j: nat
      ensures NumberOk(s', j) && (!s'.killed ==> RestOk(s', j))
    {
      if j != i {
        assert SameSlot(s, s', j);
        assert NumberOk(s, j);
        assert !s.killed ==> RestOk(s, j);
      }
    }
  }

  /** How a sleep that is not cut short ends. */
  datatype TimeoutKind = Mid | LastKilled | Last

  datatype Event =
    | Start(p: nat, cmd: Cmd)                       // init_for_smc_send
    | GiveUp(p: nat)                                // no free slot within the retry limit
    | Occupy(p: nat, i: nat)
    | Publish(p: nat)
    | DoOps(p: nat)                                 // smc_ops_normal at the retry label
    | Enter(p: nat)
    | Return(p: nat, exit: Exit)
    | Fail(p: nat)                                  // power failure or crash
    | Check(p: nat, affinity: bool)
    | WakeUp(p: nat)
    | Timeout(p: nat, kind: TimeoutKind)
    | ClearRun(p: nat)
    | CheckAgain(p: nat)
    | Copy(p: nat)
    | SendAgain(p: nat)                             // tc_ns_smc_with_no_nr
    | SendAgainFails(p: nat)
    | Take(i: nat)
    | Post(i: nat, body: nat, ret: Ret, woken: set<nat>)
    | Deliver(p: nat)
    | Broadcast(p: nat)

  predicate At(s: Sys, p: nat, pc: Pc) {
    p in s.calls && s.calls[p].pc == pc
  }

  /** The caller will still look at its out bit after an SMC that has not returned. */
  predicate BeforeReturn(c: Call) {
    c.pc.Publishing? || c.pc.Retry? || c.pc.Sending? || c.pc.InTee?
  }

  /** Which steps can happen; the TEE answers what it has taken, and wakes the owner unless the owner will look by itself. */
  ghost predicate Enabled(s: Sys, e: Event) {
    match e
    case Start(p, cmd) => p !in s.calls
    case GiveUp(p) => At(s, p, Fresh)
    case Occupy(p, i) => At(s, p, Fresh) && FirstFree(s.q, i)
    case Publish(p) => At(s, p, Publishing)
    case DoOps(p) => At(s, p, Retry)
    case Enter(p) => At(s, p, Sending)
    case Return(p, exit) => At(s, p, InTee)
    case Fail(p) => At(s, p, Sending) || At(s, p, InTee)
    case Check(p, affinity) => p in s.calls && s.calls[p].pc.Returned?
    case WakeUp(p) => At(s, p, Sleeping) && s.calls[p].run
    case Timeout(p, kind) => At(s, p, Sleeping)
    case ClearRun(p) => At(s, p, Awake)
    case CheckAgain(p) => At(s, p, Recheck)
    case Copy(p) => At(s, p, Copying)
    case SendAgain(p) => At(s, p, Holding)
    case SendAgainFails(p) => At(s, p, Holding)
    case Take(i) => i in s.q.inB && i !in s.q.doing
    case Post(i, body, ret, woken) =>
      i in s.has && i !in s.q.out && forall p :: Owns(s, p, i) && !BeforeReturn(s.calls[p]) ==> p in woken
    case Deliver(p) => p in s.wakes
    case Broadcast(p) => p in s.calls && !At(s, p, Holding)
  }

  function With(s: Sys, p: nat, c: Call): Sys {
    s.(calls := s.calls[p := c])
  }

  function Without(s: Sys, p: nat): Sys {
    s.(calls := s.calls - {p})
  }

  /** The call is over and its slot stays busy. */
  function LeftBehind(s: Sys, p: nat): Sys
    requires p in s.calls
  {
    Without(s, p).(left := s.left + {s.calls[p].idx})
  }

  /** `process_abort_cmd` and the jump to the retry label. */
  function AbortStep(s: Sys, p: nat): Sys
    requires p in s.calls && Shaped(s.q)
  {
    var c := s.calls[p];
    if c.idx in s.q.doing && c.idx < |s.q.cin| then
      With(s, p, c.(pc := Retry, ops := AbortTask)).(q := Aborted(s.q, c.idx), killed := true)
    else
      With(s, p, c.(pc := Retry, ops := SchedTo))
  }

  function OpsStep(s: Sys, p: nat): Sys
    requires p in s.calls && Shaped(s.q)
  {
    var c := s.calls[p];
    if !c.ops.Normal? then With(s, p, c.(pc := Sending))
    else if Reusable(s.q, c.idx) then
      With(s, p, c.(pc := Sending, usage := Clear, sent := s.q.cout[c.idx])).(q := Reused(s.q, c.idx))
    else Without(s, p).(q := Released(s.q, c.idx))
  }

  function CheckStep(s: Sys, p: nat, affinity: bool): Sys
    requires p in s.calls && s.calls[p].pc.Returned? && Shaped(s.q)
  {
    var c := s.calls[p];
    if c.idx in s.q.out then With(s, p, c.(pc := Copying))
    else match c.pc.exit
      case ExitNormal => With(s, p, if affinity then c.(pc := Retry, ops := SchedTo) else c.(pc := Sleeping))
      case ExitAbort => AbortStep(s, p)
      case ExitOther => LeftBehind(s, p)
  }

  function CopyStep(s: Sys, p: nat): Sys
    requires p in s.calls
  {
    var c := s.calls[p];
    if c.idx !in s.q.out || c.idx >= |s.q.cout| then LeftBehind(s, p)  // "cmd out is not ready"
    else
      var reply := s.q.cout[c.idx];
      var s1 := s.(q := CopiedOut(s.q, c.idx));
      match reply.ret
      case Pending2 => With(s1, p, c.(pc := Retry, usage := Resend, ops := Normal, cmd := reply))
      case Pending => With(s1, p, c.(pc := Holding, usage := Resend, cmd := reply))
      case Final(_) => Without(s1, p)
  }

  function PostStep(s: Sys, i: nat, body: nat, ret: Ret, woken: set<nat>): Sys
    requires i in s.has
  {
    if i >= |s.q.cout| then s
    else s.(q := s.q.(out := s.q.out + {i}, cout := s.q.cout[i := Cmd(s.has[i].eventNr, false, ret, body)]),
            has := s.has - {i}, answered := s.answered[i := s.has[i]], wakes := s.wakes + woken)
  }

  ghost function Apply(s: Sys, e: Event): Sys
    requires Enabled(s, e) && Shaped(s.q)
  {
    match e
    case Start(p, cmd) => With(s, p, Call(Fresh, 0, Clear, Normal, cmd, cmd, false))
    case GiveUp(p) => Without(s, p)
    case Occupy(p, i) =>
      With(s, p, s.calls[p].(pc := Publishing, idx := i, usage := Clear, sent := s.calls[p].cmd.(eventNr := i)))
        .(q := Occupied(s.q, i, s.calls[p].cmd))
    case Publish(p) => With(s, p, s.calls[p].(pc := Sending)).(q := Published(s.q, s.calls[p].idx))
    case DoOps(p) => OpsStep(s, p)
    case Enter(p) => With(s, p, s.calls[p].(pc := InTee))
    case Return(p, exit) => With(s, p, s.calls[p].(pc := Returned(exit)))
    case Fail(p) => LeftBehind(s, p)
    case Check(p, affinity) => CheckStep(s, p, affinity)
    case WakeUp(p) => With(s, p, s.calls[p].(pc := Awake))
    case Timeout(p, kind) =>
      (match kind
       case Mid => With(s, p, s.calls[p].(pc := Retry, ops := SchedTo))
       case LastKilled => AbortStep(s, p)
       case Last => With(s, p, s.calls[p].(pc := Awake)))
    case ClearRun(p) => With(s, p, s.calls[p].(pc := Recheck, run := false))
    case CheckAgain(p) =>
      With(s, p, if s.calls[p].idx in s.q.out then s.calls[p].(pc := Copying) else s.calls[p].(pc := Retry, ops := SchedTo))
    case Copy(p) => CopyStep(s, p)
    case SendAgain(p) =>
      With(s, p, s.calls[p].(pc := Retry, idx := s.calls[p].cmd.eventNr, usage := Resend, ops := Normal, run := false))
    case SendAgainFails(p) => LeftBehind(s, p)
    case Take(i) =>
      if i >= |s.q.cin| then s else s.(q := s.q.(doing := s.q.doing + {i}), has := s.has[i := s.q.cin[i]])
    case Post(i, body, ret, woken) => PostStep(s, i, body, ret, woken)
    case Deliver(p) =>
      (if p in s.calls && !At(s, p, Holding) then With(s, p, s.calls[p].(run := true)) else s).(wakes := s.wakes - {p})
    case Broadcast(p) => With(s, p, s.calls[p].(run := true))
  }

  lemma OwnedSlot(s: Sys, p: nat)
    requires Inv(s) && p in s.calls && Slotted(s.calls[p])
    ensures s.calls[p].idx in s.q.inB && s.calls[p].idx !in s.left && s.calls[p].idx < |s.q.cin| == |s.q.cout|
    ensures Mine(s, p, s.calls[p].idx) && NumberOk(s, s.calls[p].idx) && CallOk(s, p)
    ensures !s.killed ==> PhaseOk(s, s.calls[p]) && RestOk(s, s.calls[p].idx)
  {
    InvFacts(s);
    assert Owns(s, p, s.calls[p].idx);
  }

  /** A step of a call with a slot that leaves the slot alone. */
  lemma MovesOn(s: Sys, s': Sys, p: nat, c: Call)
    requires Inv(s) && p in s.calls && Slotted(s.calls[p]) && Slotted(c) && c.idx == s.calls[p].idx
    requires s' == With(s, p, c) && CallOk(s', p)
    requires !s.killed ==> PhaseOk(s, c)
    ensures Inv(s')
  {
    OwnedSlot(s, p);
    LocalKeeps(s, s', p, c.idx);
  }

  /** A step of a call that has no slot before or after. */
  lemma SlotlessMoves(s: Sys, s': Sys, p: nat)
    requires Inv(s) && (p in s.calls ==> !Slotted(s.calls[p])) && (p in s'.calls ==> !Slotted(s'.calls[p]))
    requires s' == s.(calls := s'.calls, wakes := s'.wakes)
    requires forall r :: r != p ==> (r in s'.calls <==> r in s.calls) && (r in s.calls && r in s'.calls ==> s'.calls[r] == s.calls[r])
    requires forall r :: r != p && r in s.wakes ==> r in s'.wakes
    ensures Inv(s')
  {
    InvFacts(s);
    var i := |s.q.cin|;
    assert i !in s.q.inB && i !in s.left && NumberOk(s, i) && (!s.killed ==> RestOk(s, i));
    assert Mine(s, p, i);
    LocalKeeps(s, s', p, i);
  }

  lemma LeftBehindInv(s: Sys, p: nat)
    requires Inv(s) && p in s.calls && InFlight(s.calls[p])
    ensures Inv(LeftBehind(s, p))
  {
    OwnedSlot(s, p);
    LocalKeeps(s, LeftBehind(s, p), p, s.calls[p].idx);
  }

  lemma OccupyInv(s: Sys, p: nat, i: nat)
    requires Inv(s) && Enabled(s, Occupy(p, i))
    ensures Inv(Apply(s, Occupy(p, i)))
  {
    InvFacts(s);
    assert NumberOk(s, i) && (!s.killed ==> RestOk(s, i));
    assert i !in s.left && Mine(s, p, i);
    LocalKeeps(s, Apply(s, Occupy(p, i)), p, i);
  }

  lemma PublishInv(s: Sys, p: nat)
    requires Inv(s) && Enabled(s, Publish(p))
    ensures Inv(Apply(s, Publish(p)))
  {
    OwnedSlot(s, p);
    LocalKeeps(s, Apply(s, Publish(p)), p, s.calls[p].idx);
  }

  lemma ReuseInv(s: Sys, p: nat)
    requires Inv(s) && Enabled(s, DoOps(p)) && s.calls[p].ops.Normal? && Reusable(s.q, s.calls[p].idx)
    ensures Inv(OpsStep(s, p))
  {
    OwnedSlot(s, p);
    LocalKeeps(s, OpsStep(s, p), p, s.calls[p].idx);
  }

  lemma ReuseFailsInv(s: Sys, p: nat)
    requires Inv(s) && Enabled(s, DoOps(p)) && s.calls[p].ops.Normal? && !Reusable(s.q, s.calls[p].idx)
    ensures Inv(OpsStep(s, p))
  {
    OwnedSlot(s, p);
    LocalKeeps(s, OpsStep(s, p), p, s.calls[p].idx);
  }

  lemma OpsInv(s: Sys, p: nat)
    requires Inv(s) && Enabled(s, DoOps(p))
    ensures Inv(OpsStep(s, p))
  {
    OwnedSlot(s, p);
    if !s.calls[p].ops.Normal? {
      MovesOn(s, OpsStep(s, p), p, s.calls[p].(pc := Sending));
    } else if Reusable(s.q, s.calls[p].idx) {
      ReuseInv(s, p);
    } else {
      ReuseFailsInv(s, p);
    }
  }

  lemma AbortInv(s: Sys, p: nat)
    requires Inv(s) && p in s.calls && (s.calls[p].pc.Sleeping? || s.calls[p].pc.Returned?)
    ensures Inv(AbortStep(s, p))
  {
    OwnedSlot(s, p);
    if s.calls[p].idx in s.q.doing {
      LocalKeeps(s, AbortStep(s, p), p, s.calls[p].idx);
    } else {
      MovesOn(s, AbortStep(s, p), p, s.calls[p].(pc := Retry, ops := SchedTo));
    }
  }

  /** The "not ready" error of `copy_smc_out_entry` cannot happen: a call that copies sees its out bit. */
  lemma CopyReady(s: Sys, p: nat)
    requires Inv(s) && Enabled(s, Copy(p))
    ensures s.calls[p].idx in s.q.out && s.calls[p].idx < |s.q.cout|
  {
    OwnedSlot(s, p);
  }

  lemma CopyAgainInv(s: Sys, s': Sys, p: nat, c: Call)
    requires Inv(s) && Enabled(s, Copy(p)) && c.idx == s.calls[p].idx < |s.q.cout|
    requires s' == With(s, p, c).(q := s.q.(out := s.q.out - {c.idx}))
    requires Resending(c) && (c.pc.Retry? ==> c.ops.Normal?) && c.cmd == s.q.cout[c.idx] && UsageOf(c.cmd.ret) == Resend
    requires c.pc.Holding? ==> c.cmd.ret == Pending
    ensures Inv(s')
  {
    OwnedSlot(s, p);
    LocalKeeps(s, s', p, c.idx);
  }

  lemma CopyFinalInv(s: Sys, p: nat)
    requires Inv(s) && Enabled(s, Copy(p))
    ensures Inv(Without(s.(q := Released(s.q, s.calls[p].idx)), p))
  {
    OwnedSlot(s, p);
    LocalKeeps(s, Without(s.(q := Released(s.q, s.calls[p].idx)), p), p, s.calls[p].idx);
  }

  lemma CopyInv(s: Sys, p: nat)
    requires Inv(s) && Enabled(s, Copy(p))
    ensures Inv(CopyStep(s, p))
  {
    CopyReady(s, p);
    var c := s.calls[p];
    var reply := s.q.cout[c.idx];
    match reply.ret {
      case Pending2 =>
        CopyAgainInv(s, CopyStep(s, p), p, c.(pc := Retry, usage := Resend, ops := Normal, cmd := reply));
      case Pending =>
        CopyAgainInv(s, CopyStep(s, p), p, c.(pc := Holding, usage := Resend, cmd := reply));
      case Final(_) =>
        CopyFinalInv(s, p);
    }
  }

  lemma SendAgainInv(s: Sys, p: nat)
    requires Inv(s) && Enabled(s, SendAgain(p))
    ensures Inv(Apply(s, SendAgain(p)))
  {
    OwnedSlot(s, p);
    MovesOn(s, Apply(s, SendAgain(p)), p, Apply(s, SendAgain(p)).calls[p]);
  }

  lemma SendAgainFailsInv(s: Sys, p: nat)
    requires Inv(s) && Enabled(s, SendAgainFails(p))
    ensures Inv(LeftBehind(s, p))
  {
    OwnedSlot(s, p);
    LocalKeeps(s, LeftBehind(s, p), p, s.calls[p].idx);
  }

  lemma {:induction false} FreshPid(s: set<nat>) returns (p: nat)
    ensures forall x :: x in s ==> x < p
  {
    if s == {} {
      p := 0;
    } else {
      var x :| x in s;
      var q := FreshPid(s - {x});
      p := if q <= x then x + 1 else q;
      assert forall y :: y in s ==> y == x || y in s - {x};
    }
  }

  /** The call that owns slot `i`, or the number of a process that makes no call. */
  lemma OwnerOf(s: Sys, i: nat) returns (p: nat)
    requires Inv(s)
    ensures Mine(s, p, i) && (p !in s.calls || Owns(s, p, i))
  {
    InvFacts(s);
    if exists r :: Owns(s, r, i) {
      p :| Owns(s, p, i);
    } else {
      p := FreshPid(s.calls.Keys);
      assert p !in s.calls;
    }
  }

  /** What the invariant says of one slot, given the only call that may own it. */
  lemma SlotState(s: Sys, p: nat, i: nat)
    requires Inv(s) && Mine(s, p, i)
    ensures NumberOk(s, i) && (!s.killed ==> RestOk(s, i)) && (i in s.left ==> i in s.q.inB)
    ensures i in s.q.inB ==> i in s.left || Owns(s, p, i)
    ensures p in s.calls ==> CallOk(s, p)
  {
    InvFacts(s);
    if i in s.q.inB && i !in s.left {
      var r :| Owns(s, r, i);
    }
  }

  lemma TakeInv(s: Sys, i: nat)
    requires Inv(s) && Enabled(s, Take(i))
    ensures Inv(Apply(s, Take(i)))
  {
    var p := OwnerOf(s, i);
    SlotState(s, p, i);
    if p in s.calls {
      OwnedSlot(s, p);
    }
    LocalKeeps(s, Apply(s, Take(i)), p, i);
  }

  lemma PostInv(s: Sys, i: nat, body: nat, ret: Ret, woken: set<nat>)
    requires Inv(s) && Enabled(s, Post(i, body, ret, woken))
    ensures Inv(PostStep(s, i, body, ret, woken))
  {
    var p := OwnerOf(s, i);
    SlotState(s, p, i);
    if p in s.calls {
      OwnedSlot(s, p);
      assert Owns(s, p, i);
    }
    LocalKeeps(s, PostStep(s, i, body, ret, woken), p, i);
  }

  lemma RunFlagInv(s: Sys, s': Sys, p: nat)
    requires Inv(s) && p in s.calls && !s.calls[p].pc.Holding?
    requires s' == With(s, p, s.calls[p].(run := true)).(wakes := s'.wakes)
    requires forall r :: r != p && r in s.wakes ==> r in s'.wakes
    ensures Inv(s')
  {
    InvFacts(s);
    assert CallOk(s, p);
    if Slotted(s.calls[p]) {
      OwnedSlot(s, p);
      LocalKeeps(s, s', p, s.calls[p].idx);
    } else {
      SlotlessMoves(s, s', p);
    }
  }

  lemma DeliverInv(s: Sys, p: nat)
    requires Inv(s) && Enabled(s, Deliver(p))
    ensures Inv(Apply(s, Deliver(p)))
  {
    var s' := Apply(s, Deliver(p));
    if p in s.calls && !s.calls[p].pc.Holding? {
      RunFlagInv(s, s', p);
    } else if p in s.calls {
      OwnedSlot(s, p);
      LocalKeeps(s, s', p, s.calls[p].idx);
    } else {
      SlotlessMoves(s, s', p);
    }
  }

  lemma CheckInv(s: Sys, p: nat, affinity: bool)
    requires Inv(s) && Enabled(s, Check(p, affinity))
    ensures Inv(CheckStep(s, p, affinity))
  {
    OwnedSlot(s, p);
    var c := s.calls[p];
    if c.idx in s.q.out || c.pc.exit.ExitNormal? {
      MovesOn(s, CheckStep(s, p, affinity), p, CheckStep(s, p, affinity).calls[p]);
    } else if c.pc.exit.ExitAbort? {
      AbortInv(s, p);
    } else {
      LeftBehindInv(s, p);
    }
  }

  lemma CallMoveInv(s: Sys, e: Event, p: nat)
    requires Inv(s) && Enabled(s, e) && p in s.calls
    requires e == Enter(p) || (e.Return? && e.p == p) || e == WakeUp(p) || e == ClearRun(p) || e == CheckAgain(p)
             || e == Timeout(p, Mid) || e == Timeout(p, Last)
    ensures Inv(Apply(s, e))
  {
    OwnedSlot(s, p);
    MovesOn(s, Apply(s, e), p, Apply(s, e).calls[p]);
  }

  predicate TeeStep(e: Event) {
    e.Take? || e.Post? || e.Deliver? || e.Broadcast?
  }

  lemma TeeStepInv(s: Sys, e: Event)
    requires Inv(s) && Enabled(s, e) && TeeStep(e)
    ensures Inv(Apply(s, e))
  {
    match e {
      case Take(i) => TakeInv(s, i);
      case Post(i, body, ret, woken) => PostInv(s, i, body, ret, woken);
      case Deliver(p) => DeliverInv(s, p);
      case Broadcast(p) => RunFlagInv(s, Apply(s, e), p);
    }
  }

  predicate EntryStep(e: Event) {
    e.Start? || e.GiveUp? || e.Occupy? || e.Publish? || e.DoOps? || e.Enter? || e.Return? || e.Fail?
  }

  lemma EntryStepInv(s: Sys, e: Event)
    requires Inv(s) && Enabled(s, e) && EntryStep(e)
    ensures Inv(Apply(s, e))
  {
    match e {
      case Start(p, cmd) => SlotlessMoves(s, Apply(s, e), p);
      case GiveUp(p) => SlotlessMoves(s, Apply(s, e), p);
      case Occupy(p, i) => OccupyInv(s, p, i);
      case Publish(p) => PublishInv(s, p);
      case DoOps(p) => OpsInv(s, p);
      case Enter(p) => CallMoveInv(s, e, p);
      case Return(p, exit) => CallMoveInv(s, e, p);
      case Fail(p) => LeftBehindInv(s, p);
    }
  }

  lemma ExitStepInv(s: Sys, e: Event)
    requires Inv(s) && Enabled(s, e) && !TeeStep(e) && !EntryStep(e)
    ensures Inv(Apply(s, e))
  {
    match e {
      case Check(p, affinity) => CheckInv(s, p, affinity);
      case WakeUp(p) => CallMoveInv(s, e, p);
      case Timeout(p, kind) =>
        if kind.LastKilled? {
          AbortInv(s, p);
        } else {
          CallMoveInv(s, e, p);
        }
      case ClearRun(p) => CallMoveInv(s, e, p);
      case CheckAgain(p) => CallMoveInv(s, e, p);
      case Copy(p) => CopyInv(s, p);
      case SendAgain(p) => SendAgainInv(s, p);
      case SendAgainFails(p) => SendAgainFailsInv(s, p);
    }
  }

  /** Every step of every caller and of the TEE keeps the protocol invariant. */
  lemma StepInv(s: Sys, e: Event)
    requires Inv(s) && Enabled(s, e)
    ensures Inv(Apply(s, e))
  {
    if TeeStep(e) {
      TeeStepInv(s, e);
    } else if EntryStep(e) {
      EntryStepInv(s, e);
    } else {
      ExitStepInv(s, e);
    }
  }

  /** A run: any interleaving of steps from an empty queue. */
  ghost predicate Run(states: seq<Sys>, events: seq<Event>) {
    |states| == |events| + 1 && RunHealth(states, events) == Sound
  }

  ghost function RunHealth(states: seq<Sys>, events: seq<Event>): Health
    requires |states| == |events| + 1
  {
    if forall u :: Unfold(u) ==>
         && Init(states[0])
         && forall n :: 0 <= n < |events| ==>
              Enabled(states[n], events[n]) && Shaped(states[n].q) && states[n + 1] == Apply(states[n], events[n])
    then Sound else Broken
  }

  lemma RunStep(states: seq<Sys>, events: seq<Event>, n: nat)
    requires Run(states, events) && n < |events|
    ensures Enabled(states[n], events[n]) && Shaped(states[n].q) && states[n + 1] == Apply(states[n], events[n])
  {
    assert Unfold(0);
  }

  lemma RunStarts(states: seq<Sys>, events: seq<Event>)
    requires Run(states, events)
    ensures Init(states[0])
  {
    assert Unfold(0);
  }

  /** Every enabled event continues a run. */
  lemma RunGoesOn(states: seq<Sys>, events: seq<Event>, e: Event)
    requires Run(states, events) && Enabled(states[|events|], e)
    ensures Shaped(states[|events|].q) && Run(states + [Apply(states[|events|], e)], events + [e])
  {
    RunInv(states, events, |events|);
    InvFacts(states[|events|]);
    assert Unfold(0);
    var states', events' := states + [Apply(states[|events|], e)], events + [e];
    forall n | 0 <= n < |events'|
      ensures Enabled(states'[n], events'[n]) && Shaped(states'[n].q) && states'[n + 1] == Apply(states'[n], events'[n])
    {
    }
  }

  lemma {:induction false} RunInv(states: seq<Sys>, events: seq<Event>, n: nat)
    requires Run(states, events) && n < |states|
    ensures Inv(states[n])
  {
    if n == 0 {
      RunStarts(states, events);
      InitInv(states[0]);
    } else {
      RunInv(states, events, n - 1);
      RunStep(states, events, n - 1);
      StepInv(states[n - 1], events[n - 1]);
    }
  }

  /** No lost wake-up: whoever sleeps over a posted result has been woken or has a wake-up on its way. */
  lemma NoLostWakeup(states: seq<Sys>, events: seq<Event>, n: nat, p: nat)
    requires Run(states, events) && n < |states|
    ensures var s := states[n];
            At(s, p, Sleeping) && s.calls[p].idx in s.q.out ==> s.calls[p].run || p in s.wakes
  {
    RunInv(states, events, n);
    InvFacts(states[n]);
    if At(states[n], p, Sleeping) {
      assert CallOk(states[n], p);
    }
  }

  /** Slot exclusivity: a busy slot was left behind or belongs to exactly one call, never both; a call's slot is busy. */
  lemma SlotExclusive(states: seq<Sys>, events: seq<Event>, n: nat, i: nat)
    requires Run(states, events) && n < |states|
    ensures var s := states[n];
            && (i in s.q.inB <==> i in s.left || exists p :: Owns(s, p, i))
            && !(i in s.left && exists p :: Owns(s, p, i))
            && (forall p, r :: Owns(s, p, i) && Owns(s, r, i) ==> p == r)
  {
    RunInv(states, events, n);
    InvFacts(states[n]);
  }

  /** The "not ready" branch of `copy_smc_out_entry` is never taken, kills or not. */
  lemma CopyNeverUnready(states: seq<Sys>, events: seq<Event>, n: nat, p: nat)
    requires Run(states, events) && n < |states| && At(states[n], p, Copying)
    ensures states[n].calls[p].idx in states[n].q.out
  {
    RunInv(states, events, n);
    InvFacts(states[n]);
    CopyReady(states[n], p);
  }

  /** Publication: what the TEE can see is a complete command with its slot's number, as its owner sent it unless a kill rewrote it. */
  lemma VisibleIsComplete(states: seq<Sys>, events: seq<Event>, n: nat, i: nat)
    requires Run(states, events) && n < |states|
    requires i in states[n].q.inB && i !in states[n].q.doing
    ensures var s := states[n];
            && i < |s.q.cin| && s.q.cin[i].eventNr == i
            && (!s.killed ==> i in s.left || exists p :: Owns(s, p, i) && InFlight(s.calls[p]) && s.q.cin[i] == s.calls[p].sent)
  {
    RunInv(states, events, n);
    InvFacts(states[n]);
    var s := states[n];
    assert NumberOk(s, i);
    if !s.killed && i !in s.left {
      var p :| Owns(s, p, i);
      assert PhaseOk(s, s.calls[p]);
    }
  }

  /** Resend safety: without kills, a pending result leaves in and doing set and out clear, so sending again succeeds. */
  lemma ResendSucceeds(states: seq<Sys>, events: seq<Event>, n: nat, p: nat)
    requires Run(states, events) && n < |states| && !states[n].killed
    requires p in states[n].calls && Resending(states[n].calls[p])
    ensures var s := states[n];
            Reusable(s.q, s.calls[p].idx) && s.calls[p].idx !in s.q.out && s.calls[p].idx !in s.has
  {
    RunInv(states, events, n);
    InvFacts(states[n]);
    OwnedSlot(states[n], p);
  }

  /** Without kills, the result a call copies answers the command that this call sent last. */
  lemma AnswerMatches(states: seq<Sys>, events: seq<Event>, n: nat, p: nat)
    requires Run(states, events) && n < |states| && !states[n].killed && At(states[n], p, Copying)
    ensures var s := states[n];
            s.calls[p].idx in s.answered && s.answered[s.calls[p].idx] == s.calls[p].sent
  {
    RunInv(states, events, n);
    InvFacts(states[n]);
    OwnedSlot(states[n], p);
  }

  /** A step of call `p` itself, or a wake-up for it. */
  predicate About(e: Event, p: nat) {
    match e
    case Take(_) => false
    case Post(_, _, _, _) => false
    case _ => e.p == p
  }

  lemma EntryLeavesOthers(s: Sys, e: Event, p: nat)
    requires Enabled(s, e) && Shaped(s.q) && !About(e, p) && EntryStep(e)
    ensures p in Apply(s, e).calls <==> p in s.calls
    ensures p in s.calls ==> Apply(s, e).calls[p] == s.calls[p]
  {
  }

  lemma TeeLeavesOthers(s: Sys, e: Event, p: nat)
    requires Enabled(s, e) && Shaped(s.q) && !About(e, p) && TeeStep(e)
    ensures p in Apply(s, e).calls <==> p in s.calls
    ensures p in s.calls ==> Apply(s, e).calls[p] == s.calls[p]
  {
  }

  /** Other steps leave the call alone. */
  lemma CallStays(s: Sys, e: Event, p: nat)
    requires Enabled(s, e) && Shaped(s.q) && !About(e, p)
    ensures p in Apply(s, e).calls <==> p in s.calls
    ensures p in s.calls ==> Apply(s, e).calls[p] == s.calls[p]
  {
    if EntryStep(e) {
      EntryLeavesOthers(s, e, p);
    } else if TeeStep(e) {
      TeeLeavesOthers(s, e, p);
    }
  }

  /** Only copying a result makes a call a holder. */
  lemma StillHolding(s: Sys, e: Event, p: nat)
    requires Enabled(s, e) && Shaped(s.q) && At(Apply(s, e), p, Holding)
    ensures e == Copy(p) || (At(s, p, Holding) && Apply(s, e).calls[p] == s.calls[p])
  {
    if !About(e, p) {
      CallStays(s, e, p);
    } else if EntryStep(e) {
      EntryNotRecheck(s, e, p);
    }
  }

  lemma CopyMakesHolder(s: Sys, p: nat)
    requires Inv(s) && Enabled(s, Copy(p)) && At(CopyStep(s, p), p, Holding)
    ensures s.calls[p].idx < |s.q.cout| && CopyStep(s, p).calls[p].cmd == s.q.cout[s.calls[p].idx]
  {
    CopyReady(s, p);
  }

  /** A call holds its slot without sending only after it copied a TEEC_PENDING result, which it still has. */
  lemma {:induction false} HoldingAfterPending(states: seq<Sys>, events: seq<Event>, n: nat, p: nat) returns (k: nat)
    requires Run(states, events) && n < |states| && At(states[n], p, Holding)
    ensures k < n && events[k] == Copy(p) && p in states[k].calls && states[k].calls[p].idx < |states[k].q.cout|
    ensures states[k].q.cout[states[k].calls[p].idx] == states[n].calls[p].cmd && states[n].calls[p].cmd.ret == Pending
    ensures forall j :: k < j <= n ==> At(states[j], p, Holding)
  {
    RunInv(states, events, n);
    InvFacts(states[n]);
    assert CallOk(states[n], p);
    RunStarts(states, events);
    assert n > 0;
    k := n - 1;
    RunInv(states, events, k);
    RunStep(states, events, k);
    StillHolding(states[k], events[k], p);
    if events[k] == Copy(p) {
      CopyMakesHolder(states[k], p);
    } else {
      k := HoldingAfterPending(states, events, n - 1, p);
    }
  }

  lemma EntryNotRecheck(s: Sys, e: Event, p: nat)
    requires Enabled(s, e) && Shaped(s.q) && About(e, p) && EntryStep(e) && p in Apply(s, e).calls
    ensures !At(Apply(s, e), p, Recheck) && !At(Apply(s, e), p, Holding)
  {
  }

  lemma RecheckStep(s: Sys, e: Event, p: nat)
    requires Enabled(s, e) && Shaped(s.q) && At(Apply(s, e), p, Recheck) && Apply(s, e).calls[p].run
    ensures At(s, p, Recheck) && (e == Deliver(p) || e == Broadcast(p) || s.calls[p].run)
  {
    if !About(e, p) {
      CallStays(s, e, p);
    } else if EntryStep(e) {
      EntryNotRecheck(s, e, p);
    }
  }

  lemma FlagStep(s: Sys, e: Event, p: nat)
    requires Enabled(s, e) && Shaped(s.q) && p in Apply(s, e).calls && Apply(s, e).calls[p].run
    ensures e == Deliver(p) || e == Broadcast(p) || (p in s.calls && s.calls[p].run && e != ClearRun(p) && e != SendAgain(p))
  {
    if !About(e, p) {
      CallStays(s, e, p);
    } else if EntryStep(e) {
      EntryKeepsFlag(s, e, p);
    }
  }

  lemma EntryKeepsFlag(s: Sys, e: Event, p: nat)
    requires Enabled(s, e) && Shaped(s.q) && About(e, p) && EntryStep(e) && p in Apply(s, e).calls && Apply(s, e).calls[p].run
    ensures p in s.calls && s.calls[p].run && e != ClearRun(p) && e != SendAgain(p)
  {
  }

  /** A run flag that is set was set by a wake-up during this call, and not cleared or restarted since. */
  lemma {:induction false} WokenBy(states: seq<Sys>, events: seq<Event>, n: nat, p: nat) returns (k: nat)
    requires Run(states, events) && n < |states| && p in states[n].calls && states[n].calls[p].run
    ensures k < n && (events[k] == Deliver(p) || events[k] == Broadcast(p))
    ensures forall j :: k < j <= n ==> p in states[j].calls && states[j].calls[p].run
    ensures forall j :: k < j < n ==> events[j] != ClearRun(p) && events[j] != SendAgain(p)
  {
    RunStarts(states, events);
    assert n > 0;
    k := n - 1;
    RunStep(states, events, k);
    FlagStep(states[k], events[k], p);
    if events[k] != Deliver(p) && events[k] != Broadcast(p) {
      k := WokenBy(states, events, n - 1, p);
    }
  }

  /** A caller about to look again starts with its run flag clear: if the flag is set, a wake-up came after it was cleared. */
  lemma {:induction false} FlagSetAfterClear(states: seq<Sys>, events: seq<Event>, n: nat, p: nat) returns (k: nat)
    requires Run(states, events) && n < |states| && At(states[n], p, Recheck) && states[n].calls[p].run
    ensures k < n && (events[k] == Deliver(p) || events[k] == Broadcast(p)) && At(states[k], p, Recheck)
  {
    RunStarts(states, events);
    assert n > 0;
    k := n - 1;
    RunStep(states, events, k);
    RecheckStep(states[k], events[k], p);
    if !(events[k] == Deliver(p) || events[k] == Broadcast(p)) {
      k := FlagSetAfterClear(states, events, n - 1, p);
    }
  }

  /** A wake-up reaches its caller: a sleeper can go on. */
  lemma WakeReaches(s: Sys, e: Event, p: nat)
    requires Enabled(s, e) && Shaped(s.q) && (e == Deliver(p) || e == Broadcast(p)) && p in s.calls && !At(s, p, Holding)
    ensures p in Apply(s, e).calls && Apply(s, e).calls[p] == s.calls[p].(run := true)
    ensures At(s, p, Sleeping) ==> Enabled(Apply(s, e), WakeUp(p))
    ensures Apply(s, e).wakes == if e == Deliver(p) then s.wakes - {p} else s.wakes
  {
  }

  /** The TEE takes a command: it has what the slot holds, and nobody else notices. */
  lemma TakeReaches(s: Sys, i: nat)
    requires Inv(s) && Enabled(s, Take(i))
    ensures Shaped(s.q)
    ensures var s' := Apply(s, Take(i));
            && i in s'.has && s'.has[i] == s.q.cin[i] && s'.has[i].eventNr == i && s'.calls == s.calls
            && s'.q == s.q.(doing := s.q.doing + {i}) && s'.left == s.left && s'.wakes == s.wakes
  {
    InvFacts(s);
    assert NumberOk(s, i);
  }

  /** The TEE posts a result: it stands in the slot under the slot's number, and those to be woken are. */
  lemma PostReaches(s: Sys, i: nat, body: nat, ret: Ret, woken: set<nat>)
    requires Inv(s) && Enabled(s, Post(i, body, ret, woken))
    ensures Shaped(s.q)
    ensures var s' := Apply(s, Post(i, body, ret, woken));
            && i in s'.q.out && i < |s'.q.cout| && s'.q.cout[i] == Cmd(i, false, ret, body) && s'.calls == s.calls
            && s'.q.inB == s.q.inB && s'.wakes == s.wakes + woken
  {
    InvFacts(s);
    assert NumberOk(s, i);
  }

  lemma Goes(states: seq<Sys>, events: seq<Event>, e: Event) returns (states': seq<Sys>, events': seq<Event>)
    requires Run(states, events) && Enabled(states[|events|], e)
    ensures Run(states', events') && events' == events + [e] && Shaped(states[|events|].q)
    ensures states'[|events'|] == Apply(states[|events|], e) && Inv(states'[|events'|])
  {
    RunGoesOn(states, events, e);
    states', events' := states + [Apply(states[|events|], e)], events + [e];
    RunInv(states', events', |events'|);
  }

  /** The sleeper's result is posted, and its wake-up has arrived. */
  ghost predicate Answered(s: Sys, p: nat, i: nat, reply: Cmd) {
    && At(s, p, Sleeping) && s.calls[p].run && s.calls[p].idx == i
    && i in s.q.out && i < |s.q.cout| && s.q.cout[i] == reply
  }

  lemma PostedTo(states: seq<Sys>, events: seq<Event>, p: nat, i: nat, body: nat, ret: Ret)
      returns (states': seq<Sys>, events': seq<Event>)
    requires Run(states, events) && At(states[|events|], p, Sleeping) && states[|events|].calls[p].idx == i
    requires i in states[|events|].has && i !in states[|events|].q.out
    ensures Run(states', events') && events' == events + [Post(i, body, ret, {p})]
    ensures var s := states'[|events'|];
            && At(s, p, Sleeping) && s.calls[p].idx == i && p in s.wakes
            && i in s.q.out && i < |s.q.cout| && s.q.cout[i] == Cmd(i, false, ret, body)
  {
    var s := states[|events|];
    SlotExclusive(states, events, |events|, i);
    assert Owns(s, p, i);
    RunInv(states, events, |events|);
    PostReaches(s, i, body, ret, {p});
    states', events' := Goes(states, events, Post(i, body, ret, {p}));
  }

  lemma AnswerArrives(states: seq<Sys>, events: seq<Event>, p: nat, i: nat, body: nat, ret: Ret)
      returns (states': seq<Sys>, events': seq<Event>)
    requires Run(states, events) && At(states[|events|], p, Sleeping) && states[|events|].calls[p].idx == i
    requires var q := states[|events|].q; i in q.inB && i !in q.doing && i !in q.out
    ensures Run(states', events') && events' == events + [Take(i), Post(i, body, ret, {p}), Deliver(p)]
    ensures Answered(states'[|events'|], p, i, Cmd(i, false, ret, body))
  {
    RunInv(states, events, |events|);
    TakeReaches(states[|events|], i);
    states', events' := Goes(states, events, Take(i));
    states', events' := PostedTo(states', events', p, i, body, ret);
    states', events' := Goes(states', events', Deliver(p));
  }

  lemma WokenCopies(states: seq<Sys>, events: seq<Event>, p: nat, i: nat, reply: Cmd)
      returns (states': seq<Sys>, events': seq<Event>)
    requires Run(states, events) && Answered(states[|events|], p, i, reply)
    ensures Run(states', events') && events' == events + [WakeUp(p), ClearRun(p), CheckAgain(p), Copy(p)]
    ensures CopiedBy(states'[|events'|], p, i, reply)
  {
    states', events' := Goes(states, events, WakeUp(p));
    states', events' := Goes(states', events', ClearRun(p));
    states', events' := Goes(states', events', CheckAgain(p));
    states', events' := Goes(states', events', Copy(p));
  }

  /** The call has its reply: a final one has ended it, a pending one is its next command. */
  ghost predicate CopiedBy(s: Sys, p: nat, i: nat, reply: Cmd) {
    && i !in s.q.out
    && (reply.ret.Final? ==> p !in s.calls && i !in s.q.inB)
    && (reply.ret == Pending ==> At(s, p, Holding) && s.calls[p].cmd == reply)
    && (reply.ret == Pending2 ==> At(s, p, Retry) && s.calls[p].cmd == reply)
  }

  /**
   A sleeper whose command the TEE can see gets whatever answer the TEE gives: the TEE takes, posts and
   wakes, the caller wakes, looks again and copies.
   */
  lemma SleeperServed(states: seq<Sys>, events: seq<Event>, p: nat, i: nat, body: nat, ret: Ret)
      returns (states': seq<Sys>, events': seq<Event>)
    requires Run(states, events) && At(states[|events|], p, Sleeping) && states[|events|].calls[p].idx == i
    requires var q := states[|events|].q; i in q.inB && i !in q.doing && i !in q.out
    ensures Run(states', events')
    ensures events' == events + [Take(i), Post(i, body, ret, {p}), Deliver(p)] + [WakeUp(p), ClearRun(p), CheckAgain(p), Copy(p)]
    ensures CopiedBy(states'[|events'|], p, i, Cmd(i, false, ret, body))
  {
    states', events' := AnswerArrives(states, events, p, i, body, ret);
    states', events' := WokenCopies(states', events', p, i, Cmd(i, false, ret, body));
  }

  /** The call has sent its command: the TEE can see it, and no result is posted yet. */
  ghost predicate Waiting(s: Sys, p: nat, i: nat, pc: Pc, cmd: Cmd) {
    && At(s, p, pc) && s.calls[p].idx == i && i < |s.q.cin| && s.q.cin[i] == cmd
    && i in s.q.inB && i !in s.q.doing && i !in s.q.out
  }

  lemma Shown(states: seq<Sys>, events: seq<Event>, p: nat, i: nat, cmd: Cmd)
      returns (states': seq<Sys>, events': seq<Event>)
    requires Run(states, events) && p !in states[|events|].calls && FirstFree(states[|events|].q, i) && i !in states[|events|].q.out
    ensures Run(states', events') && events' == events + [Start(p, cmd), Event.Occupy(p, i), Event.Publish(p)]
    ensures Waiting(states'[|events'|], p, i, Sending, cmd.(eventNr := i))
  {
    states', events' := Goes(states, events, Start(p, cmd));
    states', events' := Goes(states', events', Event.Occupy(p, i));
    states', events' := Goes(states', events', Event.Publish(p));
  }

  lemma FallsAsleep(states: seq<Sys>, events: seq<Event>, p: nat, i: nat, cmd: Cmd)
      returns (states': seq<Sys>, events': seq<Event>)
    requires Run(states, events) && Waiting(states[|events|], p, i, Sending, cmd)
    ensures Run(states', events') && events' == events + [Enter(p), Return(p, ExitNormal), Check(p, false)]
    ensures Waiting(states'[|events'|], p, i, Sleeping, cmd)
  {
    states', events' := Goes(states, events, Enter(p));
    states', events' := Goes(states', events', Return(p, ExitNormal));
    states', events' := Goes(states', events', Check(p, false));
  }

  /** A pending call that is sent again shows the TEE the result it got, as its command. */
  lemma ShownAgain(states: seq<Sys>, events: seq<Event>, p: nat, i: nat)
      returns (states': seq<Sys>, events': seq<Event>)
    requires Run(states, events) && At(states[|events|], p, Holding) && !states[|events|].killed && states[|events|].calls[p].idx == i
    ensures Run(states', events') && events' == events + [SendAgain(p), DoOps(p)]
    ensures i < |states[|events|].q.cout| && Waiting(states'[|events'|], p, i, Sending, states[|events|].q.cout[i])
  {
    ResendSucceeds(states, events, |events|, p);
    RunInv(states, events, |events|);
    InvFacts(states[|events|]);
    assert CallOk(states[|events|], p);
    states', events' := Goes(states, events, SendAgain(p));
    ResendSucceeds(states', events', |events'|, p);
    states', events' := Goes(states', events', DoOps(p));
  }

  /**
   A whole call: wherever a run has got to, a new command for a free slot can go to the TEE and come back
   with whatever answer the TEE gives, numbered with the slot.
   */
  lemma CallServed(states: seq<Sys>, events: seq<Event>, p: nat, i: nat, cmd: Cmd, body: nat, ret: Ret)
      returns (states': seq<Sys>, events': seq<Event>)
    requires Run(states, events) && p !in states[|events|].calls && FirstFree(states[|events|].q, i)
    requires states[|events|].killed ==> i !in states[|events|].q.out
    ensures Run(states', events')
    ensures events' == events + [Start(p, cmd), Event.Occupy(p, i), Event.Publish(p)] + [Enter(p), Return(p, ExitNormal), Check(p, false)]
                       + [Take(i), Post(i, body, ret, {p}), Deliver(p)] + [WakeUp(p), ClearRun(p), CheckAgain(p), Copy(p)]
    ensures CopiedBy(states'[|events'|], p, i, Cmd(i, false, ret, body))
  {
    RunInv(states, events, |events|);
    InvFacts(states[|events|]);
    assert !states[|events|].killed ==> RestOk(states[|events|], i);
    states', events' := Shown(states, events, p, i, cmd);
    states', events' := FallsAsleep(states', events', p, i, cmd.(eventNr := i));
    states', events' := SleeperServed(states', events', p, i, body, ret);
  }

  /** The same for a call that got TEEC_PENDING and is sent again: the TEE sees the result it gave, and answers it. */
  lemma PendingServed(states: seq<Sys>, events: seq<Event>, p: nat, i: nat, body: nat, ret: Ret)
      returns (states': seq<Sys>, events': seq<Event>)
    requires Run(states, events) && At(states[|events|], p, Holding) && !states[|events|].killed && states[|events|].calls[p].idx == i
    ensures Run(states', events')
    ensures events' == events + [SendAgain(p), DoOps(p)] + [Enter(p), Return(p, ExitNormal), Check(p, false)]
                       + [Take(i), Post(i, body, ret, {p}), Deliver(p)] + [WakeUp(p), ClearRun(p), CheckAgain(p), Copy(p)]
    ensures CopiedBy(states'[|events'|], p, i, Cmd(i, false, ret, body))
  {
    states', events' := ShownAgain(states, events, p, i);
    states', events' := FallsAsleep(states', events', p, i, states[|events|].q.cout[i]);
    states', events' := SleeperServed(states', events', p, i, body, ret);
  }
}

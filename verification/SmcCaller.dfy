/**
 The queue sections of `smp_smc_send_func`, run by a caller on the real queue: each is one step of
 the protocol, so what holds in every run of the protocol holds of the code.
 */
module SmcCaller {
  import opened Options
  import opened CmdQueue
  import opened SmcProtocol

  class Driver {
    const queue: SmcQueue
    /** The protocol state that the queue is a part of. */
    ghost var sys: Sys

    ghost predicate Valid()
      reads this, queue, queue.cin, queue.cout
    {
      queue.Valid() && Inv(sys) && sys.q == queue.View()
    }

    constructor (slots: nat, zero: Cmd)
      ensures Valid() && fresh(queue) && fresh(queue.cin) && fresh(queue.cout)
      ensures Init(sys) && |sys.q.cin| == slots
    {
      queue := new SmcQueue(slots, zero);
      new;
      sys := Sys(queue.View(), map[], {}, map[], map[], {}, false);
      InitInv(sys);
    }

    /** `smc_ops_normal` for a new command: the first half of `occupy_free_smc_in_entry`. */
    method Occupy(p: nat, cmd: Cmd) returns (idx: int)
      requires Valid() && At(sys, p, Fresh) && sys.calls[p].cmd == cmd
      modifies this`sys, queue`inB, queue`doing, queue.cin
      ensures Valid()
      ensures idx == -1 ==> sys == old(sys) && forall j: nat :: j < |sys.q.cin| ==> j in sys.q.inB
      ensures idx != -1 ==> 0 <= idx && Enabled(old(sys), Event.Occupy(p, idx)) && sys == Apply(old(sys), Event.Occupy(p, idx))
      ensures idx != -1 ==>
        && At(sys, p, Publishing) && sys.calls[p].idx == idx && idx !in old(sys.q.inB) && idx in sys.q.inB && idx !in Visible(sys.q)
        && sys.q.cin[idx] == cmd.(eventNr := idx) && sys.calls[p].sent == sys.q.cin[idx]
    {
      idx := queue.OccupyFreeEntry(cmd);
      if idx != -1 {
        StepsAreLocal(old(queue.View()), idx, cmd);
        OneSlot(old(queue.View()), queue.View(), Occupied(old(queue.View()), idx, cmd), idx);
        StepInv(sys, Event.Occupy(p, idx));
        sys := Apply(sys, Event.Occupy(p, idx));
      }
    }

    /** The second half: the command becomes visible. */
    method Publish(p: nat, idx: nat)
      requires Valid() && At(sys, p, Publishing) && sys.calls[p].idx == idx
      modifies this`sys, queue`doing
      ensures Valid() && sys == Apply(old(sys), Event.Publish(p))
      ensures At(sys, p, Sending) && idx in Visible(sys.q) && sys.calls[p].sent == old(sys.calls[p].sent)
    {
      OwnedSlot(sys, p);
      queue.PublishEntry(idx);
      StepsAreLocal(old(queue.View()), idx, sys.calls[p].cmd);
      OneSlot(old(queue.View()), queue.View(), Published(old(queue.View()), idx), idx);
      StepInv(sys, Event.Publish(p));
      sys := Apply(sys, Event.Publish(p));
    }

    /** `smc_ops_normal` at the retry label: a pending command is sent again from its slot, or its slot released. */
    method Reuse(p: nat, idx: nat) returns (ok: bool)
      requires Valid() && At(sys, p, Retry) && sys.calls[p].idx == idx && sys.calls[p].ops.Normal?
      modifies this`sys, queue`inB, queue`doing, queue`out, queue.cin
      ensures Valid() && sys == Apply(old(sys), DoOps(p))
      ensures ok <==> Reusable(old(sys.q), idx)
      ensures !old(sys.killed) ==> ok
      ensures ok ==>
        && At(sys, p, Sending) && sys.calls[p].usage == Clear && sys.calls[p].idx == idx && idx in Visible(sys.q)
        && sys.q.cin[idx] == old(sys.q.cout[idx]) && sys.calls[p].sent == sys.q.cin[idx]
      ensures !ok ==> p !in sys.calls && idx !in sys.q.inB && sys.left == old(sys.left)
    {
      OwnedSlot(sys, p);
      ghost var q := queue.View();
      StepsAreLocal(q, idx, sys.calls[p].cmd);
      ok := queue.ReuseEntry(idx);
      if ok {
        OneSlot(q, queue.View(), Reused(q, idx), idx);
      } else {
        queue.ReleaseEntry(idx);
        OneSlot(q, queue.View(), Released(q, idx), idx);
      }
      StepInv(sys, DoOps(p));
      sys := Apply(sys, DoOps(p));
    }

    /** What `smp_smc_send_func` does when the SMC has returned, up to the copy or the sleep. */
    method CheckReturn(p: nat, idx: nat, exit: Exit, affinity: bool) returns (done: bool)
      requires Valid() && At(sys, p, Returned(exit)) && sys.calls[p].idx == idx
      modifies this`sys, queue`doing, queue.cin
      ensures Valid() && sys == Apply(old(sys), Check(p, affinity))
      ensures done <==> idx in old(sys.q.out)
      ensures done ==> At(sys, p, Copying) && sys.q == old(sys.q)
      ensures !done && exit == ExitNormal && !affinity ==> At(sys, p, Sleeping) && sys.q == old(sys.q)
      ensures !done && exit == ExitNormal && affinity ==> At(sys, p, Retry) && sys.calls[p].ops == SchedTo && sys.q == old(sys.q)
      ensures !done && exit == ExitAbort ==> Aborts(p, idx)
      ensures !done && exit == ExitOther ==> p !in sys.calls && sys.left == old(sys.left) + {idx} && sys.q == old(sys.q)
    {
      done := queue.IsWorkingDone(idx);
      if !done && exit == ExitAbort {
        var ops := AbortSlot(p, idx);
      }
      StepInv(sys, Check(p, affinity));
      sys := Apply(sys, Check(p, affinity));
    }

    /** The call goes to the retry label: with a kill that the TEE sees if it had the command, else to schedule it. */
    twostate predicate Aborts(p: nat, idx: nat)
      reads this
    {
      && At(sys, p, Retry) && idx < |sys.q.cin|
      && (idx in old(sys.q.doing) ==> sys.calls[p].ops == AbortTask && sys.killed && sys.q.cin[idx].kill && idx in Visible(sys.q))
      && (idx !in old(sys.q.doing) ==> sys.calls[p].ops == SchedTo && sys.q == old(sys.q) && sys.killed == old(sys.killed))
    }

    /** `process_abort_cmd` on the queue. */
    method AbortSlot(p: nat, idx: nat) returns (ops: Ops)
      requires Valid() && p in sys.calls && Slotted(sys.calls[p]) && sys.calls[p].idx == idx
      modifies queue`doing, queue.cin
      ensures queue.Valid() && idx < |sys.q.cin| && idx in sys.q.inB
      ensures ops == if idx in sys.q.doing then AbortTask else SchedTo
      ensures queue.View() == if idx in sys.q.doing then Aborted(sys.q, idx) else sys.q
    {
      OwnedSlot(sys, p);
      ghost var q := queue.View();
      StepsAreLocal(q, idx, sys.calls[p].cmd);
      var ok := queue.AbortEntry(idx);
      ops := if ok then AbortTask else SchedTo;
      if ok {
        OneSlot(q, queue.View(), Aborted(q, idx), idx);
      }
    }

    /** A sleep of `proc_ta_pending` that runs out: the next step, the kill, or a last look. */
    method SleepRunsOut(p: nat, idx: nat, kind: TimeoutKind)
      requires Valid() && At(sys, p, Sleeping) && sys.calls[p].idx == idx
      modifies this`sys, queue`doing, queue.cin
      ensures Valid() && sys == Apply(old(sys), Timeout(p, kind))
      ensures kind == Mid ==> At(sys, p, Retry) && sys.calls[p].ops == SchedTo && sys.q == old(sys.q)
      ensures kind == LastKilled ==> Aborts(p, idx)
      ensures kind == Last ==> At(sys, p, Awake) && sys.q == old(sys.q)
    {
      if kind == LastKilled {
        var ops := AbortSlot(p, idx);
      }
      StepInv(sys, Timeout(p, kind));
      sys := Apply(sys, Timeout(p, kind));
    }

    /** The last look of `proc_ta_pending` at the out bit, with `is_cmd_working_done`. */
    method LookAgain(p: nat, idx: nat) returns (done: bool)
      requires Valid() && At(sys, p, Recheck) && sys.calls[p].idx == idx
      modifies this`sys
      ensures Valid() && sys == Apply(old(sys), CheckAgain(p))
      ensures done <==> idx in old(sys.q.out)
      ensures if done then At(sys, p, Copying) else At(sys, p, Retry) && sys.calls[p].ops == SchedTo
    {
      done := queue.IsWorkingDone(idx);
      StepInv(sys, CheckAgain(p));
      sys := Apply(sys, CheckAgain(p));
    }

    /** `handle_cmd_working_done`: the result is always there to copy. */
    method HandleWorkingDone(p: nat, idx: nat) returns (reply: Option<Cmd>, usage: Usage)
      requires Valid() && At(sys, p, Copying) && sys.calls[p].idx == idx
      modifies this`sys, queue`inB, queue`doing, queue`out
      ensures Valid() && sys == Apply(old(sys), Copy(p))
      ensures reply.Some? && reply.value.eventNr == idx && usage == UsageOf(reply.value.ret)
      ensures idx < |old(sys.q.cout)| && reply.value == old(sys.q.cout)[idx] && idx !in sys.q.out
      ensures reply.value.ret.Final? <==> p !in sys.calls
      ensures reply.value.ret.Final? ==> idx !in sys.q.inB && idx !in sys.left
      ensures reply.value.ret == Pending2 <==> At(sys, p, Retry)
      ensures reply.value.ret == Pending <==> At(sys, p, Holding)
      ensures !reply.value.ret.Final? ==>
        && sys.calls[p].cmd == reply.value && sys.calls[p].usage == Resend && sys.calls[p].idx == idx && idx in sys.q.inB
        && (reply.value.ret == Pending2 ==> sys.calls[p].ops == Normal)
    {
      OwnedSlot(sys, p);
      CopyReady(sys, p);
      ghost var q := queue.View();
      StepsAreLocal(q, idx, sys.calls[p].cmd);
      reply, usage := queue.CopyOutEntry(idx);
      OneSlot(q, queue.View(), CopiedOut(q, idx), idx);
      StepInv(sys, Copy(p));
      sys := Apply(sys, Copy(p));
    }
  }
}

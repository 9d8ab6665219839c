/**
 The command queue shared with the TEE (`struct tc_ns_smc_queue`): three bitmaps over the slots and
 the commands in and out.  Each function below is one critical section under `smc_lock`.
 */
module CmdQueue {
  import opened Options

  /** What a command carries back: pending (the caller must ask again), pending on an agent, or final. */
  datatype Ret = Pending | Pending2 | Final(code: int)

  /** `struct tc_ns_smc_cmd`: the slot number, the kill marking of `set_abort_cmd`, the result, and the rest. */
  datatype Cmd = Cmd(eventNr: nat, kill: bool, ret: Ret, body: nat)

  datatype Usage = Clear | Resend

  datatype Queue = Queue(inB: set<nat>, doing: set<nat>, out: set<nat>, cin: seq<Cmd>, cout: seq<Cmd>)

  predicate Shaped(q: Queue) {
    |q.cin| == |q.cout| && (forall i :: i in q.inB ==> i < |q.cin|)
  }

  /** `i` is the first slot whose in bit is clear. */
  predicate FirstFree(q: Queue, i: nat) {
    i < |q.cin| && i !in q.inB && forall j: nat :: j < i ==> j in q.inB
  }

  /** First half of `occupy_free_smc_in_entry`: the slot is taken but not yet visible to the TEE. */
  function Occupied(q: Queue, i: nat, cmd: Cmd): Queue
    requires i < |q.cin|
  {
    q.(inB := q.inB + {i}, doing := q.doing + {i}, cin := q.cin[i := cmd.(eventNr := i)])
  }

  /** Second half: clearing the doing bit shows the command to the TEE. */
  function Published(q: Queue, i: nat): Queue {
    q.(doing := q.doing - {i})
  }

  predicate Reusable(q: Queue, i: nat) {
    i in q.inB && i in q.doing
  }

  /** `reuse_smc_in_entry` when it succeeds. */
  function Reused(q: Queue, i: nat): Queue
    requires i < |q.cin| && i < |q.cout|
  {
    q.(cin := q.cin[i := q.cout[i]], doing := q.doing - {i})
  }

  function UsageOf(ret: Ret): Usage {
    if ret.Pending? || ret.Pending2? then Resend else Clear
  }

  /** `copy_smc_out_entry` when the out bit is set. */
  function CopiedOut(q: Queue, i: nat): Queue
    requires i < |q.cout|
  {
    if UsageOf(q.cout[i].ret) == Resend then q.(out := q.out - {i}) else Released(q, i)
  }

  /** `release_smc_entry` */
  function Released(q: Queue, i: nat): Queue {
    q.(inB := q.inB - {i}, doing := q.doing - {i}, out := q.out - {i})
  }

  /** `set_abort_cmd` when the TEE has the command. */
  function Aborted(q: Queue, i: nat): Queue
    requires i < |q.cin|
  {
    q.(cin := q.cin[i := q.cin[i].(kill := true)], doing := q.doing - {i})
  }

  // ------ slots ------

  /** One slot: its three bits and its two commands. */
  datatype Slot = Slot(busy: bool, doing: bool, out: bool, cin: Option<Cmd>, cout: Option<Cmd>)

  function SlotOf(q: Queue, i: nat): Slot {
    Slot(i in q.inB, i in q.doing, i in q.out, if i < |q.cin| then Some(q.cin[i]) else None, if i < |q.cout| then Some(q.cout[i]) else None)
  }

  /** The slots that the TEE may take a command from. */
  function Visible(q: Queue): set<nat> {
    q.inB - q.doing
  }

  /** No slot but `i` changes. */
  ghost predicate OthersSame(q: Queue, q': Queue, i: nat) {
    |q'.cin| == |q.cin| && |q'.cout| == |q.cout| && forall j: nat :: j != i ==> SlotOf(q', j) == SlotOf(q, j)
  }

  /** A queue is what its slots are. */
  lemma SlotsDetermine(q: Queue, q': Queue)
    requires |q'.cin| == |q.cin| && |q'.cout| == |q.cout| && forall j: nat :: SlotOf(q', j) == SlotOf(q, j)
    ensures q' == q
  {
    forall j: nat
      ensures j in q'.inB <==> j in q.inB
      ensures j in q'.doing <==> j in q.doing
      ensures j in q'.out <==> j in q.out
      ensures j < |q.cin| ==> q'.cin[j] == q.cin[j]
      ensures j < |q.cout| ==> q'.cout[j] == q.cout[j]
    {
      assert SlotOf(q', j) == SlotOf(q, j);
    }
  }

  /** A section that changes one slot is determined by what it makes of that slot. */
  lemma OneSlot(q: Queue, q1: Queue, q2: Queue, i: nat)
    requires OthersSame(q, q1, i) && OthersSame(q, q2, i) && SlotOf(q1, i) == SlotOf(q2, i)
    ensures q1 == q2
  {
    forall j: nat
      ensures SlotOf(q1, j) == SlotOf(q2, j)
    {
      if j != i {
        assert SlotOf(q1, j) == SlotOf(q, j) && SlotOf(q2, j) == SlotOf(q, j);
      }
    }
    SlotsDetermine(q1, q2);
  }

  /** The steps of the queue change one slot each. */
  lemma StepsAreLocal(q: Queue, i: nat, cmd: Cmd)
    requires Shaped(q) && i < |q.cin|
    ensures OthersSame(q, Occupied(q, i, cmd), i) && OthersSame(q, Published(q, i), i) && OthersSame(q, Released(q, i), i)
    ensures OthersSame(q, Reused(q, i), i) && OthersSame(q, CopiedOut(q, i), i) && OthersSame(q, Aborted(q, i), i)
  {
  }

  class SmcQueue {
    var inB: set<nat>
    var doing: set<nat>
    var out: set<nat>
    const cin: array<Cmd>
    const cout: array<Cmd>

    ghost predicate Valid()
      reads this, cin, cout
    {
      cin != cout && Shaped(View())
    }

    ghost function View(): Queue
      reads this, cin, cout
    {
      Queue(inB, doing, out, cin[..], cout[..])
    }

    constructor (slots: nat, zero: Cmd)
      ensures Valid() && inB == {} && doing == {} && out == {} && cin.Length == slots && fresh(cin) && fresh(cout)
    {
      inB, doing, out := {}, {}, {};
      cin := new Cmd[slots](_ => zero);
      cout := new Cmd[slots](_ => zero);
    }

    /** The scan of `occupy_free_smc_in_entry`: the first free slot is taken and holds the numbered command, hidden from the TEE. */
    method OccupyFreeEntry(cmd: Cmd) returns (idx: int)
      requires Valid()
      modifies this`inB, this`doing, cin
      ensures Valid()
      ensures idx == -1 ==> View() == old(View()) && forall j: nat :: j < cin.Length ==> j in inB
      ensures idx != -1 ==>
        && 0 <= idx && FirstFree(old(View()), idx) && OthersSame(old(View()), View(), idx)
        && SlotOf(View(), idx) == SlotOf(old(View()), idx).(busy := true, doing := true, cin := Some(cmd.(eventNr := idx)))
      ensures Visible(View()) == Visible(old(View()))
    {
      var i := 0;
      while i < cin.Length
        invariant 0 <= i <= cin.Length && View() == old(View())
        invariant forall j: nat :: j < i ==> j in inB
      {
        if i !in inB {
          cin[i] := cmd.(eventNr := i);
          inB := inB + {i};
          doing := doing + {i};
          return i;
        }
        i := i + 1;
      }
      return -1;
    }

    /** The end of `occupy_free_smc_in_entry`: the TEE sees this slot too, with the command it holds. */
    method PublishEntry(i: nat)
      requires Valid()
      modifies this`doing
      ensures Valid() && OthersSame(old(View()), View(), i)
      ensures i in inB ==> Visible(View()) == Visible(old(View())) + {i}
      ensures SlotOf(View(), i) == SlotOf(old(View()), i).(doing := false)
    {
      doing := doing - {i};
    }

    /** `reuse_smc_in_entry`: a slot in use and not visible is shown again, with the last result as its command. */
    method ReuseEntry(i: nat) returns (ok: bool)
      requires Valid()
      modifies this`doing, cin
      ensures Valid() && OthersSame(old(View()), View(), i)
      ensures ok <==> old(i in inB && i in doing)
      ensures ok ==> i < cout.Length && Visible(View()) == Visible(old(View())) + {i}
      ensures ok ==> SlotOf(View(), i) == SlotOf(old(View()), i).(doing := false, cin := Some(cout[i]))
      ensures !ok ==> View() == old(View())
    {
      if !(i in inB && i in doing) {
        return false;
      }
      cin[i] := cout[i];
      doing := doing - {i};
      return true;
    }

    /** `copy_smc_out_entry`: a posted result is copied; the slot is free after a final one and kept after a pending one. */
    method CopyOutEntry(i: nat) returns (reply: Option<Cmd>, usage: Usage)
      requires Valid() && i < cout.Length
      modifies this`inB, this`doing, this`out
      ensures Valid() && OthersSame(old(View()), View(), i)
      ensures reply.None? <==> i !in old(out)
      ensures reply.None? ==> View() == old(View())
      ensures reply.Some? ==>
        && reply.value == cout[i] && usage == UsageOf(cout[i].ret) && i !in out
        && (if usage == Resend then i in inB <==> i in old(inB) else i !in inB && i !in doing)
        && (usage == Resend ==> (i in doing <==> i in old(doing)))
        && cin[i] == old(cin[i]) && cout[i] == old(cout[i])
    {
      usage := Clear;
      if i !in out {
        return None, usage;
      }
      reply := Some(cout[i]);
      if cout[i].ret.Pending2? || cout[i].ret.Pending? {
        usage := Resend;
      } else {
        inB := inB - {i};
        doing := doing - {i};
      }
      out := out - {i};
    }

    /** `release_smc_entry`: the slot is free again, its result dropped, and the TEE no longer sees it. */
    method ReleaseEntry(i: nat)
      requires Valid()
      modifies this`inB, this`doing, this`out
      ensures Valid() && OthersSame(old(View()), View(), i)
      ensures i !in inB && i !in out && i !in doing && Visible(View()) == Visible(old(View())) - {i}
    {
      inB := inB - {i};
      doing := doing - {i};
      out := out - {i};
    }

    /** `is_cmd_working_done` */
    method IsWorkingDone(i: nat) returns (done: bool)
      ensures done <==> i in out
    {
      done := i in out;
    }

    /** `set_abort_cmd`: a command that the TEE has is marked as a kill, under the same number, and shown to it again. */
    method AbortEntry(i: nat) returns (ok: bool)
      requires Valid() && i < cin.Length
      modifies this`doing, cin
      ensures Valid() && OthersSame(old(View()), View(), i)
      ensures ok <==> i in old(doing)
      ensures !ok ==> View() == old(View())
      ensures ok ==> cin[i].kill && cin[i].eventNr == old(cin[i].eventNr) && (i in inB ==> i in Visible(View()))
      ensures ok ==> SlotOf(View(), i) == SlotOf(old(View()), i).(doing := false, cin := Some(old(cin[i]).(kill := true)))
    {
      if i !in doing {
        return false;
      }
      cin[i] := cin[i].(kill := true);
      doing := doing - {i};
      return true;
    }
  }
}

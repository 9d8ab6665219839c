/**
 How long a caller sleeps while its TA is pending (`init_timeout_step`, `proc_ta_pending`).
 The schedule brackets the TEE's own timeout of `t` jiffies with short sleeps, because the two
 clocks deviate, and is carried across the retries of one pending episode.  Whether a sleep is
 cut short by a wake-up is an input.
 */
module TimeoutStep {
  import opened Machine

  const TO_STEP_SIZE: nat := 5
  const INVALID_STEP_SIZE: nat := 0xFFFF_FFFF
  const RESLEEP_TIMEOUT: nat := 15
  const MSEC_PER_SEC: nat := 1000

  /** `msecs_to_jiffies`, which rounds up. */
  function MsecsToJiffies(ms: nat, hz: nat): nat {
    (ms * hz + MSEC_PER_SEC - 1) / MSEC_PER_SEC
  }

  /** The TEE's timeout, clamped to 15 seconds, in jiffies. */
  function Clamped(timeout: nat, hz: nat): nat {
    MsecsToJiffies(Min(timeout, RESLEEP_TIMEOUT * MSEC_PER_SEC), hz)
  }

  lemma ClampedBounds(timeout: nat, hz: nat)
    requires timeout > 0 && hz > 0
    ensures 1 <= Clamped(timeout, hz) <= RESLEEP_TIMEOUT * hz
  {
    var ms := Min(timeout, RESLEEP_TIMEOUT * MSEC_PER_SEC);
    assert 1 <= ms * hz by { assert ms >= 1 && hz >= 1; }
    assert ms * hz <= (RESLEEP_TIMEOUT * MSEC_PER_SEC) * hz by {
      assert (RESLEEP_TIMEOUT * MSEC_PER_SEC - ms) * hz >= 0;
    }
  }

  /** The clamped timeout is the least number of jiffies not shorter than the TEE's timeout, or than 15 seconds. */
  lemma ClampedLeast(timeout: nat, hz: nat, j: nat)
    ensures var ms := if timeout < 15000 then timeout else 15000;
            Clamped(timeout, hz) <= j <==> ms * hz <= j * MSEC_PER_SEC
  {
    var ms := Min(timeout, RESLEEP_TIMEOUT * MSEC_PER_SEC);
    CeilingLeast(ms * hz, j);
  }

  lemma CeilingLeast(x: nat, j: nat)
    ensures (x + MSEC_PER_SEC - 1) / MSEC_PER_SEC <= j <==> x <= j * MSEC_PER_SEC
  {
  }

  /** When the sleeps of a schedule have run out up to step `n`. */
  function Until(s: seq<nat>, n: nat): nat
    requires n <= |s|
  {
    if n == 0 then 0 else Until(s, n - 1) + s[n - 1]
  }

  function Sum(s: seq<nat>): nat {
    Until(s, |s|)
  }

  /** Jiffies slept before the kill check by an episode in which no sleep is cut short. */
  function FullSleep(timeout: nat, hz: nat): nat {
    if timeout == 0 then RESLEEP_TIMEOUT * hz else Max(RESLEEP_TIMEOUT * hz, Clamped(timeout, hz) + 2)
  }

  /**
   A schedule for this timeout: no sleep is empty, it adds up to `FullSleep`, and its wake points are
   t - 1 (unless that is at once), t, t + 1, t + 2 and the end.
   */
  ghost predicate ScheduleFor(s: seq<nat>, timeout: nat, hz: nat) {
    && 1 <= |s| <= TO_STEP_SIZE
    && (forall k :: 0 <= k < |s| ==> s[k] > 0)
    && Sum(s) == FullSleep(timeout, hz)
    && (timeout == 0 ==> |s| == 1)
    && (timeout > 0 ==> exists n :: WakesAround(s, n, Clamped(timeout, hz)))
  }

  ghost predicate WakesAround(s: seq<nat>, n: nat, t: nat) {
    && 1 <= n <= 2 && n + 2 <= |s| <= n + 3
    && Until(s, n - 1) == t - 1 && Until(s, n) == t && Until(s, n + 1) == t + 1 && Until(s, n + 2) == t + 2
  }

  datatype Pending = PdWakeup | PdTimeout | PdDone

  class Step {
    const hz: nat
    var steps: seq<nat>
    var size: nat
    var cur: nat
    var timeoutReset: bool
    /** The TEE timeout the current schedule was made for. */
    ghost var timeout: nat

    ghost predicate Valid()
      reads this
    {
      && hz > 0 && |steps| == TO_STEP_SIZE && 1 <= size <= TO_STEP_SIZE
      && (cur == INVALID_STEP_SIZE || (cur < size && ScheduleFor(steps[..size], timeout, hz)))
    }

    constructor (hz: nat)
      requires hz > 0
      ensures Valid() && cur == INVALID_STEP_SIZE && !timeoutReset && this.hz == hz
    {
      this.hz := hz;
      steps, size, cur, timeoutReset := [0, 0, 0, 0, 0], TO_STEP_SIZE, INVALID_STEP_SIZE, false;
      timeout := 0;
    }

    /** `init_timeout_step` */
    method InitTimeoutStep(to: nat)
      requires hz > 0 && |steps| == TO_STEP_SIZE
      modifies this`steps, this`size, this`cur, this`timeout
      ensures Valid() && cur == 0 && timeout == to
    {
      if to == 0 {
        steps := steps[0 := RESLEEP_TIMEOUT * hz];
        size := 1;
      } else {
        var t := Clamped(to, hz);
        ClampedBounds(to, hz);
        var i := 0;
        if t > 1 {
          steps := steps[0 := t - 1][1 := 1];
          i := 2;
        } else {
          steps := steps[0 := t];
          i := 1;
        }
        steps := steps[i := 1][i + 1 := 1];
        i := i + 2;
        if RESLEEP_TIMEOUT * hz > t + 2 {
          steps := steps[i := RESLEEP_TIMEOUT * hz - 2 - t];
          i := i + 1;
        }
        size := i;
      }
      cur := 0;
      timeout := to;
      assert steps[..size] == Schedule(to, hz);
      ScheduleOk(to, hz);
    }

    /** `set_timeout_step`: a new episode starts with a new schedule. */
    method SetTimeoutStep()
      requires Valid()
      modifies this`cur, this`timeoutReset
      ensures Valid() && !timeoutReset && cur == if old(timeoutReset) then INVALID_STEP_SIZE else old(cur)
    {
      if timeoutReset {
        cur, timeoutReset := INVALID_STEP_SIZE, false;
      }
    }

    /**
     `proc_ta_pending`: `woken(n)` tells whether the n-th sleep of this call is cut short.
     `slept` lists the sleeps that ran out, `used` the step indices looked up.
     */
    method ProcTaPending(to: nat, timerNoIrq: bool, woken: nat -> bool, killed: bool, done: bool)
      returns (pd: Pending, ghost slept: seq<nat>, ghost used: seq<nat>)
      requires Valid()
      modifies this`steps, this`size, this`cur, this`timeout
      ensures Valid() && cur < size <= TO_STEP_SIZE
      ensures forall u :: u in used ==> u < size
      ensures old(cur) != INVALID_STEP_SIZE ==> size == old(size) && steps == old(steps) && timeout == old(timeout)
      ensures old(cur) == INVALID_STEP_SIZE ==> timeout == to
      ensures Ends(if old(cur) == INVALID_STEP_SIZE then 0 else old(cur), timerNoIrq, woken, killed, done, pd, slept)
      ensures LooksUp(if old(cur) == INVALID_STEP_SIZE then 0 else old(cur), pd, used)
    {
      if cur == INVALID_STEP_SIZE {
        InitTimeoutStep(to);
      }
      pd, slept, used := SleepSteps(timerNoIrq, woken, killed, done);
    }

    /** The sleeps of `proc_ta_pending`, from the current step on. */
    method SleepSteps(timerNoIrq: bool, woken: nat -> bool, killed: bool, done: bool)
      returns (pd: Pending, ghost slept: seq<nat>, ghost used: seq<nat>)
      requires cur < size <= |steps|
      modifies this`cur
      ensures old(cur) <= cur < size
      ensures forall u :: u in used ==> u < size
      ensures Ends(old(cur), timerNoIrq, woken, killed, done, pd, slept) && LooksUp(old(cur), pd, used)
    {
      var n := 0;
      slept, used := [], [];
      while true
        invariant old(cur) <= cur < size && n == cur - old(cur) && (n > 0 ==> !timerNoIrq)
        invariant forall u :: u in used ==> u < size
        invariant |used| == n && forall k :: 0 <= k < n ==> used[k] == old(cur) + k
        invariant slept == steps[old(cur)..cur] && forall k :: 0 <= k < n ==> !woken(k)
        decreases size - cur
      {
        used := used + [cur];
        if woken(n) {
          break;
        }
        slept := slept + [steps[cur]];
        OneStepMore(steps, old(cur), cur);
        if cur < size - 1 {
          cur := cur + 1;
          n := n + 1;
          if timerNoIrq {
            return PdTimeout, slept, used;
          }
        } else {
          if killed {
            return PdWakeup, slept, used;
          }
          break;
        }
      }
      return if done then PdDone else PdWakeup, slept, used;
    }

    /** The steps from `from` on are looked up in order, one for each sleep. */
    ghost predicate LooksUp(from: nat, pd: Pending, used: seq<nat>)
      reads this
    {
      |used| == cur - from + (if pd == PdTimeout then 0 else 1) && forall k :: 0 <= k < |used| ==> used[k] == from + k
    }

    /**
     How a call entered at step `from` ends.  Without a timer interrupt in the TEE the first sleep that
     runs out before the last step ends it.  Otherwise it sleeps until it is woken, or through the
     last step; then the command is done or not, but a killed caller whose last sleep ran out never
     looks.
     */
    ghost predicate Ends(from: nat, timerNoIrq: bool, woken: nat -> bool, killed: bool, done: bool, pd: Pending, slept: seq<nat>)
      reads this
    {
      && from <= cur < size <= |steps|
      && (pd == PdTimeout <==> timerNoIrq && !woken(0) && from < size - 1)
      && (pd == PdTimeout ==> cur == from + 1 && slept == steps[from..cur])
      && (pd != PdTimeout ==>
            && (forall k :: 0 <= k < cur - from ==> !woken(k))
            && (if woken(cur - from) then slept == steps[from..cur] && (pd == PdDone <==> done)
                else cur == size - 1 && slept == steps[from..size] && (pd == PdDone <==> done && !killed)))
    }

    /** `proc_normal_exit`: after a wake-up the next retry starts a new episode, after a timeout it goes on. */
    method ProcNormalExit(affinity: bool, to: nat, timerNoIrq: bool, woken: nat -> bool, killed: bool, done: bool)
      returns (finished: bool, ghost pd: Pending, ghost slept: seq<nat>)
      requires Valid() && !timeoutReset
      modifies this
      ensures Valid()
      ensures affinity ==> !finished && slept == [] && cur == old(cur) && size == old(size) && steps == old(steps) && timeout == old(timeout) && !timeoutReset
      ensures !affinity ==>
        && Ends(if old(cur) == INVALID_STEP_SIZE then 0 else old(cur), timerNoIrq, woken, killed, done, pd, slept)
        && (old(cur) == INVALID_STEP_SIZE ==> timeout == to)
        && (old(cur) != INVALID_STEP_SIZE ==> size == old(size) && steps == old(steps) && timeout == old(timeout))
        && (finished <==> pd == PdDone) && (timeoutReset <==> pd == PdWakeup)
    {
      finished, pd, slept := false, PdWakeup, [];
      if affinity {
        return;
      }
      var answer;
      ghost var used;
      answer, slept, used := ProcTaPending(to, timerNoIrq, woken, killed, done);
      finished, pd := answer == PdDone, answer;
      if answer == PdWakeup {
        timeoutReset := true;
      }
    }

    /** One retry in which nothing wakes the caller: one step without a timer interrupt, else all that are left. */
    method Unwoken(to: nat, timerNoIrq: bool, killed: bool) returns (ghost slept: seq<nat>)
      requires Valid()
      modifies this
      ensures Valid() && cur < size
      ensures var anew := old(cur == INVALID_STEP_SIZE || timeoutReset);
              var from := if anew then 0 else old(cur);
              && (if anew then timeout == to else size == old(size) && steps == old(steps) && timeout == old(timeout))
              && from < size && (timeoutReset <==> !timerNoIrq || from == size - 1)
              && slept == steps[from..if timeoutReset then size else from + 1] && (!timeoutReset ==> cur == from + 1)
    {
      SetTimeoutStep();
      ghost var pd;
      var finished;
      finished, pd, slept := ProcNormalExit(false, to, timerNoIrq, _ => false, killed, false);
    }

    /**
     A fresh episode, of a new call or after a wake-up, in which nothing wakes the caller, across all the
     retries that a TEE without a timer interrupt asks for, whatever timeouts it reports meanwhile: before
     the kill check it has slept exactly the schedule for the timeout reported first.
     */
    method WholeEpisode(tos: nat -> nat, timerNoIrq: bool, killed: bool) returns (ghost slept: seq<nat>)
      requires Valid() && (cur == INVALID_STEP_SIZE || timeoutReset)
      modifies this
      ensures Valid() && timeoutReset
      ensures Sum(slept) == FullSleep(tos(0), hz) && ScheduleFor(slept, tos(0), hz)
    {
      slept := [];
      var n, finished := 0, false;
      while !finished
        invariant Valid() && (n > 0 ==> cur < size && timeout == tos(0))
        invariant if n == 0 then cur == INVALID_STEP_SIZE || timeoutReset else finished || (!timeoutReset && timerNoIrq)
        invariant |slept| <= size && (n == 0 ==> slept == []) && (n > 0 ==> slept == steps[..|slept|] && |slept| == if finished then size else cur)
        invariant finished ==> n > 0 && timeoutReset
        decreases !finished, if n == 0 then TO_STEP_SIZE + 1 else size - |slept|
      {
        ghost var more := Unwoken(tos(n), timerNoIrq, killed);
        slept := slept + more;
        finished := timeoutReset;
        n := n + 1;
      }
    }
  }

  lemma OneStepMore(s: seq<nat>, a: nat, b: nat)
    requires a <= b < |s|
    ensures s[a..b] + [s[b]] == s[a..b + 1]
    ensures a == b ==> s[a..b + 1] == [s[a]]
  {
  }

  /** The schedule as the source lays it out, for a timeout of `t` jiffies and a longest sleep of `top`. */
  function Layout(t: nat, top: nat): seq<nat> {
    (if t > 1 then [t - 1, 1] else [t]) + [1] + [1] + (if top > t + 2 then [top - 2 - t] else [])
  }

  function Schedule(to: nat, hz: nat): seq<nat> {
    if to == 0 then [RESLEEP_TIMEOUT * hz] else Layout(Clamped(to, hz), RESLEEP_TIMEOUT * hz)
  }

  lemma LayoutOk(t: nat, top: nat)
    requires t > 0 && top > 0
    ensures forall k :: 0 <= k < |Layout(t, top)| ==> Layout(t, top)[k] > 0
    ensures 1 <= |Layout(t, top)| <= TO_STEP_SIZE && Sum(Layout(t, top)) == Max(top, t + 2)
    ensures WakesAround(Layout(t, top), if t > 1 then 2 else 1, t)
  {
    var s := Layout(t, top);
    assert Until(s, 1) == s[0];
    assert Until(s, 2) == s[0] + s[1];
    assert Until(s, 3) == Until(s, 2) + s[2];
    if |s| > 3 {
      assert Until(s, 4) == Until(s, 3) + s[3];
    }
  }

  /** The steps add up to the longest sleep and put wake points right at, one and two jiffies after the TEE's timeout. */
  lemma ScheduleOk(to: nat, hz: nat)
    requires hz > 0
    ensures ScheduleFor(Schedule(to, hz), to, hz)
  {
    if to == 0 {
      assert Until(Schedule(to, hz), 1) == RESLEEP_TIMEOUT * hz;
    } else {
      ClampedBounds(to, hz);
      LayoutOk(Clamped(to, hz), RESLEEP_TIMEOUT * hz);
    }
  }
}

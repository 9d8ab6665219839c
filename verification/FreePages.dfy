/** Counting the pages of a pool that are not handed out. */
module FreePages {
  import opened Blocks
  import opened ZoneSpec
  import opened BuddyZone
  import opened Mailbox

  /** The pages of a pool of maximum order `m` that no block handed out contains. */
  ghost function FreeOf(m: nat, live: LiveMap): set<nat> {
    set p: nat | p < Pow2(m) && !Taken(live, p)
  }

  /** The `n` pages from `a` on. */
  ghost function Interval(a: nat, n: nat): set<nat> {
    if n == 0 then {} else Interval(a, n - 1) + {a + n - 1}
  }

  lemma {:induction false} IntervalSize(a: nat, n: nat)
    ensures |Interval(a, n)| == n && forall p :: p in Interval(a, n) <==> a <= p < a + n
  {
    if n > 0 {
      IntervalSize(a, n - 1);
    }
  }

  lemma TakenMore(live: LiveMap, h: nat, k: nat, p: nat)
    requires h !in live
    ensures Taken(live[h := k], p) <==> Taken(live, p) || h <= p < h + Pow2(k)
  {
    var live' := live[h := k];
    if Taken(live, p) {
      var g :| g in live && g <= p < g + Pow2(live[g]);
      assert g in live' && live'[g] == live[g];
    }
    if h <= p < h + Pow2(k) {
      assert h in live' && live'[h] == k;
    }
  }

  /** Handing out a free run of order `k` takes 2^k pages. */
  lemma TakingPages(m: nat, live: LiveMap, h: nat, k: nat)
    requires h !in live && FreeRun(m, live, h, k)
    ensures |FreeOf(m, live[h := k])| == |FreeOf(m, live)| - Pow2(k)
  {
    var run := Interval(h, Pow2(k));
    IntervalSize(h, Pow2(k));
    forall p: nat
      ensures p in FreeOf(m, live[h := k]) <==> p in FreeOf(m, live) && p !in run
    {
      TakenMore(live, h, k, p);
    }
    assert FreeOf(m, live[h := k]) == FreeOf(m, live) - run;
    assert run <= FreeOf(m, live);
  }

  /** A request of at most one page is served exactly when some page is free. */
  lemma PageServed(m: nat, live: LiveMap, size: nat)
    requires 0 < size <= PAGE_SIZE
    ensures OrderOf(size) == 0 && (Serves(m, live, size) <==> |FreeOf(m, live)| >= 1)
  {
    OrderHolds(size);
    assert Pow2(0) == 1;
    if FreeOf(m, live) != {} {
      var p :| p in FreeOf(m, live);
      assert FreeRun(m, live, p, 0);
    }
    if Serves(m, live, size) {
      var h: nat :| FreeRun(m, live, h, 0);
      assert !Taken(live, h) && h in FreeOf(m, live);
    }
  }
}

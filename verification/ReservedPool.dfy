/**
 Sizing of the reserved memory pool: the pool gets the greatest power of two that fits,
 and shared memory may ask for at most a sixteenth of it, so the pool's only block of the
 maximum order is never handed out.
 */
module ReservedPool {
  import opened Blocks
  import opened BuddyZone
  import BuddyLaws
  import opened Machine

  const MAX_SLICE: nat := 0x400000
  const MIN_RES_MEM_SIZE: nat := 0x400000

  /** Bitwise and on natural numbers. */
  function And(a: nat, b: nat): nat {
    if a == 0 || b == 0 then 0 else 2 * And(a / 2, b / 2) + (a % 2) * (b % 2)
  }

  predicate IsPow2(n: nat) {
    n == 1 || (n > 1 && n % 2 == 0 && IsPow2(n / 2))
  }

  lemma {:induction false} Log2(n: nat) returns (k: nat)
    requires IsPow2(n)
    ensures n == Pow2(k)
  {
    k := 0;
    if n > 1 {
      var j := Log2(n / 2);
      k := j + 1;
    }
  }

  lemma {:induction false} Pow2IsPow2(k: nat)
    ensures IsPow2(Pow2(k))
  {
    if k > 0 {
      Pow2IsPow2(k - 1);
    }
  }

  lemma {:induction false} AndSelf(n: nat)
    ensures And(n, n) == n
  {
    if n > 0 {
      AndSelf(n / 2);
      assert And(n, n) == 2 * And(n / 2, n / 2) + n % 2;
    }
  }

  /** The test `(n & (n - 1)) == 0` finds exactly the powers of two. */
  lemma {:induction false} PowerOfTwoTest(n: nat)
    requires n > 0
    ensures And(n, n - 1) == 0 <==> IsPow2(n)
  {
    if n > 1 {
      if n % 2 == 0 {
        PowerOfTwoTest(n / 2);
        assert (n - 1) / 2 == n / 2 - 1;
      } else {
        AndSelf(n / 2);
        assert (n - 1) / 2 == n / 2;
      }
    }
  }

  /** Shifting right by `k` leaves zero exactly below 2^k. */
  lemma {:induction false} ShrZero(n: nat, k: nat)
    ensures Shr(n, k) == 0 <==> n < Pow2(k)
  {
    if k > 0 {
      ShrZero(n / 2, k - 1);
    }
  }

  /** `calc_res_mem_size`: the greatest power of two not above `rsize`. */
  method CalcResMemSize(rsize: nat) returns (r: nat)
    requires rsize < TWO32
    ensures rsize == 0 ==> r == 0
    ensures rsize > 0 ==> IsPow2(r) && r <= rsize < 2 * r
  {
    if rsize == 0 {
      return 0;
    }
    PowerOfTwoTest(rsize);
    if And(rsize, rsize - 1) == 0 {
      return rsize;
    }
    var size, idx := rsize, 0;
    while size != 0
      invariant size == Shr(rsize, idx)
      invariant size == 0 ==> idx > 0 && Shr(rsize, idx - 1) > 0
      decreases size
    {
      ShrStep(rsize, idx);
      size := size / 2;
      idx := idx + 1;
    }
    r := Pow2(idx - 1);
    Pow2IsPow2(idx - 1);
    ShrZero(rsize, idx);
    ShrZero(rsize, idx - 1);
  }

  /** `get_res_mem_slice_size` */
  function SliceSize(resSize: nat): nat {
    if resSize / 16 > MAX_SLICE then MAX_SLICE else resSize / 16
  }

  /** The slice is exactly a sixteenth of the pool, or 4 MB of a pool larger than 64 MB. */
  lemma SliceExact(resSize: nat)
    requires IsPow2(resSize) && resSize >= MIN_RES_MEM_SIZE
    ensures if resSize <= 16 * MAX_SLICE then 16 * SliceSize(resSize) == resSize else SliceSize(resSize) == MAX_SLICE
    ensures SliceSize(resSize) >= 64 * PAGE_SIZE && SliceSize(resSize) % PAGE_SIZE == 0
  {
    var s := Log2(resSize);
    SmallPowers();
    if s < 22 {
      Pow2Mono(s, 22);
    }
    Pow2Sum(4, s - 4);
    Pow2Sum(12, s - 16);
    DivisionUnique(Pow2(s), 16, Pow2(s - 4), 0);
    MultipleModulo(Pow2(s - 16), PAGE_SIZE);
    assert MAX_SLICE % PAGE_SIZE == 0;
  }

  /** The maximum order of the reserved zone, `get_order` of its size. */
  function ResMaxOrder(resSize: nat): nat {
    OrderOf(resSize)
  }

  /** A pool size that `load_reserved_mem` can produce spans exactly 2^ResMaxOrder pages. */
  lemma ResMaxOrderExact(resSize: nat)
    requires IsPow2(resSize) && resSize >= MIN_RES_MEM_SIZE
    ensures ResMaxOrder(resSize) >= 10 && PAGE_SIZE * Pow2(ResMaxOrder(resSize)) == resSize
  {
    var s := Log2(resSize);
    SmallPowers();
    if s < 22 {
      Pow2Mono(s, 22);
    }
    Pow2Sum(12, s - 12);
    BuddyLaws.WholeOrder(s - 12);
  }

  lemma SmallPowers()
    ensures Pow2(4) == 16 && Pow2(12) == PAGE_SIZE && Pow2(22) == MIN_RES_MEM_SIZE
  {
    assert Pow2(4) == 16 && Pow2(2) == 4;
    Pow2Sum(4, 4);
    Pow2Sum(8, 4);
    Pow2Sum(8, 12);
    Pow2Sum(20, 2);
  }

  lemma {:induction false} Pow2Sum(a: nat, b: nat)
    ensures Pow2(a + b) == Pow2(a) * Pow2(b)
  {
    if a > 0 {
      Pow2Sum(a - 1, b);
      assert 2 * (Pow2(a - 1) * Pow2(b)) == (2 * Pow2(a - 1)) * Pow2(b);
    }
  }

  /** A request within the slice needs an order at least four below the maximum. */
  lemma SliceBelowMax(resSize: nat, len: nat)
    requires IsPow2(resSize) && resSize >= MIN_RES_MEM_SIZE
    requires len <= SliceSize(resSize)
    ensures OrderOf(len) + 4 <= ResMaxOrder(resSize)
  {
    ResMaxOrderExact(resSize);
    var m, k := ResMaxOrder(resSize), OrderOf(len);
    Pow2Sum(4, m - 4);
    SmallPowers();
    SlicePages(Pow2(m - 4), resSize, len);
    if k > m - 4 {
      Pow2Mono(m - 4, k - 1);
    }
  }

  lemma SlicePages(pages: nat, resSize: nat, len: nat)
    requires resSize == PAGE_SIZE * (16 * pages) && len <= resSize / 16
    ensures PageAlign(len) / PAGE_SIZE <= pages
  {
  }
}

/**
 What a buddy pool of 2^m pages should look like, as a function of the pages in use.

 The free lists of a pool are meant to hold exactly the *maximal* free blocks: blocks
 with no page in use whose enclosing block has one.  Everything here is about that
 set; nothing depends on how an allocator maintains it.
 */
module Tiling {
  import opened Blocks

  /** No page in use lies in the block of order `k` around `h`. */
  ghost predicate Unused(used: set<nat>, h: nat, k: nat) {
    forall p :: p in used ==> !Same(p, h, k)
  }

  ghost predicate Maximal(used: set<nat>, m: nat, h: nat, k: nat) {
    && k <= m
    && h < Pow2(m)
    && Aligned(h, k)
    && Unused(used, h, k)
    && (k == m || !Unused(used, h, k + 1))
  }

  ghost function Block(m: nat, h: nat, k: nat): set<nat> {
    set p: nat | p < Pow2(m) && Same(p, h, k)
  }

  lemma UnusedInside(used: set<nat>, h: nat, i: nat, b: nat, j: nat)
    requires j <= i && Unused(used, h, i) && Same(b, h, i)
    ensures Unused(used, b, j)
  {
    forall p | p in used
      ensures !Same(p, b, j)
    {
      if Same(p, b, j) {
        SameMono(p, b, j, i);
      }
    }
  }

  /** Canonical form: two buddies are never both free. */
  lemma NoFreeBuddies(used: set<nat>, m: nat, h: nat, k: nat)
    requires k < m && Maximal(used, m, h, k)
    ensures !Maximal(used, m, Xor(h, Pow2(k)), k)
  {
    var b := Xor(h, Pow2(k));
    XorIsBuddy(h, k);
    var low := if h < b then h else b;
    Halves(low, k);
    var p :| p in used && Same(p, h, k + 1);
    assert Same(p, low, k + 1);
    assert Same(p, h, k) || Same(p, b, k);
  }

  /** Maximal free blocks that touch are equal. */
  lemma MaximalDisjoint(used: set<nat>, m: nat, h: nat, i: nat, b: nat, j: nat, p: nat)
    requires Maximal(used, m, h, i) && Maximal(used, m, b, j)
    requires Same(p, h, i) && Same(p, b, j)
    ensures h == b && i == j
  {
    if i == j {
      HeadUnique(h, b, i);
    } else if j < i {
      SameMono(p, b, j, i);
      UnusedInside(used, h, i, b, j + 1);
    } else {
      SameMono(p, h, i, j);
      UnusedInside(used, b, j, h, i + 1);
    }
  }

  function HeadOf(p: nat, k: nat): (h: nat)
    ensures Aligned(h, k) && Same(p, h, k) && h <= p
  {
    if k == 0 then p else 2 * HeadOf(p / 2, k - 1)
  }

  /** Every free block of order `k` lies in a maximal one, of order at least `k`. */
  lemma {:induction false} MaximalAround(used: set<nat>, m: nat, p: nat, k: nat) returns (h: nat, i: nat)
    requires k <= m && p < Pow2(m) && Unused(used, p, k)
    ensures k <= i && Maximal(used, m, h, i) && Same(p, h, i)
    decreases m - k
  {
    h, i := HeadOf(p, k), k;
    if k < m && Unused(used, h, k + 1) {
      SameMono(p, h, k, k + 1);
      h, i := MaximalAround(used, m, p, k + 1);
    }
  }

  /** Tiling: a page is unused exactly when some maximal free block holds it, and only one does. */
  lemma MaximalCover(used: set<nat>, m: nat, p: nat)
    requires p < Pow2(m)
    ensures p !in used <==> exists h, k :: Maximal(used, m, h, k) && Same(p, h, k)
  {
    if p !in used {
      assert Unused(used, p, 0);
      var h, k := MaximalAround(used, m, p, 0);
    }
  }

  /** With no page in use the whole pool is the one maximal block. */
  lemma EmptyPool(m: nat, h: nat, k: nat)
    ensures Maximal({}, m, h, k) <==> h == 0 && k == m
  {
    ZeroAligned(m);
    if Maximal({}, m, h, m) {
      OneBlock(h, m);
      OneBlock(0, m);
      HeadUnique(h, 0, m);
    }
  }

  lemma {:induction false} ZeroAligned(k: nat)
    ensures Aligned(0, k)
  {
    if k > 0 {
      ZeroAligned(k - 1);
    }
  }

  /**
   Splitting: once block (h, k) at the bottom of the maximal block (h, i) is taken into
   use, the free blocks are the old ones without (h, i) plus one upper half per order
   from `k` up to `i`.
   */
  lemma SplitMaximal(used: set<nat>, m: nat, h: nat, i: nat, k: nat, b: nat, j: nat)
    requires k <= i && Maximal(used, m, h, i) && j <= m
    ensures Maximal(used + Block(m, h, k), m, b, j)
            <==> (Maximal(used, m, b, j) && !(b == h && j == i)) || (k <= j < i && b == h + Pow2(j))
  {
    var used' := used + Block(m, h, k);
    AlignedDown(h, k, i);
    if k <= j < i && b == h + Pow2(j) {
      UpperHalfMaximal(used, m, h, i, k, j);
    }
    if Maximal(used, m, b, j) && !(b == h && j == i) {
      SplitKeeps(used, m, h, i, k, b, j);
    }
    if Maximal(used', m, b, j) {
      SplitAddsOnly(used, m, h, i, k, b, j);
    }
  }

  lemma UpperHalfMaximal(used: set<nat>, m: nat, h: nat, i: nat, k: nat, j: nat)
    requires k <= j < i && Maximal(used, m, h, i)
    ensures Maximal(used + Block(m, h, k), m, h + Pow2(j), j)
  {
    var used', b := used + Block(m, h, k), h + Pow2(j);
    AlignedDown(h, j + 1, i);
    Halves(h, j);
    BlockFits(h, j + 1, m);
    SameMono(b, h, j + 1, i);
    UnusedInside(used, h, i, b, j);
    forall p | p in used'
      ensures !Same(p, b, j)
    {
      if Same(p, h, k) {
        SameMono(p, h, k, j);
      }
    }
    assert h in used' && Same(h, b, j + 1);
  }

  lemma SplitKeeps(used: set<nat>, m: nat, h: nat, i: nat, k: nat, b: nat, j: nat)
    requires k <= i && Maximal(used, m, h, i)
    requires Maximal(used, m, b, j) && !(b == h && j == i)
    ensures Maximal(used + Block(m, h, k), m, b, j)
  {
    var used' := used + Block(m, h, k);
    forall p | p in used'
      ensures !Same(p, b, j)
    {
      if p !in used && Same(p, b, j) {
        SameMono(p, h, k, i);
        MaximalDisjoint(used, m, h, i, b, j, p);
      }
    }
    if j < m {
      var p :| p in used && Same(p, b, j + 1);
      assert p in used';
    }
  }

  lemma SplitAddsOnly(used: set<nat>, m: nat, h: nat, i: nat, k: nat, b: nat, j: nat)
    requires k <= i && Maximal(used, m, h, i)
    requires Maximal(used + Block(m, h, k), m, b, j)
    ensures (Maximal(used, m, b, j) && !(b == h && j == i)) || (k <= j < i && b == h + Pow2(j))
  {
    var used' := used + Block(m, h, k);
    assert h in used';
    assert Unused(used, b, j);
    if !Maximal(used, m, b, j) {
      // the enclosing block was free, so it lies inside (h, i) and holds (h, k)
      var p :| p in used' && Same(p, b, j + 1);
      assert p !in used && Same(p, h, k);
      var h', i' := MaximalAround(used, m, b, j + 1);
      SameMono(p, h, k, i);
      SameMono(p, b, j + 1, i');
      MaximalDisjoint(used, m, h, i, h', i', p);
      if j < k {
        // (b, j + 1) would lie inside (h, k)
        SameMono(p, b, j + 1, k);
        SameMono(b, h, k, k);
        assert b in used' by { assert Same(b, h, k); }
        assert Same(b, b, j);
        assert false;
      }
      SameMono(p, h, k, j + 1);
      AlignedDown(h, j + 1, i);
      Halves(h, j);
      HeadUniqueUpper(h, j, b);
    }
  }

  lemma HeadUniqueUpper(h: nat, j: nat, b: nat)
    requires Aligned(h, j + 1) && Aligned(b, j) && Same(b, h, j + 1) && !Same(h, b, j)
    ensures b == h + Pow2(j)
  {
    Halves(h, j);
    HeadUnique(b, h + Pow2(j), j);
  }

  /**
   Merging: when the pages of (h, k) leave use and (c, i) around them is the largest free
   block that results, the free blocks are (c, i) plus the old ones outside it.
   */
  lemma MergeMaximal(used: set<nat>, m: nat, h: nat, k: nat, c: nat, i: nat, b: nat, j: nat)
    requires k <= i <= m && Aligned(c, i) && c < Pow2(m) && Same(h, c, i)
    requires Unused(used - Block(m, h, k), c, i)
    requires i == m || !Unused(used - Block(m, h, k), c, i + 1)
    ensures Maximal(used - Block(m, h, k), m, b, j)
            <==> (b == c && j == i) || (Maximal(used, m, b, j) && !Same(b, c, i))
  {
    var used' := used - Block(m, h, k);
    if Same(b, c, i) {
      if Maximal(used', m, b, j) {
        MaximalDisjoint(used', m, c, i, b, j, b);
      }
    } else if j <= m && b < Pow2(m) {
      OutsideUnchanged(used, m, h, k, c, i, b, j);
      if j < m {
        OutsideUnchanged(used, m, h, k, c, i, b, j + 1);
      }
    }
  }

  /** Outside (c, i) a block is free after the merge exactly when it was before. */
  lemma OutsideUnchanged(used: set<nat>, m: nat, h: nat, k: nat, c: nat, i: nat, b: nat, j: nat)
    requires k <= i <= m && j <= m && c < Pow2(m) && Same(h, c, i)
    requires i == m || !Unused(used - Block(m, h, k), c, i + 1)
    requires b < Pow2(m) && !Same(b, c, i)
    ensures Unused(used - Block(m, h, k), b, j) <==> Unused(used, b, j)
  {
    var used' := used - Block(m, h, k);
    if Unused(used', b, j) && !Unused(used, b, j) {
      var p :| p in used && Same(p, b, j);
      assert Same(p, h, k);
      SameMono(p, h, k, i);
      if j <= i {
        SameMono(p, b, j, i);
        assert false;
      }
      SameMono(p, c, i, j);
      var q :| q in used' && Same(q, c, i + 1);
      SameMono(q, c, i + 1, j);
    }
  }
}

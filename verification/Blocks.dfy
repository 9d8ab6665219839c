/**
 The arithmetic of buddy blocks.

 A block of order `k` is a class of pages that agree once their low `k` bits are
 dropped.  The classes of growing order are nested, so "two blocks are nested or
 disjoint" holds by construction and the page arithmetic of the allocators reduces
 to facts about halving.
 */
module Blocks {

  function Pow2(k: nat): (r: nat)
    ensures r >= 1
  {
    if k == 0 then 1 else 2 * Pow2(k - 1)
  }

  /** Page number `p` shifted right by `k` bits. */
  function Shr(p: nat, k: nat): nat {
    if k == 0 then p else Shr(p / 2, k - 1)
  }

  /** Bitwise exclusive or on natural numbers. */
  function Xor(a: nat, b: nat): nat {
    if a == 0 then b
    else if b == 0 then a
    else 2 * Xor(a / 2, b / 2) + (a % 2 + b % 2) % 2
  }

  /** Pages `p` and `r` lie in the same block of order `k`. */
  predicate Same(p: nat, r: nat, k: nat) {
    Shr(p, k) == Shr(r, k)
  }

  /** The low `k` bits of `h` are zero: `h` can head a block of order `k`. */
  predicate Aligned(h: nat, k: nat) {
    k == 0 || (h % 2 == 0 && Aligned(h / 2, k - 1))
  }

  lemma {:induction false} AlignedIsMultiple(h: nat, k: nat)
    ensures Aligned(h, k) <==> h % Pow2(k) == 0
  {
    if k > 0 {
      AlignedIsMultiple(h / 2, k - 1);
      HalveModulo(h, Pow2(k - 1));
    }
  }

  lemma HalveModulo(h: nat, m: nat)
    requires m >= 1
    ensures h % (2 * m) == 0 <==> h % 2 == 0 && (h / 2) % m == 0
  {
    if h % (2 * m) == 0 {
      var q := h / (2 * m);
      assert h == 2 * (m * q);
      assert h / 2 == m * q;
      MultipleModulo(q, m);
    }
    if h % 2 == 0 && (h / 2) % m == 0 {
      var q := (h / 2) / m;
      assert h == (2 * m) * q by { assert h / 2 == m * q; assert h == 2 * (m * q); }
      MultipleModulo(q, 2 * m);
    }
  }

  lemma MultipleModulo(q: nat, m: nat)
    requires m >= 1
    ensures (m * q) % m == 0
  {
    DivisionUnique(m * q, m, q, 0);
  }

  lemma LessMultiple(m: nat, a: nat, b: nat)
    requires a < b
    ensures m * a + m <= m * b
  {
    assert m * (b - a) == m * b - m * a;
    assert b - a >= 1 ==> m * (b - a) >= m;
  }

  lemma DivisionUnique(x: nat, m: nat, q: nat, r: nat)
    requires m >= 1 && r < m && x == m * q + r
    ensures x / m == q && x % m == r
  {
    var q' := x / m;
    if q' < q {
      LessMultiple(m, q', q);
    } else if q' > q {
      LessMultiple(m, q, q');
    }
  }

  /** A block headed by `h` is the interval of 2^k pages that starts at `h`. */
  lemma {:induction false} BlockIsInterval(p: nat, h: nat, k: nat)
    requires Aligned(h, k)
    ensures Same(p, h, k) <==> h <= p < h + Pow2(k)
  {
    if k > 0 {
      BlockIsInterval(p / 2, h / 2, k - 1);
    }
  }

  lemma {:induction false} ShrStep(p: nat, k: nat)
    ensures Shr(p, k + 1) == Shr(p, k) / 2
  {
    if k > 0 {
      ShrStep(p / 2, k - 1);
    }
  }

  lemma {:induction false} SameMono(p: nat, r: nat, j: nat, i: nat)
    requires j <= i && Same(p, r, j)
    ensures Same(p, r, i)
    decreases i
  {
    if j < i {
      SameMono(p, r, j, i - 1);
      ShrStep(p, i - 1);
      ShrStep(r, i - 1);
    }
  }

  lemma {:induction false} HeadUnique(b: nat, h: nat, k: nat)
    requires Aligned(b, k) && Aligned(h, k) && Same(b, h, k)
    ensures b == h
  {
    if k > 0 {
      HeadUnique(b / 2, h / 2, k - 1);
    }
  }

  lemma {:induction false} AlignedDown(h: nat, j: nat, i: nat)
    requires j <= i && Aligned(h, i)
    ensures Aligned(h, j)
  {
    if j > 0 {
      AlignedDown(h / 2, j - 1, i - 1);
    }
  }

  lemma {:induction false} OneBlock(p: nat, m: nat)
    requires p < Pow2(m)
    ensures Shr(p, m) == 0
  {
    if m > 0 {
      OneBlock(p / 2, m - 1);
    }
  }

  lemma {:induction false} Pow2Mono(j: nat, i: nat)
    requires j <= i
    ensures Pow2(j) <= Pow2(i)
    ensures j < i ==> Pow2(j) < Pow2(i)
  {
    if j < i {
      Pow2Mono(j, i - 1);
    }
  }

  lemma {:induction false} BlockFits(h: nat, k: nat, m: nat)
    requires k <= m && h < Pow2(m) && Aligned(h, k)
    ensures h + Pow2(k) <= Pow2(m)
  {
    if k > 0 {
      BlockFits(h / 2, k - 1, m - 1);
    }
  }

  /** The two halves of a block of order `k + 1`. */
  lemma {:induction false} Halves(h: nat, k: nat)
    requires Aligned(h, k + 1)
    ensures Aligned(h, k) && Aligned(h + Pow2(k), k)
    ensures Same(h, h + Pow2(k), k + 1) && !Same(h, h + Pow2(k), k)
    ensures forall p: nat {:trigger Same(p, h, k + 1)} :: Same(p, h, k + 1) <==> Same(p, h, k) || Same(p, h + Pow2(k), k)
  {
    if k > 0 {
      Halves(h / 2, k - 1);
      assert (h + Pow2(k)) / 2 == h / 2 + Pow2(k - 1);
      forall p: nat
        ensures Same(p, h, k + 1) <==> Same(p, h, k) || Same(p, h + Pow2(k), k)
      {
        assert Same(p / 2, h / 2, k) <==> Same(p / 2, h / 2, k - 1) || Same(p / 2, h / 2 + Pow2(k - 1), k - 1);
        assert Same(p, h, k + 1) <==> Same(p / 2, h / 2, k);
      }
    } else {
      forall p: nat
        ensures Same(p, h, 1) <==> p == h || p == h + 1
      {
        assert Shr(p, 1) == p / 2 by { assert Shr(p, 1) == Shr(p / 2, 0); }
        assert Shr(h, 1) == h / 2 by { assert Shr(h, 1) == Shr(h / 2, 0); }
      }
    }
  }

  /**
   The buddy of an aligned block, computed by the exclusive or of its head with 2^k,
   is the other half of the enclosing block, whose head is the smaller of the two.
   */
  lemma {:induction false} XorIsBuddy(h: nat, k: nat)
    requires Aligned(h, k)
    ensures var b := Xor(h, Pow2(k));
            && Aligned(b, k) && b != h && Same(b, h, k + 1) && !Same(b, h, k)
            && b == (if Aligned(h, k + 1) then h + Pow2(k) else h - Pow2(k))
            && (Aligned(h, k + 1) <==> h < b)
            && (!Aligned(h, k + 1) ==> Aligned(b, k + 1))
  {
    XorValue(h, k);
    if Aligned(h, k + 1) {
      Halves(h, k);
    } else {
      AlignOneMore(h, k);
      Halves(h - Pow2(k), k);
    }
  }

  lemma {:induction false} AlignOneMore(h: nat, k: nat)
    requires Aligned(h, k) && !Aligned(h, k + 1)
    ensures h >= Pow2(k) && Aligned(h - Pow2(k), k + 1)
  {
    if k > 0 {
      AlignOneMore(h / 2, k - 1);
      assert (h - Pow2(k)) / 2 == h / 2 - Pow2(k - 1);
    }
  }

  lemma {:induction false} XorValue(h: nat, k: nat)
    requires Aligned(h, k)
    ensures !Aligned(h, k + 1) ==> h >= Pow2(k)
    ensures Xor(h, Pow2(k)) == if Aligned(h, k + 1) then h + Pow2(k) else h - Pow2(k)
  {
    if !Aligned(h, k + 1) {
      AlignOneMore(h, k);
    }
    if h == 0 {
    } else if k == 0 {
      assert Xor(h / 2, 0) == h / 2;
    } else {
      XorValue(h / 2, k - 1);
      assert Pow2(k) / 2 == Pow2(k - 1) && Pow2(k) % 2 == 0;
    }
  }
}

/**
 The state of a buddy zone (page tags and free lists) and what it must agree on.

 `live` maps the head page of every block handed out and not yet given back to its
 order.  It determines everything else: which pages are in use, which blocks are free
 and what the tags say.  The only freedom left is the `count` of a free block that
 spans the whole pool, which the allocators do not reset when that block comes back.
 */
module ZoneSpec {
  import opened Folding
  import opened Blocks
  import opened Tiling

  datatype Tag = Tag(order: int, count: nat)

  type LiveMap = map<nat, nat>

  /** Blocks handed out are aligned, inside the pool and pairwise disjoint. */
  ghost predicate LiveOk(m: nat, live: LiveMap) {
    && (forall h :: h in live ==> live[h] <= m && h < Pow2(m) && Aligned(h, live[h]))
    && (forall g, h :: g in live && h in live && g != h ==> !Same(g, h, live[g]))
  }

  ghost function Used(m: nat, live: LiveMap): set<nat> {
    set p: nat | p < Pow2(m) && InLive(live, p)
  }

  ghost predicate InLive(live: LiveMap, p: nat) {
    exists h :: h in live && Same(p, h, live[h])
  }

  ghost predicate NoDup(s: seq<nat>) {
    forall i, j :: 0 <= i < j < |s| ==> s[i] != s[j]
  }

  /** Each free list holds, once each, the maximal free blocks of its order. */
  ghost predicate ListsOk(m: nat, areas: seq<seq<nat>>, used: set<nat>) {
    && |areas| == m + 1
    && (forall k :: 0 <= k <= m ==> NoDup(areas[k]))
    && (forall k: nat, h: nat :: k <= m ==> (h in areas[k] <==> Maximal(used, m, h, k)))
  }

  ghost predicate TagOk(m: nat, tag: Tag, live: LiveMap, used: set<nat>, p: nat) {
    && (p in live ==> tag == Tag(live[p], 1))
    && (forall k: nat :: Maximal(used, m, p, k) ==> tag.order == k && (k < m ==> tag.count == 0))
    && (p in live || (tag.order >= 0 && Maximal(used, m, p, tag.order)) || tag == Tag(-1, 0))
  }

  ghost predicate TagsOk(m: nat, tags: seq<Tag>, live: LiveMap, used: set<nat>) {
    && |tags| == Pow2(m)
    && forall p: nat :: p < Pow2(m) ==> TagOk(m, tags[p], live, used, p)
  }

  ghost predicate ZoneOk(m: nat, tags: seq<Tag>, areas: seq<seq<nat>>, live: LiveMap) {
    && LiveOk(m, live)
    && ListsOk(m, areas, Used(m, live))
    && TagsOk(m, tags, live, Used(m, live))
  }

  /** A run of 2^k pages starting at a multiple of 2^k, none of them handed out. */
  ghost predicate FreeRun(m: nat, live: LiveMap, h: nat, k: nat) {
    && h % Pow2(k) == 0
    && h + Pow2(k) <= Pow2(m)
    && forall p: nat :: h <= p < h + Pow2(k) ==> !Taken(live, p)
  }

  /** Page `p` belongs to a block handed out. */
  ghost predicate Taken(live: LiveMap, p: nat) {
    exists h :: h in live && h <= p < h + Pow2(live[h])
  }

  lemma TakenIsUsed(m: nat, live: LiveMap, p: nat)
    requires LiveOk(m, live)
    ensures Taken(live, p) <==> p in Used(m, live)
  {
    if Taken(live, p) {
      var h :| h in live && h <= p < h + Pow2(live[h]);
      BlockIsInterval(p, h, live[h]);
      BlockFits(h, live[h], m);
    }
    if p in Used(m, live) {
      var h :| h in live && Same(p, h, live[h]);
      BlockIsInterval(p, h, live[h]);
    }
  }

  lemma FreeRunIsUnused(m: nat, live: LiveMap, h: nat, k: nat)
    requires LiveOk(m, live) && k <= m
    ensures FreeRun(m, live, h, k) <==> h < Pow2(m) && Aligned(h, k) && Unused(Used(m, live), h, k)
  {
    AlignedIsMultiple(h, k);
    if Aligned(h, k) {
      if h < Pow2(m) {
        BlockFits(h, k, m);
      }
      forall p: nat
        ensures (h <= p < h + Pow2(k) ==> !Taken(live, p)) <==> (p in Used(m, live) ==> !Same(p, h, k))
      {
        TakenIsUsed(m, live, p);
        BlockIsInterval(p, h, k);
      }
    }
  }

  lemma InLiveOne(live: LiveMap, h: nat)
    requires h in live
    ensures InLive(live, h)
  {
    assert Same(h, h, live[h]);
  }

  lemma UsedAfterAlloc(m: nat, live: LiveMap, h: nat, k: nat)
    requires h !in live
    ensures Used(m, live[h := k]) == Used(m, live) + Block(m, h, k)
  {
    var live' := live[h := k];
    forall p: nat
      ensures InLive(live', p) <==> InLive(live, p) || Same(p, h, k)
    {
      if InLive(live', p) {
        var g :| g in live' && Same(p, g, live'[g]);
      }
      if InLive(live, p) {
        var g :| g in live && Same(p, g, live[g]);
        assert g in live' && live'[g] == live[g];
      }
      if Same(p, h, k) {
        assert h in live' && live'[h] == k;
      }
    }
  }

  lemma UsedAfterFree(m: nat, live: LiveMap, h: nat)
    requires LiveOk(m, live) && h in live
    ensures Used(m, live - {h}) == Used(m, live) - Block(m, h, live[h])
  {
    var live' := live - {h};
    forall p: nat
      ensures InLive(live', p) <==> InLive(live, p) && !Same(p, h, live[h])
    {
      if InLive(live', p) {
        var g :| g in live' && Same(p, g, live'[g]);
        assert g in live && live[g] == live'[g];
        if Same(p, h, live[h]) {
          LiveDisjoint(m, live, g, h, p);
        }
      }
      if InLive(live, p) && !Same(p, h, live[h]) {
        var g :| g in live && Same(p, g, live[g]);
        assert g in live' && live'[g] == live[g];
      }
    }
  }

  lemma LiveDisjoint(m: nat, live: LiveMap, g: nat, h: nat, p: nat)
    requires LiveOk(m, live) && g in live && h in live
    requires Same(p, g, live[g]) && Same(p, h, live[h])
    ensures g == h
  {
    if live[g] <= live[h] {
      SameMono(p, g, live[g], live[h]);
      assert Same(h, g, live[h]);
    } else {
      SameMono(p, h, live[h], live[g]);
      assert Same(g, h, live[g]);
    }
  }

  /** Head of the upper half of order `q` next to a block headed by `h`. */
  function Upper(h: nat, q: nat): nat {
    h + Pow2(q)
  }

  /** The zone while the bottom (h, k) of the free block (h, i) is being carved out, up to order `j`. */
  ghost predicate Splitting(tags0: seq<Tag>, areas0: seq<seq<nat>>, h: nat, i: nat, k: nat, j: nat,
                            tags: seq<Tag>, areas: seq<seq<nat>>)
  {
    && |tags| == |tags0| && |areas| == |areas0|
    && k <= j <= i < |areas0|
    && h < |tags0|
    && tags[h] == Tag(k, 1)
    && (forall q: nat :: k <= q < j ==> Upper(h, q) < |tags0| && tags[Upper(h, q)] == Tag(q, 0))
    && (forall p :: 0 <= p < |tags0| && p != h && !SplitHead(h, k, j, p) ==> tags[p] == tags0[p])
    && (forall q :: 0 <= q < |areas0| ==> areas[q] == if k <= q < j then areas0[q] + [Upper(h, q)] else areas0[q])
  }

  ghost predicate SplitHead(h: nat, k: nat, j: nat, p: nat) {
    exists q: nat :: k <= q < j && p == Upper(h, q)
  }

  lemma UpperDistinct(h: nat, q: nat, j: nat)
    requires q < j
    ensures Upper(h, q) < Upper(h, j) && Upper(h, q) > h
  {
    Pow2Mono(q, j);
  }

  lemma SplitStep(tags0: seq<Tag>, areas0: seq<seq<nat>>, h: nat, i: nat, k: nat, j: nat,
                  tags: seq<Tag>, areas: seq<seq<nat>>)
    requires Splitting(tags0, areas0, h, i, k, j, tags, areas)
    requires j < i && Upper(h, j) < |tags0|
    ensures Splitting(tags0, areas0, h, i, k, j + 1,
                      tags[Upper(h, j) := Tag(j, 0)], areas[j := areas[j] + [Upper(h, j)]])
  {
    var u := Upper(h, j);
    var tags' := tags[u := Tag(j, 0)];
    forall q: nat | k <= q < j + 1
      ensures Upper(h, q) < |tags0| && tags'[Upper(h, q)] == Tag(q, 0)
    {
      if q < j {
        UpperDistinct(h, q, j);
      }
    }
    forall p | 0 <= p < |tags0| && p != h && !SplitHead(h, k, j + 1, p)
      ensures tags'[p] == tags0[p]
    {
      assert p != u;
      assert !SplitHead(h, k, j, p);
    }
    assert u != h;
  }

  lemma SplitDone(m: nat, tags0: seq<Tag>, areas0: seq<seq<nat>>, live: LiveMap, h: nat, i: nat, k: nat,
                  tags: seq<Tag>, areas: seq<seq<nat>>)
    requires ZoneOk(m, tags0, areas0, live)
    requires i <= m && areas0[i] != [] && areas0[i][0] == h
    requires Splitting(tags0, areas0, h, i, k, i, tags, areas)
    ensures h !in live
    ensures ZoneOk(m, tags, areas[i := areas[i][1..]], live[h := k])
  {
    var used := Used(m, live);
    var used' := used + Block(m, h, k);
    assert h in areas0[i];
    assert Maximal(used, m, h, i);
    assert h !in used && h !in live by {
      assert Same(h, h, i);
      if h in live { InLiveOne(live, h); }
    }
    UsedAfterAlloc(m, live, h, k);
    AlignedDown(h, k, i);
    SplitLive(m, live, h, i, k);
    SplitLists(m, areas0, used, h, i, k, areas[i := areas[i][1..]]);
    SplitTags(m, tags0, areas0, live, h, i, k, tags, areas);
  }

  lemma SplitTags(m: nat, tags0: seq<Tag>, areas0: seq<seq<nat>>, live: LiveMap, h: nat, i: nat, k: nat,
                  tags: seq<Tag>, areas: seq<seq<nat>>)
    requires LiveOk(m, live) && TagsOk(m, tags0, live, Used(m, live))
    requires Maximal(Used(m, live), m, h, i)
    requires Splitting(tags0, areas0, h, i, k, i, tags, areas)
    ensures TagsOk(m, tags, live[h := k], Used(m, live) + Block(m, h, k))
  {
    forall p: nat | p < Pow2(m)
      ensures TagOk(m, tags[p], live[h := k], Used(m, live) + Block(m, h, k), p)
    {
      if p == h {
        SplitTagHead(m, live, h, i, k);
      } else if SplitHead(h, k, i, p) {
        var q: nat :| k <= q < i && p == Upper(h, q);
        SplitTagUpper(m, live, h, i, k, q);
      } else {
        SplitTagOther(m, tags[p], live, h, i, k, p);
      }
    }
  }

  lemma SplitLive(m: nat, live: LiveMap, h: nat, i: nat, k: nat)
    requires LiveOk(m, live) && h !in live && k <= i <= m
    requires Maximal(Used(m, live), m, h, i)
    ensures LiveOk(m, live[h := k])
  {
    AlignedDown(h, k, i);
    forall g | g in live
      ensures !Same(g, h, live[g]) && !Same(h, g, k)
    {
      InLiveOne(live, g);
      assert g in Used(m, live);
      if Same(h, g, live[g]) {
        assert InLive(live, h);
        assert h in Used(m, live) && Same(h, h, i);
      }
      if Same(g, h, k) {
        SameMono(g, h, k, i);
      }
    }
  }

  lemma SplitLists(m: nat, areas0: seq<seq<nat>>, used: set<nat>, h: nat, i: nat, k: nat, areas: seq<seq<nat>>)
    requires ListsOk(m, areas0, used) && k <= i <= m
    requires areas0[i] != [] && areas0[i][0] == h
    requires |areas| == m + 1
    requires forall q :: 0 <= q <= m ==> areas[q] == if k <= q < i then areas0[q] + [Upper(h, q)]
                                                     else if q == i then areas0[q][1..] else areas0[q]
    ensures ListsOk(m, areas, used + Block(m, h, k))
  {
    assert h in areas0[i];
    forall q | 0 <= q <= m
      ensures NoDup(areas[q])
    {
      if k <= q < i {
        if Upper(h, q) in areas0[q] {
          UpperNotMaximal(used, m, h, i, q);
        }
      }
    }
    forall q: nat, b: nat | q <= m
      ensures b in areas[q] <==> Maximal(used + Block(m, h, k), m, b, q)
    {
      SplitMaximal(used, m, h, i, k, b, q);
      if q == i {
        assert areas0[i] == [h] + areas[i];
      }
    }
  }

  lemma UpperNotMaximal(used: set<nat>, m: nat, h: nat, i: nat, q: nat)
    requires q < i && Maximal(used, m, h, i)
    ensures !Maximal(used, m, h + Pow2(q), q)
  {
    var b := h + Pow2(q);
    AlignedDown(h, q + 1, i);
    Halves(h, q);
    SameMono(b, h, q + 1, i);
    UnusedInside(used, h, i, b, q + 1);
  }

  lemma SplitTagHead(m: nat, live: LiveMap, h: nat, i: nat, k: nat)
    requires Maximal(Used(m, live), m, h, i) && k <= i
    ensures TagOk(m, Tag(k, 1), live[h := k], Used(m, live) + Block(m, h, k), h)
  {
    var used' := Used(m, live) + Block(m, h, k);
    forall q: nat
      ensures !Maximal(used', m, h, q)
    {
      assert h in used' && Same(h, h, q);
    }
  }

  lemma SplitTagUpper(m: nat, live: LiveMap, h: nat, i: nat, k: nat, q: nat)
    requires LiveOk(m, live) && Maximal(Used(m, live), m, h, i) && k <= q < i
    ensures TagOk(m, Tag(q, 0), live[h := k], Used(m, live) + Block(m, h, k), Upper(h, q))
  {
    var used, b := Used(m, live), Upper(h, q);
    var used' := used + Block(m, h, k);
    UpperHalfMaximal(used, m, h, i, k, q);
    assert b !in used by { assert Same(b, b, q); }
    if b in live {
      InLiveOne(live, b);
    }
    forall r: nat | Maximal(used', m, b, r)
      ensures r == q
    {
      MaximalDisjoint(used', m, b, q, b, r, b);
    }
  }

  lemma SplitTagOther(m: nat, tag: Tag, live: LiveMap, h: nat, i: nat, k: nat, p: nat)
    requires Maximal(Used(m, live), m, h, i) && k <= i
    requires p != h && !SplitHead(h, k, i, p)
    requires TagOk(m, tag, live, Used(m, live), p)
    ensures TagOk(m, tag, live[h := k], Used(m, live) + Block(m, h, k), p)
  {
    forall q: nat | q <= m
      ensures Maximal(Used(m, live) + Block(m, h, k), m, p, q) <==> Maximal(Used(m, live), m, p, q)
    {
      SplitMaximal(Used(m, live), m, h, i, k, p, q);
      assert k <= q < i ==> p != Upper(h, q);
    }
  }

  /**
   The zone while the block (h, live[h]) is coming back and has already grown to (c, i):
   nothing inside (c, i) is listed, and only `c` carries a tag there.
   */
  ghost predicate Merging(m: nat, tags: seq<Tag>, areas: seq<seq<nat>>, live: LiveMap, h: nat, c: nat, i: nat) {
    && LiveOk(m, live) && h in live
    && live[h] <= i <= m && c < Pow2(m) && Aligned(c, i) && Same(h, c, i)
    && Unused(Used(m, live) - Block(m, h, live[h]), c, i)
    && |areas| == m + 1 && |tags| == Pow2(m)
    && (forall k :: 0 <= k <= m ==> NoDup(areas[k]))
    && (forall k: nat, b: nat :: k <= m ==> (b in areas[k] <==> Maximal(Used(m, live), m, b, k) && !Same(b, c, i)))
    && (forall p: nat :: p < Pow2(m) ==> MergeTag(m, tags[p], live, c, i, p))
  }

  ghost predicate MergeTag(m: nat, tag: Tag, live: LiveMap, c: nat, i: nat, p: nat) {
    if p == c then tag.order == i
    else if Same(p, c, i) then tag == Tag(-1, 0)
    else TagOk(m, tag, live, Used(m, live), p)
  }

  ghost function MergeHealth(m: nat, tags: seq<Tag>, areas: seq<seq<nat>>, live: LiveMap, h: nat, c: nat, i: nat): Health {
    if forall k :: Unfold(k) ==> Merging(m, tags, areas, live, h, c, i) then Sound else Broken
  }

  /** `Merging`, folded. */
  ghost predicate Returning(m: nat, tags: seq<Tag>, areas: seq<seq<nat>>, live: LiveMap, h: nat, c: nat, i: nat) {
    MergeHealth(m, tags, areas, live, h, c, i) == Sound
  }

  lemma ReturningFacts(m: nat, tags: seq<Tag>, areas: seq<seq<nat>>, live: LiveMap, h: nat, c: nat, i: nat)
    requires Returning(m, tags, areas, live, h, c, i)
    ensures Merging(m, tags, areas, live, h, c, i)
  {
    assert Unfold(0);
  }

  lemma MergeStart(m: nat, tags: seq<Tag>, areas: seq<seq<nat>>, live: LiveMap, h: nat)
    requires ZoneOk(m, tags, areas, live) && h in live
    ensures Merging(m, tags, areas, live, h, h, live[h])
  {
    var used, k := Used(m, live), live[h];
    forall b: nat | Same(b, h, k)
      ensures InLive(live, b)
    {
    }
    forall b: nat, j: nat | Maximal(used, m, b, j)
      ensures !Same(b, h, k)
    {
      assert Same(b, b, j);
      assert b !in used;
    }
    forall p | p in used - Block(m, h, k)
      ensures !Same(p, h, k)
    {
    }
    forall p: nat | p < Pow2(m)
      ensures MergeTag(m, tags[p], live, h, k, p)
    {
      assert TagOk(m, tags[p], live, used, p);
      if p != h && Same(p, h, k) && p in live {
        assert Same(p, p, live[p]);
        LiveDisjoint(m, live, p, h, p);
      }
    }
  }

  /** The buddy's tag tells whether the buddy block is listed. */
  lemma BuddyTest(m: nat, tags: seq<Tag>, areas: seq<seq<nat>>, live: LiveMap, h: nat, c: nat, i: nat)
    requires Merging(m, tags, areas, live, h, c, i) && i < m
    ensures Xor(c, Pow2(i)) < Pow2(m)
    ensures tags[Xor(c, Pow2(i))] == Tag(i, 0) <==> Xor(c, Pow2(i)) in areas[i]
  {
    var b := Xor(c, Pow2(i));
    XorIsBuddy(c, i);
    BuddyInPool(m, c, i);
    assert MergeTag(m, tags[b], live, c, i, b);
    assert !Same(b, c, i);
    assert TagOk(m, tags[b], live, Used(m, live), b);
  }

  lemma BuddyInPool(m: nat, c: nat, i: nat)
    requires i < m && c < Pow2(m) && Aligned(c, i)
    ensures Xor(c, Pow2(i)) < Pow2(m)
  {
    XorIsBuddy(c, i);
    if Aligned(c, i + 1) {
      BlockFits(c, i + 1, m);
    }
  }

  /** A list without its entry `x`. */
  function Remove(s: seq<nat>, x: nat): seq<nat> {
    if s == [] then [] else if s[0] == x then s[1..] else [s[0]] + Remove(s[1..], x)
  }

  lemma {:induction false} RemoveOk(s: seq<nat>, x: nat)
    requires NoDup(s)
    ensures NoDup(Remove(s, x))
    ensures forall y :: y in Remove(s, x) <==> y in s && y != x
  {
    if s != [] {
      assert s == [s[0]] + s[1..];
      assert NoDup(s[1..]);
      assert s[0] !in s[1..];
      RemoveOk(s[1..], x);
    }
  }

  /** The returning block and its listed buddy become one block of the next order. */
  lemma MergeStep(m: nat, tags: seq<Tag>, areas: seq<seq<nat>>, live: LiveMap, h: nat, c: nat, i: nat, b: nat,
                  low: nat, high: nat)
    requires Merging(m, tags, areas, live, h, c, i) && i < m
    requires b == Xor(c, Pow2(i)) && b in areas[i]
    requires low == (if c < b then c else b) && high == (if c < b then b else c)
    ensures b < Pow2(m)
    ensures Merging(m, tags[low := Tag(i + 1, 0)][high := Tag(-1, 0)], areas[i := Remove(areas[i], b)],
                    live, h, low, i + 1)
  {
    BuddyInPool(m, c, i);
    var used := Used(m, live);
    var used' := used - Block(m, h, live[h]);
    var tags' := tags[low := Tag(i + 1, 0)][high := Tag(-1, 0)];
    var areas' := areas[i := Remove(areas[i], b)];
    XorIsBuddy(c, i);
    Halves(low, i);
    SameMono(h, c, i, i + 1);
    RemoveOk(areas[i], b);
    assert Maximal(used, m, b, i);
    forall p | p in used'
      ensures !Same(p, low, i + 1)
    {
      assert !Same(p, c, i) && !Same(p, b, i);
    }
    forall k: nat, d: nat | k <= m
      ensures d in areas'[k] <==> Maximal(used, m, d, k) && !Same(d, low, i + 1)
    {
      if Maximal(used, m, d, k) && Same(d, b, i) {
        MaximalDisjoint(used, m, b, i, d, k, d);
      }
    }
    forall p: nat | p < Pow2(m)
      ensures MergeTag(m, tags'[p], live, low, i + 1, p)
    {
      assert MergeTag(m, tags[p], live, c, i, p);
      if p != b && p != c && Same(p, b, i) {
        UntaggedInside(m, tags[p], live, b, i, p);
      }
    }
  }

  lemma UntaggedInside(m: nat, tag: Tag, live: LiveMap, b: nat, i: nat, p: nat)
    requires LiveOk(m, live) && Maximal(Used(m, live), m, b, i)
    requires p != b && Same(p, b, i) && TagOk(m, tag, live, Used(m, live), p)
    ensures tag == Tag(-1, 0)
  {
    assert p !in Used(m, live);
    if p in live {
      InLiveOne(live, p);
    }
    if tag.order >= 0 && Maximal(Used(m, live), m, p, tag.order) {
      MaximalDisjoint(Used(m, live), m, b, i, p, tag.order, p);
    }
  }

  /** If the buddy is not listed, the enclosing block has a page in use. */
  lemma BuddyBusy(m: nat, tags: seq<Tag>, areas: seq<seq<nat>>, live: LiveMap, h: nat, c: nat, i: nat)
    requires Merging(m, tags, areas, live, h, c, i)
    requires i < m && Xor(c, Pow2(i)) !in areas[i]
    ensures !Unused(Used(m, live) - Block(m, h, live[h]), c, i + 1)
  {
    var used, b := Used(m, live), Xor(c, Pow2(i));
    var used' := used - Block(m, h, live[h]);
    XorIsBuddy(c, i);
    BuddyInPool(m, c, i);
    InLiveOne(live, h);
    SameMono(h, c, i, i + 1);
    assert h in used && Same(h, b, i + 1);
    assert !Unused(used, b, i);
    var p :| p in used && Same(p, b, i);
    SameMono(p, b, i, i + 1);
    if Same(p, h, live[h]) {
      SameMono(p, h, live[h], i);
    }
    assert p in used' && Same(p, c, i + 1);
  }

  lemma MergeDone(m: nat, tags: seq<Tag>, areas: seq<seq<nat>>, live: LiveMap, h: nat, c: nat, i: nat, tag: Tag)
    requires Merging(m, tags, areas, live, h, c, i)
    requires i == m || Xor(c, Pow2(i)) !in areas[i]
    requires tag.order == i && (i < m ==> tag.count == 0)
    ensures ZoneOk(m, tags[c := tag], areas[i := areas[i] + [c]], live - {h})
  {
    var used := Used(m, live);
    var used' := used - Block(m, h, live[h]);
    if i < m {
      BuddyBusy(m, tags, areas, live, h, c, i);
    }
    UsedAfterFree(m, live, h);
    forall k: nat, b: nat | k <= m
      ensures Maximal(used', m, b, k) <==> (b == c && k == i) || (Maximal(used, m, b, k) && !Same(b, c, i))
    {
      MergeMaximal(used, m, h, live[h], c, i, b, k);
    }
    assert Same(c, c, i);
    MergeDoneTags(m, tags, areas, live, h, c, i, tag);
  }

  lemma MergeDoneTags(m: nat, tags: seq<Tag>, areas: seq<seq<nat>>, live: LiveMap, h: nat, c: nat, i: nat, tag: Tag)
    requires Merging(m, tags, areas, live, h, c, i)
    requires tag.order == i && (i < m ==> tag.count == 0)
    requires forall k: nat, b: nat :: k <= m ==>
      (Maximal(Used(m, live - {h}), m, b, k)
       <==> (b == c && k == i) || (Maximal(Used(m, live), m, b, k) && !Same(b, c, i)))
    ensures TagsOk(m, tags[c := tag], live - {h}, Used(m, live - {h}))
  {
    var live', tags' := live - {h}, tags[c := tag];
    UsedAfterFree(m, live, h);
    forall p: nat | p < Pow2(m)
      ensures TagOk(m, tags'[p], live', Used(m, live'), p)
    {
      assert MergeTag(m, tags[p], live, c, i, p);
      if p in live' {
        InLiveOne(live', p);
        assert p in Used(m, live');
      }
    }
  }

  /** `h` heads a free block, and no smaller free block could hold 2^k pages. */
  ghost predicate BestFit(m: nat, live: LiveMap, h: nat, k: nat) {
    exists i: nat :: k <= i && Maximal(Used(m, live), m, h, i)
      && forall b: nat, j: nat :: k <= j < i ==> !Maximal(Used(m, live), m, b, j)
  }

  lemma NoListNoRun(m: nat, tags: seq<Tag>, areas: seq<seq<nat>>, live: LiveMap, k: nat)
    requires ZoneOk(m, tags, areas, live) && k <= m
    requires forall j :: k <= j <= m ==> areas[j] == []
    ensures forall h: nat :: !FreeRun(m, live, h, k)
  {
    forall h: nat
      ensures !FreeRun(m, live, h, k)
    {
      FreeRunIsUnused(m, live, h, k);
      if Unused(Used(m, live), h, k) && h < Pow2(m) {
        var b, j := MaximalAround(Used(m, live), m, h, k);
      }
    }
  }

  lemma AllocSite(m: nat, tags: seq<Tag>, areas: seq<seq<nat>>, live: LiveMap, k: nat, i: nat)
    requires ZoneOk(m, tags, areas, live) && k <= i <= m
    requires forall j :: k <= j < i ==> areas[j] == []
    requires areas[i] != []
    ensures var h := areas[i][0];
            && FreeRun(m, live, h, k) && BestFit(m, live, h, k)
            && h < |tags| && Splitting(tags, areas, h, i, k, k, tags[h := Tag(k, 1)], areas)
            && (0 in live || tags[0].count == 0 || h == 0)
            && forall q: nat :: k <= q < i ==> Upper(h, q) < |tags|
  {
    var h, used := areas[i][0], Used(m, live);
    assert h in areas[i];
    AlignedDown(h, k, i);
    assert Same(h, h, i);
    UnusedInside(used, h, i, h, k);
    FreeRunIsUnused(m, live, h, k);
    forall q: nat | k <= q < i
      ensures Upper(h, q) < |tags|
    {
      AlignedDown(h, q + 1, i);
      BlockFits(h, q + 1, m);
    }
    forall b: nat, j: nat | k <= j < i
      ensures !Maximal(used, m, b, j)
    {
      assert b !in areas[j];
    }
    if 0 !in live && tags[0].count != 0 {
      StaleIsWhole(m, tags, areas, live);
      OneBlock(h, m);
      OneBlock(0, m);
      MaximalDisjoint(used, m, 0, m, h, i, h);
    }
  }

  lemma StaleIsWhole(m: nat, tags: seq<Tag>, areas: seq<seq<nat>>, live: LiveMap)
    requires ZoneOk(m, tags, areas, live)
    requires 0 !in live && tags[0].count != 0
    ensures Maximal(Used(m, live), m, 0, m) && live == map[]
  {
    assert TagOk(m, tags[0], live, Used(m, live), 0);
    assert tags[0].order == m;
    forall h | h in live
      ensures false
    {
      InLiveOne(live, h);
      assert h in Used(m, live);
      OneBlock(h, m);
      OneBlock(0, m);
      assert Same(h, 0, m);
    }
  }

  lemma InitialZone(m: nat, tags: seq<Tag>, areas: seq<seq<nat>>)
    requires |tags| == Pow2(m) && |areas| == m + 1
    requires tags[0].order == m && tags[0].count == 0
    requires forall p :: 0 < p < |tags| ==> tags[p] == Tag(-1, 0)
    requires areas[m] == [0] && forall k :: 0 <= k < m ==> areas[k] == []
    ensures ZoneOk(m, tags, areas, map[])
  {
    assert Used(m, map[]) == {};
    forall h: nat, k: nat
      ensures Maximal({}, m, h, k) <==> h == 0 && k == m
    {
      EmptyPool(m, h, k);
    }
  }

  /** At the top order the returning block is the whole pool, headed by page 0. */
  lemma MergeTop(m: nat, tags: seq<Tag>, areas: seq<seq<nat>>, live: LiveMap, h: nat, c: nat)
    requires Returning(m, tags, areas, live, h, c, m)
    ensures c == 0
  {
    ReturningFacts(m, tags, areas, live, h, c, m);
    OneBlock(c, m);
    OneBlock(0, m);
    ZeroAligned(m);
    HeadUnique(c, 0, m);
  }

  /** A nonzero count marks the head of a block handed out, or the whole pool with a stale tag. */
  lemma TagMeaning(m: nat, tags: seq<Tag>, areas: seq<seq<nat>>, live: LiveMap, p: nat)
    requires ZoneOk(m, tags, areas, live) && p < |tags|
    ensures p in live ==> tags[p] == Tag(live[p], 1)
    ensures tags[p].count != 0 && p !in live ==> p == 0 && areas[m] == [0] && live == map[] && tags[0].order == m
  {
    assert TagOk(m, tags[p], live, Used(m, live), p);
    if tags[p].count != 0 && p !in live {
      assert Maximal(Used(m, live), m, p, m);
      OneBlock(p, m);
      OneBlock(0, m);
      ZeroAligned(m);
      HeadUnique(p, 0, m);
      StaleIsWhole(m, tags, areas, live);
      WholeList(m, areas[m]);
    }
  }

  lemma WholeList(m: nat, s: seq<nat>)
    requires NoDup(s) && forall h :: h in s <==> Maximal({}, m, h, m)
    ensures s == [0]
  {
    forall h: nat
      ensures h in s <==> h == 0
    {
      EmptyPool(m, h, m);
    }
    assert 0 in s;
    assert s[0] in s && s[|s| - 1] in s;
  }

  lemma TwiceListed(m: nat, tags: seq<Tag>, areas: seq<seq<nat>>, live: LiveMap)
    requires |areas| == m + 1 && areas[m] == [0] + [0]
    ensures !ZoneOk(m, tags, areas, live)
  {
    var s := areas[m];
    assert s[0] == s[1];
    assert !NoDup(s);
  }
}

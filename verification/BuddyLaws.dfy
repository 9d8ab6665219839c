/**
 What the buddy allocators guarantee over whole runs, in terms of page intervals,
 free lists and blocks handed out.
 */
module BuddyLaws {
  import opened Options
  import opened Folding
  import opened Blocks
  import opened Tiling
  import opened ZoneSpec
  import opened BuddyZone

  /** A block of the pool: handed out, or in the free list of its order. */
  ghost predicate Tile(m: nat, areas: seq<seq<nat>>, live: LiveMap, h: nat, k: nat)
    requires |areas| == m + 1
  {
    k <= m && ((h in live && live[h] == k) || h in areas[k])
  }

  /** Every page lies in a block, which starts at a multiple of its size and stays inside the pool. */
  lemma TilesCover(m: nat, tags: seq<Tag>, areas: seq<seq<nat>>, live: LiveMap, p: nat) returns (h: nat, k: nat)
    requires ZoneOk(m, tags, areas, live) && p < Pow2(m)
    ensures Tile(m, areas, live, h, k) && h <= p < h + Pow2(k) <= Pow2(m) && h % Pow2(k) == 0
  {
    if p in Used(m, live) {
      h :| h in live && Same(p, h, live[h]);
      k := live[h];
    } else {
      assert Unused(Used(m, live), p, 0);
      h, k := MaximalAround(Used(m, live), m, p, 0);
      assert h in areas[k];
    }
    BlockIsInterval(p, h, k);
    BlockFits(h, k, m);
    AlignedIsMultiple(h, k);
  }

  /** No page lies in two blocks, and no block is both handed out and free or in two lists. */
  lemma TilesDisjoint(m: nat, tags: seq<Tag>, areas: seq<seq<nat>>, live: LiveMap, p: nat,
                      h: nat, k: nat, g: nat, j: nat)
    requires ZoneOk(m, tags, areas, live) && p < Pow2(m)
    requires Tile(m, areas, live, h, k) && h <= p < h + Pow2(k)
    requires Tile(m, areas, live, g, j) && g <= p < g + Pow2(j)
    ensures h == g && k == j && (h in live <==> h !in areas[k])
  {
    var used := Used(m, live);
    BlockIsInterval(p, h, k);
    BlockIsInterval(p, g, j);
    assert h in live && live[h] == k ==> p in used;
    assert g in live && live[g] == j ==> p in used;
    assert h in areas[k] ==> Maximal(used, m, h, k);
    assert g in areas[j] ==> Maximal(used, m, g, j);
    if p in used {
      LiveDisjoint(m, live, h, g, p);
    } else {
      MaximalDisjoint(used, m, h, k, g, j, p);
      if h in live {
        InLiveOne(live, h);
        assert h in used && Same(h, h, k);
      }
    }
  }

  /** Two buddies of the same order are never both free. */
  lemma BuddiesNotBothFree(m: nat, tags: seq<Tag>, areas: seq<seq<nat>>, live: LiveMap, h: nat, k: nat)
    requires ZoneOk(m, tags, areas, live) && k < m && h in areas[k]
    ensures Xor(h, Pow2(k)) !in areas[k]
  {
    assert Maximal(Used(m, live), m, h, k);
    NoFreeBuddies(Used(m, live), m, h, k);
  }

  /** The free blocks are a function of which pages are handed out. */
  lemma FreeBlocksDetermined(m: nat, tags: seq<Tag>, areas: seq<seq<nat>>, live: LiveMap,
                             tags': seq<Tag>, areas': seq<seq<nat>>, live': LiveMap, k: nat, h: nat)
    requires ZoneOk(m, tags, areas, live) && ZoneOk(m, tags', areas', live')
    requires forall p: nat :: p < Pow2(m) ==> (Taken(live, p) <==> Taken(live', p))
    requires k <= m
    ensures h in areas[k] <==> h in areas'[k]
  {
    forall p: nat
      ensures p in Used(m, live) <==> p in Used(m, live')
    {
      TakenIsUsed(m, live, p);
      TakenIsUsed(m, live', p);
    }
    assert Used(m, live) == Used(m, live');
  }

  /** With everything given back the pool is one block of the maximum order again. */
  lemma AllFreed(m: nat, tags: seq<Tag>, areas: seq<seq<nat>>)
    requires ZoneOk(m, tags, areas, map[])
    ensures areas[m] == [0] && forall k :: 0 <= k < m ==> areas[k] == []
  {
    assert Used(m, map[]) == {};
    WholeList(m, areas[m]);
    forall k: nat | k < m
      ensures areas[k] == []
    {
      if areas[k] != [] {
        assert areas[k][0] in areas[k];
        EmptyPool(m, areas[k][0], k);
      }
    }
  }

  /** Taking a block and giving it back restores the free blocks, list by list. */
  method AllocThenFree(z: Zone, size: nat) returns (page: Option<nat>)
    requires z.Valid()
    modifies z`live, z.tags, z.areas
    ensures z.Valid() && z.live == old(z.live)
    ensures page.Some? <==> size > 0 && OrderOf(size) <= z.maxOrder && old(z.Available(OrderOf(size)))
    ensures forall k: nat, h: nat :: k <= z.maxOrder ==> (h in z.areas[k] <==> h in old(z.areas[..])[k])
  {
    ghost var tags0, areas0 := z.tags[..], z.areas[..];
    page := z.Alloc(size);
    if page.Some? {
      z.MailboxFree(page.value);
      assert z.live == old(z.live);
    }
    forall k: nat, h: nat | k <= z.maxOrder
      ensures h in z.areas[k] <==> h in areas0[k]
    {
      FreeBlocksDetermined(z.maxOrder, z.tags[..], z.areas[..], z.live, tags0, areas0, z.live, k, h);
    }
  }

  datatype Request = Take(size: nat) | Give(page: int)

  ghost function HealthOf(z: Zone): Health
    reads z, z.tags, z.areas
  {
    if forall k :: Unfold(k) ==> SmallBlocks(z) then Sound else Broken
  }

  ghost predicate SmallBlocks(z: Zone)
    reads z, z.tags, z.areas
  {
    z.Valid() && !z.Stale() && forall h :: h in z.live ==> z.live[h] < z.maxOrder
  }

  /** Blocks handed out stay below the maximum order and the whole-pool tag is not stale. */
  ghost predicate BelowMax(z: Zone)
    reads z, z.tags, z.areas
  {
    HealthOf(z) == Sound
  }

  /** What a caller can know of a zone: the blocks handed out, and whether the whole pool was given back last. */
  datatype View = View(live: LiveMap, stale: bool)

  ghost function ViewOf(z: Zone): View
    reads z, z.tags
    requires z.Shape()
  {
    View(z.live, z.Stale())
  }

  /** Giving the whole pool back a second time. */
  predicate Hazard(v: View, r: Request) {
    r == Give(0) && v.stale
  }

  /** One request, as seen by the caller. */
  ghost predicate Next(m: nat, v: View, r: Request, v': View) {
    match r
    case Take(size) =>
      if size == 0 || OrderOf(size) > m || (forall h: nat :: !FreeRun(m, v.live, h, OrderOf(size))) then v' == v
      else exists h: nat :: FreeRun(m, v.live, h, OrderOf(size)) && v' == View(v.live[h := OrderOf(size)], false)
    case Give(page) =>
      v'.live == Without(v.live, page) && (v'.stale <==> v.stale || (page in v.live && v.live[page] == m))
  }

  /** One request to a pool; `reserved` tells which of the two free functions serves it. */
  method ServeRequest(z: Zone, r: Request, reserved: bool) returns (ok: bool)
    requires z.Valid()
    modifies z`live, z.tags, z.areas
    ensures z.Shape() && (ok <==> z.Valid()) && (ok <==> !Hazard(old(ViewOf(z)), r))
    ensures z.Valid() ==> Next(z.maxOrder, old(ViewOf(z)), r, ViewOf(z))
  {
    TagMeaning(z.maxOrder, z.tags[..], z.areas[..], z.live, 0);
    match r {
      case Take(size) =>
        var page := z.Alloc(size);
        if page.Some? {
          assert FreeRun(z.maxOrder, old(z.live), page.value, OrderOf(size));
        }
      case Give(page) =>
        if reserved {
          z.ReservedFree(page);
        } else {
          z.MailboxFree(page);
        }
    }
    ok := z.areas[z.maxOrder] != [0, 0];
    if !ok {
      TwiceListed(z.maxOrder, z.tags[..], z.areas[..], z.live);
    }
  }

  /** The views along a run of requests. */
  ghost predicate ViewRun(m: nat, views: seq<View>, requests: seq<Request>) {
    && |views| == |requests| + 1
    && forall k :: 0 <= k < |requests| ==> Next(m, views[k], requests[k], views[k + 1])
  }

  /**
   Any requests, of any order and in any order: the zone stays valid exactly as long as the whole
   pool is not given back a second time.  The run ends with the first request that does so.
   */
  method AnyRun(z: Zone, requests: seq<Request>, reserved: bool) returns (n: nat, ghost views: seq<View>)
    requires z.Valid()
    modifies z`live, z.tags, z.areas
    ensures n <= |requests| && ViewRun(z.maxOrder, views, requests[..n]) && views[0] == old(ViewOf(z))
    ensures forall k :: 0 <= k < n ==> !Hazard(views[k], requests[k])
    ensures n < |requests| <==> !z.Valid()
    ensures n < |requests| ==> Hazard(views[n], requests[n])
    ensures z.Valid() ==> views[n] == ViewOf(z)
  {
    n, views := 0, [ViewOf(z)];
    assert requests[..0] == [];
    while n < |requests|
      invariant n <= |requests| && z.Valid() && |views| == n + 1 && views[0] == old(ViewOf(z)) && views[n] == ViewOf(z)
      invariant ViewRun(z.maxOrder, views, requests[..n])
      invariant forall k :: 0 <= k < n ==> !Hazard(views[k], requests[k])
    {
      var ok := ServeRequest(z, requests[n], reserved);
      if !ok {
        return;
      }
      assert requests[..n + 1] == requests[..n] + [requests[n]];
      views, n := views + [ViewOf(z)], n + 1;
    }
    assert requests[..n] == requests;
  }

  /** Without requests for the whole pool there is no hazard: every run keeps the zone valid. */
  lemma {:induction false} SmallRunsAreSafe(m: nat, views: seq<View>, requests: seq<Request>, n: nat)
    requires ViewRun(m, views, requests) && n <= |requests|
    requires !views[0].stale && forall h :: h in views[0].live ==> views[0].live[h] < m
    requires forall k :: 0 <= k < |requests| && requests[k].Take? ==> OrderOf(requests[k].size) < m
    ensures !views[n].stale && forall h :: h in views[n].live ==> views[n].live[h] < m
    ensures forall k :: 0 <= k < n ==> !Hazard(views[k], requests[k])
  {
    if n > 0 {
      SmallRunsAreSafe(m, views, requests, n - 1);
      assert Next(m, views[n - 1], requests[n - 1], views[n]);
    }
  }

  /** Below the maximum order, a free does something exactly when the page heads a block handed out. */
  method GiveAny(z: Zone, page: int, reserved: bool) returns (ghost harmless: bool)
    requires BelowMax(z)
    modifies z`live, z.tags, z.areas
    ensures BelowMax(z)
    ensures harmless <==> page !in old(z.live)
    ensures harmless ==> z.live == old(z.live) && z.tags[..] == old(z.tags[..]) && z.areas[..] == old(z.areas[..])
    ensures !harmless ==> z.live == Without(old(z.live), page) && z.live != old(z.live)
  {
    assert Unfold(0);
    harmless := page !in z.live;
    if reserved {
      z.ReservedFree(page);
    } else {
      z.MailboxFree(page);
    }
  }

  /** Giving the whole pool back twice lists its first page twice: the second free is not a no-op. */
  method WholePoolFreedTwice(maxOrder: nat) returns (z: Zone)
    ensures !z.Valid() && z.live == map[] && z.areas.Length == maxOrder + 1 && z.areas[maxOrder] == [0, 0]
  {
    z := new Zone(maxOrder);
    WholeOrder(maxOrder);
    AllFreed(maxOrder, z.tags[..], z.areas[..]);
    WholeRun(maxOrder);
    var page := z.Alloc(PAGE_SIZE * Pow2(maxOrder));
    assert z.live == map[page.value := maxOrder];
    assert page == Some(0);
    z.MailboxFree(0);
    assert z.live == map[];
    AllFreed(maxOrder, z.tags[..], z.areas[..]);
    z.MailboxFree(0);
  }

  lemma {:induction false} OrderOfPow2(k: nat)
    ensures GetOrder(Pow2(k)) == k
  {
    if k > 0 {
      OrderOfPow2(k - 1);
      assert (Pow2(k) + 1) / 2 == Pow2(k - 1);
    }
  }

  lemma WholeOrder(m: nat)
    ensures OrderOf(PAGE_SIZE * Pow2(m)) == m
  {
    OrderOfPow2(m);
    var size := PAGE_SIZE * Pow2(m);
    PageAlignLeast(size, Pow2(m));
    DivisionUnique(size, PAGE_SIZE, Pow2(m), 0);
  }

  lemma WholeRun(m: nat)
    ensures FreeRun(m, map[], 0, m)
  {
    ZeroAligned(m);
    AlignedIsMultiple(0, m);
  }
}

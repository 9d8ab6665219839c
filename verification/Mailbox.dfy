/** The mailbox pool as its callers use it: take a block, give back a block. */
module Mailbox {
  import opened Options
  import opened Folding
  import opened Blocks
  import opened ZoneSpec
  import opened BuddyZone

  const SZ_4K: nat := 0x1000

  ghost function ZoneHealth(z: Zone): Health
    reads z, z.tags, z.areas
  {
    if forall k :: Unfold(k) ==> z.Valid() then Sound else Broken
  }

  /** The pool is a valid buddy zone. */
  ghost predicate Usable(z: Zone)
    reads z, z.tags, z.areas
  {
    ZoneHealth(z) == Sound
  }

  /** A pool of maximum order `m` with these blocks handed out has room for a request of this size. */
  ghost predicate Serves(m: nat, live: LiveMap, size: nat) {
    size > 0 && OrderOf(size) <= m && exists h: nat :: FreeRun(m, live, h, OrderOf(size))
  }

  /** The pool can serve a request of this size. */
  ghost predicate CanServe(z: Zone, size: nat)
    reads z
  {
    Serves(z.maxOrder, z.live, size)
  }

  /** The page is the head of the whole pool, which was the last block given back. */
  ghost predicate GivenTwice(z: Zone, page: int)
    reads z, z.tags
  {
    z.Shape() && z.Hazard(page)
  }

  /** `mailbox_mempool_init`: nothing is handed out, and every size up to the whole pool can be served. */
  method MailboxInit(maxOrder: nat) returns (z: Zone)
    ensures fresh(z) && fresh(z.tags) && fresh(z.areas) && Usable(z) && z.maxOrder == maxOrder && z.live == map[]
    ensures forall size: nat :: CanServe(z, size) <==> size > 0 && OrderOf(size) <= maxOrder
  {
    z := new Zone(maxOrder);
    forall size: nat | size > 0 && OrderOf(size) <= maxOrder
      ensures CanServe(z, size)
    {
      Pow2Mono(OrderOf(size), maxOrder);
      assert FreeRun(maxOrder, map[], 0, OrderOf(size));
    }
  }

  method MailboxAlloc(z: Zone, size: nat) returns (page: Option<nat>)
    requires Usable(z)
    modifies z`live, z.tags, z.areas
    ensures Usable(z)
    ensures page.Some? <==> old(CanServe(z, size))
    ensures page.None? ==> z.live == old(z.live)
    ensures page.Some? ==> page.value !in old(z.live) && z.live == old(z.live)[page.value := OrderOf(size)]
    ensures page.Some? ==> FreeRun(z.maxOrder, old(z.live), page.value, OrderOf(size))
    ensures page.Some? ==> size <= PAGE_SIZE * Pow2(z.live[page.value])
  {
    assert Unfold(0);
    page := z.Alloc(size);
  }

  /** Gives back any page; the pool stays usable unless the page was the whole pool, given back already. */
  method MailboxRelease(z: Zone, page: int)
    requires Usable(z)
    modifies z`live, z.tags, z.areas
    ensures z.live == Without(old(z.live), page)
    ensures Usable(z) <==> !old(GivenTwice(z, page))
    ensures page in old(z.live) ==> !old(GivenTwice(z, page))
  {
    assert Unfold(0);
    z.MailboxFree(page);
  }

  /** `MailboxRelease` of a block that is handed out. */
  method GiveBack(z: Zone, page: nat)
    requires Usable(z) && page in z.live
    modifies z`live, z.tags, z.areas
    ensures Usable(z) && z.live == Without(old(z.live), page)
  {
    MailboxRelease(z, page);
  }
}

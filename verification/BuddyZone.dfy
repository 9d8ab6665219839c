/**
 The buddy allocators of the driver: the mailbox pool (`mailbox_alloc`, `mailbox_free`)
 and the reserved pool (`reserved_mem_alloc`, `buddy_merge`, `reserved_mem_free`).
 Both work in place on an array of page tags and one free list per order.
 A page number stands for the page's address; the pool lock makes each call atomic.
 */
module BuddyZone {
  import opened Options
  import opened Blocks
  import opened ZoneSpec

  const PAGE_SIZE: nat := 4096

  /** Least `k` such that 2^k pages hold `pages` pages. */
  function GetOrder(pages: nat): (k: nat)
    ensures pages <= Pow2(k)
    ensures k > 0 ==> Pow2(k - 1) < pages
  {
    if pages <= 1 then 0 else 1 + GetOrder((pages + 1) / 2)
  }

  /** `ALIGN` to whole pages. */
  function PageAlign(size: nat): nat {
    (size + PAGE_SIZE - 1) / PAGE_SIZE * PAGE_SIZE
  }

  /** Rounding up gives the least multiple of the page size not below the size. */
  lemma PageAlignLeast(size: nat, pages: nat)
    ensures size <= PageAlign(size) < size + PAGE_SIZE && PageAlign(size) % PAGE_SIZE == 0
    ensures size <= PAGE_SIZE * pages ==> PageAlign(size) <= PAGE_SIZE * pages
    ensures size == PAGE_SIZE * pages ==> PageAlign(size) == size
  {
  }

  /** Order of the smallest block that holds `size` bytes. */
  function OrderOf(size: nat): nat {
    GetOrder(PageAlign(size) / PAGE_SIZE)
  }

  /** A block of `OrderOf(size)` holds the bytes, and none of a lower order does. */
  lemma OrderHolds(size: nat)
    requires size > 0
    ensures size <= PAGE_SIZE * Pow2(OrderOf(size))
    ensures OrderOf(size) > 0 ==> PAGE_SIZE * Pow2(OrderOf(size) - 1) < size
  {
    var pages, k := PageAlign(size) / PAGE_SIZE, OrderOf(size);
    assert PAGE_SIZE * (pages - 1) < size <= PAGE_SIZE * pages;
    assert pages <= Pow2(k);
    if k > 0 {
      assert Pow2(k - 1) <= pages - 1;
    }
  }

  class Zone {
    const maxOrder: nat
    const tags: array<Tag>
    const areas: array<seq<nat>>
    /** Blocks handed out and not yet given back. */
    ghost var live: LiveMap

    ghost predicate Shape()
      reads this
    {
      tags.Length == Pow2(maxOrder) && areas.Length == maxOrder + 1
    }

    ghost predicate Valid()
      reads this, tags, areas
    {
      Shape() && ZoneOk(maxOrder, tags[..], areas[..], live)
    }

    /** The whole pool is free but its tag still says it is handed out. */
    ghost predicate Stale()
      reads this, tags
      requires Shape()
    {
      0 !in live && tags[0].count != 0
    }

    ghost predicate Available(order: nat)
      reads this
    {
      exists h: nat :: FreeRun(maxOrder, live, h, order)
    }

    constructor (maxOrder: nat)
      ensures Valid() && !Stale()
      ensures this.maxOrder == maxOrder && live == map[]
      ensures fresh(tags) && fresh(areas)
    {
      this.maxOrder := maxOrder;
      var pages := new Tag[Pow2(maxOrder)];
      var i := 0;
      while i < pages.Length
        invariant 0 <= i <= pages.Length
        invariant forall p :: 0 <= p < i ==> pages[p] == Tag(-1, 0)
      {
        pages[i] := Tag(-1, 0);
        i := i + 1;
      }
      pages[0] := Tag(maxOrder, pages[0].count);
      var lists := new seq<nat>[maxOrder + 1];
      i := 0;
      while i <= maxOrder
        invariant 0 <= i <= maxOrder + 1
        invariant forall k :: 0 <= k < i ==> lists[k] == []
        invariant pages[0] == Tag(maxOrder, 0) && forall p :: 0 < p < pages.Length ==> pages[p] == Tag(-1, 0)
      {
        lists[i] := [];
        i := i + 1;
      }
      lists[maxOrder] := lists[maxOrder] + [0];
      tags, areas := pages, lists;
      live := map[];
      InitialZone(maxOrder, pages[..], lists[..]);
    }

    /** `mailbox_alloc` and `reserved_mem_alloc`: take the first block of the smallest sufficient order and split it. */
    method Alloc(size: nat) returns (page: Option<nat>)
      requires Valid()
      modifies this`live, tags, areas
      ensures Valid()
      ensures page.None? <==> size == 0 || OrderOf(size) > maxOrder || !old(Available(OrderOf(size)))
      ensures page.None? ==> live == old(live) && tags[..] == old(tags[..]) && areas[..] == old(areas[..])
      ensures page.Some? ==> FreeRun(maxOrder, old(live), page.value, OrderOf(size)) && page.value !in old(live)
      ensures page.Some? ==> live == old(live)[page.value := OrderOf(size)]
      ensures page.Some? ==> size <= PAGE_SIZE * Pow2(live[page.value])
      ensures page.Some? && live[page.value] > 0 ==> PAGE_SIZE * Pow2(live[page.value] - 1) < size
      ensures page.Some? ==> BestFit(maxOrder, old(live), page.value, OrderOf(size))
      ensures Stale() ==> page.None? && old(Stale())
    {
      var order := OrderOf(size);
      if size == 0 || order > maxOrder {
        return None;
      }
      var i := order;
      while i <= maxOrder && areas[i] == []
        invariant order <= i <= maxOrder + 1
        invariant forall j :: order <= j < i ==> areas[j] == []
      {
        i := i + 1;
      }
      if i > maxOrder {
        NoListNoRun(maxOrder, tags[..], areas[..], live, order);
        return None;
      }
      AllocSite(maxOrder, tags[..], areas[..], live, order, i);
      var pos := TakeFirst(order, i);
      OrderHolds(size);
      page := Some(pos);
    }

    /** Takes the first block of list `i`, keeps its bottom 2^order pages and lists the upper halves. */
    method TakeFirst(order: nat, i: nat) returns (pos: nat)
      requires Valid() && order <= i <= maxOrder && areas[i] != []
      requires forall q :: order <= q < i ==> areas[q] == []
      modifies this`live, tags, areas
      ensures Valid()
      ensures pos == old(areas[i][0]) && pos !in old(live) && live == old(live)[pos := order]
      ensures !Stale()
    {
      pos := areas[i][0];
      ghost var tags0, areas0 := tags[..], areas[..];
      AllocSite(maxOrder, tags0, areas0, live, order, i);
      tags[pos] := Tag(order, 1);
      assert tags[..] == tags0[pos := Tag(order, 1)];
      ListUpperHalves(pos, order, i, tags0, areas0);
      SplitDone(maxOrder, tags0, areas0, live, pos, i, order, tags[..], areas[..]);
      ghost var areas2 := areas[..];
      areas[i] := areas[i][1..];
      assert areas[..] == areas2[i := areas2[i][1..]];
      live := live[pos := order];
    }

    method ListUpperHalves(pos: nat, order: nat, i: nat, ghost tags0: seq<Tag>, ghost areas0: seq<seq<nat>>)
      requires Splitting(tags0, areas0, pos, i, order, order, tags[..], areas[..])
      requires forall q: nat :: order <= q < i ==> Upper(pos, q) < |tags0|
      modifies tags, areas
      ensures Splitting(tags0, areas0, pos, i, order, i, tags[..], areas[..])
    {
      var j := order;
      while j < i
        invariant order <= j <= i
        invariant Splitting(tags0, areas0, pos, i, order, j, tags[..], areas[..])
      {
        SplitStep(tags0, areas0, pos, i, order, j, tags[..], areas[..]);
        ghost var tags1, areas1 := tags[..], areas[..];
        var upper := Upper(pos, j);
        tags[upper] := Tag(j, 0);
        areas[j] := areas[j] + [upper];
        assert tags[..] == tags1[upper := Tag(j, 0)];
        assert areas[..] == areas1[j := areas1[j] + [upper]];
        j := j + 1;
      }
    }

    /**
     One round of the merge loops of `mailbox_free` and `buddy_merge` for the returning block
     `h`, grown to (c, i): either it absorbs its buddy or it is listed.
     */
    method MergeOnce(ghost h: nat, c: nat, i: nat) returns (merged: bool, head: nat)
      requires Shape() && i < maxOrder
      requires Returning(maxOrder, tags[..], areas[..], live, h, c, i)
      modifies tags, areas
      ensures c < tags.Length && head < tags.Length
      ensures merged ==> Returning(maxOrder, tags[..], areas[..], live, h, head, i + 1) && tags[head].count == 0
      ensures merged ==> head == if c < Xor(c, Pow2(i)) then c else Xor(c, Pow2(i))
      ensures !merged ==> ZoneOk(maxOrder, tags[..], areas[..], live - {h}) && tags[c].count == 0 && head == c
      ensures tags[0].count == old(tags[0].count) || tags[0].count == 0
    {
      ghost var tags0, areas0 := tags[..], areas[..];
      var buddy := Xor(c, Pow2(i));
      ReturningFacts(maxOrder, tags0, areas0, live, h, c, i);
      BuddyTest(maxOrder, tags0, areas0, live, h, c, i);
      XorIsBuddy(c, i);
      tags[c] := Tag(tags[c].order, 0);
      head := c;
      merged := tags[buddy].order == i && tags[buddy].count == 0;
      if merged {
        areas[i] := Remove(areas[i], buddy);
        if c > buddy {
          head := buddy;
          tags[buddy] := Tag(i + 1, tags[buddy].count);
          tags[c] := Tag(-1, tags[c].count);
        } else {
          tags[c] := Tag(i + 1, tags[c].count);
          tags[buddy] := Tag(-1, tags[buddy].count);
        }
        ghost var high := if c < buddy then buddy else c;
        MergeStep(maxOrder, tags0, areas0, live, h, c, i, buddy, head, high);
        assert tags[..] == tags0[head := Tag(i + 1, 0)][high := Tag(-1, 0)];
        assert areas[..] == areas0[i := Remove(areas0[i], buddy)];
      } else {
        areas[i] := areas[i] + [c];
        MergeDone(maxOrder, tags0, areas0, live, h, c, i, Tag(i, 0));
        assert tags[..] == tags0[c := Tag(i, 0)];
        assert areas[..] == areas0[i := areas0[i] + [c]];
      }
    }

    /** Giving page 0 back a second time while its stale tag still says it is handed out. */
    ghost predicate Hazard(page: int)
      reads this, tags
      requires Shape()
    {
      page == 0 && Stale()
    }

    /** What every call of the two free functions does to the zone, given what it was before. */
    twostate predicate Freed(page: int)
      requires old(Valid()) && Shape()
      reads this, tags, areas
    {
      && live == Without(old(live), page)
      && (Valid() <==> !old(Hazard(page)))
      && (old(Hazard(page)) ==> areas[maxOrder] == old(areas[maxOrder]) + [0])
      && (page !in old(live) && !old(Hazard(page)) ==> tags[..] == old(tags[..]) && areas[..] == old(areas[..]))
      && (!old(Hazard(page)) ==> (Stale() <==> old(Stale() || (page in live && live[page] == maxOrder))))
    }

    /** The merge loop of `mailbox_free`; the stale tag of the whole pool never enters it. */
    method MergeLoop(page: nat, order: nat) returns (listed: bool, ghost head: nat)
      requires Shape() && order <= maxOrder
      requires if page in live then Returning(maxOrder, tags[..], areas[..], live, page, page, order) else order == maxOrder
      modifies tags, areas
      ensures listed ==> page in live && ZoneOk(maxOrder, tags[..], areas[..], live - {page})
      ensures page in live && !listed ==> Returning(maxOrder, tags[..], areas[..], live, page, head, maxOrder)
      ensures page !in live ==> !listed && tags[..] == old(tags[..]) && areas[..] == old(areas[..])
      ensures page == 0 && order < maxOrder ==> tags[0].count == 0
      ensures order == maxOrder ==> !listed && head == page && tags[..] == old(tags[..])
      ensures tags[0].count == old(tags[0].count) || tags[0].count == 0
    {
      var c, i := page, order;
      while i < maxOrder
        invariant order <= i <= maxOrder
        invariant page in live ==> Returning(maxOrder, tags[..], areas[..], live, page, c, i)
        invariant page !in live ==> tags[..] == old(tags[..]) && areas[..] == old(areas[..])
        invariant page == 0 ==> c == 0
        invariant i == order ==> c == page && tags[..] == old(tags[..])
        invariant page == 0 && order < i ==> tags[0].count == 0
        invariant tags[0].count == old(tags[0].count) || tags[0].count == 0
      {
        var merged, next := MergeOnce(page, c, i);
        if !merged {
          return true, c;
        }
        c, i := next, i + 1;
      }
      return false, c;
    }

    /** `mailbox_free` */
    method MailboxFree(page: int)
      requires Valid()
      modifies this`live, tags, areas
      ensures Freed(page)
    {
      if page < 0 || page >= tags.Length {
        return;
      }
      TagMeaning(maxOrder, tags[..], areas[..], live, page);
      TagMeaning(maxOrder, tags[..], areas[..], live, 0);
      if tags[page].count == 0 {
        return;
      }
      MailboxFreeHead(page);
    }

    /** `mailbox_free` of a page whose count is not zero: a block handed out, or the whole pool with its stale tag. */
    method MailboxFreeHead(page: nat)
      requires Valid() && page < tags.Length && tags[page].count != 0
      modifies this`live, tags, areas
      ensures Freed(page)
    {
      TagMeaning(maxOrder, tags[..], areas[..], live, page);
      TagMeaning(maxOrder, tags[..], areas[..], live, 0);
      if page in live {
        MergeStart(maxOrder, tags[..], areas[..], live, page);
      }
      var listed, head := MergeLoop(page, tags[page].order);
      if !listed {
        if page in live {
          MergeTop(maxOrder, tags[..], areas[..], live, page, head);
        }
        ListWholePool(page, 0);
        if page !in live {
          TwiceListed(maxOrder, tags[..], areas[..], live);
        }
      }
      assert page in live ==> Without(live, page) == live - {page};
      live := Without(live, page);
    }

    /** Hangs the whole pool in the list of the maximum order. */
    method ListWholePool(ghost page: nat, head: nat)
      requires Shape() && head == 0
      requires page in live ==> Returning(maxOrder, tags[..], areas[..], live, page, 0, maxOrder)
      modifies areas
      ensures areas[maxOrder] == old(areas[maxOrder]) + [0]
      ensures page in live ==> ZoneOk(maxOrder, tags[..], areas[..], live - {page})
    {
      ghost var areas0 := areas[..];
      areas[maxOrder] := areas[maxOrder] + [head];
      if page in live {
        ReturningFacts(maxOrder, tags[..], areas0, live, page, 0, maxOrder);
        MergeDone(maxOrder, tags[..], areas0, live, page, 0, maxOrder, tags[0]);
        assert areas[..] == areas0[maxOrder := areas0[maxOrder] + [0]];
        assert tags[..] == tags[..][0 := tags[0]];
      }
    }

    /**
     `buddy_merge`: like the loop of `mailbox_free`, but when the block has grown to the
     maximum order its head is worked out from the last pair of indices and returned.
     */
    method BuddyMerge(page: nat, order: nat) returns (top: Option<nat>)
      requires Shape() && order <= maxOrder
      requires if page in live then Returning(maxOrder, tags[..], areas[..], live, page, page, order) else order == maxOrder
      modifies tags, areas
      ensures top.None? ==> page in live && ZoneOk(maxOrder, tags[..], areas[..], live - {page})
      ensures top.Some? && page in live ==> Returning(maxOrder, tags[..], areas[..], live, page, top.value, maxOrder)
      ensures page !in live ==> top.Some? && tags[..] == old(tags[..]) && areas[..] == old(areas[..])
      ensures page == 0 && order < maxOrder ==> tags[0].count == 0
      ensures order == maxOrder ==> top == Some(page) && tags[..] == old(tags[..])
      ensures tags[0].count == old(tags[0].count) || tags[0].count == 0
    {
      var vpage, i := page, order;
      var cur, buddy := 0, 0;
      while i < maxOrder
        invariant order <= i <= maxOrder
        invariant page in live ==> Returning(maxOrder, tags[..], areas[..], live, page, vpage, i)
        invariant page !in live ==> tags[..] == old(tags[..]) && areas[..] == old(areas[..])
        invariant order < i ==> vpage == if cur > buddy then buddy else cur
        invariant page == 0 ==> vpage == 0
        invariant i == order ==> vpage == page && tags[..] == old(tags[..])
        invariant page == 0 && order < i ==> tags[0].count == 0
        invariant tags[0].count == old(tags[0].count) || tags[0].count == 0
      {
        cur := vpage;
        buddy := Xor(cur, Pow2(i));
        var merged, next := MergeOnce(page, cur, i);
        if !merged {
          return None;
        }
        vpage, i := next, i + 1;
      }
      if order == maxOrder {
        return Some(vpage);
      }
      return Some(if cur > buddy then buddy else cur);
    }

    /** `reserved_mem_free` */
    method ReservedFree(page: int)
      requires Valid()
      modifies this`live, tags, areas
      ensures Freed(page)
    {
      if page < 0 || page >= tags.Length {
        return;
      }
      TagMeaning(maxOrder, tags[..], areas[..], live, page);
      TagMeaning(maxOrder, tags[..], areas[..], live, 0);
      if tags[page].count == 0 {
        return;
      }
      ReservedFreeHead(page);
    }

    /** `reserved_mem_free` of a page whose count is not zero. */
    method ReservedFreeHead(page: nat)
      requires Valid() && page < tags.Length && tags[page].count != 0
      modifies this`live, tags, areas
      ensures Freed(page)
    {
      TagMeaning(maxOrder, tags[..], areas[..], live, page);
      TagMeaning(maxOrder, tags[..], areas[..], live, 0);
      if page in live {
        MergeStart(maxOrder, tags[..], areas[..], live, page);
      }
      var top := BuddyMerge(page, tags[page].order);
      if top.Some? {
        if page in live {
          MergeTop(maxOrder, tags[..], areas[..], live, page, top.value);
        }
        ListWholePool(page, top.value);
        if page !in live {
          TwiceListed(maxOrder, tags[..], areas[..], live);
        }
      }
      assert page in live ==> Without(live, page) == live - {page};
      live := Without(live, page);
    }
  }

  ghost function Without(live: LiveMap, page: int): LiveMap {
    map h | h in live && h != page :: live[h]
  }
}

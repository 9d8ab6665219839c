/**
 The reader side of the TEE log ring (`tlogger.c`): it finds the next item in a segment of bytes,
 resynchronising on damaged data, and copies whole items into a bounded user buffer.
 */
module LogReader {
  import opened Options
  import opened Folding
  import opened Machine

  const LOG_ITEM_MAGIC: nat := 0x5A5A
  const LOG_ITEM_LEN_ALIGN: nat := 64
  const LOG_ITEM_MAX_LEN: nat := 1024
  /** `sizeof(struct log_item)` */
  const HEAD: nat := 64
  const LOG_BUFFER_MAX_LEN: nat := 0x100000

  function U16(buf: seq<Byte>, pos: nat): nat
    requires pos + 2 <= |buf|
  {
    (buf[pos] as nat) + 256 * (buf[pos + 1] as nat)
  }

  /** Fields of the item header at `pos`, by their offsets in `struct log_item`. */
  function Magic(buf: seq<Byte>, pos: nat): nat
    requires pos + HEAD <= |buf|
  {
    U16(buf, pos + 32)
  }

  function RealLen(buf: seq<Byte>, pos: nat): nat
    requires pos + HEAD <= |buf|
  {
    U16(buf, pos + 40)
  }

  function BufferLen(buf: seq<Byte>, pos: nat): nat
    requires pos + HEAD <= |buf|
  {
    U16(buf, pos + 42)
  }

  /** A 16-bit field in memory, low byte first. */
  function Le16(v: nat): (r: seq<Byte>)
    requires v < 0x1_0000
    ensures |r| == 2
  {
    [(v % 256) as Byte, (v / 256) as Byte]
  }

  /** A header laid out as `struct log_item` is read back field by field, wherever it lies. */
  lemma FieldsReadBack(pre: seq<Byte>, unused: seq<Byte>, magic: nat, serial: seq<Byte>, realLen: nat, bufferLen: nat, rest: seq<Byte>)
    requires |unused| == 32 && |serial| == 6 && |rest| >= 20
    requires magic < 0x1_0000 && realLen < 0x1_0000 && bufferLen < 0x1_0000
    ensures var buf := pre + unused + Le16(magic) + serial + Le16(realLen) + Le16(bufferLen) + rest;
            Magic(buf, |pre|) == magic && RealLen(buf, |pre|) == realLen && BufferLen(buf, |pre|) == bufferLen
  {
  }

  /** Length of the item at `pos`, header included. */
  function ItemLen(buf: seq<Byte>, pos: nat): nat {
    HEAD + (if pos + HEAD <= |buf| then BufferLen(buf, pos) else 0)
  }

  /** The bytes of the item at `pos`. */
  function Item(buf: seq<Byte>, pos: nat): seq<Byte> {
    if pos + ItemLen(buf, pos) <= |buf| then buf[pos..pos + ItemLen(buf, pos)] else []
  }

  /** `check_log_item_validite` */
  predicate ItemValid(buf: seq<Byte>, pos: nat, maxSize: nat)
    requires pos + HEAD <= |buf|
  {
    && Magic(buf, pos) == LOG_ITEM_MAGIC
    && BufferLen(buf, pos) > 0
    && RealLen(buf, pos) > 0
    && BufferLen(buf, pos) % LOG_ITEM_LEN_ALIGN == 0
    && RealLen(buf, pos) <= BufferLen(buf, pos)
    && BufferLen(buf, pos) - RealLen(buf, pos) < LOG_ITEM_LEN_ALIGN
    && BufferLen(buf, pos) + HEAD <= maxSize
  }

  /** The buffer length is the real length, which is not zero, rounded up to 64 bytes; header and buffer fit. */
  lemma ItemValidMeaning(buf: seq<Byte>, pos: nat, maxSize: nat)
    requires pos + HEAD <= |buf|
    ensures ItemValid(buf, pos, maxSize) <==>
      && Magic(buf, pos) == LOG_ITEM_MAGIC && RealLen(buf, pos) > 0
      && BufferLen(buf, pos) == (RealLen(buf, pos) + LOG_ITEM_LEN_ALIGN - 1) / LOG_ITEM_LEN_ALIGN * LOG_ITEM_LEN_ALIGN
      && ItemLen(buf, pos) <= maxSize
  {
  }

  /** A whole valid item of at most 1024 bytes starts at `pos` and ends by `end`. */
  predicate ItemAt(buf: seq<Byte>, pos: nat, end: nat) {
    && end <= |buf|
    && pos + HEAD + LOG_ITEM_LEN_ALIGN <= end
    && ItemValid(buf, pos, Min(LOG_ITEM_MAX_LEN, end - pos))
  }

  /** No valid item starts at a multiple of 64 bytes from `base` before `limit`. */
  ghost predicate NoItem(buf: seq<Byte>, base: nat, limit: nat, end: nat) {
    forall q: nat :: OnGrid(base, q) && q < limit ==> !ItemAt(buf, q, end)
  }

  predicate OnGrid(base: nat, q: nat) {
    base <= q && (q - base) % LOG_ITEM_LEN_ALIGN == 0
  }

  /** `get_next_log_item`: the first valid item at a multiple of 64 bytes from `readPos`, and the last position looked at. */
  method GetNextLogItem(buf: seq<Byte>, maxLen: nat, readPos: nat, scope: nat, posIn: nat)
    returns (item: Option<nat>, pos: nat)
    requires maxLen <= |buf|
    ensures item.Some? ==> readPos + scope <= maxLen && pos == item.value && readPos <= pos
    ensures item.Some? ==> OnGrid(readPos, pos) && ItemAt(buf, pos, readPos + scope) && NoItem(buf, readPos, pos, readPos + scope)
    ensures item.None? && readPos + scope <= maxLen ==> NoItem(buf, readPos, readPos + scope, readPos + scope)
    ensures item.None? ==> pos == posIn || readPos <= pos < readPos + scope <= maxLen
  {
    item, pos := None, posIn;
    if readPos + scope > maxLen {
      return;
    }
    var i := 0;
    while i + HEAD + LOG_ITEM_LEN_ALIGN <= scope
      invariant i % LOG_ITEM_LEN_ALIGN == 0
      invariant pos == posIn || readPos <= pos < readPos + scope
      invariant NoItem(buf, readPos, readPos + i, readPos + scope)
    {
      pos := readPos + i;
      var maxSize := if scope - i > LOG_ITEM_MAX_LEN then LOG_ITEM_MAX_LEN else scope - i;
      if ItemValid(buf, readPos + i, maxSize) {
        return Some(readPos + i), pos;
      }
      NoItemStep(buf, readPos, i, readPos + scope);
      i := i + LOG_ITEM_LEN_ALIGN;
    }
  }

  lemma NoItemStep(buf: seq<Byte>, base: nat, i: nat, end: nat)
    requires NoItem(buf, base, base + i, end) && i % LOG_ITEM_LEN_ALIGN == 0 && !ItemAt(buf, base + i, end)
    ensures NoItem(buf, base, base + i + LOG_ITEM_LEN_ALIGN, end)
  {
    forall q: nat | OnGrid(base, q) && q < base + i + LOG_ITEM_LEN_ALIGN
      ensures !ItemAt(buf, q, end)
    {
      if q >= base + i {
        var a, b := (q - base) / LOG_ITEM_LEN_ALIGN, i / LOG_ITEM_LEN_ALIGN;
        assert q - base == LOG_ITEM_LEN_ALIGN * a && i == LOG_ITEM_LEN_ALIGN * b;
        assert q == base + i;
      }
    }
  }

  /** The bytes of the items at the given positions, in order. */
  ghost function Bytes(buf: seq<Byte>, items: seq<nat>): seq<Byte> {
    if items == [] then [] else Bytes(buf, items[..|items| - 1]) + Item(buf, items[|items| - 1])
  }

  lemma BytesAppend(buf: seq<Byte>, items: seq<nat>, p: nat)
    ensures Bytes(buf, items + [p]) == Bytes(buf, items) + Item(buf, p)
  {
    assert (items + [p])[..|items|] == items;
  }

  /** Whole valid items, each inside [start, end), one after the other without overlap. */
  ghost predicate InOrder(buf: seq<Byte>, items: seq<nat>, start: nat, end: nat) {
    && end <= |buf|
    && (forall i :: 0 <= i < |items| ==> start <= items[i] && ItemAt(buf, items[i], end))
    && (forall i, j :: 0 <= i < j < |items| ==> items[i] + ItemLen(buf, items[i]) <= items[j])
  }

  lemma ItemInBuffer(buf: seq<Byte>, pos: nat, end: nat)
    requires ItemAt(buf, pos, end)
    ensures ItemAt(buf, pos, |buf|) && 2 * HEAD <= ItemLen(buf, pos) <= LOG_ITEM_MAX_LEN && pos + ItemLen(buf, pos) <= end
  {
  }

  /** A segment filled with valid items without gaps. */
  ghost predicate WellFormed(buf: seq<Byte>, start: nat, end: nat)
    decreases end - start
  {
    start == end || (ItemAt(buf, start, end) && WellFormed(buf, start + ItemLen(buf, start), end))
  }

  /** What has been copied when the reader stands at `pos`: whole items of [start, end) that lie before `pos`. */
  ghost predicate Copied(buf: seq<Byte>, start: nat, end: nat, pos: nat, items: seq<nat>, out: seq<Byte>) {
    && InOrder(buf, items, start, end)
    && (forall i :: 0 <= i < |items| ==> items[i] + ItemLen(buf, items[i]) <= pos)
    && out == Bytes(buf, items)
  }

  lemma OrderStep(buf: seq<Byte>, start: nat, end: nat, pos: nat, items: seq<nat>, p: nat)
    requires InOrder(buf, items, start, end) && start <= pos <= p && ItemAt(buf, p, end)
    requires forall i :: 0 <= i < |items| ==> items[i] + ItemLen(buf, items[i]) <= pos
    ensures InOrder(buf, items + [p], start, end)
  {
    var more := items + [p];
    forall i, j | 0 <= i < j < |more|
      ensures more[i] + ItemLen(buf, more[i]) <= more[j]
    {
      assert more[i] == items[i];
      assert j < |items| ==> more[j] == items[j];
    }
  }

  lemma CopiedStep(buf: seq<Byte>, start: nat, end: nat, pos: nat, items: seq<nat>, out: seq<Byte>, p: nat)
    requires Copied(buf, start, end, pos, items, out) && start <= pos <= p && ItemAt(buf, p, end)
    ensures p + ItemLen(buf, p) <= end
    ensures Copied(buf, start, end, p + ItemLen(buf, p), items + [p], out + Item(buf, p))
  {
    ItemInBuffer(buf, p, end);
    BytesAppend(buf, items, p);
    OrderStep(buf, start, end, pos, items, p);
  }

  lemma CopiedFurther(buf: seq<Byte>, start: nat, end: nat, pos: nat, items: seq<nat>, out: seq<Byte>, pos': nat)
    requires Copied(buf, start, end, pos, items, out) && pos <= pos'
    ensures Copied(buf, start, end, pos', items, out)
  {
  }

  /** On a well-formed segment nothing has been skipped, and the rest is still well formed. */
  ghost predicate Exact(buf: seq<Byte>, start: nat, end: nat, pos: nat, out: seq<Byte>) {
    start <= pos <= end <= |buf| && out == buf[start..pos] && WellFormed(buf, pos, end)
  }

  lemma ExactStep(buf: seq<Byte>, start: nat, end: nat, pos: nat, out: seq<Byte>)
    requires Exact(buf, start, end, pos, out) && pos < end
    ensures ItemAt(buf, pos, end) && 2 * HEAD <= ItemLen(buf, pos)
    ensures Exact(buf, start, end, pos + ItemLen(buf, pos), out + Item(buf, pos))
  {
    ItemInBuffer(buf, pos, end);
    var next := pos + ItemLen(buf, pos);
    assert buf[start..pos] + buf[pos..next] == buf[start..next];
  }

  lemma ExactJoin(buf: seq<Byte>, start: nat, end: nat, mid: nat, out: seq<Byte>, pos: nat, more: seq<Byte>)
    requires Exact(buf, start, end, mid, out) && Exact(buf, mid, end, pos, more)
    ensures Exact(buf, start, end, pos, out + more)
  {
    assert buf[start..mid] + buf[mid..pos] == buf[start..pos];
  }

  /** Where the search goes on after the given items. */
  ghost function After(buf: seq<Byte>, start: nat, items: seq<nat>): nat {
    if items == [] then start else items[|items| - 1] + ItemLen(buf, items[|items| - 1])
  }

  ghost predicate FirstOnGrid(buf: seq<Byte>, base: nat, end: nat, q: nat) {
    OnGrid(base, q) && ItemAt(buf, q, end) && NoItem(buf, base, q, end)
  }

  ghost function NextHealth(buf: seq<Byte>, base: nat, end: nat, q: nat): Health {
    if forall k :: Unfold(k) ==> FirstOnGrid(buf, base, end, q) then Sound else Broken
  }

  /** The item at `q` is the first one on the grid from `base`. */
  ghost predicate NextItem(buf: seq<Byte>, base: nat, end: nat, q: nat) {
    NextHealth(buf, base, end, q) == Sound
  }

  lemma NextFacts(buf: seq<Byte>, base: nat, end: nat, q: nat)
    requires NextItem(buf, base, end, q)
    ensures FirstOnGrid(buf, base, end, q)
  {
    assert Unfold(0);
  }

  /** Item `i` is the next one after those before it. */
  ghost predicate FollowsAt(buf: seq<Byte>, start: nat, end: nat, items: seq<nat>, i: nat) {
    i < |items| && NextItem(buf, After(buf, start, items[..i]), end, items[i])
  }

  ghost predicate Resynced(buf: seq<Byte>, start: nat, end: nat, items: seq<nat>) {
    forall i: nat :: i < |items| ==> FollowsAt(buf, start, end, items, i)
  }

  /**
   A parse of [start, end) into `count` bytes: whole items, each the next one after the last, until
   none is left (`left`) or the next one, at `off`, does not fit any more.
   */
  ghost predicate Parse(buf: seq<Byte>, count: nat, start: nat, end: nat, items: seq<nat>, out: seq<Byte>, off: nat, left: bool) {
    && Copied(buf, start, end, off, items, out) && |out| <= count && Resynced(buf, start, end, items)
    && (left ==> NoItem(buf, After(buf, start, items), end, end))
    && (!left ==> NextItem(buf, After(buf, start, items), end, off) && count < |out| + ItemLen(buf, off))
  }

  ghost function ParseHealth(buf: seq<Byte>, count: nat, start: nat, end: nat, items: seq<nat>, out: seq<Byte>, off: nat, left: bool): Health {
    if forall k :: Unfold(k) ==> Parse(buf, count, start, end, items, out, off, left) then Sound else Broken
  }

  /** `Parse`, folded. */
  ghost predicate Parsed(buf: seq<Byte>, count: nat, start: nat, end: nat, items: seq<nat>, out: seq<Byte>, off: nat, left: bool) {
    ParseHealth(buf, count, start, end, items, out, off, left) == Sound
  }

  lemma ParseFacts(buf: seq<Byte>, count: nat, start: nat, end: nat, items: seq<nat>, out: seq<Byte>, off: nat, left: bool)
    requires Parsed(buf, count, start, end, items, out, off, left)
    ensures Parse(buf, count, start, end, items, out, off, left)
  {
    assert Unfold(0);
  }

  lemma ResyncedStep(buf: seq<Byte>, start: nat, end: nat, items: seq<nat>, p: nat)
    requires Resynced(buf, start, end, items) && NextItem(buf, After(buf, start, items), end, p)
    ensures Resynced(buf, start, end, items + [p]) && After(buf, start, items + [p]) == p + ItemLen(buf, p)
  {
    var more := items + [p];
    forall i: nat | i < |more|
      ensures FollowsAt(buf, start, end, more, i)
    {
      assert more[..i] == items[..i];
      assert items[..|items|] == items;
      assert i < |items| ==> FollowsAt(buf, start, end, items, i);
    }
  }

  lemma NextUnique(buf: seq<Byte>, base: nat, end: nat, q: nat, r: nat)
    requires NextItem(buf, base, end, q) && NextItem(buf, base, end, r)
    ensures q == r
  {
    NextFacts(buf, base, end, q);
    NextFacts(buf, base, end, r);
  }

  /** Bytes only grow with the items. */
  lemma {:induction false} BytesGrow(buf: seq<Byte>, items: seq<nat>, n: nat)
    requires n <= |items|
    ensures |Bytes(buf, items[..n])| <= |Bytes(buf, items)|
  {
    if n == |items| {
      assert items[..n] == items;
    } else {
      var front := items[..|items| - 1];
      BytesGrow(buf, front, n);
      assert front[..n] == items[..n];
    }
  }

  /** Two parses of the same bytes agree as far as both go. */
  lemma {:induction false} SamePrefix(buf: seq<Byte>, start: nat, end: nat, a: seq<nat>, b: seq<nat>, n: nat)
    requires Resynced(buf, start, end, a) && Resynced(buf, start, end, b) && n <= |a| && n <= |b|
    ensures a[..n] == b[..n]
  {
    if n > 0 {
      SamePrefix(buf, start, end, a, b, n - 1);
      assert FollowsAt(buf, start, end, a, n - 1) && FollowsAt(buf, start, end, b, n - 1);
      NextUnique(buf, After(buf, start, a[..n - 1]), end, a[n - 1], b[n - 1]);
      assert a[..n] == a[..n - 1] + [a[n - 1]] && b[..n] == b[..n - 1] + [b[n - 1]];
    }
  }

  /** The item after a common prefix is the next one there. */
  lemma {:induction false} NextBeyond(buf: seq<Byte>, start: nat, end: nat, items: seq<nat>, longer: seq<nat>)
    requires Resynced(buf, start, end, items) && Resynced(buf, start, end, longer) && |items| < |longer|
    ensures longer[..|items|] == items && NextItem(buf, After(buf, start, items), end, longer[|items|])
  {
    SamePrefix(buf, start, end, items, longer, |items|);
    assert items[..|items|] == items;
    assert FollowsAt(buf, start, end, longer, |items|);
  }

  lemma {:induction false} BytesBeyond(buf: seq<Byte>, items: seq<nat>, n: nat)
    requires n < |items|
    ensures |Bytes(buf, items[..n])| + |Item(buf, items[n])| <= |Bytes(buf, items)|
  {
    OneMore(buf, 0, items, n);
    BytesGrow(buf, items, n + 1);
  }

  lemma {:induction false} NoneIsNext(buf: seq<Byte>, base: nat, end: nat, q: nat)
    ensures NextItem(buf, base, end, q) ==> !NoItem(buf, base, end, end) && q < end && |Item(buf, q)| == ItemLen(buf, q)
  {
    if NextItem(buf, base, end, q) {
      NextFacts(buf, base, end, q);
      ItemInBuffer(buf, q, end);
    }
  }

  /** A parse that stopped cannot have gone on. */
  lemma {:induction false} NotShorter(buf: seq<Byte>, count: nat, start: nat, end: nat, items: seq<nat>, off: nat, left: bool, longer: seq<nat>)
    requires Resynced(buf, start, end, items) && Resynced(buf, start, end, longer) && |Bytes(buf, longer)| <= count
    requires left ==> NoItem(buf, After(buf, start, items), end, end)
    requires !left ==> NextItem(buf, After(buf, start, items), end, off) && count < |Bytes(buf, items)| + ItemLen(buf, off)
    ensures |longer| <= |items|
  {
    if |items| < |longer| {
      NextBeyond(buf, start, end, items, longer);
      NoneIsNext(buf, After(buf, start, items), end, longer[|items|]);
      if !left {
        NextUnique(buf, After(buf, start, items), end, off, longer[|items|]);
        BytesBeyond(buf, longer, |items|);
      }
    }
  }

  /** What a parse delivers is determined by the bytes and the room for them. */
  lemma {:induction false} ParsedUnique(buf: seq<Byte>, count: nat, start: nat, end: nat,
                     items: seq<nat>, out: seq<Byte>, off: nat, left: bool, items': seq<nat>, out': seq<Byte>, off': nat, left': bool)
    requires Parsed(buf, count, start, end, items, out, off, left) && Parsed(buf, count, start, end, items', out', off', left')
    ensures items == items' && out == out' && left == left' && (!left ==> off == off')
  {
    ParseFacts(buf, count, start, end, items, out, off, left);
    ParseFacts(buf, count, start, end, items', out', off', left');
    NotShorter(buf, count, start, end, items, off, left, items');
    NotShorter(buf, count, start, end, items', off', left', items);
    SamePrefix(buf, start, end, items, items', |items|);
    assert items[..|items|] == items && items'[..|items|] == items';
    NoneIsNext(buf, After(buf, start, items), end, off);
    NoneIsNext(buf, After(buf, start, items), end, off');
    if !left && !left' {
      NextUnique(buf, After(buf, start, items), end, off, off');
    }
  }

  /** The parse so far, standing at `pos` right after its last item. */
  ghost predicate Parsing(buf: seq<Byte>, count: nat, start: nat, end: nat, items: seq<nat>, out: seq<Byte>, pos: nat) {
    && Copied(buf, start, end, pos, items, out) && |out| <= count
    && Resynced(buf, start, end, items) && pos == After(buf, start, items)
  }

  /** On a well-formed segment the next item starts where the last one ended. */
  lemma NextIsHere(buf: seq<Byte>, pos: nat, end: nat, q: nat)
    requires WellFormed(buf, pos, end) && pos < end
    ensures ItemAt(buf, pos, end) && !NoItem(buf, pos, end, end)
    ensures NextItem(buf, pos, end, q) ==> q == pos
  {
    assert OnGrid(pos, pos);
    if NextItem(buf, pos, end, q) {
      NextFacts(buf, pos, end, q);
    }
  }

  lemma {:induction false} OneMore(buf: seq<Byte>, start: nat, items: seq<nat>, n: nat)
    requires n < |items|
    ensures After(buf, start, items[..n + 1]) == items[n] + ItemLen(buf, items[n])
    ensures Bytes(buf, items[..n + 1]) == Bytes(buf, items[..n]) + Item(buf, items[n])
  {
    assert items[..n + 1] == items[..n] + [items[n]];
    BytesAppend(buf, items[..n], items[n]);
  }

  ghost function ExactHealth(buf: seq<Byte>, start: nat, end: nat, pos: nat, out: seq<Byte>): Health {
    if forall k :: Unfold(k) ==> Exact(buf, start, end, pos, out) then Sound else Broken
  }

  lemma WholeStep(buf: seq<Byte>, start: nat, end: nat, pos: nat, out: seq<Byte>, next: nat, pos': nat, out': seq<Byte>)
    requires ExactHealth(buf, start, end, pos, out) == Sound && NextItem(buf, pos, end, next)
    requires pos' == next + ItemLen(buf, next) && out' == out + Item(buf, next)
    ensures ExactHealth(buf, start, end, pos', out') == Sound && start + 2 * HEAD <= pos'
  {
    assert Unfold(0);
    NextWithin(buf, pos, end, next);
    NextIsHere(buf, pos, end, next);
    ExactStep(buf, start, end, pos, out);
  }

  lemma WholeStart(buf: seq<Byte>, start: nat, end: nat)
    requires WellFormed(buf, start, end) && start <= end <= |buf|
    ensures ExactHealth(buf, start, end, start, []) == Sound
  {
    assert Exact(buf, start, end, start, []);
  }

  /** The first `n` items have left no gap. */
  ghost predicate NoGap(buf: seq<Byte>, start: nat, end: nat, items: seq<nat>, n: nat) {
    n <= |items| && ExactHealth(buf, start, end, After(buf, start, items[..n]), Bytes(buf, items[..n])) == Sound
  }

  lemma Grown(buf: seq<Byte>, start: nat, pre: seq<nat>, next: nat)
    ensures After(buf, start, pre + [next]) == next + ItemLen(buf, next)
    ensures Bytes(buf, pre + [next]) == Bytes(buf, pre) + Item(buf, next)
  {
    BytesAppend(buf, pre, next);
  }

  lemma {:induction false} NoGapGrows(buf: seq<Byte>, start: nat, end: nat, pre: seq<nat>, next: nat)
    requires ExactHealth(buf, start, end, After(buf, start, pre), Bytes(buf, pre)) == Sound
    requires NextItem(buf, After(buf, start, pre), end, next)
    ensures ExactHealth(buf, start, end, After(buf, start, pre + [next]), Bytes(buf, pre + [next])) == Sound
    ensures start + 2 * HEAD <= After(buf, start, pre + [next])
  {
    var more := pre + [next];
    Grown(buf, start, pre, next);
    WholeStep(buf, start, end, After(buf, start, pre), Bytes(buf, pre), next, After(buf, start, more), Bytes(buf, more));
  }

  lemma {:induction false} NoGapNext(buf: seq<Byte>, start: nat, end: nat, items: seq<nat>, n: nat)
    requires NoGap(buf, start, end, items, n) && FollowsAt(buf, start, end, items, n)
    ensures NoGap(buf, start, end, items, n + 1) && start + 2 * HEAD <= After(buf, start, items[..n + 1])
  {
    assert items[..n + 1] == items[..n] + [items[n]];
    NoGapGrows(buf, start, end, items[..n], items[n]);
  }

  lemma {:induction false} NoGapYet(buf: seq<Byte>, start: nat, end: nat, items: seq<nat>)
    requires ExactHealth(buf, start, end, start, []) == Sound
    ensures NoGap(buf, start, end, items, 0)
  {
    assert items[..0] == [];
  }

  /** On a well-formed segment the items of a parse leave no gap. */
  lemma {:induction false} WholePrefix(buf: seq<Byte>, start: nat, end: nat, items: seq<nat>, n: nat)
    requires ExactHealth(buf, start, end, start, []) == Sound && Resynced(buf, start, end, items) && n <= |items|
    ensures NoGap(buf, start, end, items, n)
    ensures n > 0 ==> start + 2 * HEAD <= After(buf, start, items[..n])
  {
    if n == 0 {
      NoGapYet(buf, start, end, items);
    } else {
      WholePrefix(buf, start, end, items, n - 1);
      NoGapNext(buf, start, end, items, n - 1);
    }
  }

  lemma NextWithin(buf: seq<Byte>, base: nat, end: nat, q: nat)
    requires NextItem(buf, base, end, q)
    ensures base <= q < end
  {
    NextFacts(buf, base, end, q);
  }

  /** A parse of a well-formed segment is exact: it stops at the end or at an item that does not fit. */
  lemma {:induction false} WholeParse(buf: seq<Byte>, count: nat, start: nat, end: nat, items: seq<nat>, out: seq<Byte>, off: nat, left: bool)
    requires Parsed(buf, count, start, end, items, out, off, left) && WellFormed(buf, start, end) && start <= off <= end
    ensures Exact(buf, start, end, off, out) && (left <==> off == end)
    ensures start < end && count >= LOG_ITEM_MAX_LEN ==> start + 2 * HEAD <= off
  {
    var p := After(buf, start, items);
    ParseFacts(buf, count, start, end, items, out, off, left);
    WholeStart(buf, start, end);
    WholePrefix(buf, start, end, items, |items|);
    assert items[..|items|] == items;
    assert Unfold(0);
    if p < end {
      NextIsHere(buf, p, end, off);
    }
    NoneIsNext(buf, p, end, off);
    if start < end {
      NextIsHere(buf, start, end, start);
    }
  }

  /** `parse_log_item`: copies items from [start, end) while they fit into `count` bytes. */
  method ParseLogItem(buf: seq<Byte>, count: nat, maxLen: nat, start: nat, end: nat)
    returns (out: seq<Byte>, off: nat, left: bool, ghost items: seq<nat>)
    requires maxLen <= |buf| && end <= maxLen
    ensures Parsed(buf, count, start, end, items, out, off, left)
    ensures start <= off && (start < end ==> off <= end) && (end <= start ==> off == start && out == [] && left)
  {
    var pos := start;
    out, items := [], [];
    while pos < end
      invariant start <= pos && (start < end ==> pos <= end) && (end <= start ==> pos == start)
      invariant Parsing(buf, count, start, end, items, out, pos)
      invariant start == pos ==> out == []
      decreases end - pos
    {
      var copied, pos', out';
      ghost var items';
      copied, pos', out', items' := ParseOne(buf, count, maxLen, start, end, pos, out, items);
      if copied != Some(true) {
        return out, pos', copied.None?, items;
      }
      pos, out, items := pos', out', items';
    }
    return out, pos, true, items;
  }

  /** One round of the loop of `parse_log_item`: nothing left, the next item too large for the rest of the buffer, or copied. */
  method ParseOne(buf: seq<Byte>, count: nat, maxLen: nat, ghost start: nat, end: nat, pos: nat, out: seq<Byte>, ghost items: seq<nat>)
    returns (copied: Option<bool>, pos': nat, out': seq<Byte>, ghost items': seq<nat>)
    requires maxLen <= |buf| && start <= pos < end <= maxLen && Parsing(buf, count, start, end, items, out, pos)
    ensures pos <= pos' <= end
    ensures copied != Some(true) ==> Parsed(buf, count, start, end, items, out, pos', copied.None?)
    ensures copied == Some(false) ==> count < |out| + LOG_ITEM_MAX_LEN
    ensures copied == Some(true) ==>
      && Parsing(buf, count, start, end, items', out', pos') && |items'| == |items| + 1 && pos + 2 * HEAD <= pos'
      && NextItem(buf, pos, end, items'[|items|]) && pos' == items'[|items|] + ItemLen(buf, items'[|items|])
      && out' == out + Item(buf, items'[|items|])
  {
    var next;
    next, pos' := FindFrom(buf, maxLen, pos, end);
    CopiedFurther(buf, start, end, pos, items, out, pos');
    if next.None? {
      return None, pos', out, items;
    }
    NextFacts(buf, pos, end, pos');
    ResyncedStep(buf, start, end, items, pos');
    var fits;
    fits, pos', out', items' := TakeItem(buf, count, start, end, pos', out, items);
    copied := Some(fits);
  }

  /** Copies the item at `pos` if the rest of the user buffer holds it. */
  method TakeItem(buf: seq<Byte>, count: nat, ghost start: nat, ghost end: nat, pos: nat, out: seq<Byte>, ghost items: seq<nat>)
    returns (fits: bool, pos': nat, out': seq<Byte>, ghost items': seq<nat>)
    requires start <= pos && ItemAt(buf, pos, end) && |out| <= count && Copied(buf, start, end, pos, items, out)
    ensures fits <==> |out| + ItemLen(buf, pos) <= count
    ensures !fits ==> pos' == pos && out' == out && items' == items && count < |out| + LOG_ITEM_MAX_LEN
    ensures fits ==> pos' == pos + ItemLen(buf, pos) && pos + 2 * HEAD <= pos' <= end && out' == out + Item(buf, pos) && items' == items + [pos]
    ensures |out'| <= count && Copied(buf, start, end, pos', items', out')
  {
    ItemInBuffer(buf, pos, end);
    var len := ItemLen(buf, pos);
    if count - |out| < len {
      return false, pos, out, items;
    }
    CopiedStep(buf, start, end, pos, items, out, pos);
    return true, pos + len, out + buf[pos..pos + len], items + [pos];
  }

  /** The search from `pos` in a nonempty segment; an item that starts right there is the one found. */
  method FindFrom(buf: seq<Byte>, maxLen: nat, pos: nat, end: nat) returns (next: Option<nat>, pos': nat)
    requires maxLen <= |buf| && pos < end <= maxLen
    ensures pos <= pos' < end
    ensures next.Some? ==> next.value == pos' && NextItem(buf, pos, end, pos')
    ensures next.None? ==> NoItem(buf, pos, end, end)
    ensures ItemAt(buf, pos, end) ==> next == Some(pos)
  {
    next, pos' := GetNextLogItem(buf, maxLen, pos, end - pos, pos);
    assert pos + (end - pos) == end;
    assert OnGrid(pos, pos);
  }

  /** The part of `struct log_buffer_flag` that the reader looks at, as one snapshot of 32-bit values. */
  datatype Flag = Flag(lastPos: nat, writeLoops: nat, maxLen: nat)

  datatype ReadCheck = Refuse(ret: int) | NothingNew | Read

  /** `get_last_read_pos` */
  function LastReadPos(flag: Flag, rOff: nat, rLoops: nat, bufferMax: nat): ReadCheck {
    if bufferMax > LOG_BUFFER_MAX_LEN then Refuse(-EINVAL)
    else if flag.lastPos == rOff && flag.writeLoops == rLoops then NothingNew
    else if flag.maxLen < flag.lastPos || flag.maxLen > bufferMax then Refuse(-EFAULT)
    else if rOff > flag.maxLen then Refuse(-EFAULT)
    else Read
  }

  /** Everything delivered by a read: whole valid items inside the buffer, first those behind, then those before the wrap. */
  ghost predicate Delivered(buf: seq<Byte>, maxLen: nat, items: seq<nat>, items2: seq<nat>, out: seq<Byte>) {
    && InOrder(buf, items, 0, maxLen) && InOrder(buf, items2, 0, maxLen)
    && out == Bytes(buf, items) + Bytes(buf, items2)
  }

  lemma DeliveredFrom(buf: seq<Byte>, count: nat, maxLen: nat, start: nat, end: nat, pos: nat, items: seq<nat>, out: seq<Byte>, left: bool)
    requires Parsed(buf, count, start, end, items, out, pos, left) && end <= maxLen <= |buf|
    ensures |out| <= count && InOrder(buf, items, 0, maxLen) && out == Bytes(buf, items)
    ensures Delivered(buf, maxLen, items, [], out)
  {
    ParseFacts(buf, count, start, end, items, out, pos, left);
    forall i | 0 <= i < |items|
      ensures ItemAt(buf, items[i], maxLen)
    {
      assert ItemAt(buf, items[i], end);
    }
  }

  /** Where a reader stands: offset and loop. */
  datatype Place = Place(off: nat, loops: nat)

  /** The tail of the ring is parsed first; if nothing is left of it and room remains, the beginning after it, in the writer's loop. */
  ghost predicate WrapsWith(buf: seq<Byte>, count: nat, flag: Flag, from: Place, items: seq<nat>, items2: seq<nat>, to: Place,
                            first: seq<Byte>, mid: nat, left: bool, second: seq<Byte>, left2: bool) {
    && Parsed(buf, count, from.off, flag.maxLen, items, first, mid, left)
    && if count > |first| && left then Parsed(buf, count - |first|, 0, flag.lastPos, items2, second, to.off, left2) && to.loops == flag.writeLoops
       else items2 == [] && second == [] && to == Place(mid, from.loops)
  }

  ghost predicate WrappedRead(buf: seq<Byte>, count: nat, flag: Flag, from: Place, items: seq<nat>, items2: seq<nat>, out: seq<Byte>, to: Place) {
    exists first, mid, left, second, left2 ::
      WrapsWith(buf, count, flag, from, items, items2, to, first, mid, left, second, left2) && out == first + second
  }

  lemma Products(a: nat, b: nat, size: nat)
    requires a >= b
    ensures a * size >= b * size && (b + 1) * size == b * size + size && (b + 2) * size == b * size + size + size
  {
    assert (a - b) * size >= 0;
  }

  lemma RingAhead(w: nat, r: nat, p: nat, o: nat, size: nat)
    requires w != r && p <= size && o <= size && (o < size || p > 0)
    ensures w * size + p > r * size + o + size <==> w > r + 1 || (w == r + 1 && o < p)
  {
    Products(r, r, size);
    if w >= r + 2 {
      Products(w, r + 2, size);
    } else if w < r {
      Products(r, w + 1, size);
      Products(w, w, size);
    }
  }

  /** Position in the stream of all bytes ever written, for a ring of `size` bytes. */
  function InStream(p: Place, size: nat): nat {
    p.loops * size + p.off
  }

  class Reader {
    var rOff: nat
    var rLoops: nat

    constructor ()
      ensures rOff == 0 && rLoops == 0
    {
      rOff, rLoops := 0, 0;
    }

    /** `trigger_parse_log` */
    method TriggerParseLog(buf: seq<Byte>, count: nat, flag: Flag)
      returns (out: seq<Byte>, ghost items: seq<nat>, ghost items2: seq<nat>)
      requires flag.lastPos <= flag.maxLen <= |buf| && rOff <= flag.maxLen
      requires flag.writeLoops < TWO32 && rLoops < TWO32
      modifies this
      ensures |out| <= count && Delivered(buf, flag.maxLen, items, items2, out)
      ensures rOff <= flag.maxLen && rLoops < TWO32
      ensures old(rLoops) == flag.writeLoops ==> rLoops == flag.writeLoops && SameLoop(buf, count, flag, out)
      ensures old(rLoops) == flag.writeLoops ==> items2 == [] && exists left :: Parsed(buf, count, old(rOff), flag.lastPos, items, out, rOff, left)
      ensures old(rLoops) != flag.writeLoops ==>
        WrappedRead(buf, count, flag, old(StartOf(flag)), items, items2, out, Place(rOff, rLoops))
    {
      items2 := [];
      if flag.writeLoops == rLoops {
        var left;
        out, rOff, left, items := ParseLogItem(buf, count, flag.maxLen, rOff, flag.lastPos);
        DeliveredFrom(buf, count, flag.maxLen, old(rOff), flag.lastPos, rOff, items, out, left);
        if old(rOff) <= flag.lastPos && WellFormed(buf, old(rOff), flag.lastPos) {
          WholeParse(buf, count, old(rOff), flag.lastPos, items, out, rOff, left);
        }
        return;
      }
      if Overwritten(flag) {
        rOff := flag.lastPos;
        rLoops := (flag.writeLoops - 1) % TWO32;
      }
      out, items, items2 := ReadWrapped(buf, count, flag);
    }

    /** The writer has passed the reader, which then goes on at the oldest data. */
    predicate Overwritten(flag: Flag)
      reads this
    {
      flag.writeLoops > (rLoops + 1) % TWO32 || (flag.writeLoops == (rLoops + 1) % TWO32 && rOff < flag.lastPos)
    }

    /** While loop numbers do not wrap: exactly when the writer is more than a whole ring ahead. */
    lemma OverwrittenMeaning(flag: Flag)
      requires rLoops + 1 < TWO32 && rLoops != flag.writeLoops && rOff <= flag.maxLen && flag.lastPos <= flag.maxLen
      requires rOff < flag.maxLen || flag.lastPos > 0
      ensures Overwritten(flag) <==>
        InStream(Place(flag.lastPos, flag.writeLoops), flag.maxLen) > InStream(Place(rOff, rLoops), flag.maxLen) + flag.maxLen
    {
      RingAhead(flag.writeLoops, rLoops, flag.lastPos, rOff, flag.maxLen);
    }

    /** Where a wrapped read starts. */
    function StartOf(flag: Flag): Place
      reads this
    {
      if Overwritten(flag) then Place(flag.lastPos, (flag.writeLoops - 1) % TWO32) else Place(rOff, rLoops)
    }

    /** The two halves of a read across the end of the ring. */
    method ReadWrapped(buf: seq<Byte>, count: nat, flag: Flag)
      returns (out: seq<Byte>, ghost items: seq<nat>, ghost items2: seq<nat>)
      requires flag.lastPos <= flag.maxLen <= |buf| && rOff <= flag.maxLen
      requires flag.writeLoops < TWO32 && rLoops < TWO32
      modifies this
      ensures |out| <= count && Delivered(buf, flag.maxLen, items, items2, out)
      ensures rOff <= flag.maxLen && rLoops < TWO32
      ensures WrappedRead(buf, count, flag, old(Place(rOff, rLoops)), items, items2, out, Place(rOff, rLoops))
    {
      ghost var start, from := rOff, Place(rOff, rLoops);
      var left;
      out, rOff, left, items := ParseLogItem(buf, count, flag.maxLen, rOff, flag.maxLen);
      DeliveredFrom(buf, count, flag.maxLen, start, flag.maxLen, rOff, items, out, left);
      items2 := [];
      ghost var mid, first, left1 := rOff, out, left;
      if count > |out| && left {
        var more;
        more, rOff, left, items2 := ParseLogItem(buf, count - |out|, flag.maxLen, 0, flag.lastPos);
        DeliveredFrom(buf, count - |out|, flag.maxLen, 0, flag.lastPos, rOff, items2, more, left);
        out := out + more;
        rLoops := flag.writeLoops;
        assert WrapsWith(buf, count, flag, from, items, items2, Place(rOff, rLoops), first, mid, left1, more, left);
      } else {
        assert out + [] == out;
        assert WrapsWith(buf, count, flag, from, items, items2, Place(rOff, rLoops), first, mid, left1, [], false);
      }
    }

    /** A read within one loop: on a well-formed segment it continues exactly where the last one stopped and makes progress. */
    twostate predicate SameLoop(buf: seq<Byte>, count: nat, flag: Flag, out: seq<Byte>)
      reads this
    {
      old(rOff) <= flag.lastPos && WellFormed(buf, old(rOff), flag.lastPos) ==>
        && Exact(buf, old(rOff), flag.lastPos, rOff, out)
        && (old(rOff) < flag.lastPos && count >= LOG_ITEM_MAX_LEN ==> old(rOff) + 2 * HEAD <= rOff)
    }

    /** `process_tlogger_read` on a fixed snapshot of the flag. */
    method ProcessRead(buf: seq<Byte>, count: nat, flag: Flag, bufferMax: nat)
      returns (ret: int, out: seq<Byte>, ghost items: seq<nat>, ghost items2: seq<nat>)
      requires bufferMax <= |buf| && flag.writeLoops < TWO32 && rLoops < TWO32
      modifies this
      ensures |out| <= count && (ret == |out| || (ret < 0 && out == []))
      ensures count < LOG_ITEM_MAX_LEN || bufferMax > LOG_BUFFER_MAX_LEN ==> ret == -EINVAL
      ensures count >= LOG_ITEM_MAX_LEN && bufferMax <= LOG_BUFFER_MAX_LEN ==>
        var upToDate := old(rOff) == flag.lastPos && old(rLoops) == flag.writeLoops;
        var sane := flag.lastPos <= flag.maxLen <= bufferMax && old(rOff) <= flag.maxLen;
        && (upToDate ==> ret == 0)
        && (!upToDate && !sane ==> ret == -EFAULT)
        && (!upToDate && sane ==> ret == |out|)
        && (!upToDate && sane && old(rLoops) == flag.writeLoops ==>
              rLoops == old(rLoops) && items2 == [] && exists left :: Parsed(buf, count, old(rOff), flag.lastPos, items, out, rOff, left))
        && (!upToDate && sane && old(rLoops) != flag.writeLoops ==>
              WrappedRead(buf, count, flag, old(StartOf(flag)), items, items2, out, Place(rOff, rLoops)))
      ensures ret < 0 || (old(rOff) == flag.lastPos && old(rLoops) == flag.writeLoops) ==> out == [] && rOff == old(rOff) && rLoops == old(rLoops)
      ensures ret > 0 ==> Delivered(buf, bufferMax, items, items2, out)
      ensures rLoops < TWO32 && (old(rOff) <= bufferMax ==> rOff <= bufferMax)
      ensures old(rLoops) == flag.writeLoops && count >= LOG_ITEM_MAX_LEN && bufferMax <= LOG_BUFFER_MAX_LEN
              && flag.lastPos <= flag.maxLen <= bufferMax && old(rOff) <= flag.maxLen ==>
              ret >= 0 && rLoops == flag.writeLoops && SameLoop(buf, count, flag, out)
    {
      ret, out, items, items2 := 0, [], [], [];
      if count < LOG_ITEM_MAX_LEN {
        ret := -EINVAL;
        return;
      }
      var check := LastReadPos(flag, rOff, rLoops, bufferMax);
      if check.Refuse? {
        ret := check.ret;
        return;
      }
      if check.NothingNew? {
        return;
      }
      out, items, items2 := TriggerParseLog(buf, count, flag);
      DeliveredWider(buf, flag.maxLen, bufferMax, items, items2, out);
      ret := |out|;
    }

    /**
     Exactly once: whatever the buffer sizes of a sequence of reads, together they deliver the bytes of a
     well-formed segment from where the reader stood to where it stands, item by item, and every read
     before the end moves on.
     */
    method ReadMany(buf: seq<Byte>, counts: seq<nat>, flag: Flag, bufferMax: nat) returns (total: seq<Byte>)
      requires bufferMax <= |buf| && bufferMax <= LOG_BUFFER_MAX_LEN && flag.writeLoops < TWO32
      requires rLoops == flag.writeLoops && rOff <= flag.lastPos <= flag.maxLen <= bufferMax
      requires WellFormed(buf, rOff, flag.lastPos)
      requires forall i :: 0 <= i < |counts| ==> counts[i] >= LOG_ITEM_MAX_LEN
      modifies this
      ensures Exact(buf, old(rOff), flag.lastPos, rOff, total)
      ensures rOff == flag.lastPos || rOff >= old(rOff) + 2 * HEAD * |counts|
    {
      total := [];
      for n := 0 to |counts|
        invariant rLoops == flag.writeLoops && Exact(buf, old(rOff), flag.lastPos, rOff, total)
        invariant rOff == flag.lastPos || rOff >= old(rOff) + 2 * HEAD * n
      {
        ghost var from := rOff;
        var out := ReadOn(buf, counts[n], flag, bufferMax);
        ExactJoin(buf, old(rOff), flag.lastPos, from, total, rOff, out);
        total := total + out;
      }
    }

    /** One read of a well-formed segment within one loop. */
    method ReadOn(buf: seq<Byte>, count: nat, flag: Flag, bufferMax: nat) returns (out: seq<Byte>)
      requires bufferMax <= |buf| && bufferMax <= LOG_BUFFER_MAX_LEN && flag.writeLoops < TWO32
      requires rLoops == flag.writeLoops && rOff <= flag.lastPos <= flag.maxLen <= bufferMax
      requires WellFormed(buf, rOff, flag.lastPos) && count >= LOG_ITEM_MAX_LEN
      modifies this
      ensures rLoops == flag.writeLoops && Exact(buf, old(rOff), flag.lastPos, rOff, out)
      ensures rOff == flag.lastPos || rOff >= old(rOff) + 2 * HEAD
    {
      var ret, copied, items, items2 := ProcessRead(buf, count, flag, bufferMax);
      out := copied;
    }
  }

  lemma DeliveredWider(buf: seq<Byte>, maxLen: nat, wider: nat, items: seq<nat>, items2: seq<nat>, out: seq<Byte>)
    requires Delivered(buf, maxLen, items, items2, out) && maxLen <= wider <= |buf|
    ensures Delivered(buf, wider, items, items2, out)
  {
    forall i | 0 <= i < |items|
      ensures ItemAt(buf, items[i], wider)
    {
      assert ItemAt(buf, items[i], maxLen);
    }
    forall i | 0 <= i < |items2|
      ensures ItemAt(buf, items2[i], wider)
    {
      assert ItemAt(buf, items2[i], maxLen);
    }
  }
}

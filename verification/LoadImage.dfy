/**
 Loading a TA image (`load_image`): the file goes to the TEE in frames that fit a mailbox buffer,
 each headed by a flag that tells whether more follow.  The results of copying and sending a
 frame are inputs.
 */
module LoadImage {
  import opened Options
  import opened Folding
  import opened ZoneSpec
  import opened BuddyZone
  import opened Mailbox
  import opened Blocks
  import opened Machine
  import opened FreePages

  const SZ_1M: nat := 0x100000
  const SZ_8M: nat := 0x800000
  const SIZEOF_INT: nat := 4
  const SIZEOF_UUID: nat := 16

  datatype Frame = Frame(index: nat, flag: nat, payload: seq<Byte>)

  /** What the receiver has after a run of frames. */
  function Payloads(frames: seq<Frame>): seq<Byte> {
    if frames == [] then [] else Payloads(frames[..|frames| - 1]) + frames[|frames| - 1].payload
  }

  lemma PayloadsAppend(frames: seq<Frame>, f: Frame)
    ensures Payloads(frames + [f]) == Payloads(frames) + f.payload
  {
    assert (frames + [f])[..|frames|] == frames;
  }

  /** The frames carry the whole file. */
  ghost predicate Carry(frames: seq<Frame>, file: seq<Byte>) {
    Payloads(frames) == file
  }

  /** The frames carry the beginning of the file. */
  ghost predicate CarryPart(frames: seq<Frame>, file: seq<Byte>) {
    Payloads(frames) <= file
  }

  /** Frame `i` of a run of `n`: in sequence, flagged 0 exactly if last, nonempty and no larger than the buffer. */
  ghost predicate GoodFrame(f: Frame, i: nat, n: nat, room: nat) {
    f.index == i && f.flag == (if i == n - 1 then 0 else 1) && 0 < |f.payload| <= room
  }

  /** `load_times`: how many frames a file takes when `room` bytes fit in one. */
  function LoadTimes(size: nat, room: nat): nat
    requires room > 0
  {
    size / room + (if size % room != 0 then 1 else 0)
  }

  lemma LoadTimesBounds(size: nat, room: nat)
    requires room > 0 && size > 0
    ensures LoadTimes(size, room) >= 1
    ensures room * (LoadTimes(size, room) - 1) < size <= room * (LoadTimes(size, room) - 1) + room
  {
    var q, r := size / room, size % room;
    assert size == room * q + r;
    if r == 0 {
      assert q >= 1 by { assert q == 0 ==> room * q == 0; }
      assert room * (q - 1) == room * q - room;
    }
  }

  /** Bytes of the file that the first `k` frames carry. */
  function Loaded(size: nat, room: nat, k: nat): nat
    requires room > 0
  {
    if k < LoadTimes(size, room) then room * k else size
  }

  /** Each frame carries a full buffer, the last one the rest. */
  lemma {:induction false} LoadedStep(size: nat, room: nat, k: nat)
    requires room > 0 && size > 0 && k < LoadTimes(size, room)
    ensures 0 < Loaded(size, room, k + 1) - Loaded(size, room, k) <= room
    ensures Loaded(size, room, k + 1) <= size
    ensures Loaded(size, room, k + 1) == Loaded(size, room, k) + (if k == LoadTimes(size, room) - 1 then size - Loaded(size, room, k) else room)
  {
    LoadTimesBounds(size, room);
    if k < LoadTimes(size, room) - 1 {
      LessMultiple(room, k, LoadTimes(size, room) - 1);
      assert room * (k + 1) == room * k + room;
    }
  }

  /** One frame more carries the file one piece further. */
  lemma {:induction false} CarryOn(file: seq<Byte>, frames: seq<Frame>, from: nat, to: nat, f: Frame)
    requires from <= to <= |file| && Payloads(frames) == file[..from] && f.payload == file[from..to]
    ensures Payloads(frames + [f]) == file[..to]
  {
    PayloadsAppend(frames, f);
    assert file[..from] + file[from..to] == file[..to];
  }

  /** The frames sent so far are good and carry the first `loaded` bytes of the file. */
  ghost predicate SentOk(file: seq<Byte>, room: nat, frames: seq<Frame>, loaded: nat) {
    && room > 0 && |frames| <= LoadTimes(|file|, room) && loaded == Loaded(|file|, room, |frames|) <= |file|
    && Payloads(frames) == file[..loaded]
    && forall i :: 0 <= i < |frames| ==> GoodFrame(frames[i], i, LoadTimes(|file|, room), room)
  }

  ghost function SentHealth(file: seq<Byte>, room: nat, frames: seq<Frame>, loaded: nat): Health {
    if forall k :: Unfold(k) ==> SentOk(file, room, frames, loaded) then Sound else Broken
  }

  lemma {:induction false} NothingSent(file: seq<Byte>, room: nat)
    requires room > 0 && |file| > 0
    ensures SentHealth(file, room, [], 0) == Sound
  {
    LoadTimesBounds(|file|, room);
    assert SentOk(file, room, [], 0);
  }

  /** The next frame: a full buffer or, as the last one, the rest of the file. */
  lemma {:induction false} SendNext(file: seq<Byte>, room: nat, frames: seq<Frame>, loaded: nat, n: nat, flag: nat, size: int)
    requires SentHealth(file, room, frames, loaded) == Sound && |file| > 0 && room > 0
    requires n == LoadTimes(|file|, room) && |frames| < n
    requires if |frames| == n - 1 then flag == 0 && size == |file| - loaded else flag == 1 && size == room
    ensures 0 < size <= room && loaded + size <= |file|
    ensures SentHealth(file, room, frames + [Frame(|frames|, flag, file[loaded..loaded + size])], loaded + size) == Sound
  {
    assert Unfold(0);
    LoadedStep(|file|, room, |frames|);
    var f := Frame(|frames|, flag, file[loaded..loaded + size]);
    CarryOn(file, frames, loaded, loaded + size, f);
    assert SentOk(file, room, frames + [f], loaded + size);
  }

  lemma {:induction false} SentFacts(file: seq<Byte>, room: nat, frames: seq<Frame>, loaded: nat)
    requires SentHealth(file, room, frames, loaded) == Sound && |file| > 0 && room > 0
    ensures CarryPart(frames, file) && forall i :: 0 <= i < |frames| ==> GoodFrame(frames[i], i, LoadTimes(|file|, room), room)
    ensures |frames| == LoadTimes(|file|, room) ==> Carry(frames, file)
  {
    assert Unfold(0);
    assert file[..|file|] == file;
  }

  /** `load_image_by_frame` */
  method LoadImageByFrame(file: seq<Byte>, mbSize: nat, loadTimes: nat, copyOk: nat -> bool, sendOk: nat -> bool, ionOk: bool)
    returns (ret: int, frames: seq<Frame>)
    requires |file| > 0 && mbSize > SIZEOF_INT && loadTimes == LoadTimes(|file|, mbSize - SIZEOF_INT)
    ensures ret == 0 ==> Carry(frames, file) && |frames| == loadTimes
    ensures forall i :: 0 <= i < |frames| ==> GoodFrame(frames[i], i, loadTimes, mbSize - SIZEOF_INT)
    ensures CarryPart(frames, file)
    ensures ret != -EINVAL
    ensures ret == 0 <==> ionOk && forall i: nat :: i < loadTimes ==> copyOk(i) && sendOk(i)
  {
    var room := mbSize - SIZEOF_INT;
    LoadTimesBounds(|file|, room);
    NothingSent(file, room);
    var flag, index := 1, 0;
    var loaded: nat := 0;
    frames := [];
    while index < loadTimes
      invariant 0 <= index <= loadTimes && |frames| == index && SentHealth(file, room, frames, loaded) == Sound
      invariant if index < loadTimes then flag == 1 else ionOk
      invariant forall i: nat :: i < index ==> copyOk(i) && sendOk(i)
    {
      SentFacts(file, room, frames, loaded);
      var size: int := room;
      if index == loadTimes - 1 {
        flag, size := 0, |file| - loaded;
      }
      SendNext(file, room, frames, loaded, loadTimes, flag, size);
      if size > room {
        assert false;
        return -EINVAL, frames;
      }
      if !copyOk(index) {
        return -EFAULT, frames;
      }
      frames := frames + [Frame(index, flag, file[loaded..loaded + size])];
      loaded := loaded + size;
      SentFacts(file, room, frames, loaded);
      if !sendOk(index) {
        return -EFAULT, frames;
      }
      if flag == 0 && !ionOk {
        return -EPERM, frames;
      }
      index := index + 1;
    }
    SentFacts(file, room, frames, loaded);
    return 0, frames;
  }

  /** The buffers of a load: frame memory, command pack and the returned uuid. */
  datatype Buffers = Buffers(mem: nat, pack: nat, uuid: nat)

  ghost predicate Holding(base: LiveMap, b: Buffers, live: LiveMap) {
    && b.mem !in base && b.pack !in base && b.uuid !in base
    && b.mem != b.pack && b.mem != b.uuid && b.pack != b.uuid
    && b.mem in live && b.pack in live && b.uuid in live
    && Without(Without(Without(live, b.mem), b.pack), b.uuid) == base
  }

  /** The size after `k` halvings is the first that the pool can serve. */
  ghost predicate FirstServed(m: nat, live: LiveMap, start: nat, k: nat) {
    Serves(m, live, Shr(start, k)) && forall j: nat :: j < k ==> !Serves(m, live, Shr(start, j))
  }

  /** The halving loop of `alloc_for_load_image`: the first halving of `start` that the pool can serve, if any. */
  method AllocFrameMemory(z: Zone, start: nat) returns (size: nat, mem: Option<nat>, ghost halvings: nat)
    requires Usable(z)
    modifies z`live, z.tags, z.areas
    ensures Usable(z)
    ensures mem.None? ==> z.live == old(z.live) && forall k: nat :: !Serves(z.maxOrder, old(z.live), Shr(start, k))
    ensures mem.Some? ==> size == Shr(start, halvings) && FirstServed(z.maxOrder, old(z.live), start, halvings)
    ensures mem.Some? ==> 0 < size <= start && mem.value !in old(z.live) && z.live == old(z.live)[mem.value := OrderOf(size)]
    ensures mem.Some? ==> FreeRun(z.maxOrder, old(z.live), mem.value, OrderOf(size))
  {
    size, mem, halvings := start, None, 0;
    while size > 0
      invariant size <= start && size == Shr(start, halvings) && Usable(z) && z.live == old(z.live) && mem.None?
      invariant forall j: nat :: j < halvings ==> !Serves(z.maxOrder, old(z.live), Shr(start, j))
    {
      mem := MailboxAlloc(z, size);
      if mem.Some? {
        return;
      }
      ShrStep(start, halvings);
      size, halvings := size / 2, halvings + 1;
    }
    forall k: nat
      ensures !Serves(z.maxOrder, old(z.live), Shr(start, k))
    {
      if k >= halvings {
        ShrStaysZero(start, halvings, k);
      }
    }
  }

  lemma {:induction false} ShrStaysZero(n: nat, j: nat, k: nat)
    requires j <= k && Shr(n, j) == 0
    ensures Shr(n, k) == 0
    decreases k
  {
    if j < k {
      ShrStaysZero(n, j, k - 1);
      ShrStep(n, k - 1);
    }
  }

  lemma TwoBack(base: LiveMap, p: nat, j: nat, q: nat, k: nat)
    requires p !in base && q !in base[p := j]
    ensures Without(base[p := j], p) == base
    ensures Without(Without(base[p := j][q := k], p), q) == base
  {
  }

  lemma ThreeHeld(base: LiveMap, b: Buffers, i: nat, j: nat, k: nat)
    requires b.mem !in base && b.pack !in base[b.mem := i] && b.uuid !in base[b.mem := i][b.pack := j]
    ensures Holding(base, b, base[b.mem := i][b.pack := j][b.uuid := k])
  {
  }

  /** Two requests of at most a page, one after the other, are served exactly when two pages are free. */
  lemma PackServed(z: Zone)
    ensures CanServe(z, SZ_4K) <==> |FreeOf(z.maxOrder, z.live)| >= 1
    ensures CanServe(z, SIZEOF_UUID) <==> |FreeOf(z.maxOrder, z.live)| >= 1
  {
    PageServed(z.maxOrder, z.live, SZ_4K);
    PageServed(z.maxOrder, z.live, SIZEOF_UUID);
  }

  /** The command pack and the uuid, or neither. */
  method AllocPackAndUuid(z: Zone, mem: nat, ghost base: LiveMap, ghost order: nat) returns (b: Option<Buffers>)
    requires Usable(z) && mem !in base && z.live == base[mem := order]
    modifies z`live, z.tags, z.areas
    ensures Usable(z)
    ensures b.None? ==> z.live == base
    ensures b.Some? ==> Holding(base, b.value, z.live)
    ensures b.Some? <==> |FreeOf(z.maxOrder, old(z.live))| >= 2
  {
    PackServed(z);
    PageServed(z.maxOrder, z.live, SZ_4K);
    ghost var live := z.live;
    var pack := MailboxAlloc(z, SZ_4K);
    if pack.None? {
      GiveBack(z, mem);
      return None;
    }
    TakingPages(z.maxOrder, live, pack.value, 0);
    PackServed(z);
    var uuid := MailboxAlloc(z, SIZEOF_UUID);
    if uuid.None? {
      TwoBack(base, mem, order, pack.value, OrderOf(SZ_4K));
      GiveBack(z, mem);
      GiveBack(z, pack.value);
      return None;
    }
    b := Some(Buffers(mem, pack.value, uuid.value));
    ThreeHeld(base, b.value, order, OrderOf(SZ_4K), OrderOf(SIZEOF_UUID));
  }

  /** After `k` halvings the pool can serve the frame memory, for the first time, and has two more pages. */
  ghost predicate RoomToLoad(m: nat, live: LiveMap, start: nat, k: nat) {
    FirstServed(m, live, start, k) && |FreeOf(m, live)| >= Pow2(OrderOf(Shr(start, k))) + 2
  }

  /** `alloc_for_load_image`: all three buffers, or none. */
  method AllocForLoadImage(z: Zone, start: nat) returns (size: nat, b: Option<Buffers>, ghost halvings: nat)
    requires Usable(z)
    modifies z`live, z.tags, z.areas
    ensures Usable(z)
    ensures b.Some? ==> RoomToLoad(z.maxOrder, old(z.live), start, halvings)
    ensures b.None? ==> forall k: nat :: !RoomToLoad(z.maxOrder, old(z.live), start, k)
    ensures b.None? ==> z.live == old(z.live)
    ensures b.Some? ==> 0 < size <= start && Holding(old(z.live), b.value, z.live)
    ensures b.Some? ==> size == Shr(start, halvings) && FirstServed(z.maxOrder, old(z.live), start, halvings)
  {
    var mem;
    size, mem, halvings := AllocFrameMemory(z, start);
    b := None;
    if mem.Some? {
      TakingPages(z.maxOrder, old(z.live), mem.value, OrderOf(size));
      b := AllocPackAndUuid(z, mem.value, old(z.live), OrderOf(size));
    }
  }

  /** `free_load_image_buffer` */
  method FreeLoadImageBuffer(z: Zone, b: Buffers, ghost base: LiveMap)
    requires Usable(z) && Holding(base, b, z.live)
    modifies z`live, z.tags, z.areas
    ensures Usable(z) && z.live == base
  {
    GiveBack(z, b.mem);
    GiveBack(z, b.pack);
    GiveBack(z, b.uuid);
  }

  /** First buffer size that `load_image` asks for. */
  function FirstSize(fileSize: nat): nat {
    if fileSize > SZ_1M - SIZEOF_INT then SZ_1M else PageAlign(fileSize)
  }

  /** 1 MB for files that do not fit a buffer of 1 MB with its flag, else the least whole number of pages that holds the file. */
  lemma FirstSizeMeaning(fileSize: nat, pages: nat)
    ensures FirstSize(fileSize) <= SZ_1M
    ensures fileSize + SIZEOF_INT > SZ_1M ==> FirstSize(fileSize) == SZ_1M
    ensures fileSize + SIZEOF_INT <= SZ_1M ==> fileSize <= FirstSize(fileSize) && FirstSize(fileSize) % PAGE_SIZE == 0
    ensures fileSize + SIZEOF_INT <= SZ_1M && fileSize <= PAGE_SIZE * pages ==> FirstSize(fileSize) <= PAGE_SIZE * pages
  {
    PageAlignLeast(fileSize, pages);
    PageAlignLeast(fileSize, 256);
  }

  /** A buffer of this size has room beside the flag, and every frame is copied and sent. */
  ghost predicate Loads(fileSize: nat, size: nat, copyOk: nat -> bool, sendOk: nat -> bool, ionOk: bool) {
    size > SIZEOF_INT && ionOk && forall i: nat :: i < LoadTimes(fileSize, size - SIZEOF_INT) ==> copyOk(i) && sendOk(i)
  }

  /** `load_image` once the buffers are there. */
  method LoadWithBuffers(z: Zone, file: seq<Byte>, size: nat, b: Buffers, ghost base: LiveMap,
                         copyOk: nat -> bool, sendOk: nat -> bool, ionOk: bool)
    returns (ret: int, frames: seq<Frame>)
    requires Usable(z) && Holding(base, b, z.live) && |file| > 0
    modifies z`live, z.tags, z.areas
    ensures Usable(z) && z.live == base && ret != -EINVAL
    ensures ret == 0 <==> Loads(|file|, size, copyOk, sendOk, ionOk)
    ensures ret == 0 ==> SIZEOF_INT < size && Carry(frames, file) && |frames| > 0
    ensures ret == 0 ==> forall i :: 0 <= i < |frames| ==> GoodFrame(frames[i], i, |frames|, size - SIZEOF_INT)
    ensures CarryPart(frames, file)
  {
    if size <= SIZEOF_INT {
      FreeLoadImageBuffer(z, b, base);
      return -ENOMEM, [];
    }
    var loadTimes := |file| / (size - SIZEOF_INT);
    if |file| % (size - SIZEOF_INT) != 0 {
      loadTimes := loadTimes + 1;
    }
    LoadTimesBounds(|file|, size - SIZEOF_INT);
    ret, frames := LoadImageByFrame(file, size, loadTimes, copyOk, sendOk, ionOk);
    FreeLoadImageBuffer(z, b, base);
  }

  /**
   `tc_ns_load_image` with `load_image`: on success the TEE has received exactly the file, in flagged
   frames; on failure a prefix of it.  Either way every mailbox block is back.
   */
  method LoadImageFile(z: Zone, file: seq<Byte>, copyOk: nat -> bool, sendOk: nat -> bool, ionOk: bool)
    returns (ret: int, frames: seq<Frame>, size: nat)
    requires Usable(z)
    modifies z`live, z.tags, z.areas
    ensures Usable(z) && z.live == old(z.live)
    ensures |file| == 0 || |file| > SZ_8M ==> ret == -EINVAL && frames == []
    ensures ret == -EINVAL ==> |file| == 0 || |file| > SZ_8M
    ensures ret == 0 <==>
      && 0 < |file| <= SZ_8M
      && exists k: nat :: RoomToLoad(z.maxOrder, old(z.live), FirstSize(|file|), k) && Loads(|file|, Shr(FirstSize(|file|), k), copyOk, sendOk, ionOk)
    ensures ret == 0 ==> Carry(frames, file) && |frames| > 0
    ensures ret == 0 ==> SIZEOF_INT < size <= SZ_1M
    ensures ret == 0 ==> forall i :: 0 <= i < |frames| ==> GoodFrame(frames[i], i, |frames|, size - SIZEOF_INT)
    ensures CarryPart(frames, file)
  {
    if |file| == 0 || |file| > SZ_8M {
      return -EINVAL, [], 0;
    }
    var b;
    ghost var halvings;
    FirstSizeMeaning(|file|, 0);
    size, b, halvings := AllocForLoadImage(z, FirstSize(|file|));
    if b.None? {
      return -ENOMEM, [], size;
    }
    ret, frames := LoadWithBuffers(z, file, size, b.value, old(z.live), copyOk, sendOk, ionOk);
  }
}

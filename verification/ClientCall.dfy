/**
 One client call (`tc_client_call`): a command pack and up to four parameter buffers are taken
 from the mailbox and the shared memory objects, the command is sent, and everything goes back.
 Reads of client memory, the ION lookup and the TEE's answer are inputs.
 */
module ClientCall {
  import opened Options
  import opened Folding
  import opened Machine
  import opened ZoneSpec
  import opened BuddyZone
  import opened Mailbox
  import opened SharedTable
  import opened SharedMem
  import opened OpRecord

  /** `update_input_data`: client data is copied in only for inputs. */
  predicate InputOk(ctx: Context, i: nat)
    requires i < |ctx.params|
  {
    Ty(ctx, i) == TEEC_MEMREF_TEMP_INPUT || Ty(ctx, i) == TEEC_MEMREF_TEMP_INOUT ==> ctx.params[i].dataOk
  }

  predicate UserAt(objs: Objects, id: nat, addr: nat) {
    id in objs && objs[id].userAddr == Some(addr)
  }

  /** The object at place `n` is the first on the list whose user mapping starts at this address. */
  predicate FirstUser(objs: Objects, list: seq<nat>, addr: nat, n: nat) {
    n < |list| && UserAt(objs, list[n], addr) && forall m :: 0 <= m < n ==> !UserAt(objs, list[m], addr)
  }

  /** A partial reference names object `id`: the first of the device at the address given, with the range named inside it. */
  ghost predicate RefNames(ctx: Context, objs: Objects, lists: map<nat, seq<nat>>, p: Param, id: nat) {
    && ctx.dev in lists && (exists n: nat :: FirstUser(objs, lists[ctx.dev], p.buffer, n) && lists[ctx.dev][n] == id)
    && p.sizeOk && p.size > 0 && id in objs && p.offset + p.size <= objs[id].len
  }

  /** It names one object at most. */
  lemma RefNamesOne(ctx: Context, objs: Objects, lists: map<nat, seq<nat>>, p: Param, a: nat, b: nat)
    requires RefNames(ctx, objs, lists, p, a) && RefNames(ctx, objs, lists, p, b)
    ensures a == b
  {
    var i: nat :| FirstUser(objs, lists[ctx.dev], p.buffer, i) && lists[ctx.dev][i] == a;
    var j: nat :| FirstUser(objs, lists[ctx.dev], p.buffer, j) && lists[ctx.dev][j] == b;
    assert i == j;
  }

  /** A partial reference is accepted: it names an object, and that object is in reserved memory or its copy has room. */
  ghost predicate RefOk(ctx: Context, objs: Objects, lists: map<nat, seq<nat>>, m: nat, live: LiveMap, p: Param) {
    !p.physZero && exists id :: RefNames(ctx, objs, lists, p, id) && (objs[id].memType == Reserved || Serves(m, live, p.size))
  }

  /** Page list parameters: the ION list, and user pages passed without a copy. */
  ghost predicate ListOk(ctx: Context, m: nat, live: LiveMap, i: nat)
    requires i < |ctx.params|
  {
    var p := ctx.params[i];
    if Ty(ctx, i) == TEEC_ION_SGLIST_INPUT then p.valueOk && p.ionOk && Serves(m, live, p.ionSize)
    else
      && ctx.nocopy && p.sizeOk && 0 < p.size <= SZ_256M && p.offset < SZ_256M && p.buffer + p.offset < TWO64 - 1
      && p.fillOk && Serves(m, live, PageListSize(p))
  }

  /** Parameter `i` is accepted by a mailbox of maximum order `m` with these blocks handed out. */
  ghost predicate ParamOk(ctx: Context, objs: Objects, lists: map<nat, seq<nat>>, m: nat, live: LiveMap, i: nat)
    requires i < |ctx.params|
  {
    var p, ty := ctx.params[i], Ty(ctx, i);
    if IsTmpMem(ty) then p.sizeOk && p.size <= MAX_SHARED_SIZE && (p.size == 0 || (Serves(m, live, p.size) && InputOk(ctx, i)))
    else if IsRefMem(ty) then RefOk(ctx, objs, lists, m, live, p)
    else if IsValue(ty) then p.valueOk
    else if ty == TEEC_ION_INPUT then p.valueOk && p.ionOk
    else if ty == TEEC_ION_SGLIST_INPUT || ty == TEEC_MEMREF_SHARED_INOUT then ListOk(ctx, m, live, i)
    else true
  }

  /** The object named needs a mailbox copy for which there is no room. */
  ghost predicate NoCopyRoom(ctx: Context, objs: Objects, lists: map<nat, seq<nat>>, m: nat, live: LiveMap, p: Param) {
    exists id :: RefNames(ctx, objs, lists, p, id) && objs[id].memType != Reserved && !Serves(m, live, p.size)
  }

  /** What a parameter that is not accepted makes the call return. */
  ghost function FailCode(ctx: Context, objs: Objects, lists: map<nat, seq<nat>>, m: nat, live: LiveMap, i: nat): int
    requires i < |ctx.params|
  {
    var p, ty := ctx.params[i], Ty(ctx, i);
    if IsTmpMem(ty) then (if p.sizeOk && p.size <= MAX_SHARED_SIZE && !Serves(m, live, p.size) then -ENOMEM else -EFAULT)
    else if IsRefMem(ty) then (if NoCopyRoom(ctx, objs, lists, m, live, p) then -ENOMEM else -EINVAL)
    else if ty != TEEC_MEMREF_SHARED_INOUT then -EFAULT
    else if !ctx.nocopy then -1
    else if p.sizeOk && 0 < p.size <= SZ_256M && p.offset < SZ_256M && p.buffer + p.offset < TWO64 - 1 then -EFAULT
    else -EINVAL
  }

  /**
   The mailbox along the parameters: each one accepted in the state its predecessors left, up to the
   first that is not.
   */
  ghost predicate Along(ctx: Context, objs: Objects, lists: map<nat, seq<nat>>, m: nat, lives: seq<LiveMap>) {
    |ctx.params| == 4 && 1 <= |lives| <= 5 && AlongHealth(ctx, objs, lists, m, lives) == Sound
  }

  ghost function AlongHealth(ctx: Context, objs: Objects, lists: map<nat, seq<nat>>, m: nat, lives: seq<LiveMap>): Health
    requires |ctx.params| == 4 && 1 <= |lives| <= 5
  {
    if forall u :: Unfold(u) ==>
         && SoFar(ctx, objs, lists, m, lives)
         && (|lives| < 5 ==> !ParamOk(ctx, objs, lists, m, lives[|lives| - 1], |lives| - 1))
    then Sound else Broken
  }

  lemma AlongFacts(ctx: Context, objs: Objects, lists: map<nat, seq<nat>>, m: nat, lives: seq<LiveMap>)
    requires Along(ctx, objs, lists, m, lives)
    ensures forall k: nat :: k + 1 < |lives| ==> ParamOk(ctx, objs, lists, m, lives[k], k) && Extends(lives[k], lives[k + 1])
    ensures |lives| < 5 ==> !ParamOk(ctx, objs, lists, m, lives[|lives| - 1], |lives| - 1)
  {
    assert Unfold(0);
  }

  /** Parameter `i` has just been given object `id`, with a copy of `size` bytes unless it is in place. */
  ghost predicate RefRecorded(op: Op, op': Op, i: nat, id: nat, live: LiveMap, size: nat, inPlace: bool) {
    && Shaped(op) && i < 4 && Shaped(op')
    && op' == SetRef(op, i, Some(id), op'.mb[i]) && op'.mb[i].Some?
    && (op'.mb[i].value.InPlace? <==> inPlace)
    && (!inPlace ==> HoldsBlock(Some(op'.mb[i].value.page), live, size))
  }

  ghost predicate SoFar(ctx: Context, objs: Objects, lists: map<nat, seq<nat>>, m: nat, lives: seq<LiveMap>)
    requires |ctx.params| == 4
  {
    |lives| <= 5 && forall k: nat :: k + 1 < |lives| ==> ParamOk(ctx, objs, lists, m, lives[k], k) && Extends(lives[k], lives[k + 1])
  }

  /** One parameter more is served, the others are as before. */
  lemma OneServed(ctx: Context, objs: Objects, op: Op, live: LiveMap, op': Op, live': LiveMap, i: nat)
    requires |ctx.params| == 4 && OnlyAt(op, op', i) && Extends(live, live') && Served(ctx, objs, op', live', i)
    requires forall j: nat :: j < i ==> Served(ctx, objs, op, live, j)
    ensures forall j: nat :: j <= i ==> Served(ctx, objs, op', live', j)
    ensures forall j: nat :: j != i && ClearAt(op, j) ==> ClearAt(op', j)
  {
    StillClear(op, op', i);
    forall j: nat | j < i
      ensures Served(ctx, objs, op', live', j)
    {
      StillServed(ctx, objs, op, live, op', live', i, j);
    }
  }

  /** With its object recorded and its type translated, a partial reference is served. */
  lemma RefServed(ctx: Context, objs: Objects, op: Op, op': Op, i: nat, id: nat, live: LiveMap)
    requires |ctx.params| == 4 && i < 4 && IsRefMem(Ty(ctx, i)) && ClearAt(op, i) && id in objs
    requires RefRecorded(op, op', i, id, live, ctx.params[i].size, objs[id].memType == Reserved)
    requires ctx.params[i].sizeOk && ctx.params[i].size > 0 && RefersTo(ctx.dev, objs, Some(id), ctx.params[i])
    ensures Served(ctx, objs, SetTrans(op', i, TransType(Ty(ctx, i), objs[id].memType == Reserved)), live, i)
  {
  }

  lemma TmpServed(ctx: Context, objs: Objects, op: Op, tmp: Option<nat>, i: nat, live: LiveMap)
    requires |ctx.params| == 4 && i < 4 && IsTmpMem(Ty(ctx, i)) && ClearAt(op, i) && op.trans[i] == Ty(ctx, i)
    requires ctx.params[i].sizeOk && ctx.params[i].size <= MAX_SHARED_SIZE && HoldsBlock(tmp, live, ctx.params[i].size)
    ensures Served(ctx, objs, SetTmp(op, i, tmp), live, i)
  {
  }

  class Call {
    const mailbox: Zone
    const shm: SharedMemory
    var op: Op
    /** `paramtypes` of the command pack. */
    var packed: nat
    var inited: bool
    ghost var base: LiveMap
    ghost var t0: Table
    ghost var holds0: multiset<nat>

    constructor (mailbox: Zone, shm: SharedMemory)
      ensures this.mailbox == mailbox && this.shm == shm && op == EMPTY_OP && !inited
      ensures base == mailbox.live && t0 == shm.t && holds0 == shm.holds
    {
      this.mailbox, this.shm := mailbox, shm;
      op, packed, inited := EMPTY_OP, 0, false;
      base, t0, holds0 := mailbox.live, shm.t, shm.holds;
    }

    /** The two pools are different objects. */
    ghost predicate Apart()
      reads this, shm
    {
      mailbox != shm.pool && mailbox.tags != shm.pool.tags && mailbox.areas != shm.pool.areas
    }

    ghost predicate Sides()
      reads this, mailbox, mailbox.tags, mailbox.areas, shm, shm.pool, shm.pool.tags, shm.pool.areas
    {
      && Usable(mailbox) && shm.Valid() && Apart()
      && shm.t.objs == t0.objs && shm.t.lists == t0.lists && shm.t.nextId == t0.nextId
    }

    /** Pools and objects are sound, no object came or went, and `o` records all that the call holds. */
    ghost predicate Inv(ctx: Context, o: Op)
      reads this, mailbox, mailbox.tags, mailbox.areas, shm, shm.pool, shm.pool.tags, shm.pool.areas
    {
      && Sides()
      && RecordOk(ctx, t0.objs, o, base, mailbox.live, holds0, shm.holds)
    }

    /** Writes down what was just taken. */
    method Record(ctx: Context, o: Op)
      requires Sides() && RecordOk(ctx, t0.objs, o, base, mailbox.live, holds0, shm.holds)
      modifies this`op
      ensures Inv(ctx, op) && op == o
    {
      op := o;
    }

    /** Takes a mailbox block for parameter `i` and records it as its temporary buffer. */
    method TakeTmp(ctx: Context, i: nat, size: nat) returns (got: bool)
      requires Inv(ctx, op) && ClearAt(op, i) && TmpType(ctx, i)
      modifies this`op, mailbox`live, mailbox.tags, mailbox.areas
      ensures Inv(ctx, op) && OnlyAt(old(op), op, i) && Extends(old(mailbox.live), mailbox.live)
      ensures got <==> old(CanServe(mailbox, size))
      ensures !got ==> op == old(op)
      ensures got ==> op == SetTmp(old(op), i, op.tmp[i]) && HoldsBlock(op.tmp[i], mailbox.live, size)
    {
      var page := MailboxAlloc(mailbox, size);
      if page.None? {
        return false;
      }
      TmpTaken(ctx, t0.objs, op, base, old(mailbox.live), holds0, shm.holds, i, page.value, OrderOf(size));
      op := SetTmp(op, i, page);
      return true;
    }

    method SetType(ctx: Context, i: nat, ty: nat)
      requires Inv(ctx, op) && Shaped(op) && i < 4
      modifies this`op
      ensures Inv(ctx, op) && op == SetTrans(old(op), i, ty)
    {
      TransSet(ctx, t0.objs, op, base, mailbox.live, holds0, shm.holds, i, ty);
      op := SetTrans(op, i, ty);
    }

    /** `alloc_for_tmp_mem` */
    method AllocForTmpMem(ctx: Context, i: nat) returns (ret: int)
      requires Inv(ctx, op) && ClearAt(op, i) && |ctx.params| == 4 && IsTmpMem(Ty(ctx, i))
      modifies this`op, mailbox`live, mailbox.tags, mailbox.areas
      ensures Inv(ctx, op) && OnlyAt(old(op), op, i) && Extends(old(mailbox.live), mailbox.live)
      ensures var p := ctx.params[i];
              ret == 0 <==> p.sizeOk && p.size <= MAX_SHARED_SIZE && (p.size == 0 || (old(CanServe(mailbox, p.size)) && InputOk(ctx, i)))
      ensures ret != 0 ==> ret == FailCode(ctx, t0.objs, t0.lists, mailbox.maxOrder, old(mailbox.live), i)
      ensures ret == 0 ==> Served(ctx, t0.objs, op, mailbox.live, i)
    {
      var p := ctx.params[i];
      if !p.sizeOk || p.size > MAX_SHARED_SIZE {
        return -EFAULT;
      }
      SetType(ctx, i, Ty(ctx, i));
      ghost var typed := op;
      if p.size == 0 {
        TmpServed(ctx, t0.objs, typed, None, i, mailbox.live);
        return 0;
      }
      var got := TakeTmp(ctx, i, p.size);
      if !got {
        return -ENOMEM;
      }
      TmpServed(ctx, t0.objs, typed, op.tmp[i], i, mailbox.live);
      if (Ty(ctx, i) == TEEC_MEMREF_TEMP_INPUT || Ty(ctx, i) == TEEC_MEMREF_TEMP_INOUT) && !p.dataOk {
        return -EFAULT;
      }
      return 0;
    }

    /** The list walk of `alloc_for_ref_mem`: the first listed object mapped at this user address. */
    method FindShared(dev: nat, addr: nat) returns (id: Option<nat>)
      requires shm.Valid() && dev in shm.t.lists
      ensures id.None? <==> forall n :: 0 <= n < |shm.t.lists[dev]| ==> !UserAt(shm.t.objs, shm.t.lists[dev][n], addr)
      ensures id.Some? ==> exists n: nat :: FirstUser(shm.t.objs, shm.t.lists[dev], addr, n) && shm.t.lists[dev][n] == id.value
      ensures id.Some? ==> UserAt(shm.t.objs, id.value, addr) && shm.t.objs[id.value].dev == dev && shm.t.objs[id.value].len < TWO32
    {
      TableFacts(shm.t, shm.holds, shm.backed);
      var list := shm.t.lists[dev];
      for n := 0 to |list|
        invariant forall m :: 0 <= m < n ==> !UserAt(shm.t.objs, list[m], addr)
      {
        if shm.t.objs[list[n]].userAddr == Some(addr) {
          assert FirstUser(shm.t.objs, list, addr, n);
          return Some(list[n]);
        }
      }
      return None;
    }

    /** The checks of `alloc_for_ref_mem`: size, object and range. */
    method FindForRef(ctx: Context, p: Param) returns (id: Option<nat>)
      requires shm.Valid() && ctx.dev in shm.t.lists
      ensures id.Some? ==> RefNames(ctx, shm.t.objs, shm.t.lists, p, id.value) && RefersTo(ctx.dev, shm.t.objs, id, p)
      ensures id.None? ==> forall j :: !RefNames(ctx, shm.t.objs, shm.t.lists, p, j)
    {
      if !p.sizeOk || p.size == 0 {
        return None;
      }
      id := FindShared(ctx.dev, p.buffer);
      if id.Some? {
        RefOffsetMeaning(shm.t.objs[id.value].len, p.offset, p.size);
        if !RefOffsetValid(shm.t.objs[id.value].len, p.offset, p.size) {
          id := None;
        }
      }
    }

    /** `set_operation_buffer` and the reference that `alloc_for_ref_mem` takes with it. */
    method TakeRef(ctx: Context, i: nat, id: nat, size: nat) returns (got: bool)
      requires Inv(ctx, op) && ClearAt(op, i) && IsRefMem(Ty(ctx, i)) && id in shm.t.objs && Mapped(shm.t.objs[id]) && size > 0
      modifies this`op, mailbox`live, mailbox.tags, mailbox.areas, shm`t, shm`holds
      ensures Inv(ctx, op) && OnlyAt(old(op), op, i) && Extends(old(mailbox.live), mailbox.live)
      ensures shm.pool.live == old(shm.pool.live)
      ensures got <==> old(shm.t.objs[id].memType == Reserved || CanServe(mailbox, size))
      ensures !got ==> op == old(op)
      ensures got ==> RefRecorded(old(op), op, i, id, mailbox.live, size, old(shm.t.objs[id].memType) == Reserved)
    {
      if shm.t.objs[id].memType == Reserved {
        RecordRef(ctx, i, id, InPlace, mailbox.live, 0);
        return true;
      }
      got := TakeCopy(ctx, i, id, size);
    }

    /** A mailbox copy for a reference to memory that the TEE cannot reach in place. */
    method TakeCopy(ctx: Context, i: nat, id: nat, size: nat) returns (got: bool)
      requires Inv(ctx, op) && ClearAt(op, i) && IsRefMem(Ty(ctx, i)) && id in shm.t.objs && Mapped(shm.t.objs[id]) && size > 0
      requires shm.t.objs[id].memType != Reserved
      modifies this`op, mailbox`live, mailbox.tags, mailbox.areas, shm`t, shm`holds
      ensures Inv(ctx, op) && OnlyAt(old(op), op, i) && Extends(old(mailbox.live), mailbox.live)
      ensures shm.pool.live == old(shm.pool.live)
      ensures got <==> old(CanServe(mailbox, size))
      ensures !got ==> op == old(op)
      ensures got ==> RefRecorded(old(op), op, i, id, mailbox.live, size, false)
    {
      var page := MailboxAlloc(mailbox, size);
      if page.None? {
        return false;
      }
      RecordRef(ctx, i, id, Copy(page.value), old(mailbox.live), OrderOf(size));
      return true;
    }

    method RecordRef(ctx: Context, i: nat, id: nat, buffer: Buffer, ghost before: LiveMap, ghost k: nat)
      requires Sides() && RecordOk(ctx, t0.objs, op, base, before, holds0, shm.holds)
      requires ClearAt(op, i) && IsRefMem(Ty(ctx, i)) && id in shm.t.objs && Mapped(shm.t.objs[id])
      requires buffer.InPlace? <==> shm.t.objs[id].memType == Reserved
      requires if buffer.Copy? then buffer.page !in before && mailbox.live == before[buffer.page := k] else mailbox.live == before
      modifies this`op, shm`t, shm`holds
      ensures Inv(ctx, op) && op == SetRef(old(op), i, Some(id), Some(buffer))
    {
      RefTaken(ctx, t0.objs, op, base, before, holds0, shm.holds, i, id, buffer, k, mailbox.live);
      shm.GetForCall(id);
      Record(ctx, SetRef(op, i, Some(id), Some(buffer)));
    }

    /** `alloc_for_ref_mem` */
    method AllocForRefMem(ctx: Context, i: nat) returns (ret: int)
      requires Inv(ctx, op) && ClearAt(op, i) && |ctx.params| == 4 && IsRefMem(Ty(ctx, i)) && ctx.dev in shm.t.lists
      modifies this`op, mailbox`live, mailbox.tags, mailbox.areas, shm`t, shm`holds
      ensures Inv(ctx, op) && OnlyAt(old(op), op, i) && Extends(old(mailbox.live), mailbox.live)
      ensures shm.pool.live == old(shm.pool.live)
      ensures ret == 0 <==> RefOk(ctx, t0.objs, t0.lists, mailbox.maxOrder, old(mailbox.live), ctx.params[i])
      ensures ret != 0 ==> ret == FailCode(ctx, t0.objs, t0.lists, mailbox.maxOrder, old(mailbox.live), i)
      ensures ret == 0 ==> Served(ctx, t0.objs, op, mailbox.live, i)
    {
      var p := ctx.params[i];
      var found := FindForRef(ctx, p);
      if found.None? {
        return -EINVAL;
      }
      OnlyNamed(ctx, i, found.value, mailbox.live);
      ret := TakeNamed(ctx, i, found.value);
    }

    /** The rest of `alloc_for_ref_mem`, with its object found. */
    method TakeNamed(ctx: Context, i: nat, id: nat) returns (ret: int)
      requires Inv(ctx, op) && ClearAt(op, i) && |ctx.params| == 4 && IsRefMem(Ty(ctx, i)) && id in shm.t.objs
      requires ctx.params[i].sizeOk && ctx.params[i].size > 0 && RefersTo(ctx.dev, shm.t.objs, Some(id), ctx.params[i])
      modifies this`op, mailbox`live, mailbox.tags, mailbox.areas, shm`t, shm`holds
      ensures Inv(ctx, op) && OnlyAt(old(op), op, i) && Extends(old(mailbox.live), mailbox.live)
      ensures shm.pool.live == old(shm.pool.live)
      ensures ret == 0 <==>
        !ctx.params[i].physZero && (t0.objs[id].memType == Reserved || Serves(mailbox.maxOrder, old(mailbox.live), ctx.params[i].size))
      ensures ret != 0 ==>
        ret == if t0.objs[id].memType == Reserved || Serves(mailbox.maxOrder, old(mailbox.live), ctx.params[i].size) then -EINVAL else -ENOMEM
      ensures ret == 0 ==> Served(ctx, t0.objs, op, mailbox.live, i)
    {
      var p, memType := ctx.params[i], shm.t.objs[id].memType;
      var got := TakeRef(ctx, i, id, p.size);
      if !got {
        return -ENOMEM;
      }
      if p.physZero {
        return -EINVAL;
      }
      var ty := Ty(ctx, i) - (TEEC_MEMREF_PARTIAL_INPUT - TEE_PARAM_TYPE_MEMREF_INPUT);
      if memType == Reserved {
        ty := ty + (TEE_PARAM_TYPE_RESMEM_INPUT - TEE_PARAM_TYPE_MEMREF_INPUT);
      }
      RefServed(ctx, t0.objs, old(op), op, i, id, mailbox.live);
      SetType(ctx, i, ty);
      return 0;
    }

    /** Acceptance, told by the object found. */
    lemma OnlyNamed(ctx: Context, i: nat, id: nat, live: LiveMap)
      requires i < |ctx.params| && RefNames(ctx, t0.objs, t0.lists, ctx.params[i], id)
      ensures RefOk(ctx, t0.objs, t0.lists, mailbox.maxOrder, live, ctx.params[i])
              <==> !ctx.params[i].physZero && (t0.objs[id].memType == Reserved || Serves(mailbox.maxOrder, live, ctx.params[i].size))
      ensures NoCopyRoom(ctx, t0.objs, t0.lists, mailbox.maxOrder, live, ctx.params[i])
              <==> t0.objs[id].memType != Reserved && !Serves(mailbox.maxOrder, live, ctx.params[i].size)
    {
      forall j | RefNames(ctx, t0.objs, t0.lists, ctx.params[i], j)
        ensures j == id
      {
        RefNamesOne(ctx, t0.objs, t0.lists, ctx.params[i], j, id);
      }
    }

    /** `alloc_for_ion_sglist` and `transfer_shared_mem`: a mailbox block filled with a page list. */
    method AllocForPageList(ctx: Context, i: nat, size: nat, fillOk: bool) returns (ret: int)
      requires Inv(ctx, op) && ClearAt(op, i) && TmpType(ctx, i) && !IsTmpMem(Ty(ctx, i))
      modifies this`op, mailbox`live, mailbox.tags, mailbox.areas
      ensures Inv(ctx, op) && OnlyAt(old(op), op, i) && Extends(old(mailbox.live), mailbox.live)
      ensures ret == if fillOk && old(CanServe(mailbox, size)) then 0 else -EFAULT
      ensures ret == 0 ==> op == SetTrans(SetTmp(old(op), i, op.tmp[i]), i, Ty(ctx, i)) && HoldsBlock(op.tmp[i], mailbox.live, size)
    {
      if !fillOk {
        // the block is given back before it is recorded
        var page := MailboxAlloc(mailbox, size);
        if page.Some? {
          GiveBack(mailbox, page.value);
          assert mailbox.live == old(mailbox.live);
        }
        return -EFAULT;
      }
      var got := TakeTmp(ctx, i, size);
      if !got {
        return -EFAULT;
      }
      SetType(ctx, i, Ty(ctx, i));
      return 0;
    }

    /** `transfer_client_value` and `alloc_for_ion`: no buffer, only the values and the type. */
    method TransferValue(ctx: Context, i: nat) returns (ret: int)
      requires Inv(ctx, op) && ClearAt(op, i) && |ctx.params| == 4 && (IsValue(Ty(ctx, i)) || Ty(ctx, i) == TEEC_ION_INPUT)
      modifies this`op
      ensures Inv(ctx, op) && OnlyAt(old(op), op, i)
      ensures ret == if ctx.params[i].valueOk && (Ty(ctx, i) == TEEC_ION_INPUT ==> ctx.params[i].ionOk) then 0 else -EFAULT
      ensures ret == 0 ==> Served(ctx, t0.objs, op, mailbox.live, i)
    {
      var p := ctx.params[i];
      if !p.valueOk || (Ty(ctx, i) == TEEC_ION_INPUT && !p.ionOk) {
        return -EFAULT;
      }
      SetType(ctx, i, Ty(ctx, i));
      return 0;
    }

    /** `alloc_for_ion_sglist` and `transfer_shared_mem` with their checks. */
    method AllocForList(ctx: Context, i: nat) returns (ret: int)
      requires Inv(ctx, op) && ClearAt(op, i) && |ctx.params| == 4
      requires Ty(ctx, i) == TEEC_ION_SGLIST_INPUT || Ty(ctx, i) == TEEC_MEMREF_SHARED_INOUT
      modifies this`op, mailbox`live, mailbox.tags, mailbox.areas
      ensures Inv(ctx, op) && OnlyAt(old(op), op, i) && Extends(old(mailbox.live), mailbox.live)
      ensures ret == 0 <==> ListOk(ctx, mailbox.maxOrder, old(mailbox.live), i)
      ensures ret != 0 ==> ret == FailCode(ctx, t0.objs, t0.lists, mailbox.maxOrder, old(mailbox.live), i)
      ensures ret == 0 ==> Served(ctx, t0.objs, op, mailbox.live, i)
    {
      var p := ctx.params[i];
      if Ty(ctx, i) == TEEC_ION_SGLIST_INPUT {
        if !p.valueOk || !p.ionOk {
          return -EFAULT;
        }
        ret := AllocForPageList(ctx, i, p.ionSize, true);
      } else {
        if !ctx.nocopy {
          return -1;
        }
        if !SharedRangeOk(p) {
          return -EINVAL;
        }
        ret := AllocForPageList(ctx, i, PageListSize(p), p.fillOk);
      }
    }

    /** One round of `alloc_operation`. */
    method AllocParam(ctx: Context, i: nat) returns (ret: int)
      requires Inv(ctx, op) && ClearAt(op, i) && op.trans[i] == 0
      requires |ctx.params| == 4 && ctx.dev in shm.t.lists
      modifies this`op, mailbox`live, mailbox.tags, mailbox.areas, shm`t, shm`holds
      ensures Inv(ctx, op) && OnlyAt(old(op), op, i) && Extends(old(mailbox.live), mailbox.live)
      ensures shm.pool.live == old(shm.pool.live)
      ensures ret == 0 <==> ParamOk(ctx, t0.objs, t0.lists, mailbox.maxOrder, old(mailbox.live), i)
      ensures ret != 0 ==> ret == FailCode(ctx, t0.objs, t0.lists, mailbox.maxOrder, old(mailbox.live), i)
      ensures ret == 0 ==> Served(ctx, t0.objs, op, mailbox.live, i)
    {
      var ty := Ty(ctx, i);
      ret := 0;
      if IsTmpMem(ty) {
        ret := AllocForTmpMem(ctx, i);
      } else if IsRefMem(ty) {
        ret := AllocForRefMem(ctx, i);
      } else if IsValue(ty) || ty == TEEC_ION_INPUT {
        ret := TransferValue(ctx, i);
      } else if ty == TEEC_ION_SGLIST_INPUT || ty == TEEC_MEMREF_SHARED_INOUT {
        ret := AllocForList(ctx, i);
      }
    }

    /** Gives the temporary buffer of parameter `i` back; `rest` is what is still to be given back. */
    method GiveTmp(ctx: Context, i: nat, ghost rest: Op)
      requires Inv(ctx, rest) && Shaped(rest) && i < 4 && Shaped(op) && op.tmp[i].Some? && rest.tmp[i] == op.tmp[i]
      modifies mailbox`live, mailbox.tags, mailbox.areas
      ensures Inv(ctx, SetTmp(rest, i, None))
    {
      TmpGiven(ctx, t0.objs, rest, base, mailbox.live, holds0, shm.holds, i);
      GiveCopy(op.tmp[i].value);
    }

    method PutNamed(id: nat)
      requires Sides() && id in shm.holds && id in shm.t.objs && Mapped(shm.t.objs[id])
      modifies shm`t, shm`holds, shm`backed, shm.pool, shm.pool.tags, shm.pool.areas
      ensures Sides() && shm.holds == old(shm.holds) - multiset{id} && shm.pool.live == old(shm.pool.live)
    {
      shm.PutForCall(id);
    }

    method GiveCopy(page: nat)
      requires Sides() && page in mailbox.live
      modifies mailbox`live, mailbox.tags, mailbox.areas
      ensures Sides() && mailbox.live == Without(old(mailbox.live), page)
    {
      GiveBack(mailbox, page);
    }

    /** Drops the object reference of parameter `i` and frees its mailbox copy, if it has one. */
    method GiveRef(ctx: Context, i: nat, ghost rest: Op)
      requires Inv(ctx, rest) && Shaped(rest) && i < 4 && Shaped(op) && op.share[i].Some?
      requires rest.share[i] == op.share[i] && rest.mb[i] == op.mb[i]
      modifies mailbox`live, mailbox.tags, mailbox.areas, shm`t, shm`holds, shm`backed, shm.pool, shm.pool.tags, shm.pool.areas
      ensures Inv(ctx, SetRef(rest, i, None, None)) && shm.pool.live == old(shm.pool.live)
    {
      RefGiven(ctx, t0.objs, rest, base, mailbox.live, holds0, shm.holds, i);
      var copied := shm.t.objs[op.share[i].value].memType != Reserved;
      PutNamed(op.share[i].value);
      if copied {
        GiveCopy(op.mb[i].value.page);
      }
    }

    /** One round of `free_operation`, which finds the buffers of a parameter by its type. */
    method FreeParam(ctx: Context, i: nat, ghost rest: Op) returns (ghost left: Op)
      requires Inv(ctx, rest) && Shaped(rest) && Shaped(op) && i < 4
      requires rest.tmp[i] == op.tmp[i] && rest.share[i] == op.share[i] && rest.mb[i] == op.mb[i]
      modifies mailbox`live, mailbox.tags, mailbox.areas, shm`t, shm`holds, shm`backed, shm.pool, shm.pool.tags, shm.pool.areas
      ensures Inv(ctx, left) && OnlyAt(rest, left, i) && ClearAt(left, i)
      ensures shm.pool.live == old(shm.pool.live)
    {
      left := rest;
      FitsOne(ctx, t0.objs, rest, base, mailbox.live, holds0, shm.holds, i);
      if TmpType(ctx, i) {
        if op.tmp[i].Some? {
          GiveTmp(ctx, i, rest);
          left := SetTmp(rest, i, None);
        }
      } else if IsRefMem(Ty(ctx, i)) {
        if op.share[i].Some? {
          GiveRef(ctx, i, rest);
          left := SetRef(rest, i, None, None);
        }
      }
    }

    /** `free_operation` */
    method FreeOperation(ctx: Context)
      requires Inv(ctx, op) && Shaped(op)
      modifies mailbox`live, mailbox.tags, mailbox.areas, shm`t, shm`holds, shm`backed, shm.pool, shm.pool.tags, shm.pool.areas
      ensures Sides() && mailbox.live == base && shm.holds == holds0 && shm.pool.live == old(shm.pool.live)
    {
      ghost var rest := op;
      var i := 0;
      while i < 4
        invariant 0 <= i <= 4 && Inv(ctx, rest) && Shaped(rest) && shm.pool.live == old(shm.pool.live)
        invariant forall j: nat :: j < i ==> ClearAt(rest, j)
        invariant forall j: nat :: i <= j < 4 ==> rest.tmp[j] == op.tmp[j] && rest.share[j] == op.share[j] && rest.mb[j] == op.mb[j]
      {
        ghost var before := rest;
        rest := FreeParam(ctx, i, rest);
        StillClear(before, rest, i);
        i := i + 1;
      }
      AllGiven(ctx, t0.objs, rest, base, mailbox.live, holds0, shm.holds);
    }

    /** `alloc_operation`: every parameter is served and its type packed, or everything is given back. */
    method AllocOperation(ctx: Context) returns (ret: int, ghost lives: seq<LiveMap>)
      requires Inv(ctx, op) && op == EMPTY_OP && !inited && |ctx.params| == 4 && ctx.dev in shm.t.lists
      modifies this`op, this`packed, this`inited, mailbox`live, mailbox.tags, mailbox.areas
      modifies shm`t, shm`holds, shm`backed, shm.pool, shm.pool.tags, shm.pool.areas
      ensures Sides() && shm.pool.live == old(shm.pool.live)
      ensures ret == 0 <==> inited
      ensures ret == 0 ==> Inv(ctx, op) && Shaped(op) && forall j: nat :: j < 4 ==> Served(ctx, t0.objs, op, mailbox.live, j)
      ensures ret == 0 ==> forall j: nat :: j < 4 ==> TypeAt(packed, j) == TransType(Ty(ctx, j), InReserve(t0.objs, op, j))
      ensures ret != 0 ==> mailbox.live == base && shm.holds == holds0
      ensures Along(ctx, t0.objs, t0.lists, mailbox.maxOrder, lives) && lives[0] == old(mailbox.live) && (ret == 0 <==> |lives| == 5)
      ensures ret != 0 ==> ret == FailCode(ctx, t0.objs, t0.lists, mailbox.maxOrder, lives[|lives| - 1], |lives| - 1)
    {
      ret, lives := TakeAll(ctx);
      if ret != 0 {
        FreeOperation(ctx);
        return;
      }
      Pack(ctx, mailbox.live);
    }

    /** The last step of `alloc_operation`. */
    method Pack(ctx: Context, ghost live: LiveMap)
      requires Shaped(op) && |ctx.params| == 4 && forall j: nat :: j < 4 ==> Served(ctx, t0.objs, op, live, j)
      modifies this`packed, this`inited
      ensures inited && forall j: nat :: j < 4 ==> TypeAt(packed, j) == TransType(Ty(ctx, j), InReserve(t0.objs, op, j))
    {
      packed, inited := PackTypes(op.trans), true;
      forall j: nat | j < 4
        ensures TypeAt(packed, j) == TransType(Ty(ctx, j), InReserve(t0.objs, op, j))
      {
        TypesPacked(ctx, t0.objs, op, live, j);
      }
    }

    /** The loop of `alloc_operation`: the parameters in order, up to the first that fails. */
    method TakeAll(ctx: Context) returns (ret: int, ghost lives: seq<LiveMap>)
      requires Inv(ctx, op) && op == EMPTY_OP && |ctx.params| == 4 && ctx.dev in shm.t.lists
      modifies this`op, mailbox`live, mailbox.tags, mailbox.areas, shm`t, shm`holds
      ensures Inv(ctx, op) && Shaped(op) && shm.pool.live == old(shm.pool.live)
      ensures ret == 0 ==> forall j: nat :: j < 4 ==> Served(ctx, t0.objs, op, mailbox.live, j)
      ensures Along(ctx, t0.objs, t0.lists, mailbox.maxOrder, lives) && lives[0] == old(mailbox.live) && (ret == 0 <==> |lives| == 5)
      ensures ret != 0 ==> ret == FailCode(ctx, t0.objs, t0.lists, mailbox.maxOrder, lives[|lives| - 1], |lives| - 1)
    {
      lives := [mailbox.live];
      var i := 0;
      while i < 4
        invariant 0 <= i <= 4 && Inv(ctx, op) && Shaped(op) && shm.pool.live == old(shm.pool.live)
        invariant forall j: nat :: j < i ==> Served(ctx, t0.objs, op, mailbox.live, j)
        invariant forall j: nat :: i <= j < 4 ==> ClearAt(op, j) && op.trans[j] == 0
        invariant |lives| == i + 1 && lives[0] == old(mailbox.live) && lives[i] == mailbox.live
        invariant SoFar(ctx, t0.objs, t0.lists, mailbox.maxOrder, lives)
      {
        ghost var before, live := op, mailbox.live;
        ret := AllocParam(ctx, i);
        if ret != 0 {
          return;
        }
        OneServed(ctx, t0.objs, before, live, op, mailbox.live, i);
        lives := lives + [mailbox.live];
        i := i + 1;
      }
      ret := 0;
    }

    /** The exits of `tc_client_call` after the command pack exists, up to freeing the pack. */
    method Serve(ctx: Context, configOk: bool, answer: int, update: int) returns (ret: int, ghost lives: seq<LiveMap>)
      requires Sides() && op == EMPTY_OP && !inited && |ctx.params| == 4 && ctx.dev in shm.t.lists
      requires mailbox.live == base && shm.holds == holds0
      modifies this`op, this`packed, this`inited, mailbox`live, mailbox.tags, mailbox.areas
      modifies shm`t, shm`holds, shm`backed, shm.pool, shm.pool.tags, shm.pool.areas
      ensures Sides() && mailbox.live == base && shm.holds == holds0 && shm.pool.live == old(shm.pool.live)
      ensures ctx.paramTypes != 0 ==> Along(ctx, t0.objs, t0.lists, mailbox.maxOrder, lives) && lives[0] == base
      ensures ret == 0 <==> (ctx.paramTypes == 0 || |lives| == 5) && configOk && answer == 0 && update == 0
      ensures ctx.paramTypes != 0 && |lives| < 5 ==>
        ret == FailCode(ctx, t0.objs, t0.lists, mailbox.maxOrder, lives[|lives| - 1], |lives| - 1)
      ensures ctx.paramTypes == 0 || |lives| == 5 ==>
        && ret == Outcome(configOk, answer, update)
        && (!configOk ==> ret == -EFAULT)
        && (configOk && answer == 0 ==> ret == update)
        && (configOk && answer == TEEC_CLIENT_INTR ==> ret == -ERESTARTSYS)
        && (configOk && answer != 0 && answer != TEEC_CLIENT_INTR ==> ret == EFAULT)
    {
      ret, lives := 0, [];
      NothingRecorded(ctx, t0.objs, base, holds0);
      if ctx.paramTypes != 0 {
        ret, lives := AllocOperation(ctx);
      }
      if ret == 0 {
        ret := Outcome(configOk, answer, update);
      }
      if inited {
        FreeOperation(ctx);
      }
    }
  }

  const TEEC_PENDING: int := 0xFFFF2000
  const TEEC_CLIENT_INTR: int := 0xFFFF4000
  const ERESTARTSYS: int := 512

  /**
   The value `tc_client_call` returns once its parameters are set up; `answer` ended
   `handle_ta_pending`, and `update` is what `update_client_operation` returns.
   */
  function Outcome(configOk: bool, answer: int, update: int): int {
    if !configOk then -EFAULT
    else if answer == 0 then update
    else if answer == TEEC_CLIENT_INTR then -ERESTARTSYS
    else EFAULT
  }

  /**
   `tc_client_call`: whatever the parameters, wherever it fails and whatever the TEE answers, the
   mailbox blocks handed out, the shared memory objects with their usage counts and the reserved
   blocks are on return what they were at entry.  It succeeds exactly when the command pack and then
   every parameter in turn is served, and the TEE and the write-back agree.
   */
  method TcClientCall(mailbox: Zone, shm: SharedMemory, ctx: Context, kzallocOk: bool, configOk: bool,
                      answer: int, update: int) returns (ret: int, ghost pack: nat, ghost lives: seq<LiveMap>)
    requires answer != TEEC_PENDING
    requires Usable(mailbox) && shm.Valid() && |ctx.params| == 4 && ctx.dev in shm.t.lists
    requires mailbox != shm.pool && mailbox.tags != shm.pool.tags && mailbox.areas != shm.pool.areas
    modifies mailbox`live, mailbox.tags, mailbox.areas
    modifies shm`t, shm`holds, shm`backed, shm.pool, shm.pool.tags, shm.pool.areas
    ensures Usable(mailbox) && shm.Valid()
    ensures mailbox.live == old(mailbox.live)
    ensures shm.t == old(shm.t) && shm.holds == old(shm.holds) && shm.pool.live == old(shm.pool.live)
    ensures kzallocOk && old(CanServe(mailbox, SZ_4K)) && ctx.paramTypes != 0 ==>
      Along(ctx, old(shm.t.objs), old(shm.t.lists), mailbox.maxOrder, lives) && lives[0] == old(mailbox.live)[pack := OrderOf(SZ_4K)]
    ensures ret == 0 <==>
      && kzallocOk && old(CanServe(mailbox, SZ_4K)) && (ctx.paramTypes == 0 || |lives| == 5)
      && configOk && answer == 0 && update == 0
    ensures !kzallocOk || !old(CanServe(mailbox, SZ_4K)) ==> ret == -ENOMEM
    ensures kzallocOk && old(CanServe(mailbox, SZ_4K)) && (ctx.paramTypes == 0 || |lives| == 5) ==> ret == Outcome(configOk, answer, update)
    ensures kzallocOk && old(CanServe(mailbox, SZ_4K)) && ctx.paramTypes != 0 && |lives| < 5 ==>
      ret == FailCode(ctx, old(shm.t.objs), old(shm.t.lists), mailbox.maxOrder, lives[|lives| - 1], |lives| - 1)
  {
    pack, lives := 0, [];
    if !kzallocOk {
      ret := -ENOMEM;
      return;
    }
    var block := MailboxAlloc(mailbox, SZ_4K);
    if block.None? {
      ret := -ENOMEM;
      return;
    }
    pack := block.value;
    ret, lives := CallWithPack(mailbox, shm, ctx, configOk, answer, update, block.value);
    assert mailbox.live == old(mailbox.live);
  }

  /** `tc_client_call` once it has its command pack, which it frees. */
  method CallWithPack(mailbox: Zone, shm: SharedMemory, ctx: Context, configOk: bool, answer: int, update: int, pack: nat)
    returns (ret: int, ghost lives: seq<LiveMap>)
    requires Usable(mailbox) && shm.Valid() && |ctx.params| == 4 && ctx.dev in shm.t.lists && pack in mailbox.live
    requires mailbox != shm.pool && mailbox.tags != shm.pool.tags && mailbox.areas != shm.pool.areas
    modifies mailbox`live, mailbox.tags, mailbox.areas
    modifies shm`t, shm`holds, shm`backed, shm.pool, shm.pool.tags, shm.pool.areas
    ensures Usable(mailbox) && shm.Valid()
    ensures mailbox.live == Without(old(mailbox.live), pack)
    ensures shm.t == old(shm.t) && shm.holds == old(shm.holds) && shm.pool.live == old(shm.pool.live)
    ensures ctx.paramTypes != 0 ==>
      Along(ctx, old(shm.t.objs), old(shm.t.lists), mailbox.maxOrder, lives) && lives[0] == old(mailbox.live)
    ensures if ctx.paramTypes == 0 || |lives| == 5 then ret == Outcome(configOk, answer, update)
            else ret == FailCode(ctx, old(shm.t.objs), old(shm.t.lists), mailbox.maxOrder, lives[|lives| - 1], |lives| - 1)
    ensures ret == 0 <==> (ctx.paramTypes == 0 || |lives| == 5) && configOk && answer == 0 && update == 0
  {
    var call := new Call(mailbox, shm);
    ret, lives := call.Serve(ctx, configOk, answer, update);
    GiveBack(mailbox, pack);
    UsageDetermined(shm.t, old(shm.t), shm.holds, shm.backed, old(shm.backed));
  }
}

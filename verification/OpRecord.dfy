/**
 The parameters of a client call and the record of what was taken for them: types, what each type
 asks for, and how the record matches the mailbox blocks and object references held.
 */
module OpRecord {
  import opened Options
  import opened Folding
  import opened Machine
  import opened Blocks
  import opened ZoneSpec
  import opened BuddyZone
  import opened SharedTable

  const TEEC_NONE: nat := 0x0
  const TEEC_VALUE_INPUT: nat := 0x1
  const TEEC_VALUE_OUTPUT: nat := 0x2
  const TEEC_VALUE_INOUT: nat := 0x3
  const TEEC_MEMREF_TEMP_INPUT: nat := 0x5
  const TEEC_MEMREF_TEMP_OUTPUT: nat := 0x6
  const TEEC_MEMREF_TEMP_INOUT: nat := 0x7
  const TEEC_ION_INPUT: nat := 0x8
  const TEEC_ION_SGLIST_INPUT: nat := 0x9
  const TEEC_MEMREF_SHARED_INOUT: nat := 0xa
  const TEEC_MEMREF_PARTIAL_INPUT: nat := 0xd
  const TEEC_MEMREF_PARTIAL_OUTPUT: nat := 0xe
  const TEEC_MEMREF_PARTIAL_INOUT: nat := 0xf
  const TEE_PARAM_TYPE_MEMREF_INPUT: nat := 0x5
  const TEE_PARAM_TYPE_RESMEM_INPUT: nat := 0xc
  const MAX_SHARED_SIZE: nat := 0x100000
  const SZ_256M: nat := 0x10000000

  /** `teec_param_type_get` */
  function TypeAt(types: nat, i: nat): nat {
    if i == 0 then types % 16 else TypeAt(types / 16, i - 1)
  }

  /** Parameter `i` has the `i`-th nibble from the right. */
  lemma {:induction false} TypeAtMeaning(types: nat)
    ensures TypeAt(types, 0) == types % 16 && TypeAt(types, 1) == types / 16 % 16
    ensures TypeAt(types, 2) == types / 256 % 16 && TypeAt(types, 3) == types / 4096 % 16
  {
    var a := types / 16;
    var b := a / 16;
    assert b == types / 256 && b / 16 == types / 4096;
    assert TypeAt(types, 1) == TypeAt(a, 0) && TypeAt(a, 1) == TypeAt(b, 0) && TypeAt(b, 1) == TypeAt(b / 16, 0);
    assert TypeAt(types, 2) == TypeAt(a, 1);
    assert TypeAt(types, 3) == TypeAt(a, 2) && TypeAt(a, 2) == TypeAt(b, 1);
  }

  /** `teec_param_types` */
  function PackTypes(t: seq<nat>): nat
    requires |t| == 4
  {
    t[3] * 4096 + t[2] * 256 + t[1] * 16 + t[0]
  }

  /** Packing four nibbles and reading one back gives that nibble. */
  lemma PackedTypes(t: seq<nat>, i: nat)
    requires |t| == 4 && i < 4 && forall j :: 0 <= j < 4 ==> t[j] < 16
    ensures TypeAt(PackTypes(t), i) == t[i]
  {
    var p := PackTypes(t);
    assert p % 16 == t[0] && p / 16 == t[3] * 256 + t[2] * 16 + t[1];
    assert (p / 16) % 16 == t[1] && p / 16 / 16 == t[3] * 16 + t[2];
    assert (p / 16 / 16) % 16 == t[2] && p / 16 / 16 / 16 == t[3];
    if i == 1 {
      assert TypeAt(p, 1) == TypeAt(p / 16, 0);
    } else if i == 2 {
      assert TypeAt(p, 2) == TypeAt(p / 16, 1) == TypeAt(p / 16 / 16, 0);
    } else if i == 3 {
      assert TypeAt(p, 3) == TypeAt(p / 16, 2) == TypeAt(p / 16 / 16, 1) == TypeAt(p / 16 / 16 / 16, 0);
    }
  }

  predicate IsTmpMem(ty: nat) {
    ty == TEEC_MEMREF_TEMP_INPUT || ty == TEEC_MEMREF_TEMP_OUTPUT || ty == TEEC_MEMREF_TEMP_INOUT
  }

  predicate IsRefMem(ty: nat) {
    ty == TEEC_MEMREF_PARTIAL_INPUT || ty == TEEC_MEMREF_PARTIAL_OUTPUT || ty == TEEC_MEMREF_PARTIAL_INOUT
  }

  predicate IsValue(ty: nat) {
    ty == TEEC_VALUE_INPUT || ty == TEEC_VALUE_OUTPUT || ty == TEEC_VALUE_INOUT
  }

  /** What a caller supplies for one parameter, and how the kernel's accesses to it turn out. */
  datatype Param = Param(sizeOk: bool, size: U32, dataOk: bool, valueOk: bool, buffer: U64, offset: U32,
                         physZero: bool, ionOk: bool, ionSize: nat, fillOk: bool)

  datatype Context = Context(dev: nat, paramTypes: nat, params: seq<Param>, nocopy: bool)

  function Ty(ctx: Context, i: nat): nat {
    TypeAt(ctx.paramTypes, i)
  }

  /** Where a partial memory reference points: a mailbox copy or the reserved memory itself. */
  datatype Buffer = Copy(page: nat) | InPlace

  /** `struct tc_op_params` with the pack's `sharemem`, `mb_buffer` and translated types. */
  datatype Op = Op(tmp: seq<Option<nat>>, share: seq<Option<nat>>, mb: seq<Option<Buffer>>, trans: seq<nat>)

  const EMPTY_OP := Op([None, None, None, None], [None, None, None, None], [None, None, None, None], [0, 0, 0, 0])

  predicate Shaped(op: Op) {
    |op.tmp| == 4 && |op.share| == 4 && |op.mb| == 4 && |op.trans| == 4
  }

  /** Buffers are recorded where `free_operation` looks for them, given the parameter's type. */
  ghost predicate FitsAt(ctx: Context, objs: Objects, op: Op, i: nat)
    requires Shaped(op) && i < 4
  {
    var ty := Ty(ctx, i);
    && (op.tmp[i].Some? ==> IsTmpMem(ty) || ty == TEEC_ION_SGLIST_INPUT || (ty == TEEC_MEMREF_SHARED_INOUT && ctx.nocopy))
    && (op.share[i].Some? || op.mb[i].Some? ==> IsRefMem(ty))
    && (op.share[i].Some? <==> op.mb[i].Some?)
    && (op.share[i].Some? ==> op.share[i].value in objs && Mapped(objs[op.share[i].value])
                              && (op.mb[i].value.InPlace? <==> objs[op.share[i].value].memType == Reserved))
  }

  ghost function BlockAt(op: Op, i: nat): Option<nat>
    requires Shaped(op) && i < 4
  {
    if op.tmp[i].Some? then op.tmp[i]
    else if op.mb[i].Some? && op.mb[i].value.Copy? then Some(op.mb[i].value.page)
    else None
  }

  ghost function BlocksOf(op: Op): (r: seq<Option<nat>>)
    requires Shaped(op)
    ensures |r| == 4
  {
    seq(4, i requires 0 <= i < 4 => BlockAt(op, i))
  }

  /** How often `x` is recorded in a list. */
  ghost function Count(s: seq<Option<nat>>, x: nat): nat {
    if s == [] then 0 else (if s[0] == Some(x) then 1 else 0) + Count(s[1..], x)
  }

  lemma {:induction false} CountUpdate(s: seq<Option<nat>>, i: nat, o: Option<nat>, x: nat)
    requires i < |s|
    ensures Count(s[i := o], x) + (if s[i] == Some(x) then 1 else 0) == Count(s, x) + (if o == Some(x) then 1 else 0)
  {
    var s' := s[i := o];
    if i == 0 {
      assert s'[1..] == s[1..];
    } else {
      CountUpdate(s[1..], i - 1, o, x);
      assert s'[1..] == s[1..][i - 1 := o];
    }
  }

  lemma {:induction false} CountNone(s: seq<Option<nat>>, x: nat)
    requires forall i :: 0 <= i < |s| ==> s[i].None?
    ensures Count(s, x) == 0
  {
    if s != [] {
      CountNone(s[1..], x);
    }
  }

  /** The references held are those of before plus the ones recorded. */
  ghost predicate HoldsAre(holds0: multiset<nat>, s: seq<Option<nat>>, holds: multiset<nat>) {
    forall x: nat :: holds[x] == holds0[x] + Count(s, x)
  }

  lemma HoldsAdd(s: seq<Option<nat>>, i: nat, id: nat, holds0: multiset<nat>, holds: multiset<nat>)
    requires i < |s| && s[i].None? && HoldsAre(holds0, s, holds)
    ensures HoldsAre(holds0, s[i := Some(id)], holds + multiset{id})
  {
    forall x: nat
      ensures (holds + multiset{id})[x] == holds0[x] + Count(s[i := Some(id)], x)
    {
      CountUpdate(s, i, Some(id), x);
    }
  }

  lemma HoldsSub(s: seq<Option<nat>>, i: nat, holds0: multiset<nat>, holds: multiset<nat>)
    requires i < |s| && s[i].Some? && HoldsAre(holds0, s, holds)
    ensures s[i].value in holds && HoldsAre(holds0, s[i := None], holds - multiset{s[i].value})
  {
    var id := s[i].value;
    CountUpdate(s, i, None, id);
    forall x: nat
      ensures (holds - multiset{id})[x] == holds0[x] + Count(s[i := None], x)
    {
      CountUpdate(s, i, None, x);
    }
  }

  /** A change confined to index `i`. */
  ghost predicate OnlyAt(op: Op, op': Op, i: nat) {
    && Shaped(op) && Shaped(op') && i < 4
    && (forall j :: 0 <= j < 4 && j != i ==>
          op'.tmp[j] == op.tmp[j] && op'.share[j] == op.share[j] && op'.mb[j] == op.mb[j] && op'.trans[j] == op.trans[j])
  }

  lemma BlocksChange(op: Op, op': Op, i: nat)
    requires OnlyAt(op, op', i)
    ensures BlocksOf(op') == BlocksOf(op)[i := BlockAt(op', i)]
  {
  }

  lemma StillClear(op: Op, op': Op, i: nat)
    requires OnlyAt(op, op', i)
    ensures forall j: nat :: j != i && ClearAt(op, j) ==> ClearAt(op', j)
  {
  }

  lemma FitsChange(ctx: Context, objs: Objects, op: Op, op': Op, i: nat)
    requires OnlyAt(op, op', i) && forall j: nat :: j < 4 ==> FitsAt(ctx, objs, op, j)
    requires FitsAt(ctx, objs, op', i)
    ensures forall j: nat :: j < 4 ==> FitsAt(ctx, objs, op', j)
  {
    forall j: nat | j < 4
      ensures FitsAt(ctx, objs, op', j)
    {
      assert FitsAt(ctx, objs, op, j);
    }
  }

  /** The blocks handed out are those of before plus the ones recorded, each recorded once. */
  ghost predicate LiveIs(base: LiveMap, blocks: seq<Option<nat>>, live: LiveMap) {
    && (forall p :: p in live <==> p in base || Some(p) in blocks)
    && (forall p :: p in base ==> p in live && live[p] == base[p])
    && (forall i :: 0 <= i < |blocks| && blocks[i].Some? ==> blocks[i].value !in base)
    && (forall i, j :: 0 <= i < j < |blocks| && blocks[i].Some? ==> blocks[i] != blocks[j])
  }

  lemma LiveGain(base: LiveMap, blocks: seq<Option<nat>>, live: LiveMap, i: nat, p: nat, k: nat)
    requires LiveIs(base, blocks, live) && i < |blocks| && blocks[i].None? && p !in live
    ensures LiveIs(base, blocks[i := Some(p)], live[p := k])
  {
    var blocks' := blocks[i := Some(p)];
    forall q
      ensures Some(q) in blocks' <==> Some(q) in blocks || q == p
    {
      if Some(q) in blocks {
        var j :| 0 <= j < |blocks| && blocks[j] == Some(q);
        assert blocks'[j] == Some(q);
      }
      assert blocks'[i] == Some(p);
    }
    forall j | 0 <= j < |blocks| && blocks[j].Some?
      ensures blocks[j] != Some(p)
    {
      assert blocks[j] in blocks;
    }
  }

  lemma LiveLose(base: LiveMap, blocks: seq<Option<nat>>, live: LiveMap, i: nat)
    requires LiveIs(base, blocks, live) && i < |blocks| && blocks[i].Some?
    ensures blocks[i].value in live
    ensures LiveIs(base, blocks[i := None], Without(live, blocks[i].value))
  {
    var p := blocks[i].value;
    assert blocks[i] in blocks;
    var blocks' := blocks[i := None];
    forall q
      ensures Some(q) in blocks' <==> Some(q) in blocks && q != p
    {
      if Some(q) in blocks' {
        var j :| 0 <= j < |blocks'| && blocks'[j] == Some(q);
        assert blocks[j] == Some(q) && j != i;
        assert q != p by { if j < i { assert blocks[j] != blocks[i]; } else { assert blocks[i] != blocks[j]; } }
      }
      if Some(q) in blocks && q != p {
        var j :| 0 <= j < |blocks| && blocks[j] == Some(q);
        assert blocks'[j] == Some(q);
      }
    }
  }

  lemma LiveBack(base: LiveMap, blocks: seq<Option<nat>>, live: LiveMap)
    requires LiveIs(base, blocks, live) && forall i :: 0 <= i < |blocks| ==> blocks[i].None?
    ensures live == base
  {
    forall p
      ensures p in live <==> p in base
    {
      assert Some(p) !in blocks;
    }
  }

  predicate TmpType(ctx: Context, i: nat) {
    || IsTmpMem(Ty(ctx, i))
    || Ty(ctx, i) == TEEC_ION_SGLIST_INPUT
    || (Ty(ctx, i) == TEEC_MEMREF_SHARED_INOUT && ctx.nocopy)
  }

  predicate ClearAt(op: Op, i: nat) {
    Shaped(op) && i < 4 && op.tmp[i].None? && op.share[i].None? && op.mb[i].None?
  }

  function SetTmp(op: Op, i: nat, page: Option<nat>): Op
    requires Shaped(op) && i < 4
  {
    op.(tmp := op.tmp[i := page])
  }

  function SetRef(op: Op, i: nat, id: Option<nat>, buffer: Option<Buffer>): Op
    requires Shaped(op) && i < 4
  {
    op.(share := op.share[i := id], mb := op.mb[i := buffer])
  }

  function SetTrans(op: Op, i: nat, ty: nat): Op
    requires Shaped(op) && i < 4
  {
    op.(trans := op.trans[i := ty])
  }

  /** What the call has taken so far is exactly what `op` records. */
  ghost predicate Recorded(ctx: Context, objs: Objects, op: Op, base: LiveMap, live: LiveMap,
                           holds0: multiset<nat>, holds: multiset<nat>)
  {
    && Shaped(op)
    && (forall i: nat :: i < 4 ==> FitsAt(ctx, objs, op, i))
    && LiveIs(base, BlocksOf(op), live)
    && HoldsAre(holds0, op.share, holds)
  }

  ghost function RecordHealth(ctx: Context, objs: Objects, op: Op, base: LiveMap, live: LiveMap,
                              holds0: multiset<nat>, holds: multiset<nat>): Health
  {
    if forall k :: Unfold(k) ==> Recorded(ctx, objs, op, base, live, holds0, holds) then Sound else Broken
  }

  ghost predicate RecordOk(ctx: Context, objs: Objects, op: Op, base: LiveMap, live: LiveMap,
                           holds0: multiset<nat>, holds: multiset<nat>)
  {
    RecordHealth(ctx, objs, op, base, live, holds0, holds) == Sound
  }

  lemma RecordFacts(ctx: Context, objs: Objects, op: Op, base: LiveMap, live: LiveMap,
                    holds0: multiset<nat>, holds: multiset<nat>)
    requires RecordOk(ctx, objs, op, base, live, holds0, holds)
    ensures Recorded(ctx, objs, op, base, live, holds0, holds)
  {
    assert Unfold(0);
  }

  lemma FitsOne(ctx: Context, objs: Objects, op: Op, base: LiveMap, live: LiveMap,
                holds0: multiset<nat>, holds: multiset<nat>, i: nat)
    requires RecordOk(ctx, objs, op, base, live, holds0, holds) && i < 4
    ensures Shaped(op) && FitsAt(ctx, objs, op, i)
  {
    RecordFacts(ctx, objs, op, base, live, holds0, holds);
  }

  lemma NothingRecorded(ctx: Context, objs: Objects, base: LiveMap, holds0: multiset<nat>)
    ensures RecordOk(ctx, objs, EMPTY_OP, base, base, holds0, holds0)
  {
    forall x: nat
      ensures Count(EMPTY_OP.share, x) == 0
    {
      CountNone(EMPTY_OP.share, x);
    }
    assert Recorded(ctx, objs, EMPTY_OP, base, base, holds0, holds0);
  }

  lemma TmpTaken(ctx: Context, objs: Objects, op: Op, base: LiveMap, live: LiveMap,
                 holds0: multiset<nat>, holds: multiset<nat>, i: nat, page: nat, k: nat)
    requires RecordOk(ctx, objs, op, base, live, holds0, holds)
    requires ClearAt(op, i) && TmpType(ctx, i) && page !in live
    ensures RecordOk(ctx, objs, SetTmp(op, i, Some(page)), base, live[page := k], holds0, holds)
  {
    RecordFacts(ctx, objs, op, base, live, holds0, holds);
    var op' := SetTmp(op, i, Some(page));
    LiveGain(base, BlocksOf(op), live, i, page, k);
    BlocksChange(op, op', i);
    FitsChange(ctx, objs, op, op', i);
    assert Recorded(ctx, objs, op', base, live[page := k], holds0, holds);
  }

  lemma RefTakenLive(op: Op, base: LiveMap, live: LiveMap, i: nat, id: nat, buffer: Buffer, k: nat)
    requires ClearAt(op, i) && LiveIs(base, BlocksOf(op), live)
    requires buffer.Copy? ==> buffer.page !in live
    ensures LiveIs(base, BlocksOf(SetRef(op, i, Some(id), Some(buffer))), if buffer.Copy? then live[buffer.page := k] else live)
  {
    var op' := SetRef(op, i, Some(id), Some(buffer));
    BlocksChange(op, op', i);
    if buffer.Copy? {
      LiveGain(base, BlocksOf(op), live, i, buffer.page, k);
    } else {
      assert BlocksOf(op') == BlocksOf(op);
    }
  }

  lemma RefGivenLive(op: Op, base: LiveMap, live: LiveMap, i: nat)
    requires Shaped(op) && i < 4 && op.mb[i].Some? && op.tmp[i].None? && LiveIs(base, BlocksOf(op), live)
    ensures op.mb[i].value.Copy? ==> op.mb[i].value.page in live
    ensures LiveIs(base, BlocksOf(SetRef(op, i, None, None)),
                   if op.mb[i].value.Copy? then Without(live, op.mb[i].value.page) else live)
  {
    var op' := SetRef(op, i, None, None);
    BlocksChange(op, op', i);
    if op.mb[i].value.Copy? {
      LiveLose(base, BlocksOf(op), live, i);
    } else {
      assert BlocksOf(op') == BlocksOf(op);
    }
  }

  lemma RefTaken(ctx: Context, objs: Objects, op: Op, base: LiveMap, live: LiveMap,
                 holds0: multiset<nat>, holds: multiset<nat>, i: nat, id: nat, buffer: Buffer, k: nat, live': LiveMap)
    requires RecordOk(ctx, objs, op, base, live, holds0, holds)
    requires ClearAt(op, i) && IsRefMem(Ty(ctx, i)) && id in objs && Mapped(objs[id])
    requires buffer.InPlace? <==> objs[id].memType == Reserved
    requires if buffer.Copy? then buffer.page !in live && live' == live[buffer.page := k] else live' == live
    ensures RecordOk(ctx, objs, SetRef(op, i, Some(id), Some(buffer)), base, live', holds0, holds + multiset{id})
  {
    RecordFacts(ctx, objs, op, base, live, holds0, holds);
    var op' := SetRef(op, i, Some(id), Some(buffer));
    RefTakenLive(op, base, live, i, id, buffer, k);
    FitsChange(ctx, objs, op, op', i);
    HoldsAdd(op.share, i, id, holds0, holds);
    assert Recorded(ctx, objs, op', base, live', holds0, holds + multiset{id});
  }

  lemma TransSet(ctx: Context, objs: Objects, op: Op, base: LiveMap, live: LiveMap,
                 holds0: multiset<nat>, holds: multiset<nat>, i: nat, ty: nat)
    requires RecordOk(ctx, objs, op, base, live, holds0, holds) && Shaped(op) && i < 4
    ensures RecordOk(ctx, objs, SetTrans(op, i, ty), base, live, holds0, holds)
  {
    RecordFacts(ctx, objs, op, base, live, holds0, holds);
    var op' := SetTrans(op, i, ty);
    assert FitsAt(ctx, objs, op, i);
    assert BlocksOf(op') == BlocksOf(op);
    FitsChange(ctx, objs, op, op', i);
    assert Recorded(ctx, objs, op', base, live, holds0, holds);
  }

  lemma TmpGiven(ctx: Context, objs: Objects, op: Op, base: LiveMap, live: LiveMap,
                 holds0: multiset<nat>, holds: multiset<nat>, i: nat)
    requires RecordOk(ctx, objs, op, base, live, holds0, holds)
    requires Shaped(op) && i < 4 && op.tmp[i].Some?
    ensures op.tmp[i].value in live
    ensures RecordOk(ctx, objs, SetTmp(op, i, None), base, Without(live, op.tmp[i].value), holds0, holds)
  {
    RecordFacts(ctx, objs, op, base, live, holds0, holds);
    var op' := SetTmp(op, i, None);
    LiveLose(base, BlocksOf(op), live, i);
    assert FitsAt(ctx, objs, op, i);
    BlocksChange(op, op', i);
    FitsChange(ctx, objs, op, op', i);
    assert Recorded(ctx, objs, op', base, Without(live, op.tmp[i].value), holds0, holds);
  }

  lemma RefGiven(ctx: Context, objs: Objects, op: Op, base: LiveMap, live: LiveMap,
                 holds0: multiset<nat>, holds: multiset<nat>, i: nat)
    requires RecordOk(ctx, objs, op, base, live, holds0, holds)
    requires Shaped(op) && i < 4 && op.share[i].Some?
    ensures op.share[i].value in holds && op.share[i].value in objs && Mapped(objs[op.share[i].value]) && op.mb[i].Some?
    ensures op.mb[i].value.InPlace? <==> objs[op.share[i].value].memType == Reserved
    ensures op.mb[i].value.Copy? ==> op.mb[i].value.page in live
    ensures RecordOk(ctx, objs, SetRef(op, i, None, None), base,
                     if op.mb[i].value.Copy? then Without(live, op.mb[i].value.page) else live,
                     holds0, holds - multiset{op.share[i].value})
  {
    RecordFacts(ctx, objs, op, base, live, holds0, holds);
    assert FitsAt(ctx, objs, op, i);
    var op' := SetRef(op, i, None, None);
    var live' := if op.mb[i].value.Copy? then Without(live, op.mb[i].value.page) else live;
    RefGivenLive(op, base, live, i);
    FitsChange(ctx, objs, op, op', i);
    HoldsSub(op.share, i, holds0, holds);
    assert Recorded(ctx, objs, op', base, live', holds0, holds - multiset{op.share[i].value});
  }

  /** With nothing recorded any more, the mailbox and the references are as at the start. */
  lemma AllGiven(ctx: Context, objs: Objects, op: Op, base: LiveMap, live: LiveMap,
                 holds0: multiset<nat>, holds: multiset<nat>)
    requires RecordOk(ctx, objs, op, base, live, holds0, holds)
    requires forall i: nat :: i < 4 ==> ClearAt(op, i)
    ensures live == base && holds == holds0
  {
    RecordFacts(ctx, objs, op, base, live, holds0, holds);
    forall i | 0 <= i < 4
      ensures op.share[i].None? && BlockAt(op, i).None?
    {
      assert ClearAt(op, i);
    }
    forall x: nat
      ensures holds[x] == holds0[x]
    {
      CountNone(op.share, x);
    }
    LiveBack(base, BlocksOf(op), live);
  }

  /** `is_refmem_offset_valid`, on 32-bit unsigned values. */
  function RefOffsetValid(len: nat, offset: U32, size: U32): bool {
    (len - offset) % TWO32 >= size && len > offset
  }

  /** The test accepts exactly the references that lie inside the object, wrap-around included. */
  lemma RefOffsetMeaning(len: nat, offset: U32, size: U32)
    requires len < TWO32 && 0 < size
    ensures RefOffsetValid(len, offset, size) <==> offset + size <= len
  {
    if offset < len {
      assert (len - offset) % TWO32 == len - offset;
    }
  }

  /** The type that the TEE sees for a parameter. */
  function TransType(ty: nat, reserved: bool): nat {
    if IsRefMem(ty) then
      ty - (TEEC_MEMREF_PARTIAL_INPUT - TEE_PARAM_TYPE_MEMREF_INPUT)
      + (if reserved then TEE_PARAM_TYPE_RESMEM_INPUT - TEE_PARAM_TYPE_MEMREF_INPUT else 0)
    else if IsTmpMem(ty) || IsValue(ty) || ty == TEEC_ION_INPUT || ty == TEEC_ION_SGLIST_INPUT
            || ty == TEEC_MEMREF_SHARED_INOUT then ty
    else TEEC_NONE
  }

  // ------ what a parameter gets ------

  /** A block of the size's order is recorded; for size 0 there is none. */
  ghost predicate HoldsBlock(page: Option<nat>, live: LiveMap, size: nat) {
    if size == 0 then page.None? else page.Some? && page.value in live && live[page.value] == OrderOf(size)
  }

  /** Parameter `i` refers to reserved memory. */
  ghost predicate InReserve(objs: Objects, op: Op, i: nat)
    requires Shaped(op) && i < 4
  {
    op.share[i].Some? && op.share[i].value in objs && objs[op.share[i].value].memType == Reserved
  }

  /** The object refers to is the caller's, at the address given, and the part named lies inside it. */
  ghost predicate RefersTo(dev: nat, objs: Objects, share: Option<nat>, p: Param) {
    && share.Some? && share.value in objs && objs[share.value].dev == dev
    && objs[share.value].userAddr == Some(p.buffer) && p.offset + p.size <= objs[share.value].len
  }

  /** `check_buffer_for_sharedmem` */
  predicate SharedRangeOk(p: Param) {
    p.sizeOk && 0 < p.size <= SZ_256M && p.offset < SZ_256M && TWO64 - 1 - p.buffer > p.offset
  }

  /** Length of the page list of `transfer_shared_mem`: a header and one entry for every page touched. */
  function PageListSize(p: Param): nat {
    32 + 8 * (((p.buffer + p.offset) % PAGE_SIZE + p.size + PAGE_SIZE - 1) / PAGE_SIZE)
  }

  /** The page list has one entry for every page from the first byte's to the last byte's. */
  lemma PageListCovers(p: Param)
    requires p.size > 0
    ensures var first, last := (p.buffer + p.offset) / PAGE_SIZE, (p.buffer + p.offset + p.size - 1) / PAGE_SIZE;
            PageListSize(p) == 32 + 8 * (last - first + 1)
  {
  }

  /** A recorded block holds the bytes it was taken for. */
  lemma BlockLargeEnough(page: Option<nat>, live: LiveMap, size: nat)
    requires HoldsBlock(page, live, size) && size > 0
    ensures page.Some? && page.value in live && size <= PAGE_SIZE * Pow2(live[page.value])
  {
    OrderHolds(size);
  }

  /** Parameter `i` was accepted: it has the buffer and the type that its kind asks for, and nothing else. */
  ghost predicate Served(ctx: Context, objs: Objects, op: Op, live: LiveMap, i: nat)
    requires Shaped(op) && i < 4 && |ctx.params| == 4
  {
    var p, ty := ctx.params[i], Ty(ctx, i);
    && op.trans[i] == TransType(ty, InReserve(objs, op, i))
    && (IsRefMem(ty) ==>
          && p.sizeOk && p.size > 0 && RefersTo(ctx.dev, objs, op.share[i], p) && op.mb[i].Some?
          && (op.mb[i].value.InPlace? <==> InReserve(objs, op, i))
          && (op.mb[i].value.Copy? ==> HoldsBlock(Some(op.mb[i].value.page), live, p.size)))
    && (!IsRefMem(ty) ==> op.share[i].None? && op.mb[i].None?)
    && (IsTmpMem(ty) ==> p.sizeOk && p.size <= MAX_SHARED_SIZE && HoldsBlock(op.tmp[i], live, p.size))
    && (ty == TEEC_ION_SGLIST_INPUT ==> p.valueOk && p.ionOk && p.ionSize > 0 && HoldsBlock(op.tmp[i], live, p.ionSize))
    && (ty == TEEC_MEMREF_SHARED_INOUT ==> ctx.nocopy && SharedRangeOk(p) && HoldsBlock(op.tmp[i], live, PageListSize(p)))
    && (!TmpType(ctx, i) ==> op.tmp[i].None?)
    && (IsValue(ty) || ty == TEEC_ION_INPUT ==> p.valueOk)
  }

  /** Blocks handed out before are still handed out. */
  ghost predicate Extends(live: LiveMap, live': LiveMap) {
    forall h :: h in live ==> h in live' && live'[h] == live[h]
  }

  /** Serving another parameter does not disturb this one. */
  lemma StillServed(ctx: Context, objs: Objects, op: Op, live: LiveMap, op': Op, live': LiveMap, i: nat, j: nat)
    requires |ctx.params| == 4 && OnlyAt(op, op', i) && j < 4 && j != i && Extends(live, live')
    requires Served(ctx, objs, op, live, j)
    ensures Served(ctx, objs, op', live', j)
  {
  }

  /** The types the TEE sees fit a nibble each, so all four can be read back from the packed word. */
  lemma TypesPacked(ctx: Context, objs: Objects, op: Op, live: LiveMap, i: nat)
    requires Shaped(op) && |ctx.params| == 4 && i < 4
    requires forall j: nat :: j < 4 ==> Served(ctx, objs, op, live, j)
    ensures TypeAt(PackTypes(op.trans), i) == TransType(Ty(ctx, i), InReserve(objs, op, i))
  {
    forall j | 0 <= j < 4
      ensures op.trans[j] < 16
    {
      assert Served(ctx, objs, op, live, j);
    }
    assert Served(ctx, objs, op, live, i);
    PackedTypes(op.trans, i);
  }
}

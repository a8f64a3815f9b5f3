/** Registers with a known value are folded into the displacement of memory operands, and constant memory is copied
    to the constant pool. */
module MemoryOperandOptimizationPass {
  import opened ProgramState
  import opened DynamicValues
  import P = BinaryPool
  import C = BranchCode
  import E = Encoder

  type Reg = nat

  /** How an address or displacement was calculated from a pointer the user passes, if it was. */
  datatype Tag = NoTag | Usr(nr: int, offset: Word64)

  datatype StaticMem =
    | Direct(addr: Word64, tag: Tag)
    | Sib(base: Option<Reg>, index: Option<Reg>, scale: nat, disp: int, tag: Tag)

  /** An index has a scale; a displacement has 32 bits. */
  predicate WellMem(m: StaticMem) {
    m.Sib? ==> C.Fits32(m.disp) && (m.index.Some? ==> m.scale in {1, 2, 4, 8})
  }

  /** How an instruction uses its operand. NoAccess is an operand whose address does not matter. */
  datatype Mode = NoAccess | AddressOnly | Read | Write | ReadWrite

  /** An operand, and what it is used for; implicit ones come last. Where the address itself is the value, there
      is no size. */
  datatype OperandInfo = NoMemory(isImpl: bool) | Memory(isImpl: bool, mem: StaticMem, mode: Mode, size: nat)

  predicate WellInfo(o: OperandInfo) {
    o.Memory? ==> WellMem(o.mem) && o.size <= 64 && (o.mode == AddressOnly ==> o.size == 0)
  }

  /** What is known when rewriting: values of registers, values of the user's pointers, which memory is constant. */
  datatype Knowledge = Knowledge(
    regs: Reg -> DynValue,
    usrPtr: int -> Option<Word64>,
    isConstant: (Word64, nat) -> bool,
    image: Word64 -> Byte,
    poolStart: Word64,
    poolSize: nat)

  // ---- what the analysis makes of an operand ----

  function Tagged(val: Word64, tag: Tag): DynValue {
    match tag
    case NoTag => DynValue.Imm(val)
    case Usr(nr, offset) => Ptr(UsrPtr, nr, offset)
  }

  function RegValue(k: Knowledge, r: Option<Reg>): DynValue {
    if r.Some? then k.regs(r.value) else DynValue.Imm(0)
  }

  function DispValue(m: StaticMem): DynValue
    requires m.Sib?
  {
    Tagged(Wrap(m.disp), m.tag)
  }

  function PtrValue(k: Knowledge, m: StaticMem): DynValue {
    match m
    case Direct(addr, tag) => Tagged(addr, tag)
    case Sib(base, index, scale, _, _) => CalculateMemPtr(RegValue(k, base), RegValue(k, index), scale, DispValue(m))
  }

  function PtrToInt(k: Knowledge, v: DynValue): Option<Word64> {
    match v
    case Imm(x) => Option.Some(Wrap(x))
    case Ptr(ty, nr, off) =>
      if ty == UsrPtr && k.usrPtr(nr).Some? then Option.Some(Wrap(k.usrPtr(nr).value + off)) else Option.None
    case Plain(_) => Option.None
  }

  predicate IsDisp32(w: Word64) { w < 0x8000_0000 || w >= M - 0x8000_0000 }

  function Signed(w: Word64): int { if w < 0x8000_0000_0000_0000 then w else w - M }

  function TagFor(v: DynValue): Tag { if v.Ptr? then Usr(v.nr, v.offset) else NoTag }

  // ---- what an operand is at run time ----

  /** Registers, and what the pointers are. */
  datatype Run = Run(regs: Reg -> Concrete, env: Env)

  function RegOf(s: Run, r: Option<Reg>): Concrete { if r.Some? then s.regs(r.value) else Concrete(0, false) }

  function AddressOf(s: Run, m: StaticMem): Word64 {
    match m
    case Direct(addr, _) => addr
    case Sib(base, index, scale, disp, _) => Wrap(RegOf(s, base).val + scale * RegOf(s, index).val + disp)
  }

  /** A run the analysis describes. */
  ghost predicate Expected(k: Knowledge, s: Run) {
    && (forall r: Reg :: Means(k.regs(r), s.regs(r), s.env))
    && (forall nr: int :: k.usrPtr(nr).Some? ==> Wrap(s.env(UsrPtr, nr)) == k.usrPtr(nr).value)
  }

  /** A tag tells the truth. */
  predicate TagTrue(s: Run, m: StaticMem) {
    match m.tag
    case NoTag => true
    case Usr(nr, offset) => Wrap(s.env(UsrPtr, nr) + offset) == if m.Direct? then m.addr else Wrap(m.disp)
  }

  // ---- what the analysis says is so ----

  lemma PtrSound(k: Knowledge, s: Run, m: StaticMem)
    requires WellMem(m) && Expected(k, s) && TagTrue(s, m)
    ensures Means(PtrValue(k, m), Concrete(AddressOf(s, m), Taint(s, m)), s.env)
  {
    hide Wrap, C.Fits32;
    match m
    case Direct(addr, tag) => WrapSmall(addr);
    case Sib(base, index, scale, disp, tag) =>
      DispSound(s, m);
      RegSound(k, s, base);
      RegSound(k, s, index);
      MemPtrSound(RegValue(k, base), RegValue(k, index), scale, DispValue(m), RegOf(s, base), RegOf(s, index), Concrete(Wrap(disp), false), s.env);
      SameAddress(RegOf(s, base), RegOf(s, index), scale, disp);
  }

  function Taint(s: Run, m: StaticMem): bool {
    m.Sib? && (RegOf(s, m.base).taint || (m.scale != 0 && RegOf(s, m.index).taint))
  }

  lemma SameAddress(b: Concrete, i: Concrete, scale: nat, disp: int)
    ensures Address(b, i, scale, Concrete(Wrap(disp), false)).val == Wrap(b.val + scale * i.val + disp)
  {
    hide Wrap;
    WrapPlus(scale * i.val, b.val);
    WrapBoth(disp, b.val + scale * i.val);
  }

  lemma RegSound(k: Knowledge, s: Run, r: Option<Reg>)
    requires Expected(k, s)
    ensures Means(RegValue(k, r), RegOf(s, r), s.env)
  {
  }

  lemma DispSound(s: Run, m: StaticMem)
    requires m.Sib? && TagTrue(s, m)
    ensures Means(DispValue(m), Concrete(Wrap(m.disp), false), s.env)
  {
    Twice(m.disp);
  }

  lemma IntSound(k: Knowledge, s: Run, v: DynValue, c: Concrete)
    requires Expected(k, s) && Means(v, c, s.env) && PtrToInt(k, v).Some?
    ensures c.val == PtrToInt(k, v).value
    ensures TagFor(v).Usr? ==> Wrap(s.env(UsrPtr, TagFor(v).nr) + TagFor(v).offset) == c.val
  {
    hide Wrap;
    if v.Ptr? {
      WrapPlus(s.env(UsrPtr, v.nr), v.offset);
    }
  }

  /** What it always is in the runs the analysis describes, as far as they are told by what pointers are. */
  ghost predicate AlwaysIs(k: Knowledge, v: DynValue, w: Word64) {
    forall env: Env, c: Concrete | (forall nr: int :: k.usrPtr(nr).Some? ==> Wrap(env(UsrPtr, nr)) == k.usrPtr(nr).value) && Means(v, c, env) :: c.val == w
  }

  /** A value is known exactly if it always is the same, and then it is that. */
  lemma KnownIff(k: Knowledge, v: DynValue, w: Word64)
    ensures PtrToInt(k, v) == Option.Some(w) <==> AlwaysIs(k, v, w)
  {
    hide Wrap;
    if PtrToInt(k, v) == Option.Some(w) {
      forall env: Env, c: Concrete | (forall nr: int :: k.usrPtr(nr).Some? ==> Wrap(env(UsrPtr, nr)) == k.usrPtr(nr).value) && Means(v, c, env)
        ensures c.val == w
      {
        if v.Ptr? { WrapPlus(env(UsrPtr, v.nr), v.offset); }
      }
    }
    if AlwaysIs(k, v, w) { AlwaysKnown(k, v, w); }
  }

  /** Pointers where they are known to be, one of them somewhere. */
  function Somewhere(k: Knowledge, ty: DynType, nr: int, at: nat): Env {
    (t: DynType, n: int) =>
      var a: nat := if t == UsrPtr && k.usrPtr(n).Some? then k.usrPtr(n).value else if t == ty && n == nr then at else 0;
      a
  }

  lemma AlwaysKnown(k: Knowledge, v: DynValue, w: Word64)
    requires AlwaysIs(k, v, w)
    ensures PtrToInt(k, v) == Option.Some(w)
  {
    var ty, nr := if v.Ptr? then v.ty else UsrPtr, if v.Ptr? then v.nr else 0;
    var e, e' := Somewhere(k, ty, nr, 0), Somewhere(k, ty, nr, 1);
    SomewhereKnown(k, ty, nr, 0);
    SomewhereKnown(k, ty, nr, 1);
    match v
    case Imm(x) => assert Means(v, Concrete(Wrap(x), false), e);
    case Plain(_) => assert Means(v, Concrete(0, false), e) && Means(v, Concrete(1, false), e);
    case Ptr(_, _, off) =>
      assert Means(v, Concrete(Wrap(e(ty, nr) + off), false), e) && Means(v, Concrete(Wrap(e'(ty, nr) + off), false), e');
      OneMore(off);
  }

  lemma SomewhereKnown(k: Knowledge, ty: DynType, nr: int, at: nat)
    ensures forall n: int :: k.usrPtr(n).Some? ==> Wrap(Somewhere(k, ty, nr, at)(UsrPtr, n)) == k.usrPtr(n).value
  {
  }

  lemma OneMore(x: int)
    ensures Wrap(1 + x) != Wrap(0 + x)
  {
    WrapPlus(x, 1);
  }

  // ---- folding ----

  function BaseSum(k: Knowledge, m: StaticMem): DynValue
    requires m.Sib?
  {
    AddDynamicValues(RegValue(k, m.base), DispValue(m))
  }

  function IndexSum(k: Knowledge, m: StaticMem): DynValue
    requires m.Sib?
  {
    AddDynamicValues(MultiplyDynamicValue(RegValue(k, m.index), m.scale), DispValue(m))
  }

  /** Known, and it fits. */
  predicate Foldable(k: Knowledge, v: DynValue) { PtrToInt(k, v).Some? && IsDisp32(PtrToInt(k, v).value) }

  function WithoutBase(m: StaticMem, w: Word64, tag: Tag): StaticMem
    requires m.Sib?
  {
    m.(base := Option.None, disp := Signed(w), tag := tag)
  }

  function WithoutIndex(m: StaticMem, w: Word64, tag: Tag): StaticMem
    requires m.Sib?
  {
    m.(index := Option.None, scale := 0, disp := Signed(w), tag := tag)
  }

  /** All of the address, or base, or index go into the displacement; None if nothing can be folded. */
  function Fold(k: Knowledge, m: StaticMem): Option<StaticMem>
    requires m.Sib?
  {
    var v, v1, v2 := PtrValue(k, m), BaseSum(k, m), IndexSum(k, m);
    if Foldable(k, v) then Option.Some(Direct(PtrToInt(k, v).value, TagFor(v)))
    else if m.base.Some? && Foldable(k, v1) then Option.Some(WithoutBase(m, PtrToInt(k, v1).value, TagFor(v1)))
    else if m.index.Some? && Foldable(k, v2) then Option.Some(WithoutIndex(m, PtrToInt(k, v2).value, TagFor(v2)))
    else Option.None
  }

  lemma SignedBack(w: Word64)
    ensures Wrap(Signed(w)) == w && (IsDisp32(w) <==> C.Fits32(Signed(w)))
  {
  }

  /** In every run the analysis describes, the folded operand has the same address, and its tag is true. */
  lemma FoldKeepsAddress(k: Knowledge, s: Run, m: StaticMem)
    requires m.Sib? && WellMem(m) && Expected(k, s) && TagTrue(s, m) && Fold(k, m).Some?
    ensures var m' := Fold(k, m).value; AddressOf(s, m') == AddressOf(s, m) && TagTrue(s, m') && WellMem(m')
  {
    hide PtrValue, BaseSum, IndexSum, PtrToInt, TagFor, Expected, WellMem, AddressOf, WithoutBase, WithoutIndex, TagTrue, IsDisp32;
    var v, v1, v2 := PtrValue(k, m), BaseSum(k, m), IndexSum(k, m);
    if Foldable(k, v) {
      WholeFolded(k, s, m);
    } else if m.base.Some? && Foldable(k, v1) {
      BaseFolded(k, s, m);
    } else {
      IndexFolded(k, s, m);
    }
  }

  lemma WholeFolded(k: Knowledge, s: Run, m: StaticMem)
    requires m.Sib? && WellMem(m) && Expected(k, s) && TagTrue(s, m) && PtrToInt(k, PtrValue(k, m)).Some?
    ensures var m' := Direct(PtrToInt(k, PtrValue(k, m)).value, TagFor(PtrValue(k, m)));
            AddressOf(s, m') == AddressOf(s, m) && TagTrue(s, m') && WellMem(m')
  {
    hide PtrValue, PtrToInt, TagFor, Expected, Wrap, Means;
    PtrSound(k, s, m);
    IntSound(k, s, PtrValue(k, m), Concrete(AddressOf(s, m), Taint(s, m)));
  }

  lemma BaseFolded(k: Knowledge, s: Run, m: StaticMem)
    requires m.Sib? && WellMem(m) && Expected(k, s) && TagTrue(s, m) && m.base.Some? && Foldable(k, BaseSum(k, m))
    ensures var m' := WithoutBase(m, PtrToInt(k, BaseSum(k, m)).value, TagFor(BaseSum(k, m)));
            AddressOf(s, m') == AddressOf(s, m) && TagTrue(s, m') && WellMem(m')
  {
    hide PtrToInt, TagFor, Expected, Wrap, Means, DispValue, RegValue, AddDynamicValues, Signed, IsDisp32;
    var b, d := RegOf(s, m.base), Concrete(Wrap(m.disp), false);
    RegSound(k, s, m.base);
    DispSound(s, m);
    AddSound(RegValue(k, m.base), DispValue(m), b, d, s.env);
    IntSound(k, s, BaseSum(k, m), Plus(b, d));
    var w := PtrToInt(k, BaseSum(k, m)).value;
    SignedBack(w);
    assert w == Wrap(b.val + Wrap(m.disp));
    var rest := m.scale * RegOf(s, m.index).val;
    // w + rest, with the displacement that stands for w
    WrapPlus(Signed(w), rest);
    WrapPlus(m.disp, b.val);
    WrapPlus(b.val + m.disp, rest);
  }

  lemma IndexFolded(k: Knowledge, s: Run, m: StaticMem)
    requires m.Sib? && WellMem(m) && Expected(k, s) && TagTrue(s, m) && m.index.Some? && Foldable(k, IndexSum(k, m))
    ensures var m' := WithoutIndex(m, PtrToInt(k, IndexSum(k, m)).value, TagFor(IndexSum(k, m)));
            AddressOf(s, m') == AddressOf(s, m) && TagTrue(s, m') && WellMem(m')
  {
    hide PtrToInt, TagFor, Expected, Wrap, Means, DispValue, RegValue, AddDynamicValues, MultiplyDynamicValue, Signed, IsDisp32;
    var i, d := RegOf(s, m.index), Concrete(Wrap(m.disp), false);
    RegSound(k, s, m.index);
    DispSound(s, m);
    MultiplySound(RegValue(k, m.index), m.scale, i, s.env);
    AddSound(MultiplyDynamicValue(RegValue(k, m.index), m.scale), DispValue(m), Times(m.scale, i), d, s.env);
    IntSound(k, s, IndexSum(k, m), Plus(Times(m.scale, i), d));
    var w := PtrToInt(k, IndexSum(k, m)).value;
    SignedBack(w);
    var rest, b := m.scale * i.val, RegOf(s, m.base).val;
    assert w == Wrap(Wrap(rest) + Wrap(m.disp));
    WrapBoth(rest, m.disp);
    WrapPlus(Signed(w), b);
    WrapPlus(rest + m.disp, b);
  }

  /** Without index, an address that is known after folding the base is known as a whole, and the other way round. */
  lemma FoldKeepsRegister(k: Knowledge, m: StaticMem)
    requires m.Sib? && (m.base.Some? || m.index.Some?) && Fold(k, m).Some?
    ensures var m' := Fold(k, m).value; m'.Sib? ==> m'.base.Some? || m'.index.Some?
  {
    hide PtrToInt, PtrValue, BaseSum, IndexSum, IsDisp32;
    if m.index.None? && Foldable(k, BaseSum(k, m)) { BaseIsWhole(k, m); }
    if m.base.None? && Foldable(k, IndexSum(k, m)) { IndexIsWhole(k, m); }
  }

  lemma BaseIsWhole(k: Knowledge, m: StaticMem)
    requires m.Sib? && m.index.None? && Foldable(k, BaseSum(k, m))
    ensures PtrValue(k, m) == BaseSum(k, m)
  {
    hide Wrap, IsDisp32;
    Small(m);
    var b, d := RegValue(k, m.base), DispValue(m);
    Zero(m.scale);
    if b.Ptr? { WrapSmall(b.offset); }
    if b.Imm? {
      Twice(b.val);
      WrapPlus(b.val, 0);
    }
  }

  lemma IndexIsWhole(k: Knowledge, m: StaticMem)
    requires m.Sib? && m.base.None? && Foldable(k, IndexSum(k, m))
    ensures PtrValue(k, m) == IndexSum(k, m)
  {
    hide Wrap, IsDisp32;
    Small(m);
    Zero(1);
    var i, d := RegValue(k, m.index), DispValue(m);
    var p := MultiplyDynamicValue(i, m.scale);
    if p.Ptr? { WrapSmall(p.offset); }
    if p.Imm? {
      Twice(p.val);
      WrapPlus(p.val, 0);
    }
    if i.Imm? {
      WrapSmall(Imm64(i));
      Twice(m.scale * Imm64(i));
      WrapPlus(m.scale * Imm64(i), m.disp);
      if d.Imm? {
        WrapPlus(m.scale * Imm64(i), Imm64(d));
        Twice(i.val);
      }
    }
  }

  lemma Small(m: StaticMem)
    requires m.Sib?
    ensures DispValue(m).Imm? ==> Imm64(DispValue(m)) == Wrap(m.disp)
  {
    Twice(m.disp);
  }

  lemma Zero(scale: nat)
    ensures Imm64(DynValue.Imm(0)) == 0 && scale * 0 == 0 && Wrap(0) == 0
  {
  }

  // ---- loads from constant memory ----

  /** Byte i of the memory at an address. */
  function ByteAt(mem: Word64 -> Byte, a: Word64, i: int): Byte { mem(Wrap(a + i)) }

  ghost predicate SameBytes(mem: Word64 -> Byte, a: Word64, b: Word64, n: nat) {
    forall i | 0 <= i < n :: ByteAt(mem, a, i) == ByteAt(mem, b, i)
  }

  function Loaded(mem: Word64 -> Byte, a: Word64, n: nat): (bs: seq<Byte>)
    ensures |bs| == n
  {
    if n == 0 then [] else Loaded(mem, a, n - 1) + [ByteAt(mem, a, n - 1)]
  }

  /** Bytes in memory at an address. */
  ghost predicate Stored(mem: Word64 -> Byte, a: Word64, bs: seq<Byte>) {
    forall i | 0 <= i < |bs| :: ByteAt(mem, a, i) == bs[i]
  }

  /** The memory of a run: what is constant is as it was when rewriting, and the constants of the pool are there. */
  ghost predicate Mapped(k: Knowledge, constants: map<P.Addr, seq<Byte>>, mem: Word64 -> Byte) {
    && (forall a: Word64, n: nat | k.isConstant(a, n) :: Stored(mem, a, Loaded(k.image, a, n)))
    && (forall a | a in constants :: Stored(mem, Wrap(k.poolStart + a), constants[a]))
  }

  /** Address or bytes are the same, as far as the instruction needs them. */
  ghost predicate SameUse(s: Run, mem: Word64 -> Byte, o: OperandInfo, m: StaticMem)
    requires o.Memory?
  {
    match o.mode
    case NoAccess => true
    case Read => SameBytes(mem, AddressOf(s, o.mem), AddressOf(s, m), o.size)
    case _ => AddressOf(s, o.mem) == AddressOf(s, m)
  }

  ghost predicate Replaces(k: Knowledge, s: Run, constants: map<P.Addr, seq<Byte>>, o: OperandInfo, m: StaticMem)
    requires o.Memory?
  {
    TagTrue(s, m) && forall mem: Word64 -> Byte | Mapped(k, constants, mem) :: SameUse(s, mem, o, m)
  }

  /** In every run the analysis describes, the new operand does as well as the old one. */
  ghost predicate Better(k: Knowledge, constants: map<P.Addr, seq<Byte>>, o: OperandInfo, m: StaticMem)
    requires o.Memory?
  {
    WellMem(m) && forall s: Run | Expected(k, s) && TagTrue(s, o.mem) :: Replaces(k, s, constants, o, m)
  }

  lemma MovedToPool(k: Knowledge, constants: map<P.Addr, seq<Byte>>, o: OperandInfo, p: Word64, a: P.Addr)
    requires o.Memory? && o.mode == Read && WellMem(o.mem) && PtrToInt(k, PtrValue(k, o.mem)) == Option.Some(p) && k.isConstant(p, o.size)
    requires a in constants && constants[a] == Loaded(k.image, p, o.size)
    ensures Better(k, constants, o, Direct(Wrap(k.poolStart + a), NoTag))
  {
    hide PtrValue, PtrToInt, TagFor, Expected, Wrap, Means, Loaded, WellMem;
    var m := Direct(Wrap(k.poolStart + a), NoTag);
    assert WellMem(m) by { DirectWell(m); }
    forall s: Run | Expected(k, s) && TagTrue(s, o.mem) ensures Replaces(k, s, constants, o, m) {
      PtrSound(k, s, o.mem);
      IntSound(k, s, PtrValue(k, o.mem), Concrete(AddressOf(s, o.mem), Taint(s, o.mem)));
      forall mem: Word64 -> Byte | Mapped(k, constants, mem) ensures SameUse(s, mem, o, m) {
        assert Stored(mem, p, Loaded(k.image, p, o.size));
        assert Stored(mem, Wrap(k.poolStart + a), constants[a]);
      }
    }
  }

  lemma DirectWell(m: StaticMem)
    requires m.Direct?
    ensures WellMem(m)
  {
  }

  lemma FoldedBetter(k: Knowledge, constants: map<P.Addr, seq<Byte>>, o: OperandInfo)
    requires o.Memory? && o.mem.Sib? && WellMem(o.mem) && Fold(k, o.mem).Some?
    ensures Better(k, constants, o, Fold(k, o.mem).value)
  {
    hide Fold, TagTrue, Expected, WellMem, AddressOf, Mapped;
    var m := Fold(k, o.mem).value;
    FoldWell(k, o.mem);
    forall s: Run | Expected(k, s) && TagTrue(s, o.mem) ensures Replaces(k, s, constants, o, m) {
      FoldKeepsAddress(k, s, o.mem);
    }
  }

  lemma FoldWell(k: Knowledge, m: StaticMem)
    requires m.Sib? && WellMem(m) && Fold(k, m).Some?
    ensures WellMem(Fold(k, m).value)
  {
    hide PtrValue, BaseSum, IndexSum, PtrToInt, Signed, IsDisp32;
    forall w: Word64 ensures IsDisp32(w) ==> C.Fits32(Signed(w)) { SignedBack(w); }
  }

  lemma FakeAddressBetter(k: Knowledge, constants: map<P.Addr, seq<Byte>>, o: OperandInfo)
    requires o.Memory? && o.mode == NoAccess
    ensures Better(k, constants, o, Direct(0, NoTag))
  {
    hide Expected, AddressOf, Mapped;
  }

  predicate InPool(k: Knowledge, a: Word64) { k.poolStart <= a < k.poolStart + k.poolSize }

  datatype Change = NoChange | NewOperand(nr: nat, mem: StaticMem)

  class MemoryOperandOptimization {
    const pool: P.Pool

    constructor (pool: P.Pool)
      ensures this.pool == pool
    {
      this.pool := pool;
    }

    /** Replace the first memory operand that can be replaced, if there is one. Constants that cannot be allocated
        are a failure. */
    method HandleInstruction(k: Knowledge, operands: seq<OperandInfo>) returns (ok: bool, change: Change)
      requires pool.Valid() && forall i | 0 <= i < |operands| :: WellInfo(operands[i])
      modifies pool, pool.mem
      ensures ok ==> pool.Valid()
      ensures ok && change.NewOperand? ==>
                && change.nr < |operands| && operands[change.nr].Memory? && !operands[change.nr].isImpl
                && Better(k, pool.constants, operands[change.nr], change.mem)
                && (HasRegister(operands[change.nr].mem) && change.mem.Sib? ==> HasRegister(change.mem))
                && Simpler(k, operands[change.nr], change.mem)
                && forall i | 0 <= i < change.nr :: !CanFold(k, operands[i]) && !CanPool(k, operands[i])
      ensures ok && change.NoChange? ==> forall i | 0 <= i < |operands| && Explicit(operands, i) :: !CanFold(k, operands[i]) && !CanPool(k, operands[i])
    {
      hide Better, Fold, Simpler, CanFold, CanPool, PtrValue, PtrToInt, P.KeptIn, P.PowerOf2, P.PlaceFor, Loaded, WellMem, Wrap;
      var i := 0;
      while i < |operands|
        invariant pool.Valid() && i <= |operands|
        invariant forall j | 0 <= j < i :: !operands[j].isImpl && !CanFold(k, operands[j]) && !CanPool(k, operands[j])
      {
        var o := operands[i];
        FoldIff(k, o);
        PoolIff(k, o);
        if o.isImpl {
          assert forall j | i <= j < |operands| :: !Explicit(operands, j);
          break;
        }
        if o.Memory? {
          assert WellInfo(o);
          if o.size != 0 && (o.mode == Read || o.mode == AddressOnly) {
            var p := PtrToInt(k, PtrValue(k, o.mem));
            if p.Some? && !InPool(k, p.value) && k.isConstant(p.value, o.size) {
              var a;
              ok, a := pool.AllocConstantBytes(Loaded(k.image, p.value, o.size));
              if ok {
                MovedToPool(k, pool.constants, o, p.value, a);
                PooledSimpler(k, o, Wrap(k.poolStart + a));
              }
              change := NewOperand(i, Direct(Wrap(k.poolStart + a), NoTag));
              return;
            }
          }
          if o.mem.Sib? {
            if o.mode == NoAccess {
              FakeAddressBetter(k, pool.constants, o);
              FakeSimpler(k, o);
              return true, NewOperand(i, Direct(0, NoTag));
            }
            var m := Fold(k, o.mem);
            if m.Some? {
              FoldedBetter(k, pool.constants, o);
              FoldedSimpler(k, o);
              if HasRegister(o.mem) { FoldKeepsRegister(k, o.mem); }
              return true, NewOperand(i, m.value);
            }
          }
        }
        i := i + 1;
      }
      return true, NoChange;
    }
  }

  /** No implicit operand comes before it. */
  ghost predicate Explicit(operands: seq<OperandInfo>, n: nat) {
    n < |operands| && forall j | 0 <= j <= n :: !operands[j].isImpl
  }

  /** All of the address is known, or the base with the displacement, or the scaled index with it, as an address or a
      displacement of 32 bits; or the address does not matter. */
  predicate CanFold(k: Knowledge, o: OperandInfo) {
    o.Memory? && o.mem.Sib?
    && (o.mode == NoAccess || Foldable(k, PtrValue(k, o.mem)) || (o.mem.base.Some? && Foldable(k, BaseSum(k, o.mem)))
        || (o.mem.index.Some? && Foldable(k, IndexSum(k, o.mem))))
  }

  /** It only reads bytes that are constant, and not in the pool yet. */
  predicate CanPool(k: Knowledge, o: OperandInfo) {
    o.Memory? && o.size != 0 && o.mode == Read
    && var p := PtrToInt(k, PtrValue(k, o.mem)); p.Some? && !InPool(k, p.value) && k.isConstant(p.value, o.size)
  }

  /** A fixed address, in the pool or the one known if that can be had; or without base; or without index. */
  predicate Simpler(k: Knowledge, o: OperandInfo, m: StaticMem) {
    o.Memory?
    && (CanPool(k, o) ==> m.Direct?)
    && (!CanPool(k, o) ==>
          && CanFold(k, o)
          && (o.mode == NoAccess || Foldable(k, PtrValue(k, o.mem)) ==> m.Direct?)
          && (!(o.mode == NoAccess || Foldable(k, PtrValue(k, o.mem))) ==>
                if o.mem.base.Some? && Foldable(k, BaseSum(k, o.mem)) then m.Sib? && m.base.None? && m.index == o.mem.index && m.scale == o.mem.scale
                else m.Sib? && m.index.None? && m.base == o.mem.base))
  }

  lemma FoldIff(k: Knowledge, o: OperandInfo)
    ensures CanFold(k, o) <==> o.Memory? && o.mem.Sib? && (o.mode == NoAccess || Fold(k, o.mem).Some?)
  {
    hide Foldable, PtrValue, BaseSum, IndexSum, PtrToInt;
  }

  lemma PoolIff(k: Knowledge, o: OperandInfo)
    requires WellInfo(o)
    ensures CanPool(k, o) <==> o.Memory? && o.size != 0 && (o.mode == Read || o.mode == AddressOnly)
                               && var p := PtrToInt(k, PtrValue(k, o.mem)); p.Some? && !InPool(k, p.value) && k.isConstant(p.value, o.size)
  {
    hide PtrValue, PtrToInt, InPool, WellMem;
  }

  lemma PooledSimpler(k: Knowledge, o: OperandInfo, a: Word64)
    requires o.Memory? && CanPool(k, o)
    ensures Simpler(k, o, Direct(a, NoTag))
  {
    hide CanPool, CanFold, PtrValue, BaseSum, IndexSum;
  }

  lemma FakeSimpler(k: Knowledge, o: OperandInfo)
    requires o.Memory? && o.mem.Sib? && o.mode == NoAccess
    ensures Simpler(k, o, Direct(0, NoTag))
  {
    hide PtrValue, BaseSum, IndexSum, PtrToInt;
  }

  lemma FoldedSimpler(k: Knowledge, o: OperandInfo)
    requires o.Memory? && o.mem.Sib? && o.mode != NoAccess && !CanPool(k, o) && Fold(k, o.mem).Some?
    ensures Simpler(k, o, Fold(k, o.mem).value)
  {
    hide PtrValue, BaseSum, IndexSum, PtrToInt, CanPool, IsDisp32, Signed, TagFor;
  }

  predicate HasRegister(m: StaticMem) { m.Sib? && (m.base.Some? || m.index.Some?) }

  // ---- what the encoder makes of it ----

  function Wide(r: Option<Reg>): E.Option<E.AddrReg> {
    match r
    case None => E.None
    case Some(num) => E.Some(E.AddrReg(num, true))
  }

  function ForEncoder(m: StaticMem): E.MemOperand {
    match m
    case Direct(addr, _) => E.Direct(addr)
    case Sib(base, index, scale, disp, _) => E.Sib(Wide(base), Wide(index), scale, disp)
  }

  /** Folding makes an operand the encoder gets wrong of one it gets right exactly when it takes the index away
      from register 12. */
  lemma FoldMisencodesIff(k: Knowledge, m: StaticMem)
    requires m.Sib? && Fold(k, m).Some? && !E.Misencoded(ForEncoder(m))
    ensures var m' := Fold(k, m).value;
            m'.Sib? && E.Misencoded(ForEncoder(m'))
            <==> !Foldable(k, PtrValue(k, m)) && m.base == Option.Some(E.R12) && !Foldable(k, BaseSum(k, m))
  {
    hide PtrValue, BaseSum, IndexSum, PtrToInt, IsDisp32, Signed;
  }

  /** It does happen. */
  lemma FoldMayMisencode() returns (k: Knowledge, m: StaticMem)
    ensures m.Sib? && WellMem(m) && !E.Misencoded(ForEncoder(m))
    ensures Fold(k, m).Some? && Fold(k, m).value.Sib? && E.Misencoded(ForEncoder(Fold(k, m).value))
  {
    k := Knowledge(r => if r == 1 then DynValue.Imm(8) else Plain(Unknown), _ => Option.None, (_, _) => false, _ => 0, 0, 0);
    m := Sib(Option.Some(E.R12), Option.Some(1), 1, 0, NoTag);
  }
}

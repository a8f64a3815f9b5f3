/** 64-bit instructions replaced by cheaper ones once operands are known. */
module Specialize {
  import opened ProgramState
  import opened DynamicValues
  import opened MemoryOperandOptimizationPass
  import P = BinaryPool

  datatype Mnemonic = Add | Cmp | Lea | Mov | Test | Xor

  /** Destination, then source: register, memory, immediate, or an address that is only calculated. */
  datatype Form = RR | RM | MR | RI | MI | RA

  datatype Op = RegOp(r: Reg) | MemOp(m: StaticMem) | ImmOp(val: Word64, tag: Tag)

  datatype Instr64 = Instr64(mnemonic: Mnemonic, form: Form, dst: Op, src: Op)

  // ---- what the instructions do ----

  /** The flags are some function of the kind of operation and its operands. */
  datatype Flags = Before(n: int) | OfAdd(a: Word64, b: Word64) | OfSub(a: Word64, b: Word64) | OfLogic(r: Word64)

  datatype State64 = State64(regs: Reg -> Word64, mem: Word64 -> Byte, flags: Flags)

  predicate Exists(mnemonic: Mnemonic, form: Form) {
    match mnemonic
    case Lea => form == RA
    case Test => form == RR || form == MR || form == RI || form == MI
    case _ => form != RA
  }

  /** The operands are what the opcode says. */
  predicate Encodable(i: Instr64) {
    && Exists(i.mnemonic, i.form)
    && (if i.form == MR || i.form == MI then i.dst.MemOp? else i.dst.RegOp?)
    && (match i.form
        case RR => i.src.RegOp?
        case MR => i.src.RegOp?
        case RM => i.src.MemOp?
        case RA => i.src.MemOp?
        case RI => i.src.ImmOp?
        case MI => i.src.ImmOp?)
  }

  /** The lower 32 bits, sign-extended. */
  function Extended(w: Word64): Word64 {
    var l := w % 0x1_0000_0000;
    if l < 0x8000_0000 then l else l + (M - 0x1_0000_0000)
  }

  predicate IsSimm32(w: Word64) { w < 0x8000_0000 || w >= M - 0x8000_0000 }

  function AddressIn(regs: Reg -> Word64, m: StaticMem): Word64 {
    match m
    case Direct(addr, _) => addr
    case Sib(base, index, scale, disp, _) =>
      Wrap((if base.Some? then regs(base.value) else 0) + scale * (if index.Some? then regs(index.value) else 0) + disp)
  }

  function Load(mem: Word64 -> Byte, a: Word64): Word64 { Wrap(Word(Loaded(mem, a, 8))) }

  function Store(mem: Word64 -> Byte, a: Word64, w: Word64): Word64 -> Byte {
    (x: Word64) => var d: int := Wrap(x - a); if d < 8 then Bytes(w, 8)[d] else mem(x)
  }

  /** Immediates have 32 bits, except of a move to a register. */
  function Value(i: Instr64, op: Op, s: State64): Word64 {
    match op
    case RegOp(r) => s.regs(r)
    case MemOp(m) => if i.form == RA then AddressIn(s.regs, m) else Load(s.mem, AddressIn(s.regs, m))
    case ImmOp(val, _) => if i.mnemonic == Mov && i.form == RI then val else Extended(val)
  }

  function SetReg(regs: Reg -> Word64, r: Reg, w: Word64): Reg -> Word64 { (x: Reg) => if x == r then w else regs(x) }

  function Put(op: Op, w: Word64, s: State64): State64 {
    match op
    case RegOp(r) => s.(regs := SetReg(s.regs, r, w))
    case MemOp(m) => s.(mem := Store(s.mem, AddressIn(s.regs, m), w))
    case ImmOp(_, _) => s
  }

  function BitAnd(a: nat, b: nat): nat {
    if a == 0 || b == 0 then 0 else (if a % 2 == 1 && b % 2 == 1 then 1 else 0) + 2 * BitAnd(a / 2, b / 2)
  }

  function BitXor(a: nat, b: nat): nat {
    if a == 0 then b else if b == 0 then a else (if a % 2 != b % 2 then 1 else 0) + 2 * BitXor(a / 2, b / 2)
  }

  function Exec(i: Instr64, s: State64): State64 {
    var a, b := Value(i, i.dst, s), Value(i, i.src, s);
    match i.mnemonic
    case Add => Put(i.dst, Wrap(a + b), s).(flags := OfAdd(a, b))
    case Cmp => s.(flags := OfSub(a, b))
    case Lea => Put(i.dst, b, s)
    case Mov => Put(i.dst, b, s)
    case Test => s.(flags := OfLogic(Wrap(BitAnd(a, b))))
    case Xor => Put(i.dst, Wrap(BitXor(a, b)), s).(flags := OfLogic(Wrap(BitXor(a, b))))
  }

  /** The result left in the destination. */
  function Result(i: Instr64, s: State64): Word64 {
    var a, b := Value(i, i.dst, s), Value(i, i.src, s);
    match i.mnemonic
    case Add => Wrap(a + b)
    case Xor => Wrap(BitXor(a, b))
    case Lea => b
    case Mov => b
    case _ => a
  }

  lemma SimmExtends(w: Word64)
    ensures IsSimm32(w) <==> Extended(w) == w
  {
  }

  lemma {:induction false} AndCommutes(a: nat, b: nat)
    ensures BitAnd(a, b) == BitAnd(b, a)
    decreases a
  {
    if a != 0 && b != 0 { AndCommutes(a / 2, b / 2); }
  }

  lemma {:induction false} XorSelf(a: nat)
    ensures BitXor(a, a) == 0
  {
    if a != 0 { XorSelf(a / 2); }
  }

  lemma XorZero(a: Word64)
    ensures BitXor(a, 0) == a && BitXor(0, a) == a && Wrap(a) == a
  {
  }

  // ---- what the analysis knows ----

  /** Of the operands before, and of the destination after the instruction. */
  datatype Known = Known(dst: DynValue, src: DynValue, result: DynValue)

  predicate Agrees(k: Knowledge, v: DynValue, w: Word64) { PtrToInt(k, v).Some? ==> PtrToInt(k, v).value == w }

  /** A state the analysis describes. */
  predicate Foreseen(k: Knowledge, d: Known, i: Instr64, s: State64) {
    Agrees(k, d.dst, Value(i, i.dst, s)) && Agrees(k, d.src, Value(i, i.src, s)) && Agrees(k, d.result, Result(i, s))
  }

  /** A replacement: nothing, deleted, or another instruction. */
  datatype Specialized = Same | Delete | Change(instr: Instr64)

  /** The same values everywhere; flags only if they are read. */
  ghost predicate Alike(flagsRead: bool, s: State64, t: State64) {
    && (forall r: Reg :: s.regs(r) == t.regs(r))
    && (forall a: Word64 :: s.mem(a) == t.mem(a))
    && (flagsRead ==> s.flags == t.flags)
  }

  function Specially(i: Instr64, r: Specialized, s: State64): State64 {
    match r
    case Same => Exec(i, s)
    case Delete => s
    case Change(j) => Exec(j, s)
  }

  /** Constants of the pool are in memory. */
  ghost predicate PoolThere(k: Knowledge, constants: map<P.Addr, seq<Byte>>, mem: Word64 -> Byte) {
    forall a | a in constants :: Stored(mem, Wrap(k.poolStart + a), constants[a])
  }

  /** How an immediate was made from a pointer of the user, if it was. */
  predicate TagRight(k: Knowledge, op: Op) {
    op.ImmOp? && op.tag.Usr? ==> k.usrPtr(op.tag.nr).Some? && op.val == Wrap(k.usrPtr(op.tag.nr).value + op.tag.offset)
  }

  /** In every state the analysis describes, the replacement does the same as far as that matters. */
  ghost predicate Sound(k: Knowledge, constants: map<P.Addr, seq<Byte>>, d: Known, i: Instr64, flagsRead: bool, r: Specialized) {
    && (r.Change? ==> Encodable(r.instr) && TagRight(k, r.instr.src))
    && forall s: State64 | Foreseen(k, d, i, s) && PoolThere(k, constants, s.mem) :: Alike(flagsRead, Exec(i, s), Specially(i, r, s))
  }

  function GetImm(k: Knowledge, v: DynValue): Option<Op> {
    if PtrToInt(k, v).Some? then Option.Some(ImmOp(PtrToInt(k, v).value, TagFor(v))) else Option.None
  }

  lemma ImmTagged(k: Knowledge, v: DynValue)
    requires GetImm(k, v).Some?
    ensures TagRight(k, GetImm(k, v).value)
  {
  }

  // ---- the replacements ----

  /** A known source becomes an immediate. */
  function WithImm(i: Instr64, imm: Op): Instr64 { i.(form := if i.form == MR then MI else RI, src := imm) }

  function WithMem(i: Instr64, a: Word64): Instr64 { i.(form := RM, src := MemOp(Direct(a, NoTag))) }

  lemma SourceImmediate(k: Knowledge, constants: map<P.Addr, seq<Byte>>, d: Known, i: Instr64, imm: Op, flagsRead: bool)
    requires Encodable(i) && i.form in {RR, RM, MR} && GetImm(k, d.src) == Option.Some(imm) && imm.ImmOp?
    requires IsSimm32(imm.val) || (i.mnemonic == Mov && i.form != MR)
    ensures Sound(k, constants, d, i, flagsRead, Change(WithImm(i, imm)))
  {
    hide Load, Store, AddressIn, BitAnd, BitXor, Wrap, PtrToInt, TagFor, IsSimm32, Extended;
    ImmTagged(k, d.src);
    SimmExtends(imm.val);
    var j := WithImm(i, imm);
    forall s: State64 | Foreseen(k, d, i, s) && PoolThere(k, constants, s.mem) ensures Alike(flagsRead, Exec(i, s), Exec(j, s)) {
      assert Value(j, j.src, s) == Value(i, i.src, s);
      assert Value(j, j.dst, s) == Value(i, i.dst, s);
    }
  }

  lemma LoadStored(mem: Word64 -> Byte, a: Word64, w: Word64)
    requires Stored(mem, a, Bytes(w, 8))
    ensures Load(mem, a) == w
  {
    hide Bytes, ByteAt, Word, Loaded, Pow256;
    LoadedPrefix(mem, a, Bytes(w, 8), 8);
    assert Bytes(w, 8)[..8] == Bytes(w, 8);
    WordOfBytes(w, 8);
    PowIs();
    WrapSmall(w);
  }

  lemma {:induction false} LoadedPrefix(mem: Word64 -> Byte, a: Word64, bs: seq<Byte>, n: nat)
    requires Stored(mem, a, bs) && n <= |bs|
    ensures Loaded(mem, a, n) == bs[..n]
  {
    hide ByteAt;
    if n > 0 {
      LoadedPrefix(mem, a, bs, n - 1);
      assert ByteAt(mem, a, n - 1) == bs[n - 1];
    }
  }

  /** Only the source counts, not where it comes from. */
  lemma SameSource(flagsRead: bool, i: Instr64, j: Instr64, s: State64)
    requires i.mnemonic == j.mnemonic && i.dst == j.dst && i.dst.RegOp? && Value(i, i.src, s) == Value(j, j.src, s)
    ensures Alike(flagsRead, Exec(i, s), Exec(j, s))
  {
    hide Load, Store, BitAnd, BitXor, Wrap, AddressIn, Extended;
  }

  lemma PoolSourceAt(k: Knowledge, constants: map<P.Addr, seq<Byte>>, d: Known, i: Instr64, imm: Op, a: P.Addr, flagsRead: bool, s: State64)
    requires Encodable(i) && i.form in {RR, RM} && i.mnemonic in {Add, Cmp, Xor}
    requires GetImm(k, d.src) == Option.Some(imm) && imm.ImmOp? && a in constants && constants[a] == Bytes(imm.val, 8)
    requires Foreseen(k, d, i, s) && PoolThere(k, constants, s.mem)
    ensures Alike(flagsRead, Exec(i, s), Exec(WithMem(i, Wrap(k.poolStart + a)), s))
  {
    hide Load, Store, BitAnd, BitXor, Wrap, PtrToInt, TagFor, Bytes, Stored, Extended, Exec, Alike;
    assert Stored(s.mem, Wrap(k.poolStart + a), constants[a]);
    LoadStored(s.mem, Wrap(k.poolStart + a), imm.val);
    SameSource(flagsRead, i, WithMem(i, Wrap(k.poolStart + a)), s);
  }

  lemma PoolSource(k: Knowledge, constants: map<P.Addr, seq<Byte>>, d: Known, i: Instr64, imm: Op, a: P.Addr, flagsRead: bool)
    requires Encodable(i) && i.form in {RR, RM} && i.mnemonic in {Add, Cmp, Xor}
    requires GetImm(k, d.src) == Option.Some(imm) && imm.ImmOp? && a in constants && constants[a] == Bytes(imm.val, 8)
    ensures Sound(k, constants, d, i, flagsRead, Change(WithMem(i, Wrap(k.poolStart + a))))
  {
    hide Load, Store, BitAnd, BitXor, Wrap, PtrToInt, TagFor, Bytes, Stored, Extended, Exec, Alike, Foreseen, PoolThere;
    var j := WithMem(i, Wrap(k.poolStart + a));
    forall s: State64 | Foreseen(k, d, i, s) && PoolThere(k, constants, s.mem) ensures Alike(flagsRead, Exec(i, s), Exec(j, s)) {
      PoolSourceAt(k, constants, d, i, imm, a, flagsRead, s);
    }
  }

  /** Adding 0, or xor with 0, and moving a register to itself do nothing. */
  lemma NothingDone(k: Knowledge, constants: map<P.Addr, seq<Byte>>, d: Known, i: Instr64, flagsRead: bool)
    requires Encodable(i)
    requires (i.mnemonic in {Add, Xor} && PtrToInt(k, d.src) == Option.Some(0) && !flagsRead) || (i.mnemonic == Mov && i.form == RR && i.dst == i.src)
    ensures Sound(k, constants, d, i, flagsRead, Delete)
  {
    hide Load, Store, AddressIn, BitXor, Wrap, PtrToInt;
    forall s: State64 | Foreseen(k, d, i, s) && PoolThere(k, constants, s.mem) ensures Alike(flagsRead, Exec(i, s), s) {
      var a := Value(i, i.dst, s);
      WrapSmall(a);
      XorZero(a);
      PutBack(i, s);
    }
  }

  /** Storing what is there already. */
  lemma PutBack(i: Instr64, s: State64)
    requires Encodable(i) && i.form != RA
    ensures var t := Put(i.dst, Value(i, i.dst, s), s); (forall r: Reg :: t.regs(r) == s.regs(r)) && (forall a: Word64 :: t.mem(a) == s.mem(a))
  {
    hide AddressIn;
    if i.dst.MemOp? {
      var a := AddressIn(s.regs, i.dst.m);
      forall x: Word64 ensures Store(s.mem, a, Load(s.mem, a))(x) == s.mem(x) { StoreBack(s.mem, a, x); }
    }
  }

  lemma StoreBack(mem: Word64 -> Byte, a: Word64, x: Word64)
    ensures Store(mem, a, Load(mem, a))(x) == mem(x)
  {
    hide Word, Bytes, Wrap;
    var d: int := Wrap(x - a);
    if d < 8 {
      var bs := Loaded(mem, a, 8);
      LoadedAt(mem, a, 8, d);
      BackToPlace(x, a);
      BytesOfLoaded(bs);
    }
  }

  lemma BackToPlace(x: Word64, a: Word64)
    ensures Wrap(a + Wrap(x - a)) == x
  {
    WrapPlus(x - a, a);
  }

  lemma {:induction false} LoadedAt(mem: Word64 -> Byte, a: Word64, n: nat, i: nat)
    requires i < n
    ensures Loaded(mem, a, n)[i] == ByteAt(mem, a, i)
  {
    if i < n - 1 { LoadedAt(mem, a, n - 1, i); }
  }

  lemma BytesOfLoaded(bs: seq<Byte>)
    requires |bs| == 8
    ensures Bytes(Wrap(Word(bs)), 8) == bs
  {
    hide Word, Bytes;
    WordBounded(bs);
    PowIs();
    BytesOfWord(bs);
  }

  /** A known result is moved into place. */
  lemma ResultMoved(k: Knowledge, constants: map<P.Addr, seq<Byte>>, d: Known, i: Instr64, imm: Op, flagsRead: bool)
    requires Encodable(i) && ((i.mnemonic == Add && !flagsRead) || i.mnemonic == Lea) && GetImm(k, d.result) == Option.Some(imm) && imm.ImmOp?
    requires i.form in {MR, MI} ==> IsSimm32(imm.val)
    ensures Sound(k, constants, d, i, flagsRead, Change(Instr64(Mov, if i.form in {MR, MI} then MI else RI, i.dst, imm)))
  {
    hide Load, Store, AddressIn, Wrap, PtrToInt, TagFor, IsSimm32, Extended, BitAnd, BitXor;
    ImmTagged(k, d.result);
    SimmExtends(imm.val);
    var j := Instr64(Mov, if i.form in {MR, MI} then MI else RI, i.dst, imm);
    forall s: State64 | Foreseen(k, d, i, s) && PoolThere(k, constants, s.mem) ensures Alike(flagsRead, Exec(i, s), Exec(j, s)) {
      assert Value(j, j.src, s) == Result(i, s);
    }
  }

  /** A result of 0 is a register xor itself. */
  lemma ZeroResult(k: Knowledge, constants: map<P.Addr, seq<Byte>>, d: Known, i: Instr64, flagsRead: bool)
    requires Encodable(i) && i.mnemonic in {Add, Lea} && i.dst.RegOp? && !flagsRead && PtrToInt(k, d.result) == Option.Some(0)
    ensures Sound(k, constants, d, i, flagsRead, Change(Instr64(Xor, RR, i.dst, i.dst)))
  {
    hide Load, Store, AddressIn, Wrap, PtrToInt, BitXor;
    WrapSmall(0);
    var j := Instr64(Xor, RR, i.dst, i.dst);
    forall s: State64 | Foreseen(k, d, i, s) && PoolThere(k, constants, s.mem) ensures Alike(flagsRead, Exec(i, s), Exec(j, s)) {
      XorSelf(Value(j, j.dst, s));
      assert Result(i, s) == 0;
    }
  }

  /** Adding to 0 is moving. */
  lemma AddToZero(k: Knowledge, constants: map<P.Addr, seq<Byte>>, d: Known, i: Instr64, flagsRead: bool)
    requires Encodable(i) && i.mnemonic == Add && i.form in {RR, RM, MR} && !flagsRead && PtrToInt(k, d.dst) == Option.Some(0)
    ensures Sound(k, constants, d, i, flagsRead, Change(i.(mnemonic := Mov)))
  {
    hide Load, Store, AddressIn, Wrap, PtrToInt;
    var j := i.(mnemonic := Mov);
    forall s: State64 | Foreseen(k, d, i, s) && PoolThere(k, constants, s.mem) ensures Alike(flagsRead, Exec(i, s), Exec(j, s)) {
      WrapSmall(Value(i, i.src, s));
    }
  }

  /** The operands of a test may change places. */
  lemma TestSwapped(k: Knowledge, constants: map<P.Addr, seq<Byte>>, d: Known, i: Instr64, imm: Op, flagsRead: bool)
    requires Encodable(i) && i.mnemonic == Test && i.form in {RR, MR} && GetImm(k, d.dst) == Option.Some(imm) && imm.ImmOp? && IsSimm32(imm.val)
    ensures Sound(k, constants, d, i, flagsRead, Change(Instr64(Test, RI, i.src, imm)))
  {
    hide Load, Store, AddressIn, Wrap, PtrToInt, TagFor, BitAnd, IsSimm32, Extended;
    ImmTagged(k, d.dst);
    SimmExtends(imm.val);
    var j := Instr64(Test, RI, i.src, imm);
    forall s: State64 | Foreseen(k, d, i, s) && PoolThere(k, constants, s.mem) ensures Alike(flagsRead, Exec(i, s), Exec(j, s)) {
      AndCommutes(Value(i, i.dst, s), Value(i, i.src, s));
    }
  }

  lemma Unchanged(k: Knowledge, constants: map<P.Addr, seq<Byte>>, d: Known, i: Instr64, flagsRead: bool)
    ensures Sound(k, constants, d, i, flagsRead, Same)
  {
  }

  /** The source of this one could be an immediate. */
  predicate SourceFits(k: Knowledge, d: Known, i: Instr64) {
    i.form in {RR, RM, MR} && PtrToInt(k, d.src).Some? && IsSimm32(PtrToInt(k, d.src).value)
  }

  /** It cannot, but could be a constant in memory. */
  predicate SourcePools(k: Knowledge, d: Known, i: Instr64) {
    i.form in {RR, RM} && PtrToInt(k, d.src).Some? && !IsSimm32(PtrToInt(k, d.src).value) && !d.src.Ptr?
  }

  /** The result is known, and can be moved to where it goes. */
  predicate ResultFits(k: Knowledge, d: Known, i: Instr64) {
    PtrToInt(k, d.result).Some? && (i.form in {MR, MI} ==> IsSimm32(PtrToInt(k, d.result).value))
  }

  predicate IsZero(k: Knowledge, v: DynValue) { PtrToInt(k, v) == Option.Some(0) }

  /** It has become the same with an immediate, one that loads its source from memory, or a move. */
  predicate ByImmediate(i: Instr64, r: Specialized) { r.Change? && r.instr.mnemonic == i.mnemonic && r.instr.form == (if i.form == MR then MI else RI) }
  predicate ByConstant(i: Instr64, r: Specialized) { r.Change? && r.instr.mnemonic == i.mnemonic && r.instr.form == RM && r.instr.src.MemOp? && r.instr.src.m.Direct? }
  predicate ByMove(i: Instr64, r: Specialized) { r.Change? && ((r.instr.form in {RI, MI} && r.instr.mnemonic == Mov && r.instr.dst == i.dst) || r.instr == Instr64(Xor, RR, i.dst, i.dst)) }

  /** What becomes of an instruction whose source alone counts. */
  predicate BySource(k: Knowledge, d: Known, i: Instr64, r: Specialized) {
    if SourceFits(k, d, i) then ByImmediate(i, r) else if SourcePools(k, d, i) then ByConstant(i, r) else r.Same?
  }

  // ---- the handlers ----

  class Specializer {
    const k: Knowledge
    const pool: P.Pool

    constructor (k: Knowledge, pool: P.Pool)
      ensures this.k == k && this.pool == pool
    {
      this.k, this.pool := k, pool;
    }

    /** The source becomes a constant in memory. */
    method FromPool(i: Instr64, imm: Op, ghost d: Known, ghost flagsRead: bool) returns (ok: bool, r: Specialized)
      requires pool.Valid() && Encodable(i) && i.form in {RR, RM} && i.mnemonic in {Add, Cmp, Xor}
      requires GetImm(k, d.src) == Option.Some(imm) && imm.ImmOp?
      modifies pool, pool.mem
      ensures ok ==> pool.Valid() && Sound(k, pool.constants, d, i, flagsRead, r) && ByConstant(i, r)
    {
      hide Sound, P.KeptIn, P.InternedIn, Encodable, PtrToInt, Bytes;
      var a;
      PowIs();
      ok, a := pool.AllocConstant64(imm.val);
      r := Change(WithMem(i, Wrap(k.poolStart + a)));
      if ok { PoolSource(k, pool.constants, d, i, imm, a, flagsRead); }
    }

    method Add64(i: Instr64, d: Known, flagsRead: bool) returns (ok: bool, r: Specialized)
      requires pool.Valid() && Encodable(i) && i.mnemonic == Add
      modifies pool, pool.mem
      ensures ok ==> pool.Valid() && Sound(k, pool.constants, d, i, flagsRead, r)
      ensures ok && r.Same? ==> !SourceFits(k, d, i)
      ensures ok && !flagsRead && PtrToInt(k, d.src) == Option.Some(0) ==> r.Delete?
      ensures ok ==> if flagsRead then BySource(k, d, i, r)
                     else if IsZero(k, d.src) then r.Delete?
                     else if ResultFits(k, d, i) then ByMove(i, r)
                     else if IsZero(k, d.dst) && i.form in {RR, MR, RM} then r == Change(i.(mnemonic := Mov))
                     else BySource(k, d, i, r)
    {
      hide Sound, P.KeptIn, P.InternedIn, PtrToInt, Bytes, IsSimm32;
      var toMem := i.form == MR || i.form == MI;
      if !flagsRead {
        var imm := GetImm(k, d.src);
        if imm.Some? && imm.value.val == 0 {
          NothingDone(k, pool.constants, d, i, flagsRead);
          return true, Delete;
        }
        imm := GetImm(k, d.result);
        if imm.Some? {
          if toMem {
            if IsSimm32(imm.value.val) {
              ResultMoved(k, pool.constants, d, i, imm.value, flagsRead);
              return true, Change(Instr64(Mov, MI, i.dst, imm.value));
            }
          } else {
            if imm.value.val == 0 {
              ZeroResult(k, pool.constants, d, i, flagsRead);
              return true, Change(Instr64(Xor, RR, i.dst, i.dst));
            }
            ResultMoved(k, pool.constants, d, i, imm.value, flagsRead);
            return true, Change(Instr64(Mov, RI, i.dst, imm.value));
          }
        }
        imm := GetImm(k, d.dst);
        if imm.Some? && imm.value.val == 0 && i.form in {RR, MR, RM} {
          AddToZero(k, pool.constants, d, i, flagsRead);
          return true, Change(i.(mnemonic := Mov));
        }
      }
      Unchanged(k, pool.constants, d, i, flagsRead);
      if i.form == MI || i.form == RI { return true, Same; }
      ok, r := KnownSource(i, d, flagsRead);
    }

    /** A known source: an immediate if it fits, otherwise, if it is no pointer of the user, a constant in memory. */
    method KnownSource(i: Instr64, d: Known, ghost flagsRead: bool) returns (ok: bool, r: Specialized)
      requires pool.Valid() && Encodable(i) && i.mnemonic in {Add, Cmp, Xor}
      modifies pool, pool.mem
      ensures ok ==> pool.Valid() && Sound(k, pool.constants, d, i, flagsRead, r)
      ensures ok && r.Same? ==> !SourceFits(k, d, i)
      ensures ok ==> BySource(k, d, i, r)
    {
      hide Sound, P.KeptIn, P.InternedIn, PtrToInt, Bytes, IsSimm32;
      var imm := GetImm(k, d.src);
      if imm.Some? && i.form in {RR, RM, MR} {
        if IsSimm32(imm.value.val) {
          SourceImmediate(k, pool.constants, d, i, imm.value, flagsRead);
          return true, Change(WithImm(i, imm.value));
        } else if imm.value.tag.NoTag? && i.form != MR {
          ok, r := FromPool(i, imm.value, d, flagsRead);
          return;
        }
      }
      Unchanged(k, pool.constants, d, i, flagsRead);
      return true, Same;
    }

    /** A comparison with an immediate is not specialized. */
    method Cmp64(i: Instr64, d: Known, ghost flagsRead: bool) returns (ok: bool, r: Specialized)
      requires pool.Valid() && Encodable(i) && i.mnemonic == Cmp && i.form in {RR, RM, MR}
      modifies pool, pool.mem
      ensures ok ==> pool.Valid() && Sound(k, pool.constants, d, i, flagsRead, r)
      ensures ok && r.Same? ==> !SourceFits(k, d, i)
      ensures ok ==> BySource(k, d, i, r)
    {
      hide Sound, P.KeptIn, P.InternedIn, PtrToInt, IsSimm32;
      ok, r := KnownSource(i, d, flagsRead);
    }

    method Lea64(i: Instr64, d: Known, flagsRead: bool) returns (r: Specialized)
      requires Encodable(i) && i.mnemonic == Lea
      ensures Sound(k, pool.constants, d, i, flagsRead, r)
      ensures r.Same? <==> PtrToInt(k, d.result).None?
      ensures !r.Same? ==> ByMove(i, r)
    {
      hide Sound, PtrToInt, IsSimm32;
      var imm := GetImm(k, d.result);
      if imm.Some? {
        if imm.value.tag.NoTag? && imm.value.val == 0 && !flagsRead {
          ZeroResult(k, pool.constants, d, i, flagsRead);
          return Change(Instr64(Xor, RR, i.dst, i.dst));
        }
        ResultMoved(k, pool.constants, d, i, imm.value, flagsRead);
        return Change(Instr64(Mov, RI, i.dst, imm.value));
      }
      Unchanged(k, pool.constants, d, i, flagsRead);
      r := Same;
    }

    method Mov64(i: Instr64, d: Known, ghost flagsRead: bool) returns (r: Specialized)
      requires Encodable(i) && i.mnemonic == Mov && i.form in {RR, RM, MR}
      ensures Sound(k, pool.constants, d, i, flagsRead, r)
      ensures r.Same? ==> !SourceFits(k, d, i)
      ensures r.Delete? <==> i.form == RR && i.dst == i.src
      ensures !r.Delete? ==> if PtrToInt(k, d.src).Some? && (i.form == MR ==> IsSimm32(PtrToInt(k, d.src).value)) then ByImmediate(i, r) else r.Same?
    {
      hide Sound, PtrToInt, IsSimm32;
      if i.form == RR && i.dst == i.src {
        NothingDone(k, pool.constants, d, i, flagsRead);
        return Delete;
      }
      var imm := GetImm(k, d.src);
      if imm.Some? && (i.form != MR || IsSimm32(imm.value.val)) {
        SourceImmediate(k, pool.constants, d, i, imm.value, flagsRead);
        return Change(WithImm(i, imm.value));
      }
      Unchanged(k, pool.constants, d, i, flagsRead);
      r := Same;
    }

    method Test64(i: Instr64, d: Known, ghost flagsRead: bool) returns (r: Specialized)
      requires Encodable(i) && i.mnemonic == Test && i.form in {RR, MR}
      ensures Sound(k, pool.constants, d, i, flagsRead, r)
      ensures r.Same? && i.dst != i.src ==> !SourceFits(k, d, i)
      ensures if i.form == RR && i.dst == i.src then r.Same?
              else if SourceFits(k, d, i) then ByImmediate(i, r)
              else if PtrToInt(k, d.dst).Some? && IsSimm32(PtrToInt(k, d.dst).value) then r.Change? && r.instr.mnemonic == Test && r.instr.form == RI && r.instr.dst == i.src
              else r.Same?
    {
      hide Sound, PtrToInt, IsSimm32;
      Unchanged(k, pool.constants, d, i, flagsRead);
      if i.form == RR && i.dst == i.src { return Same; }
      var imm := GetImm(k, d.src);
      if imm.Some? && IsSimm32(imm.value.val) {
        SourceImmediate(k, pool.constants, d, i, imm.value, flagsRead);
        return Change(WithImm(i, imm.value));
      }
      imm := GetImm(k, d.dst);
      if imm.Some? && IsSimm32(imm.value.val) {
        TestSwapped(k, pool.constants, d, i, imm.value, flagsRead);
        return Change(Instr64(Test, RI, i.src, imm.value));
      }
      r := Same;
    }

    method Xor64(i: Instr64, d: Known, flagsRead: bool) returns (ok: bool, r: Specialized)
      requires pool.Valid() && Encodable(i) && i.mnemonic == Xor
      modifies pool, pool.mem
      ensures ok ==> pool.Valid() && Sound(k, pool.constants, d, i, flagsRead, r)
      ensures ok && r.Same? && i.dst != i.src ==> !SourceFits(k, d, i)
      ensures ok && !flagsRead && i.dst != i.src && PtrToInt(k, d.src) == Option.Some(0) ==> r.Delete?
      ensures ok ==> if i.form == RR && i.dst == i.src then r.Same? else if !flagsRead && IsZero(k, d.src) then r.Delete? else BySource(k, d, i, r)
    {
      hide Sound, P.KeptIn, P.InternedIn, PtrToInt;
      if i.form == RR && i.dst == i.src {
        Unchanged(k, pool.constants, d, i, flagsRead);
        return true, Same;
      }
      var imm := GetImm(k, d.src);
      if imm.Some? && imm.value.val == 0 && !flagsRead {
        NothingDone(k, pool.constants, d, i, flagsRead);
        return true, Delete;
      }
      ok, r := KnownSource(i, d, flagsRead);
    }
  }
}

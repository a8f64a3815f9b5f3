/** The encoder object: its fields are filled in by the operand and written into a buffer. */
module ModRMEncodings {
  import opened Encoder
  import B = ProgramState
  import C = BranchCode

  class ModRMEncoding {
    const oc: seq<Byte>
    const imm: Word64
    const immLen: nat
    const p66: bool
    const pf2: bool
    var is32bit: bool
    var rexW: bool
    var rexR: bool
    var rexX: bool
    var rexB: bool
    var mod: nat
    var reg: nat
    var rm: nat
    var sibRequired: bool
    var sibScale: nat
    var sibIndex: nat
    var sibBase: nat
    var dispRequired: bool
    var isDisp32: bool
    var disp: int

    /** Instruction with the register field given and no operand yet. */
    constructor (oc: seq<Byte>, reg: nat, imm: Word64, immLen: nat, rexW: bool, p66: bool, pf2: bool)
      requires reg < 16
      ensures State() == InitFields(p66, pf2, rexW, oc, reg, B.Bytes(imm, immLen))
      ensures this.oc == oc && this.imm == imm && this.immLen == immLen
      ensures Blank() && disp == 0
    {
      hide B.Bytes;
      this.oc, this.imm, this.immLen, this.p66, this.pf2 := oc, imm, immLen, p66, pf2;
      this.is32bit, this.rexW, this.rexR, this.rexX, this.rexB := false, rexW, reg >= 8, false, false;
      this.mod, this.reg, this.rm := 0, reg % 8, 0;
      sibRequired, sibScale, sibIndex, sibBase := false, 0, 0, 0;
      dispRequired, isDisp32, disp := false, false, 0;
    }

    function State(): Fields
      reads this
    {
      Fields(p66, is32bit, pf2, rexW, rexR, rexX, rexB, oc, mod, reg, rm,
             if sibRequired then Some(SibByte(sibScale, sibIndex, sibBase)) else None,
             DispState(), B.Bytes(imm, immLen))
    }

    function DispState(): DispField
      reads this
    {
      if !dispRequired then NoDisp else if isDisp32 then Disp32(disp) else Disp8(disp)
    }

    /** As constructed, and nothing said of the operand. */
    ghost predicate Blank()
      reads this
    {
      Fresh(State()) && !dispRequired && !isDisp32 && sibScale == 0 && sibIndex == 0 && sibBase == 0
    }

    method SetRegister(num: nat)
      requires num < 16
      modifies this
      ensures State() == EncodeRegister(old(State()), num)
    {
      rexB := num >= 8;
      rm := num % 8;
      mod := 3;
    }

    method EncodeMemoryDirect(a: Word64, addr: Word64)
      requires Blank()
      modifies this
      ensures State() == EncodeDirect(old(State()), a, addr)
    {
      hide B.Bytes, Signed32Address, SignedWord, WrapWord, C.Fits32;
      if Signed32Address(a) {
        mod, rm := 0, 4;
        sibRequired, sibBase, sibIndex := true, 5, 4;
        dispRequired, isDisp32, disp := true, true, SignedWord(a);
        return;
      }
      var ilen := |oc| + 5 + immLen;
      if p66 { ilen := ilen + 1; }
      if is32bit { ilen := ilen + 1; }
      if pf2 { ilen := ilen + 1; }
      if RexVal(State()) != 0x40 { ilen := ilen + 1; }
      assert ilen == PredictedLen(State());
      var rel := SignedWord(WrapWord(a - (addr + ilen)));
      if C.Fits32(rel) {
        mod, rm := 0, 5;
        dispRequired, isDisp32, disp := true, true, rel;
      }
    }

    /** The displacement goes into the smallest field, and the mod field says which. */
    method CompressDisplacement(d: int)
      requires !isDisp32 && disp == 0
      modifies this`dispRequired, this`isDisp32, this`disp, this`mod
      ensures DispState() == CompressDisp(d, old(dispRequired)) && mod == ModOf(DispState())
    {
      if d != 0 {
        dispRequired := true;
        disp := d;
        if !C.Fits8(d) {
          isDisp32 := true;
        }
      }
      if dispRequired {
        mod := if isDisp32 then 2 else 1;
      } else {
        mod := 0;
      }
    }

    method SetScale(scale: nat) returns (ok: bool)
      modifies this`sibScale
      ensures ok == Log2Scale(scale).Some?
      ensures ok ==> sibScale == Log2Scale(scale).value
    {
      match scale {
        case 0 => sibScale := 0;
        case 1 => sibScale := 0;
        case 2 => sibScale := 1;
        case 4 => sibScale := 2;
        case 8 => sibScale := 3;
        case _ => return false;
      }
      return true;
    }

    /** Both registers go into the SIB byte; they have to be of one width. */
    method BaseAndIndexRegisters(b: AddrReg, x: AddrReg) returns (ok: bool)
      modifies this`rm, this`sibRequired, this`sibBase, this`sibIndex, this`rexB, this`rexX, this`is32bit
      ensures ok == (b.wide == x.wide)
      ensures rm == 4 && sibRequired && sibBase == b.num % 8 && sibIndex == x.num % 8
      ensures rexB == (b.num >= 8) && rexX == (x.num >= 8) && is32bit == !b.wide
    {
      rm := 4;
      sibRequired := true;
      is32bit := !b.wide;
      sibBase, rexB := b.num % 8, b.num >= 8;
      sibIndex, rexX := x.num % 8, x.num >= 8;
      ok := is32bit == !x.wide;
    }

    /** A base without index goes into the ModRM byte. */
    method BaseRegister(b: AddrReg, d: int)
      requires !isDisp32 && disp == 0
      modifies this`dispRequired, this`isDisp32, this`disp, this`mod, this`rm, this`rexB, this`is32bit
      ensures DispState() == CompressDisp(d, old(dispRequired)) && mod == ModOf(DispState())
      ensures rm == b.num % 8 && rexB == (b.num >= 8) && is32bit == !b.wide
    {
      CompressDisplacement(d);
      is32bit := !b.wide;
      rm, rexB := b.num % 8, b.num >= 8;
    }

    /** An index without base: the displacement has 32 bits. */
    method IndexRegister(x: AddrReg, d: int)
      modifies this`mod, this`rm, this`sibRequired, this`sibBase, this`sibIndex, this`rexX, this`is32bit, this`dispRequired, this`isDisp32, this`disp
      ensures mod == 0 && rm == 4 && sibRequired && sibBase == 5 && sibIndex == x.num % 8 && rexX == (x.num >= 8)
      ensures is32bit == !x.wide && DispState() == Disp32(d)
    {
      mod, rm := 0, 4;
      sibRequired, sibBase := true, 5;
      is32bit := !x.wide;
      sibIndex, rexX := x.num % 8, x.num >= 8;
      dispRequired, isDisp32, disp := true, true, d;
    }

    method EncodeMemoryIndirect(m: MemOperand) returns (ok: bool)
      requires Blank() && disp == 0 && m.Sib? && ValidOperand(m)
      modifies this
      ensures ok == EncodeIndirect(old(State()), m).Some?
      ensures ok ==> State() == EncodeIndirect(old(State()), m).value
    {
      hide B.Bytes, CompressDisp, ModOf, Log2Scale, C.Fits32, C.Fits8, ValidFields, ValidOperand, ValidReg;
      if m.base.Some? {
        if m.base.value.num == RSP { return false; }
        if m.base.value.num == RBP || m.base.value.num == R13 {
          dispRequired := true;
        }
      }
      ok := SetScale(m.scale);
      if !ok { return; }
      if m.base.None? && m.index.None? { return false; }
      if m.index.None? {
        BaseRegister(m.base.value, m.disp);
      } else if m.base.None? {
        IndexRegister(m.index.value, m.disp);
      } else {
        CompressDisplacement(m.disp);
        ok := BaseAndIndexRegisters(m.base.value, m.index.value);
      }
    }

    /** Store the bytes of a word, lowest first. */
    static method Store(data: array<Byte>, start: nat, v: nat, n: nat)
      requires start + n <= data.Length
      modifies data
      decreases n
      ensures data[..start] == old(data[..start]) && (forall j :: start + n <= j < data.Length ==> data[j] == old(data[j]))
      ensures data[start..start + n] == B.Bytes(v, n)
    {
      if n > 0 {
        data[start] := v % 256;
        Store(data, start + 1, v / 256, n - 1);
        assert data[start] == data[..start + 1][start];
        assert data[..start] == data[..start + 1][..start];
        assert data[start..start + n] == [data[start]] + data[start + 1..start + n];
      }
    }

    /** Put one byte behind those written. */
    static method Put(data: array<Byte>, idx: nat, v: Byte) returns (next: nat)
      requires idx < data.Length
      modifies data
      ensures next == idx + 1 && data[..next] == old(data[..idx]) + [v] && (forall j :: next <= j < data.Length ==> data[j] == old(data[j]))
    {
      data[idx] := v;
      next := idx + 1;
    }

    static method PutAll(data: array<Byte>, idx: nat, vs: seq<Byte>) returns (next: nat)
      requires idx + |vs| <= data.Length
      modifies data
      ensures next == idx + |vs| && data[..next] == old(data[..idx]) + vs && (forall j :: next <= j < data.Length ==> data[j] == old(data[j]))
    {
      next := idx;
      var i := 0;
      while i < |vs|
        invariant 0 <= i <= |vs| && next == idx + i
        invariant data[..next] == old(data[..idx]) + vs[..i]
        invariant forall j :: idx + |vs| <= j < data.Length ==> data[j] == old(data[j])
      {
        next := Put(data, next, vs[i]);
        i := i + 1;
      }
    }

    /** The bytes of a number behind those written. */
    static method PutNumber(data: array<Byte>, idx: nat, v: nat, n: nat) returns (next: nat)
      requires idx + n <= data.Length
      modifies data
      ensures next == idx + n && data[..next] == old(data[..idx]) + B.Bytes(v, n) && (forall j :: next <= j < data.Length ==> data[j] == old(data[j]))
    {
      Store(data, idx, v, n);
      next := idx + n;
      assert data[..next] == data[..idx] + data[idx..next];
    }

    method WritePrefixes(data: array<Byte>) returns (idx: nat)
      requires 4 <= data.Length
      modifies data
      ensures idx == |Prefixes(State())| + |RexBytes(State())| <= 4
      ensures data[..idx] == Prefixes(State()) + RexBytes(State())
      ensures forall j :: idx <= j < data.Length ==> data[j] == old(data[j])
    {
      hide B.Bytes, RexVal;
      ghost var e := State();
      idx := 0;
      if p66 { idx := Put(data, idx, 0x66); }
      if is32bit { idx := Put(data, idx, 0x67); }
      if pf2 { idx := Put(data, idx, 0xf2); }
      assert data[..idx] == Prefixes(e);
      if RexVal(State()) != 0x40 { idx := Put(data, idx, RexVal(State())); }
    }

    /** Prefixes, opcode and ModRM byte. */
    method WriteStart(data: array<Byte>) returns (idx: nat)
      requires ValidFields(State()) && |oc| + 5 <= data.Length
      modifies data
      ensures idx == ModRMAt(State()) + 1 <= |oc| + 5
      ensures data[..idx] == Prefixes(State()) + RexBytes(State()) + oc + [ModRM(State())]
      ensures forall j :: idx <= j < data.Length ==> data[j] == old(data[j])
    {
      hide B.Bytes, Prefixes, RexBytes, SibBytes, DispBytes;
      idx := WritePrefixes(data);
      idx := PutAll(data, idx, oc);
      idx := Put(data, idx, 64 * mod + 8 * reg + rm);
    }

    method WriteSib(data: array<Byte>, start: nat) returns (idx: nat)
      requires ValidFields(State()) && start + |SibBytes(State())| <= data.Length
      modifies data
      ensures idx == start + |SibBytes(State())| && data[..idx] == old(data[..start]) + SibBytes(State())
      ensures forall j :: idx <= j < data.Length ==> data[j] == old(data[j])
    {
      hide B.Bytes, DispBytes;
      idx := start;
      if sibRequired { idx := Put(data, idx, 64 * sibScale + 8 * sibIndex + sibBase); }
    }

    method WriteDisp(data: array<Byte>, start: nat) returns (idx: nat)
      requires ValidFields(State()) && start + |DispBytes(State())| <= data.Length
      modifies data
      ensures idx == start + |DispBytes(State())| && data[..idx] == old(data[..start]) + DispBytes(State())
      ensures forall j :: idx <= j < data.Length ==> data[j] == old(data[j])
    {
      hide B.Bytes, SibBytes;
      idx := start;
      if dispRequired {
        if isDisp32 {
          idx := PutNumber(data, idx, if disp < 0 then disp + 0x1_0000_0000 else disp, 4);
        } else {
          idx := Put(data, idx, C.Byte8(disp));
        }
      }
    }

    /** What is written is what the fields say; behind it nothing changes. An immediate of 3 or more than 4 bytes is
        a failed assertion. */
    method Write(data: array<Byte>) returns (ok: bool, idx: nat)
      requires ValidFields(State()) && |oc| + |SibBytes(State())| + |DispBytes(State())| + immLen + 5 <= data.Length
      modifies data
      ensures ok == (immLen in {0, 1, 2, 4})
      ensures ok ==> forall j :: idx <= j < data.Length ==> data[j] == old(data[j])
      ensures ok ==> idx == |Written(State())| <= data.Length && data[..idx] == Written(State())
    {
      hide B.Bytes, Prefixes, RexBytes, SibBytes, DispBytes, ModRM, ValidFields;
      var e := State();
      idx := WriteStart(data);
      idx := WriteSib(data, idx);
      idx := WriteDisp(data, idx);
      if immLen !in {0, 1, 2, 4} { return false, idx; }
      idx := PutNumber(data, idx, imm, immLen);
      ok := true;
      WrittenParts(e);
      WrittenLen(e);
    }
  }

  /** The assertions made about an operand hold. */
  predicate Accepted(m: MemOperand) {
    m.Sib? ==>
      && (m.base.Some? ==> m.base.value.num != RSP)
      && m.scale in {0, 1, 2, 4, 8}
      && (m.base.Some? || m.index.Some?)
      && (m.base.Some? && m.index.Some? ==> m.base.value.wide == m.index.value.wide)
  }

  /** The operands that are encoded as they are: len is the length with a 32-bit displacement and no SIB byte. */
  predicate Encodes(m: MemOperand, len: nat, addr: Word64) {
    match m
    case Direct(a) => Signed32Address(a) || C.Fits32(SignedWord(WrapWord(a - (addr + len))))
    case Sib(_, _, _, _) => !Misencoded(m)
  }

  /** The length with a 32-bit displacement, a REX byte if the width or the register field asks for one, and no SIB byte. */
  function RelativeLen(h: Head, reg: nat, immLen: nat): nat {
    |h.oc| + 5 + immLen + Bit(h.p66) + Bit(h.pf2) + Bit(h.rexW || reg >= 8)
  }

  /** The processor reads the prefixes, the operand width, the opcode, the register field, the operand, and the immediate
      behind it. */
  ghost predicate StoredAs(bs: seq<Byte>, h: Head, immLen: nat, reg: nat, m: MemOperand, addr: Word64) {
    var r := Read(bs, |h.oc|);
    && r.Some? && r.value.head == h && r.value.rest.reg == reg && r.value.rest.len == |bs| - immLen
    && (match m
        case Direct(a) => AddressOf(r.value.rest.operand, addr + |bs|) == Some(a)
        case Sib(_, _, _, _) => r.value.rest.operand == Meaning(m))
  }

  lemma AcceptedEncodes(e0: Fields, m: MemOperand, addr: Word64)
    ensures EncodeMemory(e0, m, addr).Some? <==> Accepted(m)
  {
  }

  /** The round trips of both kinds of operand, said of the bytes. */
  lemma StoredIff(e0: Fields, h: Head, reg: nat, m: MemOperand, addr: Word64)
    requires Fresh(e0) && WellOpcode(h.oc) && MadeFor(e0, h, reg) && ValidOperand(m) && EncodeMemory(e0, m, addr).Some?
    ensures var e := EncodeMemory(e0, m, addr).value;
            ValidFields(e) && (StoredAs(Written(e), h, |e.imm|, reg, m, addr) <==> Encodes(m, RelativeLen(h, reg, |e.imm|), addr))
  {
    hide Read, Written, Meaning, EncodeDirect, EncodeIndirect, PredictedLen, WellOpcode, Fresh, RelativeLen;
    var e := EncodeMemory(e0, m, addr).value;
    KeepsOpcode(e0, m, addr);
    match m
    case Direct(a) =>
      RelativeIs(e0, h, reg);
      DirectRoundTripIff(e0, h, reg, a, addr);
      var r := Read(Written(e), |h.oc|);
      assert r.Some? ==> (r.value.head == h && r.value.rest.reg == reg && r.value.rest.len == |Written(e)| - |e.imm|
                          <==> ReadsAs(e, h, reg, r.value.rest.operand));
    case Sib(_, _, _, _) =>
      IndirectRoundTripIff(e0, h, reg, m);
  }

  lemma RelativeIs(e0: Fields, h: Head, reg: nat)
    requires Fresh(e0) && MadeFor(e0, h, reg)
    ensures PredictedLen(e0) == RelativeLen(h, reg, |e0.imm|)
  {
  }

  /** The immediate comes last. */
  lemma ImmediateLast(e: Fields)
    requires ValidFields(e)
    ensures |e.imm| <= |Written(e)| && Written(e)[|Written(e)| - |e.imm|..] == e.imm
  {
    hide SibBytes, DispBytes, ModRM, Prefixes, RexBytes;
  }

  lemma LenBound(e: Fields)
    requires ValidFields(e)
    ensures |e.imm| <= |Written(e)| <= |e.oc| + |e.imm| + 10
  {
    hide C.Bytes32, C.Byte8;
    WrittenLen(e);
  }

  predicate High(r: Option<AddrReg>) { r.Some? && r.value.num >= 8 }
  predicate Narrow(r: Option<AddrReg>) { r.Some? && !r.value.wide }

  /** Bytes of SIB and displacement: none for a zero but with base 5 or 13, one if it fits and there is a base. */
  function OperandLen(h: Head, reg: nat, m: MemOperand, immLen: nat, addr: Word64): nat {
    match m
    case Direct(a) =>
      if Signed32Address(a) then 5 else if C.Fits32(SignedWord(WrapWord(a - (addr + RelativeLen(h, reg, immLen))))) then 4 else 0
    case Sib(b, x, _, d) =>
      Bit(x.Some?) + (if b.None? then 4 else if d == 0 && b.value.num != RBP && b.value.num != R13 then 0 else if C.Fits8(d) then 1 else 4)
  }

  /** Prefixes that are asked for, a REX byte if one of its bits is, opcode, ModRM, the operand, and the immediate. */
  function ShortestLen(h: Head, reg: nat, m: MemOperand, immLen: nat, addr: Word64): nat {
    |h.oc| + 1 + immLen + Bit(h.p66) + Bit(h.pf2)
    + (if m.Sib? then Bit(Narrow(m.base) || Narrow(m.index)) + Bit(h.rexW || reg >= 8 || High(m.base) || High(m.index)) else Bit(h.rexW || reg >= 8))
    + OperandLen(h, reg, m, immLen, addr)
  }

  lemma StartLen(e: Fields, h: Head)
    requires h == HeadOf(e)
    ensures |Prefixes(e)| + |RexBytes(e)| == Bit(h.p66) + Bit(h.pf2) + Bit(e.is32bit) + Bit(e.rexW || e.rexR || e.rexX || e.rexB)
  {
  }

  lemma IndirectLen(e0: Fields, m: MemOperand)
    requires Fresh(e0) && m.Sib? && ValidOperand(m) && EncodeIndirect(e0, m).Some? && ValidFields(EncodeIndirect(e0, m).value)
    ensures var e := EncodeIndirect(e0, m).value;
            && |SibBytes(e)| == Bit(m.index.Some?)
            && |DispBytes(e)| == (if m.base.None? then 4 else if m.disp == 0 && m.base.value.num != RBP && m.base.value.num != R13 then 0
                                  else if C.Fits8(m.disp) then 1 else 4)
            && e.is32bit == (Narrow(m.base) || Narrow(m.index))
            && e.rexX == High(m.index) && e.rexB == High(m.base) && e.rexR == e0.rexR
  {
    hide C.Bytes32, C.Byte8;
  }

  /** Nothing is written that is not asked for. */
  lemma LenIs(e0: Fields, h: Head, reg: nat, m: MemOperand, addr: Word64)
    requires Fresh(e0) && MadeFor(e0, h, reg) && ValidOperand(m) && EncodeMemory(e0, m, addr).Some? && ValidFields(EncodeMemory(e0, m, addr).value)
    ensures |Written(EncodeMemory(e0, m, addr).value)| == ShortestLen(h, reg, m, |e0.imm|, addr)
  {
    var e := EncodeMemory(e0, m, addr).value;
    WrittenLen(e);
    KeepsOpcode(e0, m, addr);
    StartLen(e, h);
    match m
    case Direct(a) =>
      RelativeIs(e0, h, reg);
      hide Written, Prefixes, RexBytes, C.Fits32, SignedWord, WrapWord, PredictedLen, RelativeLen, C.Bytes32;
    case Sib(_, _, _, _) =>
      hide Written, Prefixes, RexBytes, SibBytes, DispBytes, EncodeIndirect;
      IndirectLen(e0, m);
  }

  /** An instruction with a memory operand is encoded and stored, its immediate last. What is stored reads back as the
      opcode with its prefixes and width, the register field and the operand, if and only if the operand is none of those
      the encoder gets wrong. */
  method EncodeMemoryInstruction(oc: seq<Byte>, reg: nat, m: MemOperand, imm: Word64, immLen: nat, rexW: bool, p66: bool, pf2: bool,
                                 addr: Word64, data: array<Byte>) returns (ok: bool, len: nat)
    requires WellOpcode(oc) && reg < 16 && ValidOperand(m) && |oc| + immLen + 10 <= data.Length
    modifies data
    ensures ok == (Accepted(m) && immLen in {0, 1, 2, 4})
    ensures ok ==> immLen <= len <= data.Length && data[len - immLen..len] == B.Bytes(imm, immLen) && (forall j :: len <= j < data.Length ==> data[j] == old(data[j]))
    ensures ok ==> (StoredAs(data[..len], Head(rexW, p66, pf2, oc), immLen, reg, m, addr)
                    <==> Encodes(m, RelativeLen(Head(rexW, p66, pf2, oc), reg, immLen), addr))
    ensures ok ==> len == ShortestLen(Head(rexW, p66, pf2, oc), reg, m, immLen, addr)
  {
    hide ShortestLen;
    hide Read, Written, StoredAs, Encodes, EncodeDirect, EncodeIndirect, PredictedLen, RelativeLen, WellOpcode, Accepted;
    var e0 := InitFields(p66, pf2, rexW, oc, reg, B.Bytes(imm, immLen));
    AcceptedEncodes(e0, m, addr);
    var ope := new ModRMEncoding(oc, reg, imm, immLen, rexW, p66, pf2);
    match m {
      case Direct(a) => ope.EncodeMemoryDirect(a, addr);
      case Sib(_, _, _, _) =>
        ok := ope.EncodeMemoryIndirect(m);
        if !ok { return false, 0; }
    }
    ghost var e := ope.State();
    assert e == EncodeMemory(e0, m, addr).value;
    StoredIff(e0, Head(rexW, p66, pf2, oc), reg, m, addr);
    LenIs(e0, Head(rexW, p66, pf2, oc), reg, m, addr);
    KeepsOpcode(e0, m, addr);
    LenBound(e);
    ImmediateLast(e);
    ok, len := ope.Write(data);
    assert ok ==> data[len - immLen..len] == data[..len][len - immLen..];
  }

  /** Likewise with a register in the place of the memory operand, which always reads back. */
  method EncodeRegisterInstruction(oc: seq<Byte>, reg: nat, rm: nat, imm: Word64, immLen: nat, rexW: bool, p66: bool, pf2: bool,
                                   data: array<Byte>) returns (ok: bool, len: nat)
    requires WellOpcode(oc) && reg < 16 && rm < 16 && |oc| + immLen + 10 <= data.Length
    modifies data
    ensures ok == (immLen in {0, 1, 2, 4})
    ensures ok ==> immLen <= len <= data.Length && data[len - immLen..len] == B.Bytes(imm, immLen) && (forall j :: len <= j < data.Length ==> data[j] == old(data[j]))
    ensures ok ==> Read(data[..len], |oc|) == Some(Reading(Head(rexW, p66, pf2, oc), Rest(reg, RegOperand(rm), len - immLen)))
  {
    hide Read, Written, WellOpcode;
    var e0 := InitFields(p66, pf2, rexW, oc, reg, B.Bytes(imm, immLen));
    var ope := new ModRMEncoding(oc, reg, imm, immLen, rexW, p66, pf2);
    ope.SetRegister(rm);
    ghost var e := ope.State();
    RegisterRoundTrip(e0, Head(rexW, p66, pf2, oc), reg, rm);
    LenBound(e);
    ImmediateLast(e);
    ok, len := ope.Write(data);
    assert ok ==> data[len - immLen..len] == data[..len][len - immLen..];
  }
}

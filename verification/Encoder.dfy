/** Operands of an instruction as ModRM, SIB and displacement bytes, and back as sections 2.1.5 and 2.2.1
    of the Intel Software Developer's Manual, volume 2A, say they are read. */
module Encoder {
  import B = ProgramState
  import C = BranchCode
  import opened Division

  type Byte = B.Byte
  type Word64 = B.Word64

  datatype Option<+T> = None | Some(value: T)

  /** A general register used in an address: its number, 64 or 32 bits of it. Of the 32-bit ones only the
      first eight can be used. */
  datatype AddrReg = AddrReg(num: nat, wide: bool)

  predicate ValidReg(r: AddrReg) { r.num < 16 && (!r.wide ==> r.num < 8) }

  const RSP := 4
  const RBP := 5
  const R12 := 12
  const R13 := 13

  /** A fixed address, or base + index * scale + displacement. */
  datatype MemOperand = Direct(addr: Word64) | Sib(base: Option<AddrReg>, index: Option<AddrReg>, scale: nat, disp: int)

  predicate ValidOperand(m: MemOperand) {
    m.Sib? ==> (m.base.Some? ==> ValidReg(m.base.value)) && (m.index.Some? ==> ValidReg(m.index.value)) && C.Fits32(m.disp)
  }

  datatype SibByte = SibByte(scale: nat, index: nat, base: nat)
  datatype DispField = NoDisp | Disp8(d: int) | Disp32(d: int)

  /** The fields of an encoding. */
  datatype Fields = Fields(
    p66: bool, is32bit: bool, pf2: bool,
    rexW: bool, rexR: bool, rexX: bool, rexB: bool,
    oc: seq<Byte>,
    mod: nat, reg: nat, rm: nat,
    sib: Option<SibByte>,
    disp: DispField,
    imm: seq<Byte>)

  predicate ValidFields(e: Fields) {
    && e.mod < 4 && e.reg < 8 && e.rm < 8
    && (e.sib.Some? ==> e.sib.value.scale < 4 && e.sib.value.index < 8 && e.sib.value.base < 8)
    && (e.disp.Disp8? ==> C.Fits8(e.disp.d)) && (e.disp.Disp32? ==> C.Fits32(e.disp.d))
  }

  function Bit(b: bool): nat { if b then 1 else 0 }

  function RexVal(e: Fields): Byte { 0x40 + 8 * Bit(e.rexW) + 4 * Bit(e.rexR) + 2 * Bit(e.rexX) + Bit(e.rexB) }

  function RexBytes(e: Fields): seq<Byte> {
    if RexVal(e) != 0x40 then [RexVal(e)] else []
  }

  function Prefixes(e: Fields): seq<Byte> {
    (if e.p66 then [0x66] else []) + (if e.is32bit then [0x67] else []) + (if e.pf2 then [0xf2] else [])
  }

  function SibBytes(e: Fields): seq<Byte>
    requires ValidFields(e)
  {
    match e.sib
    case None => []
    case Some(s) => [64 * s.scale + 8 * s.index + s.base]
  }

  function DispBytes(e: Fields): seq<Byte>
    requires ValidFields(e)
  {
    match e.disp
    case NoDisp => []
    case Disp8(d) => [C.Byte8(d)]
    case Disp32(d) => C.Bytes32(d)
  }

  /** What is written, in order. */
  function Written(e: Fields): seq<Byte>
    requires ValidFields(e)
  {
    Prefixes(e) + RexBytes(e) + e.oc + [64 * e.mod + 8 * e.reg + e.rm] + SibBytes(e) + DispBytes(e) + e.imm
  }

  // ---- filling in the fields ----

  function InitFields(p66: bool, pf2: bool, rexW: bool, oc: seq<Byte>, reg: nat, imm: seq<Byte>): Fields {
    Fields(p66, false, pf2, rexW, reg >= 8, false, false, oc, 0, reg % 8, 0, None, NoDisp, imm)
  }

  /** Nothing said of the operand yet. */
  predicate Fresh(e: Fields) {
    ValidFields(e) && !e.is32bit && !e.rexX && !e.rexB && e.mod == 0 && e.rm == 0 && e.sib.None? && e.disp.NoDisp?
  }

  /** A register in the place of the memory operand. */
  function EncodeRegister(e: Fields, rm: nat): Fields { e.(mod := 3, rm := rm % 8, rexB := rm >= 8) }

  predicate Signed32Address(a: Word64) { a < 0x8000_0000 || a >= 0x1_0000_0000_0000_0000 - 0x8000_0000 }

  function SignedWord(a: Word64): int { if a < 0x8000_0000_0000_0000 then a else a - 0x1_0000_0000_0000_0000 }

  function WrapWord(x: int): Word64 { x % 0x1_0000_0000_0000_0000 }

  /** Bytes of the instruction if it is addressed relative to its end. */
  function PredictedLen(e: Fields): nat {
    |e.oc| + 5 + |e.imm| + Bit(e.p66) + Bit(e.is32bit) + Bit(e.pf2) + |RexBytes(e)|
  }

  /** A fixed address: as a signed 32-bit displacement, or relative to the end of the instruction. An
      address out of reach is reported, but the fields stay as they are. */
  function EncodeDirect(e: Fields, a: Word64, addr: Word64): Fields {
    if Signed32Address(a) then
      e.(mod := 0, rm := 4, sib := Some(SibByte(0, 4, 5)), disp := Disp32(SignedWord(a)))
    else
      var rel := SignedWord(WrapWord(a - (addr + PredictedLen(e))));
      if C.Fits32(rel) then e.(mod := 0, rm := 5, disp := Disp32(rel)) else e
  }

  function Log2Scale(scale: nat): Option<nat> {
    match scale
    case 0 => Some(0)
    case 1 => Some(0)
    case 2 => Some(1)
    case 4 => Some(2)
    case 8 => Some(3)
    case _ => None
  }

  /** The smallest displacement field that will do; a base of 5 or 13 needs one. */
  function CompressDisp(disp: int, needed: bool): DispField {
    if disp == 0 then (if needed then Disp8(0) else NoDisp)
    else if C.Fits8(disp) then Disp8(disp) else Disp32(disp)
  }

  function ModOf(d: DispField): nat {
    match d
    case NoDisp => 0
    case Disp8(_) => 1
    case Disp32(_) => 2
  }

  /** base + index * scale + displacement; None is a failed assertion. */
  function EncodeIndirect(e: Fields, m: MemOperand): Option<Fields>
    requires m.Sib?
  {
    if m.base.Some? && m.base.value.num == RSP then None
    else if Log2Scale(m.scale).None? then None
    else if m.base.None? && m.index.None? then None
    else
      var needed := m.base.Some? && (m.base.value.num == RBP || m.base.value.num == R13);
      var d := CompressDisp(m.disp, needed);
      if m.index.None? then
        var b := m.base.value;
        Some(e.(mod := ModOf(d), rm := b.num % 8, rexB := b.num >= 8, disp := d, is32bit := !b.wide))
      else if m.base.None? then
        var x := m.index.value;
        Some(e.(mod := 0, rm := 4, sib := Some(SibByte(Log2Scale(m.scale).value, x.num % 8, 5)), rexX := x.num >= 8,
                disp := Disp32(m.disp), is32bit := !x.wide))
      else
        var b, x := m.base.value, m.index.value;
        if b.wide != x.wide then None
        else
          Some(e.(mod := ModOf(d), rm := 4, sib := Some(SibByte(Log2Scale(m.scale).value, x.num % 8, b.num % 8)),
                  rexB := b.num >= 8, rexX := x.num >= 8, disp := d, is32bit := !b.wide))
  }

  function EncodeMemory(e: Fields, m: MemOperand, addr: Word64): Option<Fields> {
    match m
    case Direct(a) => Some(EncodeDirect(e, a, addr))
    case Sib(_, _, _, _) => EncodeIndirect(e, m)
  }

  lemma IndirectKeeps(e: Fields, m: MemOperand)
    requires m.Sib? && EncodeIndirect(e, m).Some?
    ensures HeadOf(EncodeIndirect(e, m).value) == HeadOf(e) && EncodeIndirect(e, m).value.imm == e.imm
  {
    hide CompressDisp, ModOf;
  }

  lemma DirectKeeps(e: Fields, a: Word64, addr: Word64)
    ensures HeadOf(EncodeDirect(e, a, addr)) == HeadOf(e) && EncodeDirect(e, a, addr).imm == e.imm
  {
    hide Signed32Address, SignedWord, WrapWord, PredictedLen, C.Fits32;
    if Signed32Address(a) {
      assert EncodeDirect(e, a, addr).oc == e.oc;
    }
  }

  lemma KeepsOpcode(e: Fields, m: MemOperand, addr: Word64)
    requires EncodeMemory(e, m, addr).Some?
    ensures HeadOf(EncodeMemory(e, m, addr).value) == HeadOf(e) && EncodeMemory(e, m, addr).value.imm == e.imm
  {
    hide EncodeDirect, EncodeIndirect;
    match m
    case Direct(a) => DirectKeeps(e, a, addr);
    case Sib(_, _, _, _) => IndirectKeeps(e, m);
  }

  // ---- reading it ----

  datatype Operand =
    | RegOperand(num: nat)
    | Indirect(base: Option<nat>, index: Option<nat>, scale: nat, disp: int, addr32: bool)
    | RipRelative(disp: int)

  /** What comes before the ModRM byte: the width bit of the REX byte, whether there are the prefixes 0x66 and 0xf2, and
      the opcode. */
  datatype Head = Head(rexW: bool, p66: bool, pf2: bool, oc: seq<Byte>)

  /** What comes from the ModRM byte on: the register field, the operand, and how many bytes up to the immediate. */
  datatype Rest = Rest(reg: nat, operand: Operand, len: nat)

  datatype Reading = Reading(head: Head, rest: Rest)

  predicate IsPrefix(b: Byte) { b == 0x66 || b == 0x67 || b == 0xf2 }
  predicate IsRex(b: Byte) { 0x40 <= b <= 0x4f }

  function PrefixCount(bs: seq<Byte>): (n: nat)
    ensures n <= |bs|
  {
    if bs != [] && IsPrefix(bs[0]) then 1 + PrefixCount(bs[1..]) else 0
  }

  function BitOf(b: Byte, k: nat): nat
    requires k == 1 || k == 2 || k == 4 || k == 8
  {
    b / k % 2
  }

  function Pow2(s: nat): nat
    requires s < 4
  {
    match s case 0 => 1 case 1 => 2 case 2 => 4 case 3 => 8
  }

  function SignedAt(bs: seq<Byte>, k: nat, n: nat): int
    requires k + n <= |bs| && (n == 0 || n == 1 || n == 4)
  {
    if n == 0 then 0 else if n == 1 then C.Signed8(bs[k]) else C.Signed32(bs[k..k + 4])
  }

  /** Read an instruction with an opcode of ocLen bytes; None if bytes are missing. */
  function Read(bs: seq<Byte>, ocLen: nat): Option<Reading> {
    var p := PrefixCount(bs);
    var addr32 := 0x67 in bs[..p];
    var rex := if p < |bs| && IsRex(bs[p]) then bs[p] else 0x40;
    var o := p + (if p < |bs| && IsRex(bs[p]) then 1 else 0);
    if o + ocLen >= |bs| then None
    else WithHead(Head(BitOf(rex, 8) == 1, 0x66 in bs[..p], 0xf2 in bs[..p], bs[o..o + ocLen]), ReadModRM(bs, o + ocLen, rex, addr32))
  }

  function WithHead(h: Head, r: Option<Rest>): Option<Reading> {
    match r
    case None => None
    case Some(rest) => Some(Reading(h, rest))
  }

  function ReadModRM(bs: seq<Byte>, k: nat, rex: Byte, addr32: bool): Option<Rest>
    requires k < |bs|
  {
    var mod, reg, rm := bs[k] / 64, bs[k] / 8 % 8 + 8 * BitOf(rex, 4), bs[k] % 8;
    if mod == 3 then Some(Rest(reg, RegOperand(rm + 8 * BitOf(rex, 1)), k + 1))
    else if rm == 4 then (if k + 1 >= |bs| then None else ReadSib(bs, k + 1, mod, reg, rex, addr32))
    else
      var n := if mod == 1 then 1 else if mod == 2 || rm == 5 then 4 else 0;
      if k + 1 + n > |bs| then None
      else
        var d := SignedAt(bs, k + 1, n);
        Some(Rest(reg,
          if mod == 0 && rm == 5 then RipRelative(d) else Indirect(Some(rm + 8 * BitOf(rex, 1)), None, 1, d, addr32),
          k + 1 + n))
  }

  function ReadSib(bs: seq<Byte>, k: nat, mod: nat, reg: nat, rex: Byte, addr32: bool): Option<Rest>
    requires k < |bs| && mod < 3
  {
    var scale, index, base := bs[k] / 64, bs[k] / 8 % 8 + 8 * BitOf(rex, 2), bs[k] % 8;
    var noBase := base == 5 && mod == 0;
    var n := if mod == 1 then 1 else if mod == 2 || noBase then 4 else 0;
    if k + 1 + n > |bs| then None
    else
      Some(Rest(reg,
        Indirect(if noBase then None else Some(base + 8 * BitOf(rex, 1)),
                 if index == 4 then None else Some(index),
                 if index == 4 then 1 else Pow2(scale),
                 SignedAt(bs, k + 1, n), addr32),
        k + 1 + n))
  }

  // ---- round trips ----

  /** No opcode begins with a byte that would be read as a prefix. */
  predicate WellOpcode(oc: seq<Byte>) { oc != [] && !IsPrefix(oc[0]) && !IsRex(oc[0]) }

  predicate AllPrefixes(p: seq<Byte>) { forall i :: 0 <= i < |p| ==> IsPrefix(p[i]) }

  lemma {:induction false} PrefixesCounted(p: seq<Byte>, rest: seq<Byte>)
    requires AllPrefixes(p) && rest != [] && !IsPrefix(rest[0])
    ensures PrefixCount(p + rest) == |p|
  {
    if p == [] {
      assert p + rest == rest;
    } else {
      assert (p + rest)[1..] == p[1..] + rest;
      PrefixesCounted(p[1..], rest);
    }
  }

  lemma PrefixesArePrefixes(e: Fields)
    ensures AllPrefixes(Prefixes(e)) && (0x67 in Prefixes(e) <==> e.is32bit)
    ensures (0x66 in Prefixes(e) <==> e.p66) && (0xf2 in Prefixes(e) <==> e.pf2)
  {
  }

  lemma RexBits(e: Fields)
    ensures IsRex(RexVal(e)) && BitOf(RexVal(e), 8) == Bit(e.rexW) && BitOf(RexVal(e), 4) == Bit(e.rexR) && BitOf(RexVal(e), 2) == Bit(e.rexX) && BitOf(RexVal(e), 1) == Bit(e.rexB)
  {
  }

  function ModRM(e: Fields): Byte
    requires ValidFields(e)
  {
    64 * e.mod + 8 * e.reg + e.rm
  }

  function Tail(e: Fields): seq<Byte>
    requires ValidFields(e)
  {
    SibBytes(e) + DispBytes(e) + e.imm
  }

  function HeadOf(e: Fields): Head { Head(e.rexW, e.p66, e.pf2, e.oc) }

  function ModRMAt(e: Fields): nat { |Prefixes(e)| + |RexBytes(e)| + |e.oc| }

  /** Where the parts of p + r + oc + [m] + t are. */
  lemma PartsAt(p: seq<Byte>, r: seq<Byte>, oc: seq<Byte>, m: Byte, t: seq<Byte>, bs: seq<Byte>)
    requires oc != [] && bs == p + r + oc + [m] + t
    ensures var k := |p| + |r| + |oc|; k < |bs| && bs[k] == m && bs[k + 1..] == t
    ensures |p| < |bs| && bs[..|p|] == p && bs[|p|] == if r != [] then r[0] else oc[0]
    ensures bs[|p| + |r|..|p| + |r| + |oc|] == oc
    ensures bs == p + (r + oc + [m] + t) && (r + oc + [m] + t)[0] == if r != [] then r[0] else oc[0]
  {
    var rest := r + oc + [m] + t;
    assert bs == p + rest;
  }

  /** Prefixes, extension byte and opcode read. */
  lemma ReadStart(p: seq<Byte>, r: seq<Byte>, oc: seq<Byte>, m: Byte, t: seq<Byte>, rex: Byte)
    requires WellOpcode(oc) && AllPrefixes(p) && IsRex(rex) && r == if rex != 0x40 then [rex] else []
    ensures var bs, k := p + r + oc + [m] + t, |p| + |r| + |oc|;
            k < |bs| && Read(bs, |oc|) == WithHead(Head(BitOf(rex, 8) == 1, 0x66 in p, 0xf2 in p, oc), ReadModRM(bs, k, rex, 0x67 in p))
  {
    hide ReadModRM, PrefixCount;
    var bs := p + r + oc + [m] + t;
    PartsAt(p, r, oc, m, t, bs);
    var first := if r != [] then r[0] else oc[0];
    assert !IsPrefix(first);
    PrefixesCounted(p, r + oc + [m] + t);
  }

  lemma WrittenParts(e: Fields)
    requires ValidFields(e)
    ensures Written(e) == Prefixes(e) + RexBytes(e) + e.oc + [ModRM(e)] + Tail(e)
  {
    hide Prefixes, RexBytes, SibBytes, DispBytes;
    var start := Prefixes(e) + RexBytes(e) + e.oc + [ModRM(e)];
    assert start + SibBytes(e) + DispBytes(e) + e.imm == start + (SibBytes(e) + DispBytes(e) + e.imm);
  }

  /** Reading gets to the ModRM byte with the right extension bits. */
  lemma ReadReachesModRM(e: Fields)
    requires ValidFields(e) && WellOpcode(e.oc)
    ensures var bs, k := Written(e), ModRMAt(e);
            && k < |bs| && bs[k] == ModRM(e) && bs[k + 1..] == Tail(e)
            && Read(bs, |e.oc|) == WithHead(HeadOf(e), ReadModRM(bs, k, RexVal(e), e.is32bit))
  {
    hide Written, Tail, Prefixes, Read, ReadModRM, RexVal, SibBytes, DispBytes, IsRex, BitOf, AllPrefixes;
    var bs, p, r := Written(e), Prefixes(e), RexBytes(e);
    WrittenParts(e);
    RexBits(e);
    PrefixesArePrefixes(e);
    PartsAt(p, r, e.oc, ModRM(e), Tail(e), bs);
    ReadStart(p, r, e.oc, ModRM(e), Tail(e), RexVal(e));
  }

  /** A byte of three fields, taken apart. */
  lemma ThreeFields(high: nat, mid: nat, low: nat)
    requires mid < 8 && low < 8
    ensures var v := 64 * high + 8 * mid + low; v / 64 == high && v / 8 % 8 == mid && v % 8 == low
  {
    var y := 8 * high + mid;
    var v := 8 * y + low;
    assert v == 64 * high + 8 * mid + low;
    assert v / 8 == y && v % 8 == low;
    assert y / 8 == high && y % 8 == mid;
    assert v / 64 == y / 8;
  }

  lemma ModRMParts(e: Fields)
    requires ValidFields(e)
    ensures ModRM(e) / 64 == e.mod && ModRM(e) / 8 % 8 == e.reg && ModRM(e) % 8 == e.rm
  {
    ThreeFields(e.mod, e.reg, e.rm);
  }

  /** A displacement field read back. */
  lemma DispRead(e: Fields, bs: seq<Byte>, k: nat)
    requires ValidFields(e) && k <= |bs| && bs[k..] == DispBytes(e) + e.imm
    ensures k + |DispBytes(e)| <= |bs|
    ensures SignedAt(bs, k, |DispBytes(e)|) == if e.disp.NoDisp? then 0 else e.disp.d
  {
    match e.disp
    case NoDisp =>
    case Disp8(d) => assert bs[k..][0] == C.Byte8(d);
    case Disp32(d) =>
      assert bs[k..k + 4] == bs[k..][..4] == C.Bytes32(d);
      C.SignedBytes32(d);
  }

  function RegOf(e: Fields): nat { e.reg + 8 * Bit(e.rexR) }

  /** Read back exactly: prefixes, width and opcode, the register field, the operand, and everything up to the
      immediate. */
  predicate ReadsAs(e: Fields, h: Head, reg: nat, operand: Operand)
    requires ValidFields(e)
  {
    Read(Written(e), |h.oc|) == Some(Reading(h, Rest(reg, operand, |Written(e)| - |e.imm|)))
  }

  /** The bytes of displacement a ModRM byte (and the base field of a SIB byte) asks for. */
  function Wanted(mod: nat, low: nat): nat { if mod == 1 then 1 else if mod == 2 || low == 5 then 4 else 0 }

  function DispOf(e: Fields): int { if e.disp.NoDisp? then 0 else e.disp.d }

  /** Displacement and immediate follow at k. */
  predicate DispAt(e: Fields, bs: seq<Byte>, k: nat)
    requires ValidFields(e)
  {
    k + |DispBytes(e)| <= |bs| && SignedAt(bs, k, |DispBytes(e)|) == DispOf(e)
  }

  function PlainOperand(e: Fields): Operand {
    if e.mod == 0 && e.rm == 5 then RipRelative(DispOf(e)) else Indirect(Some(e.rm + 8 * Bit(e.rexB)), None, 1, DispOf(e), e.is32bit)
  }

  function SibOperand(e: Fields): Operand
    requires e.sib.Some? && e.sib.value.scale < 4
  {
    var s := e.sib.value;
    var index := s.index + 8 * Bit(e.rexX);
    Indirect(if s.base == 5 && e.mod == 0 then None else Some(s.base + 8 * Bit(e.rexB)),
             if index == 4 then None else Some(index),
             if index == 4 then 1 else Pow2(s.scale), DispOf(e), e.is32bit)
  }

  lemma PlainStep(e: Fields, bs: seq<Byte>, k: nat)
    requires ValidFields(e) && e.mod < 3 && e.rm != 4
    requires |DispBytes(e)| == Wanted(e.mod, e.rm)
    requires k < |bs| && bs[k] == ModRM(e) && DispAt(e, bs, k + 1)
    ensures ReadModRM(bs, k, RexVal(e), e.is32bit) == Some(Rest(RegOf(e), PlainOperand(e), k + 1 + |DispBytes(e)|))
  {
    hide RexVal, DispBytes, SignedAt, BitOf, ModRM;
    ModRMParts(e);
    RexBits(e);
  }

  lemma SibStep(e: Fields, bs: seq<Byte>, k: nat)
    requires ValidFields(e) && e.mod < 3 && e.rm == 4 && e.sib.Some?
    requires |DispBytes(e)| == Wanted(e.mod, e.sib.value.base)
    requires k + 1 < |bs| && bs[k] == ModRM(e) && SibBytes(e) == [bs[k + 1]] && DispAt(e, bs, k + 2)
    ensures ReadModRM(bs, k, RexVal(e), e.is32bit) == Some(Rest(RegOf(e), SibOperand(e), k + 2 + |DispBytes(e)|))
  {
    hide RexVal, DispBytes, SignedAt, BitOf, ModRM, Pow2, ReadSib;
    ModRMParts(e);
    RexBits(e);
    ReadSibStep(e, bs, k + 1);
  }

  lemma ReadSibStep(e: Fields, bs: seq<Byte>, k: nat)
    requires ValidFields(e) && e.mod < 3 && e.sib.Some?
    requires |DispBytes(e)| == Wanted(e.mod, e.sib.value.base)
    requires k < |bs| && SibBytes(e) == [bs[k]] && DispAt(e, bs, k + 1)
    ensures ReadSib(bs, k, e.mod, RegOf(e), RexVal(e), e.is32bit) == Some(Rest(RegOf(e), SibOperand(e), k + 1 + |DispBytes(e)|))
  {
    hide RexVal, DispBytes, SignedAt, BitOf, ModRM, Pow2, SibBytes;
    SibParts(e, bs[k]);
    RexBits(e);
  }

  lemma SibParts(e: Fields, v: Byte)
    requires ValidFields(e) && e.sib.Some? && SibBytes(e) == [v]
    ensures v / 64 == e.sib.value.scale && v / 8 % 8 == e.sib.value.index && v % 8 == e.sib.value.base
  {
    hide DispBytes;
    var s := e.sib.value;
    assert SibBytes(e)[0] == v;
    ThreeFields(s.scale, s.index, s.base);
  }

  lemma WrittenLen(e: Fields)
    requires ValidFields(e)
    ensures |Written(e)| == ModRMAt(e) + 1 + |SibBytes(e)| + |DispBytes(e)| + |e.imm|
  {
    hide Prefixes, RexBytes, SibBytes, DispBytes;
  }

  /** What the fields of a memory operand without SIB byte are read as. */
  lemma ReadsPlain(e: Fields)
    requires ValidFields(e) && WellOpcode(e.oc) && e.mod < 3 && e.rm != 4 && e.sib.None?
    requires |DispBytes(e)| == Wanted(e.mod, e.rm)
    ensures ReadsAs(e, HeadOf(e), RegOf(e), PlainOperand(e))
  {
    hide Written, Read, ReadModRM, ModRMAt, ModRM, RexVal, DispBytes, SignedAt, RegOf, PlainOperand, Wanted;
    ReadReachesModRM(e);
    WrittenLen(e);
    var bs, k := Written(e), ModRMAt(e);
    assert Tail(e) == DispBytes(e) + e.imm;
    DispRead(e, bs, k + 1);
    PlainStep(e, bs, k);
  }

  /** ... and with one. */
  lemma ReadsSib(e: Fields)
    requires ValidFields(e) && WellOpcode(e.oc) && e.mod < 3 && e.rm == 4 && e.sib.Some?
    requires |DispBytes(e)| == Wanted(e.mod, e.sib.value.base)
    ensures ReadsAs(e, HeadOf(e), RegOf(e), SibOperand(e))
  {
    hide Written, Read, ReadModRM, ModRMAt, ModRM, RexVal, DispBytes, SignedAt, RegOf, SibOperand, Wanted;
    ReadReachesModRM(e);
    WrittenLen(e);
    var bs, k := Written(e), ModRMAt(e);
    var v := SibBytes(e)[0];
    assert Tail(e) == [v] + (DispBytes(e) + e.imm);
    assert bs[k + 1] == bs[k + 1..][0] == v;
    assert bs[k + 2..] == bs[k + 1..][1..] == DispBytes(e) + e.imm;
    DispRead(e, bs, k + 2);
    SibStep(e, bs, k);
  }

  /** What an operand means: a scale of 0 is a scale of 1, without index there is none. */
  function Meaning(m: MemOperand): Operand
    requires m.Sib?
  {
    var addr32 := (m.base.Some? && !m.base.value.wide) || (m.index.Some? && !m.index.value.wide);
    Indirect(if m.base.Some? then Some(m.base.value.num) else None,
             if m.index.Some? then Some(m.index.value.num) else None,
             if m.index.None? || m.scale == 0 then 1 else m.scale,
             m.disp, addr32)
  }

  /** The stack pointer as index, and register 12 as base without an index. */
  predicate Misencoded(m: MemOperand)
    requires m.Sib?
  {
    || (m.index.Some? && m.index.value.num == RSP)
    || (m.index.None? && m.base.Some? && m.base.value.num == R12)
  }

  /** A compressed displacement is as long as its mod field says, and is read as it was. */
  lemma CompressedLen(e: Fields, disp: int, needed: bool)
    requires ValidFields(e) && e.disp == CompressDisp(disp, needed) && e.mod == ModOf(e.disp)
    ensures DispOf(e) == disp && |DispBytes(e)| == (if e.mod == 1 then 1 else if e.mod == 2 then 4 else 0) && e.mod < 3
    ensures needed ==> e.mod != 0
  {
    hide C.Bytes32, C.Byte8;
  }

  /** Read as one operand, it is not read as another. */
  lemma ReadsAsOne(e: Fields, h: Head, reg: nat, o: Operand, o': Operand)
    requires ValidFields(e) && ReadsAs(e, h, reg, o)
    ensures ReadsAs(e, h, reg, o') <==> o == o'
  {
    hide Read, Written;
  }

  /** Fields made for an instruction with this head and register field. */
  predicate MadeFor(e: Fields, h: Head, reg: nat) { h == HeadOf(e) && reg < 16 && e.reg == reg % 8 && e.rexR == (reg >= 8) }

  lemma RegOfMade(e: Fields, h: Head, reg: nat)
    requires MadeFor(e, h, reg)
    ensures RegOf(e) == reg && HeadOf(e) == h
  {
  }

  /** The fields of base and displacement. */
  predicate BaseFields(e: Fields, m: MemOperand)
    requires m.Sib? && m.base.Some?
  {
    var b := m.base.value;
    && e.disp == CompressDisp(m.disp, b.num == RBP || b.num == R13) && e.mod == ModOf(e.disp)
    && e.rexB == (b.num >= 8) && e.is32bit == !b.wide
  }

  lemma BaseOnly(e: Fields, h: Head, reg: nat, m: MemOperand)
    requires WellOpcode(e.oc) && m.Sib? && ValidOperand(m) && m.index.None? && m.base.Some? && m.base.value.num != RSP
    requires ValidFields(e) && MadeFor(e, h, reg) && e.sib.None? && BaseFields(e, m) && e.rm == m.base.value.num % 8
    ensures ReadsAs(e, h, reg, Meaning(m)) <==> m.base.value.num != R12
  {
    hide ReadsAs, RegOf, DispBytes, DispOf, CompressDisp;
    RegOfMade(e, h, reg);
    CompressedLen(e, m.disp, m.base.value.num == RBP || m.base.value.num == R13);
    if m.base.value.num == R12 {
      ReadsTooMuch(e, h, reg, Meaning(m));
    } else {
      ReadsPlain(e);
      assert PlainOperand(e) == Meaning(m);
    }
  }

  /** Without the SIB byte the reader takes the next byte for it. */
  lemma ReadsTooMuch(e: Fields, h: Head, reg: nat, o: Operand)
    requires ValidFields(e) && h == HeadOf(e) && WellOpcode(e.oc) && e.mod < 3 && e.rm == 4 && e.sib.None?
    requires |DispBytes(e)| == if e.mod == 1 then 1 else if e.mod == 2 then 4 else 0
    ensures !ReadsAs(e, h, reg, o)
  {
    hide Written, Read, ModRMAt, ModRM, RexVal, DispBytes, SignedAt, RegOf, BitOf, Pow2;
    ReadReachesModRM(e);
    WrittenLen(e);
    ModRMParts(e);
  }

  lemma BaseAndIndex(e: Fields, h: Head, reg: nat, m: MemOperand)
    requires WellOpcode(e.oc) && m.Sib? && ValidOperand(m) && m.index.Some? && m.base.Some?
    requires Log2Scale(m.scale).Some? && m.base.value.wide == m.index.value.wide
    requires ValidFields(e) && MadeFor(e, h, reg) && e.rm == 4 && BaseFields(e, m)
    requires e.sib == Some(SibByte(Log2Scale(m.scale).value, m.index.value.num % 8, m.base.value.num % 8)) && e.rexX == (m.index.value.num >= 8)
    ensures ReadsAs(e, h, reg, Meaning(m)) <==> m.index.value.num != RSP
  {
    hide ReadsAs, RegOf, DispBytes, DispOf, CompressDisp;
    RegOfMade(e, h, reg);
    CompressedLen(e, m.disp, m.base.value.num == RBP || m.base.value.num == R13);
    ReadsSib(e);
    ReadsAsOne(e, h, reg, SibOperand(e), Meaning(m));
    assert SibOperand(e) == Meaning(m) <==> m.index.value.num != RSP;
  }

  lemma IndexOnly(e: Fields, h: Head, reg: nat, m: MemOperand)
    requires WellOpcode(e.oc) && m.Sib? && ValidOperand(m) && m.index.Some? && m.base.None? && Log2Scale(m.scale).Some?
    requires ValidFields(e) && MadeFor(e, h, reg) && e.rm == 4 && e.mod == 0 && e.disp == Disp32(m.disp) && e.is32bit == !m.index.value.wide
    requires e.sib == Some(SibByte(Log2Scale(m.scale).value, m.index.value.num % 8, 5)) && e.rexX == (m.index.value.num >= 8)
    ensures ReadsAs(e, h, reg, Meaning(m)) <==> m.index.value.num != RSP
  {
    hide ReadsAs, RegOf;
    RegOfMade(e, h, reg);
    ReadsSib(e);
    ReadsAsOne(e, h, reg, SibOperand(e), Meaning(m));
    assert SibOperand(e) == Meaning(m) <==> m.index.value.num != RSP;
  }

  /** The fields of an operand of registers are in range. */
  lemma FreshValid(e: Fields)
    requires Fresh(e)
    ensures ValidFields(e)
  {
  }

  lemma BaseOnlyIff(e0: Fields, h: Head, reg: nat, m: MemOperand)
    requires Fresh(e0) && WellOpcode(e0.oc) && MadeFor(e0, h, reg) && m.Sib? && ValidOperand(m) && EncodeIndirect(e0, m).Some?
    requires m.index.None? && ValidFields(EncodeIndirect(e0, m).value)
    ensures ReadsAs(EncodeIndirect(e0, m).value, h, reg, Meaning(m)) <==> !Misencoded(m)
  {
    hide ReadsAs, Meaning, WellOpcode, CompressDisp, C.Fits32, C.Fits8;
    BaseOnly(EncodeIndirect(e0, m).value, h, reg, m);
  }

  lemma IndexOnlyIff(e0: Fields, h: Head, reg: nat, m: MemOperand)
    requires Fresh(e0) && WellOpcode(e0.oc) && MadeFor(e0, h, reg) && m.Sib? && ValidOperand(m) && EncodeIndirect(e0, m).Some?
    requires m.index.Some? && m.base.None? && ValidFields(EncodeIndirect(e0, m).value)
    ensures ReadsAs(EncodeIndirect(e0, m).value, h, reg, Meaning(m)) <==> !Misencoded(m)
  {
    hide ReadsAs, Meaning, WellOpcode, CompressDisp, C.Fits32, C.Fits8;
    IndexOnly(EncodeIndirect(e0, m).value, h, reg, m);
  }

  lemma BaseAndIndexIff(e0: Fields, h: Head, reg: nat, m: MemOperand)
    requires Fresh(e0) && WellOpcode(e0.oc) && MadeFor(e0, h, reg) && m.Sib? && ValidOperand(m) && EncodeIndirect(e0, m).Some?
    requires m.index.Some? && m.base.Some? && ValidFields(EncodeIndirect(e0, m).value)
    ensures ReadsAs(EncodeIndirect(e0, m).value, h, reg, Meaning(m)) <==> !Misencoded(m)
  {
    hide ReadsAs, Meaning, WellOpcode, CompressDisp, C.Fits32, C.Fits8;
    BaseAndIndex(EncodeIndirect(e0, m).value, h, reg, m);
  }

  lemma IndirectValid(e0: Fields, m: MemOperand)
    requires ValidFields(e0) && m.Sib? && ValidOperand(m) && EncodeIndirect(e0, m).Some?
    ensures ValidFields(EncodeIndirect(e0, m).value)
  {
  }

  /** An encoding that does not fail is read back as the operand it was made of, if and only if it is not
      one of the two the encoder gets wrong. */
  lemma IndirectRoundTripIff(e0: Fields, h: Head, reg: nat, m: MemOperand)
    requires Fresh(e0) && WellOpcode(e0.oc) && MadeFor(e0, h, reg) && m.Sib? && ValidOperand(m) && EncodeIndirect(e0, m).Some?
    ensures var e := EncodeIndirect(e0, m).value;
            ValidFields(e) && (ReadsAs(e, h, reg, Meaning(m)) <==> !Misencoded(m))
  {
    hide ReadsAs, Meaning, WellOpcode, CompressDisp, C.Fits32, C.Fits8, EncodeIndirect, ValidFields, ValidOperand, Fresh, MadeFor;
    FreshValid(e0);
    IndirectValid(e0, m);
    if m.index.None? {
      BaseOnlyIff(e0, h, reg, m);
    } else if m.base.None? {
      IndexOnlyIff(e0, h, reg, m);
    } else {
      BaseAndIndexIff(e0, h, reg, m);
    }
  }

  // ---- fixed addresses ----

  /** The address an operand without registers stands for in an instruction that ends there. */
  function AddressOf(o: Operand, end: nat): Option<Word64> {
    match o
    case RipRelative(d) => Some(WrapWord(end + d))
    case Indirect(None, None, _, d, _) => Some(WrapWord(d))
    case _ => None
  }

  predicate Reachable(e: Fields, a: Word64, addr: Word64) {
    Signed32Address(a) || C.Fits32(SignedWord(WrapWord(a - (addr + PredictedLen(e)))))
  }

  lemma WrapSigned(x: int, y: int)
    ensures WrapWord(y + SignedWord(WrapWord(x - y))) == WrapWord(x)
  {
    var m := 0x1_0000_0000_0000_0000;
    var d := x - y;
    var q := d / m;
    assert d == m * q + d % m;
    var q' := if d % m < 0x8000_0000_0000_0000 then q else q + 1;
    assert y + SignedWord(d % m) == x - m * q';
    ModShift(x, q', m);
  }

  /** The length an address relative to the end of the instruction is computed with is the length that is
      written. */
  lemma PredictedLenWritten(e0: Fields, a: Word64, addr: Word64)
    requires Fresh(e0) && !Signed32Address(a) && Reachable(e0, a, addr)
    ensures ValidFields(EncodeDirect(e0, a, addr)) && |Written(EncodeDirect(e0, a, addr))| == PredictedLen(e0)
  {
    hide SignedWord, C.Fits32, WrapWord, RexBytes, Prefixes, Written;
    var e := EncodeDirect(e0, a, addr);
    WrittenLen(e);
    SameStart(e0, e);
  }

  lemma SameStart(e0: Fields, e: Fields)
    requires e.p66 == e0.p66 && e.is32bit == e0.is32bit && e.pf2 == e0.pf2
    requires e.rexW == e0.rexW && e.rexR == e0.rexR && e.rexX == e0.rexX && e.rexB == e0.rexB
    ensures |Prefixes(e)| == Bit(e0.p66) + Bit(e0.is32bit) + Bit(e0.pf2) && RexBytes(e) == RexBytes(e0)
  {
  }

  lemma UnsignedBack(a: Word64)
    ensures WrapWord(SignedWord(a)) == a
  {
  }

  /** What is read of a fixed address, and where it ends. */
  ghost predicate ReadsAddress(e: Fields, h: Head, reg: nat, addr: Word64, a: Word64)
    requires ValidFields(e)
  {
    exists o: Operand :: ReadsAs(e, h, reg, o) && AddressOf(o, addr + |Written(e)|) == Some(a)
  }

  /** A fixed address is read back as the same address, if and only if it can be reached at all. */
  lemma DirectRoundTripIff(e0: Fields, h: Head, reg: nat, a: Word64, addr: Word64)
    requires Fresh(e0) && WellOpcode(e0.oc) && MadeFor(e0, h, reg)
    ensures var e := EncodeDirect(e0, a, addr);
            ValidFields(e) && (ReadsAddress(e, h, reg, addr, a) <==> Reachable(e0, a, addr))
  {
    hide ReadsAs, WellOpcode, Written, C.Fits32, WrapWord, SignedWord, PredictedLen;
    if Signed32Address(a) {
      AbsoluteAddress(e0, h, reg, a, addr);
    } else if Reachable(e0, a, addr) {
      RelativeAddress(e0, h, reg, a, addr);
    } else {
      UnreachableAddress(e0, h, reg, a, addr);
    }
  }

  lemma AbsoluteAddress(e0: Fields, h: Head, reg: nat, a: Word64, addr: Word64)
    requires Fresh(e0) && WellOpcode(e0.oc) && MadeFor(e0, h, reg) && Signed32Address(a)
    ensures ValidFields(EncodeDirect(e0, a, addr)) && ReadsAddress(EncodeDirect(e0, a, addr), h, reg, addr, a)
  {
    hide ReadsAs, WellOpcode, Written, WrapWord, RegOf;
    var e := EncodeDirect(e0, a, addr);
    RegOfMade(e, h, reg);
    ReadsSib(e);
    UnsignedBack(a);
    assert AddressOf(SibOperand(e), addr + |Written(e)|) == Some(a);
  }

  lemma RelativeAddress(e0: Fields, h: Head, reg: nat, a: Word64, addr: Word64)
    requires Fresh(e0) && WellOpcode(e0.oc) && MadeFor(e0, h, reg) && !Signed32Address(a) && Reachable(e0, a, addr)
    ensures ValidFields(EncodeDirect(e0, a, addr)) && ReadsAddress(EncodeDirect(e0, a, addr), h, reg, addr, a)
  {
    hide ReadsAs, WellOpcode, Written, WrapWord, SignedWord, C.Fits32, RegOf, PredictedLen, Signed32Address;
    var e := EncodeDirect(e0, a, addr);
    RegOfMade(e, h, reg);
    PredictedLenWritten(e0, a, addr);
    ReadsPlain(e);
    WrapSigned(a, addr + PredictedLen(e0));
    WordWraps(a);
    assert AddressOf(PlainOperand(e), addr + |Written(e)|) == Some(a);
  }

  lemma WordWraps(a: Word64)
    ensures WrapWord(a) == a
  {
  }

  /** The fields are left as if the operand were the memory the first register points to. */
  lemma UnreachableAddress(e0: Fields, h: Head, reg: nat, a: Word64, addr: Word64)
    requires Fresh(e0) && WellOpcode(e0.oc) && MadeFor(e0, h, reg) && !Reachable(e0, a, addr)
    ensures ValidFields(EncodeDirect(e0, a, addr)) && !ReadsAddress(EncodeDirect(e0, a, addr), h, reg, addr, a)
  {
    hide ReadsAs, WellOpcode, Written, WrapWord, SignedWord, C.Fits32, RegOf, PredictedLen, Signed32Address;
    var e := EncodeDirect(e0, a, addr);
    assert e == e0;
    RegOfMade(e, h, reg);
    ReadsPlain(e);
    forall o: Operand | ReadsAs(e, h, reg, o) ensures AddressOf(o, addr + |Written(e)|) != Some(a) {
      ReadsAsOne(e, h, reg, PlainOperand(e), o);
    }
  }

  /** A register operand is read back as that register. */
  lemma RegisterRoundTrip(e0: Fields, h: Head, reg: nat, rm: nat)
    requires Fresh(e0) && WellOpcode(e0.oc) && MadeFor(e0, h, reg) && rm < 16
    ensures ValidFields(EncodeRegister(e0, rm)) && ReadsAs(EncodeRegister(e0, rm), h, reg, RegOperand(rm))
  {
    hide Written, Read, ModRMAt, ModRM, RexVal, SignedAt, BitOf, Pow2;
    var e := EncodeRegister(e0, rm);
    ReadReachesModRM(e);
    WrittenLen(e);
    ModRMParts(e);
    RexBits(e);
  }
}

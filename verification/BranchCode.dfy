/** The bytes of branches and of the padding between blocks. */
module BranchCode {
  import B = ProgramState

  type Byte = B.Byte

  predicate Fits8(d: int) { -128 <= d <= 127 }
  predicate Fits32(d: int) { -0x8000_0000 <= d < 0x8000_0000 }

  function Byte8(d: int): Byte
    requires Fits8(d)
  {
    if d < 0 then d + 256 else d
  }

  function Bytes32(d: int): (bs: seq<Byte>)
    requires Fits32(d)
    ensures |bs| == 4
  {
    B.Bytes(if d < 0 then d + 0x1_0000_0000 else d, 4)
  }

  /** An unconditional jump, or a jump on one of sixteen conditions. */
  datatype Form = Jmp | Jcc(cc: nat)

  predicate ValidForm(form: Form) { form.Jcc? ==> form.cc < 16 }

  function BranchLen(form: Form, short: bool): nat {
    if short then 2 else if form.Jmp? then 5 else 6
  }

  predicate Encodable(form: Form, short: bool, disp: int) {
    ValidForm(form) && (if short then Fits8(disp) else Fits32(disp))
  }

  /** What the fixup stores: opcode and displacement. */
  function BranchBytes(form: Form, short: bool, disp: int): (bs: seq<Byte>)
    requires Encodable(form, short, disp)
    ensures |bs| == BranchLen(form, short)
  {
    match form
    case Jmp => if short then [0xeb, Byte8(disp)] else [0xe9] + Bytes32(disp)
    case Jcc(cc) => if short then [0x70 + cc, Byte8(disp)] else [0x0f, 0x80 + cc] + Bytes32(disp)
  }

  /** A branch as the processor reads it: form, length, displacement from its end. */
  datatype Decoded = NoBranch | Branch(form: Form, len: nat, disp: int)

  function Signed8(b: Byte): int { if b < 128 then b else b - 256 }

  function Signed32(bs: seq<Byte>): int {
    var w := B.Word(bs);
    if w < 0x8000_0000 then w else w - 0x1_0000_0000
  }

  function Decode(bs: seq<Byte>): Decoded {
    if |bs| >= 2 && bs[0] == 0xeb then Branch(Jmp, 2, Signed8(bs[1]))
    else if |bs| >= 5 && bs[0] == 0xe9 then Branch(Jmp, 5, Signed32(bs[1..5]))
    else if |bs| >= 2 && 0x70 <= bs[0] <= 0x7f then Branch(Jcc(bs[0] - 0x70), 2, Signed8(bs[1]))
    else if |bs| >= 6 && bs[0] == 0x0f && 0x80 <= bs[1] <= 0x8f then Branch(Jcc(bs[1] - 0x80), 6, Signed32(bs[2..6]))
    else NoBranch
  }

  lemma SignedBytes32(d: int)
    requires Fits32(d)
    ensures Signed32(Bytes32(d)) == d
  {
    var w: nat := if d < 0 then d + 0x1_0000_0000 else d;
    B.WordOfBytes(w, 4);
    assert B.Pow256(4) == 0x1_0000_0000 by {
      assert B.Pow256(1) == 256 && B.Pow256(2) == 0x1_0000 && B.Pow256(3) == 0x100_0000;
    }
    assert w % 0x1_0000_0000 == w;
  }

  /** Reading a branch gives back what was stored, whatever comes behind it. */
  lemma DecodeBranch(form: Form, short: bool, disp: int, rest: seq<Byte>)
    requires Encodable(form, short, disp)
    ensures Decode(BranchBytes(form, short, disp) + rest) == Branch(form, BranchLen(form, short), disp)
  {
    var bs := BranchBytes(form, short, disp) + rest;
    if !short {
      SignedBytes32(disp);
      if form.Jmp? {
        assert bs[1..5] == Bytes32(disp);
      } else {
        assert bs[2..6] == Bytes32(disp);
      }
    }
  }

  // ---- padding ----

  /** The recommended no-operation of n bytes. */
  function Nop(n: nat): (bs: seq<Byte>)
    requires n <= 9
    ensures |bs| == n
  {
    match n
    case 0 => []
    case 1 => [0x90]
    case 2 => [0x66, 0x90]
    case 3 => [0x0f, 0x1f, 0x00]
    case 4 => [0x0f, 0x1f, 0x40, 0x00]
    case 5 => [0x0f, 0x1f, 0x44, 0x00, 0x00]
    case 6 => [0x66, 0x0f, 0x1f, 0x44, 0x00, 0x00]
    case 7 => [0x0f, 0x1f, 0x80, 0x00, 0x00, 0x00, 0x00]
    case 8 => [0x0f, 0x1f, 0x84, 0x00, 0x00, 0x00, 0x00, 0x00]
    case 9 => [0x66, 0x0f, 0x1f, 0x84, 0x00, 0x00, 0x00, 0x00, 0x00]
  }

  /** As many of nine bytes as fit, then one of the rest. */
  function Nops(n: nat): (bs: seq<Byte>)
    ensures |bs| == n
  {
    if n > 9 then Nop(9) + Nops(n - 9) else Nop(n)
  }
}

/** The no-operations between blocks, as the processor reads them: section 4.3 of the Intel Software Developer's Manual,
    volume 2B, NOP. */
module Padding {
  import B = ProgramState
  import C = BranchCode
  import E = Encoder

  /** The length of the no-operation these bytes begin with, 0 if they begin with something else: 0x90, 0x66 0x90, or
      opcode 0x0f 0x1f /0 with whatever operand, which is not accessed. */
  function NopLen(bs: seq<B.Byte>): (n: nat)
    ensures n <= |bs|
  {
    if bs != [] && bs[0] == 0x90 then 1
    else if |bs| >= 2 && bs[0] == 0x66 && bs[1] == 0x90 then 2
    else
      var r := E.Read(bs, 2);
      if r.Some? && r.value.head.oc == [0x0f, 0x1f] && r.value.rest.reg == 0 && r.value.rest.len <= |bs| then r.value.rest.len else 0
  }

  /** The processor, reading these bytes, executes no-operations only until it has come to byte n. */
  predicate Pads(bs: seq<B.Byte>, n: nat)
    decreases n
  {
    n == 0 || (0 < NopLen(bs) <= n && Pads(bs[NopLen(bs)..], n - NopLen(bs)))
  }

  /** From the ModRM byte on. */
  lemma NopRest(p: seq<B.Byte>, m: B.Byte, t: seq<B.Byte>, len: nat)
    requires p == [] || p == [0x66]
    requires var bs := p + [] + [0x0f, 0x1f] + [m] + t;
             var r := E.ReadModRM(bs, |p| + 2, 0x40, false);
             r.Some? && r.value.reg == 0 && r.value.len == len <= |bs|
    ensures NopLen(p + [] + [0x0f, 0x1f] + [m] + t) == len
  {
    hide E.ReadModRM, E.Read;
    var bs := p + [] + [0x0f, 0x1f] + [m] + t;
    E.ReadStart(p, [], [0x0f, 0x1f], m, t, 0x40);
    assert p == [] ==> bs[0] == 0x0f;
    assert p != [] ==> bs[0] == 0x66 && bs[1] == 0x0f;
  }

  /** An operand without SIB byte, and one with a SIB byte of zeros. */
  lemma PlainRest(bs: seq<B.Byte>, k: nat, m: B.Byte, len: nat)
    requires k < |bs| && bs[k] == m && ((m == 0x00 && len == k + 1) || (m == 0x40 && len == k + 2) || (m == 0x80 && len == k + 5)) && len <= |bs|
    ensures var r := E.ReadModRM(bs, k, 0x40, false); r.Some? && r.value.reg == 0 && r.value.len == len
  {
    hide E.SignedAt;
  }

  lemma SibRest(bs: seq<B.Byte>, k: nat, m: B.Byte, len: nat)
    requires k + 1 < |bs| && bs[k] == m && bs[k + 1] == 0 && ((m == 0x44 && len == k + 3) || (m == 0x84 && len == k + 6)) && len <= |bs|
    ensures var r := E.ReadModRM(bs, k, 0x40, false); r.Some? && r.value.reg == 0 && r.value.len == len
  {
    hide E.SignedAt;
  }

  lemma NopParts(n: nat, rest: seq<B.Byte>, p: seq<B.Byte>)
    requires 2 < n <= 9 && p == if n == 6 || n == 9 then [0x66] else []
    ensures var m, t := C.Nop(n)[|p| + 2], C.Nop(n)[|p| + 3..] + rest; C.Nop(n) + rest == p + [] + [0x0f, 0x1f] + [m] + t
  {
    var bs, m := C.Nop(n), C.Nop(n)[|p| + 2];
    assert bs == p + [0x0f, 0x1f] + [m] + bs[|p| + 3..];
  }

  lemma NopRead(n: nat, rest: seq<B.Byte>)
    requires 0 < n <= 9
    ensures NopLen(C.Nop(n) + rest) == n
  {
    var bs := C.Nop(n) + rest;
    hide E.Read, E.ReadModRM;
    if n > 2 {
      hide NopLen;
      var p := if n == 6 || n == 9 then [0x66] else [];
      NopParts(n, rest, p);
      if n == 3 || n == 4 || n == 7 {
        PlainRest(bs, |p| + 2, C.Nop(n)[|p| + 2], n);
      } else {
        SibRest(bs, |p| + 2, C.Nop(n)[|p| + 2], n);
      }
      NopRest(p, C.Nop(n)[|p| + 2], C.Nop(n)[|p| + 3..] + rest, n);
    }
  }

  /** The filling is no-operations only, of any length and whatever comes behind it. */
  lemma {:induction false} NopsPad(n: nat, rest: seq<B.Byte>)
    ensures Pads(C.Nops(n) + rest, n)
    decreases n
  {
    hide NopLen, C.Nop;
    if n > 9 {
      var more := C.Nops(n - 9) + rest;
      NopRead(9, more);
      NopsPad(n - 9, rest);
      assert C.Nops(n) + rest == C.Nop(9) + more;
      assert (C.Nop(9) + more)[9..] == more;
    } else if n > 0 {
      NopRead(n, rest);
    }
  }

  /** In memory. */
  lemma FilledPads(mem: seq<B.Byte>, a: nat, n: nat)
    requires a + n <= |mem| && mem[a..a + n] == C.Nops(n)
    ensures Pads(mem[a..], n)
  {
    hide Pads, C.Nops;
    NopsPad(n, mem[a + n..]);
    assert mem[a..] == mem[a..a + n] + mem[a + n..];
  }
}

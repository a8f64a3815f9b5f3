/** Adding and scaling values the analysis knows something about, and the address of a memory operand made of
    them. */
module DynamicValues {
  import opened ProgramState

  const M := 0x1_0000_0000_0000_0000

  function Wrap(x: int): Word64 { x % M }

  /** A 64-bit value, and whether it was derived from the stack pointer. */
  datatype Concrete = Concrete(val: Word64, taint: bool)

  function Plus(x: Concrete, y: Concrete): Concrete { Concrete(Wrap(x.val + y.val), x.taint || y.taint) }

  function Times(s: nat, x: Concrete): Concrete { Concrete(Wrap(s * x.val), s != 0 && x.taint) }

  function Imm64(v: DynValue): Word64
    requires v.Imm?
  {
    Wrap(v.val)
  }

  /** The value is among those v stands for. */
  predicate Means(v: DynValue, c: Concrete, env: Env) {
    match v
    case Imm(x) => c.val == Wrap(x) && !c.taint
    case Ptr(ty, nr, off) => c.val == Wrap(env(ty, nr) + off) && (ty != StackPtr ==> !c.taint)
    case Plain(ty) => ty != Tainted ==> !c.taint
  }

  /** What the bytes of a register are described by describes their value. */
  lemma BytesMean(v: DynValue, cs: seq<CByte>, env: Env)
    requires |cs| == 8 && ValueDescribes(v, cs, env)
    ensures Means(v, Concrete(Wrap(Word(Vals(cs))), !Untainted(cs)), env)
  {
    hide Bytes, Word;
    PowIs();
    match v
    case Imm(x) => if x >= 0 { WordOfBytes(x, 8); }
    case Ptr(ty, nr, off) => WordOfBytes(env(ty, nr) + off, 8);
    case Plain(_) =>
  }

  lemma PowIs()
    ensures Pow256(8) == M
  {
    assert Pow256(1) == 256 && Pow256(2) == 0x1_0000 && Pow256(3) == 0x100_0000 && Pow256(4) == 0x1_0000_0000;
    assert Pow256(5) == 0x100_0000_0000 && Pow256(6) == 0x1_0000_0000_0000 && Pow256(7) == 0x100_0000_0000_0000;
  }

  // ---- the operations ----

  function IsStack(v: DynValue): bool { v.Ptr? && v.ty == StackPtr }

  function AddDynamicValues(p: DynValue, q: DynValue): DynValue {
    if p.Imm? && q.Imm? then Imm(Wrap(Imm64(p) + Imm64(q)))
    else if p.Ptr? && q.Imm? then Ptr(p.ty, p.nr, Wrap(p.offset + Imm64(q)))
    else if q.Ptr? && p.Imm? then Ptr(q.ty, q.nr, Wrap(q.offset + Imm64(p)))
    else if p == Plain(Tainted) || q == Plain(Tainted) || IsStack(p) || IsStack(q) then Plain(Tainted)
    else Plain(Unknown)
  }

  function MultiplyDynamicValue(v: DynValue, scale: nat): DynValue {
    if scale == 1 then v
    else if v.Imm? then Imm(Wrap(scale * Imm64(v)))
    else if IsStack(v) then Plain(Tainted)
    else if v.Ptr? then Plain(Unknown)
    else v
  }

  lemma WrapIs(x: int, q: int, r: Word64)
    requires x == M * q + r
    ensures Wrap(x) == r
  {
  }

  lemma WrapPlus(x: int, y: int)
    ensures Wrap(Wrap(x) + y) == Wrap(x + y)
  {
    var q, q' := x / M, (Wrap(x) + y) / M;
    assert x == M * q + Wrap(x);
    assert Wrap(x) + y == M * q' + Wrap(Wrap(x) + y);
    WrapIs(x + y, q + q', Wrap(Wrap(x) + y));
  }

  lemma WrapBoth(x: int, y: int)
    ensures Wrap(Wrap(x) + Wrap(y)) == Wrap(x + y)
  {
    WrapPlus(x, Wrap(y));
    WrapPlus(y, x);
  }

  lemma WrapTimes(s: nat, x: int)
    ensures Wrap(s * Wrap(x)) == Wrap(s * x)
  {
    var q, q' := x / M, (s * Wrap(x)) / M;
    assert x == M * q + Wrap(x);
    assert s * x == s * (M * q) + s * Wrap(x);
    assert s * (M * q) == M * (s * q);
    assert s * Wrap(x) == M * q' + Wrap(s * Wrap(x));
    WrapIs(s * x, s * q + q', Wrap(s * Wrap(x)));
  }

  /** A sum is among the values the sum of the descriptions stands for, and what comes from the stack stays
      known as such. */
  lemma AddSound(p: DynValue, q: DynValue, x: Concrete, y: Concrete, env: Env)
    requires Means(p, x, env) && Means(q, y, env)
    ensures Means(AddDynamicValues(p, q), Plus(x, y), env)
  {
    hide Wrap;
    if p.Imm? && q.Imm? {
      WrapPlus(Imm64(p) + Imm64(q), 0);
    } else if p.Ptr? && q.Imm? {
      AddOffset(env(p.ty, p.nr), p.offset, Imm64(q));
    } else if q.Ptr? && p.Imm? {
      AddOffset(env(q.ty, q.nr), q.offset, Imm64(p));
    }
  }

  lemma AddOffset(base: int, off: Word64, v: Word64)
    ensures Wrap(base + Wrap(off + v)) == Wrap(Wrap(base + off) + v)
  {
    hide Wrap;
    WrapPlus(off + v, base);
    WrapPlus(base + off, v);
  }

  lemma MultiplySound(v: DynValue, s: nat, x: Concrete, env: Env)
    requires Means(v, x, env)
    ensures Means(MultiplyDynamicValue(v, s), Times(s, x), env)
  {
    hide Wrap;
    WrapSmall(x.val);
    if v.Imm? {
      WrapTimes(s, v.val);
      WrapPlus(s * Imm64(v), 0);
    }
  }

  lemma WrapSmall(w: Word64)
    ensures Wrap(w) == w
  {
  }

  // ---- addresses ----

  /** base + scale * index + displacement. */
  function CalculateMemPtr(base: DynValue, index: DynValue, scale: nat, disp: DynValue): DynValue {
    if base.Imm? && index.Imm? && disp.Imm? then Imm(Wrap(Imm64(base) + scale * Imm64(index) + Imm64(disp)))
    else AddDynamicValues(disp, AddDynamicValues(base, MultiplyDynamicValue(index, scale)))
  }

  function Address(base: Concrete, index: Concrete, scale: nat, disp: Concrete): Concrete {
    Plus(disp, Plus(base, Times(scale, index)))
  }

  lemma MemPtrSound(base: DynValue, index: DynValue, scale: nat, disp: DynValue, b: Concrete, i: Concrete, d: Concrete, env: Env)
    requires Means(base, b, env) && Means(index, i, env) && Means(disp, d, env)
    ensures Means(CalculateMemPtr(base, index, scale, disp), Address(b, i, scale, d), env)
  {
    hide Wrap, Means, AddDynamicValues, MultiplyDynamicValue;
    MultiplySound(index, scale, i, env);
    AddSound(base, MultiplyDynamicValue(index, scale), b, Times(scale, i), env);
    AddSound(disp, AddDynamicValues(base, MultiplyDynamicValue(index, scale)), d, Plus(b, Times(scale, i)), env);
    if base.Imm? && index.Imm? && disp.Imm? { FastPath(base, index, scale, disp); }
  }

  /** The shortcut for three immediates is no different. */
  lemma FastPath(base: DynValue, index: DynValue, scale: nat, disp: DynValue)
    requires base.Imm? && index.Imm? && disp.Imm?
    ensures Imm(Wrap(Imm64(base) + scale * Imm64(index) + Imm64(disp)))
            == AddDynamicValues(disp, AddDynamicValues(base, MultiplyDynamicValue(index, scale)))
  {
    hide Wrap;
    var b, i, d := Imm64(base), Imm64(index), Imm64(disp);
    WrapSmall(i);
    Twice(b);
    Twice(i);
    Twice(d);
    var t := Wrap(scale * i);
    WrapPlus(scale * i, 0);
    WrapPlus(scale * i, b);
    WrapPlus(b + scale * i, d);
    WrapPlus(b + t, 0);
  }

  lemma Twice(x: int)
    ensures Wrap(Wrap(x)) == Wrap(x)
  {
  }
}

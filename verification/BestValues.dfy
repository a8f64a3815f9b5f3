/** Sums and products of values lose nothing that a value could tell: whatever value stands for all sums stands for all
    that the computed one does. */
module BestValues {
  import opened ProgramState
  import opened DynamicValues

  /** A number an immediate, a pointer or anything else stands for, x where it may be anything. */
  function Sample(v: DynValue, env: Env, x: Word64, taint: bool): (c: Concrete)
    ensures c.taint ==> taint
  {
    match v
    case Imm(n) => Concrete(Wrap(n), false)
    case Ptr(ty, nr, off) => Concrete(Wrap(env(ty, nr) + off), taint && ty == StackPtr)
    case Plain(ty) => Concrete(x, taint && ty == Tainted)
  }

  lemma SampleMeant(v: DynValue, env: Env, x: Word64, taint: bool)
    ensures Means(v, Sample(v, env, x, taint), env)
  {
    hide Wrap;
  }

  /** w stands for all sums. */
  ghost predicate AllSums(w: DynValue, p: DynValue, q: DynValue) {
    forall x: Concrete, y: Concrete, env: Env | Means(p, x, env) && Means(q, y, env) :: Means(w, Plus(x, y), env)
  }

  function Sum(p: DynValue, q: DynValue, env: Env, x: Word64, taint: bool): Concrete {
    Plus(Sample(p, env, x, taint), Sample(q, env, 0, taint))
  }

  lemma SumMeant(w: DynValue, p: DynValue, q: DynValue, env: Env, x: Word64, taint: bool)
    requires AllSums(w, p, q)
    ensures Means(w, Sum(p, q, env, x, taint), env)
  {
    hide Wrap;
    SampleMeant(p, env, x, taint);
    SampleMeant(q, env, 0, taint);
  }

  lemma Commutes(w: DynValue, p: DynValue, q: DynValue)
    requires AllSums(w, p, q)
    ensures AllSums(w, q, p)
  {
    hide Wrap, Means;
    forall x: Concrete, y: Concrete, env: Env | Means(q, x, env) && Means(p, y, env) ensures Means(w, Plus(x, y), env) {
      assert Plus(x, y) == Plus(y, x);
    }
  }

  /** With a number that can be anything the sum can be. */
  lemma PlainSum(w: DynValue, p: DynValue, q: DynValue)
    requires AllSums(w, p, q) && p.Plain?
    ensures w.Plain?
  {
    var env: Env := (t: DynType, n: int) => 0;
    SumMeant(w, p, q, env, 0, false);
    SumMeant(w, p, q, env, 1, false);
    Apart(Sample(q, env, 0, false).val, 1);
  }

  lemma Apart(x: Word64, d: Word64)
    requires d != 0
    ensures Wrap(d + x) != Wrap(0 + x)
  {
  }

  function Based(ty: DynType, nr: int, at: nat): Env { (t: DynType, n: int) => if t == ty && n == nr then at else 0 }

  /** The sum of two pointers is neither a number nor a pointer. */
  lemma PointerSum(w: DynValue, p: DynValue, q: DynValue)
    requires AllSums(w, p, q) && p.Ptr? && q.Ptr?
    ensures w.Plain?
  {
    if w.Ptr? && w.ty == p.ty && w.nr == p.nr && !(q.ty == p.ty && q.nr == p.nr) {
      Commutes(w, p, q);
      Moving(w, q, p);
    } else {
      Moving(w, p, q);
    }
  }

  /** As the base of p moves by one, the sum moves by one or two, and w by nothing or by one that the sum does not. */
  lemma Moving(w: DynValue, p: DynValue, q: DynValue)
    requires AllSums(w, p, q) && p.Ptr? && q.Ptr?
    requires w.Ptr? && w.ty == p.ty && w.nr == p.nr ==> q.ty == p.ty && q.nr == p.nr
    ensures w.Plain?
  {
    var e, e' := Based(p.ty, p.nr, 0), Based(p.ty, p.nr, 1);
    SumMeant(w, p, q, e, 0, false);
    SumMeant(w, p, q, e', 0, false);
    var d := if q.ty == p.ty && q.nr == p.nr then 2 else 1;
    assert e(p.ty, p.nr) == 0 && e'(p.ty, p.nr) == 1 && e(q.ty, q.nr) == 0 && e'(q.ty, q.nr) == d - 1;
    SumIs(p, q, e);
    SumIs(p, q, e');
    Moved(p.offset + q.offset, d);
    if w.Ptr? {
      assert e(w.ty, w.nr) == 0;
      Moved(w.offset, 1);
      NotBoth(p.offset + q.offset, w.offset);
    }
  }

  lemma SumIs(p: DynValue, q: DynValue, env: Env)
    requires p.Ptr? && q.Ptr?
    ensures Sum(p, q, env, 0, false).val == Wrap(env(p.ty, p.nr) + env(q.ty, q.nr) + p.offset + q.offset)
  {
    WrapBoth(env(p.ty, p.nr) + p.offset, env(q.ty, q.nr) + q.offset);
    hide Wrap;
  }

  lemma Moved(x: int, d: int)
    requires d == 1 || d == 2
    ensures Wrap(d + x) != Wrap(x)
  {
    WrapPlus(x, d);
  }

  lemma NotBoth(x: int, y: int)
    ensures !(Wrap(x) == Wrap(y) && Wrap(2 + x) == Wrap(1 + y))
  {
    WrapPlus(x, 2);
    WrapPlus(y, 1);
  }

  /** A sum that can be stack-derived is said to be. */
  lemma TaintedSum(w: DynValue, p: DynValue, q: DynValue)
    requires AllSums(w, p, q) && w.Plain? && (p == Plain(Tainted) || q == Plain(Tainted) || IsStack(p) || IsStack(q))
    ensures w == Plain(Tainted)
  {
    hide Wrap;
    SumMeant(w, p, q, (t: DynType, n: int) => 0, 0, true);
  }

  /** Whatever value stands for all sums stands for all that the sum of the values does. */
  lemma AddBest(p: DynValue, q: DynValue, w: DynValue)
    requires AllSums(w, p, q)
    ensures forall c: Concrete, env: Env | Means(AddDynamicValues(p, q), c, env) :: Means(w, c, env)
  {
    hide Wrap, AllSums;
    forall c: Concrete, env: Env | Means(AddDynamicValues(p, q), c, env) ensures Means(w, c, env) {
      if p.Imm? && q.Imm? {
        SumMeant(w, p, q, env, 0, false);
        WrapPlus(Imm64(p) + Imm64(q), 0);
      } else if p.Ptr? && q.Imm? {
        SumMeant(w, p, q, env, 0, c.taint);
        AddOffset(env(p.ty, p.nr), p.offset, Imm64(q));
      } else if q.Ptr? && p.Imm? {
        SumMeant(w, p, q, env, 0, c.taint);
        AddOffset(env(q.ty, q.nr), q.offset, Imm64(p));
      } else {
        if p.Plain? {
          PlainSum(w, p, q);
        } else if q.Plain? {
          Commutes(w, p, q);
          PlainSum(w, q, p);
        } else {
          PointerSum(w, p, q);
        }
        if c.taint { TaintedSum(w, p, q); }
      }
    }
  }

  /** A pointer and a number make that pointer, moved, on either side. */
  lemma AddMoves(p: DynValue, q: DynValue)
    requires p.Ptr? && q.Imm?
    ensures AddDynamicValues(p, q) == Ptr(p.ty, p.nr, (p.offset + q.val) % M) == AddDynamicValues(q, p)
  {
    WrapPlus(q.val, p.offset);
    hide Wrap;
    assert Wrap(p.offset + q.val) == (p.offset + q.val) % M by { WrapDef(p.offset + q.val); }
  }

  lemma WrapDef(x: int)
    ensures Wrap(x) == x % M
  {
  }

  // ---- products ----

  ghost predicate AllProducts(w: DynValue, v: DynValue, s: nat) {
    forall x: Concrete, env: Env | Means(v, x, env) :: Means(w, Times(s, x), env)
  }

  lemma ProductMeant(w: DynValue, v: DynValue, s: nat, env: Env, x: Word64, taint: bool)
    requires AllProducts(w, v, s)
    ensures Means(w, Times(s, Sample(v, env, x, taint)), env)
  {
    hide Wrap;
    SampleMeant(v, env, x, taint);
  }

  lemma PlainProduct(w: DynValue, v: DynValue, s: nat)
    requires AllProducts(w, v, s) && v.Plain? && 0 < s < M
    ensures w.Plain?
  {
    var env: Env := (t: DynType, n: int) => 0;
    ProductMeant(w, v, s, env, 0, false);
    ProductMeant(w, v, s, env, 1, false);
    assert s * 0 == 0 && s * 1 == s;
  }

  lemma ProductIs(v: DynValue, s: nat, env: Env)
    requires v.Ptr?
    ensures Times(s, Sample(v, env, 0, false)).val == Wrap(s * env(v.ty, v.nr) + s * v.offset)
  {
    WrapTimes(s, env(v.ty, v.nr) + v.offset);
    hide Wrap;
    assert s * (env(v.ty, v.nr) + v.offset) == s * env(v.ty, v.nr) + s * v.offset;
  }

  lemma Apace(x: int, y: int, s: nat, d: nat)
    requires 1 < s < M && d <= 1
    ensures !(Wrap(x) == Wrap(y) && Wrap(s + x) == Wrap(d + y)) && Wrap(s + x) != Wrap(x)
  {
    WrapPlus(x, s);
    WrapPlus(y, d);
  }

  lemma PointerProduct(w: DynValue, v: DynValue, s: nat)
    requires AllProducts(w, v, s) && v.Ptr? && 1 < s < M
    ensures w.Plain?
  {
    var e, e' := Based(v.ty, v.nr, 0), Based(v.ty, v.nr, 1);
    ProductMeant(w, v, s, e, 0, false);
    ProductMeant(w, v, s, e', 0, false);
    ProductIs(v, s, e);
    ProductIs(v, s, e');
    assert e(v.ty, v.nr) == 0 && e'(v.ty, v.nr) == 1 && s * 0 == 0 && s * 1 == s;
    assert w.Ptr? ==> e(w.ty, w.nr) == 0;
    hide Wrap, AllProducts, Sample, Times;
    Apace(s * v.offset, if w.Ptr? then w.offset else 0, s, if w.Ptr? then e'(w.ty, w.nr) else 0);
  }

  /** The same of a product, for the scales there are. */
  lemma MultiplyBest(v: DynValue, s: nat, w: DynValue)
    requires AllProducts(w, v, s) && 0 < s < M
    ensures forall c: Concrete, env: Env | Means(MultiplyDynamicValue(v, s), c, env) :: Means(w, c, env)
  {
    hide Wrap, AllProducts;
    forall c: Concrete, env: Env | Means(MultiplyDynamicValue(v, s), c, env) ensures Means(w, c, env) {
      if s == 1 {
        ProductMeant(w, v, s, env, c.val, c.taint);
        WrapSmall(c.val);
        assert 1 * c.val == c.val;
      } else if v.Imm? {
        ProductMeant(w, v, s, env, 0, false);
        WrapPlus(s * Imm64(v), 0);
      } else {
        if v.Ptr? { PointerProduct(w, v, s); } else { PlainProduct(w, v, s); }
        if c.taint { ProductMeant(w, v, s, env, 0, true); }
      }
    }
  }

  // ---- addresses ----

  lemma ScaledIs(index: DynValue, scale: nat)
    requires index.Imm?
    ensures MultiplyDynamicValue(index, scale).Imm? && Imm64(MultiplyDynamicValue(index, scale)) == Wrap(scale * index.val)
  {
    WrapTimes(scale, index.val);
    WrapSmall(Wrap(scale * Imm64(index)));
    hide Wrap;
    assert scale == 1 ==> scale * index.val == index.val;
  }

  lemma Three(x: int, a: int, b: int)
    ensures Wrap(Wrap(x + Wrap(a)) + Wrap(b)) == (x + a + b) % M
  {
    WrapPlus(a, x);
    WrapBoth(x + a, b);
    WrapDef(x + a + b);
    hide Wrap;
  }

  /** With one pointer that is not scaled, and the other parts known, the address is that pointer moved. */
  lemma MemPtrMoves(base: DynValue, index: DynValue, scale: nat, disp: DynValue)
    ensures var m := CalculateMemPtr(base, index, scale, disp);
            && (base.Ptr? && index.Imm? && disp.Imm? ==> m == Ptr(base.ty, base.nr, (base.offset + scale * index.val + disp.val) % M))
            && (base.Imm? && index.Ptr? && scale == 1 && disp.Imm? ==> m == Ptr(index.ty, index.nr, (index.offset + base.val + disp.val) % M))
            && (base.Imm? && index.Imm? && disp.Ptr? ==> m == Ptr(disp.ty, disp.nr, (disp.offset + (base.val + scale * index.val)) % M))
  {
    hide Wrap;
    if index.Imm? { ScaledIs(index, scale); }
    if base.Ptr? && index.Imm? && disp.Imm? {
      hide MultiplyDynamicValue;
      Three(base.offset, scale * index.val, disp.val);
    } else if base.Imm? && index.Ptr? && scale == 1 && disp.Imm? {
      Three(index.offset, base.val, disp.val);
    } else if base.Imm? && index.Imm? && disp.Ptr? {
      hide MultiplyDynamicValue;
      WrapBoth(base.val, scale * index.val);
      Twice(base.val + scale * index.val);
      Moves(disp.offset, base.val + scale * index.val);
    }
  }

  lemma Moves(off: int, x: int)
    ensures Wrap(off + Wrap(x)) == (off + x) % M
  {
    WrapPlus(x, off);
    WrapDef(off + x);
    hide Wrap;
  }

  /** With all parts known the address is. */
  lemma MemPtrKnown(base: DynValue, index: DynValue, scale: nat, disp: DynValue)
    requires base.Imm? && index.Imm? && disp.Imm?
    ensures CalculateMemPtr(base, index, scale, disp) == Imm((base.val + scale * index.val + disp.val) % M)
  {
    WrapTimes(scale, index.val);
    hide Wrap;
    var x, y := scale * Imm64(index), scale * index.val;
    WrapPlus(base.val, x + Imm64(disp));
    WrapPlus(disp.val, x + base.val);
    SameAhead(x, y, base.val + disp.val);
    WrapDef(base.val + y + disp.val);
  }

  lemma SameAhead(x: int, y: int, z: int)
    requires Wrap(x) == Wrap(y)
    ensures Wrap(x + z) == Wrap(y + z)
  {
    WrapPlus(x, z);
    WrapPlus(y, z);
    hide Wrap;
  }
}

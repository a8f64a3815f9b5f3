/** The loops of the byte domain, in place on the arrays of registers and stack, each proved against
    its specification function. Data and metadata of a byte are one array element here. A thrown
    error leaves the arrays in an unspecified state. */
module ElementArrays {
  import Spec = ProgramState
  import Join = MergeElements
  import Least = MergeLeast
  import opened ProgramState

  method ClearTailAt(a: array<Elem>, i: nat)
    requires i < a.Length
    modifies a
    ensures a[..] == Spec.ClearTail(old(a[..]), i)
  {
    a[i] := a[i].(ty := if a[i].ty == StackPtr then Tainted else Unknown);
    ghost var es := a[..];
    assert es == Retype(old(a[..]), i, if old(a[i]).ty == StackPtr then Tainted else Unknown);
    var j := i + 1;
    while j < a.Length && IsTail(a[j].ty)
      invariant i + 1 <= j <= a.Length
      invariant ClearRun(a[..], j) == ClearRun(es, i + 1)
    {
      ghost var before := a[..];
      a[j] := a[j].(ty := if a[j].ty == Tail then Unknown else Tainted);
      assert a[..] == Retype(before, j, Loosened(before[j].ty));
      j := j + 1;
    }
  }

  /** The pointer that covers the first byte of the range, found backwards. */
  method ClearOwner(a: array<Elem>, o: nat) returns (ok: bool)
    requires o < a.Length && IsTail(a[o].ty)
    modifies a
    ensures ok <==> MarkOwner(old(a[..]), o).Some?
    ensures ok ==> Some(a[..]) == MarkOwner(old(a[..]), o)
  {
    var j: int := o - 1;
    while j >= 0 && IsTail(a[j].ty)
      invariant -1 <= j < o
      invariant a[..] == old(a[..])
      invariant Backward(a[..], j) == Backward(a[..], o - 1)
    {
      j := j - 1;
    }
    if j < 0 {
      return false;
    }
    ClearTailAt(a, j);
    ok := true;
  }

  method MarkUnknown(a: array<Elem>, o: nat, n: nat) returns (ok: bool)
    requires o + n <= a.Length
    modifies a
    ensures ok <==> Mark(old(a[..]), o, n, 0).Some?
    ensures ok ==> Some(a[..]) == Mark(old(a[..]), o, n, 0)
  {
    var i := 0;
    while i < n
      invariant 0 <= i <= n
      invariant Mark(a[..], o, n, i) == Mark(old(a[..]), o, n, 0)
    {
      ghost var before := a[..];
      match a[o + i].ty {
        case Dead => a[o + i] := a[o + i].(ty := Unknown);
        case Immediate => a[o + i] := a[o + i].(ty := Unknown);
        case Tail =>
          if i != 0 { return false; }
          var found := ClearOwner(a, o);
          if !found { return false; }
        case StackPtrTail =>
          if i != 0 { return false; }
          var found := ClearOwner(a, o);
          if !found { return false; }
        case Tainted =>
        case Unknown =>
        case _ => ClearTailAt(a, o);
      }
      assert Some(a[..]) == MarkByte(before, o, i);
      i := i + 1;
    }
    ok := true;
  }

  method StorePtr(a: array<Elem>, o: nat, v: DynValue)
    requires v.Ptr? && o + 8 <= a.Length
    modifies a
    ensures a[..] == WritePtr(old(a[..]), o, v)
  {
    var bs := Bytes(v.offset, 8);
    a[o] := Elem(v.ty, v.nr, bs[0]);
    for i := 1 to 8
      invariant forall k | 0 <= k < a.Length ::
        a[k] == if k == o then Elem(v.ty, v.nr, bs[0])
                else if o < k < o + i then Elem(TailOf(v.ty), old(a[k]).nr, bs[k - o])
                else old(a[k])
    {
      a[o + i] := Elem(if v.ty == StackPtr then StackPtrTail else Tail, a[o + i].nr, bs[i]);
    }
    assert a[..] == WritePtr(old(a[..]), o, v);
  }

  method StoreImm(a: array<Elem>, o: nat, n: nat, val: nat)
    requires o + n <= a.Length
    modifies a
    ensures a[..] == WriteImm(old(a[..]), o, n, val)
  {
    var bs := Bytes(val, n);
    for i := 0 to n
      invariant forall k | 0 <= k < a.Length ::
        a[k] == if o <= k < o + i then Elem(Immediate, old(a[k]).nr, bs[k - o]) else old(a[k])
    {
      a[o + i] := Elem(Immediate, a[o + i].nr, bs[i]);
    }
    assert a[..] == WriteImm(old(a[..]), o, n, val);
  }

  method StoreType(a: array<Elem>, o: nat, n: nat, t: DynType)
    requires o + n <= a.Length
    modifies a
    ensures a[..] == WriteType(old(a[..]), o, n, t)
  {
    for i := 0 to n
      invariant forall k | 0 <= k < a.Length ::
        a[k] == if o <= k < o + i then Elem(t, old(a[k]).nr, 0) else old(a[k])
    {
      a[o + i] := Elem(t, a[o + i].nr, 0);
    }
    assert a[..] == WriteType(old(a[..]), o, n, t);
  }

  method StoreElements(a: array<Elem>, o: nat, n: nat, v: DynValue, cond: bool) returns (ok: bool)
    modifies a
    ensures ok <==> SetElements(old(a[..]), o, n, v, cond).Some?
    ensures ok ==> Some(a[..]) == SetElements(old(a[..]), o, n, v, cond)
  {
    if n == 0 || o + n > a.Length || cond {
      return false;
    }
    var marked := MarkUnknown(a, o, n);
    if !marked {
      return false;
    }
    match v {
      case Ptr(ty, _, _) =>
        if n != 8 || !IsPtr(ty) { return false; }
        StorePtr(a, o, v);
      case Imm(val) =>
        if !ImmSize(n) { return false; }
        StoreImm(a, o, n, val);
      case Plain(ty) =>
        if ty != Dead && ty != Unknown && ty != Tainted { return false; }
        StoreType(a, o, n, ty);
    }
    ok := true;
  }

  /** The scan with its six counters, skipping what belongs to a pointer. */
  lemma ScanStep(es: seq<Elem>, o: nat, n: nat, i: nat, f: Flags)
    requires o + n <= |es| && i < n
    ensures Scan(es, o, n, i, f) == Scan(es, o, n, if IsPtr(es[o + i].ty) then i + 8 else i + 1, SeenType(es[o + i].ty, i == 0, f))
  {
  }

  lemma ScanEnd(es: seq<Elem>, o: nat, n: nat, i: nat, f: Flags)
    requires o + n <= |es| && n <= i
    ensures Scan(es, o, n, i, f) == f
  {
  }

  method LoadElements(a: array<Elem>, o: nat, n: nat) returns (r: Option<DynValue>)
    requires 0 < n && o + n <= a.Length
    ensures r == GetElements(a[..], o, n)
  {
    hide Conclude, Scan;
    var hasImm, hasDead, hasPtr, hasStackPtr, hasUnknown, hasTainted := false, false, false, false, false, false;
    var isMixed := false;
    ghost var es := a[..];
    var i := 0;
    while i < n
      invariant Scan(es, o, n, i, Flags(hasImm, hasDead, hasPtr, hasStackPtr, hasUnknown, hasTainted, isMixed))
             == Scan(es, o, n, 0, NO_FLAGS)
      decreases n - i
    {
      ghost var f, t, i0 := Flags(hasImm, hasDead, hasPtr, hasStackPtr, hasUnknown, hasTainted, isMixed), a[o + i].ty, i;
      ScanStep(es, o, n, i, f);
      match a[o + i].ty {
        case StackPtr =>
          hasStackPtr := true;
          if i != 0 { isMixed := true; }
          i := i + 7;
        case UsrPtr =>
          hasPtr := true;
          if i != 0 { isMixed := true; }
          i := i + 7;
        case ReturnPtr =>
          hasPtr := true;
          if i != 0 { isMixed := true; }
          i := i + 7;
        case Immediate => hasImm := true;
        case Dead => hasDead := true;
        case Tail => if i == 0 { isMixed := true; }
        case StackPtrTail => hasTainted := true;
        case Unknown => hasUnknown := true;
        case Tainted => hasTainted := true;
      }
      i := i + 1;
      assert i == (if IsPtr(t) then i0 + 8 else i0 + 1);
      assert Flags(hasImm, hasDead, hasPtr, hasStackPtr, hasUnknown, hasTainted, isMixed) == SeenType(t, i0 == 0, f);
    }
    ScanEnd(es, o, n, i, Flags(hasImm, hasDead, hasPtr, hasStackPtr, hasUnknown, hasTainted, isMixed));
    r := Conclude(a[..], o, n, Flags(hasImm, hasDead, hasPtr, hasStackPtr, hasUnknown, hasTainted, isMixed));
  }

  method RetypeBytes(a: array<Elem>, lo: nat, hi: nat, t: DynType)
    requires lo <= hi <= a.Length
    modifies a
    ensures a[..] == RetypeRange(old(a[..]), lo, hi, t)
  {
    for j := lo to hi
      invariant forall k | 0 <= k < a.Length :: a[k] == if lo <= k < j then old(a[k]).(ty := t) else old(a[k])
    {
      a[j] := a[j].(ty := t);
    }
    assert a[..] == RetypeRange(old(a[..]), lo, hi, t);
  }

  /** The first j bytes of a pointer copied. */
  ghost function CopiedSoFar(src: seq<Elem>, es: seq<Elem>, from: nat, to: nat, j: nat): seq<Elem>
    requires from + 8 <= |src| && to + 8 <= |es| && j <= 8
  {
    es[..to] + src[from..from + j] + es[to + j..]
  }

  lemma CopiedOne(src: seq<Elem>, es: seq<Elem>, from: nat, to: nat, j: nat)
    requires from + 8 <= |src| && to + 8 <= |es| && j < 8
    ensures CopiedSoFar(src, es, from, to, j)[to + j := src[from + j]] == CopiedSoFar(src, es, from, to, j + 1)
  {
    assert src[from..from + j + 1] == src[from..from + j] + [src[from + j]];
  }

  lemma CopiedEnds(src: seq<Elem>, es: seq<Elem>, from: nat, to: nat)
    requires from + 8 <= |src| && to + 8 <= |es|
    ensures CopiedSoFar(src, es, from, to, 0) == es && CopiedSoFar(src, es, from, to, 8) == CopyEight(src, es, from, to)
  {
  }

  method CopyPointer(src: array<Elem>, dst: array<Elem>, from: nat, to: nat)
    requires from + 8 <= src.Length && to + 8 <= dst.Length
    modifies dst
    ensures dst[..] == if src == dst then CopyUp(old(dst[..]), from, to, 0) else CopyEight(old(src[..]), old(dst[..]), from, to)
  {
    hide CopiedSoFar, CopyEight;
    ghost var given, was := src[..], dst[..];
    CopiedEnds(given, was, from, to);
    for j := 0 to 8
      invariant src == dst ==> CopyUp(dst[..], from, to, j) == CopyUp(was, from, to, 0)
      invariant src != dst ==> src[..] == given && dst[..] == CopiedSoFar(given, was, from, to, j)
    {
      ghost var before := dst[..];
      dst[to + j] := src[from + j];
      assert dst[..] == before[to + j := if src == dst then before[from + j] else given[from + j]];
      CopiedOne(given, was, from, to, j);
    }
  }

  /** One element of the range; how far to go on. */
  method CopyElement(src: array<Elem>, dst: array<Elem>, o1: nat, o2: nat, n: nat, i: nat) returns (next: nat)
    requires i < n && o1 + n <= src.Length && o2 + n <= dst.Length
    modifies dst
    ensures dst[..] == if src == dst then MoveByteWithin(old(dst[..]), o1, o2, n, i) else MoveByte(old(src[..]), old(dst[..]), o1, o2, n, i)
    ensures next == MoveNext(old(src[..]), o1, i)
  {
    hide RetypeRange, CopyEight, CopyUp;
    var e := src[o1 + i];
    next := i + 1;
    match e.ty {
      case Immediate => dst[o2 + i] := dst[o2 + i].(ty := e.ty, data := e.data);
      case Dead => dst[o2 + i] := dst[o2 + i].(ty := e.ty, data := e.data);
      case Tail => dst[o2 + i] := dst[o2 + i].(ty := Unknown);
      case Unknown => dst[o2 + i] := dst[o2 + i].(ty := Unknown);
      case StackPtrTail => dst[o2 + i] := dst[o2 + i].(ty := Tainted);
      case Tainted => dst[o2 + i] := dst[o2 + i].(ty := Tainted);
      case _ =>
        if n - i < 8 {
          RetypeBytes(dst, o2 + i, o2 + n, if e.ty == StackPtr then Tainted else Unknown);
        } else {
          CopyPointer(src, dst, o1 + i, o2 + i);
        }
        next := i + 8;
    }
  }

  /** The copy loop, between two arrays or within one. */
  method CopyElements(src: array<Elem>, dst: array<Elem>, o1: nat, o2: nat, n: nat)
    requires o1 + n <= src.Length && o2 + n <= dst.Length
    modifies dst
    ensures dst[..] == if src == dst then MoveWithin(old(dst[..]), o1, o2, n, 0) else MoveLoop(old(src[..]), old(dst[..]), o1, o2, n, 0)
  {
    hide MoveByte, MoveByteWithin;
    ghost var from, to := src[..], dst[..];
    var i := 0;
    while i < n
      invariant src == dst ==> MoveWithin(dst[..], o1, o2, n, i) == MoveWithin(to, o1, o2, n, 0)
      invariant src != dst ==> src[..] == from && MoveLoop(from, dst[..], o1, o2, n, i) == MoveLoop(from, to, o1, o2, n, 0)
      decreases n - i
    {
      ghost var before := dst[..];
      assert src == dst ==> MoveWithin(before, o1, o2, n, i) == MoveWithin(MoveByteWithin(before, o1, o2, n, i), o1, o2, n, MoveNext(before, o1, i));
      i := CopyElement(src, dst, o1, o2, n, i);
    }
  }

  method MoveBytes(src: array<Elem>, dst: array<Elem>, o1: nat, o2: nat, n: nat) returns (ok: bool)
    requires o1 + n <= src.Length && o2 + n <= dst.Length
    modifies dst
    ensures ok <==> MoveElements(old(src[..]), old(dst[..]), src == dst, o1, o2, n).Some?
    ensures ok ==> Some(dst[..]) == MoveElements(old(src[..]), old(dst[..]), src == dst, o1, o2, n)
  {
    if o1 == o2 && src == dst {
      return true;
    }
    ok := MarkUnknown(dst, o2, n);
    if ok {
      CopyElements(src, dst, o1, o2, n);
    }
  }

  /** The pointer data at byte i differs, or its number. */
  method PointersDiffer(lhs: array<Elem>, rhs: array<Elem>, i: nat) returns (differ: bool)
    requires i + 8 <= lhs.Length == rhs.Length
    ensures differ <==> lhs[i].nr != rhs[i].nr || Join.PtrData(lhs[..], i) != Join.PtrData(rhs[..], i)
  {
    if lhs[i].nr != rhs[i].nr {
      return true;
    }
    var l, r := lhs[i..i + 8], rhs[i..i + 8];
    assert lhs[..][i..i + 8] == l && rhs[..][i..i + 8] == r;
    differ := Datas(l) != Datas(r);
  }

  method MergeArrays(lhs: array<Elem>, rhs: array<Elem>) returns (diff: bool)
    requires lhs.Length == rhs.Length && lhs != rhs
    requires HeadsOk(lhs[..]) && HeadsOk(rhs[..])
    modifies lhs
    ensures (lhs[..], diff) == Join.Merge(old(lhs[..]), rhs[..])
    ensures Least.LeastAbove(lhs[..], old(lhs[..]), rhs[..])
  {
    hide Least.LeastAbove;
    Least.MergeIsLeast(lhs[..], rhs[..]);
    diff := false;
    ghost var l, r := lhs[..], rhs[..];
    Join.MergeStart(l, r);
    var i := 0;
    while i < lhs.Length
      invariant rhs[..] == r
      invariant Join.MergeInv(l, r, lhs[..], i, diff)
      invariant Join.MergeLoop(lhs[..], r, i).0 == Join.Merge(l, r).0
      invariant Join.Merge(l, r).1 == (diff || Join.MergeLoop(lhs[..], r, i).1)
      decreases lhs.Length - i
    {
      ghost var before, was := lhs[..], diff;
      var lt, rt := lhs[i].ty, rhs[i].ty;
      var next := i + 1;
      if lt == rt {
        if IsPtr(lt) {
          Behind(before, i, i);
          var differ := PointersDiffer(lhs, rhs, i);
          if differ {
            diff := true;
            ClearTailAt(lhs, i);
          }
          next := i + 8;
        } else if lt == Immediate {
          if lhs[i].data != rhs[i].data {
            diff := true;
            lhs[i] := lhs[i].(ty := Unknown);
          }
        }
      } else if (lt == Dead && rt == Unknown) || (lt == Unknown && rt == Dead) {
        lhs[i] := lhs[i].(ty := Dead);
      } else if StackDerived(lt) || StackDerived(rt) {
        if lt != Tainted {
          diff := true;
          lhs[i] := lhs[i].(ty := Tainted);
        }
      } else if lt != Unknown {
        diff := true;
        lhs[i] := lhs[i].(ty := Unknown);
      }
      assert lhs[..] == Join.MergeByte(before, r, i).0 && diff == (was || Join.MergeByte(before, r, i).1);
      Join.MergeOnce(l, r, before, i, was);
      i := next;
    }
  }
}

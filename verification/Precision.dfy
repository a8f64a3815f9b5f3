/** What stores, moves and reads keep: values stored are read back, whole pointers and immediates arrive, and nothing is
    forgotten that was not written to. */
module Precision {
  import opened ProgramState

  // ---- elsewhere ----

  /** The first byte that is no tail in front of a range that begins with a tail: its owner, where tails have heads. */
  predicate InFront(es: seq<Elem>, o: nat, k: int)
    requires o < |es|
  {
    IsTail(TypeAt(es, o)) && k >= 0 && Backward(es, o - 1) == Some(k)
  }

  predicate Outside(o: nat, n: nat, k: int) { !(o <= k < o + n) }

  /** Bytes behind the first of the range are marked one by one, and nothing else is. */
  lemma {:induction false} LaterOnly(es0: seq<Elem>, es: seq<Elem>, o: nat, n: nat, i: nat, k: nat)
    requires 0 < i <= n && o + n <= |es| && MarkInv(es0, es, o, i) && Mark(es, o, n, i).Some? && k < |es| && Outside(o, n, k)
    ensures Mark(es, o, n, i).value[k] == es[k]
    decreases n - i
  {
    if i < n {
      MarkLater(es0, es, o, i);
      hide MarkInv, MarkByte;
      if IsPtr(TypeAt(es, o + i)) {
        HeadLast(es0, es, o, n, i);
      } else {
        LaterOnly(es0, MarkByte(es, o, i).value, o, n, i + 1, k);
      }
    }
  }

  lemma HeadLast(es0: seq<Elem>, es: seq<Elem>, o: nat, n: nat, i: nat)
    requires 0 < i < n && o + n <= |es| && MarkInv(es0, es, o, i) && Mark(es, o, n, i).Some? && IsPtr(TypeAt(es, o + i))
    ensures Mark(es, o, n, i).value == Retype(es, o, Unknown)
  {
    MarkLater(es0, es, o, i);
    MarkMeetsHead(es0, es, o, n, i);
    assert i == n - 1;
    MarkDone(Retype(es, o, Unknown), o, n);
  }

  /** The first byte takes one run of tails along, and what is in front of it. */
  lemma FirstOnly(es: seq<Elem>, o: nat) returns (j: nat, e: nat)
    requires HeadsOk(es) && o < |es| && MarkByte(es, o, 0).Some?
    ensures j <= o < e <= |es| && !IsTail(TypeAt(es, j)) && (e == |es| || !IsTail(TypeAt(es, e)) || e == o + 1)
    ensures (forall k | j < k < e :: IsTail(TypeAt(es, k))) && (j < o ==> InFront(es, o, j)) && (j == o && e > o + 1 ==> IsPtr(TypeAt(es, o)))
    ensures forall k | 0 <= k < |es| && !(j <= k < e) :: MarkByte(es, o, 0).value[k] == es[k]
    ensures forall k | j < k < |es| && IsPtr(TypeAt(es, k)) :: k >= e
  {
    if IsTail(TypeAt(es, o)) {
      BackwardIs(es, o - 1);
      j := Backward(es, o - 1).value;
      e := ClearTailIs(es, j);
      ClearedReaches(es, ClearTail(es, j), j, e, o);
    } else if IsPtr(TypeAt(es, o)) {
      j := o;
      e := ClearTailIs(es, j);
    } else {
      j, e := o, o + 1;
    }
  }

  /** Outside the range a byte that is no tail stays, and a pointer stays whole, but for what is right in front of a range
      that begins with a tail. */
  lemma MarkKeeps(es: seq<Elem>, o: nat, n: nat, k: nat)
    requires HeadsOk(es) && 0 < n && o + n <= |es| && Mark(es, o, n, 0).Some? && k < |es| && Outside(o, n, k) && !InFront(es, o, k)
    ensures !IsTail(TypeAt(es, k)) ==> Mark(es, o, n, 0).value[k] == es[k]
    ensures IsPtr(TypeAt(es, k)) && (k + 8 <= o || o + n <= k) ==> k + 8 <= |es| && Mark(es, o, n, 0).value[k..k + 8] == es[k..k + 8]
  {
    MarkFirst(es, o);
    var r := MarkByte(es, o, 0).value;
    var j, e := FirstOnly(es, o);
    Behind(es, k, k);
    hide MarkInv, MarkByte, HeadsOk;
    var m := Mark(es, o, n, 0).value;
    forall i | 0 <= i < |es| && Outside(o, n, i) ensures m[i] == r[i] { LaterOnly(es, r, o, n, 1, i); }
    if !IsTail(TypeAt(es, k)) {
      assert !(j <= k < e);
      if IsPtr(TypeAt(es, k)) && (k + 8 <= o || o + n <= k) {
        forall i | k <= i < k + 8 ensures m[i] == es[i] {
          if k < j { Behind(es, k, j); }
          assert !(j <= i < e);
        }
      }
    }
  }

  /** In a store. */
  lemma SetKeeps(es: seq<Elem>, o: nat, n: nat, v: DynValue, k: nat)
    requires HeadsOk(es) && SetElements(es, o, n, v, false).Some? && k < |es| && Outside(o, n, k) && !InFront(es, o, k)
    ensures var r := SetElements(es, o, n, v, false).value;
            && (!IsTail(TypeAt(es, k)) ==> r[k] == es[k])
            && (IsPtr(TypeAt(es, k)) && (k + 8 <= o || o + n <= k) ==> k + 8 <= |es| && r[k..k + 8] == es[k..k + 8])
  {
    SetIsWritten(es, o, n, v);
    MarkKeeps(es, o, n, k);
    hide Mark, SetElements, HeadsOk;
  }

  // ---- reading ----

  /** A read of eight bytes from the head of a pointer on gives the pointer, one of immediates the number, and one of bytes
      of one plain type that type. */
  lemma GetWhole(es: seq<Elem>, o: nat, n: nat)
    requires 0 < n && o + n <= |es|
    ensures n == 8 && IsPtr(TypeAt(es, o)) ==>
              exists off: Word64 :: GetElements(es, o, n) == Some(Ptr(TypeAt(es, o), es[o].nr, off)) && Datas(es[o..o + 8]) == Bytes(off, 8)
    ensures (forall k | o <= k < o + n :: TypeAt(es, k) == Immediate) && ImmSize(n) ==>
              exists x: nat :: GetElements(es, o, n) == Some(Imm(x)) && Datas(es[o..o + n]) == Bytes(x, n) && x < Pow256(n)
    ensures forall t | t == Dead || t == Unknown || t == Tainted ::
              (forall k | o <= k < o + n :: TypeAt(es, k) == t) ==> GetElements(es, o, n) == Some(Plain(t))
  {
    hide Bytes, Word, Pow256, Scan, Conclude;
    if n == 8 && IsPtr(TypeAt(es, o)) {
      GetPointer(es, o);
    }
    if (forall k | o <= k < o + n :: TypeAt(es, k) == Immediate) && ImmSize(n) {
      GetNumber(es, o, n);
    }
    forall t | (t == Dead || t == Unknown || t == Tainted) && forall k | o <= k < o + n :: TypeAt(es, k) == t
      ensures GetElements(es, o, n) == Some(Plain(t))
    {
      GetPlain(es, o, n, t);
    }
  }

  lemma GetPointer(es: seq<Elem>, o: nat)
    requires o + 8 <= |es| && IsPtr(TypeAt(es, o))
    ensures exists off: Word64 :: GetElements(es, o, 8) == Some(Ptr(TypeAt(es, o), es[o].nr, off)) && Datas(es[o..o + 8]) == Bytes(off, 8)
  {
    var f := Seen(es, o, 0, NO_FLAGS);
    assert Scan(es, o, 8, 0, NO_FLAGS) == f by { ScanEnds(es, o, 8, 8, f); }
    hide Bytes, Word, Scan;
    BytesOfWord(Datas(es[o..o + 8]));
    assert GetElements(es, o, 8) == Some(Ptr(TypeAt(es, o), es[o].nr, Offset(es, o, 8)));
  }

  lemma ScanEnds(es: seq<Elem>, o: nat, n: nat, i: nat, f: Flags)
    requires o + n <= |es| && i >= n
    ensures Scan(es, o, n, i, f) == f
  {
  }

  /** Bytes of one type raise one flag. */
  function FlagsOf(t: DynType): Flags { NO_FLAGS.(imm := t == Immediate, dead := t == Dead, unknown := t == Unknown, tainted := t == Tainted) }

  lemma {:induction false} ScanUniform(es: seq<Elem>, o: nat, n: nat, i: nat, t: DynType)
    requires o + n <= |es| && i <= n && (t == Immediate || t == Dead || t == Unknown || t == Tainted)
    requires forall k | o <= k < o + n :: TypeAt(es, k) == t
    ensures Scan(es, o, n, i, if i == 0 then NO_FLAGS else FlagsOf(t)) == if n == 0 then NO_FLAGS else FlagsOf(t)
    decreases n - i
  {
    if i < n {
      assert TypeAt(es, o + i) == t;
      ScanUniform(es, o, n, i + 1, t);
    }
  }

  lemma GetNumber(es: seq<Elem>, o: nat, n: nat)
    requires 0 < n && o + n <= |es| && (forall k | o <= k < o + n :: TypeAt(es, k) == Immediate) && ImmSize(n)
    ensures exists x: nat :: GetElements(es, o, n) == Some(Imm(x)) && Datas(es[o..o + n]) == Bytes(x, n) && x < Pow256(n)
  {
    ScanUniform(es, o, n, 0, Immediate);
    hide Bytes, Word, Scan, Pow256;
    var bs := Datas(es[o..o + n]);
    BytesOfWord(bs);
    WordBounded(bs);
    assert GetElements(es, o, n) == Some(Imm(Word(bs)));
  }

  lemma GetPlain(es: seq<Elem>, o: nat, n: nat, t: DynType)
    requires 0 < n && o + n <= |es| && (t == Dead || t == Unknown || t == Tainted) && forall k | o <= k < o + n :: TypeAt(es, k) == t
    ensures GetElements(es, o, n) == Some(Plain(t))
  {
    ScanUniform(es, o, n, 0, t);
    hide Scan;
  }

  lemma SameOffset(x: Word64, y: Word64)
    requires Bytes(x, 8) == Bytes(y, 8)
    ensures x == y
  {
    PowEight();
    WordOfBytes(x, 8);
    WordOfBytes(y, 8);
    hide Bytes, Pow256;
  }

  lemma SameNumber(x: nat, y: nat, n: nat)
    requires Bytes(x, n) == Bytes(y, n) && x < Pow256(n)
    ensures x == y % Pow256(n)
  {
    WordOfBytes(x, n);
    WordOfBytes(y, n);
    hide Bytes, Pow256, Word;
  }

  /** What reading it back gives. */
  function Kept(v: DynValue, n: nat): DynValue { if v.Imm? then Imm(v.val % Pow256(n)) else v }

  lemma WrittenIsRead(es: seq<Elem>, r: seq<Elem>, o: nat, n: nat, v: DynValue)
    requires 0 < n && o + n <= |es| && Written(es, r, o, n, v) && Fits(v, n)
    ensures GetElements(r, o, n) == Some(Kept(v, n))
  {
    GetWhole(r, o, n);
    hide Bytes, Word, Pow256, GetElements, ImmSize;
    match v
    case Ptr(_, _, off) =>
      var x: Word64 :| GetElements(r, o, n) == Some(Ptr(TypeAt(r, o), r[o].nr, x)) && Datas(r[o..o + 8]) == Bytes(x, 8);
      SameOffset(x, off);
    case Imm(val) =>
      var x: nat :| GetElements(r, o, n) == Some(Imm(x)) && Datas(r[o..o + n]) == Bytes(x, n) && x < Pow256(n);
      SameNumber(x, val, n);
    case Plain(_) =>
  }

  /** A read fails exactly for a number of a size there is none of: an immediate, then immediates and tails. */
  lemma GetFailsIff(es: seq<Elem>, o: nat, n: nat)
    requires HeadsOk(es) && 0 < n && o + n <= |es|
    ensures GetElements(es, o, n).None? <==>
              !ImmSize(n) && TypeAt(es, o) == Immediate && forall k | o <= k < o + n :: TypeAt(es, k) == Immediate || TypeAt(es, k) == Tail
  {
    ScanMeaning(es, o, n, 0, NO_FLAGS);
    ScanPlainTail(es, o, n, 0, NO_FLAGS);
    var f := Scan(es, o, n, 0, NO_FLAGS);
    if HiddenTails(es, o, n) {
      ScanHidden(es, o, n, 0, NO_FLAGS);
    } else if forall k | o <= k < o + n :: TypeAt(es, k) == Immediate {
      ScanUniform(es, o, n, 0, Immediate);
    }
    hide Scan, Word, HeadsOk, ImmSize;
    if GetElements(es, o, n).None? {
      forall k | o <= k < o + n ensures TypeAt(es, k) == Immediate || TypeAt(es, k) == Tail { assert FlagFor(TypeAt(es, k), f); }
    }
  }

  /** What is stored is read back: a pointer with its offset, a number up to the size stored, a plain type. */
  lemma StoredIsRead(es: seq<Elem>, o: nat, n: nat, v: DynValue)
    requires SetElements(es, o, n, v, false).Some?
    ensures 0 < n && o + n <= |es|
    ensures GetElements(SetElements(es, o, n, v, false).value, o, n)
              == Some(match v case Imm(val) => Imm(val % Pow256(n)) case _ => v)
  {
    SetIsWritten(es, o, n, v);
    SetFits(es, o, n, v);
    hide SetElements, Mark, Written, GetElements, Pow256, Fits;
    WrittenIsRead(Mark(es, o, n, 0).value, SetElements(es, o, n, v, false).value, o, n, v);
  }

  lemma SetFits(es: seq<Elem>, o: nat, n: nat, v: DynValue)
    requires SetElements(es, o, n, v, false).Some?
    ensures Fits(v, n)
  {
  }

  // ---- moving ----

  /** An immediate, a dead byte or a complete pointer arrives as it is where the range has come from: the other array, or
      this one as marking left it. */
  lemma MoveArrives(src: seq<Elem>, dst: seq<Elem>, same: bool, o1: nat, o2: nat, n: nat, k: nat)
    requires k < n && o1 + n <= |src| && o2 + n <= |dst| && (same ==> src == dst) && HeadsOk(src) && HeadsOk(dst)
    requires Marks(same, o1, o2) && MoveElements(src, dst, same, o1, o2, n).Some?
    ensures Mark(dst, o2, n, 0).Some?
    ensures var from, r := Source(src, dst, same, o1, o2, n), MoveElements(src, dst, same, o1, o2, n).value;
            && |from| == |src|
            && (TypeAt(from, o1 + k) == Immediate || TypeAt(from, o1 + k) == Dead ==>
                  r[o2 + k].ty == from[o1 + k].ty && r[o2 + k].data == from[o1 + k].data)
            && (IsPtr(TypeAt(from, o1 + k)) && k + 8 <= n ==> r[o2 + k..o2 + k + 8] == from[o1 + k..o1 + k + 8])
  {
    MoveIsMoved(src, dst, same, o1, o2, n);
    hide Mark, MoveElements, Source, HeadsOk;
    var from, r := Source(src, dst, same, o1, o2, n), MoveElements(src, dst, same, o1, o2, n).value;
    assert MovedByte(from, r, o1, o2, n, k);
  }

  /** Outside the range a move keeps what marking it does. */
  lemma MoveKeeps(src: seq<Elem>, dst: seq<Elem>, same: bool, o1: nat, o2: nat, n: nat, k: nat)
    requires 0 < n && o1 + n <= |src| && o2 + n <= |dst| && (same ==> src == dst) && HeadsOk(src) && HeadsOk(dst)
    requires MoveElements(src, dst, same, o1, o2, n).Some? && k < |dst| && Outside(o2, n, k) && !InFront(dst, o2, k)
    ensures var r := MoveElements(src, dst, same, o1, o2, n).value;
            && (!IsTail(TypeAt(dst, k)) ==> r[k] == dst[k])
            && (IsPtr(TypeAt(dst, k)) && (k + 8 <= o2 || o2 + n <= k) ==> k + 8 <= |dst| && r[k..k + 8] == dst[k..k + 8])
  {
    Behind(dst, k, k);
    if Marks(same, o1, o2) {
      MoveIsMoved(src, dst, same, o1, o2, n);
      MarkKeeps(dst, o2, n, k);
      hide Mark, MoveElements, HeadsOk, Source;
    }
  }
}

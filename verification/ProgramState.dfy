/** The byte domain of the stack analysis: every byte of a register or of the stack carries a type,
    and a pointer takes a head byte and seven tails. */
module ProgramState {

  datatype Option<+T> = None | Some(value: T)

  type Byte = b: int | 0 <= b < 256
  type Word64 = w: int | 0 <= w < 0x1_0000_0000_0000_0000

  datatype DynType = Dead | Unknown | Tainted | Immediate | StackPtr | UsrPtr | ReturnPtr | Tail | StackPtrTail

  datatype Elem = Elem(ty: DynType, nr: int, data: Byte)

  predicate IsPtr(t: DynType) { t == StackPtr || t == UsrPtr || t == ReturnPtr }
  predicate IsTail(t: DynType) { t == Tail || t == StackPtrTail }
  predicate StackDerived(t: DynType) { t == StackPtr || t == StackPtrTail || t == Tainted }

  function TailOf(t: DynType): DynType { if t == StackPtr then StackPtrTail else Tail }

  /** A value going in or out. A pointer offset is a 64-bit two's complement number, taken as an
      unsigned word; an immediate has up to 128 bits. */
  datatype DynValue = Plain(ty: DynType) | Imm(val: nat) | Ptr(ty: DynType, nr: int, offset: Word64)

  // ---- little-endian words ----

  function Pow256(n: nat): (p: nat)
    ensures p > 0
  {
    if n == 0 then 1 else 256 * Pow256(n - 1)
  }

  function Word(bs: seq<Byte>): nat {
    if bs == [] then 0 else bs[0] + 256 * Word(bs[1..])
  }

  function Bytes(v: nat, n: nat): (bs: seq<Byte>)
    ensures |bs| == n
  {
    if n == 0 then [] else [v % 256] + Bytes(v / 256, n - 1)
  }

  lemma {:induction false} WordOfBytes(v: nat, n: nat)
    ensures Word(Bytes(v, n)) == v % Pow256(n)
  {
    if n > 0 {
      WordOfBytes(v / 256, n - 1);
      var p := Pow256(n - 1);
      assert Bytes(v, n)[1..] == Bytes(v / 256, n - 1);
      ModStep(v, p);
    }
  }

  lemma ModStep(v: nat, p: nat)
    requires p > 0
    ensures v % 256 + 256 * (v / 256 % p) == v % (256 * p)
  {
    var q, r := v / 256 / p, v / 256 % p;
    assert v == 256 * (v / 256) + v % 256 && v / 256 == p * q + r;
    assert v == (256 * p) * q + (256 * r + v % 256) by {
      assert 256 * (p * q) == (256 * p) * q;
    }
    assert 0 <= 256 * r + v % 256 < 256 * p;
    DivUnique(v, 256 * p, q, 256 * r + v % 256);
  }

  lemma DivUnique(v: nat, m: nat, q: nat, r: nat)
    requires m > 0 && v == m * q + r && r < m
    ensures v % m == r
  {
    var q' := v / m;
    assert v == m * q' + v % m;
    if q' > q {
      MulStep(m, q, q');
      assert false;
    } else if q' < q {
      MulStep(m, q', q);
      assert false;
    }
  }

  lemma MulStep(m: nat, a: nat, b: nat)
    requires a < b
    ensures m * a + m <= m * b
  {
    var d := b - a - 1;
    assert b == a + (1 + d) && m * d >= 0;
    assert m * b == m * a + m * (1 + d) && m * (1 + d) == m + m * d;
  }

  lemma {:induction false} WordBounded(bs: seq<Byte>)
    ensures Word(bs) < Pow256(|bs|)
  {
    if bs != [] {
      WordBounded(bs[1..]);
    }
  }

  // ---- what the metadata may look like ----

  function TypeAt(es: seq<Elem>, i: int): DynType
    requires 0 <= i < |es|
  {
    es[i].ty
  }

  /** Every pointer head is followed by its seven tails. */
  predicate HeadsOk(es: seq<Elem>) {
    forall i | 0 <= i < |es| && IsPtr(TypeAt(es, i)) :: HeadAt(es, i)
  }

  predicate HeadAt(es: seq<Elem>, i: int)
    requires 0 <= i < |es|
  {
    && IsPtr(TypeAt(es, i)) && i + 8 <= |es|
    && forall j | i < j < i + 8 :: TypeAt(es, j) == TailOf(TypeAt(es, i))
  }

  /** Every tail belongs to a head. */
  ghost predicate TailsOk(es: seq<Elem>) {
    forall i | 0 <= i < |es| && IsTail(TypeAt(es, i)) :: TailAt(es, i)
  }

  ghost predicate TailAt(es: seq<Elem>, i: int)
    requires 0 <= i < |es|
  {
    exists h :: Owns(es, h, i)
  }

  /** The pointer with head h covers byte i as a tail. */
  ghost predicate Owns(es: seq<Elem>, h: int, i: int) {
    0 <= h < i < h + 8 <= |es| && IsPtr(TypeAt(es, h)) && TypeAt(es, i) == TailOf(TypeAt(es, h))
  }

  ghost predicate WellFormed(es: seq<Elem>) {
    HeadsOk(es) && TailsOk(es)
  }

  // ---- what the metadata means ----

  /** A concrete byte, and whether it was derived from the stack pointer. */
  datatype CByte = CByte(val: Byte, taint: bool)

  /** Where the pointers point to: base address per pointer kind and number. */
  type Env = (DynType, int) -> nat

  function Vals(cs: seq<CByte>): (bs: seq<Byte>)
    ensures |bs| == |cs|
    ensures forall i | 0 <= i < |cs| :: bs[i] == cs[i].val
  {
    seq(|cs|, i requires 0 <= i < |cs| => cs[i].val)
  }

  function Datas(es: seq<Elem>): (bs: seq<Byte>)
    ensures |bs| == |es|
    ensures forall i | 0 <= i < |es| :: bs[i] == es[i].data
  {
    seq(|es|, i requires 0 <= i < |es| => es[i].data)
  }

  function PtrBytes(env: Env, ty: DynType, nr: int, offset: nat): seq<Byte> {
    Bytes(env(ty, nr) + offset, 8)
  }

  ghost predicate ByteDescribed(es: seq<Elem>, cs: seq<CByte>, env: Env, i: int)
    requires 0 <= i < |es| == |cs|
  {
    && (TypeAt(es, i) == Immediate ==> cs[i].val == es[i].data)
    && (cs[i].taint ==> StackDerived(TypeAt(es, i)))
    && (IsPtr(TypeAt(es, i)) && i + 8 <= |es| ==>
          Vals(cs[i..i + 8]) == PtrBytes(env, TypeAt(es, i), es[i].nr, Word(Datas(es[i..i + 8]))))
  }

  /** The concrete bytes are among those the elements stand for. */
  ghost predicate Describes(es: seq<Elem>, cs: seq<CByte>, env: Env) {
    |es| == |cs| && forall i | 0 <= i < |es| :: ByteDescribed(es, cs, env, i)
  }

  /** The concrete bytes are among those the value stands for. */
  ghost predicate ValueDescribes(v: DynValue, cs: seq<CByte>, env: Env) {
    match v
    case Imm(x) => Vals(cs) == Bytes(x, |cs|) && Untainted(cs)
    case Ptr(ty, nr, off) =>
      |cs| == 8 && Vals(cs) == PtrBytes(env, ty, nr, off) && (ty != StackPtr ==> Untainted(cs))
    case Plain(ty) => ty != Tainted ==> Untainted(cs)
  }

  ghost predicate Untainted(cs: seq<CByte>) {
    forall i | 0 <= i < |cs| :: !cs[i].taint
  }

  // ---- markUnknown and clearTail ----

  function Retype(es: seq<Elem>, i: int, t: DynType): seq<Elem>
    requires 0 <= i < |es|
  {
    es[i := es[i].(ty := t)]
  }

  function Loosened(t: DynType): DynType {
    if t == StackPtr || t == StackPtrTail then Tainted else Unknown
  }

  /** Tails from index i on lose their pointer, up to the first byte that is not a tail. */
  function ClearRun(es: seq<Elem>, i: nat): (r: seq<Elem>)
    ensures |r| == |es|
    decreases |es| - i
  {
    if i < |es| && IsTail(es[i].ty) then ClearRun(Retype(es, i, Loosened(es[i].ty)), i + 1) else es
  }

  function ClearTail(es: seq<Elem>, i: nat): (r: seq<Elem>)
    requires i < |es|
    ensures |r| == |es|
  {
    ClearRun(Retype(es, i, if es[i].ty == StackPtr then Tainted else Unknown), i + 1)
  }

  /** The last byte at or before i that is not a tail; none if there are only tails. */
  function Backward(es: seq<Elem>, i: int): (r: Option<nat>)
    requires i < |es|
    ensures r.Some? ==> r.value <= i
    decreases i + 1
  {
    if i < 0 then None else if IsTail(es[i].ty) then Backward(es, i - 1) else Some(i)
  }

  /** One byte of the range. A tail is only expected as the first one. For a pointer head the
      source clears from the start of the range, not from the head. None is a thrown error. */
  function MarkByte(es: seq<Elem>, o: nat, i: nat): (r: Option<seq<Elem>>)
    requires o + i < |es|
    ensures r.Some? ==> |r.value| == |es|
  {
    match es[o + i].ty
    case Dead => Some(Retype(es, o + i, Unknown))
    case Immediate => Some(Retype(es, o + i, Unknown))
    case Tail => if i == 0 then MarkOwner(es, o) else None
    case StackPtrTail => if i == 0 then MarkOwner(es, o) else None
    case Tainted => Some(es)
    case Unknown => Some(es)
    case _ => Some(ClearTail(es, o))
  }

  function MarkOwner(es: seq<Elem>, o: nat): (r: Option<seq<Elem>>)
    requires o < |es|
    ensures r.Some? ==> |r.value| == |es|
  {
    match Backward(es, o - 1)
    case None => None
    case Some(h) => Some(ClearTail(es, h))
  }

  function Mark(es: seq<Elem>, o: nat, n: nat, i: nat): (r: Option<seq<Elem>>)
    requires i <= n && o + n <= |es|
    ensures r.Some? ==> |r.value| == |es|
    decreases n - i
  {
    if i == n then Some(es)
    else match MarkByte(es, o, i)
      case None => None
      case Some(es') => Mark(es', o, n, i + 1)
  }

  lemma {:induction false} ClearRunIs(es: seq<Elem>, i: nat, e: nat)
    requires i <= e <= |es| && (e == |es| || !IsTail(TypeAt(es, e)))
    requires forall k | i <= k < e :: IsTail(TypeAt(es, k))
    ensures forall k | 0 <= k < |es| ::
              ClearRun(es, i)[k] == if i <= k < e then es[k].(ty := Loosened(es[k].ty)) else es[k]
    decreases e - i
  {
    if i < e {
      assert IsTail(TypeAt(es, i));
      var es' := Retype(es, i, Loosened(es[i].ty));
      forall k | i + 1 <= k < e ensures IsTail(TypeAt(es', k)) {
        assert IsTail(TypeAt(es, k));
      }
      ClearRunIs(es', i + 1, e);
    }
  }

  /** The first byte from i on that is not a tail. */
  lemma {:induction false} TailEnd(es: seq<Elem>, i: nat) returns (e: nat)
    requires i <= |es|
    ensures i <= e <= |es| && (e == |es| || !IsTail(TypeAt(es, e)))
    ensures forall k | i <= k < e :: IsTail(TypeAt(es, k))
    decreases |es| - i
  {
    e := i;
    if i < |es| && IsTail(TypeAt(es, i)) {
      e := TailEnd(es, i + 1);
      forall k | i <= k < e ensures IsTail(TypeAt(es, k)) {
        assert k == i || i + 1 <= k;
      }
    }
  }

  /** Byte j, which is no tail, and the tails right behind it, up to byte e, lose their pointer. */
  ghost predicate Cleared(es: seq<Elem>, es': seq<Elem>, j: nat, e: nat) {
    && j < e <= |es| == |es'| && !IsTail(TypeAt(es, j)) && (e == |es| || !IsTail(TypeAt(es, e)))
    && (forall k | j < k < e :: IsTail(TypeAt(es, k)))
    && (forall k | 0 <= k < |es| ::
          es'[k] == if k == j then es[k].(ty := if TypeAt(es, j) == StackPtr then Tainted else Unknown)
                    else if j < k < e then es[k].(ty := Loosened(es[k].ty)) else es[k])
  }

  lemma ClearTailIs(es: seq<Elem>, j: nat) returns (e: nat)
    requires j < |es| && !IsTail(TypeAt(es, j))
    ensures Cleared(es, ClearTail(es, j), j, e)
  {
    var es1 := Retype(es, j, if es[j].ty == StackPtr then Tainted else Unknown);
    e := TailEnd(es1, j + 1);
    ClearRunIs(es1, j + 1, e);
    assert e < |es| ==> TypeAt(es1, e) == TypeAt(es, e);
    forall k | j < k < e ensures IsTail(TypeAt(es, k)) {
      assert IsTail(TypeAt(es1, k));
    }
  }

  /** The bytes behind a head are its tails. */
  lemma Behind(es: seq<Elem>, h: int, k: int)
    requires HeadsOk(es) && 0 <= h < |es| && 0 <= k < |es|
    ensures IsPtr(TypeAt(es, h)) && h < k < h + 8 ==> TypeAt(es, k) == TailOf(TypeAt(es, h))
    ensures IsPtr(TypeAt(es, h)) ==> h + 8 <= |es|
  {
    assert IsPtr(TypeAt(es, h)) ==> HeadAt(es, h);
  }

  lemma NoTailBehind(es: seq<Elem>, h: nat)
    requires WellFormed(es) && h < |es| && IsPtr(TypeAt(es, h)) && h + 8 < |es|
    ensures !IsTail(TypeAt(es, h + 8))
  {
    var k := h + 8;
    forall g | 0 <= g < |es| ensures !Owns(es, g, k) {
      Behind(es, h, g);
    }
    assert !TailAt(es, k);
  }

  lemma RunByte(es: seq<Elem>, es': seq<Elem>, j: nat, e: nat, k: int)
    requires Cleared(es, es', j, e) && 0 <= k < |es|
    ensures j < k < e ==> IsTail(TypeAt(es, k))
  {
  }

  lemma ClearedHeads(es: seq<Elem>, es': seq<Elem>, j: nat, e: nat)
    requires HeadsOk(es) && Cleared(es, es', j, e)
    ensures HeadsOk(es')
  {
    forall i | 0 <= i < |es'| && IsPtr(TypeAt(es', i)) ensures HeadAt(es', i) {
      assert HeadAt(es, i);
      forall k | i < k < i + 8 ensures TypeAt(es', k) == TailOf(TypeAt(es', i)) {
        Behind(es, i, k);
        Behind(es, i, j);
        RunByte(es, es', j, e, i);
      }
    }
  }

  lemma ClearedTails(es: seq<Elem>, es': seq<Elem>, j: nat, e: nat)
    requires WellFormed(es) && Cleared(es, es', j, e)
    ensures TailsOk(es')
  {
    forall k | 0 <= k < |es'| && IsTail(TypeAt(es', k)) ensures TailAt(es', k) {
      assert TailAt(es, k);
      var h :| Owns(es, h, k);
      RunByte(es, es', j, e, h);
      if h == j && e < |es| { Behind(es, j, e); }
      assert Owns(es', h, k);
    }
  }

  /** Marking that begins with a tail looks for its head among the bytes in front. If the first one that is no tail
      is a tainted byte, that byte becomes Unknown. */
  predicate TaintLost(es: seq<Elem>, o: nat)
    requires o < |es|
  {
    IsTail(es[o].ty) && Backward(es, o - 1).Some? && es[Backward(es, o - 1).value].ty == Tainted
  }

  function LostAt(es: seq<Elem>, o: nat): int
    requires o < |es|
  {
    if TaintLost(es, o) then Backward(es, o - 1).value else -1
  }

  /** Types may have become weaker, data and pointer numbers have not changed, and exactly the same bytes are
      stack-derived, but for the byte lost. */
  ghost predicate WeakenedByte(es: seq<Elem>, es': seq<Elem>, k: nat, lost: int)
    requires k < |es| == |es'|
  {
    && es'[k].nr == es[k].nr && es'[k].data == es[k].data
    && (TypeAt(es', k) == TypeAt(es, k) || TypeAt(es', k) == Unknown || TypeAt(es', k) == Tainted)
    && (StackDerived(TypeAt(es', k)) <==> StackDerived(TypeAt(es, k)) && k != lost)
  }

  ghost predicate Weakened(es: seq<Elem>, es': seq<Elem>, lost: int) {
    |es'| == |es| && forall k | 0 <= k < |es| :: WeakenedByte(es, es', k, lost)
  }

  ghost predicate Neutral(es: seq<Elem>, o: nat, n: nat)
    requires o + n <= |es|
  {
    forall k | o <= k < o + n :: TypeAt(es, k) == Unknown || TypeAt(es, k) == Tainted
  }

  lemma ClearedWeakens(es: seq<Elem>, es': seq<Elem>, j: nat, e: nat)
    requires Cleared(es, es', j, e)
    ensures Weakened(es, es', if TypeAt(es, j) == Tainted then j else -1)
  {
    var lost := if TypeAt(es, j) == Tainted then j else -1;
    forall k | 0 <= k < |es| ensures WeakenedByte(es, es', k, lost) {
      RunByte(es, es', j, e, k);
    }
  }

  lemma {:induction false} BackwardIs(es: seq<Elem>, i: int)
    requires -1 <= i < |es|
    ensures match Backward(es, i)
            case None => forall k | 0 <= k <= i :: IsTail(TypeAt(es, k))
            case Some(j) => !IsTail(TypeAt(es, j)) && forall k | j < k <= i :: IsTail(TypeAt(es, k))
    decreases i + 1
  {
    if i >= 0 && IsTail(es[i].ty) {
      BackwardIs(es, i - 1);
      assert IsTail(TypeAt(es, i));
    }
  }

  /** Byte k follows o in one run of tails, all of them cleared along with what o belongs to. */
  ghost predicate Attached(es: seq<Elem>, o: nat, k: nat)
    requires o < k < |es|
  {
    (IsPtr(TypeAt(es, o)) || IsTail(TypeAt(es, o))) && forall j | o < j <= k :: IsTail(TypeAt(es, j))
  }

  /** After i bytes of the range. */
  ghost predicate MarkInv(es0: seq<Elem>, es: seq<Elem>, o: nat, i: nat)
    requires 0 < i && o + i <= |es|
  {
    && |es0| == |es| && HeadsOk(es) && Weakened(es0, es, LostAt(es0, o)) && Neutral(es, o, i)
    && forall k | 0 <= k < |es| && IsPtr(TypeAt(es0, k)) && o < k :: TypeAt(es, k) == TypeAt(es0, k)
  }

  /** What the first byte does: it fails if there is no head for a tail; a pointer, and the tails right behind what
      is cleared, go as a whole. */
  lemma MarkFirst(es: seq<Elem>, o: nat)
    requires HeadsOk(es) && o < |es|
    ensures MarkByte(es, o, 0).None? <==> IsTail(TypeAt(es, o)) && Backward(es, o - 1).None?
    ensures MarkByte(es, o, 0).Some? ==>
              var r := MarkByte(es, o, 0).value;
              && MarkInv(es, r, o, 1) && (TailsOk(es) ==> TailsOk(r))
              && forall k | o < k < |es| :: IsTail(TypeAt(r, k)) <==> IsTail(TypeAt(es, k)) && !Attached(es, o, k)
  {
    hide MarkInv, TailsOk;
    var t := TypeAt(es, o);
    if IsTail(t) {
      BackwardIs(es, o - 1);
      if Backward(es, o - 1).Some? { MarkCleared(es, Backward(es, o - 1).value, o); }
    } else if IsPtr(t) {
      MarkCleared(es, o, o);
    } else {
      MarkPlain(es, o);
    }
  }

  lemma MarkCleared(es: seq<Elem>, j: nat, o: nat)
    requires HeadsOk(es) && j <= o < |es| && !IsTail(TypeAt(es, j)) && (forall k | j < k <= o :: IsTail(TypeAt(es, k)))
    requires j == o ==> IsPtr(TypeAt(es, o))
    requires j < o ==> Backward(es, o - 1) == Some(j)
    ensures MarkInv(es, ClearTail(es, j), o, 1) && (TailsOk(es) ==> TailsOk(ClearTail(es, j)))
    ensures forall k | o < k < |es| :: IsTail(TypeAt(ClearTail(es, j), k)) <==> IsTail(TypeAt(es, k)) && !Attached(es, o, k)
  {
    var e := ClearTailIs(es, j);
    var r := ClearTail(es, j);
    hide ClearTail, HeadsOk, TailsOk, Cleared, Weakened, Attached;
    ClearedReaches(es, r, j, e, o);
    ClearedHeads(es, r, j, e);
    ClearedWeakens(es, r, j, e);
    if TailsOk(es) { ClearedTails(es, r, j, e); }
    ClearedTypes(es, r, j, e, o);
  }

  lemma ClearedReaches(es: seq<Elem>, r: seq<Elem>, j: nat, e: nat, o: nat)
    requires Cleared(es, r, j, e) && j <= o < |es| && (forall k | j < k <= o :: IsTail(TypeAt(es, k)))
    requires j == o ==> IsPtr(TypeAt(es, o))
    ensures o < e && (TypeAt(r, o) == Unknown || TypeAt(r, o) == Tainted)
  {
    var k := if e <= o then e else j;
    TailsAt(es, j, o, k);
  }

  lemma TailsAt(es: seq<Elem>, lo: nat, hi: nat, k: nat)
    requires hi < |es| && k < |es| && forall i | lo < i <= hi :: IsTail(TypeAt(es, i))
    ensures lo < k <= hi ==> IsTail(TypeAt(es, k))
  {
  }

  lemma ClearedTypes(es: seq<Elem>, r: seq<Elem>, j: nat, e: nat, o: nat)
    requires Cleared(es, r, j, e) && j <= o < e && (forall k | j < k <= o :: IsTail(TypeAt(es, k)))
    requires j == o ==> IsPtr(TypeAt(es, o))
    ensures forall k | 0 <= k < |es| && IsPtr(TypeAt(es, k)) && o < k :: TypeAt(r, k) == TypeAt(es, k)
    ensures forall k | o < k < |es| :: IsTail(TypeAt(r, k)) <==> IsTail(TypeAt(es, k)) && !Attached(es, o, k)
  {
    forall k | 0 <= k < |es| && IsPtr(TypeAt(es, k)) && o < k ensures TypeAt(r, k) == TypeAt(es, k) {
      RunByte(es, r, j, e, k);
    }
    forall k | o < k < |es| ensures IsTail(TypeAt(r, k)) <==> IsTail(TypeAt(es, k)) && !Attached(es, o, k) {
      AttachedIff(es, r, j, e, o, k);
    }
  }

  lemma AttachedIff(es: seq<Elem>, r: seq<Elem>, j: nat, e: nat, o: nat, k: nat)
    requires Cleared(es, r, j, e) && j <= o < e && o < k < |es| && (forall i | j < i <= o :: IsTail(TypeAt(es, i)))
    requires j == o ==> IsPtr(TypeAt(es, o))
    ensures Attached(es, o, k) <==> k < e
    ensures IsTail(TypeAt(r, k)) <==> IsTail(TypeAt(es, k)) && k >= e
  {
    assert j < o ==> IsTail(TypeAt(es, o));
    if k < e {
      assert forall i | o < i <= k :: IsTail(TypeAt(es, i));
    } else {
      assert !IsTail(TypeAt(es, e));
    }
  }

  lemma RetypePlain(es: seq<Elem>, k: nat)
    requires HeadsOk(es) && k < |es| && !IsPtr(TypeAt(es, k)) && !IsTail(TypeAt(es, k))
    ensures HeadsOk(Retype(es, k, Unknown)) && (TailsOk(es) ==> TailsOk(Retype(es, k, Unknown)))
  {
    var es' := Retype(es, k, Unknown);
    forall i | 0 <= i < |es'| && IsPtr(TypeAt(es', i)) ensures HeadAt(es', i) {
      assert HeadAt(es, i);
      forall j | i < j < i + 8 ensures TypeAt(es', j) == TailOf(TypeAt(es', i)) {
        Behind(es, i, j);
      }
    }
    if TailsOk(es) {
      forall i | 0 <= i < |es'| && IsTail(TypeAt(es', i)) ensures TailAt(es', i) {
        assert TailAt(es, i);
        var g :| Owns(es, g, i);
        assert Owns(es', g, i);
      }
    }
  }

  lemma MarkPlain(es: seq<Elem>, o: nat)
    requires HeadsOk(es) && o < |es| && !IsPtr(TypeAt(es, o)) && !IsTail(TypeAt(es, o))
    ensures MarkByte(es, o, 0).Some?
    ensures var r := MarkByte(es, o, 0).value;
            && MarkInv(es, r, o, 1) && (TailsOk(es) ==> TailsOk(r))
            && forall k | o < k < |es| :: IsTail(TypeAt(r, k)) <==> IsTail(TypeAt(es, k)) && !Attached(es, o, k)
  {
    RetypePlain(es, o);
    hide HeadsOk, TailsOk;
  }

  /** A byte behind the first one: an error for a tail; for a head only the first byte becomes Unknown. */
  lemma MarkLater(es0: seq<Elem>, es: seq<Elem>, o: nat, i: nat)
    requires 0 < i && o + i < |es| && MarkInv(es0, es, o, i)
    ensures MarkByte(es, o, i).None? <==> IsTail(TypeAt(es, o + i))
    ensures IsPtr(TypeAt(es, o + i)) ==> MarkByte(es, o, i) == Some(Retype(es, o, Unknown))
    ensures !IsTail(TypeAt(es, o + i)) && !IsPtr(TypeAt(es, o + i)) ==>
              var r := MarkByte(es, o, i).value;
              && MarkInv(es0, r, o, i + 1) && (TailsOk(es) ==> TailsOk(r))
              && forall k | 0 <= k < |es| && k != o + i :: r[k] == es[k]
  {
    var t := TypeAt(es, o + i);
    if IsPtr(t) {
      assert TypeAt(es, o) == Unknown || TypeAt(es, o) == Tainted;
      var es1 := Retype(es, o, Unknown);
      assert !IsTail(TypeAt(es1, o + 1)) by {
        assert o + 1 < o + i ==> TypeAt(es, o + 1) == Unknown || TypeAt(es, o + 1) == Tainted;
      }
    } else if !IsTail(t) {
      MarkLaterPlain(es0, es, o, i);
    }
  }

  lemma MarkLaterPlain(es0: seq<Elem>, es: seq<Elem>, o: nat, i: nat)
    requires 0 < i && o + i < |es| && MarkInv(es0, es, o, i) && !IsTail(TypeAt(es, o + i)) && !IsPtr(TypeAt(es, o + i))
    ensures MarkByte(es, o, i).Some?
    ensures var r := MarkByte(es, o, i).value;
            && MarkInv(es0, r, o, i + 1) && (TailsOk(es) ==> TailsOk(r))
            && forall k | 0 <= k < |es| && k != o + i :: r[k] == es[k]
  {
    RetypePlain(es, o + i);
    var r := MarkByte(es, o, i).value;
    hide HeadsOk, TailsOk;
    assert r == es || r == Retype(es, o + i, Unknown);
    forall k | 0 <= k < |es| ensures WeakenedByte(es0, r, k, LostAt(es0, o)) {
      assert WeakenedByte(es0, es, k, LostAt(es0, o));
    }
    hide MarkByte;
    forall k | o <= k < o + (i + 1) ensures TypeAt(r, k) == Unknown || TypeAt(r, k) == Tainted {
      assert k < o + i ==> TypeAt(es, k) == Unknown || TypeAt(es, k) == Tainted;
    }
  }

  /** A tail in the range, other than those cleared along with the first byte, is an error; and so is a first byte that
      is a tail with no head in front. */
  ghost predicate MarkThrows(es: seq<Elem>, o: nat, n: nat)
    requires 0 < n && o + n <= |es|
  {
    || (IsTail(TypeAt(es, o)) && Backward(es, o - 1).None?)
    || exists k :: o < k < o + n && IsTail(TypeAt(es, k)) && !Attached(es, o, k)
  }

  predicate LastIsHead(es: seq<Elem>, o: nat, n: nat)
    requires o + n <= |es|
  {
    n > 1 && IsPtr(TypeAt(es, o + n - 1))
  }

  /** What marking a range leaves: no pointer reaches into it from outside, and of the bytes other than its first only
      the byte lost says something else than before or less. A head in the range can only be its last byte. */
  ghost predicate Marked(es0: seq<Elem>, es: seq<Elem>, o: nat, n: nat)
    requires 0 < n && o + n <= |es0|
  {
    && |es| == |es0| && HeadsOk(es)
    && (forall k | 0 <= k < |es| && k != o :: WeakenedByte(es0, es, k, LostAt(es0, o)))
    && (forall h | 0 <= h < o && IsPtr(TypeAt(es, h)) :: h + 8 <= o)
    && (forall k | o <= k < o + n && IsPtr(TypeAt(es, k)) :: k == o + n - 1 && LastIsHead(es0, o, n))
    && (forall k | o <= k < o + n :: !IsTail(TypeAt(es, k)))
    && (LastIsHead(es0, o, n) ==> TypeAt(es, o + n - 1) == TypeAt(es0, o + n - 1))
  }

  predicate TailIn(es: seq<Elem>, lo: nat, hi: nat)
    requires hi <= |es|
  {
    exists k :: lo <= k < hi && IsTail(TypeAt(es, k))
  }

  lemma {:induction false} MarkRuns(es0: seq<Elem>, es: seq<Elem>, o: nat, n: nat, i: nat)
    requires 0 < i <= n && o + n <= |es| && MarkInv(es0, es, o, i)
    requires forall k | o < k < o + i :: !IsPtr(TypeAt(es0, k))
    ensures Mark(es, o, n, i).None? <==> TailIn(es, o + i, o + n)
    ensures Mark(es, o, n, i).Some? ==> Marked(es0, Mark(es, o, n, i).value, o, n)
    ensures Mark(es, o, n, i).Some? && TailsOk(es) && !LastIsHead(es0, o, n) ==> TailsOk(Mark(es, o, n, i).value)
    decreases n - i
  {
    hide TailsOk;
    if i == n {
      hide Mark;
      MarkEnds(es0, es, o, n);
      assert Mark(es, o, n, i) == Some(es) by { MarkDone(es, o, n); }
    } else {
      MarkLater(es0, es, o, i);
      hide MarkInv, Marked, MarkByte;
      if IsTail(TypeAt(es, o + i)) {
      } else if IsPtr(TypeAt(es, o + i)) {
        MarkMeetsHead(es0, es, o, n, i);
      } else {
        var r := MarkByte(es, o, i).value;
        SameType(es0, es, o, i);
        MarkRuns(es0, r, o, n, i + 1);
        TailInSame(es, r, o, n, i);
      }
    }
  }

  lemma MarkDone(es: seq<Elem>, o: nat, n: nat)
    requires o + n <= |es|
    ensures Mark(es, o, n, n) == Some(es)
  {
  }

  lemma TailInSame(es: seq<Elem>, r: seq<Elem>, o: nat, n: nat, i: nat)
    requires i < n && o + n <= |es| == |r| && !IsTail(TypeAt(es, o + i)) && forall k | 0 <= k < |es| && k != o + i :: r[k] == es[k]
    ensures TailIn(es, o + i, o + n) <==> TailIn(r, o + i + 1, o + n)
  {
    forall k | o + i + 1 <= k < o + n ensures TypeAt(r, k) == TypeAt(es, k) { }
  }

  lemma SameType(es0: seq<Elem>, es: seq<Elem>, o: nat, i: nat)
    requires 0 < i && o + i < |es| && MarkInv(es0, es, o, i)
    ensures IsPtr(TypeAt(es0, o + i)) <==> IsPtr(TypeAt(es, o + i))
  {
    assert WeakenedByte(es0, es, o + i, LostAt(es0, o));
  }

  lemma MarkEnds(es0: seq<Elem>, es: seq<Elem>, o: nat, n: nat)
    requires 0 < n && o + n <= |es| && MarkInv(es0, es, o, n)
    requires forall k | o < k < o + n :: !IsPtr(TypeAt(es0, k))
    ensures Marked(es0, es, o, n)
  {
    assert TypeAt(es, o) == Unknown || TypeAt(es, o) == Tainted;
    forall h | 0 <= h < o && IsPtr(TypeAt(es, h)) ensures h + 8 <= o { Behind(es, h, o); }
  }

  /** A head behind the first byte: an error unless the range ends there. */
  lemma MarkMeetsHead(es0: seq<Elem>, es: seq<Elem>, o: nat, n: nat, i: nat)
    requires 0 < i < n && o + n <= |es| && MarkInv(es0, es, o, i) && IsPtr(TypeAt(es, o + i))
    ensures IsPtr(TypeAt(es0, o + i))
    ensures Mark(es, o, n, i).None? <==> i < n - 1
    ensures i < n - 1 ==> TailIn(es, o + i, o + n)
    ensures i == n - 1 ==> !TailIn(es, o + i, o + n) && LastIsHead(es0, o, n) && Marked(es0, Mark(es, o, n, i).value, o, n)
  {
    MarkLater(es0, es, o, i);
    SameType(es0, es, o, i);
    var es1 := Retype(es, o, Unknown);
    if i < n - 1 {
      Behind(es, o + i, o + i + 1);
      assert MarkByte(es1, o, i + 1) == None;
      assert Mark(es1, o, n, i + 1) == None;
      assert IsTail(TypeAt(es, o + i + 1));
    } else {
      assert Mark(es1, o, n, n) == Some(es1);
      hide Mark, MarkByte;
      MarkFoundLast(es0, es, o, n);
    }
  }

  lemma NeutralAt(es: seq<Elem>, o: nat, n: nat, k: nat)
    requires o + n <= |es| && Neutral(es, o, n) && o <= k < |es|
    ensures k < o + n ==> TypeAt(es, k) == Unknown || TypeAt(es, k) == Tainted
  {
  }

  lemma MarkFoundLast(es0: seq<Elem>, es: seq<Elem>, o: nat, n: nat)
    requires 1 < n && o + n <= |es| && MarkInv(es0, es, o, n - 1) && IsPtr(TypeAt(es0, o + n - 1))
    ensures Marked(es0, Retype(es, o, Unknown), o, n)
  {
    var es1 := Retype(es, o, Unknown);
    assert TypeAt(es, o) == Unknown || TypeAt(es, o) == Tainted;
    RetypePlain(es, o);
    forall h | 0 <= h < o && IsPtr(TypeAt(es1, h)) ensures h + 8 <= o { Behind(es, h, o); }
    forall k | o <= k < o + n && IsPtr(TypeAt(es1, k)) ensures k == o + n - 1 {
      NeutralAt(es, o, n - 1, k);
    }
    forall k | o <= k < o + n ensures !IsTail(TypeAt(es1, k)) { NeutralAt(es, o, n - 1, k); }
    forall k | 0 <= k < |es| && k != o ensures WeakenedByte(es0, es1, k, LostAt(es0, o)) {
      assert WeakenedByte(es0, es, k, LostAt(es0, o));
    }
  }

  /** Exactly when marking a range throws, and what it leaves if not: every head keeps its tails. */
  lemma MarkMeaning(es: seq<Elem>, o: nat, n: nat)
    requires HeadsOk(es) && 0 < n && o + n <= |es|
    ensures Mark(es, o, n, 0).None? <==> MarkThrows(es, o, n)
    ensures Mark(es, o, n, 0).Some? ==> Marked(es, Mark(es, o, n, 0).value, o, n)
    ensures Mark(es, o, n, 0).Some? && TailsOk(es) && !LastIsHead(es, o, n) ==> TailsOk(Mark(es, o, n, 0).value)
  {
    hide HeadsOk, TailsOk, MarkInv, Marked, MarkByte, Attached;
    MarkFirst(es, o);
    if MarkByte(es, o, 0).Some? {
      var r := MarkByte(es, o, 0).value;
      MarkRuns(es, r, o, n, 1);
      assert TailIn(r, o + 1, o + n) <==> exists k :: o < k < o + n && IsTail(TypeAt(es, k)) && !Attached(es, o, k);
    }
  }

  /** A head strictly inside the range. */
  ghost predicate HeadInside(es: seq<Elem>, o: nat, n: nat)
    requires o + n <= |es|
  {
    exists k :: o < k < o + n - 1 && IsPtr(TypeAt(es, k))
  }

  /** Where every tail has its head, the errors are the heads strictly inside the range. */
  lemma ThrowsIffHeadInside(es: seq<Elem>, o: nat, n: nat)
    requires WellFormed(es) && 0 < n && o + n <= |es|
    ensures MarkThrows(es, o, n) <==> HeadInside(es, o, n)
  {
    hide HeadsOk, TailsOk, Attached;
    FirstHasOwner(es, o);
    if k :| o < k < o + n && IsTail(TypeAt(es, k)) && !Attached(es, o, k) {
      OwnerInside(es, o, n, k);
    }
    if k :| o < k < o + n - 1 && IsPtr(TypeAt(es, k)) {
      HeadThrows(es, o, k);
    }
  }

  lemma HeadThrows(es: seq<Elem>, o: nat, k: nat)
    requires HeadsOk(es) && o < k < |es| && IsPtr(TypeAt(es, k))
    ensures k + 1 < |es| && IsTail(TypeAt(es, k + 1)) && !Attached(es, o, k + 1)
  {
    Behind(es, k, k);
    Behind(es, k, k + 1);
    assert !IsTail(TypeAt(es, k));
  }

  lemma OwnerAttached(es: seq<Elem>, o: nat, k: nat, h: nat)
    requires HeadsOk(es) && o < k < |es| && Owns(es, h, k)
    ensures h <= o ==> Attached(es, o, k)
  {
    if h <= o {
      forall j | o < j <= k ensures IsTail(TypeAt(es, j)) { Behind(es, h, j); }
      Behind(es, h, o);
    }
  }

  lemma FirstHasOwner(es: seq<Elem>, o: nat)
    requires WellFormed(es) && o < |es|
    ensures IsTail(TypeAt(es, o)) ==> Backward(es, o - 1).Some?
  {
    if IsTail(TypeAt(es, o)) {
      BackwardIs(es, o - 1);
      assert TailAt(es, o);
      var h :| Owns(es, h, o);
      hide HeadsOk, TailsOk, Backward;
      assert !IsTail(TypeAt(es, h));
    }
  }

  lemma OwnerInside(es: seq<Elem>, o: nat, n: nat, k: nat)
    requires WellFormed(es) && o + n <= |es| && o < k < o + n && IsTail(TypeAt(es, k)) && !Attached(es, o, k)
    ensures HeadInside(es, o, n)
  {
    assert TailAt(es, k);
    var h :| Owns(es, h, k);
    OwnerAttached(es, o, k, h);
    assert o < h < o + n - 1 && IsPtr(TypeAt(es, h));
  }

  /** The concrete bytes outside a range are among those the elements stand for. */
  ghost predicate DescribesOutside(es: seq<Elem>, cs: seq<CByte>, env: Env, o: nat, n: nat) {
    |es| == |cs| && forall i | 0 <= i < |es| && !(o <= i < o + n) :: ByteDescribed(es, cs, env, i)
  }

  /** The byte whose taint is lost, if there is one, carries none. */
  predicate Spared(es: seq<Elem>, o: nat, cs: seq<CByte>)
    requires o < |es| == |cs|
  {
    TaintLost(es, o) ==> !cs[LostAt(es, o)].taint
  }

  lemma MarkDescribes(es0: seq<Elem>, es: seq<Elem>, o: nat, n: nat, cs: seq<CByte>, env: Env)
    requires 0 < n && o + n <= |es0| && Marked(es0, es, o, n) && Describes(es0, cs, env) && Spared(es0, o, cs)
    ensures DescribesOutside(es, cs, env, o, 1) && DescribesOutside(es, cs, env, o, n)
  {
    forall i | 0 <= i < |es| && i != o ensures ByteDescribed(es, cs, env, i) {
      assert ByteDescribed(es0, cs, env, i);
      assert WeakenedByte(es0, es, i, LostAt(es0, o));
      if IsPtr(TypeAt(es, i)) && i + 8 <= |es| {
        forall k | i <= k < i + 8 ensures es[k].data == es0[k].data {
          assert WeakenedByte(es0, es, k, LostAt(es0, o));
        }
        assert Datas(es[i..i + 8]) == Datas(es0[i..i + 8]);
      }
    }
  }

  // ---- setElements ----

  /** The bytes of the range given new types and data, heads also a pointer number. */
  function WritePtr(es: seq<Elem>, o: nat, v: DynValue): (r: seq<Elem>)
    requires v.Ptr? && o + 8 <= |es|
    ensures |r| == |es|
  {
    var bs := Bytes(v.offset, 8);
    seq(|es|, k requires 0 <= k < |es| =>
      if k == o then Elem(v.ty, v.nr, bs[0])
      else if o < k < o + 8 then Elem(TailOf(v.ty), es[k].nr, bs[k - o])
      else es[k])
  }

  function WriteImm(es: seq<Elem>, o: nat, n: nat, val: nat): (r: seq<Elem>)
    requires o + n <= |es|
    ensures |r| == |es|
  {
    var bs := Bytes(val, n);
    seq(|es|, k requires 0 <= k < |es| =>
      if o <= k < o + n then Elem(Immediate, es[k].nr, bs[k - o]) else es[k])
  }

  function WriteType(es: seq<Elem>, o: nat, n: nat, t: DynType): (r: seq<Elem>)
    requires o + n <= |es|
    ensures |r| == |es|
  {
    seq(|es|, k requires 0 <= k < |es| => if o <= k < o + n then Elem(t, es[k].nr, 0) else es[k])
  }

  predicate ImmSize(n: nat) { n == 1 || n == 2 || n == 4 || n == 8 || n == 16 }

  /** setElements; None is a thrown error. */
  function SetElements(es: seq<Elem>, o: nat, n: nat, v: DynValue, cond: bool): (r: Option<seq<Elem>>)
    ensures r.Some? ==> |r.value| == |es|
  {
    if n == 0 || o + n > |es| || cond then None
    else match Mark(es, o, n, 0)
      case None => None
      case Some(es1) =>
        match v
        case Ptr(ty, _, _) => if n == 8 && IsPtr(ty) then Some(WritePtr(es1, o, v)) else None
        case Imm(val) => if ImmSize(n) then Some(WriteImm(es1, o, n, val)) else None
        case Plain(ty) => if ty == Dead || ty == Unknown || ty == Tainted then Some(WriteType(es1, o, n, ty)) else None
  }

  /** The value can be stored in n bytes. */
  predicate Fits(v: DynValue, n: nat) {
    match v
    case Ptr(ty, _, _) => n == 8 && IsPtr(ty)
    case Imm(_) => ImmSize(n)
    case Plain(ty) => ty == Dead || ty == Unknown || ty == Tainted
  }

  /** In the range, es' describes what v stands for; outside it is es, where nothing crosses in. */
  ghost predicate Written(es: seq<Elem>, es': seq<Elem>, o: nat, n: nat, v: DynValue)
    requires o + n <= |es|
  {
    && |es'| == |es|
    && (forall k | 0 <= k < |es| && !(o <= k < o + n) :: es'[k] == es[k])
    && match v
       case Ptr(ty, nr, off) =>
         && n == 8 && es'[o].nr == nr && TypeAt(es', o) == ty && IsPtr(ty)
         && (forall k | o < k < o + 8 :: TypeAt(es', k) == TailOf(ty))
         && Datas(es'[o..o + 8]) == Bytes(off, 8)
       case Imm(val) =>
         && (forall k | o <= k < o + n :: TypeAt(es', k) == Immediate)
         && Datas(es'[o..o + n]) == Bytes(val, n)
       case Plain(ty) =>
         && (ty == Dead || ty == Unknown || ty == Tainted)
         && (forall k | o <= k < o + n :: TypeAt(es', k) == ty)
  }

  lemma SetIsWritten(es: seq<Elem>, o: nat, n: nat, v: DynValue)
    requires SetElements(es, o, n, v, false).Some?
    ensures 0 < n && o + n <= |es| && Mark(es, o, n, 0).Some?
    ensures Written(Mark(es, o, n, 0).value, SetElements(es, o, n, v, false).value, o, n, v)
  {
    hide Mark, Bytes;
    var es1, es' := Mark(es, o, n, 0).value, SetElements(es, o, n, v, false).value;
    match v
    case Ptr(_, _, off) => PtrIsWritten(es1, o, v);
    case Imm(val) => ImmIsWritten(es1, o, n, val);
    case Plain(_) =>
  }

  lemma PtrIsWritten(es: seq<Elem>, o: nat, v: DynValue)
    requires v.Ptr? && IsPtr(v.ty) && o + 8 <= |es|
    ensures Written(es, WritePtr(es, o, v), o, 8, v)
  {
    hide Bytes;
    assert Datas(WritePtr(es, o, v)[o..o + 8]) == Bytes(v.offset, 8);
  }

  lemma ImmIsWritten(es: seq<Elem>, o: nat, n: nat, val: nat)
    requires o + n <= |es|
    ensures Written(es, WriteImm(es, o, n, val), o, n, Imm(val))
  {
    hide Bytes;
    assert Datas(WriteImm(es, o, n, val)[o..o + n]) == Bytes(val, n);
  }

  lemma WrittenHeads(es0: seq<Elem>, es: seq<Elem>, es': seq<Elem>, o: nat, n: nat, v: DynValue)
    requires 0 < n && o + n <= |es0| && Marked(es0, es, o, n) && Written(es, es', o, n, v)
    ensures HeadsOk(es')
  {
    forall i | 0 <= i < |es'| && IsPtr(TypeAt(es', i)) ensures HeadAt(es', i) {
      if !(o <= i < o + n) {
        assert HeadAt(es, i);
        forall j | i < j < i + 8 ensures TypeAt(es', j) == TailOf(TypeAt(es', i)) {
          assert TypeAt(es, j) == TailOf(TypeAt(es, i));
        }
      }
    }
  }

  lemma WrittenTails(es0: seq<Elem>, es: seq<Elem>, es': seq<Elem>, o: nat, n: nat, v: DynValue)
    requires 0 < n && o + n <= |es0| && Marked(es0, es, o, n) && Written(es, es', o, n, v)
    requires TailsOk(es) && !LastIsHead(es0, o, n)
    ensures TailsOk(es')
  {
    forall i | 0 <= i < |es'| && IsTail(TypeAt(es', i)) ensures TailAt(es', i) {
      if o <= i < o + n {
        assert Owns(es', o, i);
      } else {
        assert TailAt(es, i);
        var h :| Owns(es, h, i);
        assert !(o <= h < o + n);
        assert Owns(es', h, i);
      }
    }
  }

  /** The concrete bytes with those from o on replaced. */
  function Overwrite(cs: seq<CByte>, o: nat, bs: seq<CByte>): (r: seq<CByte>)
    requires o + |bs| <= |cs|
    ensures |r| == |cs|
    ensures forall k | 0 <= k < |cs| :: r[k] == if o <= k < o + |bs| then bs[k - o] else cs[k]
  {
    cs[..o] + bs + cs[o + |bs|..]
  }

  lemma WrittenDescribes(es0: seq<Elem>, es: seq<Elem>, es': seq<Elem>, o: nat, n: nat, v: DynValue, cs: seq<CByte>, bs: seq<CByte>, env: Env)
    requires 0 < n && o + n <= |es0| && |bs| == n && Marked(es0, es, o, n) && Written(es, es', o, n, v)
    requires DescribesOutside(es, cs, env, o, n) && ValueDescribes(v, bs, env)
    ensures Describes(es', Overwrite(cs, o, bs), env)
  {
    var cs' := Overwrite(cs, o, bs);
    forall i | 0 <= i < |es'| ensures ByteDescribed(es', cs', env, i) {
      if o <= i < o + n {
        match v
        case Ptr(ty, nr, off) =>
          PtrWritten(es', o, v, cs', bs, env);
        case Imm(val) =>
          assert Datas(es'[o..o + n])[i - o] == es'[i].data && Vals(bs)[i - o] == bs[i - o].val;
        case Plain(_) =>
      } else {
        assert ByteDescribed(es, cs, env, i);
        if IsPtr(TypeAt(es', i)) && i + 8 <= |es'| {
          assert es'[i..i + 8] == es[i..i + 8];
          assert cs'[i..i + 8] == cs[i..i + 8];
        }
      }
    }
  }

  lemma PtrWritten(es': seq<Elem>, o: nat, v: DynValue, cs': seq<CByte>, bs: seq<CByte>, env: Env)
    requires v.Ptr? && o + 8 <= |es'| == |cs'| && |bs| == 8 && Datas(es'[o..o + 8]) == Bytes(v.offset, 8)
    requires forall k | o <= k < o + 8 :: cs'[k] == bs[k - o]
    requires Vals(bs) == PtrBytes(env, v.ty, v.nr, v.offset)
    ensures Vals(cs'[o..o + 8]) == PtrBytes(env, v.ty, v.nr, Word(Datas(es'[o..o + 8])))
  {
    assert cs'[o..o + 8] == bs;
    WordOfWord64(v.offset);
  }

  lemma WordOfWord64(w: Word64)
    ensures Word(Bytes(w, 8)) == w
  {
    WordOfBytes(w, 8);
    PowEight();
  }

  lemma PowEight()
    ensures Pow256(8) == 0x1_0000_0000_0000_0000
  {
    assert Pow256(2) == 0x1_0000;
    assert Pow256(4) == 0x1_0000_0000 by { assert Pow256(3) == 0x100_0000; }
    assert Pow256(6) == 0x1_0000_0000_0000 by { assert Pow256(5) == 0x100_0000_0000; }
    assert Pow256(7) == 0x100_0000_0000_0000;
  }

  /** A store keeps every head with its tails, and describes the bytes the machine then has, unless a taint was lost
      that a byte did carry. */
  lemma SetSound(es: seq<Elem>, o: nat, n: nat, v: DynValue, cs: seq<CByte>, bs: seq<CByte>, env: Env)
    requires HeadsOk(es) && SetElements(es, o, n, v, false).Some?
    requires 0 < n && o + n <= |es| == |cs| && Describes(es, cs, env) && Spared(es, o, cs) && |bs| == n && ValueDescribes(v, bs, env)
    ensures Describes(SetElements(es, o, n, v, false).value, Overwrite(cs, o, bs), env)
  {
    SetIsWritten(es, o, n, v);
    MarkMeaning(es, o, n);
    hide *;
    var es1, es' := Mark(es, o, n, 0).value, SetElements(es, o, n, v, false).value;
    MarkDescribes(es, es1, o, n, cs, env);
    WrittenDescribes(es, es1, es', o, n, v, cs, bs, env);
  }

  /** The concrete bytes after a store are among those the elements stand for, whatever they were before. */
  ghost predicate SetDescribes(es: seq<Elem>, o: nat, n: nat, v: DynValue, bs: seq<CByte>, env: Env, cs: seq<CByte>)
    requires SetElements(es, o, n, v, false).Some?
  {
    |es| == |cs| && o + |bs| <= |cs| && Describes(SetElements(es, o, n, v, false).value, Overwrite(cs, o, bs), env)
  }

  /** Exactly when a store is sound for everything the state may stand for: if the range does not begin with a tail
      whose search for a head ends at a tainted byte. */
  lemma SetSoundIff(es: seq<Elem>, o: nat, n: nat, v: DynValue, cs: seq<CByte>, bs: seq<CByte>, env: Env)
    requires HeadsOk(es) && SetElements(es, o, n, v, false).Some?
    requires 0 < n && o + n <= |es| && Describes(es, cs, env) && |bs| == n && ValueDescribes(v, bs, env)
    ensures (forall cs' | Describes(es, cs', env) :: SetDescribes(es, o, n, v, bs, env, cs')) <==> !TaintLost(es, o)
  {
    if TaintLost(es, o) {
      var cs' := TaintedAt(es, cs, env, LostAt(es, o));
      SetLoses(es, o, n, v);
      hide SetElements;
      assert LostAt(es, o) < o;
      assert !ByteDescribed(SetElements(es, o, n, v, false).value, Overwrite(cs', o, bs), env, LostAt(es, o));
      assert !SetDescribes(es, o, n, v, bs, env, cs');
    } else {
      forall cs' | Describes(es, cs', env) ensures SetDescribes(es, o, n, v, bs, env, cs') {
        SetSound(es, o, n, v, cs', bs, env);
      }
    }
  }

  /** A tainted byte may well carry taint. */
  lemma TaintedAt(es: seq<Elem>, cs: seq<CByte>, env: Env, j: int) returns (cs': seq<CByte>)
    requires 0 <= j < |es| && TypeAt(es, j) == Tainted && Describes(es, cs, env)
    ensures Describes(es, cs', env) && cs'[j].taint
  {
    cs' := cs[j := cs[j].(taint := true)];
    forall i | 0 <= i < |es| ensures ByteDescribed(es, cs', env, i) {
      assert ByteDescribed(es, cs, env, i);
      if i + 8 <= |es| { assert Vals(cs'[i..i + 8]) == Vals(cs[i..i + 8]); }
    }
  }

  lemma SetLoses(es: seq<Elem>, o: nat, n: nat, v: DynValue)
    requires HeadsOk(es) && SetElements(es, o, n, v, false).Some? && o < |es| && TaintLost(es, o)
    ensures 0 <= LostAt(es, o) < o && !StackDerived(TypeAt(SetElements(es, o, n, v, false).value, LostAt(es, o)))
  {
    SetIsWritten(es, o, n, v);
    MarkMeaning(es, o, n);
    hide Mark, SetElements, HeadsOk, TailsOk;
    assert WeakenedByte(es, Mark(es, o, n, 0).value, LostAt(es, o), LostAt(es, o));
  }

  /** Outside the range a byte is stack-derived after a store exactly if it was before, but for the byte lost. Part of
      a stack pointer overwritten thus leaves the rest of it tainted. */
  lemma SetTaint(es: seq<Elem>, o: nat, n: nat, v: DynValue, k: nat)
    requires HeadsOk(es) && SetElements(es, o, n, v, false).Some? && o < |es| && k < |es| && !(o <= k < o + n)
    ensures StackDerived(TypeAt(SetElements(es, o, n, v, false).value, k)) <==> StackDerived(TypeAt(es, k)) && k != LostAt(es, o)
  {
    SetIsWritten(es, o, n, v);
    MarkMeaning(es, o, n);
    hide Mark, SetElements, HeadsOk, TailsOk;
    assert WeakenedByte(es, Mark(es, o, n, 0).value, k, LostAt(es, o));
  }

  lemma DescribesLength(es: seq<Elem>, cs: seq<CByte>, env: Env)
    requires Describes(es, cs, env)
    ensures |es| == |cs|
  {
  }

  /** Exactly when a store throws. Every head keeps its tails; tails are left without a head exactly if the last
      byte of the range was a head. */
  lemma SetExact(es: seq<Elem>, o: nat, n: nat, v: DynValue)
    requires HeadsOk(es) && 0 < n && o + n <= |es| && Fits(v, n)
    ensures SetElements(es, o, n, v, false).Some? <==> !MarkThrows(es, o, n)
    ensures SetElements(es, o, n, v, false).Some? ==>
              var r := SetElements(es, o, n, v, false).value;
              HeadsOk(r) && (TailsOk(es) ==> (TailsOk(r) <==> !LastIsHead(es, o, n))) && (LastIsHead(es, o, n) ==> !TailsOk(r))
  {
    MarkMeaning(es, o, n);
    if SetElements(es, o, n, v, false).Some? {
      SetIsWritten(es, o, n, v);
      hide Mark, SetElements, Written, TailsOk;
      var es1, es' := Mark(es, o, n, 0).value, SetElements(es, o, n, v, false).value;
      WrittenHeads(es, es1, es', o, n, v);
      if LastIsHead(es, o, n) {
        OrphansLeft(es, es1, es', o, n, v);
      } else if TailsOk(es) {
        WrittenTails(es, es1, es', o, n, v);
      }
    }
  }

  /** A head in front of the end of the range ends there at the latest. */
  lemma OldHead(es0: seq<Elem>, es: seq<Elem>, es': seq<Elem>, o: nat, n: nat, v: DynValue, h: nat)
    requires 0 < n && o + n <= |es0| && Marked(es0, es, o, n) && Written(es, es', o, n, v) && h < o + n
    ensures IsPtr(TypeAt(es', h)) ==> h + 8 <= o + n
  {
    assert h < o ==> TypeAt(es', h) == TypeAt(es, h);
  }

  /** Writing over a head, but not over its tails, leaves tails without a head. */
  lemma OrphansLeft(es0: seq<Elem>, es: seq<Elem>, es': seq<Elem>, o: nat, n: nat, v: DynValue)
    requires 1 < n && o + n <= |es0| && Marked(es0, es, o, n) && LastIsHead(es0, o, n) && Written(es, es', o, n, v)
    ensures !TailsOk(es')
  {
    var l := o + n - 1;
    var k := l + 1;
    Behind(es, l, l);
    Behind(es, l, k);
    assert IsTail(TypeAt(es', k));
    forall h | 0 <= h < |es'| ensures !Owns(es', h, k) {
      if h < k { OldHead(es0, es, es', o, n, v, h); }
    }
    assert !TailAt(es', k);
  }

  /** An immediate, and a stack pointer behind it. */
  function Guarded(nr: int, off: Word64): seq<Elem> { [Elem(Immediate, 0, 0)] + WritePtr(Blank(), 0, Ptr(StackPtr, nr, off)) }

  lemma GuardedForm(nr: int, off: Word64)
    ensures WellFormed(Guarded(nr, off))
  {
    var es := Guarded(nr, off);
    assert forall k | 1 < k < 9 :: TypeAt(es, k) == StackPtrTail;
    assert HeadAt(es, 1);
    forall k | 0 <= k < 9 && IsTail(TypeAt(es, k)) ensures TailAt(es, k) { assert Owns(es, 1, k); }
  }

  /** Taint does get lost: a store of a tainted value over the immediate and the head behind it leaves the byte of the
      head tainted, and seven tails; a store over the first of these takes the taint away, and a byte derived from the
      stack pointer then reads as merely unknown. */
  lemma TaintGetsLost(nr: int, off: Word64) returns (es1: seq<Elem>, es2: seq<Elem>)
    ensures WellFormed(Guarded(nr, off)) && StackDerived(TypeAt(Guarded(nr, off), 1))
    ensures SetElements(Guarded(nr, off), 0, 2, Plain(Tainted), false) == Some(es1)
    ensures |es1| == 9 && TypeAt(es1, 1) == Tainted && TaintLost(es1, 2)
    ensures SetElements(es1, 2, 1, Imm(0), false) == Some(es2)
    ensures |es2| == 9 && GetElements(es2, 1, 1) == Some(Plain(Unknown))
  {
    var es := Guarded(nr, off);
    GuardedForm(nr, off);
    SetExact(es, 0, 2, Plain(Tainted));
    MarkMeaning(es, 0, 2);
    assert LastIsHead(es, 0, 2);
    es1 := SetElements(es, 0, 2, Plain(Tainted), false).value;
    SetIsWritten(es, 0, 2, Plain(Tainted));
    var m := Mark(es, 0, 2, 0).value;
    assert Written(m, es1, 0, 2, Plain(Tainted));
    assert TypeAt(es, 1) == StackPtr;
    hide Mark, SetElements, Guarded, TailsOk;
    assert TypeAt(m, 1) == StackPtr;
    Behind(m, 1, 2);
    assert TypeAt(m, 2) == StackPtrTail;
    assert es1[2] == m[2];
    assert IsTail(TypeAt(es1, 2));
    assert Backward(es1, 1) == Some(1);
    SetExact(es1, 2, 1, Imm(0));
    es2 := SetElements(es1, 2, 1, Imm(0), false).value;
    SetIsWritten(es1, 2, 1, Imm(0));
    MarkMeaning(es1, 2, 1);
    assert TaintLost(es1, 2) && LostAt(es1, 2) == 1;
    assert WeakenedByte(es1, Mark(es1, 2, 1, 0).value, 1, LostAt(es1, 2));
    OneUnknown(es2, 1);
  }

  lemma OneUnknown(es: seq<Elem>, o: nat)
    requires o < |es| && TypeAt(es, o) == Unknown
    ensures GetElements(es, o, 1) == Some(Plain(Unknown))
  {
    assert Scan(es, o, 1, 1, Seen(es, o, 0, NO_FLAGS)) == Seen(es, o, 0, NO_FLAGS);
  }

  function Blank(): (es: seq<Elem>)
    ensures |es| == 8
  {
    seq(8, i => Elem(Dead, 0, 0))
  }

  // ---- getElements ----

  datatype Flags = Flags(imm: bool, dead: bool, ptr: bool, stackPtr: bool, unknown: bool, tainted: bool, mixed: bool)

  const NO_FLAGS := Flags(false, false, false, false, false, false, false)

  function B2N(b: bool): nat { if b then 1 else 0 }

  /** Flags after looking at a byte of this type, the first of the range or not. */
  function SeenType(t: DynType, first: bool, f: Flags): Flags {
    Flags(f.imm || t == Immediate, f.dead || t == Dead, f.ptr || t == UsrPtr || t == ReturnPtr, f.stackPtr || t == StackPtr,
          f.unknown || t == Unknown, f.tainted || t == Tainted || t == StackPtrTail,
          f.mixed || (IsPtr(t) && !first) || (t == Tail && first))
  }

  /** Flags after looking at byte i of the range. */
  function Seen(es: seq<Elem>, o: nat, i: nat, f: Flags): Flags
    requires o + i < |es|
  {
    SeenType(es[o + i].ty, i == 0, f)
  }

  /** The scan skips the bytes behind a head. */
  function Scan(es: seq<Elem>, o: nat, n: nat, i: nat, f: Flags): Flags
    requires o + n <= |es|
    decreases n - i
  {
    if i >= n then f
    else Scan(es, o, n, if IsPtr(es[o + i].ty) then i + 8 else i + 1, Seen(es, o, i, f))
  }

  function Mixed(f: Flags): bool {
    f.mixed || B2N(f.imm) + B2N(f.dead) + B2N(f.ptr) + B2N(f.stackPtr) + B2N(f.unknown) + B2N(f.tainted) > 1
  }

  /** The value of n bytes with those flags. None is a thrown error. A pointer's offset and an
      immediate are read from the data, so the head of a full pointer needs eight bytes there. */
  function Conclude(es: seq<Elem>, o: nat, n: nat, f: Flags): Option<DynValue>
    requires 0 < n && o + n <= |es|
  {
    var e := es[o];
    if f.tainted || (f.stackPtr && (Mixed(f) || n != 8)) then Some(Plain(Tainted))
    else if Mixed(f) then Some(Plain(Unknown))
    else if f.stackPtr then Some(Ptr(e.ty, e.nr, Offset(es, o, n)))
    else if f.ptr then Some(if n != 8 then Plain(Unknown) else Ptr(e.ty, e.nr, Offset(es, o, n)))
    else if f.imm then if ImmSize(n) then Some(Imm(Word(Datas(es[o..o + n])))) else None
    else if f.dead then Some(Plain(Dead))
    else Some(Plain(Unknown))
  }

  function Offset(es: seq<Elem>, o: nat, n: nat): Word64
    requires o + n <= |es|
  {
    WordBounded(Datas(es[o..o + n]));
    PowEight();
    if n == 8 then Word(Datas(es[o..o + n])) else 0
  }

  function GetElements(es: seq<Elem>, o: nat, n: nat): Option<DynValue>
    requires 0 < n && o + n <= |es|
  {
    Conclude(es, o, n, Scan(es, o, n, 0, NO_FLAGS))
  }

  /** What the flags say about the first m bytes of the range. */
  ghost predicate ScanInv(es: seq<Elem>, o: nat, m: nat, f: Flags)
    requires o + m <= |es|
  {
    && (forall k | o <= k < o + m :: FlagFor(TypeAt(es, k), f))
    && (f.ptr ==> f.mixed || (m > 0 && (TypeAt(es, o) == UsrPtr || TypeAt(es, o) == ReturnPtr)))
    && (f.stackPtr ==> f.mixed || (m > 0 && TypeAt(es, o) == StackPtr))
    && (f.tainted || f.stackPtr ==> exists k :: o <= k < o + m && StackDerived(TypeAt(es, k)))
  }

  predicate FlagFor(t: DynType, f: Flags) {
    && (StackDerived(t) ==> f.tainted || f.stackPtr)
    && (t == UsrPtr || t == ReturnPtr ==> f.ptr)
    && (t == Immediate ==> f.imm)
    && (t == Dead ==> f.dead)
    && (t == Unknown ==> f.unknown)
  }

  function Min(a: nat, b: nat): nat { if a <= b then a else b }

  lemma {:induction false} ScanMeaning(es: seq<Elem>, o: nat, n: nat, i: nat, f: Flags)
    requires HeadsOk(es) && o + n <= |es| && ScanInv(es, o, Min(i, n), f)
    ensures ScanInv(es, o, n, Scan(es, o, n, i, f))
    decreases n - i
  {
    if i < n {
      ScanStep(es, o, n, i, f);
      hide ScanInv, Seen;
      ScanMeaning(es, o, n, if IsPtr(es[o + i].ty) then i + 8 else i + 1, Seen(es, o, i, f));
    }
  }

  /** No flag is ever taken back. */
  predicate Grows(f: Flags, f': Flags) {
    && (f.imm ==> f'.imm) && (f.dead ==> f'.dead) && (f.ptr ==> f'.ptr) && (f.stackPtr ==> f'.stackPtr)
    && (f.unknown ==> f'.unknown) && (f.tainted ==> f'.tainted) && (f.mixed ==> f'.mixed)
  }

  lemma SeenTypeFlags(t: DynType, first: bool, f: Flags)
    ensures var f' := SeenType(t, first, f);
            && FlagFor(t, f') && (IsPtr(t) ==> FlagFor(TailOf(t), f'))
            && (f'.ptr ==> f.ptr || ((t == UsrPtr || t == ReturnPtr) && (first || f'.mixed)))
            && (f'.stackPtr ==> f.stackPtr || (t == StackPtr && (first || f'.mixed)))
            && (f'.tainted || f'.stackPtr ==> f.tainted || f.stackPtr || StackDerived(t))
  {
  }

  lemma SeenTypeGrows(t: DynType, first: bool, f: Flags)
    ensures Grows(f, SeenType(t, first, f))
  {
  }

  lemma SeenFlags(es: seq<Elem>, o: nat, i: nat, f: Flags)
    requires o + i < |es|
    ensures var f', t := Seen(es, o, i, f), TypeAt(es, o + i);
            && FlagFor(t, f') && Grows(f, f')
            && (f'.ptr ==> f.ptr || ((t == UsrPtr || t == ReturnPtr) && (i == 0 || f'.mixed)))
            && (f'.stackPtr ==> f.stackPtr || (t == StackPtr && (i == 0 || f'.mixed)))
            && (f'.tainted || f'.stackPtr ==> f.tainted || f.stackPtr || StackDerived(t))
            && (IsPtr(t) ==> FlagFor(TailOf(t), f'))
  {
    hide SeenType, Grows, FlagFor;
    SeenTypeFlags(TypeAt(es, o + i), i == 0, f);
    SeenTypeGrows(TypeAt(es, o + i), i == 0, f);
  }

  lemma GrowsFlag(t: DynType, f: Flags, f': Flags)
    requires FlagFor(t, f) && Grows(f, f')
    ensures FlagFor(t, f')
  {
  }

  lemma ScanStep(es: seq<Elem>, o: nat, n: nat, i: nat, f: Flags)
    requires HeadsOk(es) && o + n <= |es| && i < n && ScanInv(es, o, i, f)
    ensures ScanInv(es, o, Min(if IsPtr(es[o + i].ty) then i + 8 else i + 1, n), Seen(es, o, i, f))
  {
    SeenFlags(es, o, i, f);
    hide Seen, FlagFor, HeadsOk;
    var f' := Seen(es, o, i, f);
    var m := Min(if IsPtr(es[o + i].ty) then i + 8 else i + 1, n);
    forall k | o <= k < o + m ensures FlagFor(TypeAt(es, k), f') {
      if k < o + i {
        GrowsFlag(TypeAt(es, k), f, f');
      } else {
        Behind(es, o + i, k);
      }
    }
    if f'.tainted || f'.stackPtr {
      if f.tainted || f.stackPtr {
        var k :| o <= k < o + i && StackDerived(TypeAt(es, k));
        assert o <= k < o + m && StackDerived(TypeAt(es, k));
      } else {
        assert StackDerived(TypeAt(es, o + i));
      }
    }
  }

  /** An immediate in front of tails without a head is taken for an immediate of full length. */
  ghost predicate HiddenTails(es: seq<Elem>, o: nat, n: nat)
    requires 0 < n && o + n <= |es|
  {
    && TypeAt(es, o) == Immediate
    && (forall k | o <= k < o + n :: TypeAt(es, k) == Immediate || TypeAt(es, k) == Tail)
    && exists k :: o <= k < o + n && TypeAt(es, k) == Tail
  }

  lemma {:induction false} ScanHidden(es: seq<Elem>, o: nat, n: nat, i: nat, f: Flags)
    requires 0 < n && o + n <= |es| && HiddenTails(es, o, n)
    requires f == NO_FLAGS.(imm := i > 0)
    ensures Scan(es, o, n, i, f) == NO_FLAGS.(imm := true)
    decreases n - i
  {
    if i < n {
      assert TypeAt(es, o + i) == Immediate || TypeAt(es, o + i) == Tail;
      ScanHidden(es, o, n, i + 1, f.(imm := true));
    }
  }

  lemma {:induction false} ScanPlainTail(es: seq<Elem>, o: nat, n: nat, i: nat, f: Flags)
    requires o + n <= |es|
    ensures f.mixed ==> Scan(es, o, n, i, f).mixed
    ensures i == 0 && 0 < n && TypeAt(es, o) == Tail ==> Scan(es, o, n, i, f).mixed
    decreases n - i
  {
    if i < n {
      ScanPlainTail(es, o, n, if IsPtr(es[o + i].ty) then i + 8 else i + 1, Seen(es, o, i, f));
    }
  }

  /** A read that touches a stack-derived byte, and no other, gives a stack pointer or Tainted. */
  lemma GetTaint(es: seq<Elem>, o: nat, n: nat)
    requires HeadsOk(es) && 0 < n && o + n <= |es| && GetElements(es, o, n).Some?
    ensures (exists k :: o <= k < o + n && StackDerived(TypeAt(es, k)))
       <==> (GetElements(es, o, n).value == Plain(Tainted)
             || (GetElements(es, o, n).value.Ptr? && GetElements(es, o, n).value.ty == StackPtr))
  {
    ScanMeaning(es, o, n, 0, NO_FLAGS);
  }

  /** Whatever the elements describe, the value read describes its bytes, unless tails without a
      head are hidden behind an immediate. */
  lemma GetSound(es: seq<Elem>, o: nat, n: nat, cs: seq<CByte>, env: Env)
    requires HeadsOk(es) && 0 < n && o + n <= |es| && GetElements(es, o, n).Some?
    requires Describes(es, cs, env) && !HiddenTails(es, o, n)
    ensures ValueDescribes(GetElements(es, o, n).value, cs[o..o + n], env)
  {
    var f := Scan(es, o, n, 0, NO_FLAGS);
    ScanMeaning(es, o, n, 0, NO_FLAGS);
    ScanPlainTail(es, o, n, 0, NO_FLAGS);
    hide Scan, Seen;
    var v, bs := GetElements(es, o, n).value, cs[o..o + n];
    if v != Plain(Tainted) && !(v.Ptr? && v.ty == StackPtr) {
      GetTaint(es, o, n);
      forall k | o <= k < o + n ensures !cs[k].taint {
        assert ByteDescribed(es, cs, env, k);
      }
      assert Untainted(bs);
    }
    match v
    case Plain(_) =>
    case Ptr(_, _, _) =>
      assert ByteDescribed(es, cs, env, o);
      Behind(es, o, o);
    case Imm(x) =>
      GetImmediate(es, o, n, f);
      forall k | o <= k < o + n ensures cs[k].val == es[k].data {
        assert ByteDescribed(es, cs, env, k);
      }
      assert Vals(bs) == Datas(es[o..o + n]);
      BytesOfWord(Vals(bs));
  }

  lemma GetImmediate(es: seq<Elem>, o: nat, n: nat, f: Flags)
    requires 0 < n && o + n <= |es| && ScanInv(es, o, n, f) && !HiddenTails(es, o, n)
    requires f.imm && !Mixed(f) && !f.tainted && !f.stackPtr && (TypeAt(es, o) == Tail ==> f.mixed)
    ensures forall k | o <= k < o + n :: TypeAt(es, k) == Immediate
  {
    forall k | o <= k < o + n ensures TypeAt(es, k) == Immediate || TypeAt(es, k) == Tail {
      assert FlagFor(TypeAt(es, k), f);
    }
  }

  lemma {:induction false} BytesOfWord(bs: seq<Byte>)
    ensures Bytes(Word(bs), |bs|) == bs
  {
    if bs != [] {
      BytesOfWord(bs[1..]);
      var w := Word(bs[1..]);
      assert Word(bs) == bs[0] + 256 * w;
      assert Word(bs) % 256 == bs[0] && Word(bs) / 256 == w;
    }
  }

  /** In a well-formed state no tails are hidden. */
  lemma WellFormedHidesNothing(es: seq<Elem>, o: nat, n: nat)
    requires WellFormed(es) && 0 < n && o + n <= |es|
    ensures !HiddenTails(es, o, n)
  {
    forall k | o <= k < o + n && TypeAt(es, k) == Tail && TypeAt(es, o) == Immediate
      ensures exists h :: o < h < o + n && IsPtr(TypeAt(es, h))
    {
      assert TailAt(es, k);
      var h :| Owns(es, h, k);
      Behind(es, h, o);
      assert o < h < o + n && IsPtr(TypeAt(es, h));
    }
  }

  /** Exactly when a read is sound: the value describes all concrete bytes the elements describe
      if and only if no tails are hidden in its range. */
  lemma GetSoundIff(es: seq<Elem>, o: nat, n: nat, cs: seq<CByte>, env: Env)
    requires HeadsOk(es) && 0 < n && o + n <= |es| && GetElements(es, o, n).Some?
    requires Describes(es, cs, env)
    ensures (forall cs' | Describes(es, cs', env) :: ValueDescribes(GetElements(es, o, n).value, cs'[o..o + n], env))
       <==> !HiddenTails(es, o, n)
  {
    if HiddenTails(es, o, n) {
      var cs' := HiddenDiffers(es, o, n, cs, env);
      assert !ValueDescribes(GetElements(es, o, n).value, cs'[o..o + n], env);
    } else {
      forall cs' | Describes(es, cs', env)
        ensures ValueDescribes(GetElements(es, o, n).value, cs'[o..o + n], env)
      {
        GetSound(es, o, n, cs', env);
      }
    }
  }

  /** Nothing constrains a hidden tail, so its byte may differ from the one read. */
  lemma HiddenDiffers(es: seq<Elem>, o: nat, n: nat, cs: seq<CByte>, env: Env) returns (cs': seq<CByte>)
    requires HeadsOk(es) && 0 < n && o + n <= |es| && GetElements(es, o, n).Some?
    requires Describes(es, cs, env) && HiddenTails(es, o, n)
    ensures Describes(es, cs', env) && !ValueDescribes(GetElements(es, o, n).value, cs'[o..o + n], env)
  {
    hide GetElements, HeadsOk, ByteDescribed, Bytes, Word;
    var k :| o <= k < o + n && TypeAt(es, k) == Tail;
    cs' := cs[k := CByte((es[k].data + 1) % 256, false)];
    forall i | 0 <= i < |es| ensures ByteDescribed(es, cs', env, i) { HiddenKeeps(es, o, n, cs, env, k, cs', i); }
    HiddenReads(es, o, n);
    hide Describes, HiddenTails;
    var ds := Datas(es[o..o + n]);
    BytesOfWord(ds);
    assert Vals(cs'[o..o + n])[k - o] != ds[k - o];
  }

  lemma HiddenReads(es: seq<Elem>, o: nat, n: nat)
    requires 0 < n && o + n <= |es| && HiddenTails(es, o, n) && GetElements(es, o, n).Some?
    ensures GetElements(es, o, n) == Some(Imm(Word(Datas(es[o..o + n]))))
  {
    hide Word, Datas, HiddenTails;
    ScanHidden(es, o, n, 0, NO_FLAGS);
  }

  lemma HiddenKeeps(es: seq<Elem>, o: nat, n: nat, cs: seq<CByte>, env: Env, k: nat, cs': seq<CByte>, i: nat)
    requires HeadsOk(es) && 0 < n && o + n <= |es| && Describes(es, cs, env) && HiddenTails(es, o, n)
    requires o <= k < o + n && TypeAt(es, k) == Tail && cs' == cs[k := CByte((es[k].data + 1) % 256, false)] && i < |es|
    ensures ByteDescribed(es, cs', env, i)
  {
    assert ByteDescribed(es, cs, env, i);
    if IsPtr(TypeAt(es, i)) && i + 8 <= |es| {
      Behind(es, i, o);
      Behind(es, i, k);
      assert !(o <= i < o + n);
      assert cs'[i..i + 8] == cs[i..i + 8];
    }
  }

  // ---- moveElements ----

  function RetypeRange(es: seq<Elem>, lo: nat, hi: nat, t: DynType): (r: seq<Elem>)
    requires lo <= hi <= |es|
    ensures |r| == |es|
  {
    seq(|es|, k requires 0 <= k < |es| => if lo <= k < hi then es[k].(ty := t) else es[k])
  }

  function CopyEight(src: seq<Elem>, es: seq<Elem>, from: nat, to: nat): (r: seq<Elem>)
    requires from + 8 <= |src| && to + 8 <= |es|
    ensures |r| == |es|
  {
    es[..to] + src[from..from + 8] + es[to + 8..]
  }

  /** One step of the copy loop, at byte i of the range. */
  function MoveByte(src: seq<Elem>, es: seq<Elem>, o1: nat, o2: nat, n: nat, i: nat): (r: seq<Elem>)
    requires i < n && o1 + n <= |src| && o2 + n <= |es|
    ensures |r| == |es|
  {
    var e := src[o1 + i];
    if IsPtr(e.ty) then
      if n - i < 8 then RetypeRange(es, o2 + i, o2 + n, if e.ty == StackPtr then Tainted else Unknown)
      else CopyEight(src, es, o1 + i, o2 + i)
    else if e.ty == Immediate || e.ty == Dead then es[o2 + i := es[o2 + i].(ty := e.ty, data := e.data)]
    else if e.ty == Tail || e.ty == Unknown then Retype(es, o2 + i, Unknown)
    else Retype(es, o2 + i, Tainted)
  }

  function MoveLoop(src: seq<Elem>, es: seq<Elem>, o1: nat, o2: nat, n: nat, i: nat): (r: seq<Elem>)
    requires o1 + n <= |src| && o2 + n <= |es|
    ensures |r| == |es|
    decreases n - i
  {
    if i >= n then es
    else MoveLoop(src, MoveByte(src, es, o1, o2, n, i), o1, o2, n, if IsPtr(src[o1 + i].ty) then i + 8 else i + 1)
  }

  /** Eight bytes copied one by one within an array. */
  function CopyUp(es: seq<Elem>, from: nat, to: nat, j: nat): (r: seq<Elem>)
    requires from + 8 <= |es| && to + 8 <= |es|
    ensures |r| == |es|
    decreases 8 - j
  {
    if j >= 8 then es else CopyUp(es[to + j := es[from + j]], from, to, j + 1)
  }

  /** One step of the copy loop within an array. It reads what earlier steps have written. */
  function MoveByteWithin(es: seq<Elem>, o1: nat, o2: nat, n: nat, i: nat): (r: seq<Elem>)
    requires i < n && o1 + n <= |es| && o2 + n <= |es|
    ensures |r| == |es|
  {
    if IsPtr(es[o1 + i].ty) && n - i >= 8 then CopyUp(es, o1 + i, o2 + i, 0) else MoveByte(es, es, o1, o2, n, i)
  }

  function MoveWithin(es: seq<Elem>, o1: nat, o2: nat, n: nat, i: nat): (r: seq<Elem>)
    requires o1 + n <= |es| && o2 + n <= |es|
    ensures |r| == |es|
    decreases n - i
  {
    if i >= n then es else MoveWithin(MoveByteWithin(es, o1, o2, n, i), o1, o2, n, MoveNext(es, o1, i))
  }

  /** moveElements between two states, or within one. None is a thrown error. */
  function MoveElements(src: seq<Elem>, dst: seq<Elem>, same: bool, o1: nat, o2: nat, n: nat): (r: Option<seq<Elem>>)
    requires o1 + n <= |src| && o2 + n <= |dst| && (same ==> src == dst)
    ensures r.Some? ==> |r.value| == |dst|
  {
    if same && o1 == o2 then Some(dst)
    else match Mark(dst, o2, n, 0)
      case None => None
      case Some(es) => Some(if same then MoveWithin(es, o1, o2, n, 0) else MoveLoop(src, es, o1, o2, n, 0))
  }

  /** Byte k of the range after the move: immediates, dead bytes and complete pointers arrive as they
      are; pieces of pointers become Unknown, or Tainted for a stack pointer. */
  ghost predicate MovedByte(src: seq<Elem>, es: seq<Elem>, o1: nat, o2: nat, n: nat, k: nat)
    requires k < n && o1 + n <= |src| && o2 + n <= |es|
  {
    var s, d := src[o1 + k], es[o2 + k];
    && (d.ty == s.ty || d.ty == Unknown || d.ty == Tainted)
    && (d.ty == s.ty && d.ty != Unknown && d.ty != Tainted ==> d.data == s.data)
    && (StackDerived(d.ty) <==> StackDerived(s.ty))
    && (s.ty == Immediate || s.ty == Dead || (IsPtr(s.ty) && k + 8 <= n) ==> d.ty == s.ty)
    && (IsPtr(d.ty) ==> k + 8 <= n && es[o2 + k..o2 + k + 8] == src[o1 + k..o1 + k + 8])
    && (IsTail(d.ty) ==> exists h :: k < h + 8 && InRange(h, k) && IsPtr(TypeAt(es, o2 + h)) && TypeAt(es, o2 + k) == TailOf(TypeAt(es, o2 + h)))
  }

  predicate InRange(h: int, k: int) { 0 <= h < k }

  /** The first m bytes have been moved and nothing outside the range has changed. */
  ghost predicate Moved(src: seq<Elem>, es0: seq<Elem>, es: seq<Elem>, o1: nat, o2: nat, n: nat, m: nat)
    requires m <= n && o1 + n <= |src| && o2 + n <= |es0|
  {
    && |es| == |es0|
    && (forall k | 0 <= k < |es| && !(o2 <= k < o2 + m) :: es[k] == es0[k])
    && (forall k | 0 <= k < m :: MovedByte(src, es, o1, o2, n, k))
    && (forall k | 0 <= k < m :: EndsBy(es, o2, k, m))
  }

  /** A pointer whose head is byte k of the range ends within m bytes. */
  predicate EndsBy(es: seq<Elem>, o: nat, k: nat, m: nat)
    requires o + k < |es|
  {
    IsPtr(es[o + k].ty) ==> k + 8 <= m
  }

  function MoveNext(src: seq<Elem>, o1: nat, i: nat): nat
    requires o1 + i < |src|
  {
    if IsPtr(src[o1 + i].ty) then i + 8 else i + 1
  }

  /** A byte moved earlier is as it was. */
  lemma MovedStays(src: seq<Elem>, es: seq<Elem>, es': seq<Elem>, o1: nat, o2: nat, n: nat, i: nat, k: nat)
    requires k < i <= n && o1 + n <= |src| && o2 + n <= |es| == |es'|
    requires forall j | o2 <= j < o2 + i :: es'[j] == es[j]
    requires MovedByte(src, es, o1, o2, n, k) && EndsBy(es, o2, k, i)
    ensures MovedByte(src, es', o1, o2, n, k)
  {
    assert es'[o2 + k] == es[o2 + k];
    if IsPtr(TypeAt(es, o2 + k)) {
      assert es'[o2 + k..o2 + k + 8] == es[o2 + k..o2 + k + 8];
    }
    if IsTail(TypeAt(es, o2 + k)) {
      var h :| k < h + 8 && InRange(h, k) && IsPtr(TypeAt(es, o2 + h)) && TypeAt(es, o2 + k) == TailOf(TypeAt(es, o2 + h));
      assert es'[o2 + h] == es[o2 + h];
    }
  }

  lemma MovePointer(src: seq<Elem>, es: seq<Elem>, o1: nat, o2: nat, n: nat, i: nat, k: nat)
    requires HeadsOk(src) && i <= k < n && k < i + 8 && o1 + n <= |src| && o2 + n <= |es| && IsPtr(TypeAt(src, o1 + i))
    ensures MovedByte(src, MoveByte(src, es, o1, o2, n, i), o1, o2, n, k)
    ensures EndsBy(MoveByte(src, es, o1, o2, n, i), o2, k, Min(i + 8, n))
  {
    var es' := MoveByte(src, es, o1, o2, n, i);
    Behind(src, o1 + i, o1 + k);
    if n - i >= 8 {
      assert es'[o2 + i] == src[o1 + i] && es'[o2 + k] == src[o1 + k];
      assert es'[o2 + i..o2 + i + 8] == src[o1 + i..o1 + i + 8];
      assert k > i ==> InRange(i, k) && IsPtr(TypeAt(es', o2 + i)) && TypeAt(es', o2 + k) == TailOf(TypeAt(es', o2 + i));
    }
  }

  lemma MoveStep(src: seq<Elem>, es0: seq<Elem>, es: seq<Elem>, o1: nat, o2: nat, n: nat, i: nat)
    requires HeadsOk(src) && i < n && o1 + n <= |src| && o2 + n <= |es0| && Moved(src, es0, es, o1, o2, n, i)
    ensures Moved(src, es0, MoveByte(src, es, o1, o2, n, i), o1, o2, n, Min(MoveNext(src, o1, i), n))
  {
    var es' := MoveByte(src, es, o1, o2, n, i);
    var m := Min(MoveNext(src, o1, i), n);
    assert forall j | 0 <= j < |es| && !(o2 + i <= j < o2 + m) :: es'[j] == es[j];
    forall k | 0 <= k < m
      ensures MovedByte(src, es', o1, o2, n, k) && EndsBy(es', o2, k, m)
    {
      if k < i {
        assert MovedByte(src, es, o1, o2, n, k);
        assert es'[o2 + k] == es[o2 + k];
        assert EndsBy(es, o2, k, i);
        MovedStays(src, es, es', o1, o2, n, i, k);
      } else if IsPtr(TypeAt(src, o1 + i)) {
        MovePointer(src, es, o1, o2, n, i, k);
      }
    }
  }

  lemma {:induction false} MoveRuns(src: seq<Elem>, es0: seq<Elem>, es: seq<Elem>, o1: nat, o2: nat, n: nat, i: nat)
    requires HeadsOk(src) && o1 + n <= |src| && o2 + n <= |es0| && Moved(src, es0, es, o1, o2, n, Min(i, n))
    ensures Moved(src, es0, MoveLoop(src, es, o1, o2, n, i), o1, o2, n, n)
    decreases n - i
  {
    if i < n {
      MoveStep(src, es0, es, o1, o2, n, i);
      hide Moved, MoveByte, HeadsOk;
      MoveRuns(src, es0, MoveByte(src, es, o1, o2, n, i), o1, o2, n, MoveNext(src, o1, i));
    }
  }

  lemma MovedHeads(src: seq<Elem>, dst: seq<Elem>, es0: seq<Elem>, es: seq<Elem>, o1: nat, o2: nat, n: nat, m: nat)
    requires HeadsOk(src) && 0 < n && m <= n && o1 + n <= |src| && o2 + n <= |dst| && Marked(dst, es0, o2, n) && Moved(src, es0, es, o1, o2, n, m)
    ensures HeadsOk(es)
  {
    forall i | 0 <= i < |es| && IsPtr(TypeAt(es, i)) ensures HeadAt(es, i) {
      if o2 <= i < o2 + m {
        var k := i - o2;
        assert MovedByte(src, es, o1, o2, n, k);
        forall j | i < j < i + 8 ensures TypeAt(es, j) == TailOf(TypeAt(es, i)) {
          assert es[j] == es[o2 + k..o2 + k + 8][j - i] && es[i] == es[o2 + k..o2 + k + 8][0];
          Behind(src, o1 + k, o1 + k + (j - i));
        }
      } else {
        assert HeadAt(es0, i);
        forall j | i < j < i + 8 ensures TypeAt(es, j) == TailOf(TypeAt(es, i)) {
          Behind(es0, i, j);
          assert !(o2 <= j < o2 + m);
        }
      }
    }
  }

  lemma MovedTails(src: seq<Elem>, dst: seq<Elem>, es0: seq<Elem>, es: seq<Elem>, o1: nat, o2: nat, n: nat)
    requires 0 < n && o1 + n <= |src| && o2 + n <= |dst| && Marked(dst, es0, o2, n) && Moved(src, es0, es, o1, o2, n, n)
    requires TailsOk(es0) && !LastIsHead(dst, o2, n)
    ensures TailsOk(es)
  {
    forall i | 0 <= i < |es| && IsTail(TypeAt(es, i)) ensures TailAt(es, i) {
      if o2 <= i < o2 + n {
        var k := i - o2;
        assert MovedByte(src, es, o1, o2, n, k);
        var h :| k < h + 8 && InRange(h, k) && IsPtr(TypeAt(es, o2 + h)) && TypeAt(es, o2 + k) == TailOf(TypeAt(es, o2 + h));
        assert MovedByte(src, es, o1, o2, n, h);
        assert Owns(es, o2 + h, i);
      } else {
        assert TailAt(es0, i);
        var h :| Owns(es0, h, i);
        assert !(o2 <= h < o2 + n);
        assert Owns(es, h, i);
      }
    }
  }

  /** The concrete bytes of a range are among those the elements stand for. */
  ghost predicate DescribesRange(es: seq<Elem>, cs: seq<CByte>, env: Env, o: nat, n: nat) {
    |es| == |cs| && o + n <= |es| && forall i | o <= i < o + n :: ByteDescribed(es, cs, env, i)
  }

  lemma MovedDescribes(src: seq<Elem>, dst: seq<Elem>, es0: seq<Elem>, es: seq<Elem>, o1: nat, o2: nat, n: nat, cs1: seq<CByte>, cs2: seq<CByte>, env: Env)
    requires HeadsOk(src) && 0 < n && o1 + n <= |src| && o2 + n <= |dst| && Marked(dst, es0, o2, n) && Moved(src, es0, es, o1, o2, n, n)
    requires DescribesRange(src, cs1, env, o1, n) && DescribesOutside(es0, cs2, env, o2, n)
    ensures Describes(es, Overwrite(cs2, o2, cs1[o1..o1 + n]), env)
  {
    var cs := Overwrite(cs2, o2, cs1[o1..o1 + n]);
    forall i | 0 <= i < |es| ensures ByteDescribed(es, cs, env, i) {
      if o2 <= i < o2 + n {
        var k := i - o2;
        assert MovedByte(src, es, o1, o2, n, k);
        assert ByteDescribed(src, cs1, env, o1 + k);
        if IsPtr(TypeAt(es, i)) {
          Behind(src, o1 + k, o1 + k);
          assert k + 8 <= n;
          assert forall j | i <= j < i + 8 :: cs[j] == cs1[o1 + (j - o2)];
          assert cs[i..i + 8] == cs1[o1 + k..o1 + k + 8];
          assert es[i] == es[i..i + 8][0] && src[o1 + k] == src[o1 + k..o1 + k + 8][0];
        }
      } else {
        assert ByteDescribed(es0, cs2, env, i);
        if IsPtr(TypeAt(es, i)) && i + 8 <= |es| {
          assert es[i..i + 8] == es0[i..i + 8];
          assert cs[i..i + 8] == cs2[i..i + 8];
        }
      }
    }
  }

  // ---- moves within one array ----

  /** A move within an array to a place further up in its own source range: the copy loop comes to bytes that it has
      written. */
  predicate Overtakes(o1: nat, o2: nat, n: nat) { o1 < o2 < o1 + n }

  /** The first j of eight bytes have been copied. */
  predicate CopiedAt(es0: seq<Elem>, es: seq<Elem>, from: nat, to: nat, j: nat, k: nat)
    requires from + 8 <= |es0| == |es| && to + 8 <= |es| && j <= 8 && k < |es|
  {
    es[k] == if to <= k < to + j then es0[from + (k - to)] else es0[k]
  }

  lemma {:induction false} CopyUpRuns(es0: seq<Elem>, es: seq<Elem>, from: nat, to: nat, j: nat)
    requires from + 8 <= |es0| == |es| && to + 8 <= |es| && j <= 8 && !(from < to < from + 8)
    requires forall k | 0 <= k < |es| :: CopiedAt(es0, es, from, to, j, k)
    ensures CopyUp(es, from, to, j) == CopyEight(es0, es0, from, to)
    decreases 8 - j
  {
    if j < 8 {
      assert CopiedAt(es0, es, from, to, j, from + j);
      var es', next := es[to + j := es[from + j]], j + 1;
      forall k | 0 <= k < |es'| ensures CopiedAt(es0, es', from, to, next, k) { assert CopiedAt(es0, es, from, to, j, k); }
      CopyUpRuns(es0, es', from, to, next);
    } else {
      forall k | 0 <= k < |es| ensures es[k] == CopyEight(es0, es0, from, to)[k] {
        assert CopiedAt(es0, es, from, to, j, k);
        if to <= k < to + 8 { assert es0[from..from + 8][k - to] == es0[from + (k - to)]; }
      }
      assert es == CopyEight(es0, es0, from, to);
    }
  }

  /** If it does not come to bytes it has written, the loop is the one that reads the array as it was before. */
  lemma {:induction false} WithinIsLoop(src: seq<Elem>, es: seq<Elem>, o1: nat, o2: nat, n: nat, i: nat)
    requires o1 + n <= |src| == |es| && o2 + n <= |es| && !Overtakes(o1, o2, n) && o1 != o2
    requires forall k | o1 + i <= k < o1 + n :: es[k] == src[k]
    ensures MoveWithin(es, o1, o2, n, i) == MoveLoop(src, es, o1, o2, n, i)
    decreases n - i
  {
    if i < n {
      hide MoveByte, MoveByteWithin;
      WithinIsStep(src, es, o1, o2, n, i);
      StepStays(src, es, o1, o2, n, i);
      WithinIsLoop(src, MoveByte(src, es, o1, o2, n, i), o1, o2, n, MoveNext(src, o1, i));
    }
  }

  lemma WithinIsStep(src: seq<Elem>, es: seq<Elem>, o1: nat, o2: nat, n: nat, i: nat)
    requires i < n && o1 + n <= |src| == |es| && o2 + n <= |es| && !Overtakes(o1, o2, n)
    requires forall k | o1 + i <= k < o1 + n :: es[k] == src[k]
    ensures es[o1 + i] == src[o1 + i] && MoveByteWithin(es, o1, o2, n, i) == MoveByte(src, es, o1, o2, n, i)
  {
    hide CopyUp;
    assert es[o1 + i] == src[o1 + i];
    if IsPtr(src[o1 + i].ty) && n - i >= 8 {
      CopyUpRuns(es, es, o1 + i, o2 + i, 0);
      assert es[o1 + i..o1 + i + 8] == src[o1 + i..o1 + i + 8];
    }
  }

  /** A step changes nothing but the bytes it moves. */
  lemma StepStays(src: seq<Elem>, es: seq<Elem>, o1: nat, o2: nat, n: nat, i: nat)
    requires i < n && o1 + n <= |src| && o2 + n <= |es|
    ensures forall k | 0 <= k < |es| && !(o2 + i <= k < o2 + Min(MoveNext(src, o1, i), n)) :: MoveByte(src, es, o1, o2, n, i)[k] == es[k]
  {
  }

  lemma MovedTypeAt(dst: seq<Elem>, es0: seq<Elem>, es: seq<Elem>, o1: nat, o2: nat, n: nat, i: nat)
    requires i < n && o1 + n <= |es| && o2 + n <= |dst| && Marked(dst, es0, o2, n) && Moved(es, es0, es, o1, o2, n, i)
    ensures !IsTail(TypeAt(es, o2 + i))
  {
    assert es[o2 + i] == es0[o2 + i] && !IsTail(TypeAt(es0, o2 + i));
  }

  /** Behind the bytes moved so far no pointer that begins in front goes on. */
  lemma NothingReaches(dst: seq<Elem>, es0: seq<Elem>, es: seq<Elem>, o1: nat, o2: nat, n: nat, i: nat, h: nat)
    requires i < n && o1 + n <= |es| && o2 + n <= |dst| && Marked(dst, es0, o2, n) && HeadsOk(es) && Moved(es, es0, es, o1, o2, n, i)
    requires h < o2 + i && IsPtr(TypeAt(es, h))
    ensures h + 8 <= o2 + i
  {
    if h + 8 > o2 + i {
      Behind(es, h, o2 + i);
      MovedTypeAt(dst, es0, es, o1, o2, n, i);
    }
  }

  /** The byte has also been moved from an array that agrees where it came from. */
  lemma MovedFrom(src: seq<Elem>, src': seq<Elem>, es: seq<Elem>, o1: nat, o2: nat, n: nat, k: nat)
    requires k < n && o1 + n <= |src| == |src'| && o2 + n <= |es| && MovedByte(src, es, o1, o2, n, k)
    requires src'[o1 + k] == src[o1 + k]
    requires IsPtr(TypeAt(es, o2 + k)) && k + 8 <= n ==> src'[o1 + k..o1 + k + 8] == src[o1 + k..o1 + k + 8]
    ensures MovedByte(src', es, o1, o2, n, k)
  {
  }

  /** A step of a loop that overtakes itself, seen as a step from the array it leaves. */
  lemma OvertakingStep(dst: seq<Elem>, es0: seq<Elem>, es: seq<Elem>, o1: nat, o2: nat, n: nat, i: nat)
    requires i < n && o2 + n <= |dst| == |es| && Overtakes(o1, o2, n) && Marked(dst, es0, o2, n) && HeadsOk(es) && Moved(es, es0, es, o1, o2, n, i)
    ensures var es' := MoveByteWithin(es, o1, o2, n, i);
            HeadsOk(es') && Moved(es', es0, es', o1, o2, n, Min(MoveNext(es, o1, i), n))
  {
    hide MoveByte, MoveByteWithin, MovedByte, Marked, HeadsOk;
    var m := Min(MoveNext(es, o1, i), n);
    var es' := MoveByte(es, es, o1, o2, n, i);
    OvertakingCopy(dst, es0, es, o1, o2, n, i);
    MoveStep(es, es0, es, o1, o2, n, i);
    MovedHeads(es, dst, es0, es', o1, o2, n, m);
    StepStays(es, es, o1, o2, n, i);
    forall k | 0 <= k < m ensures MovedByte(es', es', o1, o2, n, k) {
      assert MovedByte(es, es', o1, o2, n, k);
      SourceStays(dst, es0, es, es', o1, o2, n, i, k);
      MovedFrom(es, es', es', o1, o2, n, k);
    }
  }

  lemma OvertakingCopy(dst: seq<Elem>, es0: seq<Elem>, es: seq<Elem>, o1: nat, o2: nat, n: nat, i: nat)
    requires i < n && o2 + n <= |dst| == |es| && Overtakes(o1, o2, n) && Marked(dst, es0, o2, n) && HeadsOk(es) && Moved(es, es0, es, o1, o2, n, i)
    ensures MoveByteWithin(es, o1, o2, n, i) == MoveByte(es, es, o1, o2, n, i)
  {
    hide Marked, Moved, HeadsOk, CopyUp;
    if IsPtr(es[o1 + i].ty) && n - i >= 8 {
      NothingReaches(dst, es0, es, o1, o2, n, i, o1 + i);
      CopyUpRuns(es, es, o1 + i, o2 + i, 0);
    }
  }

  lemma SourceStays(dst: seq<Elem>, es0: seq<Elem>, es: seq<Elem>, es': seq<Elem>, o1: nat, o2: nat, n: nat, i: nat, k: nat)
    requires i < n && o2 + n <= |dst| == |es| && Overtakes(o1, o2, n) && Marked(dst, es0, o2, n) && HeadsOk(es) && Moved(es, es0, es, o1, o2, n, i)
    requires |es'| == |es| && k < Min(MoveNext(es, o1, i), n) && MovedByte(es, es', o1, o2, n, k)
    requires forall j | 0 <= j < o2 + i :: es'[j] == es[j]
    ensures es'[o1 + k] == es[o1 + k]
    ensures IsPtr(TypeAt(es', o2 + k)) && k + 8 <= n ==> es'[o1 + k..o1 + k + 8] == es[o1 + k..o1 + k + 8]
  {
    if IsPtr(TypeAt(es, o1 + i)) { NothingReaches(dst, es0, es, o1, o2, n, i, o1 + i); }
    assert o1 + k < o2 + i;
    if IsPtr(TypeAt(es', o2 + k)) {
      assert IsPtr(TypeAt(es, o1 + k));
      NothingReaches(dst, es0, es, o1, o2, n, i, o1 + k);
    }
  }

  lemma {:induction false} OvertakingRuns(dst: seq<Elem>, es0: seq<Elem>, es: seq<Elem>, o1: nat, o2: nat, n: nat, i: nat)
    requires o2 + n <= |dst| == |es| && Overtakes(o1, o2, n) && Marked(dst, es0, o2, n) && HeadsOk(es) && Moved(es, es0, es, o1, o2, n, Min(i, n))
    ensures var r := MoveWithin(es, o1, o2, n, i);
            HeadsOk(r) && Moved(r, es0, r, o1, o2, n, n)
    decreases n - i
  {
    if i < n {
      OvertakingStep(dst, es0, es, o1, o2, n, i);
      hide Moved, Marked, MoveByteWithin, HeadsOk;
      OvertakingRuns(dst, es0, MoveByteWithin(es, o1, o2, n, i), o1, o2, n, MoveNext(es, o1, i));
    }
  }

  /** Does the move mark anything at all? */
  predicate Marks(same: bool, o1: nat, o2: nat) { !(same && o1 == o2) }

  /** Where the bytes of the range come from: within one array that is what marking left, or the result itself if the loop
      overtakes itself. */
  function Source(src: seq<Elem>, dst: seq<Elem>, same: bool, o1: nat, o2: nat, n: nat): seq<Elem>
    requires o1 + n <= |src| && o2 + n <= |dst| && (same ==> src == dst)
    requires Mark(dst, o2, n, 0).Some? && MoveElements(src, dst, same, o1, o2, n).Some?
  {
    if !same then src else if Overtakes(o1, o2, n) then MoveElements(src, dst, same, o1, o2, n).value else Mark(dst, o2, n, 0).value
  }

  lemma MoveIsMoved(src: seq<Elem>, dst: seq<Elem>, same: bool, o1: nat, o2: nat, n: nat)
    requires 0 < n && o1 + n <= |src| && o2 + n <= |dst| && (same ==> src == dst) && HeadsOk(src) && HeadsOk(dst)
    requires Marks(same, o1, o2) && MoveElements(src, dst, same, o1, o2, n).Some?
    ensures Mark(dst, o2, n, 0).Some? && Marked(dst, Mark(dst, o2, n, 0).value, o2, n)
    ensures var from := Source(src, dst, same, o1, o2, n);
            && |from| == |src| && HeadsOk(from)
            && Moved(from, Mark(dst, o2, n, 0).value, MoveElements(src, dst, same, o1, o2, n).value, o1, o2, n, n)
  {
    hide Mark, Moved, MoveLoop, MoveWithin, Marked, HeadsOk;
    MarkMeaning(dst, o2, n);
    var es := Mark(dst, o2, n, 0).value;
    MarkedHeads(dst, es, o2, n);
    var from := if same then es else src;
    MovedNothing(from, es, o1, o2, n);
    if same && Overtakes(o1, o2, n) {
      OvertakingRuns(dst, es, es, o1, o2, n, 0);
    } else {
      if same { WithinIsLoop(es, es, o1, o2, n, 0); }
      MoveRuns(from, es, es, o1, o2, n, 0);
    }
  }

  lemma MarkedHeads(es0: seq<Elem>, es: seq<Elem>, o: nat, n: nat)
    requires 0 < n && o + n <= |es0| && Marked(es0, es, o, n)
    ensures HeadsOk(es) && |es| == |es0|
  {
  }

  lemma MovedNothing(src: seq<Elem>, es: seq<Elem>, o1: nat, o2: nat, n: nat)
    requires o1 + n <= |src| && o2 + n <= |es|
    ensures Moved(src, es, es, o1, o2, n, 0)
  {
  }

  /** A move between two states, or one within a state that does not overtake itself, describes the bytes the machine then
      has, unless a taint was lost that a byte did carry. */
  lemma MoveSound(src: seq<Elem>, dst: seq<Elem>, same: bool, o1: nat, o2: nat, n: nat, cs1: seq<CByte>, cs2: seq<CByte>, env: Env)
    requires 0 < n && o1 + n <= |src| == |cs1| && o2 + n <= |dst| == |cs2| && HeadsOk(src) && HeadsOk(dst)
    requires same ==> src == dst && cs1 == cs2 && !Overtakes(o1, o2, n)
    requires MoveElements(src, dst, same, o1, o2, n).Some?
    requires Describes(src, cs1, env) && Describes(dst, cs2, env) && (Marks(same, o1, o2) ==> Spared(dst, o2, cs2))
    ensures Describes(MoveElements(src, dst, same, o1, o2, n).value, Overwrite(cs2, o2, cs1[o1..o1 + n]), env)
  {
    if !Marks(same, o1, o2) {
      assert Overwrite(cs2, o2, cs1[o1..o1 + n]) == cs2;
    } else {
      MoveIsMoved(src, dst, same, o1, o2, n);
      var es := Mark(dst, o2, n, 0).value;
      var from := Source(src, dst, same, o1, o2, n);
      hide Mark, MoveElements, Moved, Marked, Spared, ByteDescribed;
      MarkDescribes(dst, es, o2, n, cs2, env);
      assert DescribesRange(from, cs1, env, o1, n);
      MovedDescribes(from, dst, es, MoveElements(src, dst, same, o1, o2, n).value, o1, o2, n, cs1, cs2, env);
    }
  }

  /** The concrete bytes after a move are among those the elements stand for, whatever they were before. */
  ghost predicate MoveDescribes(src: seq<Elem>, dst: seq<Elem>, same: bool, o1: nat, o2: nat, n: nat, env: Env, cs1: seq<CByte>, cs2: seq<CByte>)
    requires o1 + n <= |src| && o2 + n <= |dst| && (same ==> src == dst) && MoveElements(src, dst, same, o1, o2, n).Some?
  {
    |cs1| == |src| && |cs2| == |dst| && Describes(MoveElements(src, dst, same, o1, o2, n).value, Overwrite(cs2, o2, cs1[o1..o1 + n]), env)
  }

  /** Exactly when a move is sound for everything the states may stand for. */
  lemma MoveSoundIff(src: seq<Elem>, dst: seq<Elem>, same: bool, o1: nat, o2: nat, n: nat, cs1: seq<CByte>, cs2: seq<CByte>, env: Env)
    requires 0 < n && o1 + n <= |src| && o2 + n <= |dst| && HeadsOk(src) && HeadsOk(dst)
    requires same ==> src == dst && cs1 == cs2 && !Overtakes(o1, o2, n)
    requires MoveElements(src, dst, same, o1, o2, n).Some? && Describes(src, cs1, env) && Describes(dst, cs2, env)
    ensures (forall cs, cs' | Describes(src, cs, env) && Describes(dst, cs', env) && (same ==> cs == cs') ::
               MoveDescribes(src, dst, same, o1, o2, n, env, cs, cs'))
       <==> !(Marks(same, o1, o2) && TaintLost(dst, o2))
  {
    if Marks(same, o1, o2) && TaintLost(dst, o2) {
      var cs' := TaintedAt(dst, cs2, env, LostAt(dst, o2));
      var cs := if same then cs' else cs1;
      MoveLoses(src, dst, same, o1, o2, n);
      hide MoveElements;
      assert !ByteDescribed(MoveElements(src, dst, same, o1, o2, n).value, Overwrite(cs', o2, cs[o1..o1 + n]), env, LostAt(dst, o2));
      assert !MoveDescribes(src, dst, same, o1, o2, n, env, cs, cs');
    } else {
      forall cs, cs' | Describes(src, cs, env) && Describes(dst, cs', env) && (same ==> cs == cs')
        ensures MoveDescribes(src, dst, same, o1, o2, n, env, cs, cs')
      {
        MoveSound(src, dst, same, o1, o2, n, cs, cs', env);
      }
    }
  }

  /** The state stands for the bytes, the move does not throw, and no byte loses a taint it carries. */
  ghost predicate MovesWithin(es: seq<Elem>, cs: seq<CByte>, env: Env, o1: nat, o2: nat, n: nat) {
    && 0 < n && o1 + n <= |es| == |cs| && o2 + n <= |es| && HeadsOk(es) && Describes(es, cs, env)
    && MoveElements(es, es, true, o1, o2, n).Some? && (Marks(true, o1, o2) ==> Spared(es, o2, cs))
  }

  ghost predicate SoundWithin(env: Env, o1: nat, o2: nat, n: nat) {
    forall es, cs | MovesWithin(es, cs, env, o1, o2, n) :: MoveDescribes(es, es, true, o1, o2, n, env, cs, cs)
  }

  /** Moves within one state are sound for every state it may be if and only if the loop does not come to bytes it has
      written. */
  lemma SoundWithinIff(env: Env, o1: nat, o2: nat, n: nat)
    requires 0 < n
    ensures SoundWithin(env, o1, o2, n) <==> !Overtakes(o1, o2, n)
  {
    if Overtakes(o1, o2, n) {
      var cs := Striped(o1, o2 + n);
      var es := StripedElems(o1, o2 + n);
      OvertakingWrong(env, o1, o2, n);
      assert MovesWithin(es, cs, env, o1, o2, n) && !MoveDescribes(es, es, true, o1, o2, n, env, cs, cs);
    } else {
      forall es, cs | MovesWithin(es, cs, env, o1, o2, n) ensures MoveDescribes(es, es, true, o1, o2, n, env, cs, cs) {
        MoveSound(es, es, true, o1, o2, n, cs, cs, env);
      }
    }
  }

  /** Zero at one place, one everywhere else; all of it known. */
  function Striped(o: nat, size: nat): (cs: seq<CByte>) { seq(size, k => CByte(if k == o then 0 else 1, false)) }

  function StripedElems(o: nat, size: nat): (es: seq<Elem>) { seq(size, k => Elem(Immediate, 0, if k == o then 0 else 1)) }

  /** The byte at o2, moved on, is said to be the one at o1. */
  lemma OvertakingWrong(env: Env, o1: nat, o2: nat, n: nat)
    requires Overtakes(o1, o2, n)
    ensures var es, cs := StripedElems(o1, o2 + n), Striped(o1, o2 + n);
            MovesWithin(es, cs, env, o1, o2, n) && !MoveDescribes(es, es, true, o1, o2, n, env, cs, cs)
  {
    var es, cs := StripedElems(o1, o2 + n), Striped(o1, o2 + n);
    StripedMoves(env, o1, o2, n);
    StripedArrives(o1, o2, n);
    hide MoveElements, HeadsOk, Spared;
    var r := MoveElements(es, es, true, o1, o2, n).value;
    assert cs[o1..o1 + n][o2 - o1] == cs[o2];
    assert !ByteDescribed(r, Overwrite(cs, o2, cs[o1..o1 + n]), env, o2 + (o2 - o1));
  }

  lemma StripedArrives(o1: nat, o2: nat, n: nat)
    requires Overtakes(o1, o2, n) && HeadsOk(StripedElems(o1, o2 + n))
    requires MoveElements(StripedElems(o1, o2 + n), StripedElems(o1, o2 + n), true, o1, o2, n).Some?
    ensures var r := MoveElements(StripedElems(o1, o2 + n), StripedElems(o1, o2 + n), true, o1, o2, n).value;
            r[o2 + (o2 - o1)].ty == Immediate && r[o2 + (o2 - o1)].data == 0
  {
    var es := StripedElems(o1, o2 + n);
    MoveIsMoved(es, es, true, o1, o2, n);
    hide Mark, MoveElements, HeadsOk;
    var es0 := Mark(es, o2, n, 0).value;
    var r := MoveElements(es, es, true, o1, o2, n).value;
    assert TypeAt(es0, o1) == Immediate && es0[o1].data == 0 by { StripedStays(es, es0, o1, o2, n); }
    assert r[o1] == es0[o1];
    assert MovedByte(r, r, o1, o2, n, 0);
    assert MovedByte(r, r, o1, o2, n, o2 - o1);
  }

  /** Without pointers marking changes nothing in front of the range. */
  lemma StripedStays(es: seq<Elem>, es0: seq<Elem>, o1: nat, o2: nat, n: nat)
    requires Overtakes(o1, o2, n) && es == StripedElems(o1, o2 + n) && Mark(es, o2, n, 0) == Some(es0)
    ensures es0[o1] == es[o1]
  {
    PlainStays(es, o2, n, 0, o1);
  }

  lemma {:induction false} PlainStays(es: seq<Elem>, o: nat, n: nat, i: nat, k: nat)
    requires i <= n && k < o && o + n <= |es| && Mark(es, o, n, i).Some?
    requires forall j | o <= j < o + n :: !IsTail(es[j].ty) && !IsPtr(es[j].ty)
    ensures Mark(es, o, n, i).value[k] == es[k]
    decreases n - i
  {
    if i < n { PlainStays(MarkByte(es, o, i).value, o, n, i + 1, k); }
  }

  lemma StripedMoves(env: Env, o1: nat, o2: nat, n: nat)
    requires Overtakes(o1, o2, n)
    ensures var es, cs := StripedElems(o1, o2 + n), Striped(o1, o2 + n);
            |es| == |cs| == o2 + n && HeadsOk(es) && MovesWithin(es, cs, env, o1, o2, n)
  {
    hide Mark;
    var es, cs := StripedElems(o1, o2 + n), Striped(o1, o2 + n);
    forall k | 0 <= k < |es| ensures ByteDescribed(es, cs, env, k) { assert TypeAt(es, k) == Immediate; }
    MarkMeaning(es, o2, n);
    forall k | o2 < k < o2 + n ensures !IsTail(TypeAt(es, k)) { }
    assert !MarkThrows(es, o2, n);
  }

  lemma MoveLoses(src: seq<Elem>, dst: seq<Elem>, same: bool, o1: nat, o2: nat, n: nat)
    requires 0 < n && o1 + n <= |src| && o2 + n <= |dst| && HeadsOk(src) && HeadsOk(dst) && (same ==> src == dst)
    requires MoveElements(src, dst, same, o1, o2, n).Some? && Marks(same, o1, o2) && TaintLost(dst, o2)
    ensures 0 <= LostAt(dst, o2) < o2 && !StackDerived(TypeAt(MoveElements(src, dst, same, o1, o2, n).value, LostAt(dst, o2)))
  {
    MoveIsMoved(src, dst, same, o1, o2, n);
    hide Mark, MoveElements, HeadsOk, TailsOk;
    assert WeakenedByte(dst, Mark(dst, o2, n, 0).value, LostAt(dst, o2), LostAt(dst, o2));
  }

  /** Exactly when a move throws, between two states or within one. Every head keeps its tails, and every tail its head
      unless the last byte of the range was a head. */
  lemma MoveExact(src: seq<Elem>, dst: seq<Elem>, same: bool, o1: nat, o2: nat, n: nat)
    requires 0 < n && o1 + n <= |src| && o2 + n <= |dst| && HeadsOk(src) && HeadsOk(dst) && (same ==> src == dst)
    ensures MoveElements(src, dst, same, o1, o2, n).Some? <==> !(Marks(same, o1, o2) && MarkThrows(dst, o2, n))
    ensures MoveElements(src, dst, same, o1, o2, n).Some? ==> HeadsOk(MoveElements(src, dst, same, o1, o2, n).value)
    ensures MoveElements(src, dst, same, o1, o2, n).Some? && TailsOk(dst) && !(Marks(same, o1, o2) && LastIsHead(dst, o2, n)) ==>
              TailsOk(MoveElements(src, dst, same, o1, o2, n).value)
  {
    if Marks(same, o1, o2) {
      MarkMeaning(dst, o2, n);
      if Mark(dst, o2, n, 0).Some? {
        MoveIsMoved(src, dst, same, o1, o2, n);
        var es := Mark(dst, o2, n, 0).value;
        var from := Source(src, dst, same, o1, o2, n);
        hide Mark, MoveElements, Moved, Marked, TailsOk, Source;
        MovedHeads(from, dst, es, MoveElements(src, dst, same, o1, o2, n).value, o1, o2, n, n);
        if TailsOk(dst) && !LastIsHead(dst, o2, n) {
          MovedTails(from, dst, es, MoveElements(src, dst, same, o1, o2, n).value, o1, o2, n);
        }
      }
    }
  }
}

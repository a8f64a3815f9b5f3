/** The join keeps what both sides know: of all arrays that stand for what either side stands for, it stands for the
    least. */
module MergeLeast {
  import opened ProgramState
  import opened MergeElements

  /** m stands for everything l does. */
  ghost predicate Above(m: seq<Elem>, l: seq<Elem>) {
    |m| == |l| && forall cs: seq<CByte>, env: Env | Describes(l, cs, env) :: Describes(m, cs, env)
  }

  // ---- bytes an array stands for ----

  ghost predicate Covers(es: seq<Elem>, h: int, k: int) {
    0 <= h <= k < h + 8 <= |es| && IsPtr(TypeAt(es, h))
  }

  lemma OneCover(es: seq<Elem>, h: int, h': int, k: int)
    requires HeadsOk(es) && Covers(es, h, k) && Covers(es, h', k)
    ensures h == h'
  {
    if h < h' { Behind(es, h, h'); }
    if h' < h { Behind(es, h', h); }
  }

  ghost function PtrAt(es: seq<Elem>, env: Env, h: nat): seq<Byte>
    requires h + 8 <= |es|
  {
    PtrBytes(env, es[h].ty, es[h].nr, Word(Datas(es[h..h + 8])))
  }

  /** Bytes of which nothing is known are v; what may be derived from the stack pointer is. */
  ghost function Sample(es: seq<Elem>, env: Env, v: Byte): (cs: seq<CByte>)
    ensures |cs| == |es|
  {
    seq(|es|, k requires 0 <= k < |es| => SampleByte(es, env, v, k))
  }

  ghost function SampleByte(es: seq<Elem>, env: Env, v: Byte, k: nat): CByte
    requires k < |es|
  {
    var b: Byte := if es[k].ty == Immediate then es[k].data else if h: nat :| Covers(es, h, k) then PtrAt(es, env, h)[k - h] else v;
    CByte(b, StackDerived(es[k].ty))
  }

  lemma SampleInside(es: seq<Elem>, env: Env, v: Byte, h: nat, k: nat)
    requires HeadsOk(es) && Covers(es, h, k)
    ensures SampleByte(es, env, v, k).val == PtrAt(es, env, h)[k - h] && es[k].ty != Immediate
  {
    Behind(es, h, k);
    forall h': nat | Covers(es, h', k) ensures h' == h { OneCover(es, h, h', k); }
    hide PtrAt;
  }

  lemma SampleDescribed(es: seq<Elem>, env: Env, v: Byte)
    requires HeadsOk(es)
    ensures Describes(es, Sample(es, env, v), env)
  {
    var cs := Sample(es, env, v);
    forall k | 0 <= k < |es| ensures ByteDescribed(es, cs, env, k) {
      if IsPtr(TypeAt(es, k)) && k + 8 <= |es| {
        forall j | 0 <= j < 8 ensures cs[k..k + 8][j].val == PtrAt(es, env, k)[j] { SampleInside(es, env, v, k, k + j); }
        assert Vals(cs[k..k + 8]) == PtrAt(es, env, k);
      }
    }
  }

  // ---- words that tell pointers apart ----

  lemma {:induction false} BytesWrap(v: nat, n: nat)
    ensures Bytes(v + Pow256(n), n) == Bytes(v, n)
  {
    if n > 0 {
      var p := Pow256(n - 1);
      assert (v + 256 * p) % 256 == v % 256 && (v + 256 * p) / 256 == v / 256 + p;
      BytesWrap(v / 256, n - 1);
    }
  }

  lemma {:induction false} OneByte(j: nat, n: nat)
    requires j < n
    ensures Bytes(0, n)[j] == 0 && Bytes(Pow256(j), n)[j] == 1
  {
    if j > 0 {
      assert Pow256(j) / 256 == Pow256(j - 1);
      OneByte(j - 1, n - 1);
    }
  }

  lemma {:induction false} ZeroBehind(j: nat, n: nat)
    requires 0 < j < n
    ensures Bytes(1, n)[j] == 0 && Bytes(0, n)[j] == 0
  {
    OneByte(j - 1, n - 1);
  }

  /** Base addresses: one for a kind and number, another for all others. */
  function Based(ty: DynType, nr: int, at: nat, others: nat): Env {
    (t: DynType, n: int) => if t == ty && n == nr then at else others
  }

  /** The base with which a pointer of this offset comes to an address. */
  function BaseFor(off: Word64, address: nat): nat { 0x1_0000_0000_0000_0000 - off + address }

  lemma Comes(off: Word64, address: nat)
    ensures Bytes(BaseFor(off, address) + off, 8) == Bytes(address, 8)
  {
    PowEight();
    BytesWrap(address, 8);
  }

  lemma OffsetIs(es: seq<Elem>, h: nat)
    requires h + 8 <= |es|
    ensures Word(Datas(es[h..h + 8])) < 0x1_0000_0000_0000_0000
  {
    PowEight();
    WordBounded(Datas(es[h..h + 8]));
  }

  lemma WordBack(x: Word64)
    ensures Word(Bytes(x, 8)) == x
  {
    hide Bytes, Word;
    PowEight();
    hide Pow256;
    WordOfBytes(x, 8);
  }

  lemma SameOffset(x: Word64, y: Word64)
    requires Bytes(x, 8) == Bytes(y, 8)
    ensures x == y
  {
    hide *;
    WordBack(x);
    WordBack(y);
  }

  lemma {:induction false} SameBytes(a: seq<Byte>, b: seq<Byte>)
    requires |a| == |b| && Word(a) == Word(b)
    ensures a == b
  {
    if a != [] {
      SameBytes(a[1..], b[1..]);
      assert a == [a[0]] + a[1..] && b == [b[0]] + b[1..];
    }
  }

  // ---- what an array above another can know ----

  lemma AboveTaint(l: seq<Elem>, m: seq<Elem>, k: nat)
    requires HeadsOk(l) && Above(m, l) && k < |l| && StackDerived(l[k].ty)
    ensures StackDerived(m[k].ty)
  {
    var env := Based(UsrPtr, 0, 0, 0);
    SampleDescribed(l, env, 0);
    assert ByteDescribed(m, Sample(l, env, 0), env, k);
  }

  /** If nothing is known of the byte, two bytes can be there. */
  lemma FreeByte(l: seq<Elem>, m: seq<Elem>, env: Env, k: nat)
    requires HeadsOk(l) && Above(m, l) && k < |l| && l[k].ty != Immediate && forall h: nat :: !Covers(l, h, k)
    ensures m[k].ty != Immediate && !(IsPtr(m[k].ty) && k + 8 <= |m|)
  {
    SampleDescribed(l, env, 0);
    SampleDescribed(l, env, 1);
    var a, b := Sample(l, env, 0), Sample(l, env, 1);
    assert a[k].val == 0 && b[k].val == 1;
    assert ByteDescribed(m, a, env, k) && ByteDescribed(m, b, env, k);
    assert k + 8 <= |m| ==> Vals(a[k..k + 8])[0] == a[k].val && Vals(b[k..k + 8])[0] == b[k].val;
  }

  /** With the pointer at h based so that it comes to an address, the bytes there are those of the address. */
  lemma SampleAddress(l: seq<Elem>, h: nat, k: nat, address: nat)
    requires HeadsOk(l) && Covers(l, h, k)
    ensures SampleByte(l, Coming(l, h, address), 0, k).val == Bytes(address, 8)[k - h]
  {
    SampleInside(l, Coming(l, h, address), 0, h, k);
    OffsetIs(l, h);
    Comes(Word(Datas(l[h..h + 8])), address);
    hide Bytes, Word, SampleByte, BaseFor;
  }

  /** Bases with which the pointer at h comes to an address; all others are 0. */
  ghost function Coming(es: seq<Elem>, h: nat, address: nat): Env
    requires h + 8 <= |es|
  {
    OffsetIs(es, h);
    Based(es[h].ty, es[h].nr, BaseFor(Word(Datas(es[h..h + 8])), address), 0)
  }

  lemma PtrComes(es: seq<Elem>, h: nat, address: nat)
    requires h + 8 <= |es|
    ensures PtrAt(es, Coming(es, h, address), h) == Bytes(address, 8)
  {
    OffsetIs(es, h);
    Comes(Word(Datas(es[h..h + 8])), address);
    hide Bytes, Word, BaseFor;
  }

  lemma SampleValue(l: seq<Elem>, m: seq<Elem>, env: Env, k: nat)
    requires HeadsOk(l) && Above(m, l) && k < |l| && m[k].ty == Immediate
    ensures SampleByte(l, env, 0, k).val == m[k].data
  {
    SampleDescribed(l, env, 0);
    hide SampleByte;
    assert ByteDescribed(m, Sample(l, env, 0), env, k);
  }

  lemma AboveImmediate(l: seq<Elem>, m: seq<Elem>, k: nat)
    requires HeadsOk(l) && Above(m, l) && k < |l| && m[k].ty == Immediate
    ensures l[k].ty == Immediate && l[k].data == m[k].data
  {
    var env := Based(UsrPtr, 0, 0, 0);
    hide Above, Bytes, HeadsOk, Pow256;
    if l[k].ty == Immediate {
      SampleValue(l, m, env, k);
    } else if h: nat :| Covers(l, h, k) {
      hide SampleByte, Coming;
      SampleValue(l, m, Coming(l, h, 0), k);
      SampleValue(l, m, Coming(l, h, Pow256(k - h)), k);
      SampleAddress(l, h, k, 0);
      SampleAddress(l, h, k, Pow256(k - h));
      OneByte(k - h, 8);
    } else {
      FreeByte(l, m, env, k);
    }
  }

  /** The low byte of a pointer m knows of, in bytes that l stands for. */
  lemma LowByte(l: seq<Elem>, m: seq<Elem>, env: Env, k: nat)
    requires HeadsOk(l) && Above(m, l) && k + 8 <= |l| && IsPtr(m[k].ty)
    ensures SampleByte(l, env, 0, k).val == PtrAt(m, env, k)[0]
    ensures Vals(Sample(l, env, 0)[k..k + 8]) == PtrAt(m, env, k)
  {
    SampleDescribed(l, env, 0);
    var a := Sample(l, env, 0);
    assert ByteDescribed(m, a, env, k);
    assert Vals(a[k..k + 8])[0] == a[k].val;
  }

  lemma LowBits(address: nat)
    ensures Bytes(address, 8)[0] == address % 256
  {
  }

  lemma AbovePointer(l: seq<Elem>, m: seq<Elem>, k: nat)
    requires HeadsOk(l) && Above(m, l) && k + 8 <= |l| && IsPtr(m[k].ty)
    ensures l[k].ty == m[k].ty && l[k].nr == m[k].nr && Datas(l[k..k + 8]) == Datas(m[k..k + 8])
  {
    if h: nat :| Covers(l, h, k) {
      hide HeadsOk, Above;
      if l[h].ty != m[k].ty || l[h].nr != m[k].nr {
        OtherPointer(l, m, h, k);
      } else if h < k {
        InnerByte(l, m, h, k);
      } else {
        SamePlace(l, m, k);
      }
    } else if l[k].ty == Immediate {
      FixedByte(l, m, k);
    } else {
      FreeByte(l, m, Based(UsrPtr, 0, 0, 0), k);
    }
  }

  /** An immediate does not move with a pointer. */
  lemma FixedByte(l: seq<Elem>, m: seq<Elem>, k: nat)
    requires HeadsOk(l) && Above(m, l) && k + 8 <= |l| && IsPtr(m[k].ty)
    ensures l[k].ty != Immediate
  {
    assert |m| == |l|;
    hide Above, HeadsOk, Bytes, PtrAt, Coming;
    LowByte(l, m, Coming(m, k, 0), k);
    LowByte(l, m, Coming(m, k, 1), k);
    PtrComes(m, k, 0);
    PtrComes(m, k, 1);
    LowBits(0);
    LowBits(1);
  }

  /** Nor does another pointer. */
  lemma OtherPointer(l: seq<Elem>, m: seq<Elem>, h: nat, k: nat)
    requires HeadsOk(l) && Above(m, l) && k + 8 <= |l| && IsPtr(m[k].ty) && Covers(l, h, k)
    ensures l[h].ty == m[k].ty && l[h].nr == m[k].nr
  {
    var e, e' := Coming(m, k, 0), Coming(m, k, 1);
    if l[h].ty != m[k].ty || l[h].nr != m[k].nr {
      assert PtrAt(l, e, h) == PtrAt(l, e', h) by { hide Bytes, Word, HeadsOk, Above; }
      hide Above, HeadsOk, Bytes, Coming, SampleByte, Sample, PtrAt;
      SampleInside(l, e, 0, h, k);
      SampleInside(l, e', 0, h, k);
      LowestByte(l, m, k, 0);
      LowestByte(l, m, k, 1);
    }
  }

  /** If the pointer m knows of comes to an address, its low byte is that of the address. */
  lemma LowestByte(l: seq<Elem>, m: seq<Elem>, k: nat, address: nat)
    requires HeadsOk(l) && Above(m, l) && k + 8 <= |l| && IsPtr(m[k].ty)
    ensures SampleByte(l, Coming(m, k, address), 0, k).val == address % 256
  {
    var env := Coming(m, k, address);
    hide Above, HeadsOk, Bytes, Coming, SampleByte, Sample, PtrAt;
    LowByte(l, m, env, k);
    PtrComes(m, k, address);
    LowBits(address);
  }

  /** Higher bytes stay when the address grows by one from a multiple of 256. */
  lemma InnerByte(l: seq<Elem>, m: seq<Elem>, h: nat, k: nat)
    requires HeadsOk(l) && Above(m, l) && k + 8 <= |l| && IsPtr(m[k].ty) && Covers(l, h, k) && l[h].ty == m[k].ty && l[h].nr == m[k].nr
    ensures h == k
  {
    var base := AlongWith(l, m, h, k);
    if h < k { ZeroBehind(k - h, 8); }
    hide Above, HeadsOk, Bytes, Coming, PtrAt, SampleByte, Word, Sample, Describes;
    InnerIs(l, m, h, k, 0, base);
    InnerIs(l, m, h, k, 1, base + 1);
  }

  /** The byte at k by the pointer at h, and by the one m knows of. */
  lemma InnerIs(l: seq<Elem>, m: seq<Elem>, h: nat, k: nat, address: nat, address': nat)
    requires HeadsOk(l) && Above(m, l) && k + 8 <= |l| && IsPtr(m[k].ty) && Covers(l, h, k)
    requires PtrAt(m, Coming(l, h, address), k) == Bytes(address', 8)
    ensures Bytes(address, 8)[k - h] == address' % 256
  {
    var env := Coming(l, h, address);
    hide Above, HeadsOk, Bytes, Coming, PtrAt, SampleByte, Word, Sample;
    LowByte(l, m, env, k);
    SampleAddress(l, h, k, address);
    LowBits(address');
  }

  /** As the pointer at h moves by one, so does one of the same base. */
  lemma AlongWith(l: seq<Elem>, m: seq<Elem>, h: nat, k: nat) returns (base: nat)
    requires k + 8 <= |l| == |m| && Covers(l, h, k) && l[h].ty == m[k].ty && l[h].nr == m[k].nr
    ensures PtrAt(m, Coming(l, h, 0), k) == Bytes(base, 8) && PtrAt(m, Coming(l, h, 1), k) == Bytes(base + 1, 8)
  {
    hide Bytes, Word, Datas;
    OffsetIs(l, h);
    base := BaseFor(Word(Datas(l[h..h + 8])), 0) + Word(Datas(m[k..k + 8]));
  }

  lemma SamePlace(l: seq<Elem>, m: seq<Elem>, k: nat)
    requires HeadsOk(l) && Above(m, l) && k + 8 <= |l| && IsPtr(m[k].ty) && Covers(l, k, k) && l[k].ty == m[k].ty && l[k].nr == m[k].nr
    ensures Datas(l[k..k + 8]) == Datas(m[k..k + 8])
  {
    var e := Based(UsrPtr, 0, 0, 0);
    LowByte(l, m, e, k);
    SampleDescribed(l, e, 0);
    hide Above, HeadsOk, Bytes, Sample, Word;
    assert ByteDescribed(l, Sample(l, e, 0), e, k);
    OffsetIs(l, k);
    OffsetIs(m, k);
    SameOffset(Word(Datas(l[k..k + 8])), Word(Datas(m[k..k + 8])));
    SameBytes(Datas(l[k..k + 8]), Datas(m[k..k + 8]));
  }

  // ---- the join ----

  /** Whatever stands for all that either side stands for stands for all that the join does, taint included. */
  lemma MergeLeast(l: seq<Elem>, r: seq<Elem>, m: seq<Elem>)
    requires |l| == |r| && HeadsOk(l) && HeadsOk(r) && Above(m, l) && Above(m, r)
    ensures Above(m, Merge(l, r).0)
  {
    MergeFacts(l, r);
    hide Merge, Above, HeadsOk, MergedByte;
    MergedLeast(l, r, m, Merge(l, r).0);
  }

  lemma MergedLeast(l: seq<Elem>, r: seq<Elem>, m: seq<Elem>, j: seq<Elem>)
    requires |l| == |r| == |j| && HeadsOk(l) && HeadsOk(r) && Above(m, l) && Above(m, r)
    requires forall k | 0 <= k < |l| :: MergedByte(l, r, j, k)
    ensures Above(m, j)
  {
    forall cs: seq<CByte>, env: Env | Describes(j, cs, env) ensures Describes(m, cs, env) {
      forall k | 0 <= k < |m| ensures ByteDescribed(m, cs, env, k) {
        hide Above, Describes;
        LeastByte(l, r, m, j, cs, env, k);
      }
    }
  }

  /** The join of both: it stands for all that either does, and whatever else does stands for all it stands for. */
  ghost predicate LeastAbove(j: seq<Elem>, l: seq<Elem>, r: seq<Elem>) {
    Above(j, l) && Above(j, r) && forall m: seq<Elem> | Above(m, l) && Above(m, r) :: Above(m, j)
  }

  lemma MergeIsLeast(l: seq<Elem>, r: seq<Elem>)
    requires |l| == |r| && HeadsOk(l) && HeadsOk(r)
    ensures LeastAbove(Merge(l, r).0, l, r)
  {
    forall cs: seq<CByte>, env: Env | Describes(l, cs, env) || Describes(r, cs, env) ensures Describes(Merge(l, r).0, cs, env) {
      MergeJoins(l, r, cs, env);
    }
    hide Merge, HeadsOk, Describes;
    forall m: seq<Elem> | Above(m, l) && Above(m, r) ensures Above(m, Merge(l, r).0) { MergeLeast(l, r, m); }
  }

  lemma LeastByte(l: seq<Elem>, r: seq<Elem>, m: seq<Elem>, j: seq<Elem>, cs: seq<CByte>, env: Env, k: nat)
    requires |l| == |r| == |j| && HeadsOk(l) && HeadsOk(r) && Above(m, l) && Above(m, r)
    requires Describes(j, cs, env) && k < |m| && MergedByte(l, r, j, k)
    ensures ByteDescribed(m, cs, env, k)
  {
    assert ByteDescribed(j, cs, env, k);
    if cs[k].taint {
      if StackDerived(l[k].ty) { AboveTaint(l, m, k); } else { AboveTaint(r, m, k); }
    }
    if m[k].ty == Immediate {
      AboveImmediate(l, m, k);
      AboveImmediate(r, m, k);
    }
    if IsPtr(m[k].ty) && k + 8 <= |m| {
      AbovePointer(l, m, k);
      AbovePointer(r, m, k);
      assert Agreed(l, r, k) && SamePointer(l, r, j, k);
      assert j[k..k + 8][0] == j[k] && l[k..k + 8][0] == l[k];
    }
  }

  /** Where both sides have the same immediate or the same pointer, head and number and offset, it stays. */
  lemma MergeKeepsAgreed(l: seq<Elem>, r: seq<Elem>, k: nat)
    requires |l| == |r| && HeadsOk(l) && HeadsOk(r) && k < |l|
    ensures l[k].ty == Immediate && r[k].ty == Immediate && l[k].data == r[k].data ==> Merge(l, r).0[k] == l[k]
    ensures k + 8 <= |l| && IsPtr(l[k].ty) && r[k].ty == l[k].ty && r[k].nr == l[k].nr && Datas(l[k..k + 8]) == Datas(r[k..k + 8]) ==>
              Merge(l, r).0[k..k + 8] == l[k..k + 8]
  {
    MergeFacts(l, r);
    assert MergedByte(l, r, Merge(l, r).0, k);
    hide Merge;
  }

  /** Joining a state to itself changes nothing, and reports nothing. */
  lemma {:induction false} MergeSelf(l: seq<Elem>, i: nat)
    ensures MergeLoop(l, l, i) == (l, false)
    decreases |l| - i
  {
    if i < |l| { MergeSelf(l, MergeNext(l, l, i)); }
  }

  lemma MergeItself(l: seq<Elem>)
    ensures Merge(l, l) == (l, false)
  {
    MergeSelf(l, 0);
  }
}

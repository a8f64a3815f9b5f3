/** The join of two byte arrays, as the forward analysis computes it. */
module MergeElements {
  import opened ProgramState

  function PtrData(es: seq<Elem>, i: nat): seq<Byte>
    requires i < |es|
  {
    if i + 8 <= |es| then Datas(es[i..i + 8]) else Datas(es[i..])
  }

  /** One byte of the left side merged with the same byte of the right side, and whether that is
      reported as a change. */
  function MergeByte(l: seq<Elem>, r: seq<Elem>, i: nat): (m: (seq<Elem>, bool))
    requires i < |l| == |r|
    ensures |m.0| == |l|
  {
    var lt, rt := l[i].ty, r[i].ty;
    if lt == rt then
      if IsPtr(lt) then
        if l[i].nr != r[i].nr || PtrData(l, i) != PtrData(r, i) then (ClearTail(l, i), true) else (l, false)
      else if lt == Immediate && l[i].data != r[i].data then (Retype(l, i, Unknown), true)
      else (l, false)
    else if (lt == Dead && rt == Unknown) || (lt == Unknown && rt == Dead) then (Retype(l, i, Dead), false)
    else if StackDerived(lt) || StackDerived(rt) then
      if lt != Tainted then (Retype(l, i, Tainted), true) else (l, false)
    else if lt != Unknown then (Retype(l, i, Unknown), true)
    else (l, false)
  }

  /** Equal pointer types are compared as a whole and skipped. */
  function MergeNext(l: seq<Elem>, r: seq<Elem>, i: nat): nat
    requires i < |l| == |r|
  {
    if l[i].ty == r[i].ty && IsPtr(l[i].ty) then i + 8 else i + 1
  }

  function MergeLoop(l: seq<Elem>, r: seq<Elem>, i: nat): (m: (seq<Elem>, bool))
    requires |l| == |r|
    ensures |m.0| == |l|
    decreases |l| - i
  {
    if i >= |l| then (l, false)
    else
      var step := MergeByte(l, r, i);
      var rest := MergeLoop(step.0, r, MergeNext(l, r, i));
      (rest.0, step.1 || rest.1)
  }

  function Merge(l: seq<Elem>, r: seq<Elem>): (m: (seq<Elem>, bool))
    requires |l| == |r|
    ensures |m.0| == |l|
  {
    MergeLoop(l, r, 0)
  }

  /** How much a byte says: nothing and suspicious, nothing, something. */
  function Rank(t: DynType): nat {
    if t == Tainted then 0 else if t == Unknown || t == Dead then 1 else 2
  }

  /** The byte says less than before, or what was dead is only unknown. */
  predicate Dropped(l: seq<Elem>, m: seq<Elem>, k: nat)
    requires k < |l| == |m|
  {
    Rank(m[k].ty) < Rank(l[k].ty) || (l[k].ty == Dead && m[k].ty == Unknown)
  }

  /** What the merge has made of byte k. */
  ghost predicate MergedByte(l: seq<Elem>, r: seq<Elem>, m: seq<Elem>, k: nat)
    requires k < |l| == |r| == |m|
  {
    && m[k].data == l[k].data && m[k].nr == l[k].nr
    && (StackDerived(m[k].ty) <==> StackDerived(l[k].ty) || StackDerived(r[k].ty))
    && Rank(m[k].ty) <= Rank(l[k].ty) && Rank(m[k].ty) <= Rank(r[k].ty)
    && (Rank(m[k].ty) == 2 ==> m[k].ty == l[k].ty == r[k].ty)
    && (m[k].ty == Immediate ==> l[k].data == r[k].data)
    && (IsPtr(m[k].ty) ==> SamePointer(l, r, m, k))
    && (!Dropped(l, m, k) ==> m[k].ty == l[k].ty || (l[k].ty == Unknown && m[k].ty == Dead))
    && (Agreed(l, r, k) ==> m[k].ty == l[k].ty)
    && ((l[k].ty == Dead && r[k].ty == Unknown) || (l[k].ty == Unknown && r[k].ty == Dead) ==> m[k].ty == Dead)
    && (CommonHead(l, r, k) ==> IsPtr(m[k].ty) || forall j | k < j < k + 8 && j < |m| :: !IsTail(TypeAt(m, j)))
  }

  /** Both sides have the same immediate here, or the same pointer begins here. */
  predicate Agreed(l: seq<Elem>, r: seq<Elem>, k: nat)
    requires k < |l| == |r|
  {
    || (l[k].ty == r[k].ty == Immediate && l[k].data == r[k].data)
    || (CommonHead(l, r, k) && k + 8 <= |l| && l[k].nr == r[k].nr && Datas(l[k..k + 8]) == Datas(r[k..k + 8]))
  }

  /** Both sides have a pointer of the same kind here. */
  predicate CommonHead(l: seq<Elem>, r: seq<Elem>, k: nat)
    requires k < |l| == |r|
  {
    l[k].ty == r[k].ty && IsPtr(l[k].ty)
  }

  predicate Ends(l: seq<Elem>, r: seq<Elem>, k: nat, m: nat)
    requires k < |l| == |r|
  {
    CommonHead(l, r, k) ==> k + 8 <= m
  }

  ghost predicate SamePointer(l: seq<Elem>, r: seq<Elem>, m: seq<Elem>, k: nat)
    requires k < |l| == |r| == |m|
  {
    k + 8 <= |m| && l[k].nr == r[k].nr && m[k..k + 8] == l[k..k + 8] && Datas(l[k..k + 8]) == Datas(r[k..k + 8])
  }

  /** A byte not yet merged: as it was, or a tail that lost its pointer already. */
  predicate PendingByte(l: seq<Elem>, es: seq<Elem>, k: nat)
    requires k < |l| == |es|
  {
    es[k] == l[k] || (IsTail(l[k].ty) && es[k] == l[k].(ty := Loosened(l[k].ty)))
  }

  ghost predicate MergeInv(l: seq<Elem>, r: seq<Elem>, es: seq<Elem>, i: nat, diff: bool) {
    && |l| == |r| == |es| && HeadsOk(es) && HeadsOk(r)
    && (forall k | 0 <= k < i && k < |es| :: MergedByte(l, r, es, k) && Ends(l, r, k, i))
    && (forall k | i <= k < |es| :: PendingByte(l, es, k))
    && (diff <==> exists k :: DroppedAt(l, es, k))
  }

  predicate DroppedAt(l: seq<Elem>, m: seq<Elem>, k: int)
    requires |l| == |m|
  {
    0 <= k < |l| && Dropped(l, m, k)
  }

  /** Clearing the pointer at i: it and the tails behind it lose it, other heads are not touched. */
  lemma ClearEffect(es: seq<Elem>, i: nat)
    requires HeadsOk(es) && i < |es| && IsPtr(TypeAt(es, i))
    ensures HeadsOk(ClearTail(es, i))
    ensures forall k | 0 <= k < i :: ClearTail(es, i)[k] == es[k]
    ensures forall k | i <= k < i + 8 && k < |es| ::
              ClearTail(es, i)[k] == es[k].(ty := Loosened(es[k].ty)) && (k > i ==> IsTail(TypeAt(es, k)))
    ensures forall k | i + 8 <= k < |es| :: PendingByte(es, ClearTail(es, i), k)
  {
    Behind(es, i, i);
    var es1 := Retype(es, i, if es[i].ty == StackPtr then Tainted else Unknown);
    var e := TailEnd(es1, i + 1);
    ClearRunIs(es1, i + 1, e);
    var r := ClearTail(es, i);
    if e < |es| {
      Behind(es, i, e);
      assert TypeAt(es1, e) == TypeAt(es, e);
    }
    assert e >= i + 8;
    forall k | i < k < e ensures IsTail(TypeAt(es, k)) {
      assert IsTail(TypeAt(es1, k));
    }
    assert es1[i] == es[i].(ty := Loosened(es[i].ty));
    forall k | i + 8 <= k < |es| ensures PendingByte(es, r, k) {
      assert k < e ==> IsTail(TypeAt(es, k));
    }
    forall h | 0 <= h < |r| && IsPtr(TypeAt(r, h)) ensures HeadAt(r, h) {
      assert HeadAt(es, h) && !(i <= h < e);
      forall j | h < j < h + 8 ensures TypeAt(r, j) == TailOf(TypeAt(r, h)) {
        Behind(es, h, j);
        Behind(es, h, i);
        assert h >= e || j < i;
      }
    }
  }

  /** Only the type of byte i has changed. */
  lemma RetypeEffect(l: seq<Elem>, r: seq<Elem>, es: seq<Elem>, i: nat, diff: bool, t: DynType)
    requires MergeInv(l, r, es, i, diff) && i < |es| && (t == TypeAt(es, i) || t == Unknown || t == Tainted || t == Dead)
    requires t == TypeAt(es, i) ==> !IsPtr(t)
    ensures var es' := Retype(es, i, t);
            && HeadsOk(es')
            && (forall k | 0 <= k < i :: MergedByte(l, r, es', k) && Ends(l, r, k, i))
            && (forall k | i < k < |es| :: PendingByte(l, es', k))
  {
    var es' := Retype(es, i, t);
    forall h | 0 <= h < |es'| && IsPtr(TypeAt(es', h)) ensures HeadAt(es', h) {
      assert HeadAt(es, h);
      assert h < i ==> MergedByte(l, r, es, h) && Ends(l, r, h, i);
      forall j | h < j < h + 8 ensures TypeAt(es', j) == TailOf(TypeAt(es', h)) {
        Behind(es, h, j);
      }
    }
    forall k | 0 <= k < i ensures MergedByte(l, r, es', k) && Ends(l, r, k, i) {
      MergedStays(l, r, es, es', i, k);
    }
    forall k | i < k < |es| ensures PendingByte(l, es', k) {
      assert PendingByte(l, es, k);
    }
  }

  lemma MergedStays(l: seq<Elem>, r: seq<Elem>, es: seq<Elem>, es': seq<Elem>, i: nat, k: nat)
    requires k < i <= |l| == |r| == |es| == |es'| && MergedByte(l, r, es, k) && Ends(l, r, k, i)
    requires forall j | 0 <= j < i :: es'[j] == es[j]
    ensures MergedByte(l, r, es', k) && Ends(l, r, k, i)
  {
    assert es'[k] == es[k];
    if CommonHead(l, r, k) && !IsPtr(TypeAt(es, k)) {
      forall j | k < j < k + 8 && j < |es'| ensures !IsTail(TypeAt(es', j)) {
        assert !IsTail(TypeAt(es, j));
      }
    }
    if IsPtr(TypeAt(es, k)) {
      assert es'[k..k + 8] == es[k..k + 8];
    }
  }

  lemma ChangeSeen(l: seq<Elem>, es: seq<Elem>, es': seq<Elem>, diff: bool, step: bool, i: nat)
    requires |l| == |es| == |es'| && i < |l|
    requires diff <==> exists k :: DroppedAt(l, es, k)
    requires forall k | DroppedAt(l, es, k) :: DroppedAt(l, es', k)
    requires step ==> DroppedAt(l, es', i)
    requires !step ==> forall k | DroppedAt(l, es', k) :: DroppedAt(l, es, k)
    ensures diff || step <==> exists k :: DroppedAt(l, es', k)
  {
  }

  /** Pointers of one kind on both sides, but not the same pointer. */
  lemma MergeDiffering(l: seq<Elem>, r: seq<Elem>, es: seq<Elem>, i: nat, diff: bool)
    requires MergeInv(l, r, es, i, diff) && i < |l| && es[i].ty == r[i].ty && IsPtr(es[i].ty)
    requires es[i].nr != r[i].nr || PtrData(es, i) != PtrData(r, i)
    ensures MergeInv(l, r, ClearTail(es, i), i + 8, true)
  {
    NotAgreed(l, r, es, i, diff);
    var es' := ClearTail(es, i);
    Behind(es, i, i);
    ClearEffect(es, i);
    hide ClearTail;
    assert PendingByte(l, es, i);
    forall k | 0 <= k < i + 8 ensures MergedByte(l, r, es', k) && Ends(l, r, k, i + 8) {
      if k < i {
        MergedStays(l, r, es, es', i, k);
      } else {
        assert PendingByte(l, es, k);
        Behind(es, i, k);
        Behind(r, i, k);
      }
    }
    forall k | i + 8 <= k < |es| ensures PendingByte(l, es', k) {
      assert PendingByte(l, es, k) && PendingByte(es, es', k);
    }
    assert Dropped(l, es', i);
    hide MergedByte, PendingByte, Dropped, Ends;
    assert DroppedAt(l, es', i);
    assert |l| == |r| == |es'| && HeadsOk(es') && HeadsOk(r);
    assert forall k | 0 <= k < i + 8 && k < |es'| :: MergedByte(l, r, es', k) && Ends(l, r, k, i + 8);
    assert forall k | i + 8 <= k < |es'| :: PendingByte(l, es', k);
  }

  lemma NotAgreed(l: seq<Elem>, r: seq<Elem>, es: seq<Elem>, i: nat, diff: bool)
    requires MergeInv(l, r, es, i, diff) && i < |l| && es[i].ty == r[i].ty && IsPtr(es[i].ty)
    requires es[i].nr != r[i].nr || PtrData(es, i) != PtrData(r, i)
    ensures !Agreed(l, r, i)
  {
    Behind(es, i, i);
    assert PendingByte(l, es, i);
    forall k | i <= k < i + 8 ensures es[k].data == l[k].data { assert PendingByte(l, es, k); }
    assert Datas(es[i..i + 8]) == Datas(l[i..i + 8]);
  }

  /** The same pointer on both sides. */
  lemma MergeEqual(l: seq<Elem>, r: seq<Elem>, es: seq<Elem>, i: nat, diff: bool)
    requires MergeInv(l, r, es, i, diff) && i < |l| && es[i].ty == r[i].ty && IsPtr(es[i].ty)
    requires es[i].nr == r[i].nr && PtrData(es, i) == PtrData(r, i)
    ensures MergeInv(l, r, es, i + 8, diff)
  {
    Behind(es, i, i);
    assert PendingByte(l, es, i);
    assert es[i..i + 8] == l[i..i + 8] by {
      forall k | i <= k < i + 8 ensures es[k] == l[k] {
        assert PendingByte(l, es, k);
        Behind(es, i, k);
      }
    }
    forall k | 0 <= k < i + 8 ensures MergedByte(l, r, es, k) && Ends(l, r, k, i + 8) {
      if k < i {
        assert MergedByte(l, r, es, k) && Ends(l, r, k, i);
      } else {
        assert PendingByte(l, es, k);
        Behind(es, i, k);
        Behind(r, i, k);
      }
    }
    forall k | i + 8 <= k < |es| ensures PendingByte(l, es, k) {
    }
  }

  /** Pointers of one kind on both sides. */
  lemma MergePointers(l: seq<Elem>, r: seq<Elem>, es: seq<Elem>, i: nat, diff: bool)
    requires |l| == |r| == |es| && MergeInv(l, r, es, i, diff) && i < |l| && es[i].ty == r[i].ty && IsPtr(es[i].ty)
    ensures var step := MergeByte(es, r, i);
            MergeInv(l, r, step.0, i + 8, diff || step.1)
  {
    hide MergeInv;
    if MergeByte(es, r, i).1 {
      MergeDiffering(l, r, es, i, diff);
    } else {
      MergeEqual(l, r, es, i, diff);
    }
  }

  lemma MergeOneByte(l: seq<Elem>, r: seq<Elem>, es: seq<Elem>, i: nat)
    requires |l| == |r| == |es| && i < |l| && !(es[i].ty == r[i].ty && IsPtr(es[i].ty)) && PendingByte(l, es, i)
    ensures var step := MergeByte(es, r, i);
            && MergedByte(l, r, step.0, i) && !IsPtr(step.0[i].ty) && !CommonHead(l, r, i)
            && (DroppedAt(l, es, i) ==> DroppedAt(l, step.0, i))
            && (step.1 ==> DroppedAt(l, step.0, i))
            && (!step.1 && DroppedAt(l, step.0, i) ==> DroppedAt(l, es, i))
  {
  }

  /** Any other byte. */
  lemma MergeOther(l: seq<Elem>, r: seq<Elem>, es: seq<Elem>, i: nat, diff: bool)
    requires |l| == |r| == |es| && MergeInv(l, r, es, i, diff) && i < |l| && !(es[i].ty == r[i].ty && IsPtr(es[i].ty))
    ensures var step := MergeByte(es, r, i);
            MergeInv(l, r, step.0, i + 1, diff || step.1)
  {
    var es' := MergeByte(es, r, i).0;
    var t := es'[i].ty;
    assert es' == Retype(es, i, t);
    assert PendingByte(l, es, i);
    RetypeEffect(l, r, es, i, diff, t);
    MergeOneByte(l, r, es, i);
    hide MergeByte, MergedByte;
    forall k | 0 <= k < i + 1 ensures MergedByte(l, r, es', k) && Ends(l, r, k, i + 1) {
      assert k < i ==> MergedByte(l, r, es', k) && Ends(l, r, k, i);
    }
    forall k | k != i ensures DroppedAt(l, es, k) <==> DroppedAt(l, es', k) {
    }
    ChangeSeen(l, es, es', diff, MergeByte(es, r, i).1, i);
  }

  ghost predicate AllMerged(l: seq<Elem>, r: seq<Elem>, m: seq<Elem>, diff: bool) {
    && |l| == |r| == |m| && HeadsOk(m)
    && (forall k | 0 <= k < |m| :: MergedByte(l, r, m, k))
    && (diff <==> exists k :: DroppedAt(l, m, k))
  }

  lemma {:induction false} MergeRuns(l: seq<Elem>, r: seq<Elem>, es: seq<Elem>, i: nat, diff: bool)
    requires |l| == |r| == |es| && MergeInv(l, r, es, i, diff)
    ensures AllMerged(l, r, MergeLoop(es, r, i).0, diff || MergeLoop(es, r, i).1)
    decreases |l| - i
  {
    if i < |l| {
      hide MergeInv, MergeByte, AllMerged;
      MergeOnce(l, r, es, i, diff);
      MergeRuns(l, r, MergeByte(es, r, i).0, MergeNext(es, r, i), diff || MergeByte(es, r, i).1);
    }
  }


  lemma MergeStart(l: seq<Elem>, r: seq<Elem>)
    requires |l| == |r| && HeadsOk(l) && HeadsOk(r)
    ensures MergeInv(l, r, l, 0, false)
  {
  }

  lemma MergeOnce(l: seq<Elem>, r: seq<Elem>, es: seq<Elem>, i: nat, diff: bool)
    requires |l| == |r| == |es| && i < |l| && MergeInv(l, r, es, i, diff)
    ensures MergeInv(l, r, MergeByte(es, r, i).0, MergeNext(es, r, i), diff || MergeByte(es, r, i).1)
  {
    if es[i].ty == r[i].ty && IsPtr(es[i].ty) {
      MergePointers(l, r, es, i, diff);
    } else {
      MergeOther(l, r, es, i, diff);
    }
  }

  // ---- the join ----

  lemma MergeFacts(l: seq<Elem>, r: seq<Elem>)
    requires |l| == |r| && HeadsOk(l) && HeadsOk(r)
    ensures HeadsOk(Merge(l, r).0)
    ensures forall k | 0 <= k < |l| :: MergedByte(l, r, Merge(l, r).0, k)
    ensures Merge(l, r).1 <==> exists k :: DroppedAt(l, Merge(l, r).0, k)
  {
    MergeRuns(l, r, l, 0, false);
  }

  /** The merged state describes all concrete bytes that either side described. */
  lemma MergeJoins(l: seq<Elem>, r: seq<Elem>, cs: seq<CByte>, env: Env)
    requires |l| == |r| && HeadsOk(l) && HeadsOk(r)
    requires Describes(l, cs, env) || Describes(r, cs, env)
    ensures HeadsOk(Merge(l, r).0) && Describes(Merge(l, r).0, cs, env)
  {
    MergeFacts(l, r);
    hide Merge;
    var m := Merge(l, r).0;
    forall k | 0 <= k < |m| ensures ByteDescribed(m, cs, env, k) {
      assert MergedByte(l, r, m, k);
      if Describes(l, cs, env) {
        assert ByteDescribed(l, cs, env, k);
      } else {
        assert ByteDescribed(r, cs, env, k);
      }
      if IsPtr(TypeAt(m, k)) {
        assert m[k..k + 8][0] == m[k] && l[k..k + 8][0] == l[k];
      }
    }
  }

  /** A byte is stack-derived afterwards exactly when it was on one of the sides. */
  lemma MergeTaint(l: seq<Elem>, r: seq<Elem>, k: nat)
    requires |l| == |r| && HeadsOk(l) && HeadsOk(r) && k < |l|
    ensures StackDerived(Merge(l, r).0[k].ty) <==> StackDerived(l[k].ty) || StackDerived(r[k].ty)
  {
    MergeFacts(l, r);
    assert MergedByte(l, r, Merge(l, r).0, k);
  }

  /** No byte ever says more than before; a change is reported exactly when some byte says less, or a
      dead byte became unknown; and if not, the left side is as it was up to Unknown turned Dead. */
  lemma MergeReports(l: seq<Elem>, r: seq<Elem>)
    requires |l| == |r| && HeadsOk(l) && HeadsOk(r)
    ensures forall k | 0 <= k < |l| :: Rank(Merge(l, r).0[k].ty) <= Rank(l[k].ty)
    ensures Merge(l, r).1 <==> exists k :: DroppedAt(l, Merge(l, r).0, k)
    ensures !Merge(l, r).1 ==> forall k | 0 <= k < |l| ::
              var m := Merge(l, r).0[k];
              m == l[k] || (l[k].ty == Unknown && m == l[k].(ty := Dead))
  {
    MergeFacts(l, r);
    var m := Merge(l, r).0;
    forall k | 0 <= k < |l|
      ensures Rank(m[k].ty) <= Rank(l[k].ty)
      ensures !Merge(l, r).1 ==> m[k] == l[k] || (l[k].ty == Unknown && m[k] == l[k].(ty := Dead))
    {
      assert MergedByte(l, r, m, k);
      assert DroppedAt(l, m, k) <==> Dropped(l, m, k);
    }
  }

  // ---- when the join keeps every tail with its head ----

  /** The tail is covered by a pointer of the same kind, at the same place, on both sides. */
  ghost predicate SharedOwner(l: seq<Elem>, r: seq<Elem>, k: int) {
    exists h :: Owns(l, h, k) && Owns(r, h, k) && TypeAt(l, h) == TypeAt(r, h)
  }

  ghost predicate HeadsAgree(l: seq<Elem>, r: seq<Elem>)
    requires |l| == |r|
  {
    forall k | 0 <= k < |l| && IsTail(TypeAt(l, k)) && TypeAt(l, k) == TypeAt(r, k) :: SharedOwner(l, r, k)
  }

  lemma {:induction false} MergeUntouched(es: seq<Elem>, r: seq<Elem>, i: nat, k: nat)
    requires |es| == |r| && k < i && k < |es|
    ensures MergeLoop(es, r, i).0[k] == es[k]
    decreases |es| - i
  {
    if i < |es| {
      ClearRunUntouched(Retype(es, i, if es[i].ty == StackPtr then Tainted else Unknown), i + 1, k);
      MergeUntouched(MergeByte(es, r, i).0, r, MergeNext(es, r, i), k);
    }
  }

  lemma {:induction false} ClearRunUntouched(es: seq<Elem>, i: nat, k: nat)
    requires k < i && k < |es|
    ensures ClearRun(es, i)[k] == es[k]
    decreases |es| - i
  {
    if i < |es| && IsTail(es[i].ty) {
      ClearRunUntouched(Retype(es, i, Loosened(es[i].ty)), i + 1, k);
    }
  }

  /** Clearing a pointer of the left side changes nothing behind it. */
  lemma ClearStopsBehind(l: seq<Elem>, es: seq<Elem>, i: nat)
    requires WellFormed(l) && |es| == |l| && i < |l| && IsPtr(TypeAt(l, i))
    requires forall k | i <= k < |l| :: es[k] == l[k]
    ensures forall k | i + 8 <= k < |l| :: ClearTail(es, i)[k] == l[k]
  {
    Behind(l, i, i);
    if i + 8 < |l| { NoTailBehind(l, i); }
    var es1 := Retype(es, i, if es[i].ty == StackPtr then Tainted else Unknown);
    forall k | i + 1 <= k < i + 8 ensures IsTail(TypeAt(es1, k)) {
      Behind(l, i, k);
      assert es[k] == l[k];
    }
    assert i + 8 < |l| ==> es1[i + 8] == l[i + 8];
    ClearRunIs(es1, i + 1, i + 8);
  }

  /** A tail on both sides that no pointer shares stays a tail. */
  lemma {:induction false} MergeKeepsTail(l: seq<Elem>, r: seq<Elem>, es: seq<Elem>, i: nat, k: nat)
    requires WellFormed(l) && WellFormed(r) && |l| == |r| == |es| && i <= k < |l|
    requires forall j | i <= j < |l| :: es[j] == l[j]
    requires IsTail(TypeAt(l, k)) && TypeAt(l, k) == TypeAt(r, k) && !SharedOwner(l, r, k)
    ensures MergeLoop(es, r, i).0[k] == l[k]
    decreases |l| - i
  {
    assert es[i] == l[i] && es[k] == l[k];
    if i == k {
      assert MergeByte(es, r, i).0 == es;
      MergeUntouched(es, r, i + 1, k);
    } else if es[i].ty == r[i].ty && IsPtr(es[i].ty) {
      Behind(l, i, k);
      Behind(r, i, k);
      assert !(Owns(l, i, k) && Owns(r, i, k));
      ClearStopsBehind(l, es, i);
      MergeKeepsTail(l, r, MergeByte(es, r, i).0, i + 8, k);
    } else {
      MergeKeepsTail(l, r, MergeByte(es, r, i).0, i + 1, k);
    }
  }

  /** A head in the result was a head of the same kind on both sides. */
  lemma MergedOwner(l: seq<Elem>, r: seq<Elem>, m: seq<Elem>, h: int, k: int)
    requires |l| == |r| == |m| && HeadsOk(l) && HeadsOk(r) && Owns(m, h, k)
    requires MergedByte(l, r, m, h)
    ensures Owns(l, h, k) && Owns(r, h, k) && TypeAt(l, h) == TypeAt(r, h)
  {
    Behind(l, h, k);
    Behind(r, h, k);
  }

  /** Exactly when the join of two well-formed states is well formed. */
  lemma MergeWellFormedIff(l: seq<Elem>, r: seq<Elem>)
    requires |l| == |r| && WellFormed(l) && WellFormed(r)
    ensures WellFormed(Merge(l, r).0) <==> HeadsAgree(l, r)
  {
    MergeFacts(l, r);
    var m := Merge(l, r).0;
    if HeadsAgree(l, r) {
      forall k | 0 <= k < |m| && IsTail(TypeAt(m, k)) ensures TailAt(m, k) {
        assert MergedByte(l, r, m, k);
        assert SharedOwner(l, r, k);
        var h :| Owns(l, h, k) && Owns(r, h, k) && TypeAt(l, h) == TypeAt(r, h);
        assert MergedByte(l, r, m, h);
        assert Owns(m, h, k);
      }
    }
    if WellFormed(m) {
      forall k | 0 <= k < |l| && IsTail(TypeAt(l, k)) && TypeAt(l, k) == TypeAt(r, k) ensures SharedOwner(l, r, k) {
        if !SharedOwner(l, r, k) {
          MergeKeepsTail(l, r, l, 0, k);
          assert TailAt(m, k);
          var h :| Owns(m, h, k);
          MergedOwner(l, r, m, h, k);
        }
      }
    }
  }

  // ---- what goes wrong otherwise ----

  /** An immediate stored so that its last byte falls on the head of a user or return pointer: the
      next eight bytes read like an immediate, though seven of them are anything. */
  lemma StoreHidesTails(es: seq<Elem>, o: nat, n: nat, val: nat)
    requires HeadsOk(es) && o + n <= |es| && LastIsHead(es, o, n) && TypeAt(es, o + n - 1) != StackPtr
    requires SetElements(es, o, n, Imm(val), false).Some?
    ensures o + n - 1 + 8 <= |es|
    ensures HeadsOk(SetElements(es, o, n, Imm(val), false).value)
    ensures HiddenTails(SetElements(es, o, n, Imm(val), false).value, o + n - 1, 8)
  {
    SetIsWritten(es, o, n, Imm(val));
    MarkMeaning(es, o, n);
    hide Mark, SetElements;
    var es1, es' := Mark(es, o, n, 0).value, SetElements(es, o, n, Imm(val), false).value;
    WrittenHeads(es, es1, es', o, n, Imm(val));
    var h := o + n - 1;
    Behind(es1, h, h);
    forall k | h < k < h + 8 ensures TypeAt(es', k) == Tail {
      Behind(es1, h, k);
    }
    assert TypeAt(es', h + 1) == Tail;
  }

  /** A user pointer joined with a return pointer: the head is Unknown, the tails stay. Storing one
      byte over that head then makes all eight bytes read like an immediate. */
  lemma JoinHidesTails(nr: int, nr': int, val: nat)
    ensures var l := WritePtr(Blank(), 0, Ptr(UsrPtr, nr, 0));
            var r := WritePtr(Blank(), 0, Ptr(ReturnPtr, nr', 0));
            var m := Merge(l, r).0;
            && WellFormed(l) && WellFormed(r) && !HeadsAgree(l, r)
            && SetElements(m, 0, 1, Imm(val), false).Some?
            && HiddenTails(SetElements(m, 0, 1, Imm(val), false).value, 0, 8)
  {
    var l := WritePtr(Blank(), 0, Ptr(UsrPtr, nr, 0));
    var r := WritePtr(Blank(), 0, Ptr(ReturnPtr, nr', 0));
    var m := Merge(l, r).0;
    BlankPointer(UsrPtr, nr);
    BlankPointer(ReturnPtr, nr');
    MergeFacts(l, r);
    forall k | 0 < k < 8 ensures TypeAt(m, k) == Tail {
      assert !SharedOwner(l, r, k);
      MergeKeepsTail(l, r, l, 0, k);
    }
    assert MergedByte(l, r, m, 0);
    assert !SharedOwner(l, r, 1);
    var s := SetElements(m, 0, 1, Imm(val), false);
    assert Rank(TypeAt(m, 0)) < 2;
    assert Mark(m, 0, 1, 0).Some? && Mark(m, 0, 1, 0).value[1..] == m[1..] by {
      assert Mark(Retype(m, 0, Unknown), 0, 1, 1) == Some(Retype(m, 0, Unknown));
    }
    var m1 := Mark(m, 0, 1, 0).value;
    assert s == Some(WriteImm(m1, 0, 1, val));
    forall k | 0 < k < 8 ensures TypeAt(s.value, k) == Tail {
      assert m1[1..][k - 1] == m[1..][k - 1];
      assert TypeAt(m, k) == Tail && m1[k] == m[k] && s.value[k] == m1[k];
    }
    assert TypeAt(s.value, 1) == Tail;
  }

  lemma BlankPointer(ty: DynType, nr: int)
    requires IsPtr(ty)
    ensures WellFormed(WritePtr(Blank(), 0, Ptr(ty, nr, 0)))
  {
    var es := WritePtr(Blank(), 0, Ptr(ty, nr, 0));
    assert HeadAt(es, 0);
    forall k | 0 <= k < 8 && IsTail(TypeAt(es, k)) ensures TailAt(es, k) {
      assert Owns(es, 0, k);
    }
  }
}

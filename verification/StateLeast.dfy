/** The join of whole states keeps what both sides know: whatever stands for all that either side stands for stands
    for all that their join does. */
module StateLeast {
  import opened Machine
  import opened StateJoin
  import B = ProgramState
  import M = MergeElements
  import Q = MergeLeast
  import K = StackState

  /** m stands for everything x does, whatever is where. */
  ghost predicate AboveState(m: Bytes, x: Bytes) {
    forall v: Layout, s: State | Stands(v, x, s) :: Stands(v, m, s)
  }

  ghost predicate AboveFrame(m: Frame, x: Frame) {
    forall c: int -> B.CByte, env: B.Env | StandsFrame(x, c, env) :: StandsFrame(m, c, env)
  }

  // ---- machine states a state stands for ----

  ghost function SampleCell(fr: Frame, env: B.Env): int -> B.CByte {
    (off: int) => if fr.Frame? && 0 <= fr.base + off < |fr.es| then Q.SampleByte(fr.es, env, 0, fr.base + off) else B.CByte(0, false)
  }

  lemma SampleFrame(fr: Frame, env: B.Env)
    requires FrameOk(fr)
    ensures StandsFrame(fr, SampleCell(fr, env), env)
  {
    if fr.Frame? {
      Q.SampleDescribed(fr.es, env, 0);
      assert Cells(SampleCell(fr, env), fr.base, |fr.es|) == Q.Sample(fr.es, env, 0);
      hide B.Describes;
    }
  }

  ghost function SampleRegs(regs: seq<seq<B.Elem>>, env: B.Env): (cs: seq<seq<B.CByte>>)
    ensures |cs| == |regs| && forall i | 0 <= i < |cs| :: cs[i] == Q.Sample(regs[i], env, 0)
  {
    seq(|regs|, i requires 0 <= i < |regs| => Q.Sample(regs[i], env, 0))
  }

  lemma SampleRegsStand(regs: seq<seq<B.Elem>>, env: B.Env)
    requires RegsOk(regs)
    ensures StandsRegs(regs, SampleRegs(regs, env), env)
  {
    forall i | 0 <= i < |regs| ensures B.Describes(regs[i], SampleRegs(regs, env)[i], env) {
      assert RegOk(regs, i);
      Q.SampleDescribed(regs[i], env, 0);
    }
  }

  ghost function Just(cs: seq<seq<B.CByte>>, c: int -> B.CByte, env: B.Env): Layout {
    Layout((s: State) => cs, (s: State) => c, (s: State) => env)
  }

  /** Registers and stack have nothing to do with each other. */
  lemma AbovePart(m: Bytes, x: Bytes, cs: seq<seq<B.CByte>>, c: int -> B.CByte, env: B.Env)
    requires StateOk(x) && AboveState(m, x) && StandsRegs(x.regs, cs, env) && StandsFrame(x.frame, c, env)
    ensures StateOk(m) && StandsRegs(m.regs, cs, env) && StandsFrame(m.frame, c, env)
  {
    hide StateOk, StandsRegs, StandsFrame;
    var s := State(r => 0, map[]);
    assert Stands(Just(cs, c, env), x, s);
  }

  lemma AboveFrames(m: Bytes, x: Bytes)
    requires StateOk(x) && AboveState(m, x)
    ensures StateOk(m) && AboveFrame(m.frame, x.frame)
  {
    var e: B.Env := (t: B.DynType, n: int) => 0;
    SampleRegsStand(x.regs, e);
    SampleFrame(x.frame, e);
    AbovePart(m, x, SampleRegs(x.regs, e), SampleCell(x.frame, e), e);
    hide StandsRegs, StandsFrame, AboveState;
    forall c: int -> B.CByte, env: B.Env | StandsFrame(x.frame, c, env) ensures StandsFrame(m.frame, c, env) {
      SampleRegsStand(x.regs, env);
      AbovePart(m, x, SampleRegs(x.regs, env), c, env);
    }
  }

  lemma AboveRegs(m: Bytes, x: Bytes, i: nat)
    requires StateOk(x) && StateOk(m) && AboveState(m, x) && i < |x.regs|
    ensures Q.Above(m.regs[i], x.regs[i])
  {
    assert RegOk(x.regs, i) && RegOk(m.regs, i);
    hide AboveState, StandsFrame, B.HeadsOk;
    forall cs: seq<B.CByte>, env: B.Env | B.Describes(x.regs[i], cs, env) ensures B.Describes(m.regs[i], cs, env) {
      SampleRegsStand(x.regs, env);
      SampleFrame(x.frame, env);
      hide B.Describes, RegsOk, FrameOk;
      var all := SampleRegs(x.regs, env)[i := cs];
      AbovePart(m, x, all, SampleCell(x.frame, env), env);
      assert all[i] == cs;
    }
  }

  // ---- stacks ----

  /** Where nothing is known, anything can be. */
  lemma AboveDead(m: Frame)
    requires AboveFrame(m, DeadFrame)
    ensures m.DeadFrame?
  {
    var env: B.Env := (t: B.DynType, n: int) => 0;
    var c: int -> B.CByte := (off: int) => B.CByte(0, true);
    assert StandsFrame(DeadFrame, c, env);
    assert StandsFrame(m, c, env);
    var off := if m.Frame? then |m.es| else 0;
    assert c(off).taint;
  }

  function Max3(a: nat, b: nat, c: nat): nat { if a < b then (if b < c then c else b) else if a < c then c else a }

  /** A frame grown. */
  function Grown(fr: Frame, below: nat, above: nat): seq<B.Elem>
    requires fr.Frame?
  {
    K.Window(fr.es, fr.base, below, above)
  }

  ghost predicate Fits(fr: Frame, below: nat, above: nat) {
    fr.Frame? && FrameOk(fr) && fr.base <= below && |fr.es| - fr.base <= above
  }

  lemma GrownAbove(m: Frame, x: Frame, below: nat, above: nat)
    requires AboveFrame(m, x) && Fits(m, below, above) && Fits(x, below, above)
    ensures Q.Above(Grown(m, below, above), Grown(x, below, above)) && B.HeadsOk(Grown(x, below, above))
  {
    K.WindowWellFormed(x.es, x.base, below, above);
    hide B.Describes, K.Window;
    var mw, xw := Grown(m, below, above), Grown(x, below, above);
    forall cs: seq<B.CByte>, env: B.Env | B.Describes(xw, cs, env) ensures B.Describes(mw, cs, env) {
      DescribesLength(xw, cs, env);
      var c: int -> B.CByte := (off: int) => if 0 <= below + off < |cs| then cs[below + off] else B.CByte(0, false);
      assert Cells(c, below, |xw|) == cs;
      WindowStands(x.es, x.base, below, above, c, env);
      WindowStands(m.es, m.base, below, above, c, env);
      assert StandsFrame(x, c, env);
    }
  }

  lemma DescribesLength(es: seq<B.Elem>, cs: seq<B.CByte>, env: B.Env)
    requires B.Describes(es, cs, env)
    ensures |es| == |cs|
  {
  }

  lemma AboveBack(m: Frame, x: Frame, below: nat, above: nat)
    requires Fits(m, below, above) && Fits(x, below, above) && Q.Above(Grown(m, below, above), Grown(x, below, above))
    ensures AboveFrame(m, x)
  {
    hide B.Describes, K.Window;
    forall c: int -> B.CByte, env: B.Env | StandsFrame(x, c, env) ensures StandsFrame(m, c, env) {
      WindowStands(x.es, x.base, below, above, c, env);
      WindowStands(m.es, m.base, below, above, c, env);
    }
  }

  /** v inside w, from d on, with dead bytes around it. */
  ghost predicate ShiftOf(w: seq<B.Elem>, v: seq<B.Elem>, d: nat) {
    d + |v| <= |w| && forall i | 0 <= i < |w| :: w[i] == if 0 <= i - d < |v| then v[i - d] else K.DEAD
  }

  /** Grown in one step or in two. */
  lemma GrownAt(fr: Frame, below: nat, above: nat, b: nat, a: nat)
    requires Fits(fr, b, a) && b <= below && a <= above
    ensures ShiftOf(Grown(fr, below, above), K.Window(fr.es, fr.base, b, a), below - b)
  {
    var w, v := Grown(fr, below, above), K.Window(fr.es, fr.base, b, a);
    forall i | 0 <= i < |w| ensures w[i] == if 0 <= i - (below - b) < |v| then v[i - (below - b)] else K.DEAD {
      K.WindowAt(fr.es, fr.base, below, above, i);
      if 0 <= i - (below - b) < |v| { K.WindowAt(fr.es, fr.base, b, a, i - (below - b)); }
    }
  }

  lemma JoinGrownAt(j: Frame, below: nat, above: nat)
    requires Fits(j, below, above)
    ensures ShiftOf(Grown(j, below, above), j.es, below - j.base)
  {
    var w := Grown(j, below, above);
    forall i | 0 <= i < |w| ensures w[i] == if 0 <= i - (below - j.base) < |j.es| then j.es[i - (below - j.base)] else K.DEAD {
      K.WindowAt(j.es, j.base, below, above, i);
    }
  }

  lemma MergedShifts(l: seq<B.Elem>, r: seq<B.Elem>, j: seq<B.Elem>, l': seq<B.Elem>, r': seq<B.Elem>, j': seq<B.Elem>, k: nat, d: nat)
    requires k < |l| == |r| == |j| && |l'| == |r'| == |j'| && ShiftOf(l', l, d) && ShiftOf(r', r, d) && ShiftOf(j', j, d)
    requires M.MergedByte(l, r, j, k) && B.HeadsOk(l) && B.HeadsOk(r)
    ensures M.MergedByte(l', r', j', d + k)
  {
    if k + 8 <= |l| {
      assert l'[d + k..d + k + 8] == l[k..k + 8] && r'[d + k..d + k + 8] == r[k..k + 8] && j'[d + k..d + k + 8] == j[k..k + 8];
    }
    B.Behind(l, k, k);
    if M.CommonHead(l', r', d + k) && !B.IsPtr(j[k].ty) {
      forall i | d + k < i < d + k + 8 && i < |j'| ensures !B.IsTail(B.TypeAt(j', i)) {
        assert i - d < |j| ==> !B.IsTail(B.TypeAt(j, i - d));
      }
    }
  }

  lemma MergedAround(l: seq<B.Elem>, r: seq<B.Elem>, j: seq<B.Elem>, l': seq<B.Elem>, r': seq<B.Elem>, j': seq<B.Elem>, k: nat, d: nat)
    requires |l| == |r| == |j| && k < |l'| == |r'| == |j'| && ShiftOf(l', l, d) && ShiftOf(r', r, d) && ShiftOf(j', j, d)
    requires (forall i | 0 <= i < |l| :: M.MergedByte(l, r, j, i)) && B.HeadsOk(l) && B.HeadsOk(r)
    ensures M.MergedByte(l', r', j', k)
  {
    if d <= k < d + |l| {
      hide ShiftOf, M.MergedByte, B.HeadsOk;
      MergedShifts(l, r, j, l', r', j', k - d, d);
    } else {
      assert l'[k] == r'[k] == j'[k] == K.DEAD;
    }
  }

  /** The join of the stacks, grown further, is what a join makes of them grown further. */
  lemma MergedGrown(l: Frame, r: Frame, below: nat, above: nat, k: nat)
    requires Fits(l, below, above) && Fits(r, below, above) && Fits(JoinFrames(l, r).0, below, above) && k < below + above
    ensures M.MergedByte(Grown(l, below, above), Grown(r, below, above), Grown(JoinFrames(l, r).0, below, above), k)
  {
    FramesGrown(l, r);
    var b, a, j := Below(l, r), Above(l, r), JoinFrames(l, r).0;
    var lw, rw := K.Window(l.es, l.base, b, a), K.Window(r.es, r.base, b, a);
    M.MergeFacts(lw, rw);
    hide M.Merge, JoinFrames, B.HeadsOk, K.Window, M.MergedByte, ShiftOf;
    GrownAt(l, below, above, b, a);
    GrownAt(r, below, above, b, a);
    JoinGrownAt(j, below, above);
    MergedAround(lw, rw, j.es, Grown(l, below, above), Grown(r, below, above), Grown(j, below, above), k, below - b);
  }

  lemma JoinFramesLeast(l: Frame, r: Frame, m: Frame)
    requires FrameOk(l) && FrameOk(r) && FrameOk(m) && AboveFrame(m, l) && AboveFrame(m, r)
    ensures AboveFrame(m, JoinFrames(l, r).0)
  {
    if m.Frame? {
      if l.DeadFrame? { AboveDead(m); }
      if r.DeadFrame? { AboveDead(m); }
      var below, above := Max3(l.base, r.base, m.base), Max3(|l.es| - l.base, |r.es| - r.base, |m.es| - m.base);
      var j := JoinFrames(l, r).0;
      hide AboveFrame, JoinFrames, K.Window, M.MergedByte;
      GrownAbove(m, l, below, above);
      GrownAbove(m, r, below, above);
      JoinFits(l, r, below, above);
      forall k | 0 <= k < below + above ensures M.MergedByte(Grown(l, below, above), Grown(r, below, above), Grown(j, below, above), k) {
        MergedGrown(l, r, below, above, k);
      }
      Q.MergedLeast(Grown(l, below, above), Grown(r, below, above), Grown(m, below, above), Grown(j, below, above));
      AboveBack(m, j, below, above);
    }
  }

  lemma JoinFits(l: Frame, r: Frame, below: nat, above: nat)
    requires Fits(l, below, above) && Fits(r, below, above)
    ensures Fits(JoinFrames(l, r).0, below, above)
  {
    JoinFramesOk(Range(below, above), l, r);
  }

  // ---- whole states ----

  /** Whatever stands for all that either side does stands for all that the join does. */
  lemma JoinLeast(l: Bytes, r: Bytes, m: Bytes)
    requires StateOk(l) && StateOk(r) && AboveState(m, l) && AboveState(m, r)
    ensures AboveState(m, Join(l, r).0)
  {
    AboveFrames(m, l);
    AboveFrames(m, r);
    JoinOk(l, r);
    var j := Join(l, r).0;
    JoinFramesLeast(l.frame, r.frame, m.frame);
    forall i | 0 <= i < |l.regs| ensures Q.Above(m.regs[i], j.regs[i]) {
      AboveRegs(m, l, i);
      AboveRegs(m, r, i);
      assert RegOk(l.regs, i) && RegOk(r.regs, i);
      hide AboveState, JoinFrames;
      Q.MergeLeast(l.regs[i], r.regs[i], m.regs[i]);
    }
    hide JoinFrames, JoinRegs, B.Describes;
    forall v: Layout, s: State | Stands(v, j, s) ensures Stands(v, m, s) {
    }
  }

  /** The join of both. */
  ghost predicate LeastState(j: Bytes, l: Bytes, r: Bytes) {
    AboveState(j, l) && AboveState(j, r) && forall m: Bytes | AboveState(m, l) && AboveState(m, r) :: AboveState(m, j)
  }

  lemma JoinIsLeast(l: Bytes, r: Bytes)
    requires StateOk(l) && StateOk(r)
    ensures LeastState(Join(l, r).0, l, r)
  {
    hide Join, StateOk;
    forall v: Layout, s: State | Stands(v, l, s) || Stands(v, r, s) ensures Stands(v, Join(l, r).0, s) { JoinStands(v, l, r, s); }
    hide Stands;
    forall m: Bytes | AboveState(m, l) && AboveState(m, r) ensures AboveState(m, Join(l, r).0) { JoinLeast(l, r, m); }
  }

  // ---- nothing new ----

  lemma {:induction false} JoinRegsSelf(l: seq<seq<B.Elem>>)
    ensures JoinRegs(l, l) == (l, false)
  {
    if l != [] {
      var n := |l| - 1;
      JoinRegsSelf(l[..n]);
      Q.MergeItself(l[n]);
      hide M.Merge;
      assert l[..n] + [l[n]] == l;
    }
  }

  /** Joining a state to itself changes nothing and reports nothing. */
  lemma JoinSelf(l: Bytes)
    requires StateOk(l)
    ensures Join(l, l) == (l, false)
  {
    JoinRegsSelf(l.regs);
    hide M.Merge, JoinRegs;
    var fr := l.frame;
    if fr.Frame? {
      var w := K.Window(fr.es, fr.base, fr.base, |fr.es| - fr.base);
      forall i | 0 <= i < |w| ensures w[i] == fr.es[i] { K.WindowAt(fr.es, fr.base, fr.base, |fr.es| - fr.base, i); }
      assert w == fr.es;
      Q.MergeItself(w);
    }
  }
}

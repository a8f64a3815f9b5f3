/** The join of whole states as the forward analysis computes it: all register arrays, then the stacks,
    grown to a common range first. What it keeps, when it reports a change, and that over a bounded stack
    range, with changes reported on a rank drop only, the analysis ends. */
module StateJoin {
  import opened Machine
  import opened Links
  import opened StackAnalysis
  import opened JoinTermination
  import B = ProgramState
  import M = MergeElements
  import R = StateRuns
  import K = StackState
  import P = StackAnalysisPass
  import E = DeadCodePass
  import G = Generated

  // ---- the states ----

  /** The stack: lost, or an array with the index of offset 0. */
  datatype Frame = DeadFrame | Frame(es: seq<B.Elem>, base: nat)

  datatype Bytes = Bytes(regs: seq<seq<B.Elem>>, frame: Frame)

  /** Six flags, sixteen general purpose and sixteen vector registers, and their sizes. */
  const REG_COUNT := 38

  function Width(i: nat): nat { if i < 6 then 1 else if i < 22 then 8 else 16 }

  predicate RegsOk(regs: seq<seq<B.Elem>>) {
    |regs| == REG_COUNT && forall i | 0 <= i < |regs| :: RegOk(regs, i)
  }

  predicate RegOk(regs: seq<seq<B.Elem>>, i: nat)
    requires i < |regs|
  {
    |regs[i]| == Width(i) && B.HeadsOk(regs[i])
  }

  predicate FrameOk(fr: Frame) { fr.Frame? ==> fr.base <= |fr.es| && B.HeadsOk(fr.es) }

  /** A state the analysis can have: arrays of the sizes they have, and every head with its tails. */
  predicate StateOk(x: Bytes) { RegsOk(x.regs) && FrameOk(x.frame) }

  // ---- the join ----

  function JoinRegs(l: seq<seq<B.Elem>>, r: seq<seq<B.Elem>>): (m: (seq<seq<B.Elem>>, bool))
    requires |l| == |r| && forall i | 0 <= i < |l| :: |l[i]| == |r[i]|
    ensures |m.0| == |l| && forall i | 0 <= i < |l| :: m.0[i] == M.Merge(l[i], r[i]).0
    ensures m.1 <==> exists i :: 0 <= i < |l| && M.Merge(l[i], r[i]).1
  {
    if l == [] then ([], false)
    else
      var n := |l| - 1;
      var rest, last := JoinRegs(l[..n], r[..n]), M.Merge(l[n], r[n]);
      (rest.0 + [last.0], rest.1 || last.1)
  }

  /** The sizes both stacks are grown to. */
  function Below(l: Frame, r: Frame): nat
    requires l.Frame? && r.Frame?
  {
    if l.base < r.base then r.base else l.base
  }

  function Above(l: Frame, r: Frame): nat
    requires l.Frame? && r.Frame? && FrameOk(l) && FrameOk(r)
  {
    if |l.es| - l.base < |r.es| - r.base then |r.es| - r.base else |l.es| - l.base
  }

  /** A dead stack absorbs, and that is a change if the other one was not dead. */
  function JoinFrames(l: Frame, r: Frame): (Frame, bool)
    requires FrameOk(l) && FrameOk(r)
  {
    if l.DeadFrame? then (l, false)
    else if r.DeadFrame? then (DeadFrame, true)
    else
      var m := M.Merge(K.Window(l.es, l.base, Below(l, r), Above(l, r)), K.Window(r.es, r.base, Below(l, r), Above(l, r)));
      (Frame(m.0, Below(l, r)), m.1)
  }

  lemma SameWidths(l: Bytes, r: Bytes)
    requires StateOk(l) && StateOk(r)
    ensures |l.regs| == |r.regs| && forall i | 0 <= i < |l.regs| :: |l.regs[i]| == |r.regs[i]|
  {
    forall i | 0 <= i < |l.regs| ensures |l.regs[i]| == |r.regs[i]| {
      assert RegOk(l.regs, i) && RegOk(r.regs, i);
    }
  }

  function Join(l: Bytes, r: Bytes): (Bytes, bool)
    requires StateOk(l) && StateOk(r)
  {
    SameWidths(l, r);
    var regs, frame := JoinRegs(l.regs, r.regs), JoinFrames(l.frame, r.frame);
    (Bytes(regs.0, frame.0), regs.1 || frame.1)
  }

  // ---- what a state stands for ----

  /** The bytes of a machine state: the registers', the stack's by offset, and what pointers point to. */
  datatype Layout = Layout(regs: State -> seq<seq<B.CByte>>, stack: State -> (int -> B.CByte), env: State -> B.Env)

  function Cells(c: int -> B.CByte, base: nat, n: nat): (s: seq<B.CByte>)
    ensures |s| == n && forall i | 0 <= i < n :: s[i] == c(i - base)
  {
    seq(n, i requires 0 <= i < n => c(i - base))
  }

  /** The array describes its range, and no byte elsewhere is stack-derived. */
  ghost predicate StandsArray(es: seq<B.Elem>, base: nat, c: int -> B.CByte, env: B.Env) {
    B.Describes(es, Cells(c, base, |es|), env) && forall off | !(0 <= base + off < |es|) :: !c(off).taint
  }

  ghost predicate StandsFrame(fr: Frame, c: int -> B.CByte, env: B.Env) {
    fr.Frame? ==> StandsArray(fr.es, fr.base, c, env)
  }

  ghost predicate StandsRegs(regs: seq<seq<B.Elem>>, cs: seq<seq<B.CByte>>, env: B.Env) {
    |regs| == |cs| && forall i | 0 <= i < |regs| :: B.Describes(regs[i], cs[i], env)
  }

  ghost predicate Stands(v: Layout, x: Bytes, s: State) {
    StateOk(x) && StandsRegs(x.regs, v.regs(s), v.env(s)) && StandsFrame(x.frame, v.stack(s), v.env(s))
  }

  // ---- what is tracked ----

  /** The bytes without their taint, but for these registers. */
  function MaskRegs(cs: seq<seq<B.CByte>>, t: set<Reg>): (r: seq<seq<B.CByte>>)
    ensures |r| == |cs|
  {
    seq(|cs|, i requires 0 <= i < |cs| => if i in t then cs[i] else R.Clean(cs[i]))
  }

  /** The registers whose taint a state has to tell, before instruction k of block b; others it may have marked dead. */
  datatype View = View(layout: Layout, tracked: (BlockId, nat) -> set<Reg>)

  function Masked(v: Layout, t: set<Reg>): Layout {
    v.(regs := (s: State) => MaskRegs(v.regs(s), t))
  }

  function Here(v: View, b: BlockId, k: nat): Layout { Masked(v.layout, v.tracked(b, k)) }

  /** What stands for a state with some registers tracked does so with fewer. */
  lemma MaskFewer(v: Layout, t: set<Reg>, t': set<Reg>, x: Bytes, s: State)
    requires Stands(Masked(v, t), x, s) && t' <= t
    ensures Stands(Masked(v, t'), x, s)
  {
    hide StateOk, StandsFrame, B.Describes;
    var cs, cs' := MaskRegs(v.regs(s), t), MaskRegs(v.regs(s), t');
    forall i | 0 <= i < |x.regs| ensures B.Describes(x.regs[i], cs'[i], v.env(s)) {
      assert B.Describes(x.regs[i], cs[i], v.env(s));
      if i !in t' {
        assert cs'[i] == R.Clean(cs[i]);
        R.CleanDescribes(x.regs[i], cs[i], v.env(s));
      }
    }
  }

  // ---- growing ----

  lemma ShiftedByte(es: seq<B.Elem>, cs: seq<B.CByte>, es': seq<B.Elem>, cs': seq<B.CByte>, env: B.Env, i: nat, d: nat)
    requires B.HeadsOk(es) && i < |es| == |cs| && |es'| == |cs'| && d + |es| <= |es'|
    requires forall k | 0 <= k < |es| :: es'[d + k] == es[k] && cs'[d + k] == cs[k]
    ensures B.ByteDescribed(es, cs, env, i) <==> B.ByteDescribed(es', cs', env, d + i)
  {
    B.Behind(es, i, i);
    if B.IsPtr(B.TypeAt(es, i)) {
      assert es'[d + i..d + i + 8] == es[i..i + 8] && cs'[d + i..d + i + 8] == cs[i..i + 8];
    }
  }

  /** A stack stands for the same states whatever it is grown to. */
  lemma WindowStands(es: seq<B.Elem>, base: nat, below: nat, above: nat, c: int -> B.CByte, env: B.Env)
    requires B.HeadsOk(es) && base <= |es| && base <= below && |es| - base <= above
    ensures StandsArray(K.Window(es, base, below, above), below, c, env) <==> StandsArray(es, base, c, env)
  {
    var w, d := K.Window(es, base, below, above), below - base;
    var cs, cw := Cells(c, base, |es|), Cells(c, below, |w|);
    forall k | 0 <= k < |es| ensures w[d + k] == es[k] && cw[d + k] == cs[k] {
      K.WindowAt(es, base, below, above, d + k);
    }
    forall k | 0 <= k < |es| ensures B.ByteDescribed(es, cs, env, k) <==> B.ByteDescribed(w, cw, env, d + k) {
      ShiftedByte(es, cs, w, cw, env, k, d);
    }
    forall i | 0 <= i < |w| && !(d <= i < d + |es|) ensures B.ByteDescribed(w, cw, env, i) <==> !c(i - below).taint {
      K.WindowAt(es, base, below, above, i);
    }
    hide B.ByteDescribed, B.HeadsOk, K.Window;
    if StandsArray(es, base, c, env) {
      forall i | 0 <= i < |w| ensures B.ByteDescribed(w, cw, env, i) {
        if d <= i < d + |es| { assert B.ByteDescribed(es, cs, env, i - d); }
      }
    }
    if StandsArray(w, below, c, env) {
      forall k | 0 <= k < |es| ensures B.ByteDescribed(es, cs, env, k) { assert B.ByteDescribed(w, cw, env, d + k); }
      forall off | !(0 <= base + off < |es|) ensures !c(off).taint {
        if 0 <= below + off < |w| { assert B.ByteDescribed(w, cw, env, below + off); }
      }
    }
  }

  lemma {:induction false} RankAppend(a: seq<B.Elem>, b: seq<B.Elem>)
    ensures RankTotal(a + b) == RankTotal(a) + RankTotal(b)
  {
    if a == [] {
      assert a + b == b;
    } else {
      assert (a + b)[1..] == a[1..] + b;
      RankAppend(a[1..], b);
    }
  }

  lemma {:induction false} RankOfDead(es: seq<B.Elem>)
    requires forall k | 0 <= k < |es| :: es[k] == K.DEAD
    ensures RankTotal(es) == |es|
  {
    if es != [] {
      RankOfDead(es[1..]);
    }
  }

  function Deads(n: nat): (es: seq<B.Elem>)
    ensures |es| == n && forall k | 0 <= k < n :: es[k] == K.DEAD
  {
    seq(n, k requires 0 <= k < n => K.DEAD)
  }

  lemma WindowParts(es: seq<B.Elem>, base: nat, below: nat, above: nat)
    requires base <= |es| && base <= below && |es| - base <= above
    ensures K.Window(es, base, below, above) == Deads(below - base) + es + Deads(above + base - |es|)
  {
    var w, v := K.Window(es, base, below, above), Deads(below - base) + es + Deads(above + base - |es|);
    forall i | 0 <= i < |w| ensures w[i] == v[i] { K.WindowAt(es, base, below, above, i); }
  }

  /** Every byte grown is a dead one. */
  lemma WindowRank(es: seq<B.Elem>, base: nat, below: nat, above: nat)
    requires base <= |es| && base <= below && |es| - base <= above
    ensures RankTotal(K.Window(es, base, below, above)) == RankTotal(es) + (below + above - |es|)
  {
    var p, q := Deads(below - base), Deads(above + base - |es|);
    WindowParts(es, base, below, above);
    hide K.Window, Deads;
    RankAppend(p + es, q);
    RankAppend(p, es);
    RankOfDead(p);
    RankOfDead(q);
  }

  // ---- one array ----

  /** Nothing reported, or no rank lost: the left side stands for all the join stands for. */
  lemma UnchangedDescribes(l: seq<B.Elem>, r: seq<B.Elem>, cs: seq<B.CByte>, env: B.Env)
    requires |l| == |r| && B.HeadsOk(l) && B.HeadsOk(r) && B.Describes(M.Merge(l, r).0, cs, env)
    requires !M.Merge(l, r).1 || RankTotal(M.Merge(l, r).0) >= RankTotal(l)
    ensures B.Describes(l, cs, env)
  {
    ReportLowersRankIff(l, r);
    SameRankDescribes(l, r, cs, env);
  }

  // ---- the rank of a state ----

  /** How far the stack may reach on either side of offset 0. */
  datatype Range = Range(below: nat, above: nat)

  predicate Within(b: Range, fr: Frame) {
    FrameOk(fr) && (fr.Frame? ==> fr.base <= b.below && |fr.es| - fr.base <= b.above)
  }

  /** Bytes of the range the stack has not been grown to count as dead. */
  function FrameRank(b: Range, fr: Frame): nat {
    if Within(b, fr) && fr.Frame? then 1 + RankTotal(fr.es) + (b.below + b.above - |fr.es|) else 0
  }

  function RegsRank(regs: seq<seq<B.Elem>>): nat {
    if regs == [] then 0 else RegsRank(regs[..|regs| - 1]) + RankTotal(regs[|regs| - 1])
  }

  /** What the joined frame is, and its parts on common ground. */
  lemma FramesGrown(l: Frame, r: Frame)
    requires FrameOk(l) && FrameOk(r) && l.Frame? && r.Frame?
    ensures var b, a := Below(l, r), Above(l, r);
            var lw, rw := K.Window(l.es, l.base, b, a), K.Window(r.es, r.base, b, a);
            && |lw| == |rw| && B.HeadsOk(lw) && B.HeadsOk(rw) && b <= |lw|
            && JoinFrames(l, r) == (Frame(M.Merge(lw, rw).0, b), M.Merge(lw, rw).1)
  {
    K.WindowWellFormed(l.es, l.base, Below(l, r), Above(l, r));
    K.WindowWellFormed(r.es, r.base, Below(l, r), Above(l, r));
  }

  lemma JoinFramesOk(b: Range, l: Frame, r: Frame)
    requires FrameOk(l) && FrameOk(r)
    ensures FrameOk(JoinFrames(l, r).0) && (Within(b, l) && Within(b, r) ==> Within(b, JoinFrames(l, r).0))
  {
    if l.Frame? && r.Frame? {
      FramesGrown(l, r);
      hide K.Window;
      M.MergeFacts(K.Window(l.es, l.base, Below(l, r), Above(l, r)), K.Window(r.es, r.base, Below(l, r), Above(l, r)));
    }
  }

  /** The joined stack stands for what either stack stood for. */
  lemma JoinFramesStands(l: Frame, r: Frame, c: int -> B.CByte, env: B.Env)
    requires FrameOk(l) && FrameOk(r) && (StandsFrame(l, c, env) || StandsFrame(r, c, env))
    ensures StandsFrame(JoinFrames(l, r).0, c, env)
  {
    if l.Frame? && r.Frame? {
      var b, a := Below(l, r), Above(l, r);
      var lw, rw := K.Window(l.es, l.base, b, a), K.Window(r.es, r.base, b, a);
      FramesGrown(l, r);
      WindowStands(l.es, l.base, b, a, c, env);
      WindowStands(r.es, r.base, b, a, c, env);
      hide K.Window, JoinFrames, B.Describes;
      M.MergeJoins(lw, rw, Cells(c, b, |lw|), env);
    }
  }

  /** A byte of the stack the join has revived, by index in the grown array. */
  ghost predicate FrameRevived(l: Frame, r: Frame, k: int)
    requires FrameOk(l) && FrameOk(r)
  {
    l.Frame? && r.Frame? && Revived(K.Window(l.es, l.base, Below(l, r), Above(l, r)), JoinFrames(l, r).0.es, k)
  }

  /** No join of stacks raises the rank; a change is reported exactly if it falls or a dead byte became unknown. */
  lemma FrameReportIff(b: Range, l: Frame, r: Frame)
    requires Within(b, l) && Within(b, r)
    ensures FrameRank(b, JoinFrames(l, r).0) <= FrameRank(b, l)
    ensures JoinFrames(l, r).1 <==> FrameRank(b, JoinFrames(l, r).0) < FrameRank(b, l) || exists k :: FrameRevived(l, r, k)
  {
    JoinFramesOk(b, l, r);
    if l.Frame? && r.Frame? {
      var lw, rw := K.Window(l.es, l.base, Below(l, r), Above(l, r)), K.Window(r.es, r.base, Below(l, r), Above(l, r));
      FramesGrown(l, r);
      WindowRank(l.es, l.base, Below(l, r), Above(l, r));
      ReportLowersRankIff(lw, rw);
      hide K.Window, M.Merge;
      assert forall k :: FrameRevived(l, r, k) <==> Revived(lw, M.Merge(lw, rw).0, k);
    }
  }

  /** A stack that lost no rank, or was not reported, stands for what the joined one stands for. */
  lemma UnchangedFrame(b: Range, l: Frame, r: Frame, c: int -> B.CByte, env: B.Env)
    requires FrameOk(l) && FrameOk(r) && StandsFrame(JoinFrames(l, r).0, c, env)
    requires !JoinFrames(l, r).1 || (Within(b, l) && Within(b, r) && FrameRank(b, JoinFrames(l, r).0) >= FrameRank(b, l))
    ensures StandsFrame(l, c, env)
  {
    JoinFramesOk(b, l, r);
    if l.Frame? && r.Frame? {
      var o, a := Below(l, r), Above(l, r);
      var lw, rw := K.Window(l.es, l.base, o, a), K.Window(r.es, r.base, o, a);
      FramesGrown(l, r);
      WindowRank(l.es, l.base, o, a);
      WindowStands(l.es, l.base, o, a, c, env);
      hide K.Window, M.Merge, B.Describes;
      UnchangedDescribes(lw, rw, Cells(c, o, |lw|), env);
    }
  }

  // ---- all registers ----

  ghost predicate RegsRevived(l: seq<seq<B.Elem>>, r: seq<seq<B.Elem>>)
    requires |l| == |r| && forall i | 0 <= i < |l| :: |l[i]| == |r[i]|
  {
    exists i, k :: 0 <= i < |l| && Revived(l[i], M.Merge(l[i], r[i]).0, k)
  }

  /** Arrays of equal sizes, every head with its tails. */
  predicate RegsMatch(l: seq<seq<B.Elem>>, r: seq<seq<B.Elem>>) {
    |l| == |r| && forall i | 0 <= i < |l| :: |l[i]| == |r[i]| && B.HeadsOk(l[i]) && B.HeadsOk(r[i])
  }

  /** The last register array, and those before it. */
  lemma JoinRegsLast(l: seq<seq<B.Elem>>, r: seq<seq<B.Elem>>)
    requires RegsMatch(l, r) && l != []
    ensures var n := |l| - 1;
            && RegsMatch(l[..n], r[..n])
            && RegsRank(JoinRegs(l, r).0) == RegsRank(JoinRegs(l[..n], r[..n]).0) + RankTotal(M.Merge(l[n], r[n]).0)
            && (JoinRegs(l, r).1 <==> JoinRegs(l[..n], r[..n]).1 || M.Merge(l[n], r[n]).1)
  {
    hide M.Merge, RankTotal, B.HeadsOk;
    var n := |l| - 1;
    var m := JoinRegs(l, r).0;
    assert m[..n] == JoinRegs(l[..n], r[..n]).0;
  }

  lemma RevivedLast(l: seq<seq<B.Elem>>, r: seq<seq<B.Elem>>)
    requires RegsMatch(l, r) && l != []
    ensures var n := |l| - 1;
            && RegsMatch(l[..n], r[..n])
            && (RegsRevived(l, r) <==> RegsRevived(l[..n], r[..n]) || exists k :: Revived(l[n], M.Merge(l[n], r[n]).0, k))
  {
    hide M.Merge, RankTotal, B.HeadsOk, Revived, JoinRegs, RegsRank;
    var n := |l| - 1;
    if RegsRevived(l[..n], r[..n]) {
      var i, k :| 0 <= i < n && Revived(l[..n][i], M.Merge(l[..n][i], r[..n][i]).0, k);
      assert Revived(l[i], M.Merge(l[i], r[i]).0, k);
    }
    if RegsRevived(l, r) {
      var i, k :| 0 <= i < |l| && Revived(l[i], M.Merge(l[i], r[i]).0, k);
      assert i < n ==> Revived(l[..n][i], M.Merge(l[..n][i], r[..n][i]).0, k);
    }
  }

  lemma {:induction false} RegsReportIff(l: seq<seq<B.Elem>>, r: seq<seq<B.Elem>>)
    requires RegsMatch(l, r)
    ensures RegsRank(JoinRegs(l, r).0) <= RegsRank(l)
    ensures JoinRegs(l, r).1 <==> RegsRank(JoinRegs(l, r).0) < RegsRank(l) || RegsRevived(l, r)
  {
    if l != [] {
      var n := |l| - 1;
      JoinRegsLast(l, r);
      RevivedLast(l, r);
      RegsReportIff(l[..n], r[..n]);
      ReportLowersRankIff(l[n], r[n]);
      hide JoinRegs, M.Merge, RankTotal, RegsRevived, B.HeadsOk, Revived;
    }
  }

  lemma LastRegFell(l: seq<seq<B.Elem>>, r: seq<seq<B.Elem>>)
    requires RegsMatch(l, r) && l != [] && RegsRank(JoinRegs(l, r).0) >= RegsRank(l)
    ensures var n := |l| - 1;
            && RegsMatch(l[..n], r[..n]) && RegsRank(JoinRegs(l[..n], r[..n]).0) >= RegsRank(l[..n])
            && RankTotal(M.Merge(l[n], r[n]).0) >= RankTotal(l[n])
  {
    hide M.Merge, RankTotal, JoinRegs, B.HeadsOk, RegsRevived, Revived;
    var n := |l| - 1;
    JoinRegsLast(l, r);
    RegsReportIff(l[..n], r[..n]);
    ReportLowersRankIff(l[n], r[n]);
  }

  /** Registers that together lost no rank lost none at all. */
  lemma {:induction false} NoRegFell(l: seq<seq<B.Elem>>, r: seq<seq<B.Elem>>)
    requires RegsMatch(l, r) && RegsRank(JoinRegs(l, r).0) >= RegsRank(l)
    ensures forall i | 0 <= i < |l| :: RankTotal(M.Merge(l[i], r[i]).0) >= RankTotal(l[i])
  {
    hide M.Merge, RankTotal, JoinRegs, B.HeadsOk, RegsRank;
    if l != [] {
      var n := |l| - 1;
      LastRegFell(l, r);
      NoRegFell(l[..n], r[..n]);
      forall i | 0 <= i < |l| ensures RankTotal(M.Merge(l[i], r[i]).0) >= RankTotal(l[i]) {
        assert i < n ==> l[..n][i] == l[i] && r[..n][i] == r[i];
      }
    }
  }

  /** The first i arrays joined. */
  function JoinedUpTo(l: seq<seq<B.Elem>>, r: seq<seq<B.Elem>>, i: nat): (seq<seq<B.Elem>>, bool)
    requires RegsMatch(l, r) && i <= |l|
  {
    var m := JoinRegs(l[..i], r[..i]);
    (m.0 + l[i..], m.1)
  }

  lemma JoinedNone(l: seq<seq<B.Elem>>, r: seq<seq<B.Elem>>)
    requires RegsMatch(l, r)
    ensures JoinedUpTo(l, r, 0) == (l, false)
  {
    assert l[..0] == [] && r[..0] == [] && JoinRegs([], []) == ([], false);
    assert [] + l[0..] == l;
  }

  lemma JoinedNext(l: seq<seq<B.Elem>>, r: seq<seq<B.Elem>>, i: nat)
    requires RegsMatch(l, r) && i < |l|
    ensures JoinedUpTo(l, r, i).0[i..] == l[i..]
    ensures JoinedUpTo(l, r, i + 1).0 == JoinedUpTo(l, r, i).0[i := M.Merge(l[i], r[i]).0]
    ensures JoinedUpTo(l, r, i + 1).1 == (JoinedUpTo(l, r, i).1 || M.Merge(l[i], r[i]).1)
  {
    hide M.Merge, B.HeadsOk;
    assert l[..i + 1][..i] == l[..i] && r[..i + 1][..i] == r[..i];
  }

  lemma JoinedAll(l: seq<seq<B.Elem>>, r: seq<seq<B.Elem>>)
    requires RegsMatch(l, r)
    ensures JoinedUpTo(l, r, |l|) == JoinRegs(l, r)
  {
    assert l[..|l|] == l && r[..|r|] == r && l[|l|..] == [];
    assert JoinRegs(l, r).0 + [] == JoinRegs(l, r).0;
  }

  lemma RegsMatched(l: Bytes, r: Bytes)
    requires StateOk(l) && StateOk(r)
    ensures RegsMatch(l.regs, r.regs)
  {
    SameWidths(l, r);
    forall i | 0 <= i < |l.regs| ensures B.HeadsOk(l.regs[i]) && B.HeadsOk(r.regs[i]) {
      assert RegOk(l.regs, i) && RegOk(r.regs, i);
    }
  }

  lemma JoinRegsStands(l: seq<seq<B.Elem>>, r: seq<seq<B.Elem>>, cs: seq<seq<B.CByte>>, env: B.Env)
    requires RegsMatch(l, r) && (StandsRegs(l, cs, env) || StandsRegs(r, cs, env))
    ensures StandsRegs(JoinRegs(l, r).0, cs, env)
  {
    hide M.Merge, B.Describes;
    forall i | 0 <= i < |l| ensures B.Describes(JoinRegs(l, r).0[i], cs[i], env) { M.MergeJoins(l[i], r[i], cs[i], env); }
  }

  lemma UnchangedRegs(l: seq<seq<B.Elem>>, r: seq<seq<B.Elem>>, cs: seq<seq<B.CByte>>, env: B.Env)
    requires RegsMatch(l, r) && StandsRegs(JoinRegs(l, r).0, cs, env)
    requires !JoinRegs(l, r).1 || RegsRank(JoinRegs(l, r).0) >= RegsRank(l)
    ensures StandsRegs(l, cs, env)
  {
    if JoinRegs(l, r).1 { NoRegFell(l, r); }
    hide M.Merge, B.Describes, RankTotal, RegsRank;
    forall i | 0 <= i < |l| ensures B.Describes(l[i], cs[i], env) { UnchangedDescribes(l[i], r[i], cs[i], env); }
  }

  // ---- whole states ----

  lemma JoinOk(l: Bytes, r: Bytes)
    requires StateOk(l) && StateOk(r)
    ensures StateOk(Join(l, r).0)
  {
    RegsMatched(l, r);
    JoinFramesOk(Range(0, 0), l.frame, r.frame);
    var m := JoinRegs(l.regs, r.regs).0;
    hide M.Merge, B.HeadsOk, JoinFrames;
    forall i | 0 <= i < |m| ensures RegOk(m, i) {
      assert RegOk(l.regs, i);
      M.MergeFacts(l.regs[i], r.regs[i]);
    }
  }

  /** The joined state stands for all machine states that either state stood for. */
  lemma JoinStands(v: Layout, l: Bytes, r: Bytes, s: State)
    requires StateOk(l) && StateOk(r) && (Stands(v, l, s) || Stands(v, r, s))
    ensures Stands(v, Join(l, r).0, s)
  {
    JoinOk(l, r);
    RegsMatched(l, r);
    hide StandsRegs, StandsFrame, JoinRegs, JoinFrames, StateOk;
    JoinRegsStands(l.regs, r.regs, v.regs(s), v.env(s));
    hide RegsMatch;
    FramesOk(l, r);
    JoinFramesStands(l.frame, r.frame, v.stack(s), v.env(s));
  }

  lemma FramesOk(l: Bytes, r: Bytes)
    requires StateOk(l) && StateOk(r)
    ensures FrameOk(l.frame) && FrameOk(r.frame)
  {
  }

  function Rank(b: Range, x: Bytes): nat {
    RegsRank(x.regs) + FrameRank(b, x.frame)
  }

  /** A dead byte of a register or the stack that the join has made unknown. */
  ghost predicate AnyRevived(l: Bytes, r: Bytes)
    requires StateOk(l) && StateOk(r)
  {
    SameWidths(l, r);
    RegsRevived(l.regs, r.regs) || exists k :: FrameRevived(l.frame, r.frame, k)
  }

  /** No join of states raises the rank. A change is reported exactly if the rank has fallen or some dead byte
      became unknown. */
  lemma StateReportIff(b: Range, l: Bytes, r: Bytes)
    requires StateOk(l) && StateOk(r) && Within(b, l.frame) && Within(b, r.frame)
    ensures Rank(b, Join(l, r).0) <= Rank(b, l)
    ensures Join(l, r).1 <==> Rank(b, Join(l, r).0) < Rank(b, l) || AnyRevived(l, r)
  {
    RegsMatched(l, r);
    RegsReportIff(l.regs, r.regs);
    FrameReportIff(b, l.frame, r.frame);
    hide JoinRegs, JoinFrames, RegsRank, FrameRank, RegsRevived, FrameRevived, RegsMatch;
  }

  /** If nothing was reported or no rank was lost, the left state stands for what the joined one stands for. */
  lemma UnchangedStands(b: Range, v: Layout, l: Bytes, r: Bytes, s: State)
    requires StateOk(l) && StateOk(r) && Stands(v, Join(l, r).0, s)
    requires !Join(l, r).1 || (Within(b, l.frame) && Within(b, r.frame) && Rank(b, Join(l, r).0) >= Rank(b, l))
    ensures Stands(v, l, s)
  {
    RegsMatched(l, r);
    FramesOk(l, r);
    if Join(l, r).1 {
      RegsReportIff(l.regs, r.regs);
      FrameReportIff(b, l.frame, r.frame);
    }
    hide StandsRegs, StandsFrame, JoinRegs, JoinFrames, RegsRank, FrameRank, StateOk, RegsMatch, RegsRevived, FrameRevived;
    UnchangedRegs(l.regs, r.regs, v.regs(s), v.env(s));
    UnchangedFrame(b, l.frame, r.frame, v.stack(s), v.env(s));
  }

  // ---- the analysis over states ----

  /** States the pass can hold: a state out of shape stands for nothing and gives way. */
  function CodeJoin(l: Bytes, r: Bytes): (Bytes, bool) {
    if !StateOk(r) then (l, false) else if !StateOk(l) then (r, true) else Join(l, r)
  }

  predicate InRange(b: Range, x: Bytes) { StateOk(x) && Within(b, x.frame) }

  /** The same join, reporting a change only if the rank has dropped. */
  function RankedJoin(b: Range, l: Bytes, r: Bytes): (Bytes, bool) {
    if !InRange(b, r) then (l, false) else if !InRange(b, l) then (r, true)
    else var m := Join(l, r).0; (m, Rank(b, m) < Rank(b, l))
  }

  /** The highest rank, and one more for states that stand for nothing. */
  function TopRank(b: Range): nat { 2 * REG_COUNT * 16 + 2 + 2 * (b.below + b.above) }

  function RangeRank(b: Range, x: Bytes): nat {
    if InRange(b, x) then Rank(b, x) else TopRank(b)
  }

  ghost predicate StandsIn(b: Range, v: Layout, x: Bytes, s: State) { InRange(b, x) && Stands(v, x, s) }

  lemma {:induction false} RankBound(es: seq<B.Elem>)
    ensures RankTotal(es) <= 2 * |es|
  {
    if es != [] {
      RankBound(es[1..]);
    }
  }

  lemma {:induction false} RegsRankBound(regs: seq<seq<B.Elem>>)
    requires forall i | 0 <= i < |regs| :: |regs[i]| <= 16
    ensures RegsRank(regs) <= 32 * |regs|
  {
    if regs != [] {
      RegsRankBound(regs[..|regs| - 1]);
      RankBound(regs[|regs| - 1]);
    }
  }

  lemma InRangeRank(b: Range, x: Bytes)
    requires InRange(b, x)
    ensures Rank(b, x) < TopRank(b)
  {
    forall i | 0 <= i < |x.regs| ensures |x.regs[i]| <= 16 { assert RegOk(x.regs, i); }
    RegsRankBound(x.regs);
    if x.frame.Frame? { RankBound(x.frame.es); }
  }

  /** The emulation of an instruction, the outcome of its predicate, and what a call leaves. */
  datatype Emulator = Emulator(transfer: (Instr, Bytes) -> Bytes, outcome: (Instr, Bytes) -> TriState, nasty: Bytes -> Bytes)

  ghost function CodeDomain(v: View, m: Emulator): Domain<Bytes> {
    Domain((c, k, x, s) => Stands(Here(v, c, k), x, s), m.transfer, m.outcome, m.nasty, (l, r) => CodeJoin(l, r))
  }

  /** The join as the code has it, change report included, is a sound one. */
  lemma CodeJoinSound(v: View, m: Emulator)
    ensures SoundJoin(CodeDomain(v, m))
  {
    hide StateOk, StandsRegs, StandsFrame, Join, Masked;
    var d := CodeDomain(v, m);
    forall c: BlockId, l: Bytes, r: Bytes ensures JoinSound(d, c, l, r) {
      assert d.merge(l, r) == CodeJoin(l, r);
      forall s: State
        ensures d.gamma(c, 0, l, s) || d.gamma(c, 0, r, s) ==> d.gamma(c, 0, d.merge(l, r).0, s)
        ensures !d.merge(l, r).1 && d.gamma(c, 0, d.merge(l, r).0, s) ==> d.gamma(c, 0, l, s)
      {
        var w := Here(v, c, 0);
        if StateOk(l) && StateOk(r) {
          if Stands(w, l, s) || Stands(w, r, s) { JoinStands(w, l, r, s); }
          if !Join(l, r).1 && Stands(w, Join(l, r).0, s) { UnchangedStands(Range(0, 0), w, l, r, s); }
        }
      }
    }
  }

  /** States whose stack stays in the range, with the join that reports rank drops only. */
  function RankedDomain(b: Range, ghost v: View, m: Emulator): Domain<Bytes> {
    Domain((c, k, x, s) => StandsIn(b, Here(v, c, k), x, s), m.transfer, m.outcome, m.nasty, (l, r) => RankedJoin(b, l, r))
  }

  lemma RankedJoinFacts(b: Range, l: Bytes, r: Bytes)
    ensures RangeRank(b, RankedJoin(b, l, r).0) <= RangeRank(b, l)
    ensures RankedJoin(b, l, r).1 ==> RangeRank(b, RankedJoin(b, l, r).0) < RangeRank(b, l)
  {
    hide Join, Rank, RegsOk;
    if InRange(b, r) {
      InRangeRank(b, r);
      if InRange(b, l) {
        JoinInRange(b, l, r);
        StateReportIff(b, l, r);
      }
    }
  }

  lemma JoinInRange(b: Range, l: Bytes, r: Bytes)
    requires InRange(b, l) && InRange(b, r)
    ensures InRange(b, Join(l, r).0)
  {
    JoinOk(l, r);
    JoinFramesOk(b, l.frame, r.frame);
    hide JoinRegs, JoinFrames;
  }

  lemma RankedJoinStands(b: Range, v: Layout, l: Bytes, r: Bytes, s: State)
    ensures StandsIn(b, v, l, s) || StandsIn(b, v, r, s) ==> StandsIn(b, v, RankedJoin(b, l, r).0, s)
    ensures !RankedJoin(b, l, r).1 && StandsIn(b, v, RankedJoin(b, l, r).0, s) ==> StandsIn(b, v, l, s)
  {
    hide Join, Rank, Stands;
    if InRange(b, l) && InRange(b, r) {
      JoinInRange(b, l, r);
      if Stands(v, l, s) || Stands(v, r, s) { JoinStands(v, l, r, s); }
      if Rank(b, Join(l, r).0) >= Rank(b, l) && Stands(v, Join(l, r).0, s) { UnchangedStands(b, v, l, r, s); }
    }
  }

  /** With it the analysis ends: the join is sound and every change it reports lowers the rank. */
  lemma RankedJoinDescends(b: Range, v: View, m: Emulator)
    ensures SoundJoin(RankedDomain(b, v, m))
    ensures P.Descending(RankedDomain(b, v, m), x => RangeRank(b, x))
  {
    hide RankedJoin, StandsIn, RangeRank, Masked;
    var d, rank := RankedDomain(b, v, m), x => RangeRank(b, x);
    forall c: BlockId, l: Bytes, r: Bytes ensures JoinSound(d, c, l, r) {
      assert d.merge(l, r) == RankedJoin(b, l, r);
      forall s: State
        ensures d.gamma(c, 0, l, s) || d.gamma(c, 0, r, s) ==> d.gamma(c, 0, d.merge(l, r).0, s)
        ensures !d.merge(l, r).1 && d.gamma(c, 0, d.merge(l, r).0, s) ==> d.gamma(c, 0, l, s)
      {
        RankedJoinStands(b, Here(v, c, 0), l, r, s);
      }
    }
    forall l: Bytes, r: Bytes ensures P.JoinDescends(d, rank, l, r) {
      assert d.merge(l, r) == RankedJoin(b, l, r);
      RankedJoinFacts(b, l, r);
    }
  }

  /** What the analysis has found is right for this place of a run: the entry state of the block stands for the
      state there, and the outcome recorded for the instruction comes true. */
  ghost predicate RightAt(b: Range, v: View, f: Cfg, keep: set<InstrId>, entry: map<BlockId, Bytes>, dyn: map<InstrId, TriState>, c: Config) {
    c.At? ==>
      && c.block in f.blocks && c.block in entry && (c.pc == 0 ==> StandsIn(b, Here(v, c.block, 0), entry[c.block], c.s))
      && (c.pc < |f.blocks[c.block].instrs| && f.blocks[c.block].instrs[c.pc].id in keep ==>
            OutcomeRight(f.blocks[c.block].instrs[c.pc], dyn, c.s))
  }

  ghost predicate OutcomeRight(i: Instr, dyn: map<InstrId, TriState>, s: State) {
    i.id in dyn && (dyn[i.id] == True ==> i.holds(s)) && (dyn[i.id] == False ==> !i.holds(s))
  }

  /** The stack analysis over whole states: it ends, and what it finds is right for every run from a state that
      the one given at the entry block stands for. */
  method AnalyzeStates(f: Cfg, order: seq<BlockId>, keep: set<InstrId>, b: Range, ghost v: View, m: Emulator, e: BlockId, x: Bytes)
      returns (entry: map<BlockId, Bytes>, dyn: map<InstrId, TriState>)
    requires WellLinked(f) && Members(order) == f.blocks.Keys && (forall i, j | 0 <= i < j < |order| :: order[i] != order[j]) && e in f.blocks
    requires SoundEmulation(RankedDomain(b, v, m), keep, f)
    ensures forall s: State, n: nat | StandsIn(b, Here(v, e, 0), x, s) :: RightAt(b, v, f, keep, entry, dyn, RunKept(f, keep, n, At(e, 0, s)))
    ensures G.Generates(RankedDomain(b, v, m), keep, f, map[e := x], entry)
  {
    RankedJoinDescends(b, v, m);
    hide G.Generates, WellLinked, SoundJoin, P.Descending, Finished, SoundEmulation, RightAt, Masked;
    var d := RankedDomain(b, v, m);
    ghost var w, seen;
    entry, dyn, w, seen := E.AnalyzeStack(f, order, keep, d, y => RangeRank(b, y), e, x);
    forall s: State, n: nat | StandsIn(b, Here(v, e, 0), x, s) ensures RightAt(b, v, f, keep, entry, dyn, RunKept(f, keep, n, At(e, 0, s))) {
      RunsRight(b, v, m, f, keep, w, seen, e, x, s, n);
    }
  }

  lemma RunsRight(b: Range, v: View, m: Emulator, f: Cfg, keep: set<InstrId>, w: Analysis<Bytes>, seen: map<BlockId, Bytes>, e: BlockId, x: Bytes, s: State, n: nat)
    requires SoundEmulation(RankedDomain(b, v, m), keep, f)
    requires Finished(RankedDomain(b, v, m), keep, f, w, seen)
    requires e in w.entry && Includes(RankedDomain(b, v, m), e, w.entry[e], x) && StandsIn(b, Here(v, e, 0), x, s)
    ensures RightAt(b, v, f, keep, w.entry, w.dyn, RunKept(f, keep, n, At(e, 0, s)))
  {
    hide SoundEmulation, Finished, RunKept, StandsIn, Masked;
    var d := RankedDomain(b, v, m);
    assert d.gamma(e, 0, x, s) && d.gamma(e, 0, w.entry[e], s);
    AnalysisSound(d, keep, f, w, seen, e, s, n);
  }
}

/** Registers marked dead: behind an instruction the stack analysis gives up what it knows of the operands that nobody
    reads behind it. What the states then stand for, and what a branch makes of registers alive at its target only. */
module DeadRegisters {
  import opened Machine
  import opened Links
  import opened Simulation
  import opened StackAnalysis
  import opened StateJoin
  import B = ProgramState
  import P = StackAnalysisPass
  import E = DeadCodePass
  import C = Cleaned
  import G = Generated
  import L = Liveness
  import A = LivenessPass
  import W = DeadWritePass

  // ---- marking registers dead ----

  /** All bytes of the register are set dead. If that throws nothing has become of the state. */
  function KillReg(es: seq<B.Elem>): (r: seq<B.Elem>)
    ensures |r| == |es|
  {
    var r := B.SetElements(es, 0, |es|, B.Plain(B.Dead), false);
    if r.Some? then r.value else es
  }

  function Kill(x: Bytes, rs: set<Reg>): Bytes {
    x.(regs := seq(|x.regs|, i requires 0 <= i < |x.regs| => if i in rs then KillReg(x.regs[i]) else x.regs[i]))
  }

  predicate Kills(es: seq<B.Elem>) { B.SetElements(es, 0, |es|, B.Plain(B.Dead), false).Some? }

  lemma KilledReg(es: seq<B.Elem>)
    requires B.HeadsOk(es)
    ensures B.HeadsOk(KillReg(es))
    ensures Kills(es) ==> forall k | 0 <= k < |es| :: B.TypeAt(KillReg(es), k) == B.Dead
  {
    if Kills(es) {
      hide B.HeadsOk, B.TailsOk, B.MarkThrows, B.LastIsHead, B.Mark;
      assert |es| > 0;
      B.SetExact(es, 0, |es|, B.Plain(B.Dead));
    }
  }

  /** A dead register stands for any bytes without taint. */
  lemma KilledDescribes(es: seq<B.Elem>, cs: seq<B.CByte>, env: B.Env)
    requires B.HeadsOk(es) && B.Describes(es, cs, env) && B.Untainted(cs)
    ensures B.Describes(KillReg(es), cs, env)
  {
    if Kills(es) {
      B.DescribesLength(es, cs, env);
      hide B.SetElements, B.HeadsOk, B.Describes, B.TaintLost;
      assert |es| > 0 by { NotEmpty(es); }
      NoneLost(es, cs);
      B.SetSound(es, 0, |es|, B.Plain(B.Dead), cs, cs, env);
      assert B.Overwrite(cs, 0, cs) == cs;
    }
  }

  lemma NotEmpty(es: seq<B.Elem>)
    requires Kills(es)
    ensures |es| > 0
  {
  }

  lemma NoneLost(es: seq<B.Elem>, cs: seq<B.CByte>)
    requires 0 < |es| == |cs|
    ensures B.Spared(es, 0, cs)
  {
    assert B.Backward(es, -1) == B.None;
  }

  lemma KilledTaint(es: seq<B.Elem>, cs: seq<B.CByte>, env: B.Env)
    requires B.HeadsOk(es) && Kills(es) && B.Describes(KillReg(es), cs, env)
    ensures B.Untainted(cs)
  {
    KilledReg(es);
    B.DescribesLength(KillReg(es), cs, env);
    hide B.SetElements, B.HeadsOk;
    forall k | 0 <= k < |cs| ensures !cs[k].taint { assert B.ByteDescribed(KillReg(es), cs, env, k); }
  }

  lemma KillOk(x: Bytes, rs: set<Reg>)
    requires StateOk(x)
    ensures StateOk(Kill(x, rs))
  {
    hide B.SetElements, B.HeadsOk, FrameOk;
    forall i | 0 <= i < |x.regs| ensures RegOk(Kill(x, rs).regs, i) {
      assert RegOk(x.regs, i);
      KilledReg(x.regs[i]);
    }
  }

  /** Of a state with some registers tracked: after these have been marked dead, none of which throws, it stands for the
      same machine state with fewer tracked if and only if none of those marked that are tracked still is tainted. */
  lemma KillStandsIff(v: Layout, t: set<Reg>, t': set<Reg>, x: Bytes, rs: set<Reg>, s: State)
    requires Stands(Masked(v, t), x, s) && t' <= t && forall i | i in rs && i < |x.regs| :: Kills(x.regs[i])
    ensures Stands(Masked(v, t'), Kill(x, rs), s) <==> forall i | i in rs && i in t' && i < |v.regs(s)| :: B.Untainted(v.regs(s)[i])
  {
    MaskFewer(v, t, t', x, s);
    KillOk(x, rs);
    hide StandsFrame, B.Describes, Kills, KillReg, FrameOk;
    var cs, y := MaskRegs(v.regs(s), t'), Kill(x, rs);
    if forall i | i in rs && i in t' && i < |v.regs(s)| :: B.Untainted(v.regs(s)[i]) {
      forall i | 0 <= i < |y.regs| ensures B.Describes(y.regs[i], cs[i], v.env(s)) { KillKeeps(v, t', x, rs, s, i); }
    }
    if Stands(Masked(v, t'), y, s) {
      forall i | i in rs && i in t' && i < |v.regs(s)| ensures B.Untainted(v.regs(s)[i]) {
        assert RegOk(x.regs, i);
        assert B.Describes(y.regs[i], cs[i], v.env(s));
        KilledTaint(x.regs[i], cs[i], v.env(s));
      }
    }
  }

  lemma KillKeeps(v: Layout, t: set<Reg>, x: Bytes, rs: set<Reg>, s: State, i: nat)
    requires Stands(Masked(v, t), x, s) && i < |x.regs|
    requires i in rs && i in t ==> B.Untainted(v.regs(s)[i])
    ensures B.Describes(Kill(x, rs).regs[i], MaskRegs(v.regs(s), t)[i], v.env(s))
  {
    hide B.Describes, KillReg, StandsFrame;
    var cs := MaskRegs(v.regs(s), t);
    assert RegOk(x.regs, i) && B.Describes(x.regs[i], cs[i], v.env(s));
    if i in rs {
      KilledDescribes(x.regs[i], cs[i], v.env(s));
    }
  }

  /** Whether or not it throws, marking registers that are not tracked is sound. */
  lemma KillStands(v: Layout, t: set<Reg>, x: Bytes, rs: set<Reg>, s: State)
    requires Stands(Masked(v, t), x, s) && rs !! t
    ensures Stands(Masked(v, t), Kill(x, rs), s)
  {
    KillOk(x, rs);
    hide B.Describes, KillReg, StandsFrame, FrameOk, StateOk;
    forall i | 0 <= i < |x.regs| ensures B.Describes(Kill(x, rs).regs[i], MaskRegs(v.regs(s), t)[i], v.env(s)) {
      KillKeeps(v, t, x, rs, s, i);
    }
  }

  // ---- the emulation of the pass ----

  /** Emulate the instruction, then mark dead what is dead behind it. */
  function Killing(m: Emulator, dead: Instr -> set<Reg>): Emulator {
    m.(transfer := (i: Instr, x: Bytes) => Kill(m.transfer(i, x), dead(i)))
  }

  /** No register is marked dead that is tracked where control may go on. */
  ghost predicate Untracked(v: View, dead: Instr -> set<Reg>, keep: set<InstrId>, f: Cfg) {
    forall b, k | b in f.blocks && 0 <= k < |f.blocks[b].instrs| && f.blocks[b].instrs[k].id in keep ::
      UntrackedAt(v, dead, b, k, f.blocks[b].instrs[k])
  }

  ghost predicate UntrackedAt(v: View, dead: Instr -> set<Reg>, b: BlockId, k: nat, i: Instr) {
    && dead(i) !! v.tracked(b, k + 1)
    && (i.kind.Branch? && i.kind.edge.Some? ==> dead(i) !! v.tracked(i.kind.edge.value, 0))
  }

  /** What a call leaves stands for everything the state before it does. */
  ghost predicate SoundNasty(b: Range, v: View, m: Emulator) {
    forall c: BlockId, k: nat, x: Bytes, s: State {:trigger StandsIn(b, Here(v, c, k), m.nasty(x), s)} | StandsIn(b, Here(v, c, k), x, s) ::
      StandsIn(b, Here(v, c, k), m.nasty(x), s)
  }

  lemma KillInRange(b: Range, v: Layout, t: set<Reg>, x: Bytes, rs: set<Reg>, s: State)
    requires StandsIn(b, Masked(v, t), x, s) && rs !! t
    ensures StandsIn(b, Masked(v, t), Kill(x, rs), s)
  {
    KillStands(v, t, x, rs, s);
    hide Stands, KillReg;
    KillOk(x, rs);
  }

  lemma KillingInstr(b: Range, v: View, m: Emulator, dead: Instr -> set<Reg>, c: BlockId, k: nat, i: Instr, x: Bytes, s: State)
    requires EmulationSound(RankedDomain(b, v, m), c, k, i, x, s) && UntrackedAt(v, dead, c, k, i) && SoundNasty(b, v, m)
    ensures EmulationSound(RankedDomain(b, v, Killing(m, dead)), c, k, i, x, s)
  {
    hide StandsIn, Masked, Kill;
    var d, y, s' := RankedDomain(b, v, m), m.transfer(i, x), i.Effect(s);
    var y' := Kill(y, dead(i));
    if !i.holds(s) || i.kind.Plain? {
      assert d.gamma(c, k + 1, d.transfer(i, x), s') && StandsIn(b, Here(v, c, k + 1), y, s');
      KillInRange(b, v.layout, v.tracked(c, k + 1), y, dead(i), s');
      assert StandsIn(b, Here(v, c, k + 1), m.nasty(y'), s');
    }
    if i.holds(s) && i.kind.Branch? && i.kind.edge.Some? {
      assert d.gamma(i.kind.edge.value, 0, d.transfer(i, x), s') && StandsIn(b, Here(v, i.kind.edge.value, 0), y, s');
      KillInRange(b, v.layout, v.tracked(i.kind.edge.value, 0), y, dead(i), s');
    }
  }

  /** If the emulation is sound with these registers tracked, and none that is marked dead is tracked where control may
      go on, the emulation of the pass is sound with them. */
  lemma KillingSound(b: Range, v: View, m: Emulator, dead: Instr -> set<Reg>, keep: set<InstrId>, f: Cfg)
    requires SoundEmulation(RankedDomain(b, v, m), keep, f) && Untracked(v, dead, keep, f) && SoundNasty(b, v, m)
    ensures SoundEmulation(RankedDomain(b, v, Killing(m, dead)), keep, f)
  {
    hide StandsIn, Masked, Kill, SoundNasty, UntrackedAt, EmulationSound;
    var d, d' := RankedDomain(b, v, m), RankedDomain(b, v, Killing(m, dead));
    forall c | c in f.blocks ensures BlockSound(d', keep, c, f.blocks[c]) {
      assert BlockSound(d, keep, c, f.blocks[c]);
      var instrs := f.blocks[c].instrs;
      forall k | 0 <= k < |instrs| ensures if instrs[k].id in keep then InstrSound(d', c, k, instrs[k]) else SkipSound(d', c, k) {
        if instrs[k].id in keep {
          forall x: Bytes, s: State | d'.gamma(c, k, x, s) ensures EmulationSound(d', c, k, instrs[k], x, s) {
            assert InstrSound(d, c, k, instrs[k]) && d.gamma(c, k, x, s);
            KillingInstr(b, v, m, dead, c, k, instrs[k], x, s);
          }
        } else {
          assert SkipSound(d, c, k);
          forall x: Bytes, s: State | d'.gamma(c, k, x, s) ensures d'.gamma(c, k + 1, x, s) { assert d.gamma(c, k, x, s) && d.gamma(c, k + 1, x, s); }
        }
      }
      if f.blocks[c].next.Some? { SameFall(b, v, m, dead, c, |instrs|, f.blocks[c].next.value); }
    }
  }

  lemma SameFall(b: Range, v: View, m: Emulator, dead: Instr -> set<Reg>, c: BlockId, k: nat, n: BlockId)
    requires FallSound(RankedDomain(b, v, m), c, k, n)
    ensures FallSound(RankedDomain(b, v, Killing(m, dead)), c, k, n)
  {
    hide StandsIn, Masked;
    var d, d' := RankedDomain(b, v, m), RankedDomain(b, v, Killing(m, dead));
    forall x: Bytes, s: State | d'.gamma(c, k, x, s) ensures d'.gamma(n, 0, x, s) { assert d.gamma(c, k, x, s) && d.gamma(n, 0, x, s); }
  }

  // ---- with what liveness analysis leaves ----

  /** The registers alive before instruction k of block b. */
  function Alive(a: Abi, f: Cfg, live: L.LiveMap, b: BlockId, k: nat): set<Reg> {
    if b in live && b in f.blocks && k <= |f.blocks[b].instrs| then L.LiveAt(a, f, live, b, k) else {}
  }

  ghost function AliveView(layout: Layout, a: Abi, f: Cfg, live: L.LiveMap): View {
    View(layout, (b, k) => Alive(a, f, live, b, k))
  }

  /** The operands of an instruction, registers of its predicate included, that are not alive behind it. */
  function DeadBehind(marks: map<InstrId, L.LivenessData>, operands: Instr -> set<Reg>): Instr -> set<Reg> {
    (i: Instr) => if i.id in marks then operands(i) - marks[i.id].liveOut else {}
  }

  /** No branch has an operand that is alive at its target but not behind it. */
  ghost predicate BranchesSpare(f: Cfg, live: L.LiveMap, marks: map<InstrId, L.LivenessData>, operands: Instr -> set<Reg>) {
    forall b, k | b in f.blocks && 0 <= k < |f.blocks[b].instrs| && f.blocks[b].instrs[k].id in marks :: BranchSpares(f, live, marks, operands, f.blocks[b].instrs[k])
  }

  ghost predicate BranchSpares(f: Cfg, live: L.LiveMap, marks: map<InstrId, L.LivenessData>, operands: Instr -> set<Reg>, i: Instr)
    requires i.id in marks
  {
    i.kind.Branch? && i.kind.edge.Some? && i.kind.edge.value in f.blocks ==> operands(i) * L.LiveInOf(live, i.kind.edge.value) <= marks[i.id].liveOut
  }

  /** What is marked dead is not alive where control may go on if and only if no branch has an operand that is alive at
      its target but not behind it. */
  lemma UntrackedIff(layout: Layout, a: Abi, f: Cfg, rets: set<BlockId>, live: L.LiveMap, marks: map<InstrId, L.LivenessData>, operands: Instr -> set<Reg>)
    requires E.Analysed(a, f, rets, live, marks)
    ensures Untracked(AliveView(layout, a, f, live), DeadBehind(marks, operands), marks.Keys, f) <==> BranchesSpare(f, live, marks, operands)
  {
    E.AnalysedFacts(a, f, rets, live, marks);
    var v, dead := AliveView(layout, a, f, live), DeadBehind(marks, operands);
    hide E.Analysed, A.Closed, L.Solved, A.Marked;
    forall b, k | b in f.blocks && 0 <= k < |f.blocks[b].instrs| && f.blocks[b].instrs[k].id in marks
      ensures UntrackedAt(v, dead, b, k, f.blocks[b].instrs[k]) <==> BranchSpares(f, live, marks, operands, f.blocks[b].instrs[k])
    {
      UntrackedHere(layout, a, f, live, marks, operands, b, k);
    }
  }

  lemma UntrackedHere(layout: Layout, a: Abi, f: Cfg, live: L.LiveMap, marks: map<InstrId, L.LivenessData>, operands: Instr -> set<Reg>, b: BlockId, k: nat)
    requires forall c | c in live :: L.Solved(a, f, live, c) && live[c].liveIn <= a.allRegs
    requires forall c | c in f.blocks :: if c in live then A.Marked(a, f, live, marks, c) else Ids(f.blocks[c].instrs) !! marks.Keys
    requires b in f.blocks && k < |f.blocks[b].instrs| && f.blocks[b].instrs[k].id in marks
    ensures UntrackedAt(AliveView(layout, a, f, live), DeadBehind(marks, operands), b, k, f.blocks[b].instrs[k]) <==>
              BranchSpares(f, live, marks, operands, f.blocks[b].instrs[k])
  {
    var i, v := f.blocks[b].instrs[k], AliveView(layout, a, f, live);
    assert i.id in Ids(f.blocks[b].instrs);
    assert b in live && A.MarkedAt(a, f, live, marks, b, k);
    hide A.Marked, L.LiveBefore;
    assert marks[i.id].liveOut == v.tracked(b, k + 1);
    if i.kind.Branch? && i.kind.edge.Some? { EntryAlive(layout, a, f, live, i.kind.edge.value); }
  }

  lemma EntryAlive(layout: Layout, a: Abi, f: Cfg, live: L.LiveMap, b: BlockId)
    requires forall c | c in live :: L.Solved(a, f, live, c)
    ensures AliveView(layout, a, f, live).tracked(b, 0) == if b in f.blocks then L.LiveInOf(live, b) else {}
  {
  }

  // ---- the whole of it ----

  /** The stack analysis has finished, with entry states that have come from those at the start, and what is left is what
      it says may be reached and may execute. */
  ghost predicate Settled(a: Abi, f: Cfg, live: L.LiveMap, marks: map<InstrId, L.LivenessData>, b: Range, layout: Layout, m: Emulator,
                          operands: Instr -> set<Reg>, w: Analysis<Bytes>, seen: map<BlockId, Bytes>, start: map<BlockId, Bytes>, g: Cfg) {
    var d := RankedDomain(b, AliveView(layout, a, f, live), Killing(m, DeadBehind(marks, operands)));
    Finished(d, marks.Keys, f, w, seen) && G.Generates(d, marks.Keys, f, start, w.entry) && C.LeftOver(f, w.dyn, w.entry.Keys, g)
  }

  /** Liveness analysis, stack analysis over whole states with dead registers marked, and dead code elimination, on a
      function all of whose blocks lead to a return and in which no branch has an operand that is alive at its target
      but not behind it: from the entry, in every state the one given stands for with the registers alive there
      tracked, the result looks the same as the function. */
  method EliminateDeadCode(a: Abi, f: Cfg, order: seq<BlockId>, returnBlocks: seq<BlockId>, ghost rank: map<BlockId, nat>, b: Range,
      ghost layout: Layout, m: Emulator, operands: Instr -> set<Reg>, e: BlockId, x: Bytes)
      returns (g: Cfg, ghost live: L.LiveMap, ghost marks: map<InstrId, L.LivenessData>, ghost w: Analysis<Bytes>, ghost seen: map<BlockId, Bytes>)
    requires WellLinked(f) && L.MasksIn(a, f) && ChainsEnd(f, rank)
    requires Members(order) == f.blocks.Keys && forall i, j | 0 <= i < j < |order| :: order[i] != order[j]
    requires returnBlocks != [] && forall c | c in returnBlocks :: c in f.blocks
    requires forall i, j | 0 <= i < j < |returnBlocks| :: returnBlocks[i] != returnBlocks[j]
    requires forall c | c in f.blocks :: W.Returns(f, Members(returnBlocks), c)
    requires e in f.blocks && forall live, marks | E.Analysed(a, f, Members(returnBlocks), live, marks) ::
               Ready(a, f, live, marks, b, layout, m, operands)
    ensures Settled(a, f, live, marks, b, layout, m, operands, w, seen, map[e := x], g)
    ensures E.Analysed(a, f, Members(returnBlocks), live, marks)
    ensures forall s | StandsIn(b, Masked(layout, Alive(a, f, live, e, 0)), x, s) && SoundForever(f, At(e, 0, s)) ::
              LooksSame(a, f, At(e, 0, s), g, At(e, 0, s))
    ensures g.blocks.Keys <= f.blocks.Keys && Chained(g)
  {
    hide WellLinked, SoundJoin, P.Descending, Finished, SoundEmulation, LooksSame, SoundForever, Chained, StandsIn, E.Analysed, L.MasksIn, ChainsEnd, W.Returns, Ready, Masked, Alive, C.LeftOver, G.Generates;
    var l, k := E.AnalyzeLiveness(a, f, returnBlocks, rank);
    live, marks := l, k;
    ghost var v := AliveView(layout, a, f, l);
    var dying := Killing(m, DeadBehind(k, operands));
    var d := RankedDomain(b, v, dying);
    RankedJoinDescends(b, v, dying);
    ReadyKills(a, f, Members(returnBlocks), l, k, b, layout, m, operands);
    g, w, seen := E.EliminateAnalysed(a, f, order, Members(returnBlocks), l, k, d, y => RangeRank(b, y), e, x);
    forall s | StandsIn(b, Masked(layout, Alive(a, f, live, e, 0)), x, s) && SoundForever(f, At(e, 0, s)) ensures LooksSame(a, f, At(e, 0, s), g, At(e, 0, s)) {
      StartsIn(b, layout, a, f, l, dying, e, x, s);
    }
  }

  lemma StartsIn(b: Range, layout: Layout, a: Abi, f: Cfg, live: L.LiveMap, m: Emulator, e: BlockId, x: Bytes, s: State)
    requires StandsIn(b, Masked(layout, Alive(a, f, live, e, 0)), x, s)
    ensures RankedDomain(b, AliveView(layout, a, f, live), m).gamma(e, 0, x, s)
  {
    hide StandsIn, Masked, Alive;
    var v := AliveView(layout, a, f, live);
    assert v.layout == layout && v.tracked(e, 0) == Alive(a, f, live, e, 0);
    assert Here(v, e, 0) == Masked(layout, Alive(a, f, live, e, 0));
    assert StandsIn(b, Here(v, e, 0), x, s);
  }

  /** The emulation is sound with the registers alive tracked, what a call leaves too, and branches spare what is alive at
      their targets. */
  ghost predicate Ready(a: Abi, f: Cfg, live: L.LiveMap, marks: map<InstrId, L.LivenessData>, b: Range, layout: Layout, m: Emulator, operands: Instr -> set<Reg>) {
    var v := AliveView(layout, a, f, live);
    SoundEmulation(RankedDomain(b, v, m), marks.Keys, f) && SoundNasty(b, v, m) && BranchesSpare(f, live, marks, operands)
  }

  lemma ReadyKills(a: Abi, f: Cfg, rets: set<BlockId>, live: L.LiveMap, marks: map<InstrId, L.LivenessData>, b: Range, layout: Layout, m: Emulator, operands: Instr -> set<Reg>)
    requires E.Analysed(a, f, rets, live, marks) && Ready(a, f, live, marks, b, layout, m, operands)
    ensures SoundEmulation(RankedDomain(b, AliveView(layout, a, f, live), Killing(m, DeadBehind(marks, operands))), marks.Keys, f)
  {
    hide E.Analysed, SoundEmulation, SoundNasty, BranchesSpare, Untracked, RankedDomain, AliveView, DeadBehind, Killing;
    UntrackedIff(layout, a, f, rets, live, marks, operands);
    KillingSound(b, AliveView(layout, a, f, live), m, DeadBehind(marks, operands), marks.Keys, f);
  }
}

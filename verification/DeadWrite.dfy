/** Removing the instructions liveness analysis left unmarked does not change what a function
    does: a stuttering simulation between the original graph and the one without them. */
module DeadWrite {
  import opened Machine
  import opened Liveness

  /** The instructions among the first n whose id is in keep, in order. */
  function FilterTo(instrs: seq<Instr>, keep: set<InstrId>, n: nat): seq<Instr>
    requires n <= |instrs|
  {
    if n == 0 then []
    else if instrs[n - 1].id in keep then FilterTo(instrs, keep, n - 1) + [instrs[n - 1]]
    else FilterTo(instrs, keep, n - 1)
  }

  function Filter(instrs: seq<Instr>, keep: set<InstrId>): seq<Instr> {
    FilterTo(instrs, keep, |instrs|)
  }

  /** The graph with only the instructions in keep. */
  function Eliminate(f: Cfg, keep: set<InstrId>): Cfg {
    Cfg(map b | b in f.blocks :: f.blocks[b].(instrs := Filter(f.blocks[b].instrs, keep)))
  }

  lemma {:induction false} FilterPrefix(instrs: seq<Instr>, keep: set<InstrId>, m: nat, n: nat)
    requires m <= n <= |instrs|
    ensures |FilterTo(instrs, keep, m)| <= |FilterTo(instrs, keep, n)|
    ensures FilterTo(instrs, keep, n)[..|FilterTo(instrs, keep, m)|] == FilterTo(instrs, keep, m)
  {
    if m < n {
      FilterPrefix(instrs, keep, m, n - 1);
    }
  }

  /** A kept instruction sits where the kept instructions before it end. */
  lemma FilterAt(instrs: seq<Instr>, keep: set<InstrId>, k: nat)
    requires k < |instrs| && instrs[k].id in keep
    ensures |FilterTo(instrs, keep, k)| < |Filter(instrs, keep)|
    ensures Filter(instrs, keep)[|FilterTo(instrs, keep, k)|] == instrs[k]
  {
    FilterPrefix(instrs, keep, k + 1, |instrs|);
    assert FilterTo(instrs, keep, k + 1)[|FilterTo(instrs, keep, k)|] == instrs[k];
  }

  /** Of the analysed blocks keep holds the ids of exactly the instructions that need to stay,
      of the other blocks none. */
  ghost predicate KeepsNeeded(a: Abi, f: Cfg, live: LiveMap, keep: set<InstrId>) {
    forall b, k | b in f.blocks && 0 <= k < |f.blocks[b].instrs| ::
      f.blocks[b].instrs[k].id in keep <==> b in live && !DeadAt(a, f, live, b, k)
  }

  /** The equations of every analysed block hold, over the registers there are. */
  ghost predicate AllSolved(a: Abi, f: Cfg, live: LiveMap) {
    && MasksIn(a, f)
    && live.Keys <= f.blocks.Keys
    && forall b | b in live :: Solved(a, f, live, b) && live[b].liveIn <= a.allRegs
  }

  /** The configuration is not in a block the analysis never looked at. */
  predicate InCover(f: Cfg, live: LiveMap, c: Config) {
    c.At? && c.block in f.blocks ==> c.block in live
  }

  /** Neither are the first n configurations of the run from c. */
  predicate CoveredRun(f: Cfg, live: LiveMap, n: nat, c: Config) {
    n > 0 ==> InCover(f, live, c) && CoveredRun(f, live, n - 1, Step(f, c))
  }

  /** The configurations agree on memory, position and every register still alive. */
  ghost predicate Related(a: Abi, f: Cfg, live: LiveMap, keep: set<InstrId>, c: Config, c': Config) {
    match c
    case At(b, pc, s) =>
      && c'.At? && c'.block == b && c'.s.mem == s.mem
      && (b in f.blocks ==>
            && pc <= |f.blocks[b].instrs|
            && c'.pc == |FilterTo(f.blocks[b].instrs, keep, pc)|
            && (b in live ==> Agree(s, c'.s, LiveAt(a, f, live, b, pc))))
    case Returned(s) => c'.Returned? && c'.s.mem == s.mem && Agree(s, c'.s, a.liveRet)
    case Left(s) => c'.Left? && c'.s.mem == s.mem && Agree(s, c'.s, a.allRegs)
    case Stuck => c'.Stuck?
  }

  /** The next step executes an instruction that is going to be removed. */
  predicate Silent(f: Cfg, keep: set<InstrId>, c: Config) {
    && c.At? && c.block in f.blocks && c.pc < |f.blocks[c.block].instrs|
    && f.blocks[c.block].instrs[c.pc].id !in keep
  }

  /** How many of the first n steps remain when the removed instructions are gone. */
  function KeptSteps(f: Cfg, keep: set<InstrId>, n: nat, c: Config): nat {
    if n == 0 then 0
    else (if Silent(f, keep, c) then 0 else 1) + KeptSteps(f, keep, n - 1, Step(f, c))
  }

  lemma DeadInstrInvisible(i: Instr, live: set<Reg>, s: State, t: State)
    requires IsDead(i, live) && SoundAt(i, s) && Agree(s, t, live)
    ensures Agree(i.Effect(s), t, live) && i.Effect(s).mem == s.mem
  {
    var info := i.EffectiveInfo();
    if i.holds(s) {
      assert Agree(s, s, info.readRegs);
      assert SameEffect(i, info, s, s);
      forall r | r in live ensures i.exec(s).regs(r) == t.regs(r) {
        assert r in live - info.writtenRegs - info.condWrittenRegs;
      }
    }
  }

  /** Doing something else under the same masks. */
  function Doing(i: Instr, exec: State -> State): Instr { i.(holds := (s: State) => true, exec := exec) }

  /** Whatever an instruction with these masks does, when it executes, it leaves memory and these registers alone. */
  ghost predicate AlwaysInvisible(i: Instr, live: set<Reg>) {
    forall exec: State -> State, s: State | SoundAt(Doing(i, exec), s) :: Agree(exec(s), s, live) && exec(s).mem == s.mem
  }

  /** Changes all that the masks allow to be written. */
  function Clobber(i: Instr, s: State): State -> State {
    var info := i.EffectiveInfo();
    (t: State) => State((r: Reg) => if r in info.writtenRegs || r in info.condWrittenRegs then s.regs(r) + 1 else t.regs(r),
                        if info.mayWriteMem then s.mem[0 := if 0 in s.mem then s.mem[0] + 1 else 0] else t.mem)
  }

  lemma ClobberSound(i: Instr, s: State)
    requires i.kind.Plain? && i.EffectiveInfo().willExecute != False
    ensures SoundAt(Doing(i, Clobber(i, s)), s)
  {
    var j := Doing(i, Clobber(i, s));
    assert j.EffectiveInfo().willExecute != False && j.EffectiveInfo().writtenRegs == i.EffectiveInfo().writtenRegs;
  }

  /** An instruction that may execute is taken for dead if and only if its masks leave it nothing to do that is seen. */
  lemma DeadIffInvisible(i: Instr, live: set<Reg>)
    requires i.kind.Plain? && i.EffectiveInfo().willExecute != False
    ensures IsDead(i, live) <==> AlwaysInvisible(i, live)
  {
    if IsDead(i, live) {
      forall exec: State -> State, s: State | SoundAt(Doing(i, exec), s) ensures Agree(exec(s), s, live) && exec(s).mem == s.mem {
        var j := Doing(i, exec);
        assert j.EffectiveInfo() == i.EffectiveInfo() || j.EffectiveInfo().(willExecute := True) == i.EffectiveInfo().(willExecute := True);
        DeadInstrInvisible(j, live, s, s);
        assert j.Effect(s) == exec(s);
      }
    } else {
      DeadMatters(i, live);
      var s := State(r => 0, map[]);
      ClobberSound(i, s);
      var t := Clobber(i, s)(s);
      var info := i.EffectiveInfo();
      if info.mayWriteMem {
        assert t.mem[0] == 0;
      } else {
        var r :| r in live && (r in info.writtenRegs || r in info.condWrittenRegs);
        assert t.regs(r) != s.regs(r);
      }
    }
  }

  lemma NeededInstrAgrees(a: Abi, i: Instr, live: set<Reg>, blocks: LiveMap, s: State, t: State)
    requires !IsDead(i, live) && SoundAt(i, s) && s.mem == t.mem && live <= a.allRegs
    requires Agree(s, t, NeededLiveIn(a, i, live, blocks))
    ensures i.holds(s) == i.holds(t)
    ensures !i.holds(s) ==> Agree(s, t, live)
    ensures i.holds(s) && i.kind.Plain? ==> Agree(i.exec(s), i.exec(t), live) && i.exec(s).mem == i.exec(t).mem
    ensures i.holds(s) && i.kind.Branch? && i.kind.edge.Some? ==>
              && i.exec(s).mem == i.exec(t).mem
              && Agree(i.exec(s), i.exec(t), LiveInOf(blocks, i.kind.edge.value))
    ensures i.holds(s) && i.kind.Ret? ==> Agree(s, t, a.liveRet)
    ensures i.holds(s) && (i.kind.Call? || i.kind == Branch(None)) ==> Agree(s, t, a.allRegs)
  {
    var info := i.EffectiveInfo();
    assert Agree(s, t, info.predicateRegs);
    if i.holds(s) && (i.kind.Plain? || (i.kind.Branch? && i.kind.edge.Some?)) {
      assert Agree(s, t, info.readRegs);
      assert SameEffect(i, info, s, t);
      assert SameEffect(i, info, s, s) by { assert Agree(s, s, info.readRegs); }
    }
  }

  /** A needed instruction does the same in both configurations. */
  lemma NeededStep(a: Abi, f: Cfg, live: LiveMap, keep: set<InstrId>, c: Config, c': Config)
    requires AllSolved(a, f, live) && Related(a, f, live, keep, c, c')
    requires c.At? && c.block in live && c.pc < |f.blocks[c.block].instrs|
    requires SoundAt(f.blocks[c.block].instrs[c.pc], c.s)
    requires f.blocks[c.block].instrs[c.pc].id in keep && !DeadAt(a, f, live, c.block, c.pc)
    ensures var i := f.blocks[c.block].instrs[c.pc];
            && InstrEvent(a, i, c.s) == InstrEvent(a, i, c'.s)
            && Related(a, f, live, keep, StepInstr(i, c), StepInstr(i, c'))
  {
    var b := f.blocks[c.block];
    var i := b.instrs[c.pc];
    var after := LiveAt(a, f, live, c.block, c.pc + 1);
    assert LiveAt(a, f, live, c.block, c.pc) == NeededLiveIn(a, i, after, live);
    LiveBeforeBounded(a, b.instrs, c.pc + 1, BlockLiveOut(b, live), live);
    NeededInstrAgrees(a, i, after, live, c.s, c'.s);
    if i.holds(c.s) {
      match i.kind
      case Plain =>
      case Branch(None) => AgreeValues(c.s, c'.s, a.allRegs);
      case Branch(Some(d)) => BranchTargetAlive(a, f, live, i);
      case Call => AgreeValues(c.s, c'.s, a.allRegs);
      case Ret => AgreeValues(c.s, c'.s, a.liveRet);
    }
  }

  /** One step of the original against zero or one steps of the result. */
  lemma StepRelated(a: Abi, f: Cfg, live: LiveMap, keep: set<InstrId>, c: Config, c': Config)
    requires AllSolved(a, f, live) && KeepsNeeded(a, f, live, keep)
    requires Related(a, f, live, keep, c, c') && InCover(f, live, c)
    requires SoundRun(f, 1, c)
    ensures Silent(f, keep, c) ==>
              Related(a, f, live, keep, Step(f, c), c') && Events(a, f, c) == []
    ensures !Silent(f, keep, c) ==>
              && Related(a, f, live, keep, Step(f, c), Step(Eliminate(f, keep), c'))
              && Events(a, f, c) == Events(a, Eliminate(f, keep), c')
  {
    hide AllSolved, Solved, MasksIn, LiveBefore, InstrEvent, StepInstr, SoundAt, KeepsNeeded;
    if c.At? && c.block in f.blocks {
      if c.pc >= |f.blocks[c.block].instrs| {
        FallthroughRelated(a, f, live, keep, c, c');
      } else if Silent(f, keep, c) {
        SilentRelated(a, f, live, keep, c, c');
      } else {
        NeededRelated(a, f, live, keep, c, c');
      }
    }
  }

  lemma NeededRelated(a: Abi, f: Cfg, live: LiveMap, keep: set<InstrId>, c: Config, c': Config)
    requires AllSolved(a, f, live) && KeepsNeeded(a, f, live, keep)
    requires Related(a, f, live, keep, c, c') && !Silent(f, keep, c)
    requires c.At? && c.block in live && c.pc < |f.blocks[c.block].instrs|
    requires SoundAt(f.blocks[c.block].instrs[c.pc], c.s)
    ensures Related(a, f, live, keep, Step(f, c), Step(Eliminate(f, keep), c'))
    ensures Events(a, f, c) == Events(a, Eliminate(f, keep), c')
  {
    assert !DeadAt(a, f, live, c.block, c.pc);
    hide AllSolved, Solved, MasksIn, IsDead, LiveBefore, InstrEvent, StepInstr, SoundAt, KeepsNeeded, Related;
    assert c'.pc == |FilterTo(f.blocks[c.block].instrs, keep, c.pc)| && c'.At? && c'.block == c.block by {
      RelatedAt(a, f, live, keep, c, c');
    }
    FilterAt(f.blocks[c.block].instrs, keep, c.pc);
    NeededStep(a, f, live, keep, c, c');
  }

  lemma RelatedAt(a: Abi, f: Cfg, live: LiveMap, keep: set<InstrId>, c: Config, c': Config)
    requires Related(a, f, live, keep, c, c') && c.At? && c.block in f.blocks
    ensures c'.At? && c'.block == c.block && c.pc <= |f.blocks[c.block].instrs|
    ensures c'.pc == |FilterTo(f.blocks[c.block].instrs, keep, c.pc)|
  {
  }

  lemma SilentRelated(a: Abi, f: Cfg, live: LiveMap, keep: set<InstrId>, c: Config, c': Config)
    requires KeepsNeeded(a, f, live, keep)
    requires Related(a, f, live, keep, c, c') && Silent(f, keep, c) && c.block in live
    requires SoundAt(f.blocks[c.block].instrs[c.pc], c.s)
    ensures Related(a, f, live, keep, Step(f, c), c')
    ensures Events(a, f, c) == []
  {
    assert DeadAt(a, f, live, c.block, c.pc);
    hide KeepsNeeded, SoundAt, InstrEvent, StepInstr, NeededLiveIn;
    var i, after := f.blocks[c.block].instrs[c.pc], LiveAt(a, f, live, c.block, c.pc + 1);
    assert LiveAt(a, f, live, c.block, c.pc) == after;
    DeadStep(a, i, after, c, c'.s);
  }

  lemma DeadStep(a: Abi, i: Instr, live: set<Reg>, c: Config, t: State)
    requires IsDead(i, live) && c.At? && SoundAt(i, c.s) && Agree(c.s, t, live)
    ensures StepInstr(i, c).At? && StepInstr(i, c) == At(c.block, c.pc + 1, i.Effect(c.s))
    ensures Agree(i.Effect(c.s), t, live) && i.Effect(c.s).mem == c.s.mem
    ensures InstrEvent(a, i, c.s) == []
  {
    DeadInstrInvisible(i, live, c.s, t);
  }

  lemma FallthroughRelated(a: Abi, f: Cfg, live: LiveMap, keep: set<InstrId>, c: Config, c': Config)
    requires AllSolved(a, f, live) && Related(a, f, live, keep, c, c')
    requires c.At? && c.block in live && c.pc >= |f.blocks[c.block].instrs|
    ensures Related(a, f, live, keep, Step(f, c), Step(Eliminate(f, keep), c'))
    ensures Events(a, f, c) == Events(a, Eliminate(f, keep), c') == []
    ensures !Silent(f, keep, c)
  {
    assert Solved(a, f, live, c.block);
    var next := f.blocks[c.block].next;
    assert next.Some? ==> Solved(a, f, live, next.value);
  }

  lemma BranchTargetAlive(a: Abi, f: Cfg, live: LiveMap, i: Instr)
    requires AllSolved(a, f, live)
    ensures i.kind.Branch? && i.kind.edge.Some? && i.kind.edge.value in live ==>
              LiveInOf(live, i.kind.edge.value) == LiveAt(a, f, live, i.kind.edge.value, 0)
  {
    if i.kind.Branch? && i.kind.edge.Some? && i.kind.edge.value in live {
      assert Solved(a, f, live, i.kind.edge.value);
    }
  }

  /** For every run through analysed blocks: the events of n steps of the original are the events
      of the result after the steps that remain, and both end in related configurations. */
  lemma {:induction false} ForwardSimulation(a: Abi, f: Cfg, live: LiveMap, keep: set<InstrId>, n: nat, c: Config, c': Config)
    requires AllSolved(a, f, live) && KeepsNeeded(a, f, live, keep)
    requires Related(a, f, live, keep, c, c')
    requires SoundRun(f, n, c) && CoveredRun(f, live, n, c)
    ensures Trace(a, f, n, c) == Trace(a, Eliminate(f, keep), KeptSteps(f, keep, n, c), c')
    ensures Related(a, f, live, keep, Run(f, n, c), Run(Eliminate(f, keep), KeptSteps(f, keep, n, c), c'))
  {
    hide AllSolved, KeepsNeeded, Related, Silent, Eliminate, Step, Events, InCover, SoundAt;
    if n > 0 {
      assert SoundRun(f, 1, c) by { assert SoundRun(f, 0, Step(f, c)); }
      StepRelated(a, f, live, keep, c, c');
      var d, g := Step(f, c), Eliminate(f, keep);
      var d' := if Silent(f, keep, c) then c' else Step(g, c');
      ForwardSimulation(a, f, live, keep, n - 1, d, d');
      KeptStep(a, f, keep, n, c, c');
    }
  }

  lemma KeptStep(a: Abi, f: Cfg, keep: set<InstrId>, n: nat, c: Config, c': Config)
    requires n > 0
    ensures var m, k, g := KeptSteps(f, keep, n, c), KeptSteps(f, keep, n - 1, Step(f, c)), Eliminate(f, keep);
            if Silent(f, keep, c) then m == k else (
              && m == k + 1
              && Run(g, m, c') == Run(g, k, Step(g, c'))
              && Trace(a, g, m, c') == Events(a, g, c') + Trace(a, g, k, Step(g, c')))
  {
  }

  /** A stretch of removed instructions ends within its block. */
  lemma {:induction false} SilenceEnds(a: Abi, f: Cfg, live: LiveMap, keep: set<InstrId>, c: Config) returns (n: nat)
    requires KeepsNeeded(a, f, live, keep) && InCover(f, live, c)
    ensures KeptSteps(f, keep, n, c) == 1
    decreases if Silent(f, keep, c) then |f.blocks[c.block].instrs| - c.pc else 0
  {
    if Silent(f, keep, c) {
      assert DeadAt(a, f, live, c.block, c.pc);
      n := SilenceEnds(a, f, live, keep, Step(f, c));
      n := n + 1;
    } else {
      n := 1;
      assert KeptSteps(f, keep, 0, Step(f, c)) == 0;
    }
  }

  lemma {:induction false} CoveredLater(f: Cfg, live: LiveMap, m: nat, n: nat, c: Config)
    requires CoveredRun(f, live, m + n, c)
    ensures CoveredRun(f, live, n, Run(f, m, c))
  {
    if m > 0 {
      CoveredLater(f, live, m - 1, n, Step(f, c));
    }
  }

  /** The result never gets ahead of the original: m steps of it are what remains of some run. */
  lemma {:induction false} EveryStepOriginates(a: Abi, f: Cfg, live: LiveMap, keep: set<InstrId>, m: nat, c: Config) returns (n: nat)
    requires KeepsNeeded(a, f, live, keep)
    requires forall j: nat :: CoveredRun(f, live, j, c)
    ensures KeptSteps(f, keep, n, c) == m
  {
    n := 0;
    if m > 0 {
      assert CoveredRun(f, live, 1, c);
      var k := SilenceEnds(a, f, live, keep, c);
      forall j: nat ensures CoveredRun(f, live, j, Run(f, k, c)) {
        CoveredLater(f, live, k, j, c);
      }
      var l := EveryStepOriginates(a, f, live, keep, m - 1, Run(f, k, c));
      KeptStepsSplit(f, keep, k, l, c);
      n := k + l;
    }
  }

  lemma {:induction false} KeptStepsSplit(f: Cfg, keep: set<InstrId>, m: nat, n: nat, c: Config)
    ensures KeptSteps(f, keep, m + n, c) == KeptSteps(f, keep, m, c) + KeptSteps(f, keep, n, Run(f, m, c))
  {
    if m > 0 {
      KeptStepsSplit(f, keep, m - 1, n, Step(f, c));
    }
  }
}

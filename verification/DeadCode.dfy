/** Dead code elimination: instructions that are never executed go, branches that are always taken
    become jumps, blocks that are never reached are taken out. What is left runs like the function. */
module DeadCode {
  import opened Machine
  import opened Links
  import opened StackAnalysis
  import opened Simulation
  import D = DeadWrite

  /** Instructions with an outcome that is not "never". */
  function Survivors(dyn: map<InstrId, TriState>): set<InstrId> {
    set id | id in dyn && dyn[id] != False
  }

  /** A conditional branch that is always taken. */
  predicate Sure(i: Instr, dyn: map<InstrId, TriState>) {
    i.kind.Branch? && i.hasPredicate && i.id in dyn && dyn[i.id] == True
  }

  /** It becomes an unconditional one. */
  function Sharpen(i: Instr): Instr {
    i.(hasPredicate := false, holds := (s: State) => true)
  }

  /** A branch to a block that is not there any more has lost its edge. */
  function Detach(i: Instr, gone: set<BlockId>): Instr {
    if i.kind.Branch? && i.kind.edge.Some? && i.kind.edge.value in gone then i.(kind := Branch(None)) else i
  }

  function Final(i: Instr, dyn: map<InstrId, TriState>, gone: set<BlockId>): Instr {
    Detach(if Sure(i, dyn) then Sharpen(i) else i, gone)
  }

  predicate HasSure(instrs: seq<Instr>, dyn: map<InstrId, TriState>) {
    exists k :: 0 <= k < |instrs| && Sure(instrs[k], dyn)
  }

  /** What the pass leaves of a function: of every block with an entry state the surviving
      instructions, and its fallthrough link unless a branch before the end is always taken. */
  ghost predicate Shaped(f: Cfg, dyn: map<InstrId, TriState>, entries: set<BlockId>, g: Cfg) {
    && g.blocks.Keys == entries <= f.blocks.Keys
    && forall b | b in entries :: BlockShaped(f, dyn, entries, g, b)
  }

  ghost predicate BlockShaped(f: Cfg, dyn: map<InstrId, TriState>, entries: set<BlockId>, g: Cfg, b: BlockId)
    requires b in f.blocks && b in g.blocks
  {
    var left, next := D.Filter(f.blocks[b].instrs, Survivors(dyn)), f.blocks[b].next;
    && |g.blocks[b].instrs| == |left|
    && (forall k | 0 <= k < |left| :: g.blocks[b].instrs[k] == Final(left[k], dyn, f.blocks.Keys - entries))
    && (if HasSure(left, dyn) || next == None then g.blocks[b].next == None
        else next.value in entries ==> g.blocks[b].next == next)
  }

  // ---- the simulation ----

  /** The function without the instructions that have no liveness data. */
  function Kept(f: Cfg, keep: set<InstrId>): System {
    System(c => StepKept(f, keep, c), c => RecordedKept(f, keep, c))
  }

  function RecordedKept(f: Cfg, keep: set<InstrId>, c: Config): seq<Executed> {
    if c.At? && c.block in f.blocks && c.pc < |f.blocks[c.block].instrs| && f.blocks[c.block].instrs[c.pc].id !in keep
    then [] else Recorded(f, c)
  }

  /** Where the result is when the function is at c. */
  function Image(f: Cfg, dyn: map<InstrId, TriState>, c: Config): Config {
    match c
    case At(b, pc, s) =>
      if b in f.blocks && pc <= |f.blocks[b].instrs|
      then At(b, |D.FilterTo(f.blocks[b].instrs, Survivors(dyn), pc)|, s) else c
    case _ => c
  }

  ghost predicate Corresponds<A>(d: Domain<A>, keep: set<InstrId>, f: Cfg, w: Analysis<A>, seen: map<BlockId, A>, c: Config, c': Config) {
    Described(d, keep, f, w, seen, c) && c' == Image(f, w.dyn, c)
  }

  /** The next instruction is there and survives. */
  predicate AtSurvivor(f: Cfg, dyn: map<InstrId, TriState>, c: Config) {
    && c.At? && c.block in f.blocks && c.pc < |f.blocks[c.block].instrs|
    && f.blocks[c.block].instrs[c.pc].id in Survivors(dyn)
  }

  predicate AtRemoved(f: Cfg, dyn: map<InstrId, TriState>, c: Config) {
    && c.At? && c.block in f.blocks && c.pc < |f.blocks[c.block].instrs|
    && f.blocks[c.block].instrs[c.pc].id !in Survivors(dyn)
  }

  /** A removed instruction does nothing. */
  lemma RemovedStep<A(!new)>(d: Domain<A>, keep: set<InstrId>, f: Cfg, w: Analysis<A>, seen: map<BlockId, A>, c: Config)
    requires SoundEmulation(d, keep, f) && Finished(d, keep, f, w, seen) && Described(d, keep, f, w, seen, c)
    requires AtRemoved(f, w.dyn, c)
    ensures StepKept(f, keep, c) == c.(pc := c.pc + 1) && RecordedKept(f, keep, c) == []
    ensures Described(d, keep, f, w, seen, c.(pc := c.pc + 1))
    ensures Image(f, w.dyn, c.(pc := c.pc + 1)) == Image(f, w.dyn, c)
  {
    StepDescribed(d, keep, f, w, seen, c);
    if f.blocks[c.block].instrs[c.pc].id in keep {
      KeptStepDescribed(d, keep, f, w, seen, c);
    }
  }

  /** A survivor does what is left of it. */
  lemma SurvivorStep<A(!new)>(d: Domain<A>, keep: set<InstrId>, f: Cfg, w: Analysis<A>, seen: map<BlockId, A>, g: Cfg, c: Config)
    requires SoundEmulation(d, keep, f) && Finished(d, keep, f, w, seen) && Described(d, keep, f, w, seen, c)
    requires Shaped(f, w.dyn, w.entry.Keys, g) && AtSurvivor(f, w.dyn, c)
    ensures Described(d, keep, f, w, seen, StepKept(f, keep, c))
    ensures Step(g, Image(f, w.dyn, c)) == Image(f, w.dyn, StepKept(f, keep, c))
    ensures Recorded(g, Image(f, w.dyn, c)) == RecordedKept(f, keep, c)
  {
    var instrs, alive := f.blocks[c.block].instrs, Survivors(w.dyn);
    var i := instrs[c.pc];
    assert i.id in keep;
    StepDescribed(d, keep, f, w, seen, c);
    KeptStepDescribed(d, keep, f, w, seen, c);
    D.FilterAt(instrs, alive, c.pc);
    assert BlockShaped(f, w.dyn, w.entry.Keys, g, c.block);
    SurvivorDoes(f, w.dyn, w.entry.Keys, i, c, |D.FilterTo(instrs, alive, c.pc)|);
    SurvivorLands(d, keep, f, w, seen, i, c);
  }

  lemma SurvivorDoes(f: Cfg, dyn: map<InstrId, TriState>, entries: set<BlockId>, i: Instr, c: Config, pc: nat)
    requires c.At? && i.id in dyn && (dyn[i.id] == True ==> i.holds(c.s))
    requires StepInstr(i, c).At? && StepInstr(i, c).block != c.block ==> StepInstr(i, c).block in entries
    requires c.block in entries
    ensures var j := Final(i, dyn, f.blocks.Keys - entries);
            && Record(j, c.s) == Record(i, c.s)
            && StepInstr(j, c.(pc := pc))
                 == (if !i.holds(c.s) || i.kind.Plain? then StepInstr(i, c).(pc := pc + 1) else StepInstr(i, c))
  {
    var j := Final(i, dyn, f.blocks.Keys - entries);
    assert j.id == i.id && j.exec == i.exec && j.holds(c.s) == i.holds(c.s);
    if i.holds(c.s) {
      assert i.kind.Branch? && i.kind.edge.Some? ==> i.kind.edge.value in entries;
      assert j.kind == i.kind;
      assert i.kind.Branch? || j == i;
    } else {
      assert i.kind.Branch? <==> j.kind.Branch?;
    }
    hide Final;
  }

  lemma SurvivorLands<A>(d: Domain<A>, keep: set<InstrId>, f: Cfg, w: Analysis<A>, seen: map<BlockId, A>, i: Instr, c: Config)
    requires AtSurvivor(f, w.dyn, c) && i == f.blocks[c.block].instrs[c.pc]
    requires Described(d, keep, f, w, seen, StepInstr(i, c))
    ensures var n := |D.FilterTo(f.blocks[c.block].instrs, Survivors(w.dyn), c.pc)|;
            Image(f, w.dyn, StepInstr(i, c))
              == (if !i.holds(c.s) || i.kind.Plain? then StepInstr(i, c).(pc := n + 1) else StepInstr(i, c))
  {
  }

  lemma {:induction false} StateEarlier<A>(d: Domain<A>, keep: set<InstrId>, instrs: seq<Instr>, x: A, j: nat, k: nat)
    requires j <= k <= |instrs| && StateBefore(d, keep, instrs, x, k).Some?
    ensures StateBefore(d, keep, instrs, x, j).Some?
  {
    if j < k {
      StateEarlier(d, keep, instrs, x, j, k - 1);
    }
  }

  lemma {:induction false} FilterFrom(instrs: seq<Instr>, keep: set<InstrId>, n: nat, k: nat) returns (j: nat)
    requires n <= |instrs| && k < |D.FilterTo(instrs, keep, n)|
    ensures j < n && instrs[j] == D.FilterTo(instrs, keep, n)[k] && instrs[j].id in keep
  {
    if instrs[n - 1].id in keep && k == |D.FilterTo(instrs, keep, n)| - 1 {
      j := n - 1;
    } else {
      j := FilterFrom(instrs, keep, n - 1, k);
    }
  }

  /** A block whose end is reached has no branch that is always taken. */
  lemma NoneSure<A>(d: Domain<A>, keep: set<InstrId>, f: Cfg, w: Analysis<A>, seen: map<BlockId, A>, b: BlockId, s: State)
    requires Finished(d, keep, f, w, seen) && b in f.blocks
    requires Described(d, keep, f, w, seen, At(b, |f.blocks[b].instrs|, s))
    ensures !HasSure(D.Filter(f.blocks[b].instrs, Survivors(w.dyn)), w.dyn)
  {
    var instrs, left := f.blocks[b].instrs, D.Filter(f.blocks[b].instrs, Survivors(w.dyn));
    forall k | 0 <= k < |left| ensures !Sure(left[k], w.dyn) {
      var j := FilterFrom(instrs, Survivors(w.dyn), |instrs|, k);
      StateEarlier(d, keep, instrs, seen[b], j, |instrs|);
      assert Processed(d, keep, f, w, seen, b);
      assert HandledAt(d, w, instrs[j], StateBefore(d, keep, instrs, seen[b], j).value);
    }
  }

  /** So it falls through as before. */
  lemma EndStep<A(!new)>(d: Domain<A>, keep: set<InstrId>, f: Cfg, w: Analysis<A>, seen: map<BlockId, A>, g: Cfg, c: Config)
    requires SoundEmulation(d, keep, f) && Finished(d, keep, f, w, seen) && Described(d, keep, f, w, seen, c)
    requires Shaped(f, w.dyn, w.entry.Keys, g) && c.At? && !AtSurvivor(f, w.dyn, c) && !AtRemoved(f, w.dyn, c)
    ensures Described(d, keep, f, w, seen, StepKept(f, keep, c))
    ensures Step(g, Image(f, w.dyn, c)) == Image(f, w.dyn, StepKept(f, keep, c))
    ensures Recorded(g, Image(f, w.dyn, c)) == RecordedKept(f, keep, c)
  {
    StepDescribed(d, keep, f, w, seen, c);
    NoneSure(d, keep, f, w, seen, c.block, c.s);
    assert BlockShaped(f, w.dyn, w.entry.Keys, g, c.block);
  }

  /** One step of the function is one step of the result, or none. */
  lemma ImageStep<A(!new)>(d: Domain<A>, keep: set<InstrId>, f: Cfg, w: Analysis<A>, seen: map<BlockId, A>, g: Cfg, c: Config)
    requires SoundEmulation(d, keep, f) && Finished(d, keep, f, w, seen) && Described(d, keep, f, w, seen, c)
    requires Shaped(f, w.dyn, w.entry.Keys, g)
    ensures var k := if AtRemoved(f, w.dyn, c) then 0 else 1;
            && Described(d, keep, f, w, seen, StepKept(f, keep, c))
            && Go(Graph(g), k, Image(f, w.dyn, c)) == Image(f, w.dyn, StepKept(f, keep, c))
            && Log(Graph(g), k, Image(f, w.dyn, c)) == RecordedKept(f, keep, c)
  {
    var m, c' := Graph(g), Image(f, w.dyn, c);
    assert Go(m, 1, c') == Go(m, 0, Step(g, c')) && Log(m, 1, c') == Recorded(g, c') + Log(m, 0, Step(g, c'));
    hide SoundEmulation, Finished, Described, Shaped, Image, StepKept, RecordedKept, Step, Recorded, AtSurvivor, AtRemoved;
    if AtRemoved(f, w.dyn, c) {
      RemovedStep(d, keep, f, w, seen, c);
    } else if AtSurvivor(f, w.dyn, c) {
      SurvivorStep(d, keep, f, w, seen, g, c);
    } else if c.At? {
      EndStep(d, keep, f, w, seen, g, c);
    } else {
      FinalStep(d, keep, f, w, seen, g, c);
    }
  }

  lemma FinalStep<A>(d: Domain<A>, keep: set<InstrId>, f: Cfg, w: Analysis<A>, seen: map<BlockId, A>, g: Cfg, c: Config)
    requires !c.At?
    ensures Described(d, keep, f, w, seen, StepKept(f, keep, c)) && StepKept(f, keep, c) == c == Image(f, w.dyn, c)
    ensures Step(g, c) == c && Recorded(g, c) == RecordedKept(f, keep, c) == []
  {
  }

  lemma CorrespondingAlike<A>(d: Domain<A>, keep: set<InstrId>, f: Cfg, w: Analysis<A>, seen: map<BlockId, A>, c: Config, c': Config)
    requires Corresponds(d, keep, f, w, seen, c, c')
    ensures Alike(c, c') && Alike(c', c)
  {
  }

  lemma ForwardSimulation<A(!new)>(d: Domain<A>, keep: set<InstrId>, f: Cfg, w: Analysis<A>, seen: map<BlockId, A>, g: Cfg)
    requires SoundEmulation(d, keep, f) && Finished(d, keep, f, w, seen) && Shaped(f, w.dyn, w.entry.Keys, g)
    ensures Simulates(Kept(f, keep), Graph(g), (c, c') => Corresponds(d, keep, f, w, seen, c, c'))
  {
    var r: Relation := (c, c') => Corresponds(d, keep, f, w, seen, c, c');
    forall c: Config, c': Config | r(c, c') ensures Matched(Kept(f, keep), Graph(g), r, c, c') {
      hide SoundEmulation, Finished, Shaped, Described, Image;
      CorrespondingAlike(d, keep, f, w, seen, c, c');
      ImageStep(d, keep, f, w, seen, g, c);
      assert Follows(Kept(f, keep), Graph(g), r, c, c', if AtRemoved(f, w.dyn, c) then 0 else 1);
    }
  }

  /** The function gets past removed instructions. */
  lemma {:induction false} RemovedRun<A(!new)>(d: Domain<A>, keep: set<InstrId>, f: Cfg, w: Analysis<A>, seen: map<BlockId, A>, c: Config) returns (k: nat)
    requires SoundEmulation(d, keep, f) && Finished(d, keep, f, w, seen) && Described(d, keep, f, w, seen, c)
    ensures var e := Go(Kept(f, keep), k, c);
            && Described(d, keep, f, w, seen, e) && Image(f, w.dyn, e) == Image(f, w.dyn, c)
            && Log(Kept(f, keep), k, c) == [] && !AtRemoved(f, w.dyn, e)
    decreases if AtRemoved(f, w.dyn, c) then |f.blocks[c.block].instrs| - c.pc else 0
  {
    hide SoundEmulation, Finished, Described, Image, StepKept, RecordedKept;
    if AtRemoved(f, w.dyn, c) {
      RemovedStep(d, keep, f, w, seen, c);
      k := RemovedRun(d, keep, f, w, seen, c.(pc := c.pc + 1));
      k := k + 1;
    } else {
      k := 0;
    }
  }

  /** One step of the result is some removed instructions and a step of the function. */
  lemma StepBack<A(!new)>(d: Domain<A>, keep: set<InstrId>, f: Cfg, w: Analysis<A>, seen: map<BlockId, A>, g: Cfg, c: Config) returns (k: nat)
    requires SoundEmulation(d, keep, f) && Finished(d, keep, f, w, seen) && Described(d, keep, f, w, seen, c)
    requires Shaped(f, w.dyn, w.entry.Keys, g)
    ensures Described(d, keep, f, w, seen, Go(Kept(f, keep), k, c))
    ensures Image(f, w.dyn, Go(Kept(f, keep), k, c)) == Step(g, Image(f, w.dyn, c))
    ensures Log(Kept(f, keep), k, c) == Recorded(g, Image(f, w.dyn, c))
  {
    hide SoundEmulation, Finished, Described, Shaped, Image, StepKept, RecordedKept, Step, Recorded;
    var m := Kept(f, keep);
    k := RemovedRun(d, keep, f, w, seen, c);
    var e := Go(m, k, c);
    ImageStep(d, keep, f, w, seen, g, e);
    GoSplit(m, k, 1, c);
    assert Go(m, 1, e) == Go(m, 0, m.step(e)) && Log(m, 1, e) == m.log(e) + Log(m, 0, m.step(e));
    var h, x := Graph(g), Image(f, w.dyn, e);
    assert Go(h, 1, x) == Go(h, 0, h.step(x)) && Log(h, 1, x) == h.log(x) + Log(h, 0, h.step(x));
    k := k + 1;
  }

  lemma BackwardSimulation<A(!new)>(d: Domain<A>, keep: set<InstrId>, f: Cfg, w: Analysis<A>, seen: map<BlockId, A>, g: Cfg)
    requires SoundEmulation(d, keep, f) && Finished(d, keep, f, w, seen) && Shaped(f, w.dyn, w.entry.Keys, g)
    ensures Simulates(Graph(g), Kept(f, keep), (c', c) => Corresponds(d, keep, f, w, seen, c, c'))
  {
    var r: Relation := (c', c) => Corresponds(d, keep, f, w, seen, c, c');
    forall c': Config, c: Config | r(c', c) ensures Matched(Graph(g), Kept(f, keep), r, c', c) {
      hide SoundEmulation, Finished, Shaped, Described, Image;
      CorrespondingAlike(d, keep, f, w, seen, c, c');
      var k := StepBack(d, keep, f, w, seen, g, c);
      assert Follows(Graph(g), Kept(f, keep), r, c', c, k);
    }
  }

  /** For every run from the entry block in a state the analysis started with: what is left executes
      the same instructions in the same states as the function without its dead instructions. */
  lemma EliminationEquivalent<A(!new)>(d: Domain<A>, keep: set<InstrId>, f: Cfg, w: Analysis<A>, seen: map<BlockId, A>, g: Cfg, b: BlockId, s: State)
    requires SoundEmulation(d, keep, f) && Finished(d, keep, f, w, seen) && Shaped(f, w.dyn, w.entry.Keys, g)
    requires b in w.entry && d.gamma(b, 0, w.entry[b], s)
    ensures Equivalent(Kept(f, keep), At(b, 0, s), Graph(g), At(b, 0, s))
  {
    EnterDescribed(d, keep, f, w, seen, b, s);
    var c := At(b, 0, s);
    assert Image(f, w.dyn, c) == c;
    assert Corresponds(d, keep, f, w, seen, c, c);
    hide SoundEmulation, Finished, Shaped, Described, Image, Corresponds, Simulates, Refines;
    ForwardSimulation(d, keep, f, w, seen, g);
    BackwardSimulation(d, keep, f, w, seen, g);
    SimulationRefines(Kept(f, keep), Graph(g), (c, c') => Corresponds(d, keep, f, w, seen, c, c'), c, c);
    SimulationRefines(Graph(g), Kept(f, keep), (c', c) => Corresponds(d, keep, f, w, seen, c, c'), c, c);
  }
}

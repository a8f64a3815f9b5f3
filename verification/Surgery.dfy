/** The elementary rewrites of a control flow graph, and that none of them changes what runs: splitting
    a block, merging it into its successor, spelling a fallthrough out as a jump and back, copying a
    block and sending its loops through the copy, inverting a branch. */
module Surgery {
  import opened Machine
  import opened Links
  import opened Simulation
  import P = Predicates

  /** Every branch and every fallthrough leads to a block. */
  ghost predicate Complete(f: Cfg) {
    forall b | b in f.blocks :: BlockComplete(f, f.blocks[b])
  }

  ghost predicate BlockComplete(f: Cfg, blk: Block) {
    && (blk.next.Some? ==> blk.next.value in f.blocks)
    && forall k | 0 <= k < |blk.instrs| :: InstrComplete(f, blk.instrs[k])
  }

  ghost predicate InstrComplete(f: Cfg, i: Instr) {
    i.kind.Branch? && i.kind.edge.Some? ==> i.kind.edge.value in f.blocks
  }

  predicate Inside(f: Cfg, c: Config) { c.At? ==> c.block in f.blocks }

  lemma StepInside(f: Cfg, c: Config)
    requires Complete(f) && Inside(f, c)
    ensures Inside(f, Step(f, c))
  {
    if c.At? {
      assert BlockComplete(f, f.blocks[c.block]);
      if c.pc < |f.blocks[c.block].instrs| {
        assert InstrComplete(f, f.blocks[c.block].instrs[c.pc]);
      }
    }
  }

  lemma GoTwo(m: System, c: Config)
    ensures Go(m, 2, c) == m.step(m.step(c)) && Log(m, 2, c) == m.log(c) + m.log(m.step(c))
  {
    GoOne(m, m.step(c));
  }

  /** From the same place in both graphs, the same happens. */
  ghost predicate SameFrom(f: Cfg, g: Cfg, c: Config, c': Config) {
    Equivalent(Graph(f), c, Graph(g), c')
  }

  /** To relate two graphs it is enough to match single steps either way. */
  lemma ByRelation(f: Cfg, g: Cfg, r: Relation, r': Relation, c: Config, c': Config)
    requires Simulates(Graph(f), Graph(g), r) && Simulates(Graph(g), Graph(f), r') && r(c, c') && r'(c', c)
    ensures SameFrom(f, g, c, c')
  {
    hide Simulates, Refines;
    SimulationRefines(Graph(f), Graph(g), r, c, c');
    SimulationRefines(Graph(g), Graph(f), r', c', c);
  }

  function SetPrev(blocks: map<BlockId, Block>, b: Option<BlockId>, p: Option<BlockId>): (r: map<BlockId, Block>)
    ensures r.Keys == blocks.Keys
    ensures forall c | c in blocks :: r[c].instrs == blocks[c].instrs && r[c].next == blocks[c].next
  {
    if b.Some? && b.value in blocks then blocks[b.value := blocks[b.value].(prev := p)] else blocks
  }

  function SetNext(blocks: map<BlockId, Block>, b: Option<BlockId>, n: Option<BlockId>): (r: map<BlockId, Block>)
    ensures r.Keys == blocks.Keys
    ensures forall c | c in blocks :: r[c].instrs == blocks[c].instrs && r[c].prev == blocks[c].prev
  {
    if b.Some? && b.value in blocks then blocks[b.value := blocks[b.value].(next := n)] else blocks
  }

  // ---- split ----

  /** Block b keeps its first k instructions and falls through to a new block with the others. */
  function Split(f: Cfg, b: BlockId, k: nat, nb: BlockId): Cfg
    requires b in f.blocks && k <= |f.blocks[b].instrs| && nb !in f.blocks
  {
    var blocks := SetPrev(f.blocks, f.blocks[b].next, Some(nb));
    Cfg(blocks[b := blocks[b].(instrs := f.blocks[b].instrs[..k], next := Some(nb))]
              [nb := Block(f.blocks[b].instrs[k..], f.blocks[b].next, Some(b), [])])
  }

  /** Instruction k is at the end of the first block and at the beginning of the second. */
  ghost predicate SplitRel(f: Cfg, b: BlockId, k: nat, nb: BlockId, c: Config, c': Config) {
    && Inside(f, c)
    && if c.At? && c.block == b then (c.pc <= k && c' == c) || (c.pc >= k && c' == At(nb, c.pc - k, c.s)) else c' == c
  }

  lemma SplitStep(f: Cfg, b: BlockId, k: nat, nb: BlockId, c: Config, c': Config)
    requires b in f.blocks && k <= |f.blocks[b].instrs| && nb !in f.blocks && Complete(f)
    requires SplitRel(f, b, k, nb, c, c') && !(c.At? && c.block == b && c.pc == k && c' == c)
    ensures SplitRel(f, b, k, nb, Step(f, c), Step(Split(f, b, k, nb), c'))
    ensures Recorded(f, c) == Recorded(Split(f, b, k, nb), c')
  {
    hide Split, Complete, SetPrev;
    StepInside(f, c);
    SplitHas(f, b, k, nb);
    var g := Split(f, b, k, nb);
    if c.At? {
      var instrs := f.blocks[c.block].instrs;
      if c.pc < |instrs| {
        assert c'.block in g.blocks && c'.pc < |g.blocks[c'.block].instrs| && g.blocks[c'.block].instrs[c'.pc] == instrs[c.pc];
        SameInstrStep(f, g, c, c');
      } else {
        assert c'.block in g.blocks && c'.pc >= |g.blocks[c'.block].instrs| && g.blocks[c'.block].next == f.blocks[c.block].next;
      }
    }
  }

  /** The same instruction at two places. */
  lemma SameInstrStep(f: Cfg, g: Cfg, c: Config, c': Config)
    requires c.At? && c'.At? && c.s == c'.s && c.block in f.blocks && c'.block in g.blocks
    requires c.pc < |f.blocks[c.block].instrs| && c'.pc < |g.blocks[c'.block].instrs|
    requires f.blocks[c.block].instrs[c.pc] == g.blocks[c'.block].instrs[c'.pc]
    ensures Recorded(f, c) == Recorded(g, c')
    ensures var d, d' := Step(f, c), Step(g, c');
            d' == d || (d == c.(pc := c.pc + 1, s := d.s) && d' == c'.(pc := c'.pc + 1, s := d.s))
  {
  }

  /** What the blocks are made of after the split. */
  lemma SplitHas(f: Cfg, b: BlockId, k: nat, nb: BlockId)
    requires b in f.blocks && k <= |f.blocks[b].instrs| && nb !in f.blocks
    ensures var g := Split(f, b, k, nb);
            && g.blocks.Keys == f.blocks.Keys + {nb}
            && g.blocks[b].instrs == f.blocks[b].instrs[..k] && g.blocks[b].next == Some(nb)
            && g.blocks[nb].instrs == f.blocks[b].instrs[k..] && g.blocks[nb].next == f.blocks[b].next
            && forall c | c in f.blocks && c != b :: g.blocks[c].instrs == f.blocks[c].instrs && g.blocks[c].next == f.blocks[c].next
  {
  }

  lemma SplitFall(f: Cfg, b: BlockId, k: nat, nb: BlockId, s: State)
    requires b in f.blocks && k <= |f.blocks[b].instrs| && nb !in f.blocks
    ensures Step(Split(f, b, k, nb), At(b, k, s)) == At(nb, 0, s) && Recorded(Split(f, b, k, nb), At(b, k, s)) == []
    ensures SplitRel(f, b, k, nb, At(b, k, s), At(nb, 0, s))
  {
  }

  lemma SplitForward(f: Cfg, b: BlockId, k: nat, nb: BlockId)
    requires b in f.blocks && k <= |f.blocks[b].instrs| && nb !in f.blocks && Complete(f)
    ensures Simulates(Graph(f), Graph(Split(f, b, k, nb)), (c, c') => SplitRel(f, b, k, nb, c, c'))
  {
    var g, r: Relation := Split(f, b, k, nb), (c, c') => SplitRel(f, b, k, nb, c, c');
    forall c: Config, c': Config | r(c, c') ensures Matched(Graph(f), Graph(g), r, c, c') {
      if c.At? && c.block == b && c.pc == k && c' == c {
        SplitFall(f, b, k, nb, c.s);
        SplitStep(f, b, k, nb, c, At(nb, 0, c.s));
        GoTwo(Graph(g), c');
        hide Split, Step, Recorded, Complete;
        assert Follows(Graph(f), Graph(g), r, c, c', 2);
      } else {
        SplitStep(f, b, k, nb, c, c');
        GoOne(Graph(g), c');
        hide Split, Step, Recorded, Complete;
        assert Follows(Graph(f), Graph(g), r, c, c', 1);
      }
    }
  }

  lemma SplitBackward(f: Cfg, b: BlockId, k: nat, nb: BlockId)
    requires b in f.blocks && k <= |f.blocks[b].instrs| && nb !in f.blocks && Complete(f)
    ensures Simulates(Graph(Split(f, b, k, nb)), Graph(f), (c', c) => SplitRel(f, b, k, nb, c, c'))
  {
    var g, r: Relation := Split(f, b, k, nb), (c', c) => SplitRel(f, b, k, nb, c, c');
    forall c': Config, c: Config | r(c', c) ensures Matched(Graph(g), Graph(f), r, c', c) {
      GoOne(Graph(f), c);
      if c.At? && c.block == b && c.pc == k && c' == c {
        SplitFall(f, b, k, nb, c.s);
        hide Split, Step, Recorded, Complete;
        assert Follows(Graph(g), Graph(f), r, c', c, 0);
      } else {
        SplitStep(f, b, k, nb, c, c');
        hide Split, Step, Recorded, Complete;
        assert Follows(Graph(g), Graph(f), r, c', c, 1);
      }
    }
  }

  /** Splitting a block changes no run. */
  lemma SplitPreserves(f: Cfg, b: BlockId, k: nat, nb: BlockId, e: BlockId, s: State)
    requires b in f.blocks && k <= |f.blocks[b].instrs| && nb !in f.blocks && Complete(f) && e in f.blocks
    ensures SameFrom(f, Split(f, b, k, nb), At(e, 0, s), At(e, 0, s))
  {
    assert SplitRel(f, b, k, nb, At(e, 0, s), At(e, 0, s));
    hide Split, SplitRel, Complete, SameFrom, Simulates;
    SplitForward(f, b, k, nb);
    SplitBackward(f, b, k, nb);
    ByRelation(f, Split(f, b, k, nb), (c, c') => SplitRel(f, b, k, nb, c, c'), (c', c) => SplitRel(f, b, k, nb, c, c'),
      At(e, 0, s), At(e, 0, s));
  }

  lemma SplitComplete(f: Cfg, b: BlockId, k: nat, nb: BlockId)
    requires b in f.blocks && k <= |f.blocks[b].instrs| && nb !in f.blocks && Complete(f)
    ensures Complete(Split(f, b, k, nb))
  {
    var g := Split(f, b, k, nb);
    forall c | c in g.blocks ensures BlockComplete(g, g.blocks[c]) {
      var o := if c == nb then b else c;
      assert BlockComplete(f, f.blocks[o]);
      forall j | 0 <= j < |g.blocks[c].instrs| ensures InstrComplete(g, g.blocks[c].instrs[j]) {
        assert InstrComplete(f, f.blocks[o].instrs[if c == nb then j + k else j]);
      }
    }
  }

  // ---- merge ----

  function Retarget(i: Instr, from: BlockId, to: BlockId): Instr {
    if i.kind == Branch(Some(from)) then i.(kind := Branch(Some(to))) else i
  }

  function RetargetAll(instrs: seq<Instr>, from: BlockId, to: BlockId): (r: seq<Instr>)
    ensures |r| == |instrs|
  {
    seq(|instrs|, k requires 0 <= k < |instrs| => Retarget(instrs[k], from, to))
  }

  /** Block b goes into the block it falls through to; branches to b lead there. */
  function Merge(f: Cfg, b: BlockId): Cfg
    requires b in f.blocks && f.blocks[b].next.Some? && f.blocks[b].next.value in f.blocks
  {
    var n := f.blocks[b].next.value;
    var blocks := SetNext(f.blocks, f.blocks[b].prev, Some(n));
    Cfg(map c | c in blocks && c != b ::
      if c == n then blocks[n].(instrs := RetargetAll(f.blocks[b].instrs + f.blocks[n].instrs, b, n), prev := f.blocks[b].prev)
      else blocks[c].(instrs := RetargetAll(f.blocks[c].instrs, b, n)))
  }

  /** What the pass asserts of a merge: b falls through to another block, to which nobody branches. */
  ghost predicate Mergeable(f: Cfg, b: BlockId) {
    && b in f.blocks && f.blocks[b].next.Some? && f.blocks[b].next.value in f.blocks && f.blocks[b].next.value != b
    && Complete(f) && Chained(f) && NoBranchTo(f, f.blocks[b].next.value)
  }

  ghost predicate NoBranchTo(f: Cfg, n: BlockId) {
    forall c, k | c in f.blocks && 0 <= k < |f.blocks[c].instrs| :: f.blocks[c].instrs[k].kind != Branch(Some(n))
  }

  function MergeImage(f: Cfg, b: BlockId, c: Config): Config
    requires b in f.blocks && f.blocks[b].next.Some?
  {
    var n := f.blocks[b].next.value;
    if c.At? && c.block == b then c.(block := n)
    else if c.At? && c.block == n then c.(pc := |f.blocks[b].instrs| + c.pc)
    else c
  }

  ghost predicate MergeRel(f: Cfg, b: BlockId, c: Config, c': Config)
    requires b in f.blocks && f.blocks[b].next.Some?
  {
    && Inside(f, c) && c' == MergeImage(f, b, c)
    && (c.At? && c.block == b ==> c.pc <= |f.blocks[b].instrs|)
  }

  predicate AtEnd(f: Cfg, b: BlockId, c: Config)
    requires b in f.blocks
  {
    c.At? && c.block == b && c.pc == |f.blocks[b].instrs|
  }

  lemma RetargetStep(i: Instr, from: BlockId, to: BlockId, c: Config, pc: nat, b: BlockId)
    requires c.At?
    ensures Record(Retarget(i, from, to), c.s) == Record(i, c.s)
    ensures var r, r' := StepInstr(i, c), StepInstr(Retarget(i, from, to), At(b, pc, c.s));
            if !i.holds(c.s) || i.kind.Plain? then r.At? && r == At(c.block, c.pc + 1, r.s) && r' == At(b, pc + 1, r.s)
            else if i.kind == Branch(Some(from)) then r.At? && r == At(from, 0, r.s) && r' == At(to, 0, r.s)
            else r' == r
  {
  }

  lemma MergeStep(f: Cfg, b: BlockId, c: Config, c': Config)
    requires Mergeable(f, b) && MergeRel(f, b, c, c') && !AtEnd(f, b, c)
    ensures MergeRel(f, b, Step(f, c), Step(Merge(f, b), c')) && Recorded(f, c) == Recorded(Merge(f, b), c')
  {
    if c.At? && c.pc < |f.blocks[c.block].instrs| {
      MergeInstr(f, b, c, c');
    } else if c.At? {
      MergeFall(f, b, c, c');
    }
  }

  lemma MergedInstr(f: Cfg, b: BlockId, c: Config, c': Config)
    requires Mergeable(f, b) && MergeRel(f, b, c, c') && c.At? && c.pc < |f.blocks[c.block].instrs|
    ensures var g, n, i := Merge(f, b), f.blocks[b].next.value, f.blocks[c.block].instrs[c.pc];
            && c'.At? && c'.s == c.s && c'.block in g.blocks && c'.pc < |g.blocks[c'.block].instrs|
            && g.blocks[c'.block].instrs[c'.pc] == Retarget(i, b, n)
            && i.kind != Branch(Some(n))
  {
  }

  lemma MergeInstr(f: Cfg, b: BlockId, c: Config, c': Config)
    requires Mergeable(f, b) && MergeRel(f, b, c, c') && c.At? && c.pc < |f.blocks[c.block].instrs|
    ensures MergeRel(f, b, Step(f, c), Step(Merge(f, b), c')) && Recorded(f, c) == Recorded(Merge(f, b), c')
  {
    hide Merge, Retarget, NoBranchTo, Chained;
    StepInside(f, c);
    MergedInstr(f, b, c, c');
    var g, n, i := Merge(f, b), f.blocks[b].next.value, f.blocks[c.block].instrs[c.pc];
    assert Step(f, c) == StepInstr(i, c) && Step(g, c') == StepInstr(Retarget(i, b, n), c');
    RetargetStep(i, b, n, c, c'.pc, c'.block);
    hide Complete, Mergeable, Step;
    if i.holds(c.s) && i.kind.Branch? && i.kind.edge.Some? {
      assert StepInstr(i, c) == At(i.kind.edge.value, 0, i.exec(c.s));
    }
  }

  /** Where a block falls through to after the merge, and how long it is. */
  lemma MergedNext(f: Cfg, b: BlockId, o: BlockId)
    requires Mergeable(f, b) && o in f.blocks && o != b
    ensures var g, n := Merge(f, b), f.blocks[b].next.value;
            && o in g.blocks && n in g.blocks
            && g.blocks[o].next == (if f.blocks[o].next == Some(b) then Some(n) else f.blocks[o].next)
            && |g.blocks[o].instrs| == (if o == n then |f.blocks[b].instrs| else 0) + |f.blocks[o].instrs|
            && (f.blocks[o].next.Some? ==> f.blocks[o].next.value in f.blocks && f.blocks[o].next.value != n)
  {
  }

  lemma MergeFall(f: Cfg, b: BlockId, c: Config, c': Config)
    requires Mergeable(f, b) && MergeRel(f, b, c, c') && !AtEnd(f, b, c) && c.At? && c.pc >= |f.blocks[c.block].instrs|
    ensures MergeRel(f, b, Step(f, c), Step(Merge(f, b), c')) && Recorded(f, c) == Recorded(Merge(f, b), c')
  {
    hide Merge, Complete, Chained, NoBranchTo;
    StepInside(f, c);
    MergedNext(f, b, c.block);
    hide Mergeable;
  }

  lemma MergeEnd(f: Cfg, b: BlockId, c: Config, c': Config)
    requires Mergeable(f, b) && MergeRel(f, b, c, c') && AtEnd(f, b, c)
    ensures MergeRel(f, b, Step(f, c), c') && Recorded(f, c) == []
    ensures !AtEnd(f, b, Step(f, c))
  {
  }

  lemma MergeForward(f: Cfg, b: BlockId)
    requires Mergeable(f, b)
    ensures Simulates(Graph(f), Graph(Merge(f, b)), (c, c') => MergeRel(f, b, c, c'))
  {
    var g, r: Relation := Merge(f, b), (c, c') => MergeRel(f, b, c, c');
    forall c: Config, c': Config | r(c, c') ensures Matched(Graph(f), Graph(g), r, c, c') {
      GoOne(Graph(g), c');
      if AtEnd(f, b, c) {
        MergeEnd(f, b, c, c');
        hide Merge, Mergeable, Step, Recorded;
        assert Follows(Graph(f), Graph(g), r, c, c', 0);
      } else {
        MergeStep(f, b, c, c');
        hide Merge, Mergeable, Step, Recorded;
        assert Follows(Graph(f), Graph(g), r, c, c', 1);
      }
    }
  }

  lemma MergeBackward(f: Cfg, b: BlockId)
    requires Mergeable(f, b)
    ensures Simulates(Graph(Merge(f, b)), Graph(f), (c', c) => MergeRel(f, b, c, c'))
  {
    var g, r: Relation := Merge(f, b), (c', c) => MergeRel(f, b, c, c');
    forall c': Config, c: Config | r(c', c) ensures Matched(Graph(g), Graph(f), r, c', c) {
      if AtEnd(f, b, c) {
        MergeEnd(f, b, c, c');
        MergeStep(f, b, Step(f, c), c');
        GoTwo(Graph(f), c);
        hide Merge, Mergeable, Step, Recorded;
        assert Follows(Graph(g), Graph(f), r, c', c, 2);
      } else {
        GoOne(Graph(f), c);
        MergeStep(f, b, c, c');
        hide Merge, Mergeable, Step, Recorded;
        assert Follows(Graph(g), Graph(f), r, c', c, 1);
      }
    }
  }

  /** Merging a block into its successor changes no run from any block but that successor, which was
      no place to enter; runs from b now start there. */
  lemma MergePreserves(f: Cfg, b: BlockId, e: BlockId, s: State)
    requires Mergeable(f, b) && e in f.blocks && e != f.blocks[b].next.value
    ensures SameFrom(f, Merge(f, b), At(e, 0, s), At(if e == b then f.blocks[b].next.value else e, 0, s))
  {
    var c, c' := At(e, 0, s), At(if e == b then f.blocks[b].next.value else e, 0, s);
    assert MergeRel(f, b, c, c');
    hide Merge, MergeRel, Mergeable, SameFrom, Simulates;
    MergeForward(f, b);
    MergeBackward(f, b);
    ByRelation(f, Merge(f, b), (c, c') => MergeRel(f, b, c, c'), (c', c) => MergeRel(f, b, c, c'), c, c');
  }

  lemma RetargetComplete(f: Cfg, g: Cfg, i: Instr, from: BlockId, to: BlockId)
    requires InstrComplete(f, i) && f.blocks.Keys - {from} <= g.blocks.Keys && to in g.blocks
    ensures InstrComplete(g, Retarget(i, from, to))
  {
  }

  // ---- fallthrough and jump ----

  const JUMP_INFO := Info({}, {}, {}, {}, false, True)

  /** An unconditional branch. */
  function Jump(id: InstrId, d: BlockId): Instr {
    Instr(id, Branch(Some(d)), false, JUMP_INFO, None, (s: State) => true, (s: State) => s)
  }

  /** Executing the instruction changes nothing but where control is. */
  ghost predicate Still(i: Instr) {
    forall s: State :: i.exec(s) == s
  }

  /** The instruction is an unconditional branch to d and does nothing else. */
  ghost predicate JumpsTo(i: Instr, d: BlockId) {
    i.kind == Branch(Some(d)) && Still(i) && forall s: State :: i.holds(s)
  }

  /** The fallthrough spelled out as a jump. */
  function Unchain(f: Cfg, b: BlockId, id: InstrId): Cfg
    requires b in f.blocks && f.blocks[b].next.Some?
  {
    var n := f.blocks[b].next.value;
    var blocks := SetPrev(f.blocks, Some(n), None);
    Cfg(blocks[b := blocks[b].(instrs := f.blocks[b].instrs + [Jump(id, n)], next := None)])
  }

  /** A final jump replaced by the fallthrough. */
  function Chain(f: Cfg, b: BlockId): Cfg
    requires b in f.blocks && f.blocks[b].instrs != [] && f.blocks[b].instrs[|f.blocks[b].instrs| - 1].kind.Branch?
    requires f.blocks[b].instrs[|f.blocks[b].instrs| - 1].kind.edge.Some?
  {
    var instrs := f.blocks[b].instrs;
    var d := instrs[|instrs| - 1].kind.edge.value;
    var blocks := SetPrev(f.blocks, Some(d), Some(b));
    Cfg(blocks[b := blocks[b].(instrs := instrs[..|instrs| - 1], next := Some(d))])
  }

  /** Chaining is taking the spelled-out jump back. */
  lemma ChainUnchain(f: Cfg, b: BlockId, id: InstrId)
    requires b in f.blocks && f.blocks[b].next.Some? && Chained(f)
    ensures Chain(Unchain(f, b, id), b) == f
  {
    var g := Unchain(f, b, id);
    var instrs := g.blocks[b].instrs;
    assert instrs[..|instrs| - 1] == f.blocks[b].instrs;
    var h := Chain(g, b);
    assert h.blocks.Keys == f.blocks.Keys;
    forall c | c in f.blocks ensures h.blocks[c] == f.blocks[c] {
    }
  }

  /** In both graphs at the same place; the end of block b in the one is its jump in the other. */
  ghost predicate ChainRel(f: Cfg, b: BlockId, c: Config, c': Config)
    requires b in f.blocks
  {
    Inside(f, c) && c' == c && (c.At? && c.block == b ==> c.pc <= |f.blocks[b].instrs|)
  }

  /** g spells the fallthrough of b in f out as a jump. */
  ghost predicate Spelled(f: Cfg, g: Cfg, b: BlockId) {
    && g.blocks.Keys == f.blocks.Keys && b in f.blocks && f.blocks[b].next.Some? && g.blocks[b].next.None?
    && |g.blocks[b].instrs| == |f.blocks[b].instrs| + 1
    && g.blocks[b].instrs[..|f.blocks[b].instrs|] == f.blocks[b].instrs
    && JumpsTo(g.blocks[b].instrs[|f.blocks[b].instrs|], f.blocks[b].next.value)
    && forall c | c in f.blocks && c != b :: g.blocks[c].instrs == f.blocks[c].instrs && g.blocks[c].next == f.blocks[c].next
  }

  lemma SpelledStep(f: Cfg, g: Cfg, b: BlockId, c: Config)
    requires Spelled(f, g, b) && Complete(f) && ChainRel(f, b, c, c)
    ensures Step(g, c) == Step(f, c) && Recorded(g, c) == Recorded(f, c) && ChainRel(f, b, Step(f, c), Step(f, c))
  {
    StepInside(f, c);
    if c.At? && c.block == b && c.pc < |f.blocks[b].instrs| {
      assert g.blocks[b].instrs[..|f.blocks[b].instrs|][c.pc] == f.blocks[b].instrs[c.pc];
    }
  }

  lemma SimulatesIs(m: System, m': System, r: Relation)
    requires forall c, c' | r(c, c') :: Matched(m, m', r, c, c')
    ensures Simulates(m, m', r)
  {
  }

  lemma SpelledMatched(f: Cfg, g: Cfg, b: BlockId, r: Relation, c: Config, c': Config)
    requires Spelled(f, g, b) && Complete(f) && b in f.blocks && ChainRel(f, b, c, c')
    requires forall d: Config | ChainRel(f, b, d, d) :: r(d, d)
    ensures Matched(Graph(f), Graph(g), r, c, c') && Matched(Graph(g), Graph(f), r, c, c')
  {
    hide Spelled, Complete, Step, Recorded;
    SpelledStep(f, g, b, c);
    GoOne(Graph(g), c);
    GoOne(Graph(f), c);
    assert Follows(Graph(f), Graph(g), r, c, c', 1);
    assert Follows(Graph(g), Graph(f), r, c, c', 1);
  }

  lemma SpelledSame(f: Cfg, g: Cfg, b: BlockId, e: BlockId, s: State)
    requires Spelled(f, g, b) && Complete(f) && e in f.blocks
    ensures SameFrom(f, g, At(e, 0, s), At(e, 0, s)) && SameFrom(g, f, At(e, 0, s), At(e, 0, s))
  {
    assert b in f.blocks;
    hide Spelled, Complete, Matched, SameFrom, Simulates, Inside;
    var r: Relation := (c, c') => ChainRel(f, b, c, c');
    forall c: Config, c': Config | r(c, c') ensures Matched(Graph(f), Graph(g), r, c, c') && Matched(Graph(g), Graph(f), r, c, c') {
      SpelledMatched(f, g, b, r, c, c');
    }
    SimulatesIs(Graph(f), Graph(g), r);
    SimulatesIs(Graph(g), Graph(f), r);
    var c := At(e, 0, s);
    assert r(c, c) by { assert Inside(f, c); }
    ByRelation(f, g, r, r, c, c);
    ByRelation(g, f, r, r, c, c);
  }

  /** Spelling a fallthrough out changes no run. */
  lemma UnchainPreserves(f: Cfg, b: BlockId, id: InstrId, e: BlockId, s: State)
    requires b in f.blocks && f.blocks[b].next.Some? && Complete(f) && e in f.blocks
    ensures SameFrom(f, Unchain(f, b, id), At(e, 0, s), At(e, 0, s))
  {
    var g := Unchain(f, b, id);
    assert g.blocks[b].instrs[..|f.blocks[b].instrs|] == f.blocks[b].instrs;
    SpelledSame(f, g, b, e, s);
  }

  lemma UnchainComplete(f: Cfg, b: BlockId, id: InstrId)
    requires b in f.blocks && f.blocks[b].next.Some? && Complete(f)
    ensures Complete(Unchain(f, b, id))
  {
    var g := Unchain(f, b, id);
    assert BlockComplete(f, f.blocks[b]);
    forall c | c in g.blocks ensures BlockComplete(g, g.blocks[c]) {
      assert BlockComplete(f, f.blocks[c]);
      forall j | 0 <= j < |g.blocks[c].instrs| ensures InstrComplete(g, g.blocks[c].instrs[j]) {
        if j < |f.blocks[c].instrs| {
          assert g.blocks[c].instrs[j] == f.blocks[c].instrs[j];
          assert InstrComplete(f, f.blocks[c].instrs[j]);
        }
      }
    }
  }

  /** Neither does replacing a final jump by the fallthrough, whatever chain it closes. */
  lemma ChainPreserves(f: Cfg, b: BlockId, d: BlockId, e: BlockId, s: State)
    requires b in f.blocks && f.blocks[b].instrs != [] && f.blocks[b].next.None? && Complete(f) && e in f.blocks
    requires JumpsTo(f.blocks[b].instrs[|f.blocks[b].instrs| - 1], d)
    ensures SameFrom(f, Chain(f, b), At(e, 0, s), At(e, 0, s)) && Complete(Chain(f, b))
  {
    ChainComplete(f, b);
    SpelledSame(Chain(f, b), f, b, e, s);
  }

  lemma ChainComplete(f: Cfg, b: BlockId)
    requires b in f.blocks && f.blocks[b].instrs != [] && Complete(f)
    requires var i := f.blocks[b].instrs[|f.blocks[b].instrs| - 1]; i.kind.Branch? && i.kind.edge.Some?
    ensures Complete(Chain(f, b))
  {
    var g := Chain(f, b);
    forall c | c in g.blocks ensures BlockComplete(g, g.blocks[c]) {
      assert BlockComplete(f, f.blocks[c]);
      assert c == b ==> InstrComplete(f, f.blocks[b].instrs[|f.blocks[b].instrs| - 1]);
      forall j | 0 <= j < |g.blocks[c].instrs| ensures InstrComplete(g, g.blocks[c].instrs[j]) {
        assert g.blocks[c].instrs[j] == f.blocks[c].instrs[j];
        assert InstrComplete(f, f.blocks[c].instrs[j]);
      }
    }
  }

  // ---- copying a block ----

  /** A copy of block b, its branches to b leading to the copy; those of b itself too. */
  function CopyLoop(f: Cfg, b: BlockId, nb: BlockId): Cfg
    requires b in f.blocks && nb !in f.blocks
  {
    var instrs := RetargetAll(f.blocks[b].instrs, b, nb);
    Cfg(f.blocks[b := f.blocks[b].(instrs := instrs)][nb := Block(instrs, None, None, [])])
  }

  /** At the same place, but in the copy maybe. */
  ghost predicate CopyRel(f: Cfg, b: BlockId, nb: BlockId, c: Config, c': Config) {
    Inside(f, c) && (c' == c || (c.At? && c.block == b && c' == c.(block := nb)))
  }

  lemma CopyStep(f: Cfg, b: BlockId, nb: BlockId, c: Config, c': Config)
    requires b in f.blocks && nb !in f.blocks && f.blocks[b].next.None? && Complete(f) && CopyRel(f, b, nb, c, c')
    ensures CopyRel(f, b, nb, Step(f, c), Step(CopyLoop(f, b, nb), c'))
    ensures Recorded(f, c) == Recorded(CopyLoop(f, b, nb), c')
  {
    StepInside(f, c);
    var g := CopyLoop(f, b, nb);
    if c.At? && c.pc < |f.blocks[c.block].instrs| {
      var i := f.blocks[c.block].instrs[c.pc];
      assert g.blocks[c'.block].instrs[c.pc] == if c.block == b then Retarget(i, b, nb) else i;
      RetargetStep(i, b, nb, c, c.pc, c'.block);
    }
  }

  /** Sending the loops of a block that does not fall through by way of a copy changes no run. */
  lemma CopyPreserves(f: Cfg, b: BlockId, nb: BlockId, e: BlockId, s: State)
    requires b in f.blocks && nb !in f.blocks && f.blocks[b].next.None? && Complete(f) && e in f.blocks
    ensures SameFrom(f, CopyLoop(f, b, nb), At(e, 0, s), At(e, 0, s))
  {
    var g, r: Relation := CopyLoop(f, b, nb), (c, c') => CopyRel(f, b, nb, c, c');
    var r': Relation := (c', c) => CopyRel(f, b, nb, c, c');
    forall c: Config, c': Config | r(c, c') ensures Matched(Graph(f), Graph(g), r, c, c') && Matched(Graph(g), Graph(f), r', c', c) {
      CopyStep(f, b, nb, c, c');
      GoOne(Graph(g), c');
      GoOne(Graph(f), c);
      hide CopyLoop, Complete, Step, Recorded;
      assert Follows(Graph(f), Graph(g), r, c, c', 1);
      assert Follows(Graph(g), Graph(f), r', c', c, 1);
    }
    assert CopyRel(f, b, nb, At(e, 0, s), At(e, 0, s));
    hide CopyRel, Complete;
    ByRelation(f, g, r, r', At(e, 0, s), At(e, 0, s));
  }

  lemma CopyComplete(f: Cfg, b: BlockId, nb: BlockId)
    requires b in f.blocks && nb !in f.blocks && Complete(f)
    ensures Complete(CopyLoop(f, b, nb))
  {
    var g := CopyLoop(f, b, nb);
    forall c | c in g.blocks ensures BlockComplete(g, g.blocks[c]) {
      var o := if c == nb then b else c;
      assert BlockComplete(f, f.blocks[o]);
      forall j | 0 <= j < |g.blocks[c].instrs| ensures InstrComplete(g, g.blocks[c].instrs[j]) {
        assert InstrComplete(f, f.blocks[o].instrs[j]);
        RetargetComplete(f, g, f.blocks[o].instrs[j], b, nb);
        if o == b { assert g.blocks[c].instrs[j] == Retarget(f.blocks[o].instrs[j], b, nb); }
      }
    }
  }

  // ---- inverting the last branch ----

  /** The jump, given the inverted opcode of the branch before it, whose condition this is. */
  function Inverted(cc: P.Condition, jcc: Instr, jmp: Instr): Instr {
    jmp.(hasPredicate := true, info := jcc.info, holds := (s: State) => P.ConditionHolds(P.Invert(cc), s))
  }

  /** ... jcc d; jmp l becomes ... jncc l, falling through to d. */
  function Invert(cc: P.Condition, f: Cfg, b: BlockId): Cfg
    requires b in f.blocks && |f.blocks[b].instrs| >= 2
    requires var i := f.blocks[b].instrs[|f.blocks[b].instrs| - 2]; i.kind.Branch? && i.kind.edge.Some?
  {
    var m, instrs := |f.blocks[b].instrs|, f.blocks[b].instrs;
    var d := instrs[m - 2].kind.edge.value;
    var blocks := SetPrev(f.blocks, Some(d), Some(b));
    Cfg(blocks[b := blocks[b].(instrs := instrs[..m - 2] + [Inverted(cc, instrs[m - 2], instrs[m - 1])], next := Some(d))])
  }

  ghost predicate Invertible(cc: P.Condition, f: Cfg, b: BlockId, d: BlockId, l: BlockId) {
    && b in f.blocks && |f.blocks[b].instrs| >= 2 && f.blocks[b].next.None? && Complete(f)
    && var m, instrs := |f.blocks[b].instrs|, f.blocks[b].instrs;
       && instrs[m - 2].kind == Branch(Some(d)) && Still(instrs[m - 2]) && P.HasCondition(instrs[m - 2], cc)
       && JumpsTo(instrs[m - 1], l)
  }

  /** The same place, except between the branch and the jump, where the one graph has a step more. */
  ghost predicate InvertRel(f: Cfg, b: BlockId, l: BlockId, c: Config, c': Config)
    requires b in f.blocks && |f.blocks[b].instrs| >= 2
  {
    var m, jcc := |f.blocks[b].instrs|, f.blocks[b].instrs[|f.blocks[b].instrs| - 2];
    && Inside(f, c)
    && if c.At? && c.block == b && c.pc >= m - 2 then
         || (c == At(b, m - 2, c.s) && c' == c)
         || (c == At(b, m - 2, c.s) && c' == At(b, m - 1, c.s) && jcc.holds(c.s))
         || (c == At(b, m - 1, c.s) && c' == At(l, 0, c.s))
       else c' == c
  }

  lemma InvertStep(cc: P.Condition, f: Cfg, b: BlockId, d: BlockId, l: BlockId, c: Config)
    requires Invertible(cc, f, b, d, l) && InvertRel(f, b, l, c, c)
    requires !(c.At? && c.block == b && c.pc >= |f.blocks[b].instrs| - 2)
    ensures InvertRel(f, b, l, Step(f, c), Step(Invert(cc, f, b), c)) && Recorded(f, c) == Recorded(Invert(cc, f, b), c)
  {
    StepInside(f, c);
  }

  /** The branch and what follows it, in both graphs. */
  lemma InvertEnd(cc: P.Condition, f: Cfg, b: BlockId, d: BlockId, l: BlockId, s: State)
    requires Invertible(cc, f, b, d, l)
    ensures var m, jcc, g := |f.blocks[b].instrs|, f.blocks[b].instrs[|f.blocks[b].instrs| - 2], Invert(cc, f, b);
            && Recorded(f, At(b, m - 2, s)) == Recorded(f, At(b, m - 1, s)) == []
            && Recorded(g, At(b, m - 2, s)) == Recorded(g, At(b, m - 1, s)) == []
            && Step(f, At(b, m - 2, s)) == (if jcc.holds(s) then At(d, 0, s) else At(b, m - 1, s))
            && Step(f, At(b, m - 1, s)) == At(l, 0, s)
            && Step(g, At(b, m - 2, s)) == (if jcc.holds(s) then At(b, m - 1, s) else At(l, 0, s))
            && Step(g, At(b, m - 1, s)) == At(d, 0, s)
            && d in f.blocks && l in f.blocks
            && InvertRel(f, b, l, At(d, 0, s), At(d, 0, s)) && InvertRel(f, b, l, At(l, 0, s), At(l, 0, s))
  {
    var instrs := f.blocks[b].instrs;
    assert BlockComplete(f, f.blocks[b]);
    assert InstrComplete(f, instrs[|instrs| - 2]) && InstrComplete(f, instrs[|instrs| - 1]);
    P.ConditionInverted(cc, s);
    hide P.ConditionHolds;
    assert instrs[|instrs| - 2].holds(s) <==> P.ConditionHolds(cc, s);
  }

  /** From here on one graph is a step behind the other. */
  predicate Between(f: Cfg, b: BlockId, c: Config)
    requires b in f.blocks && |f.blocks[b].instrs| >= 2
  {
    c.At? && c.block == b && c.pc >= |f.blocks[b].instrs| - 2
  }

  /** Between branch and jump: how many steps of the result match one step of the original. */
  lemma InvertAhead(cc: P.Condition, f: Cfg, b: BlockId, d: BlockId, l: BlockId, c: Config, c': Config) returns (k: nat)
    requires Invertible(cc, f, b, d, l) && InvertRel(f, b, l, c, c') && Between(f, b, c)
    ensures var g := Invert(cc, f, b);
            && InvertRel(f, b, l, Step(f, c), Go(Graph(g), k, c')) && Log(Graph(g), k, c') == Recorded(f, c)
            && Alike(c, c')
  {
    var m, g := |f.blocks[b].instrs|, Invert(cc, f, b);
    hide Invertible, Invert, Step, Recorded;
    InvertEnd(cc, f, b, d, l, c.s);
    GoOne(Graph(g), c');
    GoTwo(Graph(g), c');
    k := if c.pc == m - 1 then 0 else if c'.pc == m - 2 && f.blocks[b].instrs[m - 2].holds(c.s) then 2 else 1;
  }

  lemma InvertForward(cc: P.Condition, f: Cfg, b: BlockId, d: BlockId, l: BlockId)
    requires Invertible(cc, f, b, d, l)
    ensures Simulates(Graph(f), Graph(Invert(cc, f, b)), (c, c') => InvertRel(f, b, l, c, c'))
  {
    var g, m, r: Relation := Invert(cc, f, b), |f.blocks[b].instrs|, (c, c') => InvertRel(f, b, l, c, c');
    forall c: Config, c': Config | r(c, c') ensures Matched(Graph(f), Graph(g), r, c, c') {
      if Between(f, b, c) {
        var k := InvertAhead(cc, f, b, d, l, c, c');
        hide Invert, Invertible, Step, Recorded;
        assert Follows(Graph(f), Graph(g), r, c, c', k);
      } else {
        assert c' == c;
        GoOne(Graph(g), c');
        InvertStep(cc, f, b, d, l, c);
        hide Invert, Invertible, Step, Recorded;
        assert Follows(Graph(f), Graph(g), r, c, c', 1);
      }
    }
  }

  lemma InvertBackward(cc: P.Condition, f: Cfg, b: BlockId, d: BlockId, l: BlockId)
    requires Invertible(cc, f, b, d, l)
    ensures Simulates(Graph(Invert(cc, f, b)), Graph(f), (c', c) => InvertRel(f, b, l, c, c'))
  {
    var g, m, r: Relation := Invert(cc, f, b), |f.blocks[b].instrs|, (c', c) => InvertRel(f, b, l, c, c');
    forall c': Config, c: Config | r(c', c) ensures Matched(Graph(g), Graph(f), r, c', c) {
      if Between(f, b, c) {
        var k := InvertBack(cc, f, b, d, l, c, c');
        hide Invert, Invertible, Step, Recorded;
        assert Follows(Graph(g), Graph(f), r, c', c, k);
      } else {
        assert c' == c;
        GoOne(Graph(f), c);
        InvertStep(cc, f, b, d, l, c);
        hide Invert, Invertible, Step, Recorded;
        assert Follows(Graph(g), Graph(f), r, c', c, 1);
      }
    }
  }

  /** Between branch and jump: how many steps of the original match one step of the result. */
  lemma InvertBack(cc: P.Condition, f: Cfg, b: BlockId, d: BlockId, l: BlockId, c: Config, c': Config) returns (k: nat)
    requires Invertible(cc, f, b, d, l) && InvertRel(f, b, l, c, c') && Between(f, b, c)
    ensures var g := Invert(cc, f, b);
            && InvertRel(f, b, l, Go(Graph(f), k, c), Step(g, c')) && Log(Graph(f), k, c) == Recorded(g, c')
            && Alike(c', c)
  {
    var g, m := Invert(cc, f, b), |f.blocks[b].instrs|;
    var holds := f.blocks[b].instrs[m - 2].holds(c.s);
    InvertEnd(cc, f, b, d, l, c.s);
    GoOne(Graph(f), c);
    GoTwo(Graph(f), c);
    if c.pc == m - 1 {
      // the result is at l already: the jump, then a step from there
      var e := At(l, 0, c.s);
      if Between(f, b, e) {
        InvertEnd(cc, f, b, d, l, c.s);
        k := if holds then 1 else 2;
        assert e == At(b, m - 2, c.s);
      } else {
        InvertStep(cc, f, b, d, l, e);
        k := 2;
      }
    } else if c'.pc == m - 1 {
      k := 1;
    } else {
      k := if holds then 0 else 2;
    }
  }

  /** Inverting the branch before a final jump changes no run. */
  lemma InvertPreserves(cc: P.Condition, f: Cfg, b: BlockId, d: BlockId, l: BlockId, e: BlockId, s: State)
    requires Invertible(cc, f, b, d, l) && e in f.blocks
    ensures SameFrom(f, Invert(cc, f, b), At(e, 0, s), At(e, 0, s))
  {
    assert InvertRel(f, b, l, At(e, 0, s), At(e, 0, s));
    hide Invert, InvertRel, Invertible, SameFrom, Simulates;
    InvertForward(cc, f, b, d, l);
    InvertBackward(cc, f, b, d, l);
    ByRelation(f, Invert(cc, f, b), (c, c') => InvertRel(f, b, l, c, c'), (c', c) => InvertRel(f, b, l, c, c'),
      At(e, 0, s), At(e, 0, s));
  }

  lemma InvertComplete(cc: P.Condition, f: Cfg, b: BlockId, d: BlockId, l: BlockId)
    requires Invertible(cc, f, b, d, l)
    ensures Complete(Invert(cc, f, b))
  {
    var g, m := Invert(cc, f, b), |f.blocks[b].instrs|;
    forall c | c in g.blocks ensures BlockComplete(g, g.blocks[c]) {
      assert BlockComplete(f, f.blocks[c]);
      forall j | 0 <= j < |g.blocks[c].instrs| ensures InstrComplete(g, g.blocks[c].instrs[j]) {
        assert InstrComplete(f, f.blocks[c].instrs[if c == b && j == m - 2 then m - 1 else j]);
      }
      if c == b { assert InstrComplete(f, f.blocks[b].instrs[m - 2]); }
    }
  }
}

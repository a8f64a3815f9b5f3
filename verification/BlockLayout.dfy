/** What the block layout pass computes: final jumps become fallthroughs one block after the other, then
    the noted blocks go into the ones they fall through to. Exactly when that keeps what runs from the
    entry. */
module BlockLayout {
  import opened Machine
  import opened Links
  import opened Simulation
  import opened FirstExecuted
  import opened Ir
  import opened IrOps
  import opened FunctionIr
  import opened IrGraph
  import opened IrLoops
  import S = IrSplit
  import G = Surgery
  import U = UnrollingPass

  /** Branches do nothing but branch, and without a predicate always. */
  ghost predicate BranchesBranch(x: Ir) {
    forall i | i in x.code && x.code[i].op.kind.Branch? :: PlainBranch(x.code[i].op)
  }

  ghost predicate PlainBranch(i: Instr) {
    G.Still(i) && (!i.hasPredicate ==> forall s: State :: i.holds(s))
  }

  /** The same runs from these two blocks of two graphs. */
  ghost predicate SameRuns(f: Cfg, b: BlockId, g: Cfg, c: BlockId) {
    forall s: State :: G.SameFrom(f, g, At(b, 0, s), At(c, 0, s))
  }

  lemma SameRunsTwice(f: Cfg, b: BlockId, g: Cfg, c: BlockId, h: Cfg, d: BlockId)
    requires SameRuns(f, b, g, c) && SameRuns(g, c, h, d)
    ensures SameRuns(f, b, h, d)
  {
    hide Equivalent;
    forall s: State ensures G.SameFrom(f, h, At(b, 0, s), At(d, 0, s)) {
      assert G.SameFrom(f, g, At(b, 0, s), At(c, 0, s)) && G.SameFrom(g, h, At(c, 0, s), At(d, 0, s));
      EquivalentTwice(Graph(f), At(b, 0, s), Graph(g), At(c, 0, s), Graph(h), At(d, 0, s));
    }
  }

  lemma SameRunsSelf(f: Cfg, b: BlockId)
    ensures SameRuns(f, b, f, b)
  {
    hide Equivalent;
    forall s: State ensures G.SameFrom(f, f, At(b, 0, s), At(b, 0, s)) {
      EquivalentSelf(Graph(f), At(b, 0, s));
    }
  }

  // ---- chaining ----

  /** Unconditional branch at the end of a block without fallthrough, to a block without a
      predecessor in a chain. */
  predicate MayChain(x: Ir, b: BlockId) {
    && b in x.blocks && x.blocks[b].next.None? && x.blocks[b].instrs != []
    && var i := x.blocks[b].instrs[|x.blocks[b].instrs| - 1];
       && i in x.code && x.code[i].op.kind.Branch? && !x.code[i].op.hasPredicate && x.code[i].edge.Some?
       && x.code[i].edge.value in x.edges
       && var d := x.edges[x.code[i].edge.value].dst; d in x.blocks && x.blocks[d].prev.None?
  }

  function LastOf(x: Ir, b: BlockId): NodeId
    requires b in x.blocks && x.blocks[b].instrs != []
  {
    x.blocks[b].instrs[|x.blocks[b].instrs| - 1]
  }

  function TargetOf(x: Ir, b: BlockId): BlockId
    requires MayChain(x, b)
  {
    x.edges[x.code[LastOf(x, b)].edge.value].dst
  }

  lemma MayChainFacts(x: Ir, b: BlockId)
    requires MayChain(x, b)
    ensures Chainable(x, b, LastOf(x, b), TargetOf(x, b)) && x.code[LastOf(x, b)].op.kind.Branch?
    ensures !x.code[LastOf(x, b)].op.hasPredicate
  {
  }

  lemma ChainSame(x: Ir, f: Cfg, h: Cfg, b: BlockId, i: NodeId, d: BlockId, e: BlockId)
    requires EndsWith(f, b, d) && h == G.Chain(f, b) && e in f.blocks
    requires i in x.code && x.code[i].op.kind.Branch? && !x.code[i].op.hasPredicate && PlainBranch(x.code[i].op)
    requires Chainable(x, b, i, d) && Makes(x, f)
    ensures Makes(ChainedIr(x, b, i, d), h) && SameRuns(f, e, h, e) && h.blocks.Keys == f.blocks.Keys
  {
    hide Consistent, Whole, Makes, Chainable, G.Complete, PlainBranch;
    MakesFacts(x, f);
    ChainWhole(x, f, h, b, i, d);
    WholeComplete(x);
    JumpOf(x, f, b, i, d);
    hide G.Chain;
    forall s: State ensures G.SameFrom(f, h, At(e, 0, s), At(e, 0, s)) {
      G.ChainPreserves(f, b, d, e, s);
    }
    ChainGraphBlock(f, b, d, b);
  }

  lemma JumpOf(x: Ir, f: Cfg, b: BlockId, i: NodeId, d: BlockId)
    requires Chainable(x, b, i, d) && Consistent(x) && f == Whole(x) && EndsWith(f, b, d)
    requires i in x.code && !x.code[i].op.hasPredicate && PlainBranch(x.code[i].op)
    ensures b in f.blocks && f.blocks[b].instrs != [] && f.blocks[b].next.None?
    ensures G.JumpsTo(f.blocks[b].instrs[|f.blocks[b].instrs| - 1], d)
  {
    hide Consistent;
    ChainableFacts(x, b, i, d);
    WholeBlock(x, b);
    InCode(x, x.blocks[b]);
    OpsAt(x, x.blocks[b].instrs);
    LastKnown(x, b, |x.blocks[b].instrs| - 1, i, d);
    assert f.blocks[b].instrs[|f.blocks[b].instrs| - 1] == OpOf(x, i);
  }

  // ---- merging ----

  lemma MergeSame(x: Ir, f: Cfg, b: BlockId, e: BlockId)
    requires S.Mergeable(x, b) && Makes(x, f) && e in f.blocks && Some(e) != x.blocks[b].next
    ensures G.Mergeable(f, b) && f.blocks[b].next == x.blocks[b].next
    ensures Makes(S.Merge(x, b), G.Merge(f, b))
    ensures SameRuns(f, e, G.Merge(f, b), if e == b then f.blocks[b].next.value else e)
  {
    MakesFacts(x, f);
    hide Consistent, Whole, Makes, G.Merge, G.Mergeable, S.Merge;
    MergeFacts(x, b);
    S.MergeConsistent(x, b);
    WholeBlock(x, b);
    MergeWhole(x, b);
    MakesIs(S.Merge(x, b), G.Merge(f, b));
    GMergeFacts(f, b);
    forall s: State ensures G.SameFrom(f, G.Merge(f, b), At(e, 0, s), At(if e == b then f.blocks[b].next.value else e, 0, s)) {
      G.MergePreserves(f, b, e, s);
    }
  }

  lemma GMergeFacts(f: Cfg, b: BlockId)
    requires G.Mergeable(f, b)
    ensures b in f.blocks && f.blocks[b].next.Some? && f.blocks[b].next.value in f.blocks
  {
  }

  // ---- the chaining phase ----

  /** Nothing is chained to block e now, and none of these blocks ends with an unconditional branch to it. */
  predicate Free(x: Ir, e: BlockId, bs: seq<BlockId>) {
    && e in x.blocks && x.blocks[e].prev.None?
    && forall b | b in bs && b in x.blocks && x.blocks[b].instrs != [] :: !JumpsLast(x, b, e)
  }

  predicate JumpsLast(x: Ir, b: BlockId, e: BlockId)
    requires b in x.blocks && x.blocks[b].instrs != []
  {
    var i := LastOf(x, b);
    && i in x.code && !x.code[i].op.hasPredicate && x.code[i].edge.Some? && x.code[i].edge.value in x.edges
    && x.edges[x.code[i].edge.value].dst == e
  }

  predicate EmptyIn(x: Ir, b: BlockId) { b in x.blocks && x.blocks[b].instrs == [] }

  /** The block was empty, or no branch leads to the block it falls through to now. */
  predicate ToMerge(x: Ir, y: Ir, b: BlockId)
    requires b in x.blocks && b in y.blocks
  {
    || x.blocks[b].instrs == []
    || (y.blocks[b].next.Some? && y.blocks[b].next.value in y.blocks && y.blocks[y.blocks[b].next.value].incoming == [])
  }

  lemma CanMerge(x: Ir, b: BlockId)
    requires b in x.blocks && x.blocks[b].next.Some? && x.blocks[b].next.value in x.blocks && x.blocks[b].next.value != b
    requires x.blocks[x.blocks[b].next.value].incoming == []
    ensures S.Mergeable(x, b)
  {
  }

  /** Handling one block leaves the others free to be chained as before. */
  lemma FreeNext(x: Ir, y: Ir, e: BlockId, bs: seq<BlockId>)
    requires Consistent(x) && bs != [] && Free(x, e, bs) && forall k | 0 < k < |bs| :: bs[k] != bs[0]
    requires y == x || (MayChain(x, bs[0]) && y == ChainedIr(x, bs[0], LastOf(x, bs[0]), TargetOf(x, bs[0])))
    ensures Free(y, e, bs[1..])
  {
    var b := bs[0];
    assert b in bs;
    if y != x {
      var i, d := LastOf(x, b), TargetOf(x, b);
      MayChainFacts(x, b);
      assert d != e;
      ChainedBlock(x, b, i, d, e);
      forall c | c in bs[1..] && c in y.blocks && y.blocks[c].instrs != [] ensures !JumpsLast(y, c, e) {
        assert c != b && c in bs;
        ChainedBlock(x, b, i, d, c);
        FreeStays(x, b, i, d, c, e);
      }
    }
  }

  lemma FreeStays(x: Ir, b: BlockId, i: NodeId, d: BlockId, c: BlockId, e: BlockId)
    requires Consistent(x) && Chainable(x, b, i, d) && c in x.blocks && c != b && x.blocks[c].instrs != []
    requires ChainedIr(x, b, i, d).blocks.Keys == x.blocks.Keys && ChainedIr(x, b, i, d).blocks[c].instrs == x.blocks[c].instrs
    ensures JumpsLast(ChainedIr(x, b, i, d), c, e) ==> JumpsLast(x, c, e)
  {
    hide Consistent, Chainable, ChainedIr;
    ChainableFacts(x, b, i, d);
    InstrInCode(x, c);
    InstrInCode(x, b);
    var j := LastOf(x, c);
    NotElsewhere(x, b, i, c);
    ChainParts(x, b, i, d);
    LinkBlock(x, b, d, b);
    ChainMaps(x, b, i, d, j);
  }

  /** Other instructions keep operation and edge. */
  lemma ChainMaps(x: Ir, b: BlockId, i: NodeId, d: BlockId, j: NodeId)
    requires b in x.blocks && d in x.blocks && i in x.code && j in x.code && j != i
    ensures var y := ChainedIr(x, b, i, d);
            && (j in y.code ==> y.code[j].op == x.code[j].op && (y.code[j].edge == x.code[j].edge || y.code[j].edge.None?))
            && (forall e | e in y.edges :: e in x.edges && y.edges[e] == x.edges[e])
  {
  }

  /** The last instruction of a block, its edge and where that leads are all there. */
  lemma InstrInCode(x: Ir, b: BlockId)
    requires Consistent(x) && b in x.blocks && x.blocks[b].instrs != []
    ensures var i := LastOf(x, b);
            && i in x.code && i in x.blocks[b].instrs
            && (x.code[i].edge.Some? ==> x.code[i].edge.value in x.edges && x.edges[x.code[i].edge.value].dst in x.blocks)
  {
    var i := LastOf(x, b);
    assert i in x.blocks[b].instrs;
    InstrThere(x, b, i);
  }

  lemma BranchOf(x: Ir, i: NodeId)
    requires BranchesBranch(x) && i in x.code && x.code[i].op.kind.Branch?
    ensures PlainBranch(x.code[i].op)
  {
  }

  lemma ChainParts(x: Ir, b: BlockId, i: NodeId, d: BlockId)
    requires b in x.blocks && d in x.blocks && i in x.code
    ensures var y := Link(x, b, d);
            && b in y.blocks && y.blocks[b].instrs == x.blocks[b].instrs && i in y.code
            && ChainedIr(x, b, i, d) == RemovedInstr(y, b, i)
  {
    LinkBlock(x, b, d, b);
  }

  lemma ChainCode(x: Ir, b: BlockId, i: NodeId, d: BlockId)
    requires BranchesBranch(x) && b in x.blocks && d in x.blocks && i in x.code
    ensures BranchesBranch(ChainedIr(x, b, i, d)) && ChainedIr(x, b, i, d).blocks.Keys == x.blocks.Keys
  {
    ChainedBlock(x, b, i, d, b);
    LinkBlock(x, b, d, b);
    RemovedOps(Link(x, b, d), b, i);
    hide RemovedInstr, Link;
  }

  lemma RemovedOps(x: Ir, b: BlockId, i: NodeId)
    requires b in x.blocks && i in x.code
    ensures forall j | j in RemovedInstr(x, b, i).code :: j in x.code && RemovedInstr(x, b, i).code[j].op == x.code[j].op
  {
  }

  // ---- the phase as a whole ----

  /** What handling one block makes of the function. */
  ghost function ChainStep(x: Ir, b: BlockId): Ir {
    if MayChain(x, b) then ChainedIr(x, b, LastOf(x, b), TargetOf(x, b)) else x
  }

  ghost function ChainAll(x: Ir, order: seq<BlockId>): Ir {
    if order == [] then x else ChainStep(ChainAll(x, order[..|order| - 1]), order[|order| - 1])
  }

  ghost predicate Noted(x: Ir, b: BlockId) {
    b in x.blocks && b in ChainStep(x, b).blocks && ToMerge(x, ChainStep(x, b), b)
  }

  /** The blocks noted for merging. */
  ghost function Listed(x: Ir, order: seq<BlockId>): seq<BlockId> {
    if order == [] then []
    else
      var before, b := order[..|order| - 1], order[|order| - 1];
      Listed(x, before) + (if Noted(ChainAll(x, before), b) then [b] else [])
  }

  /** Blocks of the function, each once. */
  predicate Orderly(x: Ir, order: seq<BlockId>) {
    && (forall b | b in order :: b in x.blocks)
    && (forall j, k | 0 <= j < k < |order| :: order[j] != order[k])
  }

  predicate DeadEnd(x: Ir, b: BlockId) {
    b in x.blocks && x.blocks[b].instrs == [] && x.blocks[b].next.None?
  }

  lemma OrderlyBefore(x: Ir, order: seq<BlockId>, n: nat)
    requires Orderly(x, order) && 0 < n <= |order|
    ensures Orderly(x, order[..n - 1]) && order[n - 1] in x.blocks && order[n - 1] !in order[..n - 1]
    ensures order[..n][..n - 1] == order[..n - 1] && order[..n][n - 1] == order[n - 1]
  {
  }

  lemma ChainStepFacts(x: Ir, b: BlockId)
    requires Consistent(x) && BranchesBranch(x) && b in x.blocks
    ensures Consistent(ChainStep(x, b)) && BranchesBranch(ChainStep(x, b)) && ChainStep(x, b).blocks.Keys == x.blocks.Keys
    ensures forall e | e in x.blocks :: SameRuns(Whole(x), e, Whole(ChainStep(x, b)), e)
  {
    hide Consistent, Whole, Makes, G.Chain, SameRuns, BranchesBranch, Chainable, ChainedIr;
    var f := Whole(x);
    MakesIs(x, f);
    U.WholeKeys(x);
    if MayChain(x, b) {
      var i, d := LastOf(x, b), TargetOf(x, b);
      MayChainFacts(x, b);
      BranchOf(x, i);
      WholeEnds(x, b, i, d);
      forall e | e in f.blocks ensures Makes(ChainedIr(x, b, i, d), G.Chain(f, b)) && SameRuns(f, e, G.Chain(f, b), e) {
        ChainSame(x, f, G.Chain(f, b), b, i, d, e);
      }
      assert b in f.blocks;
      MakesFacts(ChainedIr(x, b, i, d), G.Chain(f, b));
      ChainableFacts(x, b, i, d);
      ChainCode(x, b, i, d);
    } else {
      forall e | e in x.blocks ensures SameRuns(f, e, f, e) { SameRunsSelf(f, e); }
    }
  }

  /** The phase keeps what runs from every block. */
  lemma {:induction false} ChainAllFacts(x: Ir, order: seq<BlockId>)
    requires Consistent(x) && BranchesBranch(x) && forall b | b in order :: b in x.blocks
    ensures var m := ChainAll(x, order); Consistent(m) && BranchesBranch(m) && m.blocks.Keys == x.blocks.Keys
    ensures forall e | e in x.blocks :: SameRuns(Whole(x), e, Whole(ChainAll(x, order)), e)
  {
    hide Consistent, Whole, SameRuns, BranchesBranch, ChainStep;
    if order == [] {
      forall e | e in x.blocks ensures SameRuns(Whole(x), e, Whole(x), e) { SameRunsSelf(Whole(x), e); }
    } else {
      var before, b := order[..|order| - 1], order[|order| - 1];
      ChainAllFacts(x, before);
      var m := ChainAll(x, before);
      ChainStepFacts(m, b);
      forall e | e in x.blocks ensures SameRuns(Whole(x), e, Whole(ChainStep(m, b)), e) {
        SameRunsTwice(Whole(x), e, Whole(m), e, Whole(ChainStep(m, b)), e);
      }
    }
  }

  /** Only the block jumped to loses an incoming edge. */
  lemma ChainedIncoming(x: Ir, b: BlockId, i: NodeId, d: BlockId, c: BlockId)
    requires Consistent(x) && Chainable(x, b, i, d) && c in x.blocks && c != d
    ensures c in ChainedIr(x, b, i, d).blocks && ChainedIr(x, b, i, d).blocks[c].incoming == x.blocks[c].incoming
  {
    hide Consistent;
    ChainableFacts(x, b, i, d);
    ChainedBlock(x, b, i, d, c);
    var y := Link(x, b, d);
    LinkBlock(x, b, d, b);
    assert y.blocks[c].incoming == x.blocks[c].incoming;
    hide Link, Chainable;
    RemovedIncoming(y, b, i, c);
    assert LastBranch(x, b, |x.blocks[b].instrs| - 1, i, d);
  }

  lemma RemovedIncoming(x: Ir, b: BlockId, i: NodeId, c: BlockId)
    requires b in x.blocks && i in x.code && c in x.blocks
    requires x.code[i].edge.Some? && x.code[i].edge.value in x.edges && x.edges[x.code[i].edge.value].dst != c
    ensures c in RemovedInstr(x, b, i).blocks && RemovedInstr(x, b, i).blocks[c].incoming == x.blocks[c].incoming
  {
  }

  /** Handling a block leaves instructions and next block of another one alone, and the links and edges into
      a block that has a predecessor. */
  lemma ChainStepOther(x: Ir, b: BlockId, c: BlockId)
    requires Consistent(x) && BranchesBranch(x) && b in x.blocks && c in x.blocks
    ensures var y := ChainStep(x, b);
            && c in y.blocks
            && (c != b ==> y.blocks[c].instrs == x.blocks[c].instrs && y.blocks[c].next == x.blocks[c].next)
            && (x.blocks[c].prev.Some? ==> y.blocks[c].prev == x.blocks[c].prev && y.blocks[c].incoming == x.blocks[c].incoming)
            && (x.blocks[c].next.Some? ==> y.blocks[c].next == x.blocks[c].next)
  {
    hide Consistent, BranchesBranch, ChainedIr;
    if MayChain(x, b) {
      var i, d := LastOf(x, b), TargetOf(x, b);
      MayChainFacts(x, b);
      ChainableFacts(x, b, i, d);
      ChainedBlock(x, b, i, d, c);
      if c != d { ChainedIncoming(x, b, i, d, c); }
    }
  }

  /** To be merged when the phase is over: empty from the start, or with no branch to the block behind it. */
  predicate Ripe(x: Ir, m: Ir, b: BlockId) {
    || EmptyIn(x, b)
    || (b in m.blocks && m.blocks[b].next.Some? && m.blocks[b].next.value in m.blocks && m.blocks[m.blocks[b].next.value].incoming == [])
  }

  /** What has been noted so far is ripe still, nothing ripe has been missed, and the other blocks have their
      instructions still. */
  ghost predicate AllRipe(x: Ir, m: Ir, order: seq<BlockId>, l: seq<BlockId>) {
    && (forall b :: b in l <==> b in order && Ripe(x, m, b))
    && (forall j, k | 0 <= j < k < |l| :: l[j] != l[k])
    && (forall b | b in x.blocks && b !in order :: SameCode(x, m, b))
  }

  lemma AllRipeNext(x: Ir, m: Ir, before: seq<BlockId>, c: BlockId, l: seq<BlockId>)
    requires Consistent(m) && BranchesBranch(m) && m.blocks.Keys == x.blocks.Keys && AllRipe(x, m, before, l)
    requires (forall b | b in before :: b in x.blocks) && c in x.blocks && c !in before
    ensures AllRipe(x, ChainStep(m, c), before + [c], l + (if Noted(m, c) then [c] else []))
  {
    hide Consistent, BranchesBranch, Whole, ChainStep, SameRuns, Ripe, Noted;
    ChainStepFacts(m, c);
    forall b | b in x.blocks && b !in before + [c] ensures SameCode(x, ChainStep(m, c), b) { ChainStepOther(m, c, b); }
    forall b | b in before ensures Ripe(x, m, b) <==> Ripe(x, ChainStep(m, c), b) { RipeStays(x, m, b, c); }
    NotedIsRipe(x, m, c);
    hide SameCode;
  }

  /** What the phase has noted is ripe when it is over, and nothing ripe has been missed. */
  lemma {:induction false} ListedIsRipe(x: Ir, order: seq<BlockId>)
    requires Consistent(x) && BranchesBranch(x) && Orderly(x, order)
    ensures AllRipe(x, ChainAll(x, order), order, Listed(x, order))
  {
    hide Consistent, BranchesBranch, Noted, ChainStep, SameRuns, Whole, Ripe;
    if order != [] {
      var before, c := order[..|order| - 1], order[|order| - 1];
      OrderlyBefore(x, order, |order|);
      assert order[..|order|] == order == before + [c];
      ListedIsRipe(x, before);
      ChainAllFacts(x, before);
      hide AllRipe;
      AllRipeNext(x, ChainAll(x, before), before, c, Listed(x, before));
    }
  }

  /** A block not handled yet. */
  predicate SameCode(x: Ir, m: Ir, b: BlockId) {
    b in x.blocks && b in m.blocks && m.blocks[b].instrs == x.blocks[b].instrs && m.blocks[b].next == x.blocks[b].next
  }

  lemma RipeStays(x: Ir, m: Ir, b: BlockId, c: BlockId)
    requires Consistent(m) && BranchesBranch(m) && b in m.blocks && c in m.blocks && b != c
    ensures Ripe(x, m, b) <==> Ripe(x, ChainStep(m, c), b)
  {
    hide Consistent, BranchesBranch, ChainStep;
    NeighboursThere(m, b);
    ChainStepOther(m, c, b);
    if m.blocks[b].next.Some? { ChainStepOther(m, c, m.blocks[b].next.value); }
  }

  lemma NotedIsRipe(x: Ir, m: Ir, b: BlockId)
    requires SameCode(x, m, b)
    ensures b in ChainStep(m, b).blocks ==> (Noted(m, b) <==> Ripe(x, ChainStep(m, b), b))
  {
    hide ChainStep;
  }

  /** A block that neither falls through nor is empty at the start never gets both. */
  lemma DeadEndsStay(x: Ir, order: seq<BlockId>, b: BlockId)
    requires Consistent(x) && BranchesBranch(x) && Orderly(x, order) && b in x.blocks && b !in order
    ensures DeadEnd(ChainAll(x, order), b) <==> DeadEnd(x, b)
  {
    hide Consistent, BranchesBranch, Listed, ChainAll;
    ListedIsRipe(x, order);
  }

  // ---- instruction ids and the entry's first instruction ----

  lemma ChainIds(f: Cfg, b: BlockId)
    requires UniqueIds(f) && b in f.blocks && f.blocks[b].instrs != []
    requires f.blocks[b].instrs[|f.blocks[b].instrs| - 1].kind.Branch? && f.blocks[b].instrs[|f.blocks[b].instrs| - 1].kind.edge.Some?
    ensures UniqueIds(G.Chain(f, b))
  {
    var g := G.Chain(f, b);
    forall c | c in g.blocks ensures c in f.blocks && Ids(g.blocks[c].instrs) <= Ids(f.blocks[c].instrs) && DistinctIds(g.blocks[c].instrs) {
      assert DistinctIds(f.blocks[c].instrs);
    }
  }

  lemma ChainOpens(f: Cfg, b: BlockId, e: BlockId)
    requires Opens(f, e) && b in f.blocks && f.blocks[b].instrs != []
    requires f.blocks[b].instrs[|f.blocks[b].instrs| - 1].kind.Branch? && f.blocks[b].instrs[|f.blocks[b].instrs| - 1].kind.edge.Some?
    ensures Opens(G.Chain(f, b), e)
  {
    var g := G.Chain(f, b);
    assert e == b ==> |f.blocks[b].instrs| > 1;
    assert g.blocks[e].instrs[0] == f.blocks[e].instrs[0];
  }

  /** Chaining takes no id twice and no first instruction but a jump away. */
  lemma {:induction false} ChainAllGraph(x: Ir, order: seq<BlockId>, e: BlockId)
    requires Consistent(x) && BranchesBranch(x) && forall b | b in order :: b in x.blocks
    ensures Consistent(ChainAll(x, order))
    ensures UniqueIds(Whole(x)) ==> UniqueIds(Whole(ChainAll(x, order)))
    ensures Opens(Whole(x), e) ==> Opens(Whole(ChainAll(x, order)), e)
  {
    hide Consistent, BranchesBranch, Whole, UniqueIds, Opens, SameRuns;
    if order != [] {
      var before, b := order[..|order| - 1], order[|order| - 1];
      ChainAllGraph(x, before, e);
      ChainAllFacts(x, before);
      var m := ChainAll(x, before);
      ChainStepFacts(m, b);
      if MayChain(m, b) {
        ChainStepGraph(m, b);
        hide ChainStep, G.Chain;
        var f := Whole(m);
        if UniqueIds(f) { ChainIds(f, b); }
        if Opens(f, e) { ChainOpens(f, b, e); }
      }
    }
  }

  lemma ChainStepGraph(x: Ir, b: BlockId)
    requires Consistent(x) && BranchesBranch(x) && MayChain(x, b)
    ensures var f := Whole(x);
            && b in f.blocks && f.blocks[b].instrs != []
            && f.blocks[b].instrs[|f.blocks[b].instrs| - 1].kind.Branch? && f.blocks[b].instrs[|f.blocks[b].instrs| - 1].kind.edge.Some?
            && Consistent(ChainStep(x, b)) && Whole(ChainStep(x, b)) == G.Chain(f, b)
  {
    hide Consistent, Whole, Makes, G.Chain, BranchesBranch, Chainable, ChainedIr;
    var i, d := LastOf(x, b), TargetOf(x, b);
    MayChainFacts(x, b);
    MakesIs(x, Whole(x));
    WholeEnds(x, b, i, d);
    ChainWhole(x, Whole(x), G.Chain(Whole(x), b), b, i, d);
    MakesFacts(ChainedIr(x, b, i, d), G.Chain(Whole(x), b));
  }

  /** If nothing is chained to the entry and no block that will be handled jumps there last, the phase leaves
      it so. */
  lemma {:induction false} FreeAll(x: Ir, e: BlockId, order: seq<BlockId>, n: nat)
    requires Consistent(x) && BranchesBranch(x) && Orderly(x, order) && n <= |order| && Free(x, e, order)
    ensures Free(ChainAll(x, order[..n]), e, order[n..])
  {
    hide Consistent, BranchesBranch, Free, Whole, SameRuns;
    assert order[0..] == order && order[..0] == [];
    if n > 0 {
      FreeAll(x, e, order, n - 1);
      OrderlyBefore(x, order, n);
      assert order[n - 1..][1..] == order[n..] && order[n - 1..][0] == order[n - 1];
      ChainAllFacts(x, order[..n - 1]);
      var m := ChainAll(x, order[..n - 1]);
      hide ChainAll;
      ChainStepIs(m, order[n - 1]);
      hide ChainStep;
      FreeNext(m, ChainStep(m, order[n - 1]), e, order[n - 1..]);
    }
  }

  lemma ChainStepIs(x: Ir, b: BlockId)
    ensures ChainStep(x, b) == x || (MayChain(x, b) && ChainStep(x, b) == ChainedIr(x, b, LastOf(x, b), TargetOf(x, b)))
  {
  }

  lemma ChainAllNext(x: Ir, order: seq<BlockId>, n: nat)
    requires n < |order|
    ensures ChainAll(x, order[..n + 1]) == ChainStep(ChainAll(x, order[..n]), order[n])
    ensures Listed(x, order[..n + 1]) == Listed(x, order[..n]) + (if Noted(ChainAll(x, order[..n]), order[n]) then [order[n]] else [])
  {
    assert order[..n + 1][..n] == order[..n] && order[..n + 1][n] == order[n];
    hide ChainStep, Noted;
  }

  lemma ChainAllStart(x: Ir)
    ensures ChainAll(x, []) == x && Listed(x, []) == []
  {
  }
}

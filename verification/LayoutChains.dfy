/** Which chains the block layout pass makes, said of the function before it, and when all of them have ends. */
module LayoutChains {
  import opened Machine
  import opened Links
  import opened Ir
  import opened IrOps
  import opened FunctionIr
  import opened IrGraph
  import opened IrLoops
  import opened BlockLayout
  import opened LayoutEntry
  import H = Chains
  import E = Emission
  import T = Traversal
  import N = LayoutEnds
  import S = IrSplit
  import G = Surgery

  // ---- who jumps where ----

  /** Where the final jump of a block without fallthrough leads. */
  function FinalJump(x: Ir, b: BlockId): Option<BlockId> {
    if b in x.blocks && x.blocks[b].next.None? && x.blocks[b].instrs != [] && LastOf(x, b) in x.code
    then JumpOfCode(x, x.code[LastOf(x, b)]) else None
  }

  function JumpOfCode(x: Ir, c: Code): Option<BlockId> {
    if c.op.kind.Branch? && !c.op.hasPredicate && c.edge.Some? && c.edge.value in x.edges && x.edges[c.edge.value].dst in x.blocks
    then Some(x.edges[c.edge.value].dst) else None
  }

  /** The first block in the order that ends with a jump to block d. */
  function FirstJump(x: Ir, order: seq<BlockId>, d: BlockId): Option<BlockId> {
    if order == [] then None
    else
      var before, b := FirstJump(x, order[..|order| - 1], d), order[|order| - 1];
      if before.Some? then before else if FinalJump(x, b) == Some(d) then Some(b) else None
  }

  /** The block that will be in front of block d: the one that is, or else the first one to jump there. */
  function PrevAfter(x: Ir, order: seq<BlockId>, d: BlockId): Option<BlockId> {
    if d !in x.blocks then None
    else if x.blocks[d].prev.Some? then x.blocks[d].prev
    else FirstJump(x, order, d)
  }

  lemma MayChainIff(x: Ir, b: BlockId)
    ensures MayChain(x, b) <==> FinalJump(x, b).Some? && x.blocks[FinalJump(x, b).value].prev.None?
    ensures MayChain(x, b) ==> FinalJump(x, b) == Some(TargetOf(x, b))
  {
  }

  lemma RemovedOther(y: Ir, b: BlockId, i: NodeId, j: NodeId)
    requires b in y.blocks && i in y.code && j in y.code && j != i
    requires y.code[i].edge.Some? && y.code[i].edge.value in y.edges ==> y.edges[y.code[i].edge.value].instr == i
    ensures var r := RemovedInstr(y, b, i);
            && j in r.code && r.code[j] == y.code[j]
            && forall e | e in y.edges && Some(e) != y.code[i].edge :: e in r.edges && r.edges[e] == y.edges[e]
  {
  }

  lemma EdgeBack(x: Ir, i: NodeId)
    requires Consistent(x) && i in x.code && x.code[i].edge.Some?
    ensures x.code[i].edge.value in x.edges && x.edges[x.code[i].edge.value].instr == i
  {
    assert CodeOk(x, i);
  }

  lemma InOneBlock(x: Ir, b: BlockId, c: BlockId, i: NodeId, j: NodeId)
    requires Consistent(x) && b in x.blocks && c in x.blocks && b != c && i in x.blocks[b].instrs && j in x.blocks[c].instrs
    ensures i != j && i in x.code && j in x.code
  {
    assert NoneShared(x.blocks[b].instrs, x.blocks[c].instrs);
    InstrThere(x, b, i);
    InstrThere(x, c, j);
  }

  /** Chaining a block takes the edge of its jump away and no other. */
  lemma OtherCode(x: Ir, b: BlockId, c: BlockId, j: NodeId)
    requires Consistent(x) && MayChain(x, b) && c in x.blocks && c != b && j in x.blocks[c].instrs
    ensures var y := ChainStep(x, b);
            && j in x.code && j in y.code && y.code[j] == x.code[j] && y.blocks.Keys == x.blocks.Keys
            && JumpOfCode(y, y.code[j]) == JumpOfCode(x, x.code[j])
  {
    hide Consistent, ChainedIr;
    var i, d := LastOf(x, b), TargetOf(x, b);
    InstrInCode(x, b);
    InOneBlock(x, b, c, i, j);
    MayChainFacts(x, b);
    ChainableFacts(x, b, i, d);
    ChainedBlock(x, b, i, d, c);
    ChainParts(x, b, i, d);
    var y := Link(x, b, d);
    LinkBlock(x, b, d, b);
    assert y.code == x.code && y.edges == x.edges;
    EdgeBack(x, i);
    if x.code[j].edge.Some? { EdgeBack(x, j); }
    hide Link, MayChain, Chainable, RemovedInstr;
    RemovedOther(y, b, i, j);
  }

  lemma OtherJump(x: Ir, b: BlockId, c: BlockId)
    requires Consistent(x) && MayChain(x, b) && c in x.blocks && c != b
    ensures c in ChainStep(x, b).blocks && FinalJump(ChainStep(x, b), c) == FinalJump(x, c)
  {
    hide Consistent, ChainedIr, JumpOfCode;
    var i, d := LastOf(x, b), TargetOf(x, b);
    MayChainFacts(x, b);
    ChainableFacts(x, b, i, d);
    ChainedBlock(x, b, i, d, c);
    hide MayChain, Chainable;
    if x.blocks[c].instrs != [] {
      assert LastOf(x, c) in x.blocks[c].instrs;
      OtherCode(x, b, c, LastOf(x, c));
    }
  }

  /** What the step does to who is in front of whom. */
  lemma StepPrev(x: Ir, b: BlockId, d: BlockId)
    requires Consistent(x) && d in x.blocks
    ensures d in ChainStep(x, b).blocks
    ensures ChainStep(x, b).blocks[d].prev
              == if x.blocks[d].prev.None? && FinalJump(x, b) == Some(d) then Some(b) else x.blocks[d].prev
  {
    hide Consistent, ChainedIr;
    MayChainIff(x, b);
    if MayChain(x, b) {
      MayChainFacts(x, b);
      ChainableFacts(x, b, LastOf(x, b), TargetOf(x, b));
      ChainedBlock(x, b, LastOf(x, b), TargetOf(x, b), d);
    }
  }

  ghost predicate Foreseen(x: Ir, order: seq<BlockId>, m: Ir) {
    && m.blocks.Keys == x.blocks.Keys
    && (forall d | d in m.blocks :: m.blocks[d].prev == PrevAfter(x, order, d))
    && (forall c | c in m.blocks && c !in order :: FinalJump(m, c) == FinalJump(x, c))
  }

  /** After the chaining phase, over any order of blocks, every block has the predecessor foreseen. */
  lemma {:induction false} ChainedAsForeseen(x: Ir, order: seq<BlockId>)
    requires Consistent(x) && BranchesBranch(x) && Orderly(x, order)
    ensures Foreseen(x, order, ChainAll(x, order))
  {
    hide Consistent, BranchesBranch, ChainStep, SameRuns, FinalJump;
    if order != [] {
      var before, b := order[..|order| - 1], order[|order| - 1];
      OrderlyBefore(x, order, |order|);
      assert order[..|order|] == order == before + [b];
      ChainAllFacts(x, before);
      ChainedAsForeseen(x, before);
      var m := ChainAll(x, before);
      ChainStepFacts(m, b);
      assert FinalJump(m, b) == FinalJump(x, b);
      forall d | d in m.blocks ensures ChainStep(m, b).blocks[d].prev == PrevAfter(x, order, d) { StepPrev(m, b, d); }
      forall c | c in m.blocks && c !in order ensures FinalJump(ChainStep(m, b), c) == FinalJump(x, c) { StepJump(m, b, c); }
    }
  }

  lemma StepJump(m: Ir, b: BlockId, c: BlockId)
    requires Consistent(m) && c in m.blocks && c != b
    ensures FinalJump(ChainStep(m, b), c) == FinalJump(m, c)
  {
    hide Consistent, FinalJump;
    if MayChain(m, b) { OtherJump(m, b, c); }
  }

  /** Who will be in front of whom. */
  function PrevsAfter(x: Ir, order: seq<BlockId>): H.Neighbours {
    map d | d in x.blocks && PrevAfter(x, order, d).Some? :: PrevAfter(x, order, d).value
  }

  lemma ForeseenPrevs(x: Ir, order: seq<BlockId>)
    requires Consistent(x) && BranchesBranch(x) && Orderly(x, order)
    ensures Consistent(ChainAll(x, order)) && Chained(Whole(ChainAll(x, order)))
    ensures H.PrevOf(Whole(ChainAll(x, order))) == PrevsAfter(x, order)
  {
    hide Consistent, BranchesBranch, SameRuns, ChainAll, PrevAfter, FinalJump, Whole;
    var m := ChainAll(x, order);
    ChainAllFacts(x, order);
    ChainedAsForeseen(x, order);
    WholeComplete(m);
    forall d | d in m.blocks ensures Whole(m).blocks[d].prev == m.blocks[d].prev { WholeBlock(m, d); }
    assert H.PrevOf(Whole(m)).Keys == PrevsAfter(x, order).Keys;
  }

  /** All chains have ends after the chaining phase if and only if, on the function before it, no block comes back to
      itself going to the block in front that there is or that will be chained there. */
  lemma ChainingEndsIff(x: Ir, order: seq<BlockId>)
    requires Consistent(x) && BranchesBranch(x) && Orderly(x, order)
    ensures Consistent(ChainAll(x, order))
    ensures forall b :: H.HasEnd(H.NextOf(Whole(ChainAll(x, order))), b) <==> !H.ComesBack(PrevsAfter(x, order), b)
  {
    hide Consistent, BranchesBranch, H.HasEnd, H.ComesBack, ChainAll, Whole, PrevsAfter, Chained;
    ForeseenPrevs(x, order);
    forall b ensures H.HasEnd(H.NextOf(Whole(ChainAll(x, order))), b) <==> !H.ComesBack(PrevsAfter(x, order), b) {
      H.GraphEndIff(Whole(ChainAll(x, order)), b);
    }
  }

  // ---- what can be reached ----

  lemma StepReach(x: Ir, b: BlockId, e: BlockId, c: BlockId)
    requires Consistent(x) && BranchesBranch(x) && b in x.blocks && Consistent(ChainStep(x, b))
    ensures E.Reachable(Whole(x), e, c) <==> E.Reachable(Whole(ChainStep(x, b)), e, c)
  {
    hide Consistent, BranchesBranch, Whole, ChainedIr, E.Reachable, G.Chain, Chainable;
    if MayChain(x, b) {
      var i, d := LastOf(x, b), TargetOf(x, b);
      MayChainFacts(x, b);
      ChainableFacts(x, b, i, d);
      WholeEnds(x, b, i, d);
      ChainStepGraph(x, b);
      WholeBlock(x, b);
      N.ChainReach(Whole(x), b, d, e, c);
    }
  }

  /** Chaining changes nothing about what can be reached. */
  lemma {:induction false} ChainAllReach(x: Ir, order: seq<BlockId>, e: BlockId, c: BlockId)
    requires Consistent(x) && BranchesBranch(x) && forall b | b in order :: b in x.blocks
    ensures Consistent(ChainAll(x, order))
    ensures E.Reachable(Whole(x), e, c) <==> E.Reachable(Whole(ChainAll(x, order)), e, c)
  {
    hide Consistent, BranchesBranch, Whole, SameRuns, ChainStep, E.Reachable;
    if order != [] {
      var before, b := order[..|order| - 1], order[|order| - 1];
      ChainAllFacts(x, before);
      ChainAllReach(x, before, e, c);
      ChainStepFacts(ChainAll(x, before), b);
      StepReach(ChainAll(x, before), b, e, c);
    }
  }

  // ---- merging ----

  /** Of every block that is left: all chains with a block that can be reached from it have ends if they have before the
      merging, from the first of the blocks it is made of. */
  ghost predicate EndsGathered(f: Cfg, g: Cfg, w: Parts) {
    forall c | c in w && w[c] != [] :: T.ChainsEndFrom(f, w[c][0]) <==> T.ChainsEndFrom(g, c)
  }

  lemma MergeEndsFrom(z: Ir, b: BlockId, e: BlockId)
    requires Consistent(z) && S.Mergeable(z, b) && e in z.blocks && e != b
    ensures Consistent(S.Merge(z, b)) && b in z.blocks && z.blocks[b].next.Some?
    ensures T.ChainsEndFrom(Whole(S.Merge(z, b)), e) <==> T.ChainsEndFrom(Whole(z), N.Before(b, z.blocks[b].next.value, e))
  {
    hide *;
    MergeFacts(z, b);
    S.MergeConsistent(z, b);
    MergeWhole(z, b);
    N.MergeEnds(Whole(z), b, z.blocks[b].next.value, e);
  }

  lemma MergeGathersEnds(m: Ir, z: Ir, w: Parts, b: BlockId, f: Cfg)
    requires Consistent(m) && Consistent(z) && S.Mergeable(z, b) && Gathered(m, z, w)
    requires EndsGathered(f, Whole(z), w)
    ensures Consistent(S.Merge(z, b)) && EndsGathered(f, Whole(S.Merge(z, b)), PartsStep(z, b, w))
  {
    hide Consistent, S.Merge, S.Mergeable, T.ChainsEndFrom, Whole, IsRow, PartsStep;
    MergeFacts(z, b);
    S.MergeConsistent(z, b);
    var n, g, v := z.blocks[b].next.value, Whole(S.Merge(z, b)), PartsStep(z, b, w);
    GatheredAt(m, z, w, b);
    GatheredAt(m, z, w, n);
    PartsStepAt(z, w, b, n);
    assert w[b] != [] by { assert MadeOf(m, z, w[b], b); RowNotEmpty(m, w[b]); }
    forall c | c in v && v[c] != [] ensures T.ChainsEndFrom(f, v[c][0]) <==> T.ChainsEndFrom(g, c) {
      MergeEndsFrom(z, b, c);
      assert N.Before(b, n, c) in w && w[N.Before(b, n, c)] != [] && w[N.Before(b, n, c)][0] == v[c][0];
    }
  }

  lemma {:induction false} MergeAllEnds(m: Ir, list: seq<BlockId>)
    requires Consistent(m) && MergesOk(m, list)
    ensures Consistent(MergeAll(m, list)) && EndsGathered(Whole(m), Whole(MergeAll(m, list)), PartsAfter(m, list))
  {
    hide MergesOk, Consistent, S.Merge, S.Mergeable, PartsStep, PartsAfter, MergeStep, T.ChainsEndFrom, Whole, Gathered, OncePart, RunsGathered;
    if list == [] {
      PartsStart(m);
    } else {
      hide MergeAll;
      MergesOkBefore(m, list);
      var before, b := list[..|list| - 1], list[|list| - 1];
      MergeAllEnds(m, before);
      MergeAllFacts(m, before);
      MergedFacts(m, MergeAll(m, before), PartsAfter(m, before), before);
      MergeAllStep(m, list, b);
      MergeGathersEnds(m, MergeAll(m, before), PartsAfter(m, before), b, Whole(m));
    }
  }

  // ---- the pass ----

  /** On the function before the pass: no block that can be reached from e comes back to itself going to the block in
      front that there is or that will be chained there. */
  ghost predicate NoneComesBack(x: Ir, order: seq<BlockId>, e: BlockId) {
    Consistent(x) && forall b | E.Reachable(Whole(x), e, b) :: !H.ComesBack(PrevsAfter(x, order), b)
  }

  lemma ChainedEndsIff(x: Ir, order: seq<BlockId>, e: BlockId)
    requires Consistent(x) && BranchesBranch(x) && Orderly(x, order)
    ensures Consistent(ChainAll(x, order)) && (T.ChainsEndFrom(Whole(ChainAll(x, order)), e) <==> NoneComesBack(x, order, e))
  {
    hide Consistent, BranchesBranch, Whole, H.HasEnd, H.ComesBack, ChainAll, PrevsAfter, E.Reachable;
    ChainingEndsIff(x, order);
    forall b ensures E.Reachable(Whole(x), e, b) <==> E.Reachable(Whole(ChainAll(x, order)), e, b) { ChainAllReach(x, order, e, b); }
  }

  /** The depth-first traversal of the blocks ends. */
  ghost predicate EndsFrom(x: Ir, e: BlockId) {
    Consistent(x) && T.TraversalEnds(Whole(x), e)
  }

  /** The traversal of the function laid out ends if and only if, on the function before the pass, no block comes back to
      itself that can be reached from the first of the blocks in front of the entry. */
  lemma LayoutEndsIff(x: Ir, order: seq<BlockId>, list: seq<BlockId>, e: BlockId)
    requires Consistent(x) && BranchesBranch(x) && Orderly(x, order) && e in x.blocks && MergesOk(ChainAll(x, order), list)
    ensures var m := ChainAll(x, order);
            var z, e' := MergeAll(m, list), EntryAfter(m, list, e);
            && Consistent(z) && e' in z.blocks
            && (EndsFrom(z, e') <==> NoneComesBack(x, order, FirstInFront(m, list, e)))
            && (EndsFrom(z, e') <==> exists rank: map<BlockId, nat> :: e' in rank && E.EndsOn(Whole(z), rank))
  {
    assert forall b | b in order :: b in x.blocks;
    hide *;
    var m := ChainAll(x, order);
    ChainAllFacts(x, order);
    var z, e' := MergeAll(m, list), EntryAfter(m, list, e);
    MergeAllFacts(m, list);
    MergedFacts(m, z, PartsAfter(m, list), list);
    MergeAllEnds(m, list);
    FrontFacts(m, list, e);
    EntryPart(m, list, e);
    GatheredAt(m, z, PartsAfter(m, list), e');
    ChainedEndsIff(x, order, FirstInFront(m, list, e));
    WholeComplete(z);
    N.CompleteWhole(Whole(z));
    T.TraversalEndsIff(Whole(z), e');
    T.RankIff(Whole(z), e');
    FirstEnds(m, list, e);
    EndsFromIs(z, e');
  }

  lemma EndsFromIs(z: Ir, e: BlockId)
    requires Consistent(z)
    ensures EndsFrom(z, e) <==> T.TraversalEnds(Whole(z), e)
  {
  }

  lemma FirstEnds(m: Ir, list: seq<BlockId>, e: BlockId)
    requires Consistent(m) && MergesOk(m, list) && e in m.blocks && Consistent(MergeAll(m, list))
    requires EndsGathered(Whole(m), Whole(MergeAll(m, list)), PartsAfter(m, list))
    ensures T.ChainsEndFrom(Whole(m), FirstInFront(m, list, e)) <==> T.ChainsEndFrom(Whole(MergeAll(m, list)), EntryAfter(m, list, e))
  {
    hide Consistent, MergesOk, PartsAfter, EntryAfter, T.ChainsEndFrom, Whole, MergeAll, FrontOf;
    FrontFacts(m, list, e);
    assert IsRow(m, FrontOf(m, list, e));
  }
}

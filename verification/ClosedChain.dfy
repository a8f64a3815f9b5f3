/** A loop of one block that jumps back to itself: the layout pass makes it a chain closed on itself, and the
    traversal of what the pass leaves never ends. */
module ClosedChain {
  import opened Machine
  import opened Links
  import opened Simulation
  import opened Ir
  import opened IrOps
  import opened FunctionIr
  import opened IrGraph
  import opened IrLoops
  import opened BlockLayout
  import opened LayoutEntry
  import opened LayoutChains
  import B = BlockLayoutPass
  import E = Emission
  import H = Chains
  import N = LayoutEnds

  /** The entry, block 0, branches to block 1 or returns; block 1 does something and jumps to itself. */
  function SelfLoop(work: State -> State, taken: State -> bool): Ir {
    Ir(map[0 := Node([0, 1], None, None, [], [0]), 1 := Node([2, 3], None, None, [0, 1], [1])],
       map[0 := Code(B.Jcc(taken), Some(0)), 1 := Code(B.Return(), None), 2 := Code(B.Work(work), None), 3 := Code(B.BackJump(), Some(1))],
       map[0 := Edge(0, 1, 0), 1 := Edge(1, 1, 3)])
  }

  lemma LoopNodes(work: State -> State, taken: State -> bool)
    ensures NodesOk(SelfLoop(work, taken))
  {
    hide EdgesOf;
    var x := SelfLoop(work, taken);
    B.EdgesOfTwo(x.code, 0, 1);
    B.EdgesOfTwo(x.code, 2, 3);
    assert NodeOk(x, x.blocks[0]) && NodeOk(x, x.blocks[1]);
    hide NodeOk;
  }

  lemma LoopEdges(work: State -> State, taken: State -> bool)
    ensures EdgesOk(SelfLoop(work, taken)) && CodesOk(SelfLoop(work, taken))
  {
    var x := SelfLoop(work, taken);
    forall e | e in x.edges ensures EdgeOk(x, e) { assert e == 0 || e == 1; }
  }

  lemma LoopIncomings(work: State -> State, taken: State -> bool)
    ensures IncomingsOk(SelfLoop(work, taken))
  {
    hide B.Jcc, B.Return, B.Work, B.BackJump;
    var x := SelfLoop(work, taken);
    assert IncomingOk(x, 0) && IncomingOk(x, 1);
    hide IncomingOk;
  }

  lemma LoopLinks(work: State -> State, taken: State -> bool)
    ensures Linked(SelfLoop(work, taken)) && Apart(SelfLoop(work, taken))
  {
    hide B.Jcc, B.Return, B.Work, B.BackJump;
    var x := SelfLoop(work, taken);
    forall b, c | b in x.blocks && c in x.blocks && b != c ensures NoneShared(x.blocks[b].instrs, x.blocks[c].instrs) {
    }
  }

  lemma LoopConsistent(work: State -> State, taken: State -> bool)
    ensures var x := SelfLoop(work, taken);
            Consistent(x) && BranchesBranch(x) && Orderly(x, [0, 1]) && 0 in x.blocks && !DeadEnd(x, 0) && !DeadEnd(x, 1)
  {
    LoopNodes(work, taken);
    LoopEdges(work, taken);
    LoopIncomings(work, taken);
    LoopLinks(work, taken);
    LoopBranches(work, taken);
    hide NodesOk, IncomingsOk, Apart, EdgesOk, CodesOk, Linked, BranchesBranch, B.Jcc, B.Return, B.Work, B.BackJump;
  }

  lemma LoopBranches(work: State -> State, taken: State -> bool)
    ensures BranchesBranch(SelfLoop(work, taken))
  {
    assert PlainBranch(B.Jcc(taken)) && PlainBranch(B.BackJump());
    hide PlainBranch;
  }

  /** The loop is in front of itself when it has been chained. */
  lemma LoopJumps(work: State -> State, taken: State -> bool)
    ensures var x := SelfLoop(work, taken);
            FinalJump(x, 0) == None && FinalJump(x, 1) == Some(1) && PrevsAfter(x, [0, 1]) == map[1 := 1]
  {
    var x := SelfLoop(work, taken);
    assert FinalJump(x, 0) == None && FinalJump(x, 1) == Some(1);
    hide FinalJump;
    assert [0, 1][..1] == [0] && [0][..0] == [];
    forall d ensures FirstJump(x, [0], d) == None && FirstJump(x, [0, 1], d) == (if d == 1 then Some(1) else None) {
      assert FirstJump(x, [], d) == None;
    }
    hide FirstJump;
    assert x.blocks.Keys == {0, 1};
  }

  /** A branch leads to the loop still, so that it is not merged into itself. */
  lemma LoopListed(work: State -> State, taken: State -> bool)
    ensures Listed(SelfLoop(work, taken), [0, 1]) == []
  {
    var x := SelfLoop(work, taken);
    LoopStep(work, taken);
    assert [0, 1][..1] == [0] && [0][..0] == [];
    assert ChainAll(x, []) == x && Listed(x, []) == [];
    assert ChainStep(x, 0) == x && !Noted(x, 0);
    assert ChainAll(x, [0]) == x && Listed(x, [0]) == [];
    hide ChainStep;
    assert !Noted(x, 1);
  }

  lemma LoopStep(work: State -> State, taken: State -> bool)
    ensures var y := ChainStep(SelfLoop(work, taken), 1); 1 in y.blocks && y.blocks[1].next == Some(1) && y.blocks[1].incoming == [0]
  {
    var x := SelfLoop(work, taken);
    assert MayChain(x, 1) && LastOf(x, 1) == 3 && TargetOf(x, 1) == 1;
    hide B.Jcc, B.Return, B.Work, B.BackJump, MayChain, LastOf, TargetOf;
    var y := Link(x, 1, 1);
    assert y.blocks == map[0 := Node([0, 1], None, None, [], [0]), 1 := Node([2, 3], Some(1), Some(1), [0, 1], [1])];
    assert Without([0, 1], 1) == [0] by { assert [0, 1][..1] == [0] && [0][..0] == [] && Without([], 1) == []; }
    var z := DropEdge(y, 1);
    assert z.blocks[1].incoming == [0] && z.blocks[1].next == Some(1);
    hide Link, DropEdge;
    assert ChainStep(x, 1) == DropInstr(z, 1, 3);
  }

  lemma LoopReached(work: State -> State, taken: State -> bool)
    requires Consistent(SelfLoop(work, taken))
    ensures E.Reachable(Whole(SelfLoop(work, taken)), 0, 1)
  {
    hide Consistent, Whole, NodeOk;
    var x := SelfLoop(work, taken);
    WholeBlock(x, 0);
    var f := Whole(x);
    assert f.blocks[0].instrs[0].kind == Branch(Some(1));
    N.EdgeListIff(f.blocks[0].instrs, 1);
    assert N.EdgeAt(f.blocks[0].instrs, 0, 1);
    forall bs | E.ClosedSet(f, bs) && 0 in bs ensures 1 in bs { assert E.Followed(f, 0, bs); }
  }

  /** The pass succeeds on this function, and the traversal of the result from its entry never ends. */
  lemma LayoutNeverTraversed(work: State -> State, taken: State -> bool)
    ensures var x, order := SelfLoop(work, taken), [0, 1];
            var m, list := ChainAll(x, order), Listed(x, order);
            && Consistent(x) && BranchesBranch(x) && Orderly(x, order) && !DeadEnd(x, 0) && !DeadEnd(x, 1) && MergesOk(m, list)
            && Consistent(MergeAll(m, list)) && !EndsFrom(MergeAll(m, list), EntryAfter(m, list, 0))
  {
    hide *;
    LoopConsistent(work, taken);
    LoopJumps(work, taken);
    LoopListed(work, taken);
    LoopReached(work, taken);
    var x, order := SelfLoop(work, taken), [0, 1];
    var m := ChainAll(x, order);
    MergesStart(m, 0);
    LayoutEndsIff(x, order, [], 0);
    LoopFront(work, taken);
    GoesRound();
    ComesBackFails(x, order, 0, 1);
  }

  lemma LoopFront(work: State -> State, taken: State -> bool)
    requires Consistent(ChainAll(SelfLoop(work, taken), [0, 1]))
    ensures FirstInFront(ChainAll(SelfLoop(work, taken), [0, 1]), [], 0) == 0
  {
    hide Consistent, ChainAll, SelfLoop;
    var m := ChainAll(SelfLoop(work, taken), [0, 1]);
    assert EntryAfter(m, [], 0) == 0;
    var w := PartsAfter(m, []);
    assert 0 in w ==> w[0] == [0] && [0][..1] == [0];
  }

  lemma GoesRound()
    ensures H.ComesBack(map[1 := 1], 1)
  {
    assert H.Along(map[1 := 1], 1, 1) == Some(1);
  }

  lemma ComesBackFails(x: Ir, order: seq<BlockId>, e: BlockId, b: BlockId)
    requires Consistent(x) && E.Reachable(Whole(x), e, b) && H.ComesBack(PrevsAfter(x, order), b)
    ensures !NoneComesBack(x, order, e)
  {
  }
}

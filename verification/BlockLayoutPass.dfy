/** The block layout pass: final jumps become fallthroughs, chained blocks are merged. What runs from
    the entry stays the same, unless a block that executes something gets merged into the entry block. */
module BlockLayoutPass {
  import opened Machine
  import opened Links
  import opened Simulation
  import opened FirstExecuted
  import opened Ir
  import opened IrOps
  import opened FunctionIr
  import opened IrGraph
  import opened IrLoops
  import opened BlockLayout
  import opened LayoutEntry
  import opened LayoutChains
  import S = IrSplit
  import G = Surgery

  class BlockLayoutOptimization {
    const fn: Function
    var blocksToMerge: seq<BlockId>

    constructor (fn: Function)
      ensures this.fn == fn && blocksToMerge == []
    {
      this.fn := fn;
      blocksToMerge := [];
    }

    /** Chain a block that ends with a jump; remember a block to be merged. Fails on an empty block
        without a next one. */
    method HandleBlock(b: BlockId) returns (ok: bool)
      requires fn.Valid() && BranchesBranch(fn.I()) && b in fn.blocks
      modifies this`blocksToMerge, fn`blocks, fn`code, fn`edges
      ensures fn.Valid() && BranchesBranch(fn.I()) && fn.blocks.Keys == old(fn.blocks).Keys
      ensures forall e | e in fn.blocks :: SameRuns(Whole(old(fn.I())), e, Whole(fn.I()), e)
      ensures ok <==> !DeadEnd(old(fn.I()), b)
      ensures fn.I() == ChainStep(old(fn.I()), b)
      ensures ok ==> blocksToMerge == old(blocksToMerge) + (if Noted(old(fn.I()), b) then [b] else [])
      ensures !ok ==> blocksToMerge == old(blocksToMerge)
    {
      hide Consistent, Supply, Whole, SameRuns, BranchesBranch, Chainable, ChainedIr;
      ghost var x := fn.I();
      ChainStepFacts(x, b);
      ok := true;
      if fn.blocks[b].instrs == [] {
        if fn.blocks[b].next.None? {
          return false;
        }
        blocksToMerge := blocksToMerge + [b];
        return;
      }
      if fn.blocks[b].next.None? {
        var i := fn.blocks[b].instrs[|fn.blocks[b].instrs| - 1];
        InstrInCode(x, b);
        if !fn.code[i].op.kind.Branch? || fn.code[i].op.hasPredicate || fn.code[i].edge.None? {
          return;
        }
        var d := fn.edges[fn.code[i].edge.value].dst;
        if fn.blocks[d].prev.Some? {
          return;
        }
        MayChainFacts(x, b);
        ChainParts(x, b, i, d);
        fn.ChainTo(b, d);
        fn.RemoveInstruction(b, i);
      }
      if fn.blocks[b].next.Some? {
        NextThere(fn.I(), b);
        if fn.blocks[fn.blocks[b].next.value].incoming == [] {
          blocksToMerge := blocksToMerge + [b];
        }
      }
    }

    method HandleAll(order: seq<BlockId>) returns (ok: bool)
      requires fn.Valid() && BranchesBranch(fn.I()) && blocksToMerge == [] && Orderly(fn.I(), order)
      modifies this`blocksToMerge, fn`blocks, fn`code, fn`edges
      ensures fn.Valid()
      ensures ok <==> forall b | b in order :: !DeadEnd(old(fn.I()), b)
      ensures ok ==> fn.I() == ChainAll(old(fn.I()), order) && blocksToMerge == Listed(old(fn.I()), order)
    {
      hide Consistent, Supply, Whole, SameRuns, BranchesBranch, ChainStep, ChainAll, Noted, Listed;
      ghost var x := fn.I();
      ok := true;
      ChainAllStart(x);
      assert order[..0] == [];
      for n := 0 to |order|
        invariant fn.Valid() && BranchesBranch(fn.I()) && fn.blocks.Keys == x.blocks.Keys
        invariant fn.I() == ChainAll(x, order[..n]) && blocksToMerge == Listed(x, order[..n])
        invariant forall b | b in order[..n] :: !DeadEnd(x, b)
      {
        OrderlyBefore(x, order, n + 1);
        DeadEndsStay(x, order[..n], order[n]);
        ChainAllNext(x, order, n);
        assert order[..n + 1] == order[..n] + [order[n]];
        ok := HandleBlock(order[n]);
        if !ok {
          return;
        }
      }
      assert order[..|order|] == order;
    }

    /** Chain and collect, then merge. Fails on an empty block at the end of a chain, on a merge into a
        block with incoming branches, and on a merge of a block into itself. What runs from the entry
        stays the same exactly if, when the merging starts, the same runs from the entry and from the
        first of the blocks in front of it: always if nothing precedes the entry then or a branch leads
        to it, and otherwise, for an entry that opens with an instruction that executes, if no
        instruction in front of it ever does. What is left can be traversed depth first, with an end, exactly if no
        chain is closed on itself that can be reached from there. */
    method Run(order: seq<BlockId>, e: BlockId) returns (ok: bool, ghost m: Ir, ghost list: seq<BlockId>, ghost e': BlockId)
      requires fn.Valid() && BranchesBranch(fn.I()) && blocksToMerge == [] && fn.entryBlock == Some(e) && e in fn.blocks
      requires Orderly(fn.I(), order)
      modifies this`blocksToMerge, fn`blocks, fn`code, fn`edges, fn`entryBlock
      ensures fn.Valid() && m == ChainAll(old(fn.I()), order) && list == Listed(old(fn.I()), order)
      ensures ok <==> (forall b | b in order :: !DeadEnd(old(fn.I()), b)) && MergesOk(m, list)
      ensures ok ==> fn.I() == MergeAll(m, list) && e' == EntryAfter(m, list, e) && fn.entryBlock == Some(e')
      ensures ok ==> (SameFromEntry(old(fn.I()), e, fn.I(), e') <==> SameFromEntry(m, e, m, FirstInFront(m, list, e)))
      ensures ok && EntryGuarded(m, e) ==> SameFromEntry(old(fn.I()), e, fn.I(), e')
      ensures ok && OpensApart(old(fn.I()), e) ==> (SameFromEntry(old(fn.I()), e, fn.I(), e') <==> FrontNeverExecutes(m, list, e))
      ensures ok && Free(old(fn.I()), e, order) ==> SameFromEntry(old(fn.I()), e, fn.I(), e')
      ensures ok ==> forall b | b in order && EmptyIn(old(fn.I()), b) :: b !in fn.blocks
      ensures ok ==> (EndsFrom(fn.I(), e') <==> NoneComesBack(old(fn.I()), order, FirstInFront(m, list, e)))
    {
      hide Consistent, Supply, Whole, SameRuns, BranchesBranch, Free, S.Merge, S.Mergeable, ChainAll, Listed, MergeAll, EntryAfter, FirstInFront, FrontNeverExecutes, MergesOk, DeadEnd, SameFromEntry, OpensApart, EntryGuarded, Ripe, EndsFrom, NoneComesBack;
      ghost var x := fn.I();
      m, list, e' := ChainAll(x, order), Listed(x, order), e;
      ChainAllFacts(x, order);
      ListedThere(x, order);
      ok := HandleAll(order);
      if !ok {
        return;
      }
      var todo := blocksToMerge;
      blocksToMerge := [];
      MergesStart(m, e);
      assert todo[..0] == [];
      for n := 0 to |todo|
        invariant fn.Valid() && fn.I() == MergeAll(m, todo[..n]) && e' == EntryAfter(m, todo[..n], e)
        invariant fn.entryBlock == Some(e') && MergesOk(m, todo[..n])
      {
        StillThere(m, todo, n);
        var b := todo[n];
        var next := fn.blocks[b].next;
        if next.Some? {
          NextThere(fn.I(), b);
        }
        if next.None? || next.value == b || fn.blocks[next.value].incoming != [] {
          NoMerge(fn.I(), b);
          CannotMerge(m, todo, n);
          return false, m, list, e';
        }
        CanMerge(fn.I(), b);
        MergeAllNext(m, todo, n, e);
        fn.MergeBlockIntoNext(b);
        e' := EntryAfter(m, todo[..n + 1], e);
      }
      assert todo[..|todo|] == todo;
      AllLaid(x, order, list, e);
      LayoutEndsIff(x, order, list, e);
    }
  }

  /** What is noted are blocks of the function, each once. */
  lemma ListedThere(x: Ir, order: seq<BlockId>)
    requires Consistent(x) && BranchesBranch(x) && Orderly(x, order)
    ensures forall b | b in Listed(x, order) :: b in ChainAll(x, order).blocks
    ensures forall j, k | 0 <= j < k < |Listed(x, order)| :: Listed(x, order)[j] != Listed(x, order)[k]
  {
    hide Consistent, BranchesBranch, Listed, ChainAll, Whole, SameRuns, Ripe;
    ListedIsRipe(x, order);
    ChainAllFacts(x, order);
  }

  lemma NoMerge(x: Ir, b: BlockId)
    requires b in x.blocks
    requires x.blocks[b].next.None? || x.blocks[b].next.value == b
      || (x.blocks[b].next.value in x.blocks && x.blocks[x.blocks[b].next.value].incoming != [])
    ensures !S.Mergeable(x, b)
  {
  }

  // ---- a loop back to the entry ----

  function Jcc(taken: State -> bool): Instr { Instr(0, Branch(None), true, G.JUMP_INFO, None, taken, (s: State) => s) }
  function Return(): Instr { Instr(1, Ret, false, G.JUMP_INFO, None, (s: State) => true, (s: State) => s) }
  function Work(work: State -> State): Instr { Instr(2, Plain, false, G.JUMP_INFO, None, (s: State) => true, work) }
  function BackJump(): Instr { Instr(3, Branch(None), false, G.JUMP_INFO, None, (s: State) => true, (s: State) => s) }

  /** The entry, block 0, branches to block 1 or returns; block 1 does something and jumps back to the entry. */
  function LoopedEntry(work: State -> State, taken: State -> bool): Ir {
    Ir(map[0 := Node([0, 1], None, None, [1], [0]), 1 := Node([2, 3], None, None, [0], [1])],
       map[0 := Code(Jcc(taken), Some(0)), 1 := Code(Return(), None), 2 := Code(Work(work), None), 3 := Code(BackJump(), Some(1))],
       map[0 := Edge(0, 1, 0), 1 := Edge(1, 0, 3)])
  }

  /** The jump back has become the fallthrough: no branch leads to the entry any more. */
  function ChainedEntry(work: State -> State, taken: State -> bool): Ir {
    Ir(map[0 := Node([0, 1], None, Some(1), [], [0]), 1 := Node([2], Some(0), None, [0], [])],
       map[0 := Code(Jcc(taken), Some(0)), 1 := Code(Return(), None), 2 := Code(Work(work), None)],
       map[0 := Edge(0, 1, 0)])
  }

  lemma EdgesOfTwo(code: map<NodeId, Code>, i: NodeId, j: NodeId)
    requires i in code && j in code
    ensures EdgesOf(code, [i, j])
              == (if code[i].edge.Some? then [code[i].edge.value] else []) + (if code[j].edge.Some? then [code[j].edge.value] else [])
  {
    assert [i, j][..1] == [i] && [i][..0] == [] && EdgesOf(code, []) == [];
    assert EdgesOf(code, [i]) == [] + (if code[i].edge.Some? then [code[i].edge.value] else []);
  }

  lemma LoopedNodes(work: State -> State, taken: State -> bool)
    ensures NodesOk(LoopedEntry(work, taken))
  {
    hide EdgesOf;
    var x := LoopedEntry(work, taken);
    EdgesOfTwo(x.code, 0, 1);
    EdgesOfTwo(x.code, 2, 3);
    assert NodeOk(x, x.blocks[0]) && NodeOk(x, x.blocks[1]);
    hide NodeOk;
  }

  lemma LoopedEdges(work: State -> State, taken: State -> bool)
    ensures EdgesOk(LoopedEntry(work, taken)) && CodesOk(LoopedEntry(work, taken))
  {
    var x := LoopedEntry(work, taken);
    forall e | e in x.edges ensures EdgeOk(x, e) { assert e == 0 || e == 1; }
  }

  lemma LoopedIncomings(work: State -> State, taken: State -> bool)
    ensures IncomingsOk(LoopedEntry(work, taken))
  {
    hide Jcc, Return, Work, BackJump;
    var x := LoopedEntry(work, taken);
    assert IncomingOk(x, 0) && IncomingOk(x, 1);
    hide IncomingOk;
  }

  lemma LoopedLinks(work: State -> State, taken: State -> bool)
    ensures Linked(LoopedEntry(work, taken))
  {
    hide Jcc, Return, Work, BackJump;
  }

  lemma LoopedApart(work: State -> State, taken: State -> bool)
    ensures Apart(LoopedEntry(work, taken))
  {
    var x := LoopedEntry(work, taken);
    forall b, c | b in x.blocks && c in x.blocks && b != c ensures NoneShared(x.blocks[b].instrs, x.blocks[c].instrs) {
    }
  }

  lemma LoopedBranches(work: State -> State, taken: State -> bool)
    ensures BranchesBranch(LoopedEntry(work, taken))
  {
    var x := LoopedEntry(work, taken);
    assert PlainBranch(Jcc(taken)) && PlainBranch(BackJump());
    hide PlainBranch;
  }

  lemma LoopedConsistent(work: State -> State, taken: State -> bool)
    ensures Consistent(LoopedEntry(work, taken)) && BranchesBranch(LoopedEntry(work, taken))
  {
    LoopedNodes(work, taken);
    LoopedEdges(work, taken);
    LoopedIncomings(work, taken);
    LoopedLinks(work, taken);
    LoopedApart(work, taken);
    LoopedBranches(work, taken);
    hide NodesOk, IncomingsOk, Apart, EdgesOk, CodesOk, Linked, BranchesBranch, LoopedEntry;
  }

  lemma LoopedChains(work: State -> State, taken: State -> bool)
    ensures var x := LoopedEntry(work, taken);
            ChainAll(x, [0, 1]) == ChainedEntry(work, taken) && Listed(x, [0, 1]) == [1]
  {
    var x, m := LoopedEntry(work, taken), ChainedEntry(work, taken);
    assert [0, 1][..1] == [0] && [0][..0] == [];
    assert ChainAll(x, []) == x && Listed(x, []) == [];
    assert ChainStep(x, 0) == x && !Noted(x, 0);
    assert ChainAll(x, [0]) == x && Listed(x, [0]) == [];
    LoopedStep(work, taken);
    assert Noted(x, 1);
    assert Listed(x, [0, 1]) == Listed(x, [0]) + [1];
  }

  /** The back edge is gone. */
  lemma LoopedDrop(work: State -> State, taken: State -> bool)
    ensures var y := Link(LoopedEntry(work, taken), 1, 0);
            && y.blocks.Keys == {0, 1} && y.edges == map[0 := Edge(0, 1, 0), 1 := Edge(1, 0, 3)] && y.code == LoopedEntry(work, taken).code
            && DropEdge(y, 1) == Ir(map[0 := Node([0, 1], None, Some(1), [], [0]), 1 := Node([2, 3], Some(0), None, [0], [])],
                                    y.code[3 := Code(BackJump(), None)], map[0 := Edge(0, 1, 0)])
  {
    hide Jcc, Return, Work, BackJump;
    var y := Link(LoopedEntry(work, taken), 1, 0);
    assert y.blocks == map[0 := Node([0, 1], None, Some(1), [1], [0]), 1 := Node([2, 3], Some(0), None, [0], [1])];
    assert Without([1], 1) == [] by { assert [1][..0] == []; }
    var z := DropEdge(y, 1);
    assert z.blocks == map[0 := Node([0, 1], None, Some(1), [], [0]), 1 := Node([2, 3], Some(0), None, [0], [])];
    assert z.edges == map[0 := Edge(0, 1, 0)];
  }

  lemma LoopedStep(work: State -> State, taken: State -> bool)
    ensures ChainStep(LoopedEntry(work, taken), 1) == ChainedEntry(work, taken)
  {
    var x, m := LoopedEntry(work, taken), ChainedEntry(work, taken);
    assert MayChain(x, 1) && LastOf(x, 1) == 3 && TargetOf(x, 1) == 0;
    LoopedDrop(work, taken);
    hide Link, DropEdge, Jcc, Return, Work, BackJump, MayChain, LastOf, TargetOf;
    assert Without([2, 3], 3) == [2] by { assert [2, 3][..1] == [2] && [2][..0] == [] && Without([], 3) == []; }
    assert DropInstr(DropEdge(Link(x, 1, 0), 1), 1, 3) == m;
  }

  /** Merging block 1 is in order, and puts it in front of the entry. */
  lemma LoopedMerges(work: State -> State, taken: State -> bool)
    ensures var m := ChainedEntry(work, taken);
            MergesOk(m, [1]) && EntryAfter(m, [1], 0) == 0 && FrontOf(m, [1], 0) == [1, 0]
  {
    var m := ChainedEntry(work, taken);
    assert [1][..0] == [];
    assert MergeAll(m, []) == m && EntryAfter(m, [], 0) == 0;
    assert PartsAfter(m, []) == map[0 := [0], 1 := [1]];
    assert PartsAfter(m, [1]) == PartsStep(m, 1, PartsAfter(m, []));
    var w: Parts := map[0 := [0], 1 := [1]];
    assert w[1] + w[0] == [1, 0];
    assert PartsStep(m, 1, w) == w[0 := [1, 0]] - {1};
    assert PartsAfter(m, [1]) == w[0 := [1, 0]] - {1};
    assert 0 in PartsAfter(m, [1]) && PartsAfter(m, [1])[0] == [1, 0];
    assert MergeAll(m, []) == m && [1][|[1]| - 1] == 1 && EntryStep(m, 1, 0) == 0;
    assert EntryAfter(m, [1], 0) == 0;
    assert [1, 0][..2] == [1, 0];
  }

  /** The graph before the merging. */
  function ChainedGraph(work: State -> State, taken: State -> bool): Cfg {
    Cfg(map[0 := Block([Jcc(taken).(kind := Branch(Some(1))), Return()], None, Some(1), []),
            1 := Block([Work(work)], Some(0), None, [])])
  }

  /** From the entry and from block 1 runs the same in a state exactly if the branch is taken in it. */
  lemma LoopedSame(work: State -> State, taken: State -> bool, s: State)
    ensures var g := ChainedGraph(work, taken); G.SameFrom(g, g, At(0, 0, s), At(1, 0, s)) <==> taken(s)
  {
    var g := ChainedGraph(work, taken);
    var e, q, m := At(0, 0, s), At(1, 0, s), Graph(g);
    assert Step(g, e) == (if taken(s) then q else At(0, 1, s)) && Recorded(g, e) == [];
    assert Recorded(g, q) == [Ran(Work(work), s)] && Recorded(g, At(0, 1, s)) == [Ran(Return(), s)];
    GoOne(m, e);
    if taken(s) {
      assert MeetAt(g, 1, e, 0, q);
      MeetSame(g, e, q);
    } else if G.SameFrom(g, g, e, q) {
      GoOne(m, q);
      assert Keeps(m, 1, q, m, e);
      var n: nat :| SameSoFar(m, 1, q, m, n, e);
      NotWork(g, n, e, At(0, 1, s), Ran(Return(), s));
      assert false;
    }
  }

  /** A step that executes nothing, and then one that executes this. */
  lemma NotWork(g: Cfg, n: nat, e: Config, c: Config, r: Executed)
    requires Step(g, e) == c && Recorded(g, e) == [] && Recorded(g, c) == [r]
    ensures Log(Graph(g), n, e) == [] || Log(Graph(g), n, e)[0] == r
  {
    if n > 1 {
      assert Log(Graph(g), n, e) == Recorded(g, e) + Log(Graph(g), n - 1, c);
      assert Log(Graph(g), n - 1, c) == [r] + Log(Graph(g), n - 2, Step(g, c));
    }
  }

  lemma LoopedOps(work: State -> State, taken: State -> bool)
    ensures var m := ChainedEntry(work, taken);
            && OpsOf(m, [0, 1]) == [Jcc(taken).(kind := Branch(Some(1))), Return()] && OpsOf(m, [2]) == [Work(work)]
  {
  }

  lemma LoopedWhole(work: State -> State, taken: State -> bool)
    requires Consistent(ChainedEntry(work, taken))
    ensures Whole(ChainedEntry(work, taken)) == ChainedGraph(work, taken)
  {
    hide Consistent, Whole, OpsOf, Jcc, Return, Work, NodeOk;
    var m := ChainedEntry(work, taken);
    WholeBlock(m, 0);
    WholeBlock(m, 1);
    LoopedOps(work, taken);
    SameGraph(Whole(m), ChainedGraph(work, taken));
  }

  /** The pass handles both blocks, chains block 1 to the entry and merges it into the entry. The work is
      done first then: what runs from the entry is the same only if the branch to block 1 is always taken. */
  lemma EntryMergeBreaks(work: State -> State, taken: State -> bool)
    ensures var x, order := LoopedEntry(work, taken), [0, 1];
            var m, list := ChainAll(x, order), Listed(x, order);
            && Consistent(x) && BranchesBranch(x) && Orderly(x, order) && !DeadEnd(x, 0) && !DeadEnd(x, 1) && MergesOk(m, list)
            && (SameFromEntry(x, 0, MergeAll(m, list), EntryAfter(m, list, 0)) <==> forall s: State :: taken(s))
  {
    hide *;
    LoopedConsistent(work, taken);
    LoopedChains(work, taken);
    LoopedMerges(work, taken);
    LoopedOrderly(work, taken);
    var x, m := LoopedEntry(work, taken), ChainedEntry(work, taken);
    AllLaid(x, [0, 1], [1], 0);
    ChainAllFacts(x, [0, 1]);
    LoopedWhole(work, taken);
    FirstIs(m, [1], 0, [1, 0]);
    SameIs(m, 0, 1);
    if forall s: State :: taken(s) {
      forall s: State ensures G.SameFrom(Whole(m), Whole(m), At(0, 0, s), At(1, 0, s)) { LoopedSame(work, taken, s); }
    }
    if forall s: State :: G.SameFrom(Whole(m), Whole(m), At(0, 0, s), At(1, 0, s)) {
      forall s: State ensures taken(s) { LoopedSame(work, taken, s); }
    }
  }

  lemma LoopedOrderly(work: State -> State, taken: State -> bool)
    ensures var x := LoopedEntry(work, taken); Orderly(x, [0, 1]) && !DeadEnd(x, 0) && !DeadEnd(x, 1) && 0 in x.blocks && 1 in x.blocks
  {
  }

  lemma FirstIs(m: Ir, list: seq<BlockId>, e: BlockId, p: seq<BlockId>)
    requires FrontOf(m, list, e) == p && p != []
    ensures FirstInFront(m, list, e) == p[0]
  {
  }

  lemma SameIs(m: Ir, e: BlockId, q: BlockId)
    requires Consistent(m)
    ensures SameFromEntry(m, e, m, q) <==> forall s: State :: G.SameFrom(Whole(m), Whole(m), At(e, 0, s), At(q, 0, s))
  {
    hide Consistent, Whole;
  }
}

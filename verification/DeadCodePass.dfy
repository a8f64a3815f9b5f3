/** The dead code elimination pass itself, and what it leaves of a function from the first analysis on. */
module DeadCodePass {
  import opened Machine
  import opened Links
  import opened Simulation
  import opened DeadCode
  import D = DeadWrite
  import W = DeadWritePass
  import L = Liveness
  import S = StackAnalysis
  import P = StackAnalysisPass
  import A = LivenessPass
  import G = Generated
  import C = Cleaned

  // ---- taking things out of a graph ----

  /** The block does not fall through any more. */
  function Unlink(g: Cfg, b: BlockId): Cfg
    requires b in g.blocks
  {
    match g.blocks[b].next
    case None => g
    case Some(n) =>
      Cfg(map c | c in g.blocks ::
        g.blocks[c].(next := if c == b then None else g.blocks[c].next, prev := if c == n then None else g.blocks[c].prev))
  }

  function SharpenOne(instrs: seq<Instr>, id: InstrId): (r: seq<Instr>)
    ensures |r| == |instrs|
  {
    seq(|instrs|, k requires 0 <= k < |instrs| => if instrs[k].id == id then Sharpen(instrs[k]) else instrs[k])
  }

  /** A conditional branch of the block becomes a jump and the end of the block. */
  function Convert(g: Cfg, id: InstrId, b: BlockId): Cfg
    requires b in g.blocks
  {
    var g1 := Unlink(g, b);
    Cfg(g1.blocks[b := g1.blocks[b].(instrs := SharpenOne(g1.blocks[b].instrs, id))])
  }

  function DetachAll(instrs: seq<Instr>, gone: set<BlockId>): (r: seq<Instr>)
    ensures |r| == |instrs|
  {
    seq(|instrs|, k requires 0 <= k < |instrs| => Detach(instrs[k], gone))
  }

  function Without(bs: seq<BlockId>, b: BlockId): seq<BlockId> {
    if bs == [] then [] else (if bs[0] == b then [] else [bs[0]]) + Without(bs[1..], b)
  }

  /** The block goes with its instructions and all edges; its neighbours in the chain meet. */
  function RemoveBlock(g: Cfg, b: BlockId): Cfg
    requires b in g.blocks
  {
    var gone := g.blocks[b];
    Cfg(map c | c in g.blocks && c != b ::
      Block(
        DetachAll(g.blocks[c].instrs, {b}),
        if gone.prev == Some(c) then gone.next else g.blocks[c].next,
        if gone.next == Some(c) then gone.prev else g.blocks[c].prev,
        Without(g.blocks[c].incoming, b)))
  }

  lemma ConvertChained(g: Cfg, id: InstrId, b: BlockId)
    requires Chained(g) && b in g.blocks
    ensures Chained(Convert(g, id, b))
  {
    hide Convert;
    var h := Convert(g, id, b);
    ConvertKeys(g, id, b);
    forall c | c in h.blocks ensures ConvertLinks(g, h, b, c) { ConvertedLinks(g, id, b, c); }
  }

  lemma ConvertKeys(g: Cfg, id: InstrId, b: BlockId)
    requires b in g.blocks
    ensures Convert(g, id, b).blocks.Keys == g.blocks.Keys
  {
  }

  /** Only the link behind the block is gone. */
  ghost predicate ConvertLinks(g: Cfg, h: Cfg, b: BlockId, c: BlockId)
    requires b in g.blocks && c in g.blocks && c in h.blocks
  {
    && h.blocks[c].next == (if c == b then None else g.blocks[c].next)
    && h.blocks[c].prev == (if g.blocks[b].next == Some(c) then None else g.blocks[c].prev)
  }

  lemma ConvertedLinks(g: Cfg, id: InstrId, b: BlockId, c: BlockId)
    requires b in g.blocks && c in g.blocks
    ensures c in Convert(g, id, b).blocks && ConvertLinks(g, Convert(g, id, b), b, c)
  {
  }

  lemma RemoveChained(g: Cfg, b: BlockId)
    requires Chained(g) && b in g.blocks
    ensures Chained(RemoveBlock(g, b))
  {
  }

  // ---- the three loops of the pass ----

  function SureIds(blocks: map<BlockId, seq<Instr>>, dyn: map<InstrId, TriState>): set<InstrId> {
    set b, k | b in blocks && 0 <= k < |blocks[b]| && Sure(blocks[b][k], dyn) :: blocks[b][k].id
  }

  function ListIds(blocks: map<BlockId, seq<Instr>>): set<InstrId> {
    set b, k | b in blocks && 0 <= k < |blocks[b]| :: blocks[b][k].id
  }

  function EntryLists(f: Cfg, entries: set<BlockId>): (lists: map<BlockId, seq<Instr>>)
    ensures lists.Keys == f.blocks.Keys * entries
  {
    map b | b in f.blocks && b in entries :: f.blocks[b].instrs
  }

  function WithLists(f: Cfg, lists: map<BlockId, seq<Instr>>): Cfg {
    Cfg(map b | b in f.blocks :: f.blocks[b].(instrs := if b in lists then lists[b] else f.blocks[b].instrs))
  }

  /** f with these branches converted so far. */
  ghost predicate Converted(f: Cfg, g: Cfg, done: seq<(InstrId, BlockId)>) {
    && g.blocks.Keys == f.blocks.Keys && Chained(g)
    && forall b | b in f.blocks :: BlockConverted(f, g, done, b)
  }

  predicate Touched(done: seq<(InstrId, BlockId)>, b: BlockId) {
    exists p | p in done :: p.1 == b
  }

  ghost predicate BlockConverted(f: Cfg, g: Cfg, done: seq<(InstrId, BlockId)>, b: BlockId)
    requires b in f.blocks && b in g.blocks
  {
    && |g.blocks[b].instrs| == |f.blocks[b].instrs|
    && (forall k | 0 <= k < |f.blocks[b].instrs| ::
          g.blocks[b].instrs[k]
            == if (f.blocks[b].instrs[k].id, b) in done then Sharpen(f.blocks[b].instrs[k]) else f.blocks[b].instrs[k])
    && g.blocks[b].next == (if Touched(done, b) then None else f.blocks[b].next)
  }

  lemma ConvertNext(f: Cfg, g: Cfg, done: seq<(InstrId, BlockId)>, id: InstrId, b: BlockId)
    requires Converted(f, g, done) && b in f.blocks
    ensures Converted(f, Convert(g, id, b), done + [(id, b)])
  {
    ConvertChained(g, id, b);
    var g', done' := Convert(g, id, b), done + [(id, b)];
    assert (id, b) in done';
    forall c | c in f.blocks ensures BlockConverted(f, g', done', c) {
      assert BlockConverted(f, g, done, c);
      assert Touched(done', c) <==> Touched(done, c) || c == b;
    }
  }

  /** f with these blocks taken out so far. */
  lemma NothingConverted(f: Cfg)
    requires Chained(f)
    ensures Converted(f, f, [])
  {
    forall b | b in f.blocks ensures BlockConverted(f, f, [], b) {
    }
  }

  lemma ConvertedKeys(f: Cfg, g: Cfg, done: seq<(InstrId, BlockId)>)
    requires Converted(f, g, done)
    ensures g.blocks.Keys == f.blocks.Keys
  {
  }

  ghost predicate TakenOut(f: Cfg, g: Cfg, gone: set<BlockId>) {
    && g.blocks.Keys == f.blocks.Keys - gone && Chained(g)
    && forall b | b in g.blocks ::
         && g.blocks[b].instrs == DetachAll(f.blocks[b].instrs, gone)
         && (f.blocks[b].next.None? ==> g.blocks[b].next.None?)
         && (f.blocks[b].next.Some? && f.blocks[b].next.value !in gone ==> g.blocks[b].next == f.blocks[b].next)
  }

  lemma TakeOutNext(f: Cfg, g: Cfg, gone: set<BlockId>, b: BlockId)
    requires TakenOut(f, g, gone) && b in g.blocks
    ensures TakenOut(f, RemoveBlock(g, b), gone + {b})
  {
    RemoveChained(g, b);
    var g' := RemoveBlock(g, b);
    RemoveKeys(g, b);
    hide Chained;
    forall c | c in g'.blocks ensures Detached(f, g', gone + {b}, c) { DetachNext(f, g, gone, b, c); }
  }

  lemma RemoveKeys(g: Cfg, b: BlockId)
    requires b in g.blocks
    ensures RemoveBlock(g, b).blocks.Keys == g.blocks.Keys - {b}
  {
  }

  /** Branches into the blocks that are gone, and the block's link if it led there, are gone as well. */
  ghost predicate Detached(f: Cfg, g: Cfg, gone: set<BlockId>, b: BlockId) {
    b in f.blocks && b in g.blocks
    && g.blocks[b].instrs == DetachAll(f.blocks[b].instrs, gone)
    && (f.blocks[b].next.None? ==> g.blocks[b].next.None?)
    && (f.blocks[b].next.Some? && f.blocks[b].next.value !in gone ==> g.blocks[b].next == f.blocks[b].next)
  }

  lemma DetachNext(f: Cfg, g: Cfg, gone: set<BlockId>, b: BlockId, c: BlockId)
    requires TakenOut(f, g, gone) && b in g.blocks && c in g.blocks && c != b
    ensures Detached(f, RemoveBlock(g, b), gone + {b}, c)
  {
  }

  lemma TakenOutKeys(f: Cfg, g: Cfg, gone: set<BlockId>)
    requires TakenOut(f, g, gone)
    ensures g.blocks.Keys == f.blocks.Keys - gone
  {
  }

  lemma NothingTakenOut(f: Cfg)
    requires Chained(f)
    ensures TakenOut(f, f, {})
  {
    forall b | b in f.blocks ensures f.blocks[b].instrs == DetachAll(f.blocks[b].instrs, {}) {
    }
  }

  class DeadCodeElimination {
    const dyn: map<InstrId, TriState>
    const entries: set<BlockId>      // blocks with an entry state
    var graph: Cfg
    var instructionsToDelete: seq<(InstrId, BlockId)>
    var condBranchesToConvert: seq<(InstrId, BlockId)>
    var blocksToDelete: seq<BlockId>

    constructor (f: Cfg, dyn: map<InstrId, TriState>, entries: set<BlockId>)
      ensures graph == f && this.dyn == dyn && this.entries == entries
      ensures instructionsToDelete == [] && condBranchesToConvert == [] && blocksToDelete == []
    {
      graph, this.dyn, this.entries := f, dyn, entries;
      instructionsToDelete, condBranchesToConvert, blocksToDelete := [], [], [];
    }

    method HandleInstruction(i: Instr, b: BlockId)
      modifies this`instructionsToDelete, this`condBranchesToConvert
      ensures instructionsToDelete == old(instructionsToDelete) + (if i.id in Survivors(dyn) then [] else [(i.id, b)])
      ensures condBranchesToConvert == old(condBranchesToConvert) + (if Sure(i, dyn) then [(i.id, b)] else [])
    {
      if i.id !in dyn || dyn[i.id] == False {
        instructionsToDelete := instructionsToDelete + [(i.id, b)];
      } else if i.kind.Branch? && i.hasPredicate && dyn[i.id] == True {
        condBranchesToConvert := condBranchesToConvert + [(i.id, b)];
      }
    }

    ghost predicate Collected(blocks: map<BlockId, seq<Instr>>, done: set<BlockId>, b: BlockId, k: nat)
      reads this
    {
      && W.Collected(blocks, Survivors(dyn), instructionsToDelete, done, b, k)
      && W.Collected(blocks, ListIds(blocks) - SureIds(blocks, dyn), condBranchesToConvert, done, b, k)
    }

    method HandleBlock(b: BlockId, ghost done: set<BlockId>)
      requires b in graph.blocks && b !in done && W.UniqueIn(EntryLists(graph, entries))
      requires Collected(EntryLists(graph, entries), done, 0, 0)
      modifies this`instructionsToDelete, this`condBranchesToConvert, this`blocksToDelete
      ensures blocksToDelete == old(blocksToDelete) + if b in entries then [] else [b]
      ensures Collected(EntryLists(graph, entries), if b in entries then done + {b} else done, 0, 0)
    {
      if b !in entries {
        blocksToDelete := blocksToDelete + [b];
        return;
      }
      var instrs := graph.blocks[b].instrs;
      ghost var lists := EntryLists(graph, entries);
      StartBlock(lists, Survivors(dyn), instructionsToDelete, done, b);
      StartBlock(lists, ListIds(lists) - SureIds(lists, dyn), condBranchesToConvert, done, b);
      for k := 0 to |instrs|
        invariant Collected(lists, done, b, k) && blocksToDelete == old(blocksToDelete)
      {
        W.CollectNext(lists, Survivors(dyn), instructionsToDelete, done, b, k);
        W.CollectNext(lists, ListIds(lists) - SureIds(lists, dyn), condBranchesToConvert, done, b, k);
        SureById(lists, dyn, b, k);
        HandleInstruction(instrs[k], b);
      }
      EndBlock(lists, Survivors(dyn), instructionsToDelete, done, b);
      EndBlock(lists, ListIds(lists) - SureIds(lists, dyn), condBranchesToConvert, done, b);
    }

    /** removeInstruction: find it, erase it; not to find it is an error. */
    method RemoveInstruction(b: BlockId, id: InstrId)
      requires b in graph.blocks && id in Ids(graph.blocks[b].instrs)
      modifies this`graph
      ensures graph == Cfg(old(graph).blocks[b := old(graph).blocks[b].(instrs := W.Erase(old(graph).blocks[b].instrs, id))])
    {
      var instrs := graph.blocks[b].instrs;
      var k := 0;
      while instrs[k].id != id
        invariant k < |instrs| && forall j | 0 <= j < k :: instrs[j].id != id
        decreases |instrs| - k
      {
        k := k + 1;
      }
      assert instrs == instrs[..k] + instrs[k..];
      W.EraseAppend(instrs[..k], instrs[k..], id);
      graph := Cfg(graph.blocks[b := graph.blocks[b].(instrs := instrs[..k] + instrs[k + 1..])]);
    }

    method DeleteInstructions(ghost lists: map<BlockId, seq<Instr>>)
      requires lists == EntryLists(graph, entries) && W.UniqueIn(lists)
      requires W.Collected(lists, Survivors(dyn), instructionsToDelete, lists.Keys, 0, 0)
      modifies this`graph, this`instructionsToDelete
      ensures graph == WithLists(old(graph), W.FilterAll(lists, Survivors(dyn)))
      ensures instructionsToDelete == []
    {
      ghost var f := graph;
      var gone := instructionsToDelete;
      ghost var now := lists;
      W.NothingErased(lists);
      assert gone[..0] == [];
      for m := 0 to |gone|
        invariant W.Erased(lists, now, W.FirstIds(gone[..m])) && graph == WithLists(f, now)
      {
        var (id, b) := gone[m];
        W.EraseNext(lists, Survivors(dyn), gone, m, now);
        hide W.Collected, W.Erased, W.UniqueIn;
        RemoveInstruction(b, id);
        WithOneList(f, now, b, W.Erase(now[b], id));
        now := now[b := W.Erase(now[b], id)];
      }
      assert gone[..|gone|] == gone;
      W.AllDoomedErased(lists, now, Survivors(dyn), gone);
      instructionsToDelete := [];
    }

    method ConvertBranches()
      requires Chained(graph) && forall p | p in condBranchesToConvert :: p.1 in graph.blocks
      modifies this`graph, this`condBranchesToConvert
      ensures Converted(old(graph), graph, old(condBranchesToConvert)) && condBranchesToConvert == []
    {
      hide Converted, Convert, Chained;
      ghost var f := graph;
      var conv := condBranchesToConvert;
      NothingConverted(f);
      assert conv[..0] == [];
      for m := 0 to |conv|
        invariant Converted(f, graph, conv[..m])
      {
        var (id, b) := conv[m];
        assert conv[m] in conv && conv[..m + 1] == conv[..m] + [(id, b)];
        ConvertNext(f, graph, conv[..m], id, b);
        ConvertedKeys(f, graph, conv[..m]);
        graph := Convert(graph, id, b);
      }
      assert conv[..|conv|] == conv;
      condBranchesToConvert := [];
    }

    method RemoveBlocks()
      requires Chained(graph) && Members(blocksToDelete) <= graph.blocks.Keys
      requires forall i, j | 0 <= i < j < |blocksToDelete| :: blocksToDelete[i] != blocksToDelete[j]
      modifies this`graph, this`blocksToDelete
      ensures TakenOut(old(graph), graph, Members(old(blocksToDelete))) && blocksToDelete == []
    {
      hide TakenOut, RemoveBlock, Chained;
      ghost var f := graph;
      var gone := blocksToDelete;
      NothingTakenOut(f);
      assert Members(gone[..0]) == {};
      for m := 0 to |gone|
        invariant TakenOut(f, graph, Members(gone[..m]))
      {
        var b := gone[m];
        assert b in Members(gone) && gone[..m + 1] == gone[..m] + [b];
        assert Members(gone[..m + 1]) == Members(gone[..m]) + {b};
        assert b !in Members(gone[..m]);
        TakenOutKeys(f, graph, Members(gone[..m]));
        TakeOutNext(f, graph, Members(gone[..m]), b);
        graph := RemoveBlock(graph, b);
      }
      assert gone[..|gone|] == gone;
      blocksToDelete := [];
    }

    method CollectAll(order: seq<BlockId>)
      requires UniqueIds(graph) && entries <= graph.blocks.Keys
      requires Members(order) == graph.blocks.Keys && forall i, j | 0 <= i < j < |order| :: order[i] != order[j]
      requires instructionsToDelete == condBranchesToConvert == [] && blocksToDelete == []
      modifies this`instructionsToDelete, this`condBranchesToConvert, this`blocksToDelete
      ensures Collected(EntryLists(graph, entries), entries, 0, 0)
      ensures Members(blocksToDelete) == graph.blocks.Keys - entries
      ensures forall i, j | 0 <= i < j < |blocksToDelete| :: blocksToDelete[i] != blocksToDelete[j]
    {
      ghost var lists := EntryLists(graph, entries);
      EntryListsUnique(graph, entries);
      NothingCollected(lists, Survivors(dyn));
      NothingCollected(lists, ListIds(lists) - SureIds(lists, dyn));
      hide UniqueIds, W.UniqueIn, W.Collected, EntryLists, Survivors, ListIds, SureIds;
      assert Members(order[..0]) * entries == {};
      for n := 0 to |order|
        invariant Collected(lists, Members(order[..n]) * entries, 0, 0)
        invariant Members(blocksToDelete) == Members(order[..n]) - entries
        invariant forall i, j | 0 <= i < j < |blocksToDelete| :: blocksToDelete[i] != blocksToDelete[j]
      {
        var b := order[n];
        assert order[..n + 1] == order[..n] + [b];
        assert b in Members(order) && b !in Members(order[..n]);
        assert Members(order[..n + 1]) == Members(order[..n]) + {b};
        ghost var before := blocksToDelete;
        HandleBlock(b, Members(order[..n]) * entries);
        assert Members(before + [b]) == Members(before) + {b};
        assert forall i | 0 <= i < |before| :: before[i] in Members(before);
        assert Members(order[..n + 1]) * entries
               == if b in entries then Members(order[..n]) * entries + {b} else Members(order[..n]) * entries;
      }
      assert order[..|order|] == order;
      assert Members(order) * entries == entries;
    }

    /** Collect, then delete instructions, convert branches and remove blocks, in this order. */
    method Run(order: seq<BlockId>)
      requires Chained(graph) && UniqueIds(graph) && entries <= graph.blocks.Keys
      requires Members(order) == graph.blocks.Keys && forall i, j | 0 <= i < j < |order| :: order[i] != order[j]
      requires instructionsToDelete == condBranchesToConvert == [] && blocksToDelete == []
      modifies this
      ensures Shaped(old(graph), dyn, entries, graph) && Chained(graph) && C.LeftOver(old(graph), dyn, entries, graph)
      ensures instructionsToDelete == condBranchesToConvert == [] && blocksToDelete == []
    {
      ghost var f, lists := graph, EntryLists(graph, entries);
      CollectAll(order);
      ghost var conv, gone := condBranchesToConvert, blocksToDelete;
      ConvertibleBlocks(lists, ListIds(lists) - SureIds(lists, dyn), conv);
      DeleteInstructions(lists);
      ghost var f1 := graph;
      ConvertBranches();
      ghost var f2 := graph;
      RemoveBlocks();
      ResultShaped(f, dyn, entries, conv, f1, f2, graph);
      hide Shaped, C.LeftOver;
      C.ShapedLeaves(f, dyn, entries, graph);
    }
  }

  lemma WithOneList(f: Cfg, lists: map<BlockId, seq<Instr>>, b: BlockId, l: seq<Instr>)
    requires b in lists && b in f.blocks
    ensures Cfg(WithLists(f, lists).blocks[b := WithLists(f, lists).blocks[b].(instrs := l)]) == WithLists(f, lists[b := l])
  {
  }

  lemma ConvertibleBlocks(blocks: map<BlockId, seq<Instr>>, keep: set<InstrId>, conv: seq<(InstrId, BlockId)>)
    requires W.Collected(blocks, keep, conv, blocks.Keys, 0, 0)
    ensures forall p | p in conv :: p.1 in blocks
  {
    forall p | p in conv ensures p.1 in blocks {
      assert W.Doomed(blocks, keep, blocks.Keys, 0, 0, p);
    }
  }

  lemma EntryListsUnique(f: Cfg, entries: set<BlockId>)
    requires UniqueIds(f)
    ensures W.UniqueIn(EntryLists(f, entries))
  {
    hide Ids, DistinctIds;
  }

  lemma NothingCollected(blocks: map<BlockId, seq<Instr>>, keep: set<InstrId>)
    ensures W.Collected(blocks, keep, [], {}, 0, 0)
  {
  }

  lemma StartBlock(blocks: map<BlockId, seq<Instr>>, keep: set<InstrId>, gone: seq<(InstrId, BlockId)>, done: set<BlockId>, b: BlockId)
    requires W.Collected(blocks, keep, gone, done, 0, 0) && b in blocks
    ensures W.Collected(blocks, keep, gone, done, b, 0)
  {
    forall p ensures p in gone <==> W.Doomed(blocks, keep, done, b, 0, p) {
      assert p in gone <==> W.Doomed(blocks, keep, done, 0, 0, p);
    }
  }

  lemma EndBlock(blocks: map<BlockId, seq<Instr>>, keep: set<InstrId>, gone: seq<(InstrId, BlockId)>, done: set<BlockId>, b: BlockId)
    requires b in blocks && b !in done && W.Collected(blocks, keep, gone, done, b, |blocks[b]|)
    ensures W.Collected(blocks, keep, gone, done + {b}, 0, 0)
  {
    assert blocks[b][..|blocks[b]|] == blocks[b];
    forall p ensures p in gone <==> W.Doomed(blocks, keep, done + {b}, 0, 0, p) {
      assert p in gone <==> W.Doomed(blocks, keep, done, b, |blocks[b]|, p);
    }
  }

  /** Within lists of unique ids, the id tells whether a branch is to be converted. */
  lemma SureById(blocks: map<BlockId, seq<Instr>>, dyn: map<InstrId, TriState>, b: BlockId, k: nat)
    requires W.UniqueIn(blocks) && b in blocks && k < |blocks[b]|
    ensures Sure(blocks[b][k], dyn) <==> blocks[b][k].id in SureIds(blocks, dyn)
    ensures blocks[b][k].id in ListIds(blocks)
  {
    var id := blocks[b][k].id;
    if id in SureIds(blocks, dyn) {
      var c, j :| c in blocks && 0 <= j < |blocks[c]| && Sure(blocks[c][j], dyn) && blocks[c][j].id == id;
      assert id in Ids(blocks[b]) && id in Ids(blocks[c]);
    }
  }

  lemma ResultShaped(f: Cfg, dyn: map<InstrId, TriState>, entries: set<BlockId>, conv: seq<(InstrId, BlockId)>, f1: Cfg, f2: Cfg, g: Cfg)
    requires UniqueIds(f) && entries <= f.blocks.Keys
    requires var lists := EntryLists(f, entries);
             && f1 == WithLists(f, W.FilterAll(lists, Survivors(dyn)))
             && W.Collected(lists, ListIds(lists) - SureIds(lists, dyn), conv, entries, 0, 0)
    requires Converted(f1, f2, conv) && TakenOut(f2, g, f.blocks.Keys - entries)
    ensures Shaped(f, dyn, entries, g)
  {
    assert g.blocks.Keys == entries;
    hide UniqueIds, W.Collected, W.FilterAll, Converted, TakenOut, BlockShaped;
    forall b | b in entries ensures BlockShaped(f, dyn, entries, g, b) {
      BlockResult(f, dyn, entries, conv, f1, f2, g, b);
    }
  }

  lemma ListAt(f: Cfg, entries: set<BlockId>, b: BlockId)
    requires b in f.blocks && b in entries
    ensures b in EntryLists(f, entries) && EntryLists(f, entries)[b] == f.blocks[b].instrs
  {
  }

  lemma BlockResult(f: Cfg, dyn: map<InstrId, TriState>, entries: set<BlockId>, conv: seq<(InstrId, BlockId)>, f1: Cfg, f2: Cfg, g: Cfg, b: BlockId)
    requires UniqueIds(f) && b in entries && entries <= f.blocks.Keys
    requires var lists := EntryLists(f, entries);
             && f1 == WithLists(f, W.FilterAll(lists, Survivors(dyn)))
             && W.Collected(lists, ListIds(lists) - SureIds(lists, dyn), conv, entries, 0, 0)
    requires Converted(f1, f2, conv) && TakenOut(f2, g, f.blocks.Keys - entries)
    ensures b in g.blocks && BlockShaped(f, dyn, entries, g, b)
  {
    hide W.Collected, SureIds, ListIds, UniqueIds, HasSure, Sure, Touched, Sharpen, Detach, Survivors, Chained, EntryLists;
    var gone, left := f.blocks.Keys - entries, D.Filter(f.blocks[b].instrs, Survivors(dyn));
    TouchedIffSure(f, dyn, entries, conv, b);
    forall k | 0 <= k < |left| ensures (left[k].id, b) in conv <==> Sure(left[k], dyn) {
      SureListed(f, dyn, entries, conv, b, k);
    }
    ListAt(f, entries, b);
    assert f1.blocks[b] == f.blocks[b].(instrs := left);
    assert BlockConverted(f1, f2, conv, b);
    assert g.blocks[b].instrs == DetachAll(f2.blocks[b].instrs, gone);
    forall k | 0 <= k < |left| ensures g.blocks[b].instrs[k] == Final(left[k], dyn, gone) {
      assert (left[k].id, b) in conv <==> Sure(left[k], dyn);
    }
  }

  lemma SureListed(f: Cfg, dyn: map<InstrId, TriState>, entries: set<BlockId>, conv: seq<(InstrId, BlockId)>, b: BlockId, k: nat)
    requires UniqueIds(f) && b in entries && entries <= f.blocks.Keys
    requires var lists := EntryLists(f, entries);
             W.Collected(lists, ListIds(lists) - SureIds(lists, dyn), conv, entries, 0, 0)
    requires k < |D.Filter(f.blocks[b].instrs, Survivors(dyn))|
    ensures var i := D.Filter(f.blocks[b].instrs, Survivors(dyn))[k]; (i.id, b) in conv <==> Sure(i, dyn)
  {
    var lists := EntryLists(f, entries);
    var j := FilterFrom(f.blocks[b].instrs, Survivors(dyn), |f.blocks[b].instrs|, k);
    var id := f.blocks[b].instrs[j].id;
    SureById(lists, dyn, b, j);
    assert id in Ids(lists[b]);
    assert (id, b) in conv <==> W.Doomed(lists, ListIds(lists) - SureIds(lists, dyn), entries, 0, 0, (id, b));
  }

  lemma TouchedIffSure(f: Cfg, dyn: map<InstrId, TriState>, entries: set<BlockId>, conv: seq<(InstrId, BlockId)>, b: BlockId)
    requires UniqueIds(f) && b in entries && entries <= f.blocks.Keys
    requires var lists := EntryLists(f, entries);
             W.Collected(lists, ListIds(lists) - SureIds(lists, dyn), conv, entries, 0, 0)
    ensures Touched(conv, b) <==> HasSure(D.Filter(f.blocks[b].instrs, Survivors(dyn)), dyn)
  {
    var lists, instrs, left := EntryLists(f, entries), f.blocks[b].instrs, D.Filter(f.blocks[b].instrs, Survivors(dyn));
    if p :| p in conv && p.1 == b {
      assert W.Doomed(lists, ListIds(lists) - SureIds(lists, dyn), entries, 0, 0, p);
      var j :| 0 <= j < |instrs| && instrs[j].id == p.0;
      SureById(lists, dyn, b, j);
      D.FilterAt(instrs, Survivors(dyn), j);
      assert Sure(left[|D.FilterTo(instrs, Survivors(dyn), j)|], dyn);
    }
    if k :| 0 <= k < |left| && Sure(left[k], dyn) {
      SureListed(f, dyn, entries, conv, b, k);
    }
  }

  // ---- from the analyses to the result ----

  /** Where the function without the instructions outside keep is when the function is at c. */
  function Place(f: Cfg, keep: set<InstrId>, c: Config): Config {
    match c
    case At(b, pc, s) =>
      if b in f.blocks && pc <= |f.blocks[b].instrs|
      then At(b, |D.FilterTo(f.blocks[b].instrs, keep, pc)|, s) else c
    case _ => c
  }

  predicate Proper(f: Cfg, c: Config) {
    c.At? && c.block in f.blocks ==> c.pc <= |f.blocks[c.block].instrs|
  }

  predicate Skipped(f: Cfg, keep: set<InstrId>, c: Config) {
    && c.At? && c.block in f.blocks && c.pc < |f.blocks[c.block].instrs|
    && f.blocks[c.block].instrs[c.pc].id !in keep
  }

  lemma PlaceStep(f: Cfg, keep: set<InstrId>, c: Config)
    requires Proper(f, c)
    ensures Proper(f, S.StepKept(f, keep, c))
    ensures Skipped(f, keep, c) ==>
              Place(f, keep, S.StepKept(f, keep, c)) == Place(f, keep, c) && RecordedKept(f, keep, c) == []
    ensures !Skipped(f, keep, c) ==>
              && Place(f, keep, S.StepKept(f, keep, c)) == Step(D.Eliminate(f, keep), Place(f, keep, c))
              && RecordedKept(f, keep, c) == Recorded(D.Eliminate(f, keep), Place(f, keep, c))
  {
    if c.At? && c.block in f.blocks && !Skipped(f, keep, c) && c.pc < |f.blocks[c.block].instrs| {
      D.FilterAt(f.blocks[c.block].instrs, keep, c.pc);
    }
  }

  lemma {:induction false} SkippedRun(f: Cfg, keep: set<InstrId>, c: Config) returns (k: nat)
    requires Proper(f, c)
    ensures var e := Go(Kept(f, keep), k, c);
            && Proper(f, e) && Place(f, keep, e) == Place(f, keep, c) && !Skipped(f, keep, e)
            && Log(Kept(f, keep), k, c) == []
    decreases if Skipped(f, keep, c) then |f.blocks[c.block].instrs| - c.pc else 0
  {
    if Skipped(f, keep, c) {
      PlaceStep(f, keep, c);
      k := SkippedRun(f, keep, S.StepKept(f, keep, c));
      k := k + 1;
    } else {
      k := 0;
    }
  }

  lemma PlaceAlike(f: Cfg, keep: set<InstrId>, c: Config)
    ensures Alike(c, Place(f, keep, c)) && Alike(Place(f, keep, c), c)
  {
  }

  ghost predicate Placed(f: Cfg, keep: set<InstrId>, c: Config, c': Config) {
    Proper(f, c) && c' == Place(f, keep, c)
  }

  lemma PlacedForward(f: Cfg, keep: set<InstrId>)
    ensures Simulates(Kept(f, keep), Graph(D.Eliminate(f, keep)), (c, c') => Placed(f, keep, c, c'))
  {
    hide Place, Proper, Skipped, S.StepKept, Step, Recorded, RecordedKept, D.Eliminate;
    var m, g := Kept(f, keep), Graph(D.Eliminate(f, keep));
    var r: Relation := (c, c') => Placed(f, keep, c, c');
    forall c: Config, c': Config | r(c, c') ensures Matched(m, g, r, c, c') {
      PlaceAlike(f, keep, c);
      PlaceStep(f, keep, c);
      GoOne(g, c');
      assert Follows(m, g, r, c, c', if Skipped(f, keep, c) then 0 else 1);
    }
  }

  lemma PlacedBackward(f: Cfg, keep: set<InstrId>)
    ensures Simulates(Graph(D.Eliminate(f, keep)), Kept(f, keep), (c', c) => Placed(f, keep, c, c'))
  {
    hide Place, Proper, Skipped, S.StepKept, Step, Recorded, RecordedKept, D.Eliminate;
    var m, g := Kept(f, keep), Graph(D.Eliminate(f, keep));
    var r: Relation := (c', c) => Placed(f, keep, c, c');
    forall c': Config, c: Config | r(c', c) ensures Matched(g, m, r, c', c) {
      PlaceAlike(f, keep, c);
      var k := SkippedRun(f, keep, c);
      var e := Go(m, k, c);
      PlaceStep(f, keep, e);
      GoSplit(m, k, 1, c);
      GoOne(m, e);
      assert Follows(g, m, r, c', c, k + 1);
    }
  }

  /** Skipping instructions is running the graph they have been removed from. */
  lemma KeptIsEliminated(f: Cfg, keep: set<InstrId>, b: BlockId, s: State)
    ensures Equivalent(Kept(f, keep), At(b, 0, s), Graph(D.Eliminate(f, keep)), At(b, 0, s))
  {
    var m, g, c := Kept(f, keep), Graph(D.Eliminate(f, keep)), At(b, 0, s);
    assert Placed(f, keep, c, c);
    hide Placed, Simulates, Refines, D.Eliminate;
    PlacedForward(f, keep);
    PlacedBackward(f, keep);
    SimulationRefines(m, g, (c, c') => Placed(f, keep, c, c'), c, c);
    SimulationRefines(g, m, (c', c) => Placed(f, keep, c, c'), c, c);
  }

  /** The function without dead writes and the one without dead code look the same. */
  lemma DeadCodePreserves<A(!new)>(a: Abi, d: S.Domain<A>, keep: set<InstrId>, f: Cfg, w: S.Analysis<A>, seen: map<BlockId, A>, g: Cfg, b: BlockId, s: State)
    requires S.SoundEmulation(d, keep, f) && S.Finished(d, keep, f, w, seen) && Shaped(f, w.dyn, w.entry.Keys, g)
    requires b in w.entry && d.gamma(b, 0, w.entry[b], s)
    requires LooksSame(a, f, At(b, 0, s), D.Eliminate(f, keep), At(b, 0, s))
    ensures LooksSame(a, f, At(b, 0, s), g, At(b, 0, s))
  {
    hide *;
    var c := At(b, 0, s);
    KeptIsEliminated(f, keep, b, s);
    EliminationEquivalent(d, keep, f, w, seen, g, b, s);
    EquivalentBack(Kept(f, keep), c, Graph(D.Eliminate(f, keep)), c);
    EquivalentTwice(Graph(D.Eliminate(f, keep)), c, Kept(f, keep), c, Graph(g), c);
    EquivalentLooksSame(a, D.Eliminate(f, keep), c, g, c);
    LooksSameTwice(a, f, c, D.Eliminate(f, keep), c, g, c);
  }

  lemma EquivalentBack(m: System, c: Config, m': System, c': Config)
    requires Equivalent(m, c, m', c')
    ensures Equivalent(m', c', m, c)
  {
  }

  lemma LinkedIsChained(f: Cfg)
    requires WellLinked(f)
    ensures Chained(f) && UniqueIds(f)
  {
  }

  lemma FinishedKeys<T>(d: S.Domain<T>, keep: set<InstrId>, f: Cfg, w: S.Analysis<T>, seen: map<BlockId, T>)
    requires S.Finished(d, keep, f, w, seen)
    ensures w.entry.Keys <= f.blocks.Keys
  {
  }

  lemma EliminatedLooksSame(a: Abi, f: Cfg, rets: set<BlockId>, live: L.LiveMap, marks: map<InstrId, L.LivenessData>, b: BlockId, s: State)
    requires WellLinked(f) && L.MasksIn(a, f) && A.Closed(f, rets, live.Keys)
    requires forall b | b in live :: L.Solved(a, f, live, b) && live[b].liveIn <= a.allRegs
    requires forall b | b in f.blocks ::
               if b in live then A.Marked(a, f, live, marks, b) else Ids(f.blocks[b].instrs) !! marks.Keys
    requires forall b | b in f.blocks :: W.Returns(f, rets, b)
    requires b in f.blocks && SoundForever(f, At(b, 0, s))
    ensures LooksSame(a, f, At(b, 0, s), D.Eliminate(f, marks.Keys), At(b, 0, s))
  {
    hide *;
    W.EliminationIsSafe(a, f, rets, live, marks);
    SameBehaviourLooksSame(a, f, At(b, 0, s), D.Eliminate(f, marks.Keys), At(b, 0, s));
  }

  lemma IncludedState<T>(d: S.Domain<T>, b: BlockId, x: T, y: T, s: State)
    requires S.Includes(d, b, x, y) && d.gamma(b, 0, y, s)
    ensures d.gamma(b, 0, x, s)
  {
  }

  method AnalyzeStack<T(!new)>(f: Cfg, order: seq<BlockId>, keep: set<InstrId>, d: S.Domain<T>, ghost stateRank: T -> nat, b: BlockId, x: T)
      returns (entry: map<BlockId, T>, dyn: map<InstrId, TriState>, ghost w: S.Analysis<T>, ghost seen: map<BlockId, T>)
    requires WellLinked(f) && S.SoundJoin(d) && P.Descending(d, stateRank) && b in f.blocks
    requires Members(order) == f.blocks.Keys && forall i, j | 0 <= i < j < |order| :: order[i] != order[j]
    ensures S.Finished(d, keep, f, w, seen) && w.entry == entry && w.dyn == dyn
    ensures b in entry && S.Includes(d, b, entry[b], x) && G.Generates(d, keep, f, map[b := x], entry)
  {
    hide G.Generates;
    var stack := new P.StackAnalysisPass(d, keep, f, b, x);
    assert stack.W() == S.Analysis([], {}, {}, map[b := x], map[]);
    assert b in Members(order);
    seen := stack.ProcessFunction(order, stateRank);
    entry, dyn, w := stack.entry, stack.dyn, stack.W();
  }

  /** What a liveness analysis leaves: the least solution of the equations, over the smallest closed set of blocks, and
      data at the instructions it keeps. */
  ghost predicate Analysed(a: Abi, f: Cfg, rets: set<BlockId>, live: L.LiveMap, marks: map<InstrId, L.LivenessData>) {
    && A.Closed(f, rets, live.Keys) && (forall cover | A.Closed(f, rets, cover) :: live.Keys <= cover)
    && (forall c | c in live :: L.Solved(a, f, live, c) && live[c].liveIn <= a.allRegs)
    && (forall y | A.PreSolution(a, f, y) :: L.Below(live, y))
    && forall c | c in f.blocks :: if c in live then A.Marked(a, f, live, marks, c) else Ids(f.blocks[c].instrs) !! marks.Keys
  }

  lemma AnalysedIs(a: Abi, f: Cfg, rets: set<BlockId>, live: L.LiveMap, marks: map<InstrId, L.LivenessData>)
    requires A.Closed(f, rets, live.Keys) && forall cover | A.Closed(f, rets, cover) :: live.Keys <= cover
    requires forall c | c in live :: L.Solved(a, f, live, c) && live[c].liveIn <= a.allRegs
    requires forall y | A.PreSolution(a, f, y) :: L.Below(live, y)
    requires forall c | c in f.blocks :: if c in live then A.Marked(a, f, live, marks, c) else Ids(f.blocks[c].instrs) !! marks.Keys
    ensures Analysed(a, f, rets, live, marks)
  {
  }

  /** Stack analysis and dead code elimination on what liveness analysis has left, on a graph all of whose blocks lead to
      a return: what is taken out is what the finished analysis says, and from the entry block, in every state the
      analysis started with, the result looks the same as the function. */
  method EliminateAnalysed<T(!new)>(a: Abi, f: Cfg, order: seq<BlockId>, ghost rets: set<BlockId>, ghost live: L.LiveMap,
      marks: map<InstrId, L.LivenessData>, d: S.Domain<T>, ghost stateRank: T -> nat, b: BlockId, x: T)
      returns (g: Cfg, ghost w: S.Analysis<T>, ghost seen: map<BlockId, T>)
    requires WellLinked(f) && L.MasksIn(a, f) && Analysed(a, f, rets, live, marks)
    requires Members(order) == f.blocks.Keys && forall i, j | 0 <= i < j < |order| :: order[i] != order[j]
    requires forall b | b in f.blocks :: W.Returns(f, rets, b)
    requires S.SoundEmulation(d, marks.Keys, f) && S.SoundJoin(d) && P.Descending(d, stateRank) && b in f.blocks
    ensures forall s | d.gamma(b, 0, x, s) && SoundForever(f, At(b, 0, s)) :: LooksSame(a, f, At(b, 0, s), g, At(b, 0, s))
    ensures S.Finished(d, marks.Keys, f, w, seen) && b in w.entry && S.Includes(d, b, w.entry[b], x)
    ensures Shaped(f, w.dyn, w.entry.Keys, g) && g.blocks.Keys <= f.blocks.Keys && Chained(g)
    ensures C.LeftOver(f, w.dyn, w.entry.Keys, g) && G.Generates(d, marks.Keys, f, map[b := x], w.entry)
  {
    AnalysedFacts(a, f, rets, live, marks);
    hide *;
    ghost var keep := marks.Keys;
    var entry, dyn;
    entry, dyn, w, seen := AnalyzeStack(f, order, marks.Keys, d, stateRank, b, x);
    LinkedIsChained(f);
    FinishedKeys(d, keep, f, w, seen);
    var elimination := new DeadCodeElimination(f, dyn, entry.Keys);
    elimination.Run(order);
    g := elimination.graph;
    forall s | d.gamma(b, 0, x, s) && SoundForever(f, At(b, 0, s)) ensures LooksSame(a, f, At(b, 0, s), g, At(b, 0, s)) {
      EliminatedLooksSame(a, f, rets, live, marks, b, s);
      IncludedState(d, b, entry[b], x, s);
      DeadCodePreserves(a, d, keep, f, w, seen, g, b, s);
    }
  }

  lemma AnalysedFacts(a: Abi, f: Cfg, rets: set<BlockId>, live: L.LiveMap, marks: map<InstrId, L.LivenessData>)
    requires Analysed(a, f, rets, live, marks)
    ensures A.Closed(f, rets, live.Keys) && forall c | c in live :: L.Solved(a, f, live, c) && live[c].liveIn <= a.allRegs
    ensures forall c | c in f.blocks :: if c in live then A.Marked(a, f, live, marks, c) else Ids(f.blocks[c].instrs) !! marks.Keys
  {
  }

  /** Liveness analysis, stack analysis and dead code elimination together. */
  method EliminateDeadCode<T(!new)>(a: Abi, f: Cfg, order: seq<BlockId>, returnBlocks: seq<BlockId>, ghost rank: map<BlockId, nat>,
      d: S.Domain<T>, ghost stateRank: T -> nat, b: BlockId, x: T)
      returns (g: Cfg, ghost keep: set<InstrId>, ghost w: S.Analysis<T>, ghost seen: map<BlockId, T>)
    requires WellLinked(f) && L.MasksIn(a, f) && ChainsEnd(f, rank)
    requires Members(order) == f.blocks.Keys && forall i, j | 0 <= i < j < |order| :: order[i] != order[j]
    requires returnBlocks != [] && forall b | b in returnBlocks :: b in f.blocks
    requires forall i, j | 0 <= i < j < |returnBlocks| :: returnBlocks[i] != returnBlocks[j]
    requires forall b | b in f.blocks :: W.Returns(f, Members(returnBlocks), b)
    requires S.SoundJoin(d) && P.Descending(d, stateRank) && b in f.blocks
    requires forall live, marks | Analysed(a, f, Members(returnBlocks), live, marks) :: S.SoundEmulation(d, marks.Keys, f)
    ensures forall s | d.gamma(b, 0, x, s) && SoundForever(f, At(b, 0, s)) :: LooksSame(a, f, At(b, 0, s), g, At(b, 0, s))
    ensures S.Finished(d, keep, f, w, seen) && b in w.entry && S.Includes(d, b, w.entry[b], x)
    ensures Shaped(f, w.dyn, w.entry.Keys, g) && g.blocks.Keys <= f.blocks.Keys && Chained(g)
    ensures C.LeftOver(f, w.dyn, w.entry.Keys, g) && G.Generates(d, keep, f, map[b := x], w.entry)
  {
    hide *;
    var live, marks := AnalyzeLiveness(a, f, returnBlocks, rank);
    keep := marks.Keys;
    g, w, seen := EliminateAnalysed(a, f, order, Members(returnBlocks), live, marks, d, stateRank, b, x);
  }

  method AnalyzeLiveness(a: Abi, f: Cfg, returnBlocks: seq<BlockId>, ghost rank: map<BlockId, nat>)
      returns (live: L.LiveMap, marks: map<InstrId, L.LivenessData>)
    requires WellLinked(f) && L.MasksIn(a, f) && ChainsEnd(f, rank)
    requires returnBlocks != [] && forall b | b in returnBlocks :: b in f.blocks
    requires forall i, j | 0 <= i < j < |returnBlocks| :: returnBlocks[i] != returnBlocks[j]
    ensures Analysed(a, f, Members(returnBlocks), live, marks)
  {
    hide *;
    var liveness := new A.LivenessAnalysis(a, f);
    liveness.HandleFunction(returnBlocks, rank);
    live, marks := liveness.live, liveness.marks;
    AnalysedIs(a, f, Members(returnBlocks), live, marks);
  }
}

/** The block layout pass and code generation, one after the other. */
module LayoutEmission {
  import opened Machine
  import opened Links
  import opened Simulation
  import opened Ir
  import opened FunctionIr
  import opened IrGraph
  import opened IrLoops
  import opened BlockLayout
  import opened LayoutEntry
  import opened LayoutChains
  import opened BlockLayoutPass
  import opened CodeLayout
  import opened CodeGenerationPass
  import opened LinearCode
  import E = Emission
  import N = LayoutEnds
  import S = IrSplit
  import G = Surgery
  import C = BranchCode

  /** What code generation needs of a function: instructions can be told apart, and no block falls off its end. */
  ghost predicate Emittable(f: Cfg) { UniqueIds(f) && NoneFalls(f) }

  lemma ChainEmittable(f: Cfg, b: BlockId)
    requires Emittable(f) && b in f.blocks && f.blocks[b].instrs != []
    requires f.blocks[b].instrs[|f.blocks[b].instrs| - 1].kind.Branch? && f.blocks[b].instrs[|f.blocks[b].instrs| - 1].kind.edge.Some?
    ensures Emittable(G.Chain(f, b))
  {
    ChainIds(f, b);
    hide UniqueIds, NeverFalls;
  }

  lemma StepEmittable(x: Ir, b: BlockId)
    requires Consistent(x) && BranchesBranch(x) && b in x.blocks && Emittable(Whole(x))
    ensures Consistent(ChainStep(x, b)) && Emittable(Whole(ChainStep(x, b)))
  {
    hide Consistent, BranchesBranch, Whole, Emittable, SameRuns, ChainedIr, G.Chain;
    ChainStepFacts(x, b);
    if MayChain(x, b) {
      ChainStepGraph(x, b);
      ChainEmittable(Whole(x), b);
    }
  }

  lemma {:induction false} ChainAllEmittable(x: Ir, order: seq<BlockId>)
    requires Consistent(x) && BranchesBranch(x) && (forall b | b in order :: b in x.blocks) && Emittable(Whole(x))
    ensures Consistent(ChainAll(x, order)) && Emittable(Whole(ChainAll(x, order)))
  {
    hide Consistent, BranchesBranch, Whole, Emittable, SameRuns, ChainStep;
    if order != [] {
      var before, b := order[..|order| - 1], order[|order| - 1];
      ChainAllEmittable(x, before);
      ChainAllFacts(x, before);
      StepEmittable(ChainAll(x, before), b);
    }
  }

  lemma RetargetIds(instrs: seq<Instr>, b: BlockId, n: BlockId)
    ensures Ids(G.RetargetAll(instrs, b, n)) == Ids(instrs)
    ensures DistinctIds(instrs) ==> DistinctIds(G.RetargetAll(instrs, b, n))
    ensures NeverFalls(instrs) ==> NeverFalls(G.RetargetAll(instrs, b, n))
  {
    var r := G.RetargetAll(instrs, b, n);
    assert forall k | 0 <= k < |instrs| :: r[k].id == instrs[k].id && r[k].holds == instrs[k].holds && r[k].kind.Plain? == instrs[k].kind.Plain?;
    forall id ensures id in Ids(r) <==> id in Ids(instrs) { }
  }

  lemma BothIds(s: seq<Instr>, t: seq<Instr>)
    requires Ids(s) !! Ids(t) && DistinctIds(s) && DistinctIds(t)
    ensures Ids(s + t) == Ids(s) + Ids(t) && DistinctIds(s + t)
  {
    var r := s + t;
    assert forall k | 0 <= k < |s| :: r[k].id in Ids(s);
    forall k | |s| <= k < |r| ensures r[k].id in Ids(t) { assert r[k] == t[k - |s|]; }
    forall j, k | 0 <= j < k < |r| ensures r[j].id != r[k].id {
      if j < |s| && k >= |s| {
        assert r[j].id in Ids(s) && r[k].id in Ids(t);
      }
    }
    forall id | id in Ids(s) + Ids(t) ensures id in Ids(r) {
      if id in Ids(s) {
        var k :| 0 <= k < |s| && s[k].id == id;
        assert r[k].id == id;
      } else {
        var k :| 0 <= k < |t| && t[k].id == id;
        assert r[|s| + k].id == id;
      }
    }
  }

  /** Where the instructions of a block come from after a merge. */
  lemma MergedIds(f: Cfg, b: BlockId, n: BlockId, c: BlockId)
    requires G.Mergeable(f, b) && f.blocks[b].next == Some(n) && UniqueIds(f) && c in f.blocks && c != b
    ensures c in G.Merge(f, b).blocks && DistinctIds(G.Merge(f, b).blocks[c].instrs)
    ensures Ids(G.Merge(f, b).blocks[c].instrs) == Ids(f.blocks[c].instrs) + (if c == n then Ids(f.blocks[b].instrs) else {})
  {
    N.MergedBlock(f, b, n);
    MergeGraphBlock(f, b, c);
    hide G.Merge, G.Complete, G.NoBranchTo, Ids, DistinctIds, G.RetargetAll, Chained;
    BothIds(f.blocks[b].instrs, f.blocks[c].instrs);
    RetargetIds(f.blocks[c].instrs, b, n);
    RetargetIds(f.blocks[b].instrs + f.blocks[c].instrs, b, n);
  }

  lemma BothFall(s: seq<Instr>, t: seq<Instr>)
    requires NeverFalls(t)
    ensures NeverFalls(s + t)
  {
    assert (s + t)[|s + t| - 1] == t[|t| - 1];
  }

  lemma MergedFalls(f: Cfg, b: BlockId, n: BlockId, c: BlockId)
    requires G.Mergeable(f, b) && f.blocks[b].next == Some(n) && NoneFalls(f) && c in f.blocks && c != b
    requires c in G.Merge(f, b).blocks && G.Merge(f, b).blocks[c].next.None?
    ensures NeverFalls(G.Merge(f, b).blocks[c].instrs)
  {
    N.MergedBlock(f, b, n);
    MergeGraphBlock(f, b, c);
    hide G.Merge, G.Mergeable, G.Complete, G.NoBranchTo, G.RetargetAll, Chained, NeverFalls, Ids, DistinctIds;
    var s, t := f.blocks[b].instrs, f.blocks[c].instrs;
    assert NeverFalls(t);
    BothFall(s, t);
    RetargetIds(t, b, n);
    RetargetIds(s + t, b, n);
  }

  lemma MergedApart(f: Cfg, b: BlockId, n: BlockId, c: BlockId, d: BlockId)
    requires G.Mergeable(f, b) && f.blocks[b].next == Some(n) && UniqueIds(f)
    requires c in f.blocks && d in f.blocks && c != d && c != b && d != b
    ensures c in G.Merge(f, b).blocks && d in G.Merge(f, b).blocks
    ensures Ids(G.Merge(f, b).blocks[c].instrs) !! Ids(G.Merge(f, b).blocks[d].instrs)
  {
    MergedIds(f, b, n, c);
    MergedIds(f, b, n, d);
    hide G.Merge, G.Mergeable, Ids, DistinctIds;
    N.MergedBlock(f, b, n);
  }

  lemma MergeEmittable(f: Cfg, b: BlockId, n: BlockId)
    requires G.Mergeable(f, b) && f.blocks[b].next == Some(n) && Emittable(f)
    ensures Emittable(G.Merge(f, b))
  {
    MergeKeys(f, b);
    hide G.Merge, G.Mergeable, NeverFalls, DistinctIds, Ids, Chained;
    N.MergedBlock(f, b, n);
    var g := G.Merge(f, b);
    forall c, d | c in g.blocks && d in g.blocks && c != d ensures Ids(g.blocks[c].instrs) !! Ids(g.blocks[d].instrs) {
      MergedApart(f, b, n, c, d);
    }
    forall c | c in g.blocks ensures DistinctIds(g.blocks[c].instrs) { MergedIds(f, b, n, c); }
    forall c | c in g.blocks && g.blocks[c].next.None? ensures NeverFalls(g.blocks[c].instrs) { MergedFalls(f, b, n, c); }
  }

  lemma {:induction false} MergeAllEmittable(m: Ir, list: seq<BlockId>)
    requires Consistent(m) && MergesOk(m, list) && Emittable(Whole(m))
    ensures Consistent(MergeAll(m, list)) && Emittable(Whole(MergeAll(m, list)))
  {
    hide MergesOk, Consistent, S.Merge, S.Mergeable, MergeStep, Whole, Emittable, PartsStep, EntryStep;
    if list != [] {
      hide MergeAll;
      MergesOkBefore(m, list);
      var before, b := list[..|list| - 1], list[|list| - 1];
      MergeAllEmittable(m, before);
      var z := MergeAll(m, before);
      MergeAllStep(m, list, b);
      MergeFacts(z, b);
      S.MergeConsistent(z, b);
      MergeWhole(z, b);
      MergeEmittable(Whole(z), b, z.blocks[b].next.value);
    } else {
      MergesStart(m, 0);
    }
  }

  lemma LaidEmittable(x: Ir, order: seq<BlockId>, list: seq<BlockId>)
    requires Consistent(x) && BranchesBranch(x) && Orderly(x, order) && MergesOk(ChainAll(x, order), list) && Emittable(Whole(x))
    ensures var z := MergeAll(ChainAll(x, order), list);
            Consistent(z) && E.Whole(Whole(z)) && Chained(Whole(z)) && UniqueIds(Whole(z)) && NoneFalls(Whole(z))
  {
    assert forall b | b in order :: b in x.blocks;
    hide *;
    ChainAllEmittable(x, order);
    MergeAllEmittable(ChainAll(x, order), list);
    var z := MergeAll(ChainAll(x, order), list);
    WholeComplete(z);
    N.CompleteWhole(Whole(z));
    EmittableIs(Whole(z));
  }

  lemma EmittableIs(f: Cfg)
    ensures Emittable(f) <==> UniqueIds(f) && NoneFalls(f)
  {
  }

  /** What can come of it: the layout fails; the function has been laid out but code generation fails, for one of the
      reasons of Generate; there is code. */
  datatype Result = NotLaid | NotEmitted | Emitted

  /** Running the code from its first byte is running the function. */
  ghost predicate RunsAs(f: Cfg, e: BlockId, t: Arch, items: seq<Item>, short: set<InstrId>, mem: seq<C.Byte>) {
    forall s: State :: Equivalent(Graph(f), At(e, 0, s), Linear(t, items, short, mem), At(0, 0, s))
  }

  lemma RunsAsBefore(f: Cfg, e: BlockId, g: Cfg, c: BlockId, t: Arch, items: seq<Item>, short: set<InstrId>, mem: seq<C.Byte>)
    requires SameRuns(f, e, g, c) && RunsAs(g, c, t, items, short, mem)
    ensures RunsAs(f, e, t, items, short, mem)
  {
    hide Equivalent;
    forall s: State ensures Equivalent(Graph(f), At(e, 0, s), Linear(t, items, short, mem), At(0, 0, s)) {
      assert G.SameFrom(f, g, At(e, 0, s), At(c, 0, s));
      EquivalentTwice(Graph(f), At(e, 0, s), Graph(g), At(c, 0, s), Linear(t, items, short, mem), At(0, 0, s));
    }
  }

  lemma SameFromEntryIs(x: Ir, e: BlockId, z: Ir, c: BlockId)
    requires Consistent(x) && Consistent(z)
    ensures SameFromEntry(x, e, z, c) <==> SameRuns(Whole(x), e, Whole(z), c)
  {
  }

  lemma RunsAsIs(f: Cfg, e: BlockId, t: Arch, items: seq<Item>, short: set<InstrId>, mem: seq<C.Byte>)
    requires forall s: State :: Equivalent(Graph(f), At(e, 0, s), Linear(t, items, short, mem), At(0, 0, s))
    ensures RunsAs(f, e, t, items, short, mem)
  {
  }

  lemma ConsistentNow(fn: Function)
    requires fn.Valid()
    ensures Consistent(fn.I())
  {
  }

  /** Chains are laid out from their heads exactly if the search enters none behind it. */
  ghost predicate AtHeadsIff(f: Cfg, rank: map<BlockId, nat>, entry: BlockId, order: seq<BlockId>) {
    && E.Whole(f) && E.EndsOn(f, rank) && Members([entry]) <= rank.Keys
    && (E.EnteredAtHead(f, order) <==> !E.EntersBehind(f, rank, entry, [], [entry]))
  }

  lemma AtHeadsIs(f: Cfg, rank: map<BlockId, nat>, entry: BlockId, order: seq<BlockId>)
    requires E.Whole(f) && E.EndsOn(f, rank) && Members([entry]) <= rank.Keys
    requires E.EnteredAtHead(f, order) <==> !E.EntersBehind(f, rank, entry, [], [entry])
    ensures AtHeadsIff(f, rank, entry, order)
  {
  }

  /** Lay the function out and generate its code, provided that no chain the layout closes on itself can be reached; if
      one can be, the traversal never ends. If there is code, and the search enters no chain behind its head, running
      the code from its first byte is running the function the pass was given, whenever the pass kept what runs from
      its entry. */
  method LayOutAndEmit(pass: BlockLayoutOptimization, order: seq<BlockId>, e: BlockId, t: Arch, code: array<C.Byte>)
      returns (r: Result, blocks: seq<BlockId>, short: set<InstrId>, ghost items: seq<Item>, ghost k: nat)
    requires pass.fn.Valid() && BranchesBranch(pass.fn.I()) && pass.blocksToMerge == [] && pass.fn.entryBlock == Some(e) && e in pass.fn.blocks
    requires Orderly(pass.fn.I(), order) && Emittable(Whole(pass.fn.I()))
    requires var m, list := ChainAll(pass.fn.I(), order), Listed(pass.fn.I(), order);
             MergesOk(m, list) ==> NoneComesBack(pass.fn.I(), order, FirstInFront(m, list, e))
    requires ValidArch(t) && Sized(t) && code.Length % BLOCK_ALIGN == 0 && code.Length <= 0x8000_0000
    modifies pass`blocksToMerge, pass.fn`blocks, pass.fn`code, pass.fn`edges, pass.fn`entryBlock, code
    ensures pass.fn.Valid()
    ensures var x := old(pass.fn.I());
            var m, list := ChainAll(x, order), Listed(x, order);
            var z, e' := MergeAll(m, list), EntryAfter(m, list, e);
            && (r == NotLaid <==> !((forall b | b in order :: !DeadEnd(x, b)) && MergesOk(m, list)))
            && (r != NotLaid ==>
                  && pass.fn.I() == z && blocks != [] && blocks[0] == e' && (forall b | b in blocks :: b in Whole(z).blocks)
                  && items == Items(Whole(z), blocks) && Outcome(t, items, short, code[..], r == Emitted, k)
                  && (exists rank: map<BlockId, nat> :: AtHeadsIff(Whole(z), rank, e', blocks))
                  && (r == Emitted && E.EnteredAtHead(Whole(z), blocks) && SameFromEntry(x, e, z, e') ==>
                        RunsAs(Whole(x), e, t, items, short, code[..])))
  {
    hide Consistent, Supply, Whole, BranchesBranch, Orderly, ChainAll, Listed, MergesOk, MergeAll, EntryAfter, FirstInFront, NoneComesBack, EndsFrom, SameFromEntry, SameRuns, RunsAs, Outcome, Items, UniqueIds, NoneFalls, Emittable, DeadEnd, AtHeadsIff, EntryGuarded, OpensApart, FrontNeverExecutes, Free, EmptyIn;
    hide E.Whole, E.EndsOn, E.EnteredAtHead, E.EntersBehind, E.HeadsOnly, Chained, Equivalent;
    ghost var x := pass.fn.I();
    r, blocks, short, items, k := NotLaid, [], {}, [], 0;
    ConsistentNow(pass.fn);
    var laid, m, list, e' := pass.Run(order, e);
    if !laid {
      return;
    }
    LaidEmittable(x, order, list);
    LayoutEndsIff(x, order, list, e);
    ConsistentNow(pass.fn);
    var g := Whole(Ir(pass.fn.blocks, pass.fn.code, pass.fn.edges));
    ghost var rank: map<BlockId, nat> :| e' in rank && E.EndsOn(g, rank);
    var ok;
    ok, blocks, short, items, k := EmitFunction(g, pass.fn.entryBlock.value, t, code, rank);
    r := if ok then Emitted else NotEmitted;
    AtHeadsIs(g, rank, e', blocks);
    if ok && E.EnteredAtHead(g, blocks) && SameFromEntry(x, e, pass.fn.I(), e') {
      SameFromEntryIs(x, e, pass.fn.I(), e');
      assert RunsAs(g, e', t, items, short, code[..]) by { RunsAsIs(g, e', t, items, short, code[..]); }
      RunsAsBefore(Whole(x), e, g, e', t, items, short, code[..]);
    }
  }
}

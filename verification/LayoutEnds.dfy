/** Which blocks can be reached, and which chains end, before and after chaining and merging. */
module LayoutEnds {
  import opened Machine
  import opened Links
  import opened Emission
  import H = Chains
  import T = Traversal
  import G = Surgery
  import R = IrGraph

  ghost predicate EdgeLeads(f: Cfg, c: BlockId, d: BlockId) {
    c in f.blocks && d in EdgeList(f.blocks[c].instrs)
  }

  ghost predicate Leads(f: Cfg, c: BlockId, d: BlockId) {
    c in f.blocks && (f.blocks[c].next == Some(d) || d in EdgeList(f.blocks[c].instrs))
  }

  lemma ClosedIff(f: Cfg, bs: set<BlockId>)
    ensures ClosedSet(f, bs) <==> bs <= f.blocks.Keys && forall c, d | c in bs && Leads(f, c, d) :: d in bs
  {
    if ClosedSet(f, bs) {
      forall c, d | c in bs && Leads(f, c, d) ensures d in bs { assert Followed(f, c, bs); }
    }
    if bs <= f.blocks.Keys && forall c, d | c in bs && Leads(f, c, d) :: d in bs {
      forall c | c in bs ensures Followed(f, c, bs) {
        forall d | d in EdgeList(f.blocks[c].instrs) ensures d in bs { assert Leads(f, c, d); }
        if f.blocks[c].next.Some? { assert Leads(f, c, f.blocks[c].next.value); }
      }
    }
  }

  lemma {:induction false} EdgeListIff(instrs: seq<Instr>, d: BlockId)
    ensures d in EdgeList(instrs) <==> exists k :: EdgeAt(instrs, k, d)
  {
    if instrs != [] {
      var before, i := instrs[..|instrs| - 1], instrs[|instrs| - 1];
      EdgeListIff(before, d);
      if k :| EdgeAt(before, k, d) { assert EdgeAt(instrs, k, d); }
      if k :| EdgeAt(instrs, k, d) { assert k < |before| ==> EdgeAt(before, k, d); }
      if i.kind == Branch(Some(d)) { assert EdgeAt(instrs, |instrs| - 1, d); }
    }
  }

  ghost predicate EdgeAt(instrs: seq<Instr>, k: int, d: BlockId) {
    0 <= k < |instrs| && instrs[k].kind == Branch(Some(d))
  }

  lemma SameReach(f: Cfg, g: Cfg, e: BlockId, b: BlockId)
    requires f.blocks.Keys == g.blocks.Keys && forall c, d :: Leads(f, c, d) <==> Leads(g, c, d)
    ensures Reachable(f, e, b) <==> Reachable(g, e, b)
  {
    forall bs ensures ClosedSet(f, bs) <==> ClosedSet(g, bs) {
      ClosedIff(f, bs);
      ClosedIff(g, bs);
      hide ClosedSet, Leads;
    }
  }

  /** Chaining spells the last successor of a block differently. */
  lemma ChainReach(f: Cfg, b: BlockId, d: BlockId, e: BlockId, c: BlockId)
    requires b in f.blocks && d in f.blocks && f.blocks[b].next.None? && f.blocks[b].instrs != []
    requires f.blocks[b].instrs[|f.blocks[b].instrs| - 1].kind == Branch(Some(d))
    ensures Reachable(f, e, c) <==> Reachable(G.Chain(f, b), e, c)
  {
    SameReach(f, G.Chain(f, b), e, c);
  }

  // ---- merging ----

  function Renamed(b: BlockId, n: BlockId, d: BlockId): BlockId { if d == b then n else d }

  lemma RetargetEdges(instrs: seq<Instr>, b: BlockId, n: BlockId, d: BlockId)
    requires d in EdgeList(instrs)
    ensures Renamed(b, n, d) in EdgeList(G.RetargetAll(instrs, b, n))
  {
    EdgeListIff(instrs, d);
    var k :| EdgeAt(instrs, k, d);
    assert EdgeAt(G.RetargetAll(instrs, b, n), k, Renamed(b, n, d));
    EdgeListIff(G.RetargetAll(instrs, b, n), Renamed(b, n, d));
  }

  lemma RetargetedEdges(instrs: seq<Instr>, b: BlockId, n: BlockId, d: BlockId) returns (d0: BlockId)
    requires d in EdgeList(G.RetargetAll(instrs, b, n))
    ensures d0 in EdgeList(instrs) && d == Renamed(b, n, d0)
  {
    EdgeListIff(G.RetargetAll(instrs, b, n), d);
    var k :| EdgeAt(G.RetargetAll(instrs, b, n), k, d);
    d0 := if instrs[k].kind == Branch(Some(b)) then b else d;
    assert EdgeAt(instrs, k, d0);
    EdgeListIff(instrs, d0);
  }

  lemma EdgesOfBoth(s: seq<Instr>, t: seq<Instr>, d: BlockId)
    ensures d in EdgeList(s + t) <==> d in EdgeList(s) || d in EdgeList(t)
  {
    EdgeListIff(s + t, d);
    EdgeListIff(s, d);
    EdgeListIff(t, d);
    if k :| EdgeAt(s, k, d) { assert EdgeAt(s + t, k, d); }
    if k :| EdgeAt(t, k, d) { assert EdgeAt(s + t, |s| + k, d); }
    if k :| EdgeAt(s + t, k, d) { assert EdgeAt(s, k, d) || EdgeAt(t, k - |s|, d); }
  }

  /** A successor is one after the merge, by its new name. */
  lemma LeadsOut(f: Cfg, b: BlockId, n: BlockId, c: BlockId, d: BlockId)
    requires G.Mergeable(f, b) && f.blocks[b].next == Some(n)
    ensures c != b && Leads(f, c, d) ==> Leads(G.Merge(f, b), c, Renamed(b, n, d))
    ensures EdgeLeads(f, b, d) ==> Leads(G.Merge(f, b), n, Renamed(b, n, d))
  {
    hide G.Merge, EdgeList, G.RetargetAll, G.Complete, G.NoBranchTo;
    if c != b && c in f.blocks && d in EdgeList(f.blocks[c].instrs) {
      R.MergeGraphBlock(f, b, c);
      EdgesOfBoth(f.blocks[b].instrs, f.blocks[c].instrs, d);
      RetargetEdges(if c == n then f.blocks[b].instrs + f.blocks[c].instrs else f.blocks[c].instrs, b, n, d);
    }
    if c != b && c in f.blocks && f.blocks[c].next == Some(d) { R.MergeGraphBlock(f, b, c); }
    if EdgeLeads(f, b, d) {
      R.MergeGraphBlock(f, b, n);
      EdgesOfBoth(f.blocks[b].instrs, f.blocks[n].instrs, d);
      RetargetEdges(f.blocks[b].instrs + f.blocks[n].instrs, b, n, d);
    }
  }

  /** And every successor after it is one that was there, of the block or of what was merged into it. */
  lemma LeadsIn(f: Cfg, b: BlockId, n: BlockId, c: BlockId, d: BlockId) returns (d0: BlockId)
    requires G.Mergeable(f, b) && f.blocks[b].next == Some(n) && c in f.blocks && c != b && Leads(G.Merge(f, b), c, d)
    ensures d == Renamed(b, n, d0) && (Leads(f, c, d0) || (c == n && EdgeLeads(f, b, d0)))
  {
    hide G.Merge, EdgeList, G.RetargetAll, G.Complete, G.NoBranchTo;
    R.MergeGraphBlock(f, b, c);
    var g := G.Merge(f, b);
    if d in EdgeList(g.blocks[c].instrs) {
      d0 := RetargetedEdges(if c == n then f.blocks[b].instrs + f.blocks[c].instrs else f.blocks[c].instrs, b, n, d);
      EdgesOfBoth(f.blocks[b].instrs, f.blocks[c].instrs, d0);
    } else {
      d0 := f.blocks[c].next.value;
    }
  }

  /** Where the runs from block c of the result began. */
  function Before(b: BlockId, n: BlockId, c: BlockId): BlockId { if c == n then b else c }

  lemma NoEdgeTo(f: Cfg, n: BlockId, c: BlockId)
    requires G.NoBranchTo(f, n) && c in f.blocks
    ensures n !in EdgeList(f.blocks[c].instrs)
  {
    EdgeListIff(f.blocks[c].instrs, n);
  }

  /** Only b leads to the block that it is merged into. */
  lemma LeadsToNext(f: Cfg, b: BlockId, n: BlockId, c: BlockId)
    requires G.Mergeable(f, b) && f.blocks[b].next == Some(n) && Leads(f, c, n)
    ensures c == b
  {
    hide G.Complete, EdgeList;
    NoEdgeTo(f, n, c);
  }

  /** What is closed before has a part that is closed afterwards. */
  lemma ClosedAfter(f: Cfg, b: BlockId, n: BlockId, bs: set<BlockId>, e: BlockId) returns (cs: set<BlockId>)
    requires G.Mergeable(f, b) && f.blocks[b].next == Some(n) && e != b && e in f.blocks
    requires ClosedSet(f, bs) && Before(b, n, e) in bs
    ensures cs <= bs && ClosedSet(G.Merge(f, b), cs) && e in cs
  {
    R.MergeKeys(f, b);
    hide G.Merge, G.Mergeable, G.Complete, G.NoBranchTo, EdgeList, Chained;
    ClosedIff(f, bs);
    assert Leads(f, b, n);
    cs := if b in bs then bs - {b} else bs - {n};
    forall c, d | c in cs && Leads(G.Merge(f, b), c, d) ensures d in cs {
      var d0 := LeadsIn(f, b, n, c, d);
      assert EdgeLeads(f, b, d0) ==> Leads(f, b, d0);
      if d0 == n {
        if Leads(f, c, d0) { LeadsToNext(f, b, n, c); } else { LeadsToNext(f, b, n, b); NoEdge(f, b, n); }
      }
    }
    ClosedIff(G.Merge(f, b), cs);
  }

  lemma NoEdge(f: Cfg, b: BlockId, n: BlockId)
    requires G.Mergeable(f, b) && f.blocks[b].next == Some(n)
    ensures !EdgeLeads(f, b, n)
  {
    NoEdgeTo(f, n, b);
  }

  /** What is closed afterwards was, with the block merged. */
  lemma ClosedBefore(f: Cfg, b: BlockId, n: BlockId, cs: set<BlockId>, e: BlockId) returns (bs: set<BlockId>)
    requires G.Mergeable(f, b) && f.blocks[b].next == Some(n) && e in f.blocks && e != b
    requires ClosedSet(G.Merge(f, b), cs) && e in cs
    ensures bs - {b} <= cs && ClosedSet(f, bs) && Before(b, n, e) in bs
  {
    R.MergeKeys(f, b);
    hide G.Merge, G.Mergeable, G.Complete, G.NoBranchTo, EdgeList, Chained;
    ClosedIff(G.Merge(f, b), cs);
    MergedBlock(f, b, n);
    bs := if n in cs then cs + {b} else cs;
    forall c, d | c in bs && Leads(f, c, d) ensures d in bs {
      LeadsOut(f, b, n, c, d);
      assert c == b ==> EdgeLeads(f, b, d) || d == n;
    }
    ClosedIff(f, bs);
  }

  lemma MergedBlock(f: Cfg, b: BlockId, n: BlockId)
    requires G.Mergeable(f, b) && f.blocks[b].next == Some(n)
    ensures b in f.blocks && n in f.blocks && n != b && n in G.Merge(f, b).blocks
  {
  }

  /** From the block merged into can be reached what could be from the one merged. */
  lemma MergeReach(f: Cfg, b: BlockId, n: BlockId, e: BlockId, c: BlockId)
    requires G.Mergeable(f, b) && f.blocks[b].next == Some(n) && e in f.blocks && e != b && c != b
    ensures Reachable(G.Merge(f, b), e, c) <==> Reachable(f, Before(b, n, e), c)
  {
    hide G.Merge, G.Mergeable, ClosedSet;
    MergedBlock(f, b, n);
    if Reachable(G.Merge(f, b), e, c) {
      forall bs | ClosedSet(f, bs) && Before(b, n, e) in bs ensures c in bs {
        var cs := ClosedAfter(f, b, n, bs, e);
      }
    }
    if Reachable(f, Before(b, n, e), c) {
      forall cs | ClosedSet(G.Merge(f, b), cs) && e in cs ensures c in cs {
        var bs := ClosedBefore(f, b, n, cs, e);
      }
    }
  }

  lemma NextAfter(f: Cfg, b: BlockId, n: BlockId, c: BlockId)
    requires G.Mergeable(f, b) && f.blocks[b].next == Some(n) && c in f.blocks && c != b
    ensures var next, next' := H.NextOf(f), H.NextOf(G.Merge(f, b));
            && b in next && next[b] == n
            && (c in next <==> c in next')
            && (c in next ==> next'[c] == Renamed(b, n, next[c]) && next[c] in f.blocks && next'[c] in f.blocks && next'[c] != b)
  {
    R.MergeKeys(f, b);
    R.MergeGraphBlock(f, b, c);
    hide G.Merge, G.NoBranchTo;
    assert G.BlockComplete(f, f.blocks[c]);
  }

  lemma {:induction false} EndKept(f: Cfg, b: BlockId, n: BlockId, k: nat, c: BlockId)
    requires G.Mergeable(f, b) && f.blocks[b].next == Some(n) && c in f.blocks && c != b && H.Along(H.NextOf(f), k, c).None?
    ensures H.HasEnd(H.NextOf(G.Merge(f, b)), c)
    decreases k
  {
    hide G.Merge, G.Mergeable, H.NextOf, H.HasEnd;
    MergedBlock(f, b, n);
    NextAfter(f, b, n, c);
    var next, next' := H.NextOf(f), H.NextOf(G.Merge(f, b));
    if c in next {
      EndKept(f, b, n, if next[c] == b then k - 2 else k - 1, next'[c]);
      H.EndNext(next', c);
    } else {
      T.EndAlong(next', 1, c);
    }
  }

  lemma {:induction false} EndWas(f: Cfg, b: BlockId, n: BlockId, k: nat, c: BlockId)
    requires G.Mergeable(f, b) && f.blocks[b].next == Some(n) && c in f.blocks && c != b && H.Along(H.NextOf(G.Merge(f, b)), k, c).None?
    ensures H.HasEnd(H.NextOf(f), c)
  {
    hide G.Merge, G.Mergeable, H.NextOf, H.HasEnd;
    MergedBlock(f, b, n);
    NextAfter(f, b, n, c);
    var next, next' := H.NextOf(f), H.NextOf(G.Merge(f, b));
    if c in next {
      EndWas(f, b, n, k - 1, next'[c]);
      H.EndNext(next, c);
      H.EndNext(next, b);
    } else {
      T.EndAlong(next, 1, c);
    }
  }

  lemma MergeEnd(f: Cfg, b: BlockId, n: BlockId, c: BlockId)
    requires G.Mergeable(f, b) && f.blocks[b].next == Some(n) && c in f.blocks && c != b
    ensures H.HasEnd(H.NextOf(G.Merge(f, b)), c) <==> H.HasEnd(H.NextOf(f), c)
  {
    hide G.Merge, G.Mergeable, H.NextOf;
    MergedBlock(f, b, n);
    var next, next' := H.NextOf(f), H.NextOf(G.Merge(f, b));
    if k: nat :| H.Along(next, k, c).None? { EndKept(f, b, n, k, c); }
    if k: nat :| H.Along(next', k, c).None? { EndWas(f, b, n, k, c); }
  }

  lemma CompleteWhole(f: Cfg)
    requires G.Complete(f)
    ensures Whole(f)
  {
    forall b | b in f.blocks ensures Followed(f, b, f.blocks.Keys) {
      assert G.BlockComplete(f, f.blocks[b]);
      forall d | d in EdgeList(f.blocks[b].instrs) ensures d in f.blocks {
        EdgeListIff(f.blocks[b].instrs, d);
        var k :| EdgeAt(f.blocks[b].instrs, k, d);
        assert G.InstrComplete(f, f.blocks[b].instrs[k]);
      }
    }
  }

  lemma ReachInside(f: Cfg, e: BlockId, c: BlockId)
    requires G.Complete(f) && e in f.blocks && Reachable(f, e, c)
    ensures c in f.blocks
  {
    CompleteWhole(f);
    hide G.Complete;
    T.ReachesWithin(f, e, f.blocks.Keys, c);
  }

  /** Merging makes no chain end and lets none go on for ever. */
  lemma MergeEnds(f: Cfg, b: BlockId, n: BlockId, e: BlockId)
    requires G.Mergeable(f, b) && f.blocks[b].next == Some(n) && e in f.blocks && e != b
    ensures T.ChainsEndFrom(G.Merge(f, b), e) <==> T.ChainsEndFrom(f, Before(b, n, e))
  {
    var g, e0 := G.Merge(f, b), Before(b, n, e);
    NextAfter(f, b, n, n);
    hide G.Merge, G.NoBranchTo, Reachable, H.HasEnd, H.NextOf, Chained, G.Complete;
    if T.ChainsEndFrom(f, e0) {
      forall c | Reachable(g, e, c) ensures H.HasEnd(H.NextOf(g), c) {
        MergedInside(f, b, n, e, c);
        MergeReach(f, b, n, e, c);
        ReachInside(f, e0, c);
        MergeEnd(f, b, n, c);
      }
    }
    if T.ChainsEndFrom(g, e) {
      forall c | Reachable(f, e0, c) ensures H.HasEnd(H.NextOf(f), c) {
        ReachInside(f, e0, c);
        var d := Renamed(b, n, c);
        ReachNext(f, b, n, e0, c);
        MergeReach(f, b, n, e, d);
        MergeEnd(f, b, n, d);
        H.EndNext(H.NextOf(f), b);
      }
    }
  }

  lemma ReachNext(f: Cfg, b: BlockId, n: BlockId, e: BlockId, c: BlockId)
    requires b in f.blocks && f.blocks[b].next == Some(n) && Reachable(f, e, c)
    ensures Reachable(f, e, Renamed(b, n, c))
  {
    forall bs | ClosedSet(f, bs) && e in bs ensures Renamed(b, n, c) in bs {
      assert c in bs && Followed(f, c, bs);
    }
  }

  lemma MergedInside(f: Cfg, b: BlockId, n: BlockId, e: BlockId, c: BlockId)
    requires G.Mergeable(f, b) && f.blocks[b].next == Some(n) && e in f.blocks && e != b && Reachable(G.Merge(f, b), e, c)
    ensures c != b
  {
    R.MergeKeys(f, b);
    hide G.Merge, G.Mergeable, ClosedSet;
    assert ClosedSet(f, f.blocks.Keys) by { AllClosed(f, b); }
    var bs := f.blocks.Keys;
    var cs := ClosedAfter(f, b, n, bs, e) by { MergedBlock(f, b, n); }
    assert c in cs;
    InKeys(G.Merge(f, b), cs, c);
  }

  lemma InKeys(f: Cfg, bs: set<BlockId>, c: BlockId)
    requires ClosedSet(f, bs) && c in bs
    ensures c in f.blocks
  {
  }

  lemma AllClosed(f: Cfg, b: BlockId)
    requires G.Mergeable(f, b)
    ensures ClosedSet(f, f.blocks.Keys)
  {
    CompleteWhole(f);
  }
}

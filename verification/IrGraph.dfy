/** What the operations on blocks, instructions and edges do to the graph these make up. */
module IrGraph {
  import opened Machine
  import opened Links
  import opened Ir
  import opened IrOps
  import opened FunctionIr
  import S = IrSplit
  import G = Surgery

  lemma NodesOf(x: Ir)
    requires Consistent(x)
    ensures NodesOk(x)
  {
  }

  function Whole(x: Ir): Cfg
    requires Consistent(x)
  {
    NodesOf(x);
    GraphOf(x)
  }

  lemma WholeBlock(x: Ir, b: BlockId)
    requires Consistent(x) && b in x.blocks
    ensures Whole(x).blocks.Keys == x.blocks.Keys && NodeOk(x, x.blocks[b])
    ensures Whole(x).blocks[b] == Block(OpsOf(x, x.blocks[b].instrs), x.blocks[b].next, x.blocks[b].prev, [])
  {
    assert NodeOk(x, x.blocks[b]);
  }

  /** Two graphs are the same if they are block by block. */
  lemma SameGraph(f: Cfg, g: Cfg)
    requires f.blocks.Keys == g.blocks.Keys && forall b | b in f.blocks :: f.blocks[b] == g.blocks[b]
    ensures f == g
  {
    assert f.blocks == g.blocks;
  }

  lemma SameOps(x: Ir, s: seq<NodeId>, ops: seq<Instr>)
    requires |s| == |ops| && forall k | 0 <= k < |s| :: s[k] in x.code && OpOf(x, s[k]) == ops[k]
    requires forall i | i in s :: i in x.code
    ensures OpsOf(x, s) == ops
  {
  }

  /** Every edge leads somewhere. */
  lemma WholeComplete(x: Ir)
    requires Consistent(x)
    ensures G.Complete(Whole(x)) && Chained(Whole(x)) && Whole(x).blocks.Keys == x.blocks.Keys
  {
    ConsistentGraph(x);
    var f := Whole(x);
    forall b | b in f.blocks ensures G.BlockComplete(f, f.blocks[b]) {
      WholeBlock(x, b);
      forall k | 0 <= k < |f.blocks[b].instrs| ensures G.InstrComplete(f, f.blocks[b].instrs[k]) {
        var i := x.blocks[b].instrs[k];
        assert i in x.blocks[b].instrs;
      }
    }
  }

  // ---- split and merge ----

  lemma SplitOp(x: Ir, b: BlockId, k: nat, nb: BlockId, i: NodeId)
    requires b in x.blocks && k <= |x.blocks[b].instrs| && i in x.code
    ensures i in S.Split(x, b, k, nb).code && OpOf(S.Split(x, b, k, nb), i) == OpOf(x, i)
  {
  }

  lemma SplitWhole(x: Ir, b: BlockId, k: nat, nb: BlockId)
    requires Consistent(x) && b in x.blocks && k <= |x.blocks[b].instrs| && nb !in x.blocks
    requires Consistent(S.Split(x, b, k, nb))
    ensures Whole(x).blocks.Keys == x.blocks.Keys && k <= |Whole(x).blocks[b].instrs|
    ensures Whole(S.Split(x, b, k, nb)) == G.Split(Whole(x), b, k, nb)
  {
    hide *;
    var y := S.Split(x, b, k, nb);
    WholeBlock(x, b);
    S.SplitBlock(x, b, k, nb, nb);
    WholeBlock(y, nb);
    SplitKeys(Whole(x), b, k, nb);
    var g := G.Split(Whole(x), b, k, nb);
    forall c | c in y.blocks ensures Whole(y).blocks[c] == g.blocks[c] {
      SplitWholeBlock(x, b, k, nb, c);
    }
    SameGraph(Whole(y), g);
  }

  lemma SplitKeys(f: Cfg, b: BlockId, k: nat, nb: BlockId)
    requires b in f.blocks && k <= |f.blocks[b].instrs| && nb !in f.blocks
    ensures G.Split(f, b, k, nb).blocks.Keys == f.blocks.Keys + {nb}
  {
  }

  lemma SplitWholeBlock(x: Ir, b: BlockId, k: nat, nb: BlockId, c: BlockId)
    requires Consistent(x) && b in x.blocks && k <= |x.blocks[b].instrs| && nb !in x.blocks && (c in x.blocks || c == nb)
    requires Consistent(S.Split(x, b, k, nb))
    ensures c in S.Split(x, b, k, nb).blocks && Whole(x).blocks.Keys == x.blocks.Keys && k <= |Whole(x).blocks[b].instrs|
    ensures Whole(S.Split(x, b, k, nb)).blocks[c] == G.Split(Whole(x), b, k, nb).blocks[c]
  {
    hide *;
    var y := S.Split(x, b, k, nb);
    WholeBlock(x, b);
    if c != nb { WholeBlock(x, c); }
    SplitNodeLinks(x, b, k, nb, c);
    WholeBlock(y, c);
    SplitOps(x, b, k, nb, c);
    SplitGraphBlock(Whole(x), b, k, nb, c);
    if c == b || c == nb { OpsSlice(x, x.blocks[b].instrs, k); }
  }

  lemma SplitOps(x: Ir, b: BlockId, k: nat, nb: BlockId, c: BlockId)
    requires Consistent(x) && b in x.blocks && k <= |x.blocks[b].instrs| && nb !in x.blocks && (c in x.blocks || c == nb)
    requires var y := S.Split(x, b, k, nb); c in y.blocks && NodeOk(y, y.blocks[c])
    requires NodeOk(x, x.blocks[b]) && (c != nb ==> NodeOk(x, x.blocks[c]))
    ensures var y, n := S.Split(x, b, k, nb), x.blocks[b];
            OpsOf(y, y.blocks[c].instrs)
              == if c == b then OpsOf(x, n.instrs[..k]) else if c == nb then OpsOf(x, n.instrs[k..]) else OpsOf(x, x.blocks[c].instrs)
  {
    var y, n := S.Split(x, b, k, nb), x.blocks[b];
    S.SplitBlock(x, b, k, nb, c);
    hide Consistent, NoDup, EdgesOf, S.Split, OpOf;
    var s := y.blocks[c].instrs;
    forall j | 0 <= j < |s| ensures s[j] in x.code && OpOf(y, s[j]) == OpOf(x, s[j]) {
      assert s[j] in s;
      assert c == b || c == nb ==> s[j] in n.instrs;
      SplitOp(x, b, k, nb, s[j]);
    }
  }

  lemma OpsSlice(x: Ir, s: seq<NodeId>, k: nat)
    requires k <= |s| && forall i | i in s :: i in x.code
    ensures OpsOf(x, s[..k]) == OpsOf(x, s)[..k] && OpsOf(x, s[k..]) == OpsOf(x, s)[k..]
  {
  }

  lemma SplitNodeLinks(x: Ir, b: BlockId, k: nat, nb: BlockId, c: BlockId)
    requires b in x.blocks && k <= |x.blocks[b].instrs| && nb !in x.blocks && (c in x.blocks || c == nb)
    ensures var y, n := S.Split(x, b, k, nb), x.blocks[b];
            && c in y.blocks
            && y.blocks[c].next == (if c == b then Some(nb) else if c == nb then n.next else x.blocks[c].next)
            && y.blocks[c].prev == (if c == nb then Some(b) else if n.next == Some(c) then Some(nb) else x.blocks[c].prev)
  {
  }

  lemma SplitGraphBlock(f: Cfg, b: BlockId, k: nat, nb: BlockId, c: BlockId)
    requires b in f.blocks && k <= |f.blocks[b].instrs| && nb !in f.blocks && (c in f.blocks || c == nb)
    ensures var g, n := G.Split(f, b, k, nb), f.blocks[b];
            && c in g.blocks
            && g.blocks[c].instrs == (if c == b then n.instrs[..k] else if c == nb then n.instrs[k..] else f.blocks[c].instrs)
            && g.blocks[c].next == (if c == b then Some(nb) else if c == nb then n.next else f.blocks[c].next)
            && g.blocks[c].prev == (if c == nb then Some(b) else if n.next == Some(c) then Some(nb) else f.blocks[c].prev)
            && g.blocks[c].incoming == (if c == nb then [] else f.blocks[c].incoming)
  {
  }

  lemma MergeOp(x: Ir, b: BlockId, i: NodeId)
    requires S.Mergeable(x, b) && i in x.code && Bare(x.code[i].op)
    ensures i in S.Merge(x, b).code && OpOf(S.Merge(x, b), i) == G.Retarget(OpOf(x, i), b, x.blocks[b].next.value)
  {
  }

  lemma MergeWholeBlock(x: Ir, b: BlockId, c: BlockId)
    requires Consistent(x) && S.Mergeable(x, b) && c in x.blocks && c != b && Consistent(S.Merge(x, b))
    ensures c in S.Merge(x, b).blocks && Whole(x).blocks.Keys == x.blocks.Keys
    ensures Whole(x).blocks[b].next == x.blocks[b].next
    ensures Whole(S.Merge(x, b)).blocks[c] == G.Merge(Whole(x), b).blocks[c]
  {
    hide *;
    MergeFacts(x, b);
    var y, n := S.Merge(x, b), x.blocks[b].next.value;
    WholeBlock(x, b);
    WholeBlock(x, n);
    WholeBlock(x, c);
    MergeNodeLinks(x, b, c);
    WholeBlock(y, c);
    MergeOps(x, b, c);
    MergeGraphBlock(Whole(x), b, c);
  }

  lemma MergeOps(x: Ir, b: BlockId, c: BlockId)
    requires Consistent(x) && S.Mergeable(x, b) && c in x.blocks && c != b
    requires var y := S.Merge(x, b); c in y.blocks && NodeOk(y, y.blocks[c])
    requires NodeOk(x, x.blocks[b]) && NodeOk(x, x.blocks[c])
    ensures var y, n := S.Merge(x, b), x.blocks[b].next.value;
            OpsOf(y, y.blocks[c].instrs)
              == if c == n then G.RetargetAll(OpsOf(x, x.blocks[b].instrs) + OpsOf(x, x.blocks[c].instrs), b, n)
                 else G.RetargetAll(OpsOf(x, x.blocks[c].instrs), b, n)
  {
    hide *;
    MergeFacts(x, b);
    var y, n := S.Merge(x, b), x.blocks[b].next.value;
    S.MergeBlock(x, b, c);
    InCode(x, x.blocks[b]);
    InCode(x, x.blocks[c]);
    InCode(y, y.blocks[c]);
    var s := y.blocks[c].instrs;
    forall j | 0 <= j < |s| ensures s[j] in x.code && s[j] in y.code && OpOf(y, s[j]) == G.Retarget(OpOf(x, s[j]), b, n) {
      MergeOpAt(x, b, c, j);
    }
    AllIn(x, s);
    RetargetedOps(x, y, s, b, n);
    if c == n { OpsConcat(x, x.blocks[b].instrs, x.blocks[c].instrs); }
  }

  lemma InCode(x: Ir, n: Node)
    requires NodeOk(x, n)
    ensures forall i | i in n.instrs :: i in x.code
  {
  }

  lemma AllIn(x: Ir, s: seq<NodeId>)
    requires forall j | 0 <= j < |s| :: s[j] in x.code
    ensures forall i | i in s :: i in x.code
  {
  }

  lemma MergeOpAt(x: Ir, b: BlockId, c: BlockId, j: nat)
    requires S.Mergeable(x, b) && c in x.blocks && c != b && c in S.Merge(x, b).blocks && j < |S.Merge(x, b).blocks[c].instrs|
    requires NodeOk(x, x.blocks[b]) && NodeOk(x, x.blocks[c])
    ensures var y := S.Merge(x, b);
            var i := y.blocks[c].instrs[j];
            i in x.code && i in y.code && OpOf(y, i) == G.Retarget(OpOf(x, i), b, x.blocks[b].next.value)
  {
    S.MergeBlock(x, b, c);
    hide S.Merge, NoDup, EdgesOf, OpOf, G.Retarget;
    var i := S.Merge(x, b).blocks[c].instrs[j];
    assert i in S.Merge(x, b).blocks[c].instrs;
    assert i in x.blocks[b].instrs || i in x.blocks[c].instrs;
    MergeOp(x, b, i);
  }

  lemma RetargetedOps(x: Ir, y: Ir, s: seq<NodeId>, from: BlockId, to: BlockId)
    requires forall j | 0 <= j < |s| :: s[j] in x.code && s[j] in y.code && OpOf(y, s[j]) == G.Retarget(OpOf(x, s[j]), from, to)
    requires (forall i | i in s :: i in x.code) && (forall i | i in s :: i in y.code)
    ensures OpsOf(y, s) == G.RetargetAll(OpsOf(x, s), from, to)
  {
    hide OpOf, G.Retarget;
  }

  lemma OpsConcat(x: Ir, s: seq<NodeId>, t: seq<NodeId>)
    requires (forall i | i in s :: i in x.code) && (forall i | i in t :: i in x.code)
    ensures forall i | i in s + t :: i in x.code
    ensures OpsOf(x, s + t) == OpsOf(x, s) + OpsOf(x, t)
  {
    hide OpOf;
  }

  lemma MergeNodeLinks(x: Ir, b: BlockId, c: BlockId)
    requires S.Mergeable(x, b) && c in x.blocks && c != b
    ensures var y, m := S.Merge(x, b), x.blocks[b];
            && c in y.blocks
            && y.blocks[c].next == (if m.prev == Some(c) then m.next else x.blocks[c].next)
            && y.blocks[c].prev == (if m.next == Some(c) then m.prev else x.blocks[c].prev)
  {
  }

  lemma MergeGraphBlock(f: Cfg, b: BlockId, c: BlockId)
    requires b in f.blocks && f.blocks[b].next.Some? && f.blocks[b].next.value in f.blocks && f.blocks[b].next.value != b
    requires c in f.blocks && c != b
    ensures var g, m, n := G.Merge(f, b), f.blocks[b], f.blocks[b].next.value;
            && c in g.blocks
            && g.blocks[c].instrs == (if c == n then G.RetargetAll(m.instrs + f.blocks[c].instrs, b, n) else G.RetargetAll(f.blocks[c].instrs, b, n))
            && g.blocks[c].next == (if m.prev == Some(c) then m.next else f.blocks[c].next)
            && g.blocks[c].prev == (if m.next == Some(c) then m.prev else f.blocks[c].prev)
            && g.blocks[c].incoming == f.blocks[c].incoming
  {
  }

  lemma MergeWhole(x: Ir, b: BlockId)
    requires Consistent(x) && S.Mergeable(x, b) && Consistent(S.Merge(x, b))
    ensures Whole(x).blocks.Keys == x.blocks.Keys && Whole(x).blocks[b].next == x.blocks[b].next
    ensures G.Mergeable(Whole(x), b) && Whole(S.Merge(x, b)) == G.Merge(Whole(x), b)
  {
    hide *;
    MergeFacts(x, b);
    var y, n := S.Merge(x, b), x.blocks[b].next.value;
    WholeBlock(x, b);
    WholeComplete(x);
    S.MergeBlock(x, b, n);
    WholeBlock(y, n);
    NobodyBranches(x, n);
    MergeKeys(Whole(x), b);
    var g := G.Merge(Whole(x), b);
    forall c | c in y.blocks ensures Whole(y).blocks[c] == g.blocks[c] {
      MergeWholeBlock(x, b, c);
    }
    SameGraph(Whole(y), g);
  }

  lemma MergeFacts(x: Ir, b: BlockId)
    requires S.Mergeable(x, b)
    ensures b in x.blocks && x.blocks[b].next.Some? && x.blocks[b].next.value in x.blocks && x.blocks[b].next.value != b
    ensures x.blocks[x.blocks[b].next.value].incoming == []
  {
  }

  lemma MergeKeys(f: Cfg, b: BlockId)
    requires b in f.blocks && f.blocks[b].next.Some? && f.blocks[b].next.value in f.blocks && f.blocks[b].next.value != b
    requires G.Complete(f) && Chained(f) && G.NoBranchTo(f, f.blocks[b].next.value)
    ensures G.Mergeable(f, b) && G.Merge(f, b).blocks.Keys == f.blocks.Keys - {b}
  {
    hide G.Complete, Chained, G.NoBranchTo;
  }

  /** A block without incoming edges is no branch's target. */
  lemma NobodyBranches(x: Ir, n: BlockId)
    requires Consistent(x) && n in x.blocks && x.blocks[n].incoming == []
    ensures G.NoBranchTo(Whole(x), n)
  {
    hide Consistent;
    var f := Whole(x);
    WholeBlock(x, n);
    forall c, k | c in f.blocks && 0 <= k < |f.blocks[c].instrs| ensures f.blocks[c].instrs[k].kind != Branch(Some(n)) {
      WholeBlock(x, c);
      NotTarget(x, n, c, k);
    }
  }

  lemma NotTarget(x: Ir, n: BlockId, c: BlockId, k: nat)
    requires Consistent(x) && n in x.blocks && x.blocks[n].incoming == [] && c in x.blocks && k < |x.blocks[c].instrs|
    ensures x.blocks[c].instrs[k] in x.code && OpOf(x, x.blocks[c].instrs[k]).kind != Branch(Some(n))
  {
    var i := x.blocks[c].instrs[k];
    InstrThere(x, c, i);
    assert NodeOk(x, x.blocks[c]) && i in x.blocks[c].instrs;
  }

  // ---- fallthrough and jump ----

  /** The jump without its target. */
  function BareJump(id: InstrId): Instr { G.Jump(id, 0).(kind := Branch(None)) }

  lemma UnchainOp(x: Ir, b: BlockId, id: InstrId, i: NodeId, e: EdgeId, j: NodeId)
    requires b in x.blocks && x.blocks[b].next.Some? && x.blocks[b].next.value in x.blocks
    requires i !in x.code && e !in x.edges && (j in x.code || j == i)
    requires j in x.code && x.code[j].edge.Some? ==> x.code[j].edge.value in x.edges
    ensures var y := Unchained(x, b, BareJump(id), i, e);
            j in y.code && OpOf(y, j) == if j == i then G.Jump(id, x.blocks[b].next.value) else OpOf(x, j)
  {
  }

  lemma UnchainWholeBlock(x: Ir, b: BlockId, id: InstrId, i: NodeId, e: EdgeId, c: BlockId)
    requires Consistent(x) && b in x.blocks && x.blocks[b].next.Some? && x.blocks[b].next.value in x.blocks
    requires i !in x.code && e !in x.edges && c in x.blocks && Consistent(Unchained(x, b, BareJump(id), i, e))
    ensures c in Unchained(x, b, BareJump(id), i, e).blocks && Whole(x).blocks.Keys == x.blocks.Keys && Whole(x).blocks[b].next == x.blocks[b].next
    ensures Whole(Unchained(x, b, BareJump(id), i, e)).blocks[c] == G.Unchain(Whole(x), b, id).blocks[c]
  {
    hide *;
    var y := Unchained(x, b, BareJump(id), i, e);
    WholeBlock(x, b);
    WholeBlock(x, c);
    UnchainBlock(x, b, BareJump(id), i, e, c);
    WholeBlock(y, c);
    UnchainGraphBlock(Whole(x), b, id, c);
    UnchainOps(x, b, id, i, e, c);
  }

  lemma UnchainOps(x: Ir, b: BlockId, id: InstrId, i: NodeId, e: EdgeId, c: BlockId)
    requires Consistent(x) && b in x.blocks && x.blocks[b].next.Some? && x.blocks[b].next.value in x.blocks
    requires i !in x.code && e !in x.edges && c in x.blocks && NodeOk(x, x.blocks[c])
    requires var y := Unchained(x, b, BareJump(id), i, e); c in y.blocks && NodeOk(y, y.blocks[c])
    ensures var y, ops := Unchained(x, b, BareJump(id), i, e), OpsOf(x, x.blocks[c].instrs);
            OpsOf(y, y.blocks[c].instrs) == if c == b then ops + [G.Jump(id, x.blocks[b].next.value)] else ops
  {
    hide Consistent, Unchained, NoDup, EdgesOf, OpOf, G.Jump, EdgeOk, CodeOk, BareJump;
    var y := Unchained(x, b, BareJump(id), i, e);
    UnchainBlock(x, b, BareJump(id), i, e, c);
    var s, n := y.blocks[c].instrs, |x.blocks[c].instrs|;
    forall j | 0 <= j < |s| ensures OpOf(y, s[j]) == if j < n then OpOf(x, x.blocks[c].instrs[j]) else G.Jump(id, x.blocks[b].next.value) {
      UnchainOpAt(x, b, id, i, e, c, j);
    }
    hide NodeOk;
  }

  lemma UnchainOpAt(x: Ir, b: BlockId, id: InstrId, i: NodeId, e: EdgeId, c: BlockId, j: nat)
    requires Consistent(x) && b in x.blocks && x.blocks[b].next.Some? && x.blocks[b].next.value in x.blocks
    requires i !in x.code && e !in x.edges && c in x.blocks && NodeOk(x, x.blocks[c])
    requires var y := Unchained(x, b, BareJump(id), i, e); c in y.blocks && j < |y.blocks[c].instrs|
    ensures var y, n := Unchained(x, b, BareJump(id), i, e), |x.blocks[c].instrs|;
            && y.blocks[c].instrs[j] in y.code
            && (j < n ==> x.blocks[c].instrs[j] in x.code)
            && OpOf(y, y.blocks[c].instrs[j]) == if j < n then OpOf(x, x.blocks[c].instrs[j]) else G.Jump(id, x.blocks[b].next.value)
  {
    hide *;
    UnchainBlock(x, b, BareJump(id), i, e, c);
    if j < |x.blocks[c].instrs| {
      InstrThere(x, c, x.blocks[c].instrs[j]);
      UnchainOp(x, b, id, i, e, x.blocks[c].instrs[j]);
      OnlyNew(x, i, x.blocks[c].instrs[j]);
    } else {
      UnchainOp(x, b, id, i, e, i);
    }
  }

  lemma OnlyNew(x: Ir, i: NodeId, j: NodeId)
    requires i !in x.code && j in x.code
    ensures i != j
  {
  }

  lemma UnchainGraphKeys(f: Cfg, b: BlockId, id: InstrId)
    requires b in f.blocks && f.blocks[b].next.Some?
    ensures G.Unchain(f, b, id).blocks.Keys == f.blocks.Keys
  {
  }

  lemma UnchainGraphBlock(f: Cfg, b: BlockId, id: InstrId, c: BlockId)
    requires b in f.blocks && f.blocks[b].next.Some? && f.blocks[b].next.value in f.blocks && c in f.blocks
    ensures var g, n := G.Unchain(f, b, id), f.blocks[b].next.value;
            && c in g.blocks
            && g.blocks[c].instrs == (if c == b then f.blocks[c].instrs + [G.Jump(id, n)] else f.blocks[c].instrs)
            && g.blocks[c].next == (if c == b then None else f.blocks[c].next)
            && g.blocks[c].prev == (if c == n then None else f.blocks[c].prev)
            && g.blocks[c].incoming == f.blocks[c].incoming
  {
  }

  lemma UnchainBlock(x: Ir, b: BlockId, op: Instr, i: NodeId, e: EdgeId, c: BlockId)
    requires b in x.blocks && x.blocks[b].next.Some? && x.blocks[b].next.value in x.blocks && c in x.blocks
    ensures var y, n := Unchained(x, b, op, i, e), x.blocks[b].next.value;
            && y.blocks.Keys == x.blocks.Keys
            && y.blocks[c].instrs == (if c == b then x.blocks[c].instrs + [i] else x.blocks[c].instrs)
            && y.blocks[c].next == (if c == b then None else x.blocks[c].next)
            && y.blocks[c].prev == (if c == n then None else x.blocks[c].prev)
  {
  }

  lemma UnchainWhole(x: Ir, b: BlockId, id: InstrId, i: NodeId, e: EdgeId)
    requires Consistent(x) && b in x.blocks && x.blocks[b].next.Some? && x.blocks[b].next.value in x.blocks
    requires i !in x.code && e !in x.edges && Consistent(Unchained(x, b, BareJump(id), i, e))
    ensures Whole(x).blocks.Keys == x.blocks.Keys && Whole(x).blocks[b].next == x.blocks[b].next
    ensures Whole(Unchained(x, b, BareJump(id), i, e)) == G.Unchain(Whole(x), b, id)
  {
    hide *;
    var y := Unchained(x, b, BareJump(id), i, e);
    WholeBlock(x, b);
    UnchainBlock(x, b, BareJump(id), i, e, b);
    WholeBlock(y, b);
    UnchainGraphKeys(Whole(x), b, id);
    var g := G.Unchain(Whole(x), b, id);
    forall c | c in y.blocks ensures Whole(y).blocks[c] == g.blocks[c] {
      UnchainWholeBlock(x, b, id, i, e, c);
    }
    SameGraph(Whole(y), g);
  }
}

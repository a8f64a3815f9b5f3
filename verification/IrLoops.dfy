/** Copying loops, inverting branches and dropping jumps: the graph before and after. */
module IrLoops {
  import opened Machine
  import opened Links
  import opened Ir
  import opened IrOps
  import opened FunctionIr
  import opened IrGraph
  import P = Predicates
  import G = Surgery

  // ---- a copy and the loops through it ----

  /** x, then with a copy of b, then with the loops of b led to the copy. */
  ghost predicate Copied(x: Ir, y: Ir, z: Ir, b: BlockId, nb: BlockId) {
    && Consistent(x) && Consistent(y) && Consistent(z) && b in x.blocks && b in y.blocks && b != nb
    && CopyOf(x, y, b, nb, |x.blocks[b].instrs|) && Redirected(y, z, b, nb, y.blocks[b].outgoing)
  }

  lemma CopiedNodes(x: Ir, y: Ir, z: Ir, b: BlockId, nb: BlockId, c: BlockId)
    requires Copied(x, y, z, b, nb) && (c in x.blocks || c == nb)
    ensures c in y.blocks && c in z.blocks && z.blocks.Keys == x.blocks.Keys + {nb} && nb !in x.blocks
    ensures z.blocks[c].instrs == y.blocks[c].instrs
    ensures c != nb ==> z.blocks[c].instrs == x.blocks[c].instrs && z.blocks[c].next == x.blocks[c].next && z.blocks[c].prev == x.blocks[c].prev
    ensures c == nb ==> z.blocks[c].next.None? && z.blocks[c].prev.None? && |z.blocks[c].instrs| == |x.blocks[b].instrs|
  {
    hide Consistent, NoDup;
    assert SameNode(y.blocks[c], z.blocks[c]);
    assert c != nb ==> SameNode(x.blocks[c], y.blocks[c]);
  }

  /** An edge is redirected if it starts in b and ends there. */
  lemma RedirectedEdge(x: Ir, y: Ir, z: Ir, b: BlockId, nb: BlockId, e: EdgeId)
    requires Copied(x, y, z, b, nb) && e in y.edges
    ensures e in z.edges
    ensures z.edges[e] == if y.edges[e].src == b && y.edges[e].dst == b then y.edges[e].(dst := nb) else y.edges[e]
  {
    hide Consistent, CopyOf;
    OutgoingStart(y, b, e);
  }

  lemma OldOp(x: Ir, y: Ir, z: Ir, b: BlockId, nb: BlockId, c: BlockId, i: NodeId)
    requires Copied(x, y, z, b, nb) && c in x.blocks && i in x.blocks[c].instrs
    ensures i in x.code && i in z.code && OpOf(z, i) == if c == b then G.Retarget(OpOf(x, i), b, nb) else OpOf(x, i)
  {
    hide Consistent;
    InstrThere(x, c, i);
    BareOp(x, c, i);
    OldCode(x, y, z, b, nb, i);
    if x.code[i].edge.Some? {
      var e := x.code[i].edge.value;
      SrcBlock(x, c, i, e);
      RedirectedEdge(x, y, z, b, nb, e);
    }
    hide Copied, Consistent;
  }

  lemma OldCode(x: Ir, y: Ir, z: Ir, b: BlockId, nb: BlockId, i: NodeId)
    requires Copied(x, y, z, b, nb) && i in x.code
    ensures i in y.code && z.code == y.code && y.code[i] == x.code[i]
    ensures forall e | e in x.edges :: e in y.edges && y.edges[e] == x.edges[e]
  {
    hide Consistent, InstrCopy;
  }

  lemma BareOp(x: Ir, c: BlockId, i: NodeId)
    requires Consistent(x) && c in x.blocks && i in x.blocks[c].instrs
    ensures i in x.code && Bare(x.code[i].op)
  {
    assert NodeOk(x, x.blocks[c]);
  }

  lemma NewOp(x: Ir, y: Ir, z: Ir, b: BlockId, nb: BlockId, j: nat)
    requires Copied(x, y, z, b, nb) && j < |x.blocks[b].instrs|
    ensures nb in z.blocks && |z.blocks[nb].instrs| == |x.blocks[b].instrs|
    ensures var i, ni := x.blocks[b].instrs[j], z.blocks[nb].instrs[j];
            i in x.code && ni in z.code && OpOf(z, ni) == G.Retarget(OpOf(x, i), b, nb)
  {
    hide *;
    CopiedWell(x, y, z, b, nb);
    CopiedNodes(x, y, z, b, nb, nb);
    var i, ni := x.blocks[b].instrs[j], z.blocks[nb].instrs[j];
    InstrThere(x, b, i);
    BareOp(x, b, i);
    NewCode(x, y, z, b, nb, j);
    if x.code[i].edge.Some? {
      var e := y.code[ni].edge.value;
      SrcBlock(y, nb, ni, e);
      RedirectedEdge(x, y, z, b, nb, e);
    }
    CopiedOpIs(x, z, b, nb, i, ni);
  }

  lemma CopiedOpIs(x: Ir, z: Ir, b: BlockId, nb: BlockId, i: NodeId, ni: NodeId)
    requires i in x.code && ni in z.code && z.code[ni].op == x.code[i].op && Bare(x.code[i].op)
    requires match x.code[i].edge
             case None => z.code[ni].edge == None
             case Some(e) =>
               && e in x.edges && z.code[ni].edge.Some? && z.code[ni].edge.value in z.edges
               && z.edges[z.code[ni].edge.value].dst == if x.edges[e].dst == b then nb else x.edges[e].dst
    ensures OpOf(z, ni) == G.Retarget(OpOf(x, i), b, nb)
  {
  }

  lemma NewCode(x: Ir, y: Ir, z: Ir, b: BlockId, nb: BlockId, j: nat)
    requires Copied(x, y, z, b, nb) && j < |x.blocks[b].instrs|
    requires nb in z.blocks && nb in y.blocks && z.blocks[nb].instrs == y.blocks[nb].instrs && |y.blocks[nb].instrs| == |x.blocks[b].instrs|
    ensures InstrCopy(x, y, b, nb, x.blocks[b].instrs[j], z.blocks[nb].instrs[j])
    ensures z.blocks[nb].instrs[j] in y.blocks[nb].instrs && z.code == y.code
    ensures var i, ni := x.blocks[b].instrs[j], z.blocks[nb].instrs[j];
            && i in x.code && ni in y.code && y.code[ni].op == x.code[i].op
            && match x.code[i].edge
               case None => y.code[ni].edge == None
               case Some(e) =>
                 && e in x.edges && y.code[ni].edge.Some? && y.code[ni].edge.value in y.edges
                 && y.edges[y.code[ni].edge.value].dst == if x.edges[e].dst == b then nb else x.edges[e].dst
  {
    hide Consistent;
    assert InstrCopy(x, y, b, nb, x.blocks[b].instrs[j], y.blocks[nb].instrs[j]);
  }

  lemma CopiedOps(x: Ir, y: Ir, z: Ir, b: BlockId, nb: BlockId, c: BlockId)
    requires Copied(x, y, z, b, nb) && b in x.blocks && (c in x.blocks || c == nb)
    requires c in z.blocks && NodeOk(z, z.blocks[c]) && NodeOk(x, x.blocks[b]) && (c in x.blocks ==> NodeOk(x, x.blocks[c]))
    ensures OpsOf(z, z.blocks[c].instrs)
              == if c == b || c == nb then G.RetargetAll(OpsOf(x, x.blocks[b].instrs), b, nb) else OpsOf(x, x.blocks[c].instrs)
  {
    hide *;
    CopiedNodes(x, y, z, b, nb, c);
    InCode(z, z.blocks[c]);
    InCode(x, x.blocks[b]);
    var s := z.blocks[c].instrs;
    if c == nb {
      forall j | 0 <= j < |s| ensures s[j] in z.code && x.blocks[b].instrs[j] in x.code && OpOf(z, s[j]) == G.Retarget(OpOf(x, x.blocks[b].instrs[j]), b, nb) {
        NewOp(x, y, z, b, nb, j);
      }
      PairedOps(x, z, x.blocks[b].instrs, s, b, nb);
    } else {
      InCode(x, x.blocks[c]);
      forall j | 0 <= j < |s| ensures s[j] in z.code && s[j] in x.code && OpOf(z, s[j]) == if c == b then G.Retarget(OpOf(x, s[j]), b, nb) else OpOf(x, s[j]) {
        OldOp(x, y, z, b, nb, c, s[j]);
      }
      if c == b {
        PairedOps(x, z, s, s, b, nb);
      } else {
        SameOps(z, s, OpsOf(x, s)) by { OpsAt(x, s); }
      }
    }
  }

  lemma OpsAt(x: Ir, s: seq<NodeId>)
    requires forall i | i in s :: i in x.code
    ensures |OpsOf(x, s)| == |s| && forall j | 0 <= j < |s| :: s[j] in x.code && OpsOf(x, s)[j] == OpOf(x, s[j])
  {
    hide OpOf;
  }

  lemma PairedOps(x: Ir, z: Ir, s: seq<NodeId>, t: seq<NodeId>, from: BlockId, to: BlockId)
    requires |s| == |t|
    requires forall j | 0 <= j < |s| :: t[j] in z.code && s[j] in x.code && OpOf(z, t[j]) == G.Retarget(OpOf(x, s[j]), from, to)
    requires (forall i | i in s :: i in x.code) && (forall i | i in t :: i in z.code)
    ensures OpsOf(z, t) == G.RetargetAll(OpsOf(x, s), from, to)
  {
    hide OpOf, G.Retarget;
  }

  lemma CopyGraphBlock(f: Cfg, b: BlockId, nb: BlockId, c: BlockId)
    requires b in f.blocks && nb !in f.blocks && (c in f.blocks || c == nb)
    ensures var g := G.CopyLoop(f, b, nb);
            && g.blocks.Keys == f.blocks.Keys + {nb} && c in g.blocks
            && g.blocks[c] == (if c == nb then Block(G.RetargetAll(f.blocks[b].instrs, b, nb), None, None, [])
                               else if c == b then f.blocks[b].(instrs := G.RetargetAll(f.blocks[b].instrs, b, nb))
                               else f.blocks[c])
  {
  }

  /** Copying a block and leading its loops to the copy is the rewrite of the graph of that name. */
  lemma CopyWhole(x: Ir, y: Ir, z: Ir, b: BlockId, nb: BlockId)
    requires Copied(x, y, z, b, nb)
    ensures Consistent(x) && Consistent(z) && Whole(x).blocks.Keys == x.blocks.Keys && b in x.blocks && nb !in x.blocks
    ensures Whole(z) == G.CopyLoop(Whole(x), b, nb)
  {
    hide *;
    CopiedWell(x, y, z, b, nb);
    CopiedNodes(x, y, z, b, nb, nb);
    WholeBlock(x, b);
    WholeBlock(z, nb);
    CopyGraphBlock(Whole(x), b, nb, nb);
    var g := G.CopyLoop(Whole(x), b, nb);
    forall c | c in z.blocks ensures c in g.blocks && Whole(z).blocks[c] == g.blocks[c] {
      CopyWholeBlock(x, y, z, b, nb, c);
    }
    SameGraph(Whole(z), g);
  }

  lemma CopyWholeBlock(x: Ir, y: Ir, z: Ir, b: BlockId, nb: BlockId, c: BlockId)
    requires Copied(x, y, z, b, nb) && Consistent(x) && Consistent(z) && Whole(x).blocks.Keys == x.blocks.Keys
    requires b in x.blocks && nb !in x.blocks && (c in x.blocks || c == nb) && c in z.blocks
    ensures c in G.CopyLoop(Whole(x), b, nb).blocks && Whole(z).blocks.Keys == z.blocks.Keys
    ensures Whole(z).blocks[c] == G.CopyLoop(Whole(x), b, nb).blocks[c]
  {
    hide *;
    CopiedNodes(x, y, z, b, nb, c);
    CopyGraphBlock(Whole(x), b, nb, c);
    WholeBlock(z, c);
    WholeBlock(x, b);
    if c != nb { WholeBlock(x, c); }
    CopiedOps(x, y, z, b, nb, c);
  }

  lemma CopiedWell(x: Ir, y: Ir, z: Ir, b: BlockId, nb: BlockId)
    requires Copied(x, y, z, b, nb)
    ensures Consistent(x) && Consistent(y) && Consistent(z) && b in x.blocks && b != nb
  {
  }

  // ---- taking an instruction out ----

  lemma RemovedOp(x: Ir, b: BlockId, i: NodeId, j: NodeId)
    requires Consistent(x) && b in x.blocks && i in x.blocks[b].instrs && i in x.code && j in x.code && j != i
    ensures j in RemovedInstr(x, b, i).code && OpOf(RemovedInstr(x, b, i), j) == OpOf(x, j)
  {
    hide Consistent, Without;
    InstrThere(x, b, i);
    if x.code[j].edge.Some? {
      OtherEdge(x, i, j);
    }
  }

  lemma OtherEdge(x: Ir, i: NodeId, j: NodeId)
    requires Consistent(x) && i in x.code && j in x.code && i != j && x.code[j].edge.Some?
    ensures x.code[i].edge != x.code[j].edge && x.code[j].edge.value in x.edges
  {
    assert CodeOk(x, j);
    assert x.code[i].edge.Some? ==> CodeOk(x, i);
  }

  lemma RemovedBlock(x: Ir, b: BlockId, i: NodeId, c: BlockId)
    requires b in x.blocks && i in x.code && c in x.blocks
    ensures var y := RemovedInstr(x, b, i);
            && y.blocks.Keys == x.blocks.Keys
            && y.blocks[c].instrs == (if c == b then Without(x.blocks[c].instrs, i) else x.blocks[c].instrs)
            && y.blocks[c].next == x.blocks[c].next && y.blocks[c].prev == x.blocks[c].prev
  {
    var e := x.code[i].edge;
    if e.Some? && e.value in x.edges && x.edges[e.value].src in x.blocks && x.edges[e.value].dst in x.blocks && x.edges[e.value].instr in x.code {
      DropEdgeBlock(x, e.value, c);
      DropEdgeBlock(x, e.value, b);
      DropEdgeKeys(x, e.value);
      hide DropEdge, Without;
    } else {
      hide DropEdge, Without;
    }
  }

  lemma DropEdgeKeys(x: Ir, e: EdgeId)
    requires e in x.edges && x.edges[e].src in x.blocks && x.edges[e].dst in x.blocks && x.edges[e].instr in x.code
    ensures DropEdge(x, e).blocks.Keys == x.blocks.Keys
  {
  }

  lemma LinkBlock(x: Ir, b: BlockId, n: BlockId, c: BlockId)
    requires b in x.blocks && n in x.blocks && c in x.blocks
    ensures var y := Link(x, b, n);
            && y.blocks.Keys == x.blocks.Keys && y.code == x.code && y.edges == x.edges
            && y.blocks[c].instrs == x.blocks[c].instrs
            && y.blocks[c].next == (if c == b then Some(n) else x.blocks[c].next)
            && y.blocks[c].prev == (if c == n then Some(b) else x.blocks[c].prev)
  {
  }

  /** The blocks are consistent and make up this graph. */
  ghost predicate Makes(x: Ir, f: Cfg) {
    Consistent(x) && Whole(x) == f
  }

  lemma MakesIs(x: Ir, f: Cfg)
    requires Consistent(x) && Whole(x) == f
    ensures Makes(x, f)
  {
  }

  /** The last instruction of the block, and where its branch goes. */
  ghost predicate LastBranch(x: Ir, b: BlockId, k: nat, i: NodeId, d: BlockId) {
    && b in x.blocks && k < |x.blocks[b].instrs| && x.blocks[b].instrs[k] == i
    && i in x.code && x.code[i].edge.Some? && x.code[i].edge.value in x.edges && x.edges[x.code[i].edge.value].dst == d
  }

  lemma BranchLeads(x: Ir, b: BlockId, k: nat, i: NodeId, d: BlockId)
    requires LastBranch(x, b, k, i, d) && Consistent(x)
    ensures d in x.blocks && i in x.blocks[b].instrs && OpOf(x, i).kind == Branch(Some(d)) && NoDup(x.blocks[b].instrs)
    ensures Without(x.blocks[b].instrs, i) == x.blocks[b].instrs[..k] + x.blocks[b].instrs[k + 1..]
    ensures forall j | 0 <= j < |x.blocks[b].instrs| && j != k :: x.blocks[b].instrs[j] != i
  {
    hide Consistent;
    var s := x.blocks[b].instrs;
    assert s[k] in s;
    InstrThere(x, b, i);
    WithoutAt(s, i, k);
    hide Without;
  }

  // ---- replacing a final jump by the fallthrough ----

  /** Link first, then remove the jump along with its edge. */
  ghost function ChainedIr(x: Ir, b: BlockId, i: NodeId, d: BlockId): Ir {
    if b in x.blocks && d in x.blocks && i in x.code then
      LinkBlock(x, b, d, b);
      RemovedInstr(Link(x, b, d), b, i)
    else x
  }

  lemma ChainedBlock(x: Ir, b: BlockId, i: NodeId, d: BlockId, c: BlockId)
    requires b in x.blocks && d in x.blocks && i in x.code && c in x.blocks
    ensures var y := ChainedIr(x, b, i, d);
            && y.blocks.Keys == x.blocks.Keys
            && y.blocks[c].instrs == (if c == b then Without(x.blocks[c].instrs, i) else x.blocks[c].instrs)
            && y.blocks[c].next == (if c == b then Some(d) else x.blocks[c].next)
            && y.blocks[c].prev == (if c == d then Some(b) else x.blocks[c].prev)
  {
    LinkBlock(x, b, d, c);
    LinkBlock(x, b, d, b);
    RemovedBlock(Link(x, b, d), b, i, c);
    hide Link, RemovedInstr, Without;
  }

  lemma LinkedOp(x: Ir, b: BlockId, n: BlockId, j: NodeId)
    requires b in x.blocks && n in x.blocks && j in x.code
    ensures j in Link(x, b, n).code && OpOf(Link(x, b, n), j) == OpOf(x, j)
  {
  }

  lemma ChainedOp(x: Ir, b: BlockId, k: nat, i: NodeId, d: BlockId, j: NodeId)
    requires LastBranch(x, b, k, i, d) && Consistent(x) && x.blocks[b].next.None? && d in x.blocks && x.blocks[d].prev.None? && j in x.code && j != i
    ensures j in ChainedIr(x, b, i, d).code && OpOf(ChainedIr(x, b, i, d), j) == OpOf(x, j)
  {
    LinkConsistent(x, b, d);
    LinkBlock(x, b, d, b);
    BranchLeads(x, b, k, i, d);
    hide Consistent, Link, RemovedInstr, Without, SameLists;
    LinkedOp(x, b, d, j);
    RemovedOp(Link(x, b, d), b, i, j);
  }

  lemma ChainGraphBlock(f: Cfg, b: BlockId, d: BlockId, c: BlockId)
    requires b in f.blocks && f.blocks[b].instrs != [] && f.blocks[b].instrs[|f.blocks[b].instrs| - 1].kind == Branch(Some(d))
    requires c in f.blocks && d in f.blocks
    ensures var g := G.Chain(f, b);
            && g.blocks.Keys == f.blocks.Keys
            && g.blocks[c].instrs == (if c == b then f.blocks[c].instrs[..|f.blocks[c].instrs| - 1] else f.blocks[c].instrs)
            && g.blocks[c].next == (if c == b then Some(d) else f.blocks[c].next)
            && g.blocks[c].prev == (if c == d then Some(b) else f.blocks[c].prev)
            && g.blocks[c].incoming == f.blocks[c].incoming
  {
  }

  /** A list without the instruction at k. */
  lemma ShorterOps(x: Ir, y: Ir, s: seq<NodeId>, k: nat)
    requires k < |s| && (forall i | i in s :: i in x.code)
    requires forall j | 0 <= j < |s| && j != k :: s[j] in y.code && OpOf(y, s[j]) == OpOf(x, s[j])
    requires forall i | i in s[..k] + s[k + 1..] :: i in y.code
    ensures OpsOf(y, s[..k] + s[k + 1..]) == OpsOf(x, s)[..k] + OpsOf(x, s)[k + 1..]
  {
    hide OpOf;
    var t := s[..k] + s[k + 1..];
    forall j | 0 <= j < |t| ensures t[j] == s[if j < k then j else j + 1] {
    }
  }

  lemma UnchangedOps(x: Ir, y: Ir, s: seq<NodeId>)
    requires (forall i | i in s :: i in x.code) && (forall i | i in s :: i in y.code && OpOf(y, i) == OpOf(x, i))
    ensures OpsOf(y, s) == OpsOf(x, s)
  {
    hide OpOf;
  }

  lemma ChainedConsistent(x: Ir, b: BlockId, k: nat, i: NodeId, d: BlockId)
    requires LastBranch(x, b, k, i, d) && Consistent(x) && x.blocks[b].next.None? && d in x.blocks && x.blocks[d].prev.None?
    ensures Consistent(ChainedIr(x, b, i, d))
  {
    BranchLeads(x, b, k, i, d);
    hide Consistent, RemovedInstr, SameLists, Link;
    LinkConsistent(x, b, d);
    LinkBlock(x, b, d, b);
    RemovedInstrConsistent(Link(x, b, d), b, i);
  }

  lemma NotElsewhere(x: Ir, b: BlockId, i: NodeId, c: BlockId)
    requires Consistent(x) && b in x.blocks && c in x.blocks && b != c && i in x.blocks[b].instrs
    ensures i !in x.blocks[c].instrs
  {
    assert NoneShared(x.blocks[b].instrs, x.blocks[c].instrs);
  }

  lemma ChainedOps(x: Ir, b: BlockId, k: nat, i: NodeId, d: BlockId, c: BlockId)
    requires LastBranch(x, b, k, i, d) && Consistent(x) && x.blocks[b].next.None? && d in x.blocks && x.blocks[d].prev.None?
    requires k == |x.blocks[b].instrs| - 1 && c in x.blocks && NodeOk(x, x.blocks[c])
    requires var y := ChainedIr(x, b, i, d); c in y.blocks && NodeOk(y, y.blocks[c])
    ensures OpsOf(ChainedIr(x, b, i, d), ChainedIr(x, b, i, d).blocks[c].instrs)
              == if c == b then OpsOf(x, x.blocks[c].instrs)[..k] else OpsOf(x, x.blocks[c].instrs)
  {
    hide *;
    LastKnown(x, b, k, i, d);
    var y, s := ChainedIr(x, b, i, d), x.blocks[c].instrs;
    InCode(x, x.blocks[c]);
    InCode(y, y.blocks[c]);
    ChainedBlock(x, b, i, d, c);
    BranchLeads(x, b, k, i, d);
    if c == b {
      forall j | 0 <= j < |s| && j != k ensures s[j] in y.code && OpOf(y, s[j]) == OpOf(x, s[j]) {
        ChainedOp(x, b, k, i, d, s[j]);
      }
      ShorterOps(x, y, s, k);
      assert s[k + 1..] == [];
      OpsAt(x, s);
      assert OpsOf(x, s)[k + 1..] == [];
      assert OpsOf(x, s)[..k] + [] == OpsOf(x, s)[..k];
    } else {
      NotElsewhere(x, b, i, c);
      forall j | j in s ensures j in y.code && OpOf(y, j) == OpOf(x, j) {
        ChainedOp(x, b, k, i, d, j);
      }
      UnchangedOps(x, y, s);
    }
  }

  lemma LastKnown(x: Ir, b: BlockId, k: nat, i: NodeId, d: BlockId)
    requires LastBranch(x, b, k, i, d) && Consistent(x)
    ensures Consistent(x) && b in x.blocks && k < |x.blocks[b].instrs| && x.blocks[b].instrs[k] == i && i in x.code
  {
  }

  /** A block whose last instruction jumps to a block that has no predecessor in a chain. */
  ghost predicate Chainable(x: Ir, b: BlockId, i: NodeId, d: BlockId) {
    && b in x.blocks && x.blocks[b].instrs != [] && LastBranch(x, b, |x.blocks[b].instrs| - 1, i, d)
    && x.blocks[b].next.None? && d in x.blocks && x.blocks[d].prev.None?
  }

  /** The graph of these blocks ends block b with a branch to d. */
  predicate EndsWith(f: Cfg, b: BlockId, d: BlockId) {
    && b in f.blocks && d in f.blocks && f.blocks[b].instrs != []
    && f.blocks[b].instrs[|f.blocks[b].instrs| - 1].kind == Branch(Some(d))
  }

  lemma ChainWholeBlock(x: Ir, y: Ir, f: Cfg, g: Cfg, h: Cfg, b: BlockId, i: NodeId, d: BlockId, c: BlockId)
    requires EndsWith(f, b, d) && h == G.Chain(f, b) && c in f.blocks && c in g.blocks && c in h.blocks
    requires Chainable(x, b, i, d) && y == ChainedIr(x, b, i, d)
    requires Consistent(y) && g == Whole(y)
    requires Consistent(x) && f == Whole(x)
    ensures g.blocks[c] == h.blocks[c]
  {
    hide *;
    ChainableFacts(x, b, i, d);
    var k := |x.blocks[b].instrs| - 1;
    LastKnown(x, b, k, i, d);
    WholeBlock(x, b);
    WholeBlock(x, c);
    ChainedBlock(x, b, i, d, c);
    WholeBlock(y, c);
    ChainedOps(x, b, k, i, d, c);
    EndsFacts(f, b, d);
    ChainGraphBlock(f, b, d, c);
  }

  lemma ChainableFacts(x: Ir, b: BlockId, i: NodeId, d: BlockId)
    requires Chainable(x, b, i, d)
    ensures b in x.blocks && x.blocks[b].instrs != [] && LastBranch(x, b, |x.blocks[b].instrs| - 1, i, d)
    ensures x.blocks[b].next.None? && d in x.blocks && x.blocks[d].prev.None? && i in x.code
  {
  }

  lemma EndsFacts(f: Cfg, b: BlockId, d: BlockId)
    requires EndsWith(f, b, d)
    ensures b in f.blocks && d in f.blocks && f.blocks[b].instrs != []
    ensures f.blocks[b].instrs[|f.blocks[b].instrs| - 1].kind == Branch(Some(d))
  {
  }

  lemma WholeEnds(x: Ir, b: BlockId, i: NodeId, d: BlockId)
    requires Chainable(x, b, i, d) && Consistent(x)
    ensures EndsWith(Whole(x), b, d)
  {
    hide *;
    ChainableFacts(x, b, i, d);
    var k := |x.blocks[b].instrs| - 1;
    BranchLeads(x, b, k, i, d);
    WholeBlock(x, b);
    InCode(x, x.blocks[b]);
    OpsAt(x, x.blocks[b].instrs);
    LastKnown(x, b, k, i, d);
    EndsIs(Whole(x), b, d);
  }

  lemma ChainWhole(x: Ir, f: Cfg, h: Cfg, b: BlockId, i: NodeId, d: BlockId)
    requires EndsWith(f, b, d) && h == G.Chain(f, b)
    requires Chainable(x, b, i, d) && Makes(x, f)
    ensures Makes(ChainedIr(x, b, i, d), h)
  {
    hide *;
    MakesFacts(x, f);
    ChainableFacts(x, b, i, d);
    var k := |x.blocks[b].instrs| - 1;
    ChainedConsistent(x, b, k, i, d);
    WholeBlock(x, b);
    EndsFacts(f, b, d);
    var y := ChainedIr(x, b, i, d);
    ChainGraphBlock(f, b, d, b);
    ChainedBlock(x, b, i, d, b);
    WholeBlock(y, b);
    var g := Whole(y);
    forall c | c in f.blocks ensures c in g.blocks && c in h.blocks && g.blocks[c] == h.blocks[c] {
      ChainWholeBlock(x, y, f, g, h, b, i, d, c);
    }
    SameGraph(g, h);
    MakesIs(y, h);
  }

  lemma MakesFacts(x: Ir, f: Cfg)
    requires Makes(x, f)
    ensures Consistent(x) && Whole(x) == f
  {
  }

  lemma EndsIs(f: Cfg, b: BlockId, d: BlockId)
    requires b in f.blocks && d in f.blocks && f.blocks[b].instrs != []
    requires f.blocks[b].instrs[|f.blocks[b].instrs| - 1].kind == Branch(Some(d))
    ensures EndsWith(f, b, d)
  {
  }

  // ---- inverting a branch ----

  /** The block ends with a branch to copy and a jump, and nothing is chained to either block. */
  ghost predicate TwoBranches(x: Ir, b: BlockId, jcc: NodeId, jmp: NodeId, copy: BlockId) {
    && b in x.blocks && |x.blocks[b].instrs| >= 2
    && LastBranch(x, b, |x.blocks[b].instrs| - 2, jcc, copy)
    && x.blocks[b].instrs[|x.blocks[b].instrs| - 1] == jmp && jmp in x.code && x.code[jmp].edge.Some?
    && x.blocks[b].next.None? && copy in x.blocks && x.blocks[copy].prev.None?
  }

  /** Drop the branch, give the jump the inverted opcode, chain the copy. */
  ghost function InvertedIr(cc: P.Condition, x: Ir, b: BlockId, jcc: NodeId, jmp: NodeId, copy: BlockId): Ir {
    if b in x.blocks && copy in x.blocks && jcc in x.code && jmp in x.code && jcc != jmp then
      var y := RemovedInstr(x, b, jcc);
      Link(SetOp(y, jmp, G.Inverted(cc, x.code[jcc].op, x.code[jmp].op)), b, copy)
    else x
  }

  lemma TwoFacts(x: Ir, b: BlockId, jcc: NodeId, jmp: NodeId, copy: BlockId)
    requires TwoBranches(x, b, jcc, jmp, copy)
    ensures b in x.blocks && |x.blocks[b].instrs| >= 2 && LastBranch(x, b, |x.blocks[b].instrs| - 2, jcc, copy)
    ensures x.blocks[b].instrs[|x.blocks[b].instrs| - 2] == jcc && x.blocks[b].instrs[|x.blocks[b].instrs| - 1] == jmp
    ensures jcc in x.code && jmp in x.code && x.code[jmp].edge.Some?
    ensures x.blocks[b].next.None? && copy in x.blocks && x.blocks[copy].prev.None?
  {
  }

  lemma Different(x: Ir, b: BlockId, jcc: NodeId, jmp: NodeId, copy: BlockId)
    requires TwoBranches(x, b, jcc, jmp, copy) && Consistent(x)
    ensures jcc != jmp && jcc in x.blocks[b].instrs && jmp in x.blocks[b].instrs
    ensures Bare(x.code[jmp].op) && Bare(x.code[jcc].op) && x.code[jmp].op.kind.Branch? && x.code[jcc].op.kind.Branch?
    ensures x.code[jmp].edge.value in x.edges
  {
    hide Consistent, TwoBranches, LastBranch, NoDup, EdgeOk, Without;
    TwoFacts(x, b, jcc, jmp, copy);
    var s := x.blocks[b].instrs;
    assert s[|s| - 2] in s && s[|s| - 1] in s;
    BranchLeads(x, b, |s| - 2, jcc, copy);
    BareOp(x, b, jcc);
    BareOp(x, b, jmp);
    InstrThere(x, b, jmp);
    InstrThere(x, b, jcc);
  }

  lemma InvertedBlock(cc: P.Condition, x: Ir, b: BlockId, jcc: NodeId, jmp: NodeId, copy: BlockId, c: BlockId)
    requires b in x.blocks && copy in x.blocks && jcc in x.code && jmp in x.code && jcc != jmp && c in x.blocks
    ensures var y := InvertedIr(cc, x, b, jcc, jmp, copy);
            && y.blocks.Keys == x.blocks.Keys
            && y.blocks[c].instrs == (if c == b then Without(x.blocks[c].instrs, jcc) else x.blocks[c].instrs)
            && y.blocks[c].next == (if c == b then Some(copy) else x.blocks[c].next)
            && y.blocks[c].prev == (if c == copy then Some(b) else x.blocks[c].prev)
  {
    RemovedBlock(x, b, jcc, c);
    var y2 := SetOp(RemovedInstr(x, b, jcc), jmp, G.Inverted(cc, x.code[jcc].op, x.code[jmp].op));
    LinkBlock(y2, b, copy, c);
    hide Link, RemovedInstr, Without;
  }

  lemma InvertedConsistent(cc: P.Condition, x: Ir, b: BlockId, jcc: NodeId, jmp: NodeId, copy: BlockId)
    requires TwoBranches(x, b, jcc, jmp, copy) && Consistent(x)
    ensures Consistent(InvertedIr(cc, x, b, jcc, jmp, copy))
  {
    hide Consistent, RemovedInstr, SameLists, Link, SetOp;
    TwoFacts(x, b, jcc, jmp, copy);
    Different(x, b, jcc, jmp, copy);
    RemovedInstrConsistent(x, b, jcc);
    var y := RemovedInstr(x, b, jcc);
    RemovedCode(x, b, jcc, jmp);
    var op := G.Inverted(cc, x.code[jcc].op, x.code[jmp].op);
    SetOpConsistent(y, jmp, op);
    SetOpBlocks(y, jmp, op);
    RemovedBlock(x, b, jcc, b);
    RemovedBlock(x, b, jcc, copy);
    LinkConsistent(SetOp(y, jmp, op), b, copy);
  }

  lemma SetOpBlocks(x: Ir, i: NodeId, op: Instr)
    requires i in x.code
    ensures SetOp(x, i, op).blocks == x.blocks
  {
  }

  lemma RemovedCode(x: Ir, b: BlockId, i: NodeId, j: NodeId)
    requires Consistent(x) && b in x.blocks && i in x.blocks[b].instrs && i in x.code && j in x.code && j != i
    ensures var y := RemovedInstr(x, b, i); j in y.code && y.code[j] == x.code[j]
    ensures x.code[j].edge.Some? ==>
              var e := x.code[j].edge.value;
              e in x.edges && e in RemovedInstr(x, b, i).edges && RemovedInstr(x, b, i).edges[e] == x.edges[e]
  {
    InstrThere(x, b, i);
    if x.code[j].edge.Some? {
      OtherEdge(x, i, j);
    }
    hide Consistent, Without;
  }

  lemma InvertedOp(cc: P.Condition, x: Ir, b: BlockId, jcc: NodeId, jmp: NodeId, copy: BlockId, j: NodeId)
    requires TwoBranches(x, b, jcc, jmp, copy) && Consistent(x) && j in x.code && j != jcc
    ensures jcc in x.code && jmp in x.code && j in InvertedIr(cc, x, b, jcc, jmp, copy).code
    ensures OpOf(InvertedIr(cc, x, b, jcc, jmp, copy), j)
              == if j == jmp then G.Inverted(cc, OpOf(x, jcc), OpOf(x, jmp)) else OpOf(x, j)
  {
    hide Consistent, RemovedInstr, Without;
    TwoFacts(x, b, jcc, jmp, copy);
    Different(x, b, jcc, jmp, copy);
    RemovedCode(x, b, jcc, j);
    RemovedCode(x, b, jcc, jmp);
    RemovedBlock(x, b, jcc, b);
    RemovedBlock(x, b, jcc, copy);
    hide TwoBranches;
    InvertedOpIs(cc, x.code[jcc].op, x.code[jmp].op, OpOf(x, jcc), OpOf(x, jmp));
  }

  /** The inverted opcode does not depend on where the branches go. */
  lemma InvertedOpIs(cc: P.Condition, jcc: Instr, jmp: Instr, jcc': Instr, jmp': Instr)
    requires jcc' == jcc.(kind := jcc'.kind) && jmp' == jmp.(kind := jmp'.kind)
    ensures G.Inverted(cc, jcc, jmp).(kind := jmp'.kind) == G.Inverted(cc, jcc', jmp')
  {
  }

  /** The graph ends block b with a branch to d and one instruction more. */
  predicate EndsTwo(f: Cfg, b: BlockId, d: BlockId) {
    && b in f.blocks && d in f.blocks && |f.blocks[b].instrs| >= 2
    && f.blocks[b].instrs[|f.blocks[b].instrs| - 2].kind == Branch(Some(d))
  }

  lemma InvertGraphBlock(cc: P.Condition, f: Cfg, b: BlockId, d: BlockId, c: BlockId)
    requires EndsTwo(f, b, d) && c in f.blocks
    ensures var g, s, m := G.Invert(cc, f, b), f.blocks[b].instrs, |f.blocks[b].instrs|;
            && g.blocks.Keys == f.blocks.Keys
            && g.blocks[c].instrs == (if c == b then s[..m - 2] + [G.Inverted(cc, s[m - 2], s[m - 1])] else f.blocks[c].instrs)
            && g.blocks[c].next == (if c == b then Some(d) else f.blocks[c].next)
            && g.blocks[c].prev == (if c == d then Some(b) else f.blocks[c].prev)
            && g.blocks[c].incoming == f.blocks[c].incoming
  {
  }

  /** A list without the instruction before the last, which has changed. */
  lemma InvertedList(x: Ir, y: Ir, s: seq<NodeId>, op: Instr)
    requires |s| >= 2 && (forall i | i in s :: i in x.code)
    requires forall j | 0 <= j < |s| - 2 :: s[j] in y.code && OpOf(y, s[j]) == OpOf(x, s[j])
    requires s[|s| - 1] in y.code && OpOf(y, s[|s| - 1]) == op
    requires forall i | i in s[..|s| - 2] + s[|s| - 1..] :: i in y.code
    ensures OpsOf(y, s[..|s| - 2] + s[|s| - 1..]) == OpsOf(x, s)[..|s| - 2] + [op]
  {
    hide OpOf;
    var t := s[..|s| - 2] + s[|s| - 1..];
    forall j | 0 <= j < |t| ensures t[j] == s[if j < |s| - 2 then j else j + 1] {
    }
  }

  lemma InvertedOps(cc: P.Condition, x: Ir, y: Ir, b: BlockId, jcc: NodeId, jmp: NodeId, copy: BlockId, c: BlockId)
    requires TwoBranches(x, b, jcc, jmp, copy) && y == InvertedIr(cc, x, b, jcc, jmp, copy) && c in x.blocks && c in y.blocks
    requires Consistent(x) && NodeOk(x, x.blocks[c]) && NodeOk(y, y.blocks[c]) && NodeOk(x, x.blocks[b])
    ensures var ops, m := OpsOf(x, x.blocks[c].instrs), |x.blocks[c].instrs|;
            OpsOf(y, y.blocks[c].instrs) == if c == b && m >= 2 then ops[..m - 2] + [G.Inverted(cc, ops[m - 2], ops[m - 1])] else ops
  {
    hide *;
    var s := x.blocks[c].instrs;
    TwoFacts(x, b, jcc, jmp, copy);
    Different(x, b, jcc, jmp, copy);
    BranchLeads(x, b, |x.blocks[b].instrs| - 2, jcc, copy);
    InCode(x, x.blocks[c]);
    InCode(y, y.blocks[c]);
    InvertedBlock(cc, x, b, jcc, jmp, copy, c);
    if c == b {
      Distinct(s, |s| - 2, jcc);
      forall j | 0 <= j < |s| - 2 ensures s[j] in y.code && OpOf(y, s[j]) == OpOf(x, s[j]) {
        LastApart(s, jmp, j);
        InvertedOp(cc, x, b, jcc, jmp, copy, s[j]);
      }
      InvertedOp(cc, x, b, jcc, jmp, copy, jmp);
      OpsAt(x, s);
      InvertedList(x, y, s, G.Inverted(cc, OpOf(x, jcc), OpOf(x, jmp)));
    } else {
      NotElsewhere(x, b, jcc, c);
      NotElsewhere(x, b, jmp, c);
      forall j | j in s ensures j in y.code && OpOf(y, j) == OpOf(x, j) {
        InvertedOp(cc, x, b, jcc, jmp, copy, j);
      }
      UnchangedOps(x, y, s);
    }
  }

  lemma Distinct(s: seq<NodeId>, k: nat, i: NodeId)
    requires NoDup(s) && k < |s| && s[k] == i
    ensures forall j | 0 <= j < |s| && j != k :: s[j] != i
  {
  }

  lemma LastApart(s: seq<NodeId>, i: NodeId, j: nat)
    requires NoDup(s) && |s| >= 2 && s[|s| - 1] == i && j < |s| - 2
    ensures s[j] != i
  {
  }

  lemma InvertWholeBlock(cc: P.Condition, x: Ir, y: Ir, f: Cfg, g: Cfg, h: Cfg, b: BlockId, jcc: NodeId, jmp: NodeId, copy: BlockId, c: BlockId)
    requires EndsTwo(f, b, copy) && h == G.Invert(cc, f, b) && c in f.blocks && c in g.blocks && c in h.blocks
    requires TwoBranches(x, b, jcc, jmp, copy) && y == InvertedIr(cc, x, b, jcc, jmp, copy)
    requires Consistent(y) && g == Whole(y)
    requires Consistent(x) && f == Whole(x)
    ensures g.blocks[c] == h.blocks[c]
  {
    hide *;
    TwoFacts(x, b, jcc, jmp, copy);
    Different(x, b, jcc, jmp, copy);
    WholeBlock(x, b);
    WholeBlock(x, c);
    InvertedBlock(cc, x, b, jcc, jmp, copy, c);
    WholeBlock(y, c);
    InvertedOps(cc, x, y, b, jcc, jmp, copy, c);
    TwoKnown(f, b, copy);
    InvertGraphBlock(cc, f, b, copy, c);
  }

  lemma InvertWhole(cc: P.Condition, x: Ir, f: Cfg, h: Cfg, b: BlockId, jcc: NodeId, jmp: NodeId, copy: BlockId)
    requires EndsTwo(f, b, copy) && h == G.Invert(cc, f, b)
    requires TwoBranches(x, b, jcc, jmp, copy) && Makes(x, f)
    ensures Makes(InvertedIr(cc, x, b, jcc, jmp, copy), h)
  {
    hide *;
    MakesFacts(x, f);
    TwoFacts(x, b, jcc, jmp, copy);
    Different(x, b, jcc, jmp, copy);
    InvertedConsistent(cc, x, b, jcc, jmp, copy);
    WholeBlock(x, b);
    var y := InvertedIr(cc, x, b, jcc, jmp, copy);
    TwoKnown(f, b, copy);
    InvertGraphBlock(cc, f, b, copy, b);
    InvertedBlock(cc, x, b, jcc, jmp, copy, b);
    WholeBlock(y, b);
    var g := Whole(y);
    forall c | c in f.blocks ensures c in g.blocks && c in h.blocks && g.blocks[c] == h.blocks[c] {
      InvertWholeBlock(cc, x, y, f, g, h, b, jcc, jmp, copy, c);
    }
    SameGraph(g, h);
    MakesIs(y, h);
  }

  lemma TwoKnown(f: Cfg, b: BlockId, d: BlockId)
    requires EndsTwo(f, b, d)
    ensures b in f.blocks && |f.blocks[b].instrs| >= 2 && f.blocks[b].instrs[|f.blocks[b].instrs| - 2].kind == Branch(Some(d))
  {
  }
}

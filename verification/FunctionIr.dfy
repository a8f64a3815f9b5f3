/** A function under rewriting: its blocks, instructions and edges, changed in place. */
module FunctionIr {
  import opened Machine
  import opened Links
  import opened Ir
  import opened IrOps
  import S = IrSplit

  /** Every id in use is smaller. */
  ghost predicate Supply(x: Ir, id: nat) {
    (forall b | b in x.blocks :: b < id) && (forall i | i in x.code :: i < id) && (forall e | e in x.edges :: e < id)
  }

  ghost predicate Droppable(x: Ir, e: EdgeId) {
    e in x.edges && x.edges[e].src in x.blocks && x.edges[e].dst in x.blocks && x.edges[e].instr in x.code
  }

  /** BranchEdge::invalidate for several edges, one after the other. */
  ghost function DropEdges(x: Ir, es: seq<EdgeId>): Ir
    decreases |es|
  {
    if es == [] then x
    else
      var y := DropEdges(x, es[..|es| - 1]);
      if Droppable(y, es[|es| - 1]) then DropEdge(y, es[|es| - 1]) else y
  }

  /** The instructions of a block whose edges are all gone. */
  function Cleared(x: Ir, b: BlockId): Ir
    requires b in x.blocks
  {
    Ir(x.blocks[b := x.blocks[b].(instrs := [])], x.code - Members(x.blocks[b].instrs), x.edges)
  }

  /** First the edges of its instructions, then the edges to it, then the instructions. */
  ghost function Emptied(x: Ir, b: BlockId): Ir
    requires b in x.blocks
  {
    var y := DropEdges(x, EdgesOf(x.code, x.blocks[b].instrs));
    if b !in y.blocks then y
    else
      var z := DropEdges(y, y.blocks[b].incoming);
      if b !in z.blocks then z else Cleared(z, b)
  }

  /** The edges are live, each named once. */
  ghost predicate Live(x: Ir, es: seq<EdgeId>) { NoDup(es) && forall e | e in es :: e in x.edges }

  lemma DroppedMore(x: Ir, es: seq<EdgeId>, e: EdgeId)
    requires Consistent(DropEdges(x, es)) && e in DropEdges(x, es).edges
    ensures Droppable(DropEdges(x, es), e) && DropEdges(x, es + [e]) == DropEdge(DropEdges(x, es), e)
  {
    assert EdgeOk(DropEdges(x, es), e);
    assert (es + [e])[..|es + [e]| - 1] == es;
  }

  /** Instructions have lost these edges and nothing else. */
  ghost predicate CodeWithout(x: Ir, y: Ir, es: set<EdgeId>) {
    && y.edges == x.edges - es && y.code.Keys == x.code.Keys
    && forall i | i in x.code :: y.code[i] == LoseEdge(x.code[i], es)
  }

  function LoseEdge(c: Code, es: set<EdgeId>): Code {
    if c.edge.Some? && c.edge.value in es then c.(edge := None) else c
  }

  /** What is left when edges have been dropped. */
  lemma {:induction false} DropEdgesLeaves(x: Ir, es: seq<EdgeId>)
    requires Consistent(x) && Live(x, es)
    ensures Consistent(DropEdges(x, es)) && SameShape(x, DropEdges(x, es)) && CodeWithout(x, DropEdges(x, es), Members(es))
  {
    hide *;
    if es == [] {
      DropNone(x);
    } else {
      var p, e := es[..|es| - 1], es[|es| - 1];
      LivePrefix(x, es);
      assert es == p + [e];
      DropEdgesLeaves(x, p);
      DropEdgesNext(x, p, e);
    }
  }

  lemma DropNone(x: Ir)
    ensures DropEdges(x, []) == x && SameShape(x, x) && CodeWithout(x, x, Members([]))
  {
    assert Members([]) == {};
  }

  lemma DropEdgesNext(x: Ir, p: seq<EdgeId>, e: EdgeId)
    requires var y := DropEdges(x, p); Consistent(y) && SameShape(x, y) && CodeWithout(x, y, Members(p))
    requires e in x.edges && e !in p
    ensures var z := DropEdges(x, p + [e]); Consistent(z) && SameShape(x, z) && CodeWithout(x, z, Members(p) + {e})
  {
    var y := DropEdges(x, p);
    StillLive(x, y, p, e);
    hide *;
    DropEdgeConsistent(y, e);
    DroppedMore(x, p, e);
    DropEdgeCode(x, y, e, Members(p));
    SameShapeTwice(x, y, DropEdge(y, e));
  }

  lemma StillLive(x: Ir, y: Ir, p: seq<EdgeId>, e: EdgeId)
    requires CodeWithout(x, y, Members(p)) && e in x.edges && e !in p
    ensures e in y.edges
  {
  }

  lemma LivePrefix(x: Ir, es: seq<EdgeId>)
    requires Live(x, es) && es != []
    ensures var p, e := es[..|es| - 1], es[|es| - 1];
            && Live(x, p) && e in x.edges && e !in p && Members(es) == Members(p) + {e}
  {
    var p, e := es[..|es| - 1], es[|es| - 1];
    assert es == p + [e];
    assert e in es;
  }

  lemma SameShapeTwice(x: Ir, y: Ir, z: Ir)
    requires SameShape(x, y) && SameShape(y, z)
    ensures SameShape(x, z)
  {
    forall b | b in x.blocks ensures SameNode(x.blocks[b], z.blocks[b]) {
      assert SameNode(x.blocks[b], y.blocks[b]) && SameNode(y.blocks[b], z.blocks[b]);
    }
  }

  lemma DropEdgeCode(x: Ir, y: Ir, e: EdgeId, es: set<EdgeId>)
    requires Consistent(y) && e in y.edges && CodeWithout(x, y, es) && Droppable(y, e) && EdgeOk(y, e)
    ensures CodeWithout(x, DropEdge(y, e), es + {e})
  {
    var z := DropEdge(y, e);
    DropEdgeSets(x, y, e, es);
    hide Consistent, DropEdge, LoseEdge, Droppable, EdgeOk;
    forall j | j in x.code ensures z.code[j] == LoseEdge(x.code[j], es + {e}) {
      DropEdgeAt(y, e, j);
      assert y.code[j] == LoseEdge(x.code[j], es) by { LoseAt(x, y, es, j); }
      LoseOne(x.code[j], es, e);
    }
  }

  lemma DropEdgeSets(x: Ir, y: Ir, e: EdgeId, es: set<EdgeId>)
    requires CodeWithout(x, y, es) && Droppable(y, e)
    ensures DropEdge(y, e).edges == x.edges - (es + {e}) && DropEdge(y, e).code.Keys == x.code.Keys == y.code.Keys
  {
    hide LoseEdge;
  }

  lemma LoseAt(x: Ir, y: Ir, es: set<EdgeId>, j: NodeId)
    requires CodeWithout(x, y, es) && j in x.code
    ensures j in y.code && y.code[j] == LoseEdge(x.code[j], es)
  {
  }

  lemma DropEdgeAt(y: Ir, e: EdgeId, j: NodeId)
    requires Consistent(y) && e in y.edges && EdgeOk(y, e) && j in y.code
    ensures DropEdge(y, e).code[j] == if y.code[j].edge == Some(e) then y.code[j].(edge := None) else y.code[j]
  {
    if y.code[j].edge == Some(e) { CodeAt(y, j); }
  }

  lemma LoseOne(c: Code, es: set<EdgeId>, e: EdgeId)
    ensures LoseEdge(c, es + {e}) == if LoseEdge(c, es).edge == Some(e) then LoseEdge(c, es).(edge := None) else LoseEdge(c, es)
  {
  }

  lemma CodeAt(x: Ir, i: NodeId)
    requires CodesOk(x) && i in x.code && x.code[i].edge.Some?
    ensures CodeOk(x, i)
  {
  }

  class Function {
    var entryBlock: Option<BlockId>
    var blocks: map<BlockId, Node>
    var code: map<NodeId, Code>
    var edges: map<EdgeId, Edge>
    var nextId: nat

    function I(): Ir reads this { Ir(blocks, code, edges) }

    ghost predicate Valid() reads this { Consistent(I()) && Supply(I(), nextId) }

    constructor ()
      ensures Valid() && I() == Ir(map[], map[], map[]) && entryBlock == None
    {
      entryBlock, blocks, code, edges, nextId := None, map[], map[], map[], 0;
    }

    /** Look the edge up in a list; not to find it is an error. */
    static method Find(es: seq<EdgeId>, e: EdgeId) returns (k: nat)
      requires e in es
      ensures k < |es| && es[k] == e && e !in es[..k]
    {
      k := 0;
      while es[k] != e
        invariant k < |es| && e !in es[..k]
        decreases |es| - k
      {
        assert es[..k + 1] == es[..k] + [es[k]];
        k := k + 1;
      }
    }

    method RemoveOutgoingEdge(b: BlockId, e: EdgeId)
      requires b in blocks && e in blocks[b].outgoing && NoDup(blocks[b].outgoing)
      modifies this`blocks
      ensures blocks == old(blocks)[b := old(blocks)[b].(outgoing := Without(old(blocks)[b].outgoing, e))]
    {
      var es := blocks[b].outgoing;
      var k := Find(es, e);
      WithoutAt(es, e, k);
      blocks := blocks[b := blocks[b].(outgoing := es[..k] + es[k + 1..])];
    }

    method RemoveIncomingEdge(b: BlockId, e: EdgeId)
      requires b in blocks && e in blocks[b].incoming && NoDup(blocks[b].incoming)
      modifies this`blocks
      ensures blocks == old(blocks)[b := old(blocks)[b].(incoming := Without(old(blocks)[b].incoming, e))]
    {
      var es := blocks[b].incoming;
      var k := Find(es, e);
      WithoutAt(es, e, k);
      blocks := blocks[b := blocks[b].(incoming := es[..k] + es[k + 1..])];
    }

    method Invalidate(e: EdgeId)
      requires Valid() && e in edges
      modifies this`blocks, this`code, this`edges
      ensures EdgeOk(old(I()), e) && I() == DropEdge(old(I()), e) && Valid()
    {
      hide Consistent, Supply, NoDup, SameShape, Without, EdgeOk, DropEdge;
      ghost var x := I();
      EdgeLists(x, e);
      DropEdgeConsistent(x, e);
      DropEdgeSupply(x, e, nextId);
      var d := edges[e];
      RemoveOutgoingEdge(d.src, e);
      assert blocks[d.dst].incoming == old(blocks)[d.dst].incoming;
      RemoveIncomingEdge(d.dst, e);
      edges := edges - {e};
      code := code[d.instr := code[d.instr].(edge := None)];
      assert I() == DropEdge(x, e) by { DropEdgeIs(x, e, I()); }
    }

    /** removeInstruction: its edge goes first. */
    method RemoveInstruction(b: BlockId, i: NodeId)
      requires Valid() && b in blocks && i in blocks[b].instrs
      modifies this`blocks, this`code, this`edges
      ensures Valid() && i in old(code)
      ensures I() == RemovedInstr(old(I()), b, i)
    {
      hide Consistent, Supply, Without, CodeOk, DropEdge, SameShape;
      ghost var x := I();
      InstrThere(x, b, i);
      RemovedInstrConsistent(x, b, i);
      RemovedInstrSupply(x, b, i, nextId);
      if code[i].edge.Some? {
        ghost var e := code[i].edge.value;
        Invalidate(code[i].edge.value);
        DropEdgeBlock(x, e, b);
      }
      var instrs := blocks[b].instrs;
      var k := Find(instrs, i);
      WithoutAt(instrs, i, k);
      blocks := blocks[b := blocks[b].(instrs := instrs[..k] + instrs[k + 1..])];
      code := code - {i};
    }

    /** removeAllInstructions: the edges of the instructions, the edges to the block, the list. */
    method RemoveAllInstructions(b: BlockId)
      requires Valid() && b in blocks
      modifies this`blocks, this`code, this`edges
      ensures Valid() && b in blocks && Bald(blocks[b])
      ensures I() == Emptied(old(I()), b)
    {
      hide Consistent, Supply, DropEdges, EdgesOf, DropEdge, EdgeOk, NoDup, Bald, Cleared, Emptied, CodeWithout, Live;
      ghost var x := I();
      var instrs := blocks[b].instrs;
      NothingDropped(x, b);
      for m := 0 to |instrs|
        invariant Valid() && I() == DropEdges(x, EdgesOf(x.code, instrs[..m]))
      {
        EdgesNext(x, b, m, I());
        if code[instrs[m]].edge.Some? {
          Invalidate(code[instrs[m]].edge.value);
        }
      }
      ghost var y := I();
      assert instrs[..|instrs|] == instrs;
      OutgoingGone(x, b, y);
      var incoming := blocks[b].incoming;
      assert incoming[..0] == [];
      DropNone(y);
      for m := 0 to |incoming|
        invariant Valid() && I() == DropEdges(y, incoming[..m])
      {
        IncomingNext(y, b, m, I());
        Invalidate(incoming[m]);
      }
      assert incoming[..|incoming|] == incoming;
      AllGone(x, y, b, I(), nextId);
      code := code - Members(instrs);
      blocks := blocks[b := blocks[b].(instrs := [])];
    }

    /** removeBlock: empty it, let its neighbours meet, take it out. */
    method RemoveBlock(b: BlockId)
      requires Valid() && b in blocks
      modifies this`blocks, this`code, this`edges, this`entryBlock
      ensures Valid() && b in Emptied(old(I()), b).blocks && I() == DropBlock(Emptied(old(I()), b), b)
      ensures entryBlock == if old(entryBlock) == Some(b) then None else old(entryBlock)
    {
      hide Consistent, Supply, Emptied, Bald, DropBlock, Linked;
      if entryBlock == Some(b) {
        entryBlock := None;
      }
      RemoveAllInstructions(b);
      ghost var x := I();
      DropBlockConsistent(x, b);
      DropBlockSupply(x, b, nextId);
      NeighboursThere(x, b);
      var n := blocks[b];
      if n.prev.Some? {
        blocks := blocks[n.prev.value := blocks[n.prev.value].(next := n.next)];
      }
      if n.next.Some? {
        blocks := blocks[n.next.value := blocks[n.next.value].(prev := n.prev)];
      }
      blocks := blocks - {b};
      DropBlockIs(x, b, I());
    }

    /** splitBlock: the instructions from k on, with their edges, move to a new block. */
    method SplitBlock(b: BlockId, k: nat) returns (nb: BlockId)
      requires Valid() && b in blocks && k <= |blocks[b].instrs|
      modifies this`blocks, this`edges, this`nextId
      ensures Valid() && nb == old(nextId) && I() == S.Split(old(I()), b, k, nb)
    {
      hide Consistent, Supply, NoDup, EdgesOf, S.Split, Linked, S.MoveSrc, Without, SplitSoFar;
      ghost var x := I();
      nb := nextId;
      NewBlockId(x, nextId);
      S.SplitConsistent(x, b, k, nb);
      SplitSupply(x, b, k, nb);
      NeighboursThere(x, b);
      nextId := nextId + 1;
      var instrs, n := blocks[b].instrs, blocks[b].next;
      if n.Some? {
        blocks := blocks[n.value := blocks[n.value].(prev := Some(nb))];
      }
      blocks := blocks[b := blocks[b].(instrs := instrs[..k], next := Some(nb))];
      blocks := blocks[nb := Node(instrs[k..], n, Some(b), [], [])];
      SplitStarts(x, b, k, nb, I());
      for m := k to |instrs|
        invariant I() == SplitSoFar(x, b, k, nb, m) && nextId == nb + 1
      {
        var i := instrs[m];
        SplitNext(x, b, k, nb, m, I());
        if code[i].edge.Some? {
          var e := code[i].edge.value;
          if edges[e].src == b {
            edges := edges[e := edges[e].(src := nb)];
            blocks := blocks[nb := blocks[nb].(outgoing := blocks[nb].outgoing + [e])];
            RemoveOutgoingEdge(b, e);
          }
        }
      }
      SplitEnds(x, b, k, nb);
    }

    /** mergeBlockIntoNext: the next block must be another one to which no branch leads. */
    method MergeBlockIntoNext(b: BlockId)
      requires Valid() && S.Mergeable(I(), b)
      modifies this`blocks, this`edges, this`entryBlock
      ensures Valid() && b in old(blocks) && S.Mergeable(old(I()), b) && I() == S.Merge(old(I()), b)
      ensures entryBlock == if old(entryBlock) == Some(b) then old(blocks)[b].next else old(entryBlock)
    {
      hide Consistent, Supply, NoDup, EdgesOf, S.Merge, Linked, S.RenameBlock, SetDst, SetSrc;
      ghost var x := I();
      S.MergeConsistent(x, b);
      MergeSupply(x, b, nextId);
      NeighboursThere(x, b);
      var m, n := blocks[b], blocks[b].next.value;
      if entryBlock == Some(b) {
        entryBlock := Some(n);
      }
      if m.prev.Some? {
        blocks := blocks[m.prev.value := blocks[m.prev.value].(next := Some(n))];
      }
      blocks := blocks[n := blocks[n].(prev := m.prev)];
      ghost var linked, entry := blocks, entryBlock;
      SetNone(edges, n);
      for k := 0 to |m.incoming|
        invariant edges == SetDst(x.edges, m.incoming[..k], n) && blocks == linked && entryBlock == entry
      {
        SetDstNext(x, b, k, n);
        edges := edges[m.incoming[k] := edges[m.incoming[k]].(dst := n)];
      }
      assert m.incoming[..|m.incoming|] == m.incoming;
      ghost var moved := edges;
      SetNone(edges, n);
      for k := 0 to |m.outgoing|
        invariant edges == SetSrc(moved, m.outgoing[..k], n) && blocks == linked && entryBlock == entry
      {
        SetSrcNext(x, b, k, n, moved);
        edges := edges[m.outgoing[k] := edges[m.outgoing[k]].(src := n)];
      }
      assert m.outgoing[..|m.outgoing|] == m.outgoing;
      blocks := blocks[n := blocks[n].(incoming := blocks[n].incoming + m.incoming, outgoing := m.outgoing + blocks[n].outgoing)];
      blocks := blocks[n := blocks[n].(instrs := m.instrs + blocks[n].instrs)];
      blocks := blocks - {b};
      MergeIs(x, b, I());
    }

    /** One instruction of a block being copied, its edge within the copy if it loops. */
    method CopyInstr(b: BlockId, nb: BlockId, i: NodeId)
      requires Consistent(I()) && nb in blocks && i in code
      modifies this`blocks, this`code, this`edges, this`nextId
      ensures nb in old(blocks) && i in old(code)
      ensures I() == CopiedInstr(old(I()), b, nb, i, old(nextId), old(nextId) + 1) && nextId == old(nextId) + 2
    {
      hide Consistent, CopiedInstr;
      ghost var w := I();
      var ni, ne := nextId, nextId + 1;
      CopiedThere(w, b, nb, i, ni, ne);
      nextId := nextId + 2;
      var old_ := code[i];
      code := code[ni := Code(old_.op, None)];
      blocks := blocks[nb := blocks[nb].(instrs := blocks[nb].instrs + [ni])];
      if old_.edge.Some? {
        var d := if edges[old_.edge.value].dst == b then nb else edges[old_.edge.value].dst;
        code := code[ni := code[ni].(edge := Some(ne))];
        edges := edges[ne := Edge(nb, d, ni)];
        blocks := blocks[nb := blocks[nb].(outgoing := blocks[nb].outgoing + [ne])];
        blocks := blocks[d := blocks[d].(incoming := blocks[d].incoming + [ne])];
      }
      CopiedIs(w, b, nb, i, ni, ne, I());
    }

    /** copyBlock: the instructions one by one, with edges of their own; loops lead to the copy. */
    method CopyBlock(b: BlockId) returns (nb: BlockId)
      requires Valid() && b in blocks
      modifies this`blocks, this`code, this`edges, this`nextId
      ensures Valid() && old(nextId) <= nb < nextId
      ensures b in old(blocks) && CopyOf(old(I()), I(), b, nb, |old(blocks)[b].instrs|)
    {
      hide Consistent, Supply, CopyOf, AddBlock, CopiedInstr;
      ghost var x := I();
      nb := nextId;
      NewBlockId(x, nextId);
      AddBlockConsistent(x, nb);
      CopyStarts(x, b, nb, nextId);
      nextId := nextId + 1;
      blocks := blocks[nb := Node([], None, None, [], [])];
      AddBlockIs(x, nb, I());
      var instrs := blocks[b].instrs;
      for m := 0 to |instrs|
        invariant Valid() && nb < nextId && b in x.blocks && m <= |x.blocks[b].instrs| && instrs == x.blocks[b].instrs
        invariant CopyOf(x, I(), b, nb, m)
      {
        ghost var w := I();
        CopyNext(x, w, b, nb, m, nextId, nextId + 1);
        CopyInstr(b, nb, instrs[m]);
      }
    }

    /** Point the self branches of a block at its copy. */
    method RedirectLoops(b: BlockId, copy: BlockId)
      requires Valid() && b in blocks && copy in blocks && b != copy
      modifies this`blocks, this`edges
      ensures Valid() && b in old(blocks) && Redirected(old(I()), I(), b, copy, old(blocks)[b].outgoing)
    {
      hide Consistent, Supply, Redirected, MoveDst, NoDup, Without;
      ghost var x := I();
      var es := blocks[b].outgoing;
      RedirectStarts(x, b, copy);
      assert es[..0] == [];
      for k := 0 to |es|
        invariant Valid() && b in x.blocks && es == x.blocks[b].outgoing && Redirected(x, I(), b, copy, es[..k])
      {
        ghost var w := I();
        var e := es[k];
        RedirectNext(x, w, b, copy, k, nextId);
        if edges[e].dst == b {
          RemoveIncomingEdge(b, e);
          edges := edges[e := edges[e].(dst := copy)];
          blocks := blocks[copy := blocks[copy].(incoming := blocks[copy].incoming + [e])];
          MoveDstIs(w, e, copy, I());
        }
      }
      assert es[..|es|] == es;
    }

    /** setOpcode of a branch. */
    method SetOpcode(i: NodeId, op: Instr)
      requires Valid() && i in code && Bare(op) && op.kind == code[i].op.kind
      modifies this`code
      ensures Valid() && I() == SetOp(old(I()), i, op)
    {
      ghost var x := I();
      SetOpConsistent(x, i, op);
      hide Consistent;
      code := code[i := code[i].(op := op)];
    }

    /** Let block b fall through to n. */
    method ChainTo(b: BlockId, n: BlockId)
      requires Valid() && b in blocks && n in blocks && blocks[b].next.None? && blocks[n].prev.None?
      modifies this`blocks
      ensures Valid() && I() == Link(old(I()), b, n)
    {
      hide Consistent, SameLists;
      ghost var x := I();
      LinkConsistent(x, b, n);
      blocks := blocks[n := blocks[n].(prev := Some(b))];
      blocks := blocks[b := blocks[b].(next := Some(n))];
    }

    /** The fallthrough spelled out as a jump behind the last instruction. */
    method UnchainNext(b: BlockId, jump: Instr) returns (i: NodeId)
      requires Valid() && b in blocks && blocks[b].next.Some? && jump.kind == Branch(None)
      modifies this`blocks, this`code, this`edges, this`nextId
      ensures Valid() && i == old(nextId) && old(blocks)[b].next.value in old(blocks)
      ensures I() == Unchained(old(I()), b, jump, i, i + 1)
    {
      hide Consistent, Supply, Unchained;
      ghost var x := I();
      i := nextId;
      var e, n := nextId + 1, blocks[b].next.value;
      NextThere(x, b);
      UnchainedSupply(x, b, jump, i, e);
      UnchainedConsistent(x, b, jump, i, e);
      nextId := nextId + 2;
      // the new branch at the end of the block, its edge in both lists
      code := code[i := Code(jump, Some(e))];
      edges := edges[e := Edge(b, n, i)];
      blocks := blocks[b := blocks[b].(instrs := blocks[b].instrs + [i], outgoing := blocks[b].outgoing + [e])];
      blocks := blocks[n := blocks[n].(incoming := blocks[n].incoming + [e])];
      blocks := blocks[n := blocks[n].(prev := None)];
      blocks := blocks[b := blocks[b].(next := None)];
      assert I() == Unchained(x, b, jump, i, e) by { UnchainedIs(x, b, jump, i, e, I()); }
    }
  }

  // ---- removing a block ----

  /** None of the instructions of the block has an edge any more. */
  ghost predicate NoEdges(x: Ir, b: BlockId)
    requires b in x.blocks
  {
    forall i | i in x.blocks[b].instrs && i in x.code :: x.code[i].edge.None?
  }

  lemma ClearedNode(x: Ir, b: BlockId, c: BlockId)
    requires NodesOk(x) && Apart(x) && b in x.blocks && NoEdges(x, b) && c in x.blocks
    ensures NodeOk(Cleared(x, b), Cleared(x, b).blocks[c])
    ensures Cleared(x, b).blocks[b].outgoing == []
  {
    var y, n := Cleared(x, b), x.blocks[c];
    assert NodeOk(x, n) && NodeOk(x, x.blocks[b]);
    NoEdgesOut(x.code, x.blocks[b].instrs);
    if c != b {
      assert NoneShared(x.blocks[b].instrs, n.instrs);
      EdgesOfSame(x.code, y.code, n.instrs);
    }
  }

  lemma {:induction false} NoEdgesOut(code: map<NodeId, Code>, s: seq<NodeId>)
    requires forall i | i in s && i in code :: code[i].edge.None?
    ensures EdgesOf(code, s) == []
  {
    if s != [] {
      NoEdgesOut(code, s[..|s| - 1]);
    }
  }

  lemma ClearedApart(x: Ir, b: BlockId)
    requires Apart(x) && Linked(x) && b in x.blocks
    ensures Apart(Cleared(x, b)) && Linked(Cleared(x, b))
  {
    var y := Cleared(x, b);
    forall c, d | c in y.blocks && d in y.blocks && c != d ensures NoneShared(y.blocks[c].instrs, y.blocks[d].instrs) {
      assert NoneShared(x.blocks[c].instrs, x.blocks[d].instrs);
    }
  }

  lemma ClearedOthers(x: Ir, b: BlockId)
    requires EdgesOk(x) && IncomingsOk(x) && CodesOk(x) && b in x.blocks && NoEdges(x, b)
    ensures var y := Cleared(x, b); EdgesOk(y) && IncomingsOk(y) && CodesOk(y)
  {
    var y := Cleared(x, b);
    assert EdgesOk(y) by {
      forall e | e in y.edges ensures EdgeOk(y, e) { assert EdgeOk(x, e); }
    }
    hide EdgesOk, EdgeOk, NoDup;
    assert IncomingsOk(y) by {
      forall c | c in y.blocks ensures IncomingOk(y, c) { assert IncomingOk(x, c); }
    }
    assert CodesOk(y) by {
      forall j | j in y.code && y.code[j].edge.Some? ensures CodeOk(y, j) { assert CodeOk(x, j); }
    }
  }

  lemma ClearedConsistent(x: Ir, b: BlockId)
    requires Consistent(x) && b in x.blocks && NoEdges(x, b)
    ensures Consistent(Cleared(x, b)) && Cleared(x, b).blocks[b].outgoing == []
  {
    var y := Cleared(x, b);
    assert y.blocks.Keys == x.blocks.Keys;
    hide NodeOk, Apart, EdgesOk, IncomingsOk, CodesOk, Linked, Cleared, NoEdges;
    ClearedApart(x, b);
    ClearedOthers(x, b);
    forall c | c in y.blocks ensures NodeOk(y, y.blocks[c]) { ClearedNode(x, b, c); }
    ClearedNode(x, b, b);
  }

  lemma NothingDropped(x: Ir, b: BlockId)
    requires b in x.blocks
    ensures x == DropEdges(x, EdgesOf(x.code, x.blocks[b].instrs[..0]))
  {
    assert x.blocks[b].instrs[..0] == [];
    DropNone(x);
  }

  lemma EdgesLive(x: Ir, b: BlockId, m: nat)
    requires Consistent(x) && b in x.blocks && m <= |x.blocks[b].instrs|
    ensures Live(x, EdgesOf(x.code, x.blocks[b].instrs[..m]))
  {
    var instrs := x.blocks[b].instrs;
    assert NodeOk(x, x.blocks[b]) && CodesOk(x);
    hide Consistent, NodesOk, IncomingsOk, Apart, EdgesOk, Linked;
    EdgesOfNoDup(x, instrs[..m]);
    forall e | e in EdgesOf(x.code, instrs[..m]) ensures e in x.edges {
      EdgesOfMember(x.code, instrs[..m], e);
      var i :| i in instrs[..m] && i in x.code && x.code[i].edge == Some(e);
      CodeAt(x, i);
    }
  }

  /** The edge is there, and next is what dropping it leaves. */
  ghost predicate DropsTo(w: Ir, e: EdgeId, next: Ir) {
    e in w.edges && Droppable(w, e) && next == DropEdge(w, e)
  }

  /** One more edge dropped. */
  lemma DropNext(x: Ir, es: seq<EdgeId>, e: EdgeId, all: seq<EdgeId>)
    requires Consistent(x) && all == es + [e] && Live(x, all)
    ensures DropsTo(DropEdges(x, es), e, DropEdges(x, all))
  {
    LivePrefix(x, all);
    assert all[..|all| - 1] == es;
    hide *;
    DropEdgesLeaves(x, es);
    StillLive(x, DropEdges(x, es), es, e);
    DroppedMore(x, es, e);
    DropsIs(DropEdges(x, es), e);
  }

  lemma DropsIs(w: Ir, e: EdgeId)
    requires e in w.edges && Droppable(w, e)
    ensures DropsTo(w, e, DropEdge(w, e))
  {
  }

  /** The edge of the next instruction is still there, and the next one to drop. */
  lemma EdgesNext(x: Ir, b: BlockId, m: nat, w: Ir)
    requires Consistent(x) && b in x.blocks && m < |x.blocks[b].instrs|
    requires w == DropEdges(x, EdgesOf(x.code, x.blocks[b].instrs[..m]))
    ensures var i, next := x.blocks[b].instrs[m], DropEdges(x, EdgesOf(x.code, x.blocks[b].instrs[..m + 1]));
            && i in w.code
            && (w.code[i].edge.Some? ==> DropsTo(w, w.code[i].edge.value, next))
            && (w.code[i].edge.None? ==> next == w)
  {
    hide *;
    var instrs := x.blocks[b].instrs;
    var i, es := instrs[m], EdgesOf(x.code, instrs[..m]);
    assert instrs[..m + 1] == instrs[..m] + [i];
    EdgesLive(x, b, m);
    EdgesLive(x, b, m + 1);
    EdgesOfAppend(x.code, instrs[..m], [i]);
    EdgesOfOne(x.code, i);
    InstrThere(x, b, i);
    DropEdgesLeaves(x, es);
    LoseAt(x, w, Members(es), i);
    if x.code[i].edge.Some? {
      var e := x.code[i].edge.value;
      DropNext(x, es, e, EdgesOf(x.code, instrs[..m + 1]));
      NotLost(x, es, e, x.code[i]);
    } else {
      assert EdgesOf(x.code, instrs[..m + 1]) == es + [] == es;
      LoseNone(x.code[i], Members(es));
    }
  }

  lemma NotLost(x: Ir, es: seq<EdgeId>, e: EdgeId, c: Code)
    requires c.edge == Some(e) && Live(x, es + [e])
    ensures LoseEdge(c, Members(es)) == c
  {
    LivePrefix(x, es + [e]);
    assert (es + [e])[..|es|] == es;
  }

  lemma LoseNone(c: Code, es: set<EdgeId>)
    requires c.edge.None?
    ensures LoseEdge(c, es) == c
  {
  }

  lemma OutgoingGone(x: Ir, b: BlockId, y: Ir)
    requires Consistent(x) && b in x.blocks && y == DropEdges(x, EdgesOf(x.code, x.blocks[b].instrs))
    ensures Consistent(y) && b in y.blocks && y.blocks[b].instrs == x.blocks[b].instrs && NoEdges(y, b)
  {
    var instrs := x.blocks[b].instrs;
    assert instrs[..|instrs|] == instrs;
    EdgesLive(x, b, |instrs|);
    hide Consistent, DropEdges, NoDup;
    var es := EdgesOf(x.code, instrs);
    DropEdgesLeaves(x, es);
    assert SameNode(x.blocks[b], y.blocks[b]);
    forall i | i in y.blocks[b].instrs && i in y.code ensures y.code[i].edge.None? {
      LoseAt(x, y, Members(es), i);
      if x.code[i].edge.Some? {
        EdgesOfMember(x.code, instrs, x.code[i].edge.value);
      }
    }
  }

  lemma IncomingLive(y: Ir, b: BlockId, m: nat)
    requires Consistent(y) && b in y.blocks && m <= |y.blocks[b].incoming|
    ensures Live(y, y.blocks[b].incoming[..m])
  {
    assert IncomingOk(y, b);
  }

  lemma IncomingNext(y: Ir, b: BlockId, m: nat, w: Ir)
    requires Consistent(y) && b in y.blocks && m < |y.blocks[b].incoming| && w == DropEdges(y, y.blocks[b].incoming[..m])
    ensures DropsTo(w, y.blocks[b].incoming[m], DropEdges(y, y.blocks[b].incoming[..m + 1]))
  {
    hide *;
    IncomingLive(y, b, m + 1);
    assert y.blocks[b].incoming[..m + 1] == y.blocks[b].incoming[..m] + [y.blocks[b].incoming[m]];
    DropNext(y, y.blocks[b].incoming[..m], y.blocks[b].incoming[m], y.blocks[b].incoming[..m + 1]);
  }

  lemma LeadsHere(x: Ir, b: BlockId, e: EdgeId)
    requires IncomingsOk(x) && EdgesOk(x) && b in x.blocks
    ensures e in x.blocks[b].incoming <==> e in x.edges && x.edges[e].dst == b
  {
    assert IncomingOk(x, b);
    assert e in x.edges ==> EdgeOk(x, e);
  }

  lemma NoneLeft(y: Ir, b: BlockId, z: Ir)
    requires Consistent(y) && b in y.blocks && Consistent(z) && b in z.blocks && z.edges == y.edges - Members(y.blocks[b].incoming)
    ensures z.blocks[b].incoming == []
  {
    hide IncomingsOk, EdgesOk, NodesOk, CodesOk, Apart, Linked;
    var es := z.blocks[b].incoming;
    var e := if es != [] then es[0] else 0;
    LeadsHere(z, b, e);
    LeadsHere(y, b, e);
  }

  lemma NoEdgesStay(y: Ir, z: Ir, b: BlockId, es: set<EdgeId>)
    requires b in y.blocks && NoEdges(y, b) && SameShape(y, z) && CodeWithout(y, z, es)
    ensures b in z.blocks && NoEdges(z, b) && z.blocks[b].instrs == y.blocks[b].instrs
  {
    assert SameNode(y.blocks[b], z.blocks[b]);
    forall i | i in z.blocks[b].instrs && i in z.code ensures z.code[i].edge.None? {
      assert z.code[i] == LoseEdge(y.code[i], es);
    }
  }

  lemma ClearedSupply(z: Ir, b: BlockId, id: nat)
    requires b in z.blocks && Supply(z, id)
    ensures Supply(Cleared(z, b), id)
  {
  }

  /** Neither instructions nor edges are left of the block. */
  lemma AllGone(x: Ir, y: Ir, b: BlockId, z: Ir, id: nat)
    requires Consistent(x) && b in x.blocks && y == DropEdges(x, EdgesOf(x.code, x.blocks[b].instrs))
    requires Consistent(y) && b in y.blocks && y.blocks[b].instrs == x.blocks[b].instrs && NoEdges(y, b)
    requires z == DropEdges(y, y.blocks[b].incoming) && Supply(z, id)
    ensures b in z.blocks && z.blocks[b].instrs == x.blocks[b].instrs
    ensures Emptied(x, b) == Cleared(z, b) == Ir(z.blocks[b := z.blocks[b].(instrs := [])], z.code - Members(x.blocks[b].instrs), z.edges)
    ensures Consistent(Cleared(z, b)) && Supply(Cleared(z, b), id) && Bald(Cleared(z, b).blocks[b])
  {
    hide *;
    var incoming := y.blocks[b].incoming;
    assert incoming[..|incoming|] == incoming;
    IncomingLive(y, b, |incoming|);
    DropEdgesLeaves(y, incoming);
    NoEdgesStay(y, z, b, Members(incoming));
    EdgesLost(y, z, Members(incoming));
    NoneLeft(y, b, z);
    ClearedConsistent(z, b);
    ClearedSupply(z, b, id);
    ClearedIs(x, y, z, b);
  }

  lemma EdgesLost(y: Ir, z: Ir, es: set<EdgeId>)
    requires CodeWithout(y, z, es)
    ensures z.edges == y.edges - es
  {
  }

  lemma ClearedIs(x: Ir, y: Ir, z: Ir, b: BlockId)
    requires b in x.blocks && y == DropEdges(x, EdgesOf(x.code, x.blocks[b].instrs)) && b in y.blocks
    requires z == DropEdges(y, y.blocks[b].incoming) && b in z.blocks && z.blocks[b].instrs == x.blocks[b].instrs
    requires z.blocks[b].incoming == [] && Cleared(z, b).blocks[b].outgoing == []
    ensures Emptied(x, b) == Cleared(z, b) == Ir(z.blocks[b := z.blocks[b].(instrs := [])], z.code - Members(x.blocks[b].instrs), z.edges)
    ensures Bald(Cleared(z, b).blocks[b])
  {
    hide DropEdges, EdgesOf, Members;
  }

  lemma DropBlockSupply(x: Ir, b: BlockId, id: nat)
    requires Supply(x, id) && b in x.blocks
    ensures Supply(DropBlock(x, b), id)
  {
  }

  lemma NeighboursThere(x: Ir, b: BlockId)
    requires Consistent(x) && b in x.blocks
    ensures x.blocks[b].next.Some? ==> x.blocks[b].next.value in x.blocks && x.blocks[x.blocks[b].next.value].prev == Some(b)
    ensures x.blocks[b].prev.Some? ==> x.blocks[b].prev.value in x.blocks && x.blocks[x.blocks[b].prev.value].next == Some(b)
  {
  }

  lemma DropBlockIs(x: Ir, b: BlockId, y: Ir)
    requires b in x.blocks && y.code == x.code && y.edges == x.edges
    requires x.blocks[b].next.Some? ==> x.blocks[b].next.value in x.blocks
    requires x.blocks[b].prev.Some? ==> x.blocks[b].prev.value in x.blocks
    requires var n := x.blocks[b];
             var b1 := if n.prev.Some? then x.blocks[n.prev.value := x.blocks[n.prev.value].(next := n.next)] else x.blocks;
             var b2 := if n.next.Some? then b1[n.next.value := b1[n.next.value].(prev := n.prev)] else b1;
             y.blocks == b2 - {b}
    ensures y == DropBlock(x, b)
  {
    var z := DropBlock(x, b);
    assert y.blocks.Keys == z.blocks.Keys;
    forall c | c in z.blocks ensures y.blocks[c] == z.blocks[c] {
    }
  }

  // ---- splitting, instruction by instruction ----

  lemma NewBlockId(x: Ir, id: nat)
    requires Supply(x, id)
    ensures id !in x.blocks && id !in x.code && id !in x.edges
  {
  }

  lemma SplitSupply(x: Ir, b: BlockId, k: nat, nb: BlockId)
    requires Supply(x, nb) && b in x.blocks && k <= |x.blocks[b].instrs|
    ensures Supply(S.Split(x, b, k, nb), nb + 1)
  {
  }

  /** The edges of instructions k to m have moved. */
  function SplitSoFar(x: Ir, b: BlockId, k: nat, nb: BlockId, m: nat): Ir
    requires b in x.blocks && k <= m <= |x.blocks[b].instrs|
  {
    var n := x.blocks[b];
    var blocks := S.PrevOf(x.blocks, n.next, Some(nb));
    Ir(blocks[b := blocks[b].(instrs := n.instrs[..k], next := Some(nb),
                              outgoing := EdgesOf(x.code, n.instrs[..k]) + EdgesOf(x.code, n.instrs[m..]))]
             [nb := Node(n.instrs[k..], n.next, Some(b), [], EdgesOf(x.code, n.instrs[k..m]))],
       x.code,
       S.MoveSrc(x.edges, n.instrs[k..m], nb))
  }

  lemma SplitStarts(x: Ir, b: BlockId, k: nat, nb: BlockId, w: Ir)
    requires Consistent(x) && b in x.blocks && k <= |x.blocks[b].instrs| && nb !in x.blocks
    requires w.code == x.code && w.edges == x.edges
    requires var n := x.blocks[b];
             var b1 := if n.next.Some? && n.next.value in x.blocks then x.blocks[n.next.value := x.blocks[n.next.value].(prev := Some(nb))] else x.blocks;
             var b2 := b1[b := b1[b].(instrs := n.instrs[..k], next := Some(nb))];
             w.blocks == b2[nb := Node(n.instrs[k..], n.next, Some(b), [], [])]
    ensures w == SplitSoFar(x, b, k, nb, k)
  {
    hide Consistent, NoDup, EdgesOf, S.MoveSrc;
    var n := x.blocks[b];
    AllEdgesOnce(x, b);
    EdgesOfAppend(x.code, n.instrs[..k], n.instrs[k..]);
    assert n.instrs[..k] + n.instrs[k..] == n.instrs;
    assert n.instrs[k..k] == [];
    MoveNone(x, nb);
    var b1 := S.PrevOf(x.blocks, n.next, Some(nb));
    assert b1[b].outgoing == n.outgoing;
  }

  lemma MoveNone(x: Ir, nb: BlockId)
    ensures S.MoveSrc(x.edges, [], nb) == x.edges && EdgesOf(x.code, []) == []
  {
  }

  lemma SplitEnds(x: Ir, b: BlockId, k: nat, nb: BlockId)
    requires b in x.blocks && k <= |x.blocks[b].instrs|
    ensures SplitSoFar(x, b, k, nb, |x.blocks[b].instrs|) == S.Split(x, b, k, nb)
  {
    var instrs := x.blocks[b].instrs;
    assert instrs[|instrs|..] == [] && instrs[k..|instrs|] == instrs[k..];
    assert EdgesOf(x.code, []) == [];
    hide EdgesOf, S.MoveSrc, S.PrevOf;
    assert EdgesOf(x.code, instrs[..k]) + [] == EdgesOf(x.code, instrs[..k]);
  }

  /** The edge of the next instruction is the next one to move. */
  lemma SplitNext(x: Ir, b: BlockId, k: nat, nb: BlockId, m: nat, w: Ir)
    requires Consistent(x) && b in x.blocks && k <= m < |x.blocks[b].instrs| && nb !in x.blocks && w == SplitSoFar(x, b, k, nb, m)
    ensures var i, next := x.blocks[b].instrs[m], SplitSoFar(x, b, k, nb, m + 1);
            && i in w.code
            && (w.code[i].edge.None? ==> next == w)
            && (w.code[i].edge.Some? ==> MovesTo(w, b, nb, w.code[i].edge.value, next))
  {
    hide Consistent, EdgesOf, S.MoveSrc, Without, NoDup, CodeOk, EdgeOk;
    var instrs, code := x.blocks[b].instrs, x.code;
    var i := instrs[m];
    SplitLists(code, instrs, k, m);
    SplitMoves(x, b, k, nb, m);
    if code[i].edge.Some? {
      SplitEdges(x, b, k, m);
      var blks := S.PrevOf(x.blocks, x.blocks[b].next, Some(nb));
      TwoUpdates(blks, b, nb, w.blocks[b], w.blocks[nb],
        w.blocks[b].(outgoing := Without(w.blocks[b].outgoing, code[i].edge.value)),
        w.blocks[nb].(outgoing := w.blocks[nb].outgoing + [code[i].edge.value]));
    } else {
      assert EdgesOf(code, instrs[k..m]) + [] == EdgesOf(code, instrs[k..m]);
      assert [] + EdgesOf(code, instrs[m + 1..]) == EdgesOf(code, instrs[m + 1..]);
    }
  }

  lemma TwoUpdates(m: map<BlockId, Node>, a: BlockId, c: BlockId, u: Node, v: Node, u': Node, v': Node)
    requires a != c
    ensures m[a := u][c := v][c := v'][a := u'] == m[a := u'][c := v']
  {
  }

  ghost predicate MovesTo(w: Ir, b: BlockId, nb: BlockId, e: EdgeId, next: Ir) {
    && e in w.edges && w.edges[e].src == b && b in w.blocks && nb in w.blocks && b != nb
    && e in w.blocks[b].outgoing && NoDup(w.blocks[b].outgoing)
    && next == Ir(w.blocks[nb := w.blocks[nb].(outgoing := w.blocks[nb].outgoing + [e])]
                          [b := w.blocks[b].(outgoing := Without(w.blocks[b].outgoing, e))],
                  w.code, w.edges[e := w.edges[e].(src := nb)])
  }

  lemma SplitLists(code: map<NodeId, Code>, instrs: seq<NodeId>, k: nat, m: nat)
    requires k <= m < |instrs|
    ensures EdgesOf(code, instrs[k..m + 1]) == EdgesOf(code, instrs[k..m]) + EdgesOf(code, [instrs[m]])
    ensures EdgesOf(code, instrs[m..]) == EdgesOf(code, [instrs[m]]) + EdgesOf(code, instrs[m + 1..])
    ensures EdgesOf(code, [instrs[m]])
              == if instrs[m] in code && code[instrs[m]].edge.Some? then [code[instrs[m]].edge.value] else []
  {
    hide EdgesOf;
    assert instrs[k..m + 1] == instrs[k..m] + [instrs[m]];
    assert instrs[m..] == [instrs[m]] + instrs[m + 1..];
    EdgesOfAppend(code, instrs[k..m], [instrs[m]]);
    EdgesOfAppend(code, [instrs[m]], instrs[m + 1..]);
    EdgesOfOne(code, instrs[m]);
  }

  /** Only the edge of an instruction has that instruction. */
  lemma OwnEdge(x: Ir, i: NodeId, e: EdgeId)
    requires EdgesOk(x) && CodesOk(x) && e in x.edges && i in x.code
    ensures x.edges[e].instr == i <==> x.code[i].edge == Some(e)
  {
    assert EdgeOk(x, e);
    assert x.code[i].edge == Some(e) ==> CodeOk(x, i);
  }

  lemma SplitMoves(x: Ir, b: BlockId, k: nat, nb: BlockId, m: nat)
    requires Consistent(x) && b in x.blocks && k <= m < |x.blocks[b].instrs|
    ensures var i, was, now := x.blocks[b].instrs[m], S.MoveSrc(x.edges, x.blocks[b].instrs[k..m], nb), S.MoveSrc(x.edges, x.blocks[b].instrs[k..m + 1], nb);
            && i in x.code
            && (x.code[i].edge.None? ==> now == was)
            && (x.code[i].edge.Some? ==>
                  var e := x.code[i].edge.value; e in x.edges && was[e].src == b && now == was[e := was[e].(src := nb)])
  {
    hide NodesOk, IncomingsOk, Apart, Linked, NoDup;
    var instrs := x.blocks[b].instrs;
    var i := instrs[m];
    InstrThere(x, b, i);
    assert instrs[k..m + 1] == instrs[k..m] + [i];
    var was, now := S.MoveSrc(x.edges, instrs[k..m], nb), S.MoveSrc(x.edges, instrs[k..m + 1], nb);
    forall e | e in x.edges ensures now[e] == if x.code[i].edge == Some(e) then was[e].(src := nb) else was[e] {
      OwnEdge(x, i, e);
    }
    if x.code[i].edge.Some? {
      var e := x.code[i].edge.value;
      OwnEdge(x, i, e);
      SrcBlock(x, b, i, e);
      NotBefore(x, b, k, m);
    }
  }

  lemma SrcBlock(x: Ir, b: BlockId, i: NodeId, e: EdgeId)
    requires Consistent(x) && b in x.blocks && i in x.blocks[b].instrs && i in x.code && x.code[i].edge == Some(e)
    ensures e in x.edges && x.edges[e].src == b && x.edges[e].instr == i
  {
    hide NodesOk, IncomingsOk, Linked, NoDup;
    InstrThere(x, b, i);
    assert CodeOk(x, i) && EdgeOk(x, e);
    var c := x.edges[e].src;
    assert c != b ==> NoneShared(x.blocks[b].instrs, x.blocks[c].instrs);
  }

  lemma NotBefore(x: Ir, b: BlockId, k: nat, m: nat)
    requires Consistent(x) && b in x.blocks && k <= m < |x.blocks[b].instrs|
    ensures x.blocks[b].instrs[m] !in x.blocks[b].instrs[k..m]
  {
    hide IncomingsOk, EdgesOk, CodesOk, Apart, Linked;
    assert NodeOk(x, x.blocks[b]);
  }

  lemma NoDupMiddle(p: seq<nat>, q: seq<nat>, r: seq<nat>)
    requires NoDup(p + q + r)
    ensures NoDup(p + r)
  {
    var all, rest := p + q + r, p + r;
    forall j, k | 0 <= j < k < |rest| ensures rest[j] != rest[k] {
      var j', k' := if j < |p| then j else j + |q|, if k < |p| then k else k + |q|;
      assert all[j'] == rest[j] && all[k'] == rest[k];
    }
  }

  /** Removing the edge of instruction m from what is left in the block. */
  lemma SplitEdges(x: Ir, b: BlockId, k: nat, m: nat)
    requires Consistent(x) && b in x.blocks && k <= m < |x.blocks[b].instrs|
    requires x.blocks[b].instrs[m] in x.code && x.code[x.blocks[b].instrs[m]].edge.Some?
    ensures var instrs, e := x.blocks[b].instrs, x.code[x.blocks[b].instrs[m]].edge.value;
            var left := EdgesOf(x.code, instrs[..k]) + EdgesOf(x.code, instrs[m..]);
            && NoDup(left) && e in left
            && Without(left, e) == EdgesOf(x.code, instrs[..k]) + EdgesOf(x.code, instrs[m + 1..])
  {
    hide Consistent, EdgesOf, NoDup, Without;
    var code, instrs := x.code, x.blocks[b].instrs;
    var e := code[instrs[m]].edge.value;
    SplitLists(code, instrs, k, m);
    AllEdgesOnce(x, b);
    var p, q, r, t := EdgesOf(code, instrs[..k]), EdgesOf(code, instrs[k..m]), EdgesOf(code, instrs[m..]), EdgesOf(code, instrs[m + 1..]);
    EdgesOfAppend(code, instrs[..k], instrs[k..m]);
    EdgesOfAppend(code, instrs[..k] + instrs[k..m], instrs[m..]);
    assert instrs[..k] + instrs[k..m] + instrs[m..] == instrs;
    NoDupMiddle(p, q, r);
    assert r == [e] + t && (p + r)[|p|] == e;
    WithoutAt(p + r, e, |p|);
    assert (p + r)[..|p|] + (p + r)[|p| + 1..] == p + t;
  }

  lemma AllEdgesOnce(x: Ir, b: BlockId)
    requires Consistent(x) && b in x.blocks
    ensures NoDup(EdgesOf(x.code, x.blocks[b].instrs)) && x.blocks[b].outgoing == EdgesOf(x.code, x.blocks[b].instrs)
  {
    assert NodeOk(x, x.blocks[b]) && CodesOk(x);
    hide Consistent, NodesOk, EdgesOf;
    EdgesOfNoDup(x, x.blocks[b].instrs);
  }

  // ---- merging, edge by edge ----

  lemma MergeSupply(x: Ir, b: BlockId, id: nat)
    requires Supply(x, id) && S.Mergeable(x, b)
    ensures Supply(S.Merge(x, b), id)
  {
  }

  function SetDst(edges: map<EdgeId, Edge>, es: seq<EdgeId>, n: BlockId): (r: map<EdgeId, Edge>)
    ensures r.Keys == edges.Keys
  {
    map e | e in edges :: if e in es then edges[e].(dst := n) else edges[e]
  }

  function SetSrc(edges: map<EdgeId, Edge>, es: seq<EdgeId>, n: BlockId): (r: map<EdgeId, Edge>)
    ensures r.Keys == edges.Keys
  {
    map e | e in edges :: if e in es then edges[e].(src := n) else edges[e]
  }

  lemma SetNone(edges: map<EdgeId, Edge>, n: BlockId)
    ensures SetDst(edges, [], n) == edges == SetSrc(edges, [], n)
  {
  }

  lemma SetDstNext(x: Ir, b: BlockId, k: nat, n: BlockId)
    requires Consistent(x) && b in x.blocks && k < |x.blocks[b].incoming|
    ensures var e, was := x.blocks[b].incoming[k], SetDst(x.edges, x.blocks[b].incoming[..k], n);
            e in was && was[e := was[e].(dst := n)] == SetDst(x.edges, x.blocks[b].incoming[..k + 1], n)
  {
    hide Consistent, NoDup;
    var es := x.blocks[b].incoming;
    IncomingEnd(x, b, es[k]);
    assert es[..k + 1] == es[..k] + [es[k]];
  }

  lemma SetSrcNext(x: Ir, b: BlockId, k: nat, n: BlockId, moved: map<EdgeId, Edge>)
    requires Consistent(x) && b in x.blocks && k < |x.blocks[b].outgoing| && moved.Keys == x.edges.Keys
    ensures var e, was := x.blocks[b].outgoing[k], SetSrc(moved, x.blocks[b].outgoing[..k], n);
            e in was && was[e := was[e].(src := n)] == SetSrc(moved, x.blocks[b].outgoing[..k + 1], n)
  {
    hide Consistent, NoDup;
    var es := x.blocks[b].outgoing;
    OutgoingStart(x, b, es[k]);
    assert es[..k + 1] == es[..k] + [es[k]];
  }

  /** The outgoing list has exactly the edges that start in the block. */
  lemma OutgoingStart(x: Ir, b: BlockId, e: EdgeId)
    requires Consistent(x) && b in x.blocks
    ensures e in x.blocks[b].outgoing <==> e in x.edges && x.edges[e].src == b
  {
    hide IncomingsOk, Linked, NoDup, Apart;
    assert NodeOk(x, x.blocks[b]);
    EdgesOfMember(x.code, x.blocks[b].instrs, e);
    if e in x.blocks[b].outgoing {
      var i :| i in x.blocks[b].instrs && i in x.code && x.code[i].edge == Some(e);
      SrcBlock(x, b, i, e);
    }
    if e in x.edges { assert EdgeOk(x, e); }
  }

  lemma MergedEdges(x: Ir, b: BlockId, n: BlockId)
    requires Consistent(x) && b in x.blocks && n != b
    ensures SetSrc(SetDst(x.edges, x.blocks[b].incoming, n), x.blocks[b].outgoing, n) == S.RenameBlock(x.edges, b, n)
  {
    hide Consistent;
    forall e | e in x.edges
      ensures SetSrc(SetDst(x.edges, x.blocks[b].incoming, n), x.blocks[b].outgoing, n)[e] == S.RenameBlock(x.edges, b, n)[e]
    {
      OutgoingStart(x, b, e);
      IncomingEnd(x, b, e);
    }
  }

  lemma IncomingEnd(x: Ir, b: BlockId, e: EdgeId)
    requires Consistent(x) && b in x.blocks
    ensures e in x.blocks[b].incoming <==> e in x.edges && x.edges[e].dst == b
  {
    LeadsHere(x, b, e);
  }

  lemma MergeIs(x: Ir, b: BlockId, y: Ir)
    requires Consistent(x) && S.Mergeable(x, b) && y.code == x.code
    requires y.edges == SetSrc(SetDst(x.edges, x.blocks[b].incoming, x.blocks[b].next.value), x.blocks[b].outgoing, x.blocks[b].next.value)
    requires x.blocks[b].prev.Some? ==> x.blocks[b].prev.value in x.blocks
    requires var m, n := x.blocks[b], x.blocks[b].next.value;
             var b1 := if m.prev.Some? then x.blocks[m.prev.value := x.blocks[m.prev.value].(next := Some(n))] else x.blocks;
             var b2 := b1[n := b1[n].(prev := m.prev)];
             var b3 := b2[n := b2[n].(incoming := b2[n].incoming + m.incoming, outgoing := m.outgoing + b2[n].outgoing)];
             y.blocks == b3[n := b3[n].(instrs := m.instrs + b3[n].instrs)] - {b}
    ensures y == S.Merge(x, b)
  {
    hide Consistent, SetDst, SetSrc, S.RenameBlock;
    MergedEdges(x, b, x.blocks[b].next.value);
    var m, n := x.blocks[b], x.blocks[b].next.value;
    var b1 := S.NextOf(x.blocks, m.prev, m.next);
    OneUpdate(b1, n, b1[n].(prev := m.prev),
      b1[n].(prev := m.prev, incoming := b1[n].incoming + m.incoming, outgoing := m.outgoing + b1[n].outgoing));
    OneUpdate(b1, n, b1[n].(prev := m.prev, incoming := b1[n].incoming + m.incoming, outgoing := m.outgoing + b1[n].outgoing),
      Node(m.instrs + b1[n].instrs, b1[n].next, m.prev, b1[n].incoming + m.incoming, m.outgoing + b1[n].outgoing));
  }

  lemma OneUpdate(m: map<BlockId, Node>, a: BlockId, u: Node, v: Node)
    ensures m[a := u][a := v] == m[a := v]
  {
  }

  // ---- copying a block ----

  /** In a list of the copy: the new instruction does what the old one does; its edge leads where the
      old one's does, or to the copy if that is to the block itself. */
  ghost predicate InstrCopy(x: Ir, y: Ir, b: BlockId, nb: BlockId, i: NodeId, ni: NodeId) {
    && i in x.code && ni in y.code && ni !in x.code && y.code[ni].op == x.code[i].op
    && match x.code[i].edge
       case None => y.code[ni].edge == None
       case Some(e) =>
         && e in x.edges && y.code[ni].edge.Some? && y.code[ni].edge.value in y.edges
         && y.edges[y.code[ni].edge.value].dst == if x.edges[e].dst == b then nb else x.edges[e].dst
  }

  /** What was there is as it was; a block has more incoming edges maybe. */
  ghost predicate Extended(x: Ir, y: Ir, nb: BlockId) {
    && y.blocks.Keys == x.blocks.Keys + {nb} && nb !in x.blocks
    && (forall c | c in x.blocks :: SameNode(x.blocks[c], y.blocks[c]) && y.blocks[c].outgoing == x.blocks[c].outgoing)
    && (forall i | i in x.code :: i in y.code && y.code[i] == x.code[i])
    && (forall e | e in x.edges :: e in y.edges && y.edges[e] == x.edges[e])
  }

  /** The first m instructions of b have been copied to nb. */
  ghost predicate CopyOf(x: Ir, y: Ir, b: BlockId, nb: BlockId, m: nat)
    requires b in x.blocks && m <= |x.blocks[b].instrs|
  {
    && Extended(x, y, nb)
    && y.blocks[nb].next.None? && y.blocks[nb].prev.None? && |y.blocks[nb].instrs| == m
    && forall j | 0 <= j < m :: InstrCopy(x, y, b, nb, x.blocks[b].instrs[j], y.blocks[nb].instrs[j])
  }

  lemma AddBlockIs(x: Ir, nb: BlockId, y: Ir)
    requires y.code == x.code && y.edges == x.edges && y.blocks == x.blocks[nb := Node([], None, None, [], [])]
    ensures y == AddBlock(x, nb)
  {
  }

  lemma CopyStarts(x: Ir, b: BlockId, nb: BlockId, id: nat)
    requires Supply(x, id) && nb == id && b in x.blocks
    ensures Supply(AddBlock(x, nb), id + 1) && CopyOf(x, AddBlock(x, nb), b, nb, 0)
  {
  }

  function CopiedInstr(w: Ir, b: BlockId, nb: BlockId, i: NodeId, ni: NodeId, ne: EdgeId): Ir
    requires nb in w.blocks && i in w.code
  {
    var y := Append(w, nb, ni, w.code[i].op);
    match w.code[i].edge
    case None => y
    case Some(e) =>
      if e !in w.edges || (w.edges[e].dst != b && w.edges[e].dst !in w.blocks) then y
      else AddEdge(y, nb, ni, ne, if w.edges[e].dst == b then nb else w.edges[e].dst)
  }

  lemma CopiedThere(w: Ir, b: BlockId, nb: BlockId, i: NodeId, ni: NodeId, ne: EdgeId)
    requires Consistent(w) && nb in w.blocks && i in w.code
    ensures w.code[i].edge.Some? ==> w.code[i].edge.value in w.edges && w.edges[w.code[i].edge.value].dst in w.blocks
  {
    if w.code[i].edge.Some? {
      assert CodeOk(w, i) && EdgeOk(w, w.code[i].edge.value);
    }
  }

  lemma CopiedIs(w: Ir, b: BlockId, nb: BlockId, i: NodeId, ni: NodeId, ne: EdgeId, y: Ir)
    requires nb in w.blocks && i in w.code
    requires w.code[i].edge.Some? ==> w.code[i].edge.value in w.edges && w.edges[w.code[i].edge.value].dst in w.blocks
    requires var b1 := w.blocks[nb := w.blocks[nb].(instrs := w.blocks[nb].instrs + [ni])];
             match w.code[i].edge
             case None => y == Ir(b1, w.code[ni := Code(w.code[i].op, None)], w.edges)
             case Some(e) =>
               var d := if w.edges[e].dst == b then nb else w.edges[e].dst;
               var c1 := w.code[ni := Code(w.code[i].op, None)];
               var b2 := b1[nb := b1[nb].(outgoing := b1[nb].outgoing + [ne])];
               y == Ir(b2[d := b2[d].(incoming := b2[d].incoming + [ne])], c1[ni := c1[ni].(edge := Some(ne))],
                       w.edges[ne := Edge(nb, d, ni)])
    ensures y == CopiedInstr(w, b, nb, i, ni, ne)
  {
  }

  lemma CopiedConsistent(w: Ir, b: BlockId, nb: BlockId, i: NodeId, ni: NodeId, ne: EdgeId)
    requires Consistent(w) && nb in w.blocks && b in w.blocks && i in w.code && Bare(w.code[i].op) && Supply(w, ni) && ne == ni + 1
    ensures Consistent(CopiedInstr(w, b, nb, i, ni, ne)) && Supply(CopiedInstr(w, b, nb, i, ni, ne), ni + 2)
  {
    hide *;
    CopiedThere(w, b, nb, i, ni, ne);
    CopiedSupply(w, b, nb, i, ni, ne);
    AppendConsistent(w, nb, ni, w.code[i].op);
    if w.code[i].edge.Some? {
      CopiedBranch(w, i);
      CopiedUnfold(w, b, nb, i, ni, ne);
      AddEdgeConsistent(Append(w, nb, ni, w.code[i].op), nb, ni, ne, CopyDst(w, b, nb, w.code[i].edge.value));
    } else {
      CopiedPlain(w, b, nb, i, ni, ne);
    }
  }

  function CopyDst(w: Ir, b: BlockId, nb: BlockId, e: EdgeId): BlockId
    requires e in w.edges
  {
    if w.edges[e].dst == b then nb else w.edges[e].dst
  }

  lemma CopiedPlain(w: Ir, b: BlockId, nb: BlockId, i: NodeId, ni: NodeId, ne: EdgeId)
    requires nb in w.blocks && i in w.code && w.code[i].edge.None?
    ensures CopiedInstr(w, b, nb, i, ni, ne) == Append(w, nb, ni, w.code[i].op)
  {
  }

  lemma CopiedUnfold(w: Ir, b: BlockId, nb: BlockId, i: NodeId, ni: NodeId, ne: EdgeId)
    requires nb in w.blocks && i in w.code && w.code[i].edge.Some? && w.code[i].edge.value in w.edges
    requires w.edges[w.code[i].edge.value].dst in w.blocks && ne !in w.edges
    ensures var y, d := Append(w, nb, ni, w.code[i].op), CopyDst(w, b, nb, w.code[i].edge.value);
            && nb in y.blocks && d in y.blocks && ni in y.code && LastPlain(y, nb, ni) && ne !in y.edges
            && y.code[ni].op == w.code[i].op
            && CopiedInstr(w, b, nb, i, ni, ne) == AddEdge(y, nb, ni, ne, d)
  {
  }

  lemma CopiedBranch(w: Ir, i: NodeId)
    requires Consistent(w) && i in w.code && w.code[i].edge.Some?
    ensures w.code[i].op.kind.Branch?
  {
    assert CodeOk(w, i);
  }

  lemma CopiedSupply(w: Ir, b: BlockId, nb: BlockId, i: NodeId, ni: NodeId, ne: EdgeId)
    requires Supply(w, ni) && nb in w.blocks && i in w.code && ne == ni + 1
    ensures Supply(CopiedInstr(w, b, nb, i, ni, ne), ni + 2) && ni !in w.code && ne !in w.edges
  {
  }

  /** What one copied instruction changes. */
  lemma CopiedBlock(w: Ir, b: BlockId, nb: BlockId, i: NodeId, ni: NodeId, ne: EdgeId, c: BlockId)
    requires nb in w.blocks && i in w.code && c in w.blocks
    ensures var y := CopiedInstr(w, b, nb, i, ni, ne);
            && y.blocks.Keys == w.blocks.Keys
            && y.blocks[c].next == w.blocks[c].next && y.blocks[c].prev == w.blocks[c].prev
            && y.blocks[c].instrs == (if c == nb then w.blocks[c].instrs + [ni] else w.blocks[c].instrs)
            && (c != nb ==> y.blocks[c].outgoing == w.blocks[c].outgoing)
  {
  }

  lemma CopiedMaps(w: Ir, b: BlockId, nb: BlockId, i: NodeId, ni: NodeId, ne: EdgeId)
    requires nb in w.blocks && i in w.code && ni !in w.code && ne !in w.edges
    requires w.code[i].edge.Some? ==> w.code[i].edge.value in w.edges && w.edges[w.code[i].edge.value].dst in w.blocks
    ensures var y := CopiedInstr(w, b, nb, i, ni, ne);
            && (forall j | j in w.code :: j in y.code && y.code[j] == w.code[j])
            && (forall e | e in w.edges :: e in y.edges && y.edges[e] == w.edges[e])
            && ni in y.code && y.code[ni].op == w.code[i].op
            && match w.code[i].edge
               case None => y.code[ni].edge == None
               case Some(e) =>
                 && y.code[ni].edge == Some(ne) && ne in y.edges
                 && y.edges[ne].dst == if w.edges[e].dst == b then nb else w.edges[e].dst
  {
  }

  lemma CopiedExtended(x: Ir, w: Ir, y: Ir, nb: BlockId)
    requires Extended(x, w, nb) && y.blocks.Keys == w.blocks.Keys
    requires forall c | c in x.blocks :: SameNode(w.blocks[c], y.blocks[c]) && y.blocks[c].outgoing == w.blocks[c].outgoing
    requires forall j | j in w.code :: j in y.code && y.code[j] == w.code[j]
    requires forall e | e in w.edges :: e in y.edges && y.edges[e] == w.edges[e]
    ensures Extended(x, y, nb)
  {
  }

  lemma CopyStays(x: Ir, w: Ir, y: Ir, b: BlockId, nb: BlockId, i: NodeId, ni: NodeId)
    requires InstrCopy(x, w, b, nb, i, ni)
    requires forall j | j in w.code :: j in y.code && y.code[j] == w.code[j]
    requires forall e | e in w.edges :: e in y.edges && y.edges[e] == w.edges[e]
    ensures InstrCopy(x, y, b, nb, i, ni)
  {
  }

  /** The parts of the copy so far stay, and the next instruction is copied. */
  lemma CopiedMore(x: Ir, w: Ir, b: BlockId, nb: BlockId, m: nat, ni: NodeId, ne: EdgeId)
    requires b in x.blocks && m < |x.blocks[b].instrs| && CopyOf(x, w, b, nb, m)
    requires x.blocks[b].instrs[m] in x.code && nb in w.blocks && ni !in w.code && ne !in w.edges
    requires var i := x.blocks[b].instrs[m];
             x.code[i].edge.Some? ==> x.code[i].edge.value in x.edges && x.edges[x.code[i].edge.value].dst in x.blocks
    ensures x.blocks[b].instrs[m] in w.code && CopyOf(x, CopiedInstr(w, b, nb, x.blocks[b].instrs[m], ni, ne), b, nb, m + 1)
  {
    var i := x.blocks[b].instrs[m];
    assert i in w.code && w.code[i] == x.code[i] && ni !in x.code;
    var y := CopiedInstr(w, b, nb, i, ni, ne);
    CopiedMaps(w, b, nb, i, ni, ne);
    CopiedBlock(w, b, nb, i, ni, ne, nb);
    forall c | c in x.blocks ensures SameNode(w.blocks[c], y.blocks[c]) && y.blocks[c].outgoing == w.blocks[c].outgoing {
      CopiedBlock(w, b, nb, i, ni, ne, c);
    }
    CopiedExtended(x, w, y, nb);
    assert InstrCopy(x, y, b, nb, i, ni);
    hide CopiedInstr, Extended, SameNode;
    forall j | 0 <= j < m ensures InstrCopy(x, y, b, nb, x.blocks[b].instrs[j], y.blocks[nb].instrs[j]) {
      CopyStays(x, w, y, b, nb, x.blocks[b].instrs[j], w.blocks[nb].instrs[j]);
    }
    hide InstrCopy;
  }

  lemma CopyNext(x: Ir, w: Ir, b: BlockId, nb: BlockId, m: nat, ni: NodeId, ne: EdgeId)
    requires Consistent(x) && Consistent(w) && b in x.blocks && m < |x.blocks[b].instrs| && CopyOf(x, w, b, nb, m)
    requires Supply(w, ni) && ne == ni + 1
    ensures nb in w.blocks && x.blocks[b].instrs[m] in w.code
    ensures b in w.blocks && w.blocks[b].instrs == x.blocks[b].instrs
    ensures var y := CopiedInstr(w, b, nb, x.blocks[b].instrs[m], ni, ne);
            Consistent(y) && Supply(y, ni + 2) && CopyOf(x, y, b, nb, m + 1)
  {
    hide *;
    var i := x.blocks[b].instrs[m];
    CopyThere(x, w, b, nb, m);
    CopiedThere(x, b, b, i, ni, ne);
    CopiedSupply(w, b, nb, i, ni, ne);
    CopiedConsistent(w, b, nb, i, ni, ne);
    CopiedMore(x, w, b, nb, m, ni, ne);
  }

  lemma CopyThere(x: Ir, w: Ir, b: BlockId, nb: BlockId, m: nat)
    requires Consistent(x) && b in x.blocks && m < |x.blocks[b].instrs| && CopyOf(x, w, b, nb, m)
    ensures var i := x.blocks[b].instrs[m];
            && i in x.code && i in w.code && w.code[i] == x.code[i] && Bare(x.code[i].op)
            && nb in w.blocks && b in w.blocks && w.blocks[b].instrs == x.blocks[b].instrs
  {
    assert SameNode(x.blocks[b], w.blocks[b]);
    assert NodeOk(x, x.blocks[b]);
  }

  // ---- pointing branches elsewhere ----

  /** The edges among es that led to b lead to the copy. */
  ghost predicate Redirected(x: Ir, y: Ir, b: BlockId, copy: BlockId, es: seq<EdgeId>) {
    && SameShape(x, y) && y.code == x.code && y.edges.Keys == x.edges.Keys
    && (forall c | c in x.blocks :: y.blocks[c].outgoing == x.blocks[c].outgoing)
    && forall e | e in x.edges ::
         y.edges[e] == if e in es && x.edges[e].dst == b then x.edges[e].(dst := copy) else x.edges[e]
  }

  lemma RedirectStarts(x: Ir, b: BlockId, copy: BlockId)
    ensures Redirected(x, x, b, copy, [])
  {
  }

  lemma MoveDstIs(w: Ir, e: EdgeId, d: BlockId, y: Ir)
    requires e in w.edges && w.edges[e].dst in w.blocks && d in w.blocks
    requires var o := w.edges[e].dst;
             var b1 := w.blocks[o := w.blocks[o].(incoming := Without(w.blocks[o].incoming, e))];
             y == Ir(b1[d := b1[d].(incoming := b1[d].incoming + [e])], w.code, w.edges[e := w.edges[e].(dst := d)])
    ensures y == MoveDst(w, e, d)
  {
  }

  lemma RedirectNext(x: Ir, w: Ir, b: BlockId, copy: BlockId, k: nat, id: nat)
    requires Consistent(x) && Consistent(w) && b in x.blocks && copy in x.blocks && b != copy && k < |x.blocks[b].outgoing|
    requires Redirected(x, w, b, copy, x.blocks[b].outgoing[..k]) && Supply(w, id)
    ensures var e := x.blocks[b].outgoing[k];
            && e in w.edges && w.edges[e].dst in w.blocks && copy in w.blocks && b in w.blocks
            && (w.edges[e].dst == b ==>
                  && e in w.blocks[b].incoming && NoDup(w.blocks[b].incoming)
                  && var y := MoveDst(w, e, copy);
                     Consistent(y) && Supply(y, id) && Redirected(x, y, b, copy, x.blocks[b].outgoing[..k + 1]))
            && (w.edges[e].dst != b ==> Redirected(x, w, b, copy, x.blocks[b].outgoing[..k + 1]))
  {
    hide Consistent, NoDup;
    var es := x.blocks[b].outgoing;
    var e := es[k];
    OutgoingStart(x, b, e);
    EdgesUnique(x, b);
    assert es[..k + 1] == es[..k] + [e];
    assert e !in es[..k] by { NoDupAt(es, k); }
    EdgeLists(w, e);
    if w.edges[e].dst == b {
      MoveDstConsistent(w, e, copy);
      MoveDstSupply(w, e, copy, id);
      RedirectMoves(x, w, b, copy, es[..k], e);
    } else {
      hide SameShape, Supply;
    }
  }

  lemma RedirectMoves(x: Ir, w: Ir, b: BlockId, copy: BlockId, es: seq<EdgeId>, e: EdgeId)
    requires Redirected(x, w, b, copy, es) && e in w.edges && EdgeOk(w, e) && w.edges[e].dst == b && e !in es && copy in w.blocks && copy != b
    requires SameShape(w, MoveDst(w, e, copy))
    ensures Redirected(x, MoveDst(w, e, copy), b, copy, es + [e])
  {
    var y := MoveDst(w, e, copy);
    SameShapeTwice(x, w, y);
    forall c | c in x.blocks ensures y.blocks[c].outgoing == x.blocks[c].outgoing {
      MoveDstBlock(w, e, copy, c);
    }
    assert y.edges == w.edges[e := w.edges[e].(dst := copy)] && y.code == w.code;
    hide MoveDst, SameShape, EdgeOk;
  }

  lemma MoveDstSupply(w: Ir, e: EdgeId, d: BlockId, id: nat)
    requires Supply(w, id) && e in w.edges && w.edges[e].dst in w.blocks && d in w.blocks
    ensures Supply(MoveDst(w, e, d), id)
  {
  }

  lemma EdgesUnique(x: Ir, b: BlockId)
    requires Consistent(x) && b in x.blocks
    ensures NoDup(x.blocks[b].outgoing)
  {
    AllEdgesOnce(x, b);
  }

  lemma NoDupAt(s: seq<nat>, k: nat)
    requires NoDup(s) && k < |s|
    ensures s[k] !in s[..k]
  {
  }

  // ---- another opcode ----

  function SetOp(x: Ir, i: NodeId, op: Instr): Ir
    requires i in x.code
  {
    x.(code := x.code[i := x.code[i].(op := op)])
  }

  lemma SetOpNode(x: Ir, i: NodeId, op: Instr, b: BlockId)
    requires NodesOk(x) && i in x.code && Bare(op) && b in x.blocks
    ensures NodeOk(SetOp(x, i, op), x.blocks[b])
  {
    assert NodeOk(x, x.blocks[b]);
    EdgesOfSame(x.code, SetOp(x, i, op).code, x.blocks[b].instrs);
  }

  lemma SetOpConsistent(x: Ir, i: NodeId, op: Instr)
    requires Consistent(x) && i in x.code && Bare(op) && op.kind == x.code[i].op.kind
    ensures Consistent(SetOp(x, i, op))
  {
    var y := SetOp(x, i, op);
    hide NodesOk, NodeOk, IncomingsOk, EdgesOk, Apart;
    assert CodesOk(y) by {
      forall j | j in y.code && y.code[j].edge.Some? ensures CodeOk(y, j) { assert CodeOk(x, j); }
    }
    SetOpLists(x, i, op);
  }

  lemma SetOpLists(x: Ir, i: NodeId, op: Instr)
    requires NodesOk(x) && IncomingsOk(x) && EdgesOk(x) && Apart(x) && i in x.code && Bare(op)
    ensures var y := SetOp(x, i, op); NodesOk(y) && IncomingsOk(y) && EdgesOk(y) && Apart(y)
  {
    var y := SetOp(x, i, op);
    hide NodeOk, NoDup, NoneShared;
    assert Apart(y) by {
      forall b, c | b in y.blocks && c in y.blocks && b != c ensures NoneShared(y.blocks[b].instrs, y.blocks[c].instrs) {
        assert NoneShared(x.blocks[b].instrs, x.blocks[c].instrs);
      }
    }
    assert IncomingsOk(y) by {
      forall b | b in y.blocks ensures IncomingOk(y, b) { assert IncomingOk(x, b); }
    }
    assert EdgesOk(y) by {
      forall e | e in y.edges ensures EdgeOk(y, e) { assert EdgeOk(x, e); }
    }
    assert NodesOk(y) by {
      forall b | b in y.blocks ensures NodeOk(y, y.blocks[b]) { SetOpNode(x, i, op, b); }
    }
  }

  lemma NextThere(x: Ir, b: BlockId)
    requires Consistent(x) && b in x.blocks && x.blocks[b].next.Some?
    ensures x.blocks[b].next.value in x.blocks
  {
  }

  lemma UnchainedIs(x: Ir, b: BlockId, jump: Instr, i: NodeId, e: EdgeId, y: Ir)
    requires b in x.blocks && x.blocks[b].next.Some? && x.blocks[b].next.value in x.blocks
    requires y.code == x.code[i := Code(jump, Some(e))] && y.edges == x.edges[e := Edge(b, x.blocks[b].next.value, i)]
    requires var n := x.blocks[b].next.value;
             var b1 := x.blocks[b := x.blocks[b].(instrs := x.blocks[b].instrs + [i], outgoing := x.blocks[b].outgoing + [e])];
             var b2 := b1[n := b1[n].(incoming := b1[n].incoming + [e])];
             var b3 := b2[n := b2[n].(prev := None)];
             y.blocks == b3[b := b3[b].(next := None)]
    ensures y == Unchained(x, b, jump, i, e)
  {
    var n := x.blocks[b].next.value;
    var y1 := Append(x, b, i, jump);
    var y2 := AddEdge(y1, b, i, e, n);
    assert y2.code == y.code;
    assert y2.blocks.Keys == x.blocks.Keys;
    forall c | c in x.blocks ensures y.blocks[c] == Unlink(y2, b).blocks[c] {
    }
  }

  lemma DropEdgeIs(x: Ir, e: EdgeId, y: Ir)
    requires e in x.edges && x.edges[e].src in x.blocks && x.edges[e].dst in x.blocks && x.edges[e].instr in x.code
    requires var d := x.edges[e];
             var bs := x.blocks[d.src := x.blocks[d.src].(outgoing := Without(x.blocks[d.src].outgoing, e))];
             && y.blocks == bs[d.dst := bs[d.dst].(incoming := Without(bs[d.dst].incoming, e))]
             && y.edges == x.edges - {e} && y.code == x.code[d.instr := x.code[d.instr].(edge := None)]
    ensures y == DropEdge(x, e)
  {
  }

  lemma DropEdgeSupply(x: Ir, e: EdgeId, id: nat)
    requires Supply(x, id) && e in x.edges && EdgeOk(x, e)
    ensures Supply(DropEdge(x, e), id)
  {
  }

  lemma RemovedInstrSupply(x: Ir, b: BlockId, i: NodeId, id: nat)
    requires Supply(x, id) && b in x.blocks && i in x.code
    ensures Supply(RemovedInstr(x, b, i), id)
  {
  }

  lemma UnchainedSupply(x: Ir, b: BlockId, jump: Instr, i: NodeId, e: EdgeId)
    requires Supply(x, i) && b in x.blocks && x.blocks[b].next.Some? && x.blocks[b].next.value in x.blocks && e == i + 1
    ensures Supply(Unchained(x, b, jump, i, e), i + 2)
    ensures i !in x.code && e !in x.edges
  {
  }

  lemma EdgeLists(x: Ir, e: EdgeId)
    requires Consistent(x) && e in x.edges
    ensures var d := x.edges[e];
            && EdgeOk(x, e) && d.src in x.blocks && d.dst in x.blocks && d.instr in x.code
            && e in x.blocks[d.src].outgoing && NoDup(x.blocks[d.src].outgoing)
            && e in x.blocks[d.dst].incoming && NoDup(x.blocks[d.dst].incoming)
  {
    var d := x.edges[e];
    assert EdgeOk(x, e);
    assert NodeOk(x, x.blocks[d.src]) && IncomingOk(x, d.dst);
    EdgesOfMember(x.code, x.blocks[d.src].instrs, e);
    EdgesOfNoDup(x, x.blocks[d.src].instrs);
  }

  lemma InstrThere(x: Ir, b: BlockId, i: NodeId)
    requires Consistent(x) && b in x.blocks && i in x.blocks[b].instrs
    ensures i in x.code && NoDup(x.blocks[b].instrs) && (x.code[i].edge.Some? ==> x.code[i].edge.value in x.edges)
    ensures x.code[i].edge.Some? ==> CodeOk(x, i) && EdgeOk(x, x.code[i].edge.value)
  {
    assert NodeOk(x, x.blocks[b]);
    if x.code[i].edge.Some? {
      assert CodeOk(x, i);
      assert EdgeOk(x, x.code[i].edge.value);
    }
  }

  function RemovedInstr(x: Ir, b: BlockId, i: NodeId): Ir
    requires b in x.blocks && i in x.code
  {
    var e := x.code[i].edge;
    if e.Some? && e.value in x.edges && x.edges[e.value].src in x.blocks && x.edges[e.value].dst in x.blocks && x.edges[e.value].instr in x.code
    then DropInstr(DropEdge(x, e.value), b, i) else DropInstr(x, b, i)
  }

  lemma RemovedInstrConsistent(x: Ir, b: BlockId, i: NodeId)
    requires Consistent(x) && b in x.blocks && i in x.blocks[b].instrs && i in x.code
    ensures Consistent(RemovedInstr(x, b, i))
  {
    InstrThere(x, b, i);
    if x.code[i].edge.Some? {
      var e := x.code[i].edge.value;
      DropEdgeConsistent(x, e);
      DropEdgeBlock(x, e, b);
      DropInstrConsistent(DropEdge(x, e), b, i);
    } else {
      DropInstrConsistent(x, b, i);
    }
  }

  function Unchained(x: Ir, b: BlockId, jump: Instr, i: NodeId, e: EdgeId): Ir
    requires b in x.blocks && x.blocks[b].next.Some? && x.blocks[b].next.value in x.blocks
  {
    Unlink(AddEdge(Append(x, b, i, jump), b, i, e, x.blocks[b].next.value), b)
  }

  lemma UnchainedConsistent(x: Ir, b: BlockId, jump: Instr, i: NodeId, e: EdgeId)
    requires Consistent(x) && b in x.blocks && x.blocks[b].next.Some? && jump.kind == Branch(None)
    requires i !in x.code && e !in x.edges
    ensures x.blocks[b].next.value in x.blocks && Consistent(Unchained(x, b, jump, i, e))
  {
    assert Linked(x);
    var n := x.blocks[b].next.value;
    hide NodesOk, IncomingsOk, Apart, EdgesOk, CodesOk, Linked, Unlink;
    AppendConsistent(x, b, i, jump);
    AddEdgeConsistent(Append(x, b, i, jump), b, i, e, n);
    UnlinkConsistent(AddEdge(Append(x, b, i, jump), b, i, e, n), b);
  }
}

/** What can be done to a consistent set of blocks: every operation keeps it consistent. */
module IrOps {
  import opened Machine
  import opened Links
  import opened Ir

  // ---- links only ----

  /** Nothing but prev and next differs. */
  ghost predicate SameLists(x: Ir, y: Ir) {
    && y.code == x.code && y.edges == x.edges && y.blocks.Keys == x.blocks.Keys
    && forall b | b in x.blocks :: SameList(x.blocks[b], y.blocks[b])
  }

  ghost predicate SameList(m: Node, n: Node) {
    n.instrs == m.instrs && n.incoming == m.incoming && n.outgoing == m.outgoing
  }

  lemma ListsKeep(x: Ir, y: Ir)
    requires SameLists(x, y) && Consistent(x) && Linked(y)
    ensures Consistent(y)
  {
    assert forall b | b in x.blocks :: SameList(x.blocks[b], y.blocks[b]);
    hide SameLists, NoDup, Linked;
    assert NodesOk(y) by {
      forall b | b in y.blocks ensures NodeOk(y, y.blocks[b]) {
        assert NodeOk(x, x.blocks[b]) && SameList(x.blocks[b], y.blocks[b]);
      }
    }
    assert IncomingsOk(y) by {
      forall b | b in y.blocks ensures IncomingOk(y, b) {
        assert IncomingOk(x, b) && SameList(x.blocks[b], y.blocks[b]);
      }
    }
    assert Apart(y) by {
      forall b, c | b in y.blocks && c in y.blocks && b != c ensures NoneShared(y.blocks[b].instrs, y.blocks[c].instrs) {
        assert SameList(x.blocks[b], y.blocks[b]) && SameList(x.blocks[c], y.blocks[c]);
        assert NoneShared(x.blocks[b].instrs, x.blocks[c].instrs);
      }
    }
    assert EdgesOk(y) by {
      forall e | e in y.edges ensures EdgeOk(y, e) {
        assert EdgeOk(x, e);
        assert SameList(x.blocks[x.edges[e].src], y.blocks[x.edges[e].src]) && SameList(x.blocks[x.edges[e].dst], y.blocks[x.edges[e].dst]);
      }
    }
    assert CodesOk(y) by {
      forall i | i in y.code && y.code[i].edge.Some? ensures CodeOk(y, i) {
        assert CodeOk(x, i);
      }
    }
  }

  function SetNext(x: Ir, b: BlockId, n: Option<BlockId>): Ir
    requires b in x.blocks
  {
    x.(blocks := x.blocks[b := x.blocks[b].(next := n)])
  }

  function SetPrev(x: Ir, b: BlockId, p: Option<BlockId>): Ir
    requires b in x.blocks
  {
    x.(blocks := x.blocks[b := x.blocks[b].(prev := p)])
  }

  /** The block stops falling through. */
  function Unlink(x: Ir, b: BlockId): Ir
    requires b in x.blocks && x.blocks[b].next.Some? && x.blocks[b].next.value in x.blocks
  {
    SetNext(SetPrev(x, x.blocks[b].next.value, None), b, None)
  }

  /** Block b falls through to n. */
  function Link(x: Ir, b: BlockId, n: BlockId): Ir
    requires b in x.blocks && n in x.blocks
  {
    SetNext(SetPrev(x, n, Some(b)), b, Some(n))
  }

  lemma UnlinkLinked(x: Ir, b: BlockId)
    requires Linked(x) && b in x.blocks && x.blocks[b].next.Some? && x.blocks[b].next.value in x.blocks
    ensures Linked(Unlink(x, b)) && SameLists(x, Unlink(x, b))
  {
    hide Unlink, SameList;
    var y, n := Unlink(x, b), x.blocks[b].next.value;
    UnlinkAt(x, b, b);
    forall c | c in y.blocks ensures UnlinkedAt(x, y, b, n, c) && SameList(x.blocks[c], y.blocks[c]) { UnlinkAt(x, b, c); }
  }

  ghost predicate UnlinkedAt(x: Ir, y: Ir, b: BlockId, n: BlockId, c: BlockId)
    requires c in x.blocks && c in y.blocks
  {
    && y.blocks[c].next == (if c == b then None else x.blocks[c].next)
    && y.blocks[c].prev == (if c == n then None else x.blocks[c].prev)
  }

  lemma UnlinkAt(x: Ir, b: BlockId, c: BlockId)
    requires b in x.blocks && x.blocks[b].next.Some? && x.blocks[b].next.value in x.blocks && c in x.blocks
    ensures Unlink(x, b).blocks.Keys == x.blocks.Keys && UnlinkedAt(x, Unlink(x, b), b, x.blocks[b].next.value, c)
    ensures SameList(x.blocks[c], Unlink(x, b).blocks[c]) && Unlink(x, b).code == x.code && Unlink(x, b).edges == x.edges
  {
  }

  lemma UnlinkConsistent(x: Ir, b: BlockId)
    requires Consistent(x) && b in x.blocks && x.blocks[b].next.Some?
    ensures x.blocks[b].next.value in x.blocks && Consistent(Unlink(x, b)) && SameLists(x, Unlink(x, b))
  {
    assert x.blocks[b].next.value in x.blocks;
    UnlinkLinked(x, b);
    hide Consistent, Linked, Unlink, SameLists;
    assert Linked(x) by { LinkedOf(x); }
    ListsKeep(x, Unlink(x, b));
  }

  lemma LinkedOf(x: Ir)
    requires Consistent(x)
    ensures Linked(x)
  {
  }

  lemma LinkLists(x: Ir, b: BlockId, n: BlockId)
    requires b in x.blocks && n in x.blocks
    ensures SameLists(x, Link(x, b, n))
  {
  }

  lemma LinkLinked(x: Ir, b: BlockId, n: BlockId)
    requires Linked(x) && b in x.blocks && n in x.blocks && x.blocks[b].next.None? && x.blocks[n].prev.None?
    ensures Linked(Link(x, b, n))
  {
    hide Link;
    var y := Link(x, b, n);
    LinkAt(x, b, n, b);
    forall c | c in y.blocks ensures LinkedAt(x, y, b, n, c) { LinkAt(x, b, n, c); }
  }

  ghost predicate LinkedAt(x: Ir, y: Ir, b: BlockId, n: BlockId, c: BlockId)
    requires c in x.blocks && c in y.blocks
  {
    && y.blocks[c].next == (if c == b then Some(n) else x.blocks[c].next)
    && y.blocks[c].prev == (if c == n then Some(b) else x.blocks[c].prev)
  }

  lemma LinkAt(x: Ir, b: BlockId, n: BlockId, c: BlockId)
    requires b in x.blocks && n in x.blocks && c in x.blocks
    ensures Link(x, b, n).blocks.Keys == x.blocks.Keys && LinkedAt(x, Link(x, b, n), b, n, c)
  {
  }

  lemma LinkConsistent(x: Ir, b: BlockId, n: BlockId)
    requires Consistent(x) && b in x.blocks && n in x.blocks && x.blocks[b].next.None? && x.blocks[n].prev.None?
    ensures Consistent(Link(x, b, n)) && SameLists(x, Link(x, b, n))
  {
    hide NodesOk, IncomingsOk, Apart, EdgesOk, CodesOk, Linked, Link, SameLists;
    LinkLists(x, b, n);
    LinkLinked(x, b, n);
    ListsKeep(x, Link(x, b, n));
  }

  // ---- an instruction goes ----

  /** Erase an instruction that has no edge (any more). */
  function DropInstr(x: Ir, b: BlockId, i: NodeId): Ir
    requires b in x.blocks
  {
    Ir(x.blocks[b := x.blocks[b].(instrs := Without(x.blocks[b].instrs, i))], x.code - {i}, x.edges)
  }

  lemma {:induction false} EdgesOfWithout(code: map<NodeId, Code>, s: seq<NodeId>, i: NodeId)
    requires i in code ==> code[i].edge.None?
    ensures EdgesOf(code, Without(s, i)) == EdgesOf(code, s)
  {
    if s != [] {
      EdgesOfWithout(code, s[..|s| - 1], i);
      EdgesOfAppend(code, Without(s[..|s| - 1], i), if s[|s| - 1] == i then [] else [s[|s| - 1]]);
      EdgesOfOne(code, s[|s| - 1]);
    }
  }

  lemma DropInstrNode(x: Ir, b: BlockId, i: NodeId, c: BlockId)
    requires NodesOk(x) && Apart(x) && b in x.blocks && i in x.blocks[b].instrs && c in x.blocks
    requires i in x.code && x.code[i].edge.None?
    ensures NodeOk(DropInstr(x, b, i), DropInstr(x, b, i).blocks[c])
  {
    var y, n := DropInstr(x, b, i), x.blocks[c];
    assert NodeOk(x, n);
    assert c != b ==> NoneShared(x.blocks[b].instrs, n.instrs);
    WithoutMembers(n.instrs, i);
    EdgesOfWithout(x.code, n.instrs, i);
    EdgesOfSame(x.code, y.code, y.blocks[c].instrs);
  }

  lemma DropInstrEdge(x: Ir, b: BlockId, i: NodeId, e: EdgeId)
    requires e in x.edges && EdgeOk(x, e) && b in x.blocks && i in x.code && x.code[i].edge.None?
    ensures EdgeOk(DropInstr(x, b, i), e)
  {
    WithoutMembers(x.blocks[b].instrs, i);
  }

  lemma DropInstrApart(x: Ir, b: BlockId, i: NodeId)
    requires Apart(x) && b in x.blocks
    ensures Apart(DropInstr(x, b, i))
  {
    var y := DropInstr(x, b, i);
    WithoutMembers(x.blocks[b].instrs, i);
    forall c, d | c in y.blocks && d in y.blocks && c != d ensures NoneShared(y.blocks[c].instrs, y.blocks[d].instrs) {
      assert NoneShared(x.blocks[c].instrs, x.blocks[d].instrs);
    }
  }

  lemma DropInstrOthers(x: Ir, b: BlockId, i: NodeId)
    requires EdgesOk(x) && IncomingsOk(x) && CodesOk(x) && Linked(x) && b in x.blocks && i in x.code && x.code[i].edge.None?
    ensures var y := DropInstr(x, b, i); EdgesOk(y) && IncomingsOk(y) && CodesOk(y) && Linked(y)
  {
    var y := DropInstr(x, b, i);
    hide Without;
    assert Linked(y);
    assert CodesOk(y) by {
      forall j | j in y.code && y.code[j].edge.Some? ensures CodeOk(y, j) { assert CodeOk(x, j); }
    }
    assert IncomingsOk(y) by {
      forall c | c in y.blocks ensures IncomingOk(y, c) { assert IncomingOk(x, c); }
    }
    assert y.edges == x.edges;
    hide DropInstr, NoDup, CodesOk, IncomingsOk, EdgeOk, Linked;
    forall e | e in y.edges ensures EdgeOk(y, e) { DropInstrEdge(x, b, i, e); }
  }

  lemma DropInstrConsistent(x: Ir, b: BlockId, i: NodeId)
    requires Consistent(x) && b in x.blocks && i in x.blocks[b].instrs && i in x.code && x.code[i].edge.None?
    ensures Consistent(DropInstr(x, b, i))
  {
    var y := DropInstr(x, b, i);
    assert y.blocks.Keys == x.blocks.Keys;
    hide NodeOk, Apart, EdgesOk, IncomingsOk, CodesOk, Linked, DropInstr;
    DropInstrOthers(x, b, i);
    DropInstrApart(x, b, i);
    forall c | c in y.blocks ensures NodeOk(y, y.blocks[c]) { DropInstrNode(x, b, i, c); }
  }

  // ---- an instruction comes ----

  /** A new instruction at the end of a block. */
  function Append(x: Ir, b: BlockId, i: NodeId, op: Instr): Ir
    requires b in x.blocks
  {
    Ir(x.blocks[b := x.blocks[b].(instrs := x.blocks[b].instrs + [i])], x.code[i := Code(op, None)], x.edges)
  }

  /** The last instruction of a block gets an edge. */
  function AddEdge(x: Ir, b: BlockId, i: NodeId, e: EdgeId, d: BlockId): Ir
    requires b in x.blocks && d in x.blocks && i in x.code
  {
    var blocks := x.blocks[b := x.blocks[b].(outgoing := x.blocks[b].outgoing + [e])];
    Ir(blocks[d := blocks[d].(incoming := blocks[d].incoming + [e])],
       x.code[i := x.code[i].(edge := Some(e))],
       x.edges[e := Edge(b, d, i)])
  }

  lemma AppendNode(x: Ir, b: BlockId, i: NodeId, op: Instr, c: BlockId)
    requires NodesOk(x) && b in x.blocks && i !in x.code && Bare(op) && c in x.blocks
    ensures NodeOk(Append(x, b, i, op), Append(x, b, i, op).blocks[c])
  {
    var y, n := Append(x, b, i, op), x.blocks[c];
    assert NodeOk(x, n);
    EdgesOfSame(x.code, y.code, n.instrs);
    EdgesOfAppend(y.code, n.instrs, [i]);
    EdgesOfOne(y.code, i);
  }

  lemma AppendApart(x: Ir, b: BlockId, i: NodeId, op: Instr)
    requires Apart(x) && NodesOk(x) && b in x.blocks && i !in x.code
    ensures Apart(Append(x, b, i, op))
  {
    var y := Append(x, b, i, op);
    forall c, d | c in y.blocks && d in y.blocks && c != d ensures NoneShared(y.blocks[c].instrs, y.blocks[d].instrs) {
      assert NoneShared(x.blocks[c].instrs, x.blocks[d].instrs);
      assert NodeOk(x, x.blocks[c]) && NodeOk(x, x.blocks[d]);
    }
  }

  lemma AppendSame(x: Ir, b: BlockId, i: NodeId, op: Instr)
    requires b in x.blocks && i !in x.code
    ensures var y := Append(x, b, i, op);
            && y.blocks.Keys == x.blocks.Keys && y.edges == x.edges && y.code.Keys == x.code.Keys + {i} && y.code[i].edge.None?
            && (forall j | j in x.code :: y.code[j] == x.code[j])
            && forall c | c in x.blocks :: AppendedAt(x, y, b, i, c)
  {
  }

  predicate AppendedAt(x: Ir, y: Ir, b: BlockId, i: NodeId, c: BlockId)
    requires c in x.blocks && c in y.blocks
  {
    y.blocks[c] == x.blocks[c].(instrs := if c == b then x.blocks[c].instrs + [i] else x.blocks[c].instrs)
  }

  lemma AppendLinked(x: Ir, b: BlockId, i: NodeId, op: Instr)
    requires Linked(x) && IncomingsOk(x) && b in x.blocks && i !in x.code
    ensures var y := Append(x, b, i, op); IncomingsOk(y) && Linked(y)
  {
    hide NoDup, Append;
    var y := Append(x, b, i, op);
    AppendSame(x, b, i, op);
    forall c | c in x.blocks
      ensures y.blocks[c].next == x.blocks[c].next && y.blocks[c].prev == x.blocks[c].prev && y.blocks[c].incoming == x.blocks[c].incoming
    {
      assert AppendedAt(x, y, b, i, c);
    }
    hide AppendedAt;
    forall c | c in y.blocks ensures IncomingOk(y, c) { assert IncomingOk(x, c); }
  }

  lemma AppendOthers(x: Ir, b: BlockId, i: NodeId, op: Instr)
    requires EdgesOk(x) && IncomingsOk(x) && CodesOk(x) && Linked(x) && b in x.blocks && i !in x.code
    ensures var y := Append(x, b, i, op); EdgesOk(y) && IncomingsOk(y) && CodesOk(y) && Linked(y)
  {
    hide NoDup, Append, IncomingsOk, Linked;
    var y := Append(x, b, i, op);
    AppendLinked(x, b, i, op);
    AppendSame(x, b, i, op);
    forall e | e in y.edges ensures EdgeOk(y, e) {
      assert EdgeOk(x, e);
      assert AppendedAt(x, y, b, i, x.edges[e].src) && AppendedAt(x, y, b, i, x.edges[e].dst);
    }
    forall j | j in y.code && y.code[j].edge.Some? ensures CodeOk(y, j) { assert CodeOk(x, j); }
  }

  lemma AppendConsistent(x: Ir, b: BlockId, i: NodeId, op: Instr)
    requires Consistent(x) && b in x.blocks && i !in x.code && Bare(op)
    ensures Consistent(Append(x, b, i, op))
  {
    var y := Append(x, b, i, op);
    hide NodeOk, Apart, EdgesOk, IncomingsOk, CodesOk, Linked;
    AppendOthers(x, b, i, op);
    AppendApart(x, b, i, op);
    forall c | c in y.blocks ensures NodeOk(y, y.blocks[c]) { AppendNode(x, b, i, op, c); }
  }

  /** The instruction is the last one of the block and has no edge. */
  ghost predicate LastPlain(x: Ir, b: BlockId, i: NodeId) {
    && b in x.blocks && x.blocks[b].instrs != [] && x.blocks[b].instrs[|x.blocks[b].instrs| - 1] == i
    && i in x.code && x.code[i].edge.None?
  }

  lemma AddEdgeNode(x: Ir, b: BlockId, i: NodeId, e: EdgeId, d: BlockId, c: BlockId)
    requires NodesOk(x) && Apart(x) && LastPlain(x, b, i) && d in x.blocks && c in x.blocks
    ensures NodeOk(AddEdge(x, b, i, e, d), AddEdge(x, b, i, e, d).blocks[c])
  {
    var y, n := AddEdge(x, b, i, e, d), x.blocks[c];
    assert NodeOk(x, n);
    assert c != b ==> NoneShared(x.blocks[b].instrs, n.instrs);
    assert i in x.blocks[b].instrs;
    AddEdgeBlock(x, b, i, e, d, c);
    if c == b { LastEdge(x.code, n.instrs, e); }
    hide NodesOk, Apart, AddEdge, NoDup, EdgesOf;
    if c != b { EdgesOfSame(x.code, y.code, n.instrs); }
  }

  /** The edges of a list whose last instruction gets one. */
  lemma LastEdge(code: map<NodeId, Code>, s: seq<NodeId>, e: EdgeId)
    requires s != [] && NoDup(s) && s[|s| - 1] in code && code[s[|s| - 1]].edge.None?
    ensures var i := s[|s| - 1]; EdgesOf(code[i := code[i].(edge := Some(e))], s) == EdgesOf(code, s) + [e]
  {
    var p, i := s[..|s| - 1], s[|s| - 1];
    assert i !in p;
    EdgesOfSame(code, code[i := code[i].(edge := Some(e))], p);
  }

  lemma AddEdgeBlock(x: Ir, b: BlockId, i: NodeId, e: EdgeId, d: BlockId, c: BlockId)
    requires b in x.blocks && d in x.blocks && i in x.code && c in x.blocks
    ensures var y := AddEdge(x, b, i, e, d);
            && c in y.blocks && SameNode(x.blocks[c], y.blocks[c]) && y.code == x.code[i := x.code[i].(edge := Some(e))]
            && y.blocks[c].outgoing == (if c == b then x.blocks[c].outgoing + [e] else x.blocks[c].outgoing)
            && y.blocks[c].incoming == (if c == d then x.blocks[c].incoming + [e] else x.blocks[c].incoming)
  {
  }

  lemma AddEdgeIncoming(x: Ir, b: BlockId, i: NodeId, e: EdgeId, d: BlockId, c: BlockId)
    requires c in x.blocks && IncomingOk(x, c) && b in x.blocks && i in x.code && d in x.blocks && e !in x.edges
    ensures IncomingOk(AddEdge(x, b, i, e, d), c)
  {
    var n := x.blocks[c];
    NoDupAppend(n.incoming, [e]);
  }

  lemma AddEdgeEdge(x: Ir, b: BlockId, i: NodeId, e: EdgeId, d: BlockId, f: EdgeId)
    requires LastPlain(x, b, i) && d in x.blocks && e !in x.edges
    requires f == e || (f in x.edges && EdgeOk(x, f))
    ensures EdgeOk(AddEdge(x, b, i, e, d), f)
  {
  }

  lemma AddEdgeOthers(x: Ir, b: BlockId, i: NodeId, e: EdgeId, d: BlockId)
    requires EdgesOk(x) && IncomingsOk(x) && CodesOk(x) && LastPlain(x, b, i) && d in x.blocks && e !in x.edges
    requires x.code[i].op.kind.Branch?
    ensures var y := AddEdge(x, b, i, e, d); EdgesOk(y) && IncomingsOk(y) && CodesOk(y)
  {
    var y := AddEdge(x, b, i, e, d);
    assert CodesOk(y) by {
      forall j | j in y.code && y.code[j].edge.Some? ensures CodeOk(y, j) { assert j != i ==> CodeOk(x, j); }
    }
    assert y.blocks.Keys == x.blocks.Keys && y.edges.Keys == x.edges.Keys + {e};
    hide AddEdge, NoDup, CodesOk, IncomingOk, EdgeOk;
    forall c | c in y.blocks ensures IncomingOk(y, c) { AddEdgeIncoming(x, b, i, e, d, c); }
    forall f | f in y.edges ensures EdgeOk(y, f) { AddEdgeEdge(x, b, i, e, d, f); }
  }

  lemma AddEdgeConsistent(x: Ir, b: BlockId, i: NodeId, e: EdgeId, d: BlockId)
    requires Consistent(x) && LastPlain(x, b, i) && d in x.blocks && e !in x.edges && x.code[i].op.kind.Branch?
    ensures Consistent(AddEdge(x, b, i, e, d)) && SameShape(x, AddEdge(x, b, i, e, d))
  {
    var y := AddEdge(x, b, i, e, d);
    hide NodesOk, Apart, SameShape, Linked, EdgesOk, IncomingsOk, CodesOk, AddEdge, LastPlain;
    AddEdgeShape(x, b, i, e, d);
    ShapeKeeps(x, y);
    AddEdgeOthers(x, b, i, e, d);
    AddEdgeNodes(x, b, i, e, d);
  }

  lemma AddEdgeShape(x: Ir, b: BlockId, i: NodeId, e: EdgeId, d: BlockId)
    requires b in x.blocks && d in x.blocks && i in x.code
    ensures SameShape(x, AddEdge(x, b, i, e, d))
  {
  }

  lemma AddEdgeNodes(x: Ir, b: BlockId, i: NodeId, e: EdgeId, d: BlockId)
    requires NodesOk(x) && Apart(x) && LastPlain(x, b, i) && d in x.blocks
    ensures NodesOk(AddEdge(x, b, i, e, d))
  {
    var y := AddEdge(x, b, i, e, d);
    assert y.blocks.Keys == x.blocks.Keys;
    hide NodeOk, Apart, AddEdge, LastPlain;
    forall c | c in y.blocks ensures NodeOk(y, y.blocks[c]) { AddEdgeNode(x, b, i, e, d, c); }
  }

  // ---- an edge is led elsewhere ----

  function MoveDst(x: Ir, e: EdgeId, d: BlockId): Ir
    requires e in x.edges && x.edges[e].dst in x.blocks && d in x.blocks
  {
    var o := x.edges[e].dst;
    var blocks := x.blocks[o := x.blocks[o].(incoming := Without(x.blocks[o].incoming, e))];
    Ir(blocks[d := blocks[d].(incoming := blocks[d].incoming + [e])], x.code, x.edges[e := x.edges[e].(dst := d)])
  }

  lemma MoveDstBlock(x: Ir, e: EdgeId, d: BlockId, c: BlockId)
    requires e in x.edges && EdgeOk(x, e) && d in x.blocks && d != x.edges[e].dst && c in x.blocks
    ensures var y := MoveDst(x, e, d);
            && c in y.blocks && SameNode(x.blocks[c], y.blocks[c]) && y.blocks[c].outgoing == x.blocks[c].outgoing
            && y.blocks[c].incoming == (if c == d then x.blocks[c].incoming + [e]
                                        else if c == x.edges[e].dst then Without(x.blocks[c].incoming, e) else x.blocks[c].incoming)
  {
  }

  lemma MoveDstIncoming(x: Ir, e: EdgeId, d: BlockId, c: BlockId)
    requires e in x.edges && EdgeOk(x, e) && d in x.blocks && d != x.edges[e].dst && c in x.blocks && IncomingOk(x, c)
    ensures var y := MoveDst(x, e, d); c in y.blocks && IncomingOk(y, c)
  {
    MoveDstBlock(x, e, d, c);
    WithoutMembers(x.blocks[c].incoming, e);
    if c == d {
      NoDupAppend(x.blocks[c].incoming, [e]);
    }
    assert MoveDst(x, e, d).edges == x.edges[e := x.edges[e].(dst := d)];
    hide MoveDst, Without;
  }

  lemma MoveDstEdge(x: Ir, e: EdgeId, d: BlockId, f: EdgeId)
    requires e in x.edges && EdgeOk(x, e) && d in x.blocks && d != x.edges[e].dst && f in x.edges && EdgeOk(x, f)
    ensures var y := MoveDst(x, e, d); f in y.edges && EdgeOk(y, f)
  {
    MoveDstBlock(x, e, d, x.edges[f].src);
    MoveDstBlock(x, e, d, x.edges[f].dst);
    MoveDstBlock(x, e, d, d);
    WithoutMembers(x.blocks[x.edges[f].dst].incoming, e);
    assert MoveDst(x, e, d).edges == x.edges[e := x.edges[e].(dst := d)] && MoveDst(x, e, d).code == x.code;
    hide MoveDst, Without;
  }

  lemma MoveDstNode(x: Ir, e: EdgeId, d: BlockId, c: BlockId)
    requires e in x.edges && EdgeOk(x, e) && d in x.blocks && d != x.edges[e].dst && c in x.blocks && NodeOk(x, x.blocks[c])
    ensures var y := MoveDst(x, e, d); c in y.blocks && NodeOk(y, y.blocks[c]) && SameNode(x.blocks[c], y.blocks[c])
  {
    MoveDstBlock(x, e, d, c);
    assert MoveDst(x, e, d).code == x.code;
    hide MoveDst, NoDup;
  }

  lemma EndThere(x: Ir, e: EdgeId)
    requires e in x.edges && EdgeOk(x, e)
    ensures x.edges[e].dst in x.blocks
  {
  }

  lemma MoveDstKeys(x: Ir, e: EdgeId, d: BlockId)
    requires e in x.edges && x.edges[e].dst in x.blocks && d in x.blocks
    ensures var y := MoveDst(x, e, d); y.blocks.Keys == x.blocks.Keys && y.edges.Keys == x.edges.Keys && y.code == x.code
  {
  }

  lemma MoveDstLists(x: Ir, e: EdgeId, d: BlockId)
    requires NodesOk(x) && IncomingsOk(x) && EdgesOk(x) && e in x.edges && EdgeOk(x, e) && d in x.blocks && d != x.edges[e].dst
    ensures var y := MoveDst(x, e, d); NodesOk(y) && IncomingsOk(y) && EdgesOk(y) && SameShape(x, y)
  {
    hide MoveDst, NodeOk, SameNode, IncomingOk, EdgeOk;
    EndThere(x, e);
    var y := MoveDst(x, e, d);
    MoveDstKeys(x, e, d);
    forall c | c in y.blocks ensures NodeOk(y, y.blocks[c]) && SameNode(x.blocks[c], y.blocks[c]) { MoveDstNode(x, e, d, c); }
    forall c | c in y.blocks ensures IncomingOk(y, c) { MoveDstIncoming(x, e, d, c); }
    forall f | f in y.edges ensures EdgeOk(y, f) { MoveDstEdge(x, e, d, f); }
  }

  lemma MoveDstConsistent(x: Ir, e: EdgeId, d: BlockId)
    requires Consistent(x) && e in x.edges && d in x.blocks && d != x.edges[e].dst
    ensures EdgeOk(x, e) && Consistent(MoveDst(x, e, d)) && SameShape(x, MoveDst(x, e, d))
  {
    var y := MoveDst(x, e, d);
    assert EdgeOk(x, e);
    hide MoveDst, NodesOk, IncomingsOk, EdgeOk, EdgesOk, CodesOk, Apart, Linked, SameShape;
    MoveDstLists(x, e, d);
    MoveDstCodes(x, e, d);
    ShapeKeeps(x, y);
  }

  lemma MoveDstCodes(x: Ir, e: EdgeId, d: BlockId)
    requires CodesOk(x) && e in x.edges && EdgeOk(x, e) && d in x.blocks
    ensures CodesOk(MoveDst(x, e, d))
  {
    var y := MoveDst(x, e, d);
    assert y.code == x.code && y.edges == x.edges[e := x.edges[e].(dst := d)];
    hide MoveDst;
    forall i | i in y.code && y.code[i].edge.Some? ensures CodeOk(y, i) { assert CodeOk(x, i); }
  }

  // ---- blocks come and go ----

  function AddBlock(x: Ir, nb: BlockId): Ir {
    x.(blocks := x.blocks[nb := Node([], None, None, [], [])])
  }

  lemma AddBlockLinked(x: Ir, nb: BlockId)
    requires Linked(x) && nb !in x.blocks
    ensures Linked(AddBlock(x, nb))
  {
  }

  lemma AddBlockLists(x: Ir, nb: BlockId)
    requires NodesOk(x) && IncomingsOk(x) && nb !in x.blocks
    ensures NodesOk(AddBlock(x, nb)) && IncomingsOk(AddBlock(x, nb))
  {
    var y := AddBlock(x, nb);
    hide NoDup, EdgesOf;
    assert EdgesOf(y.code, []) == [] by { EdgesOfNone(y.code); }
    assert NodeOk(y, Node([], None, None, [], [])) by { NoDupNone(); }
    forall c | c in y.blocks ensures NodeOk(y, y.blocks[c]) && IncomingOk(y, c) {
      if c != nb { assert NodeOk(x, x.blocks[c]) && IncomingOk(x, c); } else { NoDupNone(); }
    }
  }

  lemma EdgesOfNone(code: map<NodeId, Code>)
    ensures EdgesOf(code, []) == []
  {
  }

  lemma NoDupNone()
    ensures NoDup([])
  {
  }

  lemma AddBlockEdges(x: Ir, nb: BlockId)
    requires EdgesOk(x) && CodesOk(x) && nb !in x.blocks
    ensures EdgesOk(AddBlock(x, nb)) && CodesOk(AddBlock(x, nb))
  {
    var y := AddBlock(x, nb);
    assert EdgesOk(y) by {
      forall e | e in y.edges ensures EdgeOk(y, e) { assert EdgeOk(x, e); }
    }
    hide EdgesOk, EdgeOk;
    assert CodesOk(y) by {
      forall i | i in y.code && y.code[i].edge.Some? ensures CodeOk(y, i) { assert CodeOk(x, i); }
    }
  }

  lemma AddBlockConsistent(x: Ir, nb: BlockId)
    requires Consistent(x) && nb !in x.blocks
    ensures Consistent(AddBlock(x, nb))
  {
    hide AddBlock, NodesOk, IncomingsOk, Apart, EdgesOk, CodesOk, Linked;
    AddBlockLists(x, nb);
    AddBlockApart(x, nb);
    AddBlockEdges(x, nb);
    AddBlockLinked(x, nb);
  }

  lemma AddBlockApart(x: Ir, nb: BlockId)
    requires Apart(x) && nb !in x.blocks
    ensures Apart(AddBlock(x, nb))
  {
    var y := AddBlock(x, nb);
    forall c, d | c in y.blocks && d in y.blocks && c != d ensures NoneShared(y.blocks[c].instrs, y.blocks[d].instrs) {
      assert c != nb && d != nb ==> NoneShared(x.blocks[c].instrs, x.blocks[d].instrs);
    }
  }

  /** A block without instructions and edges goes; its neighbours in the chain meet. */
  function DropBlock(x: Ir, b: BlockId): Ir
    requires b in x.blocks
  {
    var n := x.blocks[b];
    x.(blocks := map c | c in x.blocks && c != b ::
      x.blocks[c].(next := if n.prev == Some(c) then n.next else x.blocks[c].next,
                   prev := if n.next == Some(c) then n.prev else x.blocks[c].prev))
  }

  ghost predicate Bald(n: Node) { n.instrs == [] && n.incoming == [] && n.outgoing == [] }

  lemma DropBlockLists(x: Ir, y: Ir)
    requires NodesOk(x) && IncomingsOk(x) && y.code == x.code && y.edges == x.edges
    requires y.blocks.Keys <= x.blocks.Keys && forall c | c in y.blocks :: SameList(x.blocks[c], y.blocks[c])
    ensures NodesOk(y) && IncomingsOk(y)
  {
    hide NoDup;
    forall c | c in y.blocks ensures NodeOk(y, y.blocks[c]) && IncomingOk(y, c) {
      assert NodeOk(x, x.blocks[c]) && IncomingOk(x, c) && SameList(x.blocks[c], y.blocks[c]);
    }
  }

  lemma DropBlockEdges(x: Ir, y: Ir, b: BlockId)
    requires EdgesOk(x) && CodesOk(x) && y.code == x.code && y.edges == x.edges && b in x.blocks && Bald(x.blocks[b])
    requires y.blocks.Keys == x.blocks.Keys - {b} && forall c | c in y.blocks :: SameList(x.blocks[c], y.blocks[c])
    ensures EdgesOk(y) && CodesOk(y)
  {
    assert EdgesOk(y) by {
      forall e | e in y.edges ensures EdgeOk(y, e) {
        assert EdgeOk(x, e);
        assert SameList(x.blocks[x.edges[e].src], y.blocks[x.edges[e].src]) && SameList(x.blocks[x.edges[e].dst], y.blocks[x.edges[e].dst]);
      }
    }
    hide EdgesOk, EdgeOk;
    assert CodesOk(y) by {
      forall i | i in y.code && y.code[i].edge.Some? ensures CodeOk(y, i) { assert CodeOk(x, i); }
    }
  }

  lemma DropBlockConsistent(x: Ir, b: BlockId)
    requires Consistent(x) && b in x.blocks && Bald(x.blocks[b])
    ensures Consistent(DropBlock(x, b))
  {
    hide DropBlock, NodesOk, IncomingsOk, EdgesOk, CodesOk, Apart, Linked, Bald, SameList;
    var y := DropBlock(x, b);
    DropBlockLinked(x, b);
    DropBlockSame(x, b);
    DropBlockApart(x, y);
    DropBlockLists(x, y);
    DropBlockEdges(x, y, b);
  }

  lemma DropBlockSame(x: Ir, b: BlockId)
    requires b in x.blocks
    ensures var y := DropBlock(x, b);
            && y.blocks.Keys == x.blocks.Keys - {b} && y.code == x.code && y.edges == x.edges
            && forall c | c in y.blocks :: SameList(x.blocks[c], y.blocks[c])
  {
  }

  lemma DropBlockLinked(x: Ir, b: BlockId)
    requires Linked(x) && b in x.blocks
    ensures Linked(DropBlock(x, b))
  {
  }

  lemma DropBlockApart(x: Ir, y: Ir)
    requires Apart(x) && y.blocks.Keys <= x.blocks.Keys && forall c | c in y.blocks :: SameList(x.blocks[c], y.blocks[c])
    ensures Apart(y)
  {
    forall c, d | c in y.blocks && d in y.blocks && c != d ensures NoneShared(y.blocks[c].instrs, y.blocks[d].instrs) {
      assert SameList(x.blocks[c], y.blocks[c]) && SameList(x.blocks[d], y.blocks[d]);
      assert NoneShared(x.blocks[c].instrs, x.blocks[d].instrs);
    }
  }
}

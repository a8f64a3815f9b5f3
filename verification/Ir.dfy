/** Blocks, instructions and branch edges that point at each other, and when they are consistent. */
module Ir {
  import opened Machine
  import opened Links

  type EdgeId = nat
  type NodeId = nat      // identity of an instruction object; copies have identities of their own

  datatype Edge = Edge(src: BlockId, dst: BlockId, instr: NodeId)

  datatype Node = Node(
    instrs: seq<NodeId>,
    next: Option<BlockId>,
    prev: Option<BlockId>,
    incoming: seq<EdgeId>,
    outgoing: seq<EdgeId>)

  datatype Code = Code(op: Instr, edge: Option<EdgeId>)

  datatype Ir = Ir(blocks: map<BlockId, Node>, code: map<NodeId, Code>, edges: map<EdgeId, Edge>)

  // ---- lists ----

  ghost predicate NoDup(s: seq<nat>) {
    forall j, k | 0 <= j < k < |s| :: s[j] != s[k]
  }

  function Without(s: seq<nat>, x: nat): (r: seq<nat>)
    ensures |r| <= |s|
  {
    if s == [] then [] else Without(s[..|s| - 1], x) + (if s[|s| - 1] == x then [] else [s[|s| - 1]])
  }

  lemma NoDupAppend(s: seq<nat>, t: seq<nat>)
    requires NoDup(s) && NoDup(t) && forall x | x in s :: x !in t
    ensures NoDup(s + t)
  {
    forall j, k | 0 <= j < k < |s + t| ensures (s + t)[j] != (s + t)[k] {
      if j < |s| <= k {
        assert (s + t)[j] in s;
      }
    }
  }

  lemma {:induction false} WithoutMembers(s: seq<nat>, x: nat)
    ensures forall y :: y in Without(s, x) <==> y in s && y != x
    ensures NoDup(s) ==> NoDup(Without(s, x))
    ensures x !in s ==> Without(s, x) == s
  {
    if s != [] {
      var p, l := s[..|s| - 1], s[|s| - 1];
      WithoutMembers(p, x);
      assert s == p + [l];
      if NoDup(s) {
        assert NoDup(p) && l !in p;
        NoDupAppend(Without(p, x), if l == x then [] else [l]);
      }
    }
  }

  lemma {:induction false} WithoutAppend(s: seq<nat>, t: seq<nat>, x: nat)
    ensures Without(s + t, x) == Without(s, x) + Without(t, x)
  {
    if t == [] {
      assert s + t == s;
    } else {
      assert (s + t)[..|s + t| - 1] == s + t[..|t| - 1];
      WithoutAppend(s, t[..|t| - 1], x);
    }
  }

  lemma WithoutFront(x: nat, t: seq<nat>)
    ensures Without([x] + t, x) == Without(t, x)
  {
    WithoutAppend([x], t, x);
    assert Without([x], x) == [] by { assert [x][..0] == [] && Without([], x) == []; }
  }

  lemma WithoutAt(s: seq<nat>, x: nat, k: nat)
    requires NoDup(s) && k < |s| && s[k] == x
    ensures Without(s, x) == s[..k] + s[k + 1..]
  {
    var p, q := s[..k], s[k + 1..];
    assert s == p + ([x] + q);
    assert x !in p && x !in q;
    hide NoDup, Without;
    WithoutAppend(p, [x] + q, x);
    WithoutFront(x, q);
    WithoutMembers(p, x);
    WithoutMembers(q, x);
  }

  // ---- consistency ----

  /** The edges of the instructions of a list, in its order. */
  function EdgesOf(code: map<NodeId, Code>, instrs: seq<NodeId>): seq<EdgeId> {
    if instrs == [] then []
    else
      var i := instrs[|instrs| - 1];
      EdgesOf(code, instrs[..|instrs| - 1]) + (if i in code && code[i].edge.Some? then [code[i].edge.value] else [])
  }

  ghost predicate Consistent(x: Ir) {
    NodesOk(x) && IncomingsOk(x) && Apart(x) && EdgesOk(x) && CodesOk(x) && Linked(x)
  }

  ghost predicate NodesOk(x: Ir) { forall b | b in x.blocks :: NodeOk(x, x.blocks[b]) }
  ghost predicate IncomingsOk(x: Ir) { forall b | b in x.blocks :: IncomingOk(x, b) }
  ghost predicate EdgesOk(x: Ir) { forall e | e in x.edges :: EdgeOk(x, e) }
  ghost predicate CodesOk(x: Ir) { forall i | i in x.code && x.code[i].edge.Some? :: CodeOk(x, i) }

  /** No instruction is in two blocks. */
  ghost predicate Apart(x: Ir) {
    forall b, c | b in x.blocks && c in x.blocks && b != c :: NoneShared(x.blocks[b].instrs, x.blocks[c].instrs)
  }

  ghost predicate NoneShared(s: seq<NodeId>, t: seq<NodeId>) {
    forall i | i in s :: i !in t
  }

  /** All instructions exist, each once; the outgoing edges are theirs, in order. */
  ghost predicate NodeOk(x: Ir, n: Node) {
    && (forall i | i in n.instrs :: i in x.code && Bare(x.code[i].op))
    && NoDup(n.instrs)
    && n.outgoing == EdgesOf(x.code, n.instrs)
  }

  /** Where a branch goes is the edge's business. */
  predicate Bare(i: Instr) { i.kind.Branch? ==> i.kind.edge.None? }

  /** The incoming edges lead here, each once. */
  ghost predicate IncomingOk(x: Ir, b: BlockId)
    requires b in x.blocks
  {
    && NoDup(x.blocks[b].incoming)
    && forall e | e in x.blocks[b].incoming :: e in x.edges && x.edges[e].dst == b
  }

  /** A live edge is in the incoming list of its destination, its instruction is in the source block
      and points back to it. */
  ghost predicate EdgeOk(x: Ir, e: EdgeId)
    requires e in x.edges
  {
    var d := x.edges[e];
    && d.src in x.blocks && d.dst in x.blocks && e in x.blocks[d.dst].incoming
    && d.instr in x.blocks[d.src].instrs && d.instr in x.code && x.code[d.instr].edge == Some(e)
  }

  ghost predicate CodeOk(x: Ir, i: NodeId)
    requires i in x.code && x.code[i].edge.Some?
  {
    x.code[i].op.kind.Branch? && x.code[i].edge.value in x.edges && x.edges[x.code[i].edge.value].instr == i
  }

  /** prev and next are mutual inverses. */
  ghost predicate Linked(x: Ir) {
    && (forall b | b in x.blocks && x.blocks[b].next.Some? ::
          x.blocks[b].next.value in x.blocks && x.blocks[x.blocks[b].next.value].prev == Some(b))
    && (forall b | b in x.blocks && x.blocks[b].prev.Some? ::
          x.blocks[b].prev.value in x.blocks && x.blocks[x.blocks[b].prev.value].next == Some(b))
  }

  lemma {:induction false} EdgesOfAppend(code: map<NodeId, Code>, s: seq<NodeId>, t: seq<NodeId>)
    ensures EdgesOf(code, s + t) == EdgesOf(code, s) + EdgesOf(code, t)
  {
    if t == [] {
      assert s + t == s;
    } else {
      assert (s + t)[..|s + t| - 1] == s + t[..|t| - 1];
      EdgesOfAppend(code, s, t[..|t| - 1]);
    }
  }

  lemma EdgesOfOne(code: map<NodeId, Code>, i: NodeId)
    ensures EdgesOf(code, [i]) == if i in code && code[i].edge.Some? then [code[i].edge.value] else []
  {
    assert [i][..0] == [];
    assert EdgesOf(code, []) == [];
  }

  lemma {:induction false} EdgesOfMember(code: map<NodeId, Code>, s: seq<NodeId>, e: EdgeId)
    ensures e in EdgesOf(code, s) <==> exists i :: i in s && i in code && code[i].edge == Some(e)
  {
    if s != [] {
      var p, l := s[..|s| - 1], s[|s| - 1];
      assert s == p + [l];
      EdgesOfMember(code, p, e);
    }
  }

  lemma {:induction false} EdgesOfSame(code: map<NodeId, Code>, code': map<NodeId, Code>, s: seq<NodeId>)
    requires forall i | i in s :: (i in code <==> i in code') && (i in code ==> code'[i].edge == code[i].edge)
    ensures EdgesOf(code', s) == EdgesOf(code, s)
  {
    if s != [] {
      EdgesOfSame(code, code', s[..|s| - 1]);
    }
  }

  /** Only one instruction has an edge, so the list of edges has it once. */
  lemma {:induction false} EdgesOfNoDup(x: Ir, s: seq<NodeId>)
    requires NoDup(s) && forall i | i in s && i in x.code && x.code[i].edge.Some? :: CodeOk(x, i)
    ensures NoDup(EdgesOf(x.code, s))
  {
    if s != [] {
      var p, l := s[..|s| - 1], s[|s| - 1];
      assert s == p + [l];
      EdgesOfNoDup(x, p);
      if l in x.code && x.code[l].edge.Some? {
        EdgesOfMember(x.code, p, x.code[l].edge.value);
      }
    }
  }

  /** The list of edges once instruction i has lost its edge e. */
  lemma {:induction false} EdgesOfDropped(x: Ir, s: seq<NodeId>, i: NodeId)
    requires i in x.code && x.code[i].edge.Some? && CodeOk(x, i)
    requires forall j | j in s && j in x.code && x.code[j].edge.Some? :: CodeOk(x, j)
    ensures EdgesOf(x.code[i := x.code[i].(edge := None)], s) == Without(EdgesOf(x.code, s), x.code[i].edge.value)
  {
    if s != [] {
      var p, l, e := s[..|s| - 1], s[|s| - 1], x.code[i].edge.value;
      assert s == p + [l];
      EdgesOfDropped(x, p, i);
      var last := if l in x.code && x.code[l].edge.Some? then [x.code[l].edge.value] else [];
      WithoutAppend(EdgesOf(x.code, p), last, e);
      if l in x.code && x.code[l].edge.Some? {
        assert CodeOk(x, l);
        assert last[..0] == [];
        assert Without(last, e) == if last[0] == e then [] else last;
      }
    }
  }

  // ---- the graph it stands for ----

  function OpOf(x: Ir, i: NodeId): Instr
    requires i in x.code
  {
    var c := x.code[i];
    if c.edge.Some? && c.edge.value in x.edges then c.op.(kind := Branch(Some(x.edges[c.edge.value].dst))) else c.op
  }

  function OpsOf(x: Ir, instrs: seq<NodeId>): (r: seq<Instr>)
    requires forall i | i in instrs :: i in x.code
    ensures |r| == |instrs|
  {
    seq(|instrs|, k requires 0 <= k < |instrs| => OpOf(x, instrs[k]))
  }

  /** The control flow graph the objects make up, edge lists left aside. */
  function GraphOf(x: Ir): Cfg
    requires NodesOk(x)
  {
    Cfg(map b | b in x.blocks :: BlockOf(x, x.blocks[b]))
  }

  function BlockOf(x: Ir, n: Node): Block
    requires NodeOk(x, n)
  {
    Block(OpsOf(x, n.instrs), n.next, n.prev, [])
  }

  /** An edge leads where the graph says it leads. */
  lemma ConsistentGraph(x: Ir)
    requires Consistent(x)
    ensures Chained(GraphOf(x)) && GraphOf(x).blocks.Keys == x.blocks.Keys
    ensures forall b, k | b in x.blocks && 0 <= k < |x.blocks[b].instrs| ::
              var i := GraphOf(x).blocks[b].instrs[k];
              x.code[x.blocks[b].instrs[k]].edge.Some? ==> i.kind.Branch? && i.kind.edge.Some? && i.kind.edge.value in x.blocks
  {
    var g := GraphOf(x);
    forall b, k | b in x.blocks && 0 <= k < |x.blocks[b].instrs| && x.code[x.blocks[b].instrs[k]].edge.Some?
      ensures var i := g.blocks[b].instrs[k]; i.kind.Branch? && i.kind.edge.Some? && i.kind.edge.value in x.blocks
    {
      var i := x.blocks[b].instrs[k];
      assert CodeOk(x, i) && EdgeOk(x, x.code[i].edge.value);
    }
  }

  // ---- dropping an edge, dropping an instruction ----

  /** BranchEdge::invalidate. */
  function DropEdge(x: Ir, e: EdgeId): Ir
    requires e in x.edges && x.edges[e].src in x.blocks && x.edges[e].dst in x.blocks && x.edges[e].instr in x.code
  {
    var d := x.edges[e];
    var blocks := x.blocks[d.src := x.blocks[d.src].(outgoing := Without(x.blocks[d.src].outgoing, e))];
    Ir(blocks[d.dst := blocks[d.dst].(incoming := Without(blocks[d.dst].incoming, e))],
       x.code[d.instr := x.code[d.instr].(edge := None)],
       x.edges - {e})
  }

  /** What of a block an edge being dropped changes. */
  lemma DropEdgeBlock(x: Ir, e: EdgeId, b: BlockId)
    requires e in x.edges && x.edges[e].src in x.blocks && x.edges[e].dst in x.blocks && x.edges[e].instr in x.code
    requires b in x.blocks
    ensures var y, d := DropEdge(x, e), x.edges[e];
            && b in y.blocks
            && y.blocks[b].instrs == x.blocks[b].instrs && y.blocks[b].next == x.blocks[b].next && y.blocks[b].prev == x.blocks[b].prev
            && y.blocks[b].outgoing == (if b == d.src then Without(x.blocks[b].outgoing, e) else x.blocks[b].outgoing)
            && y.blocks[b].incoming == (if b == d.dst then Without(x.blocks[b].incoming, e) else x.blocks[b].incoming)
  {
  }

  lemma DropEdgeNode(x: Ir, e: EdgeId, b: BlockId)
    requires NodesOk(x) && CodesOk(x) && Apart(x) && e in x.edges && b in x.blocks && EdgeOk(x, e)
    ensures var y := DropEdge(x, e); b in y.blocks && NodeOk(y, y.blocks[b])
  {
    var y, d, n := DropEdge(x, e), x.edges[e], x.blocks[b];
    assert NodeOk(x, n);
    assert CodeOk(x, d.instr);
    assert b != d.src ==> NoneShared(x.blocks[d.src].instrs, n.instrs);
    DropEdgeBlock(x, e, b);
    EdgesOfDropped(x, n.instrs, d.instr);
    assert y.code == x.code[d.instr := x.code[d.instr].(edge := None)];
    hide NodesOk, CodesOk, Apart, DropEdge, NoDup;
    if b != d.src {
      assert d.instr !in n.instrs;
      EdgesOfSame(x.code, y.code, n.instrs);
    }
  }

  lemma DropEdgeIncoming(x: Ir, e: EdgeId, b: BlockId)
    requires b in x.blocks && IncomingOk(x, b) && e in x.edges && EdgeOk(x, e)
    ensures var y := DropEdge(x, e); b in y.blocks && IncomingOk(y, b)
  {
    DropEdgeBlock(x, e, b);
    WithoutMembers(x.blocks[b].incoming, e);
    assert DropEdge(x, e).edges == x.edges - {e};
    hide DropEdge, NoDup, Without;
  }

  lemma DropEdgeEdge(x: Ir, e: EdgeId, f: EdgeId)
    requires e in x.edges && EdgeOk(x, e) && f in x.edges && f != e && EdgeOk(x, f)
    requires CodesOk(x)
    ensures var y := DropEdge(x, e); f in y.edges && EdgeOk(y, f)
  {
    var d := x.edges[f];
    DropEdgeBlock(x, e, d.src);
    DropEdgeBlock(x, e, d.dst);
    WithoutMembers(x.blocks[d.dst].incoming, e);
    var y := DropEdge(x, e);
    assert y.edges == x.edges - {e} && y.code == x.code[x.edges[e].instr := x.code[x.edges[e].instr].(edge := None)];
    hide DropEdge, Without, CodesOk;
  }

  /** The same blocks with the same instructions, chained in the same way. */
  ghost predicate SameShape(x: Ir, y: Ir) {
    && y.blocks.Keys == x.blocks.Keys
    && forall b | b in x.blocks :: SameNode(x.blocks[b], y.blocks[b])
  }

  ghost predicate SameNode(m: Node, n: Node) {
    n.instrs == m.instrs && n.next == m.next && n.prev == m.prev
  }

  lemma ShapeKeeps(x: Ir, y: Ir)
    requires SameShape(x, y) && Linked(x) && Apart(x)
    ensures Linked(y) && Apart(y)
  {
    assert forall b | b in x.blocks :: SameNode(x.blocks[b], y.blocks[b]);
    hide SameShape;
    forall b, c | b in y.blocks && c in y.blocks && b != c ensures NoneShared(y.blocks[b].instrs, y.blocks[c].instrs) {
      assert SameNode(x.blocks[b], y.blocks[b]) && SameNode(x.blocks[c], y.blocks[c]);
      assert NoneShared(x.blocks[b].instrs, x.blocks[c].instrs);
    }
  }

  lemma DropEdgeShape(x: Ir, e: EdgeId)
    requires e in x.edges && EdgeOk(x, e)
    ensures SameShape(x, DropEdge(x, e)) && DropEdge(x, e).edges == x.edges - {e}
  {
    forall b | b in x.blocks ensures b in DropEdge(x, e).blocks && SameNode(x.blocks[b], DropEdge(x, e).blocks[b]) {
      DropEdgeBlock(x, e, b);
    }
  }

  lemma DropEdgeCodes(x: Ir, e: EdgeId)
    requires CodesOk(x) && e in x.edges && EdgeOk(x, e)
    ensures CodesOk(DropEdge(x, e))
  {
    var y := DropEdge(x, e);
    assert y.edges == x.edges - {e} && y.code == x.code[x.edges[e].instr := x.code[x.edges[e].instr].(edge := None)];
    hide DropEdge;
    forall i | i in y.code && y.code[i].edge.Some? ensures CodeOk(y, i) {
      assert CodeOk(x, i);
    }
  }

  lemma DropEdgeLists(x: Ir, e: EdgeId)
    requires NodesOk(x) && IncomingsOk(x) && CodesOk(x) && Apart(x) && EdgesOk(x) && e in x.edges && EdgeOk(x, e)
    ensures NodesOk(DropEdge(x, e)) && IncomingsOk(DropEdge(x, e)) && EdgesOk(DropEdge(x, e))
  {
    var y := DropEdge(x, e);
    DropEdgeShape(x, e);
    assert y.blocks.Keys == x.blocks.Keys;
    hide DropEdge, NodeOk, IncomingOk, EdgeOk, CodesOk, Apart, SameShape;
    forall b | b in y.blocks ensures NodeOk(y, y.blocks[b]) && IncomingOk(y, b) {
      DropEdgeNode(x, e, b);
      DropEdgeIncoming(x, e, b);
    }
    forall f | f in y.edges ensures EdgeOk(y, f) {
      DropEdgeEdge(x, e, f);
    }
  }

  /** Invalidating an edge keeps the rest consistent. */
  lemma DropEdgeConsistent(x: Ir, e: EdgeId)
    requires Consistent(x) && e in x.edges
    ensures EdgeOk(x, e) && Consistent(DropEdge(x, e)) && SameShape(x, DropEdge(x, e))
  {
    assert EdgeOk(x, e);
    hide DropEdge, NodesOk, IncomingsOk, EdgeOk, EdgesOk, CodesOk, Apart, Linked, SameShape;
    DropEdgeShape(x, e);
    DropEdgeCodes(x, e);
    DropEdgeLists(x, e);
    ShapeKeeps(x, DropEdge(x, e));
  }
}

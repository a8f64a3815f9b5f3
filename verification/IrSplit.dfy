/** Splitting a block and merging it into the next keeps the blocks consistent. */
module IrSplit {
  import opened Machine
  import opened Links
  import opened Ir

  // ---- split ----

  /** The edges of the instructions in tail start at nb. */
  function MoveSrc(edges: map<EdgeId, Edge>, tail: seq<NodeId>, nb: BlockId): (r: map<EdgeId, Edge>)
    ensures r.Keys == edges.Keys
  {
    map e | e in edges :: if edges[e].instr in tail then edges[e].(src := nb) else edges[e]
  }

  function PrevOf(blocks: map<BlockId, Node>, n: Option<BlockId>, p: Option<BlockId>): (r: map<BlockId, Node>)
    ensures r.Keys == blocks.Keys
  {
    if n.Some? && n.value in blocks then blocks[n.value := blocks[n.value].(prev := p)] else blocks
  }

  /** Instructions from k on move to a new block, with their edges. */
  function Split(x: Ir, b: BlockId, k: nat, nb: BlockId): Ir
    requires b in x.blocks && k <= |x.blocks[b].instrs|
  {
    var n := x.blocks[b];
    var blocks := PrevOf(x.blocks, n.next, Some(nb));
    Ir(blocks[b := blocks[b].(instrs := n.instrs[..k], next := Some(nb), outgoing := EdgesOf(x.code, n.instrs[..k]))]
             [nb := Node(n.instrs[k..], n.next, Some(b), [], EdgesOf(x.code, n.instrs[k..]))],
       x.code,
       MoveSrc(x.edges, n.instrs[k..], nb))
  }

  /** What the new blocks look like. */
  lemma SplitBlock(x: Ir, b: BlockId, k: nat, nb: BlockId, c: BlockId)
    requires b in x.blocks && k <= |x.blocks[b].instrs| && nb !in x.blocks && (c in x.blocks || c == nb)
    ensures var y, n := Split(x, b, k, nb), x.blocks[b];
            && c in y.blocks
            && y.blocks[c].instrs == (if c == b then n.instrs[..k] else if c == nb then n.instrs[k..] else x.blocks[c].instrs)
            && y.blocks[c].incoming == (if c == nb then [] else x.blocks[c].incoming)
            && y.blocks[c].outgoing == (if c == b then EdgesOf(x.code, n.instrs[..k])
                                        else if c == nb then EdgesOf(x.code, n.instrs[k..]) else x.blocks[c].outgoing)
            && y.blocks.Keys == x.blocks.Keys + {nb} && y.code == x.code && y.edges == MoveSrc(x.edges, n.instrs[k..], nb)
  {
  }

  lemma NoDupPart(s: seq<nat>, k: nat)
    requires NoDup(s) && k <= |s|
    ensures NoDup(s[..k]) && NoDup(s[k..]) && forall i | i in s[..k] :: i !in s[k..]
  {
  }

  lemma SplitNode(x: Ir, b: BlockId, k: nat, nb: BlockId, c: BlockId)
    requires NodesOk(x) && b in x.blocks && k <= |x.blocks[b].instrs| && nb !in x.blocks && (c in x.blocks || c == nb)
    ensures var y := Split(x, b, k, nb); c in y.blocks && NodeOk(y, y.blocks[c])
  {
    SplitBlock(x, b, k, nb, c);
    var o := if c == nb then b else c;
    assert NodeOk(x, x.blocks[o]);
    hide NodesOk, Split;
    if o == b {
      NoDupPart(x.blocks[b].instrs, k);
    }
  }

  lemma SplitIncoming(x: Ir, b: BlockId, k: nat, nb: BlockId, c: BlockId)
    requires IncomingsOk(x) && b in x.blocks && k <= |x.blocks[b].instrs| && nb !in x.blocks && (c in x.blocks || c == nb)
    ensures var y := Split(x, b, k, nb); c in y.blocks && IncomingOk(y, c)
  {
    SplitBlock(x, b, k, nb, c);
    assert c in x.blocks ==> IncomingOk(x, c);
    hide Split;
  }

  lemma SplitEdge(x: Ir, b: BlockId, k: nat, nb: BlockId, e: EdgeId)
    requires b in x.blocks && k <= |x.blocks[b].instrs| && nb !in x.blocks && e in x.edges && EdgeOk(x, e)
    requires Apart(x)
    ensures var y := Split(x, b, k, nb); e in y.edges && EdgeOk(y, e)
  {
    hide Split, EdgesOf, NoDup;
    var d, instrs := x.edges[e], x.blocks[b].instrs;
    SplitBlock(x, b, k, nb, d.src);
    SplitBlock(x, b, k, nb, d.dst);
    SplitBlock(x, b, k, nb, nb);
    assert instrs == instrs[..k] + instrs[k..];
    assert d.src != b ==> NoneShared(x.blocks[d.src].instrs, instrs);
    hide Apart;
  }

  lemma SplitPair(x: Ir, b: BlockId, k: nat, nb: BlockId, c: BlockId, d: BlockId)
    requires Apart(x) && b in x.blocks && k <= |x.blocks[b].instrs| && nb !in x.blocks && c != d && NoDup(x.blocks[b].instrs)
    requires (c in x.blocks || c == nb) && (d in x.blocks || d == nb)
    ensures c in Split(x, b, k, nb).blocks && d in Split(x, b, k, nb).blocks
    ensures NoneShared(Split(x, b, k, nb).blocks[c].instrs, Split(x, b, k, nb).blocks[d].instrs)
  {
    hide Split, EdgesOf;
    var instrs := x.blocks[b].instrs;
    SplitBlock(x, b, k, nb, c);
    SplitBlock(x, b, k, nb, d);
    NoDupPart(instrs, k);
    assert instrs == instrs[..k] + instrs[k..];
    var c', d' := if c == nb then b else c, if d == nb then b else d;
    assert c' != d' ==> NoneShared(x.blocks[c'].instrs, x.blocks[d'].instrs);
  }

  lemma SplitApart(x: Ir, b: BlockId, k: nat, nb: BlockId)
    requires Apart(x) && NodesOk(x) && b in x.blocks && k <= |x.blocks[b].instrs| && nb !in x.blocks
    ensures Apart(Split(x, b, k, nb))
  {
    assert NodeOk(x, x.blocks[b]);
    hide Split, NodesOk, NodeOk, NoDup, EdgesOf, MoveSrc;
    var y := Split(x, b, k, nb);
    SplitBlock(x, b, k, nb, nb);
    forall c, d | c in y.blocks && d in y.blocks && c != d ensures NoneShared(y.blocks[c].instrs, y.blocks[d].instrs) {
      SplitPair(x, b, k, nb, c, d);
    }
  }

  ghost predicate SplitLinksAt(x: Ir, y: Ir, b: BlockId, nb: BlockId, c: BlockId)
    requires b in x.blocks && (c in x.blocks || c == nb) && c in y.blocks
  {
    && y.blocks[c].next == (if c == b then Some(nb) else if c == nb then x.blocks[b].next else x.blocks[c].next)
    && y.blocks[c].prev == (if c == nb then Some(b) else if x.blocks[b].next == Some(c) then Some(nb) else x.blocks[c].prev)
  }

  lemma SplitLinks(x: Ir, b: BlockId, k: nat, nb: BlockId, c: BlockId)
    requires b in x.blocks && k <= |x.blocks[b].instrs| && nb !in x.blocks && (c in x.blocks || c == nb)
    ensures var y := Split(x, b, k, nb); y.blocks.Keys == x.blocks.Keys + {nb} && SplitLinksAt(x, y, b, nb, c)
  {
  }

  lemma SplitLinked(x: Ir, b: BlockId, k: nat, nb: BlockId)
    requires Linked(x) && b in x.blocks && k <= |x.blocks[b].instrs| && nb !in x.blocks
    ensures Linked(Split(x, b, k, nb))
  {
    hide Split;
    var y := Split(x, b, k, nb);
    SplitLinks(x, b, k, nb, nb);
    forall c | c in y.blocks ensures SplitLinksAt(x, y, b, nb, c) { SplitLinks(x, b, k, nb, c); }
    forall c | c in y.blocks && y.blocks[c].next.Some?
      ensures y.blocks[c].next.value in y.blocks && y.blocks[y.blocks[c].next.value].prev == Some(c)
    {
      assert SplitLinksAt(x, y, b, nb, c) && SplitLinksAt(x, y, b, nb, y.blocks[c].next.value);
    }
    forall c | c in y.blocks && y.blocks[c].prev.Some?
      ensures y.blocks[c].prev.value in y.blocks && y.blocks[y.blocks[c].prev.value].next == Some(c)
    {
      assert SplitLinksAt(x, y, b, nb, c) && SplitLinksAt(x, y, b, nb, y.blocks[c].prev.value);
    }
  }

  lemma SplitCodes(x: Ir, b: BlockId, k: nat, nb: BlockId)
    requires CodesOk(x) && b in x.blocks && k <= |x.blocks[b].instrs| && nb !in x.blocks
    ensures CodesOk(Split(x, b, k, nb))
  {
    var y := Split(x, b, k, nb);
    assert y.code == x.code && y.edges == MoveSrc(x.edges, x.blocks[b].instrs[k..], nb);
    hide Split;
    forall i | i in y.code && y.code[i].edge.Some? ensures CodeOk(y, i) { assert CodeOk(x, i); }
  }

  lemma SplitConsistent(x: Ir, b: BlockId, k: nat, nb: BlockId)
    requires Consistent(x) && b in x.blocks && k <= |x.blocks[b].instrs| && nb !in x.blocks
    ensures Consistent(Split(x, b, k, nb))
  {
    hide Split, NodeOk, IncomingOk, EdgeOk, Apart, Linked, CodesOk;
    var y := Split(x, b, k, nb);
    SplitBlock(x, b, k, nb, nb);
    SplitApart(x, b, k, nb);
    SplitLinked(x, b, k, nb);
    SplitCodes(x, b, k, nb);
    forall c | c in y.blocks ensures NodeOk(y, y.blocks[c]) && IncomingOk(y, c) {
      SplitNode(x, b, k, nb, c);
      SplitIncoming(x, b, k, nb, c);
    }
    forall e | e in y.edges ensures EdgeOk(y, e) { SplitEdge(x, b, k, nb, e); }
  }

  // ---- merge ----

  function RenameBlock(edges: map<EdgeId, Edge>, from: BlockId, to: BlockId): (r: map<EdgeId, Edge>)
    ensures r.Keys == edges.Keys
  {
    map e | e in edges ::
      Edge(if edges[e].src == from then to else edges[e].src, if edges[e].dst == from then to else edges[e].dst, edges[e].instr)
  }

  function NextOf(blocks: map<BlockId, Node>, p: Option<BlockId>, n: Option<BlockId>): (r: map<BlockId, Node>)
    ensures r.Keys == blocks.Keys
  {
    if p.Some? && p.value in blocks then blocks[p.value := blocks[p.value].(next := n)] else blocks
  }

  /** The block moves to the front of the one it falls through to, with its edges. */
  function Merge(x: Ir, b: BlockId): Ir
    requires b in x.blocks && x.blocks[b].next.Some? && x.blocks[b].next.value in x.blocks
  {
    var m, to := x.blocks[b], x.blocks[b].next.value;
    var blocks := NextOf(x.blocks, m.prev, m.next);
    var n := blocks[to];
    Ir(blocks[to := Node(m.instrs + n.instrs, n.next, m.prev, n.incoming + m.incoming, m.outgoing + n.outgoing)] - {b},
       x.code, RenameBlock(x.edges, b, to))
  }

  /** The next block is another one and no branch leads there. */
  ghost predicate Mergeable(x: Ir, b: BlockId) {
    && b in x.blocks && x.blocks[b].next.Some? && x.blocks[b].next.value in x.blocks
    && x.blocks[b].next.value != b && x.blocks[x.blocks[b].next.value].incoming == []
  }

  lemma MergeBlock(x: Ir, b: BlockId, c: BlockId)
    requires Mergeable(x, b) && c in x.blocks && c != b
    ensures var y, m, n, to := Merge(x, b), x.blocks[b], x.blocks[x.blocks[b].next.value], x.blocks[b].next.value;
            && c in y.blocks && b !in y.blocks && y.blocks.Keys == x.blocks.Keys - {b}
            && y.blocks[c].instrs == (if c == to then m.instrs + n.instrs else x.blocks[c].instrs)
            && y.blocks[c].incoming == (if c == to then m.incoming else x.blocks[c].incoming)
            && y.blocks[c].outgoing == (if c == to then m.outgoing + n.outgoing else x.blocks[c].outgoing)
            && y.code == x.code && y.edges == RenameBlock(x.edges, b, to)
  {
  }

  lemma MergeNode(x: Ir, b: BlockId, c: BlockId)
    requires NodesOk(x) && Apart(x) && Mergeable(x, b) && c in x.blocks && c != b
    ensures var y := Merge(x, b); c in y.blocks && NodeOk(y, y.blocks[c])
  {
    MergeBlock(x, b, c);
    var to := x.blocks[b].next.value;
    assert NodeOk(x, x.blocks[c]) && NodeOk(x, x.blocks[b]);
    if c == to {
      assert NoneShared(x.blocks[b].instrs, x.blocks[to].instrs);
      NoDupAppend(x.blocks[b].instrs, x.blocks[to].instrs);
      EdgesOfAppend(x.code, x.blocks[b].instrs, x.blocks[to].instrs);
    }
    hide Merge, NodesOk, Apart, NoDup;
  }

  lemma MergeIncoming(x: Ir, b: BlockId, c: BlockId)
    requires IncomingsOk(x) && Mergeable(x, b) && c in x.blocks && c != b
    ensures var y := Merge(x, b); c in y.blocks && IncomingOk(y, c)
  {
    MergeBlock(x, b, c);
    assert IncomingOk(x, c) && IncomingOk(x, b);
    hide Merge;
  }

  lemma MergeEdge(x: Ir, b: BlockId, e: EdgeId)
    requires IncomingsOk(x) && Mergeable(x, b) && e in x.edges && EdgeOk(x, e)
    ensures var y := Merge(x, b); e in y.edges && EdgeOk(y, e)
  {
    var d, to := x.edges[e], x.blocks[b].next.value;
    MergeBlock(x, b, to);
    if d.src != b { MergeBlock(x, b, d.src); }
    if d.dst != b { MergeBlock(x, b, d.dst); }
    hide Merge;
  }

  lemma MergeApart(x: Ir, b: BlockId)
    requires Apart(x) && Mergeable(x, b)
    ensures Apart(Merge(x, b))
  {
    var y, to := Merge(x, b), x.blocks[b].next.value;
    MergeBlock(x, b, to);
    hide Merge;
    forall c, d | c in y.blocks && d in y.blocks && c != d ensures NoneShared(y.blocks[c].instrs, y.blocks[d].instrs) {
      MergeBlock(x, b, c);
      MergeBlock(x, b, d);
      assert NoneShared(x.blocks[c].instrs, x.blocks[d].instrs);
      assert NoneShared(x.blocks[b].instrs, x.blocks[d].instrs) && NoneShared(x.blocks[c].instrs, x.blocks[b].instrs);
    }
  }

  ghost predicate MergeLinksAt(x: Ir, y: Ir, b: BlockId, c: BlockId)
    requires b in x.blocks && c in x.blocks && c in y.blocks
  {
    && y.blocks[c].next == (if x.blocks[b].prev == Some(c) then x.blocks[b].next else x.blocks[c].next)
    && y.blocks[c].prev == (if x.blocks[b].next == Some(c) then x.blocks[b].prev else x.blocks[c].prev)
  }

  lemma MergeLinks(x: Ir, b: BlockId, c: BlockId)
    requires Mergeable(x, b) && c in x.blocks && c != b
    ensures var y := Merge(x, b); y.blocks.Keys == x.blocks.Keys - {b} && MergeLinksAt(x, y, b, c)
  {
  }

  lemma MergeLinked(x: Ir, b: BlockId)
    requires Linked(x) && Mergeable(x, b)
    ensures Linked(Merge(x, b))
  {
    hide Merge;
    var y := Merge(x, b);
    MergeLinks(x, b, x.blocks[b].next.value);
    forall c | c in y.blocks ensures MergeLinksAt(x, y, b, c) { MergeLinks(x, b, c); }
    forall c | c in y.blocks && y.blocks[c].next.Some?
      ensures y.blocks[c].next.value in y.blocks && y.blocks[y.blocks[c].next.value].prev == Some(c)
    {
      assert MergeLinksAt(x, y, b, c) && MergeLinksAt(x, y, b, y.blocks[c].next.value);
    }
    forall c | c in y.blocks && y.blocks[c].prev.Some?
      ensures y.blocks[c].prev.value in y.blocks && y.blocks[y.blocks[c].prev.value].next == Some(c)
    {
      assert MergeLinksAt(x, y, b, c) && MergeLinksAt(x, y, b, y.blocks[c].prev.value);
    }
  }

  lemma MergeCodes(x: Ir, b: BlockId)
    requires CodesOk(x) && Mergeable(x, b)
    ensures CodesOk(Merge(x, b))
  {
    var y := Merge(x, b);
    assert y.code == x.code && y.edges == RenameBlock(x.edges, b, x.blocks[b].next.value);
    hide Merge;
    forall i | i in y.code && y.code[i].edge.Some? ensures CodeOk(y, i) { assert CodeOk(x, i); }
  }

  lemma MergeConsistent(x: Ir, b: BlockId)
    requires Consistent(x) && Mergeable(x, b)
    ensures Consistent(Merge(x, b))
  {
    var y := Merge(x, b);
    MergeBlock(x, b, x.blocks[b].next.value);
    MergeApart(x, b);
    MergeLinked(x, b);
    MergeCodes(x, b);
    hide Merge, NodeOk, IncomingOk, EdgeOk, Apart, Linked, CodesOk;
    forall c | c in y.blocks ensures NodeOk(y, y.blocks[c]) && IncomingOk(y, c) {
      MergeNode(x, b, c);
      MergeIncoming(x, b, c);
    }
    forall e | e in y.edges ensures EdgeOk(y, e) { MergeEdge(x, b, e); }
  }
}

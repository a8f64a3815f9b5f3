/** Code in memory and the graph decoded from it, block by block, where a block is split when something
    branches into it. */
module Reconstruction {
  import opened Machine
  import opened Links
  import opened Simulation
  import S = Surgery

  type Addr = nat

  /** What is found at an address: an instruction, its length, whether nothing follows it in its block,
      and where it branches to if that is known; or padding, which is dropped. */
  datatype Decoded = Insn(instr: Instr, len: nat, ends: bool, target: Option<Addr>) | Nop(len: nat) | Bad

  /** Nothing is found from the limit on. */
  datatype Text = Text(decode: Addr -> Decoded, limit: nat)

  ghost predicate Leaves(i: Instr) { !i.kind.Plain? && forall s: State :: i.holds(s) }

  /** An instruction is known by its address. One that ends its block always leaves it. */
  ghost predicate WellDecoded(t: Text, a: Addr) {
    match t.decode(a)
    case Insn(i, len, ends, target) =>
      && a < t.limit && len > 0 && i.id == a && (i.kind.Branch? ==> i.kind.edge.None?)
      && (target.Some? ==> i.kind.Branch? && target.value > 0)
      && (ends ==> Leaves(i))
    case Nop(len) => a < t.limit && len > 0
    case Bad => true
  }

  ghost predicate WellText(t: Text) { forall a: Addr :: WellDecoded(t, a) }

  /** The code from an address to the end of its block, if all of it can be decoded. */
  ghost function Stream(t: Text, a: Addr): Option<seq<Instr>>
    requires WellText(t)
    decreases if a < t.limit then t.limit - a else 0
  {
    assert WellDecoded(t, a);
    match t.decode(a)
    case Bad => None
    case Nop(len) => Stream(t, a + len)
    case Insn(i, len, ends, _) =>
      if ends then Some([i])
      else match Stream(t, a + len)
        case None => None
        case Some(s) => Some([i] + s)
  }

  function TargetOf(t: Text, i: Instr): Option<Addr> {
    match t.decode(i.id)
    case Insn(_, _, _, target) => target
    case _ => None
  }

  function Unlinked(i: Instr): Instr { if i.kind.Branch? then i.(kind := Branch(None)) else i }

  function Bares(s: seq<Instr>): (r: seq<Instr>)
    ensures |r| == |s|
  {
    seq(|s|, k requires 0 <= k < |s| => Unlinked(s[k]))
  }

  lemma BaresSplit(s: seq<Instr>, k: nat)
    requires k <= |s|
    ensures Bares(s[..k]) == Bares(s)[..k] && Bares(s[k..]) == Bares(s)[k..]
  {
  }

  // ---- streams ----

  /** Every instruction of a stream is the one at its address, and addresses grow. */
  lemma {:induction false} StreamIds(t: Text, a: Addr, k: nat)
    requires WellText(t) && Stream(t, a).Some? && k < |Stream(t, a).value|
    ensures var i := Stream(t, a).value[k]; i.id >= a && t.decode(i.id).Insn? && t.decode(i.id).instr == i
    decreases if a < t.limit then t.limit - a else 0
  {
    assert WellDecoded(t, a);
    match t.decode(a)
    case Nop(len) => StreamIds(t, a + len, k);
    case Insn(i, len, ends, _) => if k > 0 { StreamIds(t, a + len, k - 1); }
  }

  lemma {:induction false} StreamNonempty(t: Text, a: Addr)
    requires WellText(t) && Stream(t, a).Some?
    ensures Stream(t, a).value != [] && a < t.limit
    decreases if a < t.limit then t.limit - a else 0
  {
    assert WellDecoded(t, a);
    if t.decode(a).Nop? { StreamNonempty(t, a + t.decode(a).len); }
  }

  /** From any of its instructions on, a stream is the stream of that address. */
  lemma {:induction false} StreamSuffix(t: Text, a: Addr, k: nat)
    requires WellText(t) && Stream(t, a).Some? && k < |Stream(t, a).value|
    ensures Stream(t, Stream(t, a).value[k].id) == Some(Stream(t, a).value[k..])
    decreases if a < t.limit then t.limit - a else 0
  {
    assert WellDecoded(t, a);
    match t.decode(a)
    case Nop(len) => StreamSuffix(t, a + len, k);
    case Insn(i, len, ends, _) =>
      if k > 0 {
        StreamSuffix(t, a + len, k - 1);
        assert Stream(t, a).value[k..] == Stream(t, a + len).value[k - 1..];
      }
  }

  lemma {:induction false} StreamGrows(t: Text, a: Addr, j: nat, k: nat)
    requires WellText(t) && Stream(t, a).Some? && j < k < |Stream(t, a).value|
    ensures Stream(t, a).value[j].id < Stream(t, a).value[k].id
    decreases if a < t.limit then t.limit - a else 0
  {
    assert WellDecoded(t, a);
    match t.decode(a)
    case Nop(len) => StreamGrows(t, a + len, j, k);
    case Insn(i, len, ends, _) =>
      if j > 0 { StreamGrows(t, a + len, j - 1, k - 1); } else { StreamIds(t, a + len, k - 1); }
  }

  // ---- the graph so far ----

  /** The graph, the address each block was made for, and the map from addresses to blocks. */
  datatype Recon = Recon(f: Cfg, key: map<BlockId, Addr>, blockMap: map<Addr, BlockId>)

  /** Addresses and blocks belong together one to one. */
  ghost predicate Mapped(r: Recon) {
    && r.key.Keys == r.f.blocks.Keys
    && (forall b | b in r.key :: r.key[b] in r.blockMap && r.blockMap[r.key[b]] == b)
    && (forall a | a in r.blockMap :: r.blockMap[a] in r.key && r.key[r.blockMap[a]] == a)
  }

  /** A block and what it falls through to are the stream of its address. A block falls through to one
      that begins at the very next instruction. */
  ghost predicate BlockReads(t: Text, r: Recon, b: BlockId)
    requires WellText(t) && b in r.f.blocks && b in r.key
  {
    var blk := r.f.blocks[b];
    && Stream(t, r.key[b]).Some?
    && match blk.next
       case None => Bares(blk.instrs) == Stream(t, r.key[b]).value
       case Some(n) =>
         && n in r.f.blocks && n in r.key
         && r.key[b] < r.key[n] && Stream(t, r.key[n]).Some?
         && Bares(blk.instrs) + Stream(t, r.key[n]).value == Stream(t, r.key[b]).value
         && Stream(t, r.key[n]).value != [] && Stream(t, r.key[n]).value[0].id == r.key[n]
  }

  /** An edge leads to the block mapped at the target of its branch. */
  ghost predicate EdgeRight(t: Text, r: Recon, i: Instr) {
    i.kind.Branch? && i.kind.edge.Some? ==>
      && TargetOf(t, i).Some? && TargetOf(t, i).value in r.blockMap
      && r.blockMap[TargetOf(t, i).value] == i.kind.edge.value
  }

  ghost predicate EdgesRight(t: Text, r: Recon) {
    forall b, k | b in r.f.blocks && 0 <= k < |r.f.blocks[b].instrs| :: EdgeRight(t, r, r.f.blocks[b].instrs[k])
  }

  ghost predicate Reads(t: Text, r: Recon)
    requires WellText(t)
  {
    Mapped(r) && (forall b | b in r.f.blocks :: BlockReads(t, r, b)) && EdgesRight(t, r) && Chained(r.f)
  }

  /** A known target has an edge. */
  ghost predicate HasEdge(t: Text, i: Instr) { i.kind.Branch? && TargetOf(t, i).Some? ==> i.kind.edge.Some? }

  ghost predicate Resolved(t: Text, f: Cfg, b: BlockId)
    requires b in f.blocks
  {
    forall k | 0 <= k < |f.blocks[b].instrs| :: HasEdge(t, f.blocks[b].instrs[k])
  }

  lemma ReadsBlock(t: Text, r: Recon, b: BlockId)
    requires WellText(t) && Reads(t, r) && b in r.f.blocks
    ensures b in r.key && Stream(t, r.key[b]).Some? && BlockReads(t, r, b)
  {
    hide Stream;
    assert BlockReads(t, r, b);
  }

  /** The instructions of a block and of those it falls through to. */
  ghost function Follow(t: Text, r: Recon, b: BlockId): seq<Instr>
    requires b in r.f.blocks
    decreases if b in r.key && r.key[b] < t.limit then t.limit - r.key[b] else 0
  {
    var blk := r.f.blocks[b];
    if blk.next.Some? && blk.next.value in r.f.blocks && blk.next.value in r.key && b in r.key && r.key[b] < r.key[blk.next.value] < t.limit
    then blk.instrs + Follow(t, r, blk.next.value)
    else blk.instrs
  }

  /** However often blocks have been split, a block followed to its end is the code decoded from its address on. */
  lemma {:induction false} FollowIsStream(t: Text, r: Recon, b: BlockId)
    requires WellText(t) && Reads(t, r) && b in r.f.blocks
    ensures b in r.key && Stream(t, r.key[b]) == Some(Bares(Follow(t, r, b)))
    decreases if b in r.key && r.key[b] < t.limit then t.limit - r.key[b] else 0
  {
    hide Stream, Reads, WellText, Bares;
    ReadsBlock(t, r, b);
    StreamNonempty(t, r.key[b]);
    var blk := r.f.blocks[b];
    if blk.next.Some? {
      var n := blk.next.value;
      StreamNonempty(t, r.key[n]);
      FollowIsStream(t, r, n);
      BaresAppend(blk.instrs, Follow(t, r, n));
      assert Follow(t, r, b) == blk.instrs + Follow(t, r, n);
    }
  }

  lemma BaresAppend(s: seq<Instr>, s': seq<Instr>)
    ensures Bares(s + s') == Bares(s) + Bares(s')
  {
  }

  // ---- what happens to it ----

  function AddDecoded(r: Recon, a: Addr, nb: BlockId, instrs: seq<Instr>): Recon {
    Recon(Cfg(r.f.blocks[nb := Block(instrs, None, None, [])]), r.key[nb := a], r.blockMap[a := nb])
  }

  lemma AddOthers(t: Text, r: Recon, a: Addr, nb: BlockId, instrs: seq<Instr>, b: BlockId)
    requires WellText(t) && b in r.f.blocks && b in r.key && BlockReads(t, r, b) && nb !in r.f.blocks
    ensures var q := AddDecoded(r, a, nb, instrs); b in q.f.blocks && b in q.key && BlockReads(t, q, b)
  {
    hide Stream;
  }

  lemma AddNew(t: Text, r: Recon, a: Addr, nb: BlockId, instrs: seq<Instr>)
    requires WellText(t) && Stream(t, a) == Some(instrs)
    ensures BlockReads(t, AddDecoded(r, a, nb, instrs), nb)
  {
    hide Stream;
    StreamBare(t, a);
  }

  lemma AddDecodedReads(t: Text, r: Recon, a: Addr, nb: BlockId, instrs: seq<Instr>)
    requires WellText(t) && Reads(t, r) && a !in r.blockMap && nb !in r.f.blocks && Stream(t, a) == Some(instrs)
    ensures Reads(t, AddDecoded(r, a, nb, instrs))
  {
    hide Stream, BlockReads, EdgeRight, WellText, Chained;
    var q := AddDecoded(r, a, nb, instrs);
    AddNew(t, r, a, nb, instrs);
    AddChained(r.f, nb, instrs);
    forall b | b in q.f.blocks ensures BlockReads(t, q, b) {
      if b != nb { AddOthers(t, r, a, nb, instrs, b); }
    }
    forall b, k | b in q.f.blocks && 0 <= k < |q.f.blocks[b].instrs| ensures EdgeRight(t, q, q.f.blocks[b].instrs[k]) {
      if b != nb {
        EdgeKept(t, r, q, r.f.blocks[b].instrs[k]);
      } else {
        NewEdges(t, a, q, k);
      }
    }
  }

  lemma NewEdges(t: Text, a: Addr, q: Recon, k: nat)
    requires WellText(t) && Stream(t, a).Some? && k < |Stream(t, a).value|
    ensures EdgeRight(t, q, Stream(t, a).value[k])
  {
    hide Stream, WellText;
    StreamBare(t, a);
    var i := Stream(t, a).value[k];
  }

  lemma StreamBare(t: Text, a: Addr)
    requires WellText(t) && Stream(t, a).Some?
    ensures Bares(Stream(t, a).value) == Stream(t, a).value
    ensures forall k | 0 <= k < |Stream(t, a).value| :: var i := Stream(t, a).value[k]; i.kind.Branch? ==> i.kind.edge.None?
  {
    hide Stream;
    var s := Stream(t, a).value;
    forall k | 0 <= k < |s| ensures s[k].kind.Branch? ==> s[k].kind.edge.None? {
      StreamIds(t, a, k);
      assert WellDecoded(t, s[k].id);
    }
    assert forall k | 0 <= k < |s| :: Bares(s)[k] == s[k];
  }

  function SplitAt(r: Recon, b: BlockId, k: nat, nb: BlockId): Recon
    requires b in r.f.blocks && k < |r.f.blocks[b].instrs| && nb !in r.f.blocks
  {
    var a := r.f.blocks[b].instrs[k].id;
    Recon(S.Split(r.f, b, k, nb), r.key[nb := a], r.blockMap[a := nb])
  }

  /** Instruction k of a block in its stream. */
  lemma InStream(t: Text, r: Recon, b: BlockId, k: nat)
    requires WellText(t) && b in r.f.blocks && b in r.key && BlockReads(t, r, b) && k < |r.f.blocks[b].instrs|
    ensures Stream(t, r.key[b]).Some? && k < |Stream(t, r.key[b]).value| && Stream(t, r.key[b]).value[k] == Unlinked(r.f.blocks[b].instrs[k])
  {
    hide Stream;
    var i := Bares(r.f.blocks[b].instrs)[k];
  }

  lemma SplitHalves(t: Text, r: Recon, b: BlockId, k: nat, nb: BlockId)
    requires WellText(t) && b in r.f.blocks && b in r.key && BlockReads(t, r, b) && k < |r.f.blocks[b].instrs| && nb !in r.f.blocks && nb !in r.key
    requires r.f.blocks[b].instrs[k].id != r.key[b] && r.f.blocks[b].next != Some(b)
    ensures BlockReads(t, SplitAt(r, b, k, nb), b) && BlockReads(t, SplitAt(r, b, k, nb), nb)
  {
    hide Stream;
    var blk, a, q := r.f.blocks[b], r.key[b], SplitAt(r, b, k, nb);
    var x := blk.instrs[k].id;
    var s := Stream(t, a).value;
    InStream(t, r, b, k);
    StreamIds(t, a, k);
    StreamSuffix(t, a, k);
    BaresSplit(blk.instrs, k);
    assert Stream(t, x) == Some(s[k..]);
    assert Bares(blk.instrs[..k]) == s[..k];
    assert s[..k] + s[k..] == s;
    if blk.next.Some? {
      var rest := Stream(t, r.key[blk.next.value]).value;
      assert Bares(blk.instrs[k..]) + rest == s[k..];
      assert s[|blk.instrs|] == rest[0];
      StreamGrows(t, a, k, |blk.instrs|);
    } else {
      assert Bares(blk.instrs[k..]) == s[k..];
    }
  }

  lemma SplitOthers(t: Text, r: Recon, b: BlockId, k: nat, nb: BlockId, c: BlockId)
    requires WellText(t) && b in r.f.blocks && k < |r.f.blocks[b].instrs| && nb !in r.f.blocks && nb !in r.key
    requires c in r.f.blocks && c != b && c in r.key && BlockReads(t, r, c)
    ensures c in SplitAt(r, b, k, nb).f.blocks && BlockReads(t, SplitAt(r, b, k, nb), c)
  {
    hide Stream;
  }

  lemma SplitLinks(f: Cfg, b: BlockId, k: nat, nb: BlockId, c: BlockId)
    requires b in f.blocks && k <= |f.blocks[b].instrs| && nb !in f.blocks && (c in f.blocks || c == nb) && f.blocks[b].next != Some(b)
    requires f.blocks[b].next.Some? ==> f.blocks[b].next.value in f.blocks
    ensures S.Split(f, b, k, nb).blocks.Keys == f.blocks.Keys + {nb}
    ensures S.Split(f, b, k, nb).blocks[c].next == if c == b then Some(nb) else if c == nb then f.blocks[b].next else f.blocks[c].next
    ensures S.Split(f, b, k, nb).blocks[c].prev == if c == nb then Some(b) else if f.blocks[b].next == Some(c) then Some(nb) else f.blocks[c].prev
  {
  }

  lemma SplitChained(f: Cfg, b: BlockId, k: nat, nb: BlockId)
    requires Chained(f) && b in f.blocks && k <= |f.blocks[b].instrs| && nb !in f.blocks && f.blocks[b].next != Some(b)
    ensures Chained(S.Split(f, b, k, nb))
  {
    hide S.Split, S.SetPrev;
    var g := S.Split(f, b, k, nb);
    SplitLinks(f, b, k, nb, b);
    forall c | c in g.blocks && g.blocks[c].next.Some?
      ensures g.blocks[c].next.value in g.blocks && g.blocks[g.blocks[c].next.value].prev == Some(c)
    {
      SplitLinks(f, b, k, nb, c);
      SplitLinks(f, b, k, nb, g.blocks[c].next.value);
    }
    forall c | c in g.blocks && g.blocks[c].prev.Some?
      ensures g.blocks[c].prev.value in g.blocks && g.blocks[g.blocks[c].prev.value].next == Some(c)
    {
      SplitLinks(f, b, k, nb, c);
      SplitLinks(f, b, k, nb, g.blocks[c].prev.value);
    }
  }

  lemma SplitInstrs(f: Cfg, b: BlockId, k: nat, nb: BlockId, c: BlockId)
    requires b in f.blocks && k <= |f.blocks[b].instrs| && nb !in f.blocks && (c in f.blocks || c == nb)
    ensures S.Split(f, b, k, nb).blocks.Keys == f.blocks.Keys + {nb}
    ensures S.Split(f, b, k, nb).blocks[c].instrs
            == if c == b then f.blocks[b].instrs[..k] else if c == nb then f.blocks[b].instrs[k..] else f.blocks[c].instrs
  {
  }

  lemma AddChained(f: Cfg, nb: BlockId, instrs: seq<Instr>)
    requires Chained(f) && nb !in f.blocks
    ensures Chained(Cfg(f.blocks[nb := Block(instrs, None, None, [])]))
  {
  }

  lemma SetChained(f: Cfg, b: BlockId, instrs: seq<Instr>)
    requires Chained(f) && b in f.blocks
    ensures Chained(Cfg(f.blocks[b := f.blocks[b].(instrs := instrs)]))
  {
  }

  lemma SplitAtReads(t: Text, r: Recon, b: BlockId, k: nat, nb: BlockId)
    requires WellText(t) && Reads(t, r) && b in r.f.blocks && k < |r.f.blocks[b].instrs| && nb !in r.f.blocks
    requires r.f.blocks[b].instrs[k].id !in r.blockMap
    ensures Reads(t, SplitAt(r, b, k, nb))
  {
    hide Stream, BlockReads, S.Split, S.SetPrev, EdgeRight, Chained, WellText;
    var q := SplitAt(r, b, k, nb);
    SplitInstrs(r.f, b, k, nb, b);
    assert BlockReads(t, r, b);
    assert r.f.blocks[b].next != Some(b) by { NextApart(t, r, b); }
    SplitHalves(t, r, b, k, nb);
    SplitChained(r.f, b, k, nb);
    forall c | c in q.f.blocks ensures BlockReads(t, q, c) {
      if c != b && c != nb { SplitOthers(t, r, b, k, nb, c); }
    }
    forall c, j | c in q.f.blocks && 0 <= j < |q.f.blocks[c].instrs| ensures EdgeRight(t, q, q.f.blocks[c].instrs[j]) {
      SplitInstrs(r.f, b, k, nb, c);
      var c', j' := if c == nb then b else c, if c == nb then j + k else j;
      assert q.f.blocks[c].instrs[j] == r.f.blocks[c'].instrs[j'];
      EdgeKept(t, r, q, r.f.blocks[c'].instrs[j']);
    }
    assert Mapped(q);
  }

  lemma NextApart(t: Text, r: Recon, b: BlockId)
    requires WellText(t) && b in r.f.blocks && b in r.key && BlockReads(t, r, b)
    ensures r.f.blocks[b].next != Some(b)
  {
    hide Stream;
  }

  /** Addresses are only ever added to the map. */
  lemma EdgeKept(t: Text, r: Recon, q: Recon, i: Instr)
    requires EdgeRight(t, r, i) && forall a | a in r.blockMap :: a in q.blockMap && q.blockMap[a] == r.blockMap[a]
    ensures EdgeRight(t, q, i)
  {
    hide TargetOf;
  }

  function SetEdge(r: Recon, b: BlockId, k: nat, d: BlockId): Recon
    requires b in r.f.blocks && k < |r.f.blocks[b].instrs|
  {
    var blk := r.f.blocks[b];
    r.(f := Cfg(r.f.blocks[b := blk.(instrs := blk.instrs[k := blk.instrs[k].(kind := Branch(Some(d)))])]))
  }

  lemma SetOthers(t: Text, r: Recon, b: BlockId, k: nat, d: BlockId, c: BlockId)
    requires WellText(t) && b in r.f.blocks && k < |r.f.blocks[b].instrs| && r.f.blocks[b].instrs[k].kind.Branch?
    requires c in r.f.blocks && c in r.key && BlockReads(t, r, c)
    ensures BlockReads(t, SetEdge(r, b, k, d), c)
  {
    hide Stream;
    assert Bares(SetEdge(r, b, k, d).f.blocks[b].instrs) == Bares(r.f.blocks[b].instrs);
  }

  lemma SetEdgeReads(t: Text, r: Recon, b: BlockId, k: nat, d: BlockId)
    requires WellText(t) && Reads(t, r) && b in r.f.blocks && k < |r.f.blocks[b].instrs| && r.f.blocks[b].instrs[k].kind.Branch?
    requires var target := TargetOf(t, r.f.blocks[b].instrs[k]); target.Some? && target.value in r.blockMap && r.blockMap[target.value] == d
    ensures Reads(t, SetEdge(r, b, k, d))
  {
    hide Stream, WellText, BlockReads, EdgeRight, TargetOf, Chained;
    var q := SetEdge(r, b, k, d);
    SetChained(r.f, b, q.f.blocks[b].instrs);
    forall c | c in q.f.blocks ensures BlockReads(t, q, c) {
      SetOthers(t, r, b, k, d, c);
    }
    forall c, j | c in q.f.blocks && 0 <= j < |q.f.blocks[c].instrs| ensures EdgeRight(t, q, q.f.blocks[c].instrs[j]) {
      if c == b && j == k {
        EdgeSet(t, q, r.f.blocks[b].instrs[k], d);
      } else {
        EdgeKept(t, r, q, r.f.blocks[c].instrs[j]);
      }
    }
  }

  lemma EdgeSet(t: Text, q: Recon, i: Instr, d: BlockId)
    requires i.kind.Branch? && TargetOf(t, i).Some? && TargetOf(t, i).value in q.blockMap && q.blockMap[TargetOf(t, i).value] == d
    ensures EdgeRight(t, q, i.(kind := Branch(Some(d))))
  {
  }
}

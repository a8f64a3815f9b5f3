/** Decoding a function: blocks are decoded where branches lead, and split where a branch leads into one. */
module ICFGReconstructionPass {
  import opened Machine
  import opened Links
  import opened Simulation
  import opened Reconstruction
  import opened DecodedRuns
  import S = Surgery

  // ---- what there is to decode ----

  /** Where the code at an address goes on. */
  ghost predicate GoesOn(t: Text, a: Addr, all: iset<Addr>) {
    match t.decode(a)
    case Bad => true
    case Nop(len) => a + len in all
    case Insn(_, len, ends, target) => (!ends ==> a + len in all) && (target.Some? ==> target.value in all)
  }

  ghost predicate Closed(t: Text, all: iset<Addr>) { forall a | a in all :: GoesOn(t, a, all) }

  /** Control can get there, as far as the text tells. */
  ghost predicate Reachable(t: Text, entry: Addr, a: Addr) {
    forall all: iset<Addr> | Closed(t, all) && entry in all :: a in all
  }

  lemma NextReachable(t: Text, entry: Addr, a: Addr)
    requires Reachable(t, entry, a)
    ensures match t.decode(a)
            case Bad => true
            case Nop(len) => Reachable(t, entry, a + len)
            case Insn(_, len, ends, target) =>
              (!ends ==> Reachable(t, entry, a + len)) && (target.Some? ==> Reachable(t, entry, target.value))
  {
    forall all: iset<Addr> | Closed(t, all) && entry in all ensures GoesOn(t, a, all) {
      assert a in all;
    }
  }

  lemma {:induction false} StreamReachable(t: Text, entry: Addr, a: Addr, k: nat)
    requires WellText(t) && Reachable(t, entry, a) && Stream(t, a).Some? && k < |Stream(t, a).value|
    ensures Reachable(t, entry, Stream(t, a).value[k].id)
    decreases if a < t.limit then t.limit - a else 0
  {
    hide Reachable;
    assert WellDecoded(t, a);
    NextReachable(t, entry, a);
    match t.decode(a)
    case Nop(len) => StreamReachable(t, entry, a + len, k);
    case Insn(i, len, ends, _) => if k > 0 { StreamReachable(t, entry, a + len, k - 1); }
  }

  ghost predicate BadReachable(t: Text, entry: Addr) { exists a: Addr :: Reachable(t, entry, a) && t.decode(a).Bad? }

  lemma {:induction false} NoStream(t: Text, entry: Addr, a: Addr)
    requires WellText(t) && Reachable(t, entry, a) && Stream(t, a).None?
    ensures BadReachable(t, entry)
    decreases if a < t.limit then t.limit - a else 0
  {
    hide Reachable;
    assert WellDecoded(t, a);
    NextReachable(t, entry, a);
    match t.decode(a)
    case Bad =>
    case Nop(len) => NoStream(t, entry, a + len);
    case Insn(i, len, ends, _) => NoStream(t, entry, a + len);
  }

  /** The addresses a stream runs through, padding included. */
  ghost predicate OnStream(t: Text, a: Addr, x: Addr)
    requires WellText(t)
    decreases if a < t.limit then t.limit - a else 0
  {
    assert WellDecoded(t, a);
    x == a ||
    match t.decode(a)
    case Bad => false
    case Nop(len) => OnStream(t, a + len, x)
    case Insn(_, len, ends, _) => !ends && OnStream(t, a + len, x)
  }

  /** A stream goes on where the code does, and its instructions are those on the way. */
  lemma {:induction false} OnStreamNext(t: Text, a: Addr, x: Addr)
    requires WellText(t) && Stream(t, a).Some? && OnStream(t, a, x)
    ensures match t.decode(x)
            case Bad => false
            case Nop(len) => OnStream(t, a, x + len)
            case Insn(i, len, ends, _) => (!ends ==> OnStream(t, a, x + len)) && i in Stream(t, a).value
    decreases if a < t.limit then t.limit - a else 0
  {
    assert WellDecoded(t, a);
    match t.decode(a)
    case Nop(len) =>
      if x == a {
        assert OnStream(t, a + len, a + len);
      } else {
        OnStreamNext(t, a + len, x);
      }
    case Insn(i, len, ends, _) =>
      if x == a {
        assert Stream(t, a).value[0] == i;
        assert !ends ==> OnStream(t, a + len, a + len);
      } else {
        OnStreamNext(t, a + len, x);
        assert Stream(t, a).value == [i] + Stream(t, a + len).value;
      }
  }

  /** An instruction of a stream is in the block of its address or one it falls through to. */
  lemma {:induction false} InSomeBlock(t: Text, r: Recon, b: BlockId, i: Instr) returns (c: BlockId, k: nat)
    requires WellText(t) && Reads(t, r) && b in r.f.blocks && Stream(t, r.key[b]).Some? && i in Stream(t, r.key[b]).value
    ensures c in r.f.blocks && k < |r.f.blocks[c].instrs| && Unlinked(r.f.blocks[c].instrs[k]) == i
    decreases if r.key[b] < t.limit then t.limit - r.key[b] else 0
  {
    hide Stream, EdgesRight, Chained;
    assert BlockReads(t, r, b);
    StreamNonempty(t, r.key[b]);
    var here := Bares(r.f.blocks[b].instrs);
    if i in here {
      c := b;
      k :| 0 <= k < |here| && here[k] == i;
    } else {
      c, k := InSomeBlock(t, r, r.f.blocks[b].next.value, i);
    }
  }

  /** On the stream of an address in the map. */
  ghost predicate Covered(t: Text, r: Recon, x: Addr)
    requires WellText(t)
  {
    exists a :: a in r.blockMap && OnStream(t, a, x)
  }

  ghost function AllCovered(t: Text, r: Recon): iset<Addr>
    requires WellText(t)
  {
    iset x: Addr | Covered(t, r, x)
  }

  lemma MapsTo(t: Text, r: Recon, a: Addr)
    requires WellText(t) && Reads(t, r) && a in r.blockMap
    ensures r.blockMap[a] in r.f.blocks && r.blockMap[a] in r.key && r.key[r.blockMap[a]] == a
  {
    hide Stream;
  }

  /** A branch on a stream leads to an address in the map. */
  lemma TargetMapped(t: Text, r: Recon, b: BlockId, x: Addr)
    requires Complete(t, r) && b in r.f.blocks && b in r.key && Stream(t, r.key[b]).Some?
    requires t.decode(x).Insn? && t.decode(x).target.Some? && t.decode(x).instr in Stream(t, r.key[b]).value
    ensures t.decode(x).target.value in r.blockMap
  {
    hide Stream, OnStream, Reads, EdgeRight, WellText;
    var i := t.decode(x).instr;
    assert WellDecoded(t, x) by { Decoded(t, x); }
    var c, k := InSomeBlock(t, r, b, i);
    var j := r.f.blocks[c].instrs[k];
    assert j.id == x && TargetOf(t, j) == t.decode(x).target;
    assert Resolved(t, r.f, c);
    assert HasEdge(t, j);
    EdgeOf(t, r, c, k);
    EdgeLeads(t, r, j);
  }

  lemma Decoded(t: Text, x: Addr)
    requires WellText(t)
    ensures WellDecoded(t, x)
  {
  }

  lemma CoveredNext(t: Text, r: Recon, a: Addr, x: Addr)
    requires Complete(t, r) && a in r.blockMap && OnStream(t, a, x)
    ensures GoesOn(t, x, AllCovered(t, r)) && !t.decode(x).Bad?
  {
    hide Stream, OnStream, Reads, BlockReads, Resolved, WellText;
    var b := r.blockMap[a];
    MapsTo(t, r, a);
    ReadsBlock(t, r, b);
    OnStreamNext(t, a, x);
    if t.decode(x).Insn? && t.decode(x).target.Some? {
      TargetMapped(t, r, b, x);
      StreamStarts(t, t.decode(x).target.value);
    }
  }

  lemma CoveredClosed(t: Text, r: Recon)
    requires Complete(t, r)
    ensures Closed(t, AllCovered(t, r)) && forall x | Covered(t, r, x) :: !t.decode(x).Bad?
  {
    hide Stream, OnStream, Reads, BlockReads, Resolved;
    forall x | Covered(t, r, x) ensures GoesOn(t, x, AllCovered(t, r)) && !t.decode(x).Bad? {
      var a :| a in r.blockMap && OnStream(t, a, x);
      CoveredNext(t, r, a, x);
    }
  }

  lemma StreamStarts(t: Text, a: Addr)
    requires WellText(t)
    ensures OnStream(t, a, a)
  {
  }

  /** Once everything is resolved, nothing that cannot be decoded can be reached. */
  lemma AllDecoded(t: Text, r: Recon, entry: Addr)
    requires Complete(t, r) && entry in r.blockMap
    ensures !BadReachable(t, entry)
  {
    hide Reads, OnStream, Resolved;
    CoveredClosed(t, r);
    StreamStarts(t, entry);
    assert entry in AllCovered(t, r);
  }

  // ---- how many blocks there can be ----

  function Below(n: nat): (s: set<Addr>)
    ensures |s| == n && forall a: Addr :: a in s <==> a < n
  {
    if n == 0 then {} else Below(n - 1) + {n - 1}
  }

  lemma SubsetSize(s: set<Addr>, u: set<Addr>)
    requires s <= u
    ensures |s| <= |u|
  {
    if s != {} {
      var a :| a in s;
      SubsetSize(s - {a}, u - {a});
    }
  }

  lemma MapBound(t: Text, r: Recon)
    requires WellText(t) && Reads(t, r)
    ensures |r.blockMap| <= t.limit
  {
    hide Stream, EdgesRight, Chained;
    forall a | a in r.blockMap ensures a in Below(t.limit) {
      KeyBound(t, r, r.blockMap[a]);
    }
    SubsetSize(r.blockMap.Keys, Below(t.limit));
    assert |r.blockMap| == |r.blockMap.Keys|;
  }

  // ---- the search for a block ----

  /** Instructions of a block are at or behind its address, in order, up to the end of the last. */
  lemma BlockRange(t: Text, r: Recon, b: BlockId, k: nat)
    requires WellText(t) && Reads(t, r) && b in r.f.blocks && k < |r.f.blocks[b].instrs|
    ensures var s := r.f.blocks[b].instrs; b in r.key && r.key[b] <= s[k].id <= EndAddr(t, s[|s| - 1])
  {
    hide Stream, Reads, BlockReads, WellText;
    ReadsBlock(t, r, b);
    var s := r.f.blocks[b].instrs;
    InStream(t, r, b, k);
    InStream(t, r, b, |s| - 1);
    StreamIds(t, r.key[b], k);
    if k < |s| - 1 { StreamGrows(t, r.key[b], k, |s| - 1); }
  }

  /** Where an instruction ended in the text. */
  function EndAddr(t: Text, i: Instr): Addr {
    i.id + match t.decode(i.id) case Insn(_, len, _, _) => len case _ => 0
  }

  /** Some block has an instruction there. */
  ghost predicate HasInstr(f: Cfg, a: Addr) {
    exists b, k :: b in f.blocks && 0 <= k < |f.blocks[b].instrs| && f.blocks[b].instrs[k].id == a
  }

  /** A block has been split at its instruction there. */
  ghost predicate SplitOff(r: Recon, q: Recon, a: Addr) {
    exists b: BlockId, k: nat, nb: BlockId ::
      b in r.f.blocks && k < |r.f.blocks[b].instrs| && r.f.blocks[b].instrs[k].id == a && nb !in r.f.blocks && q == SplitAt(r, b, k, nb)
  }

  lemma SplitOffIs(r: Recon, q: Recon, b: BlockId, k: nat, nb: BlockId)
    requires b in r.f.blocks && k < |r.f.blocks[b].instrs| && nb !in r.f.blocks && q == SplitAt(r, b, k, nb)
    ensures SplitOff(r, q, r.f.blocks[b].instrs[k].id)
  {
  }

  class ICFGReconstruction {
    const t: Text
    const entry: Addr
    var f: Cfg
    var blockMap: map<Addr, BlockId>
    var resolveStack: seq<BlockId>
    var nextId: nat
    ghost var key: map<BlockId, Addr>

    ghost function R(): Recon
      reads this
    {
      Recon(f, key, blockMap)
    }

    /** What every step keeps. */
    ghost predicate Valid()
      reads this
    {
      && WellText(t) && Reads(t, R())
      && (forall b | b in f.blocks :: b < nextId)
      && (forall a | a in blockMap :: a > 0 && Reachable(t, entry, a))
      && (forall k | 0 <= k < |resolveStack| :: resolveStack[k] in f.blocks)
    }

    /** Blocks that are neither waiting nor src have all their edges. */
    ghost predicate Pending(src: Option<BlockId>)
      reads this
    {
      forall b | b in f.blocks :: b in resolveStack || src == Some(b) || Resolved(t, f, b)
    }

    constructor (t: Text, entry: Addr)
      requires WellText(t) && entry > 0
      ensures Valid() && this.t == t && this.entry == entry && f == Cfg(map[]) && blockMap == map[] && resolveStack == []
    {
      this.t, this.entry := t, entry;
      f, blockMap, resolveStack, nextId, key := Cfg(map[]), map[], [], 0, map[];
    }

    /** Decode instructions to the end of the block. */
    method DecodeInstructions(itext: Addr) returns (ok: bool, instrs: seq<Instr>)
      requires WellText(t)
      ensures ok == Stream(t, itext).Some? && (ok ==> instrs == Stream(t, itext).value)
    {
      var a: Addr := itext;
      instrs := [];
      while true
        invariant Stream(t, itext).Some? == Stream(t, a).Some?
        invariant Stream(t, a).Some? ==> Stream(t, itext).value == instrs + Stream(t, a).value
        decreases if a < t.limit then t.limit - a else 0
      {
        assert WellDecoded(t, a);
        match t.decode(a) {
          case Bad => return false, [];
          case Nop(len) => a := a + len;
          case Insn(i, len, ends, _) =>
            instrs := instrs + [i];
            if ends { return true, instrs; }
            a := a + len;
        }
      }
    }

    /** Decode a block, map its address to it and put it on the stack. */
    method DecodeBlock(itext: Addr, ghost src: Option<BlockId>) returns (ok: bool, nb: BlockId)
      requires Valid() && Pending(src) && itext !in blockMap && itext > 0 && Reachable(t, entry, itext)
      modifies this
      ensures Valid() && ok == Stream(t, itext).Some?
      ensures Pending(src) && old(f.blocks.Keys) <= f.blocks.Keys && old(blockMap.Keys) <= blockMap.Keys && forall b | b in old(f.blocks) :: f.blocks[b] == old(f.blocks[b])
      ensures ok ==> |blockMap| > |old(blockMap)| && itext in blockMap && blockMap[itext] == nb
      ensures ok ==> nb !in old(f.blocks) && R() == AddDecoded(old(R()), itext, nb, Stream(t, itext).value)
    {
      hide Stream, Reads, Reachable, Resolved;
      var instrs;
      ok, instrs := DecodeInstructions(itext);
      if !ok { return false, 0; }
      nb := nextId;
      AddDecodedReads(t, R(), itext, nb, instrs);
      ghost var was := f;
      ghost var q := AddDecoded(R(), itext, nb, instrs);
      f := Cfg(f.blocks[nb := Block(instrs, None, None, [])]);
      key := key[nb := itext];
      MapGrows(blockMap, itext, nb);
      blockMap := blockMap[itext := nb];
      resolveStack := resolveStack + [nb];
      nextId := nextId + 1;
      assert R() == q;
      forall b | b in f.blocks ensures b in resolveStack || src == Some(b) || Resolved(t, f, b) {
        if b != nb { SameResolved(t, was, f, b); }
      }
    }

    /** Is there an instruction at itext in one of the blocks? Any block that has one may be chosen. */
    method ITextCovered(itext: Addr) returns (found: bool, b: BlockId, k: nat)
      requires Valid() && itext !in blockMap
      ensures found ==> b in f.blocks && k < |f.blocks[b].instrs| && f.blocks[b].instrs[k].id == itext
      ensures !found ==> forall c, j | c in f.blocks && 0 <= j < |f.blocks[c].instrs| :: f.blocks[c].instrs[j].id != itext
    {
      hide Stream, Reads, Reachable;
      var todo := blockMap.Keys;
      while todo != {}
        invariant todo <= blockMap.Keys
        invariant forall a | a in blockMap && a !in todo :: HasNone(f, blockMap[a], itext)
        decreases todo
      {
        var start :| start in todo;
        todo := todo - {start};
        b := blockMap[start];
        MapsTo(t, R(), start);
        assert start != itext;
        var instrs := f.blocks[b].instrs;
        if start == 0 || instrs == [] || itext < start || itext > EndAddr(t, instrs[|instrs| - 1]) {
          forall j | 0 <= j < |instrs| ensures instrs[j].id != itext { BlockRange(t, R(), b, j); }
          continue;
        }
        k := 0;
        while k < |instrs|
          invariant k <= |instrs| && forall j | 0 <= j < k :: instrs[j].id != itext
        {
          if instrs[k].id == itext { return true, b, k; }
          k := k + 1;
        }
      }
      forall c, j | c in f.blocks && 0 <= j < |f.blocks[c].instrs| ensures f.blocks[c].instrs[j].id != itext {
        BlockMapped(t, R(), c);
        assert HasNone(f, c, itext);
      }
      return false, 0, 0;
    }

    /** Split a block at an instruction, map its address to the new block and put that on the stack. */
    method SplitBlock(b: BlockId, k: nat, ghost src: Option<BlockId>) returns (nb: BlockId)
      requires Valid() && Pending(src) && b in f.blocks && k < |f.blocks[b].instrs| && f.blocks[b].instrs[k].id !in blockMap
      requires f.blocks[b].instrs[k].id > 0
      modifies this
      ensures |blockMap| > |old(blockMap)| && old(f.blocks.Keys) <= f.blocks.Keys && old(blockMap.Keys) <= blockMap.Keys
      ensures var itext := old(f.blocks[b].instrs[k].id); itext in blockMap && blockMap[itext] == nb
      ensures Valid() && Pending(src) && nb !in old(f.blocks) && R() == SplitAt(old(R()), b, k, nb)
    {
      hide Stream, Reads, Reachable, Resolved, S.Split, S.SetPrev, WellText;
      nb := nextId;
      var itext := f.blocks[b].instrs[k].id;
      SplitAtReads(t, R(), b, k, nb);
      InstrReachable(t, R(), entry, b, k);
      ghost var was := f;
      ghost var q := SplitAt(R(), b, k, nb);
      f := S.Split(f, b, k, nb);
      key := key[nb := itext];
      MapGrows(blockMap, itext, nb);
      blockMap := blockMap[itext := nb];
      resolveStack := resolveStack + [nb];
      nextId := nextId + 1;
      assert R() == q;
      SplitInstrs(was, b, k, nb, b);
      forall c | c in f.blocks ensures c in resolveStack || src == Some(c) || Resolved(t, f, c) {
        if c != nb { SplitResolved(t, was, b, k, nb, c); }
      }
    }

    /** The branches of a block that have no edge. */
    method CollectEdges(b: BlockId) returns (edges: seq<nat>)
      requires b in f.blocks
      ensures Collected(f.blocks[b].instrs, edges)
    {
      var instrs := f.blocks[b].instrs;
      edges := [];
      var k := 0;
      while k < |instrs|
        invariant k <= |instrs|
        invariant forall j | 0 <= j < |edges| :: edges[j] < k && Edgeless(instrs[edges[j]])
        invariant forall i, j | 0 <= i < j < |edges| :: edges[i] != edges[j]
        invariant forall j | 0 <= j < k && Edgeless(instrs[j]) :: j in edges
      {
        if Edgeless(instrs[k]) { edges := edges + [k]; }
        k := k + 1;
      }
    }

    /** The block at an address: known, split off another, or decoded. */
    method BlockAt(itext: Addr, src: BlockId) returns (ok: bool, split: bool, d: BlockId)
      requires Valid() && Pending(Some(src)) && src in f.blocks && itext > 0 && Reachable(t, entry, itext)
      modifies this
      ensures Valid() && Pending(Some(src)) && src in f.blocks && old(blockMap.Keys) <= blockMap.Keys && (!ok ==> BadReachable(t, entry))
      ensures |blockMap| > |old(blockMap)| || (!split && blockMap == old(blockMap) && resolveStack == old(resolveStack)) || !ok
      ensures ok ==> itext in blockMap && blockMap[itext] == d
      ensures ok && !split ==> f.blocks[src] == old(f.blocks[src])
      ensures split <==> itext !in old(blockMap) && HasInstr(old(f), itext)
      ensures split ==> SplitOff(old(R()), R(), itext)
    {
      hide Stream, Reads, Reachable, Resolved, S.Split, BadReachable, AddDecoded, SplitAt, WellText;
      ok, split := true, false;
      if itext in blockMap {
        d := blockMap[itext];
        return;
      }
      var b, j;
      split, b, j := ITextCovered(itext);
      if split {
        ghost var r := R();
        d := SplitBlock(b, j, Some(src));
        SplitOffIs(r, R(), b, j, d);
        return;
      }
      ok, d := DecodeBlock(itext, Some(src));
      if !ok { NoStream(t, entry, itext); }
    }

    /** Lead branch k of block src to where it goes, decoding or splitting a block for it if there is none. After a
        split the branch is still without its edge. */
    method ResolveBranch(src: BlockId, k: nat) returns (ok: bool, split: bool)
      requires Valid() && Pending(Some(src)) && src in f.blocks && k < |f.blocks[src].instrs| && Edgeless(f.blocks[src].instrs[k])
      modifies this
      ensures Valid() && Pending(Some(src)) && src in f.blocks && old(blockMap.Keys) <= blockMap.Keys && (!ok ==> BadReachable(t, entry))
      ensures ok ==> |blockMap| > |old(blockMap)| || (!split && blockMap == old(blockMap) && resolveStack == old(resolveStack))
      ensures ok && !split ==> OneEdge(t, old(f.blocks[src].instrs), f.blocks[src].instrs, k)
      ensures var a := TargetOf(t, old(f.blocks[src].instrs[k]));
              && (split <==> a.Some? && a.value !in old(blockMap) && HasInstr(old(f), a.value))
              && (split ==> SplitOff(old(R()), R(), a.value))
    {
      hide Stream, Reads, Reachable, Resolved, BadReachable, TargetOf, HasInstr, SplitOff;
      ok, split := true, false;
      var target := TargetOf(t, f.blocks[src].instrs[k]);
      if target.None? { return; }
      TargetReachable(t, R(), entry, src, k);
      var d;
      ok, split, d := BlockAt(target.value, src);
      if ok && !split { InstallEdge(src, k, d); }
    }

    method InstallEdge(src: BlockId, k: nat, d: BlockId)
      requires Valid() && Pending(Some(src)) && src in f.blocks && k < |f.blocks[src].instrs| && f.blocks[src].instrs[k].kind.Branch?
      requires var target := TargetOf(t, f.blocks[src].instrs[k]); target.Some? && target.value in blockMap && blockMap[target.value] == d
      modifies this`f
      ensures Valid() && Pending(Some(src)) && R() == SetEdge(old(R()), src, k, d)
    {
      hide Stream, Reads, Reachable, Resolved;
      SetEdgeReads(t, R(), src, k, d);
      ghost var q := SetEdge(R(), src, k, d);
      ghost var was := f;
      var blk := f.blocks[src];
      f := Cfg(f.blocks[src := blk.(instrs := blk.instrs[k := blk.instrs[k].(kind := Branch(Some(d)))])]);
      assert R() == q;
      forall b | b in f.blocks ensures b in resolveStack || b == src || Resolved(t, f, b) {
        if b != src { SameResolved(t, was, f, b); }
      }
    }

    /** Give all branches of a block their edges; after a split they are collected anew. */
    method ResolveBlock(src: BlockId) returns (ok: bool)
      requires Valid() && Pending(Some(src)) && src in f.blocks
      modifies this
      ensures Valid() && old(blockMap.Keys) <= blockMap.Keys && (ok ==> Pending(None)) && (!ok ==> BadReachable(t, entry))
      ensures ok ==> |blockMap| > |old(blockMap)| || (blockMap == old(blockMap) && resolveStack == old(resolveStack))
    {
      hide Stream, Reads, Reachable, Resolved, BadReachable, TargetOf, Half, OneEdge, Collected, WellText, Edgeless, HasInstr, SplitOff;
      var again := true;
      MapBound(t, R());
      while again
        invariant Valid() && Pending(Some(src)) && src in f.blocks && old(blockMap.Keys) <= blockMap.Keys
        invariant |blockMap| > |old(blockMap)| || (blockMap == old(blockMap) && resolveStack == old(resolveStack))
        invariant |blockMap| <= t.limit
        invariant !again ==> Resolved(t, f, src)
        decreases t.limit - |blockMap|, again
      {
        again := false;
        var edges := CollectEdges(src);
        ghost var size := |blockMap|;
        HalfStart(t, f.blocks[src].instrs, edges);
        var j := 0;
        while j < |edges|
          invariant Valid() && Pending(Some(src)) && src in f.blocks && j <= |edges| && old(blockMap.Keys) <= blockMap.Keys
          invariant |blockMap| > |old(blockMap)| || (blockMap == old(blockMap) && resolveStack == old(resolveStack))
          invariant size <= |blockMap| && (again ==> size < |blockMap|)
          invariant !again ==> Half(t, f.blocks[src].instrs, edges, j)
          invariant again ==> j == |edges|
        {
          ghost var was := f.blocks[src].instrs;
          var split;
          NextEdge(t, was, edges, j);
          ok, split := ResolveBranch(src, edges[j]);
          if !ok { return; }
          if split {
            again := true;
            j := |edges|;
          } else {
            OneMore(t, was, f.blocks[src].instrs, edges, j);
            j := j + 1;
          }
        }
        MapBound(t, R());
        if !again { AllEdges(t, f, src, edges); }
      }
      ok := true;
      Settled(src);
    }

    lemma Settled(src: BlockId)
      requires Pending(Some(src)) && src in f.blocks && Resolved(t, f, src)
      ensures Pending(None)
    {
      hide Resolved;
    }

    /** Work off the stack. */
    method ResolveAll() returns (ok: bool)
      requires Valid() && Pending(None) && entry in blockMap
      modifies this
      ensures Valid() && entry in blockMap && (!ok ==> BadReachable(t, entry))
      ensures ok ==> forall b | b in f.blocks :: Resolved(t, f, b)
    {
      hide Stream, Reads, Resolved, BadReachable, Reachable, WellText;
      MapBound(t, R());
      while resolveStack != []
        invariant Valid() && Pending(None) && entry in blockMap && |blockMap| <= t.limit
        decreases t.limit - |blockMap|, |resolveStack|
      {
        var src := resolveStack[|resolveStack| - 1];
        assert forall b | b in resolveStack :: b in resolveStack[..|resolveStack| - 1] || b == src;
        resolveStack := resolveStack[..|resolveStack| - 1];
        ok := ResolveBlock(src);
        if !ok { return; }
        MapBound(t, R());
      }
      ok := true;
    }

    /** Decode everything that can be reached. It fails if and only if that is not possible. */
    method DecodeFunction() returns (ok: bool)
      requires Valid() && f == Cfg(map[]) && blockMap == map[] && resolveStack == [] && entry > 0
      modifies this
      ensures ok <==> !BadReachable(t, entry)
      ensures ok ==> Valid() && Complete(t, R()) && entry in blockMap
    {
      hide Stream, Reads, Resolved, BadReachable, Reachable, AddDecoded, WellText;
      EntryReachable(t, entry);
      var b;
      ok, b := DecodeBlock(entry, None);
      if !ok {
        NoStream(t, entry, entry);
        return;
      }
      ok := ResolveAll();
      if ok { AllDecoded(t, R(), entry); }
    }
  }

  /** From the entry, the graph does what the processor does reading the text. */
  ghost predicate RunsFromEntry(t: Text, entry: Addr, f: Cfg, b: BlockId) {
    forall s: State :: Equivalent(Processor(t), At(entry, 0, s), Graph(f), At(b, 0, s))
  }

  /** A function decoded from memory. */
  method Decode(t: Text, entry: Addr) returns (ok: bool, f: Cfg, b: BlockId)
    requires WellText(t) && entry > 0
    ensures ok <==> !BadReachable(t, entry)
    ensures ok ==> b in f.blocks && RunsFromEntry(t, entry, f, b)
    ensures ok ==> Chained(f) && S.Complete(f)
  {
    hide Stream, Reads, Resolved, BadReachable, RunsFromEntry, S.Complete, Chained, WellText;
    var pass := new ICFGReconstruction(t, entry);
    ok := pass.DecodeFunction();
    f, b := pass.f, 0;
    if ok {
      b := pass.blockMap[entry];
      DecodedEntry(t, entry, pass.R());
    }
  }

  lemma DecodedEntry(t: Text, entry: Addr, r: Recon)
    requires Complete(t, r) && entry in r.blockMap
    ensures r.blockMap[entry] in r.f.blocks && RunsFromEntry(t, entry, r.f, r.blockMap[entry])
    ensures Chained(r.f) && S.Complete(r.f)
  {
    hide Stream, BlockReads, EdgeRight, Equivalent, Resolved, Chained;
    forall s: State ensures Equivalent(Processor(t), At(entry, 0, s), Graph(r.f), At(r.blockMap[entry], 0, s)) {
      DecodedRunsAlike(t, r, entry, s);
    }
    forall b | b in r.f.blocks ensures S.BlockComplete(r.f, r.f.blocks[b]) {
      LeadsInside(t, r, b);
    }
  }

  lemma LeadsInside(t: Text, r: Recon, b: BlockId)
    requires WellText(t) && Reads(t, r) && b in r.f.blocks
    ensures S.BlockComplete(r.f, r.f.blocks[b])
  {
    hide Stream, EdgeRight, TargetOf, WellText;
    ReadsBlock(t, r, b);
    forall k | 0 <= k < |r.f.blocks[b].instrs| ensures S.InstrComplete(r.f, r.f.blocks[b].instrs[k]) {
      EdgeOf(t, r, b, k);
      var i := r.f.blocks[b].instrs[k];
      if i.kind.Branch? && i.kind.edge.Some? { EdgeLeads(t, r, i); }
    }
  }

  lemma MapGrows(m: map<Addr, BlockId>, a: Addr, b: BlockId)
    requires a !in m
    ensures |m[a := b]| == |m| + 1
  {
    assert m[a := b].Keys == m.Keys + {a};
  }

  /** A branch without an edge. */
  predicate Edgeless(i: Instr) { i.kind.Branch? && i.kind.edge.None? }

  /** All branches without an edge, each once. */
  ghost predicate Collected(instrs: seq<Instr>, edges: seq<nat>) {
    && (forall j | 0 <= j < |edges| :: edges[j] < |instrs| && Edgeless(instrs[edges[j]]))
    && (forall i, j | 0 <= i < j < |edges| :: edges[i] != edges[j])
    && (forall k | 0 <= k < |instrs| && Edgeless(instrs[k]) :: k in edges)
  }

  /** Only instruction k may have got an edge, and has if it has a known target. */
  ghost predicate OneEdge(t: Text, was: seq<Instr>, now: seq<Instr>, k: nat) {
    && k < |was| && |now| == |was| && HasEdge(t, now[k])
    && (forall j | 0 <= j < |was| && j != k :: now[j] == was[j])
  }

  /** The first j of the collected branches have their edges if they have a known target; the others are as they were. */
  ghost predicate Half(t: Text, instrs: seq<Instr>, edges: seq<nat>, j: nat)
    requires j <= |edges|
  {
    && (forall i | 0 <= i < |edges| :: edges[i] < |instrs|)
    && (forall i | 0 <= i < j :: HasEdge(t, instrs[edges[i]]))
    && (forall i | j <= i < |edges| :: Edgeless(instrs[edges[i]]))
    && (forall i, i' | 0 <= i < i' < |edges| :: edges[i] != edges[i'])
    && (forall k | 0 <= k < |instrs| && Edgeless(instrs[k]) :: k in edges)
  }

  lemma HalfStart(t: Text, instrs: seq<Instr>, edges: seq<nat>)
    requires Collected(instrs, edges)
    ensures Half(t, instrs, edges, 0)
  {
  }

  lemma NextEdge(t: Text, instrs: seq<Instr>, edges: seq<nat>, j: nat)
    requires j < |edges| && Half(t, instrs, edges, j)
    ensures edges[j] < |instrs| && Edgeless(instrs[edges[j]])
  {
  }

  lemma OneMore(t: Text, was: seq<Instr>, now: seq<Instr>, edges: seq<nat>, j: nat)
    requires j < |edges| && Half(t, was, edges, j) && OneEdge(t, was, now, edges[j])
    ensures Half(t, now, edges, j + 1)
  {
    hide HasEdge;
  }

  lemma AllEdges(t: Text, f: Cfg, b: BlockId, edges: seq<nat>)
    requires b in f.blocks && Half(t, f.blocks[b].instrs, edges, |edges|)
    ensures Resolved(t, f, b)
  {
    hide TargetOf;
    var instrs := f.blocks[b].instrs;
    forall k | 0 <= k < |instrs| ensures HasEdge(t, instrs[k]) {
      if Edgeless(instrs[k]) {
        var i :| 0 <= i < |edges| && edges[i] == k;
      }
    }
  }

  ghost predicate HasNone(f: Cfg, b: BlockId, itext: Addr) {
    b in f.blocks && forall j | 0 <= j < |f.blocks[b].instrs| :: f.blocks[b].instrs[j].id != itext
  }

  lemma BlockMapped(t: Text, r: Recon, b: BlockId)
    requires WellText(t) && Reads(t, r) && b in r.f.blocks
    ensures b in r.key && r.key[b] in r.blockMap && r.blockMap[r.key[b]] == b
  {
    hide Stream;
  }

  lemma SplitResolved(t: Text, f: Cfg, b: BlockId, k: nat, nb: BlockId, c: BlockId)
    requires b in f.blocks && k <= |f.blocks[b].instrs| && nb !in f.blocks && c in f.blocks
    ensures c in S.Split(f, b, k, nb).blocks && (Resolved(t, f, c) ==> Resolved(t, S.Split(f, b, k, nb), c))
  {
    hide S.SetPrev, TargetOf;
    SplitInstrs(f, b, k, nb, c);
  }

  lemma InstrReachable(t: Text, r: Recon, entry: Addr, b: BlockId, k: nat)
    requires WellText(t) && Reads(t, r) && b in r.f.blocks && k < |r.f.blocks[b].instrs|
    requires forall a | a in r.blockMap :: Reachable(t, entry, a)
    ensures Reachable(t, entry, r.f.blocks[b].instrs[k].id)
  {
    hide Stream, Reads, Reachable;
    BlockMapped(t, r, b);
    ReadsBlock(t, r, b);
    InStream(t, r, b, k);
    StreamReachable(t, entry, r.key[b], k);
  }

  lemma TargetReachable(t: Text, r: Recon, entry: Addr, b: BlockId, k: nat)
    requires WellText(t) && Reads(t, r) && b in r.f.blocks && k < |r.f.blocks[b].instrs|
    requires forall a | a in r.blockMap :: Reachable(t, entry, a)
    ensures var target := TargetOf(t, r.f.blocks[b].instrs[k]); target.Some? ==> target.value > 0 && Reachable(t, entry, target.value)
  {
    hide Stream, Reads, Reachable;
    InstrReachable(t, r, entry, b, k);
    NextReachable(t, entry, r.f.blocks[b].instrs[k].id);
    Decoded(t, r.f.blocks[b].instrs[k].id);
  }

  lemma EntryReachable(t: Text, entry: Addr)
    ensures Reachable(t, entry, entry)
  {
  }

  lemma SameResolved(t: Text, f: Cfg, g: Cfg, b: BlockId)
    requires b in f.blocks && b in g.blocks && f.blocks[b].instrs == g.blocks[b].instrs
    ensures Resolved(t, f, b) == Resolved(t, g, b)
  {
  }
}

/** The merging phase of the block layout pass, and what it does to the entry: each block that is left is
    made of blocks that followed each other, and the entry now starts where the first of its blocks did. */
module LayoutEntry {
  import opened Machine
  import opened Links
  import opened Simulation
  import opened FirstExecuted
  import opened Ir
  import opened FunctionIr
  import opened IrGraph
  import opened IrLoops
  import opened BlockLayout
  import S = IrSplit
  import G = Surgery
  import U = UnrollingPass

  ghost function MergeStep(x: Ir, b: BlockId): Ir {
    if S.Mergeable(x, b) then S.Merge(x, b) else x
  }

  ghost function MergeAll(x: Ir, list: seq<BlockId>): Ir {
    if list == [] then x else MergeStep(MergeAll(x, list[..|list| - 1]), list[|list| - 1])
  }

  /** No assertion of a merge fails. */
  ghost predicate MergesOk(x: Ir, list: seq<BlockId>) {
    forall n | 0 <= n < |list| :: S.Mergeable(MergeAll(x, list[..n]), list[n])
  }

  /** The entry of the function moves along when it is merged. */
  function EntryStep(x: Ir, b: BlockId, e: BlockId): BlockId {
    if e == b && b in x.blocks && x.blocks[b].next.Some? then x.blocks[b].next.value else e
  }

  ghost function EntryAfter(x: Ir, list: seq<BlockId>, e: BlockId): BlockId {
    if list == [] then e
    else EntryStep(MergeAll(x, list[..|list| - 1]), list[|list| - 1], EntryAfter(x, list[..|list| - 1], e))
  }

  // ---- what a block has been made of ----

  type Parts = map<BlockId, seq<BlockId>>

  ghost function PartsStep(x: Ir, b: BlockId, w: Parts): Parts {
    if b in x.blocks && x.blocks[b].next.Some? && b in w && x.blocks[b].next.value in w
    then w[x.blocks[b].next.value := w[b] + w[x.blocks[b].next.value]] - {b} else w
  }

  ghost function PartsAfter(x: Ir, list: seq<BlockId>): Parts {
    if list == [] then map b | b in x.blocks :: [b]
    else PartsStep(MergeAll(x, list[..|list| - 1]), list[|list| - 1], PartsAfter(x, list[..|list| - 1]))
  }

  /** n follows b, and no branch leads there. */
  predicate Follows(m: Ir, b: BlockId, n: BlockId) {
    b in m.blocks && n in m.blocks && m.blocks[b].next == Some(n) && m.blocks[n].incoming == []
  }

  predicate IsRow(m: Ir, p: seq<BlockId>) {
    && p != [] && (forall k | 0 <= k < |p| :: p[k] in m.blocks)
    && forall k | 0 < k < |p| :: Follows(m, p[k - 1], p[k])
  }

  /** Block c of z is made of a row of blocks of m that ends with c; the first one's predecessor and
      incoming edges are its own. */
  predicate MadeOf(m: Ir, z: Ir, p: seq<BlockId>, c: BlockId) {
    && c in z.blocks && IsRow(m, p) && p[|p| - 1] == c
    && z.blocks[c].prev == m.blocks[p[0]].prev
    && (z.blocks[c].incoming == [] <==> m.blocks[p[0]].incoming == [])
  }

  ghost predicate Gathered(m: Ir, z: Ir, w: Parts) {
    w.Keys == z.blocks.Keys && forall c | c in w :: MadeOf(m, z, w[c], c)
  }

  /** No block is part of two. */
  ghost predicate OncePart(w: Parts) {
    forall c, d, j, k | c in w && d in w && 0 <= j < |w[c]| && 0 <= k < |w[d]| && w[c][j] == w[d][k] :: c == d && j == k
  }

  /** What ran from the beginning of a row runs from the block it has become. */
  ghost predicate RunsGathered(f: Cfg, g: Cfg, w: Parts) {
    forall c | c in w && w[c] != [] :: SameRuns(f, w[c][0], g, c)
  }

  lemma MergesOkBefore(x: Ir, list: seq<BlockId>)
    requires MergesOk(x, list) && list != []
    ensures MergesOk(x, list[..|list| - 1]) && S.Mergeable(MergeAll(x, list[..|list| - 1]), list[|list| - 1])
  {
    var before := list[..|list| - 1];
    forall n | 0 <= n < |before| ensures S.Mergeable(MergeAll(x, before[..n]), before[n]) {
      assert before[..n] == list[..n] && before[n] == list[n];
    }
  }

  lemma RowsAppend(m: Ir, p: seq<BlockId>, q: seq<BlockId>)
    requires IsRow(m, p) && IsRow(m, q) && Follows(m, p[|p| - 1], q[0])
    ensures IsRow(m, p + q)
  {
    hide Follows;
    var r := p + q;
    forall k | 0 < k < |r| ensures Follows(m, r[k - 1], r[k]) {
      if k < |p| {
        assert Follows(m, p[k - 1], p[k]);
      } else if k > |p| {
        assert Follows(m, q[k - |p| - 1], q[k - |p|]);
      }
    }
  }

  /** The row before a block that no branch leads to goes on with it. */
  lemma RowsJoin(m: Ir, z: Ir, w: Parts, b: BlockId, n: BlockId)
    requires Consistent(m) && Consistent(z) && Gathered(m, z, w) && b in w && n in w
    requires b in z.blocks && z.blocks[b].next == Some(n) && n in z.blocks && z.blocks[n].incoming == []
    ensures IsRow(m, w[b] + w[n])
  {
    hide Consistent;
    assert MadeOf(m, z, w[b], b) && MadeOf(m, z, w[n], n);
    hide Gathered;
    NeighboursThere(z, b);
    NeighboursThere(m, w[n][0]);
    RowsAppend(m, w[b], w[n]);
  }

  lemma MergeMakesOther(m: Ir, z: Ir, b: BlockId, c: BlockId, p: seq<BlockId>)
    requires S.Mergeable(z, b) && c in z.blocks && c != b && z.blocks[b].next != Some(c) && MadeOf(m, z, p, c)
    ensures MadeOf(m, S.Merge(z, b), p, c)
  {
    hide S.Merge, IsRow;
    S.MergeBlock(z, b, c);
    MergeNodeLinks(z, b, c);
  }

  lemma MergeMakesNext(m: Ir, z: Ir, b: BlockId, n: BlockId, p: seq<BlockId>, q: seq<BlockId>)
    requires S.Mergeable(z, b) && n in z.blocks && n != b && z.blocks[b].next == Some(n)
    requires MadeOf(m, z, p, b) && MadeOf(m, z, q, n) && IsRow(m, p + q)
    ensures MadeOf(m, S.Merge(z, b), p + q, n)
  {
    assert p != [] && q != [] && (p + q)[0] == p[0] && (p + q)[|p + q| - 1] == q[|q| - 1];
    hide S.Merge, IsRow;
    S.MergeBlock(z, b, n);
    MergeNodeLinks(z, b, n);
  }

  lemma GatheredAt(m: Ir, z: Ir, w: Parts, c: BlockId)
    requires Gathered(m, z, w) && (c in z.blocks || c in w)
    ensures c in w && c in z.blocks && MadeOf(m, z, w[c], c)
  {
  }

  lemma PartsStepAt(z: Ir, w: Parts, b: BlockId, n: BlockId)
    requires b in z.blocks && z.blocks[b].next == Some(n) && n != b && b in w && n in w
    ensures PartsStep(z, b, w).Keys == w.Keys - {b} && PartsStep(z, b, w)[n] == w[b] + w[n]
    ensures forall c | c in w && c != b && c != n :: PartsStep(z, b, w)[c] == w[c]
  {
  }

  lemma MergeGathers(m: Ir, z: Ir, w: Parts, b: BlockId)
    requires Consistent(m) && Consistent(z) && S.Mergeable(z, b) && Gathered(m, z, w)
    ensures Gathered(m, S.Merge(z, b), PartsStep(z, b, w))
  {
    MergeFacts(z, b);
    var n, y, v := z.blocks[b].next.value, S.Merge(z, b), PartsStep(z, b, w);
    GatheredAt(m, z, w, b);
    GatheredAt(m, z, w, n);
    RowsJoin(m, z, w, b, n);
    PartsStepAt(z, w, b, n);
    hide Consistent, S.Merge, S.Mergeable, IsRow, MadeOf, PartsStep;
    S.MergeBlock(z, b, n);
    forall c | c in v ensures MadeOf(m, y, v[c], c) {
      GatheredAt(m, z, w, c);
      if c == n { MergeMakesNext(m, z, b, n, w[b], w[n]); } else { MergeMakesOther(m, z, b, c, w[c]); }
    }
  }

  lemma MergeOncePart(z: Ir, w: Parts, b: BlockId)
    requires OncePart(w)
    requires b in z.blocks && z.blocks[b].next.Some? && z.blocks[b].next.value != b
    ensures OncePart(PartsStep(z, b, w))
  {
    if b in w && z.blocks[b].next.value in w {
      var n, v := z.blocks[b].next.value, PartsStep(z, b, w);
      forall c, d, j, k | c in v && d in v && 0 <= j < |v[c]| && 0 <= k < |v[d]| && v[c][j] == v[d][k] ensures c == d && j == k {
        var c', j' := if c == n && j < |w[b]| then b else c, if c == n && j >= |w[b]| then j - |w[b]| else j;
        var d', k' := if d == n && k < |w[b]| then b else d, if d == n && k >= |w[b]| then k - |w[b]| else k;
        assert w[c'][j'] == w[d'][k'];
      }
    }
  }

  lemma MergeRuns(m: Ir, z: Ir, w: Parts, b: BlockId, f: Cfg)
    requires Consistent(m) && Consistent(z) && S.Mergeable(z, b) && Gathered(m, z, w)
    requires RunsGathered(f, Whole(z), w)
    ensures Consistent(S.Merge(z, b)) && RunsGathered(f, Whole(S.Merge(z, b)), PartsStep(z, b, w))
  {
    hide Consistent, S.Merge, S.Mergeable, SameRuns, Whole, IsRow, PartsStep;
    MergeFacts(z, b);
    S.MergeConsistent(z, b);
    var n, g, v := z.blocks[b].next.value, Whole(S.Merge(z, b)), PartsStep(z, b, w);
    GatheredAt(m, z, w, b);
    GatheredAt(m, z, w, n);
    PartsStepAt(z, w, b, n);
    assert w[b] != [] by { assert MadeOf(m, z, w[b], b); RowNotEmpty(m, w[b]); }
    forall c | c in v && v[c] != [] ensures SameRuns(f, v[c][0], g, c) {
      var o := if c == n then b else c;
      MergeKeeps(z, b, o);
      SameRunsTwice(f, w[o][0], Whole(z), o, g, if o == b then n else o);
    }
  }

  lemma RowNotEmpty(m: Ir, p: seq<BlockId>)
    requires IsRow(m, p)
    ensures p != []
  {
  }

  lemma MergeKeeps(z: Ir, b: BlockId, e: BlockId)
    requires Consistent(z) && S.Mergeable(z, b) && e in z.blocks && z.blocks[b].next != Some(e)
    ensures Consistent(S.Merge(z, b)) && b in z.blocks && z.blocks[b].next.Some?
    ensures SameRuns(Whole(z), e, Whole(S.Merge(z, b)), if e == b then z.blocks[b].next.value else e)
  {
    hide *;
    MergeFacts(z, b);
    MakesIs(z, Whole(z));
    U.WholeKeys(z);
    MergeSame(z, Whole(z), b, e);
    GMergeFacts(Whole(z), b);
    MakesFacts(S.Merge(z, b), G.Merge(Whole(z), b));
  }

  lemma MergeAllStep(m: Ir, list: seq<BlockId>, e: BlockId)
    requires list != [] && S.Mergeable(MergeAll(m, list[..|list| - 1]), list[|list| - 1])
    ensures var before, b := list[..|list| - 1], list[|list| - 1];
            var z := MergeAll(m, before);
            && MergeAll(m, list) == S.Merge(z, b) && PartsAfter(m, list) == PartsStep(z, b, PartsAfter(m, before))
            && EntryAfter(m, list, e) == EntryStep(z, b, EntryAfter(m, before, e))
  {
    hide S.Merge, S.Mergeable, PartsStep, EntryStep;
  }

  lemma PartsStart(m: Ir)
    requires Consistent(m)
    ensures PartsAfter(m, []).Keys == m.blocks.Keys && (forall b | b in m.blocks :: PartsAfter(m, [])[b] == [b])
    ensures Gathered(m, m, PartsAfter(m, [])) && OncePart(PartsAfter(m, [])) && RunsGathered(Whole(m), Whole(m), PartsAfter(m, []))
  {
    hide SameRuns, Consistent;
    forall c | c in m.blocks ensures SameRuns(Whole(m), c, Whole(m), c) { SameRunsSelf(Whole(m), c); }
  }

  /** What holds after any number of merges. */
  ghost predicate Merged(m: Ir, z: Ir, w: Parts, list: seq<BlockId>) {
    && Consistent(m) && Consistent(z) && Gathered(m, z, w) && OncePart(w) && RunsGathered(Whole(m), Whole(z), w)
    && forall b :: b in z.blocks <==> b in m.blocks && b !in list
  }

  lemma MergedNext(m: Ir, z: Ir, w: Parts, before: seq<BlockId>, b: BlockId, list: seq<BlockId>)
    requires Consistent(m) && Merged(m, z, w, before) && S.Mergeable(z, b) && list == before + [b]
    ensures Merged(m, S.Merge(z, b), PartsStep(z, b, w), list)
  {
    hide MergesOk, SameRuns, Consistent, Gathered, OncePart, RunsGathered, S.Merge, S.Mergeable, PartsStep, Whole;
    MergeFacts(z, b);
    MergeGathers(m, z, w, b);
    MergeOncePart(z, w, b);
    MergeRuns(m, z, w, b, Whole(m));
    S.MergeBlock(z, b, z.blocks[b].next.value);
  }

  lemma MergedFacts(m: Ir, z: Ir, w: Parts, list: seq<BlockId>)
    requires Merged(m, z, w, list)
    ensures Consistent(m) && Consistent(z) && Gathered(m, z, w) && OncePart(w) && RunsGathered(Whole(m), Whole(z), w)
    ensures forall b :: b in z.blocks <==> b in m.blocks && b !in list
  {
  }

  lemma MergedStart(m: Ir)
    requires Consistent(m)
    ensures Merged(m, m, PartsAfter(m, []), [])
  {
    hide SameRuns, Consistent, Gathered, OncePart, RunsGathered, PartsAfter, Whole;
    PartsStart(m);
  }

  /** All the merges together. */
  lemma {:induction false} MergeAllFacts(m: Ir, list: seq<BlockId>)
    requires Consistent(m) && MergesOk(m, list)
    ensures Merged(m, MergeAll(m, list), PartsAfter(m, list), list)
  {
    hide MergesOk, Consistent, Merged, S.Merge, S.Mergeable, PartsStep, PartsAfter, MergeStep;
    if list == [] {
      MergedStart(m);
    } else {
      hide MergeAll;
      MergesOkBefore(m, list);
      var before, b := list[..|list| - 1], list[|list| - 1];
      MergeAllFacts(m, before);
      MergeAllStep(m, list, b);
      MergedNext(m, MergeAll(m, before), PartsAfter(m, before), before, b, list);
    }
  }

  lemma EntryPartStep(m: Ir, z: Ir, w: Parts, b: BlockId, c: BlockId, e: BlockId)
    requires b in z.blocks && z.blocks[b].next.Some? && z.blocks[b].next.value != b && z.blocks[b].next.value in z.blocks
    requires Gathered(m, z, w) && c in w && e in w[c]
    ensures EntryStep(z, b, c) in PartsStep(z, b, w) && e in PartsStep(z, b, w)[EntryStep(z, b, c)]
  {
    PartsStepAt(z, w, b, z.blocks[b].next.value);
    hide PartsStep, MadeOf;
  }

  /** The entry stays part of the entry. */
  lemma {:induction false} EntryPart(m: Ir, list: seq<BlockId>, e: BlockId)
    requires Consistent(m) && MergesOk(m, list) && e in m.blocks
    ensures EntryAfter(m, list, e) in PartsAfter(m, list) && e in PartsAfter(m, list)[EntryAfter(m, list, e)]
  {
    hide Consistent, MergesOk, Gathered, OncePart, RunsGathered, S.Merge, S.Mergeable, PartsStep, PartsAfter, EntryStep, MergeAll;
    if list == [] {
      PartsStart(m);
    } else {
      hide EntryAfter;
      MergesOkBefore(m, list);
      var before, b := list[..|list| - 1], list[|list| - 1];
      EntryPart(m, before, e);
      MergeAllFacts(m, before);
      MergeAllStep(m, list, e);
      MergeFacts(MergeAll(m, before), b);
      EntryPartStep(m, MergeAll(m, before), PartsAfter(m, before), b, EntryAfter(m, before, e), e);
    }
  }

  // ---- runs from the entry ----

  /** What stands in front of the entry when the merging starts, and ends up in front of it: a row of noted
      blocks, without incoming edges but for the first, which nothing noted precedes. */
  ghost predicate InFront(m: Ir, list: seq<BlockId>, e: BlockId, p: seq<BlockId>) {
    && IsRow(m, p) && p[|p| - 1] == e && (forall j, k | 0 <= j < k < |p| :: p[j] != p[k])
    && (m.blocks[p[0]].prev.Some? ==> m.blocks[p[0]].prev.value !in list)
    && (forall k | 0 <= k < |p| - 1 :: p[k] in list)
  }

  /** The blocks in front of the entry, the entry last. */
  ghost function FrontOf(m: Ir, list: seq<BlockId>, e: BlockId): seq<BlockId> {
    var w, c := PartsAfter(m, list), EntryAfter(m, list, e);
    if c in w && e in w[c] then (var k :| 0 <= k < |w[c]| && w[c][k] == e; w[c][..k + 1]) else [e]
  }

  lemma FrontFacts(m: Ir, list: seq<BlockId>, e: BlockId)
    requires Consistent(m) && MergesOk(m, list) && e in m.blocks
    ensures var p, w, c := FrontOf(m, list, e), PartsAfter(m, list), EntryAfter(m, list, e);
            InFront(m, list, e, p) && c in w && w[c] != [] && p[0] == w[c][0]
  {
    hide *;
    EntryPart(m, list, e);
    MergeAllFacts(m, list);
    MergedFacts(m, MergeAll(m, list), PartsAfter(m, list), list);
    FrontIs(m, MergeAll(m, list), list, PartsAfter(m, list), EntryAfter(m, list, e), e);
  }

  lemma RowStart(m: Ir, p: seq<BlockId>, k: nat)
    requires IsRow(m, p) && k < |p|
    ensures IsRow(m, p[..k + 1]) && p[..k + 1][0] == p[0] && p[..k + 1][k] == p[k]
  {
    var q := p[..k + 1];
    forall j | 0 < j < |q| ensures Follows(m, q[j - 1], q[j]) { assert Follows(m, p[j - 1], p[j]); }
  }

  /** A part other than the last is no block of its own any more. */
  lemma PartIsNoted(m: Ir, z: Ir, w: Parts, c: BlockId, k: nat)
    requires Gathered(m, z, w) && OncePart(w) && c in w && k + 1 < |w[c]|
    ensures w[c][k] in m.blocks && w[c][k] !in z.blocks
  {
    assert MadeOf(m, z, w[c], c);
    if w[c][k] in z.blocks {
      GatheredAt(m, z, w, w[c][k]);
    }
  }

  lemma RowApart(w: Parts, c: BlockId)
    requires OncePart(w) && c in w
    ensures forall i, j | 0 <= i < j < |w[c]| :: w[c][i] != w[c][j]
  {
  }

  lemma FrontIs(m: Ir, z: Ir, list: seq<BlockId>, w: Parts, c: BlockId, e: BlockId)
    requires Consistent(z) && Gathered(m, z, w) && OncePart(w) && c in w && e in w[c]
    requires w == PartsAfter(m, list) && c == EntryAfter(m, list, e)
    requires forall b :: b in z.blocks <==> b in m.blocks && b !in list
    ensures var p := FrontOf(m, list, e); InFront(m, list, e, p) && w[c] != [] && p[0] == w[c][0]
  {
    hide PartsAfter, EntryAfter, Consistent, IsRow, Gathered, OncePart;
    GatheredAt(m, z, w, c);
    forall k | 0 <= k < |w[c]| - 1 ensures w[c][k] in list { PartIsNoted(m, z, w, c, k); }
    NeighboursThere(z, c);
    RowApart(w, c);
    var p, k: nat :| k < |w[c]| && w[c][k] == e && p == w[c][..k + 1] && p == FrontOf(m, list, e);
    hide FrontOf;
    RowStart(m, w[c], k);
  }

  /** What stands in front of the entry is above it in the graph. */
  lemma InFrontAbove(m: Ir, list: seq<BlockId>, e: BlockId, p: seq<BlockId>)
    requires Consistent(m) && InFront(m, list, e, p)
    ensures Above(Whole(m), p)
  {
    hide Consistent, Whole;
    U.WholeKeys(m);
    forall k | 0 < k < |p| ensures Follower(Whole(m), p[k - 1], p[k]) {
      assert Follows(m, p[k - 1], p[k]);
      WholeBlock(m, p[k - 1]);
      NobodyBranches(m, p[k]);
    }
  }

  lemma SameRunsBack(f: Cfg, b: BlockId, g: Cfg, c: BlockId)
    requires SameRuns(f, b, g, c)
    ensures SameRuns(g, c, f, b)
  {
    hide Refines;
    forall s: State ensures G.SameFrom(g, f, At(c, 0, s), At(b, 0, s)) {
      assert G.SameFrom(f, g, At(b, 0, s), At(c, 0, s));
    }
  }

  /** Nothing goes in front of the entry: no block precedes it, or a branch leads to it. */
  predicate EntryGuarded(m: Ir, e: BlockId) {
    e in m.blocks && (m.blocks[e].prev.None? || m.blocks[e].incoming != [])
  }

  /** From the new entry runs what ran from the first of the blocks in front of the old one. */
  lemma EntryRuns(m: Ir, list: seq<BlockId>, e: BlockId)
    requires Consistent(m) && MergesOk(m, list) && e in m.blocks
    ensures Consistent(MergeAll(m, list)) && InFront(m, list, e, FrontOf(m, list, e)) && FrontOf(m, list, e) != []
    ensures SameRuns(Whole(m), FrontOf(m, list, e)[0], Whole(MergeAll(m, list)), EntryAfter(m, list, e))
    ensures EntryGuarded(m, e) ==> FrontOf(m, list, e) == [e]
  {
    hide Consistent, SameRuns, Whole, MergesOk, FrontOf, EntryAfter;
    MergeAllFacts(m, list);
    FrontFacts(m, list, e);
    var p := FrontOf(m, list, e);
    if EntryGuarded(m, e) && |p| > 1 {
      FrontNeighbours(m, p, e);
    }
    assert EntryGuarded(m, e) ==> p == [p[0]];
  }

  lemma FrontNeighbours(m: Ir, p: seq<BlockId>, e: BlockId)
    requires Consistent(m) && IsRow(m, p) && p[|p| - 1] == e && EntryGuarded(m, e)
    ensures |p| == 1
  {
    if |p| > 1 {
      NeighboursThere(m, p[|p| - 2]);
      hide Consistent;
    }
  }

  /** Of a function laid out: the runs from its entry are those from the old entry exactly if, before the
      merging, they are the same from the entry and from the first of the blocks in front of it. */
  lemma LayoutIff(x: Ir, order: seq<BlockId>, list: seq<BlockId>, e: BlockId)
    requires Consistent(x) && BranchesBranch(x) && (forall b | b in order :: b in x.blocks) && e in x.blocks
    requires MergesOk(ChainAll(x, order), list)
    ensures var m := ChainAll(x, order);
            var z, p := MergeAll(m, list), FrontOf(m, list, e);
            && Consistent(m) && Consistent(z) && InFront(m, list, e, p)
            && (SameRuns(Whole(x), e, Whole(z), EntryAfter(m, list, e)) <==> SameRuns(Whole(m), e, Whole(m), p[0]))
            && (EntryGuarded(m, e) ==> p == [e] && SameRuns(Whole(x), e, Whole(z), EntryAfter(m, list, e)))
  {
    hide Consistent, SameRuns, Whole, MergesOk, FrontOf, EntryAfter, InFront, MergeAll, ChainAll, BranchesBranch;
    var m := ChainAll(x, order);
    ChainAllFacts(x, order);
    EntryRuns(m, list, e);
    var f, g, h, q, e' := Whole(x), Whole(m), Whole(MergeAll(m, list)), FrontOf(m, list, e)[0], EntryAfter(m, list, e);
    SameRunsBack(f, e, g, e);
    SameRunsBack(g, q, h, e');
    if SameRuns(g, e, g, q) {
      SameRunsTwice(f, e, g, e, g, q);
      SameRunsTwice(f, e, g, q, h, e');
    }
    if SameRuns(f, e, h, e') {
      SameRunsTwice(g, e, f, e, h, e');
      SameRunsTwice(g, e, h, e', g, q);
    }
    SameRunsSelf(g, e);
  }

  /** If the function's instructions can be told apart and its entry opens with one that executes: exactly
      if no instruction in front of the entry ever executes. */
  lemma LayoutKeepsIff(x: Ir, order: seq<BlockId>, list: seq<BlockId>, e: BlockId)
    requires Consistent(x) && BranchesBranch(x) && (forall b | b in order :: b in x.blocks) && e in x.blocks
    requires MergesOk(ChainAll(x, order), list) && UniqueIds(Whole(x)) && Opens(Whole(x), e)
    ensures var m := ChainAll(x, order);
            && Consistent(m) && Consistent(MergeAll(m, list))
            && (SameRuns(Whole(x), e, Whole(MergeAll(m, list)), EntryAfter(m, list, e)) <==> NeverExecutes(Whole(m), FrontOf(m, list, e)))
  {
    hide *;
    var m := ChainAll(x, order);
    LayoutIff(x, order, list, e);
    ChainAllFacts(x, order);
    ChainAllGraph(x, order, e);
    var p := FrontOf(m, list, e);
    InFrontAbove(m, list, e, p);
    InFrontLast(m, list, e, p);
    WholeComplete(m);
    WholeStill(m);
    NeverExecutesIff(Whole(m), p);
    SameRunsIs(Whole(m), e, p[0]);
  }

  lemma InFrontLast(m: Ir, list: seq<BlockId>, e: BlockId, p: seq<BlockId>)
    requires InFront(m, list, e, p)
    ensures p != [] && p[|p| - 1] == e
  {
  }

  lemma SameRunsIs(f: Cfg, b: BlockId, c: BlockId)
    ensures SameRuns(f, b, f, c) <==> forall s: State :: G.SameFrom(f, f, At(b, 0, s), At(c, 0, s))
  {
  }

  lemma WholeStill(x: Ir)
    requires Consistent(x) && BranchesBranch(x)
    ensures BranchesStill(Whole(x))
  {
    hide Consistent, BranchesBranch, Whole, G.Still;
    U.WholeKeys(x);
    var f := Whole(x);
    forall b, k | b in f.blocks && 0 <= k < |f.blocks[b].instrs| && f.blocks[b].instrs[k].kind.Branch? ensures G.Still(f.blocks[b].instrs[k]) {
      WholeStillAt(x, b, k);
    }
  }

  lemma WholeStillAt(x: Ir, b: BlockId, k: nat)
    requires Consistent(x) && BranchesBranch(x) && b in x.blocks && Whole(x).blocks.Keys == x.blocks.Keys && k < |Whole(x).blocks[b].instrs|
    ensures Whole(x).blocks[b].instrs[k].kind.Branch? ==> G.Still(Whole(x).blocks[b].instrs[k])
  {
    hide Consistent, Whole;
    WholeBlock(x, b);
    InCode(x, x.blocks[b]);
    OpsAt(x, x.blocks[b].instrs);
    var i := x.blocks[b].instrs[k];
    assert i in x.blocks[b].instrs;
    InstrThere(x, b, i);
    hide NodeOk;
    if x.code[i].op.kind.Branch? { BranchOf(x, i); }
  }

  // ---- the list the pass makes ----

  /** With the list of the chaining phase, the blocks in front of the entry are all there are: the first has no
      predecessor that was handled, or a branch leads to it. */
  lemma FrontIsWhole(x: Ir, order: seq<BlockId>, e: BlockId)
    requires Consistent(x) && BranchesBranch(x) && Orderly(x, order) && e in x.blocks
    requires MergesOk(ChainAll(x, order), Listed(x, order))
    ensures var m, p := ChainAll(x, order), FrontOf(ChainAll(x, order), Listed(x, order), e);
            && p != [] && p[0] in m.blocks && e in m.blocks
            && (m.blocks[p[0]].prev.None? || m.blocks[p[0]].incoming != [] || m.blocks[p[0]].prev.value !in order)
            && (p == [e] <==> EntryGuarded(m, e) || m.blocks[e].prev.value !in order)
  {
    hide Consistent, BranchesBranch, Whole, SameRuns, MergesOk, Listed, ChainAll, FrontOf, EntryAfter, MergeAll, Ripe, IsRow;
    var m, list, p := ChainAll(x, order), Listed(x, order), FrontOf(ChainAll(x, order), Listed(x, order), e);
    ChainAllFacts(x, order);
    ListedIsRipe(x, order);
    EntryRuns(m, list, e);
    RowFacts(m, p);
    InFrontLast(m, list, e, p);
    assert if |p| > 1 then p[|p| - 2] in order else p == [e];
    NeighboursThere(m, p[0]);
    NeighboursThere(m, e);
    hide InFront;
    if m.blocks[p[0]].prev.Some? && m.blocks[p[0]].incoming == [] {
      RipeBefore(x, m, m.blocks[p[0]].prev.value, p[0]);
    }
    if |p| > 1 {
      RowEnd(m, p);
      NeighboursThere(m, p[|p| - 2]);
    }
  }

  lemma RowFacts(m: Ir, p: seq<BlockId>)
    requires IsRow(m, p)
    ensures p != [] && p[0] in m.blocks
  {
  }

  lemma RowEnd(m: Ir, p: seq<BlockId>)
    requires IsRow(m, p) && |p| > 1
    ensures Follows(m, p[|p| - 2], p[|p| - 1])
  {
  }

  lemma RipeBefore(x: Ir, m: Ir, b: BlockId, n: BlockId)
    requires b in m.blocks && n in m.blocks && m.blocks[b].next == Some(n) && m.blocks[n].incoming == []
    ensures Ripe(x, m, b)
  {
  }

  // ---- the result as the pass states it ----

  /** From these two blocks of the two functions runs the same. */
  ghost predicate SameFromEntry(x: Ir, e: BlockId, y: Ir, c: BlockId) {
    Consistent(x) && Consistent(y) && SameRuns(Whole(x), e, Whole(y), c)
  }

  ghost function FirstInFront(m: Ir, list: seq<BlockId>, e: BlockId): BlockId {
    if FrontOf(m, list, e) == [] then e else FrontOf(m, list, e)[0]
  }

  ghost predicate FrontNeverExecutes(m: Ir, list: seq<BlockId>, e: BlockId) {
    Consistent(m) && NeverExecutes(Whole(m), FrontOf(m, list, e))
  }

  /** The instructions can be told apart, and the entry opens with one that executes. */
  ghost predicate OpensApart(x: Ir, e: BlockId) {
    Consistent(x) && UniqueIds(Whole(x)) && Opens(Whole(x), e)
  }

  lemma AllLaid(x: Ir, order: seq<BlockId>, list: seq<BlockId>, e: BlockId)
    requires Consistent(x) && BranchesBranch(x) && Orderly(x, order) && e in x.blocks
    requires list == Listed(x, order) && MergesOk(ChainAll(x, order), list)
    ensures var m := ChainAll(x, order);
            var z, e' := MergeAll(m, list), EntryAfter(m, list, e);
            && (SameFromEntry(x, e, z, e') <==> SameFromEntry(m, e, m, FirstInFront(m, list, e)))
            && (EntryGuarded(m, e) || (e in m.blocks && m.blocks[e].prev.value !in order) ==> SameFromEntry(x, e, z, e'))
            && (OpensApart(x, e) ==> (SameFromEntry(x, e, z, e') <==> FrontNeverExecutes(m, list, e)))
            && (Free(x, e, order) ==> SameFromEntry(x, e, z, e'))
    ensures forall b | b in order && EmptyIn(x, b) :: b !in MergeAll(ChainAll(x, order), list).blocks
  {
    hide Consistent, Whole, SameRuns, BranchesBranch, ChainAll, Listed, MergeAll, EntryAfter, FrontOf, MergesOk, EntryGuarded, Merged, InFront, UniqueIds, Opens, NeverExecutes;
    var m := ChainAll(x, order);
    ListedIsRipe(x, order);
    ChainAllFacts(x, order);
    MergeAllFacts(m, list);
    MergedFacts(m, MergeAll(m, list), PartsAfter(m, list), list);
    LayoutIff(x, order, list, e);
    FrontIsWhole(x, order, e);
    SameRunsSelf(Whole(m), e);
    if OpensApart(x, e) { LayoutKeepsIff(x, order, list, e); }
    if Free(x, e, order) {
      FreeAll(x, e, order, |order|);
      assert order[..|order|] == order && order[|order|..] == [];
      FreeGuards(m, e);
    }
  }

  lemma FreeGuards(m: Ir, e: BlockId)
    requires Free(m, e, [])
    ensures EntryGuarded(m, e)
  {
  }

  // ---- the loops of the pass ----

  lemma MergeAllNext(m: Ir, list: seq<BlockId>, n: nat, e: BlockId)
    requires n < |list| && MergesOk(m, list[..n]) && S.Mergeable(MergeAll(m, list[..n]), list[n])
    ensures MergesOk(m, list[..n + 1]) && MergeAll(m, list[..n + 1]) == S.Merge(MergeAll(m, list[..n]), list[n])
    ensures EntryAfter(m, list[..n + 1], e) == EntryStep(MergeAll(m, list[..n]), list[n], EntryAfter(m, list[..n], e))
  {
    var s := list[..n + 1];
    assert s[..n] == list[..n] && s[n] == list[n];
    forall k | 0 <= k < |s| ensures S.Mergeable(MergeAll(m, s[..k]), s[k]) {
      if k < n { assert list[..n][..k] == s[..k] && list[..n][k] == s[k]; }
    }
    hide S.Merge, S.Mergeable, EntryStep;
  }

  lemma CannotMerge(m: Ir, list: seq<BlockId>, n: nat)
    requires n < |list| && !S.Mergeable(MergeAll(m, list[..n]), list[n])
    ensures !MergesOk(m, list)
  {
  }

  lemma MergesStart(m: Ir, e: BlockId)
    ensures MergeAll(m, []) == m && EntryAfter(m, [], e) == e && MergesOk(m, [])
  {
  }

  /** Blocks still to be merged are still there. */
  lemma StillThere(m: Ir, list: seq<BlockId>, n: nat)
    requires Consistent(m) && n <= |list| && MergesOk(m, list[..n])
    requires (forall b | b in list :: b in m.blocks) && forall j, k | 0 <= j < k < |list| :: list[j] != list[k]
    ensures forall k | n <= k < |list| :: list[k] in MergeAll(m, list[..n]).blocks
  {
    hide Consistent, MergeAll, MergesOk, Merged;
    MergeAllFacts(m, list[..n]);
    MergedFacts(m, MergeAll(m, list[..n]), PartsAfter(m, list[..n]), list[..n]);
  }
}

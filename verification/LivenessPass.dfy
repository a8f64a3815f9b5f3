/** The backward worklist that solves the liveness equations. */
module LivenessPass {
  import opened Links
  import opened Machine
  import opened Liveness

  /** Blocks the worklist ever looks at: those that return, the predecessors of any such block,
      and the blocks it falls through to. */
  ghost predicate Closed(f: Cfg, rets: set<BlockId>, cover: set<BlockId>) {
    && rets <= cover
    && forall b | b in cover && b in f.blocks ::
         && Preds(f.blocks[b]) <= cover
         && (f.blocks[b].next.Some? ==> f.blocks[b].next.value in cover)
  }

  /** x has at least what the equations ask for, at every block. */
  ghost predicate PreSolution(a: Abi, f: Cfg, x: LiveMap) {
    forall b | b in f.blocks :: BlockLiveIn(a, f.blocks[b], x) <= LiveInOf(x, b)
  }

  /** The liveness data on the instructions of block b from instruction k on is what the
      equations give, and the dead ones have none. */
  ghost predicate MarkedFrom(a: Abi, f: Cfg, live: LiveMap, marks: map<InstrId, LivenessData>, b: BlockId, k: nat)
    requires b in f.blocks
  {
    forall j | k <= j < |f.blocks[b].instrs| :: MarkedAt(a, f, live, marks, b, j)
  }

  ghost predicate MarkedAt(a: Abi, f: Cfg, live: LiveMap, marks: map<InstrId, LivenessData>, b: BlockId, j: nat)
    requires b in f.blocks && j < |f.blocks[b].instrs|
  {
    var id := f.blocks[b].instrs[j].id;
    if DeadAt(a, f, live, b, j) then id !in marks
    else id in marks && marks[id] == LivenessData(LiveAt(a, f, live, b, j), LiveAt(a, f, live, b, j + 1))
  }

  ghost predicate Marked(a: Abi, f: Cfg, live: LiveMap, marks: map<InstrId, LivenessData>, b: BlockId)
    requires b in f.blocks
  {
    MarkedFrom(a, f, live, marks, b, 0)
  }

  /** The state of the pass: the queue, the per-block flags and data, the data on instructions. */
  datatype Work = Work(
    queue: seq<BlockId>,
    queued: set<BlockId>,
    valid: set<BlockId>,
    live: LiveMap,
    marks: map<InstrId, LivenessData>)

  /** Queued means in the queue exactly once and not valid. */
  ghost predicate QueueOk(w: Work) {
    && (forall b :: b in w.queue <==> b in w.queued)
    && (forall i, j | 0 <= i < j < |w.queue| :: w.queue[i] != w.queue[j])
    && w.queued !! w.valid
  }

  /** What holds between any two blocks taken from the queue. touched are the blocks that have
      been queued at some time. */
  ghost predicate Inv(a: Abi, f: Cfg, rets: set<BlockId>, touched: set<BlockId>, w: Work) {
    FlagsOk(f, rets, touched, w) && DataOk(a, f, touched, w)
  }

  ghost predicate FlagsOk(f: Cfg, rets: set<BlockId>, touched: set<BlockId>, w: Work) {
    && QueueOk(w)
    && w.valid <= w.live.Keys <= touched <= f.blocks.Keys && w.queued <= touched
    && rets <= touched
    && (forall b | b in touched && b !in w.valid && b !in w.queued :: Waiting(f, touched, w, b))
  }

  ghost predicate DataOk(a: Abi, f: Cfg, touched: set<BlockId>, w: Work) {
    && w.live.Keys <= f.blocks.Keys && w.valid <= f.blocks.Keys
    && (forall b | b in w.live :: Analysed(a, f, touched, w, b))
    && (forall b | b in w.valid :: Solved(a, f, w.live, b) && Marked(a, f, w.live, w.marks, b))
    && (forall b | b in f.blocks && b !in w.live :: Ids(f.blocks[b].instrs) !! w.marks.Keys)
  }

  ghost predicate Analysed(a: Abi, f: Cfg, touched: set<BlockId>, w: Work, b: BlockId)
    requires b in w.live
  {
    && b in f.blocks
    && (f.blocks[b].next.Some? ==> f.blocks[b].next.value in w.live)
    && Preds(f.blocks[b]) <= touched
    && w.live[b].liveIn <= BlockLiveIn(a, f.blocks[b], w.live)
    && w.live[b].liveIn <= a.allRegs
  }

  ghost predicate Waiting(f: Cfg, touched: set<BlockId>, w: Work, b: BlockId) {
    && b in f.blocks && b !in w.live && f.blocks[b].next.Some?
    && f.blocks[b].next.value !in w.live && f.blocks[b].next.value in touched
  }

  /** Nothing is touched or alive without need. */
  ghost predicate Least(a: Abi, f: Cfg, rets: set<BlockId>, touched: set<BlockId>, live: LiveMap) {
    && (forall cover | Closed(f, rets, cover) :: touched <= cover)
    && (forall x | PreSolution(a, f, x) :: Below(live, x))
  }

  /** The state after taking block b, whose fallthrough block has no data yet, from the queue. */
  function AfterWait(w: Work, n: BlockId): Work
    requires w.queue != []
  {
    var b := w.queue[0];
    if n in w.queued - {b}
    then w.(queue := w.queue[1..], queued := w.queued - {b})
    else w.(queue := w.queue[1..] + [n], queued := w.queued - {b} + {n})
  }

  /** The data of b recomputed; everybody who depends on b invalid if b's live_in changed. */
  ghost predicate AfterAnalysis(a: Abi, f: Cfg, w: Work, w': Work)
    requires w.queue != [] && w.queue[0] in f.blocks
  {
    var b := w.queue[0];
    var blk := f.blocks[b];
    var liveIn := BlockLiveIn(a, blk, w.live);
    var stale := if liveIn != LiveInOf(w.live, b) then Preds(blk) else {};
    && w'.live == w.live[b := LivenessData(liveIn, BlockLiveOut(blk, w.live))]
    && w'.valid == w.valid + {b} - stale
    && w'.queued == w.queued - {b} + (Preds(blk) - w'.valid)
    && (forall x :: x in w'.queue <==> x in w'.queued)
    && (forall i, j | 0 <= i < j < |w'.queue| :: w'.queue[i] != w'.queue[j])
    && w'.marks - Ids(blk.instrs) == w.marks - Ids(blk.instrs)
    && Marked(a, f, w.live, w'.marks, b)
  }

  // ---- what a block's equations depend on ----

  lemma {:induction false} LiveBeforeLocal(a: Abi, instrs: seq<Instr>, k: nat, out: set<Reg>, x: LiveMap, y: LiveMap)
    requires forall d | d in Targets(instrs) :: LiveInOf(x, d) == LiveInOf(y, d)
    ensures LiveBefore(a, instrs, k, out, x) == LiveBefore(a, instrs, k, out, y)
    decreases |instrs| - k
  {
    if k < |instrs| {
      LiveBeforeLocal(a, instrs, k + 1, out, x, y);
      if instrs[k].kind.Branch? && instrs[k].kind.edge.Some? {
        assert instrs[k].kind.edge in Edges(instrs);
        assert instrs[k].kind.edge.value in Targets(instrs);
      }
    }
  }

  /** A block that neither branches nor falls through to b does not see b's data change. */
  lemma EquationsLocal(a: Abi, f: Cfg, s: BlockId, b: BlockId, x: LiveMap, y: LiveMap)
    requires WellLinked(f) && s in f.blocks && b in f.blocks
    requires s !in Preds(f.blocks[b]) || LiveInOf(x, b) == LiveInOf(y, b)
    requires forall d | d != b :: LiveInOf(x, d) == LiveInOf(y, d)
    ensures BlockLiveOut(f.blocks[s], x) == BlockLiveOut(f.blocks[s], y)
    ensures forall k | 0 <= k <= |f.blocks[s].instrs| :: LiveAt(a, f, x, s, k) == LiveAt(a, f, y, s, k)
    ensures BlockLiveIn(a, f.blocks[s], x) == BlockLiveIn(a, f.blocks[s], y)
  {
    forall k | 0 <= k <= |f.blocks[s].instrs|
      ensures LiveAt(a, f, x, s, k) == LiveAt(a, f, y, s, k)
    {
      LiveBeforeLocal(a, f.blocks[s].instrs, k, BlockLiveOut(f.blocks[s], x), x, y);
    }
    assert LiveAt(a, f, x, s, 0) == LiveAt(a, f, y, s, 0);
  }

  // ---- the invariant is kept ----

  lemma WaitKeepsQueue(w: Work, n: BlockId)
    requires QueueOk(w) && w.queue != [] && n !in w.valid
    ensures QueueOk(AfterWait(w, n))
  {
    assert forall x :: x in w.queue <==> x == w.queue[0] || x in w.queue[1..];
  }

  lemma WaitKeepsFlags(f: Cfg, rets: set<BlockId>, touched: set<BlockId>, w: Work, n: BlockId)
    requires FlagsOk(f, rets, touched, w) && w.queue != [] && w.queue[0] in f.blocks
    requires f.blocks[w.queue[0]].next == Some(n) && n in f.blocks && n !in w.live && w.queue[0] !in w.live
    ensures FlagsOk(f, rets, touched + {n}, AfterWait(w, n))
  {
    var b, w', touched' := w.queue[0], AfterWait(w, n), touched + {n};
    WaitKeepsQueue(w, n);
    forall x | x in touched' && x !in w'.valid && x !in w'.queued ensures Waiting(f, touched', w', x) {
      assert x != b ==> Waiting(f, touched, w, x);
    }
  }

  lemma WaitKeepsData(a: Abi, f: Cfg, touched: set<BlockId>, w: Work, n: BlockId)
    requires DataOk(a, f, touched, w) && w.queue != []
    ensures DataOk(a, f, touched + {n}, AfterWait(w, n))
  {
    forall x | x in w.live ensures Analysed(a, f, touched + {n}, AfterWait(w, n), x) {
      assert Analysed(a, f, touched, w, x);
    }
  }

  lemma WaitKeepsInv(a: Abi, f: Cfg, rets: set<BlockId>, touched: set<BlockId>, w: Work, n: BlockId)
    requires WellLinked(f) && Inv(a, f, rets, touched, w) && Least(a, f, rets, touched, w.live)
    requires w.queue != [] && w.queue[0] in f.blocks
    requires f.blocks[w.queue[0]].next == Some(n) && n !in w.live
    ensures Inv(a, f, rets, touched + {n}, AfterWait(w, n))
    ensures Least(a, f, rets, touched + {n}, w.live)
  {
    hide Solved, Marked, UniqueIds, Least;
    var b := w.queue[0];
    assert b in w.live ==> Analysed(a, f, touched, w, b);
    WaitKeepsFlags(f, rets, touched, w, n);
    WaitKeepsData(a, f, touched, w, n);
    WaitKeepsLeast(a, f, rets, touched, w, b);
  }

  lemma WaitKeepsLeast(a: Abi, f: Cfg, rets: set<BlockId>, touched: set<BlockId>, w: Work, b: BlockId)
    requires Least(a, f, rets, touched, w.live)
    requires b in touched && b in f.blocks && f.blocks[b].next.Some?
    ensures Least(a, f, rets, touched + {f.blocks[b].next.value}, w.live)
  {
    forall cover | Closed(f, rets, cover) ensures touched + {f.blocks[b].next.value} <= cover {
      assert touched <= cover;
    }
  }

  lemma AnalysisKeepsFlags(a: Abi, f: Cfg, rets: set<BlockId>, touched: set<BlockId>, w: Work, w': Work)
    requires WellLinked(f) && FlagsOk(f, rets, touched, w)
    requires w.queue != [] && w.queue[0] in f.blocks && AfterAnalysis(a, f, w, w')
    ensures FlagsOk(f, rets, touched + Preds(f.blocks[w.queue[0]]), w')
  {
    var b := w.queue[0];
    var touched' := touched + Preds(f.blocks[b]);
    forall x | x in touched' && x !in w'.valid && x !in w'.queued ensures Waiting(f, touched', w', x) {
      assert x != b;
      assert x !in Preds(f.blocks[b]);
      assert Waiting(f, touched, w, x);
    }
  }

  /** Recomputing b never takes a register away. */
  lemma AnalysisGrows(a: Abi, f: Cfg, touched: set<BlockId>, w: Work, w': Work)
    requires MasksIn(a, f) && w.queue != [] && w.queue[0] in f.blocks && AfterAnalysis(a, f, w, w')
    requires forall x | x in w.live :: Analysed(a, f, touched, w, x)
    ensures Below(w.live, w'.live)
    ensures w'.live[w.queue[0]].liveIn <= a.allRegs
  {
    var b := w.queue[0];
    assert b in w.live ==> Analysed(a, f, touched, w, b);
    forall y ensures LiveInOf(w.live, y) <= a.allRegs {
      assert y in w.live ==> Analysed(a, f, touched, w, y);
    }
    LiveBeforeBounded(a, f.blocks[b].instrs, 0, BlockLiveOut(f.blocks[b], w.live), w.live);
  }

  /** So every block still has at most what its equations give. */
  lemma AnalysisKeepsAnalysed(a: Abi, f: Cfg, touched: set<BlockId>, w: Work, w': Work, x: BlockId)
    requires MasksIn(a, f) && w.queue != [] && w.queue[0] in f.blocks && AfterAnalysis(a, f, w, w')
    requires f.blocks[w.queue[0]].next.Some? ==> f.blocks[w.queue[0]].next.value in w.live
    requires forall x | x in w.live :: Analysed(a, f, touched, w, x)
    requires x in w'.live
    ensures Analysed(a, f, touched + Preds(f.blocks[w.queue[0]]), w', x)
  {
    AnalysisGrows(a, f, touched, w, w');
    assert x in w.live ==> Analysed(a, f, touched, w, x);
    BlockMonotone(a, f.blocks[x], w.live, w'.live);
  }

  /** A valid block keeps satisfying its equations. */
  lemma AnalysisKeepsSolved(a: Abi, f: Cfg, w: Work, w': Work, x: BlockId)
    requires WellLinked(f) && w.queue != [] && w.queue[0] in f.blocks && AfterAnalysis(a, f, w, w')
    requires f.blocks[w.queue[0]].next.Some? ==> f.blocks[w.queue[0]].next.value in w.live
    requires x in w'.valid && x in f.blocks
    requires x in w.valid ==> Solved(a, f, w.live, x)
    ensures Solved(a, f, w'.live, x)
  {
    EquationsLocal(a, f, x, w.queue[0], w.live, w'.live);
  }

  /** And so does the data on its instructions. */
  lemma AnalysisKeepsMarked(a: Abi, f: Cfg, w: Work, w': Work, x: BlockId)
    requires WellLinked(f) && w.queue != [] && w.queue[0] in f.blocks && AfterAnalysis(a, f, w, w')
    requires x in w'.valid && x in f.blocks
    requires x in w.valid ==> Marked(a, f, w.live, w.marks, x)
    ensures Marked(a, f, w'.live, w'.marks, x)
  {
    var b := w.queue[0];
    EquationsLocal(a, f, x, b, w.live, w'.live);
    if x != b {
      MarksElsewhere(f, b, x, w.marks, w'.marks);
    }
    forall j | 0 <= j < |f.blocks[x].instrs| ensures MarkedAt(a, f, w'.live, w'.marks, x, j) {
      assert x != b ==> MarkedAt(a, f, w.live, w.marks, x, j);
      assert x == b ==> MarkedAt(a, f, w.live, w'.marks, x, j);
    }
  }

  lemma MarksElsewhere(f: Cfg, b: BlockId, x: BlockId, m: map<InstrId, LivenessData>, m': map<InstrId, LivenessData>)
    requires UniqueIds(f) && b in f.blocks && x in f.blocks && x != b
    requires m' - Ids(f.blocks[b].instrs) == m - Ids(f.blocks[b].instrs)
    ensures forall id | id in Ids(f.blocks[x].instrs) :: (id in m <==> id in m') && (id in m ==> m'[id] == m[id])
    ensures forall k | 0 <= k < |f.blocks[x].instrs| :: f.blocks[x].instrs[k].id in Ids(f.blocks[x].instrs)
  {
    forall id | id in Ids(f.blocks[x].instrs)
      ensures (id in m <==> id in m') && (id in m ==> m'[id] == m[id])
    {
      assert id in m <==> id in m - Ids(f.blocks[b].instrs);
      assert id in m' <==> id in m' - Ids(f.blocks[b].instrs);
    }
  }

  lemma AnalysisKeepsLeast(a: Abi, f: Cfg, rets: set<BlockId>, touched: set<BlockId>, w: Work, w': Work)
    requires Least(a, f, rets, touched, w.live)
    requires w.queue != [] && w.queue[0] in f.blocks && w.queue[0] in touched && AfterAnalysis(a, f, w, w')
    ensures Least(a, f, rets, touched + Preds(f.blocks[w.queue[0]]), w'.live)
  {
    var b := w.queue[0];
    forall cover | Closed(f, rets, cover) ensures touched + Preds(f.blocks[b]) <= cover {
      assert touched <= cover;
    }
    forall x | PreSolution(a, f, x) ensures Below(w'.live, x) {
      assert Below(w.live, x);
      BlockMonotone(a, f.blocks[b], w.live, x);
    }
  }

  lemma AnalysisKeepsData(a: Abi, f: Cfg, touched: set<BlockId>, w: Work, w': Work)
    requires WellLinked(f) && MasksIn(a, f) && DataOk(a, f, touched, w)
    requires w.queue != [] && w.queue[0] in f.blocks && AfterAnalysis(a, f, w, w')
    requires f.blocks[w.queue[0]].next.Some? ==> f.blocks[w.queue[0]].next.value in w.live
    ensures DataOk(a, f, touched + Preds(f.blocks[w.queue[0]]), w')
  {
    var b := w.queue[0];
    forall x | x in w'.live ensures Analysed(a, f, touched + Preds(f.blocks[b]), w', x) {
      AnalysisKeepsAnalysed(a, f, touched, w, w', x);
    }
    forall x | x in w'.valid ensures Solved(a, f, w'.live, x) && Marked(a, f, w'.live, w'.marks, x) {
      AnalysisKeepsSolved(a, f, w, w', x);
      AnalysisKeepsMarked(a, f, w, w', x);
    }
    forall x | x in f.blocks && x !in w'.live ensures Ids(f.blocks[x].instrs) !! w'.marks.Keys {
      MarksElsewhere(f, b, x, w.marks, w'.marks);
    }
  }

  lemma AnalysisKeepsInv(a: Abi, f: Cfg, rets: set<BlockId>, touched: set<BlockId>, w: Work, w': Work)
    requires WellLinked(f) && MasksIn(a, f) && Inv(a, f, rets, touched, w) && Least(a, f, rets, touched, w.live)
    requires w.queue != [] && w.queue[0] in f.blocks && AfterAnalysis(a, f, w, w')
    requires f.blocks[w.queue[0]].next.Some? ==> f.blocks[w.queue[0]].next.value in w.live
    ensures Inv(a, f, rets, touched + Preds(f.blocks[w.queue[0]]), w')
    ensures Least(a, f, rets, touched + Preds(f.blocks[w.queue[0]]), w'.live)
  {
    AnalysisKeepsFlags(a, f, rets, touched, w, w');
    AnalysisKeepsData(a, f, touched, w, w');
    AnalysisKeepsLeast(a, f, rets, touched, w, w');
  }

  // ---- termination ----

  /** Registers that may still become alive somewhere. */
  ghost function Missing(a: Abi, f: Cfg, live: LiveMap): set<(BlockId, Reg)> {
    set b, r | b in f.blocks && r in a.allRegs && r !in LiveInOf(live, b) :: (b, r)
  }

  /** How far the queued blocks are from the ends of their chains. */
  ghost function Weight(queue: seq<BlockId>, rank: map<BlockId, nat>): nat {
    if queue == [] then 0
    else 1 + (if queue[0] in rank then rank[queue[0]] else 0) + Weight(queue[1..], rank)
  }

  lemma {:induction false} WeightAppend(q: seq<BlockId>, b: BlockId, rank: map<BlockId, nat>)
    requires b in rank
    ensures Weight(q + [b], rank) == Weight(q, rank) + 1 + rank[b]
  {
    if q == [] {
      assert q + [b] == [b] && [b][1..] == [];
    } else {
      assert (q + [b])[1..] == q[1..] + [b];
      WeightAppend(q[1..], b, rank);
    }
  }

  /** A register became alive, or a block got its first data, or one more block is valid, or the
      queued blocks are nearer to the ends of their chains. */
  ghost predicate Descends(a: Abi, f: Cfg, rank: map<BlockId, nat>, w: Work, w': Work) {
    || Missing(a, f, w'.live) < Missing(a, f, w.live)
    || (&& Missing(a, f, w'.live) == Missing(a, f, w.live)
        && (|| f.blocks.Keys - w'.live.Keys < f.blocks.Keys - w.live.Keys
            || (&& f.blocks.Keys - w'.live.Keys == f.blocks.Keys - w.live.Keys
                && (|| f.blocks.Keys - w'.valid < f.blocks.Keys - w.valid
                    || (&& f.blocks.Keys - w'.valid == f.blocks.Keys - w.valid
                        && Weight(w'.queue, rank) < Weight(w.queue, rank))))))
  }

  lemma WaitDescends(a: Abi, f: Cfg, rank: map<BlockId, nat>, w: Work)
    requires ChainsEnd(f, rank) && w.queue != [] && w.queue[0] in f.blocks
    requires f.blocks[w.queue[0]].next.Some? && f.blocks[w.queue[0]].next.value in f.blocks
    ensures Descends(a, f, rank, w, AfterWait(w, f.blocks[w.queue[0]].next.value))
  {
    WeightAppend(w.queue[1..], f.blocks[w.queue[0]].next.value, rank);
  }

  lemma AnalysisDescends(a: Abi, f: Cfg, rank: map<BlockId, nat>, touched: set<BlockId>, w: Work, w': Work)
    requires MasksIn(a, f) && w.queue != [] && w.queue[0] in f.blocks && AfterAnalysis(a, f, w, w')
    requires DataOk(a, f, touched, w) && QueueOk(w)
    ensures Descends(a, f, rank, w, w')
  {
    hide WellLinked, MasksIn, Marked, Solved;
    var b := w.queue[0];
    assert b in w.queued && b !in w.valid;
    AnalysisGrows(a, f, touched, w, w');
    if LiveInOf(w'.live, b) != LiveInOf(w.live, b) {
      var r :| r in LiveInOf(w'.live, b) && r !in LiveInOf(w.live, b);
      assert (b, r) in Missing(a, f, w.live) && (b, r) !in Missing(a, f, w'.live);
    } else {
      assert forall x :: LiveInOf(w'.live, x) == LiveInOf(w.live, x);
      assert Missing(a, f, w'.live) == Missing(a, f, w.live);
      if b in w.live {
        assert b in f.blocks.Keys - w.valid && b !in f.blocks.Keys - w'.valid;
      } else {
        assert b in f.blocks.Keys - w.live.Keys && b !in f.blocks.Keys - w'.live.Keys;
      }
    }
  }

  /** What taking one block from the queue does. */
  ghost predicate Processed(a: Abi, f: Cfg, w: Work, w': Work)
    requires w.queue != [] && w.queue[0] in f.blocks
  {
    var next := f.blocks[w.queue[0]].next;
    if next.Some? && next.value !in w.live then w' == AfterWait(w, next.value)
    else AfterAnalysis(a, f, w, w')
  }

  function NewlyTouched(f: Cfg, w: Work): set<BlockId>
    requires w.queue != [] && w.queue[0] in f.blocks
  {
    var next := f.blocks[w.queue[0]].next;
    if next.Some? && next.value !in w.live then {next.value} else Preds(f.blocks[w.queue[0]])
  }

  lemma LinkedBlock(f: Cfg, b: BlockId)
    requires WellLinked(f) && b in f.blocks
    ensures f.blocks[b].next.Some? ==> f.blocks[b].next.value in f.blocks
    ensures DistinctIds(f.blocks[b].instrs)
  {
  }

  lemma ProcessedKeepsInv(a: Abi, f: Cfg, rank: map<BlockId, nat>, rets: set<BlockId>, touched: set<BlockId>, w: Work, w': Work)
    requires WellLinked(f) && MasksIn(a, f) && ChainsEnd(f, rank)
    requires Inv(a, f, rets, touched, w) && Least(a, f, rets, touched, w.live)
    requires w.queue != [] && w.queue[0] in f.blocks && Processed(a, f, w, w')
    ensures Inv(a, f, rets, touched + NewlyTouched(f, w), w')
    ensures Least(a, f, rets, touched + NewlyTouched(f, w), w'.live)
    ensures Descends(a, f, rank, w, w')
  {
    hide WellLinked, MasksIn, ChainsEnd, Least, DataOk, AfterAnalysis, Descends;
    if f.blocks[w.queue[0]].next.Some? && f.blocks[w.queue[0]].next.value !in w.live {
      LinkedBlock(f, w.queue[0]);
      WaitKeepsInv(a, f, rets, touched, w, f.blocks[w.queue[0]].next.value);
      WaitDescends(a, f, rank, w);
    } else {
      AnalysisDescends(a, f, rank, touched, w, w');
      AnalysisKeepsInv(a, f, rets, touched, w, w');
    }
  }

  // ---- the empty queue ----

  /** With nothing queued, a touched block cannot be waiting: its chain would never end. */
  lemma {:induction false} NobodyWaits(a: Abi, f: Cfg, rank: map<BlockId, nat>, rets: set<BlockId>, touched: set<BlockId>, w: Work, b: BlockId)
    requires WellLinked(f) && ChainsEnd(f, rank) && Inv(a, f, rets, touched, w) && w.queued == {}
    requires b in touched
    ensures b in w.valid
    decreases rank[b]
  {
    if b !in w.valid {
      assert Waiting(f, touched, w, b);
      NobodyWaits(a, f, rank, rets, touched, w, f.blocks[b].next.value);
    }
  }

  lemma QueueEmpty(a: Abi, f: Cfg, rank: map<BlockId, nat>, rets: set<BlockId>, touched: set<BlockId>, w: Work)
    requires WellLinked(f) && ChainsEnd(f, rank) && Inv(a, f, rets, touched, w) && w.queue == []
    ensures w.valid == w.live.Keys == touched
    ensures Closed(f, rets, w.live.Keys)
  {
    hide WellLinked, ChainsEnd;
    forall b | b in touched ensures b in w.valid {
      NobodyWaits(a, f, rank, rets, touched, w, b);
    }
    forall b | b in w.live ensures Analysed(a, f, touched, w, b) { }
  }

  function MarkInstr(i: Instr, liveIn: set<Reg>, liveOut: set<Reg>, marks: map<InstrId, LivenessData>): map<InstrId, LivenessData> {
    if IsDead(i, liveOut) then marks - {i.id} else marks[i.id := LivenessData(liveIn, liveOut)]
  }

  lemma MarkStep(a: Abi, f: Cfg, live: LiveMap, marks: map<InstrId, LivenessData>, b: BlockId, k: nat)
    requires b in f.blocks && k < |f.blocks[b].instrs| && DistinctIds(f.blocks[b].instrs)
    requires MarkedFrom(a, f, live, marks, b, k + 1)
    ensures var marks' := MarkInstr(f.blocks[b].instrs[k], LiveAt(a, f, live, b, k), LiveAt(a, f, live, b, k + 1), marks);
            && MarkedFrom(a, f, live, marks', b, k)
            && marks' - Ids(f.blocks[b].instrs) == marks - Ids(f.blocks[b].instrs)
  {
    var instrs := f.blocks[b].instrs;
    var marks' := MarkInstr(instrs[k], LiveAt(a, f, live, b, k), LiveAt(a, f, live, b, k + 1), marks);
    assert instrs[k].id in Ids(instrs);
    forall j | k <= j < |instrs| ensures MarkedAt(a, f, live, marks', b, j) {
      if j > k {
        assert MarkedAt(a, f, live, marks, b, j);
        assert instrs[j].id != instrs[k].id;
      }
    }
  }

  lemma SameLiveIn(a: Abi, f: Cfg, b: BlockId, x: LiveMap, y: LiveMap)
    requires WellLinked(f) && b in f.blocks
    requires forall d :: LiveInOf(x, d) == LiveInOf(y, d)
    ensures BlockLiveOut(f.blocks[b], x) == BlockLiveOut(f.blocks[b], y)
    ensures BlockLiveIn(a, f.blocks[b], x) == BlockLiveIn(a, f.blocks[b], y)
  {
    EquationsLocal(a, f, b, b, x, y);
  }

  lemma SameMarks(a: Abi, f: Cfg, b: BlockId, x: LiveMap, y: LiveMap, marks: map<InstrId, LivenessData>)
    requires WellLinked(f) && b in f.blocks
    requires forall d :: LiveInOf(x, d) == LiveInOf(y, d)
    requires Marked(a, f, y, marks, b)
    ensures Marked(a, f, x, marks, b)
  {
    EquationsLocal(a, f, b, b, x, y);
    forall j | 0 <= j < |f.blocks[b].instrs| ensures MarkedAt(a, f, x, marks, b, j) {
      assert MarkedAt(a, f, y, marks, b, j);
    }
  }

  lemma TakeKeepsQueue(w: Work)
    requires QueueOk(w) && w.queue != []
    ensures QueueOk(w.(queue := w.queue[1..], queued := w.queued - {w.queue[0]}))
    ensures w.queue[0] in w.queued && w.queue[0] !in w.valid
  {
    assert forall x :: x in w.queue <==> x == w.queue[0] || x in w.queue[1..];
  }

  /** LivenessAnalysisPass, with the flags and data the blocks carry for it. */
  /** The analysis starts with the return blocks queued. */
  lemma InvStart(a: Abi, f: Cfg, returnBlocks: seq<BlockId>, w: Work)
    requires w == Work(returnBlocks, Members(returnBlocks), {}, map[], map[])
    requires (forall i, j | 0 <= i < j < |returnBlocks| :: returnBlocks[i] != returnBlocks[j]) && forall b | b in returnBlocks :: b in f.blocks
    ensures Inv(a, f, Members(returnBlocks), Members(returnBlocks), w) && Least(a, f, Members(returnBlocks), Members(returnBlocks), w.live)
  {
  }

  /** What is known of the data when all blocks with data are valid. */
  lemma InvEnd(a: Abi, f: Cfg, rets: set<BlockId>, touched: set<BlockId>, w: Work)
    requires Inv(a, f, rets, touched, w) && Least(a, f, rets, touched, w.live) && w.valid == w.live.Keys == touched
    ensures forall cover | Closed(f, rets, cover) :: w.live.Keys <= cover
    ensures forall b | b in w.live :: Solved(a, f, w.live, b) && w.live[b].liveIn <= a.allRegs
    ensures forall x | PreSolution(a, f, x) :: Below(w.live, x)
    ensures forall b | b in f.blocks :: if b in w.live then Marked(a, f, w.live, w.marks, b) else Ids(f.blocks[b].instrs) !! w.marks.Keys
  {
    forall b | b in w.live ensures w.live[b].liveIn <= a.allRegs {
      assert Analysed(a, f, touched, w, b);
    }
  }

  lemma LiveInIs(live: LiveMap, b: BlockId)
    requires b in live
    ensures LiveInOf(live, b) == live[b].liveIn
  {
  }

  lemma MarkedExplains(a: Abi, f: Cfg, live: LiveMap, marks: map<InstrId, LivenessData>, b: BlockId)
    requires Solved(a, f, live, b) && (b in f.blocks ==> Marked(a, f, live, marks, b))
    ensures b in f.blocks && Explained(a, f, live, marks.Keys, b)
  {
    hide Explained, LiveBefore, DeadAt;
    forall k | 0 <= k < |f.blocks[b].instrs| ensures f.blocks[b].instrs[k].id in marks <==> !DeadAt(a, f, live, b, k) {
      assert MarkedAt(a, f, live, marks, b, k);
    }
    SolvedExplains(a, f, live, marks.Keys, b);
  }

  class LivenessAnalysis {
    const abi: Abi
    const f: Cfg
    var queue: seq<BlockId>
    var queued: set<BlockId>
    var valid: set<BlockId>
    var live: LiveMap
    var marks: map<InstrId, LivenessData>

    ghost function W(): Work reads this { Work(queue, queued, valid, live, marks) }

    /** A fresh analysis: no data anywhere. */
    constructor (abi: Abi, f: Cfg)
      ensures this.abi == abi && this.f == f
      ensures W() == Work([], {}, {}, map[], map[])
    {
      this.abi, this.f := abi, f;
      queue, queued, valid, live, marks := [], {}, {}, map[], map[];
    }

    /** Registers alive before i; i keeps liveness data unless it is dead. */
    method ProcessInstruction(i: Instr, liveOut: set<Reg>) returns (liveIn: set<Reg>)
      modifies this`marks
      ensures liveIn == InstrLiveIn(abi, i, liveOut, live) && Flows(abi, i, liveIn, liveOut, live)
      ensures marks == MarkInstr(i, liveIn, liveOut, old(marks)) && (i.id in marks <==> Matters(i, liveOut))
    {
      InstrFlows(abi, i, liveOut, live);
      DeadMatters(i, liveOut);
      hide Flows, Matters;
      var info := i.EffectiveInfo();
      if !i.kind.Branch? && !i.kind.Call? && !i.kind.Ret? && !info.mayWriteMem {
        var tmp := liveOut;
        tmp := tmp - info.writtenRegs;
        tmp := tmp - info.condWrittenRegs;
        if tmp == liveOut {
          marks := marks - {i.id};
          return liveOut;
        }
      }
      liveIn := liveOut;
      if info.willExecute == True {
        liveIn := liveIn - info.writtenRegs;
      }
      if info.willExecute != False {
        liveIn := liveIn + info.readRegs;
        if i.kind.Ret? {
          liveIn := abi.liveRet;
        }
        if i.kind.Call? {
          liveIn := abi.allRegs;
        }
        if i.kind.Branch? {
          if i.kind.edge.Some? {
            if i.kind.edge.value in live {
              liveIn := liveIn + live[i.kind.edge.value].liveIn;
            }
          } else {
            liveIn := abi.allRegs;
          }
        }
      }
      liveIn := liveIn + info.predicateRegs;
      marks := marks[i.id := LivenessData(liveIn, liveOut)];
    }

    /** Liveness pushed backwards through all instructions of block b. */
    method ProcessInstructions(b: BlockId) returns (liveIn: set<Reg>)
      requires b in live && b in f.blocks && DistinctIds(f.blocks[b].instrs)
      requires live[b].liveOut == BlockLiveOut(f.blocks[b], live)
      modifies this`marks
      ensures liveIn == BlockLiveIn(abi, f.blocks[b], live)
      ensures Marked(abi, f, live, marks, b)
      ensures marks - Ids(f.blocks[b].instrs) == old(marks) - Ids(f.blocks[b].instrs)
    {
      var instrs := f.blocks[b].instrs;
      liveIn := live[b].liveOut;
      var k := |instrs|;
      while k > 0
        invariant 0 <= k <= |instrs|
        invariant liveIn == LiveAt(abi, f, live, b, k)
        invariant MarkedFrom(abi, f, live, marks, b, k)
        invariant marks - Ids(instrs) == old(marks) - Ids(instrs)
      {
        k := k - 1;
        MarkStep(abi, f, live, marks, b, k);
        liveIn := ProcessInstruction(instrs[k], liveIn);
      }
    }

    /** Blocks that see b's live_in are queued again; the invalid ones at any rate. */
    method EnqueuePredecessor(src: BlockId, changed: bool)
      requires QueueOk(W())
      modifies this`queue, this`queued, this`valid
      ensures QueueOk(W())
      ensures valid == if changed then old(valid) - {src} else old(valid)
      ensures queued == old(queued) + ({src} - valid)
    {
      if changed {
        valid := valid - {src};
      }
      if src !in valid && src !in queued {
        queued := queued + {src};
        queue := queue + [src];
      }
    }

    method PropagateBackwards(b: BlockId, changed: bool)
      requires b in f.blocks && QueueOk(W())
      modifies this`queue, this`queued, this`valid
      ensures QueueOk(W())
      ensures valid == old(valid) - (if changed then Preds(f.blocks[b]) else {})
      ensures queued == old(queued) + (Preds(f.blocks[b]) - valid)
    {
      var incoming := f.blocks[b].incoming;
      for n := 0 to |incoming|
        invariant QueueOk(W())
        invariant valid == old(valid) - (if changed then Members(incoming[..n]) else {})
        invariant queued == old(queued) + (Members(incoming[..n]) - valid)
      {
        assert incoming[..n + 1] == incoming[..n] + [incoming[n]];
        EnqueuePredecessor(incoming[n], changed);
      }
      assert incoming[..|incoming|] == incoming;
      if f.blocks[b].prev.Some? {
        EnqueuePredecessor(f.blocks[b].prev.value, changed);
      }
    }
  
    /** The block just taken from the queue. */
    ghost function Taken(b: BlockId): Work reads this {
      Work([b] + queue, queued + {b}, valid, live, marks)
    }

    /** Attach data to b, empty if there was none, and set its live_out. */
    method AttachLiveOut(b: BlockId)
      requires b in f.blocks && (f.blocks[b].next.Some? ==> f.blocks[b].next.value in live)
      modifies this`live
      ensures live == old(live)[b := LivenessData(LiveInOf(old(live), b), BlockLiveOut(f.blocks[b], old(live)))]
      ensures forall d :: LiveInOf(old(live), d) == LiveInOf(live, d)
    {
      var blk := f.blocks[b];
      var liveOut := if blk.next.Some? then live[blk.next.value].liveIn else {};
      if b !in live {
        live := live[b := LivenessData({}, {})];
      }
      live := live[b := live[b].(liveOut := liveOut)];
    }

    /** The new live_in of b. Its data keeps the old one meanwhile, for self-branches. */
    method RecomputeLiveIn(b: BlockId) returns (liveIn: set<Reg>)
      requires WellLinked(f) && b in f.blocks
      requires f.blocks[b].next.Some? ==> f.blocks[b].next.value in live
      modifies this`live, this`marks
      ensures live == old(live)[b := LivenessData(LiveInOf(old(live), b), BlockLiveOut(f.blocks[b], old(live)))]
      ensures liveIn == BlockLiveIn(abi, f.blocks[b], old(live))
      ensures Marked(abi, f, old(live), marks, b)
      ensures marks - Ids(f.blocks[b].instrs) == old(marks) - Ids(f.blocks[b].instrs)
    {
      LinkedBlock(f, b);
      hide WellLinked, Marked, DistinctIds, BlockLiveIn, BlockLiveOut, LiveInOf, Ids;
      AttachLiveOut(b);
      SameLiveIn(abi, f, b, old(live), live);
      liveIn := ProcessInstructions(b);
      SameMarks(abi, f, b, old(live), live, marks);
    }

    /** Recompute the data of b and tell its predecessors. */
    method AnalyzeBlock(b: BlockId)
      requires WellLinked(f) && b in f.blocks && b !in queued && b !in valid && QueueOk(W())
      requires f.blocks[b].next.Some? ==> f.blocks[b].next.value in live
      modifies this`queue, this`queued, this`valid, this`live, this`marks
      ensures AfterAnalysis(abi, f, old(Taken(b)), W())
    {
      hide WellLinked, Marked, BlockLiveIn, BlockLiveOut, LiveInOf, Ids, Preds;
      ghost var w := Taken(b);
      var liveIn := RecomputeLiveIn(b);
      LiveInIs(live, b);
      var changed := false;
      if live[b].liveIn != liveIn {
        live := live[b := live[b].(liveIn := liveIn)];
        changed := true;
      }
      valid := valid + {b};
      PropagateBackwards(b, changed);
      assert w.queued - {b} == old(queued);
    }

    method ProcessBlock(b: BlockId)
      requires WellLinked(f) && b in f.blocks && b !in queued && b !in valid && QueueOk(W())
      requires valid <= live.Keys
      modifies this`queue, this`queued, this`valid, this`live, this`marks
      ensures Processed(abi, f, old(Taken(b)), W())
    {
      assert b !in valid;   // we should not be enqueued twice
      var blk := f.blocks[b];
      if blk.next.Some? && blk.next.value !in live {
        var n := blk.next.value;
        assert n !in valid;
        assert Taken(b).queue[1..] == queue && Taken(b).queued - {b} == queued;
        if n !in queued {
          queued := queued + {n};
          queue := queue + [n];
        }
        return;
      }
      AnalyzeBlock(b);
    }

    /** Take the next block from the queue and process it. */
    method ProcessNext(ghost rets: set<BlockId>, ghost touched: set<BlockId>, ghost rank: map<BlockId, nat>)
        returns (ghost touched': set<BlockId>)
      requires WellLinked(f) && MasksIn(abi, f) && ChainsEnd(f, rank) && queue != []
      requires Inv(abi, f, rets, touched, W()) && Least(abi, f, rets, touched, live)
      modifies this`queue, this`queued, this`valid, this`live, this`marks
      ensures Inv(abi, f, rets, touched', W()) && Least(abi, f, rets, touched', live)
      ensures Descends(abi, f, rank, old(W()), W())
    {
      hide WellLinked, MasksIn, ChainsEnd, Least, DataOk, Processed, Descends;
      ghost var w := W();
      TakeKeepsQueue(w);
      var b := queue[0];
      queue := queue[1..];
      queued := queued - {b};
      assert Taken(b) == w by { assert [b] + queue == w.queue && queued + {b} == w.queued; }
      ProcessBlock(b);
      touched' := touched + NewlyTouched(f, w);
      ProcessedKeepsInv(abi, f, rank, rets, touched, w, W());
    }

    /** Run until nothing is queued. The analysed blocks are the smallest set that contains the
        returning blocks, the predecessors of its members and the blocks they fall through to;
        their data is the least solution of the equations; exactly the dead instructions, and
        those of blocks never analysed, have no liveness data. */
    method HandleFunction(returnBlocks: seq<BlockId>, ghost rank: map<BlockId, nat>)
      requires W() == Work([], {}, {}, map[], map[])
      requires WellLinked(f) && MasksIn(abi, f) && ChainsEnd(f, rank)
      requires returnBlocks != []
      requires forall i, j | 0 <= i < j < |returnBlocks| :: returnBlocks[i] != returnBlocks[j]
      requires forall b | b in returnBlocks :: b in f.blocks
      modifies this`queue, this`queued, this`valid, this`live, this`marks
      ensures Closed(f, Members(returnBlocks), live.Keys)
      ensures forall cover | Closed(f, Members(returnBlocks), cover) :: live.Keys <= cover
      ensures forall b | b in live :: Solved(abi, f, live, b) && live[b].liveIn <= abi.allRegs
      ensures forall x | PreSolution(abi, f, x) :: Below(live, x)
      ensures forall b | b in f.blocks ::
                if b in live then Marked(abi, f, live, marks, b) else Ids(f.blocks[b].instrs) !! marks.Keys
      ensures forall b | b in live :: b in f.blocks && Explained(abi, f, live, marks.Keys, b)
    {
      hide Inv, Least, Explained, Closed, Solved, PreSolution, Below, Marked, WellLinked, MasksIn, ChainsEnd, Ids;
      ghost var rets := Members(returnBlocks);
      for k := 0 to |returnBlocks|
        invariant W() == Work(returnBlocks[..k], Members(returnBlocks[..k]), {}, map[], map[])
      {
        assert returnBlocks[..k + 1] == returnBlocks[..k] + [returnBlocks[k]];
        queued := queued + {returnBlocks[k]};
        queue := queue + [returnBlocks[k]];
      }
      assert returnBlocks[..|returnBlocks|] == returnBlocks;
      ghost var touched := rets;
      InvStart(abi, f, returnBlocks, W());
      while queue != []
        invariant Inv(abi, f, rets, touched, W()) && Least(abi, f, rets, touched, live)
        decreases Missing(abi, f, live), f.blocks.Keys - live.Keys, f.blocks.Keys - valid, Weight(queue, rank)
      {
        touched := ProcessNext(rets, touched, rank);
      }
      QueueEmpty(abi, f, rank, rets, touched, W());
      InvEnd(abi, f, rets, touched, W());
      forall b | b in live ensures b in f.blocks && Explained(abi, f, live, marks.Keys, b) { MarkedExplains(abi, f, live, marks, b); }
    }
  }
}

/** Dead write elimination after a liveness analysis: when it preserves every run, and when not. */
module DeadWritePass {
  import opened Links
  import opened Machine
  import opened Liveness
  import opened LivenessPass
  import opened DeadWrite

  // ---- every block analysed on the way: the runs match ----

  /** Removing the dead instructions preserves a run that stays in analysed blocks: same branch
      decisions, same memory writes, same values in every register the caller reads. */
  lemma EliminationPreserves(a: Abi, f: Cfg, live: LiveMap, keep: set<InstrId>, b: BlockId, s: State)
    requires AllSolved(a, f, live) && KeepsNeeded(a, f, live, keep) && b in live
    requires SoundForever(f, At(b, 0, s))
    requires forall n: nat :: CoveredRun(f, live, n, At(b, 0, s))
    ensures SameBehaviour(a, f, At(b, 0, s), Eliminate(f, keep), At(b, 0, s))
  {
    hide AllSolved, KeepsNeeded, SoundRun, CoveredRun, LiveBefore, Trace;
    var c, g := At(b, 0, s), Eliminate(f, keep);
    assert Related(a, f, live, keep, c, c);
    forall n: nat ensures HasMatch(a, f, n, c, g, c) {
      ForwardSimulation(a, f, live, keep, n, c, c);
      assert Matches(a, f, n, c, g, KeptSteps(f, keep, n, c), c);
    }
    forall m: nat ensures IsMatch(a, f, c, g, m, c) {
      var n := EveryStepOriginates(a, f, live, keep, m, c);
      ForwardSimulation(a, f, live, keep, n, c, c);
      assert Matches(a, f, n, c, g, m, c);
    }
  }

  lemma {:induction false} AllCovered(f: Cfg, live: LiveMap, n: nat, c: Config)
    requires forall b | b in f.blocks :: b in live
    ensures CoveredRun(f, live, n, c)
  {
    if n > 0 {
      AllCovered(f, live, n - 1, Step(f, c));
    }
  }

  // ---- a block never analysed ----

  lemma {:induction false} NothingKept(instrs: seq<Instr>, keep: set<InstrId>, n: nat)
    requires n <= |instrs| && forall k | 0 <= k < |instrs| :: instrs[k].id !in keep
    ensures FilterTo(instrs, keep, n) == []
  {
    if n > 0 {
      NothingKept(instrs, keep, n - 1);
    }
  }

  /** A block never analysed loses all its instructions, and so do the blocks it falls through
      to: control falls off the end of the chain. */
  lemma {:induction false} UncoveredFallsOff(a: Abi, f: Cfg, live: LiveMap, keep: set<InstrId>, rank: map<BlockId, nat>,
      rets: set<BlockId>, b: BlockId, s: State) returns (n: nat)
    requires WellLinked(f) && ChainsEnd(f, rank) && Closed(f, rets, live.Keys)
    requires KeepsNeeded(a, f, live, keep) && b in f.blocks && b !in live
    ensures Run(Eliminate(f, keep), n, At(b, 0, s)) == Stuck
    decreases rank[b]
  {
    var g := Eliminate(f, keep);
    NothingKept(f.blocks[b].instrs, keep, |f.blocks[b].instrs|);
    if f.blocks[b].next.Some? {
      var d := f.blocks[b].next.value;
      assert b in Preds(f.blocks[d]);
      n := UncoveredFallsOff(a, f, live, keep, rank, rets, d, s);
      assert Step(g, At(b, 0, s)) == At(d, 0, s);
      n := n + 1;
    } else {
      assert Run(g, 0, Stuck) == Stuck;
      assert Step(g, At(b, 0, s)) == Stuck;
      n := 1;
    }
  }

  lemma {:induction false} CoveredSoFar(f: Cfg, live: LiveMap, n: nat, c: Config)
    requires forall j: nat | j < n :: InCover(f, live, Run(f, j, c))
    ensures CoveredRun(f, live, n, c)
  {
    if n > 0 {
      assert InCover(f, live, Run(f, 0, c));
      forall j: nat | j < n - 1 ensures InCover(f, live, Run(f, j, Step(f, c))) {
        assert Run(f, j + 1, c) == Run(f, j, Step(f, c));
      }
      CoveredSoFar(f, live, n - 1, Step(f, c));
    }
  }

  /** The first configuration of the run outside the analysed blocks. */
  lemma {:induction false} FirstUncovered(f: Cfg, live: LiveMap, n: nat, c: Config) returns (k: nat)
    requires !InCover(f, live, Run(f, n, c))
    ensures k <= n && !InCover(f, live, Run(f, k, c)) && CoveredRun(f, live, k, c)
  {
    if forall j: nat | j < n :: InCover(f, live, Run(f, j, c)) {
      CoveredSoFar(f, live, n, c);
      k := n;
    } else {
      var j: nat :| j < n && !InCover(f, live, Run(f, j, c));
      k := FirstUncovered(f, live, j, c);
    }
  }

  /** Exactly when elimination is safe: a run that never gets stuck keeps running after the
      elimination if and only if it never enters a block the analysis did not reach. */
  lemma SafeIffCovered(a: Abi, f: Cfg, live: LiveMap, keep: set<InstrId>, rank: map<BlockId, nat>, rets: set<BlockId>, b: BlockId, s: State)
    requires WellLinked(f) && ChainsEnd(f, rank) && Closed(f, rets, live.Keys)
    requires AllSolved(a, f, live) && KeepsNeeded(a, f, live, keep) && b in f.blocks
    requires SoundForever(f, At(b, 0, s))
    requires forall n: nat :: Run(f, n, At(b, 0, s)) != Stuck
    ensures (forall m: nat :: Run(Eliminate(f, keep), m, At(b, 0, s)) != Stuck)
       <==> (forall n: nat :: InCover(f, live, Run(f, n, At(b, 0, s))))
  {
    hide *;
    var c, g := At(b, 0, s), Eliminate(f, keep);
    if n: nat :| !InCover(f, live, Run(f, n, c)) {
      var k := FirstUncovered(f, live, n, c);
      var m := UncoveredRunsStuck(a, f, live, keep, rank, rets, k, c);
    } else {
      forall m: nat ensures Run(g, m, c) != Stuck {
        CoveredNeverStuck(a, f, live, keep, m, c);
      }
    }
  }

  lemma CoveredNeverStuck(a: Abi, f: Cfg, live: LiveMap, keep: set<InstrId>, m: nat, c: Config)
    requires AllSolved(a, f, live) && KeepsNeeded(a, f, live, keep)
    requires c.At? && c.pc == 0 && c.block in f.blocks
    requires SoundForever(f, c)
    requires forall n: nat :: Run(f, n, c) != Stuck
    requires forall n: nat :: InCover(f, live, Run(f, n, c))
    ensures Run(Eliminate(f, keep), m, c) != Stuck
  {
    hide AllSolved, KeepsNeeded, SoundRun, CoveredRun, InCover, Trace, LiveBefore;
    assert InCover(f, live, Run(f, 0, c));
    assert Related(a, f, live, keep, c, c);
    forall j: nat ensures CoveredRun(f, live, j, c) {
      CoveredSoFar(f, live, j, c);
    }
    var n := EveryStepOriginates(a, f, live, keep, m, c);
    ForwardSimulation(a, f, live, keep, n, c, c);
  }

  lemma UncoveredRunsStuck(a: Abi, f: Cfg, live: LiveMap, keep: set<InstrId>, rank: map<BlockId, nat>, rets: set<BlockId>, k: nat, c: Config)
      returns (m: nat)
    requires WellLinked(f) && ChainsEnd(f, rank) && Closed(f, rets, live.Keys)
    requires AllSolved(a, f, live) && KeepsNeeded(a, f, live, keep)
    requires c.At? && c.pc == 0 && c.block in f.blocks && SoundForever(f, c)
    requires CoveredRun(f, live, k, c) && !InCover(f, live, Run(f, k, c))
    ensures Run(Eliminate(f, keep), m, c) == Stuck
  {
    hide WellLinked, ChainsEnd, Closed, AllSolved, Solved, SoundRun, Trace, LiveBefore, InCover;
    var g := Eliminate(f, keep);
    assert Related(a, f, live, keep, c, c);
    ForwardSimulation(a, f, live, keep, k, c, c);
    var j := KeptSteps(f, keep, k, c);
    var d, d' := Run(f, k, c), Run(g, j, c);
    OutsideCover(a, f, live, keep, d, d');
    var l := UncoveredFallsOff(a, f, live, keep, rank, rets, d.block, d'.s);
    RunSplit(g, j, l, c);
    m := j + l;
  }

  lemma OutsideCover(a: Abi, f: Cfg, live: LiveMap, keep: set<InstrId>, d: Config, d': Config)
    requires KeepsNeeded(a, f, live, keep) && Related(a, f, live, keep, d, d') && !InCover(f, live, d)
    ensures d.At? && d.block in f.blocks && d.block !in live && d'.At? && d' == At(d.block, 0, d'.s)
  {
    NothingKept(f.blocks[d.block].instrs, keep, d.pc);
  }

  // ---- the passes ----

  /** The list without the first instruction of that id. */
  function Erase(instrs: seq<Instr>, id: InstrId): seq<Instr> {
    if instrs == [] then []
    else if instrs[0].id == id then instrs[1..]
    else [instrs[0]] + Erase(instrs[1..], id)
  }

  lemma {:induction false} EraseAppend(p: seq<Instr>, q: seq<Instr>, id: InstrId)
    requires forall k | 0 <= k < |p| :: p[k].id != id
    ensures Erase(p + q, id) == p + Erase(q, id)
  {
    if p == [] {
      assert p + q == q;
    } else {
      assert (p + q)[1..] == p[1..] + q;
      EraseAppend(p[1..], q, id);
    }
  }

  lemma {:induction false} EraseFront(p: seq<Instr>, q: seq<Instr>, id: InstrId)
    requires id in Ids(p)
    ensures Erase(p + q, id) == Erase(p, id) + q
  {
    assert (p + q)[1..] == p[1..] + q && (p + q)[0] == p[0];
    if p[0].id != id {
      IdsSplit(p[..1], p[1..]);
      assert p[..1] + p[1..] == p;
      EraseFront(p[1..], q, id);
      assert [p[0]] + (Erase(p[1..], id) + q) == [p[0]] + Erase(p[1..], id) + q;
    }
  }

  lemma IdsSplit(p: seq<Instr>, q: seq<Instr>)
    ensures Ids(p + q) == Ids(p) + Ids(q)
  {
    forall id | id in Ids(p) + Ids(q) ensures id in Ids(p + q) {
      if id in Ids(p) {
        var k :| 0 <= k < |p| && p[k].id == id;
        assert (p + q)[k].id == id;
      } else {
        var k :| 0 <= k < |q| && q[k].id == id;
        assert (p + q)[|p| + k].id == id;
      }
    }
  }

  lemma {:induction false} FilterIds(instrs: seq<Instr>, keep: set<InstrId>, n: nat)
    requires n <= |instrs|
    ensures Ids(FilterTo(instrs, keep, n)) == Ids(instrs[..n]) * keep
  {
    if n > 0 {
      var i := instrs[n - 1];
      FilterIds(instrs, keep, n - 1);
      IdsSplit(instrs[..n - 1], [i]);
      IdsSplit(FilterTo(instrs, keep, n - 1), [i]);
      assert instrs[..n] == instrs[..n - 1] + [i];
      assert Ids([i]) == {i.id} by { assert [i][0] == i; }
    }
  }

  /** Erasing one kept instruction is keeping one id less. */
  lemma {:induction false} EraseFilter(instrs: seq<Instr>, keep: set<InstrId>, id: InstrId, n: nat)
    requires n <= |instrs| && DistinctIds(instrs)
    ensures Erase(FilterTo(instrs, keep, n), id) == FilterTo(instrs, keep - {id}, n)
  {
    if n > 0 {
      EraseFilter(instrs, keep, id, n - 1);
      var p, i := FilterTo(instrs, keep, n - 1), instrs[n - 1];
      FilterIds(instrs, keep, n - 1);
      if i.id in keep && id in Ids(p) {
        assert i.id != id;
        EraseFront(p, [i], id);
      } else if i.id in keep {
        EraseAppend(p, [i], id);
        EraseAppend(p, [], id);
        assert p + [] == p && Erase([], id) == [] && [i][1..] == [];
      }
    }
  }

  lemma {:induction false} FilterSame(instrs: seq<Instr>, k1: set<InstrId>, k2: set<InstrId>, n: nat)
    requires n <= |instrs| && forall k | 0 <= k < |instrs| :: instrs[k].id in k1 <==> instrs[k].id in k2
    ensures FilterTo(instrs, k1, n) == FilterTo(instrs, k2, n)
  {
    if n > 0 {
      FilterSame(instrs, k1, k2, n - 1);
    }
  }

  /** DeadWriteEliminationPass over the instruction lists of the blocks of a function. */
  class DeadWriteElimination {
    var blocks: map<BlockId, seq<Instr>>
    const marks: map<InstrId, LivenessData>
    var instructionsToDelete: seq<(InstrId, BlockId)>

    constructor (f: Cfg, marks: map<InstrId, LivenessData>)
      ensures blocks == InstrLists(f) && this.marks == marks && instructionsToDelete == []
    {
      blocks := map b | b in f.blocks :: f.blocks[b].instrs;
      this.marks := marks;
      instructionsToDelete := [];
    }

    /** An instruction without liveness data is to be deleted. */
    method HandleInstruction(i: Instr, b: BlockId)
      modifies this`instructionsToDelete
      ensures instructionsToDelete == old(instructionsToDelete) + (if i.id in marks then [] else [(i.id, b)])
    {
      if i.id !in marks {
        instructionsToDelete := instructionsToDelete + [(i.id, b)];
      }
    }

    /** removeInstruction of a block: find it, erase it; not to find it is an error. */
    method RemoveInstruction(b: BlockId, id: InstrId)
      requires b in blocks && id in Ids(blocks[b])
      modifies this`blocks
      ensures blocks == old(blocks)[b := Erase(old(blocks)[b], id)]
    {
      var instrs := blocks[b];
      var k := 0;
      while k < |instrs| && instrs[k].id != id
        invariant k <= |instrs| && forall j | 0 <= j < k :: instrs[j].id != id
      {
        k := k + 1;
      }
      assert k < |instrs|;
      assert instrs == instrs[..k] + instrs[k..];
      EraseAppend(instrs[..k], instrs[k..], id);
      blocks := blocks[b := instrs[..k] + instrs[k + 1..]];
    }

    method Collect(order: seq<BlockId>)
      requires Members(order) == blocks.Keys && instructionsToDelete == []
      requires forall i, j | 0 <= i < j < |order| :: order[i] != order[j]
      requires UniqueIn(blocks)
      modifies this`instructionsToDelete
      ensures Collected(blocks, marks.Keys, instructionsToDelete, blocks.Keys, 0, 0)
    {
      for n := 0 to |order|
        invariant Collected(blocks, marks.Keys, instructionsToDelete, Members(order[..n]), 0, 0)
      {
        var b := order[n];
        assert b in Members(order);
        var instrs := blocks[b];
        for k := 0 to |instrs|
          invariant Collected(blocks, marks.Keys, instructionsToDelete, Members(order[..n]), b, k)
        {
          CollectNext(blocks, marks.Keys, instructionsToDelete, Members(order[..n]), b, k);
          HandleInstruction(instrs[k], b);
        }
        assert order[..n + 1] == order[..n] + [b];
        assert instrs[..|instrs|] == instrs;
        assert Members(order[..n + 1]) == Members(order[..n]) + {b};
      }
      assert order[..|order|] == order;
    }

    /** Collect in block order, then delete one by one. What is left of each block are its
        instructions with liveness data. */
    method Run(order: seq<BlockId>)
      requires Members(order) == blocks.Keys && instructionsToDelete == []
      requires forall i, j | 0 <= i < j < |order| :: order[i] != order[j]
      requires UniqueIn(blocks)
      modifies this`blocks, this`instructionsToDelete
      ensures blocks == FilterAll(old(blocks), marks.Keys)
      ensures instructionsToDelete == []
    {
      Collect(order);
      var gone := instructionsToDelete;
      NothingErased(blocks);
      assert gone[..0] == [];
      for m := 0 to |gone|
        invariant Erased(old(blocks), blocks, FirstIds(gone[..m]))
      {
        var (id, b) := gone[m];
        assert gone[m] in gone;
        EraseNext(old(blocks), marks.Keys, gone, m, blocks);
        RemoveInstruction(b, id);
      }
      assert gone[..|gone|] == gone;
      AllDoomedErased(old(blocks), blocks, marks.Keys, gone);
      instructionsToDelete := [];
    }
  }

  function InstrLists(f: Cfg): (lists: map<BlockId, seq<Instr>>)
    ensures lists.Keys == f.blocks.Keys
  {
    map b | b in f.blocks :: f.blocks[b].instrs
  }

  function FilterAll(blocks: map<BlockId, seq<Instr>>, keep: set<InstrId>): (kept: map<BlockId, seq<Instr>>)
    ensures kept.Keys == blocks.Keys
  {
    map b | b in blocks :: Filter(blocks[b], keep)
  }

  ghost predicate UniqueIn(blocks: map<BlockId, seq<Instr>>) {
    && (forall b | b in blocks :: DistinctIds(blocks[b]))
    && (forall b, c | b in blocks && c in blocks && b != c :: Ids(blocks[b]) !! Ids(blocks[c]))
  }

  function Take(instrs: seq<Instr>, k: nat): seq<Instr> {
    if k <= |instrs| then instrs[..k] else instrs
  }

  /** The instruction is not to be kept, and has been seen: its block is done, or it is among the
      first k of block b. */
  predicate Doomed(blocks: map<BlockId, seq<Instr>>, keep: set<InstrId>, done: set<BlockId>, b: BlockId, k: nat, p: (InstrId, BlockId)) {
    && p.1 in blocks && p.0 !in keep
    && if p.1 in done then p.0 in Ids(blocks[p.1]) else p.1 == b && p.0 in Ids(Take(blocks[p.1], k))
  }

  /** gone lists the doomed instructions seen so far, each once. */
  ghost predicate Collected(blocks: map<BlockId, seq<Instr>>, keep: set<InstrId>, gone: seq<(InstrId, BlockId)>,
      done: set<BlockId>, b: BlockId, k: nat)
  {
    && (forall p :: p in gone <==> Doomed(blocks, keep, done, b, k, p))
    && (forall i, j | 0 <= i < j < |gone| :: gone[i].0 != gone[j].0)
  }

  lemma CollectNext(blocks: map<BlockId, seq<Instr>>, keep: set<InstrId>, gone: seq<(InstrId, BlockId)>,
      done: set<BlockId>, b: BlockId, k: nat)
    requires UniqueIn(blocks) && b in blocks && b !in done && k < |blocks[b]|
    requires Collected(blocks, keep, gone, done, b, k)
    ensures var id := blocks[b][k].id;
            Collected(blocks, keep, gone + (if id in keep then [] else [(id, b)]), done, b, k + 1)
  {
    var instrs := blocks[b];
    var id := instrs[k].id;
    var gone' := gone + (if id in keep then [] else [(id, b)]);
    assert instrs[..k + 1] == instrs[..k] + [instrs[k]];
    IdsSplit(instrs[..k], [instrs[k]]);
    assert Ids([instrs[k]]) == {id} by { assert [instrs[k]][0] == instrs[k]; }
    assert id in Ids(instrs) && id !in Ids(instrs[..k]);
    forall p ensures p in gone' <==> Doomed(blocks, keep, done, b, k + 1, p) {
      assert p in gone <==> Doomed(blocks, keep, done, b, k, p);
    }
    forall i | 0 <= i < |gone| ensures gone[i].0 != id {
      assert gone[i] in gone;
      assert Doomed(blocks, keep, done, b, k, gone[i]);
    }
  }

  function FirstIds(gone: seq<(InstrId, BlockId)>): set<InstrId> {
    set p | p in gone :: p.0
  }

  ghost predicate Erased(before: map<BlockId, seq<Instr>>, now: map<BlockId, seq<Instr>>, gone: set<InstrId>) {
    && now.Keys == before.Keys
    && forall b | b in before :: now[b] == Filter(before[b], Ids(before[b]) - gone)
  }

  lemma {:induction false} KeepAll(instrs: seq<Instr>, n: nat)
    requires n <= |instrs|
    ensures FilterTo(instrs, Ids(instrs), n) == instrs[..n]
  {
    if n > 0 {
      KeepAll(instrs, n - 1);
    }
  }

  lemma NextIdFresh(gone: seq<(InstrId, BlockId)>, m: nat)
    requires m < |gone| && forall i, j | 0 <= i < j < |gone| :: gone[i].0 != gone[j].0
    ensures gone[m].0 !in FirstIds(gone[..m])
    ensures FirstIds(gone[..m + 1]) == FirstIds(gone[..m]) + {gone[m].0}
  {
    assert gone[..m + 1] == gone[..m] + [gone[m]];
    forall p | p in gone[..m] ensures p.0 != gone[m].0 {
      var i :| 0 <= i < m && gone[i] == p;
    }
    assert gone[m] in gone[..m + 1];
    forall id | id in FirstIds(gone[..m]) ensures id in FirstIds(gone[..m + 1]) {
      var p :| p in gone[..m] && p.0 == id;
      assert p in gone[..m + 1];
    }
  }

  lemma EraseOne(before: map<BlockId, seq<Instr>>, now: map<BlockId, seq<Instr>>, ids: set<InstrId>, id: InstrId, b: BlockId)
    requires UniqueIn(before) && Erased(before, now, ids)
    requires b in before && id in Ids(before[b]) && id !in ids
    ensures id in Ids(now[b])
    ensures Erased(before, now[b := Erase(now[b], id)], ids + {id})
  {
    FilterIds(before[b], Ids(before[b]) - ids, |before[b]|);
    assert before[b][..|before[b]|] == before[b];
    EraseFilter(before[b], Ids(before[b]) - ids, id, |before[b]|);
    assert Ids(before[b]) - ids - {id} == Ids(before[b]) - (ids + {id});
    forall c | c in before && c != b
      ensures now[c] == Filter(before[c], Ids(before[c]) - (ids + {id}))
    {
      assert Ids(before[c]) - (ids + {id}) == Ids(before[c]) - ids;
    }
  }

  /** The next instruction on the list is still there, and erasing it keeps one id less. */
  lemma EraseNext(before: map<BlockId, seq<Instr>>, keep: set<InstrId>, gone: seq<(InstrId, BlockId)>, m: nat, now: map<BlockId, seq<Instr>>)
    requires UniqueIn(before) && m < |gone| && Collected(before, keep, gone, before.Keys, 0, 0)
    requires Erased(before, now, FirstIds(gone[..m]))
    ensures var (id, b) := gone[m];
            && b in now && id in Ids(now[b])
            && Erased(before, now[b := Erase(now[b], id)], FirstIds(gone[..m + 1]))
  {
    assert gone[m] in gone;
    assert Doomed(before, keep, before.Keys, 0, 0, gone[m]);
    NextIdFresh(gone, m);
    EraseOne(before, now, FirstIds(gone[..m]), gone[m].0, gone[m].1);
  }

  lemma NothingErased(blocks: map<BlockId, seq<Instr>>)
    ensures Erased(blocks, blocks, FirstIds([]))
  {
    forall b | b in blocks ensures blocks[b] == Filter(blocks[b], Ids(blocks[b]) - FirstIds([])) {
      assert Ids(blocks[b]) - FirstIds([]) == Ids(blocks[b]);
      KeepAll(blocks[b], |blocks[b]|);
    }
  }

  lemma AllDoomedErased(before: map<BlockId, seq<Instr>>, now: map<BlockId, seq<Instr>>, keep: set<InstrId>, gone: seq<(InstrId, BlockId)>)
    requires Collected(before, keep, gone, before.Keys, 0, 0) && Erased(before, now, FirstIds(gone))
    ensures now == FilterAll(before, keep)
  {
    forall b | b in before ensures now[b] == Filter(before[b], keep) {
      forall k | 0 <= k < |before[b]|
        ensures before[b][k].id in Ids(before[b]) - FirstIds(gone) <==> before[b][k].id in keep
      {
        var id := before[b][k].id;
        assert id in Ids(before[b]);
        if id in FirstIds(gone) {
          var p :| p in gone && p.0 == id;
          assert Doomed(before, keep, before.Keys, 0, 0, p);
        }
        assert (id, b) in gone <==> Doomed(before, keep, before.Keys, 0, 0, (id, b));
      }
      FilterSame(before[b], Ids(before[b]) - FirstIds(gone), keep, |before[b]|);
    }
  }

  // ---- analysis and elimination together ----

  function Succs(b: Block): set<BlockId> {
    Targets(b.instrs) + (if b.next.Some? then {b.next.value} else {})
  }

  /** A returning block can be reached from b in n hops. */
  ghost predicate LeadsToReturn(f: Cfg, rets: set<BlockId>, n: nat, b: BlockId) {
    && b in f.blocks
    && if n == 0 then b in rets
       else exists d :: d in Succs(f.blocks[b]) && LeadsToReturn(f, rets, n - 1, d)
  }

  ghost predicate Returns(f: Cfg, rets: set<BlockId>, b: BlockId) {
    exists n: nat :: LeadsToReturn(f, rets, n, b)
  }

  /** Blocks that lead to a return are analysed. */
  lemma {:induction false} ReturningIsCovered(f: Cfg, rets: set<BlockId>, cover: set<BlockId>, n: nat, b: BlockId)
    requires WellLinked(f) && Closed(f, rets, cover) && LeadsToReturn(f, rets, n, b)
    ensures b in cover
  {
    hide WellLinked, Preds, Succs;
    if n > 0 {
      var d :| d in Succs(f.blocks[b]) && LeadsToReturn(f, rets, n - 1, d);
      ReturningIsCovered(f, rets, cover, n - 1, d);
      SuccHasPred(f, b, d);
    }
  }

  lemma SuccHasPred(f: Cfg, b: BlockId, d: BlockId)
    requires WellLinked(f) && b in f.blocks && d in Succs(f.blocks[b])
    ensures d in f.blocks && b in Preds(f.blocks[d])
  {
    hide UniqueIds;
  }

  lemma LinkedUnique(f: Cfg)
    requires WellLinked(f)
    ensures UniqueIn(InstrLists(f)) && InstrLists(f).Keys == f.blocks.Keys
  {
    ListsUnique(f);
  }

  lemma ListsUnique(f: Cfg)
    requires UniqueIds(f)
    ensures UniqueIn(InstrLists(f))
  {
    hide Ids, DistinctIds;
    var lists := InstrLists(f);
    assert forall b | b in lists :: lists[b] == f.blocks[b].instrs;
    hide InstrLists;
  }

  lemma MarksAreNeeds(a: Abi, f: Cfg, live: LiveMap, marks: map<InstrId, LivenessData>)
    requires forall b | b in f.blocks ::
               if b in live then Marked(a, f, live, marks, b) else Ids(f.blocks[b].instrs) !! marks.Keys
    ensures KeepsNeeded(a, f, live, marks.Keys)
  {
    forall b, k | b in f.blocks && 0 <= k < |f.blocks[b].instrs|
      ensures f.blocks[b].instrs[k].id in marks.Keys <==> b in live && !DeadAt(a, f, live, b, k)
    {
      assert f.blocks[b].instrs[k].id in Ids(f.blocks[b].instrs);
      if b in live {
        assert Marked(a, f, live, marks, b);
        assert MarkedAt(a, f, live, marks, b, k);
      }
    }
  }

  /** Liveness analysis followed by dead write elimination, on a graph all of whose blocks lead to
      a return: gone are exactly the instructions that are dead by the least solution of the equations,
      and every run of the function, from whatever block, is preserved. */
  method EliminateDeadWrites(a: Abi, f: Cfg, order: seq<BlockId>, returnBlocks: seq<BlockId>, ghost rank: map<BlockId, nat>)
      returns (g: Cfg, ghost live: LiveMap, ghost keep: set<InstrId>)
    requires WellLinked(f) && MasksIn(a, f) && ChainsEnd(f, rank)
    requires Members(order) == f.blocks.Keys && forall i, j | 0 <= i < j < |order| :: order[i] != order[j]
    requires returnBlocks != [] && forall b | b in returnBlocks :: b in f.blocks
    requires forall i, j | 0 <= i < j < |returnBlocks| :: returnBlocks[i] != returnBlocks[j]
    requires forall b | b in f.blocks :: Returns(f, Members(returnBlocks), b)
    ensures g == Eliminate(f, keep) && KeepsNeeded(a, f, live, keep)
    ensures live.Keys == f.blocks.Keys && (forall b | b in f.blocks :: Solved(a, f, live, b))
    ensures forall x | PreSolution(a, f, x) :: Below(live, x)
    ensures forall b | b in f.blocks :: Explained(a, f, live, keep, b)
    ensures forall b, s | b in f.blocks && SoundForever(f, At(b, 0, s)) ::
              SameBehaviour(a, f, At(b, 0, s), g, At(b, 0, s))
  {
    hide *;
    var analysis := new LivenessAnalysis(a, f);
    analysis.HandleFunction(returnBlocks, rank);
    LinkedUnique(f);
    var elimination := new DeadWriteElimination(f, analysis.marks);
    elimination.Run(order);
    g := Cfg(map b | b in f.blocks :: f.blocks[b].(instrs := elimination.blocks[b]));
    RebuiltGraph(f, elimination.blocks, analysis.marks.Keys);
    EliminationIsSafe(a, f, Members(returnBlocks), analysis.live, analysis.marks);
    live, keep := analysis.live, analysis.marks.Keys;
    MarksAreNeeds(a, f, live, analysis.marks);
    AllReturnsCovered(a, f, Members(returnBlocks), live);
  }

  lemma AllReturnsCovered(a: Abi, f: Cfg, rets: set<BlockId>, live: LiveMap)
    requires WellLinked(f) && Closed(f, rets, live.Keys) && (forall b | b in live :: Solved(a, f, live, b))
    requires forall b | b in f.blocks :: Returns(f, rets, b)
    ensures live.Keys == f.blocks.Keys
  {
    hide WellLinked, Closed, Solved, LeadsToReturn;
    SolvedInGraph(a, f, live);
    forall b | b in f.blocks ensures b in live {
      var n: nat :| LeadsToReturn(f, rets, n, b);
      ReturningIsCovered(f, rets, live.Keys, n, b);
    }
  }

  lemma RebuiltGraph(f: Cfg, blocks: map<BlockId, seq<Instr>>, keep: set<InstrId>)
    requires blocks == FilterAll(InstrLists(f), keep)
    ensures blocks.Keys == f.blocks.Keys
    ensures Cfg(map b | b in f.blocks :: f.blocks[b].(instrs := blocks[b])) == Eliminate(f, keep)
  {
    forall b | b in f.blocks ensures blocks[b] == Filter(f.blocks[b].instrs, keep) {
      assert b in blocks;
    }
  }

  lemma EliminationIsSafe(a: Abi, f: Cfg, rets: set<BlockId>, live: LiveMap, marks: map<InstrId, LivenessData>)
    requires WellLinked(f) && MasksIn(a, f) && Closed(f, rets, live.Keys)
    requires forall b | b in live :: Solved(a, f, live, b) && live[b].liveIn <= a.allRegs
    requires forall b | b in f.blocks ::
               if b in live then Marked(a, f, live, marks, b) else Ids(f.blocks[b].instrs) !! marks.Keys
    requires forall b | b in f.blocks :: Returns(f, rets, b)
    ensures forall b, s | b in f.blocks && SoundForever(f, At(b, 0, s)) ::
              SameBehaviour(a, f, At(b, 0, s), Eliminate(f, marks.Keys), At(b, 0, s))
  {
    hide WellLinked, Closed, Solved, Marked, MasksIn, LeadsToReturn, SoundForever, SameBehaviour, KeepsNeeded;
    MarksAreNeeds(a, f, live, marks);
    AllReturnsCovered(a, f, rets, live);
    forall b, s | b in f.blocks && SoundForever(f, At(b, 0, s))
      ensures SameBehaviour(a, f, At(b, 0, s), Eliminate(f, marks.Keys), At(b, 0, s))
    {
      CoveredIsPreserved(a, f, live, marks.Keys, b, s);
    }
  }

  lemma SolvedInGraph(a: Abi, f: Cfg, live: LiveMap)
    requires forall b | b in live :: Solved(a, f, live, b)
    ensures live.Keys <= f.blocks.Keys
  {
    forall b | b in live ensures b in f.blocks {
      assert Solved(a, f, live, b);
    }
  }

  lemma CoveredIsPreserved(a: Abi, f: Cfg, live: LiveMap, keep: set<InstrId>, b: BlockId, s: State)
    requires AllSolved(a, f, live) && KeepsNeeded(a, f, live, keep)
    requires b in f.blocks && forall b | b in f.blocks :: b in live
    requires SoundForever(f, At(b, 0, s))
    ensures SameBehaviour(a, f, At(b, 0, s), Eliminate(f, keep), At(b, 0, s))
  {
    hide AllSolved, KeepsNeeded, SoundForever, SameBehaviour;
    forall n: nat ensures CoveredRun(f, live, n, At(b, 0, s)) {
      AllCovered(f, live, n, At(b, 0, s));
    }
    EliminationPreserves(a, f, live, keep, b, s);
  }

  // ---- a loop without a way out ----

  const NOTHING := Info({}, {}, {}, {}, false, True)
  const LOOP_ABI := Abi({0}, {0, 1})

  /** Block 0 returns unless register 1 is zero; then control goes to block 1, which jumps to itself. */
  function EndlessLoop(): Cfg {
    var jcc := Instr(0, Branch(Some(1)), true, NOTHING.(predicateRegs := {1}), None,
                     (s: State) => s.regs(1) == 0, (s: State) => s);
    var ret := Instr(1, Ret, false, NOTHING, None, (s: State) => true, (s: State) => s);
    var jmp := Instr(2, Branch(Some(1)), false, NOTHING, None, (s: State) => true, (s: State) => s);
    Cfg(map[0 := Block([jcc, ret], None, None, []), 1 := Block([jmp], None, None, [0, 1])])
  }

  lemma {:induction false} LoopsForever(n: nat, c: Config)
    requires c.At? && c.pc == 0 && (c.block == 0 || c.block == 1) && c.s.regs(1) == 0
    ensures Run(EndlessLoop(), n, c) != Stuck && SoundRun(EndlessLoop(), n, c)
  {
    if n > 0 {
      assert Step(EndlessLoop(), c) == At(1, 0, c.s);
      LoopsForever(n - 1, Step(EndlessLoop(), c));
    }
  }

  /** The requirement is not idle: whatever the analysis leaves, elimination breaks this loop,
      which no block of the function leaves. */
  lemma EndlessLoopBreaks(live: LiveMap, keep: set<InstrId>, s: State) returns (m: nat)
    requires AllSolved(LOOP_ABI, EndlessLoop(), live) && KeepsNeeded(LOOP_ABI, EndlessLoop(), live, keep)
    requires Closed(EndlessLoop(), {0}, live.Keys)
    requires forall cover | Closed(EndlessLoop(), {0}, cover) :: live.Keys <= cover
    requires s.regs(1) == 0
    ensures forall n: nat :: Run(EndlessLoop(), n, At(0, 0, s)) != Stuck
    ensures Run(Eliminate(EndlessLoop(), keep), m, At(0, 0, s)) == Stuck
  {
    var f, c := EndlessLoop(), At(0, 0, s);
    forall n: nat ensures Run(f, n, c) != Stuck && SoundRun(f, n, c) {
      LoopsForever(n, c);
    }
    LoopUncovered(live, s);
    EndlessLoopLinked();
    hide *;
    SafeIffCovered(LOOP_ABI, f, live, keep, map[0 := 0, 1 := 0], {0}, 0, s);
    m :| Run(Eliminate(f, keep), m, c) == Stuck;
  }

  lemma LoopUncovered(live: LiveMap, s: State)
    requires forall cover | Closed(EndlessLoop(), {0}, cover) :: live.Keys <= cover
    requires s.regs(1) == 0
    ensures !InCover(EndlessLoop(), live, Run(EndlessLoop(), 1, At(0, 0, s)))
    ensures SoundForever(EndlessLoop(), At(0, 0, s)) && 0 in EndlessLoop().blocks
  {
    var f, c := EndlessLoop(), At(0, 0, s);
    forall n: nat ensures SoundRun(f, n, c) {
      LoopsForever(n, c);
    }
    assert Closed(f, {0}, {0});
    assert 1 !in live;
    assert Step(f, c) == At(1, 0, s);
    assert Run(f, 0, At(1, 0, s)) == At(1, 0, s);
  }

  lemma EndlessLoopTargets()
    ensures Targets(EndlessLoop().blocks[0].instrs) == {1} && Targets(EndlessLoop().blocks[1].instrs) == {1}
    ensures Ids(EndlessLoop().blocks[0].instrs) == {0, 1} && Ids(EndlessLoop().blocks[1].instrs) == {2}
  {
    var p, q := EndlessLoop().blocks[0].instrs, EndlessLoop().blocks[1].instrs;
    assert p[0].kind.edge in Edges(p) && q[0].kind.edge in Edges(q);
    assert p[0].id == 0 && p[1].id == 1 && q[0].id == 2;
  }

  lemma EndlessLoopIds()
    ensures UniqueIds(EndlessLoop())
  {
    EndlessLoopTargets();
    hide Ids;
    assert DistinctIds(EndlessLoop().blocks[0].instrs) && DistinctIds(EndlessLoop().blocks[1].instrs);
  }

  lemma EndlessLoopLinked()
    ensures WellLinked(EndlessLoop()) && ChainsEnd(EndlessLoop(), map[0 := 0, 1 := 0])
  {
    EndlessLoopTargets();
    EndlessLoopIds();
    hide Targets, UniqueIds;
    var f := EndlessLoop();
    assert f.blocks[1].incoming == [0, 1] && f.blocks[0].incoming == [];
    assert 0 in f.blocks[1].incoming && 1 in f.blocks[1].incoming;
  }
}

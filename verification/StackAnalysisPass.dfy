/** The stack analysis pass itself, when its worklist empties, and a function on which it never does. */
module StackAnalysisPass {
  import opened Machine
  import opened Links
  import opened StackAnalysis
  import G = Generated

  // ---- a measure for the queue ----

  /** A reported change lowers the rank of the left side, and no join raises it. */
  ghost predicate Descending<A(!new)>(d: Domain<A>, rank: A -> nat) {
    forall x: A, y: A :: JoinDescends(d, rank, x, y)
  }

  ghost predicate JoinDescends<A>(d: Domain<A>, rank: A -> nat, x: A, y: A) {
    && rank(d.merge(x, y).0) <= rank(x)
    && (d.merge(x, y).1 ==> rank(d.merge(x, y).0) < rank(x))
  }

  /** No block lost its state or gained rank. */
  ghost predicate NoRise<A>(rank: A -> nat, w: Analysis<A>, w': Analysis<A>) {
    && w.entry.Keys <= w'.entry.Keys
    && forall b | b in w.entry :: rank(w'.entry[b]) <= rank(w.entry[b])
  }

  /** Some block got its first state or lost rank. */
  ghost predicate Progress<A>(rank: A -> nat, w: Analysis<A>, w': Analysis<A>) {
    && NoRise(rank, w, w')
    && (w.entry.Keys < w'.entry.Keys || exists b :: Lowered(rank, w, w', b))
  }

  ghost predicate Lowered<A>(rank: A -> nat, w: Analysis<A>, w': Analysis<A>, b: BlockId) {
    b in w.entry && b in w'.entry && rank(w'.entry[b]) < rank(w.entry[b])
  }

  /** Nothing of the kind, and nothing was queued. */
  ghost predicate Quiet<A>(rank: A -> nat, w: Analysis<A>, w': Analysis<A>) {
    NoRise(rank, w, w') && w'.entry.Keys == w.entry.Keys && w'.queue == w.queue && w'.valid == w.valid
  }

  ghost predicate Steps<A>(rank: A -> nat, w: Analysis<A>, w': Analysis<A>) {
    Progress(rank, w, w') || Quiet(rank, w, w')
  }

  lemma ForwardSteps<A(!new)>(d: Domain<A>, rank: A -> nat, w: Analysis<A>, b: BlockId, x: A)
    requires Descending(d, rank)
    ensures Steps(rank, w, Forward(d, w, b, x))
  {
    if b in w.entry {
      assert JoinDescends(d, rank, w.entry[b], x);
      if d.merge(w.entry[b], x).1 {
        assert Lowered(rank, w, Forward(d, w, b, x), b);
      }
    } else {
      assert b in Forward(d, w, b, x).entry;
    }
  }

  lemma StepsTwice<A>(rank: A -> nat, w: Analysis<A>, w1: Analysis<A>, w2: Analysis<A>)
    requires Steps(rank, w, w1) && Steps(rank, w1, w2)
    ensures Steps(rank, w, w2)
  {
    forall b | b in w.entry ensures b in w2.entry && rank(w2.entry[b]) <= rank(w.entry[b]) {
      assert b in w1.entry;
    }
    if b :| Lowered(rank, w, w1, b) {
      assert Lowered(rank, w, w2, b);
    } else if b :| Lowered(rank, w1, w2, b) {
      assert w.entry.Keys < w2.entry.Keys || Lowered(rank, w, w2, b);
    }
  }

  lemma {:induction false} WalkSteps<A(!new)>(d: Domain<A>, rank: A -> nat, keep: set<InstrId>, w: Analysis<A>, instrs: seq<Instr>, k: nat, x: A)
    requires Descending(d, rank)
    ensures Steps(rank, w, Walk(d, keep, w, instrs, k, x).0)
    decreases |instrs| - k
  {
    if k < |instrs| {
      var i := instrs[k];
      var w1 := Handle(d, w, i, x);
      if i.id !in keep {
        WalkSteps(d, rank, keep, w, instrs, k + 1, x);
      } else {
        var w0 := w.(dyn := w.dyn[i.id := d.outcome(i, x)]);
        assert Quiet(rank, w, w0);
        if i.kind.Branch? && i.kind.edge.Some? && d.outcome(i, x) != False {
          ForwardSteps(d, rank, w0, i.kind.edge.value, d.transfer(i, x));
          StepsTwice(rank, w, w0, w1);
        }
        if !Stops(d, i, x) {
          WalkSteps(d, rank, keep, w1, instrs, k + 1, After(d, i, x));
          StepsTwice(rank, w, w1, Walk(d, keep, w1, instrs, k + 1, After(d, i, x)).0);
        }
      }
    }
  }

  ghost function RankSum<A>(rank: A -> nat, order: seq<BlockId>, entry: map<BlockId, A>): nat {
    if order == [] then 0
    else (if order[0] in entry then rank(entry[order[0]]) else 0) + RankSum(rank, order[1..], entry)
  }

  lemma {:induction false} RankSumFalls<A>(rank: A -> nat, order: seq<BlockId>, e: map<BlockId, A>, e': map<BlockId, A>)
    requires e.Keys == e'.Keys && forall b | b in e :: rank(e'[b]) <= rank(e[b])
    ensures RankSum(rank, order, e') <= RankSum(rank, order, e)
    ensures (exists b :: b in order && b in e && rank(e'[b]) < rank(e[b])) ==> RankSum(rank, order, e') < RankSum(rank, order, e)
  {
    if order != [] {
      RankSumFalls(rank, order[1..], e, e');
    }
  }

  /** Blocks still without a state and not looked at in vain yet. */
  ghost function Unseen<A>(f: Cfg, w: Analysis<A>): set<BlockId> {
    f.blocks.Keys - w.entry.Keys - w.valid
  }

  ghost predicate Descends<A>(rank: A -> nat, f: Cfg, order: seq<BlockId>, w: Analysis<A>, w': Analysis<A>) {
    || f.blocks.Keys - w'.entry.Keys < f.blocks.Keys - w.entry.Keys
    || (&& f.blocks.Keys - w'.entry.Keys == f.blocks.Keys - w.entry.Keys
        && (|| RankSum(rank, order, w'.entry) < RankSum(rank, order, w.entry)
            || (&& RankSum(rank, order, w'.entry) == RankSum(rank, order, w.entry)
                && (|| Unseen(f, w') < Unseen(f, w)
                    || (&& Unseen(f, w') == Unseen(f, w)
                        && |w'.queue| < |w.queue|)))))
  }

  lemma {:induction false} RequeueLeaves<A>(w: Analysis<A>, preds: seq<BlockId>)
    ensures Requeue(w, preds).entry == w.entry && Requeue(w, preds).valid <= w.valid
    ensures forall b | b in w.valid && b !in w.entry :: b in Requeue(w, preds).valid
    decreases preds
  {
    if preds != [] {
      var p := preds[0];
      RequeueLeaves(if p !in w.queued && p in w.entry then Enqueue(w.(valid := w.valid - {p}), p) else w, preds[1..]);
    }
  }

  lemma ProgressDescends<A>(rank: A -> nat, f: Cfg, order: seq<BlockId>, w: Analysis<A>, w': Analysis<A>)
    requires Progress(rank, w, w') && w'.entry.Keys <= f.blocks.Keys <= Members(order)
    ensures Descends(rank, f, order, w, w')
  {
    if w.entry.Keys == w'.entry.Keys {
      var b :| Lowered(rank, w, w', b);
      assert b in Members(order);
      RankSumFalls(rank, order, w.entry, w'.entry);
    } else {
      var b :| b in w'.entry && b !in w.entry;
      assert b in f.blocks.Keys - w.entry.Keys && b !in f.blocks.Keys - w'.entry.Keys;
    }
  }

  lemma WalkedSteps<A(!new)>(d: Domain<A>, rank: A -> nat, keep: set<InstrId>, f: Cfg, w: Analysis<A>, b: BlockId, x: A)
    requires Descending(d, rank) && b in f.blocks
    ensures Steps(rank, w, WalkAndFallThrough(d, keep, f, w, b, x))
  {
    var (w1, r) := Walk(d, keep, w, f.blocks[b].instrs, 0, x);
    WalkSteps(d, rank, keep, w, f.blocks[b].instrs, 0, x);
    if r.Some? && f.blocks[b].next.Some? {
      ForwardSteps(d, rank, w1, f.blocks[b].next.value, r.value);
      StepsTwice(rank, w, w1, WalkAndFallThrough(d, keep, f, w, b, x));
    }
  }

  lemma TurnDescends<A(!new)>(d: Domain<A>, rank: A -> nat, keep: set<InstrId>, f: Cfg, order: seq<BlockId>, w: Analysis<A>, seen: map<BlockId, A>)
    requires Descending(d, rank) && SoundJoin(d) && WellLinked(f) && Inv(d, keep, f, w, seen) && w.queue != []
    requires f.blocks.Keys <= Members(order)
    ensures w.queue[0] in f.blocks && Descends(rank, f, order, w, Turn(d, keep, f, w))
  {
    PopKeeps(d, keep, f, w, seen);
    TurnKeepsInv(d, keep, f, w, seen);
    InvKeys(d, keep, f, Turn(d, keep, f, w), NowSeen(w, seen));
    hide Inv, WellLinked, SoundJoin, Descending;
    var b, w0 := w.queue[0], Pop(w).(valid := w.valid + {w.queue[0]});
    if b in w.entry {
      WalkedSteps(d, rank, keep, f, w0, b, w.entry[b]);
      assert Turn(d, keep, f, w) == WalkAndFallThrough(d, keep, f, w0, b, w.entry[b]);
      hide Turn, WalkAndFallThrough;
      QuietOrNot(rank, f, order, w, w0, Turn(d, keep, f, w), b);
    } else {
      StatelessDescends(d, rank, keep, f, order, w);
    }
  }

  lemma StatelessDescends<A>(d: Domain<A>, rank: A -> nat, keep: set<InstrId>, f: Cfg, order: seq<BlockId>, w: Analysis<A>)
    requires w.queue != [] && w.queue[0] in f.blocks && w.queue[0] !in w.valid && w.queue[0] !in w.entry
    ensures Descends(rank, f, order, w, Turn(d, keep, f, w))
  {
    var b, w0, w' := w.queue[0], Pop(w).(valid := w.valid + {w.queue[0]}), Turn(d, keep, f, w);
    var preds := (if f.blocks[b].prev.Some? then [f.blocks[b].prev.value] else []) + f.blocks[b].incoming;
    RequeueLeaves(w0, preds);
    assert w' == Requeue(w0, preds);
    hide Turn, Requeue;
    assert b in Unseen(f, w) && b !in Unseen(f, w');
    assert Unseen(f, w') <= Unseen(f, w);
  }

  lemma InvKeys<A>(d: Domain<A>, keep: set<InstrId>, f: Cfg, w: Analysis<A>, seen: map<BlockId, A>)
    requires Inv(d, keep, f, w, seen)
    ensures w.entry.Keys <= f.blocks.Keys
  {
  }

  lemma QuietOrNot<A>(rank: A -> nat, f: Cfg, order: seq<BlockId>, w: Analysis<A>, w0: Analysis<A>, w': Analysis<A>, b: BlockId)
    requires Steps(rank, w0, w') && w'.entry.Keys <= f.blocks.Keys <= Members(order)
    requires w0.entry == w.entry && w0.valid == w.valid + {b} && b in w.entry && |w0.queue| < |w.queue|
    ensures Descends(rank, f, order, w, w')
  {
    if Progress(rank, w0, w') {
      assert Progress(rank, w, w') by {
        if b' :| Lowered(rank, w0, w', b') { assert Lowered(rank, w, w', b'); }
      }
      ProgressDescends(rank, f, order, w, w');
    } else {
      RankSumFalls(rank, order, w.entry, w'.entry);
      assert Unseen(f, w') == Unseen(f, w);
    }
  }

  // ---- the pass ----

  /** All blocks queued, nothing processed. */
  lemma InvStart<A>(d: Domain<A>, keep: set<InstrId>, f: Cfg, order: seq<BlockId>, entry: map<BlockId, A>)
    requires Members(order) == f.blocks.Keys && entry.Keys <= f.blocks.Keys && forall i, j | 0 <= i < j < |order| :: order[i] != order[j]
    ensures Inv(d, keep, f, Analysis(order, Members(order), {}, entry, map[]), map[])
  {
  }

  lemma IncludesSelf<A>(d: Domain<A>, entry: map<BlockId, A>)
    ensures forall b | b in entry :: Includes(d, b, entry[b], entry[b])
  {
  }

  class StackAnalysisPass<A(!new)> {
    const d: Domain<A>
    const keep: set<InstrId>     // instructions with liveness data
    const f: Cfg
    var queue: seq<BlockId>
    var queued: set<BlockId>
    var valid: set<BlockId>
    var entry: map<BlockId, A>
    var dyn: map<InstrId, TriState>

    ghost function W(): Analysis<A> reads this { Analysis(queue, queued, valid, entry, dyn) }

    /** A fresh analysis: only the entry block has a state. */
    constructor (d: Domain<A>, keep: set<InstrId>, f: Cfg, b: BlockId, x: A)
      ensures this.d == d && this.keep == keep && this.f == f
      ensures W() == Analysis([], {}, {}, map[b := x], map[])
    {
      this.d, this.keep, this.f := d, keep, f;
      queue, queued, valid, entry, dyn := [], {}, {}, map[b := x], map[];
    }

    method EnqueueBlock(b: BlockId)
      modifies this`queue, this`queued
      ensures W() == Enqueue(old(W()), b)
    {
      if b !in queued {
        queued := queued + {b};
        queue := queue + [b];
      }
    }

    method ForwardStateToBlock(b: BlockId, x: A)
      modifies this`queue, this`queued, this`valid, this`entry
      ensures W() == Forward(d, old(W()), b, x)
    {
      if b in entry {
        var (m, changed) := d.merge(entry[b], x);
        entry := entry[b := m];
        if changed {
          valid := valid - {b};
          EnqueueBlock(b);
        }
      } else {
        entry := entry[b := x];
        valid := valid - {b};
        EnqueueBlock(b);
      }
    }

    /** Emulate, attach the outcome, follow a branch. True if nothing after it is executed. */
    method HandleInstruction(i: Instr, x: A) returns (next: A, stop: bool)
      modifies this`queue, this`queued, this`valid, this`entry, this`dyn
      ensures i.id !in keep ==> W() == old(W()) && next == x && !stop
      ensures i.id in keep ==>
                W() == Handle(d, old(W()), i, x) && stop == Stops(d, i, x) && (!stop ==> next == After(d, i, x))
    {
      if i.id !in keep {
        return x, false;
      }
      var outcome := d.outcome(i, x);
      dyn := dyn[i.id := outcome];
      next := d.transfer(i, x);
      stop := false;
      if i.kind.Call? {
        next := d.nasty(next);
      } else if i.kind.Branch? && i.kind.edge.Some? {
        match outcome
        case True =>
          ForwardStateToBlock(i.kind.edge.value, next);
          stop := true;
        case Unknown => ForwardStateToBlock(i.kind.edge.value, next);
        case False =>
      }
    }

    /** All instructions of a block; the state at the end, if it gets there. */
    method WalkInstructions(instrs: seq<Instr>, x: A) returns (r: Option<A>)
      modifies this`queue, this`queued, this`valid, this`entry, this`dyn
      ensures (W(), r) == Walk(d, keep, old(W()), instrs, 0, x)
    {
      var state := x;
      for k := 0 to |instrs|
        invariant Walk(d, keep, W(), instrs, k, state) == Walk(d, keep, old(W()), instrs, 0, x)
      {
        ghost var w := W();
        var next, stop := HandleInstruction(instrs[k], state);
        if stop {
          return None;
        }
        assert Walk(d, keep, W(), instrs, k + 1, next) == Walk(d, keep, w, instrs, k, state);
        state := next;
      }
      r := Some(state);
    }

    method RequeuePredecessors(preds: seq<BlockId>)
      modifies this`queue, this`queued, this`valid
      ensures W() == Requeue(old(W()), preds)
    {
      var n := 0;
      assert preds[0..] == preds;
      while n < |preds|
        invariant 0 <= n <= |preds|
        invariant Requeue(W(), preds[n..]) == Requeue(old(W()), preds)
      {
        var p := preds[n];
        assert preds[n..][1..] == preds[n + 1..];
        if p !in queued && p in entry {
          valid := valid - {p};
          EnqueueBlock(p);
        }
        n := n + 1;
      }
    }

    method ProcessBlock(b: BlockId)
      requires b in f.blocks
      modifies this`queue, this`queued, this`valid, this`entry, this`dyn
      ensures W() == StackAnalysis.ProcessBlock(d, keep, f, old(W()), b)
    {
      if b in valid {
        return;
      }
      valid := valid + {b};
      var blk := f.blocks[b];
      if b !in entry {
        RequeuePredecessors((if blk.prev.Some? then [blk.prev.value] else []) + blk.incoming);
        return;
      }
      var r := WalkInstructions(blk.instrs, entry[b]);
      if r.Some? && blk.next.Some? {
        ForwardStateToBlock(blk.next.value, r.value);
      }
    }

    method ProcessNext()
      requires queue != [] && queue[0] in f.blocks
      modifies this`queue, this`queued, this`valid, this`entry, this`dyn
      ensures W() == Turn(d, keep, f, old(W()))
    {
      var b := queue[0];
      queue := queue[1..];
      queued := queued - {b};
      ProcessBlock(b);
    }

    /** Queue all blocks, the entry block among them, then run until the queue is empty. With a join
        that lowers a rank whenever it reports a change this ends, and what it ends with is sound. */
    method ProcessFunction(order: seq<BlockId>, ghost rank: A -> nat) returns (ghost seen: map<BlockId, A>)
      requires WellLinked(f) && SoundJoin(d) && Descending(d, rank)
      requires queue == [] && queued == {} && valid == {} && dyn == map[]
      requires entry.Keys <= Members(order) == f.blocks.Keys
      requires forall i, j | 0 <= i < j < |order| :: order[i] != order[j]
      modifies this`queue, this`queued, this`valid, this`entry, this`dyn
      ensures Finished(d, keep, f, W(), seen)
      ensures forall b | b in old(entry) :: b in entry && Includes(d, b, entry[b], old(entry)[b])
      ensures G.Generates(d, keep, f, old(entry), entry)
    {
      hide Inv, WellLinked, SoundJoin, Descending, Finished, Includes, G.Generates;
      for n := 0 to |order|
        invariant W() == Analysis(order[..n], Members(order[..n]), {}, old(entry), map[])
      {
        assert order[..n + 1] == order[..n] + [order[n]];
        EnqueueBlock(order[n]);
      }
      assert order[..|order|] == order;
      seen := map[];
      InvStart(d, keep, f, order, old(entry));
      IncludesSelf(d, old(entry));
      G.GeneratesItself(d, keep, f, entry);
      while queue != []
        invariant Inv(d, keep, f, W(), seen)
        invariant forall b | b in old(entry) :: b in entry && Includes(d, b, entry[b], old(entry)[b])
        invariant G.Generates(d, keep, f, old(entry), entry)
        decreases f.blocks.Keys - entry.Keys, RankSum(rank, order, entry), Unseen(f, W()), |queue|
      {
        seen := Next(order, rank, seen, old(entry));
      }
      EmptyQueueFinishes(d, keep, f, W(), seen);
    }

    method Next(ghost order: seq<BlockId>, ghost rank: A -> nat, ghost seen: map<BlockId, A>, ghost entry0: map<BlockId, A>)
        returns (ghost seen': map<BlockId, A>)
      requires WellLinked(f) && SoundJoin(d) && Descending(d, rank) && f.blocks.Keys <= Members(order)
      requires Inv(d, keep, f, W(), seen) && queue != []
      requires forall b | b in entry0 :: b in entry && Includes(d, b, entry[b], entry0[b])
      requires G.Generates(d, keep, f, entry0, entry)
      modifies this`queue, this`queued, this`valid, this`entry, this`dyn
      ensures Inv(d, keep, f, W(), seen') && Descends(rank, f, order, old(W()), W())
      ensures forall b | b in entry0 :: b in entry && Includes(d, b, entry[b], entry0[b])
      ensures G.Generates(d, keep, f, entry0, entry)
    {
      ghost var w := W();
      TurnKeepsInv(d, keep, f, w, seen);
      TurnDescends(d, rank, keep, f, order, w, seen);
      G.TurnGenerates(d, keep, f, entry0, Pop(w), w.queue[0]);
      hide G.Generates;
      hide Inv, WellLinked, SoundJoin, Descending, Descends, Turn;
      ProcessNext();
      seen' := NowSeen(w, seen);
      forall b | b in entry0 ensures b in entry && Includes(d, b, entry[b], entry0[b]) {
        IncludesTwice(d, b, entry[b], w.entry[b], entry0[b]);
      }
    }
  }

  lemma IncludesTwice<A>(d: Domain<A>, b: BlockId, x: A, y: A, z: A)
    requires Includes(d, b, x, y) && Includes(d, b, y, z)
    ensures Includes(d, b, x, z)
  {
  }
}

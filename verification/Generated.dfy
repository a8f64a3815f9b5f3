/** The forward analysis hands on nothing but what can get there: entry states are made by joins from what the open ways out
    of blocks bring. */
module Generated {
  import opened Machine
  import opened Links
  import opened StackAnalysis

  /** Past an instruction: as it is without liveness data; otherwise emulated, a call with what it may do besides, and not at
      all past a branch to a known block that is sure to be taken. */
  ghost predicate Passes<A(!new)>(d: Domain<A>, keep: set<InstrId>, i: Instr, y: A, y': A) {
    if i.id !in keep then y' == y
    else !(i.kind.Branch? && i.kind.edge.Some? && d.outcome(i, y) == True)
         && y' == if i.kind.Call? then d.nasty(d.transfer(i, y)) else d.transfer(i, y)
  }

  ghost predicate Path<A(!new)>(d: Domain<A>, keep: set<InstrId>, instrs: seq<Instr>, ys: seq<A>, k: nat) {
    k <= |instrs| && |ys| == k + 1 && forall j | 0 <= j < k :: Passes(d, keep, instrs[j], ys[j], ys[j + 1])
  }

  /** From the start of the instructions in state x to the front of instruction k in state y. */
  ghost predicate Arrives<A(!new)>(d: Domain<A>, keep: set<InstrId>, instrs: seq<Instr>, x: A, k: nat, y: A)
    requires k <= |instrs|
  {
    exists ys: seq<A> :: Path(d, keep, instrs, ys, k) && ys[0] == x && ys[k] == y
  }

  /** Instruction k, met in state y, may branch to block c, in state z. */
  ghost predicate Branches<A(!new)>(d: Domain<A>, keep: set<InstrId>, i: Instr, y: A, c: BlockId, z: A) {
    i.id in keep && i.kind == Branch(Some(c)) && d.outcome(i, y) != False && z == d.transfer(i, y)
  }

  /** A block entered in state x brings z to block c: by a branch, or by falling through. */
  ghost predicate Brings<A(!new)>(d: Domain<A>, keep: set<InstrId>, blk: Block, x: A, c: BlockId, z: A) {
    || (exists k, y :: 0 <= k < |blk.instrs| && Arrives(d, keep, blk.instrs, x, k, y) && Branches(d, keep, blk.instrs[k], y, c, z))
    || (blk.next == Some(c) && Arrives(d, keep, blk.instrs, x, |blk.instrs|, z))
  }

  /** Closed under joins and under what blocks bring. */
  ghost predicate Closed<A(!new)>(d: Domain<A>, keep: set<InstrId>, f: Cfg, q: (BlockId, A) -> bool) {
    && (forall c: BlockId, x: A, y: A | q(c, x) && q(c, y) :: q(c, d.merge(x, y).0))
    && (forall b: BlockId, x: A, c: BlockId, z: A | b in f.blocks && q(b, x) && Brings(d, keep, f.blocks[b], x, c, z) :: q(c, z))
  }

  ghost predicate AllIn<A(!new)>(q: (BlockId, A) -> bool, entry: map<BlockId, A>) {
    forall b | b in entry :: q(b, entry[b])
  }

  /** Whatever is closed and has the states at the start has the states now. */
  ghost predicate Generates<A(!new)>(d: Domain<A>, keep: set<InstrId>, f: Cfg, start: map<BlockId, A>, entry: map<BlockId, A>) {
    forall q: (BlockId, A) -> bool | Closed(d, keep, f, q) && AllIn(q, start) :: AllIn(q, entry)
  }

  lemma GeneratesItself<A(!new)>(d: Domain<A>, keep: set<InstrId>, f: Cfg, start: map<BlockId, A>)
    ensures Generates(d, keep, f, start, start)
  {
    hide Closed;
  }

  lemma ArrivesFirst<A(!new)>(d: Domain<A>, keep: set<InstrId>, instrs: seq<Instr>, x: A)
    ensures Arrives(d, keep, instrs, x, 0, x)
  {
    assert Path(d, keep, instrs, [x], 0);
  }

  lemma ArrivesNext<A(!new)>(d: Domain<A>, keep: set<InstrId>, instrs: seq<Instr>, x: A, k: nat, y: A, y': A)
    requires k < |instrs| && Arrives(d, keep, instrs, x, k, y) && Passes(d, keep, instrs[k], y, y')
    ensures Arrives(d, keep, instrs, x, k + 1, y')
  {
    hide Passes;
    var ys: seq<A> :| Path(d, keep, instrs, ys, k) && ys[0] == x && ys[k] == y;
    var zs := ys + [y'];
    forall j | 0 <= j < k + 1 ensures Passes(d, keep, instrs[j], zs[j], zs[j + 1]) {
      assert j < k ==> Passes(d, keep, instrs[j], ys[j], ys[j + 1]);
    }
    assert Path(d, keep, instrs, zs, k + 1) && zs[0] == x && zs[k + 1] == y';
  }

  lemma PathFront<A(!new)>(d: Domain<A>, keep: set<InstrId>, instrs: seq<Instr>, ys: seq<A>, k: nat)
    requires k > 0 && Path(d, keep, instrs, ys, k)
    ensures Path(d, keep, instrs, ys[..k], k - 1)
  {
    hide Passes;
    forall j | 0 <= j < k - 1 ensures Passes(d, keep, instrs[j], ys[..k][j], ys[..k][j + 1]) {
      assert Passes(d, keep, instrs[j], ys[j], ys[j + 1]);
    }
  }

  /** The state the analysis has in front of an instruction is the one that arrives there, and there is no other. */
  lemma {:induction false} ArrivesIff<A(!new)>(d: Domain<A>, keep: set<InstrId>, instrs: seq<Instr>, x: A, k: nat, y: A)
    requires k <= |instrs|
    ensures StateBefore(d, keep, instrs, x, k) == Some(y) <==> Arrives(d, keep, instrs, x, k, y)
  {
    if k == 0 {
      ArrivesFirst(d, keep, instrs, x);
    } else {
      if StateBefore(d, keep, instrs, x, k) == Some(y) {
        var u := StateBefore(d, keep, instrs, x, k - 1).value;
        ArrivesIff(d, keep, instrs, x, k - 1, u);
        ArrivesNext(d, keep, instrs, x, k - 1, u, y);
      }
      if Arrives(d, keep, instrs, x, k, y) {
        var ys: seq<A> :| Path(d, keep, instrs, ys, k) && ys[0] == x && ys[k] == y;
        var u := ys[k - 1];
        assert Passes(d, keep, instrs[k - 1], ys[k - 1], ys[k - 1 + 1]);
        PathFront(d, keep, instrs, ys, k);
        assert ys[..k][0] == x && ys[..k][k - 1] == u;
        ArrivesIff(d, keep, instrs, x, k - 1, u);
      }
    }
  }

  lemma ForwardIn<A(!new)>(d: Domain<A>, keep: set<InstrId>, f: Cfg, q: (BlockId, A) -> bool, w: Analysis<A>, c: BlockId, z: A)
    requires Closed(d, keep, f, q) && AllIn(q, w.entry) && q(c, z)
    ensures AllIn(q, Forward(d, w, c, z).entry)
  {
    hide Brings;
  }

  lemma {:induction false} WalkIn<A(!new)>(d: Domain<A>, keep: set<InstrId>, f: Cfg, q: (BlockId, A) -> bool, w: Analysis<A>, b: BlockId, x: A, k: nat, y: A)
    requires Closed(d, keep, f, q) && AllIn(q, w.entry) && b in f.blocks && q(b, x)
    requires k <= |f.blocks[b].instrs| && Arrives(d, keep, f.blocks[b].instrs, x, k, y)
    ensures var (w', r) := Walk(d, keep, w, f.blocks[b].instrs, k, y);
            AllIn(q, w'.entry) && (r.Some? ==> Arrives(d, keep, f.blocks[b].instrs, x, |f.blocks[b].instrs|, r.value))
    decreases |f.blocks[b].instrs| - k
  {
    var instrs := f.blocks[b].instrs;
    if k < |instrs| {
      var i := instrs[k];
      hide Closed, Arrives, Forward;
      if i.id !in keep {
        ArrivesNext(d, keep, instrs, x, k, y, y);
        WalkIn(d, keep, f, q, w, b, x, k + 1, y);
      } else {
        HandleIn(d, keep, f, q, w, b, x, k, y);
        if !Stops(d, i, y) {
          ArrivesNext(d, keep, instrs, x, k, y, After(d, i, y));
          WalkIn(d, keep, f, q, Handle(d, w, i, y), b, x, k + 1, After(d, i, y));
        }
      }
    }
  }

  lemma HandleIn<A(!new)>(d: Domain<A>, keep: set<InstrId>, f: Cfg, q: (BlockId, A) -> bool, w: Analysis<A>, b: BlockId, x: A, k: nat, y: A)
    requires Closed(d, keep, f, q) && AllIn(q, w.entry) && b in f.blocks && q(b, x)
    requires k < |f.blocks[b].instrs| && f.blocks[b].instrs[k].id in keep && Arrives(d, keep, f.blocks[b].instrs, x, k, y)
    ensures AllIn(q, Handle(d, w, f.blocks[b].instrs[k], y).entry)
  {
    var i := f.blocks[b].instrs[k];
    hide Arrives, Forward;
    if i.kind.Branch? && i.kind.edge.Some? && d.outcome(i, y) != False {
      var c, z := i.kind.edge.value, d.transfer(i, y);
      assert Branches(d, keep, i, y, c, z);
      assert Brings(d, keep, f.blocks[b], x, c, z);
      ForwardIn(d, keep, f, q, w.(dyn := w.dyn[i.id := d.outcome(i, y)]), c, z);
    }
  }

  lemma {:induction false} RequeueKeeps<A(!new)>(w: Analysis<A>, preds: seq<BlockId>)
    ensures Requeue(w, preds).entry == w.entry
    decreases preds
  {
    if preds != [] {
      var p := preds[0];
      RequeueKeeps(if p !in w.queued && p in w.entry then Enqueue(w.(valid := w.valid - {p}), p) else w, preds[1..]);
    }
  }

  lemma TurnIn<A(!new)>(d: Domain<A>, keep: set<InstrId>, f: Cfg, q: (BlockId, A) -> bool, w: Analysis<A>, b: BlockId)
    requires Closed(d, keep, f, q) && AllIn(q, w.entry) && b in f.blocks
    ensures AllIn(q, ProcessBlock(d, keep, f, w, b).entry)
  {
    var blk := f.blocks[b];
    hide Closed, Forward, Walk, Requeue, Arrives;
    if b !in w.valid {
      var w0 := w.(valid := w.valid + {b});
      if b !in w.entry {
        RequeueKeeps(w0, (if blk.prev.Some? then [blk.prev.value] else []) + blk.incoming);
      } else {
        var x := w.entry[b];
        ArrivesFirst(d, keep, blk.instrs, x);
        WalkIn(d, keep, f, q, w0, b, x, 0, x);
        var (w1, r) := Walk(d, keep, w0, blk.instrs, 0, x);
        if r.Some? && blk.next.Some? {
          FallIn(d, keep, f, q, b, x, r.value);
          ForwardIn(d, keep, f, q, w1, blk.next.value, r.value);
        }
      }
    }
  }

  lemma FallIn<A(!new)>(d: Domain<A>, keep: set<InstrId>, f: Cfg, q: (BlockId, A) -> bool, b: BlockId, x: A, z: A)
    requires Closed(d, keep, f, q) && b in f.blocks && q(b, x) && f.blocks[b].next.Some?
    requires Arrives(d, keep, f.blocks[b].instrs, x, |f.blocks[b].instrs|, z)
    ensures q(f.blocks[b].next.value, z)
  {
    hide Arrives;
    assert Brings(d, keep, f.blocks[b], x, f.blocks[b].next.value, z);
  }

  /** Every turn. */
  lemma TurnGenerates<A(!new)>(d: Domain<A>, keep: set<InstrId>, f: Cfg, start: map<BlockId, A>, w: Analysis<A>, b: BlockId)
    requires Generates(d, keep, f, start, w.entry) && b in f.blocks
    ensures Generates(d, keep, f, start, ProcessBlock(d, keep, f, w, b).entry)
  {
    hide ProcessBlock, Closed, AllIn;
    forall q: (BlockId, A) -> bool | Closed(d, keep, f, q) && AllIn(q, start) ensures AllIn(q, ProcessBlock(d, keep, f, w, b).entry) {
      TurnIn(d, keep, f, q, w, b);
    }
  }
}

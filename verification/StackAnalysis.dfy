/** The forward worklist of the stack analysis, over any domain of abstract states: its steps as
    functions, what every step keeps, and soundness over whole runs. */
module StackAnalysis {
  import opened Machine
  import opened Links

  /** An abstract domain: the states an element stands for before instruction k of block b, the emulation of an
      instruction (registers marked dead included), the outcome of its predicate, what a call leaves, and the join
      with its report of a change. */
  datatype Domain<!A> = Domain(
    ghost gamma: (BlockId, nat, A, State) -> bool,
    transfer: (Instr, A) -> A,
    outcome: (Instr, A) -> TriState,
    nasty: A -> A,
    merge: (A, A) -> (A, bool))

  /** Emulation covers what the kept instructions of the function do, predicted outcomes come true, and where nothing is
      emulated a state stands for as much behind as in front. */
  ghost predicate SoundEmulation<A(!new)>(d: Domain<A>, keep: set<InstrId>, f: Cfg) {
    forall b | b in f.blocks :: BlockSound(d, keep, b, f.blocks[b])
  }

  ghost predicate BlockSound<A(!new)>(d: Domain<A>, keep: set<InstrId>, b: BlockId, blk: Block) {
    InstrsSound(d, keep, b, blk.instrs) && (blk.next.Some? ==> FallSound(d, b, |blk.instrs|, blk.next.value))
  }

  ghost predicate InstrsSound<A(!new)>(d: Domain<A>, keep: set<InstrId>, b: BlockId, instrs: seq<Instr>) {
    forall k | 0 <= k < |instrs| :: if instrs[k].id in keep then InstrSound(d, b, k, instrs[k]) else SkipSound(d, b, k)
  }

  ghost predicate InstrSound<A(!new)>(d: Domain<A>, b: BlockId, k: nat, i: Instr) {
    forall x: A, s: State {:trigger EmulationSound(d, b, k, i, x, s)} | d.gamma(b, k, x, s) :: EmulationSound(d, b, k, i, x, s)
  }

  ghost predicate SkipSound<A(!new)>(d: Domain<A>, b: BlockId, k: nat) {
    forall x: A, s: State | d.gamma(b, k, x, s) :: d.gamma(b, k + 1, x, s)
  }

  ghost predicate FallSound<A(!new)>(d: Domain<A>, b: BlockId, k: nat, n: BlockId) {
    forall x: A, s: State | d.gamma(b, k, x, s) :: d.gamma(n, 0, x, s)
  }

  /** The join covers both sides, and one without a change stands for no more states than the left. */
  ghost predicate SoundJoin<A(!new)>(d: Domain<A>) {
    forall b: BlockId, x: A, y: A :: JoinSound(d, b, x, y)
  }

  /** Of instruction i in front of which are states x and s: where control goes on, what the emulation leaves stands for
      what the instruction does. */
  ghost predicate EmulationSound<A>(d: Domain<A>, b: BlockId, k: nat, i: Instr, x: A, s: State) {
    && (!i.holds(s) || i.kind.Plain? ==> d.gamma(b, k + 1, d.transfer(i, x), i.Effect(s)) && d.gamma(b, k + 1, After(d, i, x), i.Effect(s)))
    && (i.holds(s) && i.kind.Branch? && i.kind.edge.Some? ==> d.gamma(i.kind.edge.value, 0, d.transfer(i, x), i.Effect(s)))
    && (d.outcome(i, x) == True ==> i.holds(s))
    && (d.outcome(i, x) == False ==> !i.holds(s))
  }

  ghost predicate JoinSound<A>(d: Domain<A>, b: BlockId, x: A, y: A) {
    && Includes(d, b, d.merge(x, y).0, x) && Includes(d, b, d.merge(x, y).0, y)
    && (!d.merge(x, y).1 ==> Includes(d, b, x, d.merge(x, y).0))
  }

  /** Every state y stands for at the start of block b, x stands for too. */
  ghost predicate Includes<A>(d: Domain<A>, b: BlockId, x: A, y: A) {
    forall s: State | d.gamma(b, 0, y, s) :: d.gamma(b, 0, x, s)
  }

  /** What the pass works on: queue and flags, entry states, outcomes attached to instructions. */
  datatype Analysis<A> = Analysis(
    queue: seq<BlockId>,
    queued: set<BlockId>,
    valid: set<BlockId>,
    entry: map<BlockId, A>,
    dyn: map<InstrId, TriState>)

  function Enqueue<A>(w: Analysis<A>, b: BlockId): Analysis<A> {
    if b in w.queued then w else w.(queue := w.queue + [b], queued := w.queued + {b})
  }

  /** Hand a state to a block: copied if it had none, merged otherwise. */
  function Forward<A>(d: Domain<A>, w: Analysis<A>, b: BlockId, x: A): Analysis<A> {
    if b in w.entry then
      var (m, changed) := d.merge(w.entry[b], x);
      var w' := w.(entry := w.entry[b := m]);
      if changed then Enqueue(w'.(valid := w.valid - {b}), b) else w'
    else
      Enqueue(w.(entry := w.entry[b := x], valid := w.valid - {b}), b)
  }

  /** The state after an instruction the pass handles. */
  function After<A>(d: Domain<A>, i: Instr, x: A): A {
    if i.kind.Call? then d.nasty(d.transfer(i, x)) else d.transfer(i, x)
  }

  /** The instruction is a branch to a known block that the state says is taken for sure. */
  function Stops<A>(d: Domain<A>, i: Instr, x: A): bool {
    i.kind.Branch? && i.kind.edge.Some? && d.outcome(i, x) == True
  }

  /** Instruction by instruction. Those without liveness data are skipped. The result is the state
      at the end, none if a branch is taken for sure. */
  function Walk<A>(d: Domain<A>, keep: set<InstrId>, w: Analysis<A>, instrs: seq<Instr>, k: nat, x: A): (Analysis<A>, Option<A>)
    decreases |instrs| - k
  {
    if k >= |instrs| then (w, Some(x))
    else
      var i := instrs[k];
      if i.id !in keep then Walk(d, keep, w, instrs, k + 1, x)
      else
        var w1 := Handle(d, w, i, x);
        if Stops(d, i, x) then (w1, None) else Walk(d, keep, w1, instrs, k + 1, After(d, i, x))
  }

  /** Attach the outcome; follow a branch that may be taken. */
  function Handle<A>(d: Domain<A>, w: Analysis<A>, i: Instr, x: A): Analysis<A> {
    var w1 := w.(dyn := w.dyn[i.id := d.outcome(i, x)]);
    if i.kind.Branch? && i.kind.edge.Some? && d.outcome(i, x) != False
    then Forward(d, w1, i.kind.edge.value, d.transfer(i, x)) else w1
  }

  /** A block nobody has forwarded a state to: those who could are queued again. */
  function Requeue<A>(w: Analysis<A>, preds: seq<BlockId>): Analysis<A>
    decreases preds
  {
    if preds == [] then w
    else
      var p := preds[0];
      Requeue(if p !in w.queued && p in w.entry then Enqueue(w.(valid := w.valid - {p}), p) else w, preds[1..])
  }

  function ProcessBlock<A>(d: Domain<A>, keep: set<InstrId>, f: Cfg, w: Analysis<A>, b: BlockId): Analysis<A>
    requires b in f.blocks
  {
    var blk := f.blocks[b];
    if b in w.valid then w
    else
      var w0 := w.(valid := w.valid + {b});
      if b !in w.entry then Requeue(w0, (if blk.prev.Some? then [blk.prev.value] else []) + blk.incoming)
      else
        var (w1, x) := Walk(d, keep, w0, blk.instrs, 0, w.entry[b]);
        if x.Some? && blk.next.Some? then Forward(d, w1, blk.next.value, x.value) else w1
  }

  function Pop<A>(w: Analysis<A>): Analysis<A>
    requires w.queue != []
  {
    w.(queue := w.queue[1..], queued := w.queued - {w.queue[0]})
  }

  /** One turn of the worklist. */
  function Turn<A>(d: Domain<A>, keep: set<InstrId>, f: Cfg, w: Analysis<A>): Analysis<A>
    requires w.queue != [] && w.queue[0] in f.blocks
  {
    ProcessBlock(d, keep, f, Pop(w), w.queue[0])
  }

  // ---- what a processed block guarantees ----

  /** The state before instruction k of a block entered with x, none if never got there. */
  function StateBefore<A>(d: Domain<A>, keep: set<InstrId>, instrs: seq<Instr>, x: A, k: nat): Option<A>
    requires k <= |instrs|
  {
    if k == 0 then Some(x)
    else match StateBefore(d, keep, instrs, x, k - 1)
      case None => None
      case Some(y) =>
        var i := instrs[k - 1];
        if i.id !in keep then Some(y) else if Stops(d, i, y) then None else Some(After(d, i, y))
  }

  /** Instruction k was handled in state y: its outcome is recorded, and a target it may branch to
      has an entry state that includes what the branch brings. */
  ghost predicate HandledAt<A>(d: Domain<A>, w: Analysis<A>, i: Instr, y: A) {
    && i.id in w.dyn && w.dyn[i.id] == d.outcome(i, y)
    && (i.kind.Branch? && i.kind.edge.Some? && d.outcome(i, y) != False ==>
          i.kind.edge.value in w.entry && Includes(d, i.kind.edge.value, w.entry[i.kind.edge.value], d.transfer(i, y)))
  }

  /** The first n instructions have been handled for a block entered with x. */
  ghost predicate Handled<A>(d: Domain<A>, keep: set<InstrId>, w: Analysis<A>, instrs: seq<Instr>, x: A, n: nat)
    requires n <= |instrs|
  {
    forall k | 0 <= k < n && instrs[k].id in keep && StateBefore(d, keep, instrs, x, k).Some? ::
      HandledAt(d, w, instrs[k], StateBefore(d, keep, instrs, x, k).value)
  }

  /** So has the fallthrough. */
  ghost predicate Covers<A>(d: Domain<A>, keep: set<InstrId>, f: Cfg, w: Analysis<A>, b: BlockId, x: A)
    requires b in f.blocks
  {
    var blk := f.blocks[b];
    && Handled(d, keep, w, blk.instrs, x, |blk.instrs|)
    && var end := StateBefore(d, keep, blk.instrs, x, |blk.instrs|);
       (end.Some? && blk.next.Some? ==> blk.next.value in w.entry && Includes(d, blk.next.value, w.entry[blk.next.value], end.value))
  }

  ghost predicate FlagsOk<A>(w: Analysis<A>) {
    && (forall b :: b in w.queue <==> b in w.queued)
    && (forall i, j | 0 <= i < j < |w.queue| :: w.queue[i] != w.queue[j])
    && w.queued !! w.valid
    && (forall b | b in w.entry && b !in w.valid :: b in w.queued)
  }

  /** A block with an entry state is valid or queued; if valid, it has been processed with a state
      seen[b] that stands for at least as much as its entry state does now. Only instructions with
      liveness data, of blocks with an entry state, carry an outcome. */
  ghost predicate Inv<A>(d: Domain<A>, keep: set<InstrId>, f: Cfg, w: Analysis<A>, seen: map<BlockId, A>) {
    && FlagsOk(w) && w.queued <= f.blocks.Keys && w.entry.Keys <= f.blocks.Keys
    && (forall b | b in w.entry && b in w.valid :: Processed(d, keep, f, w, seen, b))
    && w.dyn.Keys <= keep
  }

  ghost predicate Processed<A>(d: Domain<A>, keep: set<InstrId>, f: Cfg, w: Analysis<A>, seen: map<BlockId, A>, b: BlockId) {
    b in f.blocks && b in seen && b in w.entry && Includes(d, b, seen[b], w.entry[b]) && Covers(d, keep, f, w, b, seen[b])
  }

  // ---- handing states on ----

  /** What handing states on may change: entry states grow, a block stays valid only if its own does
      not, and outcomes change only for the instructions with these ids. */
  ghost predicate Extends<A>(d: Domain<A>, w: Analysis<A>, w': Analysis<A>, ids: set<InstrId>) {
    && (forall b | b in w.entry :: b in w'.entry && Includes(d, b, w'.entry[b], w.entry[b]))
    && w'.valid <= w.valid
    && (forall b | b in w'.valid && b in w'.entry :: b in w.entry && Includes(d, b, w.entry[b], w'.entry[b]))
    && w'.dyn - ids == w.dyn - ids
  }

  lemma ExtendsTwice<A>(d: Domain<A>, w: Analysis<A>, w1: Analysis<A>, w2: Analysis<A>, ids: set<InstrId>, ids': set<InstrId>, all: set<InstrId>)
    requires Extends(d, w, w1, ids) && Extends(d, w1, w2, ids') && ids + ids' <= all
    ensures Extends(d, w, w2, all)
  {
    forall b | b in w.entry ensures b in w2.entry && Includes(d, b, w2.entry[b], w.entry[b]) {
      assert Includes(d, b, w1.entry[b], w.entry[b]) && Includes(d, b, w2.entry[b], w1.entry[b]);
    }
    forall b | b in w2.valid && b in w2.entry ensures b in w.entry && Includes(d, b, w.entry[b], w2.entry[b]) {
      assert Includes(d, b, w1.entry[b], w2.entry[b]) && Includes(d, b, w.entry[b], w1.entry[b]);
    }
    DynTwice(w.dyn, w1.dyn, w2.dyn, ids, ids', all);
  }

  lemma DynTwice(x: map<InstrId, TriState>, y: map<InstrId, TriState>, z: map<InstrId, TriState>, ids: set<InstrId>, ids': set<InstrId>, all: set<InstrId>)
    requires y - ids == x - ids && z - ids' == y - ids' && ids + ids' <= all
    ensures z - all == x - all
  {
    assert x - all == x - ids - all && y - all == y - ids - all;
    assert y - all == y - ids' - all && z - all == z - ids' - all;
  }

  lemma EnqueueFlags<A>(w: Analysis<A>, b: BlockId)
    requires forall x :: x in w.queue <==> x in w.queued
    requires forall i, j | 0 <= i < j < |w.queue| :: w.queue[i] != w.queue[j]
    ensures var w' := Enqueue(w, b);
            && (forall x :: x in w'.queue <==> x in w'.queued)
            && (forall i, j | 0 <= i < j < |w'.queue| :: w'.queue[i] != w'.queue[j])
  {
  }

  lemma ForwardExtends<A(!new)>(d: Domain<A>, w: Analysis<A>, b: BlockId, x: A)
    requires SoundJoin(d) && FlagsOk(w)
    ensures var w' := Forward(d, w, b, x);
            && Extends(d, w, w', {}) && FlagsOk(w') && w'.dyn == w.dyn
            && w'.entry.Keys == w.entry.Keys + {b} && w'.queued <= w.queued + {b}
            && Includes(d, b, w'.entry[b], x)
  {
    var w' := Forward(d, w, b, x);
    if b in w.entry {
      assert JoinSound(d, b, w.entry[b], x);
      EnqueueFlags(w.(entry := w.entry[b := d.merge(w.entry[b], x).0], valid := w.valid - {b}), b);
    } else {
      EnqueueFlags(w.(entry := w.entry[b := x], valid := w.valid - {b}), b);
    }
  }

  lemma HandledStays<A>(d: Domain<A>, w: Analysis<A>, w': Analysis<A>, ids: set<InstrId>, i: Instr, y: A)
    requires HandledAt(d, w, i, y) && Extends(d, w, w', ids) && i.id !in ids
    ensures HandledAt(d, w', i, y)
  {
    assert i.id in w.dyn - ids;
    assert (w'.dyn - ids)[i.id] == (w.dyn - ids)[i.id];
    if i.kind.Branch? && i.kind.edge.Some? && d.outcome(i, y) != False {
      var t := i.kind.edge.value;
      assert Includes(d, t, w.entry[t], d.transfer(i, y)) && Includes(d, t, w'.entry[t], w.entry[t]);
    }
  }

  lemma HandleExtends<A(!new)>(d: Domain<A>, w: Analysis<A>, i: Instr, x: A)
    requires SoundJoin(d) && FlagsOk(w)
    ensures var w' := Handle(d, w, i, x);
            && Extends(d, w, w', {i.id}) && FlagsOk(w') && HandledAt(d, w', i, x)
            && w'.dyn.Keys == w.dyn.Keys + {i.id}
            && w'.queued <= w.queued + EdgeOf(i) && w'.entry.Keys <= w.entry.Keys + EdgeOf(i)
  {
    var w1 := w.(dyn := w.dyn[i.id := d.outcome(i, x)]);
    assert Extends(d, w, w1, {i.id});
    if i.kind.Branch? && i.kind.edge.Some? && d.outcome(i, x) != False {
      ForwardExtends(d, w1, i.kind.edge.value, d.transfer(i, x));
      ExtendsTwice(d, w, w1, Handle(d, w, i, x), {i.id}, {}, {i.id});
    }
  }

  function EdgeOf(i: Instr): set<BlockId> {
    if i.kind.Branch? && i.kind.edge.Some? then {i.kind.edge.value} else {}
  }

  /** The walk over a block leaves every instruction it got to handled. */
  lemma {:induction false} WalkHandles<A(!new)>(d: Domain<A>, keep: set<InstrId>, w: Analysis<A>, instrs: seq<Instr>, x: A, k: nat, y: A, all: set<BlockId>)
    requires SoundJoin(d) && FlagsOk(w) && DistinctIds(instrs) && k <= |instrs|
    requires StateBefore(d, keep, instrs, x, k) == Some(y) && Handled(d, keep, w, instrs, x, k)
    requires w.queued <= all && w.entry.Keys <= all && w.dyn.Keys <= keep && Targets(instrs) <= all
    ensures var (w', r) := Walk(d, keep, w, instrs, k, y);
            && Extends(d, w, w', Ids(instrs[k..])) && FlagsOk(w')
            && w'.queued <= all && w'.entry.Keys <= all && w'.dyn.Keys <= keep
            && r == StateBefore(d, keep, instrs, x, |instrs|)
            && Handled(d, keep, w', instrs, x, |instrs|)
    decreases |instrs| - k
  {
    if k == |instrs| {
      ExtendsSelf(d, w, Ids(instrs[k..]));
    } else if instrs[k].id !in keep {
      assert Handled(d, keep, w, instrs, x, k + 1);
      WalkHandles(d, keep, w, instrs, x, k + 1, y, all);
      WidenIds(d, keep, w, instrs, k, y);
    } else {
      WalkStep(d, keep, w, instrs, x, k, y, all);
      var i := instrs[k];
      var w1 := Handle(d, w, i, y);
      if Stops(d, i, y) {
        StoppedEarly(d, keep, w1, instrs, x, k + 1);
      } else {
        WalkHandles(d, keep, w1, instrs, x, k + 1, After(d, i, y), all);
        IdsFrom(instrs, k);
        ExtendsTwice(d, w, w1, Walk(d, keep, w1, instrs, k + 1, After(d, i, y)).0, {i.id}, Ids(instrs[k + 1..]), Ids(instrs[k..]));
      }
    }
  }

  lemma ExtendsSelf<A>(d: Domain<A>, w: Analysis<A>, ids: set<InstrId>)
    ensures Extends(d, w, w, ids)
  {
  }

  lemma IdsFrom(instrs: seq<Instr>, k: nat)
    requires k < |instrs|
    ensures Ids(instrs[k..]) == {instrs[k].id} + Ids(instrs[k + 1..])
  {
    var a, b := instrs[k..], instrs[k + 1..];
    assert a == [instrs[k]] + b;
    forall id | id in Ids(b) ensures id in Ids(a) {
      var j :| 0 <= j < |b| && b[j].id == id;
      assert a[j + 1].id == id;
    }
    assert a[0].id in Ids(a);
    forall id | id in Ids(a) && id != instrs[k].id ensures id in Ids(b) {
      var j :| 0 <= j < |a| && a[j].id == id;
      assert b[j - 1].id == id;
    }
  }

  lemma WidenIds<A>(d: Domain<A>, keep: set<InstrId>, w: Analysis<A>, instrs: seq<Instr>, k: nat, y: A)
    requires k < |instrs| && Extends(d, w, Walk(d, keep, w, instrs, k + 1, y).0, Ids(instrs[k + 1..]))
    ensures Extends(d, w, Walk(d, keep, w, instrs, k + 1, y).0, Ids(instrs[k..]))
  {
    IdsFrom(instrs, k);
    var w' := Walk(d, keep, w, instrs, k + 1, y).0;
    DynTwice(w.dyn, w'.dyn, w'.dyn, Ids(instrs[k + 1..]), {}, Ids(instrs[k..]));
  }

  /** The kept instruction k. */
  lemma WalkStep<A(!new)>(d: Domain<A>, keep: set<InstrId>, w: Analysis<A>, instrs: seq<Instr>, x: A, k: nat, y: A, all: set<BlockId>)
    requires SoundJoin(d) && FlagsOk(w) && DistinctIds(instrs) && k < |instrs| && instrs[k].id in keep
    requires StateBefore(d, keep, instrs, x, k) == Some(y) && Handled(d, keep, w, instrs, x, k)
    requires w.queued <= all && w.entry.Keys <= all && w.dyn.Keys <= keep && Targets(instrs) <= all
    ensures var w' := Handle(d, w, instrs[k], y);
            && Extends(d, w, w', {instrs[k].id}) && FlagsOk(w') && Handled(d, keep, w', instrs, x, k + 1)
            && w'.queued <= all && w'.entry.Keys <= all && w'.dyn.Keys <= keep
            && instrs[k].id in Ids(instrs[k..])
            && Extends(d, w, w', Ids(instrs[k..]))
  {
    var i := instrs[k];
    var w' := Handle(d, w, i, y);
    HandleExtends(d, w, i, y);
    if EdgeOf(i) != {} {
      assert i.kind.edge in Edges(instrs);
      assert i.kind.edge.value in Targets(instrs);
    }
    forall j | 0 <= j < k + 1 && instrs[j].id in keep && StateBefore(d, keep, instrs, x, j).Some?
      ensures HandledAt(d, w', instrs[j], StateBefore(d, keep, instrs, x, j).value)
    {
      if j < k {
        HandledStays(d, w, w', {i.id}, instrs[j], StateBefore(d, keep, instrs, x, j).value);
      }
    }
    IdsFrom(instrs, k);
    ExtendsSelf(d, w', {});
    ExtendsTwice(d, w, w', w', {i.id}, {}, Ids(instrs[k..]));
  }

  /** Once stopped, no later instruction is ever reached. */
  lemma {:induction false} NeverReached<A>(d: Domain<A>, keep: set<InstrId>, instrs: seq<Instr>, x: A, k: nat, j: nat)
    requires k <= j <= |instrs| && StateBefore(d, keep, instrs, x, k).None?
    ensures StateBefore(d, keep, instrs, x, j).None?
  {
    if k < j {
      NeverReached(d, keep, instrs, x, k, j - 1);
    }
  }

  lemma StoppedEarly<A>(d: Domain<A>, keep: set<InstrId>, w: Analysis<A>, instrs: seq<Instr>, x: A, k: nat)
    requires k <= |instrs| && StateBefore(d, keep, instrs, x, k).None? && Handled(d, keep, w, instrs, x, k)
    ensures Handled(d, keep, w, instrs, x, |instrs|) && StateBefore(d, keep, instrs, x, |instrs|).None?
  {
    forall j | k <= j <= |instrs| ensures StateBefore(d, keep, instrs, x, j).None? {
      NeverReached(d, keep, instrs, x, k, j);
    }
  }

  // ---- one turn keeps the invariant ----

  /** Blocks exist where links point to. */
  lemma LinksStay(f: Cfg, b: BlockId)
    requires WellLinked(f) && b in f.blocks
    ensures Targets(f.blocks[b].instrs) <= f.blocks.Keys && DistinctIds(f.blocks[b].instrs)
    ensures f.blocks[b].next.Some? ==> f.blocks[b].next.value in f.blocks
    ensures f.blocks[b].prev.Some? ==> f.blocks[b].prev.value in f.blocks
    ensures Members(f.blocks[b].incoming) <= f.blocks.Keys
  {
    DistinctAt(f, b);
    LinkedAt(f, b);
    hide *;
  }

  lemma DistinctAt(f: Cfg, b: BlockId)
    requires WellLinked(f) && b in f.blocks
    ensures DistinctIds(f.blocks[b].instrs)
  {
  }

  lemma LinkedAt(f: Cfg, b: BlockId)
    requires WellLinked(f) && b in f.blocks
    ensures Targets(f.blocks[b].instrs) <= f.blocks.Keys
    ensures f.blocks[b].next.Some? ==> f.blocks[b].next.value in f.blocks
    ensures f.blocks[b].prev.Some? ==> f.blocks[b].prev.value in f.blocks
    ensures Members(f.blocks[b].incoming) <= f.blocks.Keys
  {
    hide UniqueIds, Targets;
  }

  lemma OtherIds(f: Cfg, b: BlockId, t: BlockId)
    requires WellLinked(f) && b in f.blocks && t in f.blocks && b != t
    ensures Ids(f.blocks[b].instrs) !! Ids(f.blocks[t].instrs)
  {
  }

  /** A block processed earlier stays so while another one hands states on. */
  lemma ProcessedStays<A>(d: Domain<A>, keep: set<InstrId>, f: Cfg, w: Analysis<A>, w': Analysis<A>, seen: map<BlockId, A>, ids: set<InstrId>, t: BlockId)
    requires Processed(d, keep, f, w, seen, t) && Extends(d, w, w', ids) && t in w'.valid && t in w'.entry
    requires t in f.blocks && ids !! Ids(f.blocks[t].instrs)
    ensures Processed(d, keep, f, w', seen, t)
  {
    assert Includes(d, t, seen[t], w.entry[t]) && Includes(d, t, w.entry[t], w'.entry[t]);
    var blk, x := f.blocks[t], seen[t];
    forall k | 0 <= k < |blk.instrs| && blk.instrs[k].id in keep && StateBefore(d, keep, blk.instrs, x, k).Some?
      ensures HandledAt(d, w', blk.instrs[k], StateBefore(d, keep, blk.instrs, x, k).value)
    {
      assert blk.instrs[k].id in Ids(blk.instrs);
      HandledStays(d, w, w', ids, blk.instrs[k], StateBefore(d, keep, blk.instrs, x, k).value);
    }
    var end := StateBefore(d, keep, blk.instrs, x, |blk.instrs|);
    if end.Some? && blk.next.Some? {
      var n := blk.next.value;
      assert Includes(d, n, w'.entry[n], w.entry[n]) && Includes(d, n, w.entry[n], end.value);
    }
  }

  /** Walking a block and handing its end state on. */
  function WalkAndFallThrough<A>(d: Domain<A>, keep: set<InstrId>, f: Cfg, w: Analysis<A>, b: BlockId, x: A): Analysis<A>
    requires b in f.blocks
  {
    var (w1, r) := Walk(d, keep, w, f.blocks[b].instrs, 0, x);
    if r.Some? && f.blocks[b].next.Some? then Forward(d, w1, f.blocks[b].next.value, r.value) else w1
  }

  lemma WalkCovers<A(!new)>(d: Domain<A>, keep: set<InstrId>, f: Cfg, w: Analysis<A>, b: BlockId, x: A)
    requires SoundJoin(d) && WellLinked(f) && b in f.blocks && FlagsOk(w)
    requires w.queued <= f.blocks.Keys && w.entry.Keys <= f.blocks.Keys && w.dyn.Keys <= keep
    ensures var w' := WalkAndFallThrough(d, keep, f, w, b, x);
            && Extends(d, w, w', Ids(f.blocks[b].instrs)) && FlagsOk(w')
            && w'.queued <= f.blocks.Keys && w'.entry.Keys <= f.blocks.Keys && w'.dyn.Keys <= keep
            && Covers(d, keep, f, w', b, x)
  {
    LinksStay(f, b);
    var blk := f.blocks[b];
    assert blk.instrs[0..] == blk.instrs;
    WalkHandles(d, keep, w, blk.instrs, x, 0, x, f.blocks.Keys);
    var (w1, r) := Walk(d, keep, w, blk.instrs, 0, x);
    if r.Some? && blk.next.Some? {
      hide Walk, Forward, WellLinked, SoundJoin;
      var w' := Forward(d, w1, blk.next.value, r.value);
      ForwardExtends(d, w1, blk.next.value, r.value);
      ExtendsTwice(d, w, w1, w', Ids(blk.instrs), {}, Ids(blk.instrs));
      forall k | 0 <= k < |blk.instrs| && blk.instrs[k].id in keep && StateBefore(d, keep, blk.instrs, x, k).Some?
        ensures HandledAt(d, w', blk.instrs[k], StateBefore(d, keep, blk.instrs, x, k).value)
      {
        HandledStays(d, w1, w', {}, blk.instrs[k], StateBefore(d, keep, blk.instrs, x, k).value);
      }
    }
  }

  lemma PopKeeps<A>(d: Domain<A>, keep: set<InstrId>, f: Cfg, w: Analysis<A>, seen: map<BlockId, A>)
    requires Inv(d, keep, f, w, seen) && w.queue != []
    ensures var b, w' := w.queue[0], Pop(w).(valid := w.valid + {w.queue[0]});
            && b in f.blocks && b !in w.valid && FlagsOk(w')
            && w'.queued <= f.blocks.Keys && w'.entry == w.entry && w'.dyn == w.dyn
            && forall t | t in w'.entry && t in w'.valid && t != b :: Processed(d, keep, f, w', seen, t)
  {
    var b, w' := w.queue[0], Pop(w).(valid := w.valid + {w.queue[0]});
    assert forall x :: x in w.queue <==> x == b || x in w.queue[1..];
    forall t | t in w'.entry && t in w'.valid && t != b ensures Processed(d, keep, f, w', seen, t) {
      assert Processed(d, keep, f, w, seen, t);
      ExtendsSelf(d, w, {});
      SameStates(d, keep, f, w, w', seen, t);
    }
  }

  lemma SameStates<A>(d: Domain<A>, keep: set<InstrId>, f: Cfg, w: Analysis<A>, w': Analysis<A>, seen: map<BlockId, A>, t: BlockId)
    requires Processed(d, keep, f, w, seen, t) && w'.entry == w.entry && w'.dyn == w.dyn
    ensures Processed(d, keep, f, w', seen, t)
  {
    var blk, x := f.blocks[t], seen[t];
    forall k | 0 <= k < |blk.instrs| && blk.instrs[k].id in keep && StateBefore(d, keep, blk.instrs, x, k).Some?
      ensures HandledAt(d, w', blk.instrs[k], StateBefore(d, keep, blk.instrs, x, k).value)
    {
      assert HandledAt(d, w, blk.instrs[k], StateBefore(d, keep, blk.instrs, x, k).value);
    }
  }

  lemma {:induction false} RequeueKeeps<A>(d: Domain<A>, keep: set<InstrId>, f: Cfg, w: Analysis<A>, preds: seq<BlockId>, seen: map<BlockId, A>)
    requires Inv(d, keep, f, w, seen) && Members(preds) <= f.blocks.Keys
    ensures Inv(d, keep, f, Requeue(w, preds), seen)
    ensures Requeue(w, preds).entry == w.entry && Requeue(w, preds).valid <= w.valid
    decreases preds
  {
    if preds != [] {
      var p := preds[0];
      assert p in Members(preds) && Members(preds[1..]) <= Members(preds);
      var w1 := if p !in w.queued && p in w.entry then Enqueue(w.(valid := w.valid - {p}), p) else w;
      EnqueueFlags(w.(valid := w.valid - {p}), p);
      forall t | t in w1.entry && t in w1.valid ensures Processed(d, keep, f, w1, seen, t) {
        assert Processed(d, keep, f, w, seen, t);
        SameStates(d, keep, f, w, w1, seen, t);
      }
      hide Processed;
      RequeueKeeps(d, keep, f, w1, preds[1..], seen);
    }
  }

  /** The states the blocks were last processed with. */
  function NowSeen<A>(w: Analysis<A>, seen: map<BlockId, A>): map<BlockId, A>
    requires w.queue != []
  {
    if w.queue[0] in w.entry then seen[w.queue[0] := w.entry[w.queue[0]]] else seen
  }

  lemma TurnKeepsInv<A(!new)>(d: Domain<A>, keep: set<InstrId>, f: Cfg, w: Analysis<A>, seen: map<BlockId, A>)
    requires SoundJoin(d) && WellLinked(f) && Inv(d, keep, f, w, seen) && w.queue != []
    ensures w.queue[0] in f.blocks
    ensures Inv(d, keep, f, Turn(d, keep, f, w), NowSeen(w, seen))
    ensures forall b | b in w.entry :: b in Turn(d, keep, f, w).entry && Includes(d, b, Turn(d, keep, f, w).entry[b], w.entry[b])
  {
    PopKeeps(d, keep, f, w, seen);
    var b, w0 := w.queue[0], Pop(w).(valid := w.valid + {w.queue[0]});
    LinksStay(f, b);
    if b in w.entry {
      ProcessedNow(d, keep, f, w0, b, seen);
      assert Turn(d, keep, f, w) == WalkAndFallThrough(d, keep, f, w0, b, w.entry[b]);
    } else {
      var preds := (if f.blocks[b].prev.Some? then [f.blocks[b].prev.value] else []) + f.blocks[b].incoming;
      hide Processed;
      assert Inv(d, keep, f, w0, seen);
      RequeueKeeps(d, keep, f, w0, preds, seen);
    }
  }

  lemma ProcessedNow<A(!new)>(d: Domain<A>, keep: set<InstrId>, f: Cfg, w: Analysis<A>, b: BlockId, seen: map<BlockId, A>)
    requires SoundJoin(d) && WellLinked(f) && b in f.blocks && b in w.entry && FlagsOk(w)
    requires w.queued <= f.blocks.Keys && w.entry.Keys <= f.blocks.Keys && w.dyn.Keys <= keep
    requires forall t | t in w.entry && t in w.valid && t != b :: Processed(d, keep, f, w, seen, t)
    ensures var w' := WalkAndFallThrough(d, keep, f, w, b, w.entry[b]);
            && Inv(d, keep, f, w', seen[b := w.entry[b]])
            && forall t | t in w.entry :: t in w'.entry && Includes(d, t, w'.entry[t], w.entry[t])
  {
    var x := w.entry[b];
    WalkCovers(d, keep, f, w, b, x);
    hide WalkAndFallThrough, Covers, WellLinked, SoundJoin;
    var w', seen' := WalkAndFallThrough(d, keep, f, w, b, x), seen[b := x];
    forall t | t in w'.entry && t in w'.valid ensures Processed(d, keep, f, w', seen', t) {
      if t != b {
        assert t in w.entry && t in w.valid;
        OtherIds(f, b, t);
        ProcessedStays(d, keep, f, w, w', seen, Ids(f.blocks[b].instrs), t);
        SeenElsewhere(d, keep, f, w', seen, b, x, t);
      }
    }
  }

  lemma SeenElsewhere<A>(d: Domain<A>, keep: set<InstrId>, f: Cfg, w: Analysis<A>, seen: map<BlockId, A>, b: BlockId, x: A, t: BlockId)
    requires Processed(d, keep, f, w, seen, t) && t != b
    ensures Processed(d, keep, f, w, seen[b := x], t)
  {
  }

  // ---- soundness over whole runs ----

  /** One step of the function without the instructions that have no liveness data. */
  function StepKept(f: Cfg, keep: set<InstrId>, c: Config): Config {
    if c.At? && c.block in f.blocks && c.pc < |f.blocks[c.block].instrs| && f.blocks[c.block].instrs[c.pc].id !in keep
    then c.(pc := c.pc + 1) else Step(f, c)
  }

  function RunKept(f: Cfg, keep: set<InstrId>, n: nat, c: Config): Config {
    if n == 0 then c else RunKept(f, keep, n - 1, StepKept(f, keep, c))
  }

  /** The analysis is over: every block with a state has been processed with it. */
  ghost predicate Finished<A>(d: Domain<A>, keep: set<InstrId>, f: Cfg, w: Analysis<A>, seen: map<BlockId, A>) {
    && w.dyn.Keys <= keep && w.entry.Keys <= f.blocks.Keys
    && forall b | b in w.entry :: Processed(d, keep, f, w, seen, b)
  }

  lemma EmptyQueueFinishes<A>(d: Domain<A>, keep: set<InstrId>, f: Cfg, w: Analysis<A>, seen: map<BlockId, A>)
    requires Inv(d, keep, f, w, seen) && w.queue == []
    ensures Finished(d, keep, f, w, seen)
  {
  }

  /** No kept branch before instruction k was sure to be taken. */
  ghost predicate NothingSure<A>(d: Domain<A>, keep: set<InstrId>, instrs: seq<Instr>, x: A, k: nat)
    requires k <= |instrs|
  {
    forall j | 0 <= j < k && instrs[j].id in keep && instrs[j].kind.Branch? && StateBefore(d, keep, instrs, x, j).Some? ::
      d.outcome(instrs[j], StateBefore(d, keep, instrs, x, j).value) != True
  }

  /**
   * The machine state is among those the analysis has for this place: among those of the block's entry
   * state when the block starts, and among those of the walk from the state last processed further on.
   */
  ghost predicate Described<A>(d: Domain<A>, keep: set<InstrId>, f: Cfg, w: Analysis<A>, seen: map<BlockId, A>, c: Config) {
    c.At? ==>
      && c.block in f.blocks && c.block in w.entry && c.block in seen && c.pc <= |f.blocks[c.block].instrs|
      && (c.pc == 0 ==> d.gamma(c.block, 0, w.entry[c.block], c.s))
      && var x := StateBefore(d, keep, f.blocks[c.block].instrs, seen[c.block], c.pc);
         x.Some? && d.gamma(c.block, c.pc, x.value, c.s) && NothingSure(d, keep, f.blocks[c.block].instrs, seen[c.block], c.pc)
  }

  lemma EnterDescribed<A>(d: Domain<A>, keep: set<InstrId>, f: Cfg, w: Analysis<A>, seen: map<BlockId, A>, b: BlockId, s: State)
    requires Finished(d, keep, f, w, seen) && b in w.entry && d.gamma(b, 0, w.entry[b], s)
    ensures Described(d, keep, f, w, seen, At(b, 0, s))
  {
    assert Processed(d, keep, f, w, seen, b);
    assert Includes(d, b, seen[b], w.entry[b]);
  }

  /** A kept instruction: what the machine does is described by what the analysis did. */
  lemma KeptStepDescribed<A(!new)>(d: Domain<A>, keep: set<InstrId>, f: Cfg, w: Analysis<A>, seen: map<BlockId, A>, c: Config)
    requires SoundEmulation(d, keep, f) && Finished(d, keep, f, w, seen) && Described(d, keep, f, w, seen, c)
    requires c.At? && c.pc < |f.blocks[c.block].instrs| && f.blocks[c.block].instrs[c.pc].id in keep
    ensures Described(d, keep, f, w, seen, StepInstr(f.blocks[c.block].instrs[c.pc], c))
    ensures var i := f.blocks[c.block].instrs[c.pc];
            && i.id in w.dyn && (w.dyn[i.id] == True ==> i.holds(c.s)) && (w.dyn[i.id] == False ==> !i.holds(c.s))
  {
    var instrs, x := f.blocks[c.block].instrs, seen[c.block];
    var i, y := instrs[c.pc], StateBefore(d, keep, instrs, seen[c.block], c.pc).value;
    assert Processed(d, keep, f, w, seen, c.block);
    assert HandledAt(d, w, i, y);
    assert InstrSound(d, c.block, c.pc, i) by { assert BlockSound(d, keep, c.block, f.blocks[c.block]); }
    assert EmulationSound(d, c.block, c.pc, i, y, c.s);
    hide SoundEmulation, InstrSound, Finished, Processed, Covers;
    if i.holds(c.s) && i.kind.Branch? {
      if i.kind.edge.Some? {
        var t := i.kind.edge.value;
        assert Includes(d, t, w.entry[t], d.transfer(i, y));
        EnterDescribed(d, keep, f, w, seen, t, i.exec(c.s));
      }
    } else if !i.holds(c.s) || i.kind.Plain? {
      assert StateBefore(d, keep, instrs, x, c.pc + 1) == Some(After(d, i, y));
    }
  }

  lemma SkipAt<A(!new)>(d: Domain<A>, keep: set<InstrId>, f: Cfg, b: BlockId, k: nat, x: A, s: State)
    requires SoundEmulation(d, keep, f) && b in f.blocks && k < |f.blocks[b].instrs| && f.blocks[b].instrs[k].id !in keep && d.gamma(b, k, x, s)
    ensures d.gamma(b, k + 1, x, s)
  {
    assert BlockSound(d, keep, b, f.blocks[b]);
    assert SkipSound(d, b, k);
  }

  lemma FallAt<A(!new)>(d: Domain<A>, keep: set<InstrId>, f: Cfg, b: BlockId, x: A, s: State)
    requires SoundEmulation(d, keep, f) && b in f.blocks && f.blocks[b].next.Some? && d.gamma(b, |f.blocks[b].instrs|, x, s)
    ensures d.gamma(f.blocks[b].next.value, 0, x, s)
  {
    assert BlockSound(d, keep, b, f.blocks[b]);
    hide InstrsSound;
  }

  lemma StepDescribed<A(!new)>(d: Domain<A>, keep: set<InstrId>, f: Cfg, w: Analysis<A>, seen: map<BlockId, A>, c: Config)
    requires SoundEmulation(d, keep, f) && Finished(d, keep, f, w, seen) && Described(d, keep, f, w, seen, c)
    ensures Described(d, keep, f, w, seen, StepKept(f, keep, c))
  {
    hide SoundEmulation;
    if c.At? {
      var blk := f.blocks[c.block];
      if c.pc < |blk.instrs| && blk.instrs[c.pc].id in keep {
        KeptStepDescribed(d, keep, f, w, seen, c);
      } else if c.pc < |blk.instrs| {
        SkipAt(d, keep, f, c.block, c.pc, StateBefore(d, keep, blk.instrs, seen[c.block], c.pc).value, c.s);
        hide SoundEmulation, Finished;
        var y := StateBefore(d, keep, blk.instrs, seen[c.block], c.pc).value;
        assert StateBefore(d, keep, blk.instrs, seen[c.block], c.pc + 1) == Some(y);
      } else if blk.next.Some? {
        assert Processed(d, keep, f, w, seen, c.block);
        var y := StateBefore(d, keep, blk.instrs, seen[c.block], |blk.instrs|).value;
        FallAt(d, keep, f, c.block, y, c.s);
        assert Includes(d, blk.next.value, w.entry[blk.next.value], y);
        EnterDescribed(d, keep, f, w, seen, blk.next.value, c.s);
      }
    }
  }

  /** Every machine state a run comes to is described where it comes to. */
  lemma {:induction false} RunDescribed<A(!new)>(d: Domain<A>, keep: set<InstrId>, f: Cfg, w: Analysis<A>, seen: map<BlockId, A>, n: nat, c: Config)
    requires SoundEmulation(d, keep, f) && Finished(d, keep, f, w, seen) && Described(d, keep, f, w, seen, c)
    ensures Described(d, keep, f, w, seen, RunKept(f, keep, n, c))
  {
    hide SoundEmulation, Finished, Described, StepKept;
    if n > 0 {
      StepDescribed(d, keep, f, w, seen, c);
      RunDescribed(d, keep, f, w, seen, n - 1, StepKept(f, keep, c));
    }
  }

  /**
   * Blocks without a state are never reached, blocks with one are only entered in states it describes, and
   * recorded outcomes always come true.
   */
  lemma AnalysisSound<A(!new)>(d: Domain<A>, keep: set<InstrId>, f: Cfg, w: Analysis<A>, seen: map<BlockId, A>, b: BlockId, s: State, n: nat)
    requires SoundEmulation(d, keep, f) && Finished(d, keep, f, w, seen) && b in w.entry && d.gamma(b, 0, w.entry[b], s)
    ensures var c := RunKept(f, keep, n, At(b, 0, s));
            && (c.At? ==> c.block in w.entry && c.block in f.blocks)
            && (c.At? && c.pc == 0 ==> d.gamma(c.block, 0, w.entry[c.block], c.s))
            && (c.At? && c.pc < |f.blocks[c.block].instrs| && f.blocks[c.block].instrs[c.pc].id in keep ==>
                  var i := f.blocks[c.block].instrs[c.pc];
                  && i.id in w.dyn
                  && (w.dyn[i.id] == True ==> i.holds(c.s)) && (w.dyn[i.id] == False ==> !i.holds(c.s)))
  {
    hide SoundEmulation, Finished;
    EnterDescribed(d, keep, f, w, seen, b, s);
    RunDescribed(d, keep, f, w, seen, n, At(b, 0, s));
    var c := RunKept(f, keep, n, At(b, 0, s));
    if c.At? && c.pc < |f.blocks[c.block].instrs| && f.blocks[c.block].instrs[c.pc].id in keep {
      KeptStepDescribed(d, keep, f, w, seen, c);
    }
  }
}

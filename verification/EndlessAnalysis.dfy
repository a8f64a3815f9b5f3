/** A function on which the forward analysis of the code never ends: whole states, the join as it is with its report,
    and an emulation that marks registers dead as the pass does. */
module EndlessAnalysis {
  import opened Machine
  import opened Links
  import opened StackAnalysis
  import opened StateJoin
  import opened DeadRegisters
  import P = StackAnalysisPass
  import B = ProgramState
  import M = MergeElements
  import L = Liveness
  import A = LivenessPass
  import E = DeadCodePass
  import R = StateRuns

  // ---- the loop ----

  const FLAG: Reg := 0

  /** A general purpose register. */
  const REG: Reg := 6

  /** The registers there are. None is read by the caller. */
  const LOOP_ABI := Abi({}, {REG, FLAG})

  /** mov r, 5 */
  function Mov(id: InstrId): Instr {
    Instr(id, Plain, false, Info({}, {REG}, {}, {}, false, True), None, (s: State) => true,
          (s: State) => State((r: Reg) => if r == REG then 5 else s.regs(r), s.mem))
  }

  /** mov [0], r */
  function Use(id: InstrId): Instr {
    Instr(id, Plain, false, Info({REG}, {}, {}, {}, true, True), None, (s: State) => true, (s: State) => State(s.regs, s.mem[0 := s.regs(REG)]))
  }

  /** jcc block 0 */
  function Jcc(id: InstrId): Instr {
    Instr(id, Branch(Some(0)), true, Info({}, {}, {}, {FLAG}, false, Unknown), None, (s: State) => s.regs(FLAG) == 1, (s: State) => s)
  }

  function Return(id: InstrId): Instr {
    Instr(id, Ret, false, Info({}, {}, {}, {}, false, True), None, (s: State) => true, (s: State) => s)
  }

  /** Block 1 reads the register for the last time and falls through to block 0:
      mov r, 5; jcc block 0; mov [0], r; jcc block 0; ret. */
  function Loop(): Cfg {
    Cfg(map[
      0 := Block([Mov(0), Jcc(1), Use(2), Jcc(3), Return(4)], None, Some(1), [0, 0]),
      1 := Block([Use(5)], Some(0), None, [])])
  }

  const KEEP: set<InstrId> := {0, 1, 2, 3, 4, 5}

  /** Alive behind each instruction. */
  function AliveBehind(id: InstrId): set<Reg> {
    if id < 2 then {REG, FLAG} else if id == 2 || id == 5 then {FLAG} else {}
  }

  function Operands(): Instr -> set<Reg> {
    (i: Instr) => i.info.readRegs + i.info.writtenRegs + i.info.condWrittenRegs + i.info.predicateRegs
  }

  // ---- its emulation ----

  /** Store into the whole register. If that throws, the analysis is over; then nothing is known of the register. */
  function Stored(es: seq<B.Elem>, v: B.DynValue): (r: seq<B.Elem>)
    ensures |r| == |es|
  {
    var r := B.SetElements(es, 0, |es|, v, false);
    if r.Some? then r.value else seq(|es|, k => B.Elem(B.Tainted, 0, 0))
  }

  function SetReg(x: Bytes, r: Reg, v: B.DynValue): Bytes {
    if r < |x.regs| then x.(regs := x.regs[r := Stored(x.regs[r], v)]) else x
  }

  /** Only the move into the register changes the state. */
  function Emulation(): Emulator {
    Emulator(
      (i: Instr, x: Bytes) => if i.id == 0 then SetReg(x, REG, B.Imm(5)) else x,
      (i: Instr, x: Bytes) => if i.hasPredicate then Unknown else True,
      (x: Bytes) => x)
  }

  /** As the pass does it: operands not alive behind are marked dead. */
  function PassEmulation(): Emulator {
    Killing(Emulation(), (i: Instr) => Operands()(i) - AliveBehind(i.id))
  }

  // ---- going round in any domain ----

  /** The state of the worklist after n turns. */
  function Turns<A>(d: Domain<A>, keep: set<InstrId>, f: Cfg, n: nat, w: Analysis<A>): Option<Analysis<A>> {
    if n == 0 then Some(w)
    else if w.queue == [] || w.queue[0] !in f.blocks then None
    else Turns(d, keep, f, n - 1, Turn(d, keep, f, w))
  }

  /** Three kinds of states: the move makes a dead one a five, the last use of that one a dead one; joining a five to a dead
      one is reported and gives an open one, joining a dead one to that gives a dead one. */
  ghost predicate Oscillates<A(!new)>(d: Domain<A>, dead: A -> bool, open: A -> bool, five: A -> bool) {
    && (forall x | dead(x) :: five(d.transfer(Mov(0), x)) && dead(d.transfer(Jcc(3), x)))
    && (forall x | five(x) :: five(d.transfer(Jcc(1), x)) && dead(d.transfer(Use(2), x)))
    && (forall x, y | dead(x) && five(y) :: d.merge(x, y).1 && open(d.merge(x, y).0))
    && (forall x, y | open(x) && dead(y) :: dead(d.merge(x, y).0))
    && (forall i, x :: d.outcome(i, x) == if i.hasPredicate then Unknown else True)
  }

  /** Where the worklist is before and after every further turn: the loop is queued, its register dead. */
  ghost predicate Circling<A(!new)>(dead: A -> bool, w: Analysis<A>) {
    && w.queue == [0] && w.queued == {0} && w.valid == {1}
    && w.entry.Keys == {0, 1} && dead(w.entry[0]) && w.dyn.Keys <= KEEP
  }

  lemma LoopInstrs(k: nat)
    requires k < 5
    ensures var i := Loop().blocks[0].instrs[k];
            && |Loop().blocks[0].instrs| == 5 && i.id == k && i.id in KEEP
            && i == (if k == 0 then Mov(0) else if k == 2 then Use(2) else if k == 4 then Return(4) else Jcc(k))
            && (k == 0 || k == 2 ==> i.kind == Plain && !i.hasPredicate)
            && (k == 1 || k == 3 ==> i.kind == Branch(Some(0)) && i.hasPredicate)
            && (k == 4 ==> i.kind == Ret && !i.hasPredicate)
    ensures Loop().blocks[0].next == None
  {
  }

  lemma WalkOn<A>(d: Domain<A>, keep: set<InstrId>, w: Analysis<A>, instrs: seq<Instr>, k: nat, x: A)
    requires k < |instrs| && instrs[k].id in keep && !Stops(d, instrs[k], x)
    ensures Walk(d, keep, w, instrs, k, x) == Walk(d, keep, Handle(d, w, instrs[k], x), instrs, k + 1, After(d, instrs[k], x))
  {
  }

  /** One instruction of the loop in the walk over it. */
  lemma LoopStep<A(!new)>(d: Domain<A>, w: Analysis<A>, k: nat, x: A)
    requires k < 5 && forall i, x :: d.outcome(i, x) == if i.hasPredicate then Unknown else True
    ensures var instrs := Loop().blocks[0].instrs;
            var w1 := w.(dyn := w.dyn[k := if k == 1 || k == 3 then Unknown else True]);
            var x' := d.transfer(instrs[k], x);
            var w2 := if k == 1 || k == 3 then Forward(d, w1, 0, x') else w1;
            Walk(d, KEEP, w, instrs, k, x) == Walk(d, KEEP, w2, instrs, k + 1, x')
  {
    LoopInstrs(k);
    var instrs := Loop().blocks[0].instrs;
    hide Loop, Forward, KEEP, Walk, Mov, Jcc, Use, Return;
    WalkOn(d, KEEP, w, instrs, k, x);
  }

  /** Handing the immediate round the loop queues the block. */
  lemma Revive<A(!new)>(d: Domain<A>, dead: A -> bool, open: A -> bool, five: A -> bool, w: Analysis<A>, y: A)
    requires Oscillates(d, dead, open, five) && five(y)
    requires w.queue == [] && w.queued == {} && w.valid == {0, 1} && w.entry.Keys == {0, 1} && dead(w.entry[0])
    ensures var w' := Forward(d, w, 0, y);
            && w'.queue == [0] && w'.queued == {0} && w'.valid == {1} && w'.entry.Keys == {0, 1} && open(w'.entry[0]) && w'.dyn == w.dyn
  {
    assert w.valid - {0} == {1};
  }

  /** Handing the dead one round kills it again. */
  lemma Again<A(!new)>(d: Domain<A>, dead: A -> bool, open: A -> bool, five: A -> bool, w: Analysis<A>, y: A)
    requires Oscillates(d, dead, open, five) && dead(y)
    requires w.queue == [0] && w.queued == {0} && w.valid == {1} && w.entry.Keys == {0, 1} && open(w.entry[0])
    ensures var w' := Forward(d, w, 0, y);
            && w'.queue == [0] && w'.queued == {0} && w'.valid == {1} && w'.entry.Keys == {0, 1} && dead(w'.entry[0]) && w'.dyn == w.dyn
  {
    assert w.valid - {0} == {1};
  }

  lemma Shapes<A(!new)>(d: Domain<A>, dead: A -> bool, open: A -> bool, five: A -> bool, x: A)
    requires Oscillates(d, dead, open, five)
    ensures dead(x) ==> five(d.transfer(Mov(0), x)) && dead(d.transfer(Jcc(3), x))
    ensures five(x) ==> five(d.transfer(Jcc(1), x)) && dead(d.transfer(Use(2), x))
    ensures forall i, y :: d.outcome(i, y) == if i.hasPredicate then Unknown else True
  {
  }

  /** The loop's block is queued and its state is not what it was. */
  ghost predicate Halfway<A(!new)>(open: A -> bool, w: Analysis<A>) {
    && w.queue == [0] && w.queued == {0} && w.valid == {1}
    && w.entry.Keys == {0, 1} && open(w.entry[0]) && w.dyn.Keys <= KEEP
  }

  lemma FirstHalf<A(!new)>(d: Domain<A>, dead: A -> bool, open: A -> bool, five: A -> bool, w: Analysis<A>) returns (w2: Analysis<A>, x2: A)
    requires Oscillates(d, dead, open, five)
    requires w.queue == [] && w.queued == {} && w.valid == {0, 1} && w.entry.Keys == {0, 1} && w.dyn.Keys <= KEEP && dead(w.entry[0])
    ensures Walk(d, KEEP, w, Loop().blocks[0].instrs, 0, w.entry[0]) == Walk(d, KEEP, w2, Loop().blocks[0].instrs, 2, x2)
    ensures Halfway(open, w2) && five(x2)
  {
    LoopInstrs(0);
    LoopInstrs(1);
    hide Loop, Walk, Forward, Mov, Jcc, Use, Return, Oscillates;
    var x1 := d.transfer(Mov(0), w.entry[0]);
    x2 := d.transfer(Jcc(1), x1);
    Shapes(d, dead, open, five, w.entry[0]);
    Shapes(d, dead, open, five, x1);
    var w1 := w.(dyn := w.dyn[0 := True]);
    var w1' := w1.(dyn := w1.dyn[1 := Unknown]);
    LoopStep(d, w, 0, w.entry[0]);
    LoopStep(d, w1, 1, x1);
    Revive(d, dead, open, five, w1', x2);
    w2 := Forward(d, w1', 0, x2);
  }

  lemma SecondHalf<A(!new)>(d: Domain<A>, dead: A -> bool, open: A -> bool, five: A -> bool, w: Analysis<A>, x: A)
    requires Oscillates(d, dead, open, five) && Halfway(open, w) && five(x)
    ensures Circling(dead, Walk(d, KEEP, w, Loop().blocks[0].instrs, 2, x).0)
  {
    LoopInstrs(2);
    LoopInstrs(3);
    hide Loop, Walk, Forward, Mov, Jcc, Use, Return, Oscillates;
    var x3 := d.transfer(Use(2), x);
    var x4 := d.transfer(Jcc(3), x3);
    Shapes(d, dead, open, five, x);
    Shapes(d, dead, open, five, x3);
    var w3 := w.(dyn := w.dyn[2 := True]);
    var w3' := w3.(dyn := w3.dyn[3 := Unknown]);
    LoopStep(d, w, 2, x);
    LoopStep(d, w3, 3, x3);
    Again(d, dead, open, five, w3', x4);
    LastStep(d, Forward(d, w3', 0, x4), x4);
  }

  lemma LastStep<A(!new)>(d: Domain<A>, w: Analysis<A>, x: A)
    requires forall i, y :: d.outcome(i, y) == if i.hasPredicate then Unknown else True
    ensures Walk(d, KEEP, w, Loop().blocks[0].instrs, 4, x).0 == w.(dyn := w.dyn[4 := True])
  {
    LoopInstrs(4);
    hide Loop, Walk, Forward, Return;
    LoopStep(d, w, 4, x);
    WalkEnds(d, w.(dyn := w.dyn[4 := True]), Loop().blocks[0].instrs, d.transfer(Return(4), x));
  }

  lemma LoopWalk<A(!new)>(d: Domain<A>, dead: A -> bool, open: A -> bool, five: A -> bool, w: Analysis<A>)
    requires Oscillates(d, dead, open, five)
    requires w.queue == [] && w.queued == {} && w.valid == {0, 1} && w.entry.Keys == {0, 1} && w.dyn.Keys <= KEEP && dead(w.entry[0])
    ensures Circling(dead, Walk(d, KEEP, w, Loop().blocks[0].instrs, 0, w.entry[0]).0)
  {
    hide *;
    var w2, x2 := FirstHalf(d, dead, open, five, w);
    SecondHalf(d, dead, open, five, w2, x2);
  }

  lemma WalkEnds<A>(d: Domain<A>, w: Analysis<A>, instrs: seq<Instr>, x: A)
    requires |instrs| == 5
    ensures Walk(d, KEEP, w, instrs, 5, x) == (w, Some(x))
  {
  }

  lemma CirclesOn<A(!new)>(d: Domain<A>, dead: A -> bool, open: A -> bool, five: A -> bool, w: Analysis<A>)
    requires Oscillates(d, dead, open, five) && Circling(dead, w)
    ensures w.queue[0] in Loop().blocks && Circling(dead, Turn(d, KEEP, Loop(), w))
  {
    var w0 := Pop(w).(valid := w.valid + {0});
    assert w0.queue == [] && w0.queued == {} && w0.valid == {0, 1};
    LoopInstrs(0);
    LoopWalk(d, dead, open, five, w0);
    assert 0 in Loop().blocks;
    hide Loop, Walk, Forward, Oscillates;
    assert Turn(d, KEEP, Loop(), w) == Walk(d, KEEP, w0, Loop().blocks[0].instrs, 0, w.entry[0]).0;
  }

  /** The queue is never empty, however many turns the worklist takes. */
  lemma {:induction false} CirclesForEver<A(!new)>(d: Domain<A>, dead: A -> bool, open: A -> bool, five: A -> bool, n: nat, w: Analysis<A>)
    requires Oscillates(d, dead, open, five) && Circling(dead, w)
    ensures var w' := Turns(d, KEEP, Loop(), n, w); w'.Some? && w'.value.queue != []
  {
    hide Turn, Loop, Oscillates;
    if n > 0 {
      CirclesOn(d, dead, open, five, w);
      CirclesForEver(d, dead, open, five, n - 1, Turn(d, KEEP, Loop(), w));
    }
  }

  /** All blocks queued, as the pass starts, and a state at the entry. */
  function Started<A>(x: A): Analysis<A> { Analysis([1, 0], {0, 1}, {}, map[1 := x], map[]) }

  lemma EntryTurn<A(!new)>(d: Domain<A>, dead: A -> bool, x: A)
    requires dead(d.transfer(Use(5), x)) && forall i, y :: d.outcome(i, y) == if i.hasPredicate then Unknown else True
    ensures 1 in Loop().blocks && Circling(dead, Turn(d, KEEP, Loop(), Started(x)))
  {
    var w0 := Analysis([0], {0}, {1}, map[1 := x], map[]);
    EntryWalk(d, w0, x);
    hide Walk;
    var w1 := w0.(dyn := map[5 := True]);
    assert Pop(Started(x)).(valid := {1}) == w0 by { assert [1, 0][1..] == [0] && {0, 1} - {1} == {0}; }
    assert w1.valid - {0} == {1};
    hide Mov, Jcc, Use, Return;
  }

  lemma EntryWalk<A(!new)>(d: Domain<A>, w: Analysis<A>, x: A)
    requires forall i, y :: d.outcome(i, y) == if i.hasPredicate then Unknown else True
    ensures Walk(d, KEEP, w, Loop().blocks[1].instrs, 0, x) == (w.(dyn := w.dyn[5 := True]), Some(d.transfer(Use(5), x)))
  {
    var instrs, w1 := Loop().blocks[1].instrs, w.(dyn := w.dyn[5 := True]);
    assert |instrs| == 1 && instrs[0] == Use(5) && instrs[0].kind == Plain && !instrs[0].hasPredicate;
    var y := d.transfer(Use(5), x);
    assert Walk(d, KEEP, w1, instrs, 1, y) == (w1, Some(y));
    hide Loop, Use;
    WalkOn(d, KEEP, w, instrs, 0, x);
  }

  lemma OutcomesAre<A(!new)>(d: Domain<A>, dead: A -> bool, open: A -> bool, five: A -> bool)
    requires Oscillates(d, dead, open, five)
    ensures forall i, y :: d.outcome(i, y) == if i.hasPredicate then Unknown else True
  {
  }

  lemma NeverEnds<A(!new)>(d: Domain<A>, dead: A -> bool, open: A -> bool, five: A -> bool, n: nat, x: A)
    requires Oscillates(d, dead, open, five) && dead(d.transfer(Use(5), x))
    ensures var w := Turns(d, KEEP, Loop(), n, Started(x)); w.Some? && w.value.queue != []
  {
    if n > 0 {
      OutcomesAre(d, dead, open, five);
      hide Turn, Loop, Oscillates, Circling;
      EntryTurn(d, dead, x);
      CirclesForEver(d, dead, open, five, n - 1, Turn(d, KEEP, Loop(), Started(x)));
    }
  }

  /** Nor does any rank fall with every change such a join reports. */
  lemma {:induction false} NoRankFalls<A(!new)>(d: Domain<A>, dead: A -> bool, open: A -> bool, five: A -> bool, rank: A -> nat, x: A, y: A)
    requires Oscillates(d, dead, open, five) && dead(x) && five(y)
    ensures !P.Descending(d, rank)
    decreases rank(x)
  {
    var o := d.merge(x, y).0;
    if P.JoinDescends(d, rank, x, y) && P.JoinDescends(d, rank, o, x) {
      NoRankFalls(d, dead, open, five, rank, d.merge(o, x).0, y);
    }
  }

  // ---- whole states ----

  predicate AllOf(es: seq<B.Elem>, t: B.DynType) {
    forall k | 0 <= k < |es| :: es[k].ty == t
  }

  /** A state the analysis can have, with all bytes of the register of one type. */
  predicate RegIs(x: Bytes, t: B.DynType) {
    StateOk(x) && |x.regs| == REG_COUNT && |x.regs[REG]| == 8 && AllOf(x.regs[REG], t)
  }

  lemma PlainKills(es: seq<B.Elem>, t: B.DynType, v: B.DynValue)
    requires |es| == 8 && AllOf(es, t) && (t == B.Dead || t == B.Immediate || t == B.Unknown) && B.HeadsOk(es) && B.Fits(v, 8)
    ensures B.SetElements(es, 0, 8, v, false).Some?
  {
    assert !B.MarkThrows(es, 0, 8) by {
      assert !B.IsTail(B.TypeAt(es, 0));
      forall k | 0 < k < 8 ensures !B.IsTail(B.TypeAt(es, k)) { assert es[k].ty == t; }
    }
    hide B.SetElements, B.MarkThrows, B.HeadsOk;
    B.SetExact(es, 0, 8, v);
  }

  /** Joining the dead with an immediate makes unknown, and joining that with the dead makes dead again. */
  lemma {:induction false} UniformLoop(l: seq<B.Elem>, r: seq<B.Elem>, revive: bool, i: nat)
    requires |l| == |r| && i <= |l| && AllOf(r, if revive then B.Immediate else B.Dead)
    requires forall k | 0 <= k < |l| :: l[k].ty == if revive == (k < i) then B.Unknown else B.Dead
    ensures AllOf(M.MergeLoop(l, r, i).0, if revive then B.Unknown else B.Dead)
    ensures revive && i < |l| ==> M.MergeLoop(l, r, i).1
    decreases |l| - i
  {
    if i < |l| {
      var step := M.MergeByte(l, r, i);
      assert step.0 == B.Retype(l, i, if revive then B.Unknown else B.Dead);
      UniformLoop(step.0, r, revive, i + 1);
    }
  }

  lemma UniformMerge(l: seq<B.Elem>, r: seq<B.Elem>)
    requires |l| == |r| == 8
    ensures AllOf(l, B.Dead) && AllOf(r, B.Immediate) ==> AllOf(M.Merge(l, r).0, B.Unknown) && M.Merge(l, r).1
    ensures AllOf(l, B.Unknown) && AllOf(r, B.Dead) ==> AllOf(M.Merge(l, r).0, B.Dead)
  {
    if AllOf(l, B.Dead) && AllOf(r, B.Immediate) { UniformLoop(l, r, true, 0); }
    if AllOf(l, B.Unknown) && AllOf(r, B.Dead) { UniformLoop(l, r, false, 0); }
  }

  lemma StatesMerge(x: Bytes, y: Bytes)
    ensures RegIs(x, B.Dead) && RegIs(y, B.Immediate) ==> CodeJoin(x, y).1 && RegIs(CodeJoin(x, y).0, B.Unknown)
    ensures RegIs(x, B.Unknown) && RegIs(y, B.Dead) ==> RegIs(CodeJoin(x, y).0, B.Dead)
  {
    if StateOk(x) && StateOk(y) && |x.regs| == REG_COUNT && |y.regs| == REG_COUNT && |x.regs[REG]| == 8 && |y.regs[REG]| == 8 {
      JoinOk(x, y);
      SameWidths(x, y);
      UniformMerge(x.regs[REG], y.regs[REG]);
      hide M.Merge, StateOk, JoinFrames, AllOf;
      var regs := JoinRegs(x.regs, y.regs);
      assert regs.0[REG] == M.Merge(x.regs[REG], y.regs[REG]).0;
    }
  }

  // ---- the emulation of the pass on whole states ----

  lemma KillNothing(x: Bytes)
    ensures Kill(x, {}) == x
  {
    assert Kill(x, {}).regs == x.regs;
  }

  lemma RegAlone(x: Bytes)
    requires StateOk(x)
    ensures |x.regs| == REG_COUNT && |x.regs[REG]| == 8 && B.HeadsOk(x.regs[REG])
  {
    assert RegOk(x.regs, REG);
  }

  lemma KillReg6(x: Bytes)
    requires StateOk(x) && |x.regs| == REG_COUNT && Kills(x.regs[REG])
    ensures RegIs(Kill(x, {REG}), B.Dead)
  {
    RegAlone(x);
    KillOk(x, {REG});
    hide StateOk, KillReg, Kills;
    KilledReg(x.regs[REG]);
    var es := Kill(x, {REG}).regs[REG];
    assert es == KillReg(x.regs[REG]);
    forall k | 0 <= k < |es| ensures es[k].ty == B.Dead { assert B.TypeAt(es, k) == B.Dead; }
  }

  lemma SetReg5(x: Bytes)
    requires RegIs(x, B.Dead)
    ensures RegIs(SetReg(x, REG, B.Imm(5)), B.Immediate)
  {
    RegAlone(x);
    PlainKills(x.regs[REG], B.Dead, B.Imm(5));
    hide StateOk;
    SetOk(x, B.Imm(5));
    FiveIs(x.regs[REG]);
  }

  lemma FiveIs(es: seq<B.Elem>)
    requires |es| == 8 && B.SetElements(es, 0, 8, B.Imm(5), false).Some?
    ensures AllOf(B.SetElements(es, 0, 8, B.Imm(5), false).value, B.Immediate)
  {
    hide B.Mark;
  }

  lemma SetOk(x: Bytes, v: B.DynValue)
    requires StateOk(x) && B.Fits(v, 8)
    ensures StateOk(SetReg(x, REG, v))
  {
    RegAlone(x);
    var y := SetReg(x, REG, v);
    StoredHeads(x.regs[REG], v);
    hide B.HeadsOk, FrameOk, Stored;
    forall i | 0 <= i < |y.regs| ensures RegOk(y.regs, i) { assert RegOk(x.regs, i); }
  }

  lemma StoredHeads(es: seq<B.Elem>, v: B.DynValue)
    requires |es| == 8 && B.HeadsOk(es) && B.Fits(v, 8)
    ensures B.HeadsOk(Stored(es, v))
  {
    if B.SetElements(es, 0, 8, v, false).Some? {
      hide B.SetElements, B.HeadsOk, B.TailsOk, B.MarkThrows;
      B.SetExact(es, 0, 8, v);
    }
  }

  lemma Transfers(x: Bytes)
    ensures var m := PassEmulation();
            && m.transfer(Mov(0), x) == SetReg(x, REG, B.Imm(5)) && m.transfer(Jcc(1), x) == x
            && m.transfer(Use(2), x) == Kill(x, {REG}) && m.transfer(Jcc(3), x) == Kill(x, {FLAG}) && m.transfer(Use(5), x) == Kill(x, {REG})
  {
    var m := PassEmulation();
    DeadOperands();
    hide SetReg, Kill;
    KillNothing(x);
    KillNothing(SetReg(x, REG, B.Imm(5)));
  }

  lemma DeadOperands()
    ensures Operands()(Mov(0)) - AliveBehind(0) == {} && Operands()(Jcc(1)) - AliveBehind(1) == {}
    ensures Operands()(Use(2)) - AliveBehind(2) == {REG} && Operands()(Jcc(3)) - AliveBehind(3) == {FLAG} && Operands()(Use(5)) - AliveBehind(5) == {REG}
  {
  }

  lemma StatesOscillate(v: View)
    ensures Oscillates(CodeDomain(v, PassEmulation()), x => RegIs(x, B.Dead), x => RegIs(x, B.Unknown), x => RegIs(x, B.Immediate))
  {
    var d := CodeDomain(v, PassEmulation());
    hide RegIs, Kill, SetReg, CodeJoin;
    forall x | RegIs(x, B.Dead) ensures RegIs(d.transfer(Mov(0), x), B.Immediate) && RegIs(d.transfer(Jcc(3), x), B.Dead) {
      Transfers(x);
      SetReg5(x);
      FlagAlone(x, B.Dead);
    }
    forall x | RegIs(x, B.Immediate) ensures RegIs(d.transfer(Jcc(1), x), B.Immediate) && RegIs(d.transfer(Use(2), x), B.Dead) {
      Transfers(x);
      FiveDies(x);
    }
    forall x, y ensures RegIs(x, B.Dead) && RegIs(y, B.Immediate) ==> d.merge(x, y).1 && RegIs(d.merge(x, y).0, B.Unknown) { StatesMerge(x, y); }
    forall x, y ensures RegIs(x, B.Unknown) && RegIs(y, B.Dead) ==> RegIs(d.merge(x, y).0, B.Dead) { StatesMerge(x, y); }
  }

  lemma FlagAlone(x: Bytes, t: B.DynType)
    requires RegIs(x, t)
    ensures RegIs(Kill(x, {FLAG}), t)
  {
    KillOk(x, {FLAG});
    hide StateOk, KillReg;
  }

  lemma FiveDies(x: Bytes)
    requires RegIs(x, B.Immediate)
    ensures RegIs(Kill(x, {REG}), B.Dead)
  {
    RegAlone(x);
    PlainKills(x.regs[REG], B.Immediate, B.Plain(B.Dead));
    KillReg6(x);
  }

  /** The pass started on it, whatever the state is at entry, does not end: there is always a block queued. Only, the tails
      of the register must have their heads, so that marking it dead does not throw. */
  lemma AnalysisNeverEnds(v: View, n: nat, x: Bytes)
    requires StateOk(x) && |x.regs| == REG_COUNT && B.WellFormed(x.regs[REG])
    ensures var w := Turns(CodeDomain(v, PassEmulation()), KEEP, Loop(), n, Started(x)); w.Some? && w.value.queue != []
  {
    StatesOscillate(v);
    WellKills(x);
    Transfers(x);
    hide Oscillates, Turns, RegIs, Loop, Started, StateOk, PassEmulation, KEEP;
    NeverEnds(CodeDomain(v, PassEmulation()), (y: Bytes) => RegIs(y, B.Dead), (y: Bytes) => RegIs(y, B.Unknown), (y: Bytes) => RegIs(y, B.Immediate), n, x);
  }

  lemma WellKills(x: Bytes)
    requires StateOk(x) && |x.regs| == REG_COUNT && B.WellFormed(x.regs[REG])
    ensures RegIs(Kill(x, {REG}), B.Dead)
  {
    RegAlone(x);
    var es := x.regs[REG];
    assert !B.HeadInside(es, 0, 8) by { NoHeadInside(es); }
    hide B.SetElements, B.HeadsOk, B.TailsOk, B.MarkThrows, B.HeadInside, StateOk, KillReg;
    B.ThrowsIffHeadInside(es, 0, 8);
    B.SetExact(es, 0, 8, B.Plain(B.Dead));
    KillReg6(x);
  }

  lemma NoHeadInside(es: seq<B.Elem>)
    requires |es| == 8 && B.HeadsOk(es)
    ensures !B.HeadInside(es, 0, 8)
  {
    forall h | 0 < h < 8 ensures !B.IsPtr(B.TypeAt(es, h)) {
      if B.IsPtr(B.TypeAt(es, h)) { B.Behind(es, h, h); }
    }
  }

  /** All bytes of all registers of one type, the stack lost. */
  function Uniform(t: B.DynType): Bytes {
    Bytes(seq(REG_COUNT, i requires 0 <= i < REG_COUNT => seq(Width(i), k => B.Elem(t, 0, 5))), DeadFrame)
  }

  lemma UniformIs(t: B.DynType)
    requires t == B.Dead || t == B.Immediate
    ensures RegIs(Uniform(t), t)
  {
    var x := Uniform(t);
    forall i | 0 <= i < REG_COUNT ensures RegOk(x.regs, i) {
      forall k | 0 <= k < |x.regs[i]| ensures !B.IsPtr(B.TypeAt(x.regs[i], k)) { }
    }
  }

  /** Whether reports lower a rank is a matter of the join alone. */
  lemma JoinAlone(v: View, m: Emulator, m': Emulator, rank: Bytes -> nat)
    requires P.Descending(CodeDomain(v, m), rank)
    ensures P.Descending(CodeDomain(v, m'), rank)
  {
    hide CodeJoin;
    var d, d' := CodeDomain(v, m), CodeDomain(v, m');
    forall x: Bytes, y: Bytes ensures P.JoinDescends(d', rank, x, y) {
      assert P.JoinDescends(d, rank, x, y) && d.merge(x, y) == CodeJoin(x, y) == d'.merge(x, y);
    }
  }

  /** No rank of states whatever falls with every change that the join of the code reports, however instructions are
      emulated. */
  lemma NoRankDescends(v: View, m: Emulator, rank: Bytes -> nat)
    ensures !P.Descending(CodeDomain(v, m), rank)
  {
    hide Oscillates, RegIs, Uniform, CodeDomain, P.Descending;
    StatesOscillate(v);
    UniformIs(B.Dead);
    UniformIs(B.Immediate);
    NoRankFalls(CodeDomain(v, PassEmulation()), (y: Bytes) => RegIs(y, B.Dead), (y: Bytes) => RegIs(y, B.Unknown), (y: Bytes) => RegIs(y, B.Immediate),
      rank, Uniform(B.Dead), Uniform(B.Immediate));
    if P.Descending(CodeDomain(v, m), rank) { JoinAlone(v, m, PassEmulation(), rank); }
  }

  // ---- nothing else is to blame ----
  /** One of the four kinds of instruction, with its number in the function. */
  ghost predicate LoopInstr(i: Instr) {
    i.id in KEEP && (if i.id == 0 then i == Mov(0) else if i.id == 2 || i.id == 5 then i == Use(i.id)
                     else if i.id == 4 then i == Return(4) else i == Jcc(i.id))
  }

  lemma LoopInstrIs(b: BlockId, k: nat)
    requires b in Loop().blocks && k < |Loop().blocks[b].instrs|
    ensures LoopInstr(Loop().blocks[b].instrs[k])
  {
    hide Mov, Jcc, Use, Return;
    IdsAre();
  }

  lemma IdsAre()
    ensures forall id :: Mov(id).id == id && Jcc(id).id == id && Use(id).id == id && Return(id).id == id
  {
  }

  lemma InstrMasks(i: Instr, s: State)
    requires LoopInstr(i)
    ensures SoundAt(i, s)
  {
    var info := i.EffectiveInfo();
    forall t: State | Agree(s, t, info.predicateRegs) ensures i.holds(t) == i.holds(s) {
      assert i.hasPredicate ==> FLAG in info.predicateRegs;
    }
    forall t: State | Agree(s, t, info.readRegs) && t.mem == s.mem ensures SameEffect(i, info, s, t) {
      assert i.id == 2 || i.id == 5 ==> REG in info.readRegs;
    }
  }

  lemma LoopMasks()
    ensures L.MasksIn(LOOP_ABI, Loop()) && ChainsEnd(Loop(), map[0 := 0, 1 := 1])
  {
    var f := Loop();
    forall b, k | b in f.blocks && 0 <= k < |f.blocks[b].instrs| ensures f.blocks[b].instrs[k].EffectiveInfo().Regs() <= LOOP_ABI.allRegs {
      LoopInstrIs(b, k);
      hide Loop;
    }
  }

  lemma LoopCover(cover: set<BlockId>)
    requires A.Closed(Loop(), {0}, cover) && forall c | A.Closed(Loop(), {0}, c) :: cover <= c
    ensures cover == {0, 1}
  {
    hide Mov, Jcc, Use, Return;
    var f := Loop();
    assert A.Closed(f, {0}, {0, 1});
    assert 0 in cover && 1 in Preds(f.blocks[0]);
  }

  /** What is alive before each instruction is a matter of what is alive at the loop's entry alone. */
  lemma LoopBefore(live: L.LiveMap)
    requires live.Keys == {0, 1} && forall b | b in live :: L.Solved(LOOP_ABI, Loop(), live, b) && live[b].liveIn <= LOOP_ABI.allRegs
    ensures live[0].liveIn == {FLAG} && live[1].liveIn == {REG, FLAG}
    ensures forall k | 0 <= k < 5 :: L.LiveAt(LOOP_ABI, Loop(), live, 0, k + 1) == AliveBehind(k) && !L.DeadAt(LOOP_ABI, Loop(), live, 0, k)
    ensures L.LiveAt(LOOP_ABI, Loop(), live, 1, 1) == AliveBehind(5) && !L.DeadAt(LOOP_ABI, Loop(), live, 1, 0)
  {
    var f, x := Loop(), live[0].liveIn;
    var instrs := f.blocks[0].instrs;
    assert L.Solved(LOOP_ABI, f, live, 0) && L.Solved(LOOP_ABI, f, live, 1);
    BeforeReturn(live);
    BeforeJcc(live, 3, {});
    BeforeUse(live, 2, x + {FLAG});
    BeforeJcc(live, 1, x + {REG, FLAG});
    BeforeMov(live, 0, x + {REG, FLAG});
    BeforeUse(live, 5, x);
    hide Mov, Jcc, Use, Return, L.InstrLiveIn, L.IsDead;
    assert L.LiveBefore(LOOP_ABI, instrs, 5, {}, live) == {};
    assert L.LiveBefore(LOOP_ABI, instrs, 4, {}, live) == {};
    assert L.LiveBefore(LOOP_ABI, instrs, 3, {}, live) == x + {FLAG};
    assert L.LiveBefore(LOOP_ABI, instrs, 2, {}, live) == x + {REG, FLAG};
    assert L.LiveBefore(LOOP_ABI, instrs, 1, {}, live) == x + {REG, FLAG};
    assert L.LiveBefore(LOOP_ABI, instrs, 0, {}, live) == x + {REG, FLAG} - {REG};
    assert x == {FLAG} by { assert x <= {REG, FLAG}; }
    assert L.LiveBefore(LOOP_ABI, f.blocks[1].instrs, 1, x, live) == x;
  }

  lemma BeforeReturn(live: L.LiveMap)
    ensures L.InstrLiveIn(LOOP_ABI, Return(4), {}, live) == {} && !L.IsDead(Return(4), {})
  {
  }

  lemma BeforeJcc(live: L.LiveMap, id: InstrId, out: set<Reg>)
    requires 0 in live
    ensures L.InstrLiveIn(LOOP_ABI, Jcc(id), out, live) == out + live[0].liveIn + {FLAG} && !L.IsDead(Jcc(id), out)
  {
  }

  lemma BeforeUse(live: L.LiveMap, id: InstrId, out: set<Reg>)
    ensures L.InstrLiveIn(LOOP_ABI, Use(id), out, live) == out + {REG} && !L.IsDead(Use(id), out)
  {
  }

  lemma BeforeMov(live: L.LiveMap, id: InstrId, out: set<Reg>)
    requires REG in out
    ensures L.InstrLiveIn(LOOP_ABI, Mov(id), out, live) == out - {REG} && !L.IsDead(Mov(id), out)
  {
    assert REG !in out - {REG} - {};
  }

  lemma LoopMark(live: L.LiveMap, marks: map<InstrId, L.LivenessData>, id: InstrId)
    requires live.Keys == {0, 1} && id in KEEP
    requires forall b | b in Loop().blocks && b in live :: A.Marked(LOOP_ABI, Loop(), live, marks, b)
    requires forall k | 0 <= k < 5 :: L.LiveAt(LOOP_ABI, Loop(), live, 0, k + 1) == AliveBehind(k) && !L.DeadAt(LOOP_ABI, Loop(), live, 0, k)
    requires L.LiveAt(LOOP_ABI, Loop(), live, 1, 1) == AliveBehind(5) && !L.DeadAt(LOOP_ABI, Loop(), live, 1, 0)
    ensures id in marks && marks[id].liveOut == AliveBehind(id)
  {
    var b, k := if id == 5 then 1 else 0, if id == 5 then 0 else id;
    assert A.Marked(LOOP_ABI, Loop(), live, marks, b);
    LoopSizes();
    hide Loop, L.LiveAt, L.DeadAt, AliveBehind;
    assert A.MarkedAt(LOOP_ABI, Loop(), live, marks, b, k);
  }

  lemma LoopSizes()
    ensures var f := Loop();
            && f.blocks.Keys == {0, 1} && |f.blocks[0].instrs| == 5 && |f.blocks[1].instrs| == 1 && f.blocks[1].instrs[0].id == 5
            && forall k | 0 <= k < 5 :: f.blocks[0].instrs[k].id == k
  {
  }

  lemma LoopChained()
    ensures Chained(Loop())
  {
    hide Mov, Jcc, Use, Return;
  }

  lemma LoopLinked()
    ensures WellLinked(Loop())
  {
    hide Targets, UniqueIds, Chained;
    LoopTargets();
    LoopIds();
    LoopChained();
  }

  lemma LoopTargets()
    ensures forall b, t | b in Loop().blocks && t in Targets(Loop().blocks[b].instrs) :: t == 0 && b == 0
  {
    forall b, t | b in Loop().blocks && t in Targets(Loop().blocks[b].instrs) ensures t == 0 && b == 0 {
      var instrs := Loop().blocks[b].instrs;
      var k :| 0 <= k < |instrs| && instrs[k].kind.Branch? && instrs[k].kind.edge == Some(t);
    }
  }

  lemma LoopIds()
    ensures UniqueIds(Loop())
  {
    var f := Loop();
    forall id | id in Ids(f.blocks[0].instrs) ensures id < 5 {
    }
    forall id | id in Ids(f.blocks[1].instrs) ensures id == 5 {
    }
    assert Ids(f.blocks[0].instrs) !! Ids(f.blocks[1].instrs);
  }

  /** Whatever liveness analysis of the function from its return block leaves: all instructions have data, and an operand is
      dead behind an instruction exactly where the emulation marks it dead. */
  lemma LoopLiveness(live: L.LiveMap, marks: map<InstrId, L.LivenessData>)
    requires E.Analysed(LOOP_ABI, Loop(), {0}, live, marks)
    ensures live.Keys == {0, 1} && live[0].liveIn == {FLAG} && live[1].liveIn == {REG, FLAG}
    ensures forall id | id in KEEP :: id in marks && marks[id].liveOut == AliveBehind(id)
    ensures forall b, k | b in Loop().blocks && 0 <= k < |Loop().blocks[b].instrs| ::
              var i := Loop().blocks[b].instrs[k]; i.id in KEEP && DeadBehind(marks, Operands())(i) == Operands()(i) - AliveBehind(i.id)
  {
    LoopLinked();
    E.AnalysedFacts(LOOP_ABI, Loop(), {0}, live, marks);
    SmallestCover(live, marks);
    LoopCover(live.Keys);
    hide E.Analysed, A.Closed, WellLinked, L.Solved;
    var f := Loop();
    LoopBefore(live);
    hide Loop;
    forall id | id in KEEP ensures id in marks && marks[id].liveOut == AliveBehind(id) { LoopMark(live, marks, id); }
    hide AliveBehind, LoopInstr;
    forall b, k | b in f.blocks && 0 <= k < |f.blocks[b].instrs|
      ensures var i := f.blocks[b].instrs[k]; i.id in KEEP && DeadBehind(marks, Operands())(i) == Operands()(i) - AliveBehind(i.id)
    {
      LoopInstrIs(b, k);
      DeadBehindIs(marks, f.blocks[b].instrs[k]);
    }
  }

  lemma DeadBehindIs(marks: map<InstrId, L.LivenessData>, i: Instr)
    requires LoopInstr(i) && forall id | id in KEEP :: id in marks && marks[id].liveOut == AliveBehind(id)
    ensures i.id in KEEP && DeadBehind(marks, Operands())(i) == Operands()(i) - AliveBehind(i.id)
  {
    hide AliveBehind, Operands, Mov, Jcc, Use, Return;
  }

  lemma SmallestCover(live: L.LiveMap, marks: map<InstrId, L.LivenessData>)
    requires E.Analysed(LOOP_ABI, Loop(), {0}, live, marks)
    ensures A.Closed(Loop(), {0}, live.Keys) && forall cover | A.Closed(Loop(), {0}, cover) :: live.Keys <= cover
  {
    hide Loop;
  }

  // ---- the emulation is sound ----

  /** Registers as bytes, nothing derived from the stack. */
  function Shown(w: Word, n: nat): (cs: seq<B.CByte>)
    ensures |cs| == n
  {
    var bs := B.Bytes(w % B.Pow256(n), n);
    seq(n, k requires 0 <= k < n => B.CByte(bs[k], false))
  }

  function ByteLayout(): Layout {
    Layout((s: State) => seq(REG_COUNT, i requires 0 <= i < REG_COUNT => Shown(s.regs(i), Width(i))),
           (s: State) => (off: int) => B.CByte(0, false),
           (s: State) => (ty: B.DynType, nr: int) => 0)
  }

  lemma Unmasked(t: set<Reg>, x: Bytes, s: State)
    ensures Stands(Masked(ByteLayout(), t), x, s) <==> Stands(ByteLayout(), x, s)
  {
    hide Shown, StateOk, StandsRegs, StandsFrame;
    var cs := ByteLayout().regs(s);
    assert MaskRegs(cs, t) == cs by {
      forall i | 0 <= i < |cs| ensures MaskRegs(cs, t)[i] == cs[i] { ShownClean(s.regs(i), Width(i)); }
    }
  }

  lemma ShownClean(w: Word, n: nat)
    ensures R.Clean(Shown(w, n)) == Shown(w, n)
  {
  }

  lemma ShownFive()
    ensures B.ValueDescribes(B.Imm(5), Shown(5, 8), (ty: B.DynType, nr: int) => 0)
  {
    B.PowEight();
    assert B.Pow256(8) > 5 && 5 % B.Pow256(8) == 5;
    hide B.Pow256;
    assert B.Vals(Shown(5, 8)) == B.Bytes(5, 8);
  }

  /** The register holds the five the machine's holds. */
  lemma FiveDescribes(es: seq<B.Elem>, cs: seq<B.CByte>)
    requires |es| == 8 && B.HeadsOk(es) && B.Describes(es, cs, (ty: B.DynType, nr: int) => 0)
    ensures B.Describes(Stored(es, B.Imm(5)), Shown(5, 8), (ty: B.DynType, nr: int) => 0)
  {
    var env: B.Env := (ty: B.DynType, nr: int) => 0;
    ShownFive();
    B.DescribesLength(es, cs, env);
    hide B.HeadsOk, B.ValueDescribes, Shown, B.TaintLost;
    NoneLost(es, cs);
    if B.SetElements(es, 0, 8, B.Imm(5), false).Some? {
      hide B.SetElements, B.Describes;
      B.SetSound(es, 0, 8, B.Imm(5), cs, Shown(5, 8), env);
      assert B.Overwrite(cs, 0, Shown(5, 8)) == Shown(5, 8);
    } else {
      hide B.SetElements;
      var r := Stored(es, B.Imm(5));
      forall k | 0 <= k < 8 ensures B.ByteDescribed(r, Shown(5, 8), env, k) { assert B.TypeAt(r, k) == B.Tainted; }
    }
  }

  lemma MovStands(x: Bytes, s: State)
    requires Stands(ByteLayout(), x, s)
    ensures Stands(ByteLayout(), SetReg(x, REG, B.Imm(5)), Mov(0).Effect(s))
  {
    var v, y, s' := ByteLayout(), SetReg(x, REG, B.Imm(5)), Mov(0).Effect(s);
    RegAlone(x);
    SetOk(x, B.Imm(5));
    assert forall r: Reg :: s'.regs(r) == if r == REG then 5 else s.regs(r);
    hide StateOk, Stored, Shown, B.Describes, Mov;
    forall i | 0 <= i < |y.regs| ensures B.Describes(y.regs[i], v.regs(s')[i], v.env(s')) {
      assert B.Describes(x.regs[i], v.regs(s)[i], v.env(s));
      if i == REG { FiveDescribes(x.regs[REG], v.regs(s)[REG]); }
    }
  }

  lemma StillStands(x: Bytes, rs: set<Reg>, s: State, s': State)
    requires Stands(ByteLayout(), x, s) && s'.regs == s.regs
    ensures Stands(ByteLayout(), Kill(x, rs), s')
  {
    Unmasked({}, x, s);
    KillStands(ByteLayout(), {}, x, rs, s);
    Unmasked({}, Kill(x, rs), s);
    hide Kill, StateOk, Shown, B.Describes;
  }

  /** One instruction of the function, with the pass' emulation. */
  lemma InstrStands(i: Instr, x: Bytes, s: State)
    requires LoopInstr(i) && Stands(ByteLayout(), x, s)
    ensures Stands(ByteLayout(), PassEmulation().transfer(i, x), i.Effect(s))
    ensures PassEmulation().outcome(i, x) == (if i.hasPredicate then Unknown else True) && (!i.hasPredicate ==> i.holds(s))
    ensures !i.kind.Call? && (i.kind.Branch? && i.kind.edge.Some? ==> i.kind.edge.value == 0)
  {
    if i.id == 0 {
      Transfers(x);
      MovStands(x, s);
    } else {
      var rs := Operands()(i) - AliveBehind(i.id);
      assert PassEmulation().transfer(i, x) == Kill(x, rs);
      assert i.Effect(s).regs == s.regs;
      hide Stands, Kill, Operands, AliveBehind;
      StillStands(x, rs, s, i.Effect(s));
    }
  }

  /** Whatever registers are tracked: nothing is derived from the stack. */
  lemma Described(v: View, b: BlockId, k: nat, x: Bytes, s: State)
    requires v.layout == ByteLayout()
    ensures CodeDomain(v, PassEmulation()).gamma(b, k, x, s) <==> Stands(ByteLayout(), x, s)
  {
    hide Stands, Masked, PassEmulation, ByteLayout;
    Unmasked(v.tracked(b, k), x, s);
    assert Here(v, b, k) == Masked(ByteLayout(), v.tracked(b, k));
    assert CodeDomain(v, PassEmulation()).gamma(b, k, x, s) == Stands(Here(v, b, k), x, s);
  }

  lemma DomainIs(v: View)
    ensures var d, m := CodeDomain(v, PassEmulation()), PassEmulation(); d.transfer == m.transfer && d.outcome == m.outcome
  {
    hide PassEmulation;
  }

  lemma InstrIsSound(v: View, b: BlockId, k: nat, i: Instr)
    requires LoopInstr(i) && v.layout == ByteLayout()
    ensures InstrSound(CodeDomain(v, PassEmulation()), b, k, i)
  {
    var d := CodeDomain(v, PassEmulation());
    DomainIs(v);
    hide Stands, ByteLayout, CodeDomain, PassEmulation, LoopInstr;
    forall x: Bytes, s: State | d.gamma(b, k, x, s) ensures EmulationSound(d, b, k, i, x, s) {
      Described(v, b, k, x, s);
      InstrStands(i, x, s);
      Described(v, b, k + 1, d.transfer(i, x), i.Effect(s));
      Described(v, 0, 0, d.transfer(i, x), i.Effect(s));
    }
  }

  /** The function is a proper one, its masks describe its instructions, and its emulation by the pass is sound, whatever
      registers are tracked; and so is the join. */
  lemma LoopIsSound(v: View)
    requires v.layout == ByteLayout()
    ensures WellLinked(Loop()) && L.MasksIn(LOOP_ABI, Loop()) && ChainsEnd(Loop(), map[0 := 0, 1 := 1])
    ensures forall b, k, s | b in Loop().blocks && 0 <= k < |Loop().blocks[b].instrs| :: SoundAt(Loop().blocks[b].instrs[k], s)
    ensures SoundEmulation(CodeDomain(v, PassEmulation()), KEEP, Loop()) && SoundJoin(CodeDomain(v, PassEmulation()))
  {
    LoopLinked();
    LoopMasks();
    CodeJoinSound(v, PassEmulation());
    var f, d := Loop(), CodeDomain(v, PassEmulation());
    hide WellLinked, InstrSound, Loop, SoundAt, SoundJoin, L.MasksIn, ChainsEnd, CodeDomain;
    forall b, k, s | b in f.blocks && 0 <= k < |f.blocks[b].instrs| ensures SoundAt(f.blocks[b].instrs[k], s) {
      LoopInstrIs(b, k);
      InstrMasks(f.blocks[b].instrs[k], s);
    }
    forall b | b in f.blocks ensures BlockSound(d, KEEP, b, f.blocks[b]) { LoopBlockSound(v, b); }
  }

  lemma LoopBlockSound(v: View, b: BlockId)
    requires v.layout == ByteLayout() && b in Loop().blocks
    ensures BlockSound(CodeDomain(v, PassEmulation()), KEEP, b, Loop().blocks[b])
  {
    var blk, d := Loop().blocks[b], CodeDomain(v, PassEmulation());
    hide InstrSound, FallSound, Loop, PassEmulation, CodeDomain;
    forall k | 0 <= k < |blk.instrs| ensures blk.instrs[k].id in KEEP && InstrSound(d, b, k, blk.instrs[k]) {
      LoopInstrIs(b, k);
      InstrIsSound(v, b, k, blk.instrs[k]);
    }
    if blk.next.Some? { FallIsSound(v, b, |blk.instrs|, blk.next.value); }
  }

  lemma FallIsSound(v: View, b: BlockId, k: nat, n: BlockId)
    requires v.layout == ByteLayout()
    ensures FallSound(CodeDomain(v, PassEmulation()), b, k, n)
  {
    hide Stands, ByteLayout, CodeDomain, PassEmulation;
    var d := CodeDomain(v, PassEmulation());
    forall x: Bytes, s: State | d.gamma(b, k, x, s) ensures d.gamma(n, 0, x, s) {
      Described(v, b, k, x, s);
      Described(v, n, 0, x, s);
    }
  }
}

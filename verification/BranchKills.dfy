/** A conditional branch whose flag is read again at its target, and not behind it: what is handed to the target has the
    flag dead, though it is alive there. */
module BranchKills {
  import opened Machine
  import opened Links
  import opened StateJoin
  import opened DeadRegisters
  import B = ProgramState
  import E = DeadCodePass
  import L = Liveness
  import A = LivenessPass

  const FLAG: Reg := 0
  const FLAG_ABI := Abi({}, {FLAG})

  function Jcc(): Instr {
    Instr(0, Branch(Some(1)), true, Info({}, {}, {}, {FLAG}, false, Unknown), None, (s: State) => s.regs(FLAG) == 1, (s: State) => s)
  }

  /** Store the flag. */
  function Store(): Instr {
    Instr(2, Plain, false, Info({FLAG}, {}, {}, {}, true, True), None, (s: State) => true, (s: State) => State(s.regs, s.mem[0 := s.regs(FLAG)]))
  }

  function Return(id: InstrId): Instr {
    Instr(id, Ret, false, Info({}, {}, {}, {}, false, True), None, (s: State) => true, (s: State) => s)
  }

  function FlagTwice(): Cfg {
    Cfg(map[0 := Block([Jcc(), Return(1)], None, None, []), 1 := Block([Store(), Return(3)], None, None, [0])])
  }

  /** What an instruction reads, writes, or has its predicate on. */
  function Operands(): Instr -> set<Reg> {
    (i: Instr) => i.info.readRegs + i.info.writtenRegs + i.info.condWrittenRegs + i.info.predicateRegs
  }

  lemma AliveFlag(live: L.LiveMap, marks: map<InstrId, L.LivenessData>)
    requires E.Analysed(FLAG_ABI, FlagTwice(), {0, 1}, live, marks)
    ensures 0 in live && 1 in live && live[1].liveIn == {FLAG} && 0 in marks && marks[0].liveOut == {}
  {
    var f := FlagTwice();
    E.AnalysedFacts(FLAG_ABI, f, {0, 1}, live, marks);
    hide E.Analysed;
    assert 0 in live && 1 in live;
    assert L.Solved(FLAG_ABI, f, live, 1);
    BeforeStore(live);
    assert A.Marked(FLAG_ABI, f, live, marks, 0);
    JccMark(live);
    hide A.Closed, FlagTwice, L.LiveAt;
    assert A.MarkedAt(FLAG_ABI, f, live, marks, 0, 0);
  }

  lemma BeforeStore(live: L.LiveMap)
    ensures L.BlockLiveIn(FLAG_ABI, FlagTwice().blocks[1], live) == {FLAG}
  {
    var instrs := FlagTwice().blocks[1].instrs;
    assert L.LiveBefore(FLAG_ABI, instrs, 2, {}, live) == {};
    assert L.LiveBefore(FLAG_ABI, instrs, 1, {}, live) == {};
    assert L.LiveBefore(FLAG_ABI, instrs, 0, {}, live) == {FLAG};
  }

  lemma JccMark(live: L.LiveMap)
    ensures var f := FlagTwice();
            && 0 in f.blocks && |f.blocks[0].instrs| == 2 && f.blocks[0].instrs[0] == Jcc()
            && L.LiveAt(FLAG_ABI, f, live, 0, 1) == {} && !L.DeadAt(FLAG_ABI, f, live, 0, 0)
  {
    var instrs := FlagTwice().blocks[0].instrs;
    assert L.LiveBefore(FLAG_ABI, instrs, 2, {}, live) == {};
  }

  // ---- a state with the flag tainted ----

  function TaintedLayout(): Layout {
    Layout((s: State) => seq(REG_COUNT, i requires 0 <= i < REG_COUNT => seq(Width(i), k => B.CByte(0, i == FLAG))),
           (s: State) => (off: int) => B.CByte(0, false),
           (s: State) => (ty: B.DynType, nr: int) => 0)
  }

  function TaintedState(): Bytes {
    Bytes(seq(REG_COUNT, i requires 0 <= i < REG_COUNT => seq(Width(i), k => B.Elem(if i == FLAG then B.Tainted else B.Unknown, 0, 0))), DeadFrame)
  }

  lemma TaintedStands(s: State)
    ensures Stands(Masked(TaintedLayout(), {FLAG}), TaintedState(), s)
    ensures |TaintedState().regs| == REG_COUNT && TaintedState().regs[FLAG] == [B.Elem(B.Tainted, 0, 0)]
    ensures |TaintedLayout().regs(s)| == REG_COUNT && TaintedLayout().regs(s)[FLAG] == [B.CByte(0, true)]
  {
    var v, x := TaintedLayout(), TaintedState();
    var cs := MaskRegs(v.regs(s), {FLAG});
    forall i | 0 <= i < REG_COUNT ensures RegOk(x.regs, i) && B.Describes(x.regs[i], cs[i], v.env(s)) {
      forall k | 0 <= k < |x.regs[i]| ensures B.ByteDescribed(x.regs[i], cs[i], v.env(s), k) {
        assert B.TypeAt(x.regs[i], k) == if i == FLAG then B.Tainted else B.Unknown;
      }
    }
  }

  lemma FlagDies()
    ensures Kills([B.Elem(B.Tainted, 0, 0)])
  {
    var es := [B.Elem(B.Tainted, 0, 0)];
    assert B.Mark(es, 0, 1, 1) == B.Some(es);
  }

  // ---- a proper function ----

  ghost predicate TwiceInstr(i: Instr) { i == Jcc() || i == Store() || i == Return(i.id) }

  lemma TwiceInstrIs(b: BlockId, k: nat)
    requires b in FlagTwice().blocks && k < |FlagTwice().blocks[b].instrs|
    ensures TwiceInstr(FlagTwice().blocks[b].instrs[k])
  {
    assert Return(1).id == 1 && Return(3).id == 3;
    hide Jcc, Store, Return;
  }

  lemma InstrMasks(i: Instr, s: State)
    requires TwiceInstr(i)
    ensures SoundAt(i, s) && i.EffectiveInfo().Regs() <= FLAG_ABI.allRegs
  {
    var info := i.EffectiveInfo();
    forall t: State | Agree(s, t, info.predicateRegs) ensures i.holds(t) == i.holds(s) {
      assert i.hasPredicate ==> FLAG in info.predicateRegs;
    }
    forall t: State | Agree(s, t, info.readRegs) && t.mem == s.mem ensures SameEffect(i, info, s, t) {
      assert i == Store() ==> FLAG in info.readRegs;
    }
  }

  lemma TwiceLinked()
    ensures WellLinked(FlagTwice())
  {
    TwiceTargets();
    TwiceIds();
    hide Targets, UniqueIds, Jcc, Store, Return;
  }

  lemma TwiceTargets()
    ensures forall b, t | b in FlagTwice().blocks && t in Targets(FlagTwice().blocks[b].instrs) :: t == 1 && b == 0
  {
    forall b, t | b in FlagTwice().blocks && t in Targets(FlagTwice().blocks[b].instrs) ensures t == 1 && b == 0 {
      var instrs := FlagTwice().blocks[b].instrs;
      var k :| 0 <= k < |instrs| && instrs[k].kind.Branch? && instrs[k].kind.edge == Some(t);
    }
  }

  lemma TwiceIds()
    ensures UniqueIds(FlagTwice())
  {
    var f := FlagTwice();
    assert Ids(f.blocks[0].instrs) <= {0, 1} && Ids(f.blocks[1].instrs) <= {2, 3};
  }

  lemma TwiceMasks()
    ensures L.MasksIn(FLAG_ABI, FlagTwice())
    ensures forall b, k, s | b in FlagTwice().blocks && 0 <= k < |FlagTwice().blocks[b].instrs| :: SoundAt(FlagTwice().blocks[b].instrs[k], s)
  {
    var f := FlagTwice();
    hide FlagTwice, SoundAt, TwiceInstr;
    forall b, k, s | b in f.blocks && 0 <= k < |f.blocks[b].instrs|
      ensures SoundAt(f.blocks[b].instrs[k], s)
    {
      TwiceInstrIs(b, k);
      InstrMasks(f.blocks[b].instrs[k], s);
    }
    forall b, k | b in f.blocks && 0 <= k < |f.blocks[b].instrs| ensures f.blocks[b].instrs[k].EffectiveInfo().Regs() <= FLAG_ABI.allRegs {
      TwiceInstrIs(b, k);
      InstrMasks(f.blocks[b].instrs[k], State(r => 0, map[]));
    }
  }

  /** A proper function. Whatever liveness analysis of it leaves, the branch does not spare its flag; and a state that tells that
      the flag is tainted does not stand for the machine state any more, when it is handed to the target, where the
      flag is alive. */
  lemma AliveFlagLost(live: L.LiveMap, marks: map<InstrId, L.LivenessData>, s: State)
    requires E.Analysed(FLAG_ABI, FlagTwice(), {0, 1}, live, marks)
    ensures WellLinked(FlagTwice()) && L.MasksIn(FLAG_ABI, FlagTwice())
    ensures forall b, k, t | b in FlagTwice().blocks && 0 <= k < |FlagTwice().blocks[b].instrs| :: SoundAt(FlagTwice().blocks[b].instrs[k], t)
    ensures !BranchesSpare(FlagTwice(), live, marks, Operands())
    ensures Alive(FLAG_ABI, FlagTwice(), live, 1, 0) == {FLAG} && DeadBehind(marks, Operands())(Jcc()) == {FLAG}
    ensures Stands(Masked(TaintedLayout(), {FLAG}), TaintedState(), s)
    ensures !Stands(Masked(TaintedLayout(), {FLAG}), Kill(TaintedState(), {FLAG}), s)
  {
    TwiceLinked();
    TwiceMasks();
    hide WellLinked, L.MasksIn, SoundAt;
    AliveFlag(live, marks);
    JccMark(live);
    E.AnalysedFacts(FLAG_ABI, FlagTwice(), {0, 1}, live, marks);
    EntryAlive(TaintedLayout(), FLAG_ABI, FlagTwice(), live, 1);
    hide E.Analysed, A.Closed, L.Solved, A.Marked, L.LiveAt, L.DeadAt;
    assert 1 in FlagTwice().blocks;
    assert FLAG in Operands()(Jcc());
    hide FlagTwice;
    assert !BranchSpares(FlagTwice(), live, marks, Operands(), Jcc());
    TaintedStands(s);
    FlagDies();
    hide Kills, Kill, TaintedState, TaintedLayout, Masked, Stands;
    KillStandsIff(TaintedLayout(), {FLAG}, {FLAG}, TaintedState(), {FLAG}, s);
    assert !B.Untainted([B.CByte(0, true)]) by { assert [B.CByte(0, true)][0].taint; }
  }
}

/** The liveness equations: what a superblock needs alive at its entry, given what is alive at
    the entries of its successors. The equations are "strong": an instruction whose writes are
    all dead does not make the registers it reads live. */
module Liveness {
  import opened Machine

  datatype LivenessData = LivenessData(liveIn: set<Reg>, liveOut: set<Reg>)

  /** Liveness data per block. A block without an entry has none attached. */
  type LiveMap = map<BlockId, LivenessData>

  function LiveInOf(live: LiveMap, b: BlockId): set<Reg> {
    if b in live then live[b].liveIn else {}
  }

  /** The instruction can go: no control flow, no memory write, no written register alive. */
  predicate IsDead(i: Instr, live: set<Reg>) {
    var info := i.EffectiveInfo();
    i.kind.Plain? && !info.mayWriteMem && live - info.writtenRegs - info.condWrittenRegs == live
  }

  /** Registers alive before an instruction that has been found necessary. */
  function NeededLiveIn(a: Abi, i: Instr, live: set<Reg>, blocks: LiveMap): set<Reg> {
    var info := i.EffectiveInfo();
    var kept := if info.willExecute == True then live - info.writtenRegs else live;
    var used :=
      if info.willExecute == False then live
      else match i.kind
        case Plain => kept + info.readRegs
        case Ret => a.liveRet
        case Call => a.allRegs
        case Branch(Some(d)) => kept + info.readRegs + LiveInOf(blocks, d)
        case Branch(None) => a.allRegs;
    used + info.predicateRegs
  }

  function InstrLiveIn(a: Abi, i: Instr, live: set<Reg>, blocks: LiveMap): set<Reg> {
    if IsDead(i, live) then live else NeededLiveIn(a, i, live, blocks)
  }

  /** Registers alive before instruction k of a block at whose end `out` is alive. */
  function LiveBefore(a: Abi, instrs: seq<Instr>, k: nat, out: set<Reg>, blocks: LiveMap): set<Reg>
    decreases |instrs| - k
  {
    if k >= |instrs| then out
    else InstrLiveIn(a, instrs[k], LiveBefore(a, instrs, k + 1, out, blocks), blocks)
  }

  function BlockLiveOut(b: Block, blocks: LiveMap): set<Reg> {
    if b.next.Some? then LiveInOf(blocks, b.next.value) else {}
  }

  function BlockLiveIn(a: Abi, b: Block, blocks: LiveMap): set<Reg> {
    LiveBefore(a, b.instrs, 0, BlockLiveOut(b, blocks), blocks)
  }

  /** Block b satisfies the equations. */
  ghost predicate Solved(a: Abi, f: Cfg, live: LiveMap, b: BlockId) {
    && b in live && b in f.blocks
    && (f.blocks[b].next.Some? ==> f.blocks[b].next.value in live)
    && live[b].liveOut == BlockLiveOut(f.blocks[b], live)
    && live[b].liveIn == BlockLiveIn(a, f.blocks[b], live)
  }

  /** Alive before instruction k of block b, once the analysis is done. */
  function LiveAt(a: Abi, f: Cfg, live: LiveMap, b: BlockId, k: nat): set<Reg>
    requires b in f.blocks
  {
    LiveBefore(a, f.blocks[b].instrs, k, BlockLiveOut(f.blocks[b], live), live)
  }

  /** The analysis leaves no liveness data on instruction k of block b. */
  predicate DeadAt(a: Abi, f: Cfg, live: LiveMap, b: BlockId, k: nat)
    requires b in f.blocks && k < |f.blocks[b].instrs|
  {
    IsDead(f.blocks[b].instrs[k], LiveAt(a, f, live, b, k + 1))
  }

  // ---- what it comes to, register by register ----

  /** An instruction matters if it is about control, may write memory, or writes a register alive behind it. */
  ghost predicate Matters(i: Instr, behind: set<Reg>) {
    var info := i.EffectiveInfo();
    !i.kind.Plain? || info.mayWriteMem || exists r :: r in behind && (r in info.writtenRegs || r in info.condWrittenRegs)
  }

  /** Why a register is alive before an instruction that matters: the predicate reads it; or the instruction may execute and
      reads it, or hands it to a caller, a callee, unknown code or the target of a branch; or it is alive behind and not
      sure to be written. */
  predicate NeededBefore(a: Abi, i: Instr, behind: set<Reg>, live: LiveMap, r: Reg) {
    var info := i.EffectiveInfo();
    var survives := r in behind && !(info.willExecute == True && r in info.writtenRegs);
    || r in info.predicateRegs
    || (if info.willExecute == False then r in behind
        else match i.kind
          case Plain => r in info.readRegs || survives
          case Branch(Some(d)) => r in info.readRegs || survives || (d in live && r in live[d].liveIn)
          case Branch(None) => r in a.allRegs
          case Call => r in a.allRegs
          case Ret => r in a.liveRet)
  }

  /** Before an instruction that does not matter alive is what is behind it, before another what is needed there. */
  ghost predicate Flows(a: Abi, i: Instr, before: set<Reg>, behind: set<Reg>, live: LiveMap) {
    if Matters(i, behind) then forall r :: r in before <==> NeededBefore(a, i, behind, live, r) else before == behind
  }

  /** Through block b, from its end to its entry; keep has exactly the instructions that matter. */
  ghost predicate Explained(a: Abi, f: Cfg, live: LiveMap, keep: set<InstrId>, b: BlockId)
    requires b in f.blocks && b in live
  {
    var instrs, next := f.blocks[b].instrs, f.blocks[b].next;
    && LiveAt(a, f, live, b, 0) == live[b].liveIn
    && LiveAt(a, f, live, b, |instrs|) == (if next.Some? && next.value in live then live[next.value].liveIn else {})
    && forall k | 0 <= k < |instrs| ::
         && Flows(a, instrs[k], LiveAt(a, f, live, b, k), LiveAt(a, f, live, b, k + 1), live)
         && (instrs[k].id in keep <==> Matters(instrs[k], LiveAt(a, f, live, b, k + 1)))
  }

  lemma DeadMatters(i: Instr, live: set<Reg>)
    ensures IsDead(i, live) <==> !Matters(i, live)
  {
    var info := i.EffectiveInfo();
    if r :| r in live && (r in info.writtenRegs || r in info.condWrittenRegs) {
      assert r !in live - info.writtenRegs - info.condWrittenRegs;
    }
  }

  lemma InstrFlows(a: Abi, i: Instr, behind: set<Reg>, live: LiveMap)
    ensures Flows(a, i, InstrLiveIn(a, i, behind, live), behind, live)
  {
    DeadMatters(i, behind);
    hide Matters, IsDead;
  }

  lemma SolvedExplains(a: Abi, f: Cfg, live: LiveMap, keep: set<InstrId>, b: BlockId)
    requires Solved(a, f, live, b)
    requires forall k | 0 <= k < |f.blocks[b].instrs| :: f.blocks[b].instrs[k].id in keep <==> !DeadAt(a, f, live, b, k)
    ensures Explained(a, f, live, keep, b)
  {
    hide Flows, Matters, IsDead, InstrLiveIn;
    forall k | 0 <= k < |f.blocks[b].instrs|
      ensures Flows(a, f.blocks[b].instrs[k], LiveAt(a, f, live, b, k), LiveAt(a, f, live, b, k + 1), live)
      ensures DeadAt(a, f, live, b, k) <==> !Matters(f.blocks[b].instrs[k], LiveAt(a, f, live, b, k + 1))
    {
      InstrFlows(a, f.blocks[b].instrs[k], LiveAt(a, f, live, b, k + 1), live);
      DeadMatters(f.blocks[b].instrs[k], LiveAt(a, f, live, b, k + 1));
    }
  }

  /** One map has at least the registers of the other at every block. */
  ghost predicate Below(x: LiveMap, y: LiveMap) {
    forall b :: LiveInOf(x, b) <= LiveInOf(y, b)
  }

  lemma InstrMonotone(a: Abi, i: Instr, l: set<Reg>, l': set<Reg>, x: LiveMap, y: LiveMap)
    requires l <= l' && Below(x, y)
    ensures InstrLiveIn(a, i, l, x) <= InstrLiveIn(a, i, l', y)
  {
    var info := i.EffectiveInfo();
    if IsDead(i, l') {
      assert l - info.writtenRegs - info.condWrittenRegs == l by {
        forall r | r in l ensures r in l - info.writtenRegs - info.condWrittenRegs {
          assert r in l' - info.writtenRegs - info.condWrittenRegs;
        }
      }
    } else if IsDead(i, l) {
      forall r | r in l ensures r in NeededLiveIn(a, i, l', y) {
        assert r in l - info.writtenRegs - info.condWrittenRegs;
      }
    }
  }

  /** More registers alive behind a block and at its branch targets never means fewer before. */
  lemma {:induction false} LiveBeforeMonotone(a: Abi, instrs: seq<Instr>, k: nat,
      out: set<Reg>, out': set<Reg>, x: LiveMap, y: LiveMap)
    requires out <= out' && Below(x, y)
    ensures LiveBefore(a, instrs, k, out, x) <= LiveBefore(a, instrs, k, out', y)
    decreases |instrs| - k
  {
    if k < |instrs| {
      LiveBeforeMonotone(a, instrs, k + 1, out, out', x, y);
      InstrMonotone(a, instrs[k], LiveBefore(a, instrs, k + 1, out, x),
                    LiveBefore(a, instrs, k + 1, out', y), x, y);
    }
  }

  lemma BlockMonotone(a: Abi, b: Block, x: LiveMap, y: LiveMap)
    requires Below(x, y)
    ensures BlockLiveIn(a, b, x) <= BlockLiveIn(a, b, y)
  {
    LiveBeforeMonotone(a, b.instrs, 0, BlockLiveOut(b, x), BlockLiveOut(b, y), x, y);
  }

  /** The masks name registers that exist. */
  ghost predicate MasksIn(a: Abi, f: Cfg) {
    && a.liveRet <= a.allRegs
    && forall b, k | b in f.blocks && 0 <= k < |f.blocks[b].instrs| ::
         f.blocks[b].instrs[k].EffectiveInfo().Regs() <= a.allRegs
  }

  lemma {:induction false} LiveBeforeBounded(a: Abi, instrs: seq<Instr>, k: nat, out: set<Reg>, live: LiveMap)
    requires forall j | 0 <= j < |instrs| :: instrs[j].EffectiveInfo().Regs() <= a.allRegs
    requires a.liveRet <= a.allRegs && out <= a.allRegs
    requires forall b :: LiveInOf(live, b) <= a.allRegs
    ensures LiveBefore(a, instrs, k, out, live) <= a.allRegs
    decreases |instrs| - k
  {
    if k < |instrs| {
      LiveBeforeBounded(a, instrs, k + 1, out, live);
      assert instrs[k].EffectiveInfo().Regs() <= a.allRegs;
    }
  }
}

/** The executable meaning of a control flow graph of superblocks.

    Instructions are opaque: each carries a predicate on the machine state, a state
    transformer, and the register masks the analyses work with. A superblock is a list of
    instructions, possibly with branches in its middle, and an optional fallthrough link. */
module Machine {

  datatype Option<+T> = None | Some(value: T)

  type Reg = nat        // one bit of a SubRegisterMask
  type Word = int
  type BlockId = nat
  type InstrId = nat

  datatype TriState = False | True | Unknown

  datatype State = State(regs: Reg -> Word, mem: map<int, Word>)

  /** Control flow kind. A branch without an edge goes to unknown code. */
  datatype Kind = Plain | Branch(edge: Option<BlockId>) | Call | Ret

  /** What InstructionInfo and DynamicInstructionInfo have in common. */
  datatype Info = Info(
    readRegs: set<Reg>,
    writtenRegs: set<Reg>,
    condWrittenRegs: set<Reg>,
    predicateRegs: set<Reg>,
    mayWriteMem: bool,
    willExecute: TriState)
  {
    function Regs(): set<Reg> { readRegs + writtenRegs + condWrittenRegs + predicateRegs }
  }

  datatype Instr = Instr(
    id: InstrId,
    kind: Kind,
    hasPredicate: bool,
    info: Info,
    dynInfo: Option<Info>,
    holds: State -> bool,
    exec: State -> State)
  {
    /** Dynamic information when the stack analysis left some, otherwise the static one, where a
        predicated instruction may or may not execute. */
    function EffectiveInfo(): Info {
      match dynInfo
      case Some(d) => d
      case None => info.(willExecute := if hasPredicate then Unknown else True)
    }

    /** The effect of the instruction, predicate included. */
    function Effect(s: State): State {
      if holds(s) then exec(s) else s
    }
  }

  datatype Block = Block(
    instrs: seq<Instr>,
    next: Option<BlockId>,
    prev: Option<BlockId>,
    incoming: seq<BlockId>)   // sources of the incoming branch edges

  datatype Cfg = Cfg(blocks: map<BlockId, Block>)

  datatype Config =
    | At(block: BlockId, pc: nat, s: State)
    | Returned(s: State)
    | Left(s: State)          // control went to a callee or to unknown code
    | Stuck                   // control fell off the end of a chain or into a missing block

  /** One step of the graph. A configuration that is not At is final. */
  function Step(f: Cfg, c: Config): Config {
    if !c.At? then c
    else if c.block !in f.blocks then Stuck
    else
      var b := f.blocks[c.block];
      if c.pc < |b.instrs| then StepInstr(b.instrs[c.pc], c)
      else if b.next.Some? then At(b.next.value, 0, c.s)
      else Stuck
  }

  function StepInstr(i: Instr, c: Config): Config
    requires c.At?
  {
    if !i.holds(c.s) then c.(pc := c.pc + 1)
    else match i.kind
      case Plain => At(c.block, c.pc + 1, i.exec(c.s))
      case Branch(Some(d)) => At(d, 0, i.exec(c.s))
      case Branch(None) => Left(c.s)
      case Call => Left(c.s)
      case Ret => Returned(c.s)
  }

  function Run(f: Cfg, n: nat, c: Config): Config {
    if n == 0 then c else Run(f, n - 1, Step(f, c))
  }

  /** What the environment of the rewritten function can observe. */
  datatype Event =
    | Decision(id: InstrId, taken: bool, mem: map<int, Word>)
    | Store(id: InstrId, mem: map<int, Word>)
    | Return(values: map<Reg, Word>, mem: map<int, Word>)
    | Leave(id: InstrId, values: map<Reg, Word>, mem: map<int, Word>)

  function Values(s: State, regs: set<Reg>): map<Reg, Word> {
    map r | r in regs :: s.regs(r)
  }

  /** Registers a caller reads after the return, and all registers there are. */
  datatype Abi = Abi(liveRet: set<Reg>, allRegs: set<Reg>)

  function InstrEvent(a: Abi, i: Instr, s: State): seq<Event> {
    match i.kind
    case Plain =>
      if i.holds(s) && i.EffectiveInfo().mayWriteMem then [Store(i.id, i.exec(s).mem)] else []
    case Branch(e) =>
      if !i.holds(s) then [Decision(i.id, false, s.mem)]
      else if e.Some? then [Decision(i.id, true, i.exec(s).mem)]
      else [Leave(i.id, Values(s, a.allRegs), s.mem)]
    case Call => if i.holds(s) then [Leave(i.id, Values(s, a.allRegs), s.mem)] else []
    case Ret => if i.holds(s) then [Return(Values(s, a.liveRet), s.mem)] else []
  }

  function Events(a: Abi, f: Cfg, c: Config): seq<Event> {
    if c.At? && c.block in f.blocks && c.pc < |f.blocks[c.block].instrs|
    then InstrEvent(a, f.blocks[c.block].instrs[c.pc], c.s)
    else []
  }

  /** All events of the first n steps. */
  function Trace(a: Abi, f: Cfg, n: nat, c: Config): seq<Event> {
    if n == 0 then [] else Events(a, f, c) + Trace(a, f, n - 1, Step(f, c))
  }

  lemma {:induction false} RunSplit(f: Cfg, m: nat, n: nat, c: Config)
    ensures Run(f, m + n, c) == Run(f, n, Run(f, m, c))
  {
    if m > 0 {
      RunSplit(f, m - 1, n, Step(f, c));
    }
  }

  lemma {:induction false} TraceSplit(a: Abi, f: Cfg, m: nat, n: nat, c: Config)
    ensures Trace(a, f, m + n, c) == Trace(a, f, m, c) + Trace(a, f, n, Run(f, m, c))
  {
    if m > 0 {
      TraceSplit(a, f, m - 1, n, Step(f, c));
    }
  }

  ghost predicate Agree(s: State, t: State, regs: set<Reg>) {
    forall r | r in regs :: s.regs(r) == t.regs(r)
  }

  lemma AgreeValues(s: State, t: State, regs: set<Reg>)
    requires Agree(s, t, regs)
    ensures Values(s, regs) == Values(t, regs)
  {
  }

  /** The masks of an instruction describe it at state s: its outcome is the one predicted, the
      predicate depends on the predicate registers only, and on every state that agrees on the
      registers read the same values and the same memory result, nothing else changing. */
  ghost predicate SoundAt(i: Instr, s: State) {
    var info := i.EffectiveInfo();
    && (info.willExecute == True ==> i.holds(s))
    && (info.willExecute == False ==> !i.holds(s))
    && (i.kind.Ret? ==> i.holds(s))
    && (forall t: State | Agree(s, t, info.predicateRegs) :: i.holds(t) == i.holds(s))
    && (i.holds(s) ==>
          forall t: State | Agree(s, t, info.readRegs) && t.mem == s.mem ::
            SameEffect(i, info, s, t))
  }

  ghost predicate SameEffect(i: Instr, info: Info, s: State, t: State) {
    && i.exec(t).mem == i.exec(s).mem
    && (!info.mayWriteMem ==> i.exec(t).mem == t.mem)
    && (forall r | r in info.writtenRegs :: i.exec(t).regs(r) == i.exec(s).regs(r))
    && (forall r | r in info.condWrittenRegs && t.regs(r) == s.regs(r) ::
          i.exec(t).regs(r) == i.exec(s).regs(r))
    && (forall r | r !in info.writtenRegs && r !in info.condWrittenRegs ::
          i.exec(t).regs(r) == t.regs(r))
  }

  /** Every instruction the run from c executes within n steps is described by its masks. */
  ghost predicate SoundRun(f: Cfg, n: nat, c: Config) {
    n > 0 ==>
      && (c.At? && c.block in f.blocks && c.pc < |f.blocks[c.block].instrs| ==>
            SoundAt(f.blocks[c.block].instrs[c.pc], c.s))
      && SoundRun(f, n - 1, Step(f, c))
  }

  ghost predicate SoundForever(f: Cfg, c: Config) {
    forall n: nat :: SoundRun(f, n, c)
  }

  /** Final configurations a caller cannot tell apart. */
  ghost predicate SameEnd(a: Abi, c: Config, c': Config) {
    match c
    case At(_, _, _) => c'.At?
    case Returned(s) => c'.Returned? && c'.s.mem == s.mem && Agree(s, c'.s, a.liveRet)
    case Left(s) => c'.Left? && c'.s.mem == s.mem && Agree(s, c'.s, a.allRegs)
    case Stuck => c'.Stuck?
  }

  ghost predicate Matches(a: Abi, f: Cfg, n: nat, c: Config, g: Cfg, m: nat, c': Config) {
    Trace(a, f, n, c) == Trace(a, g, m, c') && SameEnd(a, Run(f, n, c), Run(g, m, c'))
  }

  /** The first n steps of f are matched by some steps of g. */
  ghost predicate HasMatch(a: Abi, f: Cfg, n: nat, c: Config, g: Cfg, c': Config) {
    exists m: nat :: Matches(a, f, n, c, g, m, c')
  }

  /** The first m steps of g match some steps of f. */
  ghost predicate IsMatch(a: Abi, f: Cfg, c: Config, g: Cfg, m: nat, c': Config) {
    exists n: nat :: Matches(a, f, n, c, g, m, c')
  }

  /** Every run of one graph, of whatever length, is matched by a run of the other. */
  ghost predicate SameBehaviour(a: Abi, f: Cfg, c: Config, g: Cfg, c': Config) {
    && (forall n: nat :: HasMatch(a, f, n, c, g, c'))
    && (forall m: nat :: IsMatch(a, f, c, g, m, c'))
  }
}

/** The code in memory runs like the graph it was generated from. */
module LinearCode {
  import opened Machine
  import opened Links
  import opened Simulation
  import opened CodeLayout
  import opened CodeGenerationPass
  import E = Emission
  import C = BranchCode
  import N = Padding

  // ---- from blocks to items ----

  function Start(f: Cfg, order: seq<BlockId>, n: nat): nat
    requires n <= |order| && forall b | b in order :: b in f.blocks
  {
    |Items(f, order[..n])|
  }

  /** Every block in the layout has instructions, branches and fallthrough in the layout, and one that
      does not fall through ends with an instruction that always leaves it. */
  ghost predicate Laid(f: Cfg, order: seq<BlockId>) {
    && E.NoRepeat(order) && E.ClosedSet(f, Members(order)) && E.FallsThrough(f, order) && UniqueIds(f)
    && forall b | b in order && b in f.blocks && f.blocks[b].next.None? :: NeverFalls(f.blocks[b].instrs)
  }

  ghost predicate NeverFalls(instrs: seq<Instr>) {
    instrs != [] && var i := instrs[|instrs| - 1]; !i.kind.Plain? && forall s: State :: i.holds(s)
  }

  /** Instructions take room. */
  ghost predicate Sized(t: Arch) { forall i: Instr :: t.fixed(i) > 0 }

  lemma InBlocks(f: Cfg, order: seq<BlockId>)
    requires E.ClosedSet(f, Members(order))
    ensures forall b | b in order :: b in f.blocks
  {
    assert forall b | b in order :: b in Members(order);
  }

  // ---- the layout has everything once ----

  lemma {:induction false} ItemOrigin(f: Cfg, order: seq<BlockId>, k: nat) returns (n: nat)
    requires (forall b | b in order :: b in f.blocks) && k < |Items(f, order)|
    ensures n < |order| && Start(f, order, n) <= k <= Start(f, order, n) + |f.blocks[order[n]].instrs|
    ensures k == Start(f, order, n) ==> Items(f, order)[k] == Mark(order[n])
    ensures k > Start(f, order, n) ==> Items(f, order)[k] == Code(f.blocks[order[n]].instrs[k - Start(f, order, n) - 1])
  {
    var last := order[..|order| - 1];
    if k < |Items(f, last)| {
      n := ItemOrigin(f, last, k);
      assert last[..n] == order[..n] && last[n] == order[n];
    } else {
      n := |order| - 1;
      assert order[..n] == last;
    }
  }

  lemma {:induction false} StartGrows(f: Cfg, order: seq<BlockId>, m: nat, n: nat)
    requires m < n <= |order| && forall b | b in order :: b in f.blocks
    ensures Start(f, order, m) + 1 + |f.blocks[order[m]].instrs| <= Start(f, order, n)
  {
    assert order[..n][..n - 1] == order[..n - 1] && order[..n][n - 1] == order[n - 1];
    if m < n - 1 {
      StartGrows(f, order, m, n - 1);
    } else {
      assert order[..n] == order[..m] + [order[m]];
    }
  }

  /** Item Start(n) is the mark of block n, its instructions follow. */
  lemma ItemIs(f: Cfg, order: seq<BlockId>, n: nat, pc: nat)
    requires (forall b | b in order :: b in f.blocks) && n < |order| && pc <= |f.blocks[order[n]].instrs|
    ensures Start(f, order, n) + |f.blocks[order[n]].instrs| < |Items(f, order)|
    ensures Items(f, order)[Start(f, order, n)] == Mark(order[n])
    ensures pc < |f.blocks[order[n]].instrs| ==> Items(f, order)[Start(f, order, n) + 1 + pc] == Code(f.blocks[order[n]].instrs[pc])
    ensures n + 1 < |order| ==> Start(f, order, n + 1) == Start(f, order, n) + 1 + |f.blocks[order[n]].instrs|
  {
    hide Items;
    ItemsPrefix(f, order, n);
    var p := Start(f, order, n);
    if pc < |f.blocks[order[n]].instrs| {
      assert Items(f, order)[p + 1..p + 1 + |f.blocks[order[n]].instrs|][pc] == Codes(f.blocks[order[n]].instrs)[pc];
    }
  }

  lemma ItemsApart(f: Cfg, order: seq<BlockId>, j: nat, k: nat)
    requires E.NoRepeat(order) && UniqueIds(f) && (forall b | b in order :: b in f.blocks) && j < k < |Items(f, order)|
    ensures var items := Items(f, order);
            items[j] != items[k] && (items[j].Code? && items[k].Code? ==> items[j].instr.id != items[k].instr.id)
  {
    hide *;
    var items := Items(f, order);
    var m := ItemOrigin(f, order, j);
    var n := ItemOrigin(f, order, k);
    if n < m { StartGrows(f, order, n, m); }
    NotSame(order, m, n);
    var p, q := Start(f, order, m), Start(f, order, n);
    if j > p && k > q {
      assert order[m] != order[n] || j - p != k - q;
      IdApart(f, order[m], j - p - 1, order[n], k - q - 1);
    } else if j == p && k == q {
      assert m != n;
    } else {
      assert items[j].Mark? != items[k].Mark?;
    }
  }

  lemma LaidParts(f: Cfg, order: seq<BlockId>)
    requires Laid(f, order)
    ensures E.NoRepeat(order) && E.ClosedSet(f, Members(order)) && E.FallsThrough(f, order) && UniqueIds(f)
  {
  }

  lemma NotSame(order: seq<BlockId>, m: nat, n: nat)
    requires E.NoRepeat(order) && m < |order| && n < |order|
    ensures order[m] == order[n] <==> m == n
  {
  }

  lemma IdApart(f: Cfg, b: BlockId, j: nat, c: BlockId, k: nat)
    requires UniqueIds(f) && b in f.blocks && c in f.blocks && j < |f.blocks[b].instrs| && k < |f.blocks[c].instrs|
    requires b != c || j != k
    ensures f.blocks[b].instrs[j].id != f.blocks[c].instrs[k].id
  {
    assert f.blocks[b].instrs[j].id in Ids(f.blocks[b].instrs) && f.blocks[c].instrs[k].id in Ids(f.blocks[c].instrs);
    assert DistinctIds(f.blocks[b].instrs);
  }

  lemma {:induction false} EdgeListed(instrs: seq<Instr>, k: nat)
    requires k < |instrs| && IsJump(instrs[k])
    ensures Dest(instrs[k]) in E.EdgeList(instrs)
  {
    var p := instrs[..|instrs| - 1];
    if k < |instrs| - 1 {
      EdgeListed(p, k);
    }
  }

  lemma TargetLaid(f: Cfg, order: seq<BlockId>, k: nat)
    requires E.ClosedSet(f, Members(order)) && (forall b | b in order :: b in f.blocks) && k < |Items(f, order)| && JumpAt(Items(f, order), k)
    ensures Dest(Items(f, order)[k].instr) in order && Mark(Dest(Items(f, order)[k].instr)) in Items(f, order)
  {
    hide *;
    var n := ItemOrigin(f, order, k);
    JumpIs(Items(f, order), k);
    var i := Items(f, order)[k].instr;
    EdgeListed(f.blocks[order[n]].instrs, k - Start(f, order, n) - 1);
    ListedLaid(f, order, n, Dest(i));
    var m :| 0 <= m < |order| && order[m] == Dest(i);
    ItemIs(f, order, m, 0);
  }

  lemma JumpIs(items: seq<Item>, k: nat)
    requires k < |items| && JumpAt(items, k)
    ensures items[k].Code? && IsJump(items[k].instr) && items[k].instr.kind.Branch? && items[k].instr.kind.edge.Some?
  {
  }

  lemma ListedLaid(f: Cfg, order: seq<BlockId>, n: nat, d: BlockId)
    requires E.ClosedSet(f, Members(order)) && n < |order| && order[n] in f.blocks && d in E.EdgeList(f.blocks[order[n]].instrs)
    ensures d in order
  {
    assert order[n] in Members(order);
    assert E.Followed(f, order[n], Members(order));
    assert d in Members(order);
  }

  // ---- the machine ----

  /** The item that occupies an address. */
  ghost predicate Occupies(t: Arch, items: seq<Item>, short: set<InstrId>, k: nat, a: nat) {
    k < |items| && Addr(t, items, short, k) == a < Addr(t, items, short, k + 1)
  }

  /** Read what is at an address and do it: no-operations up to the beginning of the block, a branch, or an instruction
      whose bytes are there. */
  ghost function RunItem(t: Arch, item: Item, mem: seq<C.Byte>, a: nat, end: nat, s: State): Config {
    match item
    case Mark(_) => if a <= end && a <= |mem| && N.Pads(mem[a..], end - a) then At(0, end, s) else Stuck
    case Code(i) =>
      if IsJump(i) then
        match C.Decode(if a <= |mem| then mem[a..] else [])
        case NoBranch => Stuck
        case Branch(form, len, disp) =>
          if form != t.form(i) || a + len + disp < 0 then Stuck
          else if i.holds(s) then At(0, a + len + disp, i.exec(s)) else At(0, a + len, s)
      else if !Holds(mem, a, t.enc(i, a)) then Stuck
      else if !i.holds(s) then At(0, end, s)
      else match i.kind
        case Plain => At(0, end, i.exec(s))
        case Ret => Returned(s)
        case _ => Left(s)
  }

  ghost function LinearStep(t: Arch, items: seq<Item>, short: set<InstrId>, mem: seq<C.Byte>, c: Config): Config {
    if !c.At? then c
    else if k: nat :| Occupies(t, items, short, k, c.pc) then
      RunItem(t, items[k], mem, c.pc, Addr(t, items, short, k + 1), c.s)
    else Stuck
  }

  ghost predicate LaidOut(f: Cfg, t: Arch, order: seq<BlockId>, short: set<InstrId>, mem: seq<C.Byte>) {
    && Laid(f, order) && ValidArch(t) && Sized(t) && (forall b | b in order :: b in f.blocks)
    && WellItems(Items(f, order)) && Emitted(t, Items(f, order), short, mem)
  }

  lemma OneOccupant(t: Arch, items: seq<Item>, short: set<InstrId>, j: nat, k: nat, a: nat)
    requires Occupies(t, items, short, j, a) && Occupies(t, items, short, k, a)
    ensures j == k
  {
    if j < k { PosGrows(items, t.fixed, short, j + 1, k); }
    if k < j { PosGrows(items, t.fixed, short, k + 1, j); }
  }

  lemma LinearIs(t: Arch, items: seq<Item>, short: set<InstrId>, mem: seq<C.Byte>, k: nat, s: State)
    requires k < |items| && Addr(t, items, short, k) < Addr(t, items, short, k + 1)
    ensures LinearStep(t, items, short, mem, At(0, Addr(t, items, short, k), s))
              == RunItem(t, items[k], mem, Addr(t, items, short, k), Addr(t, items, short, k + 1), s)
  {
    var c := At(0, Addr(t, items, short, k), s);
    assert Occupies(t, items, short, k, c.pc);
    forall j: nat | Occupies(t, items, short, j, c.pc) ensures j == k {
      OneOccupant(t, items, short, j, k, c.pc);
    }
  }

  lemma BranchDecoded(t: Arch, items: seq<Item>, short: set<InstrId>, mem: seq<C.Byte>, k: nat)
    requires WellItems(items) && ValidArch(t) && k < |items| && JumpAt(items, k) && SlotHolds(t, items, short, mem, k)
    ensures var i, a, end := items[k].instr, Addr(t, items, short, k), Addr(t, items, short, k + 1);
            && a <= |mem| && a < end
            && C.Decode(mem[a..]) == C.Branch(t.form(i), end - a, Addr(t, items, short, TargetOf(items, k) + 1) - end)
  {
    hide *;
    SlotFacts(t, items, short, mem, k);
    JumpWritten(t, items, short, k);
    BranchFacts(t, items, short, k);
    var i, a, bs := items[k].instr, Addr(t, items, short, k), Slot(t, items, short, k);
    TailFrom(mem, a, bs);
    C.DecodeBranch(t.form(i), i.id in short, Displacement(t, items, short, k), mem[a + |bs|..]);
  }

  lemma SlotFacts(t: Arch, items: seq<Item>, short: set<InstrId>, mem: seq<C.Byte>, k: nat)
    requires WellItems(items) && k < |items| && JumpAt(items, k) && SlotHolds(t, items, short, mem, k)
    ensures var a, bs := Addr(t, items, short, k), Slot(t, items, short, k);
            a + |bs| <= |mem| && mem[a..a + |bs|] == bs
    ensures EncodableAt(t, items, short, k) && items[k].Code? && IsJump(items[k].instr) && Mark(Dest(items[k].instr)) in items
  {
    hide Slot, EncodableAt;
  }

  lemma BranchFacts(t: Arch, items: seq<Item>, short: set<InstrId>, k: nat)
    requires ValidArch(t) && WellItems(items) && k < |items| && JumpAt(items, k) && EncodableAt(t, items, short, k)
    ensures var i := items[k].instr;
            && C.BranchLen(t.form(i), i.id in short) == Len(i, t.fixed, short) > 0
            && Addr(t, items, short, k + 1) == Addr(t, items, short, k) + Len(i, t.fixed, short)
            && Displacement(t, items, short, k) == Addr(t, items, short, TargetOf(items, k) + 1) - Addr(t, items, short, k + 1)
  {
  }

  lemma TailFrom(mem: seq<C.Byte>, a: nat, bs: seq<C.Byte>)
    requires a + |bs| <= |mem| && mem[a..a + |bs|] == bs
    ensures mem[a..] == bs + mem[a + |bs|..]
  {
    assert mem[a..] == mem[a..a + |bs|] + mem[a + |bs|..];
  }

  /** What is decoded is the branch itself, leading to the beginning of its target. */
  lemma BranchRuns(t: Arch, items: seq<Item>, short: set<InstrId>, mem: seq<C.Byte>, k: nat, s: State)
    requires WellItems(items) && ValidArch(t) && k < |items| && JumpAt(items, k) && SlotHolds(t, items, short, mem, k)
    ensures var i, a, end := items[k].instr, Addr(t, items, short, k), Addr(t, items, short, k + 1);
            a < end && RunItem(t, items[k], mem, a, end, s)
              == if i.holds(s) then At(0, Addr(t, items, short, TargetOf(items, k) + 1), i.exec(s)) else At(0, end, s)
  {
    BranchDecoded(t, items, short, mem, k);
    hide WellItems, ValidArch, SlotHolds, C.Decode, TargetOf;
  }

  ghost function LinearLog(t: Arch, items: seq<Item>, short: set<InstrId>, c: Config): seq<Executed> {
    if !c.At? then []
    else if k: nat :| Occupies(t, items, short, k, c.pc) then
      if items[k].Code? then Record(items[k].instr, c.s) else []
    else []
  }

  ghost function Linear(t: Arch, items: seq<Item>, short: set<InstrId>, mem: seq<C.Byte>): System {
    System(c => LinearStep(t, items, short, mem, c), c => LinearLog(t, items, short, c))
  }

  lemma LinearLogIs(t: Arch, items: seq<Item>, short: set<InstrId>, k: nat, s: State)
    requires k < |items| && Addr(t, items, short, k) < Addr(t, items, short, k + 1)
    ensures LinearLog(t, items, short, At(0, Addr(t, items, short, k), s)) == if items[k].Code? then Record(items[k].instr, s) else []
  {
    var c := At(0, Addr(t, items, short, k), s);
    assert Occupies(t, items, short, k, c.pc);
    forall j: nat | Occupies(t, items, short, j, c.pc) ensures j == k {
      OneOccupant(t, items, short, j, k, c.pc);
    }
  }

  // ---- the simulation ----

  /** Block n of the layout, at instruction pc. */
  ghost predicate Here(f: Cfg, t: Arch, order: seq<BlockId>, short: set<InstrId>, n: nat, c: Config, c': Config)
    requires forall b | b in order :: b in f.blocks
  {
    && c.At? && n < |order| && order[n] == c.block && c.pc <= |f.blocks[c.block].instrs|
    && (c.pc == |f.blocks[c.block].instrs| ==> f.blocks[c.block].next.Some?)
    && Start(f, order, n) + 1 + c.pc <= |Items(f, order)|
    && c' == At(0, Addr(t, Items(f, order), short, Start(f, order, n) + 1 + c.pc), c.s)
  }

  ghost predicate Placed(f: Cfg, t: Arch, order: seq<BlockId>, short: set<InstrId>, c: Config, c': Config)
    requires forall b | b in order :: b in f.blocks
  {
    if c.At? then exists n: nat :: Here(f, t, order, short, n, c, c') else c' == c
  }

  /** Arriving at the beginning of a block. */
  lemma Arrive(f: Cfg, t: Arch, order: seq<BlockId>, short: set<InstrId>, n: nat, s: State)
    requires Laid(f, order) && (forall b | b in order :: b in f.blocks) && n < |order|
    ensures Start(f, order, n) + 1 <= |Items(f, order)|
    ensures var a := Addr(t, Items(f, order), short, Start(f, order, n) + 1);
            Here(f, t, order, short, n, At(order[n], 0, s), At(0, a, s))
  {
    hide Items, Start, Addr;
    ItemIs(f, order, n, 0);
    NotEmpty(f, order, n);
    hide Laid;
  }

  lemma NotEmpty(f: Cfg, order: seq<BlockId>, n: nat)
    requires Laid(f, order) && n < |order| && order[n] in f.blocks
    ensures f.blocks[order[n]].next.None? ==> f.blocks[order[n]].instrs != []
  {
    assert order[n] in order;
  }

  /** The place of a branch target among the items. */
  lemma TargetStart(f: Cfg, order: seq<BlockId>, k: nat) returns (m: nat)
    requires Laid(f, order) && (forall b | b in order :: b in f.blocks) && WellItems(Items(f, order))
    requires k < |Items(f, order)| && JumpAt(Items(f, order), k)
    ensures m < |order| && order[m] == Dest(Items(f, order)[k].instr) && TargetOf(Items(f, order), k) == Start(f, order, m)
  {
    LaidParts(f, order);
    hide Laid, Items, E.ClosedSet, E.NoRepeat, E.FallsThrough, UniqueIds;
    TargetLaid(f, order, k);
    var d := Dest(Items(f, order)[k].instr);
    m :| 0 <= m < |order| && order[m] == d;
    ItemIs(f, order, m, 0);
    var items := Items(f, order);
    assert items[TargetOf(items, k)] == items[Start(f, order, m)];
  }

  lemma LaidFacts(f: Cfg, t: Arch, order: seq<BlockId>, short: set<InstrId>, mem: seq<C.Byte>)
    requires LaidOut(f, t, order, short, mem)
    ensures Laid(f, order) && ValidArch(t) && WellItems(Items(f, order)) && forall b | b in order :: b in f.blocks
  {
  }

  lemma HereFacts(f: Cfg, t: Arch, order: seq<BlockId>, short: set<InstrId>, n: nat, c: Config, c': Config)
    requires (forall b | b in order :: b in f.blocks) && Here(f, t, order, short, n, c, c')
    ensures c.At? && n < |order| && order[n] == c.block && c.block in f.blocks && c.pc <= |f.blocks[c.block].instrs|
    ensures c.pc == |f.blocks[c.block].instrs| ==> f.blocks[c.block].next.Some?
    ensures Start(f, order, n) + 1 + c.pc <= |Items(f, order)|
    ensures c' == At(0, Addr(t, Items(f, order), short, Start(f, order, n) + 1 + c.pc), c.s)
  {
  }

  lemma HereIs(f: Cfg, t: Arch, order: seq<BlockId>, short: set<InstrId>, n: nat, c: Config, c': Config)
    requires (forall b | b in order :: b in f.blocks) && c.At? && n < |order| && order[n] == c.block
    requires c.pc <= |f.blocks[c.block].instrs| && (c.pc == |f.blocks[c.block].instrs| ==> f.blocks[c.block].next.Some?)
    requires Start(f, order, n) + 1 + c.pc <= |Items(f, order)|
    requires c' == At(0, Addr(t, Items(f, order), short, Start(f, order, n) + 1 + c.pc), c.s)
    ensures Placed(f, t, order, short, c, c')
  {
    assert Here(f, t, order, short, n, c, c');
  }

  /** The item k is this instruction, and what reading it does. */
  ghost predicate ItemRuns(f: Cfg, t: Arch, order: seq<BlockId>, short: set<InstrId>, mem: seq<C.Byte>, k: nat, i: Instr, c': Config)
    requires forall b | b in order :: b in f.blocks
  {
    var items := Items(f, order);
    && k < |items| && items[k] == Code(i) && c'.At?
    && LinearStep(t, items, short, mem, c') == RunItem(t, Code(i), mem, Addr(t, items, short, k), Addr(t, items, short, k + 1), c'.s)
    && LinearLog(t, items, short, c') == Record(i, c'.s)
  }

  lemma InstrItem(f: Cfg, t: Arch, order: seq<BlockId>, short: set<InstrId>, mem: seq<C.Byte>, n: nat, c: Config, c': Config, i: Instr) returns (k: nat)
    requires (forall b | b in order :: b in f.blocks) && n < |order| && c.At? && order[n] == c.block
    requires c.pc < |f.blocks[c.block].instrs| && i == f.blocks[c.block].instrs[c.pc]
    requires Here(f, t, order, short, n, c, c')
    requires LaidOut(f, t, order, short, mem)
    ensures k == Start(f, order, n) + 1 + c.pc
    ensures ItemRuns(f, t, order, short, mem, k, i, c')
  {
    hide *;
    k := Start(f, order, n) + 1 + c.pc;
    InstrPlace(f, t, order, short, n, c, c', i, k);
    SlotOf(f, t, order, short, mem, k);
    ReadsItem(t, Items(f, order), short, mem, k, c', i);
    ItemRunsIs(f, t, order, short, mem, k, i, c');
  }

  lemma InstrPlace(f: Cfg, t: Arch, order: seq<BlockId>, short: set<InstrId>, n: nat, c: Config, c': Config, i: Instr, k: nat)
    requires (forall b | b in order :: b in f.blocks) && n < |order| && c.At? && order[n] == c.block
    requires c.pc < |f.blocks[c.block].instrs| && i == f.blocks[c.block].instrs[c.pc] && k == Start(f, order, n) + 1 + c.pc
    requires Here(f, t, order, short, n, c, c')
    ensures k < |Items(f, order)| && Items(f, order)[k] == Code(i)
    ensures c' == At(0, Addr(t, Items(f, order), short, k), c.s)
  {
    hide *;
    HereFacts(f, t, order, short, n, c, c');
    ItemIs(f, order, n, c.pc);
  }

  lemma ReadsItem(t: Arch, items: seq<Item>, short: set<InstrId>, mem: seq<C.Byte>, k: nat, c': Config, i: Instr)
    requires k < |items| && items[k] == Code(i) && Addr(t, items, short, k) < Addr(t, items, short, k + 1)
    requires c'.At? && c' == At(0, Addr(t, items, short, k), c'.s)
    ensures LinearStep(t, items, short, mem, c') == RunItem(t, Code(i), mem, Addr(t, items, short, k), Addr(t, items, short, k + 1), c'.s)
    ensures LinearLog(t, items, short, c') == Record(i, c'.s)
  {
    hide *;
    LinearIs(t, items, short, mem, k, c'.s);
    LinearLogIs(t, items, short, k, c'.s);
  }

  lemma ItemRunsIs(f: Cfg, t: Arch, order: seq<BlockId>, short: set<InstrId>, mem: seq<C.Byte>, k: nat, i: Instr, c': Config)
    requires (forall b | b in order :: b in f.blocks) && k < |Items(f, order)| && Items(f, order)[k] == Code(i) && c'.At?
    requires LinearStep(t, Items(f, order), short, mem, c')
               == RunItem(t, Code(i), mem, Addr(t, Items(f, order), short, k), Addr(t, Items(f, order), short, k + 1), c'.s)
    requires LinearLog(t, Items(f, order), short, c') == Record(i, c'.s)
    ensures ItemRuns(f, t, order, short, mem, k, i, c')
  {
  }

  lemma SlotOf(f: Cfg, t: Arch, order: seq<BlockId>, short: set<InstrId>, mem: seq<C.Byte>, k: nat)
    requires LaidOut(f, t, order, short, mem) && k < |Items(f, order)|
    ensures SlotHolds(t, Items(f, order), short, mem, k)
    ensures Items(f, order)[k].Code? ==> (Addr(t, Items(f, order), short, k) < Addr(t, Items(f, order), short, k + 1))
  {
    var items := Items(f, order);
    hide Items, Laid;
    if items[k].Code? { assert t.fixed(items[k].instr) > 0; }
  }

  /** A branch taken: to the beginning of the target block. */
  lemma TakenRuns(f: Cfg, t: Arch, order: seq<BlockId>, short: set<InstrId>, mem: seq<C.Byte>, k: nat, i: Instr, c': Config)
    requires LaidOut(f, t, order, short, mem) && ItemRuns(f, t, order, short, mem, k, i, c') && IsJump(i) && i.holds(c'.s)
    ensures Placed(f, t, order, short, At(Dest(i), 0, i.exec(c'.s)), LinearStep(t, Items(f, order), short, mem, c'))
  {
    LaidFacts(f, t, order, short, mem);
    SlotOf(f, t, order, short, mem, k);
    hide LaidOut, Laid, Items, WellItems, LinearStep, LinearLog, ValidArch, RunItem, SlotHolds, Placed;
    BranchRuns(t, Items(f, order), short, mem, k, c'.s);
    var m := TargetStart(f, order, k);
    Arrive(f, t, order, short, m, i.exec(c'.s));
    PlacedIs(f, t, order, short, m, At(Dest(i), 0, i.exec(c'.s)), LinearStep(t, Items(f, order), short, mem, c'));
  }

  /** Not executed, or executed and on to the next one. */
  lemma NextRuns(f: Cfg, t: Arch, order: seq<BlockId>, short: set<InstrId>, mem: seq<C.Byte>, k: nat, i: Instr, c': Config)
    requires LaidOut(f, t, order, short, mem) && ItemRuns(f, t, order, short, mem, k, i, c') && (!i.holds(c'.s) || i.kind.Plain?)
    ensures k + 1 <= |Items(f, order)|
    ensures LinearStep(t, Items(f, order), short, mem, c')
              == At(0, Addr(t, Items(f, order), short, k + 1), if i.holds(c'.s) then i.exec(c'.s) else c'.s)
  {
    LaidFacts(f, t, order, short, mem);
    SlotOf(f, t, order, short, mem, k);
    hide LaidOut, Laid, Items, WellItems, LinearStep, LinearLog, ValidArch, SlotHolds;
    if IsJump(i) {
      BranchRuns(t, Items(f, order), short, mem, k, c'.s);
    }
  }

  lemma PlacedIs(f: Cfg, t: Arch, order: seq<BlockId>, short: set<InstrId>, n: nat, c: Config, c': Config)
    requires (forall b | b in order :: b in f.blocks) && Here(f, t, order, short, n, c, c')
    ensures Placed(f, t, order, short, c, c')
  {
  }

  lemma LeavesRun(f: Cfg, t: Arch, order: seq<BlockId>, short: set<InstrId>, mem: seq<C.Byte>, k: nat, i: Instr, c: Config, c': Config)
    requires LaidOut(f, t, order, short, mem) && ItemRuns(f, t, order, short, mem, k, i, c')
    requires i.holds(c'.s) && !IsJump(i) && !i.kind.Plain? && c.At? && c.s == c'.s
    ensures Placed(f, t, order, short, StepInstr(i, c), LinearStep(t, Items(f, order), short, mem, c'))
  {
    LaidFacts(f, t, order, short, mem);
    SlotOf(f, t, order, short, mem, k);
    hide Items, LinearStep, LinearLog, LaidOut, Laid, ValidArch, WellItems, Holds;
  }

  /** An instruction does the same in memory as in the graph. */
  lemma InstrRuns(f: Cfg, t: Arch, order: seq<BlockId>, short: set<InstrId>, mem: seq<C.Byte>, n: nat, c: Config, c': Config)
    requires LaidOut(f, t, order, short, mem) && Here(f, t, order, short, n, c, c') && c.pc < |f.blocks[c.block].instrs|
    ensures var items := Items(f, order);
            && Placed(f, t, order, short, Step(f, c), LinearStep(t, items, short, mem, c'))
            && LinearLog(t, items, short, c') == Recorded(f, c)
  {
    hide *;
    LaidFacts(f, t, order, short, mem);
    HereFacts(f, t, order, short, n, c, c');
    var i := f.blocks[c.block].instrs[c.pc];
    var k := InstrItem(f, t, order, short, mem, n, c, c', i);
    GraphStep(f, c);
    ItemRunsLog(f, t, order, short, mem, k, i, c');
    if i.holds(c.s) && IsJump(i) {
      TakenRuns(f, t, order, short, mem, k, i, c');
    } else if !i.holds(c.s) || i.kind.Plain? {
      NextRuns(f, t, order, short, mem, k, i, c');
      StillInside(f, order, n, c, i);
      HereIs(f, t, order, short, n, Step(f, c), LinearStep(t, Items(f, order), short, mem, c'));
    } else {
      LeavesRun(f, t, order, short, mem, k, i, c, c');
    }
  }

  lemma GraphStep(f: Cfg, c: Config)
    requires c.At? && c.block in f.blocks && c.pc < |f.blocks[c.block].instrs|
    ensures var i := f.blocks[c.block].instrs[c.pc];
            && Step(f, c) == StepInstr(i, c) && Recorded(f, c) == Record(i, c.s)
            && (i.holds(c.s) && IsJump(i) ==> Step(f, c) == At(Dest(i), 0, i.exec(c.s)))
            && (!i.holds(c.s) || i.kind.Plain? ==> Step(f, c) == At(c.block, c.pc + 1, if i.holds(c.s) then i.exec(c.s) else c.s))
  {
  }

  lemma ItemRunsLog(f: Cfg, t: Arch, order: seq<BlockId>, short: set<InstrId>, mem: seq<C.Byte>, k: nat, i: Instr, c': Config)
    requires (forall b | b in order :: b in f.blocks) && ItemRuns(f, t, order, short, mem, k, i, c')
    ensures LinearLog(t, Items(f, order), short, c') == Record(i, c'.s)
  {
  }

  /** A block without fallthrough is left by its last instruction at the latest. */
  lemma StillInside(f: Cfg, order: seq<BlockId>, n: nat, c: Config, i: Instr)
    requires Laid(f, order) && n < |order| && c.At? && order[n] == c.block && c.block in f.blocks && c.pc < |f.blocks[c.block].instrs|
    requires i == f.blocks[c.block].instrs[c.pc] && (!i.holds(c.s) || i.kind.Plain?)
    ensures c.pc + 1 == |f.blocks[c.block].instrs| ==> f.blocks[c.block].next.Some?
  {
    if f.blocks[c.block].next.None? {
      assert c.block in order;
      assert NeverFalls(f.blocks[c.block].instrs);
    }
  }

  /** Falling through: past the padding, if there is any. */
  lemma FallRuns(f: Cfg, t: Arch, order: seq<BlockId>, short: set<InstrId>, mem: seq<C.Byte>, n: nat, c: Config, c': Config) returns (padded: bool)
    requires LaidOut(f, t, order, short, mem) && Here(f, t, order, short, n, c, c') && c.pc == |f.blocks[c.block].instrs|
    ensures n + 1 < |order| && Recorded(f, c) == []
    ensures var items := Items(f, order);
            var e := if padded then LinearStep(t, items, short, mem, c') else c';
            Here(f, t, order, short, n + 1, Step(f, c), e) && (padded ==> LinearLog(t, items, short, c') == [])
  {
    hide *;
    LaidFacts(f, t, order, short, mem);
    HereFacts(f, t, order, short, n, c, c');
    var items := Items(f, order);
    ItemIs(f, order, n, 0);
    NextLaid(f, order, n);
    var k := Start(f, order, n + 1);
    ItemIs(f, order, n + 1, 0);
    Arrive(f, t, order, short, n + 1, c.s);
    GraphFall(f, c);
    SlotOf(f, t, order, short, mem, k);
    Padding(t, items, short, mem, k, c.s);
    padded := Addr(t, items, short, k) < Addr(t, items, short, k + 1);
  }

  /** In front of a block there is nothing, or no-operations that are run through. */
  lemma Padding(t: Arch, items: seq<Item>, short: set<InstrId>, mem: seq<C.Byte>, k: nat, s: State)
    requires WellItems(items) && k < |items| && items[k].Mark? && SlotHolds(t, items, short, mem, k)
    ensures var a, end := Addr(t, items, short, k), Addr(t, items, short, k + 1);
            && a <= end
            && (a < end ==> LinearStep(t, items, short, mem, At(0, a, s)) == At(0, end, s) && LinearLog(t, items, short, At(0, a, s)) == [])
  {
    hide *;
    PosGrows(items, t.fixed, short, k, k + 1);
    AddrIs(t, items, short);
    var a, end := Addr(t, items, short, k), Addr(t, items, short, k + 1);
    if a < end {
      LinearIs(t, items, short, mem, k, s);
      LinearLogIs(t, items, short, k, s);
      MarkThere(t, items, short, mem, k);
      MarkRuns(t, items[k], mem, a, end, s);
    }
  }

  lemma AddrIs(t: Arch, items: seq<Item>, short: set<InstrId>)
    ensures forall k: nat | k <= |items| :: Addr(t, items, short, k) == Pos(items, t.fixed, short, k)
  {
  }

  lemma MarkRuns(t: Arch, item: Item, mem: seq<C.Byte>, a: nat, end: nat, s: State)
    requires item.Mark? && a <= end && Holds(mem, a, C.Nops(end - a))
    ensures RunItem(t, item, mem, a, end, s) == At(0, end, s)
  {
    hide C.Nops, N.Pads;
    N.FilledPads(mem, a, end - a);
  }

  lemma MarkThere(t: Arch, items: seq<Item>, short: set<InstrId>, mem: seq<C.Byte>, k: nat)
    requires WellItems(items) && k < |items| && items[k].Mark? && SlotHolds(t, items, short, mem, k)
    ensures var a, end := Addr(t, items, short, k), Addr(t, items, short, k + 1); a <= end && Holds(mem, a, C.Nops(end - a))
  {
    hide C.Nops;
  }

  lemma GraphFall(f: Cfg, c: Config)
    requires c.At? && c.block in f.blocks && c.pc == |f.blocks[c.block].instrs| && f.blocks[c.block].next.Some?
    ensures Step(f, c) == At(f.blocks[c.block].next.value, 0, c.s) && Recorded(f, c) == []
  {
  }

  lemma NextLaid(f: Cfg, order: seq<BlockId>, n: nat)
    requires Laid(f, order) && n < |order| && order[n] in f.blocks && f.blocks[order[n]].next.Some?
    ensures n + 1 < |order| && order[n + 1] == f.blocks[order[n]].next.value
  {
  }

  lemma PlacedForward(f: Cfg, t: Arch, order: seq<BlockId>, short: set<InstrId>, mem: seq<C.Byte>)
    requires LaidOut(f, t, order, short, mem)
    ensures Simulates(Graph(f), Linear(t, Items(f, order), short, mem), (c, c') => Placed(f, t, order, short, c, c'))
  {
    var items := Items(f, order);
    var g, l, r: Relation := Graph(f), Linear(t, items, short, mem), (c, c') => Placed(f, t, order, short, c, c');
    forall c: Config, c': Config | r(c, c') ensures Matched(g, l, r, c, c') {
      var k := ForwardStep(f, t, order, short, mem, c, c');
      hide LaidOut, Placed, LinearStep, LinearLog, Step, Recorded;
      assert Follows(g, l, r, c, c', k);
    }
  }

  lemma ForwardStep(f: Cfg, t: Arch, order: seq<BlockId>, short: set<InstrId>, mem: seq<C.Byte>, c: Config, c': Config) returns (k: nat)
    requires LaidOut(f, t, order, short, mem) && Placed(f, t, order, short, c, c')
    ensures var l := Linear(t, Items(f, order), short, mem);
            && Alike(c, c') && Placed(f, t, order, short, Step(f, c), Go(l, k, c')) && Log(l, k, c') == Recorded(f, c)
  {
    var l := Linear(t, Items(f, order), short, mem);
    GoOne(l, c');
    k := 1;
    if c.At? {
      var n: nat :| Here(f, t, order, short, n, c, c');
      if c.pc < |f.blocks[c.block].instrs| {
        InstrRuns(f, t, order, short, mem, n, c, c');
      } else {
        var padded := FallRuns(f, t, order, short, mem, n, c, c');
        k := if padded then 1 else 0;
      }
    }
  }

  /** One step in memory is some fallthroughs without padding and one step of the graph. */
  lemma {:induction false} BackwardStep(f: Cfg, t: Arch, order: seq<BlockId>, short: set<InstrId>, mem: seq<C.Byte>, n: nat, c: Config, c': Config) returns (k: nat)
    requires LaidOut(f, t, order, short, mem) && Here(f, t, order, short, n, c, c')
    ensures var items := Items(f, order);
            && Placed(f, t, order, short, Go(Graph(f), k, c), LinearStep(t, items, short, mem, c'))
            && Log(Graph(f), k, c) == LinearLog(t, items, short, c')
    decreases |order| - n
  {
    hide *;
    LaidFacts(f, t, order, short, mem);
    HereFacts(f, t, order, short, n, c, c');
    GraphOne(f, c);
    k := 1;
    if c.pc < |f.blocks[c.block].instrs| {
      InstrRuns(f, t, order, short, mem, n, c, c');
    } else {
      var padded := FallRuns(f, t, order, short, mem, n, c, c');
      if padded {
        PlacedIs(f, t, order, short, n + 1, Step(f, c), LinearStep(t, Items(f, order), short, mem, c'));
      } else {
        var j := BackwardStep(f, t, order, short, mem, n + 1, Step(f, c), c');
        GraphMore(f, j, c);
        k := j + 1;
      }
    }
  }

  lemma GraphOne(f: Cfg, c: Config)
    ensures Go(Graph(f), 1, c) == Step(f, c) && Log(Graph(f), 1, c) == Recorded(f, c)
  {
    GoOne(Graph(f), c);
  }

  lemma GraphMore(f: Cfg, j: nat, c: Config)
    ensures Go(Graph(f), j + 1, c) == Go(Graph(f), j, Step(f, c)) && Log(Graph(f), j + 1, c) == Recorded(f, c) + Log(Graph(f), j, Step(f, c))
  {
  }

  lemma PlacedBackward(f: Cfg, t: Arch, order: seq<BlockId>, short: set<InstrId>, mem: seq<C.Byte>)
    requires LaidOut(f, t, order, short, mem)
    ensures Simulates(Linear(t, Items(f, order), short, mem), Graph(f), (c', c) => Placed(f, t, order, short, c, c'))
  {
    var items := Items(f, order);
    var g, l, r: Relation := Graph(f), Linear(t, items, short, mem), (c', c) => Placed(f, t, order, short, c, c');
    forall c': Config, c: Config | r(c', c) ensures Matched(l, g, r, c', c) {
      if c.At? {
        var n: nat :| Here(f, t, order, short, n, c, c');
        var k := BackwardStep(f, t, order, short, mem, n, c, c');
        hide LaidOut, Placed, LinearStep, LinearLog, Step, Recorded;
        assert Follows(l, g, r, c', c, k);
      } else {
        GoOne(g, c);
        assert Follows(l, g, r, c', c, 1);
      }
    }
  }

  /** From every block laid out, the code in memory executes the same instructions in the same states as
      the graph. */
  lemma CodeRunsLikeGraph(f: Cfg, t: Arch, order: seq<BlockId>, short: set<InstrId>, mem: seq<C.Byte>, n: nat, s: State)
    requires LaidOut(f, t, order, short, mem) && n < |order|
    ensures Start(f, order, n) + 1 <= |Items(f, order)|
    ensures Equivalent(Graph(f), At(order[n], 0, s),
                       Linear(t, Items(f, order), short, mem), At(0, Addr(t, Items(f, order), short, Start(f, order, n) + 1), s))
  {
    Arrive(f, t, order, short, n, s);
    var items := Items(f, order);
    var g, l := Graph(f), Linear(t, items, short, mem);
    var c, c' := At(order[n], 0, s), At(0, Addr(t, items, short, Start(f, order, n) + 1), s);
    assert Placed(f, t, order, short, c, c');
    PlacedForward(f, t, order, short, mem);
    PlacedBackward(f, t, order, short, mem);
    hide LaidOut, Placed, Simulates, Refines, Linear;
    SimulationRefines(g, l, (c, c') => Placed(f, t, order, short, c, c'), c, c');
    SimulationRefines(l, g, (c', c) => Placed(f, t, order, short, c, c'), c', c);
  }

  /** Blocks that do not fall through end with an instruction that leaves them. */
  ghost predicate NoneFalls(f: Cfg) {
    forall b | b in f.blocks && f.blocks[b].next.None? :: NeverFalls(f.blocks[b].instrs)
  }

  lemma OrderLaid(f: Cfg, order: seq<BlockId>)
    requires E.NoRepeat(order) && E.ClosedSet(f, Members(order)) && E.ChainOrder(f, order) && E.EnteredAtHead(f, order)
    requires UniqueIds(f) && NoneFalls(f)
    ensures Laid(f, order)
  {
    InBlocks(f, order);
    E.FallsThroughIff(f, order);
    hide E.NoRepeat, E.ClosedSet, E.ChainOrder, E.EnteredAtHead, UniqueIds;
    forall b | b in order && b in f.blocks && f.blocks[b].next.None? ensures NeverFalls(f.blocks[b].instrs) {
    }
  }

  /** Items to be emitted are there once even if chains are entered in their middle. */
  lemma OrderWell(f: Cfg, order: seq<BlockId>)
    requires E.NoRepeat(order) && E.ClosedSet(f, Members(order)) && UniqueIds(f)
    ensures (forall b | b in order :: b in f.blocks) && WellItems(Items(f, order))
  {
    InBlocks(f, order);
    var items := Items(f, order);
    forall j, k | 0 <= j < k < |items|
      ensures items[j] != items[k] && (items[j].Code? && items[k].Code? ==> items[j].instr.id != items[k].instr.id)
    {
      ItemsApart(f, order, j, k);
    }
    forall k | 0 <= k < |items| && JumpAt(items, k) ensures Mark(Dest(items[k].instr)) in items {
      TargetLaid(f, order, k);
    }
    hide Items, UniqueIds, E.NoRepeat, E.ClosedSet;
  }

  /** Lay the blocks out depth first and generate code in two passes. If that succeeds and no chain was
      entered in its middle, which is exactly if the search enters none behind its head, running the code
      from its first byte is running the function. */
  method EmitFunction(f: Cfg, entry: BlockId, t: Arch, code: array<C.Byte>, ghost rank: map<BlockId, nat>)
      returns (ok: bool, order: seq<BlockId>, short: set<InstrId>, ghost items: seq<Item>, ghost k: nat)
    requires entry in rank && E.Whole(f) && Chained(f) && E.EndsOn(f, rank) && UniqueIds(f) && NoneFalls(f)
    requires ValidArch(t) && Sized(t) && code.Length % BLOCK_ALIGN == 0 && code.Length <= 0x8000_0000
    modifies code
    ensures order != [] && order[0] == entry && (forall b | b in order :: b in f.blocks)
    ensures ok && E.EnteredAtHead(f, order) ==>
              forall s: State :: Equivalent(Graph(f), At(entry, 0, s), Linear(t, Items(f, order), short, code[..]), At(0, 0, s))
    ensures E.HeadsOnly(f, entry) ==> E.EnteredAtHead(f, order)
    ensures Members([entry]) <= rank.Keys && (E.EnteredAtHead(f, order) <==> !E.EntersBehind(f, rank, entry, [], [entry]))
    ensures items == Items(f, order)
    ensures Outcome(t, items, short, code[..], ok, k)
  {
    hide *;
    order := E.ForEachBlockDfs(f, entry, rank);
    OrderWell(f, order);
    items := Items(f, order);
    ok, short, k := Generate(f, t, code, order, items);
    E.FallsThroughIff(f, order);
    if ok && E.EnteredAtHead(f, order) {
      OrderLaid(f, order);
      LaidOutIs(f, t, order, short, code[..], k);
      EntryAtZero(f, t, order, short);
      forall s: State ensures Equivalent(Graph(f), At(entry, 0, s), Linear(t, items, short, code[..]), At(0, 0, s)) {
        CodeRunsLikeGraph(f, t, order, short, code[..], 0, s);
      }
    }
  }

  lemma LaidOutIs(f: Cfg, t: Arch, order: seq<BlockId>, short: set<InstrId>, mem: seq<C.Byte>, k: nat)
    requires Laid(f, order) && ValidArch(t) && Sized(t) && (forall b | b in order :: b in f.blocks)
    requires Outcome(t, Items(f, order), short, mem, true, k)
    ensures LaidOut(f, t, order, short, mem)
  {
  }

  lemma EntryAtZero(f: Cfg, t: Arch, order: seq<BlockId>, short: set<InstrId>)
    requires order != [] && (forall b | b in order :: b in f.blocks)
    ensures Start(f, order, 0) == 0 && 1 <= |Items(f, order)| && Addr(t, Items(f, order), short, 1) == 0
  {
    ItemIs(f, order, 0, 0);
    assert order[..0] == [];
    assert Addr(t, Items(f, order), short, 0) == 0;
  }
}

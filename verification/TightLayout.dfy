/** A function whose code generation fails: a forward branch that could be short in the first layout does not
    reach its target in the second. */
module TightLayout {
  import opened Machine
  import opened Links
  import opened CodeLayout
  import opened CodeGenerationPass
  import L = LinearCode
  import E = Emission
  import C = BranchCode

  function Insn(id: InstrId, kind: Kind, cond: bool): Instr {
    Instr(id, kind, cond, Info({}, {}, {}, {}, false, Unknown), None, (s: State) => !cond || s.regs(0) == 1, (s: State) => s)
  }

  /** Block 0: an instruction, a conditional branch to block 0, one to block 2, an instruction; it falls through to block
      1, an instruction; and that one to block 2, which returns. */
  function Tight(): Cfg {
    Cfg(map[
      0 := Block([Insn(0, Plain, false), Insn(1, Branch(Some(0)), true), Insn(2, Branch(Some(2)), true), Insn(3, Plain, false)], Some(1), None, [0]),
      1 := Block([Insn(4, Plain, false)], Some(2), Some(0), []),
      2 := Block([Insn(5, Ret, false)], None, Some(1), [0])])
  }

  const TIGHT_RANK: map<BlockId, nat> := map[0 := 2, 1 := 1, 2 := 0]

  /** Instruction 0 has 9 bytes, 3 has 10, 5 has one and all others 100. */
  function Sizes(): Instr -> nat {
    (i: Instr) => if i.id == 0 then 9 else if i.id == 3 then 10 else if i.id == 5 then 1 else 100
  }

  function TightArch(): Arch {
    Arch(Sizes(), (i: Instr, a: nat) => C.Nops(Sizes()(i)), (i: Instr) => if i.hasPredicate then C.Jcc(4) else C.Jmp)
  }

  function TightItems(): seq<Item> {
    [Mark(0), Code(Insn(0, Plain, false)), Code(Insn(1, Branch(Some(0)), true)), Code(Insn(2, Branch(Some(2)), true)),
     Code(Insn(3, Plain, false)), Mark(1), Code(Insn(4, Plain, false)), Mark(2), Code(Insn(5, Ret, false))]
  }

  // ---- a proper function ----

  lemma TightEdges()
    ensures var f := Tight();
            && E.EdgeList(f.blocks[0].instrs) == [0, 2] && E.EdgeList(f.blocks[1].instrs) == [] && E.EdgeList(f.blocks[2].instrs) == []
  {
    var a, b, c, d := Insn(0, Plain, false), Insn(1, Branch(Some(0)), true), Insn(2, Branch(Some(2)), true), Insn(3, Plain, false);
    assert [a, b, c, d][..3] == [a, b, c] && [a, b, c][..2] == [a, b] && [a, b][..1] == [a] && [a][..0] == [];
    assert E.EdgeList([a]) == [] && E.EdgeList([a, b]) == [0] && E.EdgeList([a, b, c]) == [0, 2];
    assert [Insn(4, Plain, false)][..0] == [] && [Insn(5, Ret, false)][..0] == [];
  }

  lemma TightShape()
    ensures var f := Tight();
            && f.blocks.Keys == {0, 1, 2} && TIGHT_RANK.Keys == {0, 1, 2}
            && f.blocks[0].next == Some(1) && f.blocks[1].next == Some(2) && f.blocks[2].next == None
            && f.blocks[0].prev == None && f.blocks[1].prev == Some(0) && f.blocks[2].prev == Some(1)
            && f.blocks[2].instrs == [Insn(5, Ret, false)]
  {
    hide Insn;
  }

  lemma TightWhole()
    ensures E.Whole(Tight()) && E.ClosedSet(Tight(), TIGHT_RANK.Keys)
  {
    TightShape();
    TightEdges();
    hide Tight;
    var f := Tight();
    forall b | b in f.blocks ensures E.Followed(f, b, f.blocks.Keys) && E.Followed(f, b, TIGHT_RANK.Keys) {
      assert forall d | d in E.EdgeList(f.blocks[b].instrs) :: d == 0 || d == 2;
    }
    hide E.Followed;
  }

  lemma TightProper()
    ensures var f := Tight();
            && E.Whole(f) && Chained(f) && E.EndsOn(f, TIGHT_RANK) && UniqueIds(f) && L.NoneFalls(f) && 0 in TIGHT_RANK
  {
    TightWhole();
    TightShape();
    TightIds();
    hide Tight, E.Whole, E.ClosedSet, UniqueIds;
    assert L.NeverFalls(Tight().blocks[2].instrs);
  }

  lemma TightIds()
    ensures UniqueIds(Tight())
  {
    var f := Tight();
    assert Ids(f.blocks[0].instrs) <= {0, 1, 2, 3} && Ids(f.blocks[1].instrs) <= {4} && Ids(f.blocks[2].instrs) <= {5};
    forall b | b in f.blocks ensures DistinctIds(f.blocks[b].instrs) { assert b == 0 || b == 1 || b == 2; }
    hide Ids, DistinctIds;
  }

  // ---- its layout ----

  lemma TightPushed()
    ensures E.Pushed([0, 2], 0, {0}) == [2] && forall b, v :: E.Pushed([], b, v) == []
  {
    assert [0, 2][1..] == [2] && [2][1..] == [] && E.Pushed([2], 0, {0}) == [2];
  }

  lemma TightChain()
    requires E.Whole(Tight()) && E.EndsOn(Tight(), TIGHT_RANK)
    ensures Members([]) <= TIGHT_RANK.Keys && E.ChainFrom(Tight(), TIGHT_RANK, Some(0), [], []) == ([0, 1, 2], [2])
  {
    TightLinks();
    TightPushed();
    var f := Tight();
    hide E.Whole, E.EndsOn, E.ChainFrom, E.Pushed, E.EdgeList, Tight;
    assert Members([]) == {} && Members([2]) == {2};
    E.ChainStep(f, TIGHT_RANK, 0, [], []);
    assert [] + [0] == [0] && [] + [2] == [2] && {} + {0} == {0};
    E.ChainStep(f, TIGHT_RANK, 1, [0], [2]);
    assert [0] + [1] == [0, 1] && [2] + [] == [2];
    E.ChainLast(f, TIGHT_RANK, 2, [0, 1], [2]);
    assert [0, 1] + [2] == [0, 1, 2];
  }

  lemma TightLinks()
    ensures var f := Tight();
            && f.blocks.Keys == {0, 1, 2} && f.blocks[0].next == Some(1) && f.blocks[1].next == Some(2) && f.blocks[2].next == None
            && E.EdgeList(f.blocks[0].instrs) == [0, 2] && E.EdgeList(f.blocks[1].instrs) == [] && E.EdgeList(f.blocks[2].instrs) == []
  {
    TightEdges();
    hide Insn, E.EdgeList;
  }

  lemma TightOrder()
    requires E.Whole(Tight()) && E.EndsOn(Tight(), TIGHT_RANK)
    ensures Members([0]) <= TIGHT_RANK.Keys && E.Search(Tight(), TIGHT_RANK, [], [0]) == [0, 1, 2]
  {
    TightChain();
    var f := Tight();
    hide E.Whole, E.EndsOn, E.ChainFrom, E.Search, Tight;
    assert Members([0]) == {0} && Members([2]) == {2};
    assert [0][..0] == [] && [2][..0] == [];
    E.SearchPop(f, TIGHT_RANK, [], [0]);
    E.SearchPop(f, TIGHT_RANK, [0, 1, 2], [2]);
    assert [0, 1, 2][2] == 2;
    E.SearchEnds(f, TIGHT_RANK, [0, 1, 2]);
  }

  lemma TightItemsAre()
    ensures Items(Tight(), [0, 1, 2]) == TightItems()
  {
    var f := Tight();
    assert [0, 1, 2][..2] == [0, 1] && [0, 1][..1] == [0] && [0][..0] == [];
    assert Items(f, []) == [];
    assert Items(f, [0]) == TightItems()[..5];
    assert Items(f, [0, 1]) == TightItems()[..7];
  }

  /** Tells items apart. */
  function Tag(item: Item): int {
    match item
    case Mark(b) => -1 - b
    case Code(i) => i.id
  }

  lemma TightTags()
    ensures forall j, k | 0 <= j < k < 9 :: Tag(TightItems()[j]) != Tag(TightItems()[k])
  {
    var tags := [-1, 0, 1, 2, 3, -2, 4, -3, 5];
    forall k | 0 <= k < 9 ensures Tag(TightItems()[k]) == tags[k] { }
  }

  lemma TightJumps()
    ensures var t := TightItems();
            && |t| == 9 && t[0] == Mark(0) && t[7] == Mark(2)
            && JumpAt(t, 2) && Dest(t[2].instr) == 0 && JumpAt(t, 3) && Dest(t[3].instr) == 2
            && forall k | 0 <= k < 9 && k != 2 && k != 3 :: !JumpAt(t, k)
  {
  }

  lemma TightWell()
    ensures WellItems(TightItems()) && ValidArch(TightArch()) && L.Sized(TightArch())
    ensures JumpAt(TightItems(), 2) && TargetOf(TightItems(), 2) == 0 && JumpAt(TightItems(), 3) && TargetOf(TightItems(), 3) == 7
    ensures forall k | 0 <= k < 9 && k != 2 && k != 3 :: !JumpAt(TightItems(), k)
  {
    TightTags();
    TightJumps();
    hide TightItems, MarkOf, JumpAt, Dest;
    var t := TightItems();
    assert WellItems(t);
  }

  /** Both branches could be short in the first layout. In the second one the other is 131 bytes away from its
      target: the branch before it has shrunk, its target has stayed where it was. */
  lemma TightOverflows()
    ensures C.Fits8(ShortDistance(TightItems(), Sizes(), {}, 2, 0))
    ensures ShortDistance(TightItems(), Sizes(), {}, 3, 7) == 127 && ShortDistance(TightItems(), Sizes(), {1, 2}, 3, 7) == 131
    ensures Pos(TightItems(), Sizes(), {}, 9) == 145 && Pos(TightItems(), Sizes(), {1, 2}, 4) == 13 && Pos(TightItems(), Sizes(), {1, 2}, 8) == 144
  {
    var t, z := TightItems(), Sizes();
    assert Pos(t, z, {}, 0) == Pos(t, z, {}, 1) == 0 == Pos(t, z, {1, 2}, 0) == Pos(t, z, {1, 2}, 1);
    assert Pos(t, z, {}, 2) == 9 == Pos(t, z, {1, 2}, 2);
    assert Pos(t, z, {}, 3) == 15 && Pos(t, z, {1, 2}, 3) == 11;
    assert Pos(t, z, {}, 4) == 21 && Pos(t, z, {1, 2}, 4) == 13;
    assert Pos(t, z, {}, 5) == 31 && Pos(t, z, {1, 2}, 5) == 23;
    assert Pos(t, z, {}, 6) == 32 == Pos(t, z, {1, 2}, 6);
    assert Pos(t, z, {}, 7) == 132 == Pos(t, z, {1, 2}, 7);
    assert Pos(t, z, {}, 8) == 144 == Pos(t, z, {1, 2}, 8);
  }

  lemma TightCould()
    requires WellItems(TightItems())
    ensures forall k | 0 <= k < 9 && CouldBeShort(TightArch(), TightItems(), {}, k) :: k == 2 || k == 3
    ensures CouldBeShort(TightArch(), TightItems(), {}, 2) && CouldBeShort(TightArch(), TightItems(), {}, 3)
  {
    TightWell();
    TightOverflows();
    hide WellItems, ValidArch, TargetOf, ShortDistance, Insn, Pos, TightItems;
  }

  /** What the first pass notes. */
  lemma TightNoted(short: set<InstrId>)
    requires WellItems(TightItems()) && Noted(TightArch(), TightItems(), {}, short)
    ensures short == {1, 2}
  {
    hide TightItems, TightArch, WellItems, SomeShort;
    forall id ensures id in short <==> id in {1, 2} { TightSome(id); }
  }

  lemma TightSome(id: InstrId)
    requires WellItems(TightItems())
    ensures SomeShort(TightArch(), TightItems(), {}, id) <==> id == 1 || id == 2
  {
    TightCould();
    TightNames();
    hide WellItems, TightItems, TightArch, CouldBeShort;
  }

  lemma TightNames()
    ensures var t := TightItems(); |t| == 9 && t[2].Code? && t[3].Code? && t[2].instr.id == 1 && t[3].instr.id == 2
  {
  }

  lemma {:induction false} AddrGrows(t: Arch, items: seq<Item>, short: set<InstrId>, k: nat, n: nat)
    requires k <= n <= |items|
    ensures Addr(t, items, short, k) <= Addr(t, items, short, n)
  {
    if k < n { AddrGrows(t, items, short, k, n - 1); }
  }

  /** It is a function that code generation may be given; with any amount of memory both passes can only end with the
      failure at the second branch. */
  lemma TightFails(short: set<InstrId>, mem: seq<C.Byte>, ok: bool, k: nat)
    ensures var f := Tight();
            && E.Whole(f) && Chained(f) && E.EndsOn(f, TIGHT_RANK) && UniqueIds(f) && L.NoneFalls(f) && 0 in TIGHT_RANK
            && Members([0]) <= TIGHT_RANK.Keys && E.Search(f, TIGHT_RANK, [], [0]) == [0, 1, 2]
            && Items(f, [0, 1, 2]) == TightItems() && ValidArch(TightArch()) && L.Sized(TightArch())
    ensures |mem| >= 145 && Outcome(TightArch(), TightItems(), short, mem, ok, k) ==> !ok && k == 3 && short == {1, 2}
  {
    TightProper();
    TightOrder();
    TightItemsAre();
    TightWell();
    hide E.Whole, Chained, E.EndsOn, UniqueIds, L.NoneFalls, E.Search, Items, Tight, ValidArch, L.Sized;
    if |mem| >= 145 && Outcome(TightArch(), TightItems(), short, mem, ok, k) { TightOutcome(short, mem, ok, k); }
  }

  lemma TightBreaks(mem: seq<C.Byte>)
    requires WellItems(TightItems())
    ensures !SlotHolds(TightArch(), TightItems(), {1, 2}, mem, 3)
  {
    TightWell();
    TightOverflows();
    TightNames();
    hide WellItems, TightItems, Insn, ShortDistance, Slot;
    assert Displacement(TightArch(), TightItems(), {1, 2}, 3) == 131 by { TightDisplacement(); }
  }

  lemma TightDisplacement()
    requires WellItems(TightItems()) && JumpAt(TightItems(), 3)
    ensures Displacement(TightArch(), TightItems(), {1, 2}, 3) == 131
  {
    TightWell();
    TightOverflows();
    hide WellItems, TightItems, Insn, Pos, ShortDistance, TargetOf, JumpAt;
  }

  lemma TightOutcome(short: set<InstrId>, mem: seq<C.Byte>, ok: bool, k: nat)
    requires |mem| >= 145 && Outcome(TightArch(), TightItems(), short, mem, ok, k)
    ensures !ok && k == 3 && short == {1, 2}
  {
    var t, items := TightArch(), TightItems();
    TightJumps();
    TightOverflows();
    hide Noted, SlotHolds, ValidArch, WellItems, TightItems;
    TightBreaks(mem);
    if ok {
      TightNoted(short);
    } else {
      TightWell();
      AddrGrows(t, items, {}, k + 1, 9);
      TightNoted(short);
    }
  }
}

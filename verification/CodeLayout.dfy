/** Where instructions come to lie: blocks aligned to 16 bytes, branches short or long. */
module CodeLayout {
  import opened Machine
  import opened Links
  import C = BranchCode

  const BLOCK_ALIGN := 16

  function AlignUp(n: nat): (r: nat)
    ensures n <= r < n + BLOCK_ALIGN && r % BLOCK_ALIGN == 0
  {
    (n + BLOCK_ALIGN - 1) / BLOCK_ALIGN * BLOCK_ALIGN
  }

  /** What is emitted, in order: the beginning of a block, an instruction. */
  datatype Item = Mark(block: BlockId) | Code(instr: Instr)

  predicate IsJump(i: Instr) { i.kind.Branch? && i.kind.edge.Some? }

  function Dest(i: Instr): BlockId
    requires IsJump(i)
  {
    i.kind.edge.value
  }

  /** Bytes of a branch to a known block: two if short, else five for a jump, six with a condition. */
  function LongLen(i: Instr): nat { if i.hasPredicate then 6 else 5 }

  function Len(i: Instr, fixed: Instr -> nat, short: set<InstrId>): nat {
    if !IsJump(i) then fixed(i) else if i.id in short then 2 else LongLen(i)
  }

  /** The address behind the first n items. */
  function Pos(items: seq<Item>, fixed: Instr -> nat, short: set<InstrId>, n: nat): nat
    requires n <= |items|
  {
    if n == 0 then 0
    else
      var p := Pos(items, fixed, short, n - 1);
      match items[n - 1]
      case Mark(_) => AlignUp(p)
      case Code(i) => p + Len(i, fixed, short)
  }

  function Codes(instrs: seq<Instr>): (r: seq<Item>)
    ensures |r| == |instrs|
  {
    seq(|instrs|, k requires 0 <= k < |instrs| => Code(instrs[k]))
  }

  /** Blocks in their order, each its mark and its instructions. */
  function Items(f: Cfg, order: seq<BlockId>): seq<Item>
    requires forall b | b in order :: b in f.blocks
  {
    if order == [] then []
    else Items(f, order[..|order| - 1]) + [Mark(order[|order| - 1])] + Codes(f.blocks[order[|order| - 1]].instrs)
  }

  // ---- distances never grow ----

  lemma AlignMonotone(a: nat, b: nat, p: nat, q: nat)
    requires p % BLOCK_ALIGN == 0 && q % BLOCK_ALIGN == 0 && p <= a && q <= b && a - p <= b - q
    ensures AlignUp(a) - p <= AlignUp(b) - q
  {
    var i, j := p / BLOCK_ALIGN, q / BLOCK_ALIGN;
    assert p == BLOCK_ALIGN * i && q == BLOCK_ALIGN * j;
    var x, y := a - p, b - q;
    assert AlignUp(a) == p + AlignUp(x) by { AlignShift(x, i); }
    assert AlignUp(b) == q + AlignUp(y) by { AlignShift(y, j); }
    assert AlignUp(x) <= AlignUp(y);
  }

  lemma AlignShift(x: nat, i: nat)
    ensures AlignUp(BLOCK_ALIGN * i + x) == BLOCK_ALIGN * i + AlignUp(x)
  {
    assert BLOCK_ALIGN * i + x + BLOCK_ALIGN - 1 == BLOCK_ALIGN * i + (x + BLOCK_ALIGN - 1);
  }

  lemma {:induction false} PosGrows(items: seq<Item>, fixed: Instr -> nat, short: set<InstrId>, m: nat, n: nat)
    requires m <= n <= |items|
    ensures Pos(items, fixed, short, m) <= Pos(items, fixed, short, n)
  {
    if m < n {
      PosGrows(items, fixed, short, m, n - 1);
    }
  }

  /** With more branches short, everything behind the beginning of a block comes closer to it. */
  lemma {:induction false} DistancesShrink(items: seq<Item>, fixed: Instr -> nat, short: set<InstrId>, more: set<InstrId>, m: nat, n: nat)
    requires short <= more && m < n <= |items| && items[m].Mark?
    ensures Pos(items, fixed, more, n) - Pos(items, fixed, more, m + 1) <= Pos(items, fixed, short, n) - Pos(items, fixed, short, m + 1)
  {
    if m + 1 < n {
      DistancesShrink(items, fixed, short, more, m, n - 1);
      PosGrows(items, fixed, short, m + 1, n - 1);
      PosGrows(items, fixed, more, m + 1, n - 1);
      if items[n - 1].Mark? {
        AlignMonotone(Pos(items, fixed, more, n - 1), Pos(items, fixed, short, n - 1),
          Pos(items, fixed, more, m + 1), Pos(items, fixed, short, m + 1));
      }
    }
  }

  // ---- short branches ----

  /** From the end of a short branch at item c to the block whose mark is item m. */
  function ShortDistance(items: seq<Item>, fixed: Instr -> nat, short: set<InstrId>, c: nat, m: nat): int
    requires c < |items| && m < |items|
  {
    Pos(items, fixed, short, m + 1) - (Pos(items, fixed, short, c) + 2)
  }

  /** A backward branch that could be short in the first layout can be in the second. */
  lemma BackwardFits(items: seq<Item>, fixed: Instr -> nat, short: set<InstrId>, more: set<InstrId>, c: nat, m: nat)
    requires short <= more && m < c < |items| && items[m].Mark?
    requires C.Fits8(ShortDistance(items, fixed, short, c, m))
    ensures C.Fits8(ShortDistance(items, fixed, more, c, m))
  {
    DistancesShrink(items, fixed, short, more, m, c);
    PosGrows(items, fixed, more, m + 1, c);
  }

  /** The block an item belongs to begins at b. */
  predicate InBlock(items: seq<Item>, b: nat, c: nat) {
    b < c < |items| && items[b].Mark? && forall k | b < k <= c :: items[k].Code?
  }

  /** What has been saved in the block before the branch. */
  function Saved(items: seq<Item>, fixed: Instr -> nat, short: set<InstrId>, more: set<InstrId>, b: nat, c: nat): int
    requires b < c < |items|
  {
    (Pos(items, fixed, short, c) - Pos(items, fixed, short, b + 1)) - (Pos(items, fixed, more, c) - Pos(items, fixed, more, b + 1))
  }

  /** A forward branch grows by at most the bytes saved before it in its block, and fits if that leaves
      it room. */
  lemma ForwardGrowsBySaved(items: seq<Item>, fixed: Instr -> nat, short: set<InstrId>, more: set<InstrId>, b: nat, c: nat, m: nat)
    requires short <= more && InBlock(items, b, c) && c < m < |items| && items[m].Mark?
    requires items[c].instr.id in more && IsJump(items[c].instr)
    ensures 0 <= Saved(items, fixed, short, more, b, c)
    ensures 0 <= ShortDistance(items, fixed, more, c, m)
    ensures ShortDistance(items, fixed, more, c, m)
              <= ShortDistance(items, fixed, short, c, m) + Saved(items, fixed, short, more, b, c)
  {
    DistancesShrink(items, fixed, short, more, b, m + 1);
    DistancesShrink(items, fixed, short, more, b, c);
    PosGrows(items, fixed, more, c + 1, m + 1);
  }

  /** Nothing before it in its block shrank: the branch still fits. */
  lemma ForwardFits(items: seq<Item>, fixed: Instr -> nat, short: set<InstrId>, more: set<InstrId>, b: nat, c: nat, m: nat)
    requires short <= more && InBlock(items, b, c) && c < m < |items| && items[m].Mark?
    requires items[c].instr.id in more && IsJump(items[c].instr)
    requires Saved(items, fixed, short, more, b, c) <= 127 - ShortDistance(items, fixed, short, c, m)
    ensures C.Fits8(ShortDistance(items, fixed, more, c, m))
  {
    ForwardGrowsBySaved(items, fixed, short, more, b, c, m);
  }

  /** With no branch in between in the block that became short, nothing was saved. */
  lemma {:induction false} NothingSaved(items: seq<Item>, fixed: Instr -> nat, short: set<InstrId>, more: set<InstrId>, b: nat, c: nat)
    requires InBlock(items, b, c)
    requires forall k | b < k < c :: items[k].Code? && (IsJump(items[k].instr) && items[k].instr.id in more ==> items[k].instr.id in short)
    requires short <= more
    ensures Saved(items, fixed, short, more, b, c) == 0
  {
    if b + 1 < c {
      NothingSaved(items, fixed, short, more, b, c - 1);
    }
  }
}

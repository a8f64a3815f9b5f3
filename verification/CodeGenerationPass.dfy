/** Code generation in two passes: the first one only finds out which branches can be short, the second
    one writes the code. */
module CodeGenerationPass {
  import opened Machine
  import opened Links
  import opened CodeLayout
  import C = BranchCode
  import N = Padding
  import B = ProgramState

  type Byte = B.Byte

  /** Sizes and bytes of instructions other than branches to known blocks; the form of the latter. */
  datatype Arch = Arch(fixed: Instr -> nat, enc: (Instr, nat) -> seq<Byte>, form: Instr -> C.Form)

  ghost predicate ValidArch(t: Arch) {
    && (forall i: Instr, a: nat :: |t.enc(i, a)| == t.fixed(i))
    && (forall i: Instr | IsJump(i) :: C.ValidForm(t.form(i)) && (t.form(i).Jcc? <==> i.hasPredicate))
  }

  /** A branch whose target was not known when it was allocated. */
  datatype Pending = Pending(addr: nat, ilen: nat, instr: Instr)

  /** Marks and instructions are there once, and branches lead to marks. */
  ghost predicate WellItems(items: seq<Item>) {
    && (forall j, k | 0 <= j < k < |items| :: items[j] != items[k])
    && (forall j, k | 0 <= j < k < |items| && items[j].Code? && items[k].Code? :: items[j].instr.id != items[k].instr.id)
    && (forall k | 0 <= k < |items| && JumpAt(items, k) :: Mark(Dest(items[k].instr)) in items)
  }

  predicate JumpAt(items: seq<Item>, k: nat)
    requires k < |items|
  {
    items[k].Code? && IsJump(items[k].instr)
  }

  /** The place of a mark. */
  function MarkOf(items: seq<Item>, b: BlockId): (m: nat)
    requires Mark(b) in items
    ensures m < |items| && items[m] == Mark(b)
  {
    if items[|items| - 1] == Mark(b) then |items| - 1
    else
      assert items == items[..|items| - 1] + [items[|items| - 1]];
      MarkOf(items[..|items| - 1], b)
  }

  function TargetOf(items: seq<Item>, k: nat): (m: nat)
    requires k < |items| && JumpAt(items, k) && Mark(Dest(items[k].instr)) in items
    ensures m < |items| && items[m] == Mark(Dest(items[k].instr))
  {
    MarkOf(items, Dest(items[k].instr))
  }

  ghost predicate Forward(items: seq<Item>, k: nat)
    requires k < |items| && WellItems(items)
  {
    JumpAt(items, k) && TargetOf(items, k) > k
  }

  function Addr(t: Arch, items: seq<Item>, short: set<InstrId>, k: nat): nat
    requires k <= |items|
  {
    Pos(items, t.fixed, short, k)
  }

  /** From the end of the branch at k to its target. */
  ghost function Displacement(t: Arch, items: seq<Item>, short: set<InstrId>, k: nat): int
    requires k < |items| && WellItems(items) && JumpAt(items, k)
  {
    Addr(t, items, short, TargetOf(items, k) + 1) - Addr(t, items, short, k + 1)
  }

  ghost predicate EncodableAt(t: Arch, items: seq<Item>, short: set<InstrId>, k: nat)
    requires k < |items| && WellItems(items) && JumpAt(items, k)
  {
    C.Encodable(t.form(items[k].instr), items[k].instr.id in short, Displacement(t, items, short, k))
  }

  /** The bytes item k should have: padding, a branch to the beginning of its target, an instruction. */
  ghost function Slot(t: Arch, items: seq<Item>, short: set<InstrId>, k: nat): seq<Byte>
    requires k < |items| && WellItems(items)
  {
    match items[k]
    case Mark(_) => C.Nops(Addr(t, items, short, k + 1) - Addr(t, items, short, k))
    case Code(i) =>
      if !IsJump(i) then t.enc(i, Addr(t, items, short, k))
      else if EncodableAt(t, items, short, k) then C.BranchBytes(t.form(i), i.id in short, Displacement(t, items, short, k))
      else []
  }

  ghost predicate Holds(mem: seq<Byte>, a: nat, bs: seq<Byte>) {
    a + |bs| <= |mem| && mem[a..a + |bs|] == bs
  }

  ghost predicate SlotHolds(t: Arch, items: seq<Item>, short: set<InstrId>, mem: seq<Byte>, k: nat)
    requires k < |items| && WellItems(items)
  {
    Holds(mem, Addr(t, items, short, k), Slot(t, items, short, k)) && (JumpAt(items, k) ==> EncodableAt(t, items, short, k))
  }

  /** The code of the function is in memory: every item has its bytes at its place. */
  ghost predicate Emitted(t: Arch, items: seq<Item>, short: set<InstrId>, mem: seq<Byte>)
    requires WellItems(items)
  {
    forall k | 0 <= k < |items| :: SlotHolds(t, items, short, mem, k)
  }

  function Splice(mem: seq<Byte>, a: nat, bs: seq<Byte>): (r: seq<Byte>)
    requires a + |bs| <= |mem|
    ensures |r| == |mem|
  {
    mem[..a] + bs + mem[a + |bs|..]
  }

  lemma SpliceHolds(mem: seq<Byte>, a: nat, bs: seq<Byte>)
    requires a + |bs| <= |mem|
    ensures Holds(Splice(mem, a, bs), a, bs)
  {
  }

  lemma SpliceKeeps(mem: seq<Byte>, a: nat, bs: seq<Byte>, a': nat, bs': seq<Byte>)
    requires a + |bs| <= |mem| && Holds(mem, a', bs') && (a' + |bs'| <= a || a + |bs| <= a')
    ensures Holds(Splice(mem, a, bs), a', bs')
  {
    var m := Splice(mem, a, bs);
    forall k | 0 <= k < |bs'| ensures m[a' + k] == bs'[k] {
      assert mem[a'..a' + |bs'|][k] == bs'[k];
    }
    assert m[a'..a' + |bs'|] == bs';
  }

  /** A slot is as wide as the layout says, unless the branch does not fit. */
  lemma SlotWidth(t: Arch, items: seq<Item>, short: set<InstrId>, k: nat)
    requires ValidArch(t) && k < |items| && WellItems(items)
    ensures Addr(t, items, short, k + 1) == Addr(t, items, short, k) + |Slot(t, items, short, k)|
              || (JumpAt(items, k) && !EncodableAt(t, items, short, k) && Slot(t, items, short, k) == [])
    ensures Addr(t, items, short, k) <= Addr(t, items, short, k + 1)
  {
    if items[k].Code? && !IsJump(items[k].instr) {
      assert |t.enc(items[k].instr, Addr(t, items, short, k))| == t.fixed(items[k].instr);
    }
  }

  // ---- the state of a pass, and its steps ----

  datatype Gen = Gen(next: nat, blockMap: map<BlockId, nat>, branches: seq<Pending>, short: set<InstrId>, mem: seq<Byte>)

  /** A block begins: align, pad, remember where. */
  function StepMark(g: Gen, b: BlockId, write: bool): Gen
    requires AlignUp(g.next) <= |g.mem|
  {
    var a := AlignUp(g.next);
    g.(next := a, blockMap := g.blockMap[b := a], mem := if write then Splice(g.mem, g.next, C.Nops(a - g.next)) else g.mem)
  }

  /** In the first pass note whether the branch could be short, in the second one write it; None is a
      failed assertion. */
  function Fixup(t: Arch, g: Gen, p: Pending, target: nat, write: bool): Option<Gen> {
    if !write then
      Some(if C.Fits8(target - (p.addr + 2)) then g.(short := g.short + {p.instr.id}) else g)
    else
      var short, disp := p.instr.id in g.short, target - (p.addr + p.ilen);
      if p.ilen == C.BranchLen(t.form(p.instr), short) && C.Encodable(t.form(p.instr), short, disp) && p.addr + p.ilen <= |g.mem|
      then Some(g.(mem := Splice(g.mem, p.addr, C.BranchBytes(t.form(p.instr), short, disp))))
      else None
  }

  /** An instruction; None if memory is full or an assertion fails. */
  function StepCode(t: Arch, g: Gen, i: Instr, write: bool): Option<Gen> {
    var ilen := Len(i, t.fixed, g.short);
    if g.next + ilen > |g.mem| then None
    else if IsJump(i) then
      var p, g1 := Pending(g.next, ilen, i), g.(next := g.next + ilen);
      if Dest(i) in g.blockMap then Fixup(t, g1, p, g.blockMap[Dest(i)], write) else Some(g1.(branches := g.branches + [p]))
    else if |t.enc(i, g.next)| != ilen then None
    else Some(g.(next := g.next + ilen, mem := if write then Splice(g.mem, g.next, t.enc(i, g.next)) else g.mem))
  }

  // ---- what holds after n items ----

  ghost predicate MapOk(t: Arch, items: seq<Item>, s0: set<InstrId>, n: nat, blockMap: map<BlockId, nat>)
    requires n <= |items|
  {
    && (forall m | 0 <= m < n && items[m].Mark? :: items[m].block in blockMap && blockMap[items[m].block] == Addr(t, items, s0, m + 1))
    && (forall b | b in blockMap :: Mark(b) in items[..n])
  }

  ghost predicate IsPending(t: Arch, items: seq<Item>, s0: set<InstrId>, k: nat, p: Pending)
    requires k < |items| && WellItems(items)
  {
    Forward(items, k) && p == Pending(Addr(t, items, s0, k), Len(items[k].instr, t.fixed, s0), items[k].instr)
  }

  ghost predicate PendingFor(t: Arch, items: seq<Item>, s0: set<InstrId>, n: nat, p: Pending)
    requires n <= |items| && WellItems(items)
  {
    exists k :: 0 <= k < n && IsPending(t, items, s0, k, p)
  }

  ghost predicate PendOk(t: Arch, items: seq<Item>, s0: set<InstrId>, n: nat, branches: seq<Pending>)
    requires n <= |items| && WellItems(items)
  {
    && (forall p | p in branches :: PendingFor(t, items, s0, n, p))
    && (forall k | 0 <= k < n && Forward(items, k) ::
          Pending(Addr(t, items, s0, k), Len(items[k].instr, t.fixed, s0), items[k].instr) in branches)
  }

  /** The branch at k could be short in a layout where these are. */
  ghost predicate CouldBeShort(t: Arch, items: seq<Item>, s0: set<InstrId>, k: nat)
    requires k < |items| && WellItems(items)
  {
    JumpAt(items, k) && C.Fits8(ShortDistance(items, t.fixed, s0, k, TargetOf(items, k)))
  }

  ghost predicate NotedBy(t: Arch, items: seq<Item>, s0: set<InstrId>, n: nat, id: InstrId)
    requires n <= |items| && WellItems(items)
  {
    exists k :: 0 <= k < n && !Forward(items, k) && CouldBeShort(t, items, s0, k) && items[k].instr.id == id
  }

  /** First pass: the flags. Second pass: the memory. */
  ghost predicate FlagsOk(t: Arch, items: seq<Item>, s0: set<InstrId>, n: nat, short: set<InstrId>)
    requires n <= |items| && WellItems(items)
  {
    forall id :: id in short <==> id in s0 || NotedBy(t, items, s0, n, id)
  }

  ghost predicate MemOk(t: Arch, items: seq<Item>, s0: set<InstrId>, n: nat, mem: seq<Byte>)
    requires n <= |items| && WellItems(items)
  {
    forall k | 0 <= k < n && !Forward(items, k) :: SlotHolds(t, items, s0, mem, k)
  }

  ghost predicate Inv(t: Arch, items: seq<Item>, s0: set<InstrId>, write: bool, n: nat, g: Gen)
    requires n <= |items| && WellItems(items)
  {
    && g.next == Addr(t, items, s0, n) <= |g.mem| && |g.mem| % BLOCK_ALIGN == 0 && |g.mem| <= 0x8000_0000
    && MapOk(t, items, s0, n, g.blockMap) && PendOk(t, items, s0, n, g.branches)
    && (if write then g.short == s0 && MemOk(t, items, s0, n, g.mem) else FlagsOk(t, items, s0, n, g.short))
  }

  lemma AlignFits(n: nat, cap: nat)
    requires n <= cap && cap % BLOCK_ALIGN == 0
    ensures AlignUp(n) <= cap
  {
    var q := cap / BLOCK_ALIGN;
    assert cap == BLOCK_ALIGN * q;
  }

  lemma MapMark(t: Arch, items: seq<Item>, s0: set<InstrId>, n: nat, bm: map<BlockId, nat>)
    requires n < |items| && items[n].Mark? && MapOk(t, items, s0, n, bm) && WellItems(items)
    ensures MapOk(t, items, s0, n + 1, bm[items[n].block := Addr(t, items, s0, n + 1)])
  {
    assert items[..n + 1] == items[..n] + [items[n]];
  }

  lemma MapCode(t: Arch, items: seq<Item>, s0: set<InstrId>, n: nat, bm: map<BlockId, nat>)
    requires n < |items| && items[n].Code? && MapOk(t, items, s0, n, bm)
    ensures MapOk(t, items, s0, n + 1, bm)
  {
    assert items[..n + 1] == items[..n] + [items[n]];
  }

  /** A target is in the map exactly when its mark has been passed. */
  lemma MapTarget(t: Arch, items: seq<Item>, s0: set<InstrId>, n: nat, bm: map<BlockId, nat>)
    requires n < |items| && WellItems(items) && JumpAt(items, n) && MapOk(t, items, s0, n, bm)
    ensures Dest(items[n].instr) in bm <==> !Forward(items, n)
    ensures !Forward(items, n) ==> bm[Dest(items[n].instr)] == Addr(t, items, s0, TargetOf(items, n) + 1)
  {
    var m := TargetOf(items, n);
    assert m != n;
    if Dest(items[n].instr) in bm {
      var j :| 0 <= j < n && items[..n][j] == Mark(Dest(items[n].instr));
      assert items[j] == items[m];
    }
  }

  lemma PendSame(t: Arch, items: seq<Item>, s0: set<InstrId>, n: nat, branches: seq<Pending>)
    requires n < |items| && WellItems(items) && PendOk(t, items, s0, n, branches) && !Forward(items, n)
    ensures PendOk(t, items, s0, n + 1, branches)
  {
    forall p | p in branches ensures PendingFor(t, items, s0, n + 1, p) {
      assert PendingFor(t, items, s0, n, p);
    }
  }

  lemma PendMore(t: Arch, items: seq<Item>, s0: set<InstrId>, n: nat, branches: seq<Pending>, p: Pending)
    requires n < |items| && WellItems(items) && PendOk(t, items, s0, n, branches) && IsPending(t, items, s0, n, p)
    ensures PendOk(t, items, s0, n + 1, branches + [p])
  {
    forall q | q in branches + [p] ensures PendingFor(t, items, s0, n + 1, q) {
      if q in branches { assert PendingFor(t, items, s0, n, q); }
    }
  }

  lemma FlagsSame(t: Arch, items: seq<Item>, s0: set<InstrId>, n: nat, short: set<InstrId>)
    requires n < |items| && WellItems(items) && FlagsOk(t, items, s0, n, short)
    requires Forward(items, n) || !CouldBeShort(t, items, s0, n)
    ensures FlagsOk(t, items, s0, n + 1, short)
  {
    forall id ensures NotedBy(t, items, s0, n + 1, id) <==> NotedBy(t, items, s0, n, id) {
      if k :| 0 <= k < n + 1 && !Forward(items, k) && CouldBeShort(t, items, s0, k) && items[k].instr.id == id {
        assert k < n;
      }
    }
  }

  lemma FlagsMore(t: Arch, items: seq<Item>, s0: set<InstrId>, n: nat, short: set<InstrId>)
    requires n < |items| && WellItems(items) && FlagsOk(t, items, s0, n, short)
    requires !Forward(items, n) && CouldBeShort(t, items, s0, n)
    ensures FlagsOk(t, items, s0, n + 1, short + {items[n].instr.id})
  {
    var new_ := items[n].instr.id;
    forall id ensures NotedBy(t, items, s0, n + 1, id) <==> NotedBy(t, items, s0, n, id) || id == new_ {
      if k :| 0 <= k < n + 1 && !Forward(items, k) && CouldBeShort(t, items, s0, k) && items[k].instr.id == id {
        assert k < n ==> NotedBy(t, items, s0, n, id);
      }
    }
  }

  /** A flag set in this pass belongs to an instruction already behind. */
  lemma FlagAhead(t: Arch, items: seq<Item>, s0: set<InstrId>, n: nat, short: set<InstrId>)
    requires n < |items| && items[n].Code? && WellItems(items) && FlagsOk(t, items, s0, n, short)
    ensures Len(items[n].instr, t.fixed, short) == Len(items[n].instr, t.fixed, s0)
  {
    var id := items[n].instr.id;
    assert id in short <==> id in s0 || NotedBy(t, items, s0, n, id);
  }

  /** Writing the slot of item n leaves the ones before as they are. */
  lemma MemMore(t: Arch, items: seq<Item>, s0: set<InstrId>, n: nat, mem: seq<Byte>)
    requires ValidArch(t) && n < |items| && WellItems(items) && MemOk(t, items, s0, n, mem) && !Forward(items, n)
    requires Addr(t, items, s0, n) + |Slot(t, items, s0, n)| <= |mem| && (JumpAt(items, n) ==> EncodableAt(t, items, s0, n))
    ensures MemOk(t, items, s0, n + 1, Splice(mem, Addr(t, items, s0, n), Slot(t, items, s0, n)))
  {
    hide ValidArch, WellItems, Slot, EncodableAt, Pos, Splice, Holds;
    var a, bs := Addr(t, items, s0, n), Slot(t, items, s0, n);
    SpliceHolds(mem, a, bs);
    forall k | 0 <= k < n && !Forward(items, k) ensures SlotHolds(t, items, s0, Splice(mem, a, bs), k) {
      assert SlotHolds(t, items, s0, mem, k);
      OtherSlots(t, items, s0, mem, n, k);
    }
  }

  lemma MemSame(t: Arch, items: seq<Item>, s0: set<InstrId>, n: nat, mem: seq<Byte>)
    requires n < |items| && WellItems(items) && MemOk(t, items, s0, n, mem) && Forward(items, n)
    ensures MemOk(t, items, s0, n + 1, mem)
  {
  }

  lemma MarkKeeps(t: Arch, items: seq<Item>, s0: set<InstrId>, write: bool, n: nat, g: Gen)
    requires ValidArch(t) && n < |items| && WellItems(items) && Inv(t, items, s0, write, n, g) && items[n].Mark?
    ensures AlignUp(g.next) <= |g.mem| && Inv(t, items, s0, write, n + 1, StepMark(g, items[n].block, write))
  {
    hide MapOk, PendOk, FlagsOk, MemOk, WellItems;
    AlignFits(g.next, |g.mem|);
    MapMark(t, items, s0, n, g.blockMap);
    assert !Forward(items, n);
    PendSame(t, items, s0, n, g.branches);
    if write {
      MemMore(t, items, s0, n, g.mem);
    } else {
      FlagsSame(t, items, s0, n, g.short);
    }
  }

  /** Why a pass fails: no room, or a short branch does not reach its target any more. */
  ghost predicate Fails(t: Arch, items: seq<Item>, s0: set<InstrId>, write: bool, k: nat, size: nat)
    requires k < |items| && WellItems(items)
  {
    || Addr(t, items, s0, k + 1) > size
    || (write && JumpAt(items, k) && items[k].instr.id in s0 && !C.Fits8(Displacement(t, items, s0, k)))
  }

  /** A branch fits in its form: a long one anyway, as memory is small enough. */
  lemma Reaches(t: Arch, items: seq<Item>, s0: set<InstrId>, k: nat, size: nat)
    requires ValidArch(t) && k < |items| && WellItems(items) && JumpAt(items, k) && size <= 0x8000_0000
    requires Addr(t, items, s0, k + 1) <= size && Addr(t, items, s0, TargetOf(items, k) + 1) <= size
    requires items[k].instr.id in s0 ==> C.Fits8(Displacement(t, items, s0, k))
    ensures EncodableAt(t, items, s0, k)
    ensures Len(items[k].instr, t.fixed, s0) == C.BranchLen(t.form(items[k].instr), items[k].instr.id in s0)
  {
  }

  lemma JumpWritten(t: Arch, items: seq<Item>, s0: set<InstrId>, k: nat)
    requires ValidArch(t) && k < |items| && WellItems(items) && JumpAt(items, k) && EncodableAt(t, items, s0, k)
    ensures var i := items[k].instr;
            && C.Encodable(t.form(i), i.id in s0, Displacement(t, items, s0, k))
            && Slot(t, items, s0, k) == C.BranchBytes(t.form(i), i.id in s0, Displacement(t, items, s0, k))
            && |Slot(t, items, s0, k)| == Len(i, t.fixed, s0)
            && Displacement(t, items, s0, k)
                 == Addr(t, items, s0, TargetOf(items, k) + 1) - (Addr(t, items, s0, k) + Len(i, t.fixed, s0))
  {
  }

  /** A branch to a block further down: put on the list. */
  lemma ForwardKeeps(t: Arch, items: seq<Item>, s0: set<InstrId>, write: bool, n: nat, g: Gen)
    requires ValidArch(t) && n < |items| && WellItems(items) && Inv(t, items, s0, write, n, g) && Forward(items, n)
    requires Addr(t, items, s0, n + 1) <= |g.mem|
    ensures var i := items[n].instr;
            var p := Pending(g.next, Len(i, t.fixed, g.short), i);
            Inv(t, items, s0, write, n + 1, g.(next := g.next + Len(i, t.fixed, g.short), branches := g.branches + [p]))
    ensures Dest(items[n].instr) !in g.blockMap && Len(items[n].instr, t.fixed, g.short) == Len(items[n].instr, t.fixed, s0)
  {
    hide MapOk, PendOk, FlagsOk, MemOk, WellItems;
    if !write { FlagAhead(t, items, s0, n, g.short); }
    MapTarget(t, items, s0, n, g.blockMap);
    MapCode(t, items, s0, n, g.blockMap);
    var i := items[n].instr;
    PendMore(t, items, s0, n, g.branches, Pending(g.next, Len(i, t.fixed, g.short), i));
    if write { MemSame(t, items, s0, n, g.mem); } else { FlagsSame(t, items, s0, n, g.short); }
  }

  /** A branch to a block already placed: fixed up at once. */
  lemma BackwardKeeps(t: Arch, items: seq<Item>, s0: set<InstrId>, write: bool, n: nat, g: Gen)
    requires ValidArch(t) && n < |items| && WellItems(items) && Inv(t, items, s0, write, n, g)
    requires JumpAt(items, n) && !Forward(items, n) && Addr(t, items, s0, n + 1) <= |g.mem|
    ensures Dest(items[n].instr) in g.blockMap && Len(items[n].instr, t.fixed, g.short) == Len(items[n].instr, t.fixed, s0)
    ensures var i := items[n].instr;
            var ilen := Len(i, t.fixed, g.short);
            var r := Fixup(t, g.(next := g.next + ilen), Pending(g.next, ilen, i), g.blockMap[Dest(i)], write);
            match r
            case Some(g') => Inv(t, items, s0, write, n + 1, g') && |g'.mem| == |g.mem|
            case None => Fails(t, items, s0, write, n, |g.mem|)
  {
    hide MapOk, PendOk, FlagsOk, MemOk, WellItems;
    var i := items[n].instr;
    if !write { FlagAhead(t, items, s0, n, g.short); }
    MapTarget(t, items, s0, n, g.blockMap);
    MapCode(t, items, s0, n, g.blockMap);
    PendSame(t, items, s0, n, g.branches);
    var m := TargetOf(items, n);
    PosGrows(items, t.fixed, s0, m + 1, n);
    if write {
      if !Fails(t, items, s0, write, n, |g.mem|) {
        Reaches(t, items, s0, n, |g.mem|);
        JumpWritten(t, items, s0, n);
        MemMore(t, items, s0, n, g.mem);
      } else {
        assert !C.Fits8(Displacement(t, items, s0, n));
        ShortFails(t, items, s0, n);
      }
    } else {
      if CouldBeShort(t, items, s0, n) { FlagsMore(t, items, s0, n, g.short); } else { FlagsSame(t, items, s0, n, g.short); }
    }
  }

  lemma ShortFails(t: Arch, items: seq<Item>, s0: set<InstrId>, k: nat)
    requires k < |items| && WellItems(items) && JumpAt(items, k) && items[k].instr.id in s0 && !C.Fits8(Displacement(t, items, s0, k))
    ensures !C.Encodable(t.form(items[k].instr), true, Displacement(t, items, s0, k))
    ensures Displacement(t, items, s0, k) == Addr(t, items, s0, TargetOf(items, k) + 1) - (Addr(t, items, s0, k) + 2)
  {
  }

  lemma PlainKeeps(t: Arch, items: seq<Item>, s0: set<InstrId>, write: bool, n: nat, g: Gen)
    requires ValidArch(t) && n < |items| && WellItems(items) && Inv(t, items, s0, write, n, g)
    requires items[n].Code? && !IsJump(items[n].instr) && Addr(t, items, s0, n + 1) <= |g.mem|
    ensures var i := items[n].instr;
            && |t.enc(i, g.next)| == t.fixed(i)
            && Inv(t, items, s0, write, n + 1, g.(next := g.next + t.fixed(i), mem := if write then Splice(g.mem, g.next, t.enc(i, g.next)) else g.mem))
  {
    hide MapOk, PendOk, FlagsOk, MemOk, WellItems;
    MapCode(t, items, s0, n, g.blockMap);
    PendSame(t, items, s0, n, g.branches);
    if write {
      MemMore(t, items, s0, n, g.mem);
    } else {
      FlagsSame(t, items, s0, n, g.short);
    }
  }

  lemma CodeKeeps(t: Arch, items: seq<Item>, s0: set<InstrId>, write: bool, n: nat, g: Gen)
    requires ValidArch(t) && n < |items| && WellItems(items) && Inv(t, items, s0, write, n, g) && items[n].Code?
    ensures match StepCode(t, g, items[n].instr, write)
            case Some(g') => Inv(t, items, s0, write, n + 1, g') && |g'.mem| == |g.mem|
            case None => Fails(t, items, s0, write, n, |g.mem|)
  {
    hide MapOk, PendOk, FlagsOk, MemOk, WellItems, Fixup;
    var i := items[n].instr;
    assert Len(i, t.fixed, g.short) == Len(i, t.fixed, s0) by {
      if !write { FlagAhead(t, items, s0, n, g.short); }
    }
    if Addr(t, items, s0, n + 1) <= |g.mem| {
      if !IsJump(i) {
        PlainKeeps(t, items, s0, write, n, g);
      } else if Forward(items, n) {
        ForwardKeeps(t, items, s0, write, n, g);
      } else {
        BackwardKeeps(t, items, s0, write, n, g);
      }
    }
  }

  // ---- branches to blocks further down ----

  function PendingOf(t: Arch, items: seq<Item>, s0: set<InstrId>, k: nat): Pending
    requires k < |items| && items[k].Code?
  {
    Pending(Addr(t, items, s0, k), Len(items[k].instr, t.fixed, s0), items[k].instr)
  }

  /** Already fixed up: backward, or among these. */
  ghost predicate Fixed(t: Arch, items: seq<Item>, s0: set<InstrId>, bs: seq<Pending>, k: nat)
    requires k < |items| && WellItems(items)
  {
    Forward(items, k) ==> PendingOf(t, items, s0, k) in bs
  }

  ghost predicate NotedIn(t: Arch, items: seq<Item>, s0: set<InstrId>, bs: seq<Pending>, id: InstrId)
    requires WellItems(items)
  {
    exists k :: 0 <= k < |items| && Fixed(t, items, s0, bs, k) && CouldBeShort(t, items, s0, k) && items[k].instr.id == id
  }

  /** After these branches have been fixed up. */
  ghost predicate FixInv(t: Arch, items: seq<Item>, s0: set<InstrId>, write: bool, bs: seq<Pending>, g: Gen)
    requires WellItems(items)
  {
    && g.next == Addr(t, items, s0, |items|) <= |g.mem| <= 0x8000_0000 && MapOk(t, items, s0, |items|, g.blockMap)
    && (if write
        then g.short == s0 && forall k | 0 <= k < |items| && Fixed(t, items, s0, bs, k) :: SlotHolds(t, items, s0, g.mem, k)
        else forall id :: id in g.short <==> id in s0 || NotedIn(t, items, s0, bs, id))
  }

  lemma FixStarts(t: Arch, items: seq<Item>, s0: set<InstrId>, write: bool, g: Gen)
    requires WellItems(items) && Inv(t, items, s0, write, |items|, g)
    ensures FixInv(t, items, s0, write, [], g)
  {
    if !write {
      forall id ensures id in g.short <==> id in s0 || NotedIn(t, items, s0, [], id) {
        assert NotedBy(t, items, s0, |items|, id) <==> NotedIn(t, items, s0, [], id) by {
          if k :| 0 <= k < |items| && !Forward(items, k) && CouldBeShort(t, items, s0, k) && items[k].instr.id == id {
            assert Fixed(t, items, s0, [], k);
          }
          if k :| 0 <= k < |items| && Fixed(t, items, s0, [], k) && CouldBeShort(t, items, s0, k) && items[k].instr.id == id {
            assert !Forward(items, k);
          }
        }
      }
    }
  }

  lemma FindPending(t: Arch, items: seq<Item>, s0: set<InstrId>, branches: seq<Pending>, p: Pending) returns (k: nat)
    requires WellItems(items) && PendOk(t, items, s0, |items|, branches) && p in branches
    ensures k < |items| && Forward(items, k) && p == PendingOf(t, items, s0, k)
  {
    assert PendingFor(t, items, s0, |items|, p);
    k :| 0 <= k < |items| && IsPending(t, items, s0, k, p);
  }

  lemma TargetKnown(t: Arch, items: seq<Item>, s0: set<InstrId>, bm: map<BlockId, nat>, k: nat)
    requires WellItems(items) && MapOk(t, items, s0, |items|, bm) && k < |items| && JumpAt(items, k)
    ensures Dest(items[k].instr) in bm && bm[Dest(items[k].instr)] == Addr(t, items, s0, TargetOf(items, k) + 1)
  {
    var m := TargetOf(items, k);
    assert items[m].Mark?;
  }

  /** Only the branch itself has this address and this id. */
  lemma PendingDistinct(t: Arch, items: seq<Item>, s0: set<InstrId>, bs: seq<Pending>, p: Pending, k: nat, j: nat)
    requires WellItems(items) && k < |items| && Forward(items, k) && p == PendingOf(t, items, s0, k) && j < |items|
    ensures Fixed(t, items, s0, bs + [p], j) <==> Fixed(t, items, s0, bs, j) || j == k
  {
    if j != k && Forward(items, j) {
      assert items[j].instr.id != items[k].instr.id;
    }
  }

  lemma OtherSlots(t: Arch, items: seq<Item>, s0: set<InstrId>, mem: seq<Byte>, k: nat, j: nat)
    requires ValidArch(t) && WellItems(items) && k < |items| && j < |items| && j != k && SlotHolds(t, items, s0, mem, j)
    requires Addr(t, items, s0, k) + |Slot(t, items, s0, k)| <= |mem|
    ensures SlotHolds(t, items, s0, Splice(mem, Addr(t, items, s0, k), Slot(t, items, s0, k)), j)
  {
    hide ValidArch, WellItems, Slot, EncodableAt, Pos, Splice, Holds;
    SlotWidth(t, items, s0, k);
    SlotWidth(t, items, s0, j);
    if j < k { PosGrows(items, t.fixed, s0, j + 1, k); } else { PosGrows(items, t.fixed, s0, k + 1, j); }
    SpliceKeeps(mem, Addr(t, items, s0, k), Slot(t, items, s0, k), Addr(t, items, s0, j), Slot(t, items, s0, j));
  }

  lemma FixKeeps(t: Arch, items: seq<Item>, s0: set<InstrId>, write: bool, bs: seq<Pending>, p: Pending, k: nat, g: Gen)
    requires ValidArch(t) && WellItems(items) && FixInv(t, items, s0, write, bs, g)
    requires k < |items| && Forward(items, k) && p == PendingOf(t, items, s0, k)
    ensures Dest(p.instr) in g.blockMap
    ensures match Fixup(t, g, p, g.blockMap[Dest(p.instr)], write)
            case Some(g') => FixInv(t, items, s0, write, bs + [p], g') && |g'.mem| == |g.mem|
            case None => Fails(t, items, s0, write, k, |g.mem|)
  {
    hide MapOk, WellItems, SlotHolds, Fixed, CouldBeShort;
    TargetKnown(t, items, s0, g.blockMap, k);
    var m := TargetOf(items, k);
    PosGrows(items, t.fixed, s0, k + 1, |items|);
    PosGrows(items, t.fixed, s0, m + 1, |items|);
    if !write {
      CouldIs(t, items, s0, k);
      FixFlags(t, items, s0, bs, p, k, g);
    } else if Fails(t, items, s0, write, k, |g.mem|) {
      ShortFails(t, items, s0, k);
    } else {
      Reaches(t, items, s0, k, |g.mem|);
      JumpWritten(t, items, s0, k);
      FixMem(t, items, s0, bs, p, k, g);
    }
  }

  lemma CouldIs(t: Arch, items: seq<Item>, s0: set<InstrId>, k: nat)
    requires k < |items| && WellItems(items) && JumpAt(items, k)
    ensures CouldBeShort(t, items, s0, k) <==> C.Fits8(Addr(t, items, s0, TargetOf(items, k) + 1) - (Addr(t, items, s0, k) + 2))
  {
  }

  lemma FixMem(t: Arch, items: seq<Item>, s0: set<InstrId>, bs: seq<Pending>, p: Pending, k: nat, g: Gen)
    requires ValidArch(t) && WellItems(items) && FixInv(t, items, s0, true, bs, g)
    requires k < |items| && Forward(items, k) && p == PendingOf(t, items, s0, k) && EncodableAt(t, items, s0, k)
    requires Addr(t, items, s0, k) + |Slot(t, items, s0, k)| <= |g.mem|
    ensures FixInv(t, items, s0, true, bs + [p], g.(mem := Splice(g.mem, Addr(t, items, s0, k), Slot(t, items, s0, k))))
  {
    hide MapOk, WellItems, Fixed, Slot, EncodableAt;
    var mem := Splice(g.mem, Addr(t, items, s0, k), Slot(t, items, s0, k));
    SpliceHolds(g.mem, Addr(t, items, s0, k), Slot(t, items, s0, k));
    forall j | 0 <= j < |items| && Fixed(t, items, s0, bs + [p], j) ensures SlotHolds(t, items, s0, mem, j) {
      PendingDistinct(t, items, s0, bs, p, k, j);
      if j != k { OtherSlots(t, items, s0, g.mem, k, j); }
    }
  }

  lemma FixFlags(t: Arch, items: seq<Item>, s0: set<InstrId>, bs: seq<Pending>, p: Pending, k: nat, g: Gen)
    requires WellItems(items) && FixInv(t, items, s0, false, bs, g)
    requires k < |items| && Forward(items, k) && p == PendingOf(t, items, s0, k)
    ensures FixInv(t, items, s0, false, bs + [p], if CouldBeShort(t, items, s0, k) then g.(short := g.short + {p.instr.id}) else g)
  {
    hide MapOk, WellItems, Fixed, ShortDistance;
    var could := CouldBeShort(t, items, s0, k);
    forall id ensures NotedIn(t, items, s0, bs + [p], id) <==> NotedIn(t, items, s0, bs, id) || (could && id == p.instr.id) {
      if j :| 0 <= j < |items| && Fixed(t, items, s0, bs + [p], j) && CouldBeShort(t, items, s0, j) && items[j].instr.id == id {
        PendingDistinct(t, items, s0, bs, p, k, j);
      }
      if j :| 0 <= j < |items| && Fixed(t, items, s0, bs, j) && CouldBeShort(t, items, s0, j) && items[j].instr.id == id {
        PendingDistinct(t, items, s0, bs, p, k, j);
      }
      PendingDistinct(t, items, s0, bs, p, k, k);
    }
  }

  /** The branches that could be short in a layout where these are. */
  ghost predicate Noted(t: Arch, items: seq<Item>, s0: set<InstrId>, short: set<InstrId>)
    requires WellItems(items)
  {
    forall id :: id in short <==> id in s0 || SomeShort(t, items, s0, id)
  }

  ghost predicate SomeShort(t: Arch, items: seq<Item>, s0: set<InstrId>, id: InstrId)
    requires WellItems(items)
  {
    exists k :: 0 <= k < |items| && CouldBeShort(t, items, s0, k) && items[k].instr.id == id
  }

  lemma FixEnds(t: Arch, items: seq<Item>, s0: set<InstrId>, write: bool, bs: seq<Pending>, g: Gen)
    requires WellItems(items) && FixInv(t, items, s0, write, bs, g) && PendOk(t, items, s0, |items|, bs)
    ensures if write then g.short == s0 && Emitted(t, items, s0, g.mem) else Noted(t, items, s0, g.short)
  {
    hide WellItems, SlotHolds, CouldBeShort, MapOk;
    assert forall k | 0 <= k < |items| :: Fixed(t, items, s0, bs, k) by {
      forall k | 0 <= k < |items| ensures Fixed(t, items, s0, bs, k) { AllFixed(t, items, s0, bs, k); }
    }
    hide Fixed, PendOk;
    if !write {
      forall id ensures id in g.short <==> id in s0 || SomeShort(t, items, s0, id) {
        NotedAll(t, items, s0, bs, id);
      }
    }
  }

  lemma AllFixed(t: Arch, items: seq<Item>, s0: set<InstrId>, bs: seq<Pending>, k: nat)
    requires WellItems(items) && PendOk(t, items, s0, |items|, bs) && k < |items|
    ensures Fixed(t, items, s0, bs, k)
  {
  }

  lemma NotedAll(t: Arch, items: seq<Item>, s0: set<InstrId>, bs: seq<Pending>, id: InstrId)
    requires WellItems(items) && forall k | 0 <= k < |items| :: Fixed(t, items, s0, bs, k)
    ensures NotedIn(t, items, s0, bs, id) <==> SomeShort(t, items, s0, id)
  {
    hide WellItems, ShortDistance;
  }

  // ---- the pass ----

  lemma ItemsLast(f: Cfg, order: seq<BlockId>)
    requires order != [] && forall b | b in order :: b in f.blocks
    ensures var part, all, instrs := Items(f, order[..|order| - 1]), Items(f, order), f.blocks[order[|order| - 1]].instrs;
            && |all| == |part| + 1 + |instrs| && all[..|part|] == part && all[|part|] == Mark(order[|order| - 1])
            && all[|part| + 1..] == Codes(instrs) && all == part + [Mark(order[|order| - 1])] + Codes(instrs)
  {
    hide Codes;
  }

  lemma {:induction false} ItemsPrefix(f: Cfg, order: seq<BlockId>, n: nat)
    requires n < |order| && forall b | b in order :: b in f.blocks
    ensures var part, all, instrs := Items(f, order[..n]), Items(f, order), f.blocks[order[n]].instrs;
            && |part| + 1 + |instrs| <= |all| && all[|part|] == Mark(order[n])
            && all[|part| + 1..|part| + 1 + |instrs|] == Codes(instrs)
            && Items(f, order[..n + 1]) == part + [Mark(order[n])] + Codes(instrs)
            && (forall k | 0 <= k < |part| :: all[k] == part[k])
  {
    hide Items, Codes;
    ItemsLast(f, order);
    ItemsLast(f, order[..n + 1]);
    var last := order[..|order| - 1];
    assert order[..n + 1][..n] == order[..n] && order[..n + 1][n] == order[n];
    if n == |order| - 1 {
      assert order[..n] == last && order[..n + 1] == order;
    } else {
      ItemsPrefix(f, last, n);
      assert last[..n] == order[..n] && last[n] == order[n] && last[..n + 1] == order[..n + 1];
      var part, short, all := Items(f, order[..n]), Items(f, last), Items(f, order);
      PrefixSlice(short, all, |part| + 1, |part| + 1 + |f.blocks[order[n]].instrs|);
      hide *;
    }
  }

  lemma PrefixSlice<T>(s: seq<T>, t: seq<T>, a: nat, b: nat)
    requires s <= t && a <= b <= |s|
    ensures t[a..b] == s[a..b] && forall k | 0 <= k < |s| :: t[k] == s[k]
  {
    assert t[..|s|] == s;
  }

  class CodeGeneration {
    const f: Cfg
    const t: Arch
    const code: array<Byte>
    var write: bool
    var next: nat
    var blockMap: map<BlockId, nat>
    var branches: seq<Pending>
    var short: set<InstrId>       // instructions that use the short form

    ghost function G(): Gen reads this, code { Gen(next, blockMap, branches, short, code[..]) }

    constructor (f: Cfg, t: Arch, code: array<Byte>)
      ensures this.f == f && this.t == t && this.code == code && !write
      ensures G() == Gen(0, map[], [], {}, code[..])
    {
      this.f, this.t, this.code := f, t, code;
      write, next, blockMap, branches, short := false, 0, map[], [], {};
    }

    method WriteBytes(a: nat, bs: seq<Byte>)
      requires a + |bs| <= code.Length
      modifies code
      ensures code[..] == Splice(old(code[..]), a, bs)
    {
      for k := 0 to |bs|
        invariant code[..] == Splice(old(code[..]), a, bs[..k])
      {
        assert bs[..k + 1] == bs[..k] + [bs[k]];
        code[a + k] := bs[k];
      }
      assert bs[..|bs|] == bs;
    }

    /** newBlock: align, pad with no-operations; remember where the block begins. */
    method NewBlock(b: BlockId)
      requires AlignUp(next) <= code.Length
      modifies this`next, this`blockMap, code
      ensures G() == StepMark(old(G()), b, write)
      ensures next % BLOCK_ALIGN == 0 && old(next) <= next < old(next) + BLOCK_ALIGN
      ensures write ==> N.Pads(code[old(next)..], next - old(next))
    {
      hide C.Nops, N.Pads;
      var a := AlignUp(next);
      ghost var start := next;
      if write {
        WriteBytes(next, C.Nops(a - next));
      }
      next := a;
      blockMap := blockMap[b := a];
      if write { N.FilledPads(code[..], start, a - start); }
    }

    method FixupBranch(p: Pending, target: nat) returns (ok: bool)
      modifies this`short, code
      ensures match Fixup(t, old(G()), p, target, write)
              case Some(g) => ok && G() == g
              case None => !ok
    {
      if !write {
        if C.Fits8(target - (p.addr + 2)) {
          short := short + {p.instr.id};
        }
        return true;
      }
      var s, disp := p.instr.id in short, target - (p.addr + p.ilen);
      if p.ilen != C.BranchLen(t.form(p.instr), s) || !C.Encodable(t.form(p.instr), s, disp) || p.addr + p.ilen > code.Length {
        return false;
      }
      WriteBytes(p.addr, C.BranchBytes(t.form(p.instr), s, disp));
      ok := true;
    }

    method HandleInstruction(i: Instr) returns (ok: bool)
      modifies this`next, this`branches, this`short, code
      ensures match StepCode(t, old(G()), i, write)
              case Some(g) => ok && G() == g
              case None => !ok
    {
      var ilen := Len(i, t.fixed, short);
      if next + ilen > code.Length {
        return false;
      }
      if IsJump(i) {
        var p := Pending(next, ilen, i);
        next := next + ilen;
        if Dest(i) in blockMap {
          ok := FixupBranch(p, blockMap[Dest(i)]);
        } else {
          branches := branches + [p];
          ok := true;
        }
        return;
      }
      var bs := t.enc(i, next);
      if |bs| != ilen {
        return false;
      }
      if write {
        WriteBytes(next, bs);
      }
      next := next + ilen;
      ok := true;
    }

    method HandleBlock(b: BlockId, ghost items: seq<Item>, ghost n: nat, ghost s0: set<InstrId>) returns (ok: bool, ghost k: nat)
      requires b in f.blocks && ValidArch(t) && WellItems(items) && n + 1 + |f.blocks[b].instrs| <= |items|
      requires items[n] == Mark(b) && items[n + 1..n + 1 + |f.blocks[b].instrs|] == Codes(f.blocks[b].instrs)
      requires Inv(t, items, s0, write, n, G())
      modifies this`next, this`blockMap, this`branches, this`short, code
      ensures ok ==> Inv(t, items, s0, write, n + 1 + |f.blocks[b].instrs|, G())
      ensures !ok ==> k < |items| && Fails(t, items, s0, write, k, code.Length)
    {
      hide Inv, WellItems, ValidArch, StepMark, StepCode, Fails;
      k := n;
      MarkKeeps(t, items, s0, write, n, G());
      NewBlock(b);
      var instrs := f.blocks[b].instrs;
      for j := 0 to |instrs|
        invariant Inv(t, items, s0, write, n + 1 + j, G())
      {
        CodeAt(items, n + 1, instrs, j);
        CodeKeeps(t, items, s0, write, n + 1 + j, G());
        k := n + 1 + j;
        ok := HandleInstruction(instrs[j]);
        if !ok {
          return;
        }
      }
      ok := true;
    }

    /** All blocks, then the branches left over. The first pass ends with the branches known that could be
        short, the second one with the code in memory. */
    method RunPass(order: seq<BlockId>, ghost items: seq<Item>) returns (ok: bool, ghost k: nat)
      requires (forall b | b in order :: b in f.blocks) && items == Items(f, order)
      requires ValidArch(t) && WellItems(items) && code.Length % BLOCK_ALIGN == 0 && code.Length <= 0x8000_0000
      modifies this, code
      ensures ok && !old(write) ==> Noted(t, items, old(short), short)
      ensures ok && old(write) ==> short == old(short) && Emitted(t, items, short, code[..])
      ensures ok ==> write && Addr(t, items, old(short), |items|) <= code.Length
      ensures !ok ==> k < |items| && Fails(t, items, old(short), old(write), k, code.Length)
    {
      hide Inv, WellItems, ValidArch, StepMark, StepCode, Fails, Items, FixInv, Fixup, Noted, Emitted, PendOk;
      next, blockMap, branches := 0, map[], [];
      k := 0;
      ghost var s0, w := short, write;
      NoItems(f, order);
      PassStarts(t, items, s0, write, G());
      for n := 0 to |order|
        invariant write == w && |Items(f, order[..n])| <= |items|
        invariant Inv(t, items, s0, write, |Items(f, order[..n])|, G())
      {
        ItemsPrefix(f, order, n);
        ok, k := HandleBlock(order[n], items, |Items(f, order[..n])|, s0);
        if !ok {
          return;
        }
      }
      assert order[..|order|] == order;
      InvParts(t, items, s0, write, G());
      FixStarts(t, items, s0, write, G());
      var bs := branches;
      assert bs[..0] == [];
      for j := 0 to |bs|
        invariant write == w && FixInv(t, items, s0, write, bs[..j], G())
      {
        assert bs[..j + 1] == bs[..j] + [bs[j]];
        k := FindPending(t, items, s0, bs, bs[j]);
        FixKeeps(t, items, s0, write, bs[..j], bs[j], k, G());
        ok := FixupBranch(bs[j], blockMap[Dest(bs[j].instr)]);
        if !ok {
          return;
        }
      }
      assert bs[..|bs|] == bs;
      FixEnds(t, items, s0, write, bs, G());
      EndsWithin(t, items, s0, write, bs, G());
      branches := [];
      blockMap := map[];
      write := true;
      ok := true;
    }
  }

  /** What comes of both passes: code in memory, with exactly those branches short that could be in the
      first layout; or item k has no room, or is a branch to a block further down that could be short in
      the first layout and does not reach its target in the second. */
  ghost predicate Outcome(t: Arch, items: seq<Item>, short: set<InstrId>, mem: seq<Byte>, ok: bool, k: nat) {
    && WellItems(items) && ValidArch(t)
    && if ok then Noted(t, items, {}, short) && Emitted(t, items, short, mem)
       else
         && k < |items|
         && (Addr(t, items, {}, k + 1) > |mem|
             || (Noted(t, items, {}, short) && Forward(items, k) && items[k].instr.id in short
                 && !C.Fits8(Displacement(t, items, short, k))))
  }

  /** Both passes over fresh code. If they succeed the code is in memory, with exactly those branches
      short that could be in the first layout. If they fail then for lack of room, or because a branch
      to a block further down that was to be short does not reach it any more. */
  method Generate(f: Cfg, t: Arch, code: array<Byte>, order: seq<BlockId>, ghost items: seq<Item>)
      returns (ok: bool, short: set<InstrId>, ghost k: nat)
    requires (forall b | b in order :: b in f.blocks) && items == Items(f, order)
    requires ValidArch(t) && WellItems(items) && code.Length % BLOCK_ALIGN == 0 && code.Length <= 0x8000_0000
    modifies code
    ensures Outcome(t, items, short, code[..], ok, k)
  {
    hide WellItems, ValidArch, Noted, Emitted;
    var g := new CodeGeneration(f, t, code);
    ok, k := g.RunPass(order, items);
    short := g.short;
    if !ok {
      return;
    }
    ok, k := g.RunPass(order, items);
    if ok {
      short := g.short;
    } else {
      SecondPassFails(t, items, short, code.Length, k);
    }
  }

  /** In the second pass there is room for everything, and backward branches reach their targets. */
  lemma SecondPassFails(t: Arch, items: seq<Item>, short: set<InstrId>, size: nat, k: nat)
    requires WellItems(items) && Noted(t, items, {}, short) && Addr(t, items, {}, |items|) <= size
    requires k < |items| && Fails(t, items, short, true, k, size)
    ensures Forward(items, k) && items[k].instr.id in short && !C.Fits8(Displacement(t, items, short, k))
  {
    ShorterAddr(t, items, short, k + 1);
    PosGrows(items, t.fixed, {}, k + 1, |items|);
    assert JumpAt(items, k) && items[k].instr.id in short;
    assert SomeShort(t, items, {}, items[k].instr.id);
    var j :| 0 <= j < |items| && CouldBeShort(t, items, {}, j) && items[j].instr.id == items[k].instr.id;
    SameItem(items, j, k);
    var m := TargetOf(items, k);
    assert Displacement(t, items, short, k) == ShortDistance(items, t.fixed, short, k, m);
    if m < k {
      BackwardFits(items, t.fixed, {}, short, k, m);
    }
  }

  lemma SameItem(items: seq<Item>, j: nat, k: nat)
    requires WellItems(items) && j < |items| && k < |items| && items[j].Code? && items[k].Code? && items[j].instr.id == items[k].instr.id
    ensures j == k
  {
  }

  lemma {:induction false} ShorterAddr(t: Arch, items: seq<Item>, short: set<InstrId>, n: nat)
    requires n <= |items|
    ensures Addr(t, items, short, n) <= Addr(t, items, {}, n)
  {
    if n > 0 {
      ShorterAddr(t, items, short, n - 1);
    }
  }

  lemma CodeAt(items: seq<Item>, n: nat, instrs: seq<Instr>, j: nat)
    requires n + |instrs| <= |items| && items[n..n + |instrs|] == Codes(instrs) && j < |instrs|
    ensures items[n + j] == Code(instrs[j])
  {
    assert items[n..n + |instrs|][j] == Codes(instrs)[j];
  }

  lemma NoItems(f: Cfg, order: seq<BlockId>)
    ensures Items(f, order[..0]) == []
  {
  }

  lemma PassStarts(t: Arch, items: seq<Item>, s0: set<InstrId>, write: bool, g: Gen)
    requires WellItems(items) && g.next == 0 && g.blockMap == map[] && g.branches == [] && g.short == s0
    requires |g.mem| % BLOCK_ALIGN == 0 && |g.mem| <= 0x8000_0000
    ensures Inv(t, items, s0, write, 0, g)
  {
  }

  lemma InvParts(t: Arch, items: seq<Item>, s0: set<InstrId>, write: bool, g: Gen)
    requires WellItems(items) && Inv(t, items, s0, write, |items|, g)
    ensures PendOk(t, items, s0, |items|, g.branches)
  {
  }

  lemma EndsWithin(t: Arch, items: seq<Item>, s0: set<InstrId>, write: bool, bs: seq<Pending>, g: Gen)
    requires WellItems(items) && FixInv(t, items, s0, write, bs, g)
    ensures Addr(t, items, s0, |items|) <= |g.mem|
  {
  }
}

/** The loop unrolling pass on a function: whatever it does to blocks, instructions and edges, every
    run of the function from every block it had stays as it was. */
module UnrollingPass {
  import opened Machine
  import opened Links
  import opened Ir
  import opened IrOps
  import opened FunctionIr
  import opened IrGraph
  import opened IrLoops
  import opened Unrolling
  import S = IrSplit
  import G = Surgery
  import P = Predicates
  import U = UnrollShape

  /** Whether a branch can be inverted, and its condition, is a matter of its opcode, not of its target. */
  ghost predicate OpcodeOnly(opcodes: Opcodes) {
    forall i: Instr, d: Option<BlockId> | i.kind.Branch? :: opcodes(i.(kind := Branch(d))) == opcodes(i)
  }

  // ---- the last branch of a block to itself ----

  predicate LeadsTo(x: Ir, i: NodeId, d: BlockId) {
    i in x.code && x.code[i].edge.Some? && x.code[i].edge.value in x.edges && x.edges[x.code[i].edge.value].dst == d
  }

  /** The instruction at k branches to b, and none behind it does. */
  ghost predicate LastTo(x: Ir, s: seq<NodeId>, k: nat, b: BlockId) {
    k < |s| && LeadsTo(x, s[k], b) && forall j | k < j < |s| :: !LeadsTo(x, s[j], b)
  }

  lemma LeadsIs(x: Ir, c: BlockId, i: NodeId, d: BlockId)
    requires Consistent(x) && c in x.blocks && i in x.blocks[c].instrs
    ensures i in x.code && (OpOf(x, i).kind == Branch(Some(d)) <==> LeadsTo(x, i, d))
  {
    InstrThere(x, c, i);
    BareOp(x, c, i);
    hide Consistent;
  }

  /** The edges of instructions behind position k are behind that instruction's edge. */
  lemma LaterEdge(x: Ir, b: BlockId, k: nat, p: nat, j: nat)
    requires Consistent(x) && b in x.blocks && k < j < |x.blocks[b].instrs| && p < |x.blocks[b].outgoing|
    requires x.blocks[b].instrs[k] in x.code && x.code[x.blocks[b].instrs[k]].edge == Some(x.blocks[b].outgoing[p])
    requires x.blocks[b].instrs[j] in x.code && x.code[x.blocks[b].instrs[j]].edge.Some?
    ensures exists q :: p < q < |x.blocks[b].outgoing| && x.blocks[b].outgoing[q] == x.code[x.blocks[b].instrs[j]].edge.value
  {
    hide Consistent, EdgesOf, NoDup;
    var code, s, es := x.code, x.blocks[b].instrs, x.blocks[b].outgoing;
    AllEdgesOnce(x, b);
    var f, l, r := EdgesOf(code, s[..k]), es[p], EdgesOf(code, s[k + 1..]);
    SplitLists(code, s, k, k);
    assert s[..k] + s[k..] == s;
    EdgesOfAppend(code, s[..k], s[k..]);
    assert es == f + ([l] + r);
    SameIndex(es, p, |f|);
    EdgesOfMember(code, s[k + 1..], code[s[j]].edge.value);
    assert s[k + 1..][j - k - 1] == s[j];
    var t :| 0 <= t < |r| && r[t] == code[s[j]].edge.value;
    assert es[|f| + 1 + t] == r[t];
  }

  lemma SameIndex(s: seq<nat>, p: nat, q: nat)
    requires NoDup(s) && p < |s| && q < |s| && s[p] == s[q]
    ensures p == q
  {
  }

  lemma HasSelf(x: Ir, b: BlockId)
    requires Consistent(x) && b in x.blocks && b in Whole(x).blocks && Loops(Whole(x), b)
    ensures exists p :: 0 <= p < |x.blocks[b].outgoing| && x.blocks[b].outgoing[p] in x.edges && x.edges[x.blocks[b].outgoing[p]].dst == b
  {
    WholeBlock(x, b);
    var s := x.blocks[b].instrs;
    InCode(x, x.blocks[b]);
    OpsAt(x, s);
    var k :| 0 <= k < |Whole(x).blocks[b].instrs| && SelfBranch(Whole(x).blocks[b].instrs[k], b);
    hide Consistent, EdgesOf, NoDup;
    assert s[k] in s;
    LeadsIs(x, b, s[k], b);
    var e := x.code[s[k]].edge.value;
    SrcBlock(x, b, s[k], e);
    OutgoingStart(x, b, e);
  }

  lemma OutgoingThere(x: Ir, b: BlockId, p: nat)
    requires Consistent(x) && b in x.blocks && p < |x.blocks[b].outgoing|
    ensures var e := x.blocks[b].outgoing[p];
            && e in x.edges && x.edges[e].instr in x.blocks[b].instrs && x.edges[e].instr in x.code
            && x.code[x.edges[e].instr].edge == Some(e)
  {
    var e := x.blocks[b].outgoing[p];
    OutgoingStart(x, b, e);
    assert EdgeOk(x, e);
  }

  /** The last self branch: the last such edge, as their order is that of the instructions. */
  method FindLastSelf(fn: Function, b: BlockId) returns (k: nat)
    requires fn.Valid() && b in fn.blocks
    requires exists p :: 0 <= p < |fn.blocks[b].outgoing| && fn.blocks[b].outgoing[p] in fn.edges && fn.edges[fn.blocks[b].outgoing[p]].dst == b
    ensures LastTo(fn.I(), fn.blocks[b].instrs, k, b)
  {
    hide Consistent, Supply;
    ghost var x := fn.I();
    var es, s := fn.blocks[b].outgoing, fn.blocks[b].instrs;
    forall q | 0 <= q < |es| ensures es[q] in fn.edges {
      OutgoingThere(x, b, q);
    }
    var p := |es| - 1;
    while fn.edges[es[p]].dst != b
      invariant 0 <= p < |es|
      invariant forall q | p < q < |es| :: fn.edges[es[q]].dst != b
      decreases p
    {
      p := p - 1;
    }
    OutgoingThere(x, b, p);
    k := Function.Find(s, fn.edges[es[p]].instr);
    forall j | k < j < |s| ensures !LeadsTo(x, s[j], b) {
      assert s[j] in s;
      InstrThere(x, b, s[j]);
      if LeadsTo(x, s[j], b) {
        LaterEdge(x, b, k, p, j);
      }
    }
  }

  lemma AfterLastIs(ops: seq<Instr>, b: BlockId, k: nat)
    requires k < |ops| && SelfBranch(ops[k], b) && forall j | k < j < |ops| :: !SelfBranch(ops[j], b)
    ensures AfterLastSelf(ops, b) == k + 1
  {
    var n := AfterLastSelf(ops, b);
    assert n > 0 ==> SelfBranch(ops[n - 1], b);
  }

  lemma LastSelfPlace(x: Ir, b: BlockId, k: nat)
    requires Consistent(x) && b in x.blocks && LastTo(x, x.blocks[b].instrs, k, b)
    ensures b in Whole(x).blocks && |Whole(x).blocks[b].instrs| == |x.blocks[b].instrs|
    ensures AfterLastSelf(Whole(x).blocks[b].instrs, b) == k + 1
  {
    hide Consistent, AfterLastSelf;
    WholeBlock(x, b);
    var s, ops := x.blocks[b].instrs, Whole(x).blocks[b].instrs;
    InCode(x, x.blocks[b]);
    OpsAt(x, s);
    forall j | 0 <= j < |s| ensures SelfBranch(ops[j], b) <==> LeadsTo(x, s[j], b) {
      assert s[j] in s;
      LeadsIs(x, b, s[j], b);
    }
    AfterLastIs(ops, b, k);
  }

  // ---- preparing the loop ----

  lemma SplitMakes(x: Ir, f: Cfg, g: Cfg, b: BlockId, k: nat, nb: BlockId)
    requires b in f.blocks && k <= |f.blocks[b].instrs| && nb !in f.blocks && g == G.Split(f, b, k, nb)
    requires Makes(x, f)
    ensures b in x.blocks && k <= |x.blocks[b].instrs| && nb !in x.blocks && Makes(S.Split(x, b, k, nb), g)
  {
    hide *;
    MakesFacts(x, f);
    WholeKeys(x);
    WholeBlock(x, b);
    S.SplitConsistent(x, b, k, nb);
    SplitWhole(x, b, k, nb);
    MakesIs(S.Split(x, b, k, nb), g);
  }

  lemma WholeKeys(x: Ir)
    requires Consistent(x)
    ensures Whole(x).blocks.Keys == x.blocks.Keys
  {
  }

  lemma UnchainMakes(x: Ir, f: Cfg, g: Cfg, b: BlockId, id: InstrId, i: NodeId)
    requires b in f.blocks && f.blocks[b].next.Some? && g == G.Unchain(f, b, id)
    requires Makes(x, f) && Supply(x, i)
    ensures b in x.blocks && x.blocks[b].next.Some? && x.blocks[b].next.value in x.blocks
    ensures Makes(Unchained(x, b, BareJump(id), i, i + 1), g)
  {
    hide *;
    MakesFacts(x, f);
    WholeKeys(x);
    WholeBlock(x, b);
    NextThere(x, b);
    BareJumpKind(id);
    UnchainedSupply(x, b, BareJump(id), i, i + 1);
    UnchainedConsistent(x, b, BareJump(id), i, i + 1);
    UnchainWhole(x, b, id, i, i + 1);
    MakesIs(Unchained(x, b, BareJump(id), i, i + 1), g);
  }

  lemma BareJumpKind(id: InstrId)
    ensures BareJump(id).kind == Branch(None)
  {
  }

  /** Split behind the last self branch, then spell the fallthrough out. */
  method PrepareLoop(fn: Function, ghost f: Cfg, b: BlockId, jump: InstrId) returns (ghost rest: BlockId)
    requires fn.Valid() && Makes(fn.I(), f) && b in f.blocks && Loops(f, b)
    modifies fn
    ensures fn.Valid() && rest !in f.blocks && Makes(fn.I(), Prepare(f, b, rest, jump))
  {
    hide Consistent, Supply, Whole, G.Split, G.Unchain, Makes, AfterLastSelf, LastTo, S.Split, Loops, Unchained;
    ghost var x := fn.I();
    MakesFacts(x, f);
    WholeKeys(x);
    HasSelf(x, b);
    var k := FindLastSelf(fn, b);
    LastSelfPlace(x, b, k);
    NotTaken(x, fn.nextId);
    rest := fn.nextId;
    ghost var g := f;
    if k + 1 < |fn.blocks[b].instrs| {
      g := G.Split(f, b, k + 1, rest);
      SplitMakes(x, f, g, b, k + 1, rest);
      SplitKeys(f, b, k + 1, rest);
      var nb := fn.SplitBlock(b, k + 1);
    }
    MakesFacts(fn.I(), g);
    WholeKeys(fn.I());
    WholeBlock(fn.I(), b);
    if fn.blocks[b].next.Some? {
      UnchainMakes(fn.I(), g, G.Unchain(g, b, jump), b, jump, fn.nextId);
      var i := fn.UnchainNext(b, BareJump(jump));
    }
  }

  lemma NotTaken(x: Ir, id: nat)
    requires Supply(x, id)
    ensures id !in x.blocks
  {
  }

  // ---- one more iteration ----

  lemma CopyMakes(x: Ir, y: Ir, z: Ir, f: Cfg, b: BlockId, copy: BlockId)
    requires Makes(x, f) && b in f.blocks && b in x.blocks && b in y.blocks && b != copy && Consistent(y) && Consistent(z)
    requires CopyOf(x, y, b, copy, |x.blocks[b].instrs|) && Redirected(y, z, b, copy, y.blocks[b].outgoing)
    ensures copy !in f.blocks && Makes(z, G.CopyLoop(f, b, copy))
  {
    hide *;
    MakesFacts(x, f);
    WholeKeys(x);
    CopiedIs3(x, y, z, b, copy);
    CopyWhole(x, y, z, b, copy);
    MakesIs(z, G.CopyLoop(f, b, copy));
  }

  lemma CopiedIs3(x: Ir, y: Ir, z: Ir, b: BlockId, copy: BlockId)
    requires Consistent(x) && b in x.blocks && b in y.blocks && b != copy && Consistent(y) && Consistent(z)
    requires CopyOf(x, y, b, copy, |x.blocks[b].instrs|) && Redirected(y, z, b, copy, y.blocks[b].outgoing)
    ensures Copied(x, y, z, b, copy)
  {
  }

  lemma CopyKeeps(x: Ir, y: Ir, b: BlockId, copy: BlockId, m: nat)
    requires b in x.blocks && m <= |x.blocks[b].instrs| && CopyOf(x, y, b, copy, m)
    ensures b in y.blocks && copy in y.blocks && b != copy && copy !in x.blocks
  {
  }

  /** What the graph of a loop with its copy says about the last two instructions. */
  lemma EndsOfLoop(z: Ir, f: Cfg, g: Cfg, b: BlockId, copy: BlockId)
    requires b in f.blocks && copy !in f.blocks && g == G.CopyLoop(f, b, copy)
    requires Ready(f, b) && G.Complete(f) && Makes(z, g)
    ensures b in z.blocks && copy in z.blocks && z.blocks[b].instrs != []
    ensures var s, m := z.blocks[b].instrs, |z.blocks[b].instrs|;
            && s[m - 1] in z.code && z.code[s[m - 1]].edge.Some? && z.code[s[m - 1]].edge.value in z.edges
            && m == |g.blocks[b].instrs|
            && (LeadsTo(z, s[m - 1], copy) <==> g.blocks[b].instrs[m - 1].kind == Branch(Some(copy)))
            && (!LeadsTo(z, s[m - 1], copy) ==>
                  m >= 2 && g.blocks[b].instrs[m - 2].kind == Branch(Some(copy)) && EndsTwo(g, b, copy)
                  && TwoBranches(z, b, s[m - 2], s[m - 1], copy) && g.blocks[b].instrs[m - 2] == OpOf(z, s[m - 2]))
  {
    hide Consistent, Whole, Makes, G.Complete, G.CopyLoop, G.Retarget, OpOf, LeadsTo, NodeOk, G.JumpsTo, G.Still;
    MakesFacts(z, g);
    WholeKeys(z);
    CopyInstrs(f, b, copy);
    WholeBlock(z, b);
    WholeBlock(z, copy);
    var s, m := z.blocks[b].instrs, |z.blocks[b].instrs|;
    InCode(z, z.blocks[b]);
    OpsAt(z, s);
    assert s[m - 1] in s && (m >= 2 ==> s[m - 2] in s);
    var i := f.blocks[b].instrs[m - 1];
    RetargetKind(i, b, copy);
    LeadsIs(z, b, s[m - 1], copy);
    LeadsIs(z, b, s[m - 1], if i.kind.Branch? && i.kind.edge.Some? then i.kind.edge.value else 0);
    LeadsParts(z, s[m - 1]);
    if m >= 2 {
      RetargetKind(f.blocks[b].instrs[m - 2], b, copy);
      LeadsIs(z, b, s[m - 2], copy);
      LeadsParts(z, s[m - 2]);
    }
  }

  lemma LeadsParts(z: Ir, i: NodeId)
    ensures forall d :: LeadsTo(z, i, d) ==> i in z.code && z.code[i].edge.Some? && z.code[i].edge.value in z.edges && z.edges[z.code[i].edge.value].dst == d
  {
  }

  lemma RetargetKind(i: Instr, b: BlockId, copy: BlockId)
    ensures G.Retarget(i, b, copy).kind == if i.kind == Branch(Some(b)) then Branch(Some(copy)) else i.kind
  {
  }

  lemma CopyInstrs(f: Cfg, b: BlockId, copy: BlockId)
    requires b in f.blocks && copy !in f.blocks
    ensures var g, instrs := G.CopyLoop(f, b, copy), f.blocks[b].instrs;
            && b in g.blocks && copy in g.blocks && |g.blocks[b].instrs| == |instrs| && g.blocks[b].next == f.blocks[b].next
            && g.blocks[copy].prev.None? && g.blocks[copy].next.None?
            && forall k | 0 <= k < |instrs| :: g.blocks[b].instrs[k] == G.Retarget(instrs[k], b, copy)
  {
  }

  /** Drop the branch to the copy, invert the jump behind it, and let control fall through to the copy. */
  method InvertLast(fn: Function, ghost g: Cfg, ghost h: Cfg, b: BlockId, jcc: NodeId, jmp: NodeId, copy: BlockId, cc: P.Condition)
    requires EndsTwo(g, b, copy) && h == G.Invert(cc, g, b)
    requires fn.Valid() && TwoBranches(fn.I(), b, jcc, jmp, copy) && Makes(fn.I(), g)
    modifies fn
    ensures fn.Valid() && Makes(fn.I(), h)
  {
    hide Consistent, Supply, Whole, Makes, G.Invert, EndsTwo, NoDup, TwoBranches, LastBranch, RemovedInstr, NodeOk;
    ghost var z := fn.I();
    MakesFacts(z, g);
    TwoFacts(z, b, jcc, jmp, copy);
    Different(z, b, jcc, jmp, copy);
    InvertWhole(cc, z, g, h, b, jcc, jmp, copy);
    var op := G.Inverted(cc, fn.code[jcc].op, fn.code[jmp].op);
    fn.RemoveInstruction(b, jcc);
    RemovedCode(z, b, jcc, jmp);
    RemovedBlock(z, b, jcc, b);
    RemovedBlock(z, b, jcc, copy);
    fn.SetOpcode(jmp, op);
    fn.ChainTo(b, copy);
  }

  /** Copy, redirect, and invert the last branch if its opcode can be. */
  method UnrollBlockOnce(fn: Function, ghost f: Cfg, b: BlockId, opcodes: Opcodes) returns (copy: BlockId)
    requires fn.Valid() && Makes(fn.I(), f) && b in f.blocks && Ready(f, b) && G.Complete(f) && OpcodeOnly(opcodes)
    modifies fn
    ensures fn.Valid() && copy !in f.blocks && Makes(fn.I(), UnrollOnce(f, b, copy, opcodes))
    ensures OpcodesRight(opcodes) ==>
              && U.Handed(UnrollOnce(f, b, copy, opcodes), f.blocks[b].instrs, b, b, copy, opcodes)
              && U.Sent(f.blocks[b].instrs, UnrollOnce(f, b, copy, opcodes).blocks[copy].instrs, b, copy)
  {
    hide U.Handed, U.Sent, OpcodesRight;
    hide Consistent, Supply, Whole, Makes, G.Complete, Ready, G.CopyLoop, G.Invert, CopyOf, Redirected, NoDup;
    ghost var x := fn.I();
    MakesFacts(x, f);
    WholeKeys(x);
    copy := fn.CopyBlock(b);
    ghost var y := fn.I();
    CopyKeeps(x, y, b, copy, |x.blocks[b].instrs|);
    fn.RedirectLoops(b, copy);
    ghost var z, g := fn.I(), G.CopyLoop(f, b, copy);
    CopyMakes(x, y, z, f, b, copy);
    EndsOfLoop(z, f, g, b, copy);
    var s := fn.blocks[b].instrs;
    var jmp := s[|s| - 1];
    if fn.edges[fn.code[jmp].edge.value].dst != copy {
      var jcc := s[|s| - 2];
      MakesFacts(z, g);
      TwoFacts(z, b, jcc, jmp, copy);
      Different(z, b, jcc, jmp, copy);
      SameOpcode(opcodes, fn.code[jcc].op, OpOf(z, jcc));
      if opcodes(fn.code[jcc].op).Some? {
        var cc := opcodes(fn.code[jcc].op).value;
        InvertLast(fn, g, G.Invert(cc, g, b), b, jcc, jmp, copy, cc);
      }
    }
    if OpcodesRight(opcodes) { OnceShaped(f, b, copy, opcodes); }
  }

  lemma OnceShaped(f: Cfg, b: BlockId, copy: BlockId, opcodes: Opcodes)
    requires b in f.blocks && Ready(f, b) && G.Complete(f) && OpcodeOnly(opcodes) && OpcodesRight(opcodes) && copy !in f.blocks
    ensures U.Handed(UnrollOnce(f, b, copy, opcodes), f.blocks[b].instrs, b, b, copy, opcodes)
    ensures copy in UnrollOnce(f, b, copy, opcodes).blocks
            && U.Sent(f.blocks[b].instrs, UnrollOnce(f, b, copy, opcodes).blocks[copy].instrs, b, copy)
  {
    U.CompleteTargets(f, b);
    hide U.Handed, U.Sent, Ready, G.Complete, UnrollOnce, OpcodesRight, U.KnownTargets;
    U.OnceHands(f, b, copy, opcodes);
  }

  lemma SameOpcode(opcodes: Opcodes, i: Instr, j: Instr)
    requires OpcodeOnly(opcodes) && i.kind.Branch? && j.kind.Branch? && j == i.(kind := j.kind)
    ensures opcodes(i) == opcodes(j)
  {
    assert opcodes(i.(kind := Branch(j.kind.edge))) == opcodes(i);
  }

  // ---- the pass on one loop ----

  /** split, unchain, then copy, retarget and invert as often as asked. Every run from every block there
      was executes the same instructions in the same states; of the block and its copies only the last
      one still branches to itself. Instruction by instruction: the others go to the following copy instead, or, if they
      ended with a branch that can be inverted and a jump, fall through to it and leave by the inverted branch. */
  method UnrollSingleBlockLoop(fn: Function, b: BlockId, count: nat, opcodes: Opcodes, jump: InstrId)
      returns (copies: seq<BlockId>, ghost f: Cfg, ghost g: Cfg, ghost k: nat, ghost rest: BlockId)
    requires fn.Valid() && OpcodeOnly(opcodes) && OpcodesRight(opcodes) && b in fn.blocks
    requires StillBranches(Whole(fn.I())) && b in Whole(fn.I()).blocks && Loops(Whole(fn.I()), b)
    modifies fn
    ensures fn.Valid() && Makes(old(fn.I()), f) && Makes(fn.I(), g) && Proper(f, g)
    ensures |copies| == count && forall k | 0 <= k < count :: copies[k] in g.blocks && copies[k] !in f.blocks
    ensures count > 0 ==> b in g.blocks && !Loops(g, b)
    ensures forall k | 0 <= k < count - 1 :: !Loops(g, copies[k])
    ensures U.Unrolled(f, g, b, k, rest, jump, copies, opcodes)
  {
    hide Consistent, Supply, Whole, Makes, G.Complete, Ready, Proper, StillBranches, UnrollOnce, Loops, SoFar, Prepare;
    hide Shaped, OpcodesRight, OpcodeOnly, U.Unrolled;
    ghost var x := fn.I();
    f := Whole(x);
    MakesIs(x, f);
    WholeComplete(x);
    rest := PrepareLoop(fn, f, b, jump);
    PrepareProper(f, b, rest, jump);
    g := Prepare(f, b, rest, jump);
    copies := [];
    StartSoFar(f, g, b);
    ProperFacts(f, g);
    k := StartShaped(f, b, rest, jump, opcodes);
    ghost var s, known := g.blocks[b].instrs, g.blocks.Keys;
    var current := b;
    for n := 0 to count
      invariant |copies| == n && fn.Valid() && Makes(fn.I(), g) && SoFar(f, g, b, current, copies)
      invariant Shaped(f, g, b, k, rest, jump, s, known, copies, opcodes)
    {
      SoFarFacts(f, g, b, current, copies);
      var copy := UnrollBlockOnce(fn, g, current, opcodes);
      MoreShaped(f, g, b, k, rest, jump, s, known, current, copies, copy, opcodes);
      NextSoFar(f, g, b, current, copies, copy, opcodes);
      g := UnrollOnce(g, current, copy, opcodes);
      copies := copies + [copy];
      current := copy;
    }
    SoFarFacts(f, g, b, current, copies);
    ShapedIs(f, g, b, k, rest, jump, s, known, copies, opcodes);
  }

  /** The block and its copies, after some rounds. */
  ghost predicate Shaped(f: Cfg, g: Cfg, b: BlockId, k: nat, rest: BlockId, jump: InstrId, s: seq<Instr>, known: set<BlockId>,
                         copies: seq<BlockId>, opcodes: Opcodes) {
    && b in f.blocks && f.blocks.Keys <= known <= g.blocks.Keys && rest !in f.blocks
    && k < |f.blocks[b].instrs| && (k + 1 < |f.blocks[b].instrs| ==> rest in known)
    && U.Prepared(f, b, k, rest, jump, s) && U.Rounds(g, s, b, [b] + copies, opcodes) && U.Others(f, g, b, k, rest)
    && U.KnownTargets(s, known) && U.Apart([b] + copies, known)
  }

  lemma StartShaped(f: Cfg, b: BlockId, rest: BlockId, jump: InstrId, opcodes: Opcodes) returns (k: nat)
    requires b in f.blocks && rest !in f.blocks && Loops(f, b) && G.Complete(Prepare(f, b, rest, jump))
    requires f.blocks.Keys <= Prepare(f, b, rest, jump).blocks.Keys
    ensures var g := Prepare(f, b, rest, jump); Shaped(f, g, b, k, rest, jump, g.blocks[b].instrs, g.blocks.Keys, [], opcodes)
  {
    k := U.PreparedIs(f, b, rest, jump);
    var g := Prepare(f, b, rest, jump);
    U.StartRounds(g, b, opcodes);
    U.CompleteTargets(g, b);
    hide Prepare, Loops, G.Complete, U.Rounds, U.KnownTargets;
    assert [b] + [] == [b];
  }

  lemma MoreShaped(f: Cfg, g: Cfg, b: BlockId, k: nat, rest: BlockId, jump: InstrId, s: seq<Instr>, known: set<BlockId>,
                   current: BlockId, copies: seq<BlockId>, copy: BlockId, opcodes: Opcodes)
    requires Shaped(f, g, b, k, rest, jump, s, known, copies, opcodes) && SoFar(f, g, b, current, copies)
    requires current in g.blocks && copy !in g.blocks && OpcodeOnly(opcodes) && OpcodesRight(opcodes)
    ensures Shaped(f, UnrollOnce(g, current, copy, opcodes), b, k, rest, jump, s, known, copies + [copy], opcodes)
  {
    hide U.Rounds, U.Others, U.Prepared, U.KnownTargets, U.Apart, UnrollOnce, Proper, Ready, Loops, OpcodesRight;
    var chain := [b] + copies;
    assert chain[|chain| - 1] == current;
    U.OneMore(g, s, b, chain, copy, opcodes, known);
    assert chain + [copy] == [b] + (copies + [copy]);
    var h := UnrollOnce(g, current, copy, opcodes);
    OnceKeys(g, current, copy, opcodes);
    U.OthersStay(f, g, h, b, k, rest, known);
  }

  lemma OnceKeys(g: Cfg, b: BlockId, copy: BlockId, opcodes: Opcodes)
    requires b in g.blocks && copy !in g.blocks
    ensures g.blocks.Keys <= UnrollOnce(g, b, copy, opcodes).blocks.Keys
  {
  }

  lemma ShapedIs(f: Cfg, g: Cfg, b: BlockId, k: nat, rest: BlockId, jump: InstrId, s: seq<Instr>, known: set<BlockId>,
                 copies: seq<BlockId>, opcodes: Opcodes)
    requires Shaped(f, g, b, k, rest, jump, s, known, copies, opcodes)
    ensures U.Unrolled(f, g, b, k, rest, jump, copies, opcodes)
  {
  }

  /** The graph after some rounds: it runs like the original, the last copy is ready for the next round,
      the block and the other copies have stopped looping. */
  ghost predicate SoFar(f: Cfg, g: Cfg, b: BlockId, current: BlockId, copies: seq<BlockId>) {
    && Proper(f, g) && Ready(g, current) && b in f.blocks
    && current == (if copies == [] then b else copies[|copies| - 1])
    && (forall k | 0 <= k < |copies| :: copies[k] in g.blocks && copies[k] !in f.blocks)
    && (copies != [] ==> b in g.blocks && !Loops(g, b))
    && (forall k | 0 <= k < |copies| - 1 :: copies[k] != current && !Loops(g, copies[k]))
  }

  lemma StartSoFar(f: Cfg, g: Cfg, b: BlockId)
    requires Proper(f, g) && Ready(g, b) && b in f.blocks
    ensures SoFar(f, g, b, b, [])
  {
  }

  lemma SoFarFacts(f: Cfg, g: Cfg, b: BlockId, current: BlockId, copies: seq<BlockId>)
    requires SoFar(f, g, b, current, copies)
    ensures G.Complete(g) && StillBranches(g) && f.blocks.Keys <= g.blocks.Keys && Ready(g, current) && current in g.blocks && Proper(f, g)
    ensures forall k | 0 <= k < |copies| :: copies[k] in g.blocks && copies[k] !in f.blocks
    ensures copies != [] ==> b in g.blocks && !Loops(g, b)
    ensures forall k | 0 <= k < |copies| - 1 :: copies[k] in g.blocks && !Loops(g, copies[k])
  {
  }

  lemma NextSoFar(f: Cfg, g: Cfg, b: BlockId, current: BlockId, copies: seq<BlockId>, copy: BlockId, opcodes: Opcodes)
    requires SoFar(f, g, b, current, copies) && copy !in g.blocks && current in g.blocks && OpcodesRight(opcodes)
    ensures SoFar(f, UnrollOnce(g, current, copy, opcodes), b, copy, copies + [copy])
  {
    hide Proper, Ready, UnrollOnce, G.Complete, StillBranches, Loops;
    SoFarFacts(f, g, b, current, copies);
    OnceProper(g, current, copy, opcodes);
    var h := UnrollOnce(g, current, copy, opcodes);
    ProperTwice(f, g, h);
    StayUnlooped(g, h, current, b, copies);
  }

  /** Blocks other than the one being unrolled are not touched. */
  lemma StayUnlooped(g: Cfg, h: Cfg, current: BlockId, b: BlockId, copies: seq<BlockId>)
    requires g.blocks.Keys <= h.blocks.Keys && current in h.blocks && !Loops(h, current)
    requires forall c | c in g.blocks && c != current :: h.blocks[c].instrs == g.blocks[c].instrs
    requires b in g.blocks && (b != current ==> !Loops(g, b))
    requires forall k | 0 <= k < |copies| :: copies[k] in g.blocks && (copies[k] != current ==> !Loops(g, copies[k]))
    ensures !Loops(h, b) && forall k | 0 <= k < |copies| :: !Loops(h, copies[k])
  {
  }
}

/** Unrolling a loop that is a single superblock, any number of times. */
module Unrolling {
  import opened Machine
  import opened Links
  import opened Simulation
  import opened Surgery
  import P = Predicates

  predicate SelfBranch(i: Instr, b: BlockId) { i.kind == Branch(Some(b)) }

  predicate Loops(f: Cfg, b: BlockId)
    requires b in f.blocks
  {
    exists k :: 0 <= k < |f.blocks[b].instrs| && SelfBranch(f.blocks[b].instrs[k], b)
  }

  /** The place after the last branch of the block to itself. */
  function AfterLastSelf(instrs: seq<Instr>, b: BlockId): (k: nat)
    ensures k <= |instrs|
    ensures k > 0 ==> SelfBranch(instrs[k - 1], b)
    ensures forall j | k <= j < |instrs| :: !SelfBranch(instrs[j], b)
  {
    if instrs == [] then 0
    else if SelfBranch(instrs[|instrs| - 1], b) then |instrs|
    else AfterLastSelf(instrs[..|instrs| - 1], b)
  }

  /** Everything behind the last self branch in a block of its own, reached by a jump. */
  function Prepare(f: Cfg, b: BlockId, rest: BlockId, jump: InstrId): Cfg
    requires b in f.blocks && rest !in f.blocks
  {
    var k := AfterLastSelf(f.blocks[b].instrs, b);
    var g := if k < |f.blocks[b].instrs| then Split(f, b, k, rest) else f;
    if g.blocks[b].next.Some? then Unchain(g, b, jump) else g
  }

  /** The condition of the opcode of an instruction, if the opcode can be inverted. */
  type Opcodes = Instr -> Option<P.Condition>

  ghost predicate OpcodesRight(opcodes: Opcodes) {
    forall i: Instr | opcodes(i).Some? :: P.HasCondition(i, opcodes(i).value)
  }

  /** One more iteration: a copy behind the block. A conditional self branch followed by a jump is
      inverted, if its opcode has an inverted one, so that the block falls through to the copy. */
  function UnrollOnce(f: Cfg, b: BlockId, copy: BlockId, opcodes: Opcodes): Cfg
    requires b in f.blocks && copy !in f.blocks
  {
    var g := CopyLoop(f, b, copy);
    var instrs := g.blocks[b].instrs;
    if |instrs| >= 2 && instrs[|instrs| - 1].kind != Branch(Some(copy)) && instrs[|instrs| - 2].kind == Branch(Some(copy))
       && opcodes(instrs[|instrs| - 2]).Some?
    then Invert(opcodes(instrs[|instrs| - 2]).value, g, b) else g
  }

  function Unroll(f: Cfg, b: BlockId, copies: seq<BlockId>, opcodes: Opcodes): Cfg
    requires b in f.blocks && Fresh(f, copies)
    decreases copies
  {
    if copies == [] then f
    else
      assert copies[0] !in f.blocks;
      Unroll(UnrollOnce(f, b, copies[0], opcodes), copies[0], copies[1..], opcodes)
  }

  /** Distinct ids that are no block's. */
  predicate Fresh(f: Cfg, ids: seq<BlockId>) {
    && (forall k | 0 <= k < |ids| :: ids[k] !in f.blocks)
    && (forall j, k | 0 <= j < k < |ids| :: ids[j] != ids[k])
  }

  // ---- what the preparation establishes ----

  /** The block ends with a branch to itself, or with one and a jump elsewhere. */
  ghost predicate Ready(f: Cfg, b: BlockId) {
    && b in f.blocks && f.blocks[b].next.None? && f.blocks[b].instrs != []
    && var instrs, m := f.blocks[b].instrs, |f.blocks[b].instrs|;
       || SelfBranch(instrs[m - 1], b)
       || (m >= 2 && SelfBranch(instrs[m - 2], b) && instrs[m - 1].kind.Branch? && instrs[m - 1].kind.edge.Some?
           && JumpsTo(instrs[m - 1], instrs[m - 1].kind.edge.value))
  }

  /** Branches to known blocks do nothing but branch. */
  ghost predicate StillBranches(f: Cfg) {
    forall b | b in f.blocks :: AllStill(f.blocks[b].instrs)
  }

  ghost predicate AllStill(instrs: seq<Instr>) {
    forall k | 0 <= k < |instrs| && instrs[k].kind.Branch? && instrs[k].kind.edge.Some? :: Still(instrs[k])
  }

  /** The graph is closed, its branches are still, and from block e it runs like f. */
  ghost predicate Proper(f: Cfg, g: Cfg) {
    && Complete(g) && StillBranches(g) && f.blocks.Keys <= g.blocks.Keys
    && forall e: BlockId, s: State | e in f.blocks :: SameFrom(f, g, At(e, 0, s), At(e, 0, s))
  }

  lemma ProperSelf(f: Cfg)
    requires Complete(f) && StillBranches(f)
    ensures Proper(f, f)
  {
    hide Complete, StillBranches;
    forall e: BlockId, s: State | e in f.blocks ensures SameFrom(f, f, At(e, 0, s), At(e, 0, s)) {
      EquivalentSelf(Graph(f), At(e, 0, s));
    }
  }

  lemma ProperTwice(f: Cfg, g: Cfg, h: Cfg)
    requires Proper(f, g) && Proper(g, h)
    ensures Proper(f, h)
  {
    hide Complete, StillBranches, Equivalent;
    forall e: BlockId, s: State | e in f.blocks ensures SameFrom(f, h, At(e, 0, s), At(e, 0, s)) {
      assert SameFrom(f, g, At(e, 0, s), At(e, 0, s)) && SameFrom(g, h, At(e, 0, s), At(e, 0, s));
      EquivalentTwice(Graph(f), At(e, 0, s), Graph(g), At(e, 0, s), Graph(h), At(e, 0, s));
    }
  }

  lemma SplitProper(f: Cfg, b: BlockId, k: nat, nb: BlockId)
    requires Complete(f) && StillBranches(f) && b in f.blocks && k <= |f.blocks[b].instrs| && nb !in f.blocks
    ensures Proper(f, Split(f, b, k, nb))
  {
    SplitComplete(f, b, k, nb);
    var g := Split(f, b, k, nb);
    forall c | c in g.blocks ensures AllStill(g.blocks[c].instrs) {
      assert AllStill(f.blocks[if c == nb then b else c].instrs);
    }
    hide Complete, StillBranches, Split, SameFrom;
    forall e: BlockId, s: State | e in f.blocks ensures SameFrom(f, g, At(e, 0, s), At(e, 0, s)) {
      SplitPreserves(f, b, k, nb, e, s);
    }
  }

  lemma UnchainProper(f: Cfg, b: BlockId, id: InstrId)
    requires Complete(f) && StillBranches(f) && b in f.blocks && f.blocks[b].next.Some?
    ensures Proper(f, Unchain(f, b, id))
  {
    UnchainComplete(f, b, id);
    var g := Unchain(f, b, id);
    forall c | c in g.blocks ensures AllStill(g.blocks[c].instrs) {
      assert AllStill(f.blocks[c].instrs);
      forall k | 0 <= k < |g.blocks[c].instrs| && g.blocks[c].instrs[k].kind.Branch? && g.blocks[c].instrs[k].kind.edge.Some?
        ensures Still(g.blocks[c].instrs[k])
      {
        if k < |f.blocks[c].instrs| { assert Still(f.blocks[c].instrs[k]); }
      }
    }
    hide Complete, StillBranches, Unchain, SameFrom;
    forall e: BlockId, s: State | e in f.blocks ensures SameFrom(f, g, At(e, 0, s), At(e, 0, s)) {
      UnchainPreserves(f, b, id, e, s);
    }
  }

  lemma CopyProper(f: Cfg, b: BlockId, nb: BlockId)
    requires Complete(f) && StillBranches(f) && b in f.blocks && nb !in f.blocks && f.blocks[b].next.None?
    ensures Proper(f, CopyLoop(f, b, nb))
  {
    CopyComplete(f, b, nb);
    var g := CopyLoop(f, b, nb);
    forall c | c in g.blocks ensures AllStill(g.blocks[c].instrs) {
      var o := if c == nb then b else c;
      assert AllStill(f.blocks[o].instrs);
      forall k | 0 <= k < |g.blocks[c].instrs| && g.blocks[c].instrs[k].kind.Branch? && g.blocks[c].instrs[k].kind.edge.Some?
        ensures Still(g.blocks[c].instrs[k])
      {
        assert Still(f.blocks[o].instrs[k]);
        assert g.blocks[c].instrs[k].exec == f.blocks[o].instrs[k].exec;
      }
    }
    hide Complete, StillBranches, CopyLoop, SameFrom;
    forall e: BlockId, s: State | e in f.blocks ensures SameFrom(f, g, At(e, 0, s), At(e, 0, s)) {
      CopyPreserves(f, b, nb, e, s);
    }
  }

  lemma InvertProper(cc: P.Condition, f: Cfg, b: BlockId, d: BlockId, l: BlockId)
    requires Invertible(cc, f, b, d, l) && StillBranches(f)
    ensures Proper(f, Invert(cc, f, b))
  {
    InvertComplete(cc, f, b, d, l);
    var g, m := Invert(cc, f, b), |f.blocks[b].instrs|;
    forall c | c in g.blocks ensures AllStill(g.blocks[c].instrs) {
      assert AllStill(f.blocks[c].instrs);
      forall k | 0 <= k < |g.blocks[c].instrs| && g.blocks[c].instrs[k].kind.Branch? && g.blocks[c].instrs[k].kind.edge.Some?
        ensures Still(g.blocks[c].instrs[k])
      {
        var o := f.blocks[c].instrs[if c == b && k == m - 2 then m - 1 else k];
        assert Still(o) && g.blocks[c].instrs[k].exec == o.exec;
      }
    }
    hide Complete, StillBranches, Invert, Invertible, SameFrom;
    forall e: BlockId, s: State | e in f.blocks ensures SameFrom(f, g, At(e, 0, s), At(e, 0, s)) {
      InvertPreserves(cc, f, b, d, l, e, s);
    }
  }

  /** Where the loop is after the split and after the fallthrough has been spelled out. */
  lemma PrepareReady(f: Cfg, b: BlockId, rest: BlockId, jump: InstrId)
    requires b in f.blocks && rest !in f.blocks && Loops(f, b)
    ensures var k := AfterLastSelf(f.blocks[b].instrs, b);
            k > 0 && Ready(Prepare(f, b, rest, jump), b) && Prepare(f, b, rest, jump).blocks.Keys <= f.blocks.Keys + {rest}
  {
    LastSelf(f.blocks[b].instrs, b);
    hide AfterLastSelf, Split, Unchain, Ready, SelfBranch, Loops;
    var k := AfterLastSelf(f.blocks[b].instrs, b);
    if k < |f.blocks[b].instrs| {
      SplitHas(f, b, k, rest);
      UnchainReady(Split(f, b, k, rest), b, jump);
    } else if f.blocks[b].next.Some? {
      UnchainReady(f, b, jump);
    } else {
      SelfReady(f, b);
    }
  }

  lemma UnchainReady(f: Cfg, b: BlockId, jump: InstrId)
    requires b in f.blocks && f.blocks[b].next.Some? && f.blocks[b].instrs != []
    requires SelfBranch(f.blocks[b].instrs[|f.blocks[b].instrs| - 1], b)
    ensures Ready(Unchain(f, b, jump), b) && Unchain(f, b, jump).blocks.Keys == f.blocks.Keys
  {
    var g, m := Unchain(f, b, jump), |f.blocks[b].instrs|;
    assert g.blocks[b].instrs[m] == Jump(jump, f.blocks[b].next.value) && g.blocks[b].instrs[m - 1] == f.blocks[b].instrs[m - 1];
  }

  lemma SelfReady(f: Cfg, b: BlockId)
    requires b in f.blocks && f.blocks[b].next.None? && f.blocks[b].instrs != []
    requires SelfBranch(f.blocks[b].instrs[|f.blocks[b].instrs| - 1], b)
    ensures Ready(f, b)
  {
  }

  lemma LastSelf(instrs: seq<Instr>, b: BlockId)
    ensures (exists k :: 0 <= k < |instrs| && SelfBranch(instrs[k], b)) ==> AfterLastSelf(instrs, b) > 0
  {
    hide SelfBranch;
    if AfterLastSelf(instrs, b) == 0 {
      assert forall j | 0 <= j < |instrs| :: !SelfBranch(instrs[j], b);
    }
  }

  lemma PrepareProper(f: Cfg, b: BlockId, rest: BlockId, jump: InstrId)
    requires Complete(f) && StillBranches(f) && b in f.blocks && rest !in f.blocks && Loops(f, b)
    ensures Proper(f, Prepare(f, b, rest, jump)) && Ready(Prepare(f, b, rest, jump), b)
    ensures Prepare(f, b, rest, jump).blocks.Keys <= f.blocks.Keys + {rest}
  {
    PrepareReady(f, b, rest, jump);
    hide Complete, StillBranches, Loops, Ready, Split, Unchain, Proper, AfterLastSelf, SelfBranch;
    var k := AfterLastSelf(f.blocks[b].instrs, b);
    var g := if k < |f.blocks[b].instrs| then Split(f, b, k, rest) else f;
    if k < |f.blocks[b].instrs| {
      SplitProper(f, b, k, rest);
    } else {
      ProperSelf(f);
    }
    ProperFacts(f, g);
    if g.blocks[b].next.Some? {
      UnchainProper(g, b, jump);
      ProperTwice(f, g, Unchain(g, b, jump));
    }
  }

  lemma ProperFacts(f: Cfg, g: Cfg)
    requires Proper(f, g)
    ensures Complete(g) && StillBranches(g) && f.blocks.Keys <= g.blocks.Keys
  {
  }

  /** The copy of a block is ready for the next round, the block itself does not loop any more. */
  lemma OnceProper(f: Cfg, b: BlockId, copy: BlockId, opcodes: Opcodes)
    requires Complete(f) && StillBranches(f) && Ready(f, b) && copy !in f.blocks && OpcodesRight(opcodes)
    ensures var h := UnrollOnce(f, b, copy, opcodes);
            && Proper(f, h) && h.blocks.Keys == f.blocks.Keys + {copy}
            && Ready(h, copy) && !Loops(h, b)
            && (forall c | c in f.blocks && c != b :: h.blocks[c].instrs == f.blocks[c].instrs)
  {
    hide Complete, StillBranches, Proper, Invertible, CopyLoop, Invert, Ready, Loops;
    ReadyBlock(f, b);
    var g := CopyLoop(f, b, copy);
    CopyHas(f, b, copy);
    CopyProper(f, b, copy);
    CopyReady(f, b, copy);
    if UnrollOnce(f, b, copy, opcodes) != g {
      var m := |g.blocks[b].instrs|;
      var cc := opcodes(g.blocks[b].instrs[m - 2]).value;
      ProperFacts(f, g);
      InvertReady(cc, f, b, copy);
      var l := g.blocks[b].instrs[m - 1].kind.edge.value;
      InvertProper(cc, g, b, copy, l);
      ProperTwice(f, g, Invert(cc, g, b));
      InvertHas(cc, f, b, copy);
    }
  }

  lemma ReadyBlock(f: Cfg, b: BlockId)
    requires Ready(f, b)
    ensures b in f.blocks && f.blocks[b].next.None? && f.blocks[b].instrs != []
  {
  }

  lemma CopyHas(f: Cfg, b: BlockId, copy: BlockId)
    requires b in f.blocks && copy !in f.blocks
    ensures var g := CopyLoop(f, b, copy);
            g.blocks.Keys == f.blocks.Keys + {copy} && forall c | c in f.blocks && c != b :: g.blocks[c].instrs == f.blocks[c].instrs
  {
  }

  /** Inverting the branch to the copy leaves the copy as it is, and no loop in the block. */
  lemma InvertHas(cc: P.Condition, f: Cfg, b: BlockId, copy: BlockId)
    requires b in f.blocks && copy !in f.blocks && Ready(CopyLoop(f, b, copy), copy) && !Loops(CopyLoop(f, b, copy), b)
    requires var g := CopyLoop(f, b, copy);
             var instrs := g.blocks[b].instrs;
             |instrs| >= 2 && instrs[|instrs| - 1].kind != Branch(Some(copy)) && instrs[|instrs| - 2].kind == Branch(Some(copy))
    ensures var g := CopyLoop(f, b, copy);
            var h := Invert(cc, g, b);
            && h.blocks.Keys == f.blocks.Keys + {copy} && Ready(h, copy) && !Loops(h, b)
            && (forall c | c in f.blocks && c != b :: h.blocks[c].instrs == f.blocks[c].instrs)
  {
    CopyHas(f, b, copy);
    hide RetargetAll;
    var g := CopyLoop(f, b, copy);
    var h, m := Invert(cc, g, b), |g.blocks[b].instrs|;
    forall k | 0 <= k < |h.blocks[b].instrs| ensures !SelfBranch(h.blocks[b].instrs[k], b) {
      assert !SelfBranch(g.blocks[b].instrs[if k == m - 2 then m - 1 else k], b);
    }
  }

  lemma CopyReady(f: Cfg, b: BlockId, copy: BlockId)
    requires Ready(f, b) && copy !in f.blocks
    ensures Ready(CopyLoop(f, b, copy), copy) && !Loops(CopyLoop(f, b, copy), b)
  {
    var g, instrs, m := CopyLoop(f, b, copy), f.blocks[b].instrs, |f.blocks[b].instrs|;
    assert g.blocks[copy].instrs[m - 1] == Retarget(instrs[m - 1], b, copy);
    if m >= 2 {
      assert g.blocks[copy].instrs[m - 2] == Retarget(instrs[m - 2], b, copy);
    }
    assert Still(instrs[m - 1]) ==> Still(Retarget(instrs[m - 1], b, copy));
  }

  lemma InvertReady(cc: P.Condition, f: Cfg, b: BlockId, copy: BlockId)
    requires Ready(f, b) && copy !in f.blocks && Complete(CopyLoop(f, b, copy)) && StillBranches(f)
    requires var instrs, m := CopyLoop(f, b, copy).blocks[b].instrs, |CopyLoop(f, b, copy).blocks[b].instrs|;
             m >= 2 && instrs[m - 1].kind != Branch(Some(copy)) && instrs[m - 2].kind == Branch(Some(copy)) && P.HasCondition(instrs[m - 2], cc)
    ensures var g := CopyLoop(f, b, copy);
            var l := g.blocks[b].instrs[|g.blocks[b].instrs| - 1];
            l.kind.Branch? && l.kind.edge.Some? && Invertible(cc, g, b, copy, l.kind.edge.value)
  {
    var instrs, m := f.blocks[b].instrs, |f.blocks[b].instrs|;
    assert AllStill(instrs);
    var g := CopyLoop(f, b, copy);
    assert g.blocks[b].instrs[m - 1] == Retarget(instrs[m - 1], b, copy);
    assert g.blocks[b].instrs[m - 2] == Retarget(instrs[m - 2], b, copy);
    assert SelfBranch(instrs[m - 2], b);
    assert Still(instrs[m - 2]);
    assert Still(g.blocks[b].instrs[m - 2]);
  }

  /** Unrolling a prepared loop any number of times changes no run from any block of the function;
      the block and all copies but the last have stopped looping on themselves. */
  lemma {:induction false} UnrollProper(f: Cfg, b: BlockId, copies: seq<BlockId>, opcodes: Opcodes)
    requires Complete(f) && StillBranches(f) && Ready(f, b) && Fresh(f, copies) && OpcodesRight(opcodes)
    ensures var g := Unroll(f, b, copies, opcodes);
            && Proper(f, g)
            && (forall c | c in f.blocks && c != b :: g.blocks[c].instrs == f.blocks[c].instrs)
            && (copies != [] ==> b in g.blocks && !Loops(g, b))
            && (forall k | 0 <= k < |copies| - 1 :: copies[k] in g.blocks && !Loops(g, copies[k]))
    decreases copies
  {
    if copies == [] {
      ProperSelf(f);
    } else {
      OnceProper(f, b, copies[0], opcodes);
      var g := UnrollOnce(f, b, copies[0], opcodes);
      assert Fresh(g, copies[1..]);
      hide UnrollOnce, Complete, StillBranches, Ready;
      UnrollProper(g, copies[0], copies[1..], opcodes);
      var h := Unroll(g, copies[0], copies[1..], opcodes);
      ProperTwice(f, g, h);
      StaysUnlooped(g, h, b);
      forall k | 0 <= k < |copies| - 1 ensures copies[k] in h.blocks && !Loops(h, copies[k]) {
        assert k > 0 ==> copies[1..][k - 1] == copies[k];
      }
    }
  }

  lemma StaysUnlooped(g: Cfg, h: Cfg, b: BlockId)
    requires b in g.blocks && b in h.blocks && h.blocks[b].instrs == g.blocks[b].instrs && !Loops(g, b)
    ensures !Loops(h, b)
  {
  }

  /** The whole pass on one loop: split, unchain, copy, retarget and invert. */
  function UnrollLoop(f: Cfg, b: BlockId, rest: BlockId, jump: InstrId, copies: seq<BlockId>, opcodes: Opcodes): Cfg
    requires b in f.blocks && Fresh(f, [rest] + copies)
  {
    assert ([rest] + copies)[0] !in f.blocks;
    PrepareFresh(f, b, rest, jump, copies);
    Unroll(Prepare(f, b, rest, jump), b, copies, opcodes)
  }

  lemma PrepareFresh(f: Cfg, b: BlockId, rest: BlockId, jump: InstrId, copies: seq<BlockId>)
    requires b in f.blocks && Fresh(f, [rest] + copies)
    ensures rest !in f.blocks && b in Prepare(f, b, rest, jump).blocks && Fresh(Prepare(f, b, rest, jump), copies)
  {
    var all := [rest] + copies;
    assert all[0] !in f.blocks;
    assert forall k | 0 <= k < |copies| :: copies[k] == all[k + 1] && all[k + 1] != all[0];
  }

  lemma UnrollLoopPreserves(f: Cfg, b: BlockId, rest: BlockId, jump: InstrId, copies: seq<BlockId>, opcodes: Opcodes, e: BlockId, s: State)
    requires Complete(f) && StillBranches(f) && b in f.blocks && Loops(f, b) && Fresh(f, [rest] + copies) && e in f.blocks && OpcodesRight(opcodes)
    ensures SameFrom(f, UnrollLoop(f, b, rest, jump, copies, opcodes), At(e, 0, s), At(e, 0, s))
  {
    PrepareFresh(f, b, rest, jump, copies);
    PrepareProper(f, b, rest, jump);
    var g := Prepare(f, b, rest, jump);
    hide Prepare, Ready, Complete, StillBranches, SameFrom;
    UnrollProper(g, b, copies, opcodes);
    ProperTwice(f, g, Unroll(g, b, copies, opcodes));
  }
}

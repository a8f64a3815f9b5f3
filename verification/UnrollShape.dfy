/** What unrolling makes of a block that loops on itself: block by block, instruction by instruction. */
module UnrollShape {
  import opened Machine
  import opened Surgery
  import opened Unrolling
  import P = Predicates

  /** The instructions as they are, but that branches to b lead to c. */
  ghost predicate Sent(s: seq<Instr>, t: seq<Instr>, b: BlockId, c: BlockId) {
    |t| == |s| && forall j | 0 <= j < |s| :: t[j] == s[j].(kind := if s[j].kind == Branch(Some(b)) then Branch(Some(c)) else s[j].kind)
  }

  /** The instructions end with a branch to b that can be inverted, and a jump elsewhere. */
  predicate Turns(s: seq<Instr>, b: BlockId, opcodes: Opcodes) {
    && |s| >= 2 && s[|s| - 2].kind == Branch(Some(b)) && opcodes(s[|s| - 2]).Some?
    && s[|s| - 1].kind.Branch? && s[|s| - 1].kind.edge.Some? && s[|s| - 1].kind != Branch(Some(b))
  }

  /** The branch is gone, and the jump is a conditional one, taken exactly if that branch would not have been. */
  ghost predicate Turned(s: seq<Instr>, t: seq<Instr>, b: BlockId, c: BlockId) {
    && |s| >= 2 && |t| == |s| - 1 && Sent(s[..|s| - 2], t[..|s| - 2], b, c)
    && var jcc, jmp, i := s[|s| - 2], s[|s| - 1], t[|s| - 2];
       && i.kind == jmp.kind && i.hasPredicate && i.info == jcc.info && i.id == jmp.id && i.exec == jmp.exec
       && forall st: State :: i.holds(st) <==> !jcc.holds(st)
  }

  /** Block c goes to d instead of round, or falls through to it. */
  ghost predicate Handed(g: Cfg, s: seq<Instr>, b: BlockId, c: BlockId, d: BlockId, opcodes: Opcodes) {
    && c in g.blocks && d in g.blocks
    && if Turns(s, b, opcodes) then
         Turned(s, g.blocks[c].instrs, b, d) && g.blocks[c].next == Some(d) && g.blocks[d].prev == Some(c)
       else
         Sent(s, g.blocks[c].instrs, b, d) && g.blocks[c].next == None && g.blocks[d].prev == None
  }

  /** The blocks of the chain hand on from one to the next; the last one loops on itself. */
  ghost predicate Rounds(g: Cfg, s: seq<Instr>, b: BlockId, chain: seq<BlockId>, opcodes: Opcodes) {
    && chain != [] && chain[0] == b
    && (forall i | 0 <= i < |chain| - 1 :: Handed(g, s, b, chain[i], chain[i + 1], opcodes))
    && var last := chain[|chain| - 1]; last in g.blocks && Sent(s, g.blocks[last].instrs, b, last) && g.blocks[last].next == None
  }

  /** Blocks that a branch of s leads to. */
  ghost predicate KnownTargets(s: seq<Instr>, known: set<BlockId>) {
    forall j, d | 0 <= j < |s| && s[j].kind == Branch(Some(d)) :: d in known
  }

  // ---- one round ----

  lemma CopySends(f: Cfg, b: BlockId, copy: BlockId)
    requires b in f.blocks && copy !in f.blocks && f.blocks[b].next.None?
    ensures var g := CopyLoop(f, b, copy);
            && g.blocks.Keys == f.blocks.Keys + {copy} && (forall c | c in f.blocks && c != b :: g.blocks[c] == f.blocks[c])
            && Sent(f.blocks[b].instrs, g.blocks[b].instrs, b, copy) && g.blocks[b].next == None && g.blocks[b].prev == f.blocks[b].prev
            && g.blocks[copy].instrs == g.blocks[b].instrs && g.blocks[copy].next == None && g.blocks[copy].prev == None
  {
  }

  lemma InvertTurns(cc: P.Condition, f: Cfg, g: Cfg, b: BlockId, copy: BlockId)
    requires b in f.blocks && b in g.blocks && copy in g.blocks && b != copy && Sent(f.blocks[b].instrs, g.blocks[b].instrs, b, copy)
    requires var s := f.blocks[b].instrs;
             && |s| >= 2 && s[|s| - 2].kind == Branch(Some(b)) && s[|s| - 1].kind.Branch? && s[|s| - 1].kind != Branch(Some(b))
             && P.HasCondition(g.blocks[b].instrs[|s| - 2], cc)
    ensures var h := Invert(cc, g, b);
            && Turned(f.blocks[b].instrs, h.blocks[b].instrs, b, copy) && h.blocks[b].next == Some(copy) && h.blocks[copy].prev == Some(b)
            && h.blocks[copy].instrs == g.blocks[copy].instrs && h.blocks[copy].next == g.blocks[copy].next && h.blocks[b].prev == g.blocks[b].prev
            && h.blocks.Keys == g.blocks.Keys && forall c | c in g.blocks && c != b && c != copy :: h.blocks[c] == g.blocks[c]
  {
    var s, t, h := f.blocks[b].instrs, g.blocks[b].instrs, Invert(cc, g, b);
    var m := |s|;
    assert t[m - 2] == s[m - 2].(kind := Branch(Some(copy)));
    assert h.blocks[b].instrs == t[..m - 2] + [Inverted(cc, t[m - 2], t[m - 1])];
    var i, o := Inverted(cc, t[m - 2], t[m - 1]), s[m - 2];
    forall st: State ensures i.holds(st) <==> !o.holds(st) { P.ConditionInverted(cc, st); }
  }

  /** One round on the block: it hands on to its copy, which is what it was. */
  lemma OnceHands(f: Cfg, b: BlockId, copy: BlockId, opcodes: Opcodes)
    requires Ready(f, b) && copy !in f.blocks && OpcodesRight(opcodes) && KnownTargets(f.blocks[b].instrs, f.blocks.Keys)
    requires forall i: Instr | i.kind == Branch(Some(b)) :: opcodes(i.(kind := Branch(Some(copy)))) == opcodes(i)
    ensures var h := UnrollOnce(f, b, copy, opcodes);
            && Handed(h, f.blocks[b].instrs, b, b, copy, opcodes)
            && Sent(f.blocks[b].instrs, h.blocks[copy].instrs, b, copy) && h.blocks[copy].next == None
            && h.blocks.Keys == f.blocks.Keys + {copy} && h.blocks[b].prev == f.blocks[b].prev
            && forall c | c in f.blocks && c != b :: h.blocks[c] == f.blocks[c]
  {
    var s, g := f.blocks[b].instrs, CopyLoop(f, b, copy);
    var m := |s|;
    CopySends(f, b, copy);
    hide CopyLoop, Invert;
    var t := g.blocks[b].instrs;
    assert m >= 2 ==> t[m - 2] == s[m - 2].(kind := if s[m - 2].kind == Branch(Some(b)) then Branch(Some(copy)) else s[m - 2].kind);
    assert m >= 2 && s[m - 2].kind == Branch(Some(copy)) ==> copy in f.blocks.Keys;
    assert s[m - 1].kind == Branch(Some(copy)) ==> copy in f.blocks.Keys;
    if Turns(s, b, opcodes) {
      assert opcodes(t[m - 2]) == opcodes(s[m - 2]);
      InvertTurns(opcodes(t[m - 2]).value, f, g, b, copy);
    }
  }

  // ---- any number of them ----

  lemma SentOn(s: seq<Instr>, t: seq<Instr>, u: seq<Instr>, b: BlockId, c: BlockId, d: BlockId, known: set<BlockId>)
    requires Sent(s, t, b, c) && Sent(t, u, c, d) && KnownTargets(s, known) && (c == b || c !in known)
    ensures Sent(s, u, b, d)
  {
    forall j | 0 <= j < |s| ensures u[j] == s[j].(kind := if s[j].kind == Branch(Some(b)) then Branch(Some(d)) else s[j].kind) {
      assert t[j] == s[j].(kind := if s[j].kind == Branch(Some(b)) then Branch(Some(c)) else s[j].kind);
      assert s[j].kind == Branch(Some(c)) ==> c in known;
    }
  }

  lemma TurnedOn(s: seq<Instr>, t: seq<Instr>, u: seq<Instr>, b: BlockId, c: BlockId, d: BlockId, known: set<BlockId>)
    requires Sent(s, t, b, c) && Turned(t, u, c, d) && KnownTargets(s, known) && (c == b || c !in known)
    requires s[|s| - 1].kind != Branch(Some(b))
    ensures Turned(s, u, b, d)
  {
    var m := |s|;
    assert t[m - 1] == s[m - 1].(kind := s[m - 1].kind);
    assert forall j | 0 <= j < m - 2 :: s[..m - 2][j] == s[j] && t[..m - 2][j] == t[j];
    SentOn(s[..m - 2], t[..m - 2], u[..m - 2], b, c, d, known);
  }

  /** Whether it turns is the same of a block and of its copies. */
  lemma TurnsStill(s: seq<Instr>, t: seq<Instr>, b: BlockId, c: BlockId, opcodes: Opcodes, known: set<BlockId>)
    requires Sent(s, t, b, c) && KnownTargets(s, known) && (c == b || c !in known)
    requires forall i: Instr | i.kind == Branch(Some(b)) :: opcodes(i.(kind := Branch(Some(c)))) == opcodes(i)
    ensures Turns(t, c, opcodes) <==> Turns(s, b, opcodes)
  {
    var m := |s|;
    if m >= 2 {
      var i, j := s[m - 2], s[m - 1];
      assert t[m - 2] == i.(kind := if i.kind == Branch(Some(b)) then Branch(Some(c)) else i.kind);
      assert t[m - 1] == j.(kind := if j.kind == Branch(Some(b)) then Branch(Some(c)) else j.kind);
      assert i.kind == Branch(Some(c)) ==> c in known;
      assert j.kind == Branch(Some(c)) ==> c in known;
    }
  }

  lemma HandedOn(h: Cfg, s: seq<Instr>, t: seq<Instr>, b: BlockId, c: BlockId, d: BlockId, opcodes: Opcodes, known: set<BlockId>)
    requires Sent(s, t, b, c) && Handed(h, t, c, c, d, opcodes) && KnownTargets(s, known) && (c == b || c !in known)
    requires forall i: Instr | i.kind == Branch(Some(b)) :: opcodes(i.(kind := Branch(Some(c)))) == opcodes(i)
    ensures Handed(h, s, b, c, d, opcodes)
  {
    TurnsStill(s, t, b, c, opcodes, known);
    if Turns(s, b, opcodes) {
      TurnedOn(s, t, h.blocks[c].instrs, b, c, d, known);
    } else {
      SentOn(s, t, h.blocks[c].instrs, b, c, d, known);
    }
  }

  /** Blocks are told from all that were known, and from each other. */
  ghost predicate Apart(chain: seq<BlockId>, known: set<BlockId>) {
    && (forall i | 0 < i < |chain| :: chain[i] !in known)
    && (forall i, j | 0 <= i < j < |chain| :: chain[i] != chain[j])
  }

  lemma HandedStays(g: Cfg, h: Cfg, s: seq<Instr>, b: BlockId, c: BlockId, d: BlockId, opcodes: Opcodes)
    requires Handed(g, s, b, c, d, opcodes) && c in h.blocks && d in h.blocks
    requires h.blocks[c] == g.blocks[c] && h.blocks[d].prev == g.blocks[d].prev
    ensures Handed(h, s, b, c, d, opcodes)
  {
  }

  lemma SentTargets(s: seq<Instr>, t: seq<Instr>, b: BlockId, c: BlockId, known: set<BlockId>)
    requires Sent(s, t, b, c) && KnownTargets(s, known)
    ensures KnownTargets(t, known + {c})
  {
    forall j, d | 0 <= j < |t| && t[j].kind == Branch(Some(d)) ensures d in known + {c} {
      assert t[j] == s[j].(kind := if s[j].kind == Branch(Some(b)) then Branch(Some(c)) else s[j].kind);
      assert s[j].kind == Branch(Some(d)) ==> d in known;
    }
  }

  /** After one more round. */
  lemma OneMore(g: Cfg, s: seq<Instr>, b: BlockId, chain: seq<BlockId>, copy: BlockId, opcodes: Opcodes, known: set<BlockId>)
    requires Rounds(g, s, b, chain, opcodes) && KnownTargets(s, known) && known <= g.blocks.Keys && Apart(chain, known) && b in known
    requires copy !in g.blocks && Ready(g, chain[|chain| - 1]) && OpcodesRight(opcodes)
    requires forall i: Instr, d: Option<BlockId> | i.kind.Branch? :: opcodes(i.(kind := Branch(d))) == opcodes(i)
    ensures Rounds(UnrollOnce(g, chain[|chain| - 1], copy, opcodes), s, b, chain + [copy], opcodes) && Apart(chain + [copy], known)
    ensures forall c | c in known && c != b :: UnrollOnce(g, chain[|chain| - 1], copy, opcodes).blocks[c] == g.blocks[c]
  {
    var n := |chain| - 1;
    var cur := chain[n];
    var t := g.blocks[cur].instrs;
    SentTargets(s, t, b, cur, known);
    assert known + {cur} <= g.blocks.Keys;
    OnceHands(g, cur, copy, opcodes);
    hide UnrollOnce, Ready, Sent, OpcodesRight, Turns, Turned, KnownTargets;
    var h := UnrollOnce(g, cur, copy, opcodes);
    HandedOn(h, s, t, b, cur, copy, opcodes, known);
    SentOn(s, t, h.blocks[copy].instrs, b, cur, copy, known);
    hide Handed;
    ChainThere(g, s, b, chain, opcodes);
    RoundsExtend(g, h, s, b, chain, copy, opcodes);
  }

  lemma ChainThere(g: Cfg, s: seq<Instr>, b: BlockId, chain: seq<BlockId>, opcodes: Opcodes)
    requires Rounds(g, s, b, chain, opcodes)
    ensures forall i | 0 <= i < |chain| :: chain[i] in g.blocks
  {
    forall i | 0 <= i < |chain| ensures chain[i] in g.blocks {
      assert i < |chain| - 1 ==> Handed(g, s, b, chain[i], chain[i + 1], opcodes);
    }
  }

  lemma RoundsExtend(g: Cfg, h: Cfg, s: seq<Instr>, b: BlockId, chain: seq<BlockId>, copy: BlockId, opcodes: Opcodes)
    requires Rounds(g, s, b, chain, opcodes) && copy !in g.blocks && h.blocks.Keys == g.blocks.Keys + {copy}
    requires forall i, j | 0 <= i < j < |chain| :: chain[i] != chain[j]
    requires forall c | c in g.blocks && c != chain[|chain| - 1] :: h.blocks[c] == g.blocks[c]
    requires h.blocks[chain[|chain| - 1]].prev == g.blocks[chain[|chain| - 1]].prev
    requires Handed(h, s, b, chain[|chain| - 1], copy, opcodes)
    requires Sent(s, h.blocks[copy].instrs, b, copy) && h.blocks[copy].next == None
    ensures Rounds(h, s, b, chain + [copy], opcodes)
  {
    var n, more := |chain| - 1, chain + [copy];
    hide Sent, Turns, Turned;
    ChainThere(g, s, b, chain, opcodes);
    forall i | 0 <= i < |more| - 1 ensures Handed(h, s, b, more[i], more[i + 1], opcodes) {
      if i < n {
        assert Handed(g, s, b, chain[i], chain[i + 1], opcodes);
        hide Handed;
        HandedStays(g, h, s, b, chain[i], chain[i + 1], opcodes);
      }
    }
  }

  // ---- the block prepared ----

  /** Behind the last branch to b, at k, goes a block of its own, or the fallthrough; a jump leads there. */
  ghost predicate Prepared(f: Cfg, b: BlockId, k: nat, rest: BlockId, jump: InstrId, s: seq<Instr>)
    requires b in f.blocks
  {
    var t := f.blocks[b].instrs;
    && k < |t| && t[k].kind == Branch(Some(b)) && (forall j | k < j < |t| :: t[j].kind != Branch(Some(b)))
    && var exit := if k + 1 < |t| then Some(rest) else f.blocks[b].next;
       s == t[..k + 1] + (if exit.Some? then [Jump(jump, exit.value)] else [])
  }

  /** What the rest of the block has become, and that no other block has changed. */
  ghost predicate Others(f: Cfg, g: Cfg, b: BlockId, k: nat, rest: BlockId)
    requires b in f.blocks && k < |f.blocks[b].instrs|
  {
    && (forall c | c in f.blocks && c != b :: c in g.blocks && g.blocks[c].instrs == f.blocks[c].instrs && g.blocks[c].next == f.blocks[c].next)
    && (k + 1 < |f.blocks[b].instrs| ==>
          rest in g.blocks && g.blocks[rest].instrs == f.blocks[b].instrs[k + 1..] && g.blocks[rest].next == f.blocks[b].next
          && g.blocks[rest].prev == None)
  }

  lemma PreparedIs(f: Cfg, b: BlockId, rest: BlockId, jump: InstrId) returns (k: nat)
    requires b in f.blocks && rest !in f.blocks && Loops(f, b)
    ensures var g := Prepare(f, b, rest, jump);
            && Prepared(f, b, k, rest, jump, g.blocks[b].instrs) && g.blocks[b].next == None && Others(f, g, b, k, rest)
  {
    LastSelf(f.blocks[b].instrs, b);
    k := AfterLastSelf(f.blocks[b].instrs, b) - 1;
    var t := f.blocks[b].instrs;
    assert t[..|t|] == t;
    hide AfterLastSelf, Loops;
  }

  lemma StartRounds(g: Cfg, b: BlockId, opcodes: Opcodes)
    requires b in g.blocks && g.blocks[b].next == None
    ensures Rounds(g, g.blocks[b].instrs, b, [b], opcodes)
  {
    var s := g.blocks[b].instrs;
    forall j | 0 <= j < |s| ensures s[j] == s[j].(kind := if s[j].kind == Branch(Some(b)) then Branch(Some(b)) else s[j].kind) { }
  }

  lemma CompleteTargets(f: Cfg, b: BlockId)
    requires Complete(f) && b in f.blocks
    ensures KnownTargets(f.blocks[b].instrs, f.blocks.Keys)
  {
  }

  lemma OthersStay(f: Cfg, g: Cfg, h: Cfg, b: BlockId, k: nat, rest: BlockId, known: set<BlockId>)
    requires b in f.blocks && k < |f.blocks[b].instrs| && Others(f, g, b, k, rest) && known <= g.blocks.Keys && rest != b
    requires f.blocks.Keys <= known && (k + 1 < |f.blocks[b].instrs| ==> rest in known)
    requires forall c | c in known && c != b :: c in h.blocks && h.blocks[c] == g.blocks[c]
    ensures Others(f, h, b, k, rest)
  {
  }

  /** The pass on one loop of f has made g. */
  ghost predicate Unrolled(f: Cfg, g: Cfg, b: BlockId, k: nat, rest: BlockId, jump: InstrId, copies: seq<BlockId>, opcodes: Opcodes) {
    b in f.blocks && exists s: seq<Instr> :: Prepared(f, b, k, rest, jump, s) && Rounds(g, s, b, [b] + copies, opcodes) && Others(f, g, b, k, rest)
  }
}

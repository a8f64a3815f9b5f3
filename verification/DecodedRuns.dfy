/** The graph decoded from memory runs like the memory itself, read one instruction after the other. */
module DecodedRuns {
  import opened Machine
  import opened Links
  import opened Simulation
  import opened Reconstruction

  // ---- the processor reading the text ----

  /** A configuration of the processor has the address in place of the block. */
  function Fetch(t: Text, c: Config): Config {
    if !c.At? then c
    else match t.decode(c.block)
      case Bad => Stuck
      case Nop(len) => At(c.block + len, 0, c.s)
      case Insn(i, len, _, target) =>
        if !i.holds(c.s) then At(c.block + len, 0, c.s)
        else match i.kind
          case Plain => At(c.block + len, 0, i.exec(c.s))
          case Branch(_) => if target.Some? then At(target.value, 0, i.exec(c.s)) else Left(c.s)
          case Call => Left(c.s)
          case Ret => Returned(c.s)
  }

  function Fetched(t: Text, c: Config): seq<Executed> {
    if !c.At? then []
    else match t.decode(c.block)
      case Insn(i, _, _, target) => if i.kind.Branch? && target.Some? then [] else Record(i, c.s)
      case _ => []
  }

  function Processor(t: Text): System { System(c => Fetch(t, c), c => Fetched(t, c)) }

  // ---- where both are ----

  /** What is left to execute in a block and behind it. */
  ghost function Rest(t: Text, r: Recon, b: BlockId, pc: nat): Option<seq<Instr>>
    requires WellText(t) && b in r.f.blocks && pc <= |r.f.blocks[b].instrs|
  {
    var here := Bares(r.f.blocks[b].instrs)[pc..];
    match r.f.blocks[b].next
    case None => Some(here)
    case Some(n) =>
      if n !in r.key then None
      else match Stream(t, r.key[n])
        case None => None
        case Some(s) => Some(here + s)
  }

  /** All of the code has been decoded, and all edges are there. */
  ghost predicate Complete(t: Text, r: Recon) {
    WellText(t) && Reads(t, r) && forall b | b in r.f.blocks :: Resolved(t, r.f, b)
  }

  ghost predicate SameRest(t: Text, r: Recon, a: Addr, b: BlockId, pc: nat)
    requires WellText(t)
  {
    && b in r.f.blocks && pc <= |r.f.blocks[b].instrs|
    && Rest(t, r, b, pc).Some? && Rest(t, r, b, pc) == Stream(t, a)
  }

  ghost predicate Together(t: Text, r: Recon, c: Config, c': Config)
  {
    if c.At? && c'.At? then WellText(t) && c.pc == 0 && c.s == c'.s && SameRest(t, r, c.block, c'.block, c'.pc) else c == c' && !c.At?
  }

  lemma AtStart(t: Text, r: Recon, b: BlockId)
    requires Complete(t, r) && b in r.f.blocks
    ensures SameRest(t, r, r.key[b], b, 0)
  {
    hide Stream, Resolved;
    assert BlockReads(t, r, b);
    assert Bares(r.f.blocks[b].instrs)[0..] == Bares(r.f.blocks[b].instrs);
  }

  /** At the end of a block there is always another. */
  lemma AtEnd(t: Text, r: Recon, a: Addr, b: BlockId)
    requires Complete(t, r) && b in r.f.blocks && SameRest(t, r, a, b, |r.f.blocks[b].instrs|)
    ensures var next := r.f.blocks[b].next;
            next.Some? && next.value in r.f.blocks && r.key[next.value] > r.key[b] && SameRest(t, r, a, next.value, 0)
  {
    hide Stream;
    StreamNonempty(t, a);
    assert BlockReads(t, r, b);
    var here := Bares(r.f.blocks[b].instrs);
    assert here[|here|..] == [];
    assert Rest(t, r, b, |here|).value == Stream(t, r.key[r.f.blocks[b].next.value]).value;
    AtStart(t, r, r.f.blocks[b].next.value);
  }

  /** The graph gets to the next instruction without executing anything. */
  lemma {:induction false} Settle(t: Text, r: Recon, a: Addr, b: BlockId, pc: nat, s: State) returns (n: nat, b': BlockId, pc': nat)
    requires Complete(t, r) && SameRest(t, r, a, b, pc)
    ensures Go(Graph(r.f), n, At(b, pc, s)) == At(b', pc', s) && Log(Graph(r.f), n, At(b, pc, s)) == []
    ensures SameRest(t, r, a, b', pc') && pc' < |r.f.blocks[b'].instrs|
    decreases var k := if b in r.key then r.key[b] else 0; if k < t.limit then t.limit - k else 0
  {
    hide Stream, Rest, SameRest, Reads;
    Inside(t, r, a, b, pc);
    if pc < |r.f.blocks[b].instrs| {
      n, b', pc' := 0, b, pc;
    } else {
      AtEnd(t, r, a, b);
      var next := r.f.blocks[b].next.value;
      KeyBound(t, r, next);
      KeyBound(t, r, b);
      var m: nat;
      m, b', pc' := Settle(t, r, a, next, 0, s);
      n := m + 1;
      assert Step(r.f, At(b, pc, s)) == At(next, 0, s);
      assert Recorded(r.f, At(b, pc, s)) == [];
    }
  }

  lemma Inside(t: Text, r: Recon, a: Addr, b: BlockId, pc: nat)
    requires WellText(t) && SameRest(t, r, a, b, pc)
    ensures b in r.f.blocks && pc <= |r.f.blocks[b].instrs|
  {
    hide Stream;
  }

  lemma KeyBound(t: Text, r: Recon, b: BlockId)
    requires WellText(t) && Reads(t, r) && b in r.f.blocks
    ensures b in r.key && r.key[b] < t.limit
  {
    hide Stream;
    assert BlockReads(t, r, b);
    StreamNonempty(t, r.key[b]);
  }

  /** The processor gets to the next instruction without executing anything. */
  lemma {:induction false} SkipNops(t: Text, a: Addr, s: State) returns (n: nat, a': Addr)
    requires WellText(t) && Stream(t, a).Some?
    ensures Go(Processor(t), n, At(a, 0, s)) == At(a', 0, s) && Log(Processor(t), n, At(a, 0, s)) == []
    ensures t.decode(a').Insn? && Stream(t, a') == Stream(t, a)
    decreases if a < t.limit then t.limit - a else 0
  {
    assert WellDecoded(t, a);
    match t.decode(a)
    case Insn(_, _, _, _) => n, a' := 0, a;
    case Nop(len) =>
      var m: nat;
      m, a' := SkipNops(t, a + len, s);
      n := m + 1;
      assert Fetch(t, At(a, 0, s)) == At(a + len, 0, s);
  }

  // ---- one instruction ----

  lemma HeadIs(t: Text, r: Recon, a: Addr, b: BlockId, pc: nat)
    requires WellText(t) && SameRest(t, r, a, b, pc) && t.decode(a).Insn? && pc < |r.f.blocks[b].instrs|
    ensures Unlinked(r.f.blocks[b].instrs[pc]) == t.decode(a).instr
    ensures !t.decode(a).ends ==> SameRest(t, r, a + t.decode(a).len, b, pc + 1)
  {
    var here := Bares(r.f.blocks[b].instrs);
    assert here[pc..] == [here[pc]] + here[pc + 1..];
    assert WellDecoded(t, a);
    var d := t.decode(a);
    assert Stream(t, a).value[0] == d.instr;
    assert Rest(t, r, b, pc).value[0] == here[pc];
    if !d.ends {
      assert Stream(t, a).value[1..] == Stream(t, a + d.len).value;
      assert Rest(t, r, b, pc).value[1..] == Rest(t, r, b, pc + 1).value;
    }
  }

  /** Both execute it alike and are together again. */
  lemma InsnMatches(t: Text, r: Recon, a: Addr, b: BlockId, pc: nat, s: State)
    requires Complete(t, r) && SameRest(t, r, a, b, pc) && t.decode(a).Insn? && pc < |r.f.blocks[b].instrs|
    ensures Together(t, r, Fetch(t, At(a, 0, s)), Step(r.f, At(b, pc, s)))
    ensures Fetched(t, At(a, 0, s)) == Recorded(r.f, At(b, pc, s))
  {
    hide Stream, Rest, SameRest, Reads, Leaves, EdgeRight;
    HeadIs(t, r, a, b, pc);
    Inside(t, r, a, b, pc);
    var i, d := r.f.blocks[b].instrs[pc], t.decode(a);
    assert WellDecoded(t, a);
    assert i.id == a && TargetOf(t, i) == d.target;
    if d.ends {
      AlwaysLeaves(d.instr, s);
    }
    assert Resolved(t, r.f, b);
    assert HasEdge(t, i);
    EdgeOf(t, r, b, pc);
    if i.kind.Branch? && i.kind.edge.Some? && i.holds(s) {
      EdgeLeads(t, r, i);
      TargetStart(t, r, d.target.value);
    }
  }

  lemma EdgeLeads(t: Text, r: Recon, i: Instr)
    requires EdgeRight(t, r, i) && i.kind.Branch? && i.kind.edge.Some?
    ensures TargetOf(t, i).Some? && TargetOf(t, i).value in r.blockMap && r.blockMap[TargetOf(t, i).value] == i.kind.edge.value
  {
  }

  lemma AlwaysLeaves(i: Instr, s: State)
    requires Leaves(i)
    ensures i.holds(s) && !i.kind.Plain?
  {
  }

  lemma EdgeOf(t: Text, r: Recon, b: BlockId, pc: nat)
    requires WellText(t) && Reads(t, r) && b in r.f.blocks && pc < |r.f.blocks[b].instrs|
    ensures EdgeRight(t, r, r.f.blocks[b].instrs[pc])
  {
    hide Stream;
  }

  lemma TargetStart(t: Text, r: Recon, a: Addr)
    requires Complete(t, r) && a in r.blockMap
    ensures SameRest(t, r, a, r.blockMap[a], 0)
  {
    hide Stream, BlockReads, SameRest;
    AtStart(t, r, r.blockMap[a]);
  }

  // ---- runs ----

  lemma ProcessorFollowed(t: Text, r: Recon, c: Config, c': Config)
    requires Complete(t, r) && Together(t, r, c, c')
    ensures Matched(Processor(t), Graph(r.f), (x, y) => Complete(t, r) && Together(t, r, x, y), c, c')
  {
    hide Stream, Rest, SameRest, Reads, Complete;
    var rel: Relation := (x, y) => Complete(t, r) && Together(t, r, x, y);
    var m, m' := Processor(t), Graph(r.f);
    if !c.At? {
      StaysPut(t, r, c);
      assert Follows(m, m', rel, c, c', 0);
    } else {
      var n, b', pc' := Settle(t, r, c.block, c'.block, c'.pc, c'.s);
      SomeStream(t, r, c.block, c'.block, c'.pc);
      if t.decode(c.block).Nop? {
        NopStep(t, r, c, c');
        assert Follows(m, m', rel, c, c', 0);
      } else {
        InsnMatches(t, r, c.block, b', pc', c.s);
        GoSplit(m', n, 1, c');
        GoOne(m', At(b', pc', c.s));
        assert Follows(m, m', rel, c, c', n + 1);
      }
    }
  }

  lemma StaysPut(t: Text, r: Recon, c: Config)
    requires !c.At?
    ensures Processor(t).step(c) == c == Graph(r.f).step(c) && Processor(t).log(c) == [] == Graph(r.f).log(c)
  {
  }

  lemma SomeStream(t: Text, r: Recon, a: Addr, b: BlockId, pc: nat)
    requires WellText(t) && SameRest(t, r, a, b, pc)
    ensures Stream(t, a).Some? && !t.decode(a).Bad?
  {
    hide Rest;
  }

  lemma NopStream(t: Text, a: Addr)
    requires WellText(t) && t.decode(a).Nop?
    ensures Stream(t, a + t.decode(a).len) == Stream(t, a)
  {
    assert WellDecoded(t, a);
  }

  lemma NopStep(t: Text, r: Recon, c: Config, c': Config)
    requires WellText(t) && c.At? && c'.At? && Together(t, r, c, c') && t.decode(c.block).Nop?
    ensures Together(t, r, Fetch(t, c), c') && Fetched(t, c) == []
  {
    hide Stream, Rest;
    NopStream(t, c.block);
  }

  lemma GraphFollowed(t: Text, r: Recon, c: Config, c': Config)
    requires Complete(t, r) && Together(t, r, c, c')
    ensures Matched(Graph(r.f), Processor(t), (x, y) => Complete(t, r) && Together(t, r, y, x), c', c)
  {
    hide Stream, Rest, SameRest, Reads, Complete;
    var rel: Relation := (x, y) => Complete(t, r) && Together(t, r, y, x);
    var m, m' := Graph(r.f), Processor(t);
    if !c.At? {
      StaysPut(t, r, c);
      assert Follows(m, m', rel, c', c, 0);
    } else {
      SomeStream(t, r, c.block, c'.block, c'.pc);
      Inside(t, r, c.block, c'.block, c'.pc);
      if c'.pc == |r.f.blocks[c'.block].instrs| {
        AtEnd(t, r, c.block, c'.block);
        assert m.step(c') == At(r.f.blocks[c'.block].next.value, 0, c'.s);
        assert Follows(m, m', rel, c', c, 0);
      } else {
        var n, a' := SkipNops(t, c.block, c.s);
        SameStream(t, r, c.block, a', c'.block, c'.pc);
        InsnMatches(t, r, a', c'.block, c'.pc, c.s);
        GoSplit(m', n, 1, c);
        GoOne(m', At(a', 0, c.s));
        assert Follows(m, m', rel, c', c, n + 1);
      }
    }
  }

  lemma SameStream(t: Text, r: Recon, a: Addr, a': Addr, b: BlockId, pc: nat)
    requires WellText(t) && SameRest(t, r, a, b, pc) && Stream(t, a) == Stream(t, a')
    ensures SameRest(t, r, a', b, pc)
  {
  }

  /** From any address in the map, the graph does what the processor does reading the text, and the other way
      round. */
  lemma DecodedRunsAlike(t: Text, r: Recon, a: Addr, s: State)
    requires Complete(t, r) && a in r.blockMap
    ensures Equivalent(Processor(t), At(a, 0, s), Graph(r.f), At(r.blockMap[a], 0, s))
  {
    hide Stream, Reads, Matched, SameRest, Refines;
    var rel: Relation := (x, y) => Complete(t, r) && Together(t, r, x, y);
    var rel': Relation := (x, y) => Complete(t, r) && Together(t, r, y, x);
    TargetStart(t, r, a);
    forall c, c' | rel(c, c') ensures Matched(Processor(t), Graph(r.f), rel, c, c') {
      ProcessorFollowed(t, r, c, c');
    }
    forall c', c | rel'(c', c) ensures Matched(Graph(r.f), Processor(t), rel', c', c) {
      GraphFollowed(t, r, c, c');
    }
    SimulationRefines(Processor(t), Graph(r.f), rel, At(a, 0, s), At(r.blockMap[a], 0, s));
    SimulationRefines(Graph(r.f), Processor(t), rel', At(r.blockMap[a], 0, s), At(a, 0, s));
  }
}

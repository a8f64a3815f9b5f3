/** How the blocks of a control flow graph hang together. */
module Links {
  import opened Machine

  /** The links of the graph match each other: next and prev are mutual inverses, the incoming
      list of a block has the sources of all branches to it, instruction ids are unique. */
  ghost predicate WellLinked(f: Cfg) {
    && Chained(f)
    && (forall b, s | b in f.blocks && s in f.blocks[b].incoming :: s in f.blocks)
    && (forall b, d | b in f.blocks && d in Targets(f.blocks[b].instrs) ::
          d in f.blocks && b in f.blocks[d].incoming)
    && UniqueIds(f)
  }

  /** prev and next are mutual inverses. */
  ghost predicate Chained(f: Cfg) {
    && (forall b | b in f.blocks && f.blocks[b].next.Some? ::
          f.blocks[b].next.value in f.blocks && f.blocks[f.blocks[b].next.value].prev == Some(b))
    && (forall b | b in f.blocks && f.blocks[b].prev.Some? ::
          f.blocks[b].prev.value in f.blocks && f.blocks[f.blocks[b].prev.value].next == Some(b))
  }

  function Ids(instrs: seq<Instr>): set<InstrId> {
    set k | 0 <= k < |instrs| :: instrs[k].id
  }

  ghost predicate UniqueIds(f: Cfg) {
    && (forall b, c | b in f.blocks && c in f.blocks && b != c ::
          Ids(f.blocks[b].instrs) !! Ids(f.blocks[c].instrs))
    && (forall b | b in f.blocks :: DistinctIds(f.blocks[b].instrs))
  }

  ghost predicate DistinctIds(instrs: seq<Instr>) {
    forall j, k | 0 <= j < k < |instrs| :: instrs[j].id != instrs[k].id
  }

  function Targets(instrs: seq<Instr>): set<BlockId> {
    set i | i in Edges(instrs) && i.Some? :: i.value
  }

  function Edges(instrs: seq<Instr>): set<Option<BlockId>> {
    set k | 0 <= k < |instrs| && instrs[k].kind.Branch? :: instrs[k].kind.edge
  }

  /** Fallthrough chains have an end. */
  ghost predicate ChainsEnd(f: Cfg, rank: map<BlockId, nat>) {
    && rank.Keys == f.blocks.Keys
    && forall b | b in f.blocks && f.blocks[b].next.Some? && f.blocks[b].next.value in f.blocks ::
         rank[f.blocks[b].next.value] < rank[b]
  }

  function Members(q: seq<BlockId>): set<BlockId> {
    set b | b in q
  }

  /** Sources of the edges into a block, and the block that falls through to it. */
  function Preds(b: Block): set<BlockId> {
    Members(b.incoming) + (if b.prev.Some? then {b.prev.value} else {})
  }
}

/** What dead code elimination leaves, said of the function and the recorded outcomes. */
module Cleaned {
  import opened Machine
  import opened Links
  import opened DeadCode
  import D = DeadWrite

  /** An instruction that may execute, by what has been recorded. */
  predicate MayExecute(i: Instr, dyn: map<InstrId, TriState>) { i.id in dyn && dyn[i.id] != False }

  /** A conditional branch recorded as always taken. */
  predicate AlwaysTaken(i: Instr, dyn: map<InstrId, TriState>) { i.kind.Branch? && i.hasPredicate && i.id in dyn && dyn[i.id] == True }

  /** The places at, in order and no others, are those of instructions that may execute. */
  ghost predicate Places(instrs: seq<Instr>, dyn: map<InstrId, TriState>, n: nat, at: seq<nat>) {
    && n <= |instrs| && (forall j | 0 <= j < |at| :: at[j] < n && MayExecute(instrs[at[j]], dyn))
    && (forall j, k | 0 <= j < k < |at| :: at[j] < at[k])
    && forall k: nat | k < n && MayExecute(instrs[k], dyn) :: k in at
  }

  /** The same instruction, but that a branch always taken is no conditional one any more, and that one to a block that
      is gone leads nowhere known. */
  ghost predicate Settled(i: Instr, j: Instr, dyn: map<InstrId, TriState>, entries: set<BlockId>, all: set<BlockId>) {
    && j.id == i.id && j.exec == i.exec && j.info == i.info && j.dynInfo == i.dynInfo
    && j.hasPredicate == (i.hasPredicate && !AlwaysTaken(i, dyn))
    && (forall s: State :: j.holds(s) <==> AlwaysTaken(i, dyn) || i.holds(s))
    && j.kind == if i.kind.Branch? && i.kind.edge.Some? && i.kind.edge.value in all && i.kind.edge.value !in entries then Branch(None) else i.kind
  }

  /** Exactly the blocks with an entry state are left, of each exactly the instructions that may execute, in their order, and
      the fallthrough unless a branch in it is always taken. */
  ghost predicate LeftOver(f: Cfg, dyn: map<InstrId, TriState>, entries: set<BlockId>, g: Cfg) {
    && g.blocks.Keys == entries
    && forall b | b in entries :: b in f.blocks && b in g.blocks && exists at :: BlockLeft(f, dyn, entries, g, b, at)
  }

  ghost predicate BlockLeft(f: Cfg, dyn: map<InstrId, TriState>, entries: set<BlockId>, g: Cfg, b: BlockId, at: seq<nat>)
    requires b in f.blocks && b in g.blocks
  {
    var s, t, next := f.blocks[b].instrs, g.blocks[b].instrs, f.blocks[b].next;
    && Places(s, dyn, |s|, at) && |t| == |at|
    && (forall j | 0 <= j < |t| :: Settled(s[at[j]], t[j], dyn, entries, f.blocks.Keys))
    && ((exists j :: 0 <= j < |at| && AlwaysTaken(s[at[j]], dyn)) || next == None ==> g.blocks[b].next == None)
    && ((forall j | 0 <= j < |at| :: !AlwaysTaken(s[at[j]], dyn)) && next.Some? && next.value in entries ==> g.blocks[b].next == next)
  }

  /** Where the instructions filtered have been. */
  lemma {:induction false} FilterPlaces(instrs: seq<Instr>, dyn: map<InstrId, TriState>, n: nat) returns (at: seq<nat>)
    requires n <= |instrs|
    ensures Places(instrs, dyn, n, at)
    ensures var left := D.FilterTo(instrs, Survivors(dyn), n); |left| == |at| && forall j | 0 <= j < |at| :: left[j] == instrs[at[j]]
  {
    at := [];
    if n > 0 {
      at := FilterPlaces(instrs, dyn, n - 1);
      if MayExecute(instrs[n - 1], dyn) {
        var before := at;
        at := at + [n - 1];
        forall k: nat | k < n && MayExecute(instrs[k], dyn) ensures k in at { assert k < n - 1 ==> k in before; }
      }
    }
  }

  lemma ShapedLeaves(f: Cfg, dyn: map<InstrId, TriState>, entries: set<BlockId>, g: Cfg)
    requires Shaped(f, dyn, entries, g)
    ensures LeftOver(f, dyn, entries, g)
  {
    forall b | b in entries ensures exists at :: BlockLeft(f, dyn, entries, g, b, at) {
      assert BlockShaped(f, dyn, entries, g, b);
      var s := f.blocks[b].instrs;
      var at := FilterPlaces(s, dyn, |s|);
      hide Survivors, D.FilterTo;
      var left := D.Filter(s, Survivors(dyn));
      forall j | 0 <= j < |at| ensures Sure(left[j], dyn) == AlwaysTaken(s[at[j]], dyn) { }
      assert BlockLeft(f, dyn, entries, g, b, at);
    }
  }
}
